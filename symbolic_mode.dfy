/**
 * ParseMode (src/winutils/chmod.c:734-926): the five-state machine that
 * turns a symbolic mode string such as "u+x,go-w" into the list of mode
 * change actions. A string here is the sequence of characters before its
 * terminating NUL; the machine reads that NUL too, at index |s|.
 */
module SymbolicMode {
  import opened ChmodTypes

  /** The states of the machine, in the order the source declares them. */
  datatype ParseState = WhoState | OpState | PermState | RefState | EndState

  /**
   * The variables of the parsing loop: the state, the index of the next
   * character, the action being built and the actions appended so far.
   */
  datatype Config = Config(state: ParseState, i: nat, action: Action, acts: seq<Action>)

  const NUL: char := 0 as char

  /** The character at index `i`, the terminating NUL at index |s|. */
  function CharAt(s: seq<char>, i: nat): char {
    if i < |s| then s[i] else NUL
  }

  predicate IsWhoChar(c: char) {
    c == 'a' || c == 'u' || c == 'g' || c == 'o'
  }

  predicate IsOpChar(c: char) {
    c == '+' || c == '-' || c == '='
  }

  predicate IsPermChar(c: char) {
    c == 'r' || c == 'w' || c == 'x' || c == 'X'
  }

  predicate IsRefChar(c: char) {
    c == 'u' || c == 'g' || c == 'o'
  }

  /** The class triple of a who or reference letter, WHO_NONE for any other character. */
  function ClassOf(c: char): Mode {
    if c == 'a' then WHO_ALL
    else if c == 'u' then WHO_USER
    else if c == 'g' then WHO_GROUP
    else if c == 'o' then WHO_OTHER
    else WHO_NONE
  }

  function OpOf(c: char): Op
    requires IsOpChar(c)
  {
    if c == '+' then OpPlus else if c == '-' then OpMinus else OpEqual
  }

  function PermOf(c: char): Perm
    requires IsPermChar(c)
  {
    if c == 'r' then PermR else if c == 'w' then PermW else if c == 'x' then PermX else PermLX
  }

  /** An action without who letters changes all classes. */
  function Default(who: Mode): (d: Mode)
    ensures d != WHO_NONE && (who != WHO_NONE ==> d == who)
  {
    if who == WHO_NONE then WHO_ALL else who
  }

  /**
   * The states a step may move to without reading a character, ranked so
   * that each such move goes down: PERM to REF to END to WHO to OP; OP
   * always reads a character or fails.
   */
  function Rank(st: ParseState): nat {
    match st
    case OpState => 0
    case WhoState => 1
    case EndState => 2
    case RefState => 3
    case PermState => 4
  }

  /** The initial configuration: WHO state, index 0, INIT_MODE_CHANGE_ACTION, no actions. */
  const START: Config := Config(WhoState, 0, INIT_ACTION, [])

  /**
   * One iteration of the loop body, for an index within the loop bound;
   * None is the "Invalid mode" failure of the OP and END states. Every
   * step either reads one character or stays put and moves to a state of
   * lower rank.
   */
  function Step(s: seq<char>, cfg: Config): (r: Option<Config>)
    requires cfg.i <= |s|
  {
    var c := CharAt(s, cfg.i);
    var a := cfg.action;
    var next := cfg.i + 1;
    match cfg.state
    case WhoState =>
      if IsWhoChar(c) then Some(cfg.(i := next, action := a.(who := a.who + ClassOf(c))))
      else Some(cfg.(state := OpState))
    case OpState =>
      if IsOpChar(c) then Some(cfg.(state := PermState, i := next, action := a.(op := OpOf(c))))
      else None
    case PermState =>
      if IsPermChar(c) then Some(cfg.(i := next, action := a.(perm := a.perm + {PermOf(c)})))
      else Some(cfg.(state := RefState))
    case RefState =>
      if IsRefChar(c) then Some(cfg.(i := next, action := a.(ref := ClassOf(c))))
      else Some(cfg.(state := EndState))
    case EndState =>
      if c == NUL || c == ',' || IsOpChar(c) then
        var who := Default(a.who);
        var reset := if c == ',' then INIT_ACTION else INIT_ACTION.(who := who);
        Some(Config(WhoState, if c == NUL || c == ',' then next else cfg.i, reset, cfg.acts + [a.(who := who)]))
      else
        None
  }

  /**
   * A step that does not fail either reads one character or stays put and
   * moves to a state of lower rank.
   */
  predicate Progress(s: seq<char>, cfg: Config, next: Option<Config>) {
    next != None ==>
      && next.value.i <= |s| + 1
      && (next.value.i == cfg.i + 1 || (next.value.i == cfg.i && Rank(next.value.state) < Rank(cfg.state)))
  }

  lemma StepProgress(s: seq<char>, cfg: Config)
    requires cfg.i <= |s|
    ensures Progress(s, cfg, Step(s, cfg))
  {
  }

  /** The loop run to its end: the actions once the index passes the NUL, None on failure. */
  function Run(s: seq<char>, cfg: Config): Option<seq<Action>>
    decreases |s| + 1 - cfg.i, Rank(cfg.state), 1
  {
    if cfg.i > |s| then Some(cfg.acts)
    else
      StepProgress(s, cfg);
      Continue(s, cfg, Step(s, cfg))
  }

  /** The loop after one iteration that produced `next` from `cfg`. */
  function Continue(s: seq<char>, cfg: Config, next: Option<Config>): Option<seq<Action>>
    requires Progress(s, cfg, next)
    decreases |s| + 1 - cfg.i, Rank(cfg.state), 0
  {
    match next
    case None => None
    case Some(n) => Run(s, n)
  }

  /** The outcome of ParseMode on a mode string. */
  function ParseModeSpec(s: seq<char>): Option<seq<Action>> {
    Run(s, START)
  }

  /**
   * ParseMode: the `while (i <= len)` loop over the five states. The linked
   * list of the source is the sequence `acts`; the allocation of each node
   * is not modelled.
   */
  method ParseMode(s: seq<char>) returns (r: Option<seq<Action>>)
    ensures r == ParseModeSpec(s)
  {
    var state := WhoState;
    var action := INIT_ACTION;
    var acts: seq<Action> := [];
    var i: nat := 0;
    while i <= |s|
      invariant Run(s, Config(state, i, action, acts)) == ParseModeSpec(s)
      decreases |s| + 1 - i, Rank(state)
    {
      var c := if i < |s| then s[i] else NUL;
      ghost var before := Config(state, i, action, acts);
      if state == WhoState {
        if c == 'a' {
          action := action.(who := action.who + WHO_ALL);
          i := i + 1;
        } else if c == 'u' {
          action := action.(who := action.who + WHO_USER);
          i := i + 1;
        } else if c == 'g' {
          action := action.(who := action.who + WHO_GROUP);
          i := i + 1;
        } else if c == 'o' {
          action := action.(who := action.who + WHO_OTHER);
          i := i + 1;
        } else {
          state := OpState;
        }
      } else if state == OpState {
        if c == '+' {
          action := action.(op := OpPlus);
        } else if c == '-' {
          action := action.(op := OpMinus);
        } else if c == '=' {
          action := action.(op := OpEqual);
        } else {
          return None;
        }
        i := i + 1;
        state := PermState;
      } else if state == PermState {
        if c == 'r' {
          action := action.(perm := action.perm + {PermR});
          i := i + 1;
        } else if c == 'w' {
          action := action.(perm := action.perm + {PermW});
          i := i + 1;
        } else if c == 'x' {
          action := action.(perm := action.perm + {PermX});
          i := i + 1;
        } else if c == 'X' {
          action := action.(perm := action.perm + {PermLX});
          i := i + 1;
        } else {
          state := RefState;
        }
      } else if state == RefState {
        if c == 'u' {
          action := action.(ref := WHO_USER);
          i := i + 1;
        } else if c == 'g' {
          action := action.(ref := WHO_GROUP);
          i := i + 1;
        } else if c == 'o' {
          action := action.(ref := WHO_OTHER);
          i := i + 1;
        } else {
          state := EndState;
        }
      } else {
        if c == NUL || c == ',' {
          i := i + 1;
        }
        if c == NUL || c == ',' || c == '+' || c == '-' || c == '=' {
          state := WhoState;
          if action.who == WHO_NONE {
            action := action.(who := WHO_ALL);
          }
          acts := acts + [action];
          var lastWho := action.who;
          action := INIT_ACTION;
          if c != ',' {
            action := action.(who := lastWho);
          }
        } else {
          return None;
        }
      }
      assert Step(s, before) == Some(Config(state, i, action, acts));
    }
    return Some(acts);
  }

  /**
   * What holds of every configuration the loop reaches from START: the
   * actions appended so far are well formed, the action being built has a
   * who made of whole classes, a single-class reference or none, and an
   * operator once the OP state is behind it; and the loop only gets past
   * the NUL after appending an action.
   */
  predicate Reachable(s: seq<char>, cfg: Config) {
    && (forall k :: 0 <= k < |cfg.acts| ==> WellFormed(cfg.acts[k]))
    && IsWho(cfg.action.who)
    && (cfg.action.ref == WHO_NONE || IsClass(cfg.action.ref))
    && (cfg.state in {PermState, RefState, EndState} ==> cfg.action.op != OpInvalid)
    && (cfg.i > |s| ==> |cfg.acts| > 0)
  }

  /** Adding the class of a who letter to a union of classes gives a union of classes. */
  lemma WhoLetterKeepsWho(who: Mode, c: char)
    requires IsWho(who) && IsWhoChar(c)
    ensures IsWho(who + ClassOf(c))
  {
  }

  /** One step keeps Reachable. */
  lemma StepKeepsReachable(s: seq<char>, cfg: Config)
    requires cfg.i <= |s| && Reachable(s, cfg)
    ensures Step(s, cfg) != None ==> Reachable(s, Step(s, cfg).value)
  {
    var c := CharAt(s, cfg.i);
    match cfg.state
    case WhoState =>
      if IsWhoChar(c) {
        WhoLetterKeepsWho(cfg.action.who, c);
      }
    case OpState =>
    case PermState =>
    case RefState =>
    case EndState =>
  }

  /**
   * A run from a reachable configuration that succeeds returns a non-empty
   * list of well-formed actions.
   */
  lemma {:induction false} RunWellFormed(s: seq<char>, cfg: Config)
    requires Reachable(s, cfg)
    ensures Run(s, cfg) != None ==>
      |Run(s, cfg).value| > 0 && forall k :: 0 <= k < |Run(s, cfg).value| ==> WellFormed(Run(s, cfg).value[k])
    decreases |s| + 1 - cfg.i, Rank(cfg.state)
  {
    if cfg.i <= |s| {
      StepKeepsReachable(s, cfg);
      match Step(s, cfg)
      case None =>
      case Some(next) => RunWellFormed(s, next);
    }
  }

  /**
   * A symbolic mode that parses starts with a who letter or an operator:
   * the WHO state passes over anything else and the OP state rejects it.
   */
  lemma ParseModeFirstChar(s: seq<char>)
    ensures ParseModeSpec(s) != None ==> |s| > 0 && (IsWhoChar(s[0]) || IsOpChar(s[0]))
  {
    if !(|s| > 0 && (IsWhoChar(s[0]) || IsOpChar(s[0]))) {
      RunWhoDone(s, 0, INIT_ACTION, []);
      RunOpFail(s, 0, INIT_ACTION, []);
    }
  }

  /**
   * A successful parse yields at least one action, and every action has a
   * non-empty who of whole classes, one of the operators '+', '-' and '=',
   * and a reference of one class or none.
   */
  lemma ParseModeWellFormed(s: seq<char>)
    ensures ParseModeSpec(s) != None ==>
      var acts := ParseModeSpec(s).value;
      |acts| > 0 && forall k :: 0 <= k < |acts| ==>
        WellFormed(acts[k]) && acts[k].op in {OpPlus, OpMinus, OpEqual}
  {
    RunWellFormed(s, START);
  }

  // One step of the machine at a time, for proofs that follow a run.

  lemma RunWhoLetter(s: seq<char>, i: nat, a: Action, acts: seq<Action>)
    requires i <= |s| && IsWhoChar(CharAt(s, i))
    ensures Run(s, Config(WhoState, i, a, acts))
         == Run(s, Config(WhoState, i + 1, a.(who := a.who + ClassOf(CharAt(s, i))), acts))
  {
  }

  lemma RunWhoDone(s: seq<char>, i: nat, a: Action, acts: seq<Action>)
    requires i <= |s| && !IsWhoChar(CharAt(s, i))
    ensures Run(s, Config(WhoState, i, a, acts)) == Run(s, Config(OpState, i, a, acts))
  {
  }

  lemma RunOpChar(s: seq<char>, i: nat, a: Action, acts: seq<Action>)
    requires i <= |s| && IsOpChar(CharAt(s, i))
    ensures Run(s, Config(OpState, i, a, acts))
         == Run(s, Config(PermState, i + 1, a.(op := OpOf(CharAt(s, i))), acts))
  {
  }

  lemma RunPermLetter(s: seq<char>, i: nat, a: Action, acts: seq<Action>)
    requires i <= |s| && IsPermChar(CharAt(s, i))
    ensures Run(s, Config(PermState, i, a, acts))
         == Run(s, Config(PermState, i + 1, a.(perm := a.perm + {PermOf(CharAt(s, i))}), acts))
  {
  }

  lemma RunPermDone(s: seq<char>, i: nat, a: Action, acts: seq<Action>)
    requires i <= |s| && !IsPermChar(CharAt(s, i))
    ensures Run(s, Config(PermState, i, a, acts)) == Run(s, Config(RefState, i, a, acts))
  {
  }

  lemma RunRefLetter(s: seq<char>, i: nat, a: Action, acts: seq<Action>)
    requires i <= |s| && IsRefChar(CharAt(s, i))
    ensures Run(s, Config(RefState, i, a, acts))
         == Run(s, Config(RefState, i + 1, a.(ref := ClassOf(CharAt(s, i))), acts))
  {
  }

  lemma RunRefDone(s: seq<char>, i: nat, a: Action, acts: seq<Action>)
    requires i <= |s| && !IsRefChar(CharAt(s, i))
    ensures Run(s, Config(RefState, i, a, acts)) == Run(s, Config(EndState, i, a, acts))
  {
  }

  /** A comma ends the action and starts a fresh one. */
  lemma RunEndComma(s: seq<char>, i: nat, a: Action, acts: seq<Action>)
    requires i < |s| && s[i] == ','
    ensures Run(s, Config(EndState, i, a, acts))
         == Run(s, Config(WhoState, i + 1, INIT_ACTION, acts + [a.(who := Default(a.who))]))
  {
  }

  /** The NUL ends the action and the run. */
  lemma RunEndNul(s: seq<char>, a: Action, acts: seq<Action>)
    ensures Run(s, Config(EndState, |s|, a, acts)) == Some(acts + [a.(who := Default(a.who))])
  {
    var next := Config(WhoState, |s| + 1, INIT_ACTION.(who := Default(a.who)), acts + [a.(who := Default(a.who))]);
    assert Step(s, Config(EndState, |s|, a, acts)) == Some(next);
    assert Run(s, next) == Some(next.acts);
  }

  /** An operator ends the action and starts one for the same classes, read from that operator on. */
  lemma RunEndOp(s: seq<char>, i: nat, a: Action, acts: seq<Action>)
    requires i <= |s| && IsOpChar(CharAt(s, i))
    ensures Run(s, Config(EndState, i, a, acts))
         == Run(s, Config(OpState, i, INIT_ACTION.(who := Default(a.who)), acts + [a.(who := Default(a.who))]))
  {
    var b := INIT_ACTION.(who := Default(a.who));
    var acts' := acts + [a.(who := Default(a.who))];
    assert Run(s, Config(EndState, i, a, acts)) == Run(s, Config(WhoState, i, b, acts'));
    RunWhoDone(s, i, b, acts');
  }

  /** The OP state fails on anything but an operator: "Invalid mode". */
  lemma RunOpFail(s: seq<char>, i: nat, a: Action, acts: seq<Action>)
    requires i <= |s| && !IsOpChar(CharAt(s, i))
    ensures Run(s, Config(OpState, i, a, acts)) == None
  {
  }

  /** The END state fails on anything but the NUL, a comma or an operator. */
  lemma RunEndFail(s: seq<char>, i: nat, a: Action, acts: seq<Action>)
    requires i < |s| && s[i] != NUL && s[i] != ',' && !IsOpChar(s[i])
    ensures Run(s, Config(EndState, i, a, acts)) == None
  {
  }
}
