/**
 * The grammar the ParseMode machine (src/winutils/chmod.c:734-926)
 * accepts, and what each sentence means:
 *
 *   mode   ::= clause (',' clause)*
 *   clause ::= who* item+
 *   item   ::= op perm* ref*
 *   who    ::= 'a' | 'u' | 'g' | 'o'
 *   op     ::= '+' | '-' | '='
 *   perm   ::= 'r' | 'w' | 'x' | 'X'
 *   ref    ::= 'u' | 'g' | 'o'
 *
 * Each item is one action. All items of a clause change the classes its
 * who letters name, all classes when there are none; a comma starts afresh.
 * The permission letters of an item form a set and, of its reference
 * letters, the last one counts.
 *
 * Both directions are proved: every sentence parses to its meaning, and
 * every string without NUL that the machine accepts is a sentence.
 */
module ModeGrammar {
  import opened ChmodTypes
  import opened SymbolicMode

  datatype WhoLetter = LetterA | LetterU | LetterG | LetterO
  datatype RefLetter = RefU | RefG | RefO

  /** An operator with its permission and reference letters. */
  datatype Item = Item(op: Op, perms: seq<Perm>, refs: seq<RefLetter>)

  /** Who letters and the items that share them. */
  datatype Clause = Clause(whos: seq<WhoLetter>, items: seq<Item>)

  // ---- Rendering a sentence as a string ----

  function WhoChar(w: WhoLetter): char {
    match w
    case LetterA => 'a'
    case LetterU => 'u'
    case LetterG => 'g'
    case LetterO => 'o'
  }

  function PermChar(p: Perm): char {
    match p
    case PermR => 'r'
    case PermW => 'w'
    case PermX => 'x'
    case PermLX => 'X'
  }

  function RefChar(r: RefLetter): char {
    match r
    case RefU => 'u'
    case RefG => 'g'
    case RefO => 'o'
  }

  function OpChar(op: Op): char
    requires op != OpInvalid
  {
    match op
    case OpPlus => '+'
    case OpMinus => '-'
    case OpEqual => '='
  }

  function WhoChars(ws: seq<WhoLetter>): (t: seq<char>)
    ensures |t| == |ws|
  {
    if ws == [] then [] else [WhoChar(ws[0])] + WhoChars(ws[1..])
  }

  function PermChars(ps: seq<Perm>): (t: seq<char>)
    ensures |t| == |ps|
  {
    if ps == [] then [] else [PermChar(ps[0])] + PermChars(ps[1..])
  }

  function RefChars(rs: seq<RefLetter>): (t: seq<char>)
    ensures |t| == |rs|
  {
    if rs == [] then [] else [RefChar(rs[0])] + RefChars(rs[1..])
  }

  predicate ValidItem(it: Item) {
    it.op != OpInvalid
  }

  predicate ValidItems(its: seq<Item>) {
    forall k :: 0 <= k < |its| ==> ValidItem(its[k])
  }

  predicate ValidClause(c: Clause) {
    c.items != [] && ValidItems(c.items)
  }

  /** A sentence of the grammar: at least one clause, each with at least one item. */
  predicate ValidMode(cs: seq<Clause>) {
    cs != [] && forall k :: 0 <= k < |cs| ==> ValidClause(cs[k])
  }

  function RenderItem(it: Item): (t: seq<char>)
    requires ValidItem(it)
    ensures |t| > 0 && t[0] == OpChar(it.op)
  {
    [OpChar(it.op)] + PermChars(it.perms) + RefChars(it.refs)
  }

  function RenderItems(its: seq<Item>): (t: seq<char>)
    requires ValidItems(its)
    ensures its != [] ==> |t| > 0 && t[0] == OpChar(its[0].op)
  {
    if its == [] then [] else RenderItem(its[0]) + RenderItems(its[1..])
  }

  function RenderClause(c: Clause): seq<char>
    requires ValidClause(c)
  {
    WhoChars(c.whos) + RenderItems(c.items)
  }

  /** The clauses joined by commas. */
  function Render(cs: seq<Clause>): seq<char>
    requires ValidMode(cs)
  {
    if |cs| == 1 then RenderClause(cs[0])
    else RenderClause(cs[0]) + [','] + Render(cs[1..])
  }

  // ---- The meaning of a sentence ----

  function WhoClass(w: WhoLetter): Mode {
    match w
    case LetterA => WHO_ALL
    case LetterU => WHO_USER
    case LetterG => WHO_GROUP
    case LetterO => WHO_OTHER
  }

  function RefClass(r: RefLetter): Mode {
    match r
    case RefU => WHO_USER
    case RefG => WHO_GROUP
    case RefO => WHO_OTHER
  }

  /** The classes a run of who letters names. */
  function WhoOf(ws: seq<WhoLetter>): Mode {
    if ws == [] then WHO_NONE else WhoClass(ws[0]) + WhoOf(ws[1..])
  }

  /** The set of permission letters of a run. */
  function PermsOf(ps: seq<Perm>): set<Perm> {
    if ps == [] then {} else {ps[0]} + PermsOf(ps[1..])
  }

  /** The reference after a run of reference letters, starting from `r0`: the last letter's class. */
  function RefAfter(r0: Mode, rs: seq<RefLetter>): Mode
    decreases |rs|
  {
    if rs == [] then r0 else RefAfter(RefClass(rs[0]), rs[1..])
  }

  function ItemAction(who: Mode, it: Item): Action {
    Action(who, it.op, PermsOf(it.perms), RefAfter(WHO_NONE, it.refs))
  }

  function ItemsActions(who: Mode, its: seq<Item>): seq<Action> {
    if its == [] then [] else [ItemAction(who, its[0])] + ItemsActions(who, its[1..])
  }

  function ClauseActions(c: Clause): seq<Action> {
    ItemsActions(Default(WhoOf(c.whos)), c.items)
  }

  /** The actions a sentence stands for, clause after clause. */
  function Meaning(cs: seq<Clause>): seq<Action> {
    if cs == [] then [] else ClauseActions(cs[0]) + Meaning(cs[1..])
  }

  // ---- The machine reads every sentence as its meaning ----

  /** `s` holds `t` from index `i` on. */
  predicate At(s: seq<char>, i: nat, t: seq<char>)
    decreases |t|
  {
    if t == [] then i <= |s| else i < |s| && s[i] == t[0] && At(s, i + 1, t[1..])
  }

  lemma {:induction false} AtSplit(s: seq<char>, i: nat, t1: seq<char>, t2: seq<char>)
    requires At(s, i, t1 + t2)
    ensures At(s, i, t1) && At(s, i + |t1|, t2)
    decreases |t1|
  {
    if t1 == [] {
      assert t1 + t2 == t2;
      AtBound(s, i, t2);
    } else {
      assert (t1 + t2)[1..] == t1[1..] + t2;
      AtSplit(s, i + 1, t1[1..], t2);
    }
  }

  lemma AtFirst(s: seq<char>, i: nat, t: seq<char>)
    requires At(s, i, t) && |t| > 0
    ensures i < |s| && CharAt(s, i) == t[0] && At(s, i + 1, t[1..])
  {
  }

  /** A string holds itself from index 0 on. */
  lemma {:induction false} AtSuffix(s: seq<char>, i: nat)
    requires i <= |s|
    ensures At(s, i, s[i..])
    decreases |s| - i
  {
    if i < |s| {
      assert s[i..][1..] == s[i + 1..];
      AtSuffix(s, i + 1);
    }
  }

  /** A held string ends within `s`. */
  lemma {:induction false} AtBound(s: seq<char>, i: nat, t: seq<char>)
    requires At(s, i, t)
    ensures i + |t| <= |s|
    decreases |t|
  {
    if t != [] {
      AtBound(s, i + 1, t[1..]);
    }
  }

  /** The WHO state reads a run of who letters into `who`. */
  lemma {:induction false} RunWhos(s: seq<char>, i: nat, ws: seq<WhoLetter>, a: Action, acts: seq<Action>)
    requires At(s, i, WhoChars(ws))
    requires !IsWhoChar(CharAt(s, i + |ws|))
    ensures Run(s, Config(WhoState, i, a, acts))
         == Run(s, Config(OpState, i + |ws|, a.(who := a.who + WhoOf(ws)), acts))
    decreases |ws|
  {
    if ws == [] {
      RunWhoDone(s, i, a, acts);
      assert a.(who := a.who + WhoOf(ws)) == a;
    } else {
      AtFirst(s, i, WhoChars(ws));
      var a' := a.(who := a.who + WhoClass(ws[0]));
      RunWhoLetter(s, i, a, acts);
      RunWhos(s, i + 1, ws[1..], a', acts);
      assert a'.who + WhoOf(ws[1..]) == a.who + WhoOf(ws);
    }
  }

  /** The PERM state reads a run of permission letters into `perm`. */
  lemma {:induction false} RunPerms(s: seq<char>, i: nat, ps: seq<Perm>, a: Action, acts: seq<Action>)
    requires At(s, i, PermChars(ps))
    requires !IsPermChar(CharAt(s, i + |ps|))
    ensures Run(s, Config(PermState, i, a, acts))
         == Run(s, Config(RefState, i + |ps|, a.(perm := a.perm + PermsOf(ps)), acts))
    decreases |ps|
  {
    if ps == [] {
      RunPermDone(s, i, a, acts);
      assert a.(perm := a.perm + PermsOf(ps)) == a;
    } else {
      AtFirst(s, i, PermChars(ps));
      var a' := a.(perm := a.perm + {ps[0]});
      RunPermLetter(s, i, a, acts);
      RunPerms(s, i + 1, ps[1..], a', acts);
      assert a'.perm + PermsOf(ps[1..]) == a.perm + PermsOf(ps);
    }
  }

  /** The REF state reads a run of reference letters; the last one sets `ref`. */
  lemma {:induction false} RunRefs(s: seq<char>, i: nat, rs: seq<RefLetter>, a: Action, acts: seq<Action>)
    requires At(s, i, RefChars(rs))
    requires !IsRefChar(CharAt(s, i + |rs|))
    ensures Run(s, Config(RefState, i, a, acts))
         == Run(s, Config(EndState, i + |rs|, a.(ref := RefAfter(a.ref, rs)), acts))
    decreases |rs|
  {
    if rs == [] {
      RunRefDone(s, i, a, acts);
      assert a.(ref := RefAfter(a.ref, rs)) == a;
    } else {
      AtFirst(s, i, RefChars(rs));
      var a' := a.(ref := RefClass(rs[0]));
      RunRefLetter(s, i, a, acts);
      RunRefs(s, i + 1, rs[1..], a', acts);
    }
  }

  /** A character that can continue neither the permission nor the reference letters of an item. */
  predicate StopsItem(c: char) {
    !IsPermChar(c) && !IsRefChar(c)
  }

  /**
   * After the permission letters of an item comes a reference letter or
   * the end of the item, so the PERM state stops there.
   */
  lemma ItemLettersBoundary(s: seq<char>, j: nat, it: Item)
    requires At(s, j, PermChars(it.perms) + RefChars(it.refs))
    requires StopsItem(CharAt(s, j + |it.perms| + |it.refs|))
    ensures !IsPermChar(CharAt(s, j + |it.perms|))
    ensures !IsRefChar(CharAt(s, j + |it.perms| + |it.refs|))
  {
    var ps, rs := PermChars(it.perms), RefChars(it.refs);
    AtSplit(s, j, ps, rs);
    if rs != [] {
      AtFirst(s, j + |ps|, rs);
      assert CharAt(s, j + |ps|) == RefChar(it.refs[0]);
    }
  }

  /** The PERM and REF states read the letters of an item after its operator. */
  lemma RunItemLetters(s: seq<char>, j: nat, it: Item, a: Action, acts: seq<Action>)
    requires At(s, j, PermChars(it.perms) + RefChars(it.refs))
    requires !IsPermChar(CharAt(s, j + |it.perms|))
    requires !IsRefChar(CharAt(s, j + |it.perms| + |it.refs|))
    ensures Run(s, Config(PermState, j, a, acts))
         == Run(s, Config(EndState, j + |it.perms| + |it.refs|,
                          a.(perm := a.perm + PermsOf(it.perms), ref := RefAfter(a.ref, it.refs)), acts))
  {
    var ps, rs := PermChars(it.perms), RefChars(it.refs);
    AtSplit(s, j, ps, rs);
    var b := a.(perm := a.perm + PermsOf(it.perms));
    RunPerms(s, j, it.perms, a, acts);
    RunRefs(s, j + |ps|, it.refs, b, acts);
    assert b.(ref := RefAfter(b.ref, it.refs))
        == a.(perm := a.perm + PermsOf(it.perms), ref := RefAfter(a.ref, it.refs));
  }

  /** The OP, PERM and REF states read one item into the action being built. */
  lemma RunItem(s: seq<char>, i: nat, who: Mode, it: Item, acts: seq<Action>)
    requires ValidItem(it) && At(s, i, RenderItem(it))
    requires StopsItem(CharAt(s, i + |RenderItem(it)|))
    ensures Run(s, Config(OpState, i, Action(who, OpInvalid, {}, WHO_NONE), acts))
         == Run(s, Config(EndState, i + |RenderItem(it)|, ItemAction(who, it), acts))
  {
    var letters := PermChars(it.perms) + RefChars(it.refs);
    assert RenderItem(it) == [OpChar(it.op)] + letters;
    AtSplit(s, i, [OpChar(it.op)], letters);
    AtFirst(s, i, [OpChar(it.op)]);
    var a := Action(who, it.op, {}, WHO_NONE);
    RunOpChar(s, i, Action(who, OpInvalid, {}, WHO_NONE), acts);
    ItemLettersBoundary(s, i + 1, it);
    RunItemLetters(s, i + 1, it, a, acts);
    assert a.(perm := a.perm + PermsOf(it.perms), ref := RefAfter(a.ref, it.refs)) == ItemAction(who, it);
  }

  /** A comma or the NUL after the last item of a clause. */
  predicate EndsClause(s: seq<char>, j: nat) {
    j == |s| || (j < |s| && s[j] == ',')
  }

  /** What the machine does from the END state at a clause end: the NUL ends the run, a comma starts afresh. */
  function AfterClause(s: seq<char>, j: nat, acts: seq<Action>): Option<seq<Action>> {
    if j < |s| then Run(s, Config(WhoState, j + 1, INIT_ACTION, acts)) else Some(acts)
  }

  /** The END state at a clause end appends the action with its who defaulted. */
  lemma RunClauseEnd(s: seq<char>, j: nat, a: Action, acts: seq<Action>)
    requires EndsClause(s, j)
    ensures Run(s, Config(EndState, j, a, acts)) == AfterClause(s, j, acts + [a.(who := Default(a.who))])
  {
    if j < |s| {
      RunEndComma(s, j, a, acts);
    } else {
      RunEndNul(s, a, acts);
    }
  }

  /**
   * The items of a clause, starting in the OP state with the clause's who,
   * up to the end of the clause: each becomes an action with the defaulted
   * who, the first one's who included.
   */
  lemma {:induction false} RunItems(s: seq<char>, i: nat, who: Mode, its: seq<Item>, acts: seq<Action>)
    requires its != [] && ValidItems(its) && At(s, i, RenderItems(its))
    requires EndsClause(s, i + |RenderItems(its)|)
    ensures Run(s, Config(OpState, i, Action(who, OpInvalid, {}, WHO_NONE), acts))
         == AfterClause(s, i + |RenderItems(its)|, acts + ItemsActions(Default(who), its))
    decreases |its|
  {
    var t0, rest := RenderItem(its[0]), RenderItems(its[1..]);
    ItemsTail(Default(who), its);
    AtSplit(s, i, t0, rest);
    if its[1..] == [] {
      RunLastItem(s, i, who, its[0], acts);
    } else {
      var e := i + |t0|;
      var acts' := acts + [ItemAction(Default(who), its[0])];
      assert acts' + ItemsActions(Default(who), its[1..]) == acts + ItemsActions(Default(who), its);
      AtFirst(s, e, rest);
      RunItemThenOp(s, i, who, its[0], its[1].op, acts);
      RunItems(s, e, Default(who), its[1..], acts');
    }
  }

  /** A list of items is its first item followed by the rest. */
  lemma ItemsTail(who: Mode, its: seq<Item>)
    requires its != [] && ValidItems(its)
    ensures ValidItem(its[0]) && ValidItems(its[1..])
    ensures RenderItems(its) == RenderItem(its[0]) + RenderItems(its[1..])
    ensures |RenderItems(its)| == |RenderItem(its[0])| + |RenderItems(its[1..])|
    ensures ItemsActions(who, its) == [ItemAction(who, its[0])] + ItemsActions(who, its[1..])
    ensures its[1..] != [] ==> RenderItems(its[1..])[0] == OpChar(its[1].op) && its[1].op != OpInvalid
    ensures its[1..] == [] ==> RenderItems(its) == RenderItem(its[0]) && ItemsActions(who, its) == [ItemAction(who, its[0])]
  {
    if its[1..] != [] {
      assert its[1..][0] == its[1];
    }
  }

  /** The last item of a clause: its action is appended with its who defaulted. */
  lemma RunLastItem(s: seq<char>, i: nat, who: Mode, it: Item, acts: seq<Action>)
    requires ValidItem(it) && At(s, i, RenderItem(it))
    requires EndsClause(s, i + |RenderItem(it)|)
    ensures Run(s, Config(OpState, i, Action(who, OpInvalid, {}, WHO_NONE), acts))
         == AfterClause(s, i + |RenderItem(it)|, acts + [ItemAction(Default(who), it)])
  {
    var e := i + |RenderItem(it)|;
    var first := ItemAction(who, it);
    assert StopsItem(CharAt(s, e));
    RunItem(s, i, who, it, acts);
    RunClauseEnd(s, e, first, acts);
    assert first.(who := Default(first.who)) == ItemAction(Default(who), it);
  }

  /**
   * An item followed by the operator of the next one: the action is
   * appended with its who defaulted and the next starts with that who.
   */
  lemma RunItemThenOp(s: seq<char>, i: nat, who: Mode, it: Item, op: Op, acts: seq<Action>)
    requires ValidItem(it) && op != OpInvalid && At(s, i, RenderItem(it))
    requires CharAt(s, i + |RenderItem(it)|) == OpChar(op)
    ensures Run(s, Config(OpState, i, Action(who, OpInvalid, {}, WHO_NONE), acts))
         == Run(s, Config(OpState, i + |RenderItem(it)|, Action(Default(who), OpInvalid, {}, WHO_NONE),
                          acts + [ItemAction(Default(who), it)]))
  {
    var e := i + |RenderItem(it)|;
    RunItem(s, i, who, it, acts);
    var first := ItemAction(who, it);
    RunEndOp(s, e, first, acts);
    assert first.(who := Default(first.who)) == ItemAction(Default(who), it);
    assert INIT_ACTION.(who := Default(who)) == Action(Default(who), OpInvalid, {}, WHO_NONE);
  }

  /** One clause, from the WHO state with a fresh action, up to its end. */
  lemma RunClause(s: seq<char>, i: nat, c: Clause, acts: seq<Action>)
    requires ValidClause(c) && At(s, i, RenderClause(c))
    requires EndsClause(s, i + |RenderClause(c)|)
    ensures Run(s, Config(WhoState, i, INIT_ACTION, acts))
         == AfterClause(s, i + |RenderClause(c)|, acts + ClauseActions(c))
  {
    var ws, its := WhoChars(c.whos), RenderItems(c.items);
    AtSplit(s, i, ws, its);
    AtFirst(s, i + |ws|, its);
    RunWhos(s, i, c.whos, INIT_ACTION, acts);
    assert INIT_ACTION.(who := WHO_NONE + WhoOf(c.whos)) == Action(WhoOf(c.whos), OpInvalid, {}, WHO_NONE);
    RunItems(s, i + |ws|, WhoOf(c.whos), c.items, acts);
  }

  /** A clause followed by a comma: its actions are appended and the next clause starts afresh. */
  lemma RunClauseThenComma(s: seq<char>, i: nat, c: Clause, acts: seq<Action>)
    requires ValidClause(c) && At(s, i, RenderClause(c) + [','])
    ensures Run(s, Config(WhoState, i, INIT_ACTION, acts))
         == Run(s, Config(WhoState, i + |RenderClause(c)| + 1, INIT_ACTION, acts + ClauseActions(c)))
  {
    var t := RenderClause(c);
    AtSplit(s, i, t, [',']);
    AtFirst(s, i + |t|, [',']);
    RunClause(s, i, c, acts);
  }

  /** The clauses of a sentence that fills `s` from `i` to its end. */
  lemma {:induction false} RunClauses(s: seq<char>, i: nat, cs: seq<Clause>, acts: seq<Action>)
    requires ValidMode(cs) && i + |Render(cs)| == |s| && At(s, i, Render(cs))
    ensures Run(s, Config(WhoState, i, INIT_ACTION, acts)) == Some(acts + Meaning(cs))
    decreases |cs|
  {
    if |cs| == 1 {
      RunLastClause(s, i, cs[0], acts);
      assert Meaning(cs) == ClauseActions(cs[0]);
    } else {
      var t := RenderClause(cs[0]) + [','];
      var acts' := acts + ClauseActions(cs[0]);
      RenderTail(cs);
      assert acts' + Meaning(cs[1..]) == acts + Meaning(cs);
      var j := i + |t|;
      assert j == i + |RenderClause(cs[0])| + 1;
      assert j + |Render(cs[1..])| == |s|;
      AtSplit(s, i, t, Render(cs[1..]));
      RunClauseThenComma(s, i, cs[0], acts);
      RunClauses(s, j, cs[1..], acts');
    }
  }

  /** The last clause, up to the NUL: its actions end the list. */
  lemma RunLastClause(s: seq<char>, i: nat, c: Clause, acts: seq<Action>)
    requires ValidClause(c) && At(s, i, RenderClause(c)) && i + |RenderClause(c)| == |s|
    ensures Run(s, Config(WhoState, i, INIT_ACTION, acts)) == Some(acts + ClauseActions(c))
  {
    RunClause(s, i, c, acts);
  }

  /** A sentence of several clauses is its first clause, a comma and a sentence of the rest. */
  lemma RenderTail(cs: seq<Clause>)
    requires ValidMode(cs) && |cs| > 1
    ensures ValidMode(cs[1..])
    ensures Render(cs) == (RenderClause(cs[0]) + [',']) + Render(cs[1..])
    ensures Meaning(cs) == ClauseActions(cs[0]) + Meaning(cs[1..])
  {
    assert forall k :: 0 <= k < |cs[1..]| ==> cs[1..][k] == cs[k + 1];
  }

  /** ParseMode reads every sentence of the grammar as exactly its meaning. */
  lemma ParseRender(cs: seq<Clause>)
    requires ValidMode(cs)
    ensures ParseModeSpec(Render(cs)) == Some(Meaning(cs))
  {
    var s := Render(cs);
    assert s[0..] == s;
    AtSuffix(s, 0);
    assert [] + Meaning(cs) == Meaning(cs);
    assert START == Config(WhoState, 0, INIT_ACTION, []);
    RunClauses(s, 0, cs, []);
  }

  // ---- Every string the machine accepts is a sentence ----

  function WhoLetterOf(c: char): (w: WhoLetter)
    requires IsWhoChar(c)
    ensures WhoChar(w) == c
  {
    if c == 'a' then LetterA else if c == 'u' then LetterU else if c == 'g' then LetterG else LetterO
  }

  function RefLetterOf(c: char): (r: RefLetter)
    requires IsRefChar(c)
    ensures RefChar(r) == c
  {
    if c == 'u' then RefU else if c == 'g' then RefG else RefO
  }

  /** The who letters of `s` from index `i` on, as many as there are. */
  function WhoRun(s: seq<char>, i: nat): seq<WhoLetter>
    decreases |s| - i
  {
    if i < |s| && IsWhoChar(s[i]) then [WhoLetterOf(s[i])] + WhoRun(s, i + 1) else []
  }

  /** The permission letters of `s` from index `i` on, as many as there are. */
  function PermRun(s: seq<char>, i: nat): seq<Perm>
    decreases |s| - i
  {
    if i < |s| && IsPermChar(s[i]) then [PermOf(s[i])] + PermRun(s, i + 1) else []
  }

  /** The reference letters of `s` from index `i` on, as many as there are. */
  function RefRun(s: seq<char>, i: nat): seq<RefLetter>
    decreases |s| - i
  {
    if i < |s| && IsRefChar(s[i]) then [RefLetterOf(s[i])] + RefRun(s, i + 1) else []
  }

  lemma {:induction false} WhoRunAt(s: seq<char>, i: nat)
    requires i <= |s|
    ensures At(s, i, WhoChars(WhoRun(s, i))) && !IsWhoChar(CharAt(s, i + |WhoRun(s, i)|))
    decreases |s| - i
  {
    if i < |s| && IsWhoChar(s[i]) {
      WhoRunAt(s, i + 1);
      var ws := WhoRun(s, i);
      assert ws[1..] == WhoRun(s, i + 1);
    }
  }

  lemma {:induction false} PermRunAt(s: seq<char>, i: nat)
    requires i <= |s|
    ensures At(s, i, PermChars(PermRun(s, i))) && !IsPermChar(CharAt(s, i + |PermRun(s, i)|))
    decreases |s| - i
  {
    if i < |s| && IsPermChar(s[i]) {
      PermRunAt(s, i + 1);
      var ps := PermRun(s, i);
      assert ps[1..] == PermRun(s, i + 1);
      assert PermChar(PermOf(s[i])) == s[i];
    }
  }

  lemma {:induction false} RefRunAt(s: seq<char>, i: nat)
    requires i <= |s|
    ensures At(s, i, RefChars(RefRun(s, i))) && !IsRefChar(CharAt(s, i + |RefRun(s, i)|))
    decreases |s| - i
  {
    if i < |s| && IsRefChar(s[i]) {
      RefRunAt(s, i + 1);
      var rs := RefRun(s, i);
      assert rs[1..] == RefRun(s, i + 1);
    }
  }

  lemma {:induction false} AtJoin(s: seq<char>, i: nat, t1: seq<char>, t2: seq<char>)
    requires At(s, i, t1) && At(s, i + |t1|, t2)
    ensures At(s, i, t1 + t2)
    decreases |t1|
  {
    if t1 == [] {
      assert t1 + t2 == t2;
    } else {
      assert (t1 + t2)[1..] == t1[1..] + t2;
      AtJoin(s, i + 1, t1[1..], t2);
    }
  }

  /** What `s` holds from `i` on is the slice of `s` there. */
  lemma {:induction false} AtSlice(s: seq<char>, i: nat, t: seq<char>)
    requires At(s, i, t)
    ensures i + |t| <= |s| && s[i..i + |t|] == t
    decreases |t|
  {
    if t != [] {
      AtSlice(s, i + 1, t[1..]);
      assert s[i..i + |t|] == [s[i]] + s[i + 1..i + |t|];
    }
  }

  /** The OP state goes on only at an operator. */
  lemma OpReads(s: seq<char>, i: nat, a: Action, acts: seq<Action>)
    requires i <= |s| && Run(s, Config(OpState, i, a, acts)) != None
    ensures i < |s| && IsOpChar(s[i])
  {
  }

  /** The END state goes on only at the NUL, a comma or an operator. */
  lemma EndReads(s: seq<char>, i: nat, a: Action, acts: seq<Action>)
    requires i <= |s| && Run(s, Config(EndState, i, a, acts)) != None
    ensures var c := CharAt(s, i); c == NUL || c == ',' || IsOpChar(c)
  {
  }

  /** The longest item at an operator: the operator, its permission letters, then its reference letters. */
  lemma ItemText(s: seq<char>, i: nat) returns (it: Item)
    requires i < |s| && IsOpChar(s[i])
    ensures ValidItem(it) && it.op == OpOf(s[i]) && At(s, i, RenderItem(it))
    ensures At(s, i + 1, PermChars(it.perms) + RefChars(it.refs))
    ensures !IsPermChar(CharAt(s, i + 1 + |it.perms|))
    ensures !IsRefChar(CharAt(s, i + 1 + |it.perms| + |it.refs|))
  {
    var c := s[i];
    var ps := PermRun(s, i + 1);
    PermRunAt(s, i + 1);
    AtBound(s, i + 1, PermChars(ps));
    var rs := RefRun(s, i + 1 + |ps|);
    RefRunAt(s, i + 1 + |ps|);
    it := Item(OpOf(c), ps, rs);
    AtJoin(s, i + 1, PermChars(ps), RefChars(rs));
    assert OpChar(OpOf(c)) == c;
    assert At(s, i, [c]);
    AtJoin(s, i, [c], PermChars(ps) + RefChars(rs));
    assert RenderItem(it) == [c] + (PermChars(ps) + RefChars(rs));
  }

  /** The item the OP, PERM and REF states read from an operator on. */
  lemma ReadItem(s: seq<char>, i: nat, who: Mode, acts: seq<Action>) returns (it: Item)
    requires i <= |s| && Run(s, Config(OpState, i, Action(who, OpInvalid, {}, WHO_NONE), acts)) != None
    ensures ValidItem(it) && At(s, i, RenderItem(it))
    ensures Run(s, Config(OpState, i, Action(who, OpInvalid, {}, WHO_NONE), acts))
         == Run(s, Config(EndState, i + |RenderItem(it)|, ItemAction(who, it), acts))
  {
    OpReads(s, i, Action(who, OpInvalid, {}, WHO_NONE), acts);
    it := ItemText(s, i);
    RunOpChar(s, i, Action(who, OpInvalid, {}, WHO_NONE), acts);
    var a := Action(who, it.op, {}, WHO_NONE);
    RunItemLetters(s, i + 1, it, a, acts);
    assert a.(perm := a.perm + PermsOf(it.perms), ref := RefAfter(a.ref, it.refs)) == ItemAction(who, it);
  }

  /** The items the machine reads from an operator on, up to a comma or the end. */
  lemma {:induction false} ReadItems(s: seq<char>, i: nat, who: Mode, acts: seq<Action>) returns (its: seq<Item>)
    requires NUL !in s
    requires i <= |s| && Run(s, Config(OpState, i, Action(who, OpInvalid, {}, WHO_NONE), acts)) != None
    ensures its != [] && ValidItems(its) && At(s, i, RenderItems(its))
    ensures EndsClause(s, i + |RenderItems(its)|)
    decreases |s| - i
  {
    var it := ReadItem(s, i, who, acts);
    var e := i + |RenderItem(it)|;
    AtBound(s, i, RenderItem(it));
    var a := ItemAction(who, it);
    EndReads(s, e, a, acts);
    if IsOpChar(CharAt(s, e)) {
      RunEndOp(s, e, a, acts);
      var d := Default(a.who);
      assert INIT_ACTION.(who := d) == Action(d, OpInvalid, {}, WHO_NONE);
      var rest := ReadItems(s, e, d, acts + [a.(who := d)]);
      its := [it] + rest;
      assert its[0] == it && its[1..] == rest;
      assert ValidItems(its) by {
        assert forall k :: 0 < k < |its| ==> its[k] == rest[k - 1];
      }
      ItemsTail(who, its);
      AtJoin(s, i, RenderItem(it), RenderItems(rest));
    } else {
      its := [it];
      assert its[1..] == [];
      ItemsTail(who, its);
      if e < |s| {
        assert s[e] in s;
      }
    }
  }

  /** The clause the machine reads from the start of a clause on, up to a comma or the end. */
  lemma ReadClause(s: seq<char>, i: nat, acts: seq<Action>) returns (c: Clause)
    requires NUL !in s
    requires i <= |s| && Run(s, Config(WhoState, i, INIT_ACTION, acts)) != None
    ensures ValidClause(c) && At(s, i, RenderClause(c)) && EndsClause(s, i + |RenderClause(c)|)
    ensures Run(s, Config(WhoState, i, INIT_ACTION, acts))
         == AfterClause(s, i + |RenderClause(c)|, acts + ClauseActions(c))
  {
    var ws := WhoRun(s, i);
    WhoRunAt(s, i);
    AtBound(s, i, WhoChars(ws));
    RunWhos(s, i, ws, INIT_ACTION, acts);
    var who := WhoOf(ws);
    assert INIT_ACTION.(who := WHO_NONE + who) == Action(who, OpInvalid, {}, WHO_NONE);
    var its := ReadItems(s, i + |ws|, who, acts);
    c := Clause(ws, its);
    AtJoin(s, i, WhoChars(ws), RenderItems(its));
    assert RenderClause(c) == WhoChars(ws) + RenderItems(its);
    RunClause(s, i, c, acts);
  }

  /** The clauses the machine reads from the start of a clause on, up to the end. */
  lemma {:induction false} ReadClauses(s: seq<char>, i: nat, acts: seq<Action>) returns (cs: seq<Clause>)
    requires NUL !in s
    requires i <= |s| && Run(s, Config(WhoState, i, INIT_ACTION, acts)) != None
    ensures ValidMode(cs) && i + |Render(cs)| == |s| && At(s, i, Render(cs))
    decreases |s| - i
  {
    var c := ReadClause(s, i, acts);
    var e := i + |RenderClause(c)|;
    AtBound(s, i, RenderClause(c));
    if e < |s| {
      var rest := ReadClauses(s, e + 1, acts + ClauseActions(c));
      cs := [c] + rest;
      assert cs[0] == c && cs[1..] == rest;
      assert ValidMode(cs) by {
        assert forall k :: 0 < k < |cs| ==> cs[k] == rest[k - 1];
      }
      RenderTail(cs);
      assert At(s, e, [',']);
      AtJoin(s, i, RenderClause(c), [',']);
      AtJoin(s, i, RenderClause(c) + [','], Render(rest));
    } else {
      cs := [c];
      assert Render(cs) == RenderClause(c);
    }
  }

  /**
   * The machine accepts exactly the sentences of the grammar, each as its
   * meaning. A string here holds no NUL: the source reads up to the first.
   */
  lemma ParseModeAcceptsSentences(s: seq<char>)
    requires NUL !in s
    ensures ParseModeSpec(s) != None <==> exists cs :: ValidMode(cs) && Render(cs) == s
    ensures forall cs :: ValidMode(cs) && Render(cs) == s ==> ParseModeSpec(s) == Some(Meaning(cs))
  {
    forall cs | ValidMode(cs) && Render(cs) == s
      ensures ParseModeSpec(s) == Some(Meaning(cs))
    {
      ParseRender(cs);
    }
    if ParseModeSpec(s) != None {
      assert START == Config(WhoState, 0, INIT_ACTION, []);
      var cs := ReadClauses(s, 0, []);
      AtSlice(s, 0, Render(cs));
      assert s[0..|s|] == s;
    }
  }

  // ---- Examples ----

  /** `s` holds its own prefix `t` from index 0 on. */
  lemma AtPrefix(s: seq<char>, t: seq<char>, u: seq<char>)
    requires s == t + u
    ensures At(s, 0, t)
  {
    assert s[0..] == s;
    AtSuffix(s, 0);
    AtSplit(s, 0, t, u);
  }

  /** A sentence of one clause with one item. */
  lemma SingleItem(ws: seq<WhoLetter>, it: Item)
    requires ValidItem(it)
    ensures ValidMode([Clause(ws, [it])])
    ensures Render([Clause(ws, [it])]) == WhoChars(ws) + RenderItem(it)
    ensures Meaning([Clause(ws, [it])]) == [ItemAction(Default(WhoOf(ws)), it)]
  {
    var c := Clause(ws, [it]);
    assert [it][1..] == [];
    assert [c][1..] == [];
    assert RenderItems([it]) == RenderItem(it) + [];
    var d := Default(WhoOf(ws));
    assert ItemsActions(d, [it]) == [ItemAction(d, it)] + ItemsActions(d, []);
    assert Meaning([c]) == ClauseActions(c) + Meaning([]);
  }

  /**
   * Of several reference letters the last one counts: "u=ug" copies the
   * group bits, and the `u` before it is overridden.
   */
  lemma ParseLastReferenceWins()
    ensures ParseModeSpec("u=ug") == Some([Action(WHO_USER, OpEqual, {}, WHO_GROUP)])
  {
    var it := Item(OpEqual, [], [RefU, RefG]);
    SingleItem([LetterU], it);
    assert [RefU, RefG][1..] == [RefG] && [RefG][1..] == [] && [LetterU][1..] == [];
    assert RefChars([RefU, RefG]) == "ug";
    assert RenderItem(it) == "=ug";
    assert WhoChars([LetterU]) == "u";
    assert RefAfter(WHO_NONE, [RefU, RefG]) == WHO_GROUP;
    assert WhoOf([LetterU]) == WHO_USER + {};
    assert WhoOf([LetterU]) == WHO_USER;
    assert UX_U_READ in WHO_USER;
    assert ItemAction(Default(WHO_USER), it) == Action(WHO_USER, OpEqual, {}, WHO_GROUP);
    assert Render([Clause([LetterU], [it])]) == "u=ug";
    assert Meaning([Clause([LetterU], [it])]) == [Action(WHO_USER, OpEqual, {}, WHO_GROUP)];
    ParseRender([Clause([LetterU], [it])]);
  }

  /** "u+x" is one action adding the execute flag for the owner. */
  lemma ParseUserExecute()
    ensures ParseModeSpec("u+x") == Some([Action(WHO_USER, OpPlus, {PermX}, WHO_NONE)])
  {
    var it := Item(OpPlus, [PermX], []);
    SingleItem([LetterU], it);
    assert [PermX][1..] == [] && [LetterU][1..] == [];
    assert PermChars([PermX]) == "x";
    assert RenderItem(it) == "+x";
    assert WhoChars([LetterU]) == "u";
    assert PermsOf([PermX]) == {PermX};
    assert WhoOf([LetterU]) == WHO_USER + {};
    assert WhoOf([LetterU]) == WHO_USER;
    assert UX_U_READ in WHO_USER;
    assert ItemAction(Default(WHO_USER), it) == Action(WHO_USER, OpPlus, {PermX}, WHO_NONE);
    assert Render([Clause([LetterU], [it])]) == "u+x";
    ParseRender([Clause([LetterU], [it])]);
  }

  /** The empty string fails: the OP state reads the NUL. */
  lemma ParseEmptyFails()
    ensures ParseModeSpec("") == None
  {
    RunWhoDone("", 0, INIT_ACTION, []);
    RunOpFail("", 0, INIT_ACTION, []);
  }

  /** A string without an operator fails: "ur" reads 'r' where an operator must come. */
  lemma ParseMissingOperatorFails()
    ensures ParseModeSpec("ur") == None
  {
    var s := "ur";
    RunWhoLetter(s, 0, INIT_ACTION, []);
    var a := INIT_ACTION.(who := WHO_USER);
    RunWhoDone(s, 1, a, []);
    RunOpFail(s, 1, a, []);
  }

  /** After a comma the next clause must have an operator: a trailing or a doubled comma fails. */
  lemma ParseEmptyClauseFails()
    ensures ParseModeSpec("u+r,") == None
    ensures ParseModeSpec("u+r,,g+w") == None
  {
    var c := Clause([LetterU], [Item(OpPlus, [PermR], [])]);
    assert RenderClause(c) == "u+r";
    EmptyClauseFails("u+r,", c, "");
    EmptyClauseFails("u+r,,g+w", c, ",g+w");
  }

  /** A clause, a comma and then no operator where the next clause's must be. */
  lemma EmptyClauseFails(s: seq<char>, c: Clause, rest: seq<char>)
    requires ValidClause(c) && s == RenderClause(c) + [','] + rest
    requires !IsWhoChar(CharAt(s, |RenderClause(c)| + 1)) && !IsOpChar(CharAt(s, |RenderClause(c)| + 1))
    ensures ParseModeSpec(s) == None
  {
    var t := RenderClause(c);
    AtPrefix(s, t + [','], rest);
    RunClauseThenComma(s, 0, c, []);
    RunWhoDone(s, |t| + 1, INIT_ACTION, [] + ClauseActions(c));
    RunOpFail(s, |t| + 1, INIT_ACTION, [] + ClauseActions(c));
  }

  /**
   * An item followed by a character that can neither continue it nor end
   * it fails in the END state.
   */
  lemma RunStrayAfterItem(s: seq<char>, i: nat, who: Mode, it: Item, acts: seq<Action>)
    requires ValidItem(it) && At(s, i, RenderItem(it))
    requires var c := CharAt(s, i + |RenderItem(it)|);
      c != NUL && c != ',' && !IsOpChar(c) && StopsItem(c)
    ensures Run(s, Config(OpState, i, Action(who, OpInvalid, {}, WHO_NONE), acts)) == None
  {
    RunItem(s, i, who, it, acts);
    AtBound(s, i, RenderItem(it));
    RunEndFail(s, i + |RenderItem(it)|, ItemAction(who, it), acts);
  }

  /** A stray character after an item: "u+r;" fails. */
  lemma ParseStrayCharacterFails()
    ensures ParseModeSpec("u+r;") == None
  {
    var s := "u+r;";
    var it := Item(OpPlus, [PermR], []);
    assert RenderItem(it) == "+r";
    AtPrefix(s, "u+r", ";");
    AtSplit(s, 0, "u", "+r");
    RunWhos(s, 0, [LetterU], INIT_ACTION, []);
    assert INIT_ACTION.(who := WHO_NONE + WhoOf([LetterU])) == Action(WHO_USER, OpInvalid, {}, WHO_NONE);
    RunStrayAfterItem(s, 1, WHO_USER, it, []);
  }
}
