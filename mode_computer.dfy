/**
 * ComputeNewMode (src/winutils/chmod.c:588-653): one mode change action
 * applied to a mode. Straight-line bit arithmetic, so a function.
 */
module ModeComputer {
  import opened ChmodTypes

  /** The test of the conditional-execute letter X: a directory, or some execute bit already set. */
  predicate ExecutableOrDir(oldMode: Mode) {
    UX_DIRECTORY in oldMode || oldMode * EXE_MASK != {}
  }

  /**
   * The triples the permission letters name, over all three classes: X
   * names the execute triple only on a directory or an executable file.
   */
  function LetterMask(oldMode: Mode, perm: set<Perm>): Mode {
    var r := if PermR in perm then READ_MASK else {};
    var w := if PermW in perm then WRITE_MASK else {};
    var x := if PermX in perm then EXE_MASK else {};
    var lx := if PermLX in perm && ExecutableOrDir(oldMode) then EXE_MASK else {};
    r + w + x + lx
  }

  /**
   * The local `mask` of ComputeNewMode: the triples of the permission
   * letters and the old bits of the referenced class, restricted to `who`.
   */
  function ChangeMask(oldMode: Mode, who: Mode, perm: set<Perm>, ref: Mode): (mask: Mode)
    ensures mask <= who
  {
    (LetterMask(oldMode, perm) + oldMode * ref) * who
  }

  /**
   * The mode after one action. With neither permission letters nor a
   * reference the old mode comes back unchanged; otherwise '+' sets, '-'
   * clears and '=' yields the change mask itself, so that '=' keeps no bit
   * outside `who`. An action without an operator yields the empty mode.
   */
  function ComputeNewMode(oldMode: Mode, who: Mode, op: Op, perm: set<Perm>, ref: Mode): (mode: Mode)
    ensures perm == {} && ref == WHO_NONE ==> mode == oldMode
    ensures op == OpEqual && (perm != {} || ref != WHO_NONE) ==> mode <= who
  {
    if perm == {} && ref == WHO_NONE then oldMode
    else
      var mask := ChangeMask(oldMode, who, perm, ref);
      if op == OpEqual then mask
      else if op == OpMinus then oldMode - mask
      else if op == OpPlus then oldMode + mask
      else {}
  }

  /** ComputeNewMode applied to the fields of an action. */
  function Apply(oldMode: Mode, a: Action): Mode {
    ComputeNewMode(oldMode, a.who, a.op, a.perm, a.ref)
  }

  /**
   * '+' sets exactly the triples its letters name within `who`, and keeps
   * every old bit: only bits of `who` are added, and a reference adds
   * nothing, since the bits it copies are already set.
   */
  lemma PlusOnlySetsWithinWho(oldMode: Mode, who: Mode, perm: set<Perm>, ref: Mode)
    ensures var mode := ComputeNewMode(oldMode, who, OpPlus, perm, ref);
      && mode == oldMode + LetterMask(oldMode, perm) * who
      && oldMode <= mode && mode - oldMode <= who
  {
  }

  /**
   * '-' clears exactly the triples its letters name and the triple of the
   * referenced class, within `who`, and nothing else: only bits of `who`
   * are cleared and none is added.
   */
  lemma MinusOnlyClearsWithinWho(oldMode: Mode, who: Mode, perm: set<Perm>, ref: Mode)
    ensures var mode := ComputeNewMode(oldMode, who, OpMinus, perm, ref);
      && mode == oldMode - (LetterMask(oldMode, perm) + ref) * who
      && mode <= oldMode && oldMode - mode <= who
  {
  }

  /** '+' and '-' keep every bit outside `who`, the directory flag included. */
  lemma OutsideWhoUnchanged(oldMode: Mode, who: Mode, op: Op, perm: set<Perm>, ref: Mode)
    requires op == OpPlus || op == OpMinus
    ensures ComputeNewMode(oldMode, who, op, perm, ref) - who == oldMode - who
  {
  }

  /**
   * '=' yields the letters' triples, X's triple on an executable or a
   * directory, and the referenced bits, within `who`, and nothing else: no
   * bit outside `who` survives, so the directory flag and the other classes
   * are cleared.
   */
  lemma EqualIsMask(oldMode: Mode, who: Mode, perm: set<Perm>, ref: Mode)
    requires perm != {} || ref != WHO_NONE
    ensures var mode := ComputeNewMode(oldMode, who, OpEqual, perm, ref);
      && mode <= who
      && (PermR in perm ==> READ_MASK * who <= mode)
      && (PermW in perm ==> WRITE_MASK * who <= mode)
      && (PermX in perm ==> EXE_MASK * who <= mode)
      && (PermLX in perm && ExecutableOrDir(oldMode) ==> EXE_MASK * who <= mode)
      && oldMode * ref * who <= mode
      && mode <= (if PermR in perm then READ_MASK else {})
               + (if PermW in perm then WRITE_MASK else {})
               + (if PermX in perm || (PermLX in perm && ExecutableOrDir(oldMode)) then EXE_MASK else {})
               + oldMode * ref
  {
  }

  /** `a=rwx` yields 0777 whatever the old mode, the directory flag included. */
  lemma EqualAllPermissions(oldMode: Mode)
    ensures ComputeNewMode(oldMode, WHO_ALL, OpEqual, {PermR, PermW, PermX}, WHO_NONE) == WHO_ALL
  {
  }

  /**
   * X alone contributes the execute triple of `who` exactly when the old
   * mode is a directory or has an execute bit; otherwise nothing.
   */
  lemma ConditionalExecute(oldMode: Mode, who: Mode)
    ensures ChangeMask(oldMode, who, {PermLX}, WHO_NONE)
         == if ExecutableOrDir(oldMode) then EXE_MASK * who else {}
  {
  }

  /** A reference alone copies the old bits of the referenced class at that class's own positions. */
  lemma ReferenceInPlace(oldMode: Mode, who: Mode, ref: Mode)
    ensures ChangeMask(oldMode, who, {}, ref) == oldMode * ref * who
  {
  }

  /** A reference to a class outside `who` contributes nothing, so '+' and '-' change nothing. */
  lemma ReferenceOutsideWho(oldMode: Mode, who: Mode, op: Op, ref: Mode)
    requires IsClass(ref) && ref * who == {}
    requires op == OpPlus || op == OpMinus
    ensures ChangeMask(oldMode, who, {}, ref) == {}
    ensures ComputeNewMode(oldMode, who, op, {}, ref) == oldMode
  {
  }

  /** Applying the same action twice gives what applying it once gives, for every operator. */
  lemma ApplyIdempotent(oldMode: Mode, a: Action)
    ensures Apply(Apply(oldMode, a), a) == Apply(oldMode, a)
  {
  }
}
