/**
 * ConvertActionsToMask (src/winutils/chmod.c:667-708): the mode change
 * actions of a symbolic mode applied, in list order, to a file's current
 * mode.
 */
module ModeResolver {
  import opened ChmodTypes
  import opened ModeComputer

  /** The actions applied left to right, starting from `mode`. */
  function ApplyActions(mode: Mode, actions: seq<Action>): Mode
    decreases |actions|
  {
    if actions == [] then mode
    else ApplyActions(Apply(mode, actions[0]), actions[1..])
  }

  /**
   * Applying a list that is the concatenation of two lists is applying the
   * first, then the second to its result.
   */
  lemma {:induction false} ApplyActionsAppend(mode: Mode, xs: seq<Action>, ys: seq<Action>)
    ensures ApplyActions(mode, xs + ys) == ApplyActions(ApplyActions(mode, xs), ys)
    decreases |xs|
  {
    if xs != [] {
      assert (xs + ys)[1..] == xs[1..] + ys;
      ApplyActionsAppend(Apply(mode, xs[0]), xs[1..], ys);
    } else {
      assert xs + ys == ys;
    }
  }

  /**
   * When every action is '+' or '-' and names only classes inside `area`,
   * every bit outside `area` keeps its old value.
   */
  lemma {:induction false} ApplyActionsKeepsOutside(mode: Mode, actions: seq<Action>, area: Mode)
    requires forall i :: 0 <= i < |actions| ==>
      (actions[i].op == OpPlus || actions[i].op == OpMinus) && actions[i].who <= area
    ensures ApplyActions(mode, actions) - area == mode - area
    decreases |actions|
  {
    if actions != [] {
      var a := actions[0];
      OutsideWhoUnchanged(mode, a.who, a.op, a.perm, a.ref);
      ApplyActionsKeepsOutside(Apply(mode, a), actions[1..], area);
    }
  }

  /**
   * Well-formed actions never add a bit outside the nine permission bits:
   * the directory flag and the other high bits can only be kept or, by
   * '=', cleared.
   */
  lemma {:induction false} ApplyActionsNeverAddsHighBits(mode: Mode, actions: seq<Action>)
    requires forall i :: 0 <= i < |actions| ==> WellFormed(actions[i])
    ensures ApplyActions(mode, actions) - WHO_ALL <= mode - WHO_ALL
    decreases |actions|
  {
    if actions != [] {
      var a := actions[0];
      ActionNeverAddsHighBits(mode, a);
      ApplyActionsNeverAddsHighBits(Apply(mode, a), actions[1..]);
    }
  }

  /**
   * The resolved mode fits the USHORT that holds it whenever the file's
   * mode does: the 16-bit width never truncates the result.
   */
  lemma ApplyActionsFitsUShort(mode: Mode, actions: seq<Action>)
    requires FitsUShort(mode)
    requires forall i :: 0 <= i < |actions| ==> WellFormed(actions[i])
    ensures FitsUShort(ApplyActions(mode, actions))
  {
    var r := ApplyActions(mode, actions);
    ApplyActionsNeverAddsHighBits(mode, actions);
    forall b | b in r
      ensures b < MODE_BITS
    {
      if b !in WHO_ALL {
        assert b in r - WHO_ALL;
        assert b in mode;
      }
    }
  }

  /** One well-formed action never adds a bit outside 0777. */
  lemma ActionNeverAddsHighBits(mode: Mode, a: Action)
    requires WellFormed(a)
    ensures Apply(mode, a) - WHO_ALL <= mode - WHO_ALL
  {
    assert a.who <= WHO_ALL;
  }

  /**
   * The actions of "u=rwx,g=rx,o=" on rw-r--r-- (0644) give ----r-x---
   * (050), not rwxr-x--- (0750): each '=' clears every bit outside its own
   * class, and "o=", with neither letters nor a reference, changes nothing.
   */
  lemma EqualClausesClearOtherClasses()
    ensures ApplyActions({8, 7, 5, 2}, [
      Action(WHO_USER, OpEqual, {PermR, PermW, PermX}, WHO_NONE),
      Action(WHO_GROUP, OpEqual, {PermR, PermX}, WHO_NONE),
      Action(WHO_OTHER, OpEqual, {}, WHO_NONE)]) == {5, 3}
  {
    var u := Action(WHO_USER, OpEqual, {PermR, PermW, PermX}, WHO_NONE);
    var g := Action(WHO_GROUP, OpEqual, {PermR, PermX}, WHO_NONE);
    var o := Action(WHO_OTHER, OpEqual, {}, WHO_NONE);
    assert [u, g, o][1..] == [g, o] && [g, o][1..] == [o] && [o][1..] == [];
    assert Apply({8, 7, 5, 2}, u) == WHO_USER;
    assert Apply(WHO_USER, g) == {5, 3};
    assert Apply({5, 3}, o) == {5, 3};
    assert ApplyActions({5, 3}, [o]) == ApplyActions({5, 3}, []);
    assert ApplyActions(WHO_USER, [g, o]) == ApplyActions({5, 3}, [o]);
    assert ApplyActions({8, 7, 5, 2}, [u, g, o]) == ApplyActions(WHO_USER, [g, o]);
  }

  /**
   * The loop of ConvertActionsToMask. `fileMode` is what the file queries
   * before the loop produce: the current mode with the directory flag,
   * or None when a query fails, which fails the conversion.
   */
  method ConvertActionsToMask(fileMode: Option<Mode>, actions: seq<Action>) returns (r: Option<Mode>)
    ensures fileMode == None ==> r == None
    ensures fileMode != None ==> r == Some(ApplyActions(fileMode.value, actions))
  {
    if fileMode == None {
      return None;
    }
    var mode := fileMode.value;
    var k := 0;
    while k < |actions|
      invariant 0 <= k <= |actions|
      invariant ApplyActions(mode, actions[k..]) == ApplyActions(fileMode.value, actions)
    {
      assert actions[k..][1..] == actions[k + 1..];
      mode := ComputeNewMode(mode, actions[k].who, actions[k].op, actions[k].perm, actions[k].ref);
      k := k + 1;
    }
    return Some(mode);
  }
}
