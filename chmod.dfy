/**
 * The chmod command: its arguments, the choice between an octal and a
 * symbolic mode, and what changing the mode of one file amounts to, from
 * the mode argument to the DACL written to the file.
 */
module Chmod {
  import opened ChmodTypes
  import OctalMode
  import SymbolicMode
  import ModeResolver
  import WindowsAcl
  import TreeWalk
  import ModeGrammar

  /**
   * A parsed mode argument: the mask of an octal mode, or the action list
   * of a symbolic one (the `actions` of the source is NULL exactly for an
   * octal mode).
   */
  datatype ModeArgument = OctalMask(mask: Mode) | Actions(actions: seq<Action>)

  /** What ParseCommandLineArguments hands back on success. */
  datatype Arguments = Arguments(recursive: bool, mode: ModeArgument, path: string)

  /** The mode argument read as octal first, then as symbolic. */
  function ParseModeArgument(s: seq<char>): Option<ModeArgument> {
    match OctalMode.ParseOctalSpec(s)
    case Some(m) => Some(OctalMask(m))
    case None =>
      match SymbolicMode.ParseModeSpec(s)
      case Some(acts) => Some(Actions(acts))
      case None => None
  }

  /**
   * ParseCommandLineArguments, on the argument vector (the program name
   * first). `pathIsDirectory` is what the file query on the path reports
   * when `-R` is given: None when the query fails.
   */
  function ParseArguments(argv: seq<string>, pathIsDirectory: Option<bool>): Option<Arguments> {
    if |argv| != 3 && |argv| != 4 then None
    else if |argv| == 4 && argv[1] != "-R" then None
    else if |argv| == 4 && pathIsDirectory == None then None
    else
      var recursive := |argv| == 4 && pathIsDirectory == Some(true);
      var maskString := argv[|argv| - 2];
      match ParseModeArgument(maskString)
      case Some(m) => Some(Arguments(recursive, m, argv[|argv| - 1]))
      case None => None
  }

  /** ParseCommandLineArguments: octal tried before symbolic. */
  method ParseCommandLineArguments(argv: seq<string>, pathIsDirectory: Option<bool>)
    returns (r: Option<Arguments>)
    ensures r == ParseArguments(argv, pathIsDirectory)
  {
    if |argv| != 3 && |argv| != 4 {
      return None;
    }
    var recursive := false;
    var maskString: string;
    var path: string;
    if |argv| == 4 {
      maskString := argv[2];
      path := argv[3];
      if argv[1] == "-R" {
        if pathIsDirectory == None {
          return None;
        }
        if pathIsDirectory.value {
          recursive := true;
        }
      } else {
        return None;
      }
    } else {
      maskString := argv[1];
      path := argv[2];
    }
    var mask := OctalMode.ParseOctalMode(maskString);
    if mask != None {
      return Some(Arguments(recursive, OctalMask(mask.value), path));
    }
    var actions := SymbolicMode.ParseMode(maskString);
    if actions != None {
      return Some(Arguments(recursive, Actions(actions.value), path));
    }
    return None;
  }

  /**
   * The arguments are accepted exactly when there are two of them, or
   * three with `-R` first and a path the query could inspect, and the mode
   * is octal or symbolic.
   */
  lemma ArgumentsAccepted(argv: seq<string>, pathIsDirectory: Option<bool>)
    ensures ParseArguments(argv, pathIsDirectory) != None
        <==> && (|argv| == 3 || (|argv| == 4 && argv[1] == "-R" && pathIsDirectory != None))
             && ParseModeArgument(argv[|argv| - 2]) != None
  {
  }

  /** The walk is recursive only for `-R` on a path the query reports as a directory. */
  lemma RecursiveOnlyForDirectory(argv: seq<string>, pathIsDirectory: Option<bool>)
    requires ParseArguments(argv, pathIsDirectory) != None
    ensures var args := ParseArguments(argv, pathIsDirectory).value;
      && args.path == argv[|argv| - 1]
      && (args.recursive <==> |argv| == 4 && pathIsDirectory == Some(true))
  {
  }

  /**
   * No string is both an octal and a symbolic mode, so trying the octal
   * form first decides nothing: a digit can start neither a who letter
   * nor an operator.
   */
  lemma OctalAndSymbolicDisjoint(s: seq<char>)
    ensures OctalMode.ParseOctalSpec(s) != None ==> SymbolicMode.ParseModeSpec(s) == None
  {
    SymbolicMode.ParseModeFirstChar(s);
    if OctalMode.ParseOctalSpec(s) != None {
      OctalMode.ParseOctalSucceedsIff(s);
      assert OctalMode.IsOctalDigit(s[0]);
    }
  }

  /**
   * A parsed mode argument is an octal mask within 0777, or a non-empty
   * list of well-formed actions.
   */
  lemma ModeArgumentShape(s: seq<char>)
    ensures match ParseModeArgument(s)
      case None => true
      case Some(OctalMask(m)) => m <= WHO_ALL
      case Some(Actions(acts)) =>
        |acts| > 0 && forall k :: 0 <= k < |acts| ==> WellFormed(acts[k])
  {
    OctalMode.ParseOctalWithinPermissionBits(s);
    SymbolicMode.ParseModeWellFormed(s);
  }

  // Changing the mode of one file

  /**
   * The mode a file gets: the octal mask as it is, or the actions applied
   * to the file's current mode. `current` is what the file queries report,
   * None when they fail; an octal mode does not query the file.
   */
  function NewMode(arg: ModeArgument, current: Option<Mode>): Option<Mode> {
    match arg
    case OctalMask(m) => Some(m)
    case Actions(acts) =>
      if current == None then None else Some(ModeResolver.ApplyActions(current.value, acts))
  }

  /**
   * ChangeFileMode and ChangeFileModeByActions, up to the DACL that
   * ChangeFileModeByMask writes: a symbolic mode is first resolved against
   * the current mode, then the mask is turned into a DACL.
   */
  method ChangeFileMode(arg: ModeArgument, current: Option<Mode>, sizes: WindowsAcl.AclSizes,
                        everyoneSidAllocated: bool, bufferAllocated: bool)
    returns (dacl: Option<seq<WindowsAcl.Ace>>)
    ensures dacl != None <==> NewMode(arg, current) != None && everyoneSidAllocated && bufferAllocated
    ensures dacl != None ==> dacl.value == WindowsAcl.DaclEntries(NewMode(arg, current).value)
  {
    var mask: Mode;
    if arg.Actions? {
      var resolved := ModeResolver.ConvertActionsToMask(current, arg.actions);
      if resolved == None {
        return None;
      }
      mask := resolved.value;
    } else {
      mask := arg.mask;
    }
    dacl := WindowsAcl.GetWindowsDACLs(mask, sizes, everyoneSidAllocated, bufferAllocated);
  }

  /**
   * After a successful change, a principal has a data access exactly when
   * the new mode has the bit of that access for the principal's class.
   */
  lemma ChangeGrantsClassBits(arg: ModeArgument, current: Option<Mode>,
                              p: WindowsAcl.Principal, k: WindowsAcl.PermKind)
    requires NewMode(arg, current) != None
    ensures var m := NewMode(arg, current).value;
      WindowsAcl.AccessGranted(WindowsAcl.DaclEntries(m), p, WindowsAcl.Data(k))
      == (WindowsAcl.Bit(WindowsAcl.ClassOf(p), k) in m)
  {
    WindowsAcl.EffectiveDataAccess(NewMode(arg, current).value, p, k);
  }

  /** "750" is the mask rwxr-x---. */
  lemma OctalExample()
    ensures ParseModeArgument("750") == Some(OctalMask({8, 7, 6, 5, 3}))
  {
    var s := "750";
    OctalMode.ThreeDigitValue(s);
    assert OctalMode.OctalValue(s) == 488;
    assert ModeOf(488) == {8, 7, 6, 5, 3};
  }

  /**
   * After `chmod 750` (the mask `m` of OctalExample), a member of the
   * file's group who is not its owner may read and execute the file but not
   * write it, and anybody else may not read it.
   */
  lemma OctalExampleAccess(m: Mode)
    requires m == {8, 7, 6, 5, 3}
    ensures var d := WindowsAcl.DaclEntries(m);
      var member := WindowsAcl.Principal(false, true);
      var stranger := WindowsAcl.Principal(false, false);
      && WindowsAcl.AccessGranted(d, member, WindowsAcl.Data(WindowsAcl.ReadPerm))
      && WindowsAcl.AccessGranted(d, member, WindowsAcl.Data(WindowsAcl.ExecutePerm))
      && !WindowsAcl.AccessGranted(d, member, WindowsAcl.Data(WindowsAcl.WritePerm))
      && !WindowsAcl.AccessGranted(d, stranger, WindowsAcl.Data(WindowsAcl.ReadPerm))
  {
    assert WindowsAcl.Bit(WindowsAcl.GroupClass, WindowsAcl.ReadPerm) == 5;
    assert WindowsAcl.Bit(WindowsAcl.GroupClass, WindowsAcl.WritePerm) == 4;
    assert WindowsAcl.Bit(WindowsAcl.GroupClass, WindowsAcl.ExecutePerm) == 3;
    assert WindowsAcl.Bit(WindowsAcl.OtherClass, WindowsAcl.ReadPerm) == 2;
    var member := WindowsAcl.Principal(false, true);
    var stranger := WindowsAcl.Principal(false, false);
    WindowsAcl.EffectiveDataAccess(m, member, WindowsAcl.ReadPerm);
    WindowsAcl.EffectiveDataAccess(m, member, WindowsAcl.ExecutePerm);
    WindowsAcl.EffectiveDataAccess(m, member, WindowsAcl.WritePerm);
    WindowsAcl.EffectiveDataAccess(m, stranger, WindowsAcl.ReadPerm);
  }

  /** `chmod u+x` on a file with mode rw-r--r-- (0644) gives it rwxr--r-- (0744). */
  lemma SymbolicExample()
    ensures ParseModeArgument("u+x") == Some(Actions([Action(WHO_USER, OpPlus, {PermX}, WHO_NONE)]))
    ensures NewMode(Actions([Action(WHO_USER, OpPlus, {PermX}, WHO_NONE)]), Some({8, 7, 5, 2}))
      == Some({8, 7, 6, 5, 2})
  {
    ModeGrammar.ParseUserExecute();
    var s := "u+x";
    assert !OctalMode.IsOctalDigit(s[0]);
    assert OctalMode.ParseOctalSpec(s) == None;
    var a := Action(WHO_USER, OpPlus, {PermX}, WHO_NONE);
    assert [a][1..] == [];
    assert ModeResolver.ApplyActions({8, 7, 5, 2}, [a]) == ModeResolver.ApplyActions({8, 7, 6, 5, 2}, []);
  }

  // The command

  /**
   * Chmod: parse the arguments, then change the mode of the path, or walk
   * the tree below it for a recursive change. `root` is the file-system
   * entry at the path and `ok` says for which paths a single change
   * succeeds. The result is whether the command succeeds and the paths
   * whose mode it tried to change, the failing one included. What one
   * change writes to a path is ChangeFileMode's result: the DACL of the
   * new mode; `ok` stands for whether that write succeeds.
   */
  method Chmod(argv: seq<string>, pathIsDirectory: Option<bool>, root: TreeWalk.Entry,
               ok: TreeWalk.Path -> bool)
    returns (success: bool, attempted: seq<TreeWalk.Path>)
    ensures ParseArguments(argv, pathIsDirectory) == None ==> !success && attempted == []
    ensures ParseArguments(argv, pathIsDirectory) != None ==>
      var args := ParseArguments(argv, pathIsDirectory).value;
      if args.recursive then TreeWalk.Outcome(attempted, success) == TreeWalk.Walk([args.path], root, ok)
      else attempted == [[args.path]] && success == ok([args.path])
  {
    var args := ParseCommandLineArguments(argv, pathIsDirectory);
    if args == None {
      return false, [];
    }
    var path := [args.value.path];
    if !args.value.recursive {
      attempted := [path];
      success := ok(path);
    } else {
      success, attempted := TreeWalk.ChangeFileModeRecursively(path, root, ok);
    }
  }
}
