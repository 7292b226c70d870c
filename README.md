# chmod for Windows: mode translation, in Dafny

A model of the mode-translation pipeline of the `chmod` command of Hadoop's
`winutils` (`src/winutils/chmod.c`), with its properties proved. The
pipeline has these stages:

- **Argument dispatch.** Two arguments, or three with `-R` first. The mode
  argument is tried as octal, then as symbolic.
- **Octal parsing.** `ParseOctalMode` turns a three- or four-digit string
  into a 9-bit mask.
- **Symbolic parsing.** `ParseMode` is a five-state machine that turns a
  string such as `u+r-w,go=rX` into an ordered list of
  `(who, op, perm, ref)` actions.
- **Mode computation.** `ComputeNewMode` applies one action to a mode.
  `ConvertActionsToMask` folds the list over the file's current mode.
- **Windows rights.** `GetWindowsAccessMask` derives the owner, group and
  Everyone allow and deny masks.
- **DACL construction.** `GetWindowsDACLs` appends three to five access
  control entries (ACEs) to a buffer sized in advance.
- **Recursive walk.** `ChangeFileModeRecursively` changes a directory tree
  in post-order and stops at the first failure.

Files and modules:

| file | module | what it holds |
|---|---|---|
| `chmod_types.dfy` | `ChmodTypes` | modes, the CHMOD_WHO/OP/PERM enumerations, `Action` |
| `mode_computer.dfy` | `ModeComputer` | `ComputeNewMode` and its algebra |
| `mode_resolver.dfy` | `ModeResolver` | the fold of `ConvertActionsToMask` |
| `octal_mode.dfy` | `OctalMode` | `ParseOctalMode` |
| `symbolic_mode.dfy` | `SymbolicMode` | the `ParseMode` state machine, as a step function and as the loop |
| `mode_grammar.dfy` | `ModeGrammar` | the grammar the machine accepts, in both directions, with the round trip from rendered clauses to actions |
| `windows_acl.dfy` | `WindowsAcl` | access masks, the ACE list, the ACL buffer, Windows access checking |
| `tree_walk.dfy` | `TreeWalk` | the recursive walk |
| `chmod.dfy` | `Chmod` | argument parsing, `ChangeFileMode`, the command |

## Representation

A mode (a `USHORT` in the source) is the set of positions of its one bits.
Position 0 is other-execute, position 8 user-read and position 14 the
directory flag `UX_DIRECTORY`. The bitwise operators become set operators:
`|` is `+`, `&` is `*` and `& ~` is `-`. No operation sets a bit at
position 16 or above, so the 16-bit width never truncates anything
(`ModeResolver.ApplyActionsFitsUShort`).
`ModeOf(v)` is the mode held by a number `v`.

A string argument is the sequence of characters before its terminating
NUL, so it holds no NUL. The parsers take any `seq<char>`, and read index
`|s|` as that NUL. A sequence with a NUL inside stands for no argument
the program can receive. The machine would read such a NUL as the end of
a clause and go on, where the program stops at it. The grammar theorem
`ModeGrammar.ParseModeAcceptsSentences` is stated for strings without NUL.

`UX_DIRECTORY` and the `WinMasks[]` table are defined in `common.h`, which
is not part of this model. The directory flag is modelled as bit 14, that
is, octal 040000; only "a bit outside 0777" matters. A Windows mask is a
set of tokens: `WIN_ALL`, `WIN_OWNER_SE`, `WIN_READ`, `WIN_WRITE`,
`WIN_EXECUTE` and `FILE_GENERIC_READ`. A zero mask is the empty set.

The access theorems rest on the following assumption about which token
covers which access, stated in `WindowsAcl.Covers`:

- `WIN_READ` and `FILE_GENERIC_READ` cover reading data.
- `WIN_WRITE` covers writing.
- `WIN_EXECUTE` covers executing.
- `WIN_ALL` and `FILE_GENERIC_READ` cover reading attributes.
- `WIN_OWNER_SE` covers changing the owner or the DACL.

Windows access checking is modelled for one access at a time. The first
entry that applies to the principal and mentions the access decides;
with no such entry the access is denied.

Calls into Windows become parameters:

- the file's current mode for a symbolic change
- the result of the directory query for `-R`
- whether the Everyone SID and the ACL buffer could be allocated
- the ACL header, ACE and SID sizes
- an oracle telling for which paths a single change succeeds

## Behaviour of the code

The model follows `chmod.c` as written. In several places the code departs
from POSIX `chmod` and from its own usage text:

- **`=` clears every bit outside `who`** (`chmod.c:637-641`).
  - This includes the other classes and the directory flag.
  - `u=rwx,g=rx,o=` on 0644 gives 050, not 0750
    (`ModeResolver.EqualClausesClearOtherClasses`).
- **An action with neither permission letters nor a reference changes
  nothing** (`chmod.c:605-608`). So `o=` is the identity, where POSIX
  would clear the other class.
- **A reference copies the referenced class's bits in place**
  (`chmod.c:635`). It does not replicate them onto the classes in `who`.
  - `u=g` takes the group bits, finds none of them inside `u`, and yields
    the empty mode.
  - `u+g` changes nothing.
- **Several reference letters are accepted**, because the REF state stays
  in REF (`chmod.c:853-871`).
  - The last letter wins: `u=ug` parses to one action `u=` with reference
    `g` (`ModeGrammar.ParseLastReferenceWins`).
  - Permission letters followed by reference letters, as in `u+rg`, are
    accepted too.
  - The usage text allows either letters or one reference.
- **`u+ru+w` is accepted.** After `+r` the REF state takes the `u` as a
  reference letter.
- **The octal guard `l > 0x0777` is hexadecimal** (`chmod.c:978`). It
  never rejects a three-digit value (`OctalMode.OctalGuardNeverBinds`).
- **The group's read right is `FILE_GENERIC_READ`**, where the owner and
  Everyone get `WIN_READ` (`chmod.c:1040`).

## Model

| member | source | states |
|---|---|---|
| ModeComputer.ChangeMask | src/winutils/chmod.c:610-637 | the change mask of an action never leaves `who` |
| ModeComputer.ComputeNewMode | src/winutils/chmod.c:588-653 | no permission letters and no reference give the old mode back; `=` with letters or a reference gives a mode inside `who` (the exact result of each operator is stated by the three lemmas below and `EqualIsMask`) |
| ModeComputer.PlusOnlySetsWithinWho | src/winutils/chmod.c:610-650 | `+` gives exactly the old mode plus the triples its letters name within `who` (`X` only on an executable file or a directory); a reference adds nothing; so it keeps every old bit and adds bits of `who` only |
| ModeComputer.MinusOnlyClearsWithinWho | src/winutils/chmod.c:610-646 | `-` gives exactly the old mode less the triples its letters name and the referenced class's triple, within `who`; so it adds no bit and clears bits of `who` only |
| ModeComputer.OutsideWhoUnchanged | src/winutils/chmod.c:637-650 | `+` and `-` keep every bit outside `who`, the directory flag included |
| ModeComputer.EqualIsMask | src/winutils/chmod.c:610-642 | `=` yields a subset of `who` that holds each named letter's triple, X's triple on an executable or a directory, and the referenced old bits, all within `who`, and nothing beyond those triples and bits |
| ModeComputer.EqualAllPermissions | src/winutils/chmod.c:610-641 | `a=rwx` yields exactly 0777 whatever the old mode |
| ModeComputer.ConditionalExecute | src/winutils/chmod.c:618-632 | `X` contributes the execute triple within `who` exactly when the old mode is a directory or has an execute bit, otherwise nothing |
| ModeComputer.ReferenceInPlace | src/winutils/chmod.c:635-637 | a reference contributes the old bits of the referenced class at that class's own positions, within `who` |
| ModeComputer.ReferenceOutsideWho | src/winutils/chmod.c:635-637 | a reference to a class outside `who` contributes nothing, so `+` and `-` with it leave the mode unchanged |
| ModeComputer.ApplyIdempotent | src/winutils/chmod.c:588-653 | applying the same action twice gives what applying it once gives |
| ModeResolver.ApplyActionsAppend | src/winutils/chmod.c:702-707 | folding a concatenation of two action lists is folding the first, then the second |
| ModeResolver.ApplyActionsKeepsOutside | src/winutils/chmod.c:702-707 | a list of `+` and `-` actions whose classes lie in an area keeps every bit outside it |
| ModeResolver.ApplyActionsNeverAddsHighBits | src/winutils/chmod.c:702-707 | well-formed actions never set a bit outside 0777; the directory flag is only kept or cleared |
| ModeResolver.ApplyActionsFitsUShort | src/winutils/chmod.c:677-707 | from a mode that fits a USHORT, well-formed actions give a mode that fits a USHORT, so the 16-bit width never truncates |
| ModeResolver.ActionNeverAddsHighBits | src/winutils/chmod.c:635-650 | one well-formed action never sets a bit outside 0777 |
| ModeResolver.EqualClausesClearOtherClasses | src/winutils/chmod.c:639-641 | the actions of `u=rwx,g=rx,o=` turn 0644 into 050 |
| ModeResolver.ConvertActionsToMask | src/winutils/chmod.c:669-709 | fails when the file query fails; otherwise returns the actions applied left to right to the file's mode |
| OctalMode.OctalValue | src/winutils/chmod.c:974-976 | the base-8 value of a digit string is below 8 to the power of its length |
| OctalMode.ParseOctalMode | src/winutils/chmod.c:944-986 | the length check, validation loop and conversion compute the octal parse outcome |
| OctalMode.ParseOctalSucceedsIff | src/winutils/chmod.c:957-967 | parsing succeeds exactly on strings of length 3 or 4 made only of `0`-`7` |
| OctalMode.OctalGuardNeverBinds | src/winutils/chmod.c:978-981 | the value checked against `0x0777` is at most 0777, so the guard never rejects |
| OctalMode.ParseOctalWithinPermissionBits | src/winutils/chmod.c:969-983 | a parsed mode lies within 0777 |
| OctalMode.ParseOctalString | src/winutils/chmod.c:944-986 | printing a value below 01000 as three octal digits and parsing it back gives that value's mode |
| OctalMode.ParseOctalIgnoresLeadingDigit | src/winutils/chmod.c:970-974 | the first digit of a four-digit string is dropped, whatever it is |
| OctalMode.ParseOctalInjective | src/winutils/chmod.c:969-983 | two strings parse to the same mode only when their last three digits agree |
| OctalMode.ParsedValue | src/winutils/chmod.c:969-983 | a successful parse yields the mode of the value of the last three digits |
| SymbolicMode.Default | src/winutils/chmod.c:897 | an action left without classes gets all classes; one with classes keeps them |
| SymbolicMode.ParseMode | src/winutils/chmod.c:754-926 | the `while (i <= len)` loop over the five states computes the outcome of the step-function machine |
| SymbolicMode.StepKeepsReachable | src/winutils/chmod.c:781-924 | one loop iteration keeps the appended actions well formed, the action being built with a who made of whole classes, a single-class reference, and an operator once past OP |
| SymbolicMode.RunWellFormed | src/winutils/chmod.c:781-925 | from a reachable configuration, a successful run yields a non-empty list of well-formed actions |
| SymbolicMode.ParseModeWellFormed | src/winutils/chmod.c:781-925 | a successful parse yields a non-empty list whose actions all have a non-empty who of whole classes, an operator among `+`, `-`, `=` and a single-class reference or none |
| SymbolicMode.ParseModeFirstChar | src/winutils/chmod.c:784-824 | a string that parses starts with a who letter or an operator |
| SymbolicMode.RunWhoLetter | src/winutils/chmod.c:786-803 | a who letter is consumed and its class joins the action's who |
| SymbolicMode.RunWhoDone | src/winutils/chmod.c:804-805 | any other character moves to OP without being consumed |
| SymbolicMode.RunOpChar | src/winutils/chmod.c:810-827 | an operator is consumed, recorded and moves to PERM |
| SymbolicMode.RunOpFail | src/winutils/chmod.c:821-824 | any other character in OP, the NUL included, fails the parse |
| SymbolicMode.RunPermLetter | src/winutils/chmod.c:831-848 | a permission letter is consumed and joins the action's permission set |
| SymbolicMode.RunPermDone | src/winutils/chmod.c:849-850 | any other character moves to REF without being consumed |
| SymbolicMode.RunRefLetter | src/winutils/chmod.c:855-868 | a reference letter is consumed and replaces the action's reference |
| SymbolicMode.RunRefDone | src/winutils/chmod.c:869-870 | any other character moves to END without being consumed |
| SymbolicMode.RunEndComma | src/winutils/chmod.c:877-916 | a comma is consumed, the action is appended with its default who, and the next action starts with no who |
| SymbolicMode.RunEndNul | src/winutils/chmod.c:877-916 | the NUL is consumed, the action is appended and the parse succeeds with the list |
| SymbolicMode.RunEndOp | src/winutils/chmod.c:880-916 | an operator is not consumed; the action is appended and the next one inherits its who |
| SymbolicMode.RunEndFail | src/winutils/chmod.c:918-921 | any other character in END fails the parse |
| ModeGrammar.ParseRender | src/winutils/chmod.c:781-925 | every sentence of the grammar (who letters, then items of an operator, permission letters and reference letters, clauses joined by commas) parses to its meaning: one action per item, in order, with the clause's classes or all classes, inherited along the clause and reset at a comma |
| ModeGrammar.ParseModeAcceptsSentences | src/winutils/chmod.c:754-926 | a string without NUL is accepted exactly when it is a sentence of the grammar, and then it parses to that sentence's meaning |
| ModeGrammar.ParseLastReferenceWins | src/winutils/chmod.c:853-871 | `u=ug` parses to the single action `u=` with reference `g` |
| ModeGrammar.ParseUserExecute | src/winutils/chmod.c:781-925 | `u+x` parses to the single action adding `x` for the owner |
| ModeGrammar.ParseEmptyFails | src/winutils/chmod.c:808-824 | the empty string fails |
| ModeGrammar.ParseMissingOperatorFails | src/winutils/chmod.c:808-824 | `ur` fails for want of an operator |
| ModeGrammar.EmptyClauseFails | src/winutils/chmod.c:877-924 | a valid clause followed by a comma and then a comma or the end fails |
| ModeGrammar.ParseEmptyClauseFails | src/winutils/chmod.c:877-924 | `u+r,` and `u+r,,g+w` fail |
| ModeGrammar.RunStrayAfterItem | src/winutils/chmod.c:918-921 | an item followed by a character that is no letter, operator, comma or NUL fails the parse |
| ModeGrammar.ParseStrayCharacterFails | src/winutils/chmod.c:918-921 | `u+r;` fails |
| WindowsAcl.Bit | src/winutils/chmod.c:1001-1070 | each class and permission has its own bit, inside its class triple and its permission triple |
| WindowsAcl.GetWindowsAccessMask | src/winutils/chmod.c:1001-1070 | the owner is always allowed `WIN_ALL` and `WIN_OWNER_SE`; the group and Everyone are always allowed `WIN_ALL`; deny masks hold only read, write and execute |
| WindowsAcl.OwnerDenyRule | src/winutils/chmod.c:1022-1036 | the owner is denied a right exactly when the owner lacks it and the group or other has it |
| WindowsAcl.GroupDenyRule | src/winutils/chmod.c:1048-1059 | the group is denied a right exactly when the group lacks it and other has it |
| WindowsAcl.OwnerAllowRule | src/winutils/chmod.c:1012-1020 | the owner is allowed a data right exactly when the owner bit is set, never `FILE_GENERIC_READ` |
| WindowsAcl.GroupAllowRule | src/winutils/chmod.c:1038-1046 | the group gets `FILE_GENERIC_READ` exactly for its read bit, write and execute for their bits, never `WIN_READ` |
| WindowsAcl.OtherAllowRule | src/winutils/chmod.c:1061-1069 | Everyone is allowed a data right exactly for the other bit; no mask is ever built to deny Everyone |
| WindowsAcl.AccessMaskUsesPermissionBits | src/winutils/chmod.c:1001-1070 | the five masks depend only on the nine permission bits |
| WindowsAcl.OwnerDenyPresence | src/winutils/chmod.c:1145-1151 | an owner deny entry is added exactly when the owner lacks some right the group or other has |
| WindowsAcl.GroupDenyPresence | src/winutils/chmod.c:1158-1164 | a group deny entry is added exactly when the group lacks some right other has |
| WindowsAcl.AceListShape | src/winutils/chmod.c:1145-1176 | the entry list has 3 to 5 entries: owner, group, Everyone, with deny before allow; Everyone's allow entry is last; there is an allow entry per trustee with its mask; no mask is empty; there is no Everyone deny; a deny entry is present exactly when its mask is non-zero |
| WindowsAcl.DaclShape | src/winutils/chmod.c:1103-1176 | the same shape for the DACL of every mode |
| WindowsAcl.StageGrows | src/winutils/chmod.c:1120-1176 | each `AddAccess*Ace` call adds exactly the bytes the size computation counted for it |
| WindowsAcl.StagesFit | src/winutils/chmod.c:1120-1176 | each call finds room in a buffer of the precomputed size |
| WindowsAcl.DaclSizeExact | src/winutils/chmod.c:1120-1132 | the precomputed size is exactly the header plus the sizes of the entries added |
| WindowsAcl.AclBuffer.Initialize | src/winutils/chmod.c:1139-1143 | initialization succeeds exactly when the buffer holds the header, and leaves it empty |
| WindowsAcl.AclBuffer.Add | src/winutils/chmod.c:1145-1176 | an entry is appended exactly when the ACL is initialized and the entry fits; otherwise nothing changes |
| WindowsAcl.AddOwnerAces | src/winutils/chmod.c:1145-1157 | the owner's deny entry, when non-zero, and allow entry are added without failing |
| WindowsAcl.AddGroupAndEveryoneAces | src/winutils/chmod.c:1158-1176 | the group's and Everyone's entries are added without failing |
| WindowsAcl.GetWindowsDACLs | src/winutils/chmod.c:1085-1186 | with both allocations done, returns the DACL of the mode; otherwise returns no list |
| WindowsAcl.DaclDecision | src/winutils/chmod.c:1145-1176 | over the entries in the order added, an access is refused by an applicable non-empty owner deny, else granted by the owner allow, else refused by a group deny, else granted by the group allow, else decided by the Everyone allow |
| WindowsAcl.EffectiveDataAccess | src/winutils/chmod.c:1001-1176 | a principal may read, write or execute exactly when the mode has that bit for the principal's own class: owner, else group, else other |
| WindowsAcl.EffectiveAttributeAccess | src/winutils/chmod.c:1012-1061 | everybody may read the attributes, whatever the mode |
| WindowsAcl.EffectivePermissionChange | src/winutils/chmod.c:1012 | only the owner may change the owner or the DACL |
| TreeWalk.ChangeFileModeRecursively | src/winutils/chmod.c:205-312 | computes the post-order walk that skips `.` and `..` and stops at the first failure |
| TreeWalk.ChangeEntries | src/winutils/chmod.c:259-299 | the enumeration loop walks the entries other than `.` and `..` in order and stops at the first that fails, computing the walk of the directory's entries |
| TreeWalk.WalkIsPostOrderPrefix | src/winutils/chmod.c:205-312 | the walk tries the post-order list of the tree up to and including its first failing path, and succeeds exactly when every path can be changed |
| TreeWalk.WalkStopsAtFirstFailure | src/winutils/chmod.c:291-306 | a successful walk tries the whole post-order list; a failed one tries a prefix of it whose last path alone failed |
| TreeWalk.PostOrderStaysBelow | src/winutils/chmod.c:271-285 | every path the walk tries extends the starting path by names other than `.` and `..` |
| TreeWalk.DirectoryLast | src/winutils/chmod.c:291-304 | a directory's own path comes last, after every path below it |
| Chmod.ParseCommandLineArguments | src/winutils/chmod.c:479-536 | the argument checks, then the octal and symbolic attempts, compute the argument parse outcome |
| Chmod.ArgumentsAccepted | src/winutils/chmod.c:491-535 | arguments are accepted exactly for two of them, or three with `-R` first and a path the query inspects, and a mode that is octal or symbolic |
| Chmod.RecursiveOnlyForDirectory | src/winutils/chmod.c:494-524 | the path is the last argument; the walk is recursive exactly for `-R` on a directory |
| Chmod.OctalAndSymbolicDisjoint | src/winutils/chmod.c:526-533 | no string is both octal and symbolic, so trying octal first decides nothing |
| Chmod.ModeArgumentShape | src/winutils/chmod.c:526-533 | a parsed mode is an octal mask within 0777 or a non-empty list of well-formed actions |
| Chmod.ChangeFileMode | src/winutils/chmod.c:181-188 | a DACL is produced exactly when the new mode is known and both allocations succeed, and it is the DACL of the octal mask or of the actions applied to the current mode |
| Chmod.ChangeGrantsClassBits | src/winutils/chmod.c:724-733 | after a change, a principal's data access follows the new mode's bits for the principal's class |
| Chmod.OctalExample | src/winutils/chmod.c:944-986 | `750` is the mask rwxr-x--- |
| Chmod.OctalExampleAccess | src/winutils/chmod.c:1001-1176 | after `chmod 750` a group member may read and execute but not write, and others may not read |
| Chmod.SymbolicExample | src/winutils/chmod.c:526-533 | `u+x` is symbolic and turns 0644 into 0744 |
| Chmod.Chmod | src/winutils/chmod.c:112-165 | failed parsing tries no path; otherwise the one path is tried, or the tree is walked for `-R` on a directory |

## Left out

- The security-descriptor calls of `ChangeFileModeByMask` (`chmod.c:326-463`): reading the owner and group SIDs, building and writing the descriptor. These are Win32 calls with no visible semantics. The model stops at the DACL that would be written.
- The byte layout of the ACL. `sizeof(ACL)`, the fixed part of the ACE structures and the SID lengths are parameters. `InitializeAcl` and `AddAccess*Ace` are modelled only by their space check. `AllocateAndInitializeSid`, `LocalAlloc` and their outcomes become flags.
- The concrete values of `WinMasks[]`, `UX_*` and `UX_DIRECTORY` from `common.h`. Rights are tokens. The access theorems rest on the covering assumption stated under Representation.
- File-system queries: `GetFileInformationByName`, `IsDirFileInfo` and `FindFileOwnerAndPermission`. Their results are inputs: the current mode as an `Option`, the directory answer for `-R`, and the tree the walk visits.
- Directory enumeration and path building in the walk: `FindFirstFile`/`FindNextFileW`, `StringCch*` and the `MAX_PATH` limit. A directory is its list of entries in enumeration order. A path is a list of names.
- TreeWalk.ChangeFileModeRecursively: does not model the failures of the file query, the path-length check, the string copies or `FindFirstFile`. Only the failure of a single change, given by the oracle, stops the walk.
- Chmod.Chmod: `ConvertToLongPath` is assumed to succeed, and the exit code is a boolean.
- `ReportErrorCode`, the `fwprintf` diagnostics and `ChmodUsage`. These are output only.
- Memory management: `LocalAlloc`/`LocalFree`, `FreeActions`, the linked list of actions (a sequence here), and the node allocation failure in `ParseMode` (`chmod.c:889-896`). `StringCchLengthW` failing in the parsers is left out too.
- SymbolicMode.ParseMode: does not model the allocation failure of a list node, which the source reports as a parse failure.
- The `assert` at `chmod.c:601-603`. It is compiled out of release builds and contradicts the handled no-reference case, so it is not a precondition.
- Windows access checking for several rights requested at once. The theorems cover one access at a time.
