/**
 * From the nine permission bits of a Unix mode to a Windows discretionary
 * access control list (DACL): GetWindowsAccessMask computes the five access
 * masks, GetWindowsDACLs appends the access control entries (ACEs) to a
 * buffer sized in advance.
 *
 * The WinMasks[] table and the numeric rights are not part of this model.
 * A mask is a set of right tokens, one per WinMasks[] entry the code uses
 * plus FILE_GENERIC_READ. An empty token set stands for a zero mask, since
 * every WinMasks[] entry is a non-zero mask. The byte layout of the ACL is
 * abstract too: the header size, the fixed part of each ACE and the SID
 * lengths are parameters.
 */
module WindowsAcl {
  import opened ChmodTypes

  /** The rights the code ORs into a mask: WinMasks[WIN_*] and FILE_GENERIC_READ. */
  datatype WinRight = WinAll | WinOwnerSe | WinRead | WinWrite | WinExecute | FileGenericRead

  type Rights = set<WinRight>

  /** The five masks GetWindowsAccessMask writes through its out-parameters. */
  datatype AccessMasks = AccessMasks(
    userAllow: Rights, userDeny: Rights,
    groupAllow: Rights, groupDeny: Rights,
    otherAllow: Rights)

  /** The three permissions of a class; each has one Windows right. */
  datatype PermKind = ReadPerm | WritePerm | ExecutePerm

  /** The three classes of a Unix mode. */
  datatype Class = UserClass | GroupClass | OtherClass

  /** The position of the bit of `k` for class `c`: UX_U_READ is Bit(UserClass, ReadPerm). */
  function Bit(c: Class, k: PermKind): (b: nat)
    ensures b in WHO_ALL
    ensures b in (match c case UserClass => WHO_USER case GroupClass => WHO_GROUP case OtherClass => WHO_OTHER)
    ensures b in (match k case ReadPerm => READ_MASK case WritePerm => WRITE_MASK case ExecutePerm => EXE_MASK)
  {
    (match c case UserClass => 6 case GroupClass => 3 case OtherClass => 0)
    + (match k case ReadPerm => 2 case WritePerm => 1 case ExecutePerm => 0)
  }

  /** WinMasks[WIN_READ], WinMasks[WIN_WRITE] or WinMasks[WIN_EXECUTE]. */
  function WinRightOf(k: PermKind): WinRight {
    match k
    case ReadPerm => WinRead
    case WritePerm => WinWrite
    case ExecutePerm => WinExecute
  }

  /** The singleton `{t}` when the condition holds, the empty mask otherwise. */
  function When(cond: bool, t: WinRight): Rights {
    if cond then {t} else {}
  }

  /** The rights a class is given for the permission bits it has. */
  function Granted(m: Mode, c: Class): Rights {
    When(Bit(c, ReadPerm) in m, WinRead)
    + When(Bit(c, WritePerm) in m, WinWrite)
    + When(Bit(c, ExecutePerm) in m, WinExecute)
  }

  /** The rights of the permissions class `c` lacks while a class it is compared with (`has`) holds them. */
  function Withheld(m: Mode, c: Class, has: PermKind -> bool): Rights {
    When(Bit(c, ReadPerm) !in m && has(ReadPerm), WinRead)
    + When(Bit(c, WritePerm) !in m && has(WritePerm), WinWrite)
    + When(Bit(c, ExecutePerm) !in m && has(ExecutePerm), WinExecute)
  }

  /**
   * GetWindowsAccessMask. The owner is always allowed WIN_ALL and
   * WIN_OWNER_SE, the group and everyone WIN_ALL; the group's read right is
   * FILE_GENERIC_READ rather than WIN_READ. Deny masks hold only the three
   * data rights, and everyone has no deny mask at all.
   */
  function GetWindowsAccessMask(m: Mode): (r: AccessMasks)
    ensures {WinAll, WinOwnerSe} <= r.userAllow
    ensures WinAll in r.groupAllow && WinAll in r.otherAllow
    ensures r.userDeny <= {WinRead, WinWrite, WinExecute}
    ensures r.groupDeny <= {WinRead, WinWrite, WinExecute}
  {
    AccessMasks(
      userAllow := {WinAll, WinOwnerSe} + Granted(m, UserClass),
      userDeny := Withheld(m, UserClass, k => Bit(GroupClass, k) in m || Bit(OtherClass, k) in m),
      groupAllow := {WinAll}
        + When(Bit(GroupClass, ReadPerm) in m, FileGenericRead)
        + When(Bit(GroupClass, WritePerm) in m, WinWrite)
        + When(Bit(GroupClass, ExecutePerm) in m, WinExecute),
      groupDeny := Withheld(m, GroupClass, k => Bit(OtherClass, k) in m),
      otherAllow := {WinAll} + Granted(m, OtherClass))
  }

  /**
   * The owner is denied the right of a permission exactly when the owner
   * lacks it and the group or everyone has it.
   */
  lemma OwnerDenyRule(m: Mode, k: PermKind)
    ensures WinRightOf(k) in GetWindowsAccessMask(m).userDeny
        <==> Bit(UserClass, k) !in m && (Bit(GroupClass, k) in m || Bit(OtherClass, k) in m)
  {
  }

  /** The group is denied a right exactly when it lacks it and everyone has it. */
  lemma GroupDenyRule(m: Mode, k: PermKind)
    ensures WinRightOf(k) in GetWindowsAccessMask(m).groupDeny
        <==> Bit(GroupClass, k) !in m && Bit(OtherClass, k) in m
  {
  }

  /** The owner is allowed the right of each permission bit the owner has, and no other data right. */
  lemma OwnerAllowRule(m: Mode, k: PermKind)
    ensures WinRightOf(k) in GetWindowsAccessMask(m).userAllow <==> Bit(UserClass, k) in m
    ensures FileGenericRead !in GetWindowsAccessMask(m).userAllow
  {
  }

  /**
   * The group is allowed FILE_GENERIC_READ for its read bit and the write and
   * execute rights for its other bits, never WIN_READ.
   */
  lemma GroupAllowRule(m: Mode, k: PermKind)
    ensures k != ReadPerm ==> (WinRightOf(k) in GetWindowsAccessMask(m).groupAllow <==> Bit(GroupClass, k) in m)
    ensures FileGenericRead in GetWindowsAccessMask(m).groupAllow <==> Bit(GroupClass, ReadPerm) in m
    ensures WinRead !in GetWindowsAccessMask(m).groupAllow
  {
  }

  /** Everyone is allowed the right of each permission bit of the other class. */
  lemma OtherAllowRule(m: Mode, k: PermKind)
    ensures WinRightOf(k) in GetWindowsAccessMask(m).otherAllow <==> Bit(OtherClass, k) in m
    ensures GetWindowsAccessMask(m).otherAllow - {WinAll} <= {WinRead, WinWrite, WinExecute}
  {
  }

  /** Only the nine permission bits matter: the directory flag and any other bit are ignored. */
  lemma AccessMaskUsesPermissionBits(m: Mode)
    ensures GetWindowsAccessMask(m) == GetWindowsAccessMask(m * WHO_ALL)
  {
    forall c: Class, k: PermKind
      ensures (Bit(c, k) in m) == (Bit(c, k) in m * WHO_ALL)
    {
    }
  }

  /** The principals an ACE names: the file's owner SID, its group SID and the Everyone SID. */
  datatype Trustee = OwnerSid | GroupSid | EveryoneSid

  datatype AceType = AccessDenied | AccessAllowed

  /** One access control entry. */
  datatype Ace = Ace(kind: AceType, trustee: Trustee, mask: Rights)

  /** The allow mask GetWindowsAccessMask computes for each trustee. */
  function AllowMask(r: AccessMasks, t: Trustee): Rights {
    match t
    case OwnerSid => r.userAllow
    case GroupSid => r.groupAllow
    case EveryoneSid => r.otherAllow
  }

  /**
   * The entries GetWindowsDACLs adds for the masks `r`, in the order of its
   * AddAccess*Ace calls; a deny entry is added only when its mask is non-zero.
   */
  function AceList(r: AccessMasks): seq<Ace> {
    (if r.userDeny != {} then [Ace(AccessDenied, OwnerSid, r.userDeny)] else [])
    + [Ace(AccessAllowed, OwnerSid, r.userAllow)]
    + (if r.groupDeny != {} then [Ace(AccessDenied, GroupSid, r.groupDeny)] else [])
    + [Ace(AccessAllowed, GroupSid, r.groupAllow)]
    + [Ace(AccessAllowed, EveryoneSid, r.otherAllow)]
  }

  /** The DACL of a mode. */
  function DaclEntries(m: Mode): seq<Ace> {
    AceList(GetWindowsAccessMask(m))
  }

  /** Where an entry comes in the DACL: owner, then group, then Everyone; deny before allow. */
  function EntryRank(e: Ace): nat {
    2 * (match e.trustee case OwnerSid => 0 case GroupSid => 1 case EveryoneSid => 2)
    + (if e.kind == AccessDenied then 0 else 1)
  }

  /** The shape of the entry list for masks whose allow parts are non-empty. */
  lemma AceListShape(r: AccessMasks)
    requires r.userAllow != {} && r.groupAllow != {} && r.otherAllow != {}
    ensures var d := AceList(r);
      && 3 <= |d| <= 5
      && d[|d| - 1] == Ace(AccessAllowed, EveryoneSid, r.otherAllow)
      && (forall i :: 0 <= i < |d| - 1 ==> EntryRank(d[i]) < EntryRank(d[i + 1]))
      && (forall i :: 0 <= i < |d| ==> d[i].mask != {})
      && (forall i :: 0 <= i < |d| && d[i].trustee == EveryoneSid ==> d[i].kind == AccessAllowed)
      && (forall t: Trustee :: Ace(AccessAllowed, t, AllowMask(r, t)) in d)
      && (Ace(AccessDenied, OwnerSid, r.userDeny) in d <==> r.userDeny != {})
      && (Ace(AccessDenied, GroupSid, r.groupDeny) in d <==> r.groupDeny != {})
  {
    var d := AceList(r);
    var ownerAt := if r.userDeny != {} then 1 else 0;
    var groupAt := ownerAt + 1 + (if r.groupDeny != {} then 1 else 0);
    assert d[ownerAt] == Ace(AccessAllowed, OwnerSid, r.userAllow);
    assert d[groupAt] == Ace(AccessAllowed, GroupSid, r.groupAllow);
    assert d[groupAt + 1] == Ace(AccessAllowed, EveryoneSid, r.otherAllow);
  }

  /**
   * The DACL of a mode: three to five entries, Everyone's allow entry last,
   * entries ordered owner, group, Everyone with deny before allow, an allow
   * entry for each trustee with its mask, no empty mask, no deny entry for
   * Everyone, and a deny entry for the owner or the group exactly when its
   * mask is non-zero.
   */
  lemma DaclShape(m: Mode)
    ensures var r := GetWindowsAccessMask(m); var d := DaclEntries(m);
      && 3 <= |d| <= 5
      && d[|d| - 1] == Ace(AccessAllowed, EveryoneSid, r.otherAllow)
      && (forall i :: 0 <= i < |d| - 1 ==> EntryRank(d[i]) < EntryRank(d[i + 1]))
      && (forall i :: 0 <= i < |d| ==> d[i].mask != {})
      && (forall i :: 0 <= i < |d| && d[i].trustee == EveryoneSid ==> d[i].kind == AccessAllowed)
      && (forall t: Trustee :: Ace(AccessAllowed, t, AllowMask(r, t)) in d)
      && (Ace(AccessDenied, OwnerSid, r.userDeny) in d <==> r.userDeny != {})
      && (Ace(AccessDenied, GroupSid, r.groupDeny) in d <==> r.groupDeny != {})
  {
    AceListShape(GetWindowsAccessMask(m));
  }

  /** The permission a deny token stands for. */
  function PermOfToken(t: WinRight): (k: PermKind)
    requires t in {WinRead, WinWrite, WinExecute}
    ensures WinRightOf(k) == t
  {
    if t == WinRead then ReadPerm else if t == WinWrite then WritePerm else ExecutePerm
  }

  /**
   * GetWindowsDACLs adds a deny entry for the owner exactly when the owner
   * lacks some permission the group or everyone has.
   */
  lemma OwnerDenyPresence(m: Mode)
    ensures GetWindowsAccessMask(m).userDeny != {}
        <==> exists k :: Bit(UserClass, k) !in m && (Bit(GroupClass, k) in m || Bit(OtherClass, k) in m)
  {
    var r := GetWindowsAccessMask(m);
    if exists k :: Bit(UserClass, k) !in m && (Bit(GroupClass, k) in m || Bit(OtherClass, k) in m) {
      var k :| Bit(UserClass, k) !in m && (Bit(GroupClass, k) in m || Bit(OtherClass, k) in m);
      OwnerDenyRule(m, k);
    }
    if r.userDeny != {} {
      var t :| t in r.userDeny;
      OwnerDenyRule(m, PermOfToken(t));
    }
  }

  /** GetWindowsDACLs adds a deny entry for the group exactly when the group lacks some permission everyone has. */
  lemma GroupDenyPresence(m: Mode)
    ensures GetWindowsAccessMask(m).groupDeny != {}
        <==> exists k :: Bit(GroupClass, k) !in m && Bit(OtherClass, k) in m
  {
    var r := GetWindowsAccessMask(m);
    if exists k :: Bit(GroupClass, k) !in m && Bit(OtherClass, k) in m {
      var k :| Bit(GroupClass, k) !in m && Bit(OtherClass, k) in m;
      GroupDenyRule(m, k);
    }
    if r.groupDeny != {} {
      var t :| t in r.groupDeny;
      GroupDenyRule(m, PermOfToken(t));
    }
  }

  // Building the ACL

  /**
   * The sizes the ACL buffer is computed from: sizeof(ACL), the fixed part
   * of an allowed and of a denied ACE (the structure without its SidStart
   * DWORD) and the lengths of the three SIDs.
   */
  datatype AclSizes = AclSizes(
    aclHeader: nat, allowedAce: nat, deniedAce: nat,
    ownerSid: nat, groupSid: nat, everyoneSid: nat)

  /** The bytes one entry takes in the ACL. */
  function AceSize(sizes: AclSizes, e: Ace): nat {
    (if e.kind == AccessDenied then sizes.deniedAce else sizes.allowedAce)
    + (match e.trustee
       case OwnerSid => sizes.ownerSid
       case GroupSid => sizes.groupSid
       case EveryoneSid => sizes.everyoneSid)
  }

  /** The bytes a list of entries takes. */
  function AcesSize(sizes: AclSizes, d: seq<Ace>): nat
    decreases |d|
  {
    if d == [] then 0 else AceSize(sizes, d[0]) + AcesSize(sizes, d[1..])
  }

  /** The buffer size GetWindowsDACLs computes before allocating it. */
  function DaclSize(r: AccessMasks, sizes: AclSizes): nat {
    sizes.aclHeader
    + sizes.allowedAce + sizes.ownerSid
    + (if r.userDeny != {} then sizes.deniedAce + sizes.ownerSid else 0)
    + sizes.allowedAce + sizes.groupSid
    + (if r.groupDeny != {} then sizes.deniedAce + sizes.groupSid else 0)
    + sizes.allowedAce + sizes.everyoneSid
  }

  lemma {:induction false} AcesSizeSnoc(sizes: AclSizes, d: seq<Ace>, e: Ace)
    ensures AcesSize(sizes, d + [e]) == AcesSize(sizes, d) + AceSize(sizes, e)
    decreases |d|
  {
    if d == [] {
      assert [] + [e] == [e];
      assert [e][1..] == [];
    } else {
      assert (d + [e])[1..] == d[1..] + [e];
      AcesSizeSnoc(sizes, d[1..], e);
    }
  }

  /**
   * The entry the `n`-th AddAccess*Ace call of GetWindowsDACLs adds (1 to
   * 5), or none when that call is skipped because its deny mask is zero.
   */
  function StageEntry(r: AccessMasks, n: nat): seq<Ace>
    requires 1 <= n <= 5
  {
    match n
    case 1 => if r.userDeny != {} then [Ace(AccessDenied, OwnerSid, r.userDeny)] else []
    case 2 => [Ace(AccessAllowed, OwnerSid, r.userAllow)]
    case 3 => if r.groupDeny != {} then [Ace(AccessDenied, GroupSid, r.groupDeny)] else []
    case 4 => [Ace(AccessAllowed, GroupSid, r.groupAllow)]
    case _ => [Ace(AccessAllowed, EveryoneSid, r.otherAllow)]
  }

  /** The entries after the first `n` calls. */
  function Stage(r: AccessMasks, n: nat): seq<Ace>
    requires n <= 5
  {
    if n == 0 then [] else Stage(r, n - 1) + StageEntry(r, n)
  }

  /** The bytes the `n`-th call adds, as GetWindowsDACLs counts them. */
  function StageSize(r: AccessMasks, sizes: AclSizes, n: nat): nat
    requires 1 <= n <= 5
  {
    match n
    case 1 => if r.userDeny != {} then sizes.deniedAce + sizes.ownerSid else 0
    case 2 => sizes.allowedAce + sizes.ownerSid
    case 3 => if r.groupDeny != {} then sizes.deniedAce + sizes.groupSid else 0
    case 4 => sizes.allowedAce + sizes.groupSid
    case _ => sizes.allowedAce + sizes.everyoneSid
  }

  /** Each call adds the bytes the size computation counted for it. */
  lemma StageGrows(r: AccessMasks, sizes: AclSizes, n: nat)
    requires 1 <= n <= 5
    ensures AcesSize(sizes, Stage(r, n)) == AcesSize(sizes, Stage(r, n - 1)) + StageSize(r, sizes, n)
  {
    var e := StageEntry(r, n);
    if e == [] {
      assert Stage(r, n) == Stage(r, n - 1);
    } else {
      AcesSizeSnoc(sizes, Stage(r, n - 1), e[0]);
      assert Stage(r, n) == Stage(r, n - 1) + [e[0]];
    }
  }

  /**
   * Each call of GetWindowsDACLs finds room in a buffer of the precomputed
   * size for the entry it adds.
   */
  lemma StagesFit(r: AccessMasks, sizes: AclSizes)
    ensures AcesSize(sizes, Stage(r, 0)) + StageSize(r, sizes, 1) <= AcesSize(sizes, Stage(r, 5))
    ensures AcesSize(sizes, Stage(r, 1)) + StageSize(r, sizes, 2) <= AcesSize(sizes, Stage(r, 5))
    ensures AcesSize(sizes, Stage(r, 2)) + StageSize(r, sizes, 3) <= AcesSize(sizes, Stage(r, 5))
    ensures AcesSize(sizes, Stage(r, 3)) + StageSize(r, sizes, 4) <= AcesSize(sizes, Stage(r, 5))
    ensures AcesSize(sizes, Stage(r, 4)) + StageSize(r, sizes, 5) <= AcesSize(sizes, Stage(r, 5))
  {
    StageGrows(r, sizes, 1);
    StageGrows(r, sizes, 2);
    StageGrows(r, sizes, 3);
    StageGrows(r, sizes, 4);
    StageGrows(r, sizes, 5);
  }

  /** The precomputed size is exactly the header plus the entries that are added. */
  lemma DaclSizeExact(r: AccessMasks, sizes: AclSizes)
    ensures DaclSize(r, sizes) == sizes.aclHeader + AcesSize(sizes, AceList(r))
    ensures AceList(r) == Stage(r, 5)
  {
    StageGrows(r, sizes, 1);
    StageGrows(r, sizes, 2);
    StageGrows(r, sizes, 3);
    StageGrows(r, sizes, 4);
    StageGrows(r, sizes, 5);
    assert Stage(r, 1) == StageEntry(r, 1);
  }

  /**
   * The ACL buffer: a fixed capacity, whether InitializeAcl has been run on
   * it, and the entries added so far.
   */
  class AclBuffer {
    const capacity: nat
    const sizes: AclSizes
    var initialized: bool
    var aces: seq<Ace>

    /** The bytes in use: the header and the entries. */
    function Used(): nat
      reads this
    {
      sizes.aclHeader + AcesSize(sizes, aces)
    }

    /** LocalAlloc of `capacity` bytes. */
    constructor (capacity: nat, sizes: AclSizes)
      ensures this.capacity == capacity && this.sizes == sizes
      ensures !initialized && aces == []
    {
      this.capacity := capacity;
      this.sizes := sizes;
      initialized := false;
      aces := [];
    }

    /** InitializeAcl: fails when the buffer cannot even hold the ACL header. */
    method Initialize() returns (ok: bool)
      modifies this
      ensures ok == (sizes.aclHeader <= capacity)
      ensures initialized == ok && aces == []
    {
      ok := sizes.aclHeader <= capacity;
      initialized := ok;
      aces := [];
    }

    /**
     * AddAccessAllowedAce / AddAccessDeniedAce: appends the entry when the
     * ACL is initialized and the entry fits in the space left.
     */
    method Add(e: Ace) returns (ok: bool)
      modifies this
      ensures ok == (initialized && sizes.aclHeader + AcesSize(sizes, old(aces)) + AceSize(sizes, e) <= capacity)
      ensures initialized == old(initialized)
      ensures aces == if ok then old(aces) + [e] else old(aces)
    {
      ok := initialized && Used() + AceSize(sizes, e) <= capacity;
      if ok {
        AcesSizeSnoc(sizes, aces, e);
        aces := aces + [e];
      }
    }
  }

  /**
   * The AddAccess*Ace calls of GetWindowsDACLs for the owner: the deny entry
   * when its mask is non-zero, then the allow entry. A call that fails
   * skips the rest.
   */
  method AddOwnerAces(acl: AclBuffer, masks: AccessMasks) returns (ok: bool)
    requires acl.initialized && acl.aces == Stage(masks, 0)
    requires acl.capacity == acl.sizes.aclHeader + AcesSize(acl.sizes, Stage(masks, 5))
    modifies acl
    ensures ok && acl.initialized && acl.aces == Stage(masks, 2)
  {
    StagesFit(masks, acl.sizes);
    StageGrows(masks, acl.sizes, 1);
    ok := true;
    if masks.userDeny != {} {
      ok := acl.Add(Ace(AccessDenied, OwnerSid, masks.userDeny));
    }
    assert ok && acl.aces == Stage(masks, 1);
    if ok {
      ok := acl.Add(Ace(AccessAllowed, OwnerSid, masks.userAllow));
    }
  }

  /**
   * The remaining AddAccess*Ace calls: the group's deny entry when its mask
   * is non-zero, the group's allow entry and Everyone's allow entry.
   */
  method AddGroupAndEveryoneAces(acl: AclBuffer, masks: AccessMasks) returns (ok: bool)
    requires acl.initialized && acl.aces == Stage(masks, 2)
    requires acl.capacity == acl.sizes.aclHeader + AcesSize(acl.sizes, Stage(masks, 5))
    modifies acl
    ensures ok && acl.aces == Stage(masks, 5)
  {
    StagesFit(masks, acl.sizes);
    StageGrows(masks, acl.sizes, 3);
    StageGrows(masks, acl.sizes, 4);
    ok := true;
    if masks.groupDeny != {} {
      ok := acl.Add(Ace(AccessDenied, GroupSid, masks.groupDeny));
    }
    assert ok && acl.aces == Stage(masks, 3);
    if ok {
      ok := acl.Add(Ace(AccessAllowed, GroupSid, masks.groupAllow));
    }
    assert ok && acl.aces == Stage(masks, 4);
    if ok {
      ok := acl.Add(Ace(AccessAllowed, EveryoneSid, masks.otherAllow));
    }
  }

  /**
   * GetWindowsDACLs. Allocating the Everyone SID and the buffer are calls
   * into Windows that may fail; their outcomes are the two flags. With both
   * allocations done, the entries fit the buffer exactly and the DACL of the
   * mode is returned; otherwise no list is returned.
   */
  method GetWindowsDACLs(m: Mode, sizes: AclSizes, everyoneSidAllocated: bool, bufferAllocated: bool)
    returns (r: Option<seq<Ace>>)
    ensures r == if everyoneSidAllocated && bufferAllocated then Some(DaclEntries(m)) else None
  {
    var masks := GetWindowsAccessMask(m);
    if !everyoneSidAllocated {
      return None;
    }
    var size := DaclSize(masks, sizes);
    if !bufferAllocated {
      return None;
    }
    DaclSizeExact(masks, sizes);
    var acl := new AclBuffer(size, sizes);
    var ok := acl.Initialize();
    if ok {
      ok := AddOwnerAces(acl, masks);
    }
    if ok {
      ok := AddGroupAndEveryoneAces(acl, masks);
    }
    if ok {
      r := Some(acl.aces);
    } else {
      r := None;
    }
  }

  // Access checking

  /**
   * The user asking for access: the owner of the file or not, in the
   * file's group or not. Everybody is in Everyone.
   */
  datatype Principal = Principal(isOwner: bool, inGroup: bool)

  /** Whether an ACE for trustee `t` applies to principal `p`. */
  predicate Applies(t: Trustee, p: Principal) {
    match t
    case OwnerSid => p.isOwner
    case GroupSid => p.inGroup
    case EveryoneSid => true
  }

  /**
   * The kinds of access a principal can ask for: the three data accesses,
   * reading the attributes and the security descriptor, and changing the
   * owner or the DACL.
   */
  datatype Access = Data(k: PermKind) | ReadAttributes | ChangePermissions

  /**
   * Which tokens grant or deny which access. WIN_READ and FILE_GENERIC_READ
   * both include FILE_READ_DATA; WIN_WRITE includes FILE_WRITE_DATA;
   * WIN_EXECUTE includes FILE_EXECUTE; WIN_ALL and FILE_GENERIC_READ include
   * the attribute and READ_CONTROL rights; WIN_OWNER_SE includes WRITE_DAC
   * and WRITE_OWNER. This is the assumption about WinMasks[] the access
   * theorems rest on.
   */
  predicate Covers(t: WinRight, a: Access) {
    match a
    case Data(k) => t == WinRightOf(k) || (k == ReadPerm && t == FileGenericRead)
    case ReadAttributes => t == WinAll || t == FileGenericRead
    case ChangePermissions => t == WinOwnerSe
  }

  predicate CoversAny(mask: Rights, a: Access) {
    exists t :: t in mask && Covers(t, a)
  }

  /**
   * Windows access checking for one access: the first ACE in order that
   * applies to the principal and mentions the access decides it; with no
   * such entry the access is denied.
   */
  function AccessGranted(d: seq<Ace>, p: Principal, a: Access): bool
    decreases |d|
  {
    if d == [] then false
    else if Applies(d[0].trustee, p) && CoversAny(d[0].mask, a) then d[0].kind == AccessAllowed
    else AccessGranted(d[1..], p, a)
  }

  /** The Unix class a principal's access is taken from: owner, else group, else other. */
  function ClassOf(p: Principal): Class {
    if p.isOwner then UserClass else if p.inGroup then GroupClass else OtherClass
  }

  /** The decision one entry makes for a principal and an access, falling back on `rest`. */
  function Decide(e: Ace, p: Principal, a: Access, rest: bool): bool {
    if Applies(e.trustee, p) && CoversAny(e.mask, a) then e.kind == AccessAllowed else rest
  }

  lemma AccessGrantedCons(e: Ace, d: seq<Ace>, p: Principal, a: Access)
    ensures AccessGranted([e] + d, p, a) == Decide(e, p, a, AccessGranted(d, p, a))
  {
    assert ([e] + d)[0] == e;
    assert ([e] + d)[1..] == d;
  }

  /** The access check over the DACL, entry by entry. */
  lemma DaclDecision(r: AccessMasks, p: Principal, a: Access)
    ensures AccessGranted(AceList(r), p, a)
      == (if r.userDeny != {} && Applies(OwnerSid, p) && CoversAny(r.userDeny, a) then false
          else if Applies(OwnerSid, p) && CoversAny(r.userAllow, a) then true
          else if r.groupDeny != {} && Applies(GroupSid, p) && CoversAny(r.groupDeny, a) then false
          else if Applies(GroupSid, p) && CoversAny(r.groupAllow, a) then true
          else CoversAny(r.otherAllow, a))
  {
    var everyone := [Ace(AccessAllowed, EveryoneSid, r.otherAllow)];
    var group := [Ace(AccessAllowed, GroupSid, r.groupAllow)] + everyone;
    var groupAll := (if r.groupDeny != {} then [Ace(AccessDenied, GroupSid, r.groupDeny)] else []) + group;
    var owner := [Ace(AccessAllowed, OwnerSid, r.userAllow)] + groupAll;
    var all := (if r.userDeny != {} then [Ace(AccessDenied, OwnerSid, r.userDeny)] else []) + owner;
    assert AceList(r) == all;
    AccessGrantedCons(everyone[0], [], p, a);
    AccessGrantedCons(group[0], everyone, p, a);
    if r.groupDeny != {} {
      assert groupAll == [groupAll[0]] + group;
      AccessGrantedCons(groupAll[0], group, p, a);
    } else {
      assert groupAll == group;
    }
    AccessGrantedCons(owner[0], groupAll, p, a);
    if r.userDeny != {} {
      assert all == [all[0]] + owner;
      AccessGrantedCons(all[0], owner, p, a);
    } else {
      assert all == owner;
    }
  }

  /** A mask mentions a data access exactly when it holds that access's token (or FILE_GENERIC_READ for reading). */
  lemma CoversData(mask: Rights, k: PermKind)
    ensures CoversAny(mask, Data(k))
        <==> WinRightOf(k) in mask || (k == ReadPerm && FileGenericRead in mask)
  {
    if WinRightOf(k) in mask {
      assert Covers(WinRightOf(k), Data(k));
    } else if k == ReadPerm && FileGenericRead in mask {
      assert Covers(FileGenericRead, Data(k));
    }
  }

  /** The data accesses follow the Unix bits of the principal's own class. */
  lemma EffectiveDataAccess(m: Mode, p: Principal, k: PermKind)
    ensures AccessGranted(DaclEntries(m), p, Data(k)) == (Bit(ClassOf(p), k) in m)
  {
    var r := GetWindowsAccessMask(m);
    DaclDecision(r, p, Data(k));
    OwnerDenyRule(m, k);
    GroupDenyRule(m, k);
    OwnerAllowRule(m, k);
    GroupAllowRule(m, k);
    OtherAllowRule(m, k);
    CoversData(r.userDeny, k);
    CoversData(r.userAllow, k);
    CoversData(r.groupDeny, k);
    CoversData(r.groupAllow, k);
    CoversData(r.otherAllow, k);
  }

  /** Everybody may read the attributes, whatever the mode. */
  lemma EffectiveAttributeAccess(m: Mode, p: Principal)
    ensures AccessGranted(DaclEntries(m), p, ReadAttributes)
  {
    var r := GetWindowsAccessMask(m);
    DaclDecision(r, p, ReadAttributes);
    assert Covers(WinAll, ReadAttributes);
    assert !CoversAny(r.userDeny, ReadAttributes);
    assert !CoversAny(r.groupDeny, ReadAttributes);
  }

  /** Only the owner may change the owner or the DACL. */
  lemma EffectivePermissionChange(m: Mode, p: Principal)
    ensures AccessGranted(DaclEntries(m), p, ChangePermissions) == p.isOwner
  {
    var r := GetWindowsAccessMask(m);
    DaclDecision(r, p, ChangePermissions);
    assert Covers(WinOwnerSe, ChangePermissions);
    assert !CoversAny(r.userDeny, ChangePermissions);
    assert !CoversAny(r.groupDeny, ChangePermissions);
    assert !CoversAny(r.groupAllow, ChangePermissions);
    assert !CoversAny(r.otherAllow, ChangePermissions);
  }
}
