/**
 * Shared vocabulary of the chmod translation pipeline: the 16-bit Unix mode,
 * the CHMOD_WHO / CHMOD_OP / CHMOD_PERM enumerations and one mode change
 * action.
 *
 * A mode (the USHORT of the C code) is modelled as the set of positions of
 * its one bits: position 0 is other-execute, position 8 user-read and
 * position 14 the directory flag. The bitwise operators of the source become
 * set operators: `a | b` is `a + b`, `a & b` is `a * b` and `a & ~b` is
 * `a - b`. No operation of the pipeline sets a bit at position 16 or above,
 * so the 16-bit width never truncates anything.
 */
module ChmodTypes {

  datatype Option<T> = None | Some(value: T)

  /** A Unix mode, as the set of positions of its one bits. */
  type Mode = set<nat>

  /** The width of the USHORT that holds a mode. */
  const MODE_BITS: nat := 16

  // Positions of the nine permission bits, UX_U_READ (0400) down to UX_O_EXECUTE (01).
  const UX_U_READ: nat := 8
  const UX_U_WRITE: nat := 7
  const UX_U_EXECUTE: nat := 6
  const UX_G_READ: nat := 5
  const UX_G_WRITE: nat := 4
  const UX_G_EXECUTE: nat := 3
  const UX_O_READ: nat := 2
  const UX_O_WRITE: nat := 1
  const UX_O_EXECUTE: nat := 0

  /** Position of the directory flag (S_IFDIR, octal 040000): a bit outside 0777. */
  const UX_DIRECTORY: nat := 14

  // CHMOD_WHO: the permission triple of each class.
  const WHO_NONE: Mode := {}                                        // 0
  const WHO_OTHER: Mode := {UX_O_READ, UX_O_WRITE, UX_O_EXECUTE}    // 07
  const WHO_GROUP: Mode := {UX_G_READ, UX_G_WRITE, UX_G_EXECUTE}    // 070
  const WHO_USER: Mode := {UX_U_READ, UX_U_WRITE, UX_U_EXECUTE}     // 0700
  const WHO_ALL: Mode := WHO_USER + WHO_GROUP + WHO_OTHER           // 0777

  // The permission triples replicated over the three classes.
  const READ_MASK: Mode := {UX_U_READ, UX_G_READ, UX_O_READ}              // 0444
  const WRITE_MASK: Mode := {UX_U_WRITE, UX_G_WRITE, UX_O_WRITE}          // 0222
  const EXE_MASK: Mode := {UX_U_EXECUTE, UX_G_EXECUTE, UX_O_EXECUTE}      // 0111

  /**
   * CHMOD_PERM: the flags r, w, x and X. The `perm` field of an action, a
   * bit set of these flags, is a set of them; CHMOD_PERM_NA is the empty set.
   */
  datatype Perm = PermR | PermW | PermX | PermLX

  /** CHMOD_OP; OpInvalid is the value of an action no operator was read for. */
  datatype Op = OpInvalid | OpPlus | OpMinus | OpEqual

  /**
   * One node of the MODE_CHANGE_ACTION list: the classes it changes, its
   * operator, its permission letters and the class it copies from (a
   * CHMOD_WHO value, WHO_NONE when there is no reference).
   */
  datatype Action = Action(who: Mode, op: Op, perm: set<Perm>, ref: Mode)

  /** INIT_MODE_CHANGE_ACTION. */
  const INIT_ACTION: Action := Action(WHO_NONE, OpInvalid, {}, WHO_NONE)

  /** A single class triple, as a reference letter produces. */
  predicate IsClass(c: Mode) {
    c == WHO_USER || c == WHO_GROUP || c == WHO_OTHER
  }

  /** A union of whole class triples, as a run of who letters produces. */
  predicate IsWho(who: Mode) {
    who == (if UX_U_READ in who then WHO_USER else {})
         + (if UX_G_READ in who then WHO_GROUP else {})
         + (if UX_O_READ in who then WHO_OTHER else {})
  }

  /**
   * What every action a successful parse produces satisfies: a non-empty
   * `who` made of whole class triples, a real operator and a reference that
   * is a single class or none.
   */
  predicate WellFormed(a: Action) {
    && a.who != WHO_NONE
    && IsWho(a.who)
    && a.op != OpInvalid
    && (a.ref == WHO_NONE || IsClass(a.ref))
  }

  /**
   * The mode whose bits, from position `k` up, are the binary digits of
   * `v`: the bit set of the number `v * 2^k`.
   */
  function BitsFrom(v: nat, k: nat): Mode
    decreases v
  {
    if v == 0 then {}
    else (if v % 2 == 1 then {k} else {}) + BitsFrom(v / 2, k + 1)
  }

  /** The mode held by a USHORT whose numeric value is `v`. */
  function ModeOf(v: nat): Mode
  {
    BitsFrom(v, 0)
  }

  /** `2^n`. */
  function Pow2(n: nat): (p: nat)
    ensures p >= 1
  {
    if n == 0 then 1 else 2 * Pow2(n - 1)
  }

  /** The bits of a number below `2^n` lie at positions `k` to `k + n - 1`. */
  lemma {:induction false} BitsFromBounded(v: nat, k: nat, n: nat)
    requires v < Pow2(n)
    ensures forall b :: b in BitsFrom(v, k) ==> k <= b < k + n
  {
    if v != 0 {
      assert n > 0;
      BitsFromBounded(v / 2, k + 1, n - 1);
    }
  }

  /** Distinct numbers have distinct bit sets. */
  lemma {:induction false} BitsFromInjective(v: nat, w: nat, k: nat)
    requires BitsFrom(v, k) == BitsFrom(w, k)
    ensures v == w
    decreases v + w
  {
    BitsFromAbove(v / 2, k + 1);
    BitsFromAbove(w / 2, k + 1);
    if v != 0 && w != 0 {
      assert (k in BitsFrom(v, k)) == (v % 2 == 1);
      assert (k in BitsFrom(w, k)) == (w % 2 == 1);
      assert BitsFrom(v / 2, k + 1) == BitsFrom(v, k) - {k};
      assert BitsFrom(w / 2, k + 1) == BitsFrom(w, k) - {k};
      BitsFromInjective(v / 2, w / 2, k + 1);
    } else if v != 0 {
      BitsFromNonEmpty(v, k);
    } else if w != 0 {
      BitsFromNonEmpty(w, k);
    }
  }

  /** Every bit of `BitsFrom(v, k)` is at position `k` or above. */
  lemma {:induction false} BitsFromAbove(v: nat, k: nat)
    ensures forall b :: b in BitsFrom(v, k) ==> k <= b
    decreases v
  {
    if v != 0 {
      BitsFromAbove(v / 2, k + 1);
    }
  }

  /** A non-zero number has some bit set. */
  lemma {:induction false} BitsFromNonEmpty(v: nat, k: nat)
    requires v != 0
    ensures BitsFrom(v, k) != {}
    decreases v
  {
    if v % 2 == 0 {
      BitsFromNonEmpty(v / 2, k + 1);
    }
  }

  /** A mode is held in a USHORT when it has no bit at position 16 or above. */
  predicate FitsUShort(m: Mode) {
    forall b :: b in m ==> b < MODE_BITS
  }
}
