/**
 * Facts about single 64-bit words under the shifts and masks `TokenVec` uses.
 *
 * Token fields are addressed here by a machine index `a: bv8`: the field of
 * token `a` is the two bits from `Offset(a) == 2 * a + 6` up. Shift amounts are
 * bytes and always go through `Offset` (or `Offset(a) - LEN_BITS`, or `Double`),
 * so that an expression the model writes and the same expression in a lemma
 * are recognisably the same. Each lemma is about one shape of expression.
 */
module WordBits {

  /** The width of the length field, in bits. */
  const LEN_BITS: bv8 := 6
  /** The length field. */
  const LEN_MASK: bv64 := 0x3f
  /** The number of token fields above the length field. */
  const CAPACITY: nat := 29

  /** The bit offset of the field of token `a`. */
  function Offset(a: bv8): bv8
    requires a <= 29
  {
    a * 2 + LEN_BITS
  }

  /** The bit offset of packed token `a`, counted without a length field. */
  function Double(a: bv8): bv8
    requires a <= 29
  {
    a * 2
  }

  /** The 2-bit field of the token at machine index `a`. */
  function Slot(w: bv64, a: bv8): bv64
    requires a < 29
  {
    (w >> Offset(a)) & 3
  }

  /** Packed token `a` of a word that holds tokens from bit 0 up. */
  function Packed(q: bv64, a: bv8): bv64
    requires a < 29
  {
    (q >> Double(a)) & 3
  }

  /** The bits of the length field and of the fields of the first `a` tokens. */
  function Mask(a: bv8): bv64
    requires a < 29
  {
    (1 << Offset(a)) - 1
  }

  // ---------------------------------------------------------------------------
  // Comparing two words through their difference

  /** Words equal under a mask differ nowhere under it. */
  lemma MaskedXorZero(w1: bv64, w2: bv64, d: bv64, m: bv64)
    requires d == w1 ^ w2 && w1 & m == w2 & m
    ensures d & m == 0
  {
  }

  /** Words that differ nowhere under a mask are equal under it. */
  lemma XorZeroMasked(w1: bv64, w2: bv64, d: bv64, m: bv64)
    requires d == w1 ^ w2 && d & m == 0
    ensures w1 & m == w2 & m
  {
  }

  /** Words that differ nowhere in field `a` agree on it. */
  lemma SlotXorZero(w1: bv64, w2: bv64, d: bv64, a: bv8)
    requires a < 29 && d == w1 ^ w2 && Slot(d, a) == 0
    ensures Slot(w1, a) == Slot(w2, a)
  {
  }

  /** Words that agree on field `a` differ nowhere in it. */
  lemma SlotAgreeXor(w1: bv64, w2: bv64, d: bv64, a: bv8)
    requires a < 29 && d == w1 ^ w2 && Slot(w1, a) == Slot(w2, a)
    ensures Slot(d, a) == 0
  {
  }

  /** Words equal under the mask of the first `a` fields agree on each of them. */
  lemma MaskedSlot(w1: bv64, w2: bv64, d: bv64, a: bv8, m: bv64, b: bv8)
    requires b < a < 29 && d == w1 ^ w2 && m == Mask(a) && w1 & m == w2 & m
    ensures Slot(w1, b) == Slot(w2, b)
  {
    MaskedXorZero(w1, w2, d, m);
    MaskCoversSlot(d, a, m, b);
    SlotXorZero(w1, w2, d, b);
  }

  /** Words that agree on the length field agree under the mask of no fields. */
  lemma MaskNone(w1: bv64, w2: bv64, d: bv64, m: bv64)
    requires d == w1 ^ w2 && m == Mask(0) && w1 & LEN_MASK == w2 & LEN_MASK
    ensures d & m == 0
  {
  }

  lemma MaskKeepsLength(w: bv64, a: bv8, m: bv64)
    requires a < 29 && m == Mask(a)
    ensures (w & m) & LEN_MASK == w & LEN_MASK
  {
  }

  lemma MaskCoversSlot(d: bv64, a: bv8, m: bv64, b: bv8)
    requires b < a < 29 && m == Mask(a) && d & m == 0
    ensures Slot(d, b) == 0
  {
  }

  lemma MaskGrows(a: bv8)
    requires a < 28
    ensures Mask(a + 1) == Mask(a) | (3 << Offset(a))
  {
  }

  lemma SlotZero(d: bv64, a: bv8)
    requires a < 29 && Slot(d, a) == 0
    ensures d & (3 << Offset(a)) == 0
  {
  }

  /** Clearing one more field under a mask of fields. */
  lemma MaskStep(d: bv64, a: bv8, a1: bv8, m: bv64, m1: bv64)
    requires a < 28 && a1 == a + 1 && m == Mask(a) && m1 == Mask(a1)
    requires d & m == 0 && Slot(d, a) == 0
    ensures d & m1 == 0
  {
    MaskGrows(a);
    SlotZero(d, a);
  }

  // ---------------------------------------------------------------------------
  // The expressions `TokenVec` writes
  //
  // A shift amount inside an expression is always a variable here (`s`, tied
  // to its offset by a precondition), as it is in the operations themselves.

  /** `set`: clear one field and write a code into it. */
  lemma SetSlotSame(w: bv64, a: bv8, s: bv8, c: bv64)
    requires a < 29 && s == Offset(a) && c < 4
    ensures Slot((w & !(3 << s)) | (c << s), a) == c
  {
  }

  lemma SetSlotOther(w: bv64, a: bv8, s: bv8, c: bv64, b: bv8)
    requires a < 29 && s == Offset(a) && b < 29 && a != b && c < 4
    ensures Slot((w & !(3 << s)) | (c << s), b) == Slot(w, b)
  {
  }

  lemma SetSlotLength(w: bv64, a: bv8, s: bv8, c: bv64)
    requires a < 29 && s == Offset(a) && c < 4
    ensures ((w & !(3 << s)) | (c << s)) & LEN_MASK == w & LEN_MASK
  {
  }

  /** `set_len`: replace the length field. */
  lemma SlotSetLength(w: bv64, x: bv64, b: bv8)
    requires x <= LEN_MASK && b < 29
    ensures Slot((w & !LEN_MASK) | x, b) == Slot(w, b)
    ensures ((w & !LEN_MASK) | x) & LEN_MASK == x
  {
  }

  /** Clearing the length field leaves every token field as it was. */
  lemma SlotClearLength(w: bv64, b: bv8)
    requires b < 29
    ensures Slot(w & !LEN_MASK, b) == Slot(w, b)
    ensures (w & !LEN_MASK) & LEN_MASK == 0
  {
  }

  /** `push_front`: move every field up by one and write a code into the first. */
  lemma SlotPushFront(w: bv64, c: bv64, b: bv8)
    requires c < 4 && b < 29 && w & LEN_MASK < 29
    ensures Slot((((w & !LEN_MASK) << 2) | (c << LEN_BITS)) | ((w & LEN_MASK) + 1), b)
            == if b == 0 then c else Slot(w, b - 1)
    ensures ((((w & !LEN_MASK) << 2) | (c << LEN_BITS)) | ((w & LEN_MASK) + 1)) & LEN_MASK
            == (w & LEN_MASK) + 1
  {
  }

  /** `pop_front`: move every field down by one; the last field becomes 0. */
  lemma SlotShiftDown(w: bv64, b: bv8, b1: bv8)
    requires b < 28 && b1 == b + 1
    ensures Slot(w >> 2, b) == Slot(w, b1)
  {
  }

  lemma SlotShiftDownLast(w: bv64, b: bv8)
    requires b == 28
    ensures Slot(w >> 2, b) == 0
  {
  }

  /** `extend`, corrected: keep the fields below token `a`, clear the rest and
      the length field. */
  lemma KeepBelowKept(w: bv64, a: bv8, s: bv8, b: bv8)
    requires b < a < 29 && s == Offset(a)
    ensures Slot((w & ((1 << s) - 1)) & !LEN_MASK, b) == Slot(w, b)
  {
  }

  lemma KeepBelowCleared(w: bv64, a: bv8, s: bv8, b: bv8)
    requires a <= b < 29 && s == Offset(a)
    ensures Slot((w & ((1 << s) - 1)) & !LEN_MASK, b) == 0
  {
  }

  lemma KeepBelowLength(w: bv64, a: bv8, s: bv8)
    requires a < 29 && s == Offset(a)
    ensures ((w & ((1 << s) - 1)) & !LEN_MASK) & LEN_MASK == 0
  {
  }

  /** Fields moved up by `k` positions, from a word whose length field is
      clear: the first `k` fields become 0 and field `k + d` holds what
      field `d` held. */
  lemma ShiftUpBelow(p: bv64, k: bv8, s: bv8, b: bv8)
    requires p & LEN_MASK == 0 && b < k <= 29 && s == Offset(k)
    ensures Slot(p << (s - LEN_BITS), b) == 0
  {
  }

  lemma ShiftUpAbove(p: bv64, k: bv8, s: bv8, d: bv8, b: bv8)
    requires k < 29 && d < 29 && b == k + d && b < 29 && s == Offset(k)
    ensures Slot(p << (s - LEN_BITS), b) == Slot(p, d)
  {
    UpOffsets(k, s, d, b);
  }

  /** The offsets of fields `k + d` and `d` are `2 * k` apart. */
  lemma UpOffsets(k: bv8, s: bv8, d: bv8, b: bv8)
    requires k < 29 && d < 29 && b == k + d && b < 29 && s == Offset(k)
    ensures s - LEN_BITS <= Offset(b) <= 62 && Offset(d) == Offset(b) - (s - LEN_BITS)
  {
  }

  lemma ShiftUpLength(p: bv64, k: bv8, s: bv8)
    requires p & LEN_MASK == 0 && k <= 29 && s == Offset(k)
    ensures (p << (s - LEN_BITS)) & LEN_MASK == 0
  {
  }

  /** Fields moved up by a whole `Offset(k)`, as `extend_front` does: field
      `d` lands three fields further than `k + d`, and the first `k + 3`
      fields are 0. */
  lemma OverShiftAbove(p: bv64, k: bv8, s: bv8, d: bv8, b: bv8)
    requires k < 29 && d < 29 && b == k + d + 3 && b < 29 && s == Offset(k)
    ensures Slot(p << s, b) == Slot(p, d)
  {
    OverOffsets(k, s, d, b);
  }

  /** The offsets of fields `k + d + 3` and `d` are `Offset(k)` apart. */
  lemma OverOffsets(k: bv8, s: bv8, d: bv8, b: bv8)
    requires k < 29 && d < 29 && b == k + d + 3 && b < 29 && s == Offset(k)
    ensures s <= Offset(b) <= 62 && Offset(d) == Offset(b) - s
  {
  }

  lemma OverShiftBelow(p: bv64, k: bv8, s: bv8, b: bv8)
    requires p & LEN_MASK == 0 && k < 29 && b < k + 3 && b < 29 && s == Offset(k)
    ensures Slot(p << s, b) == 0
  {
  }

  /** Packed tokens placed at field `k`: nothing below `k`, packed token `d`
      at field `k + d`. */
  lemma PlaceBelow(q: bv64, k: bv8, s: bv8, b: bv8)
    requires b < k < 29 && s == Offset(k)
    ensures Slot(q << s, b) == 0
  {
  }

  lemma PlaceAbove(q: bv64, k: bv8, s: bv8, d: bv8, b: bv8)
    requires k < 29 && d < 29 && b == k + d && b < 29 && s == Offset(k)
    ensures Slot(q << s, b) == Packed(q, d)
  {
    PlaceOffsets(k, s, d, b);
  }

  /** The offset of field `k + d` is `Offset(k)` past bit `2 * d`. */
  lemma PlaceOffsets(k: bv8, s: bv8, d: bv8, b: bv8)
    requires k < 29 && d < 29 && b == k + d && b < 29 && s == Offset(k)
    ensures s <= Offset(b) <= 62 && Double(d) == Offset(b) - s
  {
  }

  lemma PlaceLength(q: bv64, k: bv8, s: bv8)
    requires k < 29 && s == Offset(k)
    ensures (q << s) & LEN_MASK == 0
  {
  }

  /** Packed tokens placed past the length field: packed token `d` at field `d`. */
  lemma PlaceFirst(q: bv64, d: bv8)
    requires d < 29
    ensures Slot(q << LEN_BITS, d) == Packed(q, d)
    ensures (q << LEN_BITS) & LEN_MASK == 0
  {
  }

  /** One code packed as token `a`. */
  lemma PackedOfCode(c: bv64, a: bv8, e: bv8, b: bv8)
    requires c < 4 && a < 29 && b < 29 && e == Double(a)
    ensures Packed(c << e, b) == if a == b then c else 0
  {
  }

  /** OR-ing in a word that is 0 at packed token `b` leaves that token. */
  lemma PackedOrLeft(x: bv64, y: bv64, b: bv8)
    requires b < 29 && Packed(y, b) == 0
    ensures Packed(x | y, b) == Packed(x, b)
  {
  }

  lemma PackedOrRight(x: bv64, y: bv64, b: bv8)
    requires b < 29 && Packed(x, b) == 0
    ensures Packed(x | y, b) == Packed(y, b)
  {
  }

  lemma PackedZero(b: bv8)
    requires b < 29
    ensures Packed(0, b) == 0
  {
  }

  /** OR-ing in a word that is 0 in field `b` leaves that field. */
  lemma SlotOrLeft(x: bv64, y: bv64, b: bv8)
    requires b < 29 && Slot(y, b) == 0
    ensures Slot(x | y, b) == Slot(x, b)
  {
  }

  lemma SlotOrRight(x: bv64, y: bv64, b: bv8)
    requires b < 29 && Slot(x, b) == 0
    ensures Slot(x | y, b) == Slot(y, b)
  {
  }

  /** OR-ing in a word whose length field is clear leaves the length field. */
  lemma LengthOrLeft(x: bv64, y: bv64)
    requires y & LEN_MASK == 0
    ensures (x | y) & LEN_MASK == x & LEN_MASK
  {
  }

  /** A value that fits the length field, written into a clear length field. */
  lemma LengthOfOr(d: bv64, x: bv64)
    requires d & LEN_MASK == 0 && x <= LEN_MASK
    ensures (d | x) & LEN_MASK == x
    ensures x & LEN_MASK == x
  {
  }

  /** A value that fits the length field has no token fields. */
  lemma SlotOfLength(x: bv64, b: bv8)
    requires x <= LEN_MASK && b < 29
    ensures Slot(x, b) == 0
  {
  }
}
