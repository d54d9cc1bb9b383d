/**
 * The 64-bit word a `TokenVec` is made of, what it means, and the operations
 * that only read it.
 *
 * Bits 0..5 hold the length; token `i` sits in the 2-bit field that starts at
 * bit `2 * i + 6`, so 29 tokens fill the word exactly. Fields at or beyond the
 * length are don't-care: they keep whatever earlier operations left there.
 */
module TokenWords {
  import opened Tokens
  import opened WordBits

  // ---------------------------------------------------------------------------
  // Counts as machine words
  //
  // A count is at most 63 here (the length field has six bits), so a count
  // becomes a byte: bit offsets are bytes too, and reasoning about bytes as
  // integers is cheap for the verifier where 64-bit words as integers are not.

  /** A count below 64 as a byte, built up by successor. */
  function SmallCount(i: nat): bv8
    requires i < 64
  {
    if i == 0 then 0 else SmallCount(i - 1) + 1
  }

  /** The byte stands for the count. */
  lemma {:induction false} SmallCountValue(i: nat)
    requires i < 64
    ensures SmallCount(i) as int == i
  {
    if i != 0 {
      SmallCountValue(i - 1);
    }
  }

  /** Index `i` as the machine index of its field. */
  function Idx(i: nat): (a: bv8)
    requires i < 64
    ensures a < 64
    ensures (a < 29) == (i < 29)
    ensures (a <= 29) == (i <= 29)
  {
    SmallCountValue(i);
    SmallCount(i)
  }

  lemma IdxValue(i: nat)
    requires i < 64
    ensures Idx(i) as int == i
  {
    SmallCountValue(i);
  }

  /** The cast keeps the order of counts, so distinct counts stay distinct. */
  lemma IdxOrder(i: nat, j: nat)
    requires i < 64 && j < 64
    ensures (Idx(i) < Idx(j)) == (i < j)
    ensures (Idx(i) == Idx(j)) == (i == j)
  {
    IdxValue(i);
    IdxValue(j);
  }

  lemma IdxSucc(i: nat)
    requires i < 63
    ensures Idx(i + 1) == Idx(i) + 1
  {
  }

  /** Counts add like bytes, below 64. */
  lemma {:induction false} IdxAdd(i: nat, j: nat)
    requires i + j < 64
    ensures Idx(i + j) == Idx(i) + Idx(j)
  {
    if j != 0 {
      IdxAdd(i, j - 1);
      IdxSucc(i + j - 1);
      IdxSucc(j - 1);
      ByteAddSucc(Idx(i), Idx(j - 1));
    }
  }

  lemma ByteAddSucc(x: bv8, y: bv8)
    ensures (x + y) + 1 == x + (y + 1)
  {
  }

  lemma WidenSum(x: bv8, y: bv8)
    requires x < 64 && y < 64
    ensures (x + y) as bv64 == x as bv64 + y as bv64
  {
  }

  /** `i as u64` for a count below 64. */
  function AsU64(i: nat): bv64
    requires i < 64
  {
    Idx(i) as bv64
  }

  /** `shift_for`: the bit offset of the field of token `i`. The offset is at
      most 64 and is kept as a byte. */
  function ShiftFor(i: nat): (s: bv8)
    requires i <= CAPACITY
  {
    Offset(Idx(i))
  }

  /** `shift_for(i)` is `2 * i + 6`: token `i` sits above `i` two-bit fields
      and the length field. */
  lemma ShiftForValue(i: nat)
    requires i <= CAPACITY
    ensures ShiftFor(i) as int == 2 * i + LEN_BITS as int
  {
    IdxValue(i);
  }

  // ---------------------------------------------------------------------------
  // Meaning of a word

  /** The 2-bit field of token `i`. */
  function Field(w: bv64, i: nat): (c: bv64)
    requires i < CAPACITY
    ensures c < 4
  {
    Slot(w, Idx(i))
  }

  /** Packed token `i` of a word that `bits` builds: token `i` at bit `2 * i`. */
  function PackedField(q: bv64, i: nat): (c: bv64)
    requires i < CAPACITY
    ensures c < 4
  {
    Packed(q, Idx(i))
  }

  /** `len`: the length field. */
  function Len(w: bv64): (n: nat)
    ensures n < 64
  {
    ((w & LEN_MASK) as bv8) as int
  }

  /** The length field is the cast of the length. */
  lemma LenIdx(w: bv64)
    ensures Idx(Len(w)) == (w & LEN_MASK) as bv8
    ensures AsU64(Len(w)) == w & LEN_MASK
  {
    IdxValue(Len(w));
  }

  /** A word whose length field holds the cast of `n` has length `n`. */
  lemma LenIs(w: bv64, n: nat)
    requires n < 64 && w & LEN_MASK == AsU64(n)
    ensures Len(w) == n
  {
    IdxValue(n);
  }

  /** Adding one to a length field below 29 adds one to the length. */
  lemma LenSucc(w: bv64)
    requires Len(w) < CAPACITY
    ensures (w & LEN_MASK) + 1 <= LEN_MASK
    ensures Len((w & LEN_MASK) + 1) == Len(w) + 1
  {
  }

  /** Adding the cast of `n` to the length field adds `n` to the length. */
  lemma LenAdd(w: bv64, n: nat, x: bv64)
    requires Len(w) + n <= CAPACITY && x == AsU64(n)
    ensures (w & LEN_MASK) + x <= LEN_MASK
    ensures Len((w & LEN_MASK) + x) == Len(w) + n
  {
    LenIdx(w);
    IdxAdd(Len(w), n);
    WidenSum(Idx(Len(w)), Idx(n));
    LenIs((w & LEN_MASK) + x, Len(w) + n);
  }

  /** Every field holds the code of a token, so `get` may decode any field it is
      asked for; every operation keeps this, since the code 3 is never written. */
  ghost predicate CodesValid(w: bv64)
  {
    forall i :: 0 <= i < CAPACITY ==> Field(w, i) < 3
  }

  /** The words a `TokenVec` can hold. */
  ghost predicate WellFormed(w: bv64)
  {
    Len(w) <= CAPACITY && CodesValid(w)
  }

  /** All 29 fields, decoded, whether occupied or not. */
  ghost function Slots(w: bv64): (s: seq<Token>)
    requires CodesValid(w)
    ensures |s| == CAPACITY
  {
    seq(CAPACITY, i requires 0 <= i < CAPACITY => Decode(Field(w, i)))
  }

  /** The abstraction function: the tokens the word holds, front to back. */
  ghost function Decoded(w: bv64): (s: seq<Token>)
    requires WellFormed(w)
    ensures |s| == Len(w)
  {
    Slots(w)[..Len(w)]
  }

  /** `n` tokens whose code is 0, which is what a cleared field holds. */
  function Blank(n: nat): (s: seq<Token>)
    ensures |s| == n
    ensures forall k :: 0 <= k < n ==> s[k] == S
  {
    seq(n, k => S)
  }

  /** Slot `i` holds the code of the `i`-th decoded token. */
  lemma SlotsAt(w: bv64, i: nat)
    requires CodesValid(w) && i < CAPACITY
    ensures Field(w, i) < 3
    ensures Slots(w)[i] == Decode(Field(w, i))
    ensures Code(Slots(w)[i]) == Field(w, i)
  {
  }

  /** A word whose fields hold the codes of `s` decodes to `s`. */
  lemma SlotsAre(w: bv64, s: seq<Token>)
    requires |s| == CAPACITY
    requires forall i :: 0 <= i < CAPACITY ==> Field(w, i) == Code(s[i])
    ensures CodesValid(w) && Slots(w) == s
  {
    forall i | 0 <= i < CAPACITY
      ensures Slots(w)[i] == s[i]
    {
      DecodeCode(s[i]);
    }
  }

  /** `q` holds the codes of `toks` as packed tokens, and 0 in every packed
      token past them: what `bits(toks)` returns. */
  ghost predicate PacksAs(q: bv64, toks: seq<Token>)
  {
    |toks| <= CAPACITY &&
    forall d :: 0 <= d < CAPACITY ==> PackedField(q, d) == (if d < |toks| then Code(toks[d]) else 0)
  }

  /** The field of token `i` is what `get` reads: the word shifted down by `shift_for(i)`. */
  lemma FieldIsShifted(w: bv64, i: nat)
    requires i < CAPACITY
    ensures (w >> ShiftFor(i)) & 3 == Field(w, i)
  {
    assert ShiftFor(i) == Offset(Idx(i));
    assert Field(w, i) == Slot(w, Idx(i));
  }

  // ---------------------------------------------------------------------------
  // Pure operations

  /** `get`: the token at index `i`, which must be occupied. */
  function Get(w: bv64, i: nat): (t: Token)
    requires WellFormed(w) && i < Len(w)
    ensures t == Decoded(w)[i]
  {
    FieldIsShifted(w, i);
    SlotsAt(w, i);
    Decode((w >> ShiftFor(i)) & 3)
  }

  /** `is_empty`. */
  function IsEmpty(w: bv64): (b: bool)
    requires WellFormed(w)
    ensures b <==> Decoded(w) == []
  {
    Len(w) == 0
  }

  /** `capacity`: the most tokens any `TokenVec` holds, which fill the word. */
  function Capacity(w: bv64): (n: nat)
    ensures WellFormed(w) ==> |Decoded(w)| <= n
    ensures (LEN_BITS as int) + 2 * n == 64
  {
    29
  }

  /** `size_hint` of the draining iterator: exact in both bounds. */
  function SizeHint(w: bv64): (hint: (nat, Option<nat>))
    requires WellFormed(w)
    ensures hint.0 == |Decoded(w)|
    ensures hint.1 == Some(|Decoded(w)|)
  {
    (Len(w), Some(Len(w)))
  }

  /** `(1 << shift_for(n)) - 1`: the bits of the length field and of the
      fields of the first `n` tokens. */
  function LowMask(n: nat): bv64
    requires n < CAPACITY
  {
    Mask(Idx(n))
  }

  /** `eq`, corrected: keep only the length field and the occupied fields, and
      compare what is left. The shift overflows when a length is the capacity. */
  function Eq(w1: bv64, w2: bv64): (r: bool)
    requires WellFormed(w1) && WellFormed(w2)
    requires Len(w1) < CAPACITY && Len(w2) < CAPACITY
    ensures r <==> Decoded(w1) == Decoded(w2)
  {
    var m1 := LowMask(Len(w1));
    var m2 := LowMask(Len(w2));
    EqMeansSameContents(w1, w2, m1, m2);
    w1 & m1 == w2 & m2
  }

  /** A word without the first `k - 1` fields and without field `k - 1` is
      without the first `k` fields. */
  lemma MaskAgreeStep(d: bv64, k: nat, m: bv64, m1: bv64)
    requires 0 < k < CAPACITY && m == Mask(Idx(k - 1)) && m1 == Mask(Idx(k))
    requires d & m == 0 && Slot(d, Idx(k - 1)) == 0
    ensures d & m1 == 0
  {
    IdxSucc(k - 1);
    MaskStep(d, Idx(k - 1), Idx(k), m, m1);
  }

  /** Two words that agree on the length field and on the first `k` fields
      differ nowhere under the mask of those fields. */
  lemma {:induction false} MaskAgree(w1: bv64, w2: bv64, d: bv64, k: nat, m: bv64)
    requires k < CAPACITY && d == w1 ^ w2 && m == Mask(Idx(k))
    requires w1 & LEN_MASK == w2 & LEN_MASK
    requires forall i :: 0 <= i < k ==> Field(w1, i) == Field(w2, i)
    ensures d & m == 0
  {
    if k == 0 {
      MaskNone(w1, w2, d, m);
    } else {
      var m0 := Mask(Idx(k - 1));
      MaskAgree(w1, w2, d, k - 1, m0);
      assert Field(w1, k - 1) == Field(w2, k - 1);
      SlotAgreeXor(w1, w2, d, Idx(k - 1));
      MaskAgreeStep(d, k, m0, m);
    }
  }

  /** Words equal under the mask of their own lengths have one length. */
  lemma MaskedSameLength(w1: bv64, w2: bv64, m1: bv64, m2: bv64)
    requires Len(w1) < CAPACITY && Len(w2) < CAPACITY
    requires m1 == LowMask(Len(w1)) && m2 == LowMask(Len(w2)) && w1 & m1 == w2 & m2
    ensures Len(w1) == Len(w2)
  {
    LenIdx(w1);
    LenIdx(w2);
    MaskKeepsLength(w1, Idx(Len(w1)), m1);
    MaskKeepsLength(w2, Idx(Len(w2)), m2);
  }

  /** Words equal under the mask of `k` fields agree on each of those fields. */
  lemma MaskedSameField(w1: bv64, w2: bv64, k: nat, m: bv64, i: nat)
    requires i < k < CAPACITY && m == LowMask(k) && w1 & m == w2 & m
    ensures Field(w1, i) == Field(w2, i)
  {
    IdxOrder(i, k);
    MaskedSlot(w1, w2, w1 ^ w2, Idx(k), m, Idx(i));
  }

  /** Words equal under the mask of `k` fields agree on all of those fields. */
  lemma MaskedFieldsAgree(w1: bv64, w2: bv64, k: nat, m: bv64)
    requires k < CAPACITY && m == LowMask(k) && w1 & m == w2 & m
    ensures forall i :: 0 <= i < k ==> Field(w1, i) == Field(w2, i)
  {
    forall i | 0 <= i < k
      ensures Field(w1, i) == Field(w2, i)
    {
      MaskedSameField(w1, w2, k, m, i);
    }
  }

  /** Two well-formed words of one length that agree on the occupied fields
      hold the same tokens, and the other way round. */
  lemma SameFields(w1: bv64, w2: bv64)
    requires WellFormed(w1) && WellFormed(w2) && Len(w1) == Len(w2)
    ensures (forall i :: 0 <= i < Len(w1) ==> Field(w1, i) == Field(w2, i))
            <==> Decoded(w1) == Decoded(w2)
  {
    if forall i :: 0 <= i < Len(w1) ==> Field(w1, i) == Field(w2, i) {
      forall i | 0 <= i < Len(w1)
        ensures Decoded(w1)[i] == Decoded(w2)[i]
      {
        SlotsAt(w1, i);
        SlotsAt(w2, i);
      }
    }
    if Decoded(w1) == Decoded(w2) {
      forall i | 0 <= i < Len(w1)
        ensures Field(w1, i) == Field(w2, i)
      {
        SlotsAt(w1, i);
        SlotsAt(w2, i);
        assert Decoded(w1)[i] == Decoded(w2)[i];
      }
    }
  }

  /** Words equal under the masks of their lengths hold the same tokens. */
  lemma MaskedEqualSameContents(w1: bv64, w2: bv64, m1: bv64, m2: bv64)
    requires WellFormed(w1) && WellFormed(w2)
    requires Len(w1) < CAPACITY && Len(w2) < CAPACITY
    requires m1 == LowMask(Len(w1)) && m2 == LowMask(Len(w2)) && w1 & m1 == w2 & m2
    ensures Decoded(w1) == Decoded(w2)
  {
    MaskedSameLength(w1, w2, m1, m2);
    MaskedFieldsAgree(w1, w2, Len(w1), m1);
    SameFields(w1, w2);
  }

  /** Words that hold the same tokens are equal under the masks of their lengths. */
  lemma SameContentsMaskedEqual(w1: bv64, w2: bv64, m1: bv64, m2: bv64)
    requires WellFormed(w1) && WellFormed(w2)
    requires Len(w1) < CAPACITY && Len(w2) < CAPACITY
    requires m1 == LowMask(Len(w1)) && m2 == LowMask(Len(w2))
    requires Decoded(w1) == Decoded(w2)
    ensures w1 & m1 == w2 & m2
  {
    SameFields(w1, w2);
    LenIdx(w1);
    LenIdx(w2);
    MaskAgree(w1, w2, w1 ^ w2, Len(w1), m1);
    XorZeroMasked(w1, w2, w1 ^ w2, m1);
  }

  /** The masked comparison of `Eq` holds exactly when the contents agree. */
  lemma EqMeansSameContents(w1: bv64, w2: bv64, m1: bv64, m2: bv64)
    requires WellFormed(w1) && WellFormed(w2)
    requires Len(w1) < CAPACITY && Len(w2) < CAPACITY
    requires m1 == LowMask(Len(w1)) && m2 == LowMask(Len(w2))
    ensures (w1 & m1 == w2 & m2) <==> Decoded(w1) == Decoded(w2)
  {
    if w1 & m1 == w2 & m2 {
      MaskedEqualSameContents(w1, w2, m1, m2);
    }
    if Decoded(w1) == Decoded(w2) {
      SameContentsMaskedEqual(w1, w2, m1, m2);
    }
  }
}
