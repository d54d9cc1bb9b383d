/**
 * Three operations whose code, as written, does not do what the rest of
 * `TokenVec` relies on: `extend`, `extend_front` and `eq`, and the three
 * that inherit the first two: `concat`, `append` and `append_front`. Each
 * is transcribed here as a function of the old word, next to what it does
 * instead of the intended behaviour and a concrete word that shows the
 * difference. The rest of the model uses the corrected versions
 * (`WordOps.Extended`, `WordOps.ExtendedFront`, `TokenWords.Eq`).
 */
module AsWritten {
  import opened Tokens
  import opened WordBits
  import opened TokenWords
  import opened Layouts
  import opened WordOps

  // ---------------------------------------------------------------------------
  // Words that hold a length and nothing else
  // ---------------------------------------------------------------------------

  /** A word below 64 has only a length field: every token field is blank. */
  lemma LengthOnlyLayout(w: bv64)
    requires w <= LEN_MASK
    ensures CodesValid(w) && Slots(w) == Blank(CAPACITY)
  {
    forall j | 0 <= j < CAPACITY
      ensures Field(w, j) == Code(Blank(CAPACITY)[j])
    {
      SlotOfLength(w, Idx(j));
    }
    SlotsAre(w, Blank(CAPACITY));
  }

  /** A word that holds only a length of at most 29 is that many blank
      tokens. */
  lemma BlanksOnly(w: bv64)
    requires w <= LEN_MASK && Len(w) <= CAPACITY
    ensures WellFormed(w) && Decoded(w) == Blank(Len(w))
  {
    LengthOnlyLayout(w);
    BlankTake(CAPACITY, Len(w));
  }

  /** Two words whose token fields agree hold the same tokens, whatever
      their length fields say. */
  lemma SameTokenFields(r: bv64, e: bv64)
    requires CodesValid(e) && r & !LEN_MASK == e & !LEN_MASK
    ensures CodesValid(r) && Slots(r) == Slots(e)
  {
    forall j | 0 <= j < CAPACITY
      ensures Field(r, j) == Code(Slots(e)[j])
    {
      SlotClearLength(r, Idx(j));
      SlotClearLength(e, Idx(j));
      SlotsAt(e, j);
    }
    SlotsAre(r, Slots(e));
  }

  // ---------------------------------------------------------------------------
  // extend
  // ---------------------------------------------------------------------------

  /** The mask below `shift` keeps the length field too, so ORing in the new
      length ORs it with the old one; the token fields come out as intended. */
  lemma KeptLengthField(w: bv64, s: bv8, y: bv64, d: bv64, c: bv64, r: bv64, e: bv64)
    requires LEN_BITS <= s < 64 && y <= LEN_MASK
    requires d == w & ((1 << s) - 1) && c == d & !LEN_MASK && r == d | y && e == c | y
    ensures r & !LEN_MASK == e & !LEN_MASK
    ensures r & LEN_MASK == (w & LEN_MASK) | y
  {
  }

  lemma ExtendAsWrittenLayout(w: bv64, k: nat, n: nat, s: bv8, x: bv64, d: bv64, c: bv64, y: bv64, r: bv64, e: bv64)
    requires CodesValid(w) && k == Len(w) && n != 0 && k + n <= CAPACITY
    requires s == ShiftFor(k) && x == AsU64(n)
    requires d == w & ((1 << s) - 1) && c == d & !LEN_MASK && y == (w & LEN_MASK) + x
    requires r == d | y && e == c | y
    ensures CodesValid(r) && Slots(r) == Slots(w)[..k] + Blank(CAPACITY - k)
    ensures r & LEN_MASK == (w & LEN_MASK) | y
  {
    ExtendLayout(w, k, n, s, x, c, y, e);
    LenAdd(w, n, x);
    KeptLengthField(w, s, y, d, c, r, e);
    SameTokenFields(r, e);
  }

  /** The length field `extend` as written leaves: the old length field ORed
      with the intended one, `len + n`. */
  function GarbledLength(w: bv64, n: nat): bv64
    requires n < 64
  {
    (w & LEN_MASK) | ((w & LEN_MASK) + AsU64(n))
  }

  /** `extend` as written: `(w & ((1 << shift_for(len)) - 1)) | (len + n)`.
      The token fields come out as the corrected `extend` writes them, but the
      length field is the old length ORed with the intended one, `len + n`. */
  function ExtendAsWritten(w: bv64, n: nat): (r: bv64)
    requires CodesValid(w) && n != 0 && Len(w) + n <= CAPACITY
    ensures CodesValid(r) && Slots(r) == Slots(w)[..Len(w)] + Blank(CAPACITY - Len(w))
    ensures r & LEN_MASK == GarbledLength(w, n)
  {
    var k := Len(w);
    var shift := ShiftFor(k);
    var x := AsU64(n);
    var data := w & ((1 << shift) - 1);
    var len := (w & LEN_MASK) + x;
    var r := data | len;
    var cleared := data & !LEN_MASK;
    ExtendAsWrittenLayout(w, k, n, shift, x, data, cleared, len, r, cleared | len);
    r
  }

  /** One blank token extended by one: as written the word says three
      tokens, where the corrected `extend` says two. */
  lemma ExtendOneByOne()
    ensures WellFormed(1) && Decoded(1) == [S]
    ensures ExtendAsWritten(1, 1) == 3 && WellFormed(3) && Decoded(3) == [S, S, S]
    ensures Extended(1, 1) == 2 && WellFormed(2) && Decoded(2) == [S, S]
  {
    BlanksOnly(1);
    BlanksOnly(2);
    BlanksOnly(3);
  }

  // ---------------------------------------------------------------------------
  // extend_front
  // ---------------------------------------------------------------------------

  /** Where field 0 of the old word lands when every field moves up by a
      whole `shift_for(k)`: `k + 3`, or past the end of the word. */
  function Landing(k: nat): (m: nat)
    ensures m <= CAPACITY && (m == k + 3 || m == CAPACITY)
  {
    if k + 3 < CAPACITY then k + 3 else CAPACITY
  }

  lemma IdxThree()
    ensures Idx(3) == 3
  {
    IdxSucc(0);
    IdxSucc(1);
    IdxSucc(2);
  }

  /** The machine index of field `k + 3`. */
  lemma IdxPlusThree(k: nat)
    requires k < CAPACITY
    ensures Idx(k + 3) == Idx(k) + 3
  {
    IdxAdd(k, 3);
    IdxThree();
  }

  lemma OverShiftFieldBelow(p: bv64, k: nat, s: bv8, d: bv64, j: nat)
    requires p & LEN_MASK == 0 && k < CAPACITY && j < CAPACITY && j < k + 3
    requires s == ShiftFor(k) && d == p << s
    ensures Field(d, j) == 0
  {
    IdxPlusThree(k);
    IdxOrder(j, k + 3);
    OverShiftBelow(p, Idx(k), s, Idx(j));
  }

  lemma OverShiftFieldAbove(p: bv64, k: nat, s: bv8, d: bv64, j: nat)
    requires k < CAPACITY && k + 3 <= j < CAPACITY
    requires s == ShiftFor(k) && d == p << s
    ensures Field(d, j) == Field(p, j - k - 3)
  {
    IdxPlusThree(k);
    IdxAdd(k + 3, j - k - 3);
    OverShiftAbove(p, Idx(k), s, Idx(j - k - 3), Idx(j));
  }

  lemma OverShiftFieldAt(p: bv64, k: nat, s: bv8, d: bv64, j: nat)
    requires CodesValid(p) && p & LEN_MASK == 0 && k < CAPACITY && j < CAPACITY
    requires s == ShiftFor(k) && d == p << s
    ensures Field(d, j) == Code((Blank(Landing(k)) + Slots(p)[..CAPACITY - Landing(k)])[j])
  {
    if j < Landing(k) {
      OverShiftFieldBelow(p, k, s, d, j);
    } else {
      OverShiftFieldAbove(p, k, s, d, j);
      SlotsAt(p, j - k - 3);
    }
  }

  lemma OverShiftLength(p: bv64, s: bv8, d: bv64)
    requires LEN_BITS <= s < 64 && d == p << s
    ensures d & LEN_MASK == 0
  {
  }

  /** Moving the fields of a word with a clear length field up by a whole
      `shift_for(k)`: the first `k + 3` fields are blank and field `d` lands
      at `k + 3 + d`. */
  lemma OverShiftLayout(p: bv64, k: nat, s: bv8, d: bv64)
    requires CodesValid(p) && p & LEN_MASK == 0 && k < CAPACITY
    requires s == ShiftFor(k) && d == p << s
    ensures CodesValid(d) && d & LEN_MASK == 0
    ensures Slots(d) == Blank(Landing(k)) + Slots(p)[..CAPACITY - Landing(k)]
  {
    forall j | 0 <= j < CAPACITY
      ensures Field(d, j) == Code((Blank(Landing(k)) + Slots(p)[..CAPACITY - Landing(k)])[j])
    {
      OverShiftFieldAt(p, k, s, d, j);
    }
    SlotsAre(d, Blank(Landing(k)) + Slots(p)[..CAPACITY - Landing(k)]);
    IdxValue(k);
    OverShiftLength(p, s, d);
  }

  lemma ExtendFrontAsWrittenLayout(w: bv64, k: nat, n: nat, s: bv8, x: bv64, p: bv64, d: bv64, y: bv64, r: bv64)
    requires CodesValid(w) && k == Len(w) && k + n <= CAPACITY && n < CAPACITY
    requires s == ShiftFor(n) && x == AsU64(n)
    requires p == w & !LEN_MASK && d == p << s
    requires y == (w & LEN_MASK) + x
    requires r == d | y
    ensures CodesValid(r) && Len(r) == n + k
    ensures Slots(r) == Blank(Landing(n)) + Slots(w)[..CAPACITY - Landing(n)]
  {
    ClearLengthLayout(w, p);
    OverShiftLayout(p, n, s, d);
    LenAdd(w, n, x);
    WithLengthLayout(d, y, r);
  }

  /** `extend_front` as written: `((w & !LEN_MASK) << shift_for(n)) | (len + n)`.
      The shift counts the length field a second time, so every token lands
      three fields beyond where it belongs (or leaves the word), and the
      fields in between are blank. `n` may not be 29: the shift would be 64. */
  function ExtendFrontAsWritten(w: bv64, n: nat): (r: bv64)
    requires CodesValid(w) && Len(w) + n <= CAPACITY && n < CAPACITY
    ensures CodesValid(r) && Len(r) == Len(w) + n
    ensures Slots(r) == Blank(Landing(n)) + Slots(w)[..CAPACITY - Landing(n)]
  {
    var k := Len(w);
    var shift := ShiftFor(n);
    var x := AsU64(n);
    var p := w & !LEN_MASK;
    var data := p << shift;
    var len := (w & LEN_MASK) + x;
    var r := data | len;
    ExtendFrontAsWrittenLayout(w, k, n, shift, x, p, data, len, r);
    r
  }

  /** The vector holding one `T`, extended in front by one: as written it
      holds two blanks (the `T` sits in field 4, beyond the length), where
      the corrected `extend_front` gives a blank then the `T`. Extended by
      none, as written it loses the `T` too. */
  lemma ExtendFrontOneBeforeT()
    ensures WellFormed(0x41) && Decoded(0x41) == [T]
    ensures Decoded(ExtendedFront(0x41, 1)) == [S, T]
    ensures ExtendFrontAsWritten(0x41, 1) == 0x4002 && Decoded(0x4002) == [S, S]
    ensures ExtendFrontAsWritten(0x41, 0) == 0x1001 && Decoded(0x1001) == [S]
  {
    ZeroLayout();
    LenIs(0, 0);
    assert PushedFront(0, T) == 0x41;
    var w := 0x41;
    assert Decoded(w) == Slots(w)[..1] == [T];
    var r := ExtendFrontAsWritten(w, 1);
    assert Decoded(r) == Slots(r)[..2] == [S, S];
    var r0 := ExtendFrontAsWritten(w, 0);
    assert Decoded(r0) == Slots(r0)[..1] == [S];
    var e := ExtendedFront(w, 1);
    assert Decoded(e) == Slots(e)[..2] == [S, T];
  }

  // ---------------------------------------------------------------------------
  // On the empty word
  // ---------------------------------------------------------------------------

  /** On the empty word `new()` builds there is no old length to garble:
      `extend` as written writes what the corrected `extend` writes. */
  lemma ExtendAsWrittenOnEmpty(n: nat)
    requires 0 < n <= CAPACITY
    ensures CodesValid(0) && Len(0) == 0
    ensures ExtendAsWritten(0, n) == Extended(0, n)
  {
    ExtendEmpty(n, AsU64(n));
  }

  /** On the empty word there are no fields to move: `extend_front` as
      written writes what the corrected `extend_front` writes. */
  lemma ExtendFrontAsWrittenOnEmpty(n: nat)
    requires n < CAPACITY
    ensures CodesValid(0) && Len(0) == 0
    ensures ExtendFrontAsWritten(0, n) == ExtendedFront(0, n)
  {
    ZeroLayout();
    if n != 0 {
      ExtendEmpty(n, AsU64(n));
    }
  }

  // ---------------------------------------------------------------------------
  // concat, append, append_front
  // ---------------------------------------------------------------------------

  /** The fields from `Len(w)` on of what `extend` as written leaves are
      blank, as `concat` and `append` need. */
  lemma BlankBehind(w: bv64, x: bv64)
    requires WellFormed(w) && Len(w) < CAPACITY && CodesValid(x)
    requires Slots(x) == Decoded(w) + Blank(CAPACITY - Len(w))
    ensures Slots(x)[..Len(w)] == Decoded(w)
    ensures Slots(x) == Slots(x)[..Len(w)] + Blank(CAPACITY - Len(w))
  {
    SplitAt(Slots(x), Decoded(w), Blank(CAPACITY - Len(w)));
  }

  /** `concat` as written: `extend` as written, then the token fields of
      `o` ORed in behind the tokens of `w`. The tokens land where they
      belong, but the length is the garbled one `extend` leaves. */
  function ConcatAsWritten(w: bv64, o: bv64): (r: bv64)
    requires WellFormed(w) && WellFormed(o) && Len(o) != 0 && Len(w) + Len(o) <= CAPACITY
    ensures CodesValid(r) && Slots(r) == Decoded(w) + Slots(o)[..CAPACITY - Len(w)]
    ensures Len(r) == Len(ExtendAsWritten(w, Len(o)))
  {
    var x := ExtendAsWritten(w, Len(o));
    BlankBehind(w, x);
    Concatenated(x, o, Len(w))
  }

  /** `append` as written: `extend` as written, then the packed `toks`
      ORed in behind the tokens of `w`, with the garbled length. */
  function AppendAsWritten(w: bv64, toks: seq<Token>): (r: bv64)
    requires WellFormed(w) && |toks| != 0 && Len(w) + |toks| <= CAPACITY
    ensures CodesValid(r) && Slots(r) == Decoded(w) + (toks + Blank(CAPACITY - Len(w) - |toks|))
    ensures Len(r) == Len(ExtendAsWritten(w, |toks|))
  {
    var bits := PackedBits(toks);
    var x := ExtendAsWritten(w, |toks|);
    BlankBehind(w, x);
    Appended(x, bits, toks, Len(w))
  }

  /** The first `n` fields of what `extend_front(n)` as written leaves are
      blank, as `append_front` needs; behind them come `Landing(n) - n`
      more blanks and then the tokens of `w`. */
  lemma BlankInFront(w: bv64, x: bv64, n: nat)
    requires CodesValid(w) && CodesValid(x) && n < CAPACITY
    requires Slots(x) == Blank(Landing(n)) + Slots(w)[..CAPACITY - Landing(n)]
    ensures Slots(x)[..n] == Blank(n)
    ensures Slots(x)[n..] == Blank(Landing(n) - n) + Slots(w)[..CAPACITY - Landing(n)]
  {
    BlankTake(Landing(n), n);
    assert Blank(Landing(n)) == Blank(n) + Blank(Landing(n) - n);
  }

  /** `append_front` as written: `extend_front` as written, then the packed
      `toks` ORed into the first fields. The length is right, but the tokens
      of `w` sit three fields too far up, behind blanks. With 29 tokens
      `extend_front` would shift by 64 bits, which is not allowed. */
  function AppendFrontAsWritten(w: bv64, toks: seq<Token>): (r: bv64)
    requires WellFormed(w) && Len(w) + |toks| <= CAPACITY && |toks| < CAPACITY
    ensures CodesValid(r) && Len(r) == |toks| + Len(w)
    ensures Slots(r) == toks + (Blank(Landing(|toks|) - |toks|) + Slots(w)[..CAPACITY - Landing(|toks|)])
  {
    var n := |toks|;
    var bits := PackedBits(toks);
    var x := ExtendFrontAsWritten(w, n);
    BlankInFront(w, x, n);
    AppendedFront(x, bits, toks)
  }

  /** One blank, with a `T` appended: as written the word says three tokens,
      `S T S`, where the corrected `append` gives `S T`. */
  lemma AppendOneAfterS()
    ensures WellFormed(1) && Decoded(1) == [S]
    ensures AppendAsWritten(1, [T]) == 0x103 && Decoded(0x103) == [S, T, S]
    ensures Decoded(Appended(Extended(1, 1), PackedBits([T]), [T], 1)) == [S, T]
  {
    BlanksOnly(1);
    IdxThree();
    ExtendOneByOne();
    IdxValue(1);
    assert ShiftFor(1) == 8 && PackedBits([T]) == 1;
    var r := AppendAsWritten(1, [T]);
    assert r == 0x103;
    LenIs(r, 3);
    assert Decoded(r) == Slots(r)[..3] == [S, T, S];
    AppendedOf(1, Extended(1, 1), PackedBits([T]), [T], 1);
  }

  /** One blank, concatenated with the vector holding one `T`: as written
      `S T S`, where the corrected `concat` gives `S T`. */
  lemma ConcatOneAfterS()
    ensures WellFormed(1) && Decoded(1) == [S]
    ensures WellFormed(0x41) && Decoded(0x41) == [T]
    ensures ConcatAsWritten(1, 0x41) == 0x103 && Decoded(0x103) == [S, T, S]
    ensures Decoded(Concatenated(Extended(1, 1), 0x41, 1)) == [S, T]
  {
    BlanksOnly(1);
    ZeroLayout();
    LenIs(0, 0);
    assert PushedFront(0, T) == 0x41;
    var o := 0x41;
    assert Decoded(o) == Slots(o)[..1] == [T];
    IdxThree();
    ExtendOneByOne();
    IdxValue(1);
    assert ShiftFor(1) == 8;
    var r := ConcatAsWritten(1, o);
    assert r == 0x103;
    LenIs(r, 3);
    assert Decoded(r) == Slots(r)[..3] == [S, T, S];
    ConcatenatedOf(1, Extended(1, 1), o, 1);
  }

  /** The vector holding one `T`, with an `S` put in front: as written two
      blanks, where the corrected `append_front` gives `S T`. With nothing
      put in front, as written the `T` is lost too. */
  lemma AppendFrontBeforeT()
    ensures WellFormed(0x41) && Decoded(0x41) == [T]
    ensures AppendFrontAsWritten(0x41, [S]) == 0x4002 && Decoded(0x4002) == [S, S]
    ensures AppendFrontAsWritten(0x41, []) == 0x1001 && Decoded(0x1001) == [S]
    ensures Decoded(AppendedFront(ExtendedFront(0x41, 1), PackedBits([S]), [S])) == [S, T]
  {
    ZeroLayout();
    LenIs(0, 0);
    assert PushedFront(0, T) == 0x41;
    var w := 0x41;
    assert Decoded(w) == Slots(w)[..1] == [T];
    ExtendFrontOneBeforeT();
    assert PackedBits([S]) == 0 && PackedBits([]) == 0;
    var r := AppendFrontAsWritten(w, [S]);
    assert r == 0x4002;
    assert Decoded(r) == Slots(r)[..2] == [S, S];
    var r0 := AppendFrontAsWritten(w, []);
    assert r0 == 0x1001;
    assert Decoded(r0) == Slots(r0)[..1] == [S];
    AppendedFrontOf(w, ExtendedFront(w, 1), PackedBits([S]), [S]);
  }

  /** On the empty word `new()` builds, `append` as written writes the word
      of `From<&[Token]>`. */
  lemma AppendAsWrittenToEmpty(toks: seq<Token>)
    requires 0 < |toks| <= CAPACITY
    ensures WellFormed(0) && Len(0) == 0
    ensures AppendAsWritten(0, toks) == FromTokens(toks)
  {
    ExtendAsWrittenOnEmpty(|toks|);
    AppendToEmpty(toks);
  }

  /** On the empty word `new()` builds, `append_front` as written writes the
      word of `From<&[Token]>`, for fewer than 29 tokens. */
  lemma AppendFrontAsWrittenToEmpty(toks: seq<Token>)
    requires |toks| < CAPACITY
    ensures WellFormed(0) && Len(0) == 0
    ensures AppendFrontAsWritten(0, toks) == FromTokens(toks)
  {
    ExtendFrontAsWrittenOnEmpty(|toks|);
    if toks == [] {
      ZeroLayout();
      assert FromTokens(toks) == 0;
    } else {
      AppendFrontToEmpty(toks);
    }
  }

  // ---------------------------------------------------------------------------
  // eq
  // ---------------------------------------------------------------------------

  /** `w << shift_for(len)`: the fields from token `len` on moved up to the
      top of the word, the rest shifted out. */
  function Shifted(w: bv64): bv64
    requires Len(w) < CAPACITY
  {
    w << ShiftFor(Len(w))
  }

  /** `eq` as written: both words shifted left by `shift_for` of their own
      length, and the results compared. The shift drops the top fields,
      not the unused ones, and takes the length field along. It still holds
      of a word and itself. */
  function EqAsWritten(w1: bv64, w2: bv64): (r: bool)
    requires Len(w1) < CAPACITY && Len(w2) < CAPACITY
    ensures w1 == w2 ==> r
  {
    Shifted(w1) == Shifted(w2)
  }

  /** `new()` and `new()` after `push(L); pop()` are both empty, but the
      second still holds the code of the popped `L` in field 0, so they
      compare unequal as written. */
  lemma EqSeesPoppedToken()
    ensures WellFormed(0) && Decoded(0) == []
    ensures WithLength(0, 1) == 1 && WithToken(1, 0, L) == 0x81 && WithLength(0x81, 0) == 0x80
    ensures WellFormed(0x80) && Decoded(0x80) == []
    ensures Eq(0, 0x80) && !EqAsWritten(0, 0x80)
  {
    ZeroLayout();
    LenIs(0, 0);
    assert WithLength(0, 1) == 1;
    assert WithToken(1, 0, L) == 0x81;
    assert WithLength(0x81, 0) == 0x80;
    assert Eq(0, 0x80);
  }

  /** The empty vector and 28 blanks compare equal as written: the length
      field of the second is shifted out entirely. */
  lemma EqIgnoresLength()
    ensures WellFormed(0) && Decoded(0) == []
    ensures WellFormed(28) && Decoded(28) == Blank(28)
    ensures !Eq(0, 28) && EqAsWritten(0, 28)
  {
    BlanksOnly(0);
    BlanksOnly(28);
    IdxValue(28);
    assert ShiftFor(28) == 62;
    assert Decoded(0) != Decoded(28);
  }

  /** Twenty blanks, and twenty blanks with a `T` at index 10, compare equal
      as written: field 10 is among the top fields the shift drops. */
  lemma EqMissesHighFields()
    ensures WellFormed(20) && Decoded(20) == Blank(20)
    ensures WellFormed(0x4000014) && Decoded(0x4000014) == Blank(20)[10 := T]
    ensures !Eq(20, 0x4000014) && EqAsWritten(20, 0x4000014)
  {
    BlanksOnly(20);
    assert WithToken(20, 10, T) == 0x4000014;
    UpdateTake(Slots(20), 20, 10, T);
    assert Decoded(20)[10] != Decoded(0x4000014)[10];
  }
}
