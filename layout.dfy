/**
 * What the words written by the mutating operations of `TokenVec` hold, token
 * field by token field. Each layout lemma is about one expression of the
 * source; a per-field helper does the bit reasoning for one field, and the
 * layout lemma assembles the 29 fields into a sequence.
 */
module Layouts {
  import opened Tokens
  import opened WordBits
  import opened TokenWords

  /** The empty word `TokenVec(0)`: no tokens, every field blank. */
  lemma ZeroLayout()
    ensures WellFormed(0) && Slots(0) == Blank(CAPACITY) && Decoded(0) == []
  {
    forall i | 0 <= i < CAPACITY
      ensures Field(0, i) == Code(Blank(CAPACITY)[i])
    {
      SlotOfLength(0, Idx(i));
    }
    SlotsAre(0, Blank(CAPACITY));
  }

  /** `set_len` rewrites the length field and nothing else. */
  lemma SetLenLayout(w: bv64, n: nat, x: bv64, r: bv64)
    requires CodesValid(w) && n <= CAPACITY && x == AsU64(n)
    requires r == (w & !LEN_MASK) | x
    ensures CodesValid(r) && Slots(r) == Slots(w) && Len(r) == n
  {
    IdxValue(n);
    forall j | 0 <= j < CAPACITY
      ensures Field(r, j) == Code(Slots(w)[j])
    {
      SlotSetLength(w, x, Idx(j));
      SlotsAt(w, j);
    }
    SlotsAre(r, Slots(w));
    SlotSetLength(w, x, 0);
    LenIs(r, n);
  }

  lemma SetFieldAt(w: bv64, i: nat, t: Token, c: bv64, s: bv8, r: bv64, j: nat)
    requires CodesValid(w) && i < CAPACITY && j < CAPACITY && c == Code(t) && s == ShiftFor(i)
    requires r == (w & !(3 << s)) | (c << s)
    ensures Field(r, j) == Code(Slots(w)[i := t][j])
  {
    if j == i {
      SetSlotSame(w, Idx(i), s, c);
    } else {
      IdxOrder(i, j);
      SetSlotOther(w, Idx(i), s, c, Idx(j));
      SlotsAt(w, j);
    }
  }

  lemma SetFields(w: bv64, i: nat, t: Token, c: bv64, s: bv8, r: bv64)
    requires CodesValid(w) && i < CAPACITY && c == Code(t) && s == ShiftFor(i)
    requires r == (w & !(3 << s)) | (c << s)
    ensures CodesValid(r) && Slots(r) == Slots(w)[i := t]
  {
    forall j | 0 <= j < CAPACITY
      ensures Field(r, j) == Code(Slots(w)[i := t][j])
    {
      SetFieldAt(w, i, t, c, s, r, j);
    }
    SlotsAre(r, Slots(w)[i := t]);
  }

  /** `set` rewrites field `i` and nothing else. */
  lemma SetLayout(w: bv64, i: nat, t: Token, c: bv64, s: bv8, r: bv64)
    requires CodesValid(w) && i < CAPACITY && c == Code(t) && s == ShiftFor(i)
    requires r == (w & !(3 << s)) | (c << s)
    ensures CodesValid(r) && Slots(r) == Slots(w)[i := t]
    ensures r & LEN_MASK == w & LEN_MASK
  {
    SetFields(w, i, t, c, s, r);
    SetSlotLength(w, Idx(i), s, c);
  }

  lemma PushFrontFieldFirst(w: bv64, c: bv64, r: bv64)
    requires CodesValid(w) && Len(w) < CAPACITY && c < 3
    requires r == ((w & !LEN_MASK) << 2) | (c << LEN_BITS) | ((w & LEN_MASK) + 1)
    ensures Field(r, 0) == c
  {
    LenIdx(w);
    SlotPushFront(w, c, Idx(0));
  }

  lemma PushFrontFieldAbove(w: bv64, c: bv64, r: bv64, j: nat)
    requires CodesValid(w) && Len(w) < CAPACITY && 0 < j < CAPACITY && c < 3
    requires r == ((w & !LEN_MASK) << 2) | (c << LEN_BITS) | ((w & LEN_MASK) + 1)
    ensures Field(r, j) == Field(w, j - 1)
  {
    LenIdx(w);
    SlotPushFront(w, c, Idx(j));
    IdxSucc(j - 1);
  }

  lemma PushFrontFieldAt(w: bv64, t: Token, c: bv64, r: bv64, j: nat)
    requires CodesValid(w) && Len(w) < CAPACITY && j < CAPACITY && c == Code(t)
    requires r == ((w & !LEN_MASK) << 2) | (c << LEN_BITS) | ((w & LEN_MASK) + 1)
    ensures Field(r, j) == Code(([t] + Slots(w)[..CAPACITY - 1])[j])
  {
    if j == 0 {
      PushFrontFieldFirst(w, c, r);
    } else {
      PushFrontFieldAbove(w, c, r, j);
      SlotsAt(w, j - 1);
    }
  }

  /** `push_front` moves every field up by one and puts the token in front. */
  lemma PushFrontLayout(w: bv64, t: Token, c: bv64, r: bv64)
    requires CodesValid(w) && Len(w) < CAPACITY && c == Code(t)
    requires r == ((w & !LEN_MASK) << 2) | (c << LEN_BITS) | ((w & LEN_MASK) + 1)
    ensures CodesValid(r) && Slots(r) == [t] + Slots(w)[..CAPACITY - 1]
    ensures Len(r) == Len(w) + 1
  {
    forall j | 0 <= j < CAPACITY
      ensures Field(r, j) == Code(([t] + Slots(w)[..CAPACITY - 1])[j])
    {
      PushFrontFieldAt(w, t, c, r, j);
    }
    SlotsAre(r, [t] + Slots(w)[..CAPACITY - 1]);
    LenIdx(w);
    SlotPushFront(w, c, 0);
    LenSucc(w);
  }

  /** `self.0 >>= 2` moves every field down by one; the last field becomes blank. */
  lemma ShiftDownLayout(w: bv64, r: bv64)
    requires CodesValid(w) && r == w >> 2
    ensures CodesValid(r) && Slots(r) == Slots(w)[1..] + [S]
  {
    var s := Slots(w)[1..] + [S];
    forall j | 0 <= j < CAPACITY
      ensures Field(r, j) == Code(s[j])
    {
      if j < CAPACITY - 1 {
        IdxSucc(j);
        SlotShiftDown(w, Idx(j), Idx(j + 1));
        SlotsAt(w, j + 1);
      } else {
        IdxValue(j);
        SlotShiftDownLast(w, Idx(j));
      }
    }
    SlotsAre(r, s);
  }

  /** Clearing the length field leaves the token fields. */
  lemma ClearLengthLayout(w: bv64, p: bv64)
    requires CodesValid(w) && p == w & !LEN_MASK
    ensures CodesValid(p) && Slots(p) == Slots(w) && p & LEN_MASK == 0
  {
    forall j | 0 <= j < CAPACITY
      ensures Field(p, j) == Code(Slots(w)[j])
    {
      SlotClearLength(w, Idx(j));
      SlotsAt(w, j);
    }
    SlotsAre(p, Slots(w));
    SlotClearLength(w, 0);
  }

  /** Writing a length into a cleared length field leaves the token fields. */
  lemma WithLengthLayout(d: bv64, x: bv64, r: bv64)
    requires CodesValid(d) && d & LEN_MASK == 0 && x <= LEN_MASK && r == d | x
    ensures CodesValid(r) && Slots(r) == Slots(d)
    ensures r & LEN_MASK == x && Len(r) == Len(x)
  {
    forall j | 0 <= j < CAPACITY
      ensures Field(r, j) == Code(Slots(d)[j])
    {
      SlotOfLength(x, Idx(j));
      SlotOrLeft(d, x, Idx(j));
      SlotsAt(d, j);
    }
    SlotsAre(r, Slots(d));
    LengthOfOr(d, x);
  }

  lemma KeepBelowFieldAt(w: bv64, k: nat, s: bv8, d: bv64, j: nat)
    requires CodesValid(w) && k < CAPACITY && j < CAPACITY && s == ShiftFor(k)
    requires d == (w & ((1 << s) - 1)) & !LEN_MASK
    ensures Field(d, j) == Code((Slots(w)[..k] + Blank(CAPACITY - k))[j])
  {
    IdxOrder(j, k);
    if j < k {
      KeepBelowKept(w, Idx(k), s, Idx(j));
      SlotsAt(w, j);
    } else {
      KeepBelowCleared(w, Idx(k), s, Idx(j));
    }
  }

  /** Keeping the bits below the field of token `k`, without the length field,
      keeps the first `k` tokens and blanks the rest. */
  lemma KeepBelowLayout(w: bv64, k: nat, s: bv8, d: bv64)
    requires CodesValid(w) && k < CAPACITY && s == ShiftFor(k)
    requires d == (w & ((1 << s) - 1)) & !LEN_MASK
    ensures CodesValid(d) && Slots(d) == Slots(w)[..k] + Blank(CAPACITY - k)
    ensures d & LEN_MASK == 0
  {
    forall j | 0 <= j < CAPACITY
      ensures Field(d, j) == Code((Slots(w)[..k] + Blank(CAPACITY - k))[j])
    {
      KeepBelowFieldAt(w, k, s, d, j);
    }
    SlotsAre(d, Slots(w)[..k] + Blank(CAPACITY - k));
    KeepBelowLength(w, Idx(k), s);
  }

  lemma ShiftUpFieldAt(p: bv64, k: nat, s: bv8, d: bv64, j: nat)
    requires CodesValid(p) && p & LEN_MASK == 0 && k <= CAPACITY && j < CAPACITY
    requires s == ShiftFor(k) && d == p << (s - LEN_BITS)
    ensures Field(d, j) == Code((Blank(k) + Slots(p)[..CAPACITY - k])[j])
  {
    IdxOrder(j, k);
    if j < k {
      ShiftUpBelow(p, Idx(k), s, Idx(j));
    } else {
      IdxAdd(k, j - k);
      ShiftUpAbove(p, Idx(k), s, Idx(j - k), Idx(j));
      SlotsAt(p, j - k);
    }
  }

  /** Moving the fields of a word with a clear length field up by `k`, a shift
      by `shift_for(k) - LEN_BITS`, blanks the first `k` fields and drops the
      last `k`. */
  lemma ShiftUpLayout(p: bv64, k: nat, s: bv8, d: bv64)
    requires CodesValid(p) && p & LEN_MASK == 0 && k <= CAPACITY
    requires s == ShiftFor(k) && d == p << (s - LEN_BITS)
    ensures CodesValid(d) && Slots(d) == Blank(k) + Slots(p)[..CAPACITY - k]
    ensures d & LEN_MASK == 0
  {
    forall j | 0 <= j < CAPACITY
      ensures Field(d, j) == Code((Blank(k) + Slots(p)[..CAPACITY - k])[j])
    {
      ShiftUpFieldAt(p, k, s, d, j);
    }
    SlotsAre(d, Blank(k) + Slots(p)[..CAPACITY - k]);
    ShiftUpLength(p, Idx(k), s);
  }

  lemma PlaceFieldAt(q: bv64, toks: seq<Token>, k: nat, s: bv8, y: bv64, j: nat)
    requires PacksAs(q, toks) && k < CAPACITY && k + |toks| <= CAPACITY && j < CAPACITY
    requires s == ShiftFor(k) && y == q << s
    ensures Field(y, j) == Code((Blank(k) + toks + Blank(CAPACITY - k - |toks|))[j])
  {
    IdxOrder(j, k);
    if j < k {
      PlaceBelow(q, Idx(k), s, Idx(j));
    } else {
      IdxAdd(k, j - k);
      PlaceAbove(q, Idx(k), s, Idx(j - k), Idx(j));
      assert PackedField(q, j - k) == if j - k < |toks| then Code(toks[j - k]) else 0;
    }
  }

  /** The packed tokens of `toks` shifted by `shift_for(k)` hold `toks` from
      field `k` on, and nothing else. */
  lemma PlaceLayout(q: bv64, toks: seq<Token>, k: nat, s: bv8, y: bv64)
    requires PacksAs(q, toks) && k < CAPACITY && k + |toks| <= CAPACITY
    requires s == ShiftFor(k) && y == q << s
    ensures CodesValid(y) && Slots(y) == Blank(k) + toks + Blank(CAPACITY - k - |toks|)
    ensures y & LEN_MASK == 0
  {
    forall j | 0 <= j < CAPACITY
      ensures Field(y, j) == Code((Blank(k) + toks + Blank(CAPACITY - k - |toks|))[j])
    {
      PlaceFieldAt(q, toks, k, s, y, j);
    }
    SlotsAre(y, Blank(k) + toks + Blank(CAPACITY - k - |toks|));
    PlaceLength(q, Idx(k), s);
  }

  /** The packed tokens of `toks` shifted past the length field hold `toks`
      from field 0 on. */
  lemma PlaceFirstLayout(q: bv64, toks: seq<Token>, y: bv64)
    requires PacksAs(q, toks) && y == q << LEN_BITS
    ensures CodesValid(y) && Slots(y) == toks + Blank(CAPACITY - |toks|)
    ensures y & LEN_MASK == 0
  {
    var s := toks + Blank(CAPACITY - |toks|);
    forall j | 0 <= j < CAPACITY
      ensures Field(y, j) == Code(s[j])
    {
      PlaceFirst(q, Idx(j));
      assert PackedField(q, j) == if j < |toks| then Code(toks[j]) else 0;
    }
    SlotsAre(y, s);
    PlaceFirst(q, 0);
  }

  lemma OrFieldAt(x: bv64, y: bv64, n: nat, j: nat)
    requires CodesValid(x) && CodesValid(y) && n <= CAPACITY && j < CAPACITY
    requires Slots(x)[n..] == Blank(CAPACITY - n)
    requires Slots(y)[..n] == Blank(n)
    ensures Field(x | y, j) == Code((Slots(x)[..n] + Slots(y)[n..])[j])
  {
    SlotsAt(x, j);
    SlotsAt(y, j);
    if j < n {
      assert Slots(y)[..n][j] == S;
      SlotOrLeft(x, y, Idx(j));
    } else {
      assert Slots(x)[n..][j - n] == S;
      SlotOrRight(x, y, Idx(j));
    }
  }

  /** OR-ing a word blank from field `n` on with a word blank below field `n`
      takes the first `n` fields of the one and the rest of the other. */
  lemma OrLayout(x: bv64, y: bv64, n: nat, r: bv64)
    requires CodesValid(x) && CodesValid(y) && n <= CAPACITY && r == x | y
    requires Slots(x)[n..] == Blank(CAPACITY - n)
    requires Slots(y)[..n] == Blank(n)
    ensures CodesValid(r) && Slots(r) == Slots(x)[..n] + Slots(y)[n..]
  {
    var s := Slots(x)[..n] + Slots(y)[n..];
    forall j | 0 <= j < CAPACITY
      ensures Field(r, j) == Code(s[j])
    {
      OrFieldAt(x, y, n, j);
    }
    SlotsAre(r, s);
  }

  // ---------------------------------------------------------------------------
  // `bits`: tokens packed two bits apart from bit 0

  /** No tokens pack into 0. */
  lemma PackEmpty()
    ensures PacksAs(0, [])
  {
    forall d | 0 <= d < CAPACITY
      ensures PackedField(0, d) == 0
    {
      PackedZero(Idx(d));
    }
  }

  lemma PackFieldBelow(q: bv64, toks: seq<Token>, c: bv64, e: bv8, m: bv64, r: bv64, d: nat)
    requires PacksAs(q, toks) && |toks| < CAPACITY && d < |toks|
    requires c < 3 && e == Double(Idx(|toks|)) && m == c << e && r == q | m
    ensures PackedField(r, d) == Code(toks[d])
  {
    PackedOfCode(c, Idx(|toks|), e, Idx(d));
    IdxOrder(|toks|, d);
    PackedOrLeft(q, m, Idx(d));
  }

  lemma PackFieldEnd(q: bv64, toks: seq<Token>, c: bv64, e: bv8, m: bv64, r: bv64)
    requires PacksAs(q, toks) && |toks| < CAPACITY
    requires c < 3 && e == Double(Idx(|toks|)) && m == c << e && r == q | m
    ensures PackedField(r, |toks|) == c
  {
    PackedOfCode(c, Idx(|toks|), e, Idx(|toks|));
    assert PackedField(q, |toks|) == 0;
    PackedOrRight(q, m, Idx(|toks|));
  }

  lemma PackFieldAbove(q: bv64, toks: seq<Token>, c: bv64, e: bv8, m: bv64, r: bv64, d: nat)
    requires PacksAs(q, toks) && |toks| < d < CAPACITY
    requires c < 3 && e == Double(Idx(|toks|)) && m == c << e && r == q | m
    ensures PackedField(r, d) == 0
  {
    PackedOfCode(c, Idx(|toks|), e, Idx(d));
    IdxOrder(|toks|, d);
    assert PackedField(q, d) == 0;
    PackedOrLeft(q, m, Idx(d));
  }

  /** One loop step of `bits`: OR-ing in the next code packs one more token. */
  lemma PackPush(q: bv64, toks: seq<Token>, t: Token, c: bv64, e: bv8, m: bv64, r: bv64)
    requires PacksAs(q, toks) && |toks| < CAPACITY
    requires c == Code(t) && e == Double(Idx(|toks|)) && m == c << e && r == q | m
    ensures PacksAs(r, toks + [t])
  {
    forall d | 0 <= d < CAPACITY
      ensures PackedField(r, d) == if d < |toks| + 1 then Code((toks + [t])[d]) else 0
    {
      if d < |toks| {
        PackFieldBelow(q, toks, c, e, m, r, d);
      } else if d == |toks| {
        PackFieldEnd(q, toks, c, e, m, r);
      } else {
        PackFieldAbove(q, toks, c, e, m, r, d);
      }
    }
  }

  // ---------------------------------------------------------------------------
  // The bulk operations, assembled
  //
  // Each lemma below takes every intermediate word of the source expression as
  // a parameter tied to it by a `requires`, so that the bit reasoning stays in
  // the layout lemmas above and these lemmas only put sequences together.

  /** OR-ing in, behind the tokens `front`, a word with a clear length field
      whose first `|front|` fields are blank. */
  lemma OrBehind(x: bv64, y: bv64, front: seq<Token>, back: seq<Token>)
    requires CodesValid(x) && CodesValid(y) && |front| + |back| == CAPACITY
    requires Slots(x) == front + Blank(|back|)
    requires Slots(y) == Blank(|front|) + back && y & LEN_MASK == 0
    ensures CodesValid(x | y) && Slots(x | y) == front + back
    ensures Len(x | y) == Len(x)
  {
    var k := |front|;
    assert Slots(x)[k..] == Blank(CAPACITY - k);
    assert Slots(y)[..k] == Blank(k);
    OrLayout(x, y, k, x | y);
    LengthOrLeft(x, y);
  }

  /** OR-ing in, in front of the tokens `back`, a word with a clear length field
      whose fields from `|front|` on are blank. */
  lemma OrInFront(x: bv64, y: bv64, front: seq<Token>, back: seq<Token>)
    requires CodesValid(x) && CodesValid(y) && |front| + |back| == CAPACITY
    requires Slots(x) == Blank(|front|) + back
    requires Slots(y) == front + Blank(|back|) && y & LEN_MASK == 0
    ensures CodesValid(x | y) && Slots(x | y) == front + back
    ensures Len(x | y) == Len(x)
  {
    var k := |front|;
    assert Slots(y)[k..] == Blank(CAPACITY - k);
    assert Slots(x)[..k] == Blank(k);
    OrLayout(y, x, k, y | x);
    OrCommutes(x, y);
    LengthOrLeft(x, y);
  }

  lemma OrCommutes(x: bv64, y: bv64)
    ensures x | y == y | x
  {
  }

  /** Taking past the whole of `a` from `a + b` takes from `b`. */
  lemma TakeBehind<X>(a: seq<X>, b: seq<X>, m: nat)
    requires m <= |b|
    ensures (a + b)[..|a| + m] == a + b[..m]
  {
  }

  /** Taking from a prefix takes from the whole. */
  lemma TakeTake<X>(a: seq<X>, i: nat, j: nat)
    requires j <= i <= |a|
    ensures a[..i][..j] == a[..j]
  {
  }

  /** Taking past `a` from `a` followed by a prefix of `b`. */
  lemma JoinTake<X>(a: seq<X>, b: seq<X>, n: nat, m: nat)
    requires m <= n <= |b|
    ensures (a + b[..n])[..|a| + m] == a + b[..m]
  {
    TakeBehind(a, b[..n], m);
    TakeTake(b, n, m);
  }

  /** Replacing the front `p` of `p + a[..k]` by `toks` of the same length,
      then taking past `toks`. */
  lemma FillFront<X>(s: seq<X>, p: seq<X>, toks: seq<X>, a: seq<X>, k: nat, m: nat)
    requires m <= k <= |a| && |p| == |toks| && s == p + a[..k]
    ensures s[..|p|] == p
    ensures (toks + s[|p|..])[..|toks| + m] == toks + a[..m]
  {
    assert s[|p|..] == a[..k];
    JoinTake(toks, a, k, m);
  }

  /** A sequence made of `a` then `b` starts with `a`, and splitting it after
      `a` leaves `b`. */
  lemma SplitAt<X>(s: seq<X>, a: seq<X>, b: seq<X>)
    requires s == a + b
    ensures s[..|a|] == a && s == s[..|a|] + b
  {
  }

  /** `toks` written over the blank front `p` of `s`, which holds `a` behind
      `p`: the first `|toks| + m` elements are `toks` and the first `m` of `a`. */
  lemma FrontFilled<X>(r: seq<X>, s: seq<X>, p: seq<X>, toks: seq<X>, a: seq<X>, m: nat)
    requires |p| == |toks| && m + |toks| <= |a| && s == p + a[..|a| - |toks|]
    requires r == toks + s[|toks|..]
    ensures r[..|toks| + m] == toks + a[..m]
  {
    FillFront(s, p, toks, a, |a| - |toks|, m);
  }

  /** Moving the first element of `c` to the end of `r`. */
  lemma ConsDrop<X>(r: seq<X>, c: seq<X>)
    requires |c| != 0
    ensures r + [c[0]] + c[1..] == r + c
  {
    assert [c[0]] + c[1..] == c;
  }

  /** A prefix of blank tokens is blank. */
  lemma BlankTake(k: nat, n: nat)
    requires n <= k
    ensures Blank(k)[..n] == Blank(n)
  {
  }

  /** Taking `n` of the blanks that pad `front`. */
  lemma PadTake(front: seq<Token>, k: nat, n: nat)
    requires n <= k
    ensures (front + Blank(k))[..|front| + n] == front + Blank(n)
  {
    TakeBehind(front, Blank(k), n);
    BlankTake(k, n);
  }

  /** Rewriting an element inside a prefix. */
  lemma UpdateTake<X>(a: seq<X>, n: nat, i: nat, x: X)
    requires i < n <= |a|
    ensures a[i := x][..n] == a[..n][i := x]
  {
  }

  /** Rewriting the element right behind a prefix and taking it along. */
  lemma TakeSetLast<X>(a: seq<X>, n: nat, x: X)
    requires n < |a|
    ensures a[..n + 1][n := x] == a[..n] + [x]
  {
  }

  /** Dropping the first element, padding at the end, and taking one fewer. */
  lemma DropTake<X>(a: seq<X>, x: X, n: nat)
    requires 1 <= n <= |a|
    ensures (a[1..] + [x])[..n - 1] == a[..n][1..]
  {
  }

  /** The part of `front + (toks + rest)` up to the end of `toks`. */
  lemma PrefixOf<X>(front: seq<X>, toks: seq<X>, rest: seq<X>)
    ensures (front + (toks + rest))[..|front| + |toks|] == front + toks
  {
  }

  /** `bits(toks) << LEN_BITS | toks.len()`, the word `From<&[Token]>` builds,
      holds exactly `toks`. */
  lemma FromSliceLayout(q: bv64, toks: seq<Token>, y: bv64, x: bv64, r: bv64)
    requires PacksAs(q, toks) && y == q << LEN_BITS && x == AsU64(|toks|) && r == y | x
    ensures WellFormed(r) && Decoded(r) == toks
  {
    PlaceFirstLayout(q, toks, y);
    IdxValue(|toks|);
    WithLengthLayout(y, x, r);
    LenIs(r, |toks|);
    PadTake(toks, CAPACITY - |toks|, 0);
  }

  /** `extend`, corrected to clear the old length field: the length grows by
      `n`, the first `k` fields are kept and every field from `k` on is blank. */
  lemma ExtendLayout(w: bv64, k: nat, n: nat, s: bv8, x: bv64, d: bv64, y: bv64, r: bv64)
    requires CodesValid(w) && k == Len(w) && n != 0 && k + n <= CAPACITY
    requires s == ShiftFor(k) && x == AsU64(n)
    requires d == (w & ((1 << s) - 1)) & !LEN_MASK
    requires y == (w & LEN_MASK) + x
    requires r == d | y
    ensures CodesValid(r) && Len(r) == k + n
    ensures Slots(r) == Slots(w)[..k] + Blank(CAPACITY - k)
  {
    KeepBelowLayout(w, k, s, d);
    LenAdd(w, n, x);
    WithLengthLayout(d, y, r);
  }

  /** `extend_front`, corrected to shift by `2 * n`: the length grows by `n`,
      every field moves up by `n`, and the `n` fields in front are blank. */
  lemma ExtendFrontLayout(w: bv64, k: nat, n: nat, s: bv8, x: bv64, p: bv64, d: bv64, y: bv64, r: bv64)
    requires CodesValid(w) && k == Len(w) && k + n <= CAPACITY
    requires s == ShiftFor(n) && x == AsU64(n)
    requires p == w & !LEN_MASK && d == p << (s - LEN_BITS)
    requires y == (w & LEN_MASK) + x
    requires r == d | y
    ensures CodesValid(r) && Len(r) == n + k
    ensures Slots(r) == Blank(n) + Slots(w)[..CAPACITY - n]
  {
    ClearLengthLayout(w, p);
    ShiftUpLayout(p, n, s, d);
    LenAdd(w, n, x);
    WithLengthLayout(d, y, r);
  }

  /** `concat` after `extend`: the fields of `o`, moved up past the tokens
      `front`, land right behind them; the length is the one `extend` wrote. */
  lemma ConcatLayout(x: bv64, o: bv64, front: seq<Token>, s: bv8, p: bv64, y: bv64, r: bv64)
    requires CodesValid(o) && CodesValid(x) && |front| < CAPACITY
    requires Slots(x) == front + Blank(CAPACITY - |front|)
    requires s == ShiftFor(|front|) && p == o & !LEN_MASK && y == p << (s - LEN_BITS)
    requires r == x | y
    ensures CodesValid(r) && Len(r) == Len(x)
    ensures Slots(r) == front + Slots(o)[..CAPACITY - |front|]
  {
    var k := |front|;
    ClearLengthLayout(o, p);
    ShiftUpLayout(p, k, s, y);
    OrBehind(x, y, front, Slots(o)[..CAPACITY - k]);
  }

  /** The packed tokens shifted by `shift_for(k)`, as a blank front followed
      by the fields behind it. */
  lemma PlaceBehindLayout(q: bv64, toks: seq<Token>, k: nat, s: bv8, y: bv64)
    requires PacksAs(q, toks) && k < CAPACITY && k + |toks| <= CAPACITY
    requires s == ShiftFor(k) && y == q << s
    ensures CodesValid(y) && y & LEN_MASK == 0
    ensures Slots(y) == Blank(k) + (toks + Blank(CAPACITY - k - |toks|))
  {
    PlaceLayout(q, toks, k, s, y);
    assert Blank(k) + toks + Blank(CAPACITY - k - |toks|)
        == Blank(k) + (toks + Blank(CAPACITY - k - |toks|));
  }

  /** `append` after `extend`: the packed tokens, moved up past the tokens
      `front`, land right behind them; the length is the one `extend` wrote. */
  lemma AppendLayout(x: bv64, q: bv64, toks: seq<Token>, front: seq<Token>, s: bv8, y: bv64, r: bv64)
    requires PacksAs(q, toks) && CodesValid(x) && |front| < CAPACITY && |front| + |toks| <= CAPACITY
    requires Slots(x) == front + Blank(CAPACITY - |front|)
    requires s == ShiftFor(|front|) && y == q << s
    requires r == x | y
    ensures CodesValid(r) && Len(r) == Len(x)
    ensures Slots(r) == front + (toks + Blank(CAPACITY - |front| - |toks|))
  {
    PlaceBehindLayout(q, toks, |front|, s, y);
    OrBehind(x, y, front, toks + Blank(CAPACITY - |front| - |toks|));
  }

  /** `append_front` after `extend_front`: the packed tokens fill the
      `|toks|` blank fields in front; the length is the one `extend_front`
      wrote. */
  lemma AppendFrontLayout(x: bv64, q: bv64, toks: seq<Token>, rest: seq<Token>, y: bv64, r: bv64)
    requires PacksAs(q, toks) && CodesValid(x) && |toks| + |rest| == CAPACITY
    requires Slots(x) == Blank(|toks|) + rest
    requires y == q << LEN_BITS
    requires r == x | y
    ensures CodesValid(r) && Len(r) == Len(x) && Slots(r) == toks + rest
  {
    PlaceFirstLayout(q, toks, y);
    OrInFront(x, y, toks, rest);
  }
}
