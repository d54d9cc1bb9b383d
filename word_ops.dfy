/**
 * The word each `TokenVec` operation writes, as a pure function of the old
 * word: the source's bit expressions, each with what it does to the 29
 * fields and to the length field.
 */
module WordOps {
  import opened Tokens
  import opened WordBits
  import opened TokenWords
  import opened Layouts

  /** One round of the `bits` loop: `bits | (t as u64) << e`, with `e` the
      shift `i * 2` of token `i`. */
  function OrCode(q: bv64, t: Token, e: bv8): bv64
    requires e < 64
  {
    q | (Code(t) << e)
  }

  lemma OrCodeIs(q: bv64, t: Token, e: bv8, c: bv64, m: bv64)
    requires e < 64 && c == Code(t) && m == c << e
    ensures OrCode(q, t, e) == q | m
  {
  }

  /** What `bits` accumulates: the code of `toks[i]` at bit `2 * i`, ORed in
      from the first token to the last. */
  function PackedBits(toks: seq<Token>): (q: bv64)
    requires |toks| <= CAPACITY
    ensures PacksAs(q, toks)
    decreases |toks|
  {
    if toks == [] then
      PackEmpty();
      0
    else
      var n := |toks| - 1;
      var q := PackedBits(toks[..n]);
      var e := Double(Idx(n));
      var c := Code(toks[n]);
      var m := c << e;
      var r := OrCode(q, toks[n], e);
      OrCodeIs(q, toks[n], e, c, m);
      PackPush(q, toks[..n], toks[n], c, e, m, r);
      assert toks[..n] + [toks[n]] == toks;
      r
  }

  /** One more round of the `bits` loop packs one more token. */
  lemma PackedBitsStep(toks: seq<Token>, i: nat)
    requires i < |toks| <= CAPACITY
    ensures OrCode(PackedBits(toks[..i]), toks[i], Double(Idx(i))) == PackedBits(toks[..i + 1])
  {
    assert toks[..i + 1][..i] == toks[..i];
  }

  /** The word `From<&[Token]>` builds from the result of `bits`. */
  lemma FromTokensOf(toks: seq<Token>, q: bv64, y: bv64, x: bv64, r: bv64)
    requires |toks| <= CAPACITY && q == PackedBits(toks)
    requires y == q << LEN_BITS && x == AsU64(|toks|) && r == y | x
    ensures r == FromTokens(toks)
  {
  }

  /** `From<&[Token]>` and `From<&[Token; N]>`: the packed tokens above the
      length field, and the count in it. */
  function FromTokens(toks: seq<Token>): (r: bv64)
    requires |toks| <= CAPACITY
    ensures WellFormed(r) && Decoded(r) == toks
  {
    var q := PackedBits(toks);
    var y := q << LEN_BITS;
    var x := AsU64(|toks|);
    var r := y | x;
    FromSliceLayout(q, toks, y, x, r);
    r
  }

  /** `set_len`: the length field replaced, every token field kept. */
  function WithLength(w: bv64, n: nat): (r: bv64)
    requires CodesValid(w) && n <= CAPACITY
    ensures CodesValid(r) && Slots(r) == Slots(w) && Len(r) == n
  {
    var x := AsU64(n);
    var r := (w & !LEN_MASK) | x;
    SetLenLayout(w, n, x, r);
    r
  }

  /** `set`: field `i` replaced by the code of `t`, the rest kept. */
  function WithToken(w: bv64, i: nat, t: Token): (r: bv64)
    requires WellFormed(w) && i < Len(w)
    ensures WellFormed(r) && Len(r) == Len(w) && Slots(r) == Slots(w)[i := t]
  {
    var shift := ShiftFor(i);
    var c := Code(t);
    var r := (w & !(3 << shift)) | (c << shift);
    SetLayout(w, i, t, c, shift, r);
    r
  }

  /** `push_front`: every field moved up one, `t` in field 0, the length
      one more. The field that leaves the word is the last one. */
  function PushedFront(w: bv64, t: Token): (r: bv64)
    requires CodesValid(w) && Len(w) < CAPACITY
    ensures CodesValid(r) && Len(r) == Len(w) + 1
    ensures Slots(r) == [t] + Slots(w)[..CAPACITY - 1]
  {
    var c := Code(t);
    var data := (w & !LEN_MASK) << 2;
    var len := (w & LEN_MASK) + 1;
    var r := data | (c << LEN_BITS) | len;
    PushFrontLayout(w, t, c, r);
    r
  }

  /** The `>>= 2` of `pop_front`: every field moved down one, a blank field
      on top. The length field is left garbled until `set_len` rewrites it. */
  function ShiftedDown(w: bv64): (r: bv64)
    requires CodesValid(w)
    ensures CodesValid(r) && Slots(r) == Slots(w)[1..] + [S]
  {
    var r := w >> 2;
    ShiftDownLayout(w, r);
    r
  }

  /** `extend`, with the old length cleared: `n` more tokens, every field
      from the old length on blank. */
  function Extended(w: bv64, n: nat): (r: bv64)
    requires CodesValid(w) && n != 0 && Len(w) + n <= CAPACITY
    ensures CodesValid(r) && Len(r) == Len(w) + n
    ensures Slots(r) == Slots(w)[..Len(w)] + Blank(CAPACITY - Len(w))
  {
    var k := Len(w);
    var shift := ShiftFor(k);
    var x := AsU64(n);
    var data := (w & ((1 << shift) - 1)) & !LEN_MASK;
    var len := (w & LEN_MASK) + x;
    var r := data | len;
    ExtendLayout(w, k, n, shift, x, data, len, r);
    r
  }

  /** `extend_front`, with the fields moved up by `2 * n` bits: `n` blank
      fields in front, `n` more tokens. */
  function ExtendedFront(w: bv64, n: nat): (r: bv64)
    requires CodesValid(w) && Len(w) + n <= CAPACITY
    ensures CodesValid(r) && Len(r) == n + Len(w)
    ensures Slots(r) == Blank(n) + Slots(w)[..CAPACITY - n]
  {
    var k := Len(w);
    var shift := ShiftFor(n);
    var x := AsU64(n);
    var p := w & !LEN_MASK;
    var data := p << (shift - LEN_BITS);
    var len := (w & LEN_MASK) + x;
    var r := data | len;
    ExtendFrontLayout(w, k, n, shift, x, p, data, len, r);
    r
  }

  /** The `|=` of `concat`: the fields of `o` moved up behind the first `k`
      fields of `x`, whose fields from `k` on are blank. */
  function Concatenated(x: bv64, o: bv64, k: nat): (r: bv64)
    requires CodesValid(x) && CodesValid(o) && k < CAPACITY
    requires Slots(x) == Slots(x)[..k] + Blank(CAPACITY - k)
    ensures CodesValid(r) && Len(r) == Len(x)
    ensures Slots(r) == Slots(x)[..k] + Slots(o)[..CAPACITY - k]
  {
    var shift := ShiftFor(k);
    var p := o & !LEN_MASK;
    var y := p << (shift - LEN_BITS);
    var r := x | y;
    ConcatLayout(x, o, Slots(x)[..k], shift, p, y, r);
    r
  }

  /** The `|=` of `append`: the packed `toks` moved up behind the first `k`
      fields of `x`, whose fields from `k` on are blank. */
  function Appended(x: bv64, bits: bv64, toks: seq<Token>, k: nat): (r: bv64)
    requires PacksAs(bits, toks) && CodesValid(x) && k < CAPACITY && k + |toks| <= CAPACITY
    requires Slots(x) == Slots(x)[..k] + Blank(CAPACITY - k)
    ensures CodesValid(r) && Len(r) == Len(x)
    ensures Slots(r) == Slots(x)[..k] + (toks + Blank(CAPACITY - k - |toks|))
  {
    var shift := ShiftFor(k);
    var y := bits << shift;
    var r := x | y;
    AppendLayout(x, bits, toks, Slots(x)[..k], shift, y, r);
    r
  }

  /** The `|=` of `append_front`: the packed `toks` in the first fields of
      `x`, which are blank. */
  function AppendedFront(x: bv64, bits: bv64, toks: seq<Token>): (r: bv64)
    requires PacksAs(bits, toks) && CodesValid(x)
    requires Slots(x)[..|toks|] == Blank(|toks|)
    ensures CodesValid(r) && Len(r) == Len(x)
    ensures Slots(r) == toks + Slots(x)[|toks|..]
  {
    var y := bits << LEN_BITS;
    var r := x | y;
    assert Slots(x) == Slots(x)[..|toks|] + Slots(x)[|toks|..];
    AppendFrontLayout(x, bits, toks, Slots(x)[|toks|..], y, r);
    r
  }

  /** The word `concat` writes holds the tokens of `w` followed by those of
      `o`. */
  lemma ConcatenatedTokens(w: bv64, o: bv64, r: bv64)
    requires WellFormed(w) && WellFormed(o) && Len(w) + Len(o) <= CAPACITY
    requires CodesValid(r) && Len(r) == Len(w) + Len(o)
    requires Slots(r) == Decoded(w) + Slots(o)[..CAPACITY - Len(w)]
    ensures WellFormed(r) && Decoded(r) == Decoded(w) + Decoded(o)
  {
    JoinTake(Decoded(w), Slots(o), CAPACITY - Len(w), Len(o));
  }

  /** The word `append` writes holds the tokens of `w` followed by `toks`. */
  lemma AppendedTokens(w: bv64, toks: seq<Token>, r: bv64)
    requires WellFormed(w) && Len(w) + |toks| <= CAPACITY
    requires CodesValid(r) && Len(r) == Len(w) + |toks|
    requires Slots(r) == Decoded(w) + (toks + Blank(CAPACITY - Len(w) - |toks|))
    ensures WellFormed(r) && Decoded(r) == Decoded(w) + toks
  {
    PrefixOf(Decoded(w), toks, Blank(CAPACITY - Len(w) - |toks|));
  }

  /** The word `append_front` writes, from the word `x` that
      `extend_front(toks.len())` made of `w`, holds `toks` followed by the
      tokens of `w`. */
  lemma AppendedFrontTokens(w: bv64, x: bv64, toks: seq<Token>, r: bv64)
    requires WellFormed(w) && Len(w) + |toks| <= CAPACITY
    requires CodesValid(x) && Slots(x) == Blank(|toks|) + Slots(w)[..CAPACITY - |toks|]
    requires CodesValid(r) && Len(r) == |toks| + Len(w)
    requires Slots(r) == toks + Slots(x)[|toks|..]
    ensures WellFormed(r) && Decoded(r) == toks + Decoded(w)
  {
    FrontFilled(Slots(r), Slots(x), Blank(|toks|), toks, Slots(w), Len(w));
  }

  /** `concat` after `extend(o.len())` of a word `w` holding `k` tokens. */
  lemma ConcatenatedOf(w: bv64, x: bv64, o: bv64, k: nat)
    requires WellFormed(w) && WellFormed(o) && k == Len(w) && Len(o) != 0 && k + Len(o) <= CAPACITY
    requires CodesValid(x) && Len(x) == k + Len(o)
    requires Slots(x) == Decoded(w) + Blank(CAPACITY - k)
    ensures k < CAPACITY && Slots(x) == Slots(x)[..k] + Blank(CAPACITY - k)
    ensures WellFormed(Concatenated(x, o, k))
    ensures Decoded(Concatenated(x, o, k)) == Decoded(w) + Decoded(o)
  {
    SplitAt(Slots(x), Decoded(w), Blank(CAPACITY - k));
    ConcatenatedTokens(w, o, Concatenated(x, o, k));
  }

  /** `append` after `extend(toks.len())` of a word `w` holding `k` tokens. */
  lemma AppendedOf(w: bv64, x: bv64, bits: bv64, toks: seq<Token>, k: nat)
    requires WellFormed(w) && k == Len(w) && |toks| != 0 && k + |toks| <= CAPACITY
    requires PacksAs(bits, toks) && CodesValid(x) && Len(x) == k + |toks|
    requires Slots(x) == Decoded(w) + Blank(CAPACITY - k)
    ensures k < CAPACITY && Slots(x) == Slots(x)[..k] + Blank(CAPACITY - k)
    ensures WellFormed(Appended(x, bits, toks, k))
    ensures Decoded(Appended(x, bits, toks, k)) == Decoded(w) + toks
  {
    SplitAt(Slots(x), Decoded(w), Blank(CAPACITY - k));
    AppendedTokens(w, toks, Appended(x, bits, toks, k));
  }

  /** `append_front` after `extend_front(toks.len())` of a word `w`. */
  lemma AppendedFrontOf(w: bv64, x: bv64, bits: bv64, toks: seq<Token>)
    requires WellFormed(w) && Len(w) + |toks| <= CAPACITY && PacksAs(bits, toks)
    requires CodesValid(x) && Len(x) == |toks| + Len(w)
    requires Slots(x) == Blank(|toks|) + Slots(w)[..CAPACITY - |toks|]
    ensures Slots(x)[..|toks|] == Blank(|toks|)
    ensures WellFormed(AppendedFront(x, bits, toks))
    ensures Decoded(AppendedFront(x, bits, toks)) == toks + Decoded(w)
  {
    SplitAt(Slots(x), Blank(|toks|), Slots(w)[..CAPACITY - |toks|]);
    AppendedFrontTokens(w, x, toks, AppendedFront(x, bits, toks));
  }

  /** `extend` and `extend_front` of the empty word `new()` builds write
      only the new length. */
  lemma ExtendEmpty(n: nat, x: bv64)
    requires 0 < n <= CAPACITY && x == AsU64(n)
    ensures WellFormed(0) && Len(0) == 0
    ensures Extended(0, n) == x && ExtendedFront(0, n) == x
  {
    ZeroLayout();
  }

  /** `append` of `toks` behind no tokens, onto a word holding only the
      length `toks.len()`, builds the word of `From<&[Token]>`. */
  lemma AppendedAtFront(x: bv64, q: bv64, toks: seq<Token>)
    requires 0 < |toks| <= CAPACITY && x == AsU64(|toks|) && q == PackedBits(toks)
    requires CodesValid(x) && Slots(x) == Slots(x)[..0] + Blank(CAPACITY)
    ensures Appended(x, q, toks, 0) == FromTokens(toks)
  {
    IdxValue(0);
    assert ShiftFor(0) == LEN_BITS;
    var y := q << LEN_BITS;
    FromTokensOf(toks, q, y, x, y | x);
    OrCommutes(x, y);
  }

  /** On the empty word `new()` builds, `append(toks)` writes the same word
      as `From<&[Token]>`. */
  lemma AppendToEmpty(toks: seq<Token>)
    requires 0 < |toks| <= CAPACITY
    ensures WellFormed(0) && Len(0) == 0
    ensures Appended(Extended(0, |toks|), PackedBits(toks), toks, 0) == FromTokens(toks)
  {
    var x := AsU64(|toks|);
    ExtendEmpty(|toks|, x);
    AppendedAtFront(x, PackedBits(toks), toks);
  }

  /** On the empty word `new()` builds, `append_front(toks)` writes the same
      word as `From<&[Token]>`. */
  lemma AppendFrontToEmpty(toks: seq<Token>)
    requires 0 < |toks| <= CAPACITY
    ensures WellFormed(0) && Len(0) == 0
    ensures AppendedFront(ExtendedFront(0, |toks|), PackedBits(toks), toks) == FromTokens(toks)
  {
    var x := AsU64(|toks|);
    ExtendEmpty(|toks|, x);
    var q := PackedBits(toks);
    var y := q << LEN_BITS;
    FromTokensOf(toks, q, y, x, y | x);
    OrCommutes(x, y);
  }
}
