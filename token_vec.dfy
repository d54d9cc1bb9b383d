/**
 * `TokenVec`: up to 29 tokens packed into one 64-bit word, which every
 * mutating operation rewrites in place. The ghost `Contents()` is the sequence
 * of tokens the word stands for; each operation is specified by what it does
 * to that sequence. Each method reads the word into locals, computes the new
 * word as the source does, and writes it back once.
 */
module TokenVecs {
  import opened Tokens
  import opened WordBits
  import opened TokenWords
  import opened Layouts
  import opened WordOps

  class TokenVec {
    /** The packed word, `self.0`. */
    var word: bv64

    /** The length fits and every field holds a token's code. */
    ghost predicate Valid()
      reads this
    {
      WellFormed(word)
    }

    /** The tokens held, front to back. */
    ghost function Contents(): seq<Token>
      reads this
      requires Valid()
    {
      Decoded(word)
    }

    /** `new`: no tokens. */
    constructor ()
      ensures Valid() && Contents() == []
    {
      word := 0;
      ZeroLayout();
    }

    /** The tuple constructor `TokenVec(w)`, for a word some operation built. */
    constructor FromWord(w: bv64)
      requires WellFormed(w)
      ensures Valid() && word == w
    {
      word := w;
    }

    /** `From<&[Token]>` and `From<&[Token; N]>`: the packed tokens above the
        length field. Nothing checks the length: with 30 to 32 tokens the
        tokens from index 29 on fall off the top of the word and the length
        field reads past the capacity, and from 33 tokens on `bits` shifts a
        code by 64 bits. */
    constructor FromSlice(toks: seq<Token>)
      requires |toks| <= CAPACITY
      ensures Valid() && word == FromTokens(toks) && Contents() == toks
    {
      var bits := Bits(toks);
      var y := bits << LEN_BITS;
      var x := AsU64(|toks|);
      var r := y | x;
      FromTokensOf(toks, bits, y, x, r);
      word := r;
    }

    /** `bits`: token `i` at bit `2 * i`, for the tokens of a slice. */
    static method Bits(toks: seq<Token>) returns (bits: bv64)
      requires |toks| <= CAPACITY
      ensures bits == PackedBits(toks) && PacksAs(bits, toks)
    {
      bits := 0;
      var i := 0;
      while i < |toks|
        invariant 0 <= i <= |toks|
        invariant bits == PackedBits(toks[..i])
      {
        PackedBitsStep(toks, i);
        bits := OrCode(bits, toks[i], Double(Idx(i)));
        i := i + 1;
      }
      assert toks[..i] == toks;
    }

    /** `set_len`: rewrites the length field; every token field stays, so a
        length may grow over stale fields. The word need not have a valid
        length beforehand (`pop_front` calls it after shifting the length
        field away). */
    method SetLen(n: nat)
      requires CodesValid(word) && n <= CAPACITY
      modifies this
      ensures CodesValid(word) && Slots(word) == old(Slots(word)) && Len(word) == n
    {
      word := WithLength(word, n);
    }

    /** `set`: rewrites token `i` and nothing else. */
    method Set(i: nat, t: Token)
      requires Valid() && i < |Contents()|
      modifies this
      ensures Valid() && Contents() == old(Contents())[i := t]
      ensures Slots(word) == old(Slots(word))[i := t]
    {
      var w := word;
      word := WithToken(w, i, t);
      UpdateTake(Slots(w), Len(w), i, t);
    }

    /** `push`: one more token at the back. */
    method Push(t: Token)
      requires Valid() && |Contents()| < CAPACITY
      modifies this
      ensures Valid() && Contents() == old(Contents()) + [t]
    {
      ghost var w := word;
      var len := Len(word);
      SetLen(len + 1);
      Set(len, t);
      TakeSetLast(Slots(w), len, t);
    }

    /** `pop`: the last token, which leaves the vector; its field keeps the
        token's code. */
    method Pop() returns (t: Token)
      requires Valid() && |Contents()| != 0
      modifies this
      ensures Valid() && |old(Contents())| != 0
      ensures t == old(Contents())[|old(Contents())| - 1]
      ensures Contents() == old(Contents())[..|old(Contents())| - 1]
      ensures Slots(word) == old(Slots(word))
    {
      ghost var w := word;
      var len := Len(word) - 1;
      t := Get(word, len);
      SetLen(len);
      TakeTake(Slots(w), len + 1, len);
    }

    /** `push_front`: every token moves up one field and `t` goes in front. */
    method PushFront(t: Token)
      requires Valid() && |Contents()| < CAPACITY
      modifies this
      ensures Valid() && Contents() == [t] + old(Contents())
    {
      var w := word;
      word := PushedFront(w, t);
      JoinTake([t], Slots(w), CAPACITY - 1, Len(w));
    }

    /** `pop_front`: the first token, which leaves the vector; every other
        token moves down one field. */
    method PopFront() returns (t: Token)
      requires Valid() && |Contents()| != 0
      modifies this
      ensures Valid() && |old(Contents())| != 0
      ensures t == old(Contents())[0]
      ensures Contents() == old(Contents())[1..]
    {
      t := Get(word, 0);
      var len := Len(word);
      var w := word;
      word := ShiftedDown(w);
      SetLen(len - 1);
      DropTake(Slots(w), S, len);
    }

    /** `extend`, with the old length field cleared before the new length is
        written: `n` blank tokens at the back, and every field behind them
        blank too. `n` must not be 0, as the `debug_assert!(n != 0)` of
        `extend` demands; with `n == 0` a full vector would shift `1` by 64. */
    method Extend(n: nat)
      requires Valid() && n != 0 && |Contents()| + n <= CAPACITY
      modifies this
      ensures Valid() && Contents() == old(Contents()) + Blank(n)
      ensures Slots(word) == old(Contents()) + Blank(CAPACITY - |old(Contents())|)
    {
      var w := word;
      word := Extended(w, n);
      PadTake(Decoded(w), CAPACITY - Len(w), n);
    }

    /** `extend_front`, with the fields moved up by `2 * n` bits: `n` blank
        tokens in front. */
    method ExtendFront(n: nat)
      requires Valid() && |Contents()| + n <= CAPACITY
      modifies this
      ensures Valid() && Contents() == Blank(n) + old(Contents())
      ensures Slots(word) == Blank(n) + old(Slots(word))[..CAPACITY - n]
    {
      var w := word;
      word := ExtendedFront(w, n);
      JoinTake(Blank(n), Slots(w), CAPACITY - n, Len(w));
    }

    /** `concat`: the tokens of `other` at the back. `other` must not be
        empty, mirroring the `debug_assert!(n != 0)` of `extend`. */
    method Concat(other: TokenVec)
      requires Valid() && other.Valid() && other != this
      requires |other.Contents()| != 0 && |Contents()| + |other.Contents()| <= CAPACITY
      modifies this
      ensures Valid() && Contents() == old(Contents()) + other.Contents()
    {
      ghost var w := word;
      var k := Len(word);
      var o := other.word;
      Extend(Len(o));
      ConcatenatedOf(w, word, o, k);
      word := Concatenated(word, o, k);
    }

    /** `append`: the tokens of a non-empty slice at the back; the slice must
        not be empty, mirroring the `debug_assert!(n != 0)` of `extend`. */
    method Append(toks: seq<Token>)
      requires Valid() && |toks| != 0 && |Contents()| + |toks| <= CAPACITY
      modifies this
      ensures Valid() && Contents() == old(Contents()) + toks
    {
      var bits := Bits(toks);
      ghost var w := word;
      var k := Len(word);
      Extend(|toks|);
      AppendedOf(w, word, bits, toks, k);
      word := Appended(word, bits, toks, k);
    }

    /** `append_front`: the tokens of a slice in front. */
    method AppendFront(toks: seq<Token>)
      requires Valid() && |Contents()| + |toks| <= CAPACITY
      modifies this
      ensures Valid() && Contents() == toks + old(Contents())
    {
      var bits := Bits(toks);
      ghost var w := word;
      ExtendFront(|toks|);
      AppendedFrontOf(w, word, bits, toks);
      word := AppendedFront(word, bits, toks);
    }

    /** `append_bits`: one token per bit at the back, in bit order. */
    method AppendBits(bits: seq<bool>)
      requires Valid() && |Contents()| + |bits| <= CAPACITY
      modifies this
      ensures Valid() && Contents() == old(Contents()) + BitTokens(bits)
    {
      for i := 0 to |bits|
        invariant Valid() && Contents() == old(Contents()) + BitTokens(bits[..i])
      {
        Push(BitToken(bits[i]));
        AppendBitStep(old(Contents()), bits, i);
      }
      assert bits[..|bits|] == bits;
    }

    /** `append_bits_front`: one token per bit, each pushed in front, so the
        last bit ends up first. */
    method AppendBitsFront(bits: seq<bool>)
      requires Valid() && |Contents()| + |bits| <= CAPACITY
      modifies this
      ensures Valid() && Contents() == Reversed(BitTokens(bits)) + old(Contents())
    {
      for i := 0 to |bits|
        invariant Valid() && Contents() == Reversed(BitTokens(bits[..i])) + old(Contents())
      {
        PushFront(BitToken(bits[i]));
        PrependBitStep(old(Contents()), bits, i);
      }
      assert bits[..|bits|] == bits;
    }

    /** `Iterator::next`: takes the first token; on an empty vector it
        returns `None` and leaves the word as it is, so it keeps returning
        `None`. */
    method Next() returns (r: Option<Token>)
      requires Valid()
      modifies this
      ensures Valid()
      ensures old(Contents()) == [] ==> r == None && word == old(word)
      ensures old(Contents()) != [] ==> r == Some(old(Contents())[0]) && Contents() == old(Contents())[1..]
    {
      if !IsEmpty(word) {
        var t := PopFront();
        r := Some(t);
      } else {
        r := None;
      }
    }

    /** `DoubleEndedIterator::next_back`: takes the last token; on an empty
        vector it returns `None` and leaves the word as it is. */
    method NextBack() returns (r: Option<Token>)
      requires Valid()
      modifies this
      ensures Valid()
      ensures old(Contents()) == [] ==> r == None && word == old(word)
      ensures old(Contents()) != [] ==>
                r == Some(old(Contents())[|old(Contents())| - 1]) &&
                Contents() == old(Contents())[..|old(Contents())| - 1]
      ensures Slots(word) == old(Slots(word))
    {
      if !IsEmpty(word) {
        var t := Pop();
        r := Some(t);
      } else {
        r := None;
      }
    }

    /** `From<TokenVec> for Vec<Token>` and `for TokenSeq<Token>`: iterate a
        copy of the vector to exhaustion, collecting the tokens in order. */
    method ToSeq() returns (r: seq<Token>)
      requires Valid()
      ensures r == Contents()
    {
      ghost var all := Contents();
      var it := new TokenVec.FromWord(word);
      r := [];
      while true
        invariant fresh(it) && it.Valid() && r + it.Contents() == all
        decreases |it.Contents()|
      {
        ghost var rest := it.Contents();
        var next := it.Next();
        if next.None? {
          break;
        }
        ConsDrop(r, rest);
        r := r + [next.value];
      }
    }
  }

  /** `From<TokenSeq<Token>>`: pop the sequence from the back and push each
      token in front of an empty vector. */
  method FromTokenSeq(s: seq<Token>) returns (toks: TokenVec)
    requires |s| <= CAPACITY
    ensures fresh(toks) && toks.Valid() && toks.Contents() == s
  {
    var rest := s;
    toks := new TokenVec();
    while rest != []
      invariant toks.Valid() && fresh(toks)
      invariant rest + toks.Contents() == s
      decreases |rest|
    {
      var t := rest[|rest| - 1];
      rest := rest[..|rest| - 1];
      toks.PushFront(t);
    }
  }

  /** `From<&BitSlice>`: an empty vector with the bits appended. */
  method FromBits(bits: seq<bool>) returns (toks: TokenVec)
    requires |bits| <= CAPACITY
    ensures fresh(toks) && toks.Valid() && toks.Contents() == BitTokens(bits)
  {
    toks := new TokenVec();
    toks.AppendBits(bits);
  }

  /** Converting a `TokenSeq` to a `TokenVec` and back gives the same
      sequence. */
  method RoundTrip(s: seq<Token>) returns (r: seq<Token>)
    requires |s| <= CAPACITY
    ensures r == s
  {
    var toks := FromTokenSeq(s);
    r := toks.ToSeq();
  }
}
