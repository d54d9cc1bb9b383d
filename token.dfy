/** The three-valued token alphabet of the Whitespace language and its 2-bit code. */
module Tokens {

  /** Space, Tab and Line feed. */
  datatype Token = S | T | L

  /** The conventional Some/None wrapper, used for iterator results. */
  datatype Option<+V> = None | Some(value: V)

  /** `tok as u64`: each token has its own 2-bit code, and the fourth pattern (3) is unused. */
  function Code(t: Token): (c: bv64)
    ensures c < 3
  {
    match t
    case S => 0
    case T => 1
    case L => 2
  }

  /** `Token::from_repr_unchecked`: only defined on the three codes a token can have. */
  function Decode(c: bv64): (t: Token)
    requires c < 3
    ensures Code(t) == c
  {
    if c == 0 then S else if c == 1 then T else L
  }

  /** Decoding undoes encoding, so two tokens with one code are the same token. */
  lemma DecodeCode(t: Token)
    ensures Decode(Code(t)) == t
  {
  }

  /** The token a bit becomes when bits are appended: `T` for a set bit, `S` for a clear one. */
  function BitToken(b: bool): (t: Token)
    ensures t != L
    ensures (t == T) == b
  {
    if b then T else S
  }

  /** The tokens of a bit slice, bit by bit, in bit order. */
  function BitTokens(bits: seq<bool>): (r: seq<Token>)
    ensures |r| == |bits|
    ensures forall k :: 0 <= k < |bits| ==> r[k] == BitToken(bits[k])
  {
    seq(|bits|, k requires 0 <= k < |bits| => BitToken(bits[k]))
  }

  /** The sequence read back to front. */
  function Reversed<X>(s: seq<X>): (r: seq<X>)
    ensures |r| == |s|
    ensures forall k :: 0 <= k < |s| ==> r[k] == s[|s| - 1 - k]
  {
    if s == [] then [] else Reversed(s[1..]) + [s[0]]
  }

  /** Reading `s + [x]` back to front starts with `x`. */
  lemma ReversedSnoc<X>(s: seq<X>, x: X)
    ensures Reversed(s + [x]) == [x] + Reversed(s)
  {
    var r := Reversed(s + [x]);
    assert r[0] == x;
    forall k | 1 <= k < |r|
      ensures r[k] == Reversed(s)[k - 1]
    {
    }
  }

  /** Appending the tokens of one more bit is pushing that bit's token. */
  lemma AppendBitStep(front: seq<Token>, bits: seq<bool>, i: nat)
    requires i < |bits|
    ensures front + BitTokens(bits[..i + 1]) == (front + BitTokens(bits[..i])) + [BitToken(bits[i])]
  {
    assert BitTokens(bits[..i + 1]) == BitTokens(bits[..i]) + [BitToken(bits[i])];
  }

  /** Prepending the reversed tokens of one more bit is pushing that bit's
      token in front. */
  lemma PrependBitStep(back: seq<Token>, bits: seq<bool>, i: nat)
    requires i < |bits|
    ensures Reversed(BitTokens(bits[..i + 1])) + back
            == [BitToken(bits[i])] + (Reversed(BitTokens(bits[..i])) + back)
  {
    assert BitTokens(bits[..i + 1]) == BitTokens(bits[..i]) + [BitToken(bits[i])];
    ReversedSnoc(BitTokens(bits[..i]), BitToken(bits[i]));
  }
}
