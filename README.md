# TokenVec: up to 29 Whitespace tokens in one 64-bit word

`TokenVec` (`src/ws/token/token_vec.rs`) is a bounded sequence of
Whitespace tokens (Space `S`, Tab `T`, Line feed `L`) kept in a single
`u64`:

- bits 0 to 5 hold the length (`LEN_BITS`, `LEN_MASK`);
- token `i` is the 2-bit field at bit `2 * i + 6` (`shift_for`);
- the capacity is 29, since `6 + 2 * 29 == 64`.

Every operation is shift-and-mask arithmetic on that word. This project
models the word as a `bv64` and gives each operation a contract about the
sequence of tokens the word stands for. The shifts, masks and ORs are the
source's own, with three exceptions, where the code as written does not do
what the rest of `TokenVec` relies on (see Findings):

- the corrected `extend` (`WordOps.Extended`) adds `& !LEN_MASK` to `data`,
  so the old length field is cleared before the new length is ORed in;
- the corrected `extend_front` (`WordOps.ExtendedFront`) shifts by
  `shift_for(n) - LEN_BITS`, that is `2 * n` bits, not by `shift_for(n)`;
- the corrected `eq` (`TokenWords.Eq`) masks both words below
  `shift_for(len)` and compares them, where the source shifts them left.

The code as written is modelled beside them, in `AsWritten`.

Modules, from the bottom up:

- `Tokens` (`token.dfy`): the `Token` datatype and its 2-bit code, the
  token a bit becomes, and sequence helpers (`Reversed`, `BitTokens`).
- `WordBits` (`word_bits.dfy`): facts about a field of a `bv64` word under
  each of the source's shifts and masks, stated over byte-sized machine
  indices.
- `TokenWords` (`token_word.dfy`): the meaning of a word.
  - `Len` is the length field.
  - `Slots` is all 29 fields decoded.
  - `Decoded` is the abstraction function: the first `Len` slots.
  - `WellFormed` is a length of at most 29 with every field holding a
    token's code.
  - It also holds the pure queries `get`, `is_empty`, `capacity`,
    `size_hint` and `eq`.
- `Layouts` (`layout.dfy`): one layout lemma per bit expression of the
  source. Each states what the expression does to every field and to the
  length field.
- `WordOps` (`word_ops.dfy`): each word the source writes, as a function
  of the old word, with what it does to the fields. Also `bits` and
  `From<&[Token]>`.
- `TokenVecs` (`token_vec.dfy`): the class `TokenVec`, whose field `word`
  every mutating method rewrites in place. The ghost `Contents()` is
  `Decoded(word)`. The conversions and the iterator's drain loop are here
  too.
- `AsWritten` (`as_written.dfy`): `extend`, `extend_front` and `eq`
  exactly as written, and `concat`, `append` and `append_front` built on
  them. Each comes with a concrete word on which it differs from the
  corrected version (see Findings).

`Token`'s representation is not part of this model: `get` decodes any 2-bit
field with `from_repr_unchecked`. So `Token` is a three-constructor
datatype with the distinct codes `S = 0`, `T = 1`, `L = 2`. The fourth
pattern, 3, is never written, and `CodesValid` keeps it out of every field.
Code 0 is `S`, so a blank field reads as `S`. The blank fields `extend` and
`extend_front` open therefore read as `S` tokens, and the model states them
as `Blank(n)`.

The `debug_assert!`s of the source, and the shift overflows its comments
warn about, are `requires` clauses.

## Model

| member | source | states |
|---|---|---|
| `Tokens.Decode` | src/ws/token/token_vec.rs:64 | Decoding a 2-bit field below 3 gives the token whose code it is. |
| `Tokens.BitTokens` | src/ws/token/token_vec.rs:96-97 | Each bit becomes one token in bit order: `T` for a set bit, `S` for a clear one. |
| `TokenWords.Len` | src/ws/token/token_vec.rs:125-128 | The length is the 6-bit length field, so it is below 64. |
| `TokenWords.Get` | src/ws/token/token_vec.rs:61-65 | For an occupied index `i`, `get` returns element `i` of the contents. |
| `TokenWords.IsEmpty` | src/ws/token/token_vec.rs:141-144 | `is_empty` holds exactly when the contents are the empty sequence. |
| `TokenWords.Capacity` | src/ws/token/token_vec.rs:136-139 | No well-formed word holds more tokens than the capacity, and the capacity fields exactly fill the 58 bits above the length field. |
| `TokenWords.SizeHint` | src/ws/token/token_vec.rs:232-235 | Both bounds of the hint are the number of tokens left. |
| `Tokens.Code` | src/ws/token/token_vec.rs:156 | The code `tok as u64` of every token fits a 2-bit field and is never 3; `Tokens.Decode` inverts it. |
| `TokenWords.ShiftForValue` | src/ws/token/token_vec.rs:146-149 | `shift_for(i)` is `2 * i + 6`, the bit offset of token `i` above the length field. |
| `TokenWords.Eq` | src/ws/token/token_vec.rs:267-275 | The corrected `eq` (a masked comparison) holds exactly when the two vectors hold the same tokens. |
| `TokenWords.EqMeansSameContents` | src/ws/token/token_vec.rs:272-273 | Words agreeing under the masks of their own lengths hold the same tokens, and the other way round. |
| `WordOps.PackedBits` | src/ws/token/token_vec.rs:151-160 | What `bits` returns packs token `i` at bit `2 * i` and leaves every packed field past the slice 0. |
| `WordOps.PackedBitsStep` | src/ws/token/token_vec.rs:155-157 | One more round of the `bits` loop packs one more token of the slice. |
| `WordOps.FromTokens` | src/ws/token/token_vec.rs:163-175 | The word built from a slice of at most 29 tokens is well formed and holds exactly those tokens. |
| `WordOps.WithLength` | src/ws/token/token_vec.rs:130-134 | `set_len` changes the length to `n` and keeps every token field, including the stale ones. |
| `WordOps.WithToken` | src/ws/token/token_vec.rs:67-72 | `set` replaces field `i` by the token's code, keeps every other field and keeps the length. |
| `WordOps.PushedFront` | src/ws/token/token_vec.rs:44-50 | `push_front` puts the token in field 0, moves every field up one and adds one to the length. |
| `WordOps.ShiftedDown` | src/ws/token/token_vec.rs:56 | The shift of `pop_front` moves every field down one, and a blank field enters at the top. |
| `WordOps.Extended` | src/ws/token/token_vec.rs:108-115 | The corrected `extend` adds `n` to the length, keeps the occupied fields and blanks every field behind them. |
| `WordOps.ExtendedFront` | src/ws/token/token_vec.rs:117-123 | The corrected `extend_front` adds `n` to the length and puts `n` blank fields in front of the old fields. |
| `WordOps.Concatenated` | src/ws/token/token_vec.rs:78 | The OR of `concat` places the fields of `other` right behind the first `k` fields and keeps the length. |
| `WordOps.Appended` | src/ws/token/token_vec.rs:85 | The OR of `append` places the packed slice right behind the first `k` fields and keeps the length. |
| `WordOps.AppendedFront` | src/ws/token/token_vec.rs:91 | The OR of `append_front` fills the blank front fields with the packed slice and keeps the length. |
| `WordOps.ConcatenatedOf` | src/ws/token/token_vec.rs:74-79 | the corrected `extend` then the OR of `concat` gives a well-formed word holding the old tokens followed by those of `other`. |
| `WordOps.AppendedOf` | src/ws/token/token_vec.rs:81-86 | the corrected `extend` then the OR of `append` gives a well-formed word holding the old tokens followed by the slice. |
| `WordOps.AppendedFrontOf` | src/ws/token/token_vec.rs:88-92 | the corrected `extend_front` then the OR of `append_front` gives a well-formed word holding the slice followed by the old tokens. |
| `WordOps.ExtendEmpty` | src/ws/token/token_vec.rs:108-123 | On the empty word, both the corrected `extend` and the corrected `extend_front` write only the new length. |
| `WordOps.AppendToEmpty` | src/ws/token/token_vec.rs:81-86 | On the empty word of `new()`, `append(toks)` built on the corrected `extend` writes exactly the word `From<&[Token]>` builds. |
| `WordOps.AppendFrontToEmpty` | src/ws/token/token_vec.rs:88-92 | On the empty word of `new()`, `append_front(toks)` built on the corrected `extend_front` writes exactly the word `From<&[Token]>` builds. |
| `TokenVecs.TokenVec.constructor` | src/ws/token/token_vec.rs:25-27 | `new` holds no tokens. |
| `TokenVecs.TokenVec.FromWord` | src/ws/token/token_vec.rs:21 | The tuple constructor wraps a well-formed word unchanged. |
| `TokenVecs.TokenVec.FromSlice` | src/ws/token/token_vec.rs:163-175 | A vector built from at most 29 tokens holds exactly those tokens, with that length. |
| `TokenVecs.TokenVec.Bits` | src/ws/token/token_vec.rs:151-160 | The `while` loop of `bits` returns the packed slice. |
| `TokenVecs.TokenVec.SetLen` | src/ws/token/token_vec.rs:130-134 | The length becomes `n` and every token field stays, including a word whose length field is garbled. |
| `TokenVecs.TokenVec.Set` | src/ws/token/token_vec.rs:67-72 | Element `i` becomes `t`, and the length, all other elements and all stale fields stay. |
| `TokenVecs.TokenVec.Push` | src/ws/token/token_vec.rs:29-34 | Below capacity, the contents gain `t` at the back. |
| `TokenVecs.TokenVec.Pop` | src/ws/token/token_vec.rs:36-42 | On a non-empty vector, returns the last token and drops it; every field, the popped token's included, keeps its code. |
| `TokenVecs.TokenVec.PushFront` | src/ws/token/token_vec.rs:44-50 | Below capacity, the contents gain `t` in front. |
| `TokenVecs.TokenVec.PopFront` | src/ws/token/token_vec.rs:52-59 | On a non-empty vector, returns the first token and drops it. |
| `TokenVecs.TokenVec.Extend` | src/ws/token/token_vec.rs:108-115 | The corrected `extend` adds `n` blank tokens at the back and leaves every field behind them blank. |
| `TokenVecs.TokenVec.ExtendFront` | src/ws/token/token_vec.rs:117-123 | The corrected `extend_front` adds `n` blank tokens in front. |
| `TokenVecs.TokenVec.Concat` | src/ws/token/token_vec.rs:74-79 | The contents become the old contents followed by those of the non-empty `other`. |
| `TokenVecs.TokenVec.Append` | src/ws/token/token_vec.rs:81-86 | The contents become the old contents followed by the non-empty slice. |
| `TokenVecs.TokenVec.AppendFront` | src/ws/token/token_vec.rs:88-92 | The contents become the slice followed by the old contents. |
| `TokenVecs.TokenVec.AppendBits` | src/ws/token/token_vec.rs:94-99 | The contents gain one token per bit at the back, in bit order. |
| `TokenVecs.TokenVec.AppendBitsFront` | src/ws/token/token_vec.rs:101-106 | The contents gain one token per bit in front, in reverse bit order. |
| `TokenVecs.TokenVec.Next` | src/ws/token/token_vec.rs:223-230 | Takes the first token. An empty vector gives `None` and keeps its word, so it keeps giving `None` (fused). |
| `TokenVecs.TokenVec.NextBack` | src/ws/token/token_vec.rs:239-246 | Takes the last token. An empty vector gives `None` and keeps its word. Every field keeps its code. |
| `TokenVecs.TokenVec.ToSeq` | src/ws/token/token_vec.rs:177-186 | Draining a copy of the vector collects exactly its contents, in order; the `TokenSeq` conversion at lines 200-209 is the same loop. |
| `TokenVecs.FromTokenSeq` | src/ws/token/token_vec.rs:188-198 | Popping a sequence from the back and pushing each token in front gives a vector holding the sequence, in order. |
| `TokenVecs.FromBits` | src/ws/token/token_vec.rs:211-218 | The vector built from a bit slice holds one token per bit, in bit order. |
| `TokenVecs.RoundTrip` | src/ws/token/token_vec.rs:188-209 | A sequence converted to a `TokenVec` and back is the same sequence. |
| `AsWritten.ExtendAsWritten` | src/ws/token/token_vec.rs:108-115 | `extend` as written: the token fields come out right, but the length field is the old length ORed with `len + n`. |
| `AsWritten.ExtendOneByOne` | src/ws/token/token_vec.rs:112-114 | One blank token extended by one reads as three tokens as written, and as two when corrected. |
| `AsWritten.ExtendFrontAsWritten` | src/ws/token/token_vec.rs:117-123 | `extend_front` as written: the length is right, but the old fields land three fields too far up or leave the word. |
| `AsWritten.ExtendFrontOneBeforeT` | src/ws/token/token_vec.rs:120 | `[T]` extended in front by one reads as `[S, S]` as written, and as `[S, T]` when corrected. Extended by none, it reads as `[S]`. |
| `AsWritten.ExtendAsWrittenOnEmpty` | src/ws/token/token_vec.rs:108-115 | On the empty word of `new()`, `extend` as written writes the same word as the corrected `extend`. |
| `AsWritten.ExtendFrontAsWrittenOnEmpty` | src/ws/token/token_vec.rs:117-123 | On the empty word of `new()`, `extend_front` as written writes the same word as the corrected `extend_front`, for `n` below 29. |
| `AsWritten.ConcatAsWritten` | src/ws/token/token_vec.rs:74-79 | `concat` as written: the tokens of `other` land right behind the old tokens, but the length is the garbled one `extend` as written leaves. |
| `AsWritten.AppendAsWritten` | src/ws/token/token_vec.rs:81-86 | `append` as written: the slice lands right behind the old tokens, but the length is the garbled one `extend` as written leaves. |
| `AsWritten.AppendFrontAsWritten` | src/ws/token/token_vec.rs:88-92 | `append_front` as written: the length is right, but behind the slice come blanks and then the old tokens, three fields too far up. |
| `AsWritten.AppendOneAfterS` | src/ws/token/token_vec.rs:81-86 | `[S]` with `[T]` appended is the word `0x103`, which reads as `[S, T, S]` as written, and as `[S, T]` when corrected. |
| `AsWritten.ConcatOneAfterS` | src/ws/token/token_vec.rs:74-79 | `[S]` concatenated with `[T]` is the word `0x103`, which reads as `[S, T, S]` as written, and as `[S, T]` when corrected. |
| `AsWritten.AppendFrontBeforeT` | src/ws/token/token_vec.rs:88-92 | `[T]` with `[S]` put in front is the word `0x4002`, which reads as `[S, S]` as written, and as `[S, T]` when corrected. With nothing put in front it is `0x1001`, which reads as `[S]`. |
| `AsWritten.AppendAsWrittenToEmpty` | src/ws/token/token_vec.rs:81-86 | On the empty word of `new()`, `append` as written writes exactly the word `From<&[Token]>` builds. |
| `AsWritten.AppendFrontAsWrittenToEmpty` | src/ws/token/token_vec.rs:88-92 | On the empty word of `new()`, `append_front` of fewer than 29 tokens as written writes exactly the word `From<&[Token]>` builds. |
| `AsWritten.EqAsWritten` | src/ws/token/token_vec.rs:267-275 | `eq` as written: both words shifted left by `shift_for` of their own length and compared; a word compares equal to itself. |
| `AsWritten.EqSeesPoppedToken` | src/ws/token/token_vec.rs:36-42 | `new()` and `new()` after `push(L); pop()` are both empty, yet `eq` as written says they differ. |
| `AsWritten.EqIgnoresLength` | src/ws/token/token_vec.rs:270-273 | The empty vector and 28 blanks compare equal as written. |
| `AsWritten.EqMissesHighFields` | src/ws/token/token_vec.rs:273 | Twenty blanks, and twenty blanks with a `T` at index 10, compare equal as written. |

## Left out

- The `Debug` impl (`src/ws/token/token_vec.rs:251-265`): formatter I/O, which depends on `Token`'s `Debug`, not part of this model.
- The `token_vec!` macro (`src/ws/token/token_vec.rs:277-288`): syntax over `From<&[Token; N]>`, which `TokenVecs.TokenVec.FromSlice` models.
- The derived `Clone`, `Copy`, `Default` (the word 0, as `new`), `Eq` and `Hash`, and the `const`-ness of the functions: compiler concerns with no behaviour of their own.
- `TokenSeq` is a `seq<Token>` with push and pop at the back, since its own code is not part of this model. A `BitSlice` of any store and order is a `seq<bool>` in iteration order.
- Release builds are not modelled. There the `debug_assert!`s vanish and over-wide shifts and underflows wrap. Every such assert and overflow is a `requires` instead.
- `TokenVecs.TokenVec.FromSlice`: requires at most 29 tokens. The source does not check this. With 30 to 32 tokens, the tokens from index 29 on fall off the top of the word and the length field reads 30 to 32, past the capacity. From 33 tokens on, `(toks[i] as u64) << (i * 2)` in `bits` (line 156) shifts by 64 bits, which panics in a debug build.
- `TokenWords.Eq`: requires both lengths below 29, where the source asserts it only of `self`. For `other`, `shift_for(29) == 64` overflows the shift, which panics in a debug build.
- `AsWritten.EqAsWritten`: its contract states only that a word equals itself. The three counterexample lemmas beside it state where it goes wrong.
- `AsWritten.ExtendFrontAsWritten`: requires `n < 29`, because `shift_for(29) == 64` overflows.
- `AsWritten.AppendFrontAsWritten`: requires fewer than 29 tokens for the same reason. As written, `append_front` of 29 tokens onto `new()` calls `extend_front(29)`, which shifts by `shift_for(29) == 64` at line 120 and panics in a debug build.
- `TokenVecs.TokenVec.AppendFront` and `WordOps.AppendFrontToEmpty`: accept 29 tokens, because they are built on the corrected `extend_front`, which shifts by `2 * n` bits. The source as written cannot take 29 tokens (see the line above).
- `TokenVecs.TokenVec.Concat`: built on the corrected `extend`; `AsWritten.ConcatAsWritten` is `concat` as written. It requires a non-empty `other`, mirroring the `debug_assert!(n != 0)` of `extend` at line 111; with `n == 0` a full vector would reach `1 << 64` at line 112. It also requires `other` to be a different object, which Rust's borrow rules guarantee for `&mut self` and `&other`.
- `TokenVecs.TokenVec.Append`: built on the corrected `extend`; `AsWritten.AppendAsWritten` is `append` as written. It requires a non-empty slice, mirroring the `debug_assert!(n != 0)` of `extend` at line 111; with `n == 0` a full vector would reach `1 << 64` at line 112.
- `TokenVecs.TokenVec.AppendFront`: built on the corrected `extend_front`; `AsWritten.AppendFrontAsWritten` is `append_front` as written.
- The token codes `S = 0`, `T = 1`, `L = 2` are an assumption, because the definition of `Token` is not part of this model. Three things depend on it: a blank field reads as `S`, `CodesValid` rules out the code 3, and the words chosen for `AsWritten.EqSeesPoppedToken` and `AsWritten.EqMissesHighFields` hold the codes of `L` and `T`.
- `TokenVecs.TokenVec.Extend` and `TokenVecs.TokenVec.ExtendFront`: these are the corrected operations. `concat`, `append` and `append_front` are modelled on them, and the code as written is in `AsWritten` (see Findings).
- The `Vec::with_capacity` hint of the `Vec` conversion has no observable effect and is not modelled.

## Findings

| source | as written | input that shows it | evidently intended | confidence | as-written member | corrected member |
|---|---|---|---|---|---|---|
| src/ws/token/token_vec.rs:112-114 | `data` keeps the old length bits, so ORing `len` into it ORs the old length into the new one | one blank token (word `1`), `extend(1)`: the word becomes `3`, which reads as three tokens | clear the old length field of `data` before ORing in `len`, giving word `2`, two tokens | not executed | `AsWritten.ExtendOneByOne` | `WordOps.Extended` |
| src/ws/token/token_vec.rs:120 | the fields move up by `shift_for(n) == 2 * n + 6` bits, counting the length field a second time | `[T]` (word `0x41`), `extend_front(1)`: the word becomes `0x4002`, which reads as `[S, S]` with the `T` in field 4 | move up by `2 * n` bits: `[S, T]` | not executed | `AsWritten.ExtendFrontOneBeforeT` | `WordOps.ExtendedFront` |
| src/ws/token/token_vec.rs:74-86 | `concat` and `append` call `extend`, so they inherit its garbled length | `[S]` (word `1`) with `append(&[T])` or `concat` of `[T]` (word `0x41`): the word becomes `0x103`, which reads as `[S, T, S]` | `[S, T]`, from the corrected `extend` | not executed | `AsWritten.AppendOneAfterS` | `WordOps.AppendedOf` |
| src/ws/token/token_vec.rs:88-92 | `append_front` calls `extend_front`, so it inherits its misplaced fields | `[T]` (word `0x41`) with `append_front(&[S])`: the word becomes `0x4002`, which reads as `[S, S]`; `append_front(&[])` gives `0x1001`, which reads as `[S]` | `[S, T]` and `[T]`, from the corrected `extend_front` | not executed | `AsWritten.AppendFrontBeforeT` | `WordOps.AppendedFrontOf` |
| src/ws/token/token_vec.rs:273 | both words shifted left by `shift_for(len)`: this drops the top fields instead of the unused ones and keeps the length field | `new()` against `new()` after `push(L); pop()` (words `0` and `0x80`): unequal. `0` against 28 blanks (word `28`): equal | equal exactly when the lengths and the occupied fields agree: mask both words below `shift_for(len)` | not executed | `AsWritten.EqSeesPoppedToken` | `TokenWords.Eq` |
