/** The worker's incremental UTF-8 decoder (`decode_utf8_stream`, `flush_utf8_carry`).

Bytes arrive in arbitrary chunks. The decoder emits everything that is settled and carries
an incomplete trailing sequence over to the next chunk. The reference is `Lossy`, which
decodes all the bytes at once with maximal-subpart substitution (section 3.9 of the Unicode
Standard); `Encode` (section 3 of RFC 3629) is what both are measured against.
 */
module Utf8 {
  import opened Options

  type Byte = b: int | 0 <= b < 256
  type Bytes = seq<Byte>

  const REPLACEMENT: char := '\U{FFFD}'

  /** The encoding of one scalar value, six bits to a continuation byte. */
  function Encode(c: char): (bs: Bytes)
    ensures 1 <= |bs| <= 4
  {
    var v := c as int;
    if v < 0x80 then [v]
    else if v < 0x800 then [0xC0 + v / 64, 0x80 + v % 64]
    else if v < 0x10000 then [0xE0 + v / 64 / 64, 0x80 + v / 64 % 64, 0x80 + v % 64]
    else [0xF0 + v / 64 / 64 / 64, 0x80 + v / 64 / 64 % 64, 0x80 + v / 64 % 64, 0x80 + v % 64]
  }

  function EncodeAll(text: string): Bytes {
    if text == [] then [] else Encode(text[0]) + EncodeAll(text[1..])
  }

  /** What the validator of the Rust standard library finds at the front of a byte string. */
  datatype Head =
    | Valid(width: nat, scalar: char)
    | Invalid(width: nat)
    | Incomplete

  predicate Continuation(b: Byte) {
    0x80 <= b <= 0xBF
  }

  function Width(first: Byte): nat {
    if first < 0x80 then 1
    else if 0xC2 <= first <= 0xDF then 2
    else if 0xE0 <= first <= 0xEF then 3
    else if 0xF0 <= first <= 0xF4 then 4
    else 0
  }

  predicate SecondByte(first: Byte, second: Byte) {
    if first == 0xE0 then 0xA0 <= second <= 0xBF
    else if first == 0xED then 0x80 <= second <= 0x9F
    else if first == 0xF0 then 0x90 <= second <= 0xBF
    else if first == 0xF4 then 0x80 <= second <= 0x8F
    else Continuation(second)
  }

  function Push(bits: int, continuation: int): int {
    bits * 64 + (continuation - 0x80)
  }

  function Join2(a: int, b: int): int {
    Push(a - 0xC0, b)
  }

  function Join3(a: int, b: int, c: int): int {
    Push(Push(a - 0xE0, b), c)
  }

  function Join4(a: int, b: int, c: int, d: int): int {
    Push(Push(Push(a - 0xF0, b), c), d)
  }

  lemma PushSplits(bits: int, continuation: int)
    requires 0x80 <= continuation <= 0xBF
    ensures Push(bits, continuation) / 64 == bits
    ensures 0x80 + Push(bits, continuation) % 64 == continuation
  {
  }

  function HeadOf(bs: Bytes): (h: Head)
    requires bs != []
    ensures h.Valid? || h.Invalid? ==> 1 <= h.width <= |bs|
    ensures h.Incomplete? ==> |bs| <= 3
  {
    var w := Width(bs[0]);
    if w == 0 then Invalid(1)
    else if w == 1 then Valid(1, bs[0] as char)
    else if |bs| < 2 then Incomplete
    else if !SecondByte(bs[0], bs[1]) then Invalid(1)
    else if w == 2 then Valid(2, Join2(bs[0], bs[1]) as char)
    else if |bs| < 3 then Incomplete
    else if !Continuation(bs[2]) then Invalid(2)
    else if w == 3 then Valid(3, Join3(bs[0], bs[1], bs[2]) as char)
    else if |bs| < 4 then Incomplete
    else if !Continuation(bs[3]) then Invalid(3)
    else Valid(4, Join4(bs[0], bs[1], bs[2], bs[3]) as char)
  }

  // ----- The head of a byte string, stated against Encode -----

  ghost predicate PrefixOfEncoding(p: Bytes) {
    exists c: char :: p <= Encode(c)
  }

  lemma JoinSplits(a: int, b: int, c: int, d: int)
    requires 0x80 <= b <= 0xBF && 0x80 <= c <= 0xBF && 0x80 <= d <= 0xBF
    ensures var v := Join2(a, b); 0xC0 + v / 64 == a && 0x80 + v % 64 == b
    ensures var v := Join3(a, b, c); 0xE0 + v / 64 / 64 == a && 0x80 + v / 64 % 64 == b && 0x80 + v % 64 == c
    ensures var v := Join4(a, b, c, d);
            && 0xF0 + v / 64 / 64 / 64 == a && 0x80 + v / 64 / 64 % 64 == b
            && 0x80 + v / 64 % 64 == c && 0x80 + v % 64 == d
  {
    PushSplits(a - 0xC0, b);
    PushSplits(a - 0xE0, b);
    PushSplits(Push(a - 0xE0, b), c);
    PushSplits(a - 0xF0, b);
    PushSplits(Push(a - 0xF0, b), c);
    PushSplits(Push(Push(a - 0xF0, b), c), d);
  }

  /** The encoding of a valid front is that front. */
  lemma ValidHeadEncodes(bs: Bytes)
    requires bs != [] && HeadOf(bs).Valid?
    ensures Encode(HeadOf(bs).scalar) == bs[..HeadOf(bs).width]
  {
    match HeadOf(bs).width
    case 1 =>
    case 2 => JoinSplits(bs[0], bs[1], 0x80, 0x80);
    case 3 => JoinSplits(bs[0], bs[1], bs[2], 0x80);
    case _ => JoinSplits(bs[0], bs[1], bs[2], bs[3]);
  }

  lemma EncodingIsValidHead(bs: Bytes, c: char)
    requires Encode(c) <= bs
    ensures bs != [] && HeadOf(bs) == Valid(|Encode(c)|, c)
  {
    var e := Encode(c);
    assert forall i | 0 <= i < |e| :: bs[i] == e[i];
    EncodingJoins(c);
  }

  /** The bytes of an encoding obey the ranges of the table and join back to the scalar value. */
  lemma EncodingJoins(c: char)
    ensures var e := Encode(c);
            && Width(e[0]) == |e|
            && (|e| > 1 ==> SecondByte(e[0], e[1]))
            && (forall i | 2 <= i < |e| :: Continuation(e[i]))
            && c as int == if |e| == 1 then e[0]
                           else if |e| == 2 then Join2(e[0], e[1])
                           else if |e| == 3 then Join3(e[0], e[1], e[2])
                           else Join4(e[0], e[1], e[2], e[3])
  {
  }

  /** A front is valid exactly when it is the encoding of the scalar value reported. */
  lemma ValidHeadIsEncoding(bs: Bytes, c: char)
    requires bs != []
    ensures HeadOf(bs) == Valid(|Encode(c)|, c) <==> Encode(c) <= bs
  {
    if HeadOf(bs) == Valid(|Encode(c)|, c) { ValidHeadEncodes(bs); }
    if Encode(c) <= bs { EncodingIsValidHead(bs, c); }
  }

  /** `p` filled up with the least continuation bytes. */
  function Filled(p: Bytes): (r: Bytes)
    requires p != [] && HeadOf(p).Incomplete?
    ensures p < r && HeadOf(r).Valid? && HeadOf(r).width == |r|
  {
    var second := if p[0] == 0xE0 then 0xA0 else if p[0] == 0xF0 then 0x90 else 0x80;
    var w := Width(p[0]);
    if |p| == 1 then p + (if w == 2 then [second] else if w == 3 then [second, 0x80] else [second, 0x80, 0x80])
    else if |p| == 2 then p + (if w == 3 then [0x80] else [0x80, 0x80])
    else p + [0x80]
  }

  /** A scalar value whose encoding begins with `p`, when HeadOf calls `p` incomplete. */
  lemma Completion(p: Bytes) returns (c: char)
    requires p != [] && HeadOf(p).Incomplete?
    ensures p < Encode(c)
  {
    var r := Filled(p);
    c := HeadOf(r).scalar;
    ValidHeadEncodes(r);
  }

  /** A front is incomplete exactly when all the bytes are a proper part of some encoding. */
  lemma IncompleteHeadIsProperPrefix(bs: Bytes)
    requires bs != []
    ensures HeadOf(bs).Incomplete? <==> exists c: char :: bs < Encode(c)
  {
    if HeadOf(bs).Incomplete? {
      var c := Completion(bs);
      assert bs < Encode(c);
    }
    forall c: char | bs < Encode(c)
      ensures HeadOf(bs).Incomplete?
    {
      var e := Encode(c);
      EncodingJoins(c);
      assert forall i | 0 <= i < |bs| :: bs[i] == e[i];
    }
  }

  lemma StartsNoEncoding(bs: Bytes)
    requires bs != [] && Width(bs[0]) == 0
    ensures !PrefixOfEncoding(bs[..1]) && !PrefixOfEncoding(bs)
  {
    forall c: char
      ensures !(bs[..1] <= Encode(c)) && !(bs <= Encode(c))
    {
      assert Encode(c)[0] != bs[0] == bs[..1][0];
    }
  }

  /** An invalid front is a maximal subpart: it cannot be extended by the next byte, and it is
      either a proper part of some encoding or a single byte that starts none. */
  lemma InvalidHeadIsMaximalSubpart(bs: Bytes)
    requires bs != [] && HeadOf(bs).Invalid?
    ensures var n := HeadOf(bs).width;
            && (n < |bs| ==> !PrefixOfEncoding(bs[..n + 1]))
            && (PrefixOfEncoding(bs[..n]) || (n == 1 && !PrefixOfEncoding(bs[..1])))
            && (n == |bs| ==> !PrefixOfEncoding(bs))
  {
    var n := HeadOf(bs).width;
    if n < |bs| && PrefixOfEncoding(bs[..n + 1]) {
      var c: char :| bs[..n + 1] <= Encode(c);
      var e := Encode(c);
      assert forall i | 0 <= i < n + 1 :: bs[i] == bs[..n + 1][i] == e[i];
      assert false;
    }
    if Width(bs[0]) == 0 {
      StartsNoEncoding(bs);
    } else {
      assert HeadOf(bs[..n]).Incomplete?;
      var c := Completion(bs[..n]);
      assert bs[..n] <= Encode(c);
    }
  }

  /** A settled front does not change when more bytes follow. */
  lemma HeadIsStable(bs: Bytes, more: Bytes)
    requires bs != [] && !HeadOf(bs).Incomplete?
    ensures HeadOf(bs + more) == HeadOf(bs)
  {
  }

  // ----- Whole-string decoding -----

  /** `String::from_utf8_lossy`: each maximal ill-formed subpart becomes one U+FFFD. */
  function Lossy(bs: Bytes): string {
    if bs == [] then []
    else match HeadOf(bs)
      case Valid(n, c) => [c] + Lossy(bs[n..])
      case Invalid(n) => [REPLACEMENT] + Lossy(bs[n..])
      case Incomplete => [REPLACEMENT]
  }

  /** Decoding is the inverse of encoding, for every text. */
  lemma {:induction false} LossyInvertsEncode(text: string)
    ensures Lossy(EncodeAll(text)) == text
  {
    if text != [] {
      var e, rest := Encode(text[0]), EncodeAll(text[1..]);
      ValidHeadIsEncoding(e + rest, text[0]);
      assert (e + rest)[|e|..] == rest;
      LossyInvertsEncode(text[1..]);
    }
  }

  // ----- Incremental decoding -----

  /** The text settled by `bs`. */
  function Settled(bs: Bytes): string {
    if bs == [] then []
    else match HeadOf(bs)
      case Valid(n, c) => [c] + Settled(bs[n..])
      case Invalid(n) => [REPLACEMENT] + Settled(bs[n..])
      case Incomplete => []
  }

  /** The incomplete bytes at the end of `bs`: never more than three. */
  function Carry(bs: Bytes): (carry: Bytes)
    ensures |carry| <= 3
    ensures carry != [] ==> HeadOf(carry).Incomplete?
  {
    if bs == [] then []
    else match HeadOf(bs)
      case Valid(n, _) => Carry(bs[n..])
      case Invalid(n) => Carry(bs[n..])
      case Incomplete => bs
  }

  /** Nothing is lost or decoded twice at a chunk boundary. */
  lemma {:induction false} LossySplits(x: Bytes, y: Bytes)
    ensures Lossy(x + y) == Settled(x) + Lossy(Carry(x) + y)
  {
    if x == [] {
      assert x + y == y;
      assert Carry(x) + y == y;
    } else if !HeadOf(x).Incomplete? {
      var n := HeadOf(x).width;
      HeadIsStable(x, y);
      assert (x + y)[n..] == x[n..] + y;
      LossySplits(x[n..], y);
    }
  }

  function Flatten(chunks: seq<Bytes>): Bytes {
    if chunks == [] then [] else chunks[0] + Flatten(chunks[1..])
  }

  /** What the reader obtains: one `decode_utf8_stream` per chunk and `flush_utf8_carry` at the end. */
  function DecodeChunks(carry: Bytes, chunks: seq<Bytes>): string
    decreases |chunks|
  {
    if chunks == [] then Lossy(carry)
    else
      Settled(carry + chunks[0]) + DecodeChunks(Carry(carry + chunks[0]), chunks[1..])
  }

  /** However the bytes are cut into chunks, the text is that of all the bytes at once. */
  lemma {:induction false} ChunkingIsInvisible(carry: Bytes, chunks: seq<Bytes>)
    ensures DecodeChunks(carry, chunks) == Lossy(carry + Flatten(chunks))
    decreases |chunks|
  {
    if chunks == [] {
      assert carry + Flatten(chunks) == carry;
    } else {
      var joined := carry + chunks[0];
      ChunkingIsInvisible(Carry(joined), chunks[1..]);
      LossySplits(joined, Flatten(chunks[1..]));
      assert DecodeChunks(carry, chunks) == Settled(joined) + DecodeChunks(Carry(joined), chunks[1..]);
      assert joined + Flatten(chunks[1..]) == carry + Flatten(chunks);
    }
  }

  // ----- The decoder as the worker writes it -----

  /** `std::str::from_utf8`: the text up to the first error, and that error's length unless it
      is the unexpected end of the input. */
  datatype Validation =
    | Accepted(text: string)
    | Rejected(text: string, validUpTo: nat, errorLen: Option<nat>)

  function FromUtf8(bs: Bytes): (v: Validation)
    ensures v.Rejected? ==> v.validUpTo < |bs|
    ensures v.Rejected? ==> HeadOf(bs[v.validUpTo..]) ==
                            if v.errorLen.Some? then Invalid(v.errorLen.value) else Incomplete
  {
    hide HeadOf;
    if bs == [] then Accepted([])
    else match HeadOf(bs)
      case Valid(n, c) =>
        (match FromUtf8(bs[n..])
         case Accepted(text) => Accepted([c] + text)
         case Rejected(text, upTo, len) =>
           assert bs[n..][upTo..] == bs[n + upTo..];
           Rejected([c] + text, n + upTo, len))
      case Invalid(n) => Rejected([], 0, Some(n))
      case Incomplete => Rejected([], 0, None)
  }

  /** One round of the decoder's loop, in terms of Settle. */
  lemma {:induction false} SettleFollowsFromUtf8(bs: Bytes)
    ensures var v := FromUtf8(bs);
            if v.Accepted? then Settled(bs) == v.text && Carry(bs) == []
            else if v.errorLen.None? then Settled(bs) == v.text && Carry(bs) == bs[v.validUpTo..]
            else
              var next := v.validUpTo + v.errorLen.value;
              && next <= |bs|
              && Settled(bs) == v.text + [REPLACEMENT] + Settled(bs[next..])
              && Carry(bs) == Carry(bs[next..])
  {
    hide HeadOf;
    if bs == [] {
    } else if HeadOf(bs).Valid? {
      var n, c := HeadOf(bs).width, HeadOf(bs).scalar;
      SettleFollowsFromUtf8(bs[n..]);
      var v := FromUtf8(bs[n..]);
      if v.Rejected? {
        var upTo := v.validUpTo;
        if v.errorLen.None? {
          assert bs[n..][upTo..] == bs[n + upTo..];
        } else {
          var next := upTo + v.errorLen.value;
          assert bs[n..][next..] == bs[n + next..];
          var rest := Settled(bs[n + next..]);
          assert [c] + (v.text + [REPLACEMENT] + rest) == [c] + v.text + [REPLACEMENT] + rest;
        }
      }
    } else if HeadOf(bs).Invalid? {
      var rest := Settled(bs[HeadOf(bs).width..]);
      assert [] + [REPLACEMENT] + rest == [REPLACEMENT] + rest;
    }
  }

  /** Appends `data` to the carry and drains what is settled. */
  method DecodeStream(carry: Bytes, data: Bytes) returns (decoded: string, rest: Bytes)
    ensures decoded == Settled(carry + data)
    ensures rest == Carry(carry + data)
  {
    hide HeadOf, FromUtf8, Settled, Carry;
    var buffer := carry + data;
    decoded := [];
    var consumed := 0;
    ghost var text, left := Settled(buffer), Carry(buffer);
    assert buffer[0..] == buffer;
    while true
      invariant 0 <= consumed <= |buffer|
      invariant text == decoded + Settled(buffer[consumed..])
      invariant left == Carry(buffer[consumed..])
      decreases |buffer| - consumed
    {
      var v := FromUtf8(buffer[consumed..]);
      SettleFollowsFromUtf8(buffer[consumed..]);
      if v.Accepted? {
        decoded := decoded + v.text;
        consumed := |buffer|;
        break;
      }
      match v.errorLen {
        case Some(invalid) =>
          ghost var next := v.validUpTo + invalid;
          assert buffer[consumed..][next..] == buffer[consumed + next..];
          decoded := decoded + v.text + [REPLACEMENT];
          consumed := consumed + v.validUpTo + invalid;
        case None =>
          assert buffer[consumed..][v.validUpTo..] == buffer[consumed + v.validUpTo..];
          decoded := decoded + v.text;
          consumed := consumed + v.validUpTo;
          break;
      }
    }
    rest := buffer[consumed..];
  }

  /** `flush_utf8_carry`: the carry of a stream becomes at most one replacement character. */
  lemma FlushOfCarry(bs: Bytes)
    ensures Lossy(Carry(bs)) == if Carry(bs) == [] then [] else [REPLACEMENT]
    ensures Lossy(bs) == Settled(bs) + Lossy(Carry(bs))
  {
    LossySplits(bs, []);
    assert bs + [] == bs && Carry(bs) + [] == Carry(bs);
  }
}
