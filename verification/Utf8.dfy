/**
  UTF-8 as Rust's `String::from_utf8_lossy` reads it: well-formed sequences are
  kept, and each maximal ill-formed piece becomes U+FFFD.
 */
module Utf8 {
  import opened Common

  /** A Unicode scalar value. */
  type Scalar = c: int | 0 <= c <= 0xD7FF || 0xE000 <= c <= 0x10FFFF

  const REPLACEMENT: seq<Byte> := [0xEF, 0xBF, 0xBD]

  /** The first piece of a byte string: how many bytes, and whether they are well formed. */
  datatype Piece = Piece(length: nat, ok: bool)

  predicate Continuation(b: Byte) {
    0x80 <= b <= 0xBF
  }

  /** Number of bytes announced by a first byte, 0 if it cannot start a sequence. */
  function Width(b: Byte): nat {
    if b < 0x80 then 1
    else if 0xC2 <= b <= 0xDF then 2
    else if 0xE0 <= b <= 0xEF then 3
    else if 0xF0 <= b <= 0xF4 then 4
    else 0
  }

  /** The second byte rules out overlong forms, surrogates and values above U+10FFFF. */
  predicate SecondOk(first: Byte, second: Byte) {
    match first
    case 0xE0 => 0xA0 <= second <= 0xBF
    case 0xED => 0x80 <= second <= 0x9F
    case 0xF0 => 0x90 <= second <= 0xBF
    case 0xF4 => 0x80 <= second <= 0x8F
    case _ => Continuation(second)
  }

  function First(s: seq<Byte>): (p: Piece)
    requires s != []
    ensures 1 <= p.length <= |s|
    ensures p.ok ==> p.length == Width(s[0])
  {
    var w := Width(s[0]);
    if w == 0 then Piece(1, false)
    else if w == 1 then Piece(1, true)
    else if |s| < 2 || !SecondOk(s[0], s[1]) then Piece(1, false)
    else if w == 2 then Piece(2, true)
    else if |s| < 3 || !Continuation(s[2]) then Piece(2, false)
    else if w == 3 then Piece(3, true)
    else if |s| < 4 || !Continuation(s[3]) then Piece(3, false)
    else Piece(4, true)
  }

  predicate Valid(s: seq<Byte>) {
    s == [] || (First(s).ok && Valid(s[First(s).length..]))
  }

  function Lossy(s: seq<Byte>): seq<Byte> {
    if s == [] then []
    else
      var p := First(s);
      (if p.ok then s[..p.length] else REPLACEMENT) + Lossy(s[p.length..])
  }

  lemma FirstOfPrefix(p: seq<Byte>, rest: seq<Byte>)
    requires p != [] && First(p) == Piece(|p|, true)
    ensures First(p + rest) == Piece(|p|, true)
  {}

  lemma ValidCons(p: seq<Byte>, rest: seq<Byte>)
    requires p != [] && First(p) == Piece(|p|, true) && Valid(rest)
    ensures Valid(p + rest)
  {
    FirstOfPrefix(p, rest);
    assert (p + rest)[|p|..] == rest;
  }

  lemma FirstAlone(s: seq<Byte>)
    requires s != [] && First(s).ok
    ensures First(s[..First(s).length]) == First(s)
  {}

  /** Keeping the first piece and replacing the rest by something valid is valid. */
  lemma ValidStep(s: seq<Byte>, rest: seq<Byte>)
    requires s != [] && First(s).ok && Valid(rest)
    ensures Valid(s[..First(s).length] + rest)
  {
    FirstAlone(s);
    ValidCons(s[..First(s).length], rest);
  }

  /** Lossy conversion always yields valid UTF-8. */
  lemma {:induction false} LossyIsValid(s: seq<Byte>)
    ensures Valid(Lossy(s))
    decreases |s|
  {
    if s != [] {
      var p := First(s);
      LossyIsValid(s[p.length..]);
      if p.ok {
        ValidStep(s, Lossy(s[p.length..]));
      } else {
        assert First(REPLACEMENT) == Piece(3, true);
        ValidCons(REPLACEMENT, Lossy(s[p.length..]));
      }
    }
  }

  lemma {:induction false} LossyKeepsValid(s: seq<Byte>)
    requires Valid(s)
    ensures Lossy(s) == s
    decreases |s|
  {
    if s != [] {
      LossyKeepsValid(s[First(s).length..]);
    }
  }

  /** Lossy conversion changes nothing exactly when the bytes are valid UTF-8. */
  lemma LossyFixpoint(s: seq<Byte>)
    ensures Lossy(s) == s <==> Valid(s)
  {
    LossyIsValid(s);
    if Valid(s) {
      LossyKeepsValid(s);
    }
  }

  lemma Glue(a: seq<Byte>, b: seq<Byte>)
    requires a != [] && First(a).ok && Valid(a[First(a).length..] + b)
    ensures Valid(a + b)
  {
    var n := First(a).length;
    ValidStep(a, a[n..] + b);
    assert a[..n] + (a[n..] + b) == a + b;
  }

  lemma {:induction false} ValidConcat(a: seq<Byte>, b: seq<Byte>)
    requires Valid(a) && Valid(b)
    ensures Valid(a + b)
    decreases |a|
  {
    if a == [] {
      assert a + b == b;
    } else {
      ValidConcat(a[First(a).length..], b);
      Glue(a, b);
    }
  }

  lemma {:induction false} AsciiValid(s: seq<Byte>)
    requires forall i | 0 <= i < |s| :: s[i] < 0x80
    ensures Valid(s)
  {
    if s != [] {
      AsciiValid(s[1..]);
    }
  }

  // ---------- scalars ----------

  function EncodeScalar(c: Scalar): (s: seq<Byte>)
    ensures 1 <= |s| <= 4
  {
    if c < 0x80 then [c]
    else if c < 0x800 then [0xC0 + c / 0x40, 0x80 + c % 0x40]
    else if c < 0x10000 then [0xE0 + c / 0x1000, 0x80 + c / 0x40 % 0x40, 0x80 + c % 0x40]
    else [0xF0 + c / 0x40000, 0x80 + c / 0x1000 % 0x40, 0x80 + c / 0x40 % 0x40, 0x80 + c % 0x40]
  }

  function Encode(text: seq<Scalar>): seq<Byte> {
    if text == [] then [] else EncodeScalar(text[0]) + Encode(text[1..])
  }

  /** The value spelled by one well-formed piece. */
  function ScalarOf(s: seq<Byte>): int {
    if |s| == 1 then s[0]
    else if |s| == 2 then (s[0] as int - 0xC0) * 0x40 + (s[1] as int - 0x80)
    else if |s| == 3 then (s[0] as int - 0xE0) * 0x1000 + (s[1] as int - 0x80) * 0x40 + (s[2] as int - 0x80)
    else if |s| == 4 then
      (s[0] as int - 0xF0) * 0x40000 + (s[1] as int - 0x80) * 0x1000 + (s[2] as int - 0x80) * 0x40 + (s[3] as int - 0x80)
    else 0
  }

  lemma ScalarInRange(s: seq<Byte>)
    requires s != [] && First(s) == Piece(|s|, true)
    ensures 0 <= ScalarOf(s) <= 0xD7FF || 0xE000 <= ScalarOf(s) <= 0x10FFFF
  {}

  /** Splitting a number into base-64 digits and putting it together again. */
  lemma Digits(c: nat)
    ensures c == c / 0x40 * 0x40 + c % 0x40
    ensures c == c / 0x1000 * 0x1000 + c / 0x40 % 0x40 * 0x40 + c % 0x40
    ensures c == c / 0x40000 * 0x40000 + c / 0x1000 % 0x40 * 0x1000 + c / 0x40 % 0x40 * 0x40 + c % 0x40
  {
    var q := c / 0x40;
    var r := q / 0x40;
    assert c / 0x1000 == r;
    assert c / 0x40000 == r / 0x40;
  }

  lemma LastDigit(q: nat, z: nat)
    requires z < 0x40
    ensures (q * 0x40 + z) / 0x40 == q && (q * 0x40 + z) % 0x40 == z
  {}

  lemma DivisionChains(c: nat)
    ensures c / 0x1000 == c / 0x40 / 0x40 && c / 0x40000 == c / 0x40 / 0x40 / 0x40
  {}

  lemma DigitsUnique(h: nat, x: nat, y: nat, z: nat)
    requires x < 0x40 && y < 0x40 && z < 0x40
    ensures var c := h * 0x40000 + x * 0x1000 + y * 0x40 + z;
      c / 0x40000 == h && c / 0x1000 == h * 0x40 + x && c / 0x1000 % 0x40 == x && c / 0x40 % 0x40 == y && c % 0x40 == z
  {
    var c := h * 0x40000 + x * 0x1000 + y * 0x40 + z;
    var q := h * 0x1000 + x * 0x40 + y;
    var r := h * 0x40 + x;
    LastDigit(q, z);
    LastDigit(r, y);
    LastDigit(h, x);
    DivisionChains(c);
  }

  lemma EncodeOfScalarOf(s: seq<Byte>, c: Scalar)
    requires s != [] && First(s) == Piece(|s|, true) && c == ScalarOf(s)
    ensures EncodeScalar(c) == s
  {
    if |s| == 2 {
      DigitsUnique(0, 0, s[0] as int - 0xC0, s[1] as int - 0x80);
    } else if |s| == 3 {
      DigitsUnique(0, s[0] as int - 0xE0, s[1] as int - 0x80, s[2] as int - 0x80);
    } else if |s| == 4 {
      DigitsUnique(s[0] as int - 0xF0, s[1] as int - 0x80, s[2] as int - 0x80, s[3] as int - 0x80);
    }
  }

  lemma ScalarOfEncode(c: Scalar)
    ensures ScalarOf(EncodeScalar(c)) == c
  {
    Digits(c);
  }

  function DecodeScalar(s: seq<Byte>): (c: Scalar)
    requires s != [] && First(s).ok
  {
    FirstAlone(s);
    ScalarInRange(s[..First(s).length]);
    ScalarOf(s[..First(s).length])
  }

  function Decode(s: seq<Byte>): seq<Scalar>
    requires Valid(s)
    decreases |s|
  {
    if s == [] then [] else [DecodeScalar(s)] + Decode(s[First(s).length..])
  }

  lemma EncodedScalarIsOnePiece(c: Scalar)
    ensures First(EncodeScalar(c)) == Piece(|EncodeScalar(c)|, true)
  {}

  /** Decoding inverts encoding, on every text. */
  lemma {:induction false} RoundTrip(text: seq<Scalar>)
    ensures Valid(Encode(text)) && Decode(Encode(text)) == text
  {
    if text != [] {
      var head, tail := EncodeScalar(text[0]), Encode(text[1..]);
      RoundTrip(text[1..]);
      EncodedScalarIsOnePiece(text[0]);
      ValidCons(head, tail);
      FirstOfPrefix(head, tail);
      assert (head + tail)[..|head|] == head && (head + tail)[|head|..] == tail;
      ScalarOfEncode(text[0]);
    }
  }

  /** Encoding inverts decoding, on every valid byte string. */
  lemma {:induction false} DecodeThenEncode(s: seq<Byte>)
    requires Valid(s)
    ensures Encode(Decode(s)) == s
    decreases |s|
  {
    if s != [] {
      DecodedScalarEncodes(s);
      DecodeThenEncode(s[First(s).length..]);
      EncodeCons(DecodeScalar(s), Decode(s[First(s).length..]));
    }
  }

  lemma DecodedScalarEncodes(s: seq<Byte>)
    requires s != [] && First(s).ok
    ensures EncodeScalar(DecodeScalar(s)) == s[..First(s).length]
  {
    FirstAlone(s);
    EncodeOfScalarOf(s[..First(s).length], DecodeScalar(s));
  }

  lemma EncodeCons(c: Scalar, rest: seq<Scalar>)
    ensures Encode([c] + rest) == EncodeScalar(c) + Encode(rest)
  {
    assert ([c] + rest)[1..] == rest;
  }
}
