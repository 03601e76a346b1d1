/**
  The OSC 7 scanner of CwdTracker (term.rs): a byte-at-a-time state machine that
  picks `ESC ] 7 ; url (BEL | ESC \)` out of the terminal output and turns the
  url into the current working directory.
 */
module Osc7 {
  import opened Common
  import Utf8

  const ESC: Byte := 0x1B
  const BEL: Byte := 0x07
  const BACKSLASH: Byte := 0x5C
  const SLASH: Byte := 0x2F
  const COLON: Byte := 0x3A
  const PERCENT: Byte := 0x25

  /** ESC ] 7 ; */
  const OPEN: seq<Byte> := [ESC, 0x5D, 0x37, 0x3B]

  /** file:// */
  const FILE: seq<Byte> := [0x66, 0x69, 0x6C, 0x65, 0x3A, 0x2F, 0x2F]

  const LIMIT := 4096

  // ---------- percent decoding ----------

  function HexValue(b: Byte): Option<nat> {
    if 0x30 <= b <= 0x39 then Some(b - 0x30)
    else if 0x41 <= b <= 0x46 then Some(b - 0x37)
    else if 0x61 <= b <= 0x66 then Some(b - 0x57)
    else None
  }

  /** s starts with %XX. */
  predicate Triplet(s: seq<Byte>) {
    |s| >= 3 && s[0] == PERCENT && HexValue(s[1]).Some? && HexValue(s[2]).Some?
  }

  function TripletValue(s: seq<Byte>): Byte
    requires Triplet(s)
  {
    16 * HexValue(s[1]).value + HexValue(s[2]).value
  }

  function PercentDecode(s: seq<Byte>): seq<Byte> {
    if s == [] then []
    else if Triplet(s) then [TripletValue(s)] + PercentDecode(s[3..])
    else [s[0]] + PercentDecode(s[1..])
  }

  lemma DecodeAt(bytes: seq<Byte>, i: nat)
    requires i < |bytes|
    ensures PercentDecode(bytes[i..]) ==
            if Triplet(bytes[i..]) then [TripletValue(bytes[i..])] + PercentDecode(bytes[i + 3..])
            else [bytes[i]] + PercentDecode(bytes[i + 1..])
  {
    assert bytes[i..][1..] == bytes[i + 1..];
    assert Triplet(bytes[i..]) ==> bytes[i..][3..] == bytes[i + 3..];
  }

  lemma Reassociate(a: seq<Byte>, b: Byte, c: seq<Byte>)
    ensures a + [b] + c == a + ([b] + c)
  {}

  method DecodePercents(bytes: seq<Byte>) returns (out: seq<Byte>)
    ensures out == PercentDecode(bytes)
  {
    out := [];
    var i := 0;
    while i < |bytes|
      invariant 0 <= i <= |bytes|
      invariant out + PercentDecode(bytes[i..]) == PercentDecode(bytes)
    {
      DecodeAt(bytes, i);
      ghost var before := out;
      if bytes[i] == PERCENT && i + 2 < |bytes| {
        var hi, lo := HexValue(bytes[i + 1]), HexValue(bytes[i + 2]);
        if hi.Some? && lo.Some? {
          assert Triplet(bytes[i..]) && TripletValue(bytes[i..]) == 16 * hi.value + lo.value;
          out := out + [16 * hi.value + lo.value];
          i := i + 3;
          Reassociate(before, out[|before|], PercentDecode(bytes[i..]));
          continue;
        }
      }
      assert !Triplet(bytes[i..]);
      out := out + [bytes[i]];
      i := i + 1;
      Reassociate(before, out[|before|], PercentDecode(bytes[i..]));
    }
  }

  /** Number of positions at which a %XX begins. */
  function Triplets(s: seq<Byte>): nat {
    if s == [] then 0 else (if Triplet(s) then 1 else 0) + Triplets(s[1..])
  }

  /**
    Every %XX of the input is decoded, two bytes shorter each, and everything else
    is kept: the output equals the input exactly when it holds no %XX at all.
   */
  lemma {:induction false} DecodedLength(s: seq<Byte>)
    ensures |PercentDecode(s)| + 2 * Triplets(s) == |s|
    ensures PercentDecode(s) == s <==> Triplets(s) == 0
  {
    if s != [] {
      if Triplet(s) {
        var s1, s2 := s[1..], s[2..];
        assert s1[1..] == s2 && s2[1..] == s[3..];
        assert s1[0] == s[1] && s2[0] == s[2];
        assert Triplets(s1) == Triplets(s2) == Triplets(s[3..]);
        DecodedLength(s[3..]);
      } else {
        DecodedLength(s[1..]);
      }
    }
  }

  /** Bytes an encoder may leave alone: ASCII, except % and the two that end the sequence. */
  predicate Literal(b: Byte) {
    b < 0x80 && b != PERCENT && b != BEL && b != ESC
  }

  /** e is some percent-encoding of p (section 2.1 of RFC 3986), with either case of hex digits. */
  predicate Encodes(e: seq<Byte>, p: seq<Byte>) {
    if p == [] then e == []
    else
      || (e != [] && Literal(p[0]) && e[0] == p[0] && Encodes(e[1..], p[1..]))
      || (Triplet(e) && TripletValue(e) == p[0] && Encodes(e[3..], p[1..]))
  }

  lemma {:induction false} DecodeInvertsEncoding(e: seq<Byte>, p: seq<Byte>)
    requires Encodes(e, p)
    ensures PercentDecode(e) == p
    decreases |p|
  {
    if p != [] {
      if Triplet(e) {
        DecodeInvertsEncoding(e[3..], p[1..]);
      } else {
        DecodeInvertsEncoding(e[1..], p[1..]);
      }
    }
  }

  predicate Clean(s: seq<Byte>) {
    forall i | 0 <= i < |s| :: s[i] != BEL && s[i] != ESC
  }

  lemma {:induction false} EncodingIsPlain(e: seq<Byte>, p: seq<Byte>)
    requires Encodes(e, p)
    ensures forall i | 0 <= i < |e| :: e[i] < 0x80 && e[i] != BEL && e[i] != ESC
    decreases |p|
  {
    if p != [] {
      if Triplet(e) {
        EncodingIsPlain(e[3..], p[1..]);
        assert forall i | 3 <= i < |e| :: e[i] == e[3..][i - 3];
      } else {
        EncodingIsPlain(e[1..], p[1..]);
        assert forall i | 1 <= i < |e| :: e[i] == e[1..][i - 1];
      }
    }
  }

  /** The unreserved characters of RFC 3986, and the separator of path segments. */
  predicate Kept(b: Byte) {
    || 0x30 <= b <= 0x39 || 0x41 <= b <= 0x5A || 0x61 <= b <= 0x7A
    || b == 0x2D || b == 0x2E || b == 0x5F || b == 0x7E || b == SLASH
  }

  function HexDigit(n: nat): Byte
    requires n < 16
  {
    if n < 10 then 0x30 + n else 0x37 + n
  }

  function PercentEncode(p: seq<Byte>): seq<Byte> {
    if p == [] then []
    else (if Kept(p[0]) then [p[0]] else [PERCENT, HexDigit(p[0] / 16), HexDigit(p[0] % 16)]) + PercentEncode(p[1..])
  }

  /** The hex digits of RFC 3986 in either case are read as their values, and nothing else is. */
  lemma HexDigitsRead(n: nat, b: Byte)
    requires n < 16
    ensures HexDigit(n) == "0123456789ABCDEF"[n] as int
    ensures HexValue("0123456789ABCDEF"[n] as int) == HexValue("0123456789abcdef"[n] as int) == Some(n)
    ensures HexValue(b).Some? ==> b as char in "0123456789ABCDEFabcdef"
  {
    if HexValue(b).Some? {
      var i := if b < 0x40 then b - 0x30 else if b < 0x60 then b - 0x37 else b - 0x57 + 6;
      assert "0123456789ABCDEFabcdef"[i] == b as char;
    }
  }

  /** The fixed parts of a sequence. */
  lemma FixedParts()
    ensures FILE == Ascii("file://") && OPEN == [0x1B] + Ascii("]7;") && LIMIT == 4096
  {
    assert Ascii("file://")[0] == 'f' as int;
  }

  lemma {:induction false} PercentEncodeEncodes(p: seq<Byte>)
    ensures Encodes(PercentEncode(p), p)
    ensures p != [] && p[0] == SLASH ==> PercentEncode(p)[0] == SLASH
  {
    if p != [] {
      PercentEncodeEncodes(p[1..]);
      var e := PercentEncode(p);
      if Kept(p[0]) {
        assert e[1..] == PercentEncode(p[1..]);
      } else {
        assert e[3..] == PercentEncode(p[1..]);
        assert Triplet(e) && TripletValue(e) == p[0];
      }
    }
  }

  // ---------- from url to directory ----------

  /** Position of the first slash, or the length if there is none. */
  function FirstSlash(s: seq<Byte>): (n: nat)
    ensures n <= |s|
  {
    if s == [] || s[0] == SLASH then 0 else 1 + FirstSlash(s[1..])
  }

  function PathOf(url: seq<Byte>): seq<Byte> {
    if FILE <= url then
      var rest := url[|FILE|..];
      if FirstSlash(rest) < |rest| then rest[FirstSlash(rest)..] else rest
    else url
  }

  /** /C:/x becomes C:/x. */
  function Normalise(path: seq<Byte>): seq<Byte> {
    if |path| >= 3 && path[0] == SLASH && path[2] == COLON then path[1..] else path
  }

  function CwdOf(payload: seq<Byte>): seq<Byte> {
    Normalise(Utf8.Lossy(PercentDecode(PathOf(Utf8.Lossy(payload)))))
  }

  // ---------- the scanner ----------

  datatype Scanner = Scanner(state: nat, buf: seq<Byte>, cwd: seq<Byte>)

  const START := Scanner(0, [], [])

  function Step(sc: Scanner, b: Byte): Scanner {
    match sc.state
    case 0 => if b == ESC then sc.(state := 1) else sc
    case 1 => sc.(state := if b == 0x5D then 2 else if b == ESC then 1 else 0)
    case 2 => sc.(state := if b == 0x37 then 3 else 0)
    case 3 => if b == 0x3B then sc.(state := 4, buf := []) else sc.(state := 0)
    case 4 =>
      if b == BEL || b == ESC then
        Scanner(if b == ESC then 1 else 0, [], CwdOf(sc.buf))
      else if |sc.buf| + 1 > LIMIT then sc.(state := 0, buf := [])
      else sc.(buf := sc.buf + [b])
    case _ => sc.(state := 0)
  }

  function Scan(sc: Scanner, input: seq<Byte>): Scanner {
    if input == [] then sc else Step(Scan(sc, input[..|input| - 1]), input[|input| - 1])
  }

  /** The part of the terminal host that keeps the working directory. */
  class CwdTracker {
    var osc7State: nat
    var osc7Buf: seq<Byte>
    var currentCwd: seq<Byte>

    function Abs(): Scanner
      reads this
    {
      Scanner(osc7State, osc7Buf, currentCwd)
    }

    constructor ()
      ensures Abs() == START
    {
      osc7State, osc7Buf, currentCwd := 0, [], [];
    }

    method HandleOsc7Url(url: seq<Byte>)
      modifies this`currentCwd
      ensures currentCwd == Normalise(Utf8.Lossy(PercentDecode(PathOf(url))))
    {
      var path := url;
      if FILE <= url {
        var rest := url[|FILE|..];
        var idx := FirstSlash(rest);
        path := if idx < |rest| then rest[idx..] else rest;
      }
      var out := DecodePercents(path);
      var decoded := Utf8.Lossy(out);
      if |decoded| >= 3 && decoded[0] == SLASH && decoded[2] == COLON {
        currentCwd := decoded[1..];
      } else {
        currentCwd := decoded;
      }
    }

    method ScanOsc7(b: Byte)
      modifies this
      ensures Abs() == Step(old(Abs()), b)
    {
      match osc7State
      case 0 => if b == ESC { osc7State := 1; }
      case 1 => osc7State := if b == 0x5D then 2 else if b == ESC then 1 else 0;
      case 2 => osc7State := if b == 0x37 then 3 else 0;
      case 3 =>
        if b == 0x3B {
          osc7State := 4;
          osc7Buf := [];
        } else {
          osc7State := 0;
        }
      case 4 =>
        if b == BEL || b == ESC {
          var url := Utf8.Lossy(osc7Buf);
          osc7Buf := [];
          osc7State := if b == ESC then 1 else 0;
          HandleOsc7Url(url);
        } else {
          osc7Buf := osc7Buf + [b];
          if |osc7Buf| > LIMIT {
            osc7Buf := [];
            osc7State := 0;
          }
        }
      case _ => osc7State := 0;
    }

    /** The scanner's share of `advance`; the same bytes then go to the emulator. */
    method Advance(bytes: seq<Byte>)
      modifies this
      ensures Abs() == Scan(old(Abs()), bytes)
    {
      for i := 0 to |bytes|
        invariant Abs() == Scan(old(Abs()), bytes[..i])
      {
        ScanOsc7(bytes[i]);
        assert bytes[..i + 1][..|bytes[..i + 1]| - 1] == bytes[..i];
      }
      assert bytes[..|bytes|] == bytes;
    }
  }

  lemma ScanSnoc(sc: Scanner, input: seq<Byte>, b: Byte)
    ensures Scan(sc, input + [b]) == Step(Scan(sc, input), b)
  {
    assert (input + [b])[..|input + [b]| - 1] == input;
  }

  /** Cutting the output into chunks makes no difference. */
  lemma {:induction false} Chunking(sc: Scanner, a: seq<Byte>, b: seq<Byte>)
    ensures Scan(sc, a + b) == Scan(Scan(sc, a), b)
    decreases |b|
  {
    if b == [] {
      assert a + b == a;
    } else {
      var init, last := b[..|b| - 1], b[|b| - 1];
      Chunking(sc, a, init);
      assert a + b == (a + init) + [last];
      ScanSnoc(sc, a + init, last);
    }
  }

  // ---------- what is recognised ----------

  predicate Terminator(b: Byte) {
    b == BEL || b == ESC
  }

  /** The byte at j makes the scanner hand over its buffer. */
  predicate RecognisesNow(input: seq<Byte>, j: nat) {
    j < |input| && Terminator(input[j]) && Scan(START, input[..j]).state == 4
  }

  /** The byte at j makes the scanner take p for a url. */
  predicate RecognisedAt(input: seq<Byte>, j: nat, p: seq<Byte>) {
    RecognisesNow(input, j) && Scan(START, input[..j]).buf == p
  }

  /** input[i..j] spells ESC ] 7 ; p, within the limit, and a terminator follows. */
  predicate FrameAt(input: seq<Byte>, i: nat, j: nat, p: seq<Byte>) {
    && i + |OPEN| + |p| == j < |input| && Terminator(input[j])
    && input[i..i + |OPEN|] == OPEN && input[i + |OPEN|..j] == p
    && Clean(p) && |p| <= LIMIT
  }

  /** The scanner is not in the middle of an opening sequence. */
  predicate Receptive(sc: Scanner) {
    sc.state != 2 && sc.state != 3
  }

  /** The input ends in these bytes, and they were taken in from a receptive state. */
  predicate Since(input: seq<Byte>, tail: seq<Byte>) {
    |tail| <= |input| && input[|input| - |tail|..] == tail && Receptive(Scan(START, input[..|input| - |tail|]))
  }

  /** The part of a sequence that a scanner has behind it. */
  function Tail(sc: Scanner): seq<Byte> {
    match sc.state
    case 1 => [ESC]
    case 2 => [ESC, 0x5D]
    case 3 => [ESC, 0x5D, 0x37]
    case 4 => OPEN + sc.buf
    case _ => []
  }

  predicate Justified(input: seq<Byte>, sc: Scanner) {
    Tidy(sc) && (sc.state != 0 ==> Since(input, Tail(sc)))
  }

  lemma SinceSnoc(input: seq<Byte>, tail: seq<Byte>, b: Byte)
    requires Since(input, tail)
    ensures Since(input + [b], tail + [b])
  {
    var more := input + [b];
    var k := |input| - |tail|;
    assert more[k..] == input[k..] + [b];
    assert more[..k] == input[..k];
  }

  lemma SinceNow(input: seq<Byte>)
    requires Receptive(Scan(START, input))
    ensures Since(input, [])
  {
    assert input[..|input|] == input;
    assert input[|input|..] == [];
  }

  /** What is always true of state and buffer. */
  predicate Tidy(sc: Scanner) {
    sc.state <= 4 && (sc.state != 4 ==> sc.buf == []) && Clean(sc.buf) && |sc.buf| <= LIMIT
  }

  /** How a byte changes the tail: ESC starts a new one, every further byte adds itself. */
  predicate Follows(next: Scanner, sc: Scanner, b: Byte) {
    && (next.state == 1 ==> b == ESC && Receptive(sc))
    && (next.state >= 2 ==> sc.state != 0 && Tail(next) == Tail(sc) + [b])
  }

  lemma StepFollows(sc: Scanner, b: Byte)
    requires Tidy(sc)
    ensures Tidy(Step(sc, b)) && Follows(Step(sc, b), sc, b)
  {
    if sc.state == 4 {
      assert OPEN + (sc.buf + [b]) == OPEN + sc.buf + [b];
    } else if sc.state == 3 && b == 0x3B {
      assert OPEN + [] == [ESC, 0x5D, 0x37] + [b];
    }
  }

  lemma JustifiedNext(init: seq<Byte>, sc: Scanner, b: Byte, next: Scanner)
    requires Justified(init, sc) && sc == Scan(START, init) && Tidy(next) && Follows(next, sc, b)
    ensures Justified(init + [b], next)
  {
    if next.state == 1 {
      SinceNow(init);
      SinceSnoc(init, [], b);
      assert [] + [b] == [ESC];
    } else if next.state != 0 {
      SinceSnoc(init, Tail(sc), b);
    }
  }

  lemma {:induction false} AlwaysJustified(input: seq<Byte>)
    ensures Justified(input, Scan(START, input))
    decreases |input|
  {
    if input != [] {
      var init, b := input[..|input| - 1], input[|input| - 1];
      assert input == init + [b];
      AlwaysJustified(init);
      StepFollows(Scan(START, init), b);
      JustifiedNext(init, Scan(START, init), b, Step(Scan(START, init), b));
    }
  }

  /** The buffer never exceeds its limit and is empty outside state 4. */
  lemma BufferBounded(input: seq<Byte>)
    ensures |Scan(START, input).buf| <= LIMIT
    ensures Scan(START, input).state != 4 ==> Scan(START, input).buf == []
    ensures Scan(START, input).state <= 4
  {
    AlwaysJustified(input);
  }

  lemma OpensFrame(sc: Scanner)
    ensures Receptive(sc) && sc.state <= 4 ==>
              Scan(sc, OPEN).state == 4 && Scan(sc, OPEN).buf == []
    ensures !Receptive(sc) ==> Scan(sc, OPEN).state == 0
  {
    var s1 := Step(sc, ESC);
    var s2 := Step(s1, 0x5D);
    var s3 := Step(s2, 0x37);
    assert OPEN == [ESC] + [0x5D] + [0x37] + [0x3B];
    ScanSnoc(sc, [], ESC);
    ScanSnoc(sc, [ESC], 0x5D);
    ScanSnoc(sc, [ESC] + [0x5D], 0x37);
    ScanSnoc(sc, [ESC] + [0x5D] + [0x37], 0x3B);
    assert [] + [ESC] == [ESC];
  }

  lemma {:induction false} CollectsPayload(sc: Scanner, p: seq<Byte>)
    requires Clean(p) && |p| <= LIMIT
    ensures sc.state == 4 && sc.buf == [] ==> Scan(sc, p).state == 4 && Scan(sc, p).buf == p
    ensures sc.state == 0 ==> Scan(sc, p).state == 0
    decreases |p|
  {
    if p != [] {
      CollectsPayload(sc, p[..|p| - 1]);
    }
  }

  /** A well-formed sequence is recognised if and only if the scanner is receptive where it starts. */
  lemma FrameRecognisedIff(input: seq<Byte>, i: nat, j: nat, p: seq<Byte>)
    requires FrameAt(input, i, j, p)
    ensures RecognisedAt(input, j, p) <==> Receptive(Scan(START, input[..i]))
  {
    var before := input[..i];
    BufferBounded(before);
    assert input[..i + |OPEN|] == before + OPEN;
    assert input[..j] == before + OPEN + p;
    Chunking(START, before, OPEN);
    Chunking(START, before + OPEN, p);
    OpensFrame(Scan(START, before));
    CollectsPayload(Scan(START, before + OPEN), p);
  }

  /**
    The scanner takes p for a url at byte j exactly when a contiguous
    ESC ] 7 ; p stands before j, p is free of BEL and ESC and within the limit, j
    is a terminator, and the sequence began in a receptive state.
   */
  lemma RecognitionIsExact(input: seq<Byte>, j: nat, p: seq<Byte>)
    ensures RecognisedAt(input, j, p) <==>
            exists i: nat :: FrameAt(input, i, j, p) && Receptive(Scan(START, input[..i]))
  {
    if RecognisedAt(input, j, p) {
      var upTo := input[..j];
      AlwaysJustified(upTo);
      var i := j - |p| - |OPEN|;
      assert upTo[i..] == OPEN + p && upTo[..i] == input[..i];
      assert (OPEN + p)[..|OPEN|] == OPEN && (OPEN + p)[|OPEN|..] == p;
      assert input[i..i + |OPEN|] == upTo[i..][..|OPEN|];
      assert input[i + |OPEN|..j] == upTo[i..][|OPEN|..];
      assert FrameAt(input, i, j, p);
    }
    forall i: nat | FrameAt(input, i, j, p) && Receptive(Scan(START, input[..i]))
      ensures RecognisedAt(input, j, p)
    {
      FrameRecognisedIff(input, i, j, p);
    }
  }

  /** A sequence that starts right after a stray ESC ] is missed. */
  lemma StrayOpeningHidesFrame()
    ensures var input := [ESC, 0x5D] + OPEN + [SLASH, BEL];
      FrameAt(input, 2, 7, [SLASH]) && !RecognisedAt(input, 7, [SLASH])
  {
    var input := [ESC, 0x5D] + OPEN + [SLASH, BEL];
    assert input[2..6] == OPEN && input[6..7] == [SLASH];
    assert input[..2] == [] + [ESC] + [0x5D];
    ScanSnoc(START, [], ESC);
    ScanSnoc(START, [] + [ESC], 0x5D);
    assert Scan(START, []) == START;
    FrameRecognisedIff(input, 2, 7, [SLASH]);
  }

  lemma {:induction false} CwdKept(input: seq<Byte>, from: nat)
    requires from <= |input|
    requires forall k: nat | k >= from :: !RecognisesNow(input, k)
    ensures Scan(START, input).cwd == Scan(START, input[..from]).cwd
    decreases |input|
  {
    if from < |input| {
      var n := |input| - 1;
      var init := input[..n];
      forall k: nat | k >= from
        ensures !RecognisesNow(init, k)
      {
        assert !RecognisesNow(input, k);
        assert k < n ==> init[..k] == input[..k];
      }
      CwdKept(init, from);
      assert init[..from] == input[..from];
      assert !RecognisesNow(input, n);
    } else {
      assert input[..from] == input;
    }
  }

  /** No url is recognised after byte j. */
  ghost predicate NoneAfter(input: seq<Byte>, j: int) {
    forall k: nat | k > j :: !RecognisesNow(input, k)
  }

  lemma HandsOver(sc: Scanner, b: Byte)
    requires sc.state == 4 && Terminator(b)
    ensures Step(sc, b).cwd == CwdOf(sc.buf)
  {}

  lemma RecognisedSetsCwd(input: seq<Byte>, j: nat, p: seq<Byte>)
    requires RecognisedAt(input, j, p) && NoneAfter(input, j)
    ensures Scan(START, input).cwd == CwdOf(p)
  {
    var sc := Scan(START, input[..j]);
    HandsOver(sc, input[j]);
    CwdKept(input, j + 1);
    assert input[..j + 1] == input[..j] + [input[j]];
    ScanSnoc(START, input[..j], input[j]);
  }

  /** The directory is that of the last recognised url, and no other byte touches it. */
  lemma CwdIsLastRecognised(input: seq<Byte>)
    ensures NoneAfter(input, -1) ==> Scan(START, input).cwd == START.cwd
    ensures forall j: nat, p | RecognisedAt(input, j, p) && NoneAfter(input, j) ::
              Scan(START, input).cwd == CwdOf(p)
  {
    if NoneAfter(input, -1) {
      CwdKept(input, 0);
    }
    forall j: nat, p | RecognisedAt(input, j, p) && NoneAfter(input, j)
      ensures Scan(START, input).cwd == CwdOf(p)
    {
      RecognisedSetsCwd(input, j, p);
    }
  }

  // ---------- round trip ----------

  lemma {:induction false} FirstSlashAfterHost(host: seq<Byte>, rest: seq<Byte>)
    requires forall i | 0 <= i < |host| :: host[i] != SLASH
    requires rest != [] && rest[0] == SLASH
    ensures FirstSlash(host + rest) == |host|
  {
    if host == [] {
      assert host + rest == rest;
    } else {
      assert (host + rest)[1..] == host[1..] + rest;
      FirstSlashAfterHost(host[1..], rest);
    }
  }

  predicate Host(host: seq<Byte>) {
    Utf8.Valid(host) && Clean(host) && forall i | 0 <= i < |host| :: host[i] != SLASH
  }

  lemma FileUrlClean(host: seq<Byte>, e: seq<Byte>, path: seq<Byte>)
    requires Host(host) && Encodes(e, path)
    ensures Clean(FILE + host + e)
  {
    EncodingIsPlain(e, path);
  }

  lemma FileUrlValid(host: seq<Byte>, e: seq<Byte>, path: seq<Byte>)
    requires Host(host) && Encodes(e, path)
    ensures Utf8.Lossy(FILE + host + e) == FILE + host + e
  {
    EncodingIsPlain(e, path);
    Utf8.AsciiValid(e);
    Utf8.AsciiValid(FILE);
    Utf8.ValidConcat(FILE, host);
    Utf8.ValidConcat(FILE + host, e);
    Utf8.LossyKeepsValid(FILE + host + e);
  }

  lemma PathOfFileUrl(host: seq<Byte>, e: seq<Byte>)
    requires Host(host) && e != [] && e[0] == SLASH
    ensures PathOf(FILE + host + e) == e
  {
    var url := FILE + host + e;
    assert url[|FILE|..] == host + e;
    FirstSlashAfterHost(host, e);
    assert (host + e)[|host|..] == e;
  }

  /** The directory that a path stands for: the path itself, but d:rest for /d:rest. */
  ghost predicate Directory(path: seq<Byte>, cwd: seq<Byte>) {
    && (forall d: Byte, rest: seq<Byte> :: path == [SLASH, d, COLON] + rest ==> cwd == [d, COLON] + rest)
    && ((forall d: Byte, rest: seq<Byte> :: path != [SLASH, d, COLON] + rest) ==> cwd == path)
  }

  lemma NormalisedIsDirectory(path: seq<Byte>)
    ensures Directory(path, Normalise(path))
  {
    if |path| >= 3 && path[0] == SLASH && path[2] == COLON {
      assert path == [SLASH, path[1], COLON] + path[3..];
    }
    forall d: Byte, rest: seq<Byte> | path == [SLASH, d, COLON] + rest
      ensures Normalise(path) == [d, COLON] + rest
    {
      assert path[0] == SLASH && path[2] == COLON;
    }
  }

  lemma CwdOfUrl(url: seq<Byte>, e: seq<Byte>, path: seq<Byte>)
    requires Utf8.Lossy(url) == url && PathOf(url) == e && Encodes(e, path) && Utf8.Valid(path)
    ensures Directory(path, CwdOf(url))
  {
    DecodeInvertsEncoding(e, path);
    Utf8.LossyKeepsValid(path);
    NormalisedIsDirectory(path);
  }

  lemma CwdOfFileUrl(host: seq<Byte>, e: seq<Byte>, path: seq<Byte>)
    requires Host(host) && Encodes(e, path) && Utf8.Valid(path)
    requires e != [] && e[0] == SLASH
    ensures Directory(path, CwdOf(FILE + host + e))
  {
    FileUrlValid(host, e, path);
    PathOfFileUrl(host, e);
    CwdOfUrl(FILE + host + e, e, path);
  }

  /** What is not a file url, or is one without any slash, is taken for a path as it stands. */
  lemma CwdOfOtherUrl(e: seq<Byte>, path: seq<Byte>)
    requires Encodes(e, path) && Utf8.Valid(path)
    ensures !(FILE <= e) ==> Directory(path, CwdOf(e))
    ensures SLASH !in e ==> Directory(path, CwdOf(FILE + e))
  {
    if !(FILE <= e) {
      EncodingIsPlain(e, path);
      Utf8.AsciiValid(e);
      Utf8.LossyKeepsValid(e);
      CwdOfUrl(e, e, path);
    }
    if SLASH !in e {
      FileUrlValid([], e, path);
      assert FILE + [] + e == FILE + e;
      SlashlessPath(e);
      CwdOfUrl(FILE + e, e, path);
    }
  }

  lemma SlashlessPath(e: seq<Byte>)
    requires SLASH !in e
    ensures PathOf(FILE + e) == e
  {
    assert (FILE + e)[|FILE|..] == e;
    NoSlash(e);
  }

  lemma {:induction false} NoSlash(s: seq<Byte>)
    requires SLASH !in s
    ensures FirstSlash(s) == |s|
  {
    if s != [] {
      NoSlash(s[1..]);
    }
  }

  /** BEL, or ST as the two bytes ESC \ */
  predicate Closing(end: seq<Byte>) {
    end == [BEL] || end == [ESC, BACKSLASH]
  }

  /**
    A shell that reports a path as a file url (section 2 of RFC 8089) with any
    percent-encoding, framed with BEL or ST, to a receptive scanner, leaves exactly
    that path behind, or d:rest if the path is /d:rest.
   */
  lemma WorkingDirectoryRoundTrip(sc: Scanner, host: seq<Byte>, e: seq<Byte>, path: seq<Byte>, end: seq<Byte>)
    requires sc.state <= 4 && Receptive(sc)
    requires Host(host) && Encodes(e, path) && Utf8.Valid(path) && Closing(end)
    requires e != [] && e[0] == SLASH
    requires |FILE + host + e| <= LIMIT
    ensures Directory(path, Scan(sc, OPEN + (FILE + host + e) + end).cwd)
  {
    var url := FILE + host + e;
    FileUrlValid(host, e, path);
    FileUrlClean(host, e, path);
    Chunking(sc, OPEN, url);
    Chunking(sc, OPEN + url, end);
    OpensFrame(sc);
    CollectsPayload(Scan(sc, OPEN), url);
    CwdOfFileUrl(host, e, path);
    ClosingHandsOver(Scan(sc, OPEN + url), end);
  }

  lemma ClosingHandsOver(sc: Scanner, end: seq<Byte>)
    requires sc.state == 4 && Closing(end)
    ensures Scan(sc, end).cwd == CwdOf(sc.buf)
  {
    ScanSnoc(sc, [], end[0]);
    assert [] + [end[0]] == [end[0]];
    if end == [ESC, BACKSLASH] {
      assert end == [ESC] + [BACKSLASH];
      ScanSnoc(sc, [ESC], BACKSLASH);
    }
  }
}
