/** Environment blocks for the child (ffi.rs, session.rs), and how they are read back. */
module EnvBlock {
  import opened Common
  import opened Utf8

  type Unit = u: int | 0 <= u < 0x10000

  type Text = seq<Scalar>

  // ---------- UTF-16 (section 2.1 of RFC 2781) ----------

  function EncodeScalar16(c: Scalar): (s: seq<Unit>)
    ensures 1 <= |s| <= 2
  {
    if c < 0x10000 then [c]
    else [0xD800 + (c - 0x10000) / 0x400, 0xDC00 + (c - 0x10000) % 0x400]
  }

  function Encode16(text: Text): seq<Unit> {
    if text == [] then [] else EncodeScalar16(text[0]) + Encode16(text[1..])
  }

  predicate HighSurrogate(u: Unit) { 0xD800 <= u <= 0xDBFF }

  predicate LowSurrogate(u: Unit) { 0xDC00 <= u <= 0xDFFF }

  /** Reads UTF-16; None on an unpaired surrogate. */
  function Decode16(s: seq<Unit>): Option<Text> {
    if s == [] then Some([])
    else if HighSurrogate(s[0]) then
      if |s| >= 2 && LowSurrogate(s[1]) then
        match Decode16(s[2..])
        case None => None
        case Some(rest) => Some([0x10000 + (s[0] as int - 0xD800) * 0x400 + (s[1] as int - 0xDC00)] + rest)
      else None
    else if LowSurrogate(s[0]) then None
    else match Decode16(s[1..])
      case None => None
      case Some(rest) => Some([s[0]] + rest)
  }

  lemma {:induction false} Utf16RoundTrip(text: Text)
    ensures Decode16(Encode16(text)) == Some(text)
  {
    if text != [] {
      var c := text[0];
      Utf16RoundTrip(text[1..]);
      var s := Encode16(text);
      if c < 0x10000 {
        assert s[0] == c && s[1..] == Encode16(text[1..]);
      } else {
        var offset: int := c as int - 0x10000;
        assert s[0] == 0xD800 + offset / 0x400 && s[1] == 0xDC00 + offset % 0x400;
        assert s[2..] == Encode16(text[1..]);
      }
      assert [c] + text[1..] == text;
    }
  }

  /** No scalar but NUL produces a zero unit. */
  lemma {:induction false} NoSpuriousZero(text: Text)
    requires 0 !in text
    ensures 0 !in Encode16(text)
    ensures text != [] ==> Encode16(text) != []
  {
    if text != [] {
      assert text[0] != 0;
      NoSpuriousZero(text[1..]);
    }
  }

  // ---------- blocks ----------

  /** Position of the first zero, or the length. */
  function Zero(s: seq<int>): (n: nat)
    ensures n <= |s|
    ensures n < |s| ==> s[n] == 0
    ensures forall i | 0 <= i < n :: s[i] != 0
  {
    if s == [] || s[0] == 0 then 0 else 1 + Zero(s[1..])
  }

  /** How a block is read: entries end at zeros, and the first empty entry ends the block. */
  function ReadBlock(s: seq<Unit>): seq<seq<Unit>> {
    var n := Zero(s);
    if n == |s| || n == 0 then [] else [s[..n]] + ReadBlock(s[n + 1..])
  }

  /** `split('\0')`: always at least one piece. */
  function Split(text: Text): seq<Text> {
    var n := Zero(text);
    if n == |text| then [text] else [text[..n]] + Split(text[n + 1..])
  }

  function NonEmpty<T>(entries: seq<seq<T>>): seq<seq<T>> {
    if entries == [] then []
    else (if entries[0] == [] then [] else [entries[0]]) + NonEmpty(entries[1..])
  }

  /** The lines of a block without its final zero. */
  function Lines(entries: seq<Text>): seq<Unit> {
    if entries == [] then [] else Encode16(entries[0]) + [0] + Lines(entries[1..])
  }

  lemma {:induction false} LinesAppend(entries: seq<Text>, entry: Text)
    ensures Lines(entries + [entry]) == Lines(entries) + Encode16(entry) + [0]
  {
    if entries == [] {
      assert entries + [entry] == [entry];
    } else {
      assert (entries + [entry])[1..] == entries[1..] + [entry];
      LinesAppend(entries[1..], entry);
    }
  }

  lemma {:induction false} NonEmptyAppend<T>(entries: seq<seq<T>>, entry: seq<T>)
    ensures NonEmpty(entries + [entry]) == NonEmpty(entries) + if entry == [] then [] else [entry]
  {
    if entries == [] {
      assert entries + [entry] == [entry];
    } else {
      assert (entries + [entry])[1..] == entries[1..] + [entry];
      NonEmptyAppend(entries[1..], entry);
    }
  }

  method BlockToUtf16(bytes: seq<Byte>) returns (out: seq<Unit>)
    ensures out == Lines(NonEmpty(Split(InputText(bytes)))) + [0]
  {
    var entries := Split(InputText(bytes));
    out := [];
    for i := 0 to |entries|
      invariant out == Lines(NonEmpty(entries[..i]))
    {
      assert entries[..i + 1] == entries[..i] + [entries[i]];
      NonEmptyAppend(entries[..i], entries[i]);
      if entries[i] == [] {
        assert NonEmpty(entries[..i]) + [] == NonEmpty(entries[..i]);
        continue;
      }
      LinesAppend(NonEmpty(entries[..i]), entries[i]);
      out := out + Encode16(entries[i]);
      out := out + [0];
    }
    assert entries[..|entries|] == entries;
    out := out + [0];
  }

  function InputText(bytes: seq<Byte>): Text {
    LossyIsValid(bytes);
    Decode(Lossy(bytes))
  }

  predicate Entries(entries: seq<Text>) {
    forall i | 0 <= i < |entries| :: entries[i] != [] && 0 !in entries[i]
  }

  lemma ZeroAt(a: seq<Unit>, rest: seq<Unit>)
    requires 0 !in a
    ensures Zero(a + [0] + rest) == |a|
  {
    var s := a + [0] + rest;
    assert s[|a|] == 0;
    assert forall i | 0 <= i < |a| :: s[i] == a[i] && a[i] != 0;
  }

  lemma ReadLine(line: seq<Unit>, rest: seq<Unit>)
    requires line != [] && 0 !in line
    ensures ReadBlock(line + [0] + rest) == [line] + ReadBlock(rest)
  {
    var block := line + [0] + rest;
    ZeroAt(line, rest);
    assert block[..|line|] == line && block[|line| + 1..] == rest;
  }

  function Encoded(entries: seq<Text>): seq<seq<Unit>> {
    seq(|entries|, i requires 0 <= i < |entries| => Encode16(entries[i]))
  }

  lemma BlockCons(entries: seq<Text>, behind: seq<Unit>)
    requires entries != []
    ensures Lines(entries) + [0] + behind == Encode16(entries[0]) + [0] + (Lines(entries[1..]) + [0] + behind)
    ensures Encoded(entries) == [Encode16(entries[0])] + Encoded(entries[1..])
  {
    Reassociate(Encode16(entries[0]) + [0], Lines(entries[1..]), [0], behind);
    EncodedCons(entries);
  }

  lemma Reassociate(a: seq<Unit>, b: seq<Unit>, c: seq<Unit>, d: seq<Unit>)
    ensures a + b + c + d == a + (b + c + d)
  {}

  lemma EncodedCons(entries: seq<Text>)
    requires entries != []
    ensures Encoded(entries) == [Encode16(entries[0])] + Encoded(entries[1..])
  {}

  lemma {:induction false} ReadsEncoded(entries: seq<Text>, behind: seq<Unit>)
    requires Entries(entries)
    ensures ReadBlock(Lines(entries) + [0] + behind) == Encoded(entries)
  {
    if entries != [] {
      BlockCons(entries, behind);
      NoSpuriousZero(entries[0]);
      ReadsEncoded(entries[1..], behind);
      ReadLine(Encode16(entries[0]), Lines(entries[1..]) + [0] + behind);
    } else {
      assert (Lines(entries) + [0] + behind)[0] == 0;
    }
  }

  /** Reading a block gives back its entries, whatever lies behind it in memory. */
  lemma ReadInvertsLines(entries: seq<Text>, behind: seq<Unit>)
    requires Entries(entries)
    ensures |ReadBlock(Lines(entries) + [0] + behind)| == |entries|
    ensures forall i | 0 <= i < |entries| ::
              Decode16(ReadBlock(Lines(entries) + [0] + behind)[i]) == Some(entries[i])
  {
    ReadsEncoded(entries, behind);
    forall i | 0 <= i < |entries|
      ensures Decode16(Encoded(entries)[i]) == Some(entries[i])
    {
      Utf16RoundTrip(entries[i]);
    }
  }

  lemma {:induction false} SplitIsClean(text: Text)
    ensures forall i | 0 <= i < |Split(text)| :: 0 !in Split(text)[i]
    decreases |text|
  {
    if Zero(text) < |text| {
      SplitIsClean(text[Zero(text) + 1..]);
    }
  }

  lemma {:induction false} NonEmptyKeeps(entries: seq<Text>)
    requires forall i | 0 <= i < |entries| :: 0 !in entries[i]
    ensures Entries(NonEmpty(entries))
  {
    if entries != [] {
      NonEmptyKeeps(entries[1..]);
    }
  }

  /** So many empty entries. */
  function Blanks(n: nat): seq<Text> {
    seq(n, _ => [])
  }

  /** What is left out are empty entries only. */
  lemma {:induction false} NonEmptyIsTheRest(entries: seq<Text>) returns (empty: nat)
    ensures [] !in NonEmpty(entries) && Interleaves(entries, NonEmpty(entries), Blanks(empty))
  {
    if entries == [] {
      empty := 0;
    } else {
      var n := |entries| - 1;
      empty := NonEmptyIsTheRest(entries[..n]);
      assert entries == entries[..n] + [entries[n]];
      empty := RestNext(entries[..n], entries[n], empty);
    }
  }

  lemma RestNext(before: seq<Text>, last: Text, empty: nat) returns (empty': nat)
    requires [] !in NonEmpty(before) && Interleaves(before, NonEmpty(before), Blanks(empty))
    ensures [] !in NonEmpty(before + [last]) && Interleaves(before + [last], NonEmpty(before + [last]), Blanks(empty'))
  {
    NonEmptySnoc(before, last);
    if last == [] {
      empty' := empty + 1;
      InterleaveRight(before, NonEmpty(before), Blanks(empty), last);
      assert Blanks(empty) + [last] == Blanks(empty') && NonEmpty(before) + [] == NonEmpty(before);
    } else {
      empty' := empty;
      InterleaveLeft(before, NonEmpty(before), Blanks(empty), last);
    }
  }

  lemma {:induction false} NonEmptySnoc(entries: seq<Text>, entry: Text)
    ensures NonEmpty(entries + [entry]) == NonEmpty(entries) + if entry == [] then [] else [entry]
  {
    if entries == [] {
      assert entries + [entry] == [entry];
    } else {
      assert (entries + [entry])[1..] == entries[1..] + [entry];
      NonEmptySnoc(entries[1..], entry);
    }
  }

  /** The pieces, joined by zeros again, are the input. */
  function Join(entries: seq<Text>): Text {
    if entries == [] then []
    else if |entries| == 1 then entries[0]
    else entries[0] + [0] + Join(entries[1..])
  }

  lemma {:induction false} SplitJoins(text: Text)
    ensures Split(text) != [] && Join(Split(text)) == text
    decreases |text|
  {
    var n := Zero(text);
    if n < |text| {
      SplitJoins(text[n + 1..]);
      JoinCons(text[..n], Split(text[n + 1..]));
      assert text == text[..n] + [0] + text[n + 1..];
    }
  }

  lemma JoinCons(entry: Text, rest: seq<Text>)
    requires rest != []
    ensures Join([entry] + rest) == entry + [0] + Join(rest)
  {
    assert ([entry] + rest)[1..] == rest;
  }

  /**
    For any bytes the host passes, the block is read back as exactly the non-empty
    entries of the input, in order; the split it starts from is faithful; and the
    reading always ends inside the block.
   */
  lemma EnvironmentRoundTrip(bytes: seq<Byte>, behind: seq<Unit>)
    ensures var text := InputText(bytes);
      var entries := NonEmpty(Split(text));
      var read := ReadBlock(Lines(entries) + [0] + behind);
      && Join(Split(text)) == text && (forall i | 0 <= i < |Split(text)| :: 0 !in Split(text)[i])
      && [] !in entries && (exists empty: nat :: Interleaves(Split(text), entries, Blanks(empty)))
      && |read| == |entries|
      && forall i | 0 <= i < |entries| :: Decode16(read[i]) == Some(entries[i])
  {
    var text := InputText(bytes);
    SplitJoins(text);
    SplitIsClean(text);
    NonEmptyKeeps(Split(text));
    var empty := NonEmptyIsTheRest(Split(text));
    ReadInvertsLines(NonEmpty(Split(text)), behind);
  }

  /** On valid UTF-8 the text is the one the host encoded. */
  lemma HostTextArrives(text: Text)
    ensures InputText(Encode(text)) == text
  {
    RoundTrip(text);
    LossyKeepsValid(Encode(text));
  }

  // ---------- the default environment ----------

  datatype Var = Var(key: Text, value: Text)

  function Lower(c: Scalar): Scalar {
    if 0x41 <= c <= 0x5A then c + 0x20 else c
  }

  predicate SameName(a: Text, b: Text) {
    |a| == |b| && forall i | 0 <= i < |a| :: Lower(a[i]) == Lower(b[i])
  }

  /** The value the child sees: that of the first entry of the name. */
  function Lookup(vars: seq<Var>, key: Text): Option<Text> {
    if vars == [] then None
    else if SameName(vars[0].key, key) then Some(vars[0].value)
    else Lookup(vars[1..], key)
  }

  function Upserted(vars: seq<Var>, key: Text, value: Text): seq<Var> {
    if vars == [] then [Var(key, value)]
    else if SameName(vars[0].key, key) then [vars[0].(value := value)] + vars[1..]
    else [vars[0]] + Upserted(vars[1..], key, value)
  }

  lemma UpsertedPast(vars: seq<Var>, i: nat, key: Text, value: Text)
    requires i < |vars| && !SameName(vars[i].key, key)
    ensures vars[..i] + Upserted(vars[i..], key, value) == vars[..i + 1] + Upserted(vars[i + 1..], key, value)
  {
    assert vars[i..][1..] == vars[i + 1..];
    assert vars[..i + 1] == vars[..i] + [vars[i]];
  }

  lemma UpsertedHere(vars: seq<Var>, i: nat, key: Text, value: Text)
    requires i < |vars| && SameName(vars[i].key, key)
    ensures vars[..i] + Upserted(vars[i..], key, value) == vars[i := vars[i].(value := value)]
  {
    assert vars[i..][1..] == vars[i + 1..];
  }

  method Upsert(vars: seq<Var>, key: Text, value: Text) returns (out: seq<Var>)
    ensures out == Upserted(vars, key, value)
  {
    var i := 0;
    while i < |vars| && !SameName(vars[i].key, key)
      invariant 0 <= i <= |vars|
      invariant vars[..i] + Upserted(vars[i..], key, value) == Upserted(vars, key, value)
    {
      UpsertedPast(vars, i, key, value);
      i := i + 1;
    }
    if i < |vars| {
      out := vars[i := vars[i].(value := value)];
      UpsertedHere(vars, i, key, value);
    } else {
      out := vars + [Var(key, value)];
      assert vars[..i] == vars;
    }
  }

  /** One name gets the value, every other name keeps its own, and names are neither lost nor doubled. */
  lemma {:induction false} UpsertProperties(vars: seq<Var>, key: Text, value: Text, other: Text)
    ensures Lookup(Upserted(vars, key, value), other) == if SameName(other, key) then Some(value) else Lookup(vars, other)
    ensures |Upserted(vars, key, value)| == |vars| + if Lookup(vars, key).None? then 1 else 0
  {
    if vars != [] {
      var out := Upserted(vars, key, value);
      if SameName(vars[0].key, key) {
        assert out[1..] == vars[1..];
      } else {
        UpsertProperties(vars[1..], key, value, other);
        assert out[1..] == Upserted(vars[1..], key, value);
      }
    }
  }

  const TERM: Text := [0x54, 0x45, 0x52, 0x4D]
  const COLORTERM: Text := [0x43, 0x4F, 0x4C, 0x4F, 0x52, 0x54, 0x45, 0x52, 0x4D]
  /** xterm-256color */
  const XTERM: Text := [0x78, 0x74, 0x65, 0x72, 0x6D, 0x2D, 0x32, 0x35, 0x36, 0x63, 0x6F, 0x6C, 0x6F, 0x72]
  const TRUECOLOR: Text := [0x74, 0x72, 0x75, 0x65, 0x63, 0x6F, 0x6C, 0x6F, 0x72]

  function LineOf(v: Var): Text {
    v.key + [0x3D] + v.value
  }

  function LinesOf(vars: seq<Var>): seq<Text> {
    seq(|vars|, i requires 0 <= i < |vars| => LineOf(vars[i]))
  }

  method DefaultEnvWithTerminfo(processVars: seq<Var>) returns (out: seq<Unit>)
    ensures out == Lines(LinesOf(WithTerminfo(processVars))) + [0]
  {
    var entries := Upsert(processVars, TERM, XTERM);
    entries := Upsert(entries, COLORTERM, TRUECOLOR);
    out := [];
    for i := 0 to |entries|
      invariant out == Lines(LinesOf(entries[..i]))
    {
      assert LinesOf(entries[..i + 1]) == LinesOf(entries[..i]) + [LineOf(entries[i])];
      LinesAppend(LinesOf(entries[..i]), LineOf(entries[i]));
      out := out + Encode16(LineOf(entries[i]));
      out := out + [0];
    }
    assert entries[..|entries|] == entries;
    out := out + [0];
  }

  function WithTerminfo(vars: seq<Var>): seq<Var> {
    Upserted(Upserted(vars, TERM, XTERM), COLORTERM, TRUECOLOR)
  }

  predicate NoNul(vars: seq<Var>) {
    forall i | 0 <= i < |vars| :: 0 !in vars[i].key && 0 !in vars[i].value
  }

  lemma {:induction false} UpsertNoNul(vars: seq<Var>, key: Text, value: Text)
    requires NoNul(vars) && 0 !in key && 0 !in value
    ensures NoNul(Upserted(vars, key, value))
  {
    if vars != [] {
      UpsertNoNul(vars[1..], key, value);
    }
  }

  /**
    The child of a host that passes no environment reads one line per variable, with
    both terminal variables set and every other variable as the process had it.
   */
  lemma DefaultEnvironment(vars: seq<Var>, other: Text, behind: seq<Unit>)
    requires NoNul(vars)
    ensures var out := WithTerminfo(vars);
      var read := ReadBlock(Lines(LinesOf(out)) + [0] + behind);
      && |read| == |out|
      && (forall i | 0 <= i < |out| :: Decode16(read[i]) == Some(LineOf(out[i])))
      && Lookup(out, TERM) == Some(XTERM) && Lookup(out, COLORTERM) == Some(TRUECOLOR)
      && (!SameName(other, TERM) && !SameName(other, COLORTERM) ==> Lookup(out, other) == Lookup(vars, other))
  {
    var once := Upserted(vars, TERM, XTERM);
    var out := WithTerminfo(vars);
    UpsertNoNul(vars, TERM, XTERM);
    UpsertNoNul(once, COLORTERM, TRUECOLOR);
    forall i | 0 <= i < |out|
      ensures LinesOf(out)[i] != [] && 0 !in LinesOf(out)[i]
    {
      assert LinesOf(out)[i][|out[i].key|] == 0x3D;
    }
    ReadInvertsLines(LinesOf(out), behind);
    UpsertProperties(vars, TERM, XTERM, TERM);
    UpsertProperties(vars, TERM, XTERM, other);
    UpsertProperties(once, COLORTERM, TRUECOLOR, TERM);
    UpsertProperties(once, COLORTERM, TRUECOLOR, COLORTERM);
    UpsertProperties(once, COLORTERM, TRUECOLOR, other);
  }

  // ---------- what the child reads ----------

  const EQUALS: Scalar := 0x3D

  /** Position of the first `=` at or behind position i, or the length. */
  function EqualsAt(line: Text, i: nat): (n: nat)
    requires i <= |line|
    ensures i <= n <= |line|
    decreases |line| - i
  {
    if i == |line| || line[i] == EQUALS then i else EqualsAt(line, i + 1)
  }

  /** A line as the child reads it: the name up to the first `=` behind its first character, and the value behind that. */
  function ReadVar(line: Text): Var {
    if line == [] then Var([], [])
    else
      var n := EqualsAt(line, 1);
      Var(line[..n], if n < |line| then line[n + 1..] else [])
  }

  predicate ProperName(key: Text) {
    key != [] && forall i | 1 <= i < |key| :: key[i] != EQUALS
  }

  predicate ProperNames(vars: seq<Var>) {
    forall i | 0 <= i < |vars| :: ProperName(vars[i].key)
  }

  lemma {:induction false} EqualsBehind(key: Text, value: Text, i: nat)
    requires i <= |key| && forall j | i <= j < |key| :: key[j] != EQUALS
    ensures EqualsAt(key + [EQUALS] + value, i) == |key|
    decreases |key| - i
  {
    var line := key + [EQUALS] + value;
    if i < |key| {
      assert line[i] == key[i];
      EqualsBehind(key, value, i + 1);
    } else {
      assert line[i] == EQUALS;
    }
  }

  lemma LineIsRead(v: Var)
    requires ProperName(v.key)
    ensures ReadVar(LineOf(v)) == v
  {
    EqualsBehind(v.key, v.value, 1);
    var line := v.key + [EQUALS] + v.value;
    assert line[..|v.key|] == v.key && line[|v.key| + 1..] == v.value;
  }

  predicate Decodable(lines: seq<seq<Unit>>) {
    forall i | 0 <= i < |lines| :: Decode16(lines[i]).Some?
  }

  /** The variables the child finds in its lines. */
  function ChildVars(lines: seq<seq<Unit>>): seq<Var>
    requires Decodable(lines)
  {
    seq(|lines|, i requires 0 <= i < |lines| => ReadVar(Decode16(lines[i]).value))
  }

  lemma {:induction false} UpsertProper(vars: seq<Var>, key: Text, value: Text)
    requires ProperNames(vars) && ProperName(key)
    ensures ProperNames(Upserted(vars, key, value))
  {
    if vars != [] {
      UpsertProper(vars[1..], key, value);
    }
  }

  /**
    The child of a host that passes no environment finds TERM and COLORTERM as set, and
    under every other name what the process had there.
   */
  lemma ChildEnvironment(vars: seq<Var>, other: Text, behind: seq<Unit>)
    requires NoNul(vars) && ProperNames(vars)
    ensures var read := ReadBlock(Lines(LinesOf(WithTerminfo(vars))) + [0] + behind);
      && Decodable(read)
      && var child := ChildVars(read);
         && Lookup(child, TERM) == Some(XTERM) && Lookup(child, COLORTERM) == Some(TRUECOLOR)
         && (!SameName(other, TERM) && !SameName(other, COLORTERM) ==> Lookup(child, other) == Lookup(vars, other))
  {
    DefaultEnvironment(vars, other, behind);
    UpsertProper(vars, TERM, XTERM);
    UpsertProper(Upserted(vars, TERM, XTERM), COLORTERM, TRUECOLOR);
    LinesAreRead(WithTerminfo(vars), ReadBlock(Lines(LinesOf(WithTerminfo(vars))) + [0] + behind));
  }

  lemma LinesAreRead(vars: seq<Var>, lines: seq<seq<Unit>>)
    requires ProperNames(vars) && |lines| == |vars|
    requires forall i | 0 <= i < |vars| :: Decode16(lines[i]) == Some(LineOf(vars[i]))
    ensures Decodable(lines) && ChildVars(lines) == vars
  {
    forall i | 0 <= i < |vars|
      ensures Decode16(lines[i]).Some? && ReadVar(Decode16(lines[i]).value) == vars[i]
    {
      LineIsRead(vars[i]);
    }
  }

  /** The names and values that are set. */
  lemma TerminalVariables()
    ensures TERM == Ascii("TERM") && XTERM == Ascii("xterm-256color")
    ensures COLORTERM == Ascii("COLORTERM") && TRUECOLOR == Ascii("truecolor")
  {}

  /** Names are the same if and only if they differ in the case of ASCII letters at most. */
  lemma SameNameIff(a: Text, b: Text)
    ensures SameName(a, b) <==> |a| == |b| && forall i | 0 <= i < |a| :: SameLetter(a[i], b[i])
  {}

  predicate SameLetter(c: Scalar, d: Scalar) {
    c == d || ('A' as int <= c <= 'Z' as int && d == c + 32) || ('A' as int <= d <= 'Z' as int && c == d + 32)
  }
}
