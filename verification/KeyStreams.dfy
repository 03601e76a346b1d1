/** All keys: which presses send the same bytes, and which sets of keys can be told apart in a stream. */
module KeyStreams {
  import opened Common
  import opened Keymap

  /** What a press amounts to. Other modifiers make no difference to the key. */
  datatype Sent =
    | Nothing
    | Backspace(alt: bool)
    | Tabulator(back: bool)
    | Enter
    | Escape
    | Letter(n: nat)
    | Direction(press: Press, application: bool)

  predicate Arrow(vk: nat) {
    VK_END <= vk <= VK_DOWN
  }

  predicate Plain(mods: nat) {
    !Shift(mods) && !Alt(mods) && !Ctrl(mods)
  }

  function PressFor(key: Typed): Press {
    Press(key.vk, Shift(key.mods), Alt(key.mods), Ctrl(key.mods))
  }

  /** Ctrl+I is Tab and Ctrl+M is Return; the cursor-key mode counts for plain arrows, Home and End only. */
  function SentFor(key: Typed): Sent {
    if key.vk == VK_BACK then Backspace(Alt(key.mods))
    else if key.vk == VK_TAB then Tabulator(Shift(key.mods))
    else if key.vk == VK_RETURN then Enter
    else if key.vk == VK_ESCAPE then Escape
    else if Navigation(key.vk) then Direction(PressFor(key), Arrow(key.vk) && Plain(key.mods) && key.appCursorKeys)
    else if Ctrl(key.mods) && 0x41 <= key.vk <= 0x5A then
      if key.vk == 0x49 then Tabulator(false) else if key.vk == 0x4D then Enter else Letter(key.vk - 0x40)
    else Nothing
  }

  function BytesFor(key: Typed): seq<Byte> {
    Encode(key.vk, key.mods, key.appCursorKeys)
  }

  /** Is the press read from these bytes sent in application mode? */
  predicate Ss3(s: seq<Byte>) {
    |s| >= 2 && s[1] == 0x4F
  }

  /**
    The first key of a stream and its length. ESC 0x7F can be one press, Alt+Back, or
    two, Escape and Back; `joined` says which reading is taken.
   */
  function ReadOne(s: seq<Byte>, joined: bool): (r: Option<(Sent, nat)>)
    ensures r.Some? ==> 1 <= r.value.1 <= |s|
  {
    if s == [] then None
    else if s[0] == 0x7F then Some((Backspace(false), 1))
    else if s[0] == 0x09 then Some((Tabulator(false), 1))
    else if s[0] == 0x0D then Some((Enter, 1))
    else if 0x01 <= s[0] <= 0x1A then Some((Letter(s[0]), 1))
    else if s[0] == ESC then ReadEscape(s, joined)
    else None
  }

  function ReadEscape(s: seq<Byte>, joined: bool): (r: Option<(Sent, nat)>)
    requires s != []
    ensures r.Some? ==> 1 <= r.value.1 <= |s|
  {
    if |s| >= 2 && s[1] == 0x7F && joined then Some((Backspace(true), 2))
    else if |s| >= 3 && s[1] == 0x5B && s[2] == 0x5A then Some((Tabulator(true), 3))
    else if |s| >= 2 && (s[1] == 0x5B || s[1] == 0x4F) then
      match DecodeOne(s)
      case None => None
      case Some((press, n)) => Some((Direction(press, Ss3(s)), n))
    else Some((Escape, 1))
  }

  /** The press and the bytes behind it are read as `joined` reads them. */
  predicate ReadableBefore(sent: Sent, rest: seq<Byte>, joined: bool) {
    && (sent == Backspace(true) ==> joined)
    && (sent == Escape && rest != [] ==> rest[0] != 0x5B && rest[0] != 0x4F && (rest[0] == 0x7F ==> !joined))
  }

  lemma DirectionBytes(key: Typed)
    requires Navigation(key.vk)
    ensures |BytesFor(key)| >= 3 && BytesFor(key)[0] == ESC
    ensures BytesFor(key)[1] == if Arrow(key.vk) && Plain(key.mods) && key.appCursorKeys then 0x4F else 0x5B
    ensures BytesFor(key)[1] == 0x5B ==> BytesFor(key)[2] != 0x5A
  {
    var vk, mp := key.vk, ModParam(key.mods);
    NavigationCodes(vk, key.mods, key.appCursorKeys);
    ModParamReads(vk, key.mods);
    if letter: Byte :| LetterKey(letter) == Some(vk) && BytesFor(key) == CsiArrow(letter, mp, key.appCursorKeys) {
      ArrowBytes(letter, mp, key.appCursorKeys);
    } else {
      var code: nat :| code < 100 && TildeKey(code) == Some(vk) && BytesFor(key) == CsiTilde(code, mp);
      TildeBytes(code, mp);
    }
  }

  lemma ArrowBytes(letter: Byte, mp: nat, app: bool)
    requires 1 <= mp <= 8 && letter != 0x5A
    ensures var s := CsiArrow(letter, mp, app);
      |s| >= 3 && s[0] == ESC && s[1] == (if mp == 1 && app then 0x4F else 0x5B) && s[2] != 0x5A
  {}

  lemma TildeBytes(code: nat, mp: nat)
    requires code < 100 && 1 <= mp <= 8
    ensures var s := CsiTilde(code, mp);
      |s| >= 3 && s[0] == ESC && s[1] == 0x5B && s[2] != 0x5A
  {}

  lemma DirectionReads(key: Typed, rest: seq<Byte>, joined: bool)
    requires Navigation(key.vk)
    ensures ReadOne(BytesFor(key) + rest, joined) == Some((SentFor(key), |BytesFor(key)|))
  {
    var s := BytesFor(key) + rest;
    DirectionBytes(key);
    NavigationReads(key.vk, key.mods, key.appCursorKeys, rest);
    assert s[0] == ESC && s[1] == BytesFor(key)[1] && s[2] == BytesFor(key)[2];
  }

  /** Every key is read back, up to what SentFor forgets, whatever readable bytes follow. */
  lemma KeyReads(key: Typed, rest: seq<Byte>, joined: bool)
    requires BytesFor(key) != [] && ReadableBefore(SentFor(key), rest, joined)
    ensures ReadOne(BytesFor(key) + rest, joined) == Some((SentFor(key), |BytesFor(key)|))
  {
    if Navigation(key.vk) {
      DirectionReads(key, rest, joined);
    } else {
      var s := BytesFor(key) + rest;
      assert forall i | 0 <= i < |BytesFor(key)| :: s[i] == BytesFor(key)[i];
      assert |s| > |BytesFor(key)| ==> s[|BytesFor(key)|] == rest[0];
    }
  }

  lemma NothingIsEmpty(key: Typed)
    ensures BytesFor(key) == [] <==> SentFor(key) == Nothing
  {
    if Navigation(key.vk) {
      DirectionBytes(key);
    }
  }

  // ---------- the bytes are a matter of what is sent ----------

  lemma SameDirectionSameBytes(a: Typed, b: Typed)
    requires Navigation(a.vk) && SentFor(a) == SentFor(b)
    ensures BytesFor(a) == BytesFor(b)
  {
    assert a.vk == b.vk && ModParam(a.mods) == ModParam(b.mods);
    assert ModParam(a.mods) == 1 <==> Plain(a.mods);
  }

  /**
    Over all keys, modifiers and cursor-key modes: two presses send the same bytes if
    and only if they amount to the same.
   */
  lemma SameBytesIff(a: Typed, b: Typed)
    ensures BytesFor(a) == BytesFor(b) <==> SentFor(a) == SentFor(b)
  {
    NothingIsEmpty(a);
    NothingIsEmpty(b);
    if BytesFor(a) == BytesFor(b) != [] {
      KeyReads(a, [], true);
      KeyReads(b, [], true);
      assert BytesFor(a) + [] == BytesFor(a) && BytesFor(b) + [] == BytesFor(b);
    } else if SentFor(a) == SentFor(b) && Navigation(a.vk) {
      SameDirectionSameBytes(a, b);
    }
  }

  // ---------- streams ----------

  /** What a stream of presses amounts to; presses that send nothing leave no trace. */
  function AllSent(keys: seq<Typed>): seq<Sent> {
    if keys == [] then []
    else (if SentFor(keys[0]) == Nothing then [] else [SentFor(keys[0])]) + AllSent(keys[1..])
  }

  /** Only keys of the set. */
  ghost predicate Of(keys: seq<Typed>, allowed: iset<Typed>) {
    forall i | 0 <= i < |keys| :: keys[i] in allowed
  }

  /** Any two streams of such keys with the same bytes are streams of the same presses. */
  ghost predicate Decodable(allowed: iset<Typed>) {
    forall a, b | Of(a, allowed) && Of(b, allowed) && EncodeAll(a) == EncodeAll(b) :: AllSent(a) == AllSent(b)
  }

  ghost predicate Offers(allowed: iset<Typed>, sent: Sent) {
    exists key :: key in allowed && SentFor(key) == sent
  }

  /** How streams of these keys are to be read. */
  ghost predicate ReadsSo(allowed: iset<Typed>, joined: bool) {
    if joined then !Offers(allowed, Escape) || !Offers(allowed, Backspace(false)) else !Offers(allowed, Backspace(true))
  }

  lemma FirstByteOf(key: Typed)
    requires BytesFor(key) != []
    ensures BytesFor(key)[0] != 0x5B && BytesFor(key)[0] != 0x4F
    ensures BytesFor(key)[0] == 0x7F ==> SentFor(key) == Backspace(false)
  {
    if Navigation(key.vk) {
      DirectionBytes(key);
    }
  }

  /** No stream begins with the second byte of a control sequence, and 0x7F in front is Back. */
  lemma {:induction false} FirstByteOfStream(keys: seq<Typed>, allowed: iset<Typed>)
    requires Of(keys, allowed) && EncodeAll(keys) != []
    ensures EncodeAll(keys)[0] != 0x5B && EncodeAll(keys)[0] != 0x4F
    ensures EncodeAll(keys)[0] == 0x7F ==> Offers(allowed, Backspace(false))
  {
    assert keys[0] in allowed;
    if BytesFor(keys[0]) == [] {
      assert EncodeAll(keys) == EncodeAll(keys[1..]);
      FirstByteOfStream(keys[1..], allowed);
    } else {
      FirstByteOf(keys[0]);
      assert EncodeAll(keys)[0] == BytesFor(keys[0])[0];
    }
  }

  lemma StreamHead(keys: seq<Typed>, allowed: iset<Typed>, joined: bool)
    requires keys != [] && Of(keys, allowed) && ReadsSo(allowed, joined) && BytesFor(keys[0]) != []
    ensures ReadOne(EncodeAll(keys), joined) == Some((SentFor(keys[0]), |BytesFor(keys[0])|))
  {
    assert keys[0] in allowed;
    if EncodeAll(keys[1..]) != [] {
      FirstByteOfStream(keys[1..], allowed);
    }
    KeyReads(keys[0], EncodeAll(keys[1..]), joined);
  }

  lemma SkipSilent(keys: seq<Typed>)
    requires keys != [] && BytesFor(keys[0]) == []
    ensures EncodeAll(keys) == EncodeAll(keys[1..]) && AllSent(keys) == AllSent(keys[1..])
  {
    NothingIsEmpty(keys[0]);
  }

  lemma {:induction false} StreamsAgree(a: seq<Typed>, b: seq<Typed>, allowed: iset<Typed>, joined: bool)
    requires Of(a, allowed) && Of(b, allowed) && ReadsSo(allowed, joined) && EncodeAll(a) == EncodeAll(b)
    ensures AllSent(a) == AllSent(b)
    decreases |a| + |b|
  {
    if a != [] && BytesFor(a[0]) == [] {
      SkipSilent(a);
      StreamsAgree(a[1..], b, allowed, joined);
    } else if b != [] && BytesFor(b[0]) == [] {
      SkipSilent(b);
      StreamsAgree(a, b[1..], allowed, joined);
    } else if a != [] && b != [] {
      StreamHead(a, allowed, joined);
      StreamHead(b, allowed, joined);
      TailBytes(a);
      TailBytes(b);
      NothingIsEmpty(a[0]);
      NothingIsEmpty(b[0]);
      StreamsAgree(a[1..], b[1..], allowed, joined);
    }
  }

  lemma TailBytes(keys: seq<Typed>)
    requires keys != []
    ensures |BytesFor(keys[0])| <= |EncodeAll(keys)| && EncodeAll(keys)[|BytesFor(keys[0])|..] == EncodeAll(keys[1..])
  {}

  lemma AltBackIsTwoKeys(altBack: Typed, escape: Typed, back: Typed)
    requires SentFor(altBack) == Backspace(true) && SentFor(escape) == Escape && SentFor(back) == Backspace(false)
    ensures EncodeAll([altBack]) == EncodeAll([escape, back])
    ensures AllSent([altBack]) != AllSent([escape, back])
  {
    assert [altBack][1..] == [] && [escape, back][1..] == [back] && [back][1..] == [];
    assert EncodeAll([escape, back]) == BytesFor(escape) + (BytesFor(back) + EncodeAll([]));
  }

  /**
    The presses of a set can be told apart in any stream, as far as they amount to
    different things, if and only if the set lacks Escape, or Back, or Alt+Back.
   */
  lemma DecodableIff(allowed: iset<Typed>)
    ensures Decodable(allowed) <==>
            !(Offers(allowed, Escape) && Offers(allowed, Backspace(false)) && Offers(allowed, Backspace(true)))
  {
    if Offers(allowed, Escape) && Offers(allowed, Backspace(false)) && Offers(allowed, Backspace(true)) {
      var escape :| escape in allowed && SentFor(escape) == Escape;
      var back :| back in allowed && SentFor(back) == Backspace(false);
      var altBack :| altBack in allowed && SentFor(altBack) == Backspace(true);
      AltBackIsTwoKeys(altBack, escape, back);
      assert Of([altBack], allowed) && Of([escape, back], allowed);
    } else {
      var joined := Offers(allowed, Backspace(true));
      forall a, b | Of(a, allowed) && Of(b, allowed) && EncodeAll(a) == EncodeAll(b)
        ensures AllSent(a) == AllSent(b)
      {
        StreamsAgree(a, b, allowed, joined);
      }
    }
  }
}
