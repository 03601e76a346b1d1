/** Virtual keys to xterm input sequences (keymap.rs), and a reader for them. */
module Keymap {
  import opened Common

  const ESC: Byte := 0x1B

  const VK_BACK := 0x08
  const VK_TAB := 0x09
  const VK_RETURN := 0x0D
  const VK_ESCAPE := 0x1B
  const VK_PRIOR := 0x21
  const VK_NEXT := 0x22
  const VK_END := 0x23
  const VK_HOME := 0x24
  const VK_LEFT := 0x25
  const VK_UP := 0x26
  const VK_RIGHT := 0x27
  const VK_DOWN := 0x28
  const VK_INSERT := 0x2D
  const VK_DELETE := 0x2E
  const VK_F1 := 0x70
  const VK_F12 := 0x7B

  /** Codes of F1 to F12. */
  const F_CODES: seq<nat> := [11, 12, 13, 14, 15, 17, 18, 19, 20, 21, 23, 24]

  predicate Shift(mods: nat) { mods % 2 != 0 }
  predicate Ctrl(mods: nat) { mods / 2 % 2 != 0 }
  predicate Alt(mods: nat) { mods / 4 % 2 != 0 }

  function ModParam(mods: nat): nat {
    1 + (if Shift(mods) then 1 else 0) + (if Alt(mods) then 2 else 0) + (if Ctrl(mods) then 4 else 0)
  }

  /** A number below 100 in decimal. */
  function Decimal(n: nat): seq<Byte>
    requires n < 100
  {
    if n < 10 then [0x30 + n] else [0x30 + n / 10, 0x30 + n % 10]
  }

  function CsiArrow(letter: Byte, mp: nat, appCursorKeys: bool): seq<Byte>
    requires mp < 100
  {
    if mp != 1 then [ESC, 0x5B, 0x31, 0x3B] + Decimal(mp) + [letter]
    else if appCursorKeys then [ESC, 0x4F, letter]
    else [ESC, 0x5B, letter]
  }

  function CsiTilde(code: nat, mp: nat): seq<Byte>
    requires code < 100 && mp < 100
  {
    if mp != 1 then [ESC, 0x5B] + Decimal(code) + [0x3B] + Decimal(mp) + [0x7E]
    else [ESC, 0x5B] + Decimal(code) + [0x7E]
  }

  function Encode(vk: nat, mods: nat, appCursorKeys: bool): seq<Byte> {
    var mp := ModParam(mods);
    if vk == VK_BACK then (if Alt(mods) then [ESC, 0x7F] else [0x7F])
    else if vk == VK_TAB then (if Shift(mods) then [ESC, 0x5B, 0x5A] else [0x09])
    else if vk == VK_RETURN then [0x0D]
    else if vk == VK_ESCAPE then [ESC]
    else if vk == VK_UP then CsiArrow(0x41, mp, appCursorKeys)
    else if vk == VK_DOWN then CsiArrow(0x42, mp, appCursorKeys)
    else if vk == VK_RIGHT then CsiArrow(0x43, mp, appCursorKeys)
    else if vk == VK_LEFT then CsiArrow(0x44, mp, appCursorKeys)
    else if vk == VK_HOME then CsiArrow(0x48, mp, appCursorKeys)
    else if vk == VK_END then CsiArrow(0x46, mp, appCursorKeys)
    else if vk == VK_INSERT then CsiTilde(2, mp)
    else if vk == VK_DELETE then CsiTilde(3, mp)
    else if vk == VK_PRIOR then CsiTilde(5, mp)
    else if vk == VK_NEXT then CsiTilde(6, mp)
    else if VK_F1 <= vk <= VK_F12 then CsiTilde(F_CODES[vk - VK_F1], mp)
    else if Ctrl(mods) && 0x41 <= vk <= 0x5A then [vk - 0x41 + 1]
    else []
  }

  /** The sequences of unmodified keys, by their virtual-key codes. */
  lemma PlainSequences()
    ensures Encode(0x08, 0, false) == [0x7F] && Encode(0x09, 0, false) == [0x09]
    ensures Encode(0x0D, 0, false) == [0x0D] && Encode(0x1B, 0, false) == [0x1B]
    ensures Encode(0x26, 0, false) == [0x1B, '[' as int, 'A' as int]
    ensures Encode(0x28, 0, false) == [0x1B, '[' as int, 'B' as int]
    ensures Encode(0x27, 0, false) == [0x1B, '[' as int, 'C' as int]
    ensures Encode(0x25, 0, false) == [0x1B, '[' as int, 'D' as int]
    ensures Encode(0x24, 0, false) == [0x1B, '[' as int, 'H' as int]
    ensures Encode(0x23, 0, false) == [0x1B, '[' as int, 'F' as int]
    ensures Encode(0x2D, 0, false) == [0x1B, '[' as int, '2' as int, '~' as int]
    ensures Encode(0x2E, 0, false) == [0x1B, '[' as int, '3' as int, '~' as int]
    ensures Encode(0x21, 0, false) == [0x1B, '[' as int, '5' as int, '~' as int]
    ensures Encode(0x22, 0, false) == [0x1B, '[' as int, '6' as int, '~' as int]
    ensures forall vk, app | 0x23 <= vk <= 0x28 :: Encode(vk, 0, app)[2..] == Encode(vk, 0, false)[2..]
                                                  && Encode(vk, 0, app)[1] == if app then 'O' as int else '[' as int
  {}

  /** F1 to F5 are 11 to 15, F6 to F10 are 17 to 21, F11 and F12 are 23 and 24. */
  lemma FunctionKeySequences(n: nat)
    requires 1 <= n <= 12
    ensures var code := if n <= 5 then 10 + n else if n <= 10 then 11 + n else 12 + n;
      Encode(0x6F + n, 0, false) == [0x1B, '[' as int, '0' as int + code / 10, '0' as int + code % 10, '~' as int]
  {}

  /**
    Modifier masks: 1 is Shift, 2 Ctrl, 4 Alt. xterm's parameter counts Shift as 1, Alt
    as 2 and Ctrl as 4, from 1 on.
   */
  lemma ModifierBits(shift: nat, ctrl: nat, alt: nat, others: nat)
    requires shift < 2 && ctrl < 2 && alt < 2
    ensures var mods := shift + 2 * ctrl + 4 * alt + 8 * others;
      && ModParam(mods) == 1 + shift + 2 * alt + 4 * ctrl
      && (Shift(mods) <==> shift == 1) && (Ctrl(mods) <==> ctrl == 1) && (Alt(mods) <==> alt == 1)
  {
    LowBit(shift, ctrl + 2 * (alt + 2 * others));
    LowBit(ctrl, alt + 2 * others);
    LowBit(alt, others);
    Quarter(shift + 2 * (ctrl + 2 * (alt + 2 * others)));
  }

  lemma LowBit(bit: nat, rest: nat)
    requires bit < 2
    ensures (bit + 2 * rest) % 2 == bit && (bit + 2 * rest) / 2 == rest
  {}

  lemma Quarter(n: nat)
    ensures n / 4 == n / 2 / 2
  {}

  /** What modifiers do to a key: a parameter for navigation keys, and one effect each on letters, Back and Tab. */
  lemma ModifiedKeys(shift: nat, ctrl: nat, alt: nat, others: nat, app: bool, vk: nat)
    requires shift < 2 && ctrl < 2 && alt < 2
    ensures var mods := shift + 2 * ctrl + 4 * alt + 8 * others;
      && (0x41 <= vk <= 0x5A ==> Encode(vk, mods, app) == if ctrl == 1 then [vk - 0x40] else [])
      && Encode(0x08, mods, app) == (if alt == 1 then [0x1B, 0x7F] else [0x7F])
      && Encode(0x09, mods, app) == (if shift == 1 then [0x1B, '[' as int, 'Z' as int] else [0x09])
      && (shift + ctrl + alt > 0 ==>
            && Encode(0x26, mods, app)
               == [0x1B, '[' as int, '1' as int, ';' as int, '1' as int + shift + 2 * alt + 4 * ctrl, 'A' as int]
            && Encode(0x2E, mods, app)
               == [0x1B, '[' as int, '3' as int, ';' as int, '1' as int + shift + 2 * alt + 4 * ctrl, '~' as int])
  {
    ModifierBits(shift, ctrl, alt, others);
  }

  // ---------- reading key sequences back ----------

  /** The keys whose sequences carry their modifiers. */
  predicate Navigation(vk: nat) {
    || VK_PRIOR <= vk <= VK_DOWN
    || vk == VK_INSERT || vk == VK_DELETE
    || VK_F1 <= vk <= VK_F12
  }

  datatype Press = Press(vk: nat, shift: bool, alt: bool, ctrl: bool)

  /** A control sequence in the format of section 5.4 of ECMA-48: parameter bytes, then a final byte. */
  datatype Csi = Csi(params: seq<Byte>, final: Byte)

  predicate ParamByte(b: Byte) {
    0x30 <= b <= 0x3F
  }

  /** Length of the leading run of parameter bytes. */
  function ParamLength(s: seq<Byte>): (n: nat)
    ensures n <= |s|
  {
    if s == [] || !ParamByte(s[0]) then 0 else 1 + ParamLength(s[1..])
  }

  function Number(s: seq<Byte>): Option<nat> {
    if |s| == 1 && 0x30 <= s[0] <= 0x39 then Some(s[0] - 0x30)
    else if |s| == 2 && 0x30 <= s[0] <= 0x39 && 0x30 <= s[1] <= 0x39 then
      Some(10 * (s[0] as int - 0x30) + (s[1] as int - 0x30))
    else None
  }

  /** Position of the first semicolon, or the length. */
  function Semicolon(s: seq<Byte>): (n: nat)
    ensures n <= |s|
  {
    if s == [] || s[0] == 0x3B then 0 else 1 + Semicolon(s[1..])
  }

  /** At most two numbers, the second defaulting to 1. */
  function Params(s: seq<Byte>): Option<(nat, nat)> {
    var n := Semicolon(s);
    if s == [] then Some((1, 1))
    else match Number(s[..n])
      case None => None
      case Some(first) =>
        if n == |s| then Some((first, 1))
        else match Number(s[n + 1..])
          case None => None
          case Some(second) => Some((first, second))
  }

  function LetterKey(final: Byte): Option<nat> {
    if final == 0x41 then Some(VK_UP)
    else if final == 0x42 then Some(VK_DOWN)
    else if final == 0x43 then Some(VK_RIGHT)
    else if final == 0x44 then Some(VK_LEFT)
    else if final == 0x48 then Some(VK_HOME)
    else if final == 0x46 then Some(VK_END)
    else None
  }

  function TildeKey(code: nat): Option<nat> {
    match code
    case 2 => Some(VK_INSERT)
    case 3 => Some(VK_DELETE)
    case 5 => Some(VK_PRIOR)
    case 6 => Some(VK_NEXT)
    case _ =>
      if 11 <= code <= 15 then Some(VK_F1 + code - 11)
      else if 17 <= code <= 21 then Some(VK_F1 + code - 12)
      else if 23 <= code <= 24 then Some(VK_F1 + code - 13)
      else None
  }

  function PressOf(vk: nat, mp: nat): Option<Press> {
    if 1 <= mp <= 8 then
      Some(Press(vk, (mp - 1) % 2 == 1, (mp - 1) / 2 % 2 == 1, (mp - 1) / 4 % 2 == 1))
    else None
  }

  function Interpret(csi: Csi): Option<Press> {
    match Params(csi.params)
    case None => None
    case Some((first, second)) =>
      match (if csi.final == 0x7E then TildeKey(first) else LetterKey(csi.final))
      case None => None
      case Some(vk) => PressOf(vk, second)
  }

  /** The first key of a byte stream, and how many bytes it takes. */
  function DecodeOne(s: seq<Byte>): (r: Option<(Press, nat)>)
    ensures r.Some? ==> 1 <= r.value.1 <= |s|
  {
    if |s| < 3 || s[0] != ESC then None
    else if s[1] == 0x4F then
      match LetterKey(s[2])
      case None => None
      case Some(vk) => Some((Press(vk, false, false, false), 3))
    else if s[1] == 0x5B then
      var n := ParamLength(s[2..]);
      if n + 2 == |s| then None
      else match Interpret(Csi(s[2..2 + n], s[2 + n]))
        case None => None
        case Some(press) => Some((press, n + 3))
    else None
  }

  function DecodeAll(s: seq<Byte>): Option<seq<Press>> {
    if s == [] then Some([])
    else match DecodeOne(s)
      case None => None
      case Some((press, n)) =>
        match DecodeAll(s[n..])
        case None => None
        case Some(more) => Some([press] + more)
  }

  // ---------- the round trip ----------

  lemma {:induction false} ParamsEnd(params: seq<Byte>, rest: seq<Byte>)
    requires forall i | 0 <= i < |params| :: ParamByte(params[i])
    requires rest != [] && !ParamByte(rest[0])
    ensures ParamLength(params + rest) == |params|
  {
    if params == [] {
      assert params + rest == rest;
    } else {
      assert (params + rest)[1..] == params[1..] + rest;
      ParamsEnd(params[1..], rest);
    }
  }

  lemma DecodeCsi(params: seq<Byte>, final: Byte, rest: seq<Byte>)
    requires forall i | 0 <= i < |params| :: ParamByte(params[i])
    requires !ParamByte(final) && Interpret(Csi(params, final)).Some?
    ensures DecodeOne([ESC, 0x5B] + params + [final] + rest)
            == Some((Interpret(Csi(params, final)).value, |params| + 3))
  {
    var s := [ESC, 0x5B] + params + [final] + rest;
    assert s[2..] == params + ([final] + rest);
    ParamsEnd(params, [final] + rest);
    assert s[2..2 + |params|] == params;
  }

  lemma DecimalReads(n: nat)
    requires n < 100
    ensures Number(Decimal(n)) == Some(n)
    ensures forall i | 0 <= i < |Decimal(n)| :: ParamByte(Decimal(n)[i]) && Decimal(n)[i] != 0x3B
  {}

  lemma {:induction false} SemicolonAfter(a: seq<Byte>, b: seq<Byte>)
    requires forall i | 0 <= i < |a| :: a[i] != 0x3B
    ensures Semicolon(a) == |a|
    ensures Semicolon(a + [0x3B] + b) == |a|
  {
    if a != [] {
      assert (a + [0x3B] + b)[1..] == a[1..] + [0x3B] + b;
      SemicolonAfter(a[1..], b);
    }
  }

  lemma OneParam(n: nat)
    requires n < 100
    ensures Params(Decimal(n)) == Some((n, 1))
  {
    DecimalReads(n);
    SemicolonAfter(Decimal(n), []);
    assert Decimal(n)[..|Decimal(n)|] == Decimal(n);
  }

  lemma TwoParams(n: nat, m: nat)
    requires n < 100 && m < 100
    ensures Params(Decimal(n) + [0x3B] + Decimal(m)) == Some((n, m))
  {
    var s := Decimal(n) + [0x3B] + Decimal(m);
    DecimalReads(n);
    DecimalReads(m);
    SemicolonAfter(Decimal(n), Decimal(m));
    assert s[..|Decimal(n)|] == Decimal(n) && s[|Decimal(n)| + 1..] == Decimal(m);
  }

  lemma ModParamReads(vk: nat, mods: nat)
    ensures 1 <= ModParam(mods) <= 8
    ensures PressOf(vk, ModParam(mods)) == Some(Press(vk, Shift(mods), Alt(mods), Ctrl(mods)))
  {}

  lemma ArrowReads(vk: nat, letter: Byte, mods: nat, app: bool, rest: seq<Byte>)
    requires LetterKey(letter) == Some(vk)
    ensures DecodeOne(CsiArrow(letter, ModParam(mods), app) + rest)
            == Some((Press(vk, Shift(mods), Alt(mods), Ctrl(mods)), |CsiArrow(letter, ModParam(mods), app)|))
  {
    var mp := ModParam(mods);
    ModParamReads(vk, mods);
    if mp != 1 {
      var params := Decimal(1) + [0x3B] + Decimal(mp);
      TwoParams(1, mp);
      DecimalReads(mp);
      DecodeCsi(params, letter, rest);
      assert CsiArrow(letter, mp, app) + rest == [ESC, 0x5B] + params + [letter] + rest;
    } else if !app {
      DecodeCsi([], letter, rest);
      assert CsiArrow(letter, mp, app) + rest == [ESC, 0x5B] + [] + [letter] + rest;
    }
  }

  lemma TildeReads(vk: nat, code: nat, mods: nat, rest: seq<Byte>)
    requires code < 100 && TildeKey(code) == Some(vk)
    ensures DecodeOne(CsiTilde(code, ModParam(mods)) + rest)
            == Some((Press(vk, Shift(mods), Alt(mods), Ctrl(mods)), |CsiTilde(code, ModParam(mods))|))
  {
    var mp := ModParam(mods);
    ModParamReads(vk, mods);
    DecimalReads(code);
    if mp != 1 {
      var params := Decimal(code) + [0x3B] + Decimal(mp);
      TwoParams(code, mp);
      DecimalReads(mp);
      DecodeCsi(params, 0x7E, rest);
      assert CsiTilde(code, mp) + rest == [ESC, 0x5B] + params + [0x7E] + rest;
    } else {
      OneParam(code);
      DecodeCsi(Decimal(code), 0x7E, rest);
    }
  }

  /** Which table entry a navigation key goes through. */
  lemma NavigationCodes(vk: nat, mods: nat, app: bool)
    requires Navigation(vk)
    ensures || (exists letter: Byte :: LetterKey(letter) == Some(vk)
                  && Encode(vk, mods, app) == CsiArrow(letter, ModParam(mods), app))
            || (exists code: nat :: code < 100 && TildeKey(code) == Some(vk)
                  && Encode(vk, mods, app) == CsiTilde(code, ModParam(mods)))
  {
    if VK_F1 <= vk <= VK_F12 {
      assert TildeKey(F_CODES[vk - VK_F1]) == Some(vk);
    } else if vk == VK_INSERT || vk == VK_DELETE || vk == VK_PRIOR || vk == VK_NEXT {
      var code := if vk == VK_INSERT then 2 else if vk == VK_DELETE then 3 else if vk == VK_PRIOR then 5 else 6;
      assert TildeKey(code) == Some(vk) && Encode(vk, mods, app) == CsiTilde(code, ModParam(mods));
    } else {
      var letter: Byte := if vk == VK_UP then 0x41 else if vk == VK_DOWN then 0x42 else if vk == VK_RIGHT then 0x43
                          else if vk == VK_LEFT then 0x44 else if vk == VK_HOME then 0x48 else 0x46;
      assert LetterKey(letter) == Some(vk) && Encode(vk, mods, app) == CsiArrow(letter, ModParam(mods), app);
    }
  }

  /** Whatever follows it, a navigation key is read back with its modifiers. */
  lemma NavigationReads(vk: nat, mods: nat, app: bool, rest: seq<Byte>)
    requires Navigation(vk)
    ensures DecodeOne(Encode(vk, mods, app) + rest)
            == Some((Press(vk, Shift(mods), Alt(mods), Ctrl(mods)), |Encode(vk, mods, app)|))
  {
    NavigationCodes(vk, mods, app);
    if letter: Byte :| LetterKey(letter) == Some(vk) && Encode(vk, mods, app) == CsiArrow(letter, ModParam(mods), app) {
      ArrowReads(vk, letter, mods, app, rest);
    } else {
      var code: nat :| code < 100 && TildeKey(code) == Some(vk) && Encode(vk, mods, app) == CsiTilde(code, ModParam(mods));
      TildeReads(vk, code, mods, rest);
    }
  }

  /** One key as typed: the cursor-key mode may change from press to press. */
  datatype Typed = Typed(vk: nat, mods: nat, appCursorKeys: bool)

  function EncodeAll(keys: seq<Typed>): seq<Byte> {
    if keys == [] then [] else Encode(keys[0].vk, keys[0].mods, keys[0].appCursorKeys) + EncodeAll(keys[1..])
  }

  function Presses(keys: seq<Typed>): seq<Press> {
    seq(|keys|, i requires 0 <= i < |keys| =>
      Press(keys[i].vk, Shift(keys[i].mods), Alt(keys[i].mods), Ctrl(keys[i].mods)))
  }

  /** Any stream of navigation keys decodes back to exactly the keys and modifiers typed. */
  lemma {:induction false} KeysUniquelyDecodable(keys: seq<Typed>)
    requires forall i | 0 <= i < |keys| :: Navigation(keys[i].vk)
    ensures DecodeAll(EncodeAll(keys)) == Some(Presses(keys))
  {
    if keys != [] {
      var k := keys[0];
      var head, tail := Encode(k.vk, k.mods, k.appCursorKeys), EncodeAll(keys[1..]);
      KeysUniquelyDecodable(keys[1..]);
      NavigationReads(k.vk, k.mods, k.appCursorKeys, tail);
      assert (head + tail)[|head|..] == tail;
      assert Presses(keys) == [Presses(keys)[0]] + Presses(keys[1..]);
    }
  }
}
