/** Small types and notions shared by the whole project. */
module Common {
  type Byte = b: int | 0 <= b < 256

  datatype Option<+T> = None | Some(value: T)

  /** c holds the elements of a and those of b, each list in its own order, and nothing else. */
  predicate Interleaves<T(==)>(c: seq<T>, a: seq<T>, b: seq<T>)
    decreases |c|
  {
    if c == [] then a == [] && b == []
    else
      var n := |c| - 1;
      || (a != [] && a[|a| - 1] == c[n] && Interleaves(c[..n], a[..|a| - 1], b))
      || (b != [] && b[|b| - 1] == c[n] && Interleaves(c[..n], a, b[..|b| - 1]))
  }

  lemma InterleaveLeft<T>(c: seq<T>, a: seq<T>, b: seq<T>, x: T)
    requires Interleaves(c, a, b)
    ensures Interleaves(c + [x], a + [x], b)
  {
    assert (c + [x])[..|c|] == c && (a + [x])[..|a|] == a;
  }

  lemma InterleaveRight<T>(c: seq<T>, a: seq<T>, b: seq<T>, x: T)
    requires Interleaves(c, a, b)
    ensures Interleaves(c + [x], a, b + [x])
  {
    assert (c + [x])[..|c|] == c && (b + [x])[..|b|] == b;
  }

  /** The codes of some characters below U+0080. */
  function Ascii(s: string): (codes: seq<Byte>)
    requires forall i | 0 <= i < |s| :: s[i] as int < 0x80
    ensures |codes| == |s|
  {
    seq(|s|, i requires 0 <= i < |s| => s[i] as int)
  }
}
