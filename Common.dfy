/// Small shared vocabulary: optional values, bytes, powers of two and the
/// first-match search that every lookup of the viewer performs.
module Common {

  /// A value that may be missing (a null pointer, a NaN, a failed conversion).
  datatype Option<T> = None | Some(value: T)

  /// An unsigned 8-bit value.
  type byte = x: int | 0 <= x < 256

  /// 2^n.
  function Pow2(n: nat): (r: nat)
    ensures r >= 1
  {
    if n == 0 then 1 else 2 * Pow2(n - 1)
  }

  lemma {:induction false} Pow2Add(a: nat, b: nat)
    ensures Pow2(a + b) == Pow2(a) * Pow2(b)
  {
    if a > 0 {
      Pow2Add(a - 1, b);
    }
  }

  lemma {:induction false} Pow2Monotone(a: nat, b: nat)
    requires a <= b
    ensures Pow2(a) <= Pow2(b)
  {
    if a < b {
      Pow2Monotone(a, b - 1);
    }
  }

  lemma Pow2Values()
    ensures Pow2(8) == 0x100 && Pow2(16) == 0x1_0000 && Pow2(24) == 0x100_0000
    ensures Pow2(32) == 0x1_0000_0000 && Pow2(63) == 0x8000_0000_0000_0000
    ensures Pow2(64) == 0x1_0000_0000_0000_0000
  {
    assert Pow2(4) == 16;
    Pow2Add(4, 4);
    Pow2Add(8, 8);
    Pow2Add(16, 8);
    Pow2Add(16, 16);
    Pow2Add(32, 32);
    assert Pow2(64) == 2 * Pow2(63);
  }

  /// Every power of two up to the 64th fits in 64 bits plus one.
  lemma Pow2AtMost64(n: nat)
    requires n <= 64
    ensures Pow2(n) <= 0x1_0000_0000_0000_0000
  {
    Pow2Monotone(n, 64);
    Pow2Values();
  }

  const U32: nat := 0x1_0000_0000
  const U64: nat := 0x1_0000_0000_0000_0000

  /// The index of the first element of `s` that satisfies `p`, if any:
  /// the common shape of the viewer's linear lookups, which return a
  /// pointer to the first hit or null.
  function FirstIndex<T>(s: seq<T>, p: T -> bool): (r: Option<nat>)
    ensures r.Some? ==> r.value < |s| && p(s[r.value])
    ensures r.Some? ==> forall j :: 0 <= j < r.value ==> !p(s[j])
    ensures r.None? <==> forall j :: 0 <= j < |s| ==> !p(s[j])
  {
    if s == [] then None
    else if p(s[0]) then Some(0)
    else match FirstIndex(s[1..], p)
      case None => None
      case Some(k) => Some(k + 1)
  }

  /// A non-empty sequence is its prefix followed by its last element.
  lemma SnocLast<T>(s: seq<T>)
    requires |s| > 0
    ensures s[..|s| - 1] + [s[|s| - 1]] == s
  {
  }

  /// Dropping the last element of `[x] + s` drops the last element of `s`.
  lemma ConsInit<T>(x: T, s: seq<T>)
    requires |s| > 0
    ensures ([x] + s)[..|s|] == [x] + s[..|s| - 1]
    ensures ([x] + s)[|s|] == s[|s| - 1]
  {
  }
}
