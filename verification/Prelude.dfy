// Names shared by the modules of this project.

module Prelude {

  datatype Option<+T> = None | Some(value: T)

  // maxPromptsPerCall.
  const MAX_PROMPTS := 10

  predicate OccursAt<T(==)>(s: seq<T>, i: nat, part: seq<T>) {
    i + |part| <= |s| && s[i..][..|part|] == part
  }

  // The first place of x, or -1.
  function IndexOf<T(==)>(s: seq<T>, x: T): (i: int)
    ensures -1 <= i < |s| && (i >= 0 ==> s[i] == x)
    ensures if i >= 0 then x !in s[..i] else x !in s
  {
    if s == [] then -1 else if s[0] == x then 0
    else
      var i := IndexOf(s[1..], x);
      if i < 0 then -1 else
        assert s[..i + 1] == [s[0]] + s[1..][..i];
        i + 1
  }

  // A Go map read: the stored value, or zero when the key is absent.
  function Count<K>(m: map<K, nat>, k: K): nat {
    if k in m then m[k] else 0
  }

  // m[k]++ on a Go map.
  function Inc<K(!new)>(m: map<K, nat>, k: K): (r: map<K, nat>)
    ensures forall j :: Count(r, j) == Count(m, j) + (if j == k then 1 else 0)
  {
    m[k := Count(m, k) + 1]
  }

  // m[k]--, deleting the entry that reaches zero.
  function Dec<K(!new)>(m: map<K, nat>, k: K): (r: map<K, nat>)
    ensures forall j :: Count(r, j) == if j == k && Count(m, j) > 0 then Count(m, j) - 1 else Count(m, j)
  {
    if Count(m, k) <= 1 then m - {k} else m[k := m[k] - 1]
  }

  // strconv.FormatUint(n, 10).
  function Decimal(n: nat): (s: string)
    ensures |s| > 0 && forall i :: 0 <= i < |s| ==> '0' <= s[i] <= '9'
  {
    if n < 10 then [Digit(n)] else Decimal(n / 10) + [Digit(n % 10)]
  }

  function Digit(d: nat): (c: char)
    requires d < 10
    ensures '0' <= c <= '9' && (c as int) == 48 + d
  {
    (48 + d) as char
  }

  function DecimalValue(s: string): int {
    if s == [] then 0 else 10 * DecimalValue(s[..|s| - 1]) + (s[|s| - 1] as int - 48)
  }

  lemma {:induction false} DecimalRoundTrip(n: nat)
    ensures DecimalValue(Decimal(n)) == n
  {
    if n >= 10 {
      DecimalRoundTrip(n / 10);
      var s := Decimal(n);
      assert s[..|s| - 1] == Decimal(n / 10);
    } else {
      assert Decimal(n)[..0] == [];
    }
  }

  lemma SmallerSet<T>(a: set<T>, b: set<T>)
    requires a <= b
    ensures |a| <= |b|
  {
    assert b == a + (b - a);
  }
}
