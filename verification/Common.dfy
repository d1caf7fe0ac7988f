/** Small shared vocabulary. */
module Common {
  datatype Option<+T> = None | Some(value: T)

  function Filter<T(!new)>(p: T -> bool, s: seq<T>): (r: seq<T>)
    ensures forall x :: x in r <==> x in s && p(x)
    ensures |r| <= |s|
  {
    if s == [] then []
    else
      var rest := Filter(p, s[1..]);
      assert s == [s[0]] + s[1..];
      if p(s[0]) then [s[0]] + rest else rest
  }

  function Map<T, U>(f: T -> U, s: seq<T>): (r: seq<U>)
    ensures |r| == |s| && forall i | 0 <= i < |s| :: r[i] == f(s[i])
  {
    seq(|s|, i requires 0 <= i < |s| => f(s[i]))
  }

  /** No two elements of the sequence share a key. */
  ghost predicate DistinctKeys<T, K>(key: T -> K, s: seq<T>)
  {
    forall i, j | 0 <= i < j < |s| :: key(s[i]) != key(s[j])
  }

  lemma {:induction false} FilterKeepsDistinct<T(!new), K>(key: T -> K, p: T -> bool, s: seq<T>)
    requires DistinctKeys(key, s)
    ensures DistinctKeys(key, Filter(p, s))
  {
    if s != [] {
      FilterKeepsDistinct(key, p, s[1..]);
      var rest := Filter(p, s[1..]);
      forall j | 0 <= j < |rest| ensures key(rest[j]) != key(s[0]) {
        assert rest[j] in s[1..];
      }
    }
  }

  lemma TimesIsMonotone(d: nat, x: int, y: int)
    requires x <= y
    ensures d * x <= d * y
  {
  }
}
