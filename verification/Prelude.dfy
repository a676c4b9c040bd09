/** Small shared vocabulary: optional values, results, and prefix tests on strings. */
module Prelude {
  datatype Option<+T> = None | Some(value: T)

  datatype Result<+T, +E> = Ok(value: T) | Err(error: E)

  /** The id of a JSON-RPC request. */
  datatype RequestId = IntegerId(n: int) | StringId(s: string)

  predicate StartsWith(s: string, prefix: string) {
    |prefix| <= |s| && s[..|prefix|] == prefix
  }

  /** `Vec::retain` and `Map::retain`. */
  function Retain<T>(xs: seq<T>, keep: T -> bool): (r: seq<T>)
    ensures forall x | x in r :: x in xs && keep(x)
    ensures forall x | x in xs && keep(x) :: x in r
    ensures |r| <= |xs|
  {
    if xs == [] then []
    else if keep(xs[0]) then [xs[0]] + Retain(xs[1..], keep)
    else Retain(xs[1..], keep)
  }

  lemma {:induction false} RetainAll<T>(xs: seq<T>, keep: T -> bool)
    ensures Retain(xs, keep) == xs <==> forall x | x in xs :: keep(x)
    ensures Retain(xs, keep) == xs || |Retain(xs, keep)| < |xs|
  {
    if xs == [] {
    } else {
      RetainAll(xs[1..], keep);
      assert xs == [xs[0]] + xs[1..];
      if !keep(xs[0]) { assert |Retain(xs, keep)| < |xs|; }
    }
  }

  lemma {:induction false} RetainConcat<T>(xs: seq<T>, ys: seq<T>, keep: T -> bool)
    ensures Retain(xs + ys, keep) == Retain(xs, keep) + Retain(ys, keep)
  {
    if xs == [] {
      assert xs + ys == ys;
    } else {
      assert (xs + ys)[0] == xs[0] && (xs + ys)[1..] == xs[1..] + ys;
      RetainConcat(xs[1..], ys, keep);
    }
  }

  lemma RetainOne<T>(x: T, keep: T -> bool)
    ensures Retain([x], keep) == if keep(x) then [x] else []
  {
  }

  /** A kept element stands where the number of kept elements before it says: order is kept and nothing is repeated. */
  lemma RetainKeepsOrder<T>(xs: seq<T>, keep: T -> bool, i: nat)
    requires i < |xs| && keep(xs[i])
    ensures |Retain(xs[..i], keep)| < |Retain(xs, keep)|
    ensures Retain(xs, keep)[|Retain(xs[..i], keep)|] == xs[i]
  {
    assert xs == xs[..i] + xs[i..];
    RetainConcat(xs[..i], xs[i..], keep);
  }

  /** `s` is `t` with some elements left out, the others in their order. */
  ghost predicate Subsequence<T>(s: seq<T>, t: seq<T>) {
    if s == [] then true
    else if t == [] then false
    else (s[0] == t[0] && Subsequence(s[1..], t[1..])) || Subsequence(s, t[1..])
  }

  /** An element more on the right of both, or of the longer one. */
  lemma {:induction false} SubsequenceGrows<T>(s: seq<T>, t: seq<T>, x: T)
    requires Subsequence(s, t)
    ensures Subsequence(s + [x], t + [x]) && Subsequence(s, t + [x])
    decreases |t|
  {
    if t == [] {
      assert s + [x] == [x] && t + [x] == [x];
    } else {
      assert (t + [x])[1..] == t[1..] + [x];
      if s != [] && s[0] == t[0] && Subsequence(s[1..], t[1..]) {
        assert (s + [x])[1..] == s[1..] + [x];
        SubsequenceGrows(s[1..], t[1..], x);
      } else {
        SubsequenceGrows(s, t[1..], x);
      }
    }
  }
}
