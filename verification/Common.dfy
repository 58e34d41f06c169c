/** Option and Result, as the components of the model share them. */
module Wrappers {
  datatype Option<+T> = None | Some(value: T)
  {
    function GetOr(default: T): T {
      match this
      case Some(v) => v
      case None => default
    }
  }

  datatype Result<+T> = Ok(value: T) | Err(reason: string)
}

/** Lists that name each of their elements once. */
module Lists {
  predicate DistinctUpTo<T(==)>(s: seq<T>, k: nat)
    requires k <= |s|
  {
    k == 0 || (s[k - 1] !in s[..k - 1] && DistinctUpTo(s, k - 1))
  }

  predicate Distinct<T(==)>(s: seq<T>) { DistinctUpTo(s, |s|) }

  lemma {:induction false} NewAt<T>(s: seq<T>, k: nat, n: nat)
    requires k < n <= |s| && DistinctUpTo(s, n)
    ensures s[..k + 1] == s[..k] + [s[k]] && s[k] !in s[..k]
  {
    if k < n - 1 { NewAt(s, k, n - 1); }
  }

  lemma {:induction false} DistinctPrefix<T>(s: seq<T>, k: nat, n: nat)
    requires k <= n <= |s| && DistinctUpTo(s, n)
    ensures DistinctUpTo(s[..n], k)
  {
    if k > 0 {
      DistinctPrefix(s, k - 1, n);
      NewAt(s, k - 1, n);
      assert s[..n][..k - 1] == s[..k - 1];
    }
  }

  lemma {:induction false} DistinctMore<T>(s: seq<T>, more: seq<T>, k: nat)
    requires k <= |s| && DistinctUpTo(s, k)
    ensures DistinctUpTo(s + more, k)
  {
    if k > 0 {
      DistinctMore(s, more, k - 1);
      assert (s + more)[..k - 1] == s[..k - 1];
    }
  }

  lemma DistinctAppend<T>(s: seq<T>, x: T)
    requires Distinct(s) && x !in s
    ensures Distinct(s + [x])
  {
    DistinctMore(s, [x], |s|);
    assert (s + [x])[..|s|] == s;
  }
}
