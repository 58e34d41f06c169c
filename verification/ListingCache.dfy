/**
 The listing cache of the gfal file interface, and what it answers about the storage. A path is its
 non-empty sequence of components; one clock reading serves one operation.
 */
module ListingCache {
  import opened Wrappers

  type Path = p: seq<string> | p != [] witness ["/"]

  function Parent(p: Path): Path requires |p| >= 2 { p[..|p| - 1] }

  predicate Above(q: Path, p: Path) { |q| < |p| && p[..|q|] == q }

  datatype Entry = Entry(there: bool, expires: int, listed: bool)

  type Cache = map<Path, Entry>

  predicate Valid(c: Cache, p: Path, now: int) { p in c && c[p].expires >= now }

  // ---- the cache -------------------------------------------------------------------------------

  /** What `set` stores: a parent's listing must not forget that this directory was listed itself. */
  function NewEntry(c: Cache, validity: int, now: int, p: Path, there: bool, listed: bool): Entry {
    Entry(there, now + validity, there && (listed || (Valid(c, p, now) && c[p].listed)))
  }

  function DropNegativesAbove(c: Cache, p: Path): Cache {
    map q | q in c && !(Above(q, p) && !c[q].there) :: c[q]
  }

  function Put(c: Cache, validity: int, now: int, p: Path, there: bool, listed: bool): Cache {
    var c1 := c[p := NewEntry(c, validity, now, p, there, listed)];
    if there then DropNegativesAbove(c1, p) else c1
  }

  function Kids(c: Cache, validity: int, now: int, d: Path, names: set<string>): Cache {
    map p: Path | p in (set n <- names :: d + [n]) :: NewEntry(c, validity, now, p, true, false)
  }

  function PutListing(c: Cache, validity: int, now: int, d: Path, names: set<string>): Cache {
    Put(c + Kids(c, validity, now, d, names), validity, now, d, true, true)
  }

  /** Directory-negative inference, on the nearest ancestor with a valid entry; expired ones are dropped. */
  function Climb(c: Cache, now: int, p: Path): (Option<bool>, Cache)
    decreases |p|
  {
    if |p| < 2 then (None, c)
    else
      var q := Parent(p);
      if q !in c then Climb(c, now, q)
      else if !Valid(c, q, now) then Climb(c - {q}, now, q)
      else (if c[q].there then None else Some(false), c)
  }

  function Get(c: Cache, now: int, p: Path): (Option<bool>, Cache) {
    if Valid(c, p, now) then (Some(c[p].there), c) else Climb(c - {p}, now, p)
  }

  predicate WasListed(c: Cache, now: int, d: Path) { Valid(c, d, now) && c[d].there && c[d].listed }

  class PathCache {
    const validity: int
    var cache: Cache

    constructor (validity: int)
      ensures this.validity == validity && cache == map[]
    {
      this.validity, cache := validity, map[];
    }

    method Set(p: Path, there: bool, listed: bool, now: int)
      modifies this
      ensures cache == Put(old(cache), validity, now, p, there, listed)
    {
      cache := cache[p := NewEntry(cache, validity, now, p, there, listed)];
      if there {
        ghost var stored := cache;
        var n := |p| - 1;
        while n > 0
          invariant 0 <= n < |p|
          invariant cache == DropNegativesFrom(stored, p, n)
        {
          var q := p[..n];
          DropOneMore(stored, p, n);
          if q in cache && !cache[q].there { cache := cache - {q}; }
          n := n - 1;
        }
      }
    }

    /** A listing of `d`: every name exists, and a name that is not among them does not. */
    method SetExists(d: Path, names: set<string>, now: int)
      modifies this
      ensures cache == PutListing(old(cache), validity, now, d, names)
    {
      ghost var before := cache;
      var rest, done := names, {};
      while rest != {}
        invariant done + rest == names && done !! rest
        invariant done == {} ==> cache == before
        invariant done != {} ==> cache == DropNegativesAbove(before + Kids(before, validity, now, d, done), d + [""])
      {
        var n :| n in rest;
        NextKid(before, cache, validity, now, d, done, n);
        Set(d + [n], true, false, now);
        rest, done := rest - {n}, done + {n};
      }
      LastKid(before, validity, now, d, names);
      Set(d, true, true, now);
    }

    method Clear()
      modifies this
      ensures cache == map[]
    {
      cache := map[];
    }

    method Lookup(p: Path, now: int) returns (answer: Option<bool>)
      modifies this
      ensures (answer, cache) == Get(old(cache), now, p)
    {
      if p in cache {
        if cache[p].expires >= now { return Some(cache[p].there); }
        cache := cache - {p};
      }
      ghost var start := cache;
      var n := |p| - 1;
      assert p[..n + 1] == p && start == old(cache) - {p};
      while n > 0
        invariant 0 <= n < |p|
        invariant Climb(start, now, p) == Climb(cache, now, p[..n + 1])
      {
        var q := p[..n];
        assert p[..n + 1][..n] == q;
        if q in cache {
          if cache[q].expires >= now {
            if !cache[q].there { return Some(false); }
            return None;
          }
          cache := cache - {q};
        }
        n := n - 1;
      }
      return None;
    }
  }

  /** The negatives above `p` that are longer than `n` dropped. */
  ghost function DropNegativesFrom(c: Cache, p: Path, n: nat): Cache {
    map q | q in c && !(n < |q| && Above(q, p) && !c[q].there) :: c[q]
  }

  lemma DropOneMore(c: Cache, p: Path, n: nat)
    requires 0 < n < |p|
    ensures var q: Path, c' := p[..n], DropNegativesFrom(c, p, n);
      DropNegativesFrom(c, p, n - 1) == if q in c' && !c'[q].there then c' - {q} else c'
  {}

  lemma DropTwice(c: Cache, p: Path, e: Entry, t: Path)
    requires !Above(p, t)
    ensures DropNegativesAbove(DropNegativesAbove(c, t)[p := e], t) == DropNegativesAbove(c[p := e], t)
  {}

  lemma OneMoreKid(c: Cache, validity: int, now: int, d: Path, done: set<string>, n: string)
    ensures Kids(c, validity, now, d, done + {n}) ==
      Kids(c, validity, now, d, done)[d + [n] := NewEntry(c, validity, now, d + [n], true, false)]
  {}

  lemma NewKid(before: Cache, validity: int, now: int, d: Path, done: set<string>, n: string)
    requires n !in done
    ensures d + [n] !in Kids(before, validity, now, d, done)
  {
    forall m <- done ensures d + [m] != d + [n] { assert (d + [m])[|d|] == m; }
  }

  /** The order names are stored in does not matter: one more kid, one more entry. */
  lemma NextKid(before: Cache, c: Cache, validity: int, now: int, d: Path, done: set<string>, n: string)
    requires n !in done
    requires c == if done == {} then before
                  else DropNegativesAbove(before + Kids(before, validity, now, d, done), d + [""])
    ensures Put(c, validity, now, d + [n], true, false) ==
      DropNegativesAbove(before + Kids(before, validity, now, d, done + {n}), d + [""])
  {
    var p, t, kids := d + [n], d + [""], Kids(before, validity, now, d, done);
    NewKid(before, validity, now, d, done, n);
    var e := NewEntry(before, validity, now, p, true, false);
    OneMoreKid(before, validity, now, d, done, n);
    assert before + kids[p := e] == (before + kids)[p := e];
    PutBelow(c, validity, now, d, n);
    if done == {} {
      assert before + kids == before;
    } else {
      SameEntry(before, c, kids, validity, now, p, t);
      DropTwice(before + kids, p, e, t);
    }
  }

  lemma SameEntry(before: Cache, c: Cache, kids: Cache, validity: int, now: int, p: Path, t: Path)
    requires c == DropNegativesAbove(before + kids, t) && !Above(p, t) && p !in kids
    ensures NewEntry(c, validity, now, p, true, false) == NewEntry(before, validity, now, p, true, false)
  {
    assert p in c <==> p in before;
  }

  lemma PutBelow(c: Cache, validity: int, now: int, d: Path, n: string)
    ensures Put(c, validity, now, d + [n], true, false) ==
      DropNegativesAbove(c[d + [n] := NewEntry(c, validity, now, d + [n], true, false)], d + [""])
  {}

  lemma LastKid(before: Cache, validity: int, now: int, d: Path, names: set<string>)
    ensures Put(DropNegativesAbove(before + Kids(before, validity, now, d, names), d + [""]), validity, now, d, true, true)
      == PutListing(before, validity, now, d, names)
    ensures names == {} ==> Put(before, validity, now, d, true, true) == PutListing(before, validity, now, d, names)
  {}
}
