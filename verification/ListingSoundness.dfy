/**
 How far the answers of the cached `exists` can be trusted, over every run of this process on a
 storage tree that only this process changes.
 */
module ListingSoundness {
  import opened Wrappers
  import opened ListingCache
  import opened GfalInterface

  ghost predicate Closed(tree: set<Path>) {
    forall p <- tree :: |p| >= 2 ==> Parent(p) in tree
  }

  /** The last real listing of `d` is at most one validity period old, and nothing was written onto `d` since. */
  predicate Fresh(m: Memory, validity: int, now: int, d: Path) {
    d in m.lists && now <= m.lists[d] + validity
  }

  ghost predicate Kept(m: Memory, validity: int, p: Path, since: int) {
    p in m.cache && m.cache[p].there && m.cache[p].expires >= since + validity
  }

  /** What every operation keeps, whatever it answers. */
  ghost predicate Sound(m: Memory, validity: int, now: int, tree: set<Path>) {
    && (forall p <- m.cache :: Valid(m.cache, p, now) && m.cache[p].there ==> p in tree)
    && (forall d <- m.cache :: m.cache[d].listed ==> d in m.lists)
    && (forall d <- m.lists :: m.lists[d] <= now)
    && (forall d <- m.lists :: Fresh(m, validity, now, d) ==>
          d in tree && Kept(m, validity, d, m.lists[d]) && m.cache[d].listed)
    && (forall p <- tree :: |p| >= 2 && p !in m.made && Fresh(m, validity, now, Parent(p)) ==>
          Kept(m, validity, p, m.lists[Parent(p)]))
  }

  /** No valid entry calls an existing path absent: broken only by inferring from an outlived listing. */
  ghost predicate NegativesTrue(m: Memory, now: int, tree: set<Path>) {
    forall p <- m.cache :: Valid(m.cache, p, now) && !m.cache[p].there ==> p !in tree
  }

  lemma {:induction false} ClimbKeeps(c: Cache, now: int, p: Path)
    ensures var (r, c') := Climb(c, now, p);
      && c'.Keys <= c.Keys && (forall q <- c' :: c'[q] == c[q]) && (forall q <- c :: Valid(c, q, now) ==> q in c')
      && r != Some(true)
      && (r == Some(false) ==> exists q :: Above(q, p) && Valid(c, q, now) && !c[q].there)
    decreases |p|
  {
    if |p| >= 2 {
      var q := Parent(p);
      assert Above(q, p);
      var c1 := if q !in c then c else c - {q};
      if q !in c || !Valid(c, q, now) {
        ClimbKeeps(c1, now, q);
        if Climb(c1, now, q).0 == Some(false) {
          var r :| Above(r, q) && Valid(c1, r, now) && !c1[r].there;
          assert p[..|r|] == q[..|r|];
          assert Above(r, p) && Valid(c, r, now);
        }
      }
    }
  }

  lemma {:induction false} AncestorsExist(tree: set<Path>, p: Path, q: Path)
    requires Closed(tree) && p in tree && Above(q, p)
    ensures q in tree
    decreases |p|
  {
    if |q| < |p| - 1 {
      assert Parent(p)[..|q|] == p[..|q|];
      AncestorsExist(tree, Parent(p), q);
    }
  }

  lemma GetKeeps(m: Memory, validity: int, now: int, tree: set<Path>, p: Path)
    requires Sound(m, validity, now, tree) && Closed(tree)
    ensures var (r, c') := Get(m.cache, now, p); var m' := m.(cache := c');
      && Sound(m', validity, now, tree)
      && (NegativesTrue(m, now, tree) ==> NegativesTrue(m', now, tree) && (r == Some(false) ==> p !in tree))
      && (r == Some(true) ==> p in tree)
      && (r != Some(true) ==> !(p in m.cache && m.cache[p].there && Valid(m.cache, p, now)))
      && (r.None? ==> p !in c')
  {
    if !Valid(m.cache, p, now) {
      var c := m.cache - {p};
      ClimbKeeps(c, now, p);
      if Climb(c, now, p).0 == Some(false) && p in tree {
        var q :| Above(q, p) && Valid(c, q, now) && !c[q].there;
        AncestorsExist(tree, p, q);
      }
    }
  }

  lemma StoreTruth(m: Memory, validity: int, now: int, tree: set<Path>, p: Path)
    requires Sound(m, validity, now, tree)
    ensures Sound(Store(m, validity, now, p, p in tree), validity, now, tree)
    ensures NegativesTrue(m, now, tree) ==> NegativesTrue(Store(m, validity, now, p, p in tree), now, tree)
  {}

  /** Calling an unknown path absent breaks nothing but the truth of the negatives. */
  lemma StoreGuess(m: Memory, validity: int, now: int, tree: set<Path>, p: Path)
    requires Sound(m, validity, now, tree) && p !in m.cache && validity >= 0
    ensures Sound(Store(m, validity, now, p, false), validity, now, tree)
  {}

  predicate ChildOf(p: Path, d: Path) { |p| >= 2 && Parent(p) == d }

  /** What a listing of `d` leaves in the cache at `p`. */
  ghost predicate Relisted(before: Cache, after: Cache, validity: int, now: int, tree: set<Path>, d: Path, p: Path) {
    if p == d then p in after && after[p] == Entry(true, now + validity, true)
    else if p in tree && ChildOf(p, d) then p in after && after[p] == NewEntry(before, validity, now, p, true, false)
    else (p in after <==> p in before && !(Above(p, d) && !before[p].there)) && (p in after ==> after[p] == before[p])
  }

  lemma ListingEntry(c: Cache, validity: int, now: int, tree: set<Path>, d: Path, p: Path)
    ensures Relisted(c, PutListing(c, validity, now, d, ChildNames(tree, d)), validity, now, tree, d, p)
  {
    var names := ChildNames(tree, d);
    var kids := Kids(c, validity, now, d, names);
    if p in kids {
      var n :| n in names && p == d + [n];
      var q :| q in tree && |q| == |d| + 1 && q[..|d|] == d && q[|d|] == n;
      assert q == p;
    }
    if p in tree && ChildOf(p, d) { assert p == d + [p[|d|]]; assert p[|d|] in names; }
  }

  lemma RelistedIsSound(m: Memory, m': Memory, validity: int, now: int, tree: set<Path>, d: Path)
    requires Sound(m, validity, now, tree) && d in tree
    requires m'.lists == m.lists[d := now] && m'.made == set q <- m.made | |q| < 2 || Parent(q) != d
    requires forall p: Path :: Relisted(m.cache, m'.cache, validity, now, tree, d, p)
    ensures Sound(m', validity, now, tree) && (NegativesTrue(m, now, tree) ==> NegativesTrue(m', now, tree))
  {
    forall p <- m'.cache
      ensures (Valid(m'.cache, p, now) && m'.cache[p].there ==> p in tree) && (m'.cache[p].listed ==> p in m'.lists)
      ensures NegativesTrue(m, now, tree) && Valid(m'.cache, p, now) && !m'.cache[p].there ==> p !in tree
    { assert Relisted(m.cache, m'.cache, validity, now, tree, d, p); }
    forall q <- m'.lists | Fresh(m', validity, now, q)
      ensures q in tree && Kept(m', validity, q, m'.lists[q]) && m'.cache[q].listed
    { assert Relisted(m.cache, m'.cache, validity, now, tree, d, q); }
    forall p <- tree | |p| >= 2 && p !in m'.made && Fresh(m', validity, now, Parent(p))
      ensures Kept(m', validity, p, m'.lists[Parent(p)])
    { assert Relisted(m.cache, m'.cache, validity, now, tree, d, p); }
  }

  lemma ListingTruth(m: Memory, validity: int, now: int, tree: set<Path>, d: Path)
    requires Sound(m, validity, now, tree) && d in tree
    ensures var m' := StoreListing(m, validity, now, d, ChildNames(tree, d));
      && Sound(m', validity, now, tree) && (NegativesTrue(m, now, tree) ==> NegativesTrue(m', now, tree))
  {
    var m' := StoreListing(m, validity, now, d, ChildNames(tree, d));
    forall p: Path ensures Relisted(m.cache, m'.cache, validity, now, tree, d, p) {
      ListingEntry(m.cache, validity, now, tree, d, p);
    }
    RelistedIsSound(m, m', validity, now, tree, d);
  }

  /** An operation that keeps what there is to keep, and adds no made directory. */
  ghost predicate Keeps(m: Memory, m': Memory, validity: int, now: int, tree: set<Path>) {
    && (Sound(m, validity, now, tree) ==> Sound(m', validity, now, tree))
    && (Sound(m, validity, now, tree) && NegativesTrue(m, now, tree) ==> NegativesTrue(m', now, tree))
    && m'.made <= m.made
  }

  lemma StoreKeeps(m: Memory, validity: int, now: int, tree: set<Path>, p: Path, there: bool)
    requires there == (p in tree)
    ensures Keeps(m, Store(m, validity, now, p, there), validity, now, tree)
  {}

  lemma ListingKeeps(m: Memory, validity: int, now: int, tree: set<Path>, d: Path)
    requires d in tree
    ensures Keeps(m, StoreListing(m, validity, now, d, ChildNames(tree, d)), validity, now, tree)
  {
    if Sound(m, validity, now, tree) { ListingTruth(m, validity, now, tree, d); }
  }

  lemma LookupKeeps(m: Memory, validity: int, now: int, tree: set<Path>, p: Path)
    requires Closed(tree)
    ensures Keeps(m, m.(cache := Get(m.cache, now, p).1), validity, now, tree)
  {
    if Sound(m, validity, now, tree) { GetKeeps(m, validity, now, tree, p); }
  }

  lemma KeepsTwice(m: Memory, m1: Memory, m2: Memory, validity: int, now: int, tree: set<Path>)
    requires Keeps(m, m1, validity, now, tree) && Keeps(m1, m2, validity, now, tree)
    ensures Keeps(m, m2, validity, now, tree)
  {}

  lemma {:induction false} MarkingKeeps(m: Memory, validity: int, now: int, s: Storage, d: Path, climb: nat)
    requires Closed(s.tree)
    ensures Keeps(m, MarkAbsentAncestors(m, validity, now, s, d, climb), validity, now, s.tree)
    decreases climb
  {
    if climb > 0 && |d| >= 2 {
      var parent := Parent(d);
      var m1 := m.(cache := Get(m.cache, now, parent).1);
      LookupKeeps(m, validity, now, s.tree, parent);
      if Get(m.cache, now, parent).0.None? {
        match List(s, parent)
        case Failed =>
        case Names(names) =>
          ListingKeeps(m1, validity, now, s.tree, parent);
          KeepsTwice(m, m1, StoreListing(m1, validity, now, parent, names), validity, now, s.tree);
        case Absent =>
          var m2 := Store(m1, validity, now, parent, false);
          StoreKeeps(m1, validity, now, s.tree, parent, false);
          KeepsTwice(m, m1, m2, validity, now, s.tree);
          MarkingKeeps(m2, validity, now, s, parent, climb - 1);
          KeepsTwice(m, m2, MarkAbsentAncestors(m2, validity, now, s, parent, climb - 1), validity, now, s.tree);
      }
    }
  }

  lemma {:induction false} AbsentKeeps(m: Memory, validity: int, now: int, s: Storage, d: Path)
    requires Closed(s.tree) && d !in s.tree
    ensures Keeps(m, MarkAbsentAncestors(Store(m, validity, now, d, false), validity, now, s, d, MAX_CLIMB), validity, now, s.tree)
  {
    var m1 := Store(m, validity, now, d, false);
    StoreKeeps(m, validity, now, s.tree, d, false);
    MarkingKeeps(m1, validity, now, s, d, MAX_CLIMB);
    KeepsTwice(m, m1, MarkAbsentAncestors(m1, validity, now, s, d, MAX_CLIMB), validity, now, s.tree);
  }

  lemma NameOfChild(tree: set<Path>, p: Path)
    requires |p| >= 2
    ensures p[|p| - 1] in ChildNames(tree, Parent(p)) <==> p in tree
  {
    var d := Parent(p);
    if p[|d|] in ChildNames(tree, d) {
      var q :| q in tree && |q| == |d| + 1 && q[..|d|] == d && q[|d|] == p[|d|];
      assert q == p;
    }
  }

  /** The answer comes from a cached listing of the directory, not from an entry or the storage. */
  predicate Inferred(m: Memory, now: int, p: Path) {
    var (cached, cache) := Get(m.cache, now, p);
    |p| >= 2 && cached.None? && WasListed(cache, now, Parent(p))
  }

  /** The listing inferred from is recent, and the path is not a directory an upload made since. */
  predicate Grounded(m: Memory, validity: int, now: int, p: Path) {
    Inferred(m, now, p) ==> Fresh(m, validity, now, Parent(p)) && p !in m.made
  }

  /** An answer put to the storage, not taken from the cache, is right and keeps everything. */
  lemma AskedTruth(m: Memory, validity: int, now: int, s: Storage, p: Path)
    requires |p| >= 2 && Closed(s.tree) && Get(m.cache, now, p).0.None? && !Inferred(m, now, p)
    ensures var (answer, m') := Ask(m, validity, now, s, p);
      Keeps(m, m', validity, now, s.tree) && (answer.Some? ==> answer.value == (p in s.tree))
  {
    var m1, d := m.(cache := Get(m.cache, now, p).1), Parent(p);
    LookupKeeps(m, validity, now, s.tree, p);
    match List(s, d)
    case Failed =>
    case Absent =>
      var m2 := MarkAbsentAncestors(Store(m1, validity, now, d, false), validity, now, s, d, MAX_CLIMB);
      AbsentKeeps(m1, validity, now, s, d);
      KeepsTwice(m, m1, m2, validity, now, s.tree);
      StoreKeeps(m2, validity, now, s.tree, p, false);
      KeepsTwice(m, m2, Store(m2, validity, now, p, false), validity, now, s.tree);
    case Names(names) =>
      var m2 := StoreListing(m1, validity, now, d, names);
      ListingKeeps(m1, validity, now, s.tree, d);
      KeepsTwice(m, m1, m2, validity, now, s.tree);
      NameOfChild(s.tree, p);
      if p !in s.tree {
        StoreKeeps(m2, validity, now, s.tree, p, false);
        KeepsTwice(m, m2, Store(m2, validity, now, p, false), validity, now, s.tree);
      }
  }

  /**
   One question. A yes is always right; a no is right if the directory's real listing is at most one
   validity period old and the path was not made since; and unless the answer is inferred from an
   older listing, both are right and stay so, if the negatives were.
   */
  lemma AskTruth(m: Memory, validity: int, now: int, s: Storage, p: Path)
    requires |p| >= 2 && Sound(m, validity, now, s.tree) && Closed(s.tree) && validity >= 0
    ensures var (answer, m') := Ask(m, validity, now, s, p);
      && Sound(m', validity, now, s.tree) && m'.made <= m.made
      && (answer == Some(true) ==> p in s.tree)
      && (answer == Some(false) && Fresh(m', validity, now, Parent(p)) && p !in m'.made ==> p !in s.tree)
      && (NegativesTrue(m, now, s.tree) && Grounded(m, validity, now, p) ==>
            NegativesTrue(m', now, s.tree) && (answer.Some? ==> answer.value == (p in s.tree)))
  {
    GetKeeps(m, validity, now, s.tree, p);
    if Get(m.cache, now, p).0.None? {
      if Inferred(m, now, p) {
        var m1 := m.(cache := Get(m.cache, now, p).1);
        StoreGuess(m1, validity, now, s.tree, p);
        if p !in s.tree { StoreTruth(m1, validity, now, s.tree, p); }
      } else {
        AskedTruth(m, validity, now, s, p);
      }
    }
  }

  /**
   Exactly when inferring a no is safe: an inference is grounded if and only if the path is in none of
   the trees the memory fits. For one that is not, the storage may hold the path just as well.
   */
  lemma InferenceIsExact(m: Memory, validity: int, now: int, s: Storage, p: Path)
    requires Sound(m, validity, now, s.tree) && Closed(s.tree) && Inferred(m, now, p)
    ensures Ask(m, validity, now, s, p).0 == Some(false)
    ensures Grounded(m, validity, now, p) <==> forall t :: Sound(m, validity, now, t) && Closed(t) ==> p !in t
  {
    GetKeeps(m, validity, now, s.tree, p);
    if Grounded(m, validity, now, p) {
      forall t | Sound(m, validity, now, t) && Closed(t) ensures p !in t { GetKeeps(m, validity, now, t, p); }
    } else {
      var t := s.tree + {p};
      assert Parent(p) in s.tree;
      assert Sound(m, validity, now, t) && Closed(t);
    }
  }
}
