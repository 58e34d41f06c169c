/**
 What the listing cache is for: what one answer, one listing or one absence spares the storage, and for how
 long. The storage of the later question is any at all, one that cannot be read included.
 */
module ListingReuse {
  import opened Wrappers
  import opened ListingCache
  import opened GfalInterface
  import opened ListingSoundness

  /** The path is recorded as absent, up to `until`. */
  predicate Denied(c: Cache, p: Path, until: int) { p in c && !c[p].there && c[p].expires == until }

  // ---- one answer, one listing -----------------------------------------------------------------

  /** A no that was not there to be read is recorded, from whatever it was drawn, for a whole validity period. */
  lemma NoIsRecorded(m: Memory, validity: int, now: int, s: Storage, p: Path)
    requires |p| >= 2 && Get(m.cache, now, p).0.None? && Ask(m, validity, now, s, p).0 == Some(false)
    ensures Denied(Ask(m, validity, now, s, p).1.cache, p, now + validity)
  {}

  lemma RecordAnswers(m: Memory, validity: int, later: int, s: Storage, p: Path)
    requires |p| >= 2 && Valid(m.cache, p, later)
    ensures Ask(m, validity, later, s, p).0 == Some(m.cache[p].there)
  {}

  /** So within that time the question is answered without the storage. */
  lemma NoIsRemembered(m: Memory, validity: int, now: int, s: Storage, p: Path, later: int, s': Storage)
    requires |p| >= 2 && Get(m.cache, now, p).0.None? && Ask(m, validity, now, s, p).0 == Some(false)
    requires now <= later <= now + validity
    ensures Ask(Ask(m, validity, now, s, p).1, validity, later, s', p).0 == Some(false)
  {
    NoIsRecorded(m, validity, now, s, p);
    RecordAnswers(Ask(m, validity, now, s, p).1, validity, later, s', p);
  }

  /** One listing answers every question about its directory while it is valid, whatever was recorded before of a name in it. */
  lemma ListingAnswers(m: Memory, validity: int, now: int, s: Storage, d: Path, silent: bool, n: string, later: int, s': Storage)
    requires d in s.tree && d !in s.down && now <= later <= now + validity
    requires d + [n] in s.tree || d + [n] !in m.cache
    ensures Ask(Browse(m, validity, now, s, d, silent).1, validity, later, s', d + [n]).0 == Some(d + [n] in s.tree)
  {
    var p, m' := d + [n], Browse(m, validity, now, s, d, silent).1;
    assert Parent(p) == d;
    ListingEntry(m.cache, validity, now, s.tree, d, p);
    ListingEntry(m.cache, validity, now, s.tree, d, d);
    if p !in s.tree { ListedSaysNo(m', validity, later, s', d, p); }
  }

  /** In a directory whose listing is valid, a path with no entry is denied without asking the storage. */
  lemma ListedSaysNo(m: Memory, validity: int, later: int, s: Storage, d: Path, p: Path)
    requires |p| >= 2 && Parent(p) == d && p !in m.cache && WasListed(m.cache, later, d)
    ensures Ask(m, validity, later, s, p).0 == Some(false)
  {
    assert m.cache - {p} == m.cache;
    assert Get(m.cache, later, p) == (None, m.cache);
  }

  /** A directory whose own entry has expired is not taken for listed again because its parent's listing names it. */
  lemma ExpiredMarkIsGone(m: Memory, validity: int, now: int, s: Storage, d: Path)
    requires |d| >= 2 && d in s.tree && Parent(d) in s.tree && Parent(d) !in s.down && !Valid(m.cache, d, now)
    ensures !WasListed(Browse(m, validity, now, s, Parent(d), true).1.cache, now, d)
  {
    ListingEntry(m.cache, validity, now, s.tree, Parent(d), d);
  }

  /** An error teaches nothing: a listing that raises leaves all as it was, a question at most drops expired entries. */
  lemma ErrorsTeachNothing(m: Memory, validity: int, now: int, s: Storage, p: Path, silent: bool)
    ensures Browse(m, validity, now, s, p, silent).0.None? ==> Browse(m, validity, now, s, p, silent).1 == m
    ensures |p| >= 2 && Ask(m, validity, now, s, p).0.None? ==>
      var m' := Ask(m, validity, now, s, p).1;
      && m'.lists == m.lists && m'.made == m.made && m'.cache.Keys <= m.cache.Keys
      && (forall q <- m'.cache :: m'.cache[q] == m.cache[q]) && (forall q <- m.cache :: Valid(m.cache, q, now) ==> q in m'.cache)
  {
    ClimbKeeps(m.cache - {p}, now, p);
  }

  // ---- an absence --------------------------------------------------------------------------------

  /** Nothing is known of anything above the path. */
  ghost predicate UnknownAbove(c: Cache, now: int, p: Path) { forall x: Path :: Above(x, p) ==> !Valid(c, x, now) }

  /** From `a` down to above `d` every directory can be looked for, and is not there. */
  ghost predicate GoneFrom(s: Storage, a: Path, d: Path) {
    Above(a, d) && forall x: Path :: (x == a || Above(a, x)) && Above(x, d) ==> x !in s.tree && x !in s.down
  }

  lemma AboveTwice(x: Path, y: Path, z: Path)
    requires Above(x, y) && Above(y, z)
    ensures Above(x, z)
  {
    assert z[..|x|] == y[..|x|];
  }

  lemma AboveChild(x: Path, p: Path)
    requires |p| >= 2
    ensures Above(x, p) <==> x == Parent(p) || Above(x, Parent(p))
  {
    if |x| < |p| - 1 { assert p[..|x|] == Parent(p)[..|x|]; }
  }

  /** Where nothing is known, a lookup only drops expired entries. */
  lemma UnknownIsNone(c: Cache, now: int, p: Path)
    requires !Valid(c, p, now) && UnknownAbove(c, now, p)
    ensures var (r, c') := Get(c, now, p); r == None && c'.Keys <= c.Keys && forall q <- c' :: c'[q] == c[q]
  {
    var c1 := c - {p};
    ClimbKeeps(c1, now, p);
    var r := Climb(c1, now, p).0;
    assert r == None || r == Some(true) || r == Some(false) by { OneOfThree(r); }
  }

  lemma OneOfThree(r: Option<bool>)
    ensures r == None || r == Some(true) || r == Some(false)
  {
    if r.Some? { assert if r.value then r == Some(true) else r == Some(false); }
  }

  /** One step up: the parent is looked for on the storage. */
  lemma ClimbStep(m: Memory, validity: int, now: int, s: Storage, d: Path, climb: nat) returns (m1: Memory)
    requires |d| >= 2 && climb > 0 && UnknownAbove(m.cache, now, d)
    ensures UnknownAbove(m1.cache, now, d) && m1.cache.Keys <= m.cache.Keys
    ensures MarkAbsentAncestors(m, validity, now, s, d, climb) ==
      match List(s, Parent(d))
      case Failed => m1
      case Absent => MarkAbsentAncestors(Store(m1, validity, now, Parent(d), false), validity, now, s, Parent(d), climb - 1)
      case Names(names) => StoreListing(m1, validity, now, Parent(d), names)
  {
    var parent := Parent(d);
    forall x: Path | Above(x, parent) ensures Above(x, d) { AboveChild(x, d); }
    assert Above(parent, d);
    UnknownIsNone(m.cache, now, parent);
    m1 := m.(cache := Get(m.cache, now, parent).1);
  }

  lemma StillUnknown(m: Memory, validity: int, now: int, d: Path)
    requires |d| >= 2 && UnknownAbove(m.cache, now, d)
    ensures UnknownAbove(Store(m, validity, now, Parent(d), false).cache, now, Parent(d))
  {
    forall x: Path | Above(x, Parent(d)) ensures Above(x, d) { AboveChild(x, d); }
  }

  /** A recorded absence at or below where the climb stands outlives the rest of it. */
  lemma {:induction false} ClimbKeepsDenial(m: Memory, validity: int, now: int, s: Storage, d: Path, climb: nat, a: Path)
    requires |a| >= |d| && a !in s.tree && Denied(m.cache, a, now + validity) && validity >= 0 && UnknownAbove(m.cache, now, d)
    ensures Denied(MarkAbsentAncestors(m, validity, now, s, d, climb).cache, a, now + validity)
    decreases climb
  {
    if climb > 0 && |d| >= 2 {
      var parent := Parent(d);
      forall x: Path | Above(x, parent) ensures Above(x, d) { AboveChild(x, d); }
      assert Above(parent, d);
      UnknownIsNone(m.cache, now, parent);
      var m1 := m.(cache := Get(m.cache, now, parent).1);
      ClimbKeeps(m.cache - {parent}, now, parent);
      match List(s, parent)
      case Failed =>
      case Absent =>
        StillUnknown(m1, validity, now, d);
        ClimbKeepsDenial(Store(m1, validity, now, parent, false), validity, now, s, parent, climb - 1, a);
      case Names(names) => ListingEntry(m1.cache, validity, now, s.tree, parent, a);
    }
  }

  /** The climb records every absence on its way, as far as it goes. */
  lemma {:induction false} ClimbRecords(m: Memory, validity: int, now: int, s: Storage, d: Path, climb: nat, a: Path)
    requires GoneFrom(s, a, d) && |d| - |a| <= climb && validity >= 0 && UnknownAbove(m.cache, now, d)
    ensures Denied(MarkAbsentAncestors(m, validity, now, s, d, climb).cache, a, now + validity)
    decreases climb
  {
    var parent := Parent(d);
    AboveChild(a, d);
    AboveChild(parent, d);
    var m1 := ClimbStep(m, validity, now, s, d, climb);
    var m2 := Store(m1, validity, now, parent, false);
    StillUnknown(m1, validity, now, d);
    assert parent == a || Above(a, parent);
    assert List(s, parent).Absent?;
    if parent == a {
      ClimbKeepsDenial(m2, validity, now, s, parent, climb - 1, a);
    } else {
      forall x: Path | (x == a || Above(a, x)) && Above(x, parent) ensures x !in s.tree && x !in s.down { AboveChild(x, d); }
      ClimbRecords(m2, validity, now, s, parent, climb - 1, a);
    }
  }

  /** And nothing further up than it goes. */
  lemma {:induction false} ClimbEnds(m: Memory, validity: int, now: int, s: Storage, d: Path, climb: nat, a: Path)
    requires |d| - |a| > climb && a !in m.cache
    ensures a !in MarkAbsentAncestors(m, validity, now, s, d, climb).cache
    decreases climb
  {
    if climb > 0 && |d| >= 2 {
      var parent := Parent(d);
      GetForgets(m.cache, now, parent, a);
      var (cached, c1) := Get(m.cache, now, parent);
      var m1 := m.(cache := c1);
      if cached.None? {
        match List(s, parent)
        case Failed =>
        case Absent => ClimbEnds(Store(m1, validity, now, parent, false), validity, now, s, parent, climb - 1, a);
        case Names(names) => ListingEntry(c1, validity, now, s.tree, parent, a);
      }
    }
  }

  lemma GetForgets(c: Cache, now: int, p: Path, a: Path)
    requires a !in c
    ensures a !in Get(c, now, p).1
  {
    ClimbKeeps(c - {p}, now, p);
  }

  /** A listing that fails ends the climb: nothing above it is recorded. */
  lemma {:induction false} ClimbStopsAtFailure(m: Memory, validity: int, now: int, s: Storage, d: Path, climb: nat, x: Path, a: Path)
    requires Above(a, x) && Above(x, d) && x in s.down && a !in m.cache
    ensures a !in MarkAbsentAncestors(m, validity, now, s, d, climb).cache
    decreases climb
  {
    if climb > 0 {
      var parent := Parent(d);
      AboveChild(x, d);
      GetForgets(m.cache, now, parent, a);
      var (cached, c1) := Get(m.cache, now, parent);
      if cached.None? && parent != x {
        match List(s, parent)
        case Failed =>
        case Absent => ClimbStopsAtFailure(Store(m.(cache := c1), validity, now, parent, false), validity, now, s, parent, climb - 1, x, a);
        case Names(names) => ListingEntry(c1, validity, now, s.tree, parent, a);
      }
    }
  }

  /** The first ancestor that is there is listed on the way, and that listing kept. */
  lemma {:induction false} ClimbLists(m: Memory, validity: int, now: int, s: Storage, d: Path, climb: nat, g: Path)
    requires Above(g, d) && |d| - |g| <= climb && g in s.tree && g !in s.down && validity >= 0 && UnknownAbove(m.cache, now, d)
    requires forall x: Path :: Above(g, x) && Above(x, d) ==> x !in s.tree && x !in s.down
    ensures var m' := MarkAbsentAncestors(m, validity, now, s, d, climb);
      WasListed(m'.cache, now + validity, g) && g in m'.lists && m'.lists[g] == now
    decreases climb
  {
    var parent := Parent(d);
    AboveChild(g, d);
    AboveChild(parent, d);
    var m1 := ClimbStep(m, validity, now, s, d, climb);
    if parent == g {
      ListingEntry(m1.cache, validity, now, s.tree, g, g);
    } else {
      StillUnknown(m1, validity, now, d);
      forall x: Path | Above(g, x) && Above(x, parent) ensures x !in s.tree && x !in s.down { AboveChild(x, d); }
      ClimbLists(Store(m1, validity, now, parent, false), validity, now, s, parent, climb - 1, g);
    }
  }

  /** What a question in an absent directory, or its listing, does before anything else. */
  lemma AbsentIsClimbed(m: Memory, validity: int, now: int, s: Storage, p: Path) returns (m1: Memory)
    requires |p| >= 2 && !Valid(m.cache, p, now) && UnknownAbove(m.cache, now, p)
    requires Parent(p) !in s.tree && Parent(p) !in s.down
    ensures UnknownAbove(m1.cache, now, Parent(p)) && m1.cache.Keys <= m.cache.Keys + {Parent(p)}
    ensures Ask(m, validity, now, s, p) ==
      (Some(false), Store(MarkAbsentAncestors(m1, validity, now, s, Parent(p), 32), validity, now, p, false))
  {
    var d := Parent(p);
    UnknownIsNone(m.cache, now, p);
    var c := Get(m.cache, now, p).1;
    assert Above(d, p);
    assert !WasListed(c, now, d);
    m1 := Store(m.(cache := c), validity, now, d, false);
    forall x: Path | Above(x, d) ensures !Valid(m1.cache, x, now) { AboveChild(x, p); }
  }

  /**
   Asked in a directory that is not there, with nothing known above it: every ancestor that is not there either
   is recorded as absent for a validity period if and only if it is no more than 32 levels up.
   */
  lemma AbsenceIsRecorded(m: Memory, validity: int, now: int, s: Storage, p: Path, a: Path)
    requires |p| >= 2 && validity >= 0 && !Valid(m.cache, p, now) && UnknownAbove(m.cache, now, p)
    requires Parent(p) !in s.tree && Parent(p) !in s.down && GoneFrom(s, a, Parent(p)) && a !in m.cache
    ensures Ask(m, validity, now, s, p).0 == Some(false)
    ensures Denied(Ask(m, validity, now, s, p).1.cache, a, now + validity) <==> |Parent(p)| - |a| <= 32
  {
    var m1 := AbsentIsClimbed(m, validity, now, s, p);
    if |Parent(p)| - |a| <= 32 {
      ClimbRecords(m1, validity, now, s, Parent(p), 32, a);
    } else {
      ClimbEnds(m1, validity, now, s, Parent(p), 32, a);
    }
  }

  /** A silent listing of a directory that is not there records the same. */
  lemma AbsenceIsRecordedByListing(m: Memory, validity: int, now: int, s: Storage, d: Path, a: Path)
    requires validity >= 0 && d !in s.tree && d !in s.down && UnknownAbove(m.cache, now, d) && GoneFrom(s, a, d) && a !in m.cache
    ensures Denied(Browse(m, validity, now, s, d, true).1.cache, a, now + validity) <==> |d| - |a| <= 32
  {
    var m1 := Store(m, validity, now, d, false);
    if |d| - |a| <= 32 { ClimbRecords(m1, validity, now, s, d, 32, a); } else { ClimbEnds(m1, validity, now, s, d, 32, a); }
  }

  /** And the first ancestor that is there has been listed with it, if the climb gets there. */
  lemma FirstPresentIsListed(m: Memory, validity: int, now: int, s: Storage, p: Path, g: Path)
    requires |p| >= 2 && validity >= 0 && !Valid(m.cache, p, now) && UnknownAbove(m.cache, now, p)
    requires Parent(p) !in s.tree && Parent(p) !in s.down && Above(g, Parent(p)) && |Parent(p)| - |g| <= 32
    requires g in s.tree && g !in s.down && forall x: Path :: Above(g, x) && Above(x, Parent(p)) ==> x !in s.tree && x !in s.down
    ensures WasListed(Ask(m, validity, now, s, p).1.cache, now + validity, g)
  {
    var m1 := AbsentIsClimbed(m, validity, now, s, p);
    ClimbLists(m1, validity, now, s, Parent(p), 32, g);
    assert g != p;
  }

  /** A recorded absence answers for everything below it, if nothing in between is known to be there. */
  lemma {:induction false} AbsenceAnswersBelow(c: Cache, now: int, a: Path, q: Path)
    requires a in c && Valid(c, a, now) && !c[a].there && Above(a, q)
    requires forall x: Path :: Above(a, x) && Above(x, q) ==> !Valid(c, x, now)
    ensures Climb(c, now, q).0 == Some(false)
    decreases |q|
  {
    var parent := Parent(q);
    AboveChild(a, q);
    if parent != a {
      AboveChild(parent, q);
      forall x: Path | Above(a, x) && Above(x, parent) ensures !Valid(c, x, now) { AboveChild(x, q); }
      AbsenceAnswersBelow(if parent in c then c - {parent} else c, now, a, parent);
    }
  }

  /** So while it is valid nothing below it is looked for on the storage. */
  lemma NothingBelowIsLookedFor(m: Memory, validity: int, later: int, s: Storage, a: Path, q: Path)
    requires |q| >= 2 && a in m.cache && Valid(m.cache, a, later) && !m.cache[a].there && Above(a, q)
    requires forall x: Path :: Above(a, x) && (x == q || Above(x, q)) ==> !Valid(m.cache, x, later)
    ensures Ask(m, validity, later, s, q).0 == Some(false)
  {
    AbsenceAnswersBelow(m.cache - {q}, later, a, q);
  }

  /** After an upload that worked nothing above its target is denied. */
  lemma NothingAboveIsDenied(m: Memory, validity: int, now: int, tree: set<Path>, p: Path, x: Path)
    requires |p| >= 2 && Above(x, p)
    ensures var c := Uploaded(m, validity, now, tree, p, Landed, true).cache; x in c ==> c[x].there
  {
    var m0 := Memory(m.cache, m.lists - {p}, m.made + NewDirectories(tree, p, Landed));
    var m2 := Store(Store(m0, validity, now, p, false), validity, now, p, true);
    GetForgetsNothingElse(m2.cache, now, Parent(p), x);
    AboveChild(x, p);
  }

  lemma GetForgetsNothingElse(c: Cache, now: int, p: Path, x: Path)
    ensures var c' := Get(c, now, p).1; x in c' ==> x in c && c'[x] == c[x]
  {
    ClimbKeeps(c - {p}, now, p);
  }
}
