/** The cached `exists` over whole runs: when its answers are right, and runs in which they are not. */
module ListingRuns {
  import opened Wrappers
  import opened ListingCache
  import opened GfalInterface
  import opened ListingSoundness

  /**
   What is done to the storage, with what it does there apart from what it reports: an upload may land and
   then raise, and a removal may fail after taking `gone` away, which takes along everything below.
   */
  datatype Op =
    | Exists(p: Path, down: set<Path>)
    | Listdir(d: Path, silent: bool, down: set<Path>)
    | Upload(p: Path, reach: Reach, ok: bool)
    | Remove(p: Path, seen: bool, gone: set<Path>, ok: bool)
    | Expire

  datatype World = World(tree: set<Path>, mem: Memory)

  datatype Timed = Timed(at: int, op: Op)

  predicate WellFormed(op: Op) {
    match op
    case Exists(p, _) => |p| >= 2
    case Upload(p, reach, ok) => |p| >= 2 && (ok ==> reach.Landed?)
    case Remove(p, seen, gone, ok) =>
      && (forall q <- gone :: q == p || Above(p, q))
      && (!seen ==> gone == {})
      && (seen && ok ==> p in gone)
    case _ => true
  }

  function Without(tree: set<Path>, gone: set<Path>): set<Path> {
    set q <- tree | q !in gone && forall g <- gone :: !Above(g, q)
  }

  function TreeAfter(tree: set<Path>, op: Op): set<Path>
    requires WellFormed(op)
  {
    match op
    case Upload(p, Landed, _) => tree + PathsTo(p)
    case Upload(p, DirectoriesMade, _) => tree + PathsTo(Parent(p))
    case Remove(_, _, gone, _) => Without(tree, gone)
    case _ => tree
  }

  function Step(validity: int, w: World, t: Timed): (Option<bool>, World)
    requires WellFormed(t.op)
  {
    var (answer, mem) := match t.op
      case Exists(p, down) => Ask(w.mem, validity, t.at, Storage(w.tree, down), p)
      case Listdir(d, silent, down) => (None, Browse(w.mem, validity, t.at, Storage(w.tree, down), d, silent).1)
      case Upload(p, reach, ok) => (None, Uploaded(w.mem, validity, t.at, w.tree, p, reach, ok))
      case Remove(p, seen, _, ok) => (None, Removed(w.mem, validity, t.at, p, seen, ok))
      case Expire => (None, FORGOTTEN);
    (answer, World(TreeAfter(w.tree, t.op), mem))
  }

  ghost predicate Runnable(run: seq<Timed>) {
    && (forall t <- run :: WellFormed(t.op))
    && (forall i, j :: 0 <= i < j < |run| ==> run[i].at <= run[j].at)
  }

  function Before(validity: int, tree: set<Path>, run: seq<Timed>, n: nat): World
    requires n <= |run| && forall t <- run :: WellFormed(t.op)
  {
    if n == 0 then World(tree, FORGOTTEN) else Step(validity, Before(validity, tree, run, n - 1), run[n - 1]).1
  }

  function Answer(validity: int, tree: set<Path>, run: seq<Timed>, n: nat): Option<bool>
    requires n < |run| && forall t <- run :: WellFormed(t.op)
  {
    Step(validity, Before(validity, tree, run, n), run[n]).0
  }

  /** A valid entry says that `p` exists, or that it does not. */
  predicate Says(c: Cache, now: int, p: Path, there: bool) { Valid(c, p, now) && c[p].there == there }

  /**
   What an operation may do to the storage without misleading the cache. An upload works, or leaves no
   file and no directory the cache denies. A removal whose check finds nothing is of a path that is not
   there; and what it takes away, the cache does not go on to assert.
   */
  ghost predicate Benign(w: World, t: Timed)
    requires WellFormed(t.op)
  {
    var tree' := TreeAfter(w.tree, t.op);
    match t.op
    case Upload(p, _, ok) => ok || (p !in tree' && forall q <- tree' - w.tree :: !Says(w.mem.cache, t.at, q, false))
    case Remove(p, seen, _, ok) =>
      && (seen || p !in w.tree)
      && (forall q <- w.tree - tree' | q != p || !ok :: !Says(w.mem.cache, t.at, q, true))
    case _ => true
  }

  ghost predicate BenignRun(validity: int, tree: set<Path>, run: seq<Timed>) {
    && Runnable(run)
    && forall n :: 0 <= n < |run| ==> Benign(Before(validity, tree, run, n), run[n])
  }

  // ---- uploads and removals --------------------------------------------------------------------

  lemma PathsToIsClosed(tree: set<Path>, p: Path)
    requires Closed(tree)
    ensures Closed(tree + PathsTo(p)) && p in PathsTo(p)
    ensures forall q: Path :: q in PathsTo(p) <==> q == p || Above(q, p)
  {
    assert p[..|p|] == p;
    forall q <- tree + PathsTo(p) | |q| >= 2 ensures Parent(q) in tree + PathsTo(p) {
      if q in PathsTo(p) {
        var n: int :| 1 <= n <= |p| && q == p[..n];
        assert Parent(q) == p[..n - 1];
      }
    }
    forall q: Path ensures q in PathsTo(p) <==> q == p || Above(q, p) {
      if Above(q, p) { assert q == p[..|q|]; }
    }
  }

  lemma NewPathsAreMade(tree: set<Path>, p: Path)
    requires |p| >= 2
    ensures forall q <- tree + PathsTo(p) :: q in tree || q == p || q in PathsTo(Parent(p)) - tree
  {
    forall q <- PathsTo(p) | q != p ensures q in PathsTo(Parent(p)) {
      var n: int :| 1 <= n <= |p| && q == p[..n];
      assert q == Parent(p)[..n];
    }
  }

  /** The memory after both `set` calls of an upload that worked, the directories it made noted. */
  function UploadedTo(m: Memory, validity: int, now: int, tree: set<Path>, p: Path): Memory
    requires |p| >= 2
  {
    var m0 := Memory(m.cache, m.lists - {p}, m.made + (PathsTo(Parent(p)) - tree));
    Store(Store(m0, validity, now, p, false), validity, now, p, true)
  }

  /** What an upload leaves in the cache. */
  ghost predicate UploadedEntries(c: Cache, c': Cache, p: Path) {
    && p in c' && c'[p].there && !c'[p].listed
    && forall q: Path | q != p ::
      (q in c' <==> q in c && !(Above(q, p) && !c[q].there)) && (q in c' ==> c'[q] == c[q])
  }

  lemma UploadEntries(m: Memory, validity: int, now: int, tree: set<Path>, p: Path)
    requires |p| >= 2
    ensures UploadedEntries(m.cache, UploadedTo(m, validity, now, tree, p).cache, p)
    ensures UploadedTo(m, validity, now, tree, p).cache[p].expires >= now + validity
  {}

  lemma SoundAfterUpload(m: Memory, m': Memory, validity: int, now: int, tree: set<Path>, tree': set<Path>, p: Path)
    requires |p| >= 2 && Sound(m, validity, now, tree)
    requires UploadedEntries(m.cache, m'.cache, p) && m'.cache[p].expires >= now + validity && m'.lists == m.lists - {p}
    requires tree <= tree' && p in tree' && m.made <= m'.made
    requires forall q <- tree' :: q in tree || q == p || q in m'.made
    ensures Sound(m', validity, now, tree')
  {}

  lemma UploadSound(m: Memory, validity: int, now: int, tree: set<Path>, p: Path)
    requires |p| >= 2 && Sound(m, validity, now, tree) && Closed(tree) && validity >= 0
    ensures Sound(UploadedTo(m, validity, now, tree, p), validity, now, tree + PathsTo(p))
  {
    PathsToIsClosed(tree, p);
    NewPathsAreMade(tree, p);
    UploadEntries(m, validity, now, tree, p);
    SoundAfterUpload(m, UploadedTo(m, validity, now, tree, p), validity, now, tree, tree + PathsTo(p), p);
  }

  lemma UploadNegatives(m: Memory, validity: int, now: int, tree: set<Path>, p: Path)
    requires |p| >= 2 && Closed(tree) && NegativesTrue(m, now, tree)
    ensures NegativesTrue(UploadedTo(m, validity, now, tree, p), now, tree + PathsTo(p))
  {
    PathsToIsClosed(tree, p);
  }

  lemma UploadStores(m: Memory, validity: int, now: int, tree: set<Path>, p: Path)
    requires |p| >= 2 && Sound(m, validity, now, tree) && Closed(tree) && validity >= 0
    ensures var tree', m2 := tree + PathsTo(p), UploadedTo(m, validity, now, tree, p);
      && Sound(m2, validity, now, tree') && Closed(tree')
      && (NegativesTrue(m, now, tree) ==> NegativesTrue(m2, now, tree'))
      && !(Parent(p) in m2.cache && !m2.cache[Parent(p)].there)
      && (forall q :: Above(q, Parent(p)) ==> !(q in m2.cache && !m2.cache[q].there))
  {
    UploadSound(m, validity, now, tree, p);
    if NegativesTrue(m, now, tree) { UploadNegatives(m, validity, now, tree, p); }
    PathsToIsClosed(tree, p);
    assert Above(Parent(p), p);
    forall q | Above(q, Parent(p)) ensures Above(q, p) { assert p[..|q|] == Parent(p)[..|q|]; }
  }

  lemma UploadTruth(m: Memory, validity: int, now: int, tree: set<Path>, p: Path)
    requires |p| >= 2 && Sound(m, validity, now, tree) && Closed(tree) && validity >= 0
    ensures var tree' := tree + PathsTo(p); var m' := Uploaded(m, validity, now, tree, p, Landed, true);
      && Sound(m', validity, now, tree') && Closed(tree')
      && (NegativesTrue(m, now, tree) ==> NegativesTrue(m', now, tree'))
  {
    UploadStores(m, validity, now, tree, p);
    var m2 := UploadedTo(m, validity, now, tree, p);
    GetKeeps(m2, validity, now, tree + PathsTo(p), Parent(p));
    var d := Parent(p);
    if !Valid(m2.cache, d, now) { ClimbKeeps(m2.cache - {d}, now, d); }
    assert Get(m2.cache, now, d).0 != Some(false);
  }

  lemma FailureSound(m: Memory, m': Memory, validity: int, now: int, tree: set<Path>, tree': set<Path>, p: Path)
    requires Sound(m, validity, now, tree) && tree <= tree' && p !in tree'
    requires m' == Store(Memory(m.cache, m.lists - {p}, m'.made), validity, now, p, false) && m.made <= m'.made
    requires forall q <- tree' - tree :: q in m'.made && !Says(m.cache, now, q, false)
    ensures Sound(m', validity, now, tree')
    ensures NegativesTrue(m, now, tree) ==> NegativesTrue(m', now, tree')
  {
    if NegativesTrue(m, now, tree) {
      forall q <- m'.cache | Valid(m'.cache, q, now) && !m'.cache[q].there ensures q !in tree' {
        if q != p { assert Says(m.cache, now, q, false); }
      }
    }
  }

  lemma FailedUploadTruth(w: World, t: Timed, validity: int)
    requires t.op.Upload? && !t.op.ok && WellFormed(t.op) && Benign(w, t)
    requires Sound(w.mem, validity, t.at, w.tree) && Closed(w.tree)
    ensures var tree' := TreeAfter(w.tree, t.op);
      var m' := Uploaded(w.mem, validity, t.at, w.tree, t.op.p, t.op.reach, false);
      && Sound(m', validity, t.at, tree') && Closed(tree')
      && (NegativesTrue(w.mem, t.at, w.tree) ==> NegativesTrue(m', t.at, tree'))
  {
    PathsToIsClosed(w.tree, Parent(t.op.p));
    PathsToIsClosed(w.tree, t.op.p);
    var m' := Uploaded(w.mem, validity, t.at, w.tree, t.op.p, t.op.reach, false);
    FailureSound(w.mem, m', validity, t.at, w.tree, TreeAfter(w.tree, t.op), t.op.p);
  }

  lemma AboveParent(g: Path, q: Path)
    requires |q| >= 2
    ensures Above(q[..|q| - 1], q) && (Above(g, Parent(q)) ==> Above(g, q))
  {
    if Above(g, Parent(q)) { assert q[..|g|] == Parent(q)[..|g|]; }
  }

  lemma WithoutIsClosed(tree: set<Path>, gone: set<Path>)
    requires Closed(tree)
    ensures Closed(Without(tree, gone))
  {
    forall q <- Without(tree, gone) | |q| >= 2 ensures Parent(q) in Without(tree, gone) {
      forall g <- gone ensures g != Parent(q) && !Above(g, Parent(q)) { AboveParent(g, q); }
    }
  }

  lemma RemovalSound(m: Memory, validity: int, now: int, tree: set<Path>, tree': set<Path>, p: Path)
    requires Sound(m, validity, now, tree) && tree' <= tree && p !in tree'
    requires forall q <- tree - tree' | q != p :: !Says(m.cache, now, q, true)
    ensures var m' := Removed(m, validity, now, p, false, false);
      Sound(m', validity, now, tree') && (NegativesTrue(m, now, tree) ==> NegativesTrue(m', now, tree'))
  {
    var m' := Removed(m, validity, now, p, false, false);
    forall q <- m'.cache | Valid(m'.cache, q, now) && m'.cache[q].there ensures q in tree' {
      assert q != p && Says(m.cache, now, q, true);
    }
  }

  lemma FailedRemovalSound(m: Memory, validity: int, now: int, tree: set<Path>, tree': set<Path>)
    requires Sound(m, validity, now, tree) && tree' <= tree
    requires forall q <- tree - tree' :: !Says(m.cache, now, q, true)
    ensures Sound(m, validity, now, tree')
    ensures NegativesTrue(m, now, tree) ==> NegativesTrue(m, now, tree')
  {
    forall q <- m.cache | Valid(m.cache, q, now) && m.cache[q].there ensures q in tree' {
      assert Says(m.cache, now, q, true);
    }
  }

  lemma RemovalTruth(w: World, t: Timed, validity: int)
    requires t.op.Remove? && WellFormed(t.op) && Benign(w, t)
    requires Sound(w.mem, validity, t.at, w.tree) && Closed(w.tree)
    ensures var tree' := TreeAfter(w.tree, t.op);
      var m' := Removed(w.mem, validity, t.at, t.op.p, t.op.seen, t.op.ok);
      && Sound(m', validity, t.at, tree') && Closed(tree')
      && (NegativesTrue(w.mem, t.at, w.tree) ==> NegativesTrue(m', t.at, tree'))
  {
    WithoutIsClosed(w.tree, t.op.gone);
    var tree' := TreeAfter(w.tree, t.op);
    if t.op.seen && !t.op.ok {
      FailedRemovalSound(w.mem, validity, t.at, w.tree, tree');
    } else {
      RemovalSound(w.mem, validity, t.at, w.tree, tree', t.op.p);
    }
  }

  /** The valid entries are right. */
  ghost predicate Truthful(w: World, now: int) {
    forall p <- w.mem.cache :: Valid(w.mem.cache, p, now) ==> w.mem.cache[p].there == (p in w.tree)
  }

  /** A valid entry is the answer for its path, whatever the storage holds. */
  lemma EntryAnswers(m: Memory, validity: int, now: int, s: Storage, p: Path, there: bool)
    requires |p| >= 2 && Says(m.cache, now, p, there)
    ensures Ask(m, validity, now, s, p).0 == Some(there)
  {}

  /**
   Nothing less would do: if the entries are right before an upload or a removal, they are right after it
   if and only if it is benign. If it is not, a valid entry is wrong, and with it the next answers for its path.
   */
  lemma BenignExactly(validity: int, w: World, t: Timed)
    requires (t.op.Upload? || t.op.Remove?) && WellFormed(t.op) && validity >= 0
    requires Sound(w.mem, validity, t.at, w.tree) && Closed(w.tree) && Truthful(w, t.at)
    ensures Benign(w, t) <==> Truthful(Step(validity, w, t).1, t.at)
  {
    var w' := Step(validity, w, t).1;
    if Benign(w, t) {
      StepTruth(validity, w, t);
    } else if t.op.Upload? {
      var p := t.op.p;
      assert Says(w'.mem.cache, t.at, p, false);
      if p !in w'.tree {
        var q :| q in w'.tree - w.tree && Says(w.mem.cache, t.at, q, false);
        assert Says(w'.mem.cache, t.at, q, false);
      }
    } else if t.op.seen {
      var q :| q in w.tree - w'.tree && (q != t.op.p || !t.op.ok) && Says(w.mem.cache, t.at, q, true);
      assert Says(w'.mem.cache, t.at, q, true);
    } else {
      assert Says(w'.mem.cache, t.at, t.op.p, false) && t.op.p in w.tree;
    }
  }

  // ---- runs ------------------------------------------------------------------------------------

  lemma TimePasses(m: Memory, validity: int, before: int, now: int, tree: set<Path>)
    requires before <= now && Sound(m, validity, before, tree)
    ensures Sound(m, validity, now, tree) && (NegativesTrue(m, before, tree) ==> NegativesTrue(m, now, tree))
  {}

  lemma BrowseTruth(m: Memory, validity: int, now: int, s: Storage, d: Path, silent: bool)
    requires Sound(m, validity, now, s.tree) && Closed(s.tree)
    ensures Keeps(m, Browse(m, validity, now, s, d, silent).1, validity, now, s.tree)
  {
    match List(s, d)
    case Failed =>
    case Names(_) => ListingKeeps(m, validity, now, s.tree, d);
    case Absent => if silent { AbsentKeeps(m, validity, now, s, d); }
  }

  /**
   What `listdir` answers: the names of exactly what is in the directory, for one not there nothing if that
   is to be silent, and an error if it is not, or if the directory could not be listed.
   */
  lemma BrowseTellsTheTree(m: Memory, validity: int, now: int, s: Storage, d: Path, silent: bool)
    requires Closed(s.tree)
    ensures var names := Browse(m, validity, now, s, d, silent).0;
      && (names.None? <==> d in s.down || (d !in s.tree && !silent))
      && (names.Some? ==> forall n: string :: n in names.value <==> d + [n] in s.tree)
  {
    forall n: string ensures n in ChildNames(s.tree, d) <==> d + [n] in s.tree {
      NameOfChild(s.tree, d + [n]);
      assert Parent(d + [n]) == d;
    }
  }

  lemma StepTruth(validity: int, w: World, t: Timed)
    requires WellFormed(t.op) && validity >= 0 && Closed(w.tree) && Sound(w.mem, validity, t.at, w.tree) && Benign(w, t)
    ensures var w' := Step(validity, w, t).1;
      && Closed(w'.tree) && Sound(w'.mem, validity, t.at, w'.tree)
      && (NegativesTrue(w.mem, t.at, w.tree) && (t.op.Exists? ==> Grounded(w.mem, validity, t.at, t.op.p)) ==>
            NegativesTrue(w'.mem, t.at, w'.tree))
  {
    match t.op
    case Exists(p, down) => AskTruth(w.mem, validity, t.at, Storage(w.tree, down), p);
    case Listdir(d, silent, down) => BrowseTruth(w.mem, validity, t.at, Storage(w.tree, down), d, silent);
    case Upload(p, _, ok) =>
      if ok { UploadTruth(w.mem, validity, t.at, w.tree, p); } else { FailedUploadTruth(w, t, validity); }
    case Remove(_, _, _, _) => RemovalTruth(w, t, validity);
    case Expire =>
  }

  lemma {:induction false} RunIsSound(validity: int, tree: set<Path>, run: seq<Timed>, n: nat, now: int)
    requires BenignRun(validity, tree, run) && n <= |run| && validity >= 0 && Closed(tree)
    requires n > 0 ==> run[n - 1].at <= now
    ensures var w := Before(validity, tree, run, n); Closed(w.tree) && Sound(w.mem, validity, now, w.tree)
  {
    if n > 0 {
      var t := run[n - 1];
      RunIsSound(validity, tree, run, n - 1, t.at);
      StepTruth(validity, Before(validity, tree, run, n - 1), t);
      var w := Before(validity, tree, run, n);
      TimePasses(w.mem, validity, t.at, now, w.tree);
    }
  }

  /**
   Over every benign run: a yes is always right, and a no is right whenever the last real listing of
   the directory is at most one validity period old -- unless the path is itself a directory that an
   upload has made since.
   */
  lemma AnswersCanBeTrusted(validity: int, tree: set<Path>, run: seq<Timed>, n: nat)
    requires BenignRun(validity, tree, run) && n < |run| && validity >= 0 && Closed(tree) && run[n].op.Exists?
    ensures var p, truth := run[n].op.p, Before(validity, tree, run, n).tree;
      var after := Before(validity, tree, run, n + 1).mem;
      && (Answer(validity, tree, run, n) == Some(true) ==> p in truth)
      && (Answer(validity, tree, run, n) == Some(false) && p !in after.made && Fresh(after, validity, run[n].at, Parent(p))
          ==> p !in truth)
  {
    RunIsSound(validity, tree, run, n, run[n].at);
    var w := Before(validity, tree, run, n);
    AskTruth(w.mem, validity, run[n].at, Storage(w.tree, run[n].op.down), run[n].op.p);
  }

  predicate GroundedAt(validity: int, tree: set<Path>, run: seq<Timed>, n: nat)
    requires n < |run| && forall t <- run :: WellFormed(t.op)
  {
    run[n].op.Exists? ==> Grounded(Before(validity, tree, run, n).mem, validity, run[n].at, run[n].op.p)
  }

  lemma NegativesStep(validity: int, tree: set<Path>, run: seq<Timed>, k: nat, now: int)
    requires BenignRun(validity, tree, run) && k < |run| && validity >= 0 && Closed(tree) && run[k].at <= now
    requires NegativesTrue(Before(validity, tree, run, k).mem, run[k].at, Before(validity, tree, run, k).tree)
    requires GroundedAt(validity, tree, run, k)
    ensures NegativesTrue(Before(validity, tree, run, k + 1).mem, now, Before(validity, tree, run, k + 1).tree)
  {
    RunIsSound(validity, tree, run, k, run[k].at);
    StepTruth(validity, Before(validity, tree, run, k), run[k]);
    var w := Before(validity, tree, run, k + 1);
    TimePasses(w.mem, validity, run[k].at, now, w.tree);
  }

  lemma {:induction false} NegativesStayTrue(validity: int, tree: set<Path>, run: seq<Timed>, n: nat, now: int)
    requires BenignRun(validity, tree, run) && n <= |run| && validity >= 0 && Closed(tree)
    requires n > 0 ==> run[n - 1].at <= now
    requires forall k :: 0 <= k < n ==> GroundedAt(validity, tree, run, k)
    ensures var w := Before(validity, tree, run, n); NegativesTrue(w.mem, now, w.tree)
  {
    var k := 0;
    while k < n
      invariant 0 <= k <= n
      invariant NegativesTrue(Before(validity, tree, run, k).mem, if k < n then run[k].at else now, Before(validity, tree, run, k).tree)
    {
      NegativesStep(validity, tree, run, k, if k + 1 < n then run[k + 1].at else now);
      k := k + 1;
    }
  }

  lemma {:induction false} GroundedIsExact(validity: int, tree: set<Path>, run: seq<Timed>, n: nat)
    requires BenignRun(validity, tree, run) && n < |run| && validity >= 0 && Closed(tree) && run[n].op.Exists?
    requires forall k :: 0 <= k <= n ==> GroundedAt(validity, tree, run, k)
    requires Answer(validity, tree, run, n).Some?
    ensures Answer(validity, tree, run, n).value == (run[n].op.p in Before(validity, tree, run, n).tree)
  {
    RunIsSound(validity, tree, run, n, run[n].at);
    NegativesStayTrue(validity, tree, run, n, run[n].at);
    assert GroundedAt(validity, tree, run, n);
    var w := Before(validity, tree, run, n);
    AskTruth(w.mem, validity, run[n].at, Storage(w.tree, run[n].op.down), run[n].op.p);
  }

  /**
   A wrong answer needs an inference that is not grounded, then or earlier; and none of those is safe, for
   the storage may hold the path just as well for all the process knows.
   */
  lemma {:induction false} WrongAnswersAreInferred(validity: int, tree: set<Path>, run: seq<Timed>, n: nat)
    requires BenignRun(validity, tree, run) && n < |run| && validity >= 0 && Closed(tree) && run[n].op.Exists?
    ensures var w, answer := Before(validity, tree, run, n), Answer(validity, tree, run, n);
      && (answer.Some? && answer.value != (run[n].op.p in w.tree) ==>
            exists k :: 0 <= k <= n && !GroundedAt(validity, tree, run, k))
      && (!GroundedAt(validity, tree, run, n) ==>
            && answer == Some(false)
            && exists t :: Sound(w.mem, validity, run[n].at, t) && Closed(t) && run[n].op.p in t)
  {
    var w := Before(validity, tree, run, n);
    RunIsSound(validity, tree, run, n, run[n].at);
    if !GroundedAt(validity, tree, run, n) {
      InferenceIsExact(w.mem, validity, run[n].at, Storage(w.tree, run[n].op.down), run[n].op.p);
    } else if Answer(validity, tree, run, n).Some? {
      if forall k :: 0 <= k <= n ==> GroundedAt(validity, tree, run, k) { GroundedIsExact(validity, tree, run, n); }
    }
  }

  ghost predicate ListedFrom(m: Memory, start: int) { forall d <- m.lists :: m.lists[d] >= start }

  lemma {:induction false} MarkingListsNow(m: Memory, validity: int, now: int, s: Storage, d: Path, climb: nat, start: int)
    requires ListedFrom(m, start) && now >= start
    ensures ListedFrom(MarkAbsentAncestors(m, validity, now, s, d, climb), start)
    decreases climb
  {
    if climb > 0 && |d| >= 2 {
      var parent := Parent(d);
      var m1 := m.(cache := Get(m.cache, now, parent).1);
      if List(s, parent).Absent? {
        assert ListedFrom(Store(m1, validity, now, parent, false), start);
        MarkingListsNow(Store(m1, validity, now, parent, false), validity, now, s, parent, climb - 1, start);
      }
    }
  }

  lemma StepListsNow(validity: int, w: World, t: Timed, start: int)
    requires WellFormed(t.op) && ListedFrom(w.mem, start) && t.at >= start
    ensures ListedFrom(Step(validity, w, t).1.mem, start)
  {
    match t.op
    case Exists(p, down) =>
      var m1 := w.mem.(cache := Get(w.mem.cache, t.at, p).1);
      assert ListedFrom(Store(m1, validity, t.at, Parent(p), false), start);
      MarkingListsNow(Store(m1, validity, t.at, Parent(p), false), validity, t.at, Storage(w.tree, down), Parent(p), MAX_CLIMB, start);
    case Listdir(d, _, down) =>
      assert ListedFrom(Store(w.mem, validity, t.at, d, false), start);
      MarkingListsNow(Store(w.mem, validity, t.at, d, false), validity, t.at, Storage(w.tree, down), d, MAX_CLIMB, start);
    case _ =>
  }

  lemma {:induction false} RunListsFrom(validity: int, tree: set<Path>, run: seq<Timed>, n: nat, start: int)
    requires Runnable(run) && n <= |run| && forall t <- run :: t.at >= start
    ensures ListedFrom(Before(validity, tree, run, n).mem, start)
  {
    if n > 0 {
      RunListsFrom(validity, tree, run, n - 1, start);
      assert run[n - 1] in run;
      StepListsNow(validity, Before(validity, tree, run, n - 1), run[n - 1], start);
    }
  }

  lemma ParentsExist(tree: set<Path>, p: Path)
    requires |p| >= 2 && Closed(tree) && Parent(p) in tree
    ensures PathsTo(Parent(p)) <= tree
  {
    forall q <- PathsTo(Parent(p)) ensures q in tree {
      var k: int :| 1 <= k < |p| && q == Parent(p)[..k];
      if q != Parent(p) { AncestorsExist(tree, Parent(p), q); }
    }
  }

  lemma UploadMakes(m: Memory, validity: int, now: int, tree: set<Path>, p: Path, reach: Reach, ok: bool)
    requires |p| >= 2
    ensures Uploaded(m, validity, now, tree, p, reach, ok).made == m.made + NewDirectories(tree, p, reach)
  {}

  predicate InExistingDirectory(tree: set<Path>, op: Op) {
    op.Upload? && !op.reach.Untouched? && |op.p| >= 2 ==> Parent(op.p) in tree
  }

  lemma StepMakes(validity: int, w: World, t: Timed)
    requires WellFormed(t.op) && validity >= 0 && Closed(w.tree) && Sound(w.mem, validity, t.at, w.tree)
    requires InExistingDirectory(w.tree, t.op)
    ensures Step(validity, w, t).1.mem.made <= w.mem.made
  {
    match t.op
    case Exists(p, down) => AskTruth(w.mem, validity, t.at, Storage(w.tree, down), p);
    case Listdir(d, silent, down) => BrowseTruth(w.mem, validity, t.at, Storage(w.tree, down), d, silent);
    case Upload(p, reach, ok) =>
      UploadMakes(w.mem, validity, t.at, w.tree, p, reach, ok);
      if !reach.Untouched? { ParentsExist(w.tree, p); }
    case _ =>
  }

  lemma NothingMadeNext(validity: int, tree: set<Path>, run: seq<Timed>, k: nat)
    requires BenignRun(validity, tree, run) && k < |run| && validity >= 0 && Closed(tree)
    requires InExistingDirectory(Before(validity, tree, run, k).tree, run[k].op)
    requires Before(validity, tree, run, k).mem.made == {}
    ensures Before(validity, tree, run, k + 1).mem.made == {}
  {
    RunIsSound(validity, tree, run, k, run[k].at);
    StepMakes(validity, Before(validity, tree, run, k), run[k]);
  }

  lemma {:induction false} NothingMade(validity: int, tree: set<Path>, run: seq<Timed>, n: nat)
    requires BenignRun(validity, tree, run) && n <= |run| && validity >= 0 && Closed(tree)
    requires forall k :: 0 <= k < n ==> InExistingDirectory(Before(validity, tree, run, k).tree, run[k].op)
    ensures Before(validity, tree, run, n).mem.made == {}
  {
    var k := 0;
    while k < n
      invariant 0 <= k <= n && Before(validity, tree, run, k).mem.made == {}
    {
      NothingMadeNext(validity, tree, run, k);
      k := k + 1;
    }
  }

  /**
   What makes the cache safe to judge finished jobs by: for one validity period after every cache is
   emptied, every answer is exactly right, if nothing is uploaded into a directory not there yet.
   */
  lemma {:induction false} ExactAfterExpiry(validity: int, tree: set<Path>, run: seq<Timed>, n: nat, start: int)
    requires BenignRun(validity, tree, run) && n < |run| && validity >= 0 && Closed(tree) && run[n].op.Exists?
    requires forall t <- run :: start <= t.at <= start + validity
    requires forall k :: 0 <= k < n ==> InExistingDirectory(Before(validity, tree, run, k).tree, run[k].op)
    requires Answer(validity, tree, run, n).Some?
    ensures Answer(validity, tree, run, n).value == (run[n].op.p in Before(validity, tree, run, n).tree)
  {
    forall k | 0 <= k <= n ensures GroundedAt(validity, tree, run, k) {
      var w, t := Before(validity, tree, run, k), run[k];
      assert t in run;
      NothingMade(validity, tree, run, k);
      RunListsFrom(validity, tree, run, k, start);
      RunIsSound(validity, tree, run, k, t.at);
      if t.op.Exists? { GetKeeps(w.mem, validity, t.at, w.tree, t.op.p); }
    }
    GroundedIsExact(validity, tree, run, n);
  }

  lemma {:induction false} TreeStaysClosed(validity: int, tree: set<Path>, run: seq<Timed>, n: nat)
    requires n <= |run| && Closed(tree) && forall t <- run :: WellFormed(t.op)
    ensures Closed(Before(validity, tree, run, n).tree)
  {
    if n > 0 {
      TreeStaysClosed(validity, tree, run, n - 1);
      var before, t := Before(validity, tree, run, n - 1).tree, run[n - 1];
      match t.op
      case Upload(p, _, _) =>
        PathsToIsClosed(before, p);
        PathsToIsClosed(before, Parent(p));
      case Remove(_, _, gone, _) => WithoutIsClosed(before, gone);
      case _ =>
    }
  }

  /** `rest` is the run after the caches are emptied at `e`, and `mid` the storage as it is by then. */
  ghost predicate Afresh(validity: int, tree: set<Path>, run: seq<Timed>, e: nat, mid: set<Path>, rest: seq<Timed>) {
    && (forall t <- run :: WellFormed(t.op)) && e < |run| && run[e].op.Expire?
    && rest == run[e + 1..] && mid == Before(validity, tree, run, e).tree
  }

  lemma StepOf(validity: int, tree: set<Path>, run: seq<Timed>, n: nat)
    requires n < |run| && forall t <- run :: WellFormed(t.op)
    ensures Before(validity, tree, run, n + 1) == Step(validity, Before(validity, tree, run, n), run[n]).1
  {}

  lemma ExpiryForgets(validity: int, w: World, t: Timed)
    requires t.op.Expire?
    ensures Step(validity, w, t).1 == World(w.tree, FORGOTTEN)
  {}

  /** Emptying the caches is a fresh start on the storage as it is by then. */
  lemma ExpiryIsAStart(validity: int, tree: set<Path>, run: seq<Timed>, e: nat, mid: set<Path>, rest: seq<Timed>, n: nat)
    requires Afresh(validity, tree, run, e, mid, rest) && n <= |rest|
    ensures (forall t <- rest :: WellFormed(t.op)) && Before(validity, tree, run, e + 1 + n) == Before(validity, mid, rest, n)
  {
    StepOf(validity, tree, run, e);
    ExpiryForgets(validity, Before(validity, tree, run, e), run[e]);
    forall t <- rest ensures WellFormed(t.op) { assert t in run; }
    StartsAt(validity, mid, rest);
    for k := 0 to n
      invariant Before(validity, tree, run, e + 1 + k) == Before(validity, mid, rest, k)
    {
      StepOf(validity, tree, run, e + 1 + k);
      StepOf(validity, mid, rest, k);
    }
  }

  lemma {:induction false} StartsAt(validity: int, tree: set<Path>, run: seq<Timed>)
    requires forall t <- run :: WellFormed(t.op)
    ensures Before(validity, tree, run, 0) == World(tree, FORGOTTEN)
  {}

  /** So it is at any moment of a run, whatever went on before: benign or not, and however much is wrong by then. */
  lemma {:induction false} ExactAfterAnyExpiry(validity: int, tree: set<Path>, run: seq<Timed>, e: nat,
                                               mid: set<Path>, rest: seq<Timed>, n: nat)
    requires Afresh(validity, tree, run, e, mid, rest) && Runnable(run) && n < |rest| && validity >= 0 && Closed(tree)
    requires BenignRun(validity, mid, rest) && rest[n].op.Exists? && forall t <- rest :: t.at <= run[e].at + validity
    requires forall k :: 0 <= k < n ==> InExistingDirectory(Before(validity, mid, rest, k).tree, rest[k].op)
    requires Answer(validity, tree, run, e + 1 + n).Some?
    ensures Answer(validity, tree, run, e + 1 + n).value == (rest[n].op.p in Before(validity, tree, run, e + 1 + n).tree)
  {
    TreeStaysClosed(validity, tree, run, e);
    RestIsLater(validity, tree, run, e, mid, rest);
    ExpiryIsAStart(validity, tree, run, e, mid, rest, n);
    assert run[e + 1 + n] == rest[n];
    ExactAfterExpiry(validity, mid, rest, n, run[e].at);
  }

  lemma RestIsLater(validity: int, tree: set<Path>, run: seq<Timed>, e: nat, mid: set<Path>, rest: seq<Timed>)
    requires Afresh(validity, tree, run, e, mid, rest) && Runnable(run)
    ensures forall t <- rest :: run[e].at <= t.at
  {
    forall t <- rest ensures run[e].at <= t.at {
      var k :| 0 <= k < |rest| && rest[k] == t;
      assert run[e + 1 + k] == t;
    }
  }

  // ---- answers that are wrong ------------------------------------------------------------------

  /** After a failed upload the path reads as absent for a validity period, whatever the storage holds. */
  lemma FailedUploadReadsAbsent(m: Memory, validity: int, now: int, later: int, tree: set<Path>, s: Storage, p: Path, reach: Reach)
    requires |p| >= 2 && now <= later <= now + validity
    ensures Ask(Uploaded(m, validity, now, tree, p, reach, false), validity, later, s, p).0 == Some(false)
  {
    EntryAnswers(Uploaded(m, validity, now, tree, p, reach, false), validity, later, s, p, false);
  }

  /** So does a path that a removal did not find. */
  lemma UnseenRemovalReadsAbsent(m: Memory, validity: int, now: int, later: int, s: Storage, p: Path, ok: bool)
    requires |p| >= 2 && now <= later <= now + validity
    ensures Ask(Removed(m, validity, now, p, false, ok), validity, later, s, p).0 == Some(false)
  {
    EntryAnswers(Removed(m, validity, now, p, false, ok), validity, later, s, p, false);
  }

  /**
   A removal forgets no more than the path itself, and not even that if it fails: what the cache knew
   to exist, of a directory that is gone for instance, it asserts until the entries expire.
   */
  lemma RemovalForgetsOnePath(m: Memory, validity: int, now: int, later: int, s: Storage, p: Path, seen: bool, ok: bool, q: Path)
    requires |q| >= 2 && Says(m.cache, later, q, true)
    requires (q != p && !Above(q, p)) || (seen && !ok)
    ensures Ask(Removed(m, validity, now, p, seen, ok), validity, later, s, q).0 == Some(true)
  {
    EntryAnswers(Removed(m, validity, now, p, seen, ok), validity, later, s, q, true);
  }

  lemma {:induction false} ThreeSteps(validity: int, tree: set<Path>, a: Timed, b: Timed, c: Timed)
    requires WellFormed(a.op) && WellFormed(b.op) && WellFormed(c.op)
    ensures Before(validity, tree, [a, b, c], 0) == World(tree, FORGOTTEN)
    ensures Before(validity, tree, [a, b, c], 1) == Step(validity, World(tree, FORGOTTEN), a).1
    ensures Before(validity, tree, [a, b, c], 2) == Step(validity, Step(validity, World(tree, FORGOTTEN), a).1, b).1
    ensures Answer(validity, tree, [a, b, c], 2) == Step(validity, Before(validity, tree, [a, b, c], 2), c).0
  {}

  lemma ListdirStep(validity: int, w: World, d: Path, at: int)
    requires d in w.tree
    ensures Step(validity, w, Timed(at, Listdir(d, false, {}))).1 ==
      World(w.tree, StoreListing(w.mem, validity, at, d, ChildNames(w.tree, d)))
  {}

  function ListingOf(validity: int, tree: set<Path>, d: Path, t0: int): Cache {
    PutListing(map[], validity, t0, d, ChildNames(tree, d))
  }

  lemma OutlivedEntries(validity: int, tree: set<Path>, d: Path, f: Path, t0: int, t1: int)
    requires |d| >= 2 && |f| >= 2 && Parent(f) == d && Closed(tree) && f in tree
    requires t0 <= t1 <= t0 + validity
    ensures var c := PutListing(ListingOf(validity, tree, d, t0), validity, t1, Parent(d), ChildNames(tree, Parent(d)));
      && f in c && c[f] == Entry(true, t0 + validity, false)
      && d in c && c[d] == Entry(true, t1 + validity, true)
  {
    var c := ListingOf(validity, tree, d, t0);
    ListingEntry(map[], validity, t0, tree, d, d);
    ListingEntry(map[], validity, t0, tree, d, f);
    ListingEntry(c, validity, t1, tree, Parent(d), d);
    ListingEntry(c, validity, t1, tree, Parent(d), f);
  }

  lemma OutlivedInference(m: Memory, validity: int, now: int, s: Storage, d: Path, f: Path)
    requires |f| >= 2 && Parent(f) == d
    requires f in m.cache && m.cache[f].expires < now
    requires Says(m.cache, now, d, true) && m.cache[d].listed
    ensures Ask(m, validity, now, s, f).0 == Some(false)
  {
    var c := m.cache - {f};
    assert d != f && Valid(c, d, now);
    assert Climb(c, now, f) == (None, c);
  }

  lemma ReadingIsBenign(validity: int, tree: set<Path>, run: seq<Timed>)
    requires Runnable(run) && forall t <- run :: t.op.Exists? || t.op.Listdir?
    ensures BenignRun(validity, tree, run)
  {}

  function OutlivedRun(d: Path, f: Path, t0: int, t1: int, t2: int): seq<Timed>
    requires |d| >= 2
  {
    [Timed(t0, Listdir(d, false, {})), Timed(t1, Listdir(Parent(d), false, {})), Timed(t2, Exists(f, {}))]
  }

  /**
   A listing of the parent renews a directory's own entry, but not those of its children: any file read
   when they have expired and the directory has not is called absent, though it never went away.
   */
  lemma {:induction false} OutlivedListingMisleads(validity: int, tree: set<Path>, d: Path, f: Path, t0: int, t1: int, t2: int)
    requires |d| >= 2 && |f| >= 2 && Parent(f) == d && Closed(tree) && f in tree
    requires t0 <= t1 <= t0 + validity < t2 <= t1 + validity
    ensures var run := OutlivedRun(d, f, t0, t1, t2);
      BenignRun(validity, tree, run) && Before(validity, tree, run, 2).tree == tree && Answer(validity, tree, run, 2) == Some(false)
  {
    var run := OutlivedRun(d, f, t0, t1, t2);
    ReadingIsBenign(validity, tree, run);
    OutlivedAnswer(validity, tree, d, f, t0, t1, t2);
  }

  lemma {:induction false} OutlivedAnswer(validity: int, tree: set<Path>, d: Path, f: Path, t0: int, t1: int, t2: int)
    requires |d| >= 2 && |f| >= 2 && Parent(f) == d && Closed(tree) && f in tree
    requires t0 <= t1 <= t0 + validity < t2 <= t1 + validity
    ensures var run := OutlivedRun(d, f, t0, t1, t2);
      Before(validity, tree, run, 2).tree == tree && Answer(validity, tree, run, 2) == Some(false)
  {
    var run := OutlivedRun(d, f, t0, t1, t2);
    ThreeSteps(validity, tree, run[0], run[1], run[2]);
    ListdirStep(validity, World(tree, FORGOTTEN), d, t0);
    ListdirStep(validity, Before(validity, tree, run, 1), Parent(d), t1);
    OutlivedEntries(validity, tree, d, f, t0, t1);
    OutlivedInference(Before(validity, tree, run, 2).mem, validity, t2, Storage(tree, {}), d, f);
  }

  lemma NewDirectoryEntries(validity: int, tree: set<Path>, r: Path, d: Path, t0: int)
    requires |d| >= 2 && Parent(d) == r && r in tree && d !in tree
    ensures var c := ListingOf(validity, tree, r, t0);
      d !in c && r in c && c[r] == Entry(true, t0 + validity, true) && forall q <- c :: c[q].there
  {
    ListingEntry(map[], validity, t0, tree, r, r);
    ListingEntry(map[], validity, t0, tree, r, d);
    var c := ListingOf(validity, tree, r, t0);
    forall q <- c ensures c[q].there { ListingEntry(map[], validity, t0, tree, r, q); }
  }

  lemma UploadHidesDirectory(m: Memory, validity: int, now: int, tree: set<Path>, r: Path, d: Path, f: Path)
    requires |f| >= 2 && |d| >= 2 && Parent(d) == r && Above(d, f)
    requires d !in m.cache && Says(m.cache, now, r, true) && forall q <- m.cache :: m.cache[q].there
    ensures var c := Uploaded(m, validity, now, tree, f, Landed, true).cache;
      d !in c && r in c && c[r] == m.cache[r]
  {
    var m2 := UploadedTo(m, validity, now, tree, f);
    UploadEntries(m, validity, now, tree, f);
    var p := Parent(f);
    ClimbKeeps(m2.cache - {p}, now, p);
    assert Get(m2.cache, now, p).0 != Some(false);
  }

  lemma ListedDenies(m: Memory, validity: int, now: int, s: Storage, r: Path, d: Path)
    requires |d| >= 2 && Parent(d) == r && d !in m.cache && WasListed(m.cache, now, r)
    ensures Ask(m, validity, now, s, d).0 == Some(false)
  {
    assert m.cache - {d} == m.cache;
    assert Climb(m.cache, now, d) == (None, m.cache);
  }

  function NewDirectoryRun(r: Path, f: Path, d: Path, t0: int, t1: int, t2: int): seq<Timed> {
    [Timed(t0, Listdir(r, false, {})), Timed(t1, Upload(f, Landed, true)), Timed(t2, Exists(d, {}))]
  }

  /** An upload makes the directories it needs, but a listing that came before it goes on denying them. */
  lemma {:induction false} NewDirectoryReadsAbsent(validity: int, tree: set<Path>, r: Path, d: Path, f: Path, t0: int, t1: int, t2: int)
    requires |f| >= 2 && |d| >= 2 && Parent(d) == r && Above(d, f) && Closed(tree) && r in tree && d !in tree
    requires t0 <= t1 <= t2 <= t0 + validity
    ensures var run := NewDirectoryRun(r, f, d, t0, t1, t2);
      BenignRun(validity, tree, run) && d in Before(validity, tree, run, 2).tree && Answer(validity, tree, run, 2) == Some(false)
  {
    var run := NewDirectoryRun(r, f, d, t0, t1, t2);
    assert Benign(Before(validity, tree, run, 1), run[1]);
    NewDirectoryAnswer(validity, tree, r, d, f, t0, t1, t2);
  }

  lemma {:induction false} NewDirectoryAnswer(validity: int, tree: set<Path>, r: Path, d: Path, f: Path, t0: int, t1: int, t2: int)
    requires |f| >= 2 && |d| >= 2 && Parent(d) == r && Above(d, f) && Closed(tree) && r in tree && d !in tree
    requires t0 <= t1 <= t2 <= t0 + validity
    ensures var run := NewDirectoryRun(r, f, d, t0, t1, t2);
      d in Before(validity, tree, run, 2).tree && Answer(validity, tree, run, 2) == Some(false)
  {
    var run := NewDirectoryRun(r, f, d, t0, t1, t2);
    ThreeSteps(validity, tree, run[0], run[1], run[2]);
    ListdirStep(validity, World(tree, FORGOTTEN), r, t0);
    NewDirectoryEntries(validity, tree, r, d, t0);
    UploadHidesDirectory(Before(validity, tree, run, 1).mem, validity, t1, tree, r, d, f);
    PathsToIsClosed(tree, f);
    ListedDenies(Before(validity, tree, run, 2).mem, validity, t2, Storage(tree + PathsTo(f), {}), r, d);
  }
}
