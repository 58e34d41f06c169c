/**
 `gfal_copy_safe` in `copy_rename` mode: copy under a name of the writer's own, compare checksums, rename
 onto the target. First one call by itself, then any number of calls for one target, step by step.
 */
module AtomicPublish {
  import opened Wrappers

  type Content = seq<int>

  const N_RETRIES := 4

  // ---- one call --------------------------------------------------------------------------------

  /** What the remote calls of one attempt do; every one of them may fail, with or without its effect. */
  datatype Try = Try(
    existsFails: bool, tmpSeen: bool, rmRemoves: bool, rmFails: bool, // clearing the temporary name
    left: Option<Content>, copyFails: bool,                          // what the copy leaves there
    sumFails: bool,                                                  // reading its checksum
    moves: bool, renameFails: bool,                                  // the rename
    targetSeen: bool)                                                // looking for the target afterwards

  /** A call that reports success had its effect, and only a file that is there can be renamed. */
  predicate Possible(t: Try) {
    (t.rmFails || t.rmRemoves) && (t.moves ==> t.left.Some?) && (t.renameFails || t.moves)
  }

  predicate Verified(sum: Content -> int, expected: Option<int>, tmp: Option<Content>) {
    expected.None? || (tmp.Some? && sum(tmp.value) == expected.value)
  }

  /** What an attempt or a call leaves under the target and its temporary name, and whether it succeeded. */
  datatype Outcome = Outcome(target: Option<Content>, tmp: Option<Content>, ok: bool)

  /** One attempt, from what is under the two names before it. */
  function Attempted(sum: Content -> int, expected: Option<int>, target: Option<Content>, tmp: Option<Content>, t: Try): Outcome {
    var found := t.tmpSeen && tmp.Some?; // a look may miss a file, but not invent one
    var cleared := if found && t.rmRemoves then None else tmp;
    if t.existsFails then Outcome(target, tmp, false)
    else if found && t.rmFails then Outcome(target, cleared, false)
    else if t.copyFails || (expected.Some? && (t.sumFails || !Verified(sum, expected, t.left))) then Outcome(target, t.left, false)
    else Outcome(if t.moves then t.left else target, if t.moves then None else t.left, !t.renameFails && t.targetSeen)
  }

  /** The first `k` attempts of a call, which has a temporary name of its own; after a success no more are made. */
  function CalledUpTo(sum: Content -> int, expected: Option<int>, target: Option<Content>, tries: seq<Try>, k: nat): Outcome
    requires k <= |tries|
  {
    if k == 0 then Outcome(target, None, false)
    else
      var o := CalledUpTo(sum, expected, target, tries, k - 1);
      if o.ok then o else Attempted(sum, expected, o.target, o.tmp, tries[k - 1])
  }

  function Expected(sum: Content -> int, source: Content, known: bool): Option<int> {
    if known then Some(sum(source)) else None
  }

  // ---- when it works ---------------------------------------------------------------------------

  /** The temporary name can be looked at, and what is seen there removed. */
  predicate Clears(t: Try, tmp: Option<Content>) { !t.existsFails && !(t.tmpSeen && tmp.Some? && t.rmFails) }

  /** The copy ends well and leaves something, and where a checksum is known it can be read and is the right one. */
  predicate Copies(sum: Content -> int, expected: Option<int>, t: Try) {
    !t.copyFails && t.left.Some? && (expected.Some? ==> !t.sumFails && sum(t.left.value) == expected.value)
  }

  /** The rename ends well, and the target is seen afterwards. */
  predicate Publishes(t: Try) { !t.renameFails && t.targetSeen }

  /** Nothing in the attempt goes wrong, whatever is under the temporary name. */
  predicate Clean(sum: Content -> int, expected: Option<int>, t: Try) {
    !t.existsFails && !(t.tmpSeen && t.rmFails) && Copies(sum, expected, t) && Publishes(t)
  }

  class Endpoint {
    var target: Option<Content>
    var tmp: Option<Content>

    constructor (target: Option<Content>)
      ensures this.target == target && tmp == None
    {
      this.target, tmp := target, None;
    }

    /** `download`: one attempt. */
    method Download(sum: Content -> int, expected: Option<int>, t: Try) returns (ok: bool)
      requires Possible(t)
      modifies this
      ensures Outcome(target, tmp, ok) == Attempted(sum, expected, old(target), old(tmp), t)
      ensures ok <==> Clears(t, old(tmp)) && Copies(sum, expected, t) && Publishes(t)
      ensures ok ==> target == t.left && target.Some? && tmp == None
      ensures target == old(target) || (target == t.left && target.Some? && Verified(sum, expected, target))
    {
      if t.existsFails { return false; }
      if t.tmpSeen && tmp.Some? {
        if t.rmRemoves { tmp := None; }
        if t.rmFails { return false; }
      }
      tmp := t.left;
      if t.copyFails { return false; }
      if expected.Some? {
        if t.sumFails || tmp.None? || sum(tmp.value) != expected.value { return false; }
      }
      if t.moves { target, tmp := tmp, None; }
      if t.renameFails { return false; }
      return t.targetSeen;
    }

    /** `repeat_until_success` around it; `tries` is what the attempts meet, as far as they are made. */
    method CopySafe(sum: Content -> int, source: Content, known: bool, tries: seq<Try>) returns (ok: bool)
      requires |tries| == N_RETRIES && forall t <- tries :: Possible(t)
      modifies this
      ensures Outcome(target, tmp, ok) == CalledUpTo(sum, Expected(sum, source, known), old(target), tries, N_RETRIES)
      ensures target == old(target) || (target.Some? && (known ==> sum(target.value) == sum(source)))
      ensures ok ==> exists t <- tries :: target == t.left && target.Some? && (known ==> sum(target.value) == sum(source))
      ensures (exists t <- tries :: Clean(sum, Expected(sum, source, known), t)) ==> ok
      ensures old(target).Some? ==> target.Some?
    {
      var expected := Expected(sum, source, known);
      tmp := None;
      for n := 0 to N_RETRIES
        invariant Outcome(target, tmp, false) == CalledUpTo(sum, expected, old(target), tries, n)
        invariant target == old(target) || (target.Some? && (known ==> sum(target.value) == sum(source)))
        invariant forall i | 0 <= i < n :: !Clean(sum, expected, tries[i])
      {
        assert tries[n] in tries;
        ok := Download(sum, expected, tries[n]);
        if ok {
          OkStays(sum, expected, old(target), tries, n + 1, N_RETRIES);
          return true;
        }
      }
      return false;
    }
  }

  lemma {:induction false} OkStays(sum: Content -> int, expected: Option<int>, target: Option<Content>, tries: seq<Try>, i: nat, k: nat)
    requires i <= k <= |tries| && CalledUpTo(sum, expected, target, tries, i).ok
    ensures CalledUpTo(sum, expected, target, tries, k) == CalledUpTo(sum, expected, target, tries, i)
  {
    if i < k { OkStays(sum, expected, target, tries, i, k - 1); }
  }

  /** An attempt of the call that goes well, from what the ones before it left under the temporary name. */
  predicate Succeeds(sum: Content -> int, expected: Option<int>, target: Option<Content>, tries: seq<Try>, k: nat)
    requires k < |tries|
  {
    Clears(tries[k], CalledUpTo(sum, expected, target, tries, k).tmp) && Copies(sum, expected, tries[k]) && Publishes(tries[k])
  }

  lemma AttemptSucceedsExactlyWhen(sum: Content -> int, expected: Option<int>, target: Option<Content>, tmp: Option<Content>, t: Try)
    requires Possible(t)
    ensures var o := Attempted(sum, expected, target, tmp, t);
      && (o.ok <==> Clears(t, tmp) && Copies(sum, expected, t) && Publishes(t))
      && (o.ok ==> o == Outcome(t.left, None, true))
  {}

  /**
   A call succeeds if and only if one of its attempts does -- a look, removal, copy, sum, rename or last
   look that fails in every attempt is what makes it raise -- and the first such decides what is published.
   */
  lemma {:induction false} SucceedsExactlyWhen(sum: Content -> int, expected: Option<int>, target: Option<Content>, tries: seq<Try>, n: nat)
    returns (k: nat)
    requires n <= |tries| && forall t <- tries :: Possible(t)
    ensures k <= n && (CalledUpTo(sum, expected, target, tries, n).ok <==> k < n)
    ensures forall i | 0 <= i < k :: !Succeeds(sum, expected, target, tries, i)
    ensures k < n ==> Succeeds(sum, expected, target, tries, k)
    ensures k < n ==> CalledUpTo(sum, expected, target, tries, n) == Outcome(tries[k].left, None, true)
  {
    k := n;
    if n > 0 {
      k := SucceedsExactlyWhen(sum, expected, target, tries, n - 1);
      if k == n - 1 {
        assert tries[n - 1] in tries;
        var o := CalledUpTo(sum, expected, target, tries, n - 1);
        AttemptSucceedsExactlyWhen(sum, expected, o.target, o.tmp, tries[n - 1]);
        if !Succeeds(sum, expected, target, tries, n - 1) { k := n; }
      }
    }
  }

  // ---- any number of calls ---------------------------------------------------------------------

  datatype Phase = Clearing | Copying | Checking | Renaming | Confirming | Returned | Raised | Crashed

  /** One call, with its own temporary file; the name is unique, so nobody else touches that. */
  datatype Writer = Writer(source: Content, expected: Option<int>, tmp: Option<Content>, phase: Phase, attempt: nat)

  datatype World = World(target: Option<Content>, writers: map<nat, Writer>)

  datatype Event =
    | Begin(id: nat, source: Content, known: bool)
    | Clear(id: nat, seen: bool, removed: bool, ok: bool)
    | Copy(id: nat, left: Option<Content>, ok: bool)
    | Check(id: nat, readable: bool)
    | Rename(id: nat, moved: bool, ok: bool)
    | Confirm(id: nat, seen: bool)
    | Crash(id: nat)

  predicate Enabled(w: World, e: Event) {
    if e.Begin? then e.id !in w.writers
    else
      e.id in w.writers &&
      var x := w.writers[e.id];
      match e
      case Clear(_, seen, removed, ok) =>
        x.phase.Clearing? && (seen ==> x.tmp.Some?) && (removed ==> seen) && (ok && seen ==> removed)
      case Copy(_, _, _) => x.phase.Copying?
      case Check(_, _) => x.phase.Checking?
      case Rename(_, moved, ok) => x.phase.Renaming? && (moved ==> x.tmp.Some?) && (ok ==> moved)
      case Confirm(_, seen) => x.phase.Confirming? && (seen ==> w.target.Some?)
      case _ => true
  }

  function Retry(retries: nat, x: Writer): Writer {
    if x.attempt + 1 < retries then x.(phase := Clearing, attempt := x.attempt + 1) else x.(phase := Raised)
  }

  function Next(retries: nat, x: Writer, phase: Phase, ok: bool): Writer {
    if ok then x.(phase := phase) else Retry(retries, x)
  }

  function WriterAfter(sum: Content -> int, retries: nat, w: World, e: Event): Writer
    requires Enabled(w, e)
  {
    match e
    case Begin(_, source, known) =>
      Writer(source, if known then Some(sum(source)) else None, None, if retries == 0 then Raised else Clearing, 0)
    case Clear(id, _, removed, ok) =>
      Next(retries, if removed then w.writers[id].(tmp := None) else w.writers[id], Copying, ok)
    case Copy(id, left, ok) => Next(retries, w.writers[id].(tmp := left), Checking, ok)
    case Check(id, readable) =>
      var x := w.writers[id];
      Next(retries, x, Renaming, x.expected.None? || (readable && Verified(sum, x.expected, x.tmp)))
    case Rename(id, moved, ok) =>
      Next(retries, if moved then w.writers[id].(tmp := None) else w.writers[id], Confirming, ok)
    case Confirm(id, seen) => Next(retries, w.writers[id], Returned, seen)
    case Crash(id) => w.writers[id].(phase := Crashed)
  }

  function Step(sum: Content -> int, retries: nat, w: World, e: Event): World
    requires Enabled(w, e)
  {
    World(if e.Rename? && e.moved then w.writers[e.id].tmp else w.target,
          w.writers[e.id := WriterAfter(sum, retries, w, e)])
  }

  ghost predicate IsPath(sum: Content -> int, retries: nat, ws: seq<World>, run: seq<Event>) {
    && |ws| == |run| + 1
    && forall i | 0 <= i < |run| :: Enabled(ws[i], run[i]) && ws[i + 1] == Step(sum, retries, ws[i], run[i])
  }

  ghost predicate IsRun(sum: Content -> int, retries: nat, ws: seq<World>, run: seq<Event>) {
    IsPath(sum, retries, ws, run) && ws[0].writers == map[]
  }

  /** Every call learnt the checksum of what it uploads. */
  predicate SumsKnown(run: seq<Event>) { forall e <- run :: e.Begin? ==> e.known }

  // ---- what every step keeps -------------------------------------------------------------------

  /** Who is about to rename has verified what it renames. */
  ghost predicate Checked(sum: Content -> int, w: World) {
    forall id <- w.writers ::
      var x := w.writers[id];
      x.expected == Some(sum(x.source)) && (x.phase.Renaming? ==> Verified(sum, x.expected, x.tmp))
  }

  lemma {:induction false} CheckedAlways(sum: Content -> int, retries: nat, ws: seq<World>, run: seq<Event>, n: nat)
    requires IsRun(sum, retries, ws, run) && SumsKnown(run) && n <= |run|
    ensures Checked(sum, ws[n])
  {
    if n > 0 {
      CheckedAlways(sum, retries, ws, run, n - 1);
      assert run[n - 1] in run;
    }
  }

  /** The target holds what some call was given to upload, judged by its checksum. */
  ghost predicate FromSomeWriter(sum: Content -> int, w: World) {
    w.target.Some? && exists id <- w.writers :: sum(w.target.value) == sum(w.writers[id].source)
  }

  lemma StepPublishes(sum: Content -> int, retries: nat, w: World, e: Event, first: Option<Content>)
    requires Enabled(w, e) && Checked(sum, w) && (w.target == first || FromSomeWriter(sum, w))
    ensures var w' := Step(sum, retries, w, e); w'.target == first || FromSomeWriter(sum, w')
    ensures w.target.Some? ==> Step(sum, retries, w, e).target.Some?
  {
    var w' := Step(sum, retries, w, e);
    if e.Rename? && e.moved {
      assert w'.writers[e.id].source == w.writers[e.id].source;
      assert sum(w'.target.value) == sum(w'.writers[e.id].source);
    } else if w.target != first {
      var id :| id in w.writers && sum(w.target.value) == sum(w.writers[id].source);
      assert w'.writers[id].source == w.writers[id].source;
      assert sum(w'.target.value) == sum(w'.writers[id].source);
    }
  }

  /**
   At every moment the target holds what it held before, or the complete content of some call -- however
   the calls interleave, fail, retry and crash.
   */
  lemma {:induction false} TargetIsAlwaysWhole(sum: Content -> int, retries: nat, ws: seq<World>, run: seq<Event>, n: nat)
    requires IsRun(sum, retries, ws, run) && SumsKnown(run) && n <= |run|
    ensures ws[n].target == ws[0].target || FromSomeWriter(sum, ws[n])
  {
    if n > 0 {
      TargetIsAlwaysWhole(sum, retries, ws, run, n - 1);
      CheckedAlways(sum, retries, ws, run, n - 1);
      StepPublishes(sum, retries, ws[n - 1], run[n - 1], ws[0].target);
    }
  }

  /** Some copy of the first `n` events left this content under a temporary name, complete or not. */
  ghost predicate WasLeft(run: seq<Event>, n: nat, c: Content)
    requires n <= |run|
  {
    exists i :: 0 <= i < n && run[i].Copy? && run[i].left == Some(c)
  }

  /** Nothing is under a temporary name but what a copy left there, nor under the target but that or the old content. */
  ghost predicate LeftByCopies(run: seq<Event>, n: nat, w: World, first: Option<Content>)
    requires n <= |run|
  {
    && (forall id <- w.writers :: w.writers[id].tmp.Some? ==> WasLeft(run, n, w.writers[id].tmp.value))
    && (w.target == first || (w.target.Some? && WasLeft(run, n, w.target.value)))
  }

  lemma StepLeaves(sum: Content -> int, retries: nat, w: World, run: seq<Event>, n: nat, first: Option<Content>)
    requires n < |run| && Enabled(w, run[n]) && LeftByCopies(run, n, w, first)
    ensures LeftByCopies(run, n + 1, Step(sum, retries, w, run[n]), first)
  {
    forall c | WasLeft(run, n, c) || (run[n].Copy? && run[n].left == Some(c)) ensures WasLeft(run, n + 1, c) {
      if run[n].Copy? && run[n].left == Some(c) {
      } else {
        var i :| 0 <= i < n && run[i].Copy? && run[i].left == Some(c);
      }
    }
  }

  lemma {:induction false} LeftByCopiesAlways(sum: Content -> int, retries: nat, ws: seq<World>, run: seq<Event>, n: nat)
    requires IsRun(sum, retries, ws, run) && n <= |run|
    ensures LeftByCopies(run, n, ws[n], ws[0].target)
  {
    if n > 0 {
      LeftByCopiesAlways(sum, retries, ws, run, n - 1);
      StepLeaves(sum, retries, ws[n - 1], run, n - 1, ws[0].target);
    }
  }

  /** Of what the copies of the run left, nothing but a call's own source has that source's checksum. */
  ghost predicate CollisionFree(sum: Content -> int, run: seq<Event>, n: nat, w: World)
    requires n <= |run|
  {
    forall id <- w.writers, c | WasLeft(run, n, c) && sum(c) == sum(w.writers[id].source) :: c == w.writers[id].source
  }

  /**
   So the target holds its old content or exactly what some call was given, unless a copy of the run left
   something else with the same checksum.
   */
  lemma TargetIsExact(sum: Content -> int, retries: nat, ws: seq<World>, run: seq<Event>, n: nat)
    requires IsRun(sum, retries, ws, run) && SumsKnown(run) && n <= |run| && CollisionFree(sum, run, n, ws[n])
    ensures ws[n].target == ws[0].target || exists id <- ws[n].writers :: ws[n].target == Some(ws[n].writers[id].source)
  {
    TargetIsAlwaysWhole(sum, retries, ws, run, n);
    LeftByCopiesAlways(sum, retries, ws, run, n);
    if ws[n].target != ws[0].target {
      var id :| id in ws[n].writers && sum(ws[n].target.value) == sum(ws[n].writers[id].source);
      assert ws[n].target == Some(ws[n].writers[id].source);
    }
  }

  /** Once present, the target is never absent again, whether or not checksums are known. */
  lemma {:induction false} NeverAbsentAgain(sum: Content -> int, retries: nat, ws: seq<World>, run: seq<Event>, i: nat, j: nat)
    requires IsRun(sum, retries, ws, run) && i <= j <= |run| && ws[i].target.Some?
    ensures ws[j].target.Some?
  {
    if i < j { NeverAbsentAgain(sum, retries, ws, run, i, j - 1); }
  }

  /** A call that returns normally published its own content at some moment while it ran. */
  lemma {:induction false} ReturnMeansPublished(sum: Content -> int, retries: nat, ws: seq<World>, run: seq<Event>, n: nat, id: nat)
    returns (m: nat)
    requires IsRun(sum, retries, ws, run) && SumsKnown(run) && n <= |run|
    requires id in ws[n].writers && (ws[n].writers[id].phase.Returned? || ws[n].writers[id].phase.Confirming?)
    ensures m < n && id in ws[m].writers && run[m] == Rename(id, true, true)
    ensures ws[m + 1].target.Some? && sum(ws[m + 1].target.value) == sum(ws[n].writers[id].source)
  {
    var w, e := ws[n - 1], run[n - 1];
    if e.id == id && e.Rename? {
      CheckedAlways(sum, retries, ws, run, n - 1);
      m := n - 1;
    } else {
      m := ReturnMeansPublished(sum, retries, ws, run, n - 1, id);
    }
  }

  ghost predicate Bounded(retries: nat, w: World) {
    forall id <- w.writers :: w.writers[id].attempt == 0 || w.writers[id].attempt < retries
  }

  lemma StepStaysBounded(sum: Content -> int, retries: nat, w: World, e: Event)
    requires Enabled(w, e) && Bounded(retries, w)
    ensures Bounded(retries, Step(sum, retries, w, e))
  {}

  /** A call makes at most `retries` attempts, or the one it begins with. */
  lemma {:induction false} AttemptsAreBounded(sum: Content -> int, retries: nat, ws: seq<World>, run: seq<Event>, n: nat)
    requires IsRun(sum, retries, ws, run) && n <= |run|
    ensures Bounded(retries, ws[n])
  {
    if n > 0 {
      AttemptsAreBounded(sum, retries, ws, run, n - 1);
      StepStaysBounded(sum, retries, ws[n - 1], run[n - 1]);
    }
  }

  // ---- the checksum is needed ------------------------------------------------------------------

  /** A call publishes what its copy left, if it looks right or there is nothing to compare it with. */
  lemma PublishesCut(sum: Content -> int, source: Content, cut: Content, known: bool) returns (ws: seq<World>, run: seq<Event>)
    requires known ==> sum(cut) == sum(source)
    ensures IsRun(sum, N_RETRIES, ws, run) && ws[0].target == None && run != [] && run[0] == Begin(0, source, known)
    ensures SumsKnown(run) <==> known
    ensures ws[|run|].target == Some(cut) && ws[|run|].writers.Keys == {0} && ws[|run|].writers[0].phase == Returned
    ensures ws[|run|].writers[0].source == source
  {
    run := [Begin(0, source, known), Clear(0, false, false, true), Copy(0, Some(cut), true), Check(0, true),
            Rename(0, true, true), Confirm(0, true)];
    assert run[0] in run;
    var x := Writer(source, if known then Some(sum(source)) else None, None, Clearing, 0);
    ws := [World(None, map[]), World(None, map[0 := x]), World(None, map[0 := x.(phase := Copying)]),
           World(None, map[0 := x.(tmp := Some(cut), phase := Checking)]),
           World(None, map[0 := x.(tmp := Some(cut), phase := Renaming)]),
           World(Some(cut), map[0 := x.(phase := Confirming)]), World(Some(cut), map[0 := x.(phase := Returned)])];
    forall i | 0 <= i < |run| ensures Enabled(ws[i], run[i]) && ws[i + 1] == Step(sum, N_RETRIES, ws[i], run[i]) {
      assert i == 0 || i == 1 || i == 2 || i == 3 || i == 4 || i == 5;
    }
  }

  /** A call that could not learn the checksum of its input publishes whatever its copy left. */
  lemma UnknownSumPublishesAnything(sum: Content -> int, source: Content, cut: Content) returns (ws: seq<World>, run: seq<Event>)
    ensures IsRun(sum, N_RETRIES, ws, run) && ws[0].target == None && run != [] && run[0] == Begin(0, source, false)
    ensures ws[|run|].target == Some(cut) && ws[|run|].writers.Keys == {0} && ws[|run|].writers[0].phase == Returned
    ensures ws[|run|].writers[0].source == source
  {
    ws, run := PublishesCut(sum, source, cut, false);
  }

  /** And one that did publishes any other content its copy left, if that has the same checksum. */
  lemma CollisionIsPublished(sum: Content -> int, source: Content, cut: Content) returns (ws: seq<World>, run: seq<Event>)
    requires sum(cut) == sum(source) && cut != source
    ensures IsRun(sum, N_RETRIES, ws, run) && SumsKnown(run) && ws[0].target == None
    ensures ws[|run|].target == Some(cut) && ws[|run|].writers.Keys == {0} && ws[|run|].writers[0].phase == Returned
    ensures ws[|run|].writers[0].source == source
    ensures !CollisionFree(sum, run, |run|, ws[|run|])
  {
    ws, run := PublishesCut(sum, source, cut, true);
    if CollisionFree(sum, run, |run|, ws[|run|]) { TargetIsExact(sum, N_RETRIES, ws, run, |run|); }
  }
}
