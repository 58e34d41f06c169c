/** One call of `gfal_copy_safe` by itself is a run of the step machine of `AtomicPublish`, attempt by attempt. */
module PublishSteps {
  import opened Wrappers
  import opened AtomicPublish

  lemma Extended(sum: Content -> int, retries: nat, ws: seq<World>, run: seq<Event>, e: Event) returns (ws': seq<World>, run': seq<Event>)
    requires IsPath(sum, retries, ws, run) && Enabled(ws[|run|], e)
    ensures ws' == ws + [Step(sum, retries, ws[|run|], e)] && run' == run + [e]
    ensures IsPath(sum, retries, ws', run') && ws'[|run'|] == Step(sum, retries, ws[|run|], e)
  {
    ws', run' := ws + [Step(sum, retries, ws[|run|], e)], run + [e];
  }

  /** The world with nothing changed but the target and one call. */
  function With(w: World, target: Option<Content>, id: nat, x: Writer): World { World(target, w.writers[id := x]) }

  /** What an attempt leaves of a call that makes `retries` in all. */
  function Left(retries: nat, x: Writer, o: Outcome): Writer {
    if o.ok then x.(tmp := o.tmp, phase := Returned) else Retry(retries, x.(tmp := o.tmp))
  }

  predicate Starts(w: World, id: nat) { id in w.writers && w.writers[id].phase.Clearing? }

  /** The first look and the removal: on to the copy exactly if the temporary name can be cleared. */
  lemma ClearingIs(sum: Content -> int, retries: nat, w: World, id: nat, t: Try) returns (e: Event)
    requires Starts(w, id) && Possible(t)
    ensures e.Clear? && Enabled(w, e)
    ensures var x := w.writers[id]; var w' := Step(sum, retries, w, e);
      && (Clears(t, x.tmp) ==> exists tmp :: w' == With(w, w.target, id, x.(tmp := tmp, phase := Copying)))
      && (!Clears(t, x.tmp) ==> w' == With(w, w.target, id, Left(retries, x, Attempted(sum, x.expected, w.target, x.tmp, t))))
  {
    var found := !t.existsFails && t.tmpSeen && w.writers[id].tmp.Some?;
    e := Clear(id, found, found && t.rmRemoves, Clears(t, w.writers[id].tmp));
    assert Step(sum, retries, w, e).writers[id].tmp == if e.removed then None else w.writers[id].tmp;
  }

  /** From the copy on: the attempt fails at it, at the comparison, or goes on to the rename with what was copied. */
  lemma CopyingIs(sum: Content -> int, retries: nat, w: World, id: nat, x: Writer, t: Try) returns (ws: seq<World>, run: seq<Event>)
    requires id in w.writers && w.writers[id].phase.Copying? && w.writers[id] == x.(tmp := w.writers[id].tmp, phase := Copying)
    requires Possible(t)
    ensures IsPath(sum, retries, ws, run) && ws[0] == w
    ensures Copies(sum, x.expected, t) || (x.expected.None? && !t.copyFails) ==>
              ws[|run|] == With(w, w.target, id, x.(tmp := t.left, phase := Renaming))
    ensures !Copies(sum, x.expected, t) && !(x.expected.None? && !t.copyFails) ==>
              ws[|run|] == With(w, w.target, id, Retry(retries, x.(tmp := t.left)))
  {
    var e := Copy(id, t.left, !t.copyFails);
    ws, run := Extended(sum, retries, [w], [], e);
    var w1 := ws[|run|];
    assert w1.writers[id] == Next(retries, x.(tmp := t.left, phase := Copying), Checking, !t.copyFails);
    if !t.copyFails {
      ws, run := Extended(sum, retries, ws, run, Check(id, !t.sumFails));
    }
    assert ws[|run|].writers == w.writers[id := ws[|run|].writers[id]];
  }

  /** From the rename on. */
  lemma RenamingIs(sum: Content -> int, retries: nat, w: World, id: nat, x: Writer, t: Try) returns (ws: seq<World>, run: seq<Event>)
    requires id in w.writers && w.writers[id] == x.(tmp := t.left, phase := Renaming)
    requires Possible(t)
    ensures IsPath(sum, retries, ws, run) && ws[0] == w
    ensures var o := Outcome(if t.moves then t.left else w.target, if t.moves then None else t.left, Publishes(t));
            ws[|run|] == With(w, o.target, id, Left(retries, x, o))
  {
    ws, run := Extended(sum, retries, [w], [], Rename(id, t.moves, !t.renameFails));
    if !t.renameFails {
      ws, run := Extended(sum, retries, ws, run, Confirm(id, t.targetSeen));
    }
    assert ws[|run|].writers == w.writers[id := ws[|run|].writers[id]];
  }

  lemma Joined(sum: Content -> int, retries: nat, ws: seq<World>, run: seq<Event>, vs: seq<World>, more: seq<Event>)
    returns (us: seq<World>, all: seq<Event>)
    requires IsPath(sum, retries, ws, run) && IsPath(sum, retries, vs, more) && ws[|run|] == vs[0]
    ensures IsPath(sum, retries, us, all) && us[0] == ws[0] && us[|all|] == vs[|more|] && all == run + more
  {
    us, all := ws[..|run|] + vs, run + more;
  }

  /** What an attempt does by itself, the machine does step by step, and back at the first step if it fails. */
  lemma AttemptIsSteps(sum: Content -> int, retries: nat, w: World, id: nat, t: Try) returns (ws: seq<World>, run: seq<Event>)
    requires Starts(w, id) && Possible(t)
    ensures IsPath(sum, retries, ws, run) && ws[0] == w
    ensures var x := w.writers[id]; var o := Attempted(sum, x.expected, w.target, x.tmp, t);
            ws[|run|] == With(w, o.target, id, Left(retries, x, o))
  {
    var x := w.writers[id];
    var e := ClearingIs(sum, retries, w, id, t);
    ws, run := Extended(sum, retries, [w], [], e);
    if Clears(t, x.tmp) {
      var w1 := ws[1];
      var vs, more := CopyingIs(sum, retries, w1, id, x, t);
      ws, run := Joined(sum, retries, ws, run, vs, more);
      var w2 := ws[|run|];
      if w2.writers[id].phase.Renaming? {
        vs, more := RenamingIs(sum, retries, w2, id, x, t);
        ws, run := Joined(sum, retries, ws, run, vs, more);
      }
    }
  }

  /** How far a call is after `n` attempts that ended in `o`. */
  predicate IsCall(w: World, source: Content, expected: Option<int>, o: Outcome, retries: nat, n: nat) {
    && w.target == o.target && w.writers.Keys == {0}
    && var x := w.writers[0];
       && x.source == source && x.expected == expected && x.tmp == o.tmp
       && (if o.ok then x.phase.Returned? else if n < retries then x.phase.Clearing? && x.attempt == n else x.phase.Raised?)
  }

  lemma {:induction false} CallPrefix(sum: Content -> int, source: Content, known: bool, target: Option<Content>, tries: seq<Try>, n: nat)
    returns (ws: seq<World>, run: seq<Event>)
    requires n <= |tries| && 0 < |tries| && forall t <- tries :: Possible(t)
    ensures IsRun(sum, |tries|, ws, run) && ws[0] == World(target, map[]) && run != [] && run[0] == Begin(0, source, known)
    ensures var expected := Expected(sum, source, known);
            IsCall(ws[|run|], source, expected, CalledUpTo(sum, expected, target, tries, n), |tries|, n)
  {
    if n == 0 {
      ws, run := Extended(sum, |tries|, [World(target, map[])], [], Begin(0, source, known));
    } else {
      ws, run := CallPrefix(sum, source, known, target, tries, n - 1);
      var w := ws[|run|];
      if !w.writers[0].phase.Returned? {
        assert tries[n - 1] in tries;
        var vs, more := AttemptIsSteps(sum, |tries|, w, 0, tries[n - 1]);
        ws, run := Joined(sum, |tries|, ws, run, vs, more);
      }
    }
  }

  /**
   A call by itself is a run: whatever its attempts meet, the machine gets to the same target and the same
   temporary name, and the call has returned there if it succeeds, and has raised if none of four attempts did.
   */
  lemma CallIsARun(sum: Content -> int, source: Content, known: bool, target: Option<Content>, tries: seq<Try>)
    returns (ws: seq<World>, run: seq<Event>, o: Outcome)
    requires |tries| == N_RETRIES && forall t <- tries :: Possible(t)
    ensures |tries| == 4 && o == CalledUpTo(sum, Expected(sum, source, known), target, tries, 4)
    ensures IsRun(sum, 4, ws, run) && ws[0] == World(target, map[]) && run != [] && run[0] == Begin(0, source, known)
    ensures ws[|run|].target == o.target && ws[|run|].writers.Keys == {0} && ws[|run|].writers[0].tmp == o.tmp
    ensures ws[|run|].writers[0].phase == if o.ok then Returned else Raised
  {
    ws, run := CallPrefix(sum, source, known, target, tries, 4);
    o := CalledUpTo(sum, Expected(sum, source, known), target, tries, 4);
  }
}
