/** The chain of steps one seed runs: each step reads the one before it and must hold every event asked for. */
module RunChain {
  import opened Wrappers

  function IndexOf(steps: seq<string>, step: string): (r: Option<nat>)
    ensures r.Some? ==> r.value < |steps| && steps[r.value] == step && step !in steps[..r.value]
    ensures r.None? <==> step !in steps
  {
    if steps == [] then None
    else if steps[0] == step then Some(0)
    else match IndexOf(steps[1..], step)
      case None => None
      case Some(i) =>
        assert steps[..i + 1] == [steps[0]] + steps[1..][..i];
        Some(i + 1)
  }

  /** One step as it ran: what it read (None: no file), and the entries its output was found to hold. */
  datatype Ran = Ran(step: string, filein: Option<string>, entries: nat)

  predicate Chained(ran: seq<Ran>, steps: seq<string>, from: nat, previous: Option<string>) {
    from + |ran| <= |steps| && forall k | 0 <= k < |ran| ::
      ran[k].step == steps[from + k] && ran[k].filein == if k == 0 then previous else Some(steps[from + k - 1])
  }

  /** The steps `from` to `end` in order, each reading the output of the one before it. */
  method RunSteps(steps: seq<string>, from: nat, end: nat, events: int, previous: Option<string>, entries: seq<nat>)
    returns (r: Result<Option<string>>, ran: seq<Ran>)
    requires |entries| == |steps| && from <= |steps| && end <= |steps|
    ensures Chained(ran, steps, from, previous)
    ensures r.Ok? <==> events == 0 || forall i | from <= i < end :: entries[i] == events
    ensures r.Ok? ==> |ran| == if from < end then end - from else 0
    ensures r.Err? ==> 0 < |ran| <= end - from && entries[from + |ran| - 1] != events
    ensures r.Err? ==> forall i | from <= i < from + |ran| - 1 :: entries[i] == events
    ensures forall k | 0 <= k < |ran| :: ran[k].entries == entries[from + k]
    ensures r.Ok? ==> r.value == if from < end then Some(steps[end - 1]) else None
  {
    ran := [];
    var prev := previous;
    var lastOut: Option<string> := None;
    for i := from to if from < end then end else from
      invariant |ran| == i - from && Chained(ran, steps, from, previous)
      invariant forall k | 0 <= k < |ran| :: ran[k].entries == entries[from + k]
      invariant events == 0 || forall j | from <= j < i :: entries[j] == events
      invariant lastOut == if from < i then Some(steps[i - 1]) else None
      invariant prev == if from < i then lastOut else previous
    {
      ran := ran + [Ran(steps[i], prev, entries[i])];
      if events != 0 && entries[i] != events { return Err("short step"), ran; }
      prev, lastOut := Some(steps[i]), Some(steps[i]);
    }
    return Ok(lastOut), ran;
  }

  /**
   `run_chain`; `entries[i]` is what the output of step `i` is counted to hold. It succeeds exactly if
   both ends are steps and every step between them delivered the events asked for.
   */
  method Run(steps: seq<string>, first: Option<string>, last: Option<string>, events: int, previous: Option<string>,
             entries: seq<nat>) returns (r: Result<Option<string>>, ran: seq<Ran>)
    requires |entries| == |steps|
    ensures var i0 := if first.Some? then IndexOf(steps, first.value) else Some(0);
            var i1 := if last.Some? then IndexOf(steps, last.value) else Some(|steps| - 1);
            if i0.None? || i1.None? then r.Err? && ran == []
            else
              && Chained(ran, steps, i0.value, previous)
              && (r.Ok? <==> events == 0 || forall i | i0.value <= i <= i1.value :: entries[i] == events)
              && (r.Ok? ==> |ran| == if i0.value <= i1.value then i1.value - i0.value + 1 else 0)
              && (r.Err? ==> ran != [] && ran[|ran| - 1].entries != events)
              && (r.Ok? && i0.value <= i1.value ==> r.value == Some(steps[i1.value]))
              && (r.Ok? && i1.value < i0.value ==> r.value == None)
  {
    var i0: Option<nat> := if first.Some? then IndexOf(steps, first.value) else Some(0);
    var end: Option<nat> := Some(|steps|);
    if last.Some? {
      var i1 := IndexOf(steps, last.value);
      end := if i1.Some? then Some(i1.value + 1) else None;
    }
    if i0.None? || end.None? { return Err("not a step"), []; }
    r, ran := RunSteps(steps, i0.value, end.value, events, previous, entries);
  }
}
