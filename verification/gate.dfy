/** The admission gate: the buffered `guard` channel of capacity
    `concurrency` that a worker sends into before it starts and receives
    from when it finishes (gogo.go:143-150, 336-344). Seen as a counter of
    running workers, on its own: the pool models run their workers one at
    a time and do not consult it. */
module Gate {
  import opened Optionals

  datatype Gate = Gate(capacity: nat, running: nat)

  predicate Valid(g: Gate) {
    g.running <= g.capacity
  }

  /** An empty guard channel of the given capacity. */
  function NewGate(capacity: nat): (g: Gate)
    ensures Valid(g) && g.running == 0 && g.capacity == capacity
  {
    Gate(capacity, 0)
  }

  /** `guard <- struct{}{}`: admits a worker when a slot is free; None means
      the send blocks until a running worker releases its slot. */
  function Acquire(g: Gate): (r: Option<Gate>)
    ensures r.Some? <==> g.running < g.capacity
    ensures r.Some? ==> r.value.capacity == g.capacity && r.value.running == g.running + 1
  {
    if g.running < g.capacity then Some(g.(running := g.running + 1)) else None
  }

  /** `<-guard`: a finishing worker frees its slot; None means the receive
      would block, which a worker that acquired a slot never meets. */
  function Release(g: Gate): (r: Option<Gate>)
    ensures r.Some? <==> g.running > 0
    ensures r.Some? ==> r.value.capacity == g.capacity && r.value.running + 1 == g.running
  {
    if g.running > 0 then Some(g.(running := g.running - 1)) else None
  }

  datatype GateStep = AcquireStep | ReleaseStep

  /** Takes the steps in order; a step that would block is not taken (its
      goroutine waits and the trace moves on with the others). */
  function RunGate(g: Gate, steps: seq<GateStep>): Gate
    decreases |steps|
  {
    if |steps| == 0 then g
    else
      var next := if steps[0] == AcquireStep then Acquire(g) else Release(g);
      RunGate(if next.Some? then next.value else g, steps[1..])
  }

  /** At most `concurrency` workers run at once, whatever the interleaving
      of admissions and completions. */
  lemma {:induction false} GateBound(g: Gate, steps: seq<GateStep>)
    requires Valid(g)
    ensures Valid(RunGate(g, steps))
    ensures RunGate(g, steps).capacity == g.capacity
    decreases |steps|
  {
    if |steps| > 0 {
      var next := if steps[0] == AcquireStep then Acquire(g) else Release(g);
      GateBound(if next.Some? then next.value else g, steps[1..]);
    }
  }
}
