/** Every interleaving of submissions, device steps, interrupts and returns (kernel/virtio_disk.c). */
module VirtioRuns {
  import opened Options
  import opened VirtioModel
  import opened VirtioSteps

  /** One step under the driver's lock, or one of the device. A submission that finds too few descriptors
      changes nothing and is left out. */
  datatype Step = Submits(b: nat, write: bool, blockno: nat, i0: nat, i1: nat, i2: nat)
                | Takes | Completes(b: nat) | Acks | Finishes(b: nat)

  /** A submission is made only for a buffer that has no request outstanding; the rest is what each party sees. */
  predicate Enabled(s: Sys, t: Step) {
    match t
    case Submits(b, _, _, i0, i1, i2) => CanSubmit(s, b, i0, i1, i2)
    case Takes => CanTake(s)
    case Completes(b) => CanComplete(s, b)
    case Acks => CanAck(s)
    case Finishes(b) => CanFinish(s, b)
  }

  function Next(s: Sys, t: Step): (s': Sys)
    requires Enabled(s, t)
  {
    match t
    case Submits(b, write, blockno, i0, i1, i2) => Submit(s, b, write, blockno, i0, i1, i2)
    case Takes => Take(s)
    case Completes(b) => Complete(s, b)
    case Acks => Ack(s)
    case Finishes(b) => Finish(s, b)
  }

  /** virtio_disk_init: every descriptor free, both rings empty, from any count so that the indices may wrap. */
  function Start(availN: nat, usedN: nat): (s: Sys) {
    Sys(Queue(seq(NUM, _ => true), seq(NUM, _ => BLANK), seq(NUM, _ => Op(false, 0)), seq(NUM, _ => Info(None, 0)),
              seq(NUM, _ => 0), availN % U16, seq(NUM, _ => 0), usedN % U16, usedN % U16, {}),
        map[], seq(NUM, _ => None), [], [], availN, usedN)
  }

  lemma StartInv(availN: nat, usedN: nat)
    ensures Inv(Start(availN, usedN))
  {
    var s := Start(availN, usedN);
    forall i: nat | i < NUM ensures OwnerOk(s, i) { }
  }

  predicate StepAt(run: seq<Sys>, steps: seq<Step>, k: nat)
    requires k + 1 < |run| && k < |steps|
  {
    Enabled(run[k], steps[k]) && run[k + 1] == Next(run[k], steps[k])
  }

  predicate IsRun(run: seq<Sys>, steps: seq<Step>) {
    |run| == |steps| + 1 && forall k: nat {:trigger StepAt(run, steps, k)} | k < |steps| :: StepAt(run, steps, k)
  }

  lemma NextInv(s: Sys, t: Step)
    requires Inv(s) && Enabled(s, t)
    ensures Inv(Next(s, t))
  {
    match t
    case Submits(b, write, blockno, i0, i1, i2) => SubmitInv(s, b, write, blockno, i0, i1, i2);
    case Takes => TakeInv(s);
    case Completes(b) => CompleteInv(s, b);
    case Acks => AckInv(s);
    case Finishes(b) => FinishInv(s, b);
  }

  /** In every run the chains in flight are disjoint triples whose complement is free[], and no unread ring entry
      is ever overwritten. */
  lemma {:induction false} RunInv(run: seq<Sys>, steps: seq<Step>, k: nat)
    requires IsRun(run, steps) && Inv(run[0]) && k < |run|
    ensures Inv(run[k])
  {
    if k > 0 {
      RunInv(run, steps, k - 1);
      assert StepAt(run, steps, k - 1);
      NextInv(run[k - 1], steps[k - 1]);
    }
  }

  /** Two requests never share a descriptor, and every descriptor of neither is as free[] says. */
  lemma ChainsDisjoint(s: Sys, b: nat, b': nat, i: nat)
    requires Inv(s) && b in s.flight && b' in s.flight && i < NUM
    ensures b != b' ==> {s.flight[b].i0, s.flight[b].i1, s.flight[b].i2} !! {s.flight[b'].i0, s.flight[b'].i1, s.flight[b'].i2}
    ensures |{s.flight[b].i0, s.flight[b].i1, s.flight[b].i2}| == 3
    ensures !s.q.free[i] <==> exists x :: x in s.flight && i in {s.flight[x].i0, s.flight[x].i1, s.flight[x].i2}
  {
    assert ChainOk(s, b) && ChainOk(s, b') && OwnerOk(s, i);
    forall x | x in s.flight && i in {s.flight[x].i0, s.flight[x].i1, s.flight[x].i2} ensures !s.q.free[i] {
      assert ChainOk(s, x);
    }
  }

  /** The times in steps[from..to] that the device completed a request for buffer b. */
  function Completions(steps: seq<Step>, b: nat, from: nat, to: nat): (n: nat)
    requires from <= to <= |steps|
  {
    if from == to then 0 else Completions(steps, b, from, to - 1) + if steps[to - 1] == Completes(b) then 1 else 0
  }

  predicate Untouched(steps: seq<Step>, b: nat, from: nat, to: nat)
    requires to <= |steps|
  {
    forall k | from <= k < to :: !(steps[k].Submits? && steps[k].b == b) && steps[k] != Finishes(b)
  }

  /** A request that was submitted at from and has not returned by to has been performed once if it is
      completed or acknowledged, and not at all before. */
  lemma {:induction false} PerformedOnce(run: seq<Sys>, steps: seq<Step>, b: nat, from: nat, to: nat)
    requires IsRun(run, steps) && Inv(run[0]) && from < to <= |steps|
    requires steps[from].Submits? && steps[from].b == b && Untouched(steps, b, from + 1, to)
    ensures b in run[to].flight
    ensures Completions(steps, b, from + 1, to) == if run[to].flight[b].phase in {Done, Acked} then 1 else 0
    ensures var c := run[to].flight[b];
            c == Chain(steps[from].i0, steps[from].i1, steps[from].i2, steps[from].write, steps[from].blockno, c.phase)
  {
    RunInv(run, steps, to - 1);
    assert StepAt(run, steps, to - 1);
    if to > from + 1 {
      PerformedOnce(run, steps, b, from, to - 1);
      PhaseStep(run[to - 1], steps[to - 1], b);
    }
  }

  /** Only completing b's request makes it completed; nothing undoes that. */
  lemma PhaseStep(s: Sys, t: Step, b: nat)
    requires Inv(s) && Enabled(s, t) && b in s.flight && !(t.Submits? && t.b == b) && t != Finishes(b)
    ensures b in Next(s, t).flight && Next(s, t).flight[b] == s.flight[b].(phase := Next(s, t).flight[b].phase)
    ensures t == Completes(b) ==> s.flight[b].phase == Taken && Next(s, t).flight[b].phase == Done
    ensures t != Completes(b) ==> (Next(s, t).flight[b].phase in {Done, Acked} <==> s.flight[b].phase in {Done, Acked})
  {
    if t.Takes? { assert PostedOk(s, 0); }
    if t.Acks? { assert DoneOk(s, 0); }
  }

  /** virtio_disk_rw returns for a buffer only after the device performed its request exactly once. */
  lemma ReturnsOnce(run: seq<Sys>, steps: seq<Step>, b: nat, from: nat, to: nat)
    requires IsRun(run, steps) && Inv(run[0]) && from < to < |steps|
    requires steps[from].Submits? && steps[from].b == b && steps[to] == Finishes(b) && Untouched(steps, b, from + 1, to)
    ensures Completions(steps, b, from + 1, to) == 1
  {
    PerformedOnce(run, steps, b, from, to);
    assert StepAt(run, steps, to);
  }
}
