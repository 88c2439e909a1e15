/** Every request in flight is four steps long and can always go on (kernel/virtio_disk.c). */
module VirtioProgress {
  import opened VirtioModel
  import opened VirtioRuns

  /** The requests of f that are at p. */
  function At(f: map<nat, Chain>, p: Phase): (bs: set<nat>) {
    set b | b in f && f[b].phase == p
  }

  /** The steps the requests of f still have to make. */
  function Left(f: map<nat, Chain>): (n: nat) {
    4 * |At(f, Posted)| + 3 * |At(f, Taken)| + 2 * |At(f, Done)| + |At(f, Acked)|
  }

  function Rank(p: Phase): (n: nat) {
    match p case Posted => 4 case Taken => 3 case Done => 2 case Acked => 1
  }

  lemma Added(f: map<nat, Chain>, b: nat, c: Chain)
    requires b !in f
    ensures Left(f[b := c]) == Left(f) + Rank(c.phase)
  {
    assert At(f[b := c], c.phase) == At(f, c.phase) + {b};
    assert forall p: Phase :: p != c.phase ==> At(f[b := c], p) == At(f, p);
  }

  lemma Dropped(f: map<nat, Chain>, b: nat)
    requires b in f
    ensures Left(f - {b}) == Left(f) - Rank(f[b].phase)
  {
    assert (f - {b})[b := f[b]] == f;
    Added(f - {b}, b, f[b]);
  }

  lemma Moved(f: map<nat, Chain>, b: nat, c: Chain)
    requires b in f
    ensures Left(f[b := c]) == Left(f) - Rank(f[b].phase) + Rank(c.phase)
  {
    assert (f - {b})[b := c] == f[b := c];
    Dropped(f, b);
    Added(f - {b}, b, c);
  }

  /** A submission brings four steps, and every other step is one of them. */
  lemma StepCounts(s: Sys, t: Step)
    requires Inv(s) && Enabled(s, t)
    ensures Left(Next(s, t).flight) == if t.Submits? then Left(s.flight) + 4 else Left(s.flight) - 1
  {
    match t {
      case Submits(b, write, blockno, i0, i1, i2) =>
        Added(s.flight, b, Chain(i0, i1, i2, write, blockno, Posted));
      case Takes =>
        assert PostedOk(s, 0);
        Moved(s.flight, s.posted[0], s.flight[s.posted[0]].(phase := Taken));
      case Completes(b) =>
        Moved(s.flight, b, s.flight[b].(phase := Done));
      case Acks =>
        assert DoneOk(s, 0);
        Moved(s.flight, s.done[0], s.flight[s.done[0]].(phase := Acked));
      case Finishes(b) =>
        Dropped(s.flight, b);
    }
  }

  function Submissions(steps: seq<Step>): (n: nat) {
    if steps == [] then 0 else Submissions(steps[..|steps| - 1]) + if steps[|steps| - 1].Submits? then 1 else 0
  }

  /** In every run each request is taken, completed, acknowledged and returned, one step each: the steps made that
      are not submissions and the steps still to be made add up to four for every request. */
  lemma {:induction false} FourSteps(run: seq<Sys>, steps: seq<Step>, k: nat)
    requires IsRun(run, steps) && Inv(run[0]) && k < |run|
    ensures Left(run[k].flight) + (k - Submissions(steps[..k])) == Left(run[0].flight) + 4 * Submissions(steps[..k])
  {
    if k > 0 {
      FourSteps(run, steps, k - 1);
      RunInv(run, steps, k - 1);
      assert StepAt(run, steps, k - 1);
      StepCounts(run[k - 1], steps[k - 1]);
      assert steps[..k][..k - 1] == steps[..k - 1];
    }
  }

  /** The step a request in flight is waiting for, its own or that of one ahead of it, can be made. */
  lemma CanMove(s: Sys, b: nat) returns (t: Step)
    requires Inv(s) && b in s.flight
    ensures Enabled(s, t) && !t.Submits?
  {
    assert ChainOk(s, b);
    match s.flight[b].phase
    case Posted =>
      assert PostedOk(s, 0);
      t := Takes;
    case Taken =>
      t := Completes(b);
    case Done =>
      assert DoneOk(s, 0);
      t := Acks;
    case Acked =>
      t := Finishes(b);
  }

  /** Nothing in flight: every descriptor is free and blank, both rings are read, no buffer is waited for. */
  predicate Idle(s: Sys) {
    && SizesOk(s) && s.flight == map[] && s.posted == s.done == [] && s.q.busy == {}
    && s.q.availIdx == s.takenN % U16 && s.q.seenIdx == s.q.usedIdx
    && forall i: nat | i < NUM :: s.q.free[i] && s.q.desc[i] == BLANK
  }

  lemma NoneLeft(s: Sys)
    requires Inv(s) && s.flight == map[]
    ensures Idle(s)
  {
    assert |s.posted| > 0 ==> PostedOk(s, 0);
    assert |s.done| > 0 ==> DoneOk(s, 0);
    forall i: nat | i < NUM ensures s.q.free[i] && s.q.desc[i] == BLANK { assert OwnerOk(s, i); }
  }

  /** From every state the requests in flight can all be brought to an end without another being submitted, in as
      many steps as Left says, and the queue is then idle: no request is ever stuck and no descriptor lost. */
  lemma {:induction false} Drains(s: Sys) returns (run: seq<Sys>, steps: seq<Step>)
    requires Inv(s)
    ensures IsRun(run, steps) && run[0] == s && Submissions(steps) == 0 && |steps| == Left(s.flight)
    ensures Idle(run[|steps|])
    decreases Left(s.flight)
  {
    if s.flight == map[] {
      NoneLeft(s);
      return [s], [];
    }
    var b :| b in s.flight;
    var t := CanMove(s, b);
    StepCounts(s, t);
    NextInv(s, t);
    var run', steps' := Drains(Next(s, t));
    run, steps := [s] + run', [t] + steps';
    forall k: nat | k < |steps| ensures StepAt(run, steps, k) {
      if k > 0 {
        assert StepAt(run', steps', k - 1);
      }
    }
    FirstNot(t, steps');
  }

  lemma {:induction false} FirstNot(t: Step, steps: seq<Step>)
    requires !t.Submits?
    ensures Submissions([t] + steps) == Submissions(steps)
  {
    var all := [t] + steps;
    if steps == [] {
      assert all[..0] == [];
    } else {
      assert all[..|all| - 1] == [t] + steps[..|steps| - 1];
      FirstNot(t, steps[..|steps| - 1]);
    }
  }
}
