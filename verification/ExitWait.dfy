/** fork's linking, exit and wait over sleep and wakeup (kernel/proc.c), lock by lock. Process 0 is init. */
module ExitWait {
  import opened Options

  /** Where a process is in the code; wl is wait_lock, own the process's own lock. */
  datatype Pc =
    | Absent                             // the slot is UNUSED
    | Embryo                             // taken by fork, not yet runnable
    | Fresh                              // runnable for the first time
    | Forkret                            // picked for the first time, with own
    | Running                            // elsewhere in the kernel or in user code
    | Linking(np: nat)                   // fork has taken slot np, about to set its parent under wl
    | Readying(np: nat)                  // about to make it runnable
    | ExitWant                           // exit, about to acquire wl
    | Reparent(i: nat)                   // with wl, about to look at slot i's parent
    | InitWake(i: nat, j: nat)           // gave slot i to init; in wakeup(initproc), about to lock process j
    | InitWakeAt(i: nat, j: nat)         // with process j's lock, about to examine it
    | ParentWake(j: nat)                 // in wakeup(p->parent)
    | ParentWakeAt(j: nat)
    | ExitLock                           // about to acquire own
    | Zombify                            // with wl and own, about to become ZOMBIE
    | ExitDrop                           // about to release wl
    | ZSwitched                          // off the CPU, own not yet released by the scheduler
    | Dead                               // own released by the scheduler
    | WaitWant                           // wait, about to acquire wl
    | Scan(i: nat, kids: bool)           // with wl, about to look at slot i
    | ScanAt(i: nat)                     // with wl and child i's lock
    | Falling                            // in sleep with wl, about to acquire own
    | Dropping                           // with wl and own, about to release wl
    | Setting                            // with own, about to set chan and SLEEPING
    | Switched                           // off the CPU, own not yet released by the scheduler
    | Asleep                             // own released by the scheduler
    | Woken                              // running again with own

  datatype RunState = Unused | Used | Runnable | OnCpu | Sleeping | Zombie

  /** maker is the process whose fork took a slot that is not yet runnable; exits and frees count how often a slot
      became ZOMBIE and was freed. */
  datatype State = State(pc: seq<Pc>, run: seq<RunState>, chan: seq<Option<nat>>, parent: seq<Option<nat>>,
                         killed: seq<bool>, plock: seq<Option<nat>>, wl: Option<nat>,
                         maker: seq<Option<nat>>, exits: seq<nat>, frees: seq<nat>)

  predicate SizesOk(s: State) {
    && |s.pc| == |s.run| == |s.chan| == |s.parent| == |s.killed| == |s.plock| == |s.maker| == |s.exits| == |s.frees|
    && |s.pc| > 0
  }

  // ---------------------------------------------------------------- the code

  predicate LockFree(s: State, i: nat, p: nat)
    requires SizesOk(s)
  {
    i >= |s.pc| || i == p || s.plock[i] == None
  }

  /** Process p can take its next step. */
  predicate CanAct(s: State, p: nat)
    requires SizesOk(s) && p < |s.pc|
  {
    match s.pc[p]
    case Absent | Embryo | Fresh | Running | ZSwitched | Dead | Switched | Asleep => false
    case Forkret | Reparent(_) | Zombify | ExitDrop | Dropping | Setting | Woken => true
    case Linking(np) => s.wl == None && np < |s.pc|
    case Readying(np) => np < |s.pc| && s.plock[np] == None
    case ExitWant | WaitWant => s.wl == None
    case InitWake(_, j) => LockFree(s, j, p)
    case ParentWake(j) => LockFree(s, j, p)
    case InitWakeAt(_, j) => j < |s.pc|
    case ParentWakeAt(j) => j < |s.pc|
    case ExitLock | Falling => s.plock[p] == None
    case Scan(i, _) => i >= |s.pc| || s.parent[i] != Some(p) || s.plock[i] == None
    case ScanAt(i) => i < |s.pc|
  }

  /** wakeup's look at process j for channel c: it leaves j's lock. */
  function Examine(s: State, j: nat, c: Option<nat>): (s': State)
    requires SizesOk(s) && j < |s.pc|
    ensures SizesOk(s')
  {
    s.(plock := s.plock[j := None], run := if s.run[j] == Sleeping && s.chan[j] == c then s.run[j := Runnable] else s.run)
  }

  /** freeproc of the zombie in slot i, and the releases that follow. */
  function Reap(s: State, p: nat, i: nat): (s': State)
    requires SizesOk(s) && p < |s.pc| && i < |s.pc|
    ensures SizesOk(s')
  {
    s.(run := s.run[i := Unused], parent := s.parent[i := None], chan := s.chan[i := None], killed := s.killed[i := false],
       frees := s.frees[i := s.frees[i] + 1], plock := s.plock[i := None], wl := None, pc := s.pc[i := Absent][p := Running])
  }

  function Go(s: State, p: nat, c: Pc): (s': State)
    requires SizesOk(s) && p < |s.pc|
    ensures SizesOk(s')
  {
    s.(pc := s.pc[p := c])
  }

  function ForkretStep(s: State, p: nat): (s': State)
    requires SizesOk(s) && p < |s.pc| && s.pc[p].Forkret? && CanAct(s, p)
    ensures SizesOk(s')
  {
    Go(s, p, Running).(plock := s.plock[p := None])
  }

  function LinkingStep(s: State, p: nat): (s': State)
    requires SizesOk(s) && p < |s.pc| && s.pc[p].Linking? && CanAct(s, p)
    ensures SizesOk(s')
  {
    var np := s.pc[p].np;
    Go(s, p, Readying(np)).(parent := s.parent[np := Some(p)])
  }

  function ReadyingStep(s: State, p: nat): (s': State)
    requires SizesOk(s) && p < |s.pc| && s.pc[p].Readying? && CanAct(s, p)
    ensures SizesOk(s')
  {
    var np := s.pc[p].np;
    s.(pc := s.pc[np := Fresh][p := Running], run := s.run[np := Runnable], maker := s.maker[np := None])
  }

  function ExitWantStep(s: State, p: nat): (s': State)
    requires SizesOk(s) && p < |s.pc| && s.pc[p].ExitWant? && CanAct(s, p)
    ensures SizesOk(s')
  {
    Go(s, p, Reparent(0)).(wl := Some(p))
  }

  function ReparentStep(s: State, p: nat): (s': State)
    requires SizesOk(s) && p < |s.pc| && s.pc[p].Reparent? && CanAct(s, p)
    ensures SizesOk(s')
  {
    var i := s.pc[p].i;
    if i >= |s.pc| then Go(s, p, ParentWake(0))
    else if s.parent[i] == Some(p) then Go(s, p, InitWake(i, 0)).(parent := s.parent[i := Some(0)])
    else Go(s, p, Reparent(i + 1))
  }

  function InitWakeStep(s: State, p: nat): (s': State)
    requires SizesOk(s) && p < |s.pc| && s.pc[p].InitWake? && CanAct(s, p)
    ensures SizesOk(s')
  {
    var i, j := s.pc[p].i, s.pc[p].j;
    if j >= |s.pc| then Go(s, p, Reparent(i + 1))
    else if j == p then Go(s, p, InitWake(i, j + 1))
    else Go(s, p, InitWakeAt(i, j)).(plock := s.plock[j := Some(p)])
  }

  function InitWakeAtStep(s: State, p: nat): (s': State)
    requires SizesOk(s) && p < |s.pc| && s.pc[p].InitWakeAt? && CanAct(s, p)
    ensures SizesOk(s')
  {
    var i, j := s.pc[p].i, s.pc[p].j;
    Go(Examine(s, j, Some(0)), p, InitWake(i, j + 1))
  }

  function ParentWakeStep(s: State, p: nat): (s': State)
    requires SizesOk(s) && p < |s.pc| && s.pc[p].ParentWake? && CanAct(s, p)
    ensures SizesOk(s')
  {
    var j := s.pc[p].j;
    if j >= |s.pc| then Go(s, p, ExitLock)
    else if j == p then Go(s, p, ParentWake(j + 1))
    else Go(s, p, ParentWakeAt(j)).(plock := s.plock[j := Some(p)])
  }

  function ParentWakeAtStep(s: State, p: nat): (s': State)
    requires SizesOk(s) && p < |s.pc| && s.pc[p].ParentWakeAt? && CanAct(s, p)
    ensures SizesOk(s')
  {
    var j := s.pc[p].j;
    Go(Examine(s, j, s.parent[p]), p, ParentWake(j + 1))
  }

  function ExitLockStep(s: State, p: nat): (s': State)
    requires SizesOk(s) && p < |s.pc| && s.pc[p].ExitLock? && CanAct(s, p)
    ensures SizesOk(s')
  {
    Go(s, p, Zombify).(plock := s.plock[p := Some(p)])
  }

  function ZombifyStep(s: State, p: nat): (s': State)
    requires SizesOk(s) && p < |s.pc| && s.pc[p].Zombify? && CanAct(s, p)
    ensures SizesOk(s')
  {
    Go(s, p, ExitDrop).(run := s.run[p := Zombie], exits := s.exits[p := s.exits[p] + 1])
  }

  function ExitDropStep(s: State, p: nat): (s': State)
    requires SizesOk(s) && p < |s.pc| && s.pc[p].ExitDrop? && CanAct(s, p)
    ensures SizesOk(s')
  {
    Go(s, p, ZSwitched).(wl := None)
  }

  function WaitWantStep(s: State, p: nat): (s': State)
    requires SizesOk(s) && p < |s.pc| && s.pc[p].WaitWant? && CanAct(s, p)
    ensures SizesOk(s')
  {
    Go(s, p, Scan(0, false)).(wl := Some(p))
  }

  function ScanStep(s: State, p: nat): (s': State)
    requires SizesOk(s) && p < |s.pc| && s.pc[p].Scan? && CanAct(s, p)
    ensures SizesOk(s')
  {
    var i, kids := s.pc[p].i, s.pc[p].kids;
    if i < |s.pc| then
      if s.parent[i] == Some(p) then Go(s, p, ScanAt(i)).(plock := s.plock[i := Some(p)]) else Go(s, p, Scan(i + 1, kids))
    else if !kids || s.killed[p] then Go(s, p, Running).(wl := None)
    else Go(s, p, Falling)
  }

  function ScanAtStep(s: State, p: nat): (s': State)
    requires SizesOk(s) && p < |s.pc| && s.pc[p].ScanAt? && CanAct(s, p)
    ensures SizesOk(s')
  {
    var i := s.pc[p].i;
    if s.run[i] == Zombie then Reap(s, p, i) else Go(s, p, Scan(i + 1, true)).(plock := s.plock[i := None])
  }

  function FallingStep(s: State, p: nat): (s': State)
    requires SizesOk(s) && p < |s.pc| && s.pc[p].Falling? && CanAct(s, p)
    ensures SizesOk(s')
  {
    Go(s, p, Dropping).(plock := s.plock[p := Some(p)])
  }

  function DroppingStep(s: State, p: nat): (s': State)
    requires SizesOk(s) && p < |s.pc| && s.pc[p].Dropping? && CanAct(s, p)
    ensures SizesOk(s')
  {
    Go(s, p, Setting).(wl := None)
  }

  function SettingStep(s: State, p: nat): (s': State)
    requires SizesOk(s) && p < |s.pc| && s.pc[p].Setting? && CanAct(s, p)
    ensures SizesOk(s')
  {
    Go(s, p, Switched).(chan := s.chan[p := Some(p)], run := s.run[p := Sleeping])
  }

  function WokenStep(s: State, p: nat): (s': State)
    requires SizesOk(s) && p < |s.pc| && s.pc[p].Woken? && CanAct(s, p)
    ensures SizesOk(s')
  {
    Go(s, p, WaitWant).(chan := s.chan[p := None], plock := s.plock[p := None])
  }

  /** The next step of process p. */
  function Act(s: State, p: nat): (s': State)
    requires SizesOk(s) && p < |s.pc| && CanAct(s, p)
    ensures SizesOk(s')
  {
    match s.pc[p]
    case Forkret => ForkretStep(s, p)
    case Linking(_) => LinkingStep(s, p)
    case Readying(_) => ReadyingStep(s, p)
    case ExitWant => ExitWantStep(s, p)
    case Reparent(_) => ReparentStep(s, p)
    case InitWake(_, _) => InitWakeStep(s, p)
    case InitWakeAt(_, _) => InitWakeAtStep(s, p)
    case ParentWake(_) => ParentWakeStep(s, p)
    case ParentWakeAt(_) => ParentWakeAtStep(s, p)
    case ExitLock => ExitLockStep(s, p)
    case Zombify => ZombifyStep(s, p)
    case ExitDrop => ExitDropStep(s, p)
    case WaitWant => WaitWantStep(s, p)
    case Scan(_, _) => ScanStep(s, p)
    case ScanAt(_) => ScanAtStep(s, p)
    case Falling => FallingStep(s, p)
    case Dropping => DroppingStep(s, p)
    case Setting => SettingStep(s, p)
    case Woken => WokenStep(s, p)
    case Absent | Embryo | Fresh | Running | ZSwitched | Dead | Switched | Asleep => s
  }

  /** The rest: what a running process turns to, the scheduler, kill, and wait's copyout failing. */
  datatype Other = Exits(p: nat) | Waits(p: nat) | Forks(p: nat, np: nat) | Release(p: nat) | Pick(p: nat) | Kill(p: nat) | CopyFails(p: nat)

  /** init does not exit: that is a panic. */
  predicate CanOther(s: State, o: Other)
    requires SizesOk(s)
  {
    && o.p < |s.pc|
    && match o
       case Exits(p) => s.pc[p] == Running && p != 0
       case Waits(p) => s.pc[p] == Running
       case Forks(p, np) => s.pc[p] == Running && np < |s.pc| && np != p && s.run[np] == Unused && s.plock[np] == None
       case Release(p) => s.pc[p] == ZSwitched || s.pc[p] == Switched
       case Pick(p) => (s.pc[p] == Asleep || s.pc[p] == Fresh) && s.run[p] == Runnable && s.plock[p] == None
       case Kill(p) => s.plock[p] == None
       case CopyFails(p) => s.pc[p].ScanAt? && s.pc[p].i < |s.pc| && s.run[s.pc[p].i] == Zombie
  }

  function Else(s: State, o: Other): (s': State)
    requires SizesOk(s) && CanOther(s, o)
    ensures SizesOk(s')
  {
    match o
    case Exits(p) => Go(s, p, ExitWant)
    case Waits(p) => Go(s, p, WaitWant)
    case Forks(p, np) =>
      s.(pc := s.pc[np := Embryo][p := Linking(np)], run := s.run[np := Used], maker := s.maker[np := Some(p)])
    case Release(p) => Go(s, p, if s.pc[p] == ZSwitched then Dead else Asleep).(plock := s.plock[p := None])
    case Pick(p) =>
      Go(s, p, if s.pc[p] == Asleep then Woken else Forkret).(run := s.run[p := OnCpu], plock := s.plock[p := Some(p)])
    case Kill(p) => s.(killed := s.killed[p := true], run := if s.run[p] == Sleeping then s.run[p := Runnable] else s.run)
    case CopyFails(p) => Go(s, p, Running).(plock := s.plock[s.pc[p].i := None], wl := None)
  }

  // ---------------------------------------------------------------- the invariant

  predicate HoldsWl(c: Pc) {
    || c.Reparent? || c.InitWake? || c.InitWakeAt? || c.ParentWake? || c.ParentWakeAt? || c.ExitLock? || c.Zombify? || c.ExitDrop?
    || c.Scan? || c.ScanAt? || c.Falling? || c.Dropping?
  }

  predicate HoldsOwn(c: Pc) {
    c.Zombify? || c.ExitDrop? || c.ZSwitched? || c.Dropping? || c.Setting? || c.Switched? || c.Woken? || c.Forkret?
  }

  /** The process whose lock a process in a loop holds. */
  function Holding(c: Pc): (i: Option<nat>) {
    match c
    case InitWakeAt(_, j) => Some(j)
    case ParentWakeAt(j) => Some(j)
    case ScanAt(i) => Some(i)
    case _ => None
  }

  /** The slot a process in fork has taken. */
  function Making(c: Pc): (np: Option<nat>) {
    match c
    case Linking(np) => Some(np)
    case Readying(np) => Some(np)
    case _ => None
  }

  predicate IsZombie(c: Pc) { c.ExitDrop? || c.ZSwitched? || c.Dead? }

  predicate RunOk(c: Pc, r: RunState) {
    && (r == Unused <==> c.Absent?) && (r == Used <==> c.Embryo?) && (r == Zombie <==> IsZombie(c))
    && (r == Sleeping ==> c.Switched? || c.Asleep?) && (r == Runnable ==> c.Fresh? || c.Asleep?)
    && (c.Switched? ==> r == Sleeping) && (r == OnCpu ==> !c.Fresh? && !c.Asleep?)
  }

  predicate ProcOk(s: State, p: nat)
    requires SizesOk(s) && p < |s.pc|
  {
    var c := s.pc[p];
    && (HoldsWl(c) <==> s.wl == Some(p)) && (HoldsOwn(c) ==> s.plock[p] == Some(p))
    && (Holding(c).Some? ==> var i := Holding(c).value; i < |s.pc| && i != p && s.plock[i] == Some(p))
    && RunOk(c, s.run[p])
    && s.chan[p] == (if c.Switched? || c.Asleep? || c.Woken? then Some(p) else None)
    && s.exits[p] == s.frees[p] + (if IsZombie(c) then 1 else 0)
    && (Making(c).Some? ==> var np := Making(c).value; np < |s.pc| && np != p && s.pc[np].Embryo? && s.maker[np] == Some(p))
    && (c.Embryo? ==> s.maker[p].Some? && s.maker[p].value < |s.pc| && Making(s.pc[s.maker[p].value]) == Some(p))
    && (c.Absent? ==> s.parent[p] == None)
  }

  predicate PlockOk(s: State, q: nat)
    requires SizesOk(s) && q < |s.pc|
  {
    s.plock[q].Some? ==> var t := s.plock[q].value;
                         t < |s.pc| && ((t == q && HoldsOwn(s.pc[q])) || Holding(s.pc[t]) == Some(q))
  }

  predicate Exiting(c: Pc) {
    || c.Reparent? || c.InitWake? || c.InitWakeAt? || c.ParentWake? || c.ParentWakeAt? || c.ExitLock? || c.Zombify? || IsZombie(c)
  }

  /** A process in state c has given slot x away, if it ever was its parent's. */
  predicate Past(c: Pc, x: nat) {
    || c.Absent? || c.Embryo? || c.ParentWake? || c.ParentWakeAt? || c.ExitLock? || c.Zombify? || IsZombie(c)
    || (c.Reparent? && c.i > x) || ((c.InitWake? || c.InitWakeAt?) && c.i >= x)
  }

  /** Process w found no exited child and will be, or is, asleep in wait: only a wakeup can help it. */
  predicate NeedsWakeup(s: State, w: nat)
    requires SizesOk(s) && w < |s.pc|
  {
    s.pc[w].Setting? || s.pc[w].Switched? || (s.pc[w].Asleep? && s.run[w] == Sleeping)
  }

  /** A process that gave init a child is about to wake init. */
  predicate InitPending(s: State, w: nat) {
    && w == 0 && s.wl.Some? && s.wl.value < |s.pc|
    && (s.pc[s.wl.value].InitWake? || s.pc[s.wl.value].InitWakeAt?) && s.pc[s.wl.value].j == 0
  }

  /** Exiting process c has examined w in its wakeup of its parent. */
  predicate Passed(c: Pc, w: nat) {
    c.ExitLock? || c.Zombify? || ((c.ParentWake? || c.ParentWakeAt?) && c.j > w)
  }

  /** wait has seen that slot x holds no exited child of the process in state c. */
  predicate Seen(c: Pc, x: nat) {
    c.Falling? || c.Dropping? || ((c.Scan? || c.ScanAt?) && x < c.i)
  }

  /** Process w as the parent of slot x. */
  predicate PairOk(s: State, w: nat, x: nat)
    requires SizesOk(s) && w < |s.pc| && x < |s.pc|
  {
    s.parent[x] == Some(w) ==>
      && w != x && !Past(s.pc[w], x) && !s.pc[x].Absent?
      && (NeedsWakeup(s, w) && s.run[x] == Zombie ==> InitPending(s, w))
      && (NeedsWakeup(s, w) ==> !Passed(s.pc[x], w))
      && (Seen(s.pc[w], x) ==> s.run[x] != Zombie)
      && !(s.pc[w].Scan? && !s.pc[w].kids && x < s.pc[w].i)
  }

  /** What init never is. */
  predicate Stays(c: Pc) { !Exiting(c) && !c.ExitWant? && !c.Absent? && !c.Embryo? }

  predicate GlobalOk(s: State)
    requires SizesOk(s)
  {
    && (s.wl.Some? ==> s.wl.value < |s.pc|) && Stays(s.pc[0]) && s.parent[0] == None
    && (forall x | 0 <= x < |s.pc| :: s.parent[x].Some? ==> s.parent[x].value < |s.pc|)
  }

  predicate ProcsOk(s: State)
    requires SizesOk(s)
  {
    forall p: nat {:trigger ProcOk(s, p)} | p < |s.pc| :: ProcOk(s, p)
  }

  predicate PlocksOk(s: State)
    requires SizesOk(s)
  {
    forall q: nat {:trigger PlockOk(s, q)} | q < |s.pc| :: PlockOk(s, q)
  }

  predicate PairsOk(s: State)
    requires SizesOk(s)
  {
    forall w: nat, x: nat {:trigger PairOk(s, w, x)} | w < |s.pc| && x < |s.pc| :: PairOk(s, w, x)
  }

  predicate Inv(s: State) {
    SizesOk(s) && GlobalOk(s) && ProcsOk(s) && PlocksOk(s) && PairsOk(s)
  }

  // ---------------------------------------------------------------- every step keeps it

  /** Locks change hands only between p and nobody. */
  predicate Handed(a: Option<nat>, b: Option<nat>, p: nat) {
    a == b || ((a == None || a == Some(p)) && (b == None || b == Some(p)))
  }

  /** Process x is as it was, but may have been woken. */
  predicate Untouched(s: State, s': State, x: nat)
    requires SizesOk(s) && SizesOk(s') && |s'.pc| == |s.pc| && x < |s.pc|
  {
    && s'.pc[x] == s.pc[x] && s'.chan[x] == s.chan[x] && s'.maker[x] == s.maker[x]
    && s'.exits[x] == s.exits[x] && s'.frees[x] == s.frees[x] && (s.pc[x].Absent? ==> s'.parent[x] == s.parent[x])
    && (s'.run[x] == s.run[x] || (s.pc[x].Asleep? && s.run[x] == Sleeping && s'.run[x] == Runnable))
  }

  /** A step of process p, which may also settle the fate of slot y. */
  predicate Shape(s: State, s': State, p: nat, y: nat)
    requires SizesOk(s) && SizesOk(s') && p < |s.pc|
  {
    && |s'.pc| == |s.pc| && y < |s.pc| && Handed(s.wl, s'.wl, p)
    && (forall j | 0 <= j < |s.pc| :: Handed(s.plock[j], s'.plock[j], p))
    && (forall x: nat {:trigger Untouched(s, s', x)} | x < |s.pc| && x != p && x != y :: Untouched(s, s', x))
    && (y != p ==> && Making(s.pc[y]) == None && Holding(s.pc[y]) == None && s.plock[y] != Some(y)
                   && (s.pc[y].Embryo? ==> s.maker[y] == Some(p)))
    && !s.pc[p].Embryo?
    && (Making(s.pc[p]).Some? && Making(s.pc[p]) != Some(y) ==> Making(s'.pc[p]) == Making(s.pc[p]))
  }

  /** Process p holds no lock it should not. */
  predicate Mine(s: State, p: nat)
    requires SizesOk(s) && p < |s.pc|
  {
    forall j | 0 <= j < |s.pc| :: s.plock[j] == Some(p) ==> (j == p && HoldsOwn(s.pc[p])) || Holding(s.pc[p]) == Some(j)
  }

  lemma ShapeOther(s: State, s': State, p: nat, y: nat, x: nat)
    requires Inv(s) && SizesOk(s') && p < |s.pc| && Shape(s, s', p, y) && x < |s.pc| && x != p && x != y
    ensures ProcOk(s', x)
  {
    assert ProcOk(s, x) && Untouched(s, s', x);
    if Making(s.pc[x]).Some? { assert Untouched(s, s', Making(s.pc[x]).value); }
    if s.pc[x].Embryo? {
      var m := s.maker[x].value;
      assert m != p && m != y ==> Untouched(s, s', m);
    }
  }

  lemma ShapePlock(s: State, s': State, p: nat, y: nat, q: nat)
    requires Inv(s) && SizesOk(s') && p < |s.pc| && Shape(s, s', p, y) && q < |s.pc| && Mine(s', p)
    ensures PlockOk(s', q)
  {
    assert PlockOk(s, q);
    if s'.plock[q].Some? && s'.plock[q] != Some(p) {
      var t := s.plock[q].value;
      assert t != y ==> Untouched(s, s', t);
    }
  }

  lemma InvMine(s: State, p: nat)
    requires Inv(s) && p < |s.pc|
    ensures Mine(s, p)
  {
    forall j: nat | j < |s.pc| && s.plock[j] == Some(p) ensures (j == p && HoldsOwn(s.pc[p])) || Holding(s.pc[p]) == Some(j) {
      assert PlockOk(s, j);
    }
  }

  /** What a step of p, which may settle slot y, has to show. */
  predicate Sound(s: State, s': State, p: nat, y: nat)
    requires SizesOk(s) && SizesOk(s') && p < |s.pc|
  {
    Shape(s, s', p, y) && Mine(s', p) && ProcOk(s', p) && (y != p ==> ProcOk(s', y))
  }

  /** Going to c is a mere move: p keeps its wait_lock, its own lock, its run state and its kind. */
  predicate Similar(s: State, p: nat, c: Pc)
    requires SizesOk(s) && p < |s.pc|
  {
    var c0 := s.pc[p];
    && HoldsWl(c) == HoldsWl(c0) && HoldsOwn(c) == HoldsOwn(c0) && Making(c) == Making(c0) == None && RunOk(c, s.run[p])
    && !(c0.Switched? || c0.Asleep? || c0.Woken?) && !(c.Switched? || c.Asleep? || c.Woken?) && IsZombie(c) == IsZombie(c0)
    && !c.Embryo? && !c.Absent? && !c0.Embryo?
  }

  lemma GoSound(s: State, p: nat, c: Pc)
    requires Inv(s) && p < |s.pc| && Similar(s, p, c) && Holding(c) == Holding(s.pc[p]) == None
    ensures Sound(s, Go(s, p, c), p, p)
  {
    assert ProcOk(s, p);
    InvMine(s, p);
  }

  /** Acquiring process j's lock in a loop. */
  lemma LockSound(s: State, p: nat, j: nat, c: Pc)
    requires Inv(s) && p < |s.pc| && Similar(s, p, c) && Holding(s.pc[p]) == None
    requires Holding(c) == Some(j) && j < |s.pc| && j != p && s.plock[j] == None
    ensures Sound(s, Go(s, p, c).(plock := s.plock[j := Some(p)]), p, p)
  {
    assert ProcOk(s, p);
    InvMine(s, p);
  }

  /** Releasing it again. */
  lemma UnlockSound(s: State, p: nat, j: nat, c: Pc)
    requires Inv(s) && p < |s.pc| && Similar(s, p, c) && Holding(s.pc[p]) == Some(j) && j < |s.pc| && Holding(c) == None
    ensures Sound(s, Go(s, p, c).(plock := s.plock[j := None]), p, p)
  {
    assert ProcOk(s, p);
    InvMine(s, p);
  }

  lemma ForkretSound(s: State, p: nat)
    requires Inv(s) && p < |s.pc| && s.pc[p].Forkret? && CanAct(s, p)
    ensures Sound(s, ForkretStep(s, p), p, p)
  {
    assert ProcOk(s, p);
    InvMine(s, p);
  }

  lemma LinkingSound(s: State, p: nat)
    requires Inv(s) && p < |s.pc| && s.pc[p].Linking? && CanAct(s, p)
    ensures Sound(s, LinkingStep(s, p), p, p)
  {
    assert ProcOk(s, p) && ProcOk(s, s.pc[p].np);
    InvMine(s, p);
  }

  lemma ReadyingShape(s: State, p: nat, np: nat)
    requires Inv(s) && p < |s.pc| && s.pc[p] == Readying(np) && CanAct(s, p)
    ensures Shape(s, ReadyingStep(s, p), p, np)
  {
    assert ProcOk(s, p) && ProcOk(s, np);
  }

  lemma ReadyingSelf(s: State, p: nat, np: nat)
    requires Inv(s) && p < |s.pc| && s.pc[p] == Readying(np) && CanAct(s, p)
    ensures Mine(ReadyingStep(s, p), p) && ProcOk(ReadyingStep(s, p), p)
  {
    assert ProcOk(s, p);
    InvMine(s, p);
  }

  lemma ReadyingSlot(s: State, p: nat, np: nat)
    requires Inv(s) && p < |s.pc| && s.pc[p] == Readying(np) && CanAct(s, p)
    ensures ProcOk(ReadyingStep(s, p), np)
  {
    assert ProcOk(s, p) && ProcOk(s, np);
  }

  lemma ReadyingSound(s: State, p: nat)
    requires Inv(s) && p < |s.pc| && s.pc[p].Readying? && CanAct(s, p)
    ensures Sound(s, ReadyingStep(s, p), p, s.pc[p].np)
  {
    ReadyingShape(s, p, s.pc[p].np);
    ReadyingSelf(s, p, s.pc[p].np);
    ReadyingSlot(s, p, s.pc[p].np);
  }

  lemma ExitWantSound(s: State, p: nat)
    requires Inv(s) && p < |s.pc| && s.pc[p].ExitWant? && CanAct(s, p)
    ensures Sound(s, ExitWantStep(s, p), p, p)
  {
    assert ProcOk(s, p);
    InvMine(s, p);
  }

  lemma GivenToInitSound(s: State, p: nat, i: nat)
    requires Inv(s) && p < |s.pc| && s.pc[p] == Reparent(i) && i < |s.pc| && s.parent[i] == Some(p)
    ensures Sound(s, Go(s, p, InitWake(i, 0)).(parent := s.parent[i := Some(0)]), p, p)
  {
    assert ProcOk(s, p) && PairOk(s, p, i);
    InvMine(s, p);
  }

  lemma ReparentSound(s: State, p: nat)
    requires Inv(s) && p < |s.pc| && s.pc[p].Reparent? && CanAct(s, p)
    ensures Sound(s, ReparentStep(s, p), p, p)
  {
    assert ProcOk(s, p);
    var i := s.pc[p].i;
    if i >= |s.pc| {
      GoSound(s, p, ParentWake(0));
    } else if s.parent[i] == Some(p) {
      GivenToInitSound(s, p, i);
    } else {
      GoSound(s, p, Reparent(i + 1));
    }
  }

  lemma InitWakeSound(s: State, p: nat)
    requires Inv(s) && p < |s.pc| && s.pc[p].InitWake? && CanAct(s, p)
    ensures Sound(s, InitWakeStep(s, p), p, p)
  {
    assert ProcOk(s, p);
    var i, j := s.pc[p].i, s.pc[p].j;
    if j >= |s.pc| {
      GoSound(s, p, Reparent(i + 1));
    } else if j == p {
      GoSound(s, p, InitWake(i, j + 1));
    } else {
      LockSound(s, p, j, InitWakeAt(i, j));
    }
  }

  /** Waking the locked process j, or not, and releasing it. */
  lemma ExamineSelf(s: State, s': State, p: nat, j: nat, ch: Option<nat>, c: Pc)
    requires SizesOk(s) && p < |s.pc| && ProcOk(s, p) && Mine(s, p) && Similar(s, p, c)
    requires Holding(s.pc[p]) == Some(j) && j < |s.pc| && Holding(c) == None && s' == Go(Examine(s, j, ch), p, c)
    ensures Mine(s', p) && ProcOk(s', p)
  {
  }

  lemma ExamineShape(s: State, s': State, p: nat, j: nat, ch: Option<nat>, c: Pc)
    requires SizesOk(s) && p < |s.pc| && ProcOk(s, p) && Similar(s, p, c)
    requires Holding(s.pc[p]) == Some(j) && j < |s.pc| && ProcOk(s, j) && s' == Go(Examine(s, j, ch), p, c)
    ensures Shape(s, s', p, p)
  {
  }

  lemma ExamineSound(s: State, s': State, p: nat, j: nat, ch: Option<nat>, c: Pc)
    requires Inv(s) && p < |s.pc| && Similar(s, p, c)
    requires Holding(s.pc[p]) == Some(j) && j < |s.pc| && Holding(c) == None && s' == Go(Examine(s, j, ch), p, c)
    ensures Sound(s, s', p, p)
  {
    assert ProcOk(s, p) && ProcOk(s, j);
    InvMine(s, p);
    ExamineSelf(s, s', p, j, ch, c);
    ExamineShape(s, s', p, j, ch, c);
  }

  lemma InitWakeAtSound(s: State, p: nat)
    requires Inv(s) && p < |s.pc| && s.pc[p].InitWakeAt? && CanAct(s, p)
    ensures Sound(s, InitWakeAtStep(s, p), p, p)
  {
    assert ProcOk(s, p);
    ExamineSound(s, InitWakeAtStep(s, p), p, s.pc[p].j, Some(0), InitWake(s.pc[p].i, s.pc[p].j + 1));
  }

  lemma ParentWakeSound(s: State, p: nat)
    requires Inv(s) && p < |s.pc| && s.pc[p].ParentWake? && CanAct(s, p)
    ensures Sound(s, ParentWakeStep(s, p), p, p)
  {
    assert ProcOk(s, p);
    var j := s.pc[p].j;
    if j >= |s.pc| {
      GoSound(s, p, ExitLock);
    } else if j == p {
      GoSound(s, p, ParentWake(j + 1));
    } else {
      LockSound(s, p, j, ParentWakeAt(j));
    }
  }

  lemma ParentWakeAtSound(s: State, p: nat)
    requires Inv(s) && p < |s.pc| && s.pc[p].ParentWakeAt? && CanAct(s, p)
    ensures Sound(s, ParentWakeAtStep(s, p), p, p)
  {
    assert ProcOk(s, p);
    ExamineSound(s, ParentWakeAtStep(s, p), p, s.pc[p].j, s.parent[p], ParentWake(s.pc[p].j + 1));
  }

  lemma ExitLockSound(s: State, p: nat)
    requires Inv(s) && p < |s.pc| && s.pc[p].ExitLock? && CanAct(s, p)
    ensures Sound(s, ExitLockStep(s, p), p, p)
  {
    assert ProcOk(s, p);
    InvMine(s, p);
  }

  lemma ZombifySound(s: State, p: nat)
    requires Inv(s) && p < |s.pc| && s.pc[p].Zombify? && CanAct(s, p)
    ensures Sound(s, ZombifyStep(s, p), p, p)
  {
    assert ProcOk(s, p);
    InvMine(s, p);
  }

  lemma ExitDropSound(s: State, p: nat)
    requires Inv(s) && p < |s.pc| && s.pc[p].ExitDrop? && CanAct(s, p)
    ensures Sound(s, ExitDropStep(s, p), p, p)
  {
    assert ProcOk(s, p);
    InvMine(s, p);
  }

  lemma WaitWantSound(s: State, p: nat)
    requires Inv(s) && p < |s.pc| && s.pc[p].WaitWant? && CanAct(s, p)
    ensures Sound(s, WaitWantStep(s, p), p, p)
  {
    assert ProcOk(s, p);
    InvMine(s, p);
  }

  lemma ScanEndSelf(s: State, p: nat)
    requires SizesOk(s) && p < |s.pc| && s.pc[p].Scan? && s.pc[p].i >= |s.pc| && ProcOk(s, p) && Mine(s, p)
    ensures Mine(ScanStep(s, p), p) && ProcOk(ScanStep(s, p), p)
  {
  }

  lemma ScanEndSound(s: State, p: nat)
    requires Inv(s) && p < |s.pc| && s.pc[p].Scan? && s.pc[p].i >= |s.pc|
    ensures Sound(s, ScanStep(s, p), p, p)
  {
    assert ProcOk(s, p);
    InvMine(s, p);
    ScanEndSelf(s, p);
  }

  lemma ReapShape(s: State, p: nat, i: nat)
    requires Inv(s) && p < |s.pc| && s.pc[p] == ScanAt(i) && i < |s.pc| && s.run[i] == Zombie
    ensures Shape(s, Reap(s, p, i), p, i)
  {
    assert ProcOk(s, p) && ProcOk(s, i);
  }

  lemma ReapSelf(s: State, p: nat, i: nat)
    requires Inv(s) && p < |s.pc| && s.pc[p] == ScanAt(i) && i < |s.pc| && s.run[i] == Zombie
    ensures Mine(Reap(s, p, i), p) && ProcOk(Reap(s, p, i), p)
  {
    assert ProcOk(s, p);
    InvMine(s, p);
  }

  lemma ReapSlot(s: State, p: nat, i: nat)
    requires Inv(s) && p < |s.pc| && s.pc[p] == ScanAt(i) && i < |s.pc| && s.run[i] == Zombie
    ensures ProcOk(Reap(s, p, i), i)
  {
    assert ProcOk(s, p) && ProcOk(s, i);
  }

  lemma ReapSound(s: State, p: nat, i: nat)
    requires Inv(s) && p < |s.pc| && s.pc[p] == ScanAt(i) && i < |s.pc| && s.run[i] == Zombie
    ensures Sound(s, Reap(s, p, i), p, i)
  {
    ReapShape(s, p, i);
    ReapSelf(s, p, i);
    ReapSlot(s, p, i);
  }

  lemma ScanSound(s: State, p: nat)
    requires Inv(s) && p < |s.pc| && s.pc[p].Scan? && CanAct(s, p)
    ensures Sound(s, ScanStep(s, p), p, p)
  {
    assert ProcOk(s, p);
    var i := s.pc[p].i;
    if i >= |s.pc| {
      ScanEndSound(s, p);
    } else if s.parent[i] == Some(p) {
      assert PairOk(s, p, i);
      LockSound(s, p, i, ScanAt(i));
    } else {
      GoSound(s, p, Scan(i + 1, s.pc[p].kids));
    }
  }

  lemma ScanAtSound(s: State, p: nat)
    requires Inv(s) && p < |s.pc| && s.pc[p].ScanAt? && CanAct(s, p)
    ensures Sound(s, ScanAtStep(s, p), p, if s.run[s.pc[p].i] == Zombie then s.pc[p].i else p)
  {
    assert ProcOk(s, p);
    var i := s.pc[p].i;
    if s.run[i] == Zombie { ReapSound(s, p, i); } else { UnlockSound(s, p, i, Scan(i + 1, true)); }
  }

  lemma FallingSound(s: State, p: nat)
    requires Inv(s) && p < |s.pc| && s.pc[p].Falling? && CanAct(s, p)
    ensures Sound(s, FallingStep(s, p), p, p)
  {
    assert ProcOk(s, p);
    InvMine(s, p);
  }

  lemma DroppingSound(s: State, p: nat)
    requires Inv(s) && p < |s.pc| && s.pc[p].Dropping? && CanAct(s, p)
    ensures Sound(s, DroppingStep(s, p), p, p)
  {
    assert ProcOk(s, p);
    InvMine(s, p);
  }

  lemma SettingSound(s: State, p: nat)
    requires Inv(s) && p < |s.pc| && s.pc[p].Setting? && CanAct(s, p)
    ensures Sound(s, SettingStep(s, p), p, p)
  {
    assert ProcOk(s, p);
    InvMine(s, p);
  }

  lemma WokenSound(s: State, p: nat)
    requires Inv(s) && p < |s.pc| && s.pc[p].Woken? && CanAct(s, p)
    ensures Sound(s, WokenStep(s, p), p, p)
  {
    assert ProcOk(s, p);
    InvMine(s, p);
  }

  lemma ForkretPair(s: State, p: nat, w: nat, x: nat)
    requires Inv(s) && p < |s.pc| && w < |s.pc| && x < |s.pc| && s.pc[p].Forkret? && CanAct(s, p)
    ensures PairOk(ForkretStep(s, p), w, x)
  {
    assert PairOk(s, w, x) && ProcOk(s, p);
  }

  lemma LinkingPair(s: State, p: nat, w: nat, x: nat)
    requires Inv(s) && p < |s.pc| && w < |s.pc| && x < |s.pc| && s.pc[p].Linking? && CanAct(s, p)
    ensures PairOk(LinkingStep(s, p), w, x)
  {
    assert PairOk(s, w, x) && ProcOk(s, p);
  }

  lemma ReadyingPair(s: State, p: nat, w: nat, x: nat)
    requires Inv(s) && p < |s.pc| && w < |s.pc| && x < |s.pc| && s.pc[p].Readying? && CanAct(s, p)
    ensures PairOk(ReadyingStep(s, p), w, x)
  {
    assert PairOk(s, w, x) && ProcOk(s, p);
  }

  lemma ExitWantPair(s: State, p: nat, w: nat, x: nat)
    requires Inv(s) && p < |s.pc| && w < |s.pc| && x < |s.pc| && s.pc[p].ExitWant? && CanAct(s, p)
    ensures PairOk(ExitWantStep(s, p), w, x)
  {
    assert PairOk(s, w, x) && ProcOk(s, p);
  }

  lemma GivenToInitPair(s: State, p: nat, w: nat, x: nat)
    requires Inv(s) && p < |s.pc| && w < |s.pc| && x < |s.pc| && s.pc[p].Reparent? && CanAct(s, p)
    requires s.pc[p].i < |s.pc| && s.parent[s.pc[p].i] == Some(p)
    ensures PairOk(ReparentStep(s, p), w, x)
  {
    assert PairOk(s, w, x) && ProcOk(s, p) && ProcOk(s, w) && ProcOk(s, x);
  }

  lemma ReparentPair(s: State, p: nat, w: nat, x: nat)
    requires Inv(s) && p < |s.pc| && w < |s.pc| && x < |s.pc| && s.pc[p].Reparent? && CanAct(s, p)
    ensures PairOk(ReparentStep(s, p), w, x)
  {
    if s.pc[p].i < |s.pc| && s.parent[s.pc[p].i] == Some(p) {
      GivenToInitPair(s, p, w, x);
    } else {
      assert PairOk(s, w, x) && ProcOk(s, p);
    }
  }

  lemma InitWakePair(s: State, p: nat, w: nat, x: nat)
    requires Inv(s) && p < |s.pc| && w < |s.pc| && x < |s.pc| && s.pc[p].InitWake? && CanAct(s, p)
    ensures PairOk(InitWakeStep(s, p), w, x)
  {
    assert PairOk(s, w, x) && ProcOk(s, p);
  }

  lemma InitWakeAtPair(s: State, p: nat, w: nat, x: nat)
    requires Inv(s) && p < |s.pc| && w < |s.pc| && x < |s.pc| && s.pc[p].InitWakeAt? && CanAct(s, p)
    ensures PairOk(InitWakeAtStep(s, p), w, x)
  {
    assert PairOk(s, w, x) && ProcOk(s, p) && ProcOk(s, w);
  }

  lemma ParentWakePair(s: State, p: nat, w: nat, x: nat)
    requires Inv(s) && p < |s.pc| && w < |s.pc| && x < |s.pc| && s.pc[p].ParentWake? && CanAct(s, p)
    ensures PairOk(ParentWakeStep(s, p), w, x)
  {
    assert PairOk(s, w, x) && ProcOk(s, p);
  }

  lemma ParentWakeAtPair(s: State, p: nat, w: nat, x: nat)
    requires Inv(s) && p < |s.pc| && w < |s.pc| && x < |s.pc| && s.pc[p].ParentWakeAt? && CanAct(s, p)
    ensures PairOk(ParentWakeAtStep(s, p), w, x)
  {
    assert PairOk(s, w, x) && ProcOk(s, p) && ProcOk(s, w) && ProcOk(s, x) && PlockOk(s, w);
  }

  lemma ExitLockPair(s: State, p: nat, w: nat, x: nat)
    requires Inv(s) && p < |s.pc| && w < |s.pc| && x < |s.pc| && s.pc[p].ExitLock? && CanAct(s, p)
    ensures PairOk(ExitLockStep(s, p), w, x)
  {
    assert PairOk(s, w, x) && ProcOk(s, p);
  }

  lemma ZombifyPair(s: State, p: nat, w: nat, x: nat)
    requires Inv(s) && p < |s.pc| && w < |s.pc| && x < |s.pc| && s.pc[p].Zombify? && CanAct(s, p)
    ensures PairOk(ZombifyStep(s, p), w, x)
  {
    assert PairOk(s, w, x) && ProcOk(s, p) && ProcOk(s, w) && ProcOk(s, x) && PlockOk(s, w);
  }

  lemma ExitDropPair(s: State, p: nat, w: nat, x: nat)
    requires Inv(s) && p < |s.pc| && w < |s.pc| && x < |s.pc| && s.pc[p].ExitDrop? && CanAct(s, p)
    ensures PairOk(ExitDropStep(s, p), w, x)
  {
    assert PairOk(s, w, x) && ProcOk(s, p);
  }

  lemma WaitWantPair(s: State, p: nat, w: nat, x: nat)
    requires Inv(s) && p < |s.pc| && w < |s.pc| && x < |s.pc| && s.pc[p].WaitWant? && CanAct(s, p)
    ensures PairOk(WaitWantStep(s, p), w, x)
  {
    assert PairOk(s, w, x) && ProcOk(s, p);
  }

  lemma ScanMidPair(s: State, p: nat, w: nat, x: nat)
    requires Inv(s) && p < |s.pc| && w < |s.pc| && x < |s.pc| && s.pc[p].Scan? && CanAct(s, p) && s.pc[p].i < |s.pc|
    ensures PairOk(ScanStep(s, p), w, x)
  {
    assert PairOk(s, w, x) && ProcOk(s, p);
  }

  lemma ScanEndPair(s: State, p: nat, w: nat, x: nat)
    requires Inv(s) && p < |s.pc| && w < |s.pc| && x < |s.pc| && s.pc[p].Scan? && CanAct(s, p) && s.pc[p].i >= |s.pc|
    ensures PairOk(ScanStep(s, p), w, x)
  {
    assert PairOk(s, w, x) && ProcOk(s, p);
  }

  lemma ScanPair(s: State, p: nat, w: nat, x: nat)
    requires Inv(s) && p < |s.pc| && w < |s.pc| && x < |s.pc| && s.pc[p].Scan? && CanAct(s, p)
    ensures PairOk(ScanStep(s, p), w, x)
  {
    if s.pc[p].i < |s.pc| { ScanMidPair(s, p, w, x); } else { ScanEndPair(s, p, w, x); }
  }

  lemma ReapPair(s: State, p: nat, w: nat, x: nat, i: nat)
    requires Inv(s) && p < |s.pc| && w < |s.pc| && x < |s.pc| && s.pc[p] == ScanAt(i) && i < |s.pc|
             && s.run[i] == Zombie
    ensures PairOk(Reap(s, p, i), w, x)
  {
    assert PairOk(s, w, x) && ProcOk(s, p) && ProcOk(s, i);
  }

  lemma ScanOnPair(s: State, p: nat, w: nat, x: nat, i: nat)
    requires Inv(s) && p < |s.pc| && w < |s.pc| && x < |s.pc| && s.pc[p] == ScanAt(i) && i < |s.pc|
             && s.run[i] != Zombie
    ensures PairOk(ScanAtStep(s, p), w, x)
  {
    assert PairOk(s, w, x) && ProcOk(s, p);
  }

  lemma ScanAtPair(s: State, p: nat, w: nat, x: nat)
    requires Inv(s) && p < |s.pc| && w < |s.pc| && x < |s.pc| && s.pc[p].ScanAt? && CanAct(s, p)
    ensures PairOk(ScanAtStep(s, p), w, x)
  {
    if s.run[s.pc[p].i] == Zombie { ReapPair(s, p, w, x, s.pc[p].i); } else { ScanOnPair(s, p, w, x, s.pc[p].i); }
  }

  lemma FallingPair(s: State, p: nat, w: nat, x: nat)
    requires Inv(s) && p < |s.pc| && w < |s.pc| && x < |s.pc| && s.pc[p].Falling? && CanAct(s, p)
    ensures PairOk(FallingStep(s, p), w, x)
  {
    assert PairOk(s, w, x) && ProcOk(s, p);
  }

  lemma DroppingPair(s: State, p: nat, w: nat, x: nat)
    requires Inv(s) && p < |s.pc| && w < |s.pc| && x < |s.pc| && s.pc[p].Dropping? && CanAct(s, p)
    ensures PairOk(DroppingStep(s, p), w, x)
  {
    assert PairOk(s, w, x) && ProcOk(s, p);
    if w == p && s.parent[x] == Some(p) { assert ProcOk(s, x); }
  }

  lemma SettingPair(s: State, p: nat, w: nat, x: nat)
    requires Inv(s) && p < |s.pc| && w < |s.pc| && x < |s.pc| && s.pc[p].Setting? && CanAct(s, p)
    ensures PairOk(SettingStep(s, p), w, x)
  {
    assert PairOk(s, w, x) && ProcOk(s, p);
  }

  lemma WokenPair(s: State, p: nat, w: nat, x: nat)
    requires Inv(s) && p < |s.pc| && w < |s.pc| && x < |s.pc| && s.pc[p].Woken? && CanAct(s, p)
    ensures PairOk(WokenStep(s, p), w, x)
  {
    assert PairOk(s, w, x) && ProcOk(s, p);
  }

  lemma ExitsSound(s: State, o: Other)
    requires Inv(s) && CanOther(s, o) && o.Exits?
    ensures Sound(s, Else(s, o), o.p, o.p)
  {
    assert ProcOk(s, o.p);
    InvMine(s, o.p);
  }

  lemma ExitsPair(s: State, o: Other, w: nat, x: nat)
    requires Inv(s) && CanOther(s, o) && w < |s.pc| && x < |s.pc| && o.Exits?
    ensures PairOk(Else(s, o), w, x)
  {
    assert PairOk(s, w, x) && ProcOk(s, o.p);
  }

  lemma WaitsSound(s: State, o: Other)
    requires Inv(s) && CanOther(s, o) && o.Waits?
    ensures Sound(s, Else(s, o), o.p, o.p)
  {
    assert ProcOk(s, o.p);
    InvMine(s, o.p);
  }

  lemma WaitsPair(s: State, o: Other, w: nat, x: nat)
    requires Inv(s) && CanOther(s, o) && w < |s.pc| && x < |s.pc| && o.Waits?
    ensures PairOk(Else(s, o), w, x)
  {
    assert PairOk(s, w, x) && ProcOk(s, o.p);
  }

  lemma ForksShape(s: State, o: Other)
    requires Inv(s) && CanOther(s, o) && o.Forks?
    ensures Shape(s, Else(s, o), o.p, o.np)
  {
    assert ProcOk(s, o.p) && ProcOk(s, o.np);
  }

  lemma ForksSlot(s: State, o: Other)
    requires Inv(s) && CanOther(s, o) && o.Forks?
    ensures ProcOk(Else(s, o), o.np)
  {
    assert ProcOk(s, o.p) && ProcOk(s, o.np);
  }

  lemma ForksSound(s: State, o: Other)
    requires Inv(s) && CanOther(s, o) && o.Forks?
    ensures Sound(s, Else(s, o), o.p, o.np)
  {
    ForksShape(s, o);
    ForksSlot(s, o);
    assert ProcOk(s, o.p);
    InvMine(s, o.p);
  }

  lemma ForksPair(s: State, o: Other, w: nat, x: nat)
    requires Inv(s) && CanOther(s, o) && w < |s.pc| && x < |s.pc| && o.Forks?
    ensures PairOk(Else(s, o), w, x)
  {
    assert PairOk(s, w, x) && ProcOk(s, o.p) && ProcOk(s, o.np);
  }

  lemma ReleaseSelf(s: State, o: Other)
    requires SizesOk(s) && CanOther(s, o) && o.Release? && ProcOk(s, o.p) && Mine(s, o.p)
    ensures Mine(Else(s, o), o.p) && ProcOk(Else(s, o), o.p)
  {
  }

  lemma ReleaseSound(s: State, o: Other)
    requires Inv(s) && CanOther(s, o) && o.Release?
    ensures Sound(s, Else(s, o), o.p, o.p)
  {
    assert ProcOk(s, o.p);
    InvMine(s, o.p);
    ReleaseSelf(s, o);
  }

  lemma ReleasePair(s: State, o: Other, w: nat, x: nat)
    requires Inv(s) && CanOther(s, o) && w < |s.pc| && x < |s.pc| && o.Release?
    ensures PairOk(Else(s, o), w, x)
  {
    assert PairOk(s, w, x) && ProcOk(s, o.p);
  }

  lemma PickSelf(s: State, o: Other)
    requires SizesOk(s) && CanOther(s, o) && o.Pick? && ProcOk(s, o.p) && Mine(s, o.p)
    ensures Mine(Else(s, o), o.p) && ProcOk(Else(s, o), o.p)
  {
  }

  lemma PickSound(s: State, o: Other)
    requires Inv(s) && CanOther(s, o) && o.Pick?
    ensures Sound(s, Else(s, o), o.p, o.p)
  {
    assert ProcOk(s, o.p);
    InvMine(s, o.p);
    PickSelf(s, o);
  }

  lemma PickPair(s: State, o: Other, w: nat, x: nat)
    requires Inv(s) && CanOther(s, o) && w < |s.pc| && x < |s.pc| && o.Pick?
    ensures PairOk(Else(s, o), w, x)
  {
    assert PairOk(s, w, x) && ProcOk(s, o.p);
  }

  lemma KillSound(s: State, o: Other)
    requires Inv(s) && CanOther(s, o) && o.Kill?
    ensures Sound(s, Else(s, o), 0, 0)
  {
    assert ProcOk(s, o.p) && PlockOk(s, o.p) && ProcOk(s, 0);
    InvMine(s, 0);
  }

  lemma KillPair(s: State, o: Other, w: nat, x: nat)
    requires Inv(s) && CanOther(s, o) && w < |s.pc| && x < |s.pc| && o.Kill?
    ensures PairOk(Else(s, o), w, x)
  {
    assert PairOk(s, w, x) && ProcOk(s, o.p) && PlockOk(s, o.p) && ProcOk(s, 0);
  }

  lemma CopyFailsShape(s: State, o: Other)
    requires Inv(s) && CanOther(s, o) && o.CopyFails?
    ensures Shape(s, Else(s, o), o.p, o.p)
  {
    assert ProcOk(s, o.p);
  }

  lemma CopyFailsSound(s: State, o: Other)
    requires Inv(s) && CanOther(s, o) && o.CopyFails?
    ensures Sound(s, Else(s, o), o.p, o.p)
  {
    CopyFailsShape(s, o);
    assert ProcOk(s, o.p);
    InvMine(s, o.p);
  }

  lemma CopyFailsPair(s: State, o: Other, w: nat, x: nat)
    requires Inv(s) && CanOther(s, o) && w < |s.pc| && x < |s.pc| && o.CopyFails?
    ensures PairOk(Else(s, o), w, x)
  {
    assert PairOk(s, w, x) && ProcOk(s, o.p) && ProcOk(s, s.pc[o.p].i);
  }

  /** The slot, besides p itself, whose fate a step of p settles. */
  function Settles(s: State, p: nat): (y: nat)
    requires SizesOk(s) && p < |s.pc|
  {
    match s.pc[p]
    case Readying(np) => np
    case ScanAt(i) => if i < |s.pc| && s.run[i] == Zombie then i else p
    case _ => p
  }

  lemma ActSound(s: State, p: nat)
    requires Inv(s) && p < |s.pc| && CanAct(s, p)
    ensures Sound(s, Act(s, p), p, Settles(s, p))
  {
    match s.pc[p]
    case Forkret => ForkretSound(s, p);
    case Linking(_) => LinkingSound(s, p);
    case Readying(_) => ReadyingSound(s, p);
    case ExitWant => ExitWantSound(s, p);
    case Reparent(_) => ReparentSound(s, p);
    case InitWake(_, _) => InitWakeSound(s, p);
    case InitWakeAt(_, _) => InitWakeAtSound(s, p);
    case ParentWake(_) => ParentWakeSound(s, p);
    case ParentWakeAt(_) => ParentWakeAtSound(s, p);
    case ExitLock => ExitLockSound(s, p);
    case Zombify => ZombifySound(s, p);
    case ExitDrop => ExitDropSound(s, p);
    case WaitWant => WaitWantSound(s, p);
    case Scan(_, _) => ScanSound(s, p);
    case ScanAt(_) => ScanAtSound(s, p);
    case Falling => FallingSound(s, p);
    case Dropping => DroppingSound(s, p);
    case Setting => SettingSound(s, p);
    case Woken => WokenSound(s, p);
  }

  lemma ActPair(s: State, p: nat, w: nat, x: nat)
    requires Inv(s) && p < |s.pc| && w < |s.pc| && x < |s.pc| && CanAct(s, p)
    ensures PairOk(Act(s, p), w, x)
  {
    match s.pc[p]
    case Forkret => ForkretPair(s, p, w, x);
    case Linking(_) => LinkingPair(s, p, w, x);
    case Readying(_) => ReadyingPair(s, p, w, x);
    case ExitWant => ExitWantPair(s, p, w, x);
    case Reparent(_) => ReparentPair(s, p, w, x);
    case InitWake(_, _) => InitWakePair(s, p, w, x);
    case InitWakeAt(_, _) => InitWakeAtPair(s, p, w, x);
    case ParentWake(_) => ParentWakePair(s, p, w, x);
    case ParentWakeAt(_) => ParentWakeAtPair(s, p, w, x);
    case ExitLock => ExitLockPair(s, p, w, x);
    case Zombify => ZombifyPair(s, p, w, x);
    case ExitDrop => ExitDropPair(s, p, w, x);
    case WaitWant => WaitWantPair(s, p, w, x);
    case Scan(_, _) => ScanPair(s, p, w, x);
    case ScanAt(_) => ScanAtPair(s, p, w, x);
    case Falling => FallingPair(s, p, w, x);
    case Dropping => DroppingPair(s, p, w, x);
    case Setting => SettingPair(s, p, w, x);
    case Woken => WokenPair(s, p, w, x);
  }

  lemma ActParents(s: State, p: nat)
    requires Inv(s) && p < |s.pc| && CanAct(s, p)
    ensures Act(s, p).parent[0] == None
    ensures forall x | 0 <= x < |s.pc| :: Act(s, p).parent[x].Some? ==> Act(s, p).parent[x].value < |s.pc|
  {
    assert ProcOk(s, p) && ProcOk(s, 0);
  }

  /** init's own steps. */
  lemma InitActs(s: State)
    requires Inv(s) && CanAct(s, 0)
    ensures Stays(Act(s, 0).pc[0])
  {
  }

  lemma ActInit(s: State, p: nat)
    requires Inv(s) && p < |s.pc| && CanAct(s, p)
    ensures Stays(Act(s, p).pc[0])
  {
    if p == 0 {
      InitActs(s);
    } else {
      ActSound(s, p);
      assert ProcOk(s, p) && ProcOk(s, 0);
      assert Untouched(s, Act(s, p), 0);
    }
  }

  /** A sound step that keeps the pairs and init keeps the invariant. */
  lemma SoundInv(s: State, s': State, p: nat, y: nat)
    requires Inv(s) && SizesOk(s') && p < |s.pc| && Sound(s, s', p, y) && PairsOk(s') && Stays(s'.pc[0])
             && s'.parent[0] == None
    requires forall x | 0 <= x < |s.pc| :: s'.parent[x].Some? ==> s'.parent[x].value < |s.pc|
    ensures Inv(s')
  {
    forall x: nat | x < |s'.pc| ensures ProcOk(s', x) { if x != p && x != y { ShapeOther(s, s', p, y, x); } }
    forall q: nat | q < |s'.pc| ensures PlockOk(s', q) { ShapePlock(s, s', p, y, q); }
  }

  lemma ActInv(s: State, p: nat)
    requires Inv(s) && p < |s.pc| && CanAct(s, p)
    ensures Inv(Act(s, p))
  {
    var s' := Act(s, p);
    ActSound(s, p);
    ActParents(s, p);
    ActInit(s, p);
    forall w: nat, x: nat | w < |s'.pc| && x < |s'.pc| ensures PairOk(s', w, x) { ActPair(s, p, w, x); }
    SoundInv(s, s', p, Settles(s, p));
  }

  lemma ElseSound(s: State, o: Other)
    requires Inv(s) && CanOther(s, o)
    ensures Sound(s, Else(s, o), if o.Kill? then 0 else o.p, if o.Forks? then o.np else if o.Kill? then 0 else o.p)
  {
    match o
    case Exits(_) => ExitsSound(s, o);
    case Waits(_) => WaitsSound(s, o);
    case Forks(_, _) => ForksSound(s, o);
    case Release(_) => ReleaseSound(s, o);
    case Pick(_) => PickSound(s, o);
    case Kill(_) => KillSound(s, o);
    case CopyFails(_) => CopyFailsSound(s, o);
  }

  lemma ElsePair(s: State, o: Other, w: nat, x: nat)
    requires Inv(s) && CanOther(s, o) && w < |s.pc| && x < |s.pc|
    ensures PairOk(Else(s, o), w, x)
  {
    match o
    case Exits(_) => ExitsPair(s, o, w, x);
    case Waits(_) => WaitsPair(s, o, w, x);
    case Forks(_, _) => ForksPair(s, o, w, x);
    case Release(_) => ReleasePair(s, o, w, x);
    case Pick(_) => PickPair(s, o, w, x);
    case Kill(_) => KillPair(s, o, w, x);
    case CopyFails(_) => CopyFailsPair(s, o, w, x);
  }

  lemma ElseInv(s: State, o: Other)
    requires Inv(s) && CanOther(s, o)
    ensures Inv(Else(s, o))
  {
    var s' := Else(s, o);
    ElseSound(s, o);
    assert ProcOk(s, 0) && ProcOk(s, o.p);
    forall w: nat, x: nat | w < |s'.pc| && x < |s'.pc| ensures PairOk(s', w, x) { ElsePair(s, o, w, x); }
    SoundInv(s, s', if o.Kill? then 0 else o.p, if o.Forks? then o.np else if o.Kill? then 0 else o.p);
  }

  // ---------------------------------------------------------------- runs

  /** init running alone among n + 1 slots. */
  function Start(n: nat): (s: State) {
    State([Running] + seq(n, _ => Absent), [OnCpu] + seq(n, _ => Unused), seq(n + 1, _ => None), seq(n + 1, _ => None),
          seq(n + 1, _ => false), seq(n + 1, _ => None), None, seq(n + 1, _ => None), seq(n + 1, _ => 0), seq(n + 1, _ => 0))
  }

  lemma StartInv(n: nat)
    ensures Inv(Start(n))
  {
    var s := Start(n);
    forall p: nat | p < |s.pc| ensures ProcOk(s, p) { }
    forall q: nat | q < |s.pc| ensures PlockOk(s, q) { }
    forall w: nat, x: nat | w < |s.pc| && x < |s.pc| ensures PairOk(s, w, x) { }
  }

  datatype Step = Runs(p: nat) | Elsewhere(o: Other)

  predicate StepAt(run: seq<State>, steps: seq<Step>, k: nat)
    requires k + 1 < |run| && k < |steps|
  {
    && SizesOk(run[k])
    && match steps[k]
       case Runs(p) => p < |run[k].pc| && CanAct(run[k], p) && run[k + 1] == Act(run[k], p)
       case Elsewhere(o) => CanOther(run[k], o) && run[k + 1] == Else(run[k], o)
  }

  predicate IsRun(run: seq<State>, steps: seq<Step>, n: nat) {
    && |run| == |steps| + 1 && run[0] == Start(n)
    && forall k: nat {:trigger StepAt(run, steps, k)} | k < |steps| :: StepAt(run, steps, k)
  }

  lemma {:induction false} RunInv(run: seq<State>, steps: seq<Step>, n: nat, k: nat)
    requires IsRun(run, steps, n) && k < |run|
    ensures Inv(run[k])
  {
    if k == 0 {
      StartInv(n);
    } else {
      RunInv(run, steps, n, k - 1);
      assert StepAt(run, steps, k - 1);
      match steps[k - 1]
      case Runs(p) => ActInv(run[k - 1], p);
      case Elsewhere(o) => ElseInv(run[k - 1], o);
    }
  }

  /** A parent never misses a child's exit: whenever it sleeps in wait, or is past the point of no return to it, it
      has no exited child, unless it is init and a process that has just given init the child is about to wake it. */
  lemma ExitNeverMissed(run: seq<State>, steps: seq<Step>, n: nat, k: nat, w: nat, x: nat)
    requires IsRun(run, steps, n) && k < |run| && SizesOk(run[k]) && w < |run[k].pc| && x < |run[k].pc|
    requires NeedsWakeup(run[k], w) && run[k].parent[x] == Some(w) && run[k].run[x] == Zombie
    ensures InitPending(run[k], w)
  {
    RunInv(run, steps, n, k);
    assert PairOk(run[k], w, x);
  }

  /** freeproc frees a zombie only once its lock has been released by the scheduler, so it is off its stack. */
  lemma FreedOffStack(run: seq<State>, steps: seq<Step>, n: nat, k: nat, p: nat, i: nat)
    requires IsRun(run, steps, n) && k < |run| && SizesOk(run[k]) && p < |run[k].pc| && i < |run[k].pc|
    requires run[k].pc[p] == ScanAt(i) && run[k].run[i] == Zombie
    ensures run[k].pc[i] == Dead && run[k].plock[i] == Some(p)
  {
    RunInv(run, steps, n, k);
    assert ProcOk(run[k], p) && ProcOk(run[k], i);
  }

  /** Every exit is followed by at most one freeing of the slot, and the slot is a zombie in between. */
  lemma FreedOnce(run: seq<State>, steps: seq<Step>, n: nat, k: nat, i: nat)
    requires IsRun(run, steps, n) && k < |run| && SizesOk(run[k]) && i < |run[k].pc|
    ensures run[k].exits[i] == run[k].frees[i] + if run[k].run[i] == Zombie then 1 else 0
  {
    RunInv(run, steps, n, k);
    assert ProcOk(run[k], i);
  }

  /** No process is left with a parent that has exited. */
  lemma NoOrphans(run: seq<State>, steps: seq<Step>, n: nat, k: nat, x: nat)
    requires IsRun(run, steps, n) && k < |run| && SizesOk(run[k]) && x < |run[k].pc| && run[k].parent[x].Some?
    ensures var w := run[k].parent[x].value;
            w < |run[k].pc| && w != x && run[k].run[w] != Zombie && run[k].run[w] != Unused && run[k].run[x] != Unused
  {
    RunInv(run, steps, n, k);
    var w := run[k].parent[x].value;
    assert PairOk(run[k], w, x) && ProcOk(run[k], w) && ProcOk(run[k], x);
  }

  /** wait gives up for want of children only when there are none. */
  lemma NoChildren(run: seq<State>, steps: seq<Step>, n: nat, k: nat, w: nat, i: nat, x: nat)
    requires IsRun(run, steps, n) && k < |run| && SizesOk(run[k]) && w < |run[k].pc| && x < |run[k].pc|
    requires run[k].pc[w] == Scan(i, false) && i >= |run[k].pc|
    ensures run[k].parent[x] != Some(w)
  {
    RunInv(run, steps, n, k);
    assert PairOk(run[k], w, x);
  }
}
