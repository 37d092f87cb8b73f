/** The coordination lock: promises queue calls, a lock file excludes other processes,
    and the kill switch is checked first. */
module Locking {
  import opened Wrappers

  /** Where one withCoordinationLock call stands. */
  datatype Pc =
    | Waiting    // for the promise of the previous call in the process
    | Trying     // to create the lock file
    | Opened     // created it, nothing written yet
    | Written    // wrote its token
    | Critical   // read its own token back; running the operation
    | Checked    // found the kill switch off
    | Ending     // the operation is over, by result or exception
    | Unlocked   // the lock file is given up
    | Finished   // its promise is resolved

  /** `previous` is the call whose tail was in the map on arrival. */
  datatype Call = Call(previous: Option<nat>, pc: Pc)

  /** One process: its calls in arrival order, and the call whose tail is in localLockTails. */
  datatype Process = Process(calls: seq<Call>, tail: Option<nat>)

  datatype Token = Token(process: nat, call: nat)

  /** The lock file is absent, empty, or holds a token. */
  datatype LockFile = Absent | Empty | Holds(token: Token)

  datatype System = System(processes: seq<Process>, file: LockFile, killed: bool, sinceKill: nat)

  /** Runs are crash-free: a lock file belongs to a live process and is never taken for stale. */
  datatype Step =
    | Arrive(process: nat)
    | Start(at: Token)
    | Open(at: Token)
    | Write(at: Token)
    | Verify(at: Token)
    | CheckKillSwitch(at: Token)
    | Mutate(at: Token)
    | Throw(at: Token)
    | Release(at: Token)
    | TimeOut(at: Token)
    | Resolve(at: Token)
    | Activate
    | Deactivate

  predicate Present(s: System, t: Token) {
    t.process < |s.processes| && t.call < |s.processes[t.process].calls|
  }

  function PcOf(s: System, t: Token): Pc
    requires Present(s, t)
  {
    s.processes[t.process].calls[t.call].pc
  }

  function Moved(s: System, t: Token, pc: Pc): System
    requires Present(s, t)
  {
    var process := s.processes[t.process];
    var calls := process.calls[t.call := process.calls[t.call].(pc := pc)];
    s.(processes := s.processes[t.process := process.(calls := calls)])
  }

  /** The tail promise of a call: its own, after that of the call before it. */
  predicate TailResolved(calls: seq<Call>, i: nat)
    requires i < |calls|
    decreases i
  {
    calls[i].pc.Finished? &&
    (calls[i].previous.None? || (calls[i].previous.value < i && TailResolved(calls, calls[i].previous.value)))
  }

  predicate Enabled(s: System, step: Step) {
    match step
    case Arrive(p) => p < |s.processes|
    case Start(t) =>
      Present(s, t) && PcOf(s, t).Waiting? &&
      var calls := s.processes[t.process].calls;
      (calls[t.call].previous.None? ||
       (calls[t.call].previous.value < |calls| && TailResolved(calls, calls[t.call].previous.value)))
    case Open(t) => Present(s, t) && PcOf(s, t).Trying? && s.file.Absent?
    case Write(t) => Present(s, t) && PcOf(s, t).Opened?
    case Verify(t) => Present(s, t) && PcOf(s, t).Written?
    case CheckKillSwitch(t) => Present(s, t) && PcOf(s, t).Critical?
    case Mutate(t) => Present(s, t) && PcOf(s, t).Checked?
    case Throw(t) => Present(s, t) && (PcOf(s, t).Critical? || PcOf(s, t).Checked?)
    case Release(t) => Present(s, t) && PcOf(s, t).Ending?
    case TimeOut(t) => Present(s, t) && PcOf(s, t).Trying?
    case Resolve(t) => Present(s, t) && PcOf(s, t).Unlocked?
    case Activate => true
    case Deactivate => true
  }

  function After(s: System, step: Step): System
    requires Enabled(s, step)
  {
    match step
    case Arrive(p) =>
      var process := s.processes[p];
      s.(processes := s.processes[p := Process(process.calls + [Call(process.tail, Waiting)], Some(|process.calls|))])
    case Start(t) => Moved(s, t, Trying)
    case Open(t) => Moved(s, t, Opened).(file := Empty)
    case Write(t) => Moved(s, t, Written).(file := Holds(t))
    case Verify(t) => Moved(s, t, if s.file == Holds(t) then Critical else Trying)
    case CheckKillSwitch(t) => Moved(s, t, if s.killed then Ending else Checked)
    case Mutate(t) => Moved(s, t, Ending).(sinceKill := if s.killed then s.sinceKill + 1 else s.sinceKill)
    case Throw(t) => Moved(s, t, Ending)
    case Release(t) => Moved(s, t, Unlocked).(file := if s.file == Holds(t) then Absent else s.file)
    case TimeOut(t) => Moved(s, t, Unlocked)
    case Resolve(t) =>
      var moved := Moved(s, t, Finished);
      var process := moved.processes[t.process];
      if process.tail == Some(t.call)
      then moved.(processes := moved.processes[t.process := process.(tail := None)])
      else moved
    case Activate => if s.killed then s else s.(killed := true, sinceKill := 0)
    case Deactivate => s.(killed := false)
  }

  // ---- Within a process ----

  /** Calls leave the queue in arrival order, one at a time: nothing has started unless
      everything before it is finished. The map entry is the last call, and an absent entry
      means that nothing runs or waits. */
  ghost predicate InOrder(p: Process) {
    && (forall i, j | 0 <= i < j < |p.calls| && !p.calls[j].pc.Waiting? :: p.calls[i].pc.Finished?)
    && (p.tail.None? ==> forall i | 0 <= i < |p.calls| :: p.calls[i].pc.Finished?)
    && (p.tail.Some? ==> p.tail.value + 1 == |p.calls| && !p.calls[p.tail.value].pc.Finished?)
    && (forall j | 0 <= j < |p.calls| && p.calls[j].previous.None? ::
          forall i | 0 <= i < j :: p.calls[i].pc.Finished?)
    && (forall j | 0 <= j < |p.calls| && p.calls[j].previous.Some? :: p.calls[j].previous.value == j - 1)
  }

  // ---- Between processes ----

  predicate HasFile(pc: Pc) {
    pc.Opened? || pc.Written? || pc.Critical? || pc.Checked? || pc.Ending?
  }

  /** The lock file tells exactly who is between creating and removing it. */
  ghost predicate FileMatches(s: System) {
    && (forall t, u | Present(s, t) && Present(s, u) && HasFile(PcOf(s, t)) && HasFile(PcOf(s, u)) :: t == u)
    && (s.file.Absent? ==> forall t | Present(s, t) :: !HasFile(PcOf(s, t)))
    && (s.file.Empty? ==> forall t | Present(s, t) && HasFile(PcOf(s, t)) :: PcOf(s, t).Opened?)
    && (s.file.Holds? ==> Present(s, s.file.token) && HasFile(PcOf(s, s.file.token)) && !PcOf(s, s.file.token).Opened?)
  }

  /** While the switch is on, one mutation at most has passed or can still pass. */
  ghost predicate KillBounded(s: System) {
    s.killed ==>
      && s.sinceKill <= 1
      && (s.sinceKill == 1 ==> forall t | Present(s, t) :: !PcOf(s, t).Checked?)
  }

  ghost predicate Invariant(s: System) {
    && (forall p | 0 <= p < |s.processes| :: InOrder(s.processes[p]))
    && FileMatches(s)
    && KillBounded(s)
  }

  ghost predicate Initial(s: System) {
    && (forall p | 0 <= p < |s.processes| :: s.processes[p] == Process([], None))
    && s.file == Absent && !s.killed
  }

  lemma {:induction false} MovedFacts(s: System, t: Token, pc: Pc, after: System)
    requires Present(s, t) && after.processes == Moved(s, t, pc).processes
    ensures forall u :: Present(after, u) <==> Present(s, u)
    ensures forall u | Present(s, u) :: PcOf(after, u) == if u == t then pc else PcOf(s, u)
  {
  }

  lemma {:induction false} StartFollowsOrder(p: Process, i: nat)
    requires InOrder(p) && i < |p.calls| && p.calls[i].pc.Waiting?
    requires p.calls[i].previous.None? ||
             (p.calls[i].previous.value < |p.calls| && TailResolved(p.calls, p.calls[i].previous.value))
    ensures InOrder(p.(calls := p.calls[i := p.calls[i].(pc := Trying)]))
  {
    if p.calls[i].previous.Some? {
      assert p.calls[i - 1].pc.Finished?;
      forall j | 0 <= j < i ensures p.calls[j].pc.Finished? {}
    }
  }

  lemma {:induction false} RunningMoves(p: Process, i: nat, pc: Pc)
    requires InOrder(p) && i < |p.calls| && !p.calls[i].pc.Waiting? && !p.calls[i].pc.Finished? && !pc.Waiting?
    requires pc.Finished? ==> p.tail != Some(i)
    ensures InOrder(p.(calls := p.calls[i := p.calls[i].(pc := pc)]))
  {
  }

  lemma {:induction false} ResolveFreesTail(p: Process, i: nat)
    requires InOrder(p) && i < |p.calls| && p.calls[i].pc.Unlocked?
    ensures var q := p.(calls := p.calls[i := p.calls[i].(pc := Finished)]);
            InOrder(if q.tail == Some(i) then q.(tail := None) else q)
  {
    if p.tail != Some(i) { RunningMoves(p, i, Finished); }
  }

  /** Steps that move one started call along, and where to. */
  predicate Moves(step: Step) {
    step.Open? || step.Write? || step.Verify? || step.CheckKillSwitch? || step.Mutate? || step.Throw?
    || step.Release? || step.TimeOut?
  }

  function Destination(s: System, step: Step): Pc
    requires Moves(step)
  {
    match step
    case Open(_) => Opened
    case Write(_) => Written
    case Verify(t) => if s.file == Holds(t) then Critical else Trying
    case CheckKillSwitch(_) => if s.killed then Ending else Checked
    case Mutate(_) => Ending
    case Throw(_) => Ending
    case Release(_) => Unlocked
    case TimeOut(_) => Unlocked
  }

  lemma {:induction false} MoveLands(s: System, step: Step)
    requires Enabled(s, step) && Moves(step)
    ensures Present(s, step.at) && !PcOf(s, step.at).Waiting? && !PcOf(s, step.at).Finished?
    ensures After(s, step).processes == Moved(s, step.at, Destination(s, step)).processes
  {
  }

  lemma {:induction false} OrderKept(s: System, step: Step, p: nat)
    requires Invariant(s) && Enabled(s, step) && p < |s.processes|
    ensures InOrder(After(s, step).processes[p])
  {
    assert InOrder(s.processes[p]);
    if Moves(step) {
      MoveLands(s, step);
      MoveKeepsOrder(s, step.at, Destination(s, step), p);
    } else {
      QueueStepKeepsOrder(s, step, p);
    }
  }

  lemma {:induction false} QueueStepKeepsOrder(s: System, step: Step, p: nat)
    requires Enabled(s, step) && p < |s.processes| && InOrder(s.processes[p]) && !Moves(step)
    ensures InOrder(After(s, step).processes[p])
  {
    match step
    case Start(t) => if t.process == p { StartFollowsOrder(s.processes[p], t.call); }
    case Resolve(t) => if t.process == p { ResolveFreesTail(s.processes[p], t.call); }
    case Arrive(q) =>
    case Activate =>
    case Deactivate =>
  }

  lemma {:induction false} MoveKeepsOrder(s: System, t: Token, pc: Pc, p: nat)
    requires p < |s.processes| && InOrder(s.processes[p])
    requires Present(s, t) && !PcOf(s, t).Waiting? && !PcOf(s, t).Finished?
    requires !pc.Waiting? && !pc.Finished?
    ensures InOrder(Moved(s, t, pc).processes[p])
  {
    if t.process == p { RunningMoves(s.processes[p], t.call, pc); }
  }

  /** In a crash-free run the token read back is always one's own. */
  lemma {:induction false} VerifySucceeds(s: System, t: Token)
    requires FileMatches(s) && Present(s, t) && HasFile(PcOf(s, t)) && !PcOf(s, t).Opened?
    ensures s.file == Holds(t)
  {
  }

  /** A call that holds the file moves on and keeps it. */
  lemma {:induction false} HolderMoves(s: System, t: Token, pc: Pc, after: System)
    requires FileMatches(s) && Present(s, t) && HasFile(PcOf(s, t)) && HasFile(pc) && !pc.Opened?
    requires after.processes == Moved(s, t, pc).processes && after.file == Holds(t)
    ensures FileMatches(after)
    ensures forall u | Present(after, u) && u != t :: !HasFile(PcOf(after, u))
    ensures Present(after, t) && PcOf(after, t) == pc
  {
    MovedFacts(s, t, pc, after);
  }

  /** A call that does not hold the file moves on and still does not. */
  lemma {:induction false} OtherMoves(s: System, t: Token, pc: Pc, after: System)
    requires FileMatches(s) && Present(s, t) && !HasFile(PcOf(s, t)) && !HasFile(pc)
    requires after.processes == Moved(s, t, pc).processes && after.file == s.file
    ensures FileMatches(after)
    ensures forall u | Present(after, u) :: !PcOf(after, u).Checked? || (Present(s, u) && PcOf(s, u).Checked?)
  {
    MovedFacts(s, t, pc, after);
  }

  lemma {:induction false} FileKept(s: System, step: Step)
    requires Invariant(s) && Enabled(s, step)
    ensures FileMatches(After(s, step)) && KillBounded(After(s, step))
  {
    match step
    case Arrive(p) => ArriveKeepsFile(s, p);
    case Resolve(t) => ResolveKeepsFile(s, t);
    case Start(t) => OtherMoves(s, t, Trying, After(s, step));
    case Activate => SwitchMoves(s, After(s, step));
    case Deactivate => SwitchMoves(s, After(s, step));
    case TimeOut(t) => OtherMoves(s, t, Unlocked, After(s, step));
    case _ => HolderKept(s, step);
  }

  /** Turning the switch moves no call. At most one call has passed its check at that moment. */
  lemma {:induction false} SwitchMoves(s: System, after: System)
    requires FileMatches(s) && KillBounded(s)
    requires after.processes == s.processes && after.file == s.file
    requires after.killed ==> after.sinceKill == if s.killed then s.sinceKill else 0
    ensures FileMatches(after) && KillBounded(after)
  {
    forall u ensures Present(after, u) <==> Present(s, u) {}
    forall u | Present(s, u) ensures PcOf(after, u) == PcOf(s, u) {}
  }

  lemma {:induction false} HolderKept(s: System, step: Step)
    requires FileMatches(s) && KillBounded(s) && Enabled(s, step) && Moves(step) && !step.TimeOut?
    ensures FileMatches(After(s, step)) && KillBounded(After(s, step))
  {
    var t, after := step.at, After(s, step);
    MoveLands(s, step);
    if step.Open? {
      MovedFacts(s, t, Opened, after);
    } else {
      if !step.Write? { VerifySucceeds(s, t); }
      if step.Release? {
        MovedFacts(s, t, Unlocked, after);
      } else {
        HolderMoves(s, t, Destination(s, step), after);
      }
    }
  }

  lemma {:induction false} ArriveKeepsFile(s: System, p: nat)
    requires Invariant(s) && p < |s.processes|
    ensures FileMatches(After(s, Arrive(p))) && KillBounded(After(s, Arrive(p)))
  {
    var after := After(s, Arrive(p));
    forall u | Present(after, u) && !PcOf(after, u).Waiting? ensures Present(s, u) && PcOf(after, u) == PcOf(s, u) {}
    forall u | Present(s, u) ensures Present(after, u) && PcOf(after, u) == PcOf(s, u) {}
  }

  lemma {:induction false} ResolveKeepsFile(s: System, t: Token)
    requires Invariant(s) && Enabled(s, Resolve(t))
    ensures FileMatches(After(s, Resolve(t))) && KillBounded(After(s, Resolve(t)))
  {
    var after, moved := After(s, Resolve(t)), Moved(s, t, Finished);
    OtherMoves(s, t, Finished, moved);
    forall u ensures Present(after, u) <==> Present(moved, u) {}
    forall u | Present(moved, u) ensures PcOf(after, u) == PcOf(moved, u) {}
  }

  lemma {:induction false} StepKeeps(s: System, step: Step)
    requires Invariant(s) && Enabled(s, step)
    ensures Invariant(After(s, step))
  {
    FileKept(s, step);
    forall p | 0 <= p < |After(s, step).processes| ensures InOrder(After(s, step).processes[p]) {
      OrderKept(s, step, p);
    }
  }

  ghost predicate IsRun(states: seq<System>, steps: seq<Step>) {
    && |states| == |steps| + 1
    && forall i | 0 <= i < |steps| :: Enabled(states[i], steps[i]) && states[i + 1] == After(states[i], steps[i])
  }

  lemma {:induction false} RunKeeps(states: seq<System>, steps: seq<Step>, n: nat)
    requires IsRun(states, steps) && Initial(states[0]) && n < |states|
    ensures Invariant(states[n])
  {
    if n > 0 {
      RunKeeps(states, steps, n - 1);
      StepKeeps(states[n - 1], steps[n - 1]);
    }
  }

  /** Inside the operation. */
  predicate Inside(pc: Pc) {
    pc.Critical? || pc.Checked?
  }

  /** At most one call of any process is inside its operation, the lock file holds its token,
      and within each process calls got there in the order they arrived. */
  lemma {:induction false} MutualExclusion(states: seq<System>, steps: seq<Step>, n: nat, t: Token, u: Token)
    requires IsRun(states, steps) && Initial(states[0]) && n < |states|
    requires Present(states[n], t) && Inside(PcOf(states[n], t)) && Present(states[n], u)
    ensures Inside(PcOf(states[n], u)) ==> u == t
    ensures states[n].file == Holds(t)
    ensures u.process == t.process && u.call < t.call ==> PcOf(states[n], u).Finished?
    ensures u.process == t.process && u.call > t.call ==> PcOf(states[n], u).Waiting?
  {
    RunKeeps(states, steps, n);
    VerifySucceeds(states[n], t);
    assert InOrder(states[n].processes[t.process]);
  }

  /** Only the call whose token is in the lock file ever removes it. */
  lemma {:induction false} OnlyTheHolderRemoves(states: seq<System>, steps: seq<Step>, n: nat)
    requires IsRun(states, steps) && Initial(states[0]) && n < |steps|
    requires !states[n].file.Absent? && states[n + 1].file.Absent?
    ensures steps[n].Release? && states[n].file == Holds(steps[n].at)
  {
  }

  /** The map has an entry for a process exactly while some call of it runs or waits. */
  lemma {:induction false} NoTailNoWork(states: seq<System>, steps: seq<Step>, n: nat, p: nat)
    requires IsRun(states, steps) && Initial(states[0]) && n < |states| && p < |states[n].processes|
    ensures states[n].processes[p].tail.None?
            <==> forall i | 0 <= i < |states[n].processes[p].calls| :: states[n].processes[p].calls[i].pc.Finished?
  {
    RunKeeps(states, steps, n);
    assert InOrder(states[n].processes[p]);
  }

  /** Activation does not wait for the lock, so the one mutation that had passed its check may
      still land; no second one does before the switch is turned off again. */
  lemma {:induction false} OneMutationAfterKill(states: seq<System>, steps: seq<Step>, n: nat)
    requires IsRun(states, steps) && Initial(states[0]) && n < |states| && states[n].killed
    ensures states[n].sinceKill <= 1
  {
    RunKeeps(states, steps, n);
  }

  // ---- Progress ----

  /** A lock file that is still empty has a writer. */
  ghost predicate EmptyHasWriter(s: System) {
    s.file.Empty? ==> exists t :: Present(s, t) && PcOf(s, t).Opened?
  }

  lemma {:induction false} WriterStays(s: System, step: Step)
    requires EmptyHasWriter(s) && Enabled(s, step)
    ensures EmptyHasWriter(After(s, step))
  {
    var after := After(s, step);
    if after.file.Empty? {
      if step.Open? {
        assert Present(after, step.at) && PcOf(after, step.at).Opened?;
      } else {
        var t :| Present(s, t) && PcOf(s, t).Opened?;
        assert Present(after, t) && PcOf(after, t).Opened?;
      }
    }
  }

  lemma {:induction false} RunHasWriter(states: seq<System>, steps: seq<Step>, n: nat)
    requires IsRun(states, steps) && Initial(states[0]) && n < |states|
    ensures EmptyHasWriter(states[n])
  {
    if n > 0 {
      RunHasWriter(states, steps, n - 1);
      WriterStays(states[n - 1], steps[n - 1]);
    }
  }

  lemma {:induction false} AllBeforeResolved(p: Process, i: nat)
    requires InOrder(p) && i < |p.calls| && forall j | 0 <= j <= i :: p.calls[j].pc.Finished?
    ensures TailResolved(p.calls, i)
  {
    if i > 0 && p.calls[i].previous.Some? { AllBeforeResolved(p, i - 1); }
  }

  /** The first call of a process that is not finished. */
  lemma {:induction false} FirstUnfinished(p: Process, i: nat) returns (j: nat)
    requires i < |p.calls| && !p.calls[i].pc.Finished?
    ensures j <= i && !p.calls[j].pc.Finished? && forall k | 0 <= k < j :: p.calls[k].pc.Finished?
  {
    if k :| 0 <= k < i && !p.calls[k].pc.Finished? {
      j := FirstUnfinished(p, k);
    } else {
      j := i;
    }
  }

  /** A step that takes its call further. */
  predicate Forward(step: Step) {
    step.Start? || step.Open? || step.Write? || step.Verify? || step.CheckKillSwitch? || step.Mutate? || step.Release?
    || step.Resolve?
  }

  lemma {:induction false} QueueMoves(s: System, t: Token) returns (step: Step)
    requires Invariant(s) && s.file.Absent? && Present(s, t) && !PcOf(s, t).Finished?
    ensures Forward(step) && Enabled(s, step)
  {
    var p := s.processes[t.process];
    assert InOrder(p);
    var j := FirstUnfinished(p, t.call);
    var u := Token(t.process, j);
    assert Present(s, u) && !HasFile(PcOf(s, u));
    match PcOf(s, u)
    case Waiting =>
      if j > 0 && p.calls[j].previous.Some? { AllBeforeResolved(p, j - 1); }
      step := Start(u);
    case Trying => step := Open(u);
    case Unlocked => step := Resolve(u);
  }

  /** Nothing ever hangs: while a call of any process is unfinished, some call can be taken further
      without throwing or timing out. */
  lemma {:induction false} NoDeadlock(states: seq<System>, steps: seq<Step>, n: nat, t: Token) returns (step: Step)
    requires IsRun(states, steps) && Initial(states[0]) && n < |states|
    requires Present(states[n], t) && !PcOf(states[n], t).Finished?
    ensures Forward(step) && Enabled(states[n], step)
  {
    RunKeeps(states, steps, n);
    RunHasWriter(states, steps, n);
    step := SomethingMoves(states[n], t);
  }

  lemma {:induction false} SomethingMoves(s: System, t: Token) returns (step: Step)
    requires Invariant(s) && EmptyHasWriter(s) && Present(s, t) && !PcOf(s, t).Finished?
    ensures Forward(step) && Enabled(s, step)
  {
    match s.file
    case Absent => step := QueueMoves(s, t);
    case Empty =>
      var u :| Present(s, u) && PcOf(s, u).Opened?;
      step := Write(u);
    case Holds(u) =>
      match PcOf(s, u)
      case Written => step := Verify(u);
      case Critical => step := CheckKillSwitch(u);
      case Checked => step := Mutate(u);
      case Ending => step := Release(u);
  }

  /** How far a call is. */
  function Rank(pc: Pc): nat {
    match pc
    case Waiting => 0
    case Trying => 1
    case Opened => 2
    case Written => 3
    case Critical => 4
    case Checked => 5
    case Ending => 6
    case Unlocked => 7
    case Finished => 8
  }

  /** Such a step does take its call further, moves no other, and leads past the check exactly when
      the switch is off. */
  lemma {:induction false} ForwardMoves(states: seq<System>, steps: seq<Step>, n: nat, step: Step)
    requires IsRun(states, steps) && Initial(states[0]) && n < |states|
    requires Enabled(states[n], step) && Forward(step)
    ensures var s, after := states[n], After(states[n], step);
            && Present(after, step.at) && Rank(PcOf(after, step.at)) > Rank(PcOf(s, step.at))
            && (forall u | Present(s, u) && u != step.at :: Present(after, u) && PcOf(after, u) == PcOf(s, u))
            && (step.CheckKillSwitch? ==> PcOf(after, step.at) == if s.killed then Ending else Checked)
  {
    RunKeeps(states, steps, n);
    ForwardStep(states[n], step);
  }

  lemma {:induction false} ForwardStep(s: System, step: Step)
    requires Invariant(s) && Enabled(s, step) && Forward(step)
    ensures var after := After(s, step);
            && Present(after, step.at) && Rank(PcOf(after, step.at)) > Rank(PcOf(s, step.at))
            && (forall u | Present(s, u) && u != step.at :: Present(after, u) && PcOf(after, u) == PcOf(s, u))
            && (step.CheckKillSwitch? ==> PcOf(after, step.at) == if s.killed then Ending else Checked)
  {
    var t, after := step.at, After(s, step);
    if step.Verify? { VerifySucceeds(s, t); }
    var pc := if Moves(step) then Destination(s, step) else if step.Start? then Trying else Finished;
    if Moves(step) { MoveLands(s, step); }
    if step.Resolve? {
      ResolveLands(s, t);
    } else {
      MovedFacts(s, t, pc, after);
    }
  }

  lemma {:induction false} ResolveLands(s: System, t: Token)
    requires Enabled(s, Resolve(t))
    ensures var after := After(s, Resolve(t));
            && Present(after, t) && PcOf(after, t) == Finished
            && forall u | Present(s, u) && u != t :: Present(after, u) && PcOf(after, u) == PcOf(s, u)
  {
    MovedFacts(s, t, Finished, Moved(s, t, Finished));
  }
}
