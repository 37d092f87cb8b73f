/** Lock and log together: whatever the interleaving, the log is a serial one. */
module LockedLog {
  import opened Wrappers
  import opened Events
  import opened Retention
  import opened Ownership
  import opened Coordination
  import opened Locking

  /** The lock machine, the log file, and what each call inside its lock has read of the file. */
  datatype Machine = Machine(locks: System, log: seq<Event>, seen: map<Token, seq<Event>>)

  datatype Happening = Lock(step: Step) | Read(at: Token)

  /** What the call does once inside. */
  type Program = Token -> Command

  predicate IsInside(s: System, t: Token) {
    Present(s, t) && Inside(PcOf(s, t))
  }

  predicate Possible(s: Machine, h: Happening) {
    match h
    case Lock(step) => Enabled(s.locks, step) && (step.Mutate? ==> step.at in s.seen)
    case Read(t) => IsInside(s.locks, t)
  }

  /** The file after a call that has read `seen` writes to it: compaction replaces it by what it made
      of what it read, everything else adds an event that was decided on what it read. */
  ghost function Written(log: seq<Event>, seen: seq<Event>, c: Command): seq<Event> {
    if c.Compact? then Next(State(seen, false), c, true).0.log
    else if c.Activate? || c.Deactivate? then log
    else
      match Decide(State(seen, false), c)
      case Ok(e) => log + [e]
      case Err(_) => log
  }

  ghost function Then(s: Machine, h: Happening, program: Program): Machine
    requires Possible(s, h)
  {
    match h
    case Read(t) => s.(seen := s.seen[t := s.log])
    case Lock(step) =>
      var locks := After(s.locks, step);
      Machine(locks, if step.Mutate? then Written(s.log, s.seen[step.at], program(step.at)) else s.log,
             map t | t in s.seen && IsInside(locks, t) :: s.seen[t])
  }

  /** Whoever has read the log and is still inside has read the log as it is. */
  ghost predicate Current(s: Machine) {
    && Invariant(s.locks)
    && forall t | t in s.seen :: IsInside(s.locks, t) && s.seen[t] == s.log
  }

  lemma {:induction false} OneInside(s: System, t: Token, u: Token)
    requires Invariant(s) && IsInside(s, t) && IsInside(s, u)
    ensures t == u
  {
    assert HasFile(PcOf(s, t)) && HasFile(PcOf(s, u));
  }

  lemma {:induction false} MutatorLeaves(s: System, t: Token)
    requires Invariant(s) && Enabled(s, Mutate(t))
    ensures forall u | IsInside(s, u) :: !IsInside(After(s, Mutate(t)), u)
  {
    MovedFacts(s, t, Ending, After(s, Mutate(t)));
    forall u | IsInside(s, u) ensures !IsInside(After(s, Mutate(t)), u) {
      OneInside(s, t, u);
    }
  }

  lemma {:induction false} ThenCurrent(s: Machine, h: Happening, program: Program)
    requires Current(s) && Possible(s, h)
    ensures Current(Then(s, h, program))
  {
    if h.Lock? {
      StepKeeps(s.locks, h.step);
      if h.step.Mutate? { MutatorLeaves(s.locks, h.step.at); }
    }
  }

  predicate Mutation(c: Command) {
    !c.Activate? && !c.Deactivate?
  }

  /** Writing to a log that one has just read is one step of the log machine. */
  lemma {:induction false} WrittenIsNext(log: seq<Event>, c: Command)
    requires Mutation(c)
    ensures State(Written(log, log, c), false) == Next(State(log, false), c, true).0
  {
  }

  /** The commands of the calls that wrote, in the order in which they did. */
  function Order(happenings: seq<Happening>, program: Program): seq<Command> {
    if happenings == [] then []
    else
      var h := happenings[|happenings| - 1];
      Order(happenings[..|happenings| - 1], program) +
      if h.Lock? && h.step.Mutate? then [program(h.step.at)] else []
  }

  ghost predicate IsSharedRun(states: seq<Machine>, happenings: seq<Happening>, program: Program) {
    && |states| == |happenings| + 1
    && Initial(states[0].locks) && states[0].seen == map[]
    && forall i | 0 <= i < |happenings| ::
         Possible(states[i], happenings[i]) && states[i + 1] == Then(states[i], happenings[i], program)
  }

  lemma {:induction false} AlwaysCurrent(states: seq<Machine>, happenings: seq<Happening>, program: Program, n: nat)
    requires IsSharedRun(states, happenings, program) && n < |states|
    ensures Current(states[n])
  {
    if n > 0 {
      AlwaysCurrent(states, happenings, program, n - 1);
      ThenCurrent(states[n - 1], happenings[n - 1], program);
    }
  }

  lemma {:induction false} AlwaysHasWriter(states: seq<Machine>, happenings: seq<Happening>, program: Program, n: nat)
    requires IsSharedRun(states, happenings, program) && n < |states|
    ensures EmptyHasWriter(states[n].locks)
  {
    if n > 0 {
      AlwaysHasWriter(states, happenings, program, n - 1);
      if happenings[n - 1].Lock? { WriterStays(states[n - 1].locks, happenings[n - 1].step); }
    }
  }

  /** Nothing hangs here either: while a call is unfinished, one that is inside can read the log for the
      first time, or one can be taken further; if it writes, that is decided on the log as it is. */
  lemma {:induction false} NeverStuck(states: seq<Machine>, happenings: seq<Happening>, program: Program, n: nat,
                                      t: Token) returns (h: Happening)
    requires IsSharedRun(states, happenings, program) && n < |states|
    requires Present(states[n].locks, t) && !PcOf(states[n].locks, t).Finished?
    ensures Possible(states[n], h) && if h.Read? then h.at !in states[n].seen else Forward(h.step)
    ensures h.Lock? && h.step.Mutate? ==>
              Then(states[n], h, program).log == Written(states[n].log, states[n].log, program(h.step.at))
  {
    var s := states[n];
    AlwaysCurrent(states, happenings, program, n);
    AlwaysHasWriter(states, happenings, program, n);
    var step := SomethingMoves(s.locks, t);
    h := if step.Mutate? && step.at !in s.seen then Read(step.at) else Lock(step);
  }

  lemma {:induction false} SerialStep(s: Machine, h: Happening, program: Program, start: State, before: seq<Command>)
    requires Current(s) && Possible(s, h) && forall t :: Mutation(program(t))
    requires Run(start, before, true).0 == State(s.log, false)
    ensures Run(start, before + if h.Lock? && h.step.Mutate? then [program(h.step.at)] else [], true).0
            == State(Then(s, h, program).log, false)
  {
    if h.Lock? && h.step.Mutate? {
      RunSnoc(start, before, program(h.step.at), true);
      WrittenIsNext(s.log, program(h.step.at));
    } else {
      assert before + [] == before;
    }
  }

  lemma {:induction false} OrderNext(happenings: seq<Happening>, program: Program, n: nat)
    requires n < |happenings|
    ensures var h := happenings[n];
            Order(happenings[..n + 1], program)
            == Order(happenings[..n], program) + if h.Lock? && h.step.Mutate? then [program(h.step.at)] else []
  {
    assert happenings[..n + 1][..n] == happenings[..n];
  }

  lemma {:induction false} NextSerial(states: seq<Machine>, happenings: seq<Happening>, program: Program, n: nat)
    requires IsSharedRun(states, happenings, program) && n < |happenings|
    requires forall t :: Mutation(program(t))
    requires Run(State(states[0].log, false), Order(happenings[..n], program), true).0 == State(states[n].log, false)
    ensures Run(State(states[0].log, false), Order(happenings[..n + 1], program), true).0
            == State(states[n + 1].log, false)
  {
    AlwaysCurrent(states, happenings, program, n);
    OrderNext(happenings, program, n);
    SerialStep(states[n], happenings[n], program, State(states[0].log, false), Order(happenings[..n], program));
  }

  /** In every interleaving of any number of processes and calls, with the kill switch turned on and
      off at any time, the log is the result of running the commands that wrote one after the other,
      in the order in which they did, each as a whole. */
  lemma {:induction false} LogIsSerial(states: seq<Machine>, happenings: seq<Happening>, program: Program, n: nat)
    requires IsSharedRun(states, happenings, program) && n < |states|
    requires forall t :: Mutation(program(t))
    ensures Run(State(states[0].log, false), Order(happenings[..n], program), true).0 == State(states[n].log, false)
  {
    if n == 0 {
      assert happenings[..0] == [];
    } else {
      LogIsSerial(states, happenings, program, n - 1);
      NextSerial(states, happenings, program, n - 1);
    }
  }

  /** So the ownership map that many processes leave behind, whatever they compact, is that of their
      commands in a row on a log that is never compacted, and it excludes. */
  lemma {:induction false} ConcurrentOwnership(states: seq<Machine>, happenings: seq<Happening>, program: Program,
                                               n: nat)
    requires IsSharedRun(states, happenings, program) && n < |states| && states[0].log == []
    requires forall t :: Mutation(program(t))
    requires CleanRun(Coordination.Start, Order(happenings[..n], program))
    ensures var own := FoldOwnership(states[n].log);
            && own == FoldOwnership(Run(Coordination.Start, Order(happenings[..n], program), false).0.log)
            && own.Ok? && CanonicalKeys(own.value) && Exclusion(own.value)
  {
    LogIsSerial(states, happenings, program, n);
    CompactionIsInvisible(Order(happenings[..n], program));
    ExclusionWithCompaction(Order(happenings[..n], program));
  }
}
