/** How the engine is told to build blocks (block_builder.go): a lock, two channels and a timer,
    shared by Add, the Build loop, the timer, BuildBlock and the consensus engine. */
module Signals {
  datatype Status = DontBuild | MayBuild | Building

  /** What the lock protects, with the number of messages in the channel to the engine and whether the
      timer is set. */
  datatype Builder = Builder(status: Status, toEngine: nat, armed: bool)

  function Marked(cap: nat, b: Builder): Builder {
    if b.toEngine < cap then b.(toEngine := b.toEngine + 1, status := Building) else b
  }

  function Signalled(cap: nat, b: Builder): Builder {
    if b.status.DontBuild? then Marked(cap, b) else b
  }

  function TimedOut(cap: nat, b: Builder): Builder {
    if b.status.MayBuild? then Marked(cap, b) else b
  }

  function Handled(b: Builder, needToBuild: bool): Builder {
    if needToBuild then b.(status := MayBuild, armed := true) else b.(status := DontBuild)
  }

  class TimeBuilder {
    const cap: nat
    var status: Status
    var toEngine: nat
    var armed: bool

    function State(): Builder
      reads this
    {
      Builder(status, toEngine, armed)
    }

    constructor (cap: nat)
      ensures this.cap == cap && State() == Builder(DontBuild, 0, false)
    {
      this.cap, status, toEngine, armed := cap, DontBuild, 0, false;
    }

    /** Send without blocking. */
    method MarkBuilding()
      modifies this
      ensures State() == Marked(cap, old(State()))
    {
      if toEngine < cap {
        toEngine := toEngine + 1;
        status := Building;
      }
    }

    /** The Build loop's step, whatever the others are doing. */
    method SignalTxsReady()
      modifies this
      ensures State() == Signalled(cap, old(State()))
      ensures forall s: Sys :: s.builder == old(State()) && s.handling && !Locked(s) ==>
        Next(cap, true, s, Signal, s.(handling := false, builder := State()))
    {
      if status != DontBuild {
        return;
      }
      MarkBuilding();
    }

    /** The timer's step. */
    method BuildBlockTwoStageTimer()
      modifies this
      ensures State() == TimedOut(cap, old(State()))
      ensures forall s: Sys :: s.builder == old(State()) && s.firing && !Locked(s) ==>
        Next(cap, true, s, RunTimer, s.(firing := false, builder := State()))
    {
      match status {
        case DontBuild =>
        case MayBuild => MarkBuilding();
        case Building =>
      }
    }

    /** The last step of a call of BuildBlock, which has the lock and the answer of needToBuild. */
    method HandleGenerateBlock(needToBuild: bool)
      modifies this
      ensures State() == Handled(old(State()), needToBuild)
      ensures forall s: Sys :: s.builder == old(State()) && s.build == Checked(needToBuild) ==>
        Next(cap, true, s, Finish, s.(build := Idle, builder := State()))
    {
      if needToBuild {
        status := MayBuild;
        armed := true;
      } else {
        status := DontBuild;
      }
    }
  }

  // ---------- The protocol ----------

  /** Where a call of BuildBlock is: not running, filling a block, or holding the lock with the answer
      of needToBuild in hand. */
  datatype Phase = Idle | Filling | Checked(need: bool)

  datatype Sys = Sys(
    mempool: nat,    // how many transactions it holds
    pending: bool,   // a token is in the channel Pending
    handling: bool,  // the Build loop has taken a token and not yet called signalTxsReady
    builder: Builder,
    firing: bool,    // the timer has gone off and its callback is waiting for the lock
    owed: nat,       // messages the engine has taken and not yet answered by BuildBlock
    build: Phase)

  datatype Step =
    | Add | Leave
    | Receive | Signal
    | Fire | RunTimer
    | Take | Start | Check | Finish

  predicate Locked(s: Sys) {
    s.build.Checked?
  }

  /** One step of one participant. `dispatched` says whether anything runs the timer. */
  predicate Next(cap: nat, dispatched: bool, s: Sys, a: Step, s': Sys) {
    match a
    // Add puts a token into Pending, whether or not it has evicted another transaction; transactions
    // can leave at any time.
    case Add => s'.mempool >= 1 && s' == s.(mempool := s'.mempool, pending := true)
    case Leave => s'.mempool <= s.mempool && s' == s.(mempool := s'.mempool)
    // The Build loop takes a token, then calls signalTxsReady.
    case Receive => s.pending && !s.handling && s' == s.(pending := false, handling := true)
    case Signal => s.handling && !Locked(s) && s' == s.(handling := false, builder := Signalled(cap, s.builder))
    // The timer goes off, then its callback gets the lock.
    case Fire => dispatched && s.builder.armed && !s.firing
      && s' == s.(builder := s.builder.(armed := false), firing := true)
    case RunTimer => s.firing && !Locked(s) && s' == s.(firing := false, builder := TimedOut(cap, s.builder))
    // The engine takes a message, and calls BuildBlock, which ends in HandleGenerateBlock.
    case Take => s.builder.toEngine > 0
      && s' == s.(builder := s.builder.(toEngine := s.builder.toEngine - 1), owed := s.owed + 1)
    case Start => s.owed > 0 && s.build.Idle? && s' == s.(owed := s.owed - 1, build := Filling)
    case Check => s.build.Filling? && s' == s.(build := Checked(s.mempool > 0))
    case Finish => s.build.Checked? && s' == s.(build := Idle, builder := Handled(s.builder, s.build.need))
  }

  const INITIAL := Sys(0, false, false, Builder(DontBuild, 0, false), false, 0, Idle)

  ghost predicate Run(cap: nat, dispatched: bool, states: seq<Sys>, steps: seq<Step>) {
    && |states| == |steps| + 1 && states[0] == INITIAL
    && forall i :: 0 <= i < |steps| ==> Next(cap, dispatched, states[i], steps[i], states[i + 1])
  }

  // ---------- No wakeup is lost ----------

  /** A call of BuildBlock is under way or bound to come. */
  predicate Served(s: Sys) {
    s.builder.toEngine > 0 || s.owed > 0 || !s.build.Idle?
  }

  predicate TokenAround(s: Sys) {
    s.pending || s.handling
  }

  predicate Inv(cap: nat, s: Sys) {
    && s.builder.toEngine <= cap
    && (s.builder.status.Building? ==> Served(s))
    && (s.builder.status.MayBuild? ==> s.builder.armed || s.firing || Served(s))
    && (s.mempool > 0 && s.builder.status.DontBuild? ==> TokenAround(s) || Served(s))
    && (s.mempool > 0 && s.build.Checked? && !s.build.need ==> TokenAround(s))
  }

  lemma StepKeepsInv(cap: nat, dispatched: bool, s: Sys, a: Step, s': Sys)
    requires cap >= 1 && Inv(cap, s) && Next(cap, dispatched, s, a, s')
    ensures Inv(cap, s')
  {
  }

  lemma {:induction false} RunKeepsInv(cap: nat, dispatched: bool, states: seq<Sys>, steps: seq<Step>, n: nat)
    requires cap >= 1 && Run(cap, dispatched, states, steps) && n < |states|
    ensures Inv(cap, states[n])
  {
    if n > 0 {
      RunKeepsInv(cap, dispatched, states, steps, n - 1);
      StepKeepsInv(cap, dispatched, states[n - 1], steps[n - 1], states[n]);
    }
  }

  /** In every interleaving, a transaction in the mempool implies a token in Pending, a token being
      handled, a message to the engine, an owed or running BuildBlock, or the timer set with status
      mayBuild. */
  lemma NoLostWakeup(cap: nat, dispatched: bool, states: seq<Sys>, steps: seq<Step>, n: nat)
    requires cap >= 1 && Run(cap, dispatched, states, steps) && n < |states|
    ensures var s := states[n];
      s.mempool > 0 ==>
        || s.pending || s.handling
        || s.builder.toEngine > 0 || s.owed > 0 || !s.build.Idle?
        || (s.builder.status.MayBuild? && (s.builder.armed || s.firing))
  {
    RunKeepsInv(cap, dispatched, states, steps, n);
  }

  /** The channel must have room for a message: over one without a buffer the wakeup is lost. */
  lemma NeedsCapacity(dispatched: bool) returns (states: seq<Sys>, steps: seq<Step>)
    ensures Run(0, dispatched, states, steps)
    ensures var s := states[|steps|];
      s.mempool > 0 && !TokenAround(s) && !Served(s) && s.builder.status.DontBuild?
  {
    states := [INITIAL,
      INITIAL.(mempool := 1, pending := true),
      INITIAL.(mempool := 1, handling := true),
      INITIAL.(mempool := 1)];
    steps := [Add, Receive, Signal];
  }

  // ---------- One request at a time ----------

  /** How many messages the engine has not yet answered by a finished BuildBlock. */
  function Requests(s: Sys): nat {
    s.builder.toEngine + s.owed + if s.build.Idle? then 0 else 1
  }

  /** The status says what is going on: exactly while it is building one request is outstanding, and
      never more than one, and exactly while it may build the timer is set or going off, once. */
  predicate Orderly(s: Sys) {
    && Requests(s) == (if s.builder.status.Building? then 1 else 0)
    && (if s.builder.armed then 1 else 0) + (if s.firing then 1 else 0)
       == (if s.builder.status.MayBuild? then 1 else 0)
  }

  lemma {:induction false} StaysOrderly(cap: nat, dispatched: bool, states: seq<Sys>, steps: seq<Step>, n: nat)
    requires cap >= 1 && Run(cap, dispatched, states, steps) && n < |states|
    ensures Orderly(states[n])
  {
    if n > 0 {
      StaysOrderly(cap, dispatched, states, steps, n - 1);
      assert Next(cap, dispatched, states[n - 1], steps[n - 1], states[n]);
    }
  }

  /** With the mempool empty, a finished BuildBlock leaves nothing to come: no request, no timer, no
      status but dontBuild. */
  lemma GoesQuiet(cap: nat, dispatched: bool, states: seq<Sys>, steps: seq<Step>, n: nat)
    requires cap >= 1 && Run(cap, dispatched, states, steps) && n < |steps|
    requires steps[n].Finish? && states[n].build == Checked(false)
    ensures var s := states[n + 1];
      Requests(s) == 0 && !s.builder.armed && !s.firing && s.builder.status.DontBuild?
  {
    StaysOrderly(cap, dispatched, states, steps, n);
    StaysOrderly(cap, dispatched, states, steps, n + 1);
    assert Next(cap, dispatched, states[n], steps[n], states[n + 1]);
  }

  // ---------- With the timer running, a block comes ----------

  predicate Internal(a: Step) {
    !a.Add? && !a.Leave?
  }

  /** How many steps of its own the system can take at most before BuildBlock is called. */
  function Distance(s: Sys): nat {
    (if s.pending then 4 else 0) + (if s.handling then 3 else 0) + (if s.builder.armed then 4 else 0)
    + (if s.firing then 3 else 0) + 2 * s.builder.toEngine + s.owed
  }

  /** The step the system takes next, if nobody else does. */
  function Move(s: Sys): Step {
    match s.build
    case Checked(_) => Finish
    case Filling => Check
    case Idle =>
      if s.owed > 0 then Start
      else if s.builder.toEngine > 0 then Take
      else if s.handling then Signal
      else if s.pending then Receive
      else if s.firing then RunTimer
      else Fire
  }

  function After(cap: nat, s: Sys, a: Step): Sys
    requires Internal(a)
  {
    match a
    case Receive => s.(pending := false, handling := true)
    case Signal => s.(handling := false, builder := Signalled(cap, s.builder))
    case Fire => s.(builder := s.builder.(armed := false), firing := true)
    case RunTimer => s.(firing := false, builder := TimedOut(cap, s.builder))
    case Take =>
      s.(builder := s.builder.(toEngine := if s.builder.toEngine > 0 then s.builder.toEngine - 1 else 0),
         owed := s.owed + 1)
    case Start => s.(owed := if s.owed > 0 then s.owed - 1 else 0, build := Filling)
    case Check => s.(build := Checked(s.mempool > 0))
    case Finish => s.(build := Idle, builder := Handled(s.builder, s.build.Checked? && s.build.need))
  }

  /** Some step of the system is always possible while the mempool is not empty. */
  lemma CanMove(cap: nat, s: Sys)
    requires Inv(cap, s) && s.mempool > 0
    ensures Internal(Move(s)) && Next(cap, true, s, Move(s), After(cap, s, Move(s)))
  {
  }

  /** And every step of the system outside BuildBlock brings the call of BuildBlock closer. */
  lemma ComesCloser(cap: nat, s: Sys, a: Step, s': Sys)
    requires Next(cap, true, s, a, s') && Internal(a) && s.build.Idle? && !a.Start?
    ensures s'.build.Idle? && s'.mempool == s.mempool && Distance(s') < Distance(s)
  {
  }

  /** However the system schedules its own steps, from any state it reaches with a transaction in the
      mempool, BuildBlock is called after at most Distance more. */
  lemma {:induction false} BlockComes(cap: nat, states: seq<Sys>, steps: seq<Step>)
    requires cap >= 1 && |states| == |steps| + 1 && Inv(cap, states[0]) && states[0].mempool > 0
      && states[0].build.Idle?
    requires forall i :: 0 <= i < |steps| ==>
      Internal(steps[i]) && !steps[i].Start? && Next(cap, true, states[i], steps[i], states[i + 1])
    ensures |steps| <= Distance(states[0])
    ensures var last := states[|steps|];
      Next(cap, true, last, Move(last), After(cap, last, Move(last)))
    ensures |steps| == Distance(states[0]) ==> Move(states[|steps|]).Start?
    decreases |steps|
  {
    if |steps| == 0 {
      CanMove(cap, states[0]);
    } else {
      StepKeepsInv(cap, true, states[0], steps[0], states[1]);
      ComesCloser(cap, states[0], steps[0], states[1]);
      BlockComes(cap, states[1..], steps[1..]);
    }
  }

  // ---------- Without anything to run the timer, it need not ----------

  /** Transactions wait for the timer alone. */
  predicate Stuck(s: Sys) {
    s.builder.status.MayBuild? && s.builder.toEngine == 0 && s.owed == 0 && s.build.Idle? && !s.firing
  }

  /** Add a transaction, build a block while another is added, and the node waits for the timer. */
  lemma CanGetStuck(cap: nat) returns (states: seq<Sys>, steps: seq<Step>)
    requires cap >= 1
    ensures Run(cap, false, states, steps)
    ensures Stuck(states[|steps|]) && states[|steps|].mempool > 0 && !TokenAround(states[|steps|])
  {
    var b0, b1 := Builder(DontBuild, 0, false), Builder(Building, 1, false);
    var b2, b3 := Builder(Building, 0, false), Builder(MayBuild, 0, true);
    states := [INITIAL,
      Sys(1, true, false, b0, false, 0, Idle),
      Sys(1, false, true, b0, false, 0, Idle),
      Sys(1, false, false, b1, false, 0, Idle),
      Sys(1, false, false, b2, false, 1, Idle),
      Sys(1, false, false, b2, false, 0, Filling),
      Sys(1, false, false, b2, false, 0, Checked(true)),
      Sys(1, false, false, b3, false, 0, Idle)];
    steps := [Add, Receive, Signal, Take, Start, Check, Finish];
  }

  /** From then on no transaction that is added, and nothing else that happens, makes the engine build. */
  lemma {:induction false} StaysStuck(cap: nat, states: seq<Sys>, steps: seq<Step>, n: nat)
    requires |states| == |steps| + 1 && n < |states| && Stuck(states[0])
    requires forall i :: 0 <= i < |steps| ==> Next(cap, false, states[i], steps[i], states[i + 1])
    ensures Stuck(states[n]) && (n > 0 ==> !steps[n - 1].Start?)
  {
    if n > 0 {
      StaysStuck(cap, states, steps, n - 1);
      assert Next(cap, false, states[n - 1], steps[n - 1], states[n]);
    }
  }
}
