/**
 The commit gate under a hook: threads that prepare, decide, approve, fail, cancel and commit
 one transaction in any order, with the store's atomic transitions between them.
 */
module HookGate {
  import opened Types

  datatype Scope = ReviewRequired | AllRequests

  datatype Approver = Independent | Handler

  /** The stored state of the transaction. `Taken` is reserved or anything that follows. */
  datatype Record =
    | Absent | AutoApproved | PendingApproval | Approved(grantor: Approver) | Rejected | Expired | Taken

  predicate AppliesTo(scope: Scope, r: Record) {
    match scope
    case ReviewRequired => r == PendingApproval
    case AllRequests => r == AutoApproved || r == PendingApproval
  }

  datatype Decision = FollowPolicy | Approve | Review | Reject

  /** What was frozen before the handler ran: nothing to review, or one exact event. */
  datatype Preparation = Ready(state: Record) | Event(state: Record, evidence: Digest)

  /** The transaction's fixed surroundings: the hook, the evidence it gets, and whether that is complete. */
  datatype Gate = Gate(scope: Option<Scope>, evidence: Record -> Digest, complete: bool) {
    predicate InScope(r: Record) {
      scope.Some? && AppliesTo(scope.value, r)
    }
  }

  /** Why a thread believes that it may commit. */
  datatype Ground =
    /** No hook, or the state was outside its scope when the commit was asked for. */
    | Direct(seen: Record)
    /** The handler, or the absence of one, left the decision to policy. */
    | Followed(prepared: Preparation)
    /** The handler approved complete evidence. */
    | Verdict

  datatype Thread =
    | Idle
    /** A decision whose preparation was just checked against the store. */
    | Checked(prepared: Preparation, decision: Decision)
    /** An approval about to be recorded in the store. */
    | Granting
    | Committing(ground: Ground)

  datatype Reservation = Reservation(from: Record, ground: Ground)

  datatype System = System(record: Record, threads: map<nat, Thread>, reservations: seq<Reservation>)

  /** One atomic action; what it does depends on the store at that very moment. */
  datatype Action =
    | Persist
    | CommitDirectly(thread: nat)
    | Check(thread: nat, prepared: Preparation, decision: Decision)
    | Decide(thread: nat)
    | Grant(thread: nat)
    | Reserve(thread: nat, expired: bool)
    | ApproveIndependently
    | FailHook(prepared: Preparation)
    | DiscardCancelled
    | Abandon(thread: nat)

  function ThreadOf(s: System, t: nat): Thread {
    if t in s.threads then s.threads[t] else Idle
  }

  function Becomes(s: System, t: nat, next: Thread): System {
    s.(threads := s.threads[t := next])
  }

  /** Withdraw an automatic approval, if it is still there. */
  function Lower(s: System): System {
    if s.record == AutoApproved then s.(record := PendingApproval) else s
  }

  /** May this decision go ahead on this preparation, given the state the store is in now? */
  predicate Accepts(g: Gate, r: Record, p: Preparation, d: Decision) {
    && p.state == r
    && match p
       case Ready(_) => !g.InScope(p.state) && d == FollowPolicy
       case Event(_, evidence) => g.scope.Some? && evidence == g.evidence(p.state)
  }

  /** Carry out a checked decision. The store may have moved on since the check. */
  function Carry(g: Gate, s: System, t: nat, p: Preparation, d: Decision): System {
    match d
    case FollowPolicy =>
      if p.state == AutoApproved || p.state.Approved? then Becomes(s, t, Committing(Followed(p))) else Becomes(s, t, Idle)
    case Approve =>
      if !p.Event? || !g.complete then Becomes(s, t, Idle)
      else if p.state == PendingApproval then Becomes(s, t, Granting)
      else if p.state == AutoApproved then Becomes(s, t, Committing(Verdict))
      else Becomes(s, t, Idle)
    case Review =>
      Becomes(if p.state == AutoApproved then Lower(s) else s, t, Idle)
    case Reject =>
      if (p.state == AutoApproved || p.state == PendingApproval) && s.record == p.state then
        Becomes(s.(record := Rejected), t, Idle)
      else Becomes(s, t, Idle)
  }

  /** The store admits a reservation only from an approved state, and leaves that state for good. */
  function Take(s: System, t: nat, ground: Ground, expired: bool): System {
    if s.record == AutoApproved || (s.record.Approved? && !expired) then
      Becomes(s.(record := Taken, reservations := s.reservations + [Reservation(s.record, ground)]), t, Idle)
    else if s.record.Approved? then Becomes(s.(record := Expired), t, Idle)
    else Becomes(s, t, Idle)
  }

  function Next(g: Gate, s: System, a: Action): System {
    match a
    case Persist => if s.record == Absent then s.(record := AutoApproved) else s
    case CommitDirectly(t) =>
      if ThreadOf(s, t) != Idle || s.record == Absent || g.InScope(s.record) then s
      else Becomes(s, t, Committing(Direct(s.record)))
    case Check(t, p, d) =>
      if ThreadOf(s, t) == Idle && s.record != Absent && Accepts(g, s.record, p, d) then Becomes(s, t, Checked(p, d)) else s
    case Decide(t) =>
      (match ThreadOf(s, t)
       case Checked(p, d) => Carry(g, s, t, p, d)
       case _ => s)
    case Grant(t) =>
      if ThreadOf(s, t) != Granting then s
      else if s.record == PendingApproval then Becomes(s.(record := Approved(Handler)), t, Committing(Verdict))
      else Becomes(s, t, Idle)
    case Reserve(t, expired) =>
      (match ThreadOf(s, t)
       case Committing(ground) => Take(s, t, ground, expired)
       case _ => s)
    case ApproveIndependently => if s.record == PendingApproval then s.(record := Approved(Independent)) else s
    case FailHook(p) => if p.state == AutoApproved then Lower(s) else s
    case DiscardCancelled => Lower(s)
    case Abandon(t) => Becomes(s, t, Idle)
  }

  predicate Initial(s: System) {
    && s.record in {Absent, AutoApproved, PendingApproval}
    && (forall t :: t in s.threads ==> s.threads[t] == Idle) && s.reservations == []
  }

  ghost predicate Run(g: Gate, states: seq<System>, actions: seq<Action>) {
    && |states| == |actions| + 1 && Initial(states[0])
    && forall i :: 0 <= i < |actions| ==> states[i + 1] == Next(g, states[i], actions[i])
  }

  /** A reservation the gate should have let through. */
  predicate Lawful(g: Gate, r: Reservation) {
    match r.from
    case Approved(Independent) => true
    case Approved(Handler) => g.complete
    case AutoApproved =>
      g.scope == Some(AllRequests) ==>
        (match r.ground
         case Direct(_) => false
         case Followed(p) => p.Event? && p.state == AutoApproved && p.evidence == g.evidence(AutoApproved)
         case Verdict => g.complete)
    case _ => false
  }

  /** What holds after any number of actions, by any threads, in any order. */
  ghost predicate Safe(g: Gate, s: System) {
    && |s.reservations| <= 1
    && (forall r :: r in s.reservations ==> Lawful(g, r))
  }

  /** A rejection of the state that was prepared, while the store is still in it. */
  predicate Rejects(s: System, a: Action) {
    && a.Decide? && a.thread in s.threads
    && match s.threads[a.thread]
       case Checked(p, Reject) => p.state == s.record && (s.record == AutoApproved || s.record == PendingApproval)
       case _ => false
  }

  /** A review of, a failing hook on, or the cancellation of an automatic approval. */
  predicate Lowers(s: System, a: Action) {
    && s.record == AutoApproved
    && match a
       case Decide(t) =>
         t in s.threads && s.threads[t].Checked? && s.threads[t].decision == Review && s.threads[t].prepared.state == AutoApproved
       case FailHook(p) => p.state == AutoApproved
       case DiscardCancelled => true
       case _ => false
  }

  // --------------------------------------------------------------- invariant

  /** A committing thread's ground is sound, as far as it still can be used. */
  predicate Sound(g: Gate, r: Record, t: Thread) {
    match t
    case Committing(Direct(seen)) => seen != Absent && !g.InScope(seen) && (r == AutoApproved ==> seen == AutoApproved)
    case Committing(Followed(p)) => Accepted(g, r, p)
    case Committing(Verdict) => g.complete
    case Granting => g.complete
    case Checked(p, d) => Accepted(g, r, p) && (p.Ready? ==> d == FollowPolicy)
    case Idle => true
  }

  /** The preparation was acceptable when it was checked; a still automatic approval proves it current. */
  predicate Accepted(g: Gate, r: Record, p: Preparation) {
    && p.state != Absent
    && (r == AutoApproved ==> p.state == AutoApproved)
    && (p.Ready? ==> !g.InScope(p.state))
    && (p.Event? ==> p.evidence == g.evidence(p.state))
  }

  ghost predicate Inv(g: Gate, s: System) {
    && Safe(g, s)
    && (forall t :: t in s.threads ==> Sound(g, s.record, s.threads[t]))
    && (s.record == Absent ==> forall t :: t in s.threads ==> s.threads[t] == Idle)
    && (s.reservations != [] <==> s.record == Taken)
    && (s.record == Approved(Handler) ==> g.complete)
  }

  /** Leaving the automatic approval can only weaken what threads still claim. */
  lemma SoundAfter(g: Gate, s: System, r: Record)
    requires forall t :: t in s.threads ==> Sound(g, s.record, s.threads[t])
    requires r != AutoApproved || s.record == AutoApproved
    ensures forall t :: t in s.threads ==> Sound(g, r, s.threads[t])
  {
  }

  lemma DecideKeeps(g: Gate, s: System, t: nat)
    requires Inv(g, s) && ThreadOf(s, t).Checked?
    ensures Inv(g, Next(g, s, Decide(t)))
  {
    assert Sound(g, s.record, s.threads[t]);
    match s.threads[t].decision
    case FollowPolicy =>
    case Approve =>
    case Review => SoundAfter(g, s, PendingApproval);
    case Reject => SoundAfter(g, s, Rejected);
  }

  lemma ReserveKeeps(g: Gate, s: System, t: nat, expired: bool)
    requires Inv(g, s) && ThreadOf(s, t).Committing?
    ensures Inv(g, Next(g, s, Reserve(t, expired)))
  {
    assert Sound(g, s.record, Idle) && Sound(g, Taken, Idle) && Sound(g, Expired, Idle);
    SoundAfter(g, s, Taken);
    SoundAfter(g, s, Expired);
    assert Sound(g, s.record, s.threads[t]);
    hide Sound;
  }

  /** Every action keeps the invariant. */
  lemma StepKeeps(g: Gate, s: System, a: Action)
    requires Inv(g, s)
    ensures Inv(g, Next(g, s, a))
  {
    match a
    case Decide(t) => if ThreadOf(s, t).Checked? { DecideKeeps(g, s, t); }
    case Reserve(t, expired) => if ThreadOf(s, t).Committing? { ReserveKeeps(g, s, t, expired); }
    case Grant(t) => SoundAfter(g, s, Approved(Handler));
    case ApproveIndependently => SoundAfter(g, s, Approved(Independent));
    case FailHook(_) => SoundAfter(g, s, PendingApproval);
    case DiscardCancelled => SoundAfter(g, s, PendingApproval);
    case _ =>
  }

  lemma {:induction false} RunKeeps(g: Gate, states: seq<System>, actions: seq<Action>, i: nat)
    requires Run(g, states, actions) && i < |states|
    ensures Inv(g, states[i])
  {
    if i > 0 {
      RunKeeps(g, states, actions, i - 1);
      StepKeeps(g, states[i - 1], actions[i - 1]);
    }
  }

  /**
   Over all runs: at most one reservation; from a state in the hook's scope only after the
   handler's approval of complete evidence, its consent to follow policy on the exact event, or
   an independent approval; none ever after an action that rejects; and after one that withdraws
   the automatic approval only from an explicit approval.
   */
  lemma EveryRunIsSafe(g: Gate, states: seq<System>, actions: seq<Action>, i: nat)
    requires Run(g, states, actions) && i < |states|
    ensures Safe(g, states[i])
    ensures forall k :: 0 <= k < i && Rejects(states[k], actions[k]) ==> states[i].record == Rejected && states[i].reservations == []
    ensures forall k :: 0 <= k < i && Lowers(states[k], actions[k]) ==>
                          states[k + 1].record == PendingApproval && forall r :: r in states[i].reservations ==> r.from.Approved?
  {
    RunKeeps(g, states, actions, i);
    forall k | 0 <= k < i && Rejects(states[k], actions[k])
      ensures states[i].record == Rejected && states[i].reservations == []
    {
      RejectionStays(g, states, actions, k, i);
    }
    forall k | 0 <= k < i && Lowers(states[k], actions[k])
      ensures states[k + 1].record == PendingApproval && forall r :: r in states[i].reservations ==> r.from.Approved?
    {
      LoweringStays(g, states, actions, k, i);
    }
  }

  /** Once an action rejects, the record is Rejected and nothing is reserved, for the rest of the run. */
  lemma RejectionStays(g: Gate, states: seq<System>, actions: seq<Action>, i: nat, j: nat)
    requires Run(g, states, actions) && i < j < |states| && Rejects(states[i], actions[i])
    ensures states[j].record == Rejected && states[j].reservations == states[i].reservations == []
  {
    RunKeeps(g, states, actions, i);
    assert states[i + 1] == Next(g, states[i], actions[i]);
    FinalStatesStay(g, states, actions, i + 1, j);
  }

  /** The automatic approval is gone, and nothing was reserved from it. */
  ghost predicate Withdrawn(s: System) {
    s.record != Absent && s.record != AutoApproved && forall r :: r in s.reservations ==> r.from.Approved?
  }

  lemma StepWithdrawn(g: Gate, s: System, a: Action)
    requires Withdrawn(s)
    ensures Withdrawn(Next(g, s, a))
  {
  }

  lemma {:induction false} LoweringStays(g: Gate, states: seq<System>, actions: seq<Action>, i: nat, j: nat)
    requires Run(g, states, actions) && i < j < |states| && Lowers(states[i], actions[i])
    ensures states[i + 1].record == PendingApproval && Withdrawn(states[j])
  {
    if j == i + 1 {
      RunKeeps(g, states, actions, i);
      assert states[i + 1] == Next(g, states[i], actions[i]);
    } else {
      LoweringStays(g, states, actions, i, j - 1);
      assert states[j] == Next(g, states[j - 1], actions[j - 1]);
      StepWithdrawn(g, states[j - 1], actions[j - 1]);
    }
  }

  /** The moves of the stored state, whoever makes them. */
  predicate Moves(from: Record, to: Record) {
    || from == to
    || (from == Absent && to == AutoApproved)
    || (from == AutoApproved && to in {PendingApproval, Rejected, Taken})
    || (from == PendingApproval && (to.Approved? || to == Rejected))
    || (from.Approved? && to in {Expired, Taken})
  }

  /** An action moves the stored state by one of these moves, and reserves only by taking the transaction. */
  lemma ActionsMove(g: Gate, s: System, a: Action)
    ensures var s' := Next(g, s, a);
            && Moves(s.record, s'.record)
            && (if s'.record == Taken && s.record != Taken then |s'.reservations| == |s.reservations| + 1
                else s'.reservations == s.reservations)
  {
    hide Accepts, Gate.InScope;
  }

  /** The thread that acts, if a thread does. */
  function Actor(a: Action): Option<nat> {
    match a
    case CommitDirectly(t) => Some(t)
    case Check(t, _, _) => Some(t)
    case Decide(t) => Some(t)
    case Grant(t) => Some(t)
    case Reserve(t, _) => Some(t)
    case Abandon(t) => Some(t)
    case _ => None
  }

  /** It touches no other thread; one that abandons is idle, and so is one whose commit was admitted or refused. */
  lemma ActionsAreNarrow(g: Gate, s: System, a: Action)
    ensures var s' := Next(g, s, a);
            && (forall t: nat :: Actor(a) != Some(t) ==> ThreadOf(s', t) == ThreadOf(s, t))
            && (a.Abandon? ==> ThreadOf(s', a.thread) == Idle && s'.record == s.record)
            && (a.Reserve? && ThreadOf(s, a.thread).Committing? ==> ThreadOf(s', a.thread) == Idle)
  {
    hide Accepts, Gate.InScope;
  }

  /** A rejected or reserved transaction stays what it is, whatever threads still attempt. */
  lemma {:induction false} FinalStatesStay(g: Gate, states: seq<System>, actions: seq<Action>, i: nat, j: nat)
    requires Run(g, states, actions) && i <= j < |states|
    requires states[i].record in {Rejected, Taken}
    ensures states[j].record == states[i].record && states[j].reservations == states[i].reservations
  {
    if i < j {
      FinalStatesStay(g, states, actions, i, j - 1);
      StepFinal(g, states[j - 1], actions[j - 1]);
    }
  }

  lemma StepFinal(g: Gate, s: System, a: Action)
    requires s.record in {Rejected, Taken}
    ensures Next(g, s, a).record == s.record && Next(g, s, a).reservations == s.reservations
  {
  }

  // ------------------------------------------------------ one caller at a time

  /** The state after these actions. */
  function Perform(g: Gate, s: System, actions: seq<Action>): System {
    if actions == [] then s else Next(g, Perform(g, s, actions[..|actions| - 1]), actions[|actions| - 1])
  }

  lemma PerformThree(g: Gate, s: System, a: Action, b: Action, c: Action)
    ensures Perform(g, s, [a, b, c]) == Next(g, Next(g, Next(g, s, a), b), c)
  {
    assert [a, b, c][..2] == [a, b] && [a, b][..1] == [a] && [a][..0] == [];
    assert Perform(g, s, [a]) == Next(g, s, a);
    assert Perform(g, s, [a, b]) == Next(g, Next(g, s, a), b);
  }

  lemma PerformFour(g: Gate, s: System, a: Action, b: Action, c: Action, d: Action)
    ensures Perform(g, s, [a, b, c, d]) == Next(g, Next(g, Next(g, Next(g, s, a), b), c), d)
  {
    assert [a, b, c, d][..3] == [a, b, c];
    PerformThree(g, s, a, b, c);
  }

  lemma {:induction false} PerformTwice(g: Gate, s: System, x: seq<Action>, y: seq<Action>)
    ensures Perform(g, s, x + y) == Perform(g, Perform(g, s, x), y)
  {
    if y == [] {
      assert x + y == x;
    } else {
      assert (x + y)[..|x + y| - 1] == x + y[..|y| - 1];
      PerformTwice(g, s, x, y[..|y| - 1]);
    }
  }

  /** Performing actions is a run; so what holds of every run holds of it. */
  lemma {:induction false} PerformIsRun(g: Gate, s: System, actions: seq<Action>) returns (states: seq<System>)
    requires Initial(s)
    ensures Run(g, states, actions) && states[0] == s && states[|actions|] == Perform(g, s, actions)
  {
    if actions == [] {
      states := [s];
    } else {
      var init := PerformIsRun(g, s, actions[..|actions| - 1]);
      states := init + [Perform(g, s, actions)];
      forall i | 0 <= i < |actions|
        ensures states[i + 1] == Next(g, states[i], actions[i])
      {
        assert i < |actions| - 1 ==> actions[..|actions| - 1][i] == actions[i];
      }
    }
  }

  lemma PerformIsSafe(g: Gate, s: System, actions: seq<Action>)
    requires Initial(s)
    ensures Safe(g, Perform(g, s, actions))
  {
    var states := PerformIsRun(g, s, actions);
    EveryRunIsSafe(g, states, actions, |actions|);
  }

  /** What a caller does to commit without a handler, and to resolve a decision. */
  function Directly(expired: bool): seq<Action> {
    [Persist, CommitDirectly(0), Reserve(0, expired)]
  }

  function Resolving(p: Preparation, d: Decision, expired: bool): seq<Action> {
    [Check(0, p, d), Decide(0), Grant(0), Reserve(0, expired)]
  }

  /** What resolving a decision comes to, for a caller that is alone. */
  lemma ResolvingSteps(g: Gate, s: System, p: Preparation, d: Decision, expired: bool)
    requires s.threads == map[0 := Idle]
    ensures var after := Perform(g, s, Resolving(p, d, expired));
            if s.record == Absent || !Accepts(g, s.record, p, d) then after == s
            else match d
              case FollowPolicy =>
                after == if s.record == AutoApproved || s.record.Approved? then Take(s, 0, Followed(p), expired) else s
              case Approve =>
                after == if !g.complete then s
                         else if s.record == PendingApproval then Take(s.(record := Approved(Handler)), 0, Verdict, expired)
                         else if s.record == AutoApproved then Take(s, 0, Verdict, expired)
                         else s
              case Review => after == if s.record == AutoApproved then s.(record := PendingApproval) else s
              case Reject =>
                after == if s.record == AutoApproved || s.record == PendingApproval then s.(record := Rejected) else s
  {
    hide Accepts;
    PerformFour(g, s, Check(0, p, d), Decide(0), Grant(0), Reserve(0, expired));
    var checked := Next(g, s, Check(0, p, d));
    assert checked == if s.record != Absent && Accepts(g, s.record, p, d) then Becomes(s, 0, Checked(p, d)) else s;
    assert s.threads[0 := Idle] == s.threads;
    if Accepts(g, s.record, p, d) {
      AcceptedState(g, s.record, p, d);
    }
  }

  lemma AcceptedState(g: Gate, r: Record, p: Preparation, d: Decision)
    requires Accepts(g, r, p, d)
    ensures p.state == r && (p.Ready? ==> d == FollowPolicy)
  {
  }

  /** Asking the handler: a decision is resolved, a failure reported. */
  function Asking(p: Preparation, d: Option<Decision>, expired: bool): seq<Action> {
    if d.Some? then Resolving(p, d.value, expired) else [FailHook(p)]
  }

  datatype Resolution =
    | Committed
    | Settled(state: Record)
    | HookRequired
    | StateChanged
    | UnexpectedDecision
    | ConfigurationChanged
    | EventMismatch
    | IncompleteEvidence
    | NotActionable
    | NotReserved

  /** The runtime's operations, each run to its end: what one does is what its actions do. */
  class Runtime {
    const gate: Gate
    var record: Record
    var reservations: seq<Reservation>

    /** The handler only ever approved complete evidence. */
    ghost predicate Valid()
      reads this
    {
      record == Approved(Handler) ==> gate.complete
    }

    /** The store as the system sees it, with one idle caller. */
    ghost function Now(): System
      reads this
    {
      System(record, map[0 := Idle], reservations)
    }

    constructor (gate: Gate, record: Record)
      requires record == Approved(Handler) ==> gate.complete
      ensures Valid()
      ensures this.gate == gate && this.record == record && reservations == []
    {
      this.gate, this.record, reservations := gate, record, [];
    }

    method PrepareCommit() returns (p: Preparation)
      modifies this`record
      ensures Now() == Next(gate, old(Now()), Persist)
      ensures record == if old(record) == Absent then AutoApproved else old(record)
      ensures p == if gate.InScope(record) then Event(record, gate.evidence(record)) else Ready(record)
      ensures p.Event? <==>
                && gate.scope.Some?
                && (record == PendingApproval || (record == AutoApproved && gate.scope.value == AllRequests))
    {
      if record == Absent {
        record := AutoApproved;
      }
      if gate.scope.Some? && AppliesTo(gate.scope.value, record) {
        return Event(record, gate.evidence(record));
      }
      return Ready(record);
    }

    /** The store's one-time admission. */
    method CommitExact(ground: Ground, expired: bool) returns (r: Resolution)
      modifies this
      ensures r.Committed? <==> old(record) == AutoApproved || (old(record).Approved? && !expired)
      ensures r.Committed? ==> record == Taken && reservations == old(reservations) + [Reservation(old(record), ground)]
      ensures !r.Committed? ==> r == NotReserved && reservations == old(reservations)
      ensures !r.Committed? ==> record == if old(record).Approved? then Expired else old(record)
    {
      if record == AutoApproved || (record.Approved? && !expired) {
        reservations := reservations + [Reservation(record, ground)];
        record := Taken;
        return Committed;
      }
      if record.Approved? {
        record := Expired;
      }
      return NotReserved;
    }

    method Commit(expired: bool) returns (r: Resolution)
      modifies this
      ensures Now() == Perform(gate, old(Now()), Directly(expired))
      ensures var before := if old(record) == Absent then AutoApproved else old(record);
              && (r == HookRequired <==> gate.InScope(before))
              && (r == Committed <==> !gate.InScope(before) && (before == AutoApproved || (before.Approved? && !expired)))
              && (r == HookRequired || r == Committed || r == NotReserved)
              && (r == HookRequired ==> record == before && reservations == old(reservations))
    {
      PerformThree(gate, Now(), Persist, CommitDirectly(0), Reserve(0, expired));
      var p := PrepareCommit();
      if p.Event? {
        return HookRequired;
      }
      r := CommitExact(Direct(p.state), expired);
    }

    /** The preparation must still describe the store, and the event must be the very one. */
    method ValidatePreparation(p: Preparation, d: Decision) returns (error: Option<Resolution>)
      ensures error.None? <==> Accepts(gate, record, p, d)
      ensures error.Some? ==> error.value in {StateChanged, HookRequired, UnexpectedDecision, ConfigurationChanged, EventMismatch}
      ensures error == Some(StateChanged) <==> p.state != record
      ensures error == Some(HookRequired) <==> p.state == record && p.Ready? && gate.InScope(record)
      ensures error == Some(UnexpectedDecision) <==> p.state == record && p.Ready? && !gate.InScope(record) && d != FollowPolicy
      ensures error == Some(ConfigurationChanged) <==> p.state == record && p.Event? && gate.scope.None?
    {
      if record != p.state {
        return Some(StateChanged);
      }
      match p
      case Ready(_) =>
        if gate.scope.Some? && AppliesTo(gate.scope.value, p.state) {
          return Some(HookRequired);
        }
        return if d != FollowPolicy then Some(UnexpectedDecision) else None;
      case Event(_, evidence) =>
        if gate.scope.None? {
          return Some(ConfigurationChanged);
        }
        return if evidence != gate.evidence(p.state) then Some(EventMismatch) else None;
    }

    /** Apply one decision to the exact preparation it was made on. */
    method ResolveCommit(p: Preparation, d: Decision, expired: bool) returns (r: Resolution)
      requires Valid()
      modifies this
      ensures Valid()
      ensures Now() == Perform(gate, old(Now()), Resolving(p, d, expired))
      ensures !Accepts(gate, old(record), p, d) ==>
                && record == old(record) && reservations == old(reservations)
                && r in {StateChanged, HookRequired, UnexpectedDecision, ConfigurationChanged, EventMismatch}
      ensures Accepts(gate, old(record), p, d) ==>
                match d
                case FollowPolicy =>
                  if old(record) == AutoApproved || (old(record).Approved? && !expired) then Reserved(r, old(record), old(reservations), Followed(p))
                  else if old(record).Approved? then Ends(r, NotReserved, Expired, old(reservations))
                  else if old(record) == PendingApproval then Ends(r, Settled(PendingApproval), PendingApproval, old(reservations))
                  else Ends(r, NotActionable, old(record), old(reservations))
                case Approve =>
                  if !gate.complete then Ends(r, IncompleteEvidence, old(record), old(reservations))
                  else if old(record) == AutoApproved then Reserved(r, AutoApproved, old(reservations), Verdict)
                  else if old(record) != PendingApproval then Ends(r, NotActionable, old(record), old(reservations))
                  else if !expired then Reserved(r, Approved(Handler), old(reservations), Verdict)
                  else Ends(r, NotReserved, Expired, old(reservations))
                case Review =>
                  if old(record) == AutoApproved || old(record) == PendingApproval then
                    Ends(r, Settled(PendingApproval), PendingApproval, old(reservations))
                  else Ends(r, NotActionable, old(record), old(reservations))
                case Reject =>
                  if old(record) == AutoApproved || old(record) == PendingApproval then
                    Ends(r, Settled(Rejected), Rejected, old(reservations))
                  else Ends(r, NotActionable, old(record), old(reservations))
    {
      hide Perform;
      ResolvingSteps(gate, Now(), p, d, expired);
      var error := ValidatePreparation(p, d);
      if error.Some? {
        return error.value;
      }
      match d
      case FollowPolicy =>
        if p.state == AutoApproved || p.state.Approved? {
          r := CommitExact(Followed(p), expired);
        } else if p.state == PendingApproval {
          r := Settled(PendingApproval);
        } else {
          r := NotActionable;
        }
      case Approve =>
        if !gate.complete {
          return IncompleteEvidence;
        }
        if p.state == PendingApproval {
          record := Approved(Handler);
        } else if p.state != AutoApproved {
          return NotActionable;
        }
        r := CommitExact(Verdict, expired);
      case Review =>
        if p.state == AutoApproved {
          record := PendingApproval;
        } else if p.state != PendingApproval {
          return NotActionable;
        }
        r := Settled(PendingApproval);
      case Reject =>
        if p.state != AutoApproved && p.state != PendingApproval {
          return NotActionable;
        }
        record := Rejected;
        r := Settled(Rejected);
    }

    /** The answer, the record it leaves, and the reservations it leaves. */
    ghost predicate Ends(r: Resolution, answer: Resolution, left: Record, kept: seq<Reservation>)
      reads this
    {
      r == answer && record == left && reservations == kept
    }

    ghost predicate Reserved(r: Resolution, from: Record, before: seq<Reservation>, ground: Ground)
      reads this
    {
      Ends(r, Committed, Taken, before + [Reservation(from, ground)])
    }

    /** A handler that failed withdraws the automatic approval it was asked about. */
    method FailHook(p: Preparation)
      modifies this`record
      ensures Now() == Next(gate, old(Now()), Action.FailHook(p))
      ensures record == if p.state == AutoApproved && old(record) == AutoApproved then PendingApproval else old(record)
    {
      if p.state == AutoApproved && record == AutoApproved {
        record := PendingApproval;
      }
    }

    /** An approval of the pending transaction by somebody else than the handler. */
    method ApproveIndependently() returns (ok: bool)
      modifies this`record
      ensures Now() == Next(gate, old(Now()), Action.ApproveIndependently)
      ensures ok <==> old(record) == PendingApproval
      ensures record == if ok then Approved(Independent) else old(record)
    {
      ok := record == PendingApproval;
      if ok {
        record := Approved(Independent);
      }
    }

    /** A cancelled call gives up its automatic approval. */
    method DiscardCancelled()
      modifies this`record
      ensures Now() == Next(gate, old(Now()), Action.DiscardCancelled)
      ensures record == if old(record) == AutoApproved then PendingApproval else old(record)
    {
      if record == AutoApproved {
        record := PendingApproval;
      }
    }

    /** Prepare, ask the handler, resolve; a failing handler fails closed. */
    method CommitThroughHandler(handler: Preparation -> Option<Decision>, expired: bool) returns (r: Option<Resolution>)
      requires Valid()
      modifies this
      ensures Valid()
      ensures var before := if old(record) == Absent then AutoApproved else old(record);
              var event := Event(before, gate.evidence(before));
              if gate.InScope(before) then
                && Now() == Perform(gate, old(Now()), [Persist] + Asking(event, handler(event), expired))
                && (r.None? <==> handler(event).None?)
                && (r == Some(Committed) ==>
                      handler(event) == Some(Approve) || (handler(event) == Some(FollowPolicy) && before == AutoApproved))
              else
                && Now() == Perform(gate, old(Now()), [Persist] + Resolving(Ready(before), FollowPolicy, expired))
                && r.Some?
      ensures r.None? ==> record != AutoApproved && reservations == old(reservations)
    {
      ghost var start := Now();
      var p := PrepareCommit();
      assert Perform(gate, start, [Persist]) == Now() by {
        assert [Persist][..0] == [];
      }
      var decision := Some(FollowPolicy);
      if p.Event? {
        decision := handler(p);
      }
      PerformTwice(gate, start, [Persist], Asking(p, decision, expired));
      if decision.None? {
        assert [Action.FailHook(p)][..0] == [];
        FailHook(p);
        return None;
      }
      var resolution := ResolveCommit(p, decision.value, expired);
      return Some(resolution);
    }
  }
}
