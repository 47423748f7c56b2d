/**
 The Bash session: host and worker in lockstep over two FIFO channels, and the pool that
 reuses workers between sessions.
 */
module Session {
  import opened Types

  /** A reply carries, for the proof, the request that the host dispatched to make it. */
  datatype Message =
    | Hello
    | Run
    | Call(request: nat)
    | Reply(dispatched: nat)
    | Done
    | Ready
    | Shutdown

  datatype Frame = Frame(session: nat, sequence: nat, message: Message)

  /** `last` is the latest session this worker was given. `Failed` workers are never reused. */
  datatype Host =
    | Spawning
    | Pooled(last: nat)
    | Executing(session: nat, sequence: nat)
    | Finishing(session: nat, sequence: nat)
    | Failed

  datatype Guest =
    | Booting
    | Waiting(last: nat)
    | Running(session: nat, sequence: nat)
    | Asking(session: nat, sequence: nat, request: nat)
    | Reporting(session: nat, sequence: nat)
    | Broken
    | Exited

  /** A frame that one side took for what it was waiting for. */
  datatype Accepted =
    | ByGuest(frame: Frame, session: nat, sequence: nat, request: Option<nat>)
    | ByHost(frame: Frame, session: nat, sequence: nat)

  datatype System = System(host: Host, guest: Guest, toGuest: seq<Frame>, toHost: seq<Frame>, accepted: seq<Accepted>)

  datatype Action =
    /** The host starts a session with a number no worker had before. */
    | Start(session: nat)
    | HostReceives
    /** A deadline, a cancellation, a limit or a filesystem fault: terminal for the worker. */
    | HostGivesUp
    | HostShutsDown
    | GuestBoots
    | GuestReceives
    | GuestAsks(request: nat)
    | GuestReports
    | GuestConfirms

  function HostTakes(s: System, f: Frame): System
    requires s.toHost != []
  {
    var s := s.(toHost := s.toHost[1..]);
    match s.host
    case Spawning =>
      if f == Frame(0, 0, Hello) then s.(host := Pooled(0)) else s.(host := Failed)
    case Executing(session, sequence) =>
      if f.session != session || f.sequence != sequence then s.(host := Failed)
      else
        var s := s.(accepted := s.accepted + [ByHost(f, session, sequence)]);
        (match f.message
         case Call(request) =>
           s.(host := Executing(session, sequence + 1),
              toGuest := s.toGuest + [Frame(session, sequence, Reply(request))])
         case Done => s.(host := Finishing(session, sequence))
         case _ => s.(host := Failed))
    case Finishing(session, sequence) =>
      if f == Frame(session, sequence, Ready) then
        s.(host := Pooled(session), accepted := s.accepted + [ByHost(f, session, sequence)])
      else s.(host := Failed)
    case _ => s
  }

  function GuestTakes(s: System, f: Frame): System
    requires s.toGuest != []
  {
    var s := s.(toGuest := s.toGuest[1..]);
    match s.guest
    case Waiting(last) =>
      if f == Frame(0, 0, Shutdown) then s.(guest := Exited)
      else if f.session <= last || f.sequence != 0 || f.message != Run then s.(guest := Broken)
      else s.(guest := Running(f.session, 1), accepted := s.accepted + [ByGuest(f, f.session, 0, None)])
    case Asking(session, sequence, request) =>
      if f.session != session || f.sequence != sequence || !f.message.Reply? then s.(guest := Broken)
      else s.(guest := Running(session, sequence + 1),
              accepted := s.accepted + [ByGuest(f, session, sequence, Some(request))])
    case _ => s
  }

  function GuestSends(s: System, f: Frame, next: Guest): System {
    s.(toHost := s.toHost + [f], guest := next)
  }

  function Next(s: System, a: Action): System {
    match a
    case Start(session) =>
      if s.host.Pooled? && session > s.host.last then
        s.(host := Executing(session, 1), toGuest := s.toGuest + [Frame(session, 0, Run)])
      else s
    case HostReceives => if s.toHost == [] || s.host.Pooled? || s.host.Failed? then s else HostTakes(s, s.toHost[0])
    case HostGivesUp => s.(host := Failed)
    case HostShutsDown =>
      if s.host.Pooled? then s.(host := Failed, toGuest := s.toGuest + [Frame(0, 0, Shutdown)]) else s
    case GuestBoots => if s.guest == Booting then GuestSends(s, Frame(0, 0, Hello), Waiting(0)) else s
    case GuestReceives =>
      if s.toGuest == [] || !(s.guest.Waiting? || s.guest.Asking?) then s else GuestTakes(s, s.toGuest[0])
    case GuestAsks(request) =>
      if s.guest.Running? then
        GuestSends(s, Frame(s.guest.session, s.guest.sequence, Call(request)),
                   Asking(s.guest.session, s.guest.sequence, request))
      else s
    case GuestReports =>
      if s.guest.Running? then
        GuestSends(s, Frame(s.guest.session, s.guest.sequence, Done), Reporting(s.guest.session, s.guest.sequence))
      else s
    case GuestConfirms =>
      if s.guest.Reporting? then
        GuestSends(s, Frame(s.guest.session, s.guest.sequence, Ready), Waiting(s.guest.session))
      else s
  }

  const SPAWNED := System(Spawning, Booting, [], [], [])

  ghost predicate Behaviour(states: seq<System>, actions: seq<Action>) {
    && |states| == |actions| + 1 && states[0] == SPAWNED
    && forall i :: 0 <= i < |actions| ==> states[i + 1] == Next(states[i], actions[i])
  }

  /** An accepted frame belongs to the receiver's session and step, and a reply to its own request. */
  predicate Answers(x: Accepted) {
    match x
    case ByHost(f, session, sequence) => f.session == session && f.sequence == sequence
    case ByGuest(f, session, sequence, request) =>
      && f.session == session && f.sequence == sequence
      && (request.Some? ==> f.message == Reply(request.value))
  }

  /** What may be under way, by what the two sides are doing. */
  predicate Lockstep(s: System) {
    match s.host
    case Spawning =>
      && s.toGuest == []
      && ((s.guest == Booting && s.toHost == []) || (s.guest == Waiting(0) && s.toHost == [Frame(0, 0, Hello)]))
    case Pooled(last) => s.guest == Waiting(last) && s.toGuest == [] && s.toHost == []
    case Executing(session, sequence) =>
      && session > 0 && sequence > 0
      && (match s.guest
          case Waiting(last) =>
            || (last < session && sequence == 1 && s.toGuest == [Frame(session, 0, Run)] && s.toHost == [])
            || (last == session && s.toGuest == []
                && s.toHost == [Frame(session, sequence, Done), Frame(session, sequence, Ready)])
          case Running(t, q) => t == session && q == sequence && s.toGuest == [] && s.toHost == []
          case Asking(t, q, request) =>
            && t == session
            && ((q == sequence && s.toGuest == [] && s.toHost == [Frame(session, q, Call(request))])
                || (q + 1 == sequence && s.toGuest == [Frame(session, q, Reply(request))] && s.toHost == []))
          case Reporting(t, q) => t == session && q == sequence && s.toGuest == [] && s.toHost == [Frame(session, q, Done)]
          case _ => false)
    case Finishing(session, sequence) =>
      && s.toGuest == []
      && ((s.guest == Reporting(session, sequence) && s.toHost == [])
          || (s.guest == Waiting(session) && s.toHost == [Frame(session, sequence, Ready)]))
    case Failed => true
  }

  /** Once the host gave up, the guest may still consume what was on its way, and only that. */
  predicate Drained(s: System) {
    match s.guest
    case Waiting(last) =>
      s.toGuest == [] || s.toGuest == [Frame(0, 0, Shutdown)]
      || (|s.toGuest| == 1 && s.toGuest[0].message == Run && s.toGuest[0].sequence == 0)
    case Asking(t, q, request) => s.toGuest == [] || s.toGuest == [Frame(t, q, Reply(request))]
    case _ => s.toGuest == []
  }

  ghost predicate Inv(s: System) {
    && (forall x :: x in s.accepted ==> Answers(x))
    && Lockstep(s)
    && (s.host.Failed? ==> Drained(s))
    && (!s.host.Failed? ==> !s.guest.Broken? && !s.guest.Exited?)
  }

  lemma HostStepKeeps(s: System)
    requires Inv(s) && s.toHost != []
    ensures Inv(Next(s, HostReceives))
  {
    assert s.toHost == [s.toHost[0]] + s.toHost[1..];
  }

  lemma GuestStepKeeps(s: System)
    requires Inv(s) && s.toGuest != []
    ensures Inv(Next(s, GuestReceives))
  {
    assert s.toGuest == [s.toGuest[0]] + s.toGuest[1..];
  }

  lemma StepKeeps(s: System, a: Action)
    requires Inv(s)
    ensures Inv(Next(s, a))
  {
    match a
    case HostReceives => if s.toHost != [] { HostStepKeeps(s); }
    case GuestReceives => if s.toGuest != [] { GuestStepKeeps(s); }
    case _ =>
  }

  lemma {:induction false} BehaviourKeeps(states: seq<System>, actions: seq<Action>, i: nat)
    requires Behaviour(states, actions) && i < |states|
    ensures Inv(states[i])
  {
    if i > 0 {
      BehaviourKeeps(states, actions, i - 1);
      StepKeeps(states[i - 1], actions[i - 1]);
    }
  }

  /**
   In every run: a reply the guest accepts answers the request it just sent; every accepted frame
   carries the receiver's own session and sequence; both counters agree when Done and Ready are
   taken; and a worker is back in the pool only with nothing under way in either direction, so
   no frame of one session is ever met in the next.
   */
  lemma SessionsNeverMix(states: seq<System>, actions: seq<Action>, i: nat)
    requires Behaviour(states, actions) && i < |states|
    ensures forall x :: x in states[i].accepted ==> Answers(x)
    ensures states[i].host.Pooled? ==>
              states[i].toGuest == [] && states[i].toHost == [] && states[i].guest == Waiting(states[i].host.last)
    ensures states[i].host.Executing? && states[i].toHost != [] ==>
              states[i].toHost[0].session == states[i].host.session && states[i].toHost[0].sequence == states[i].host.sequence
    ensures states[i].host.Finishing? && states[i].toHost != [] ==>
              states[i].toHost[0] == Frame(states[i].host.session, states[i].host.sequence, Ready)
    ensures !states[i].host.Failed? ==> !states[i].guest.Broken?
  {
    BehaviourKeeps(states, actions, i);
  }

  /** The host fails only by its own decision: the protocol itself never makes it. */
  lemma OnlyGivingUpFails(states: seq<System>, actions: seq<Action>, i: nat)
    requires Behaviour(states, actions) && i < |actions|
    requires !states[i].host.Failed? && states[i + 1].host.Failed?
    ensures actions[i].HostGivesUp? || actions[i].HostShutsDown?
  {
    BehaviourKeeps(states, actions, i);
  }

  // ------------------------------------------------- frames that do not belong

  /**
   Whatever is on the channel, and whatever the guest may be doing: the host takes a frame only if
   it is the one it waits for, in its own session and at its own step; any other ends the worker,
   and is not answered.
   */
  lemma HostTakesItsOwn(s: System)
    requires s.toHost != [] && (s.host.Spawning? || s.host.Executing? || s.host.Finishing?)
    ensures var f, s' := s.toHost[0], Next(s, HostReceives);
            && s'.guest == s.guest && s'.toHost == s.toHost[1..]
            && match s.host
               case Executing(session, sequence) =>
                 if f.session == session && f.sequence == sequence && f.message.Call? then
                   && s'.host == Executing(session, sequence + 1)
                   && s'.toGuest == s.toGuest + [Frame(session, sequence, Reply(f.message.request))]
                 else if f.session == session && f.sequence == sequence && f.message.Done? then
                   s'.host == Finishing(session, sequence) && s'.toGuest == s.toGuest
                 else s'.host == Failed && s'.toGuest == s.toGuest
               case Finishing(session, sequence) =>
                 && s'.toGuest == s.toGuest
                 && s'.host == if f.session == session && f.sequence == sequence && f.message.Ready? then Pooled(session) else Failed
               case Spawning =>
                 && s'.toGuest == s.toGuest
                 && s'.host == if f.session == 0 && f.sequence == 0 && f.message.Hello? then Pooled(0) else Failed
               case _ => false
  {
  }

  /** And so does the guest: a run of a later session while it waits, or the reply to what it asked. */
  lemma GuestTakesItsOwn(s: System)
    requires s.toGuest != [] && (s.guest.Waiting? || s.guest.Asking?)
    ensures var f, s' := s.toGuest[0], Next(s, GuestReceives);
            && s'.host == s.host && s'.toGuest == s.toGuest[1..] && s'.toHost == s.toHost
            && match s.guest
               case Waiting(last) =>
                 s'.guest == if f.session == 0 && f.sequence == 0 && f.message.Shutdown? then Exited
                             else if f.session > last && f.sequence == 0 && f.message.Run? then Running(f.session, 1)
                             else Broken
               case Asking(session, sequence, request) =>
                 s'.guest == if f.session == session && f.sequence == sequence && f.message.Reply?
                             then Running(session, sequence + 1) else Broken
               case _ => false
  {
  }

  /** A frame is sent only by a guest that runs or reports, under its own session and step; the next step awaits what belongs to it. */
  lemma GuestSendsItsOwn(s: System, request: nat)
    ensures s.guest.Running? ==>
              var Running(session, sequence) := s.guest;
              && Next(s, GuestAsks(request)).toHost == s.toHost + [Frame(session, sequence, Call(request))]
              && Next(s, GuestAsks(request)).guest == Asking(session, sequence, request)
              && Next(s, GuestReports).toHost == s.toHost + [Frame(session, sequence, Done)]
              && Next(s, GuestReports).guest == Reporting(session, sequence)
    ensures s.guest.Reporting? ==>
              var Reporting(session, sequence) := s.guest;
              && Next(s, GuestConfirms).toHost == s.toHost + [Frame(session, sequence, Ready)]
              && Next(s, GuestConfirms).guest == Waiting(session)
    ensures !s.guest.Running? ==> Next(s, GuestAsks(request)) == s && Next(s, GuestReports) == s
    ensures !s.guest.Reporting? ==> Next(s, GuestConfirms) == s
  {
  }

  /** What starts and ends a session: a later number than any before, a shutdown of a pooled worker, or giving up at any time. */
  lemma HostDecides(s: System, session: nat)
    ensures Next(s, Start(session))
            == match s.host
               case Pooled(last) =>
                 if session > last then s.(host := Executing(session, 1), toGuest := s.toGuest + [Frame(session, 0, Run)]) else s
               case _ => s
    ensures Next(s, HostShutsDown)
            == if s.host.Pooled? then s.(host := Failed, toGuest := s.toGuest + [Frame(0, 0, Shutdown)]) else s
    ensures Next(s, HostGivesUp) == s.(host := Failed)
    ensures Next(s, GuestBoots)
            == if s.guest.Booting? then s.(guest := Waiting(0), toHost := s.toHost + [Frame(0, 0, Hello)]) else s
  {
  }

  // -------------------------------------------------------------------- pool

  /** A worker process; `id` tells processes apart. */
  datatype Worker = Worker(id: nat, executions: nat)

  /** Executions after which a process is not used again. */
  const MAX_REUSE := 64

  predicate Distinct(ws: seq<Worker>) {
    forall i, j :: 0 <= i < j < |ws| ==> ws[i].id != ws[j].id
  }

  /** No process is idle twice, leased twice, or both; and idle ones can be used again. */
  ghost predicate Apart(idle: seq<Worker>, leases: map<nat, Option<Worker>>) {
    && Distinct(idle) && (forall i :: 0 <= i < |idle| ==> idle[i].executions < MAX_REUSE)
    && (forall l, w :: l in leases && leases[l] == Some(w) ==> forall i :: 0 <= i < |idle| ==> idle[i].id != w.id)
    && (forall l, k :: l in leases && k in leases && l != k && leases[l].Some? && leases[k].Some? ==>
          leases[l].value.id != leases[k].value.id)
  }

  lemma ReturnedApart(idle: seq<Worker>, leases: map<nat, Option<Worker>>, lease: nat, w: Worker)
    requires Apart(idle, leases) && lease in leases && leases[lease].Some? && w.id == leases[lease].value.id
    requires w.executions < MAX_REUSE
    ensures Apart(idle + [w], leases - {lease})
  {
  }

  lemma DroppedApart(idle: seq<Worker>, leases: map<nat, Option<Worker>>, lease: nat)
    requires Apart(idle, leases)
    ensures Apart(idle, leases - {lease})
  {
  }

  /** The workers of the pool under its lock; each method is one critical section. */
  class Pool {
    const maxActive: nat
    const maxIdle: nat
    var idle: seq<Worker>
    var active: nat
    /** Outstanding leases, with their workers once they have one. */
    ghost var leases: map<nat, Option<Worker>>

    ghost predicate Valid()
      reads this
    {
      && 0 < maxActive && maxIdle <= maxActive
      && active == |leases|
      && |idle| <= maxIdle && active + |idle| <= maxActive
      && Apart(idle, leases)
    }

    constructor (maxActive: nat, maxIdle: nat, prewarmed: Worker)
      requires 0 < maxActive && maxIdle <= maxActive && prewarmed.executions < MAX_REUSE
      ensures Valid() && this.maxActive == maxActive && this.maxIdle == maxIdle
      ensures leases == map[] && idle == if maxIdle > 0 then [prewarmed] else []
    {
      this.maxActive, this.maxIdle := maxActive, maxIdle;
      idle := if maxIdle > 0 then [prewarmed] else [];
      active := 0;
      leases := map[];
    }

    /** Take a place, and an idle worker if there is one; None while the pool is full. */
    method Checkout(ghost lease: nat) returns (admitted: bool, worker: Option<Worker>)
      requires Valid() && lease !in leases
      modifies this
      ensures Valid()
      ensures admitted <==> |old(leases)| < maxActive
      ensures !admitted ==> leases == old(leases) && idle == old(idle) && worker.None?
      ensures admitted ==> leases == old(leases)[lease := worker]
      ensures admitted && old(idle) == [] ==> worker.None? && idle == []
      ensures admitted && old(idle) != [] ==> worker == Some(old(idle)[|old(idle)| - 1]) && idle == old(idle)[..|old(idle)| - 1]
    {
      if active >= maxActive {
        return false, None;
      }
      active := active + 1;
      worker := None;
      if idle != [] {
        worker := Some(idle[|idle| - 1]);
        idle := idle[..|idle| - 1];
      }
      assert leases.Keys !! {lease};
      leases := leases[lease := worker];
      assert leases.Keys == old(leases).Keys + {lease};
      admitted := true;
    }

    /** A lease without an idle worker got a process of its own. */
    ghost method Spawned(lease: nat, worker: Worker)
      requires Valid() && lease in leases && leases[lease].None?
      requires forall i :: 0 <= i < |idle| ==> idle[i].id != worker.id
      requires forall l :: l in leases && leases[l].Some? ==> leases[l].value.id != worker.id
      modifies this`leases
      ensures Valid() && leases == old(leases)[lease := Some(worker)]
    {
      assert leases[lease := Some(worker)].Keys == leases.Keys;
      leases := leases[lease := Some(worker)];
    }

    /**
     End of a lease, with the worker as the execution left it. Only a worker that succeeded and
     is not worn out goes back, and only while there is room; in every other case, a failed spawn
     included, it is dropped.
     */
    method Release(ghost lease: nat, worker: Option<Worker>, succeeded: bool)
      requires Valid() && lease in leases
      requires worker.Some? <==> leases[lease].Some?
      requires worker.Some? ==> worker.value.id == leases[lease].value.id
      modifies this
      ensures Valid() && leases == old(leases) - {lease}
      ensures idle == if succeeded && worker.Some? && worker.value.executions < MAX_REUSE && |old(idle)| < maxIdle
                      then old(idle) + [worker.value] else old(idle)
    {
      hide Apart;
      var reusable := succeeded && worker.Some? && worker.value.executions < MAX_REUSE;
      DroppedApart(idle, leases, lease);
      if reusable {
        ReturnedApart(idle, leases, lease, worker.value);
      }
      if reusable && |idle| < maxIdle && worker.Some? {
        idle := idle + [worker.value];
      }
      leases := leases - {lease};
      assert old(leases).Keys == leases.Keys + {lease};
      active := active - 1;
    }
  }
}
