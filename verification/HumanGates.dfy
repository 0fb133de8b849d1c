/** Human decision gates: creation with eviction, resolution, time-out and the periodic sweep. */
module HumanGates {
  import opened Sequences

  const TIMEOUT: nat := 300_000
  const MAX_PENDING: nat := 100
  const SWEEP_GRACE: nat := 10_000
  const DISMISS: string := "Dismiss conflicts and synthesize"

  type GateId = string

  /** The module's state. The pending map is its keys in insertion order and the creation time of each;
      timers are the armed ones with their deadlines; outcomes are the choices the promises settled on;
      resolverCalls counts every call of a promise resolver. */
  datatype State = State(
    order: seq<GateId>, gates: map<GateId, nat>, timers: map<GateId, nat>,
    outcomes: map<GateId, string>, resolverCalls: nat,
    created: set<GateId>, clock: nat, lastSweep: nat)

  const INITIAL := State([], map[], map[], map[], 0, {}, 0, 0)

  datatype Event =
    | Create(id: GateId)
    | Resolve(gate: GateId, choice: string)
    | TimerFires(timer: GateId)
    | Sweep
    | Tick(now: nat)

  // ---- The transition relation ----------------------------------------------------

  /** Map.delete keeps the order of the other keys. */
  function Without(order: seq<GateId>, id: GateId): seq<GateId> {
    if order == [] then []
    else if order[0] == id then order[1..]
    else [order[0]] + Without(order[1..], id)
  }

  /** A promise keeps the value it was first resolved with. */
  function ResolvePromise(outcomes: map<GateId, string>, id: GateId, choice: string): map<GateId, string> {
    if id in outcomes then outcomes else outcomes[id := choice]
  }

  /** clearTimeout, resolve, delete */
  function Settle(s: State, id: GateId, choice: string): State {
    s.(order := Without(s.order, id), gates := s.gates - {id}, timers := s.timers - {id},
       outcomes := ResolvePromise(s.outcomes, id, choice), resolverCalls := s.resolverCalls + 1)
  }

  predicate Overdue(s: State, id: GateId)
    requires id in s.gates
  {
    s.clock - s.gates[id] > TIMEOUT + SWEEP_GRACE
  }

  /** Settling those of the given gates that are overdue. */
  function SweepAll(s: State, ids: seq<GateId>): State
    decreases |ids|
  {
    if ids == [] then s
    else if ids[0] in s.gates && Overdue(s, ids[0]) then SweepAll(Settle(s, ids[0], DISMISS), ids[1..])
    else SweepAll(s, ids[1..])
  }

  /** Creating a gate: its timer is armed, then the oldest gate makes room if the map is full. */
  function Add(s: State, id: GateId): State {
    var armed := s.(timers := s.timers[id := s.clock + TIMEOUT], created := s.created + {id});
    var roomy := if |s.gates| >= MAX_PENDING && s.order != [] then Settle(armed, s.order[0], DISMISS) else armed;
    roomy.(order := roomy.order + [id], gates := roomy.gates[id := s.clock])
  }

  function Next(s: State, e: Event): State {
    match e
    case Create(id) => Add(s, id)
    case Resolve(id, choice) => if id in s.gates then Settle(s, id, choice) else s
    case TimerFires(id) => if id in s.gates then Settle(s, id, DISMISS) else s.(timers := s.timers - {id})
    case Sweep => SweepAll(s, s.order).(lastSweep := s.clock)
    case Tick(now) => s.(clock := now)
  }

  /** UUIDs are fresh, timers fire when armed and due, the clock does not go back. */
  predicate Enabled(s: State, e: Event) {
    match e
    case Create(id) => id !in s.created
    case Resolve(_, _) => true
    case TimerFires(id) => id in s.timers && s.clock >= s.timers[id]
    case Sweep => true
    case Tick(now) => now >= s.clock
  }

  function Play(events: seq<Event>): State {
    if events == [] then INITIAL else Next(Play(events[..|events| - 1]), events[|events| - 1])
  }

  ghost predicate Legal(events: seq<Event>) {
    events != [] ==>
      Legal(events[..|events| - 1]) && Enabled(Play(events[..|events| - 1]), events[|events| - 1])
  }

  // ---- The program ------------------------------------------------------------------

  /** The module-level map and the promises behind it. */
  class GateKeeper {
    var order: seq<GateId>
    var gates: map<GateId, nat>
    var timers: map<GateId, nat>
    var outcomes: map<GateId, string>
    var clock: nat
    ghost var resolverCalls: nat
    ghost var created: set<GateId>
    ghost var lastSweep: nat

    ghost function View(): State
      reads this
    {
      State(order, gates, timers, outcomes, resolverCalls, created, clock, lastSweep)
    }

    constructor ()
      ensures View() == INITIAL
    {
      order, gates, timers, outcomes, clock := [], map[], map[], map[], 0;
      resolverCalls, created, lastSweep := 0, {}, 0;
    }

    /** The resolver of a gate's promise. */
    method CallResolver(id: GateId, choice: string)
      modifies this`outcomes, this`resolverCalls
      ensures outcomes == ResolvePromise(old(outcomes), id, choice) && resolverCalls == old(resolverCalls) + 1
    {
      if id !in outcomes {
        outcomes := outcomes[id := choice];
      }
      resolverCalls := resolverCalls + 1;
    }

    /** clearTimeout, resolve, delete, as every way of settling a gate does. */
    method SettleGate(id: GateId, choice: string)
      modifies this`timers, this`outcomes, this`resolverCalls, this`order, this`gates
      ensures View() == Settle(old(View()), id, choice)
    {
      timers := timers - {id};
      CallResolver(id, choice);
      order := Without(order, id);
      gates := gates - {id};
    }

    method CreateGate(gateId: GateId)
      requires Enabled(View(), Create(gateId))
      modifies this
      ensures View() == Next(old(View()), Create(gateId))
    {
      created := created + {gateId};
      timers := timers[gateId := clock + TIMEOUT];
      if |gates| >= MAX_PENDING {
        if order != [] {
          SettleGate(order[0], DISMISS);
        }
      }
      order := order + [gateId];
      gates := gates[gateId := clock];
    }

    method ResolveHumanGate(gateId: GateId, choice: string)
      modifies this
      ensures View() == Next(old(View()), Resolve(gateId, choice))
    {
      if gateId in gates {
        SettleGate(gateId, choice);
      }
    }

    /** The set-timeout callback; a timer that fired is no longer armed. */
    method OnTimeout(gateId: GateId)
      requires Enabled(View(), TimerFires(gateId))
      modifies this
      ensures View() == Next(old(View()), TimerFires(gateId))
    {
      if gateId in gates {
        SettleGate(gateId, DISMISS);
      } else {
        timers := timers - {gateId};
      }
    }

    /** The interval callback: the loop deletes from the map it iterates over. */
    method SweepOverdue()
      modifies this
      ensures View() == Next(old(View()), Sweep)
    {
      var now := clock;
      var ids := order;
      var i := 0;
      while i < |ids|
        invariant 0 <= i <= |ids| && clock == now == old(clock)
        invariant SweepAll(View(), ids[i..]) == SweepAll(old(View()), ids)
      {
        var id := ids[i];
        assert ids[i..][1..] == ids[i + 1..];
        if id in gates && now - gates[id] > TIMEOUT + SWEEP_GRACE {
          SettleGate(id, DISMISS);
        }
        i := i + 1;
      }
      lastSweep := clock;
    }
  }

  // ---- The invariant -------------------------------------------------------------------

  /** Insertion order is creation order. */
  ghost predicate Sorted(order: seq<GateId>, gates: map<GateId, nat>) {
    forall i, j :: 0 <= i < j < |order| && order[i] in gates && order[j] in gates ==> gates[order[i]] <= gates[order[j]]
  }

  /** The map is well formed, bounded, and in order of age. */
  ghost predicate Ordered(order: seq<GateId>, gates: map<GateId, nat>) {
    && Distinct(order) && Sorted(order, gates)
    && (forall id :: id in order <==> id in gates)
    && |gates| <= MAX_PENDING
  }

  /** No pending gate is from the future, or was overdue at the last sweep. */
  ghost predicate InTime(gates: map<GateId, nat>, clock: nat, lastSweep: nat) {
    && lastSweep <= clock
    && forall id :: id in gates ==> gates[id] <= clock && lastSweep - gates[id] <= TIMEOUT + SWEEP_GRACE
  }

  /** Each pending gate owns one armed timer, due when the gate times out; no other timer is armed. */
  ghost predicate TimersOwned(gates: map<GateId, nat>, timers: map<GateId, nat>) {
    && (forall id :: id in timers <==> id in gates)
    && (forall id :: id in gates && id in timers ==> timers[id] == gates[id] + TIMEOUT)
  }

  /** A created gate is pending or settled, never both, and no resolver was called twice. */
  ghost predicate AccountedFor(gates: map<GateId, nat>, outcomes: map<GateId, string>, created: set<GateId>,
                               resolverCalls: nat) {
    && (forall id :: id in created <==> id in gates || id in outcomes)
    && (forall id :: id in gates ==> id !in outcomes)
    && resolverCalls == |outcomes|
  }

  ghost predicate Inv(s: State) {
    && Ordered(s.order, s.gates)
    && InTime(s.gates, s.clock, s.lastSweep)
    && TimersOwned(s.gates, s.timers)
    && AccountedFor(s.gates, s.outcomes, s.created, s.resolverCalls)
  }

  // ---- Every step keeps the invariant ------------------------------------------------------

  lemma {:induction false} WithoutOne(order: seq<GateId>, id: GateId, gates: map<GateId, nat>)
    requires Distinct(order) && Sorted(order, gates)
    ensures Distinct(Without(order, id)) && Sorted(Without(order, id), gates)
    ensures forall x :: x in Without(order, id) <==> x in order && x != id
  {
    if order != [] {
      var tail := order[1..];
      assert forall i :: 0 <= i < |tail| ==> tail[i] == order[i + 1];
      if order[0] != id {
        WithoutOne(tail, id, gates);
        var rest := Without(tail, id);
        forall x | x in rest
          ensures x != order[0] && (x in gates && order[0] in gates ==> gates[order[0]] <= gates[x])
        {
          var i :| 0 <= i < |tail| && tail[i] == x;
        }
        assert Without(order, id) == [order[0]] + rest;
      }
    }
  }

  lemma {:induction false} DeleteKeepsOrdered(order: seq<GateId>, gates: map<GateId, nat>, id: GateId)
    requires Ordered(order, gates) && id in gates
    ensures Ordered(Without(order, id), gates - {id})
    ensures |gates - {id}| == |gates| - 1
  {
    WithoutOne(order, id, gates);
    var less := gates - {id};
    assert less.Keys == gates.Keys - {id};
    assert Sorted(Without(order, id), less);
  }

  lemma InsertKeepsOrdered(order: seq<GateId>, gates: map<GateId, nat>, id: GateId, clock: nat)
    requires Ordered(order, gates) && id !in gates && |gates| < MAX_PENDING
    requires forall x :: x in gates ==> gates[x] <= clock
    ensures Ordered(order + [id], gates[id := clock])
  {
  }

  lemma InsertKeepsInTime(gates: map<GateId, nat>, clock: nat, lastSweep: nat, id: GateId)
    requires InTime(gates, clock, lastSweep)
    ensures InTime(gates[id := clock], clock, lastSweep)
  {
  }

  lemma InsertKeepsOwned(gates: map<GateId, nat>, timers: map<GateId, nat>, id: GateId, clock: nat)
    requires TimersOwned(gates, timers)
    ensures TimersOwned(gates[id := clock], timers[id := clock + TIMEOUT])
  {
  }

  lemma InsertKeepsAccounted(gates: map<GateId, nat>, outcomes: map<GateId, string>, created: set<GateId>,
                             resolverCalls: nat, id: GateId, clock: nat)
    requires AccountedFor(gates, outcomes, created, resolverCalls) && id !in created
    ensures AccountedFor(gates[id := clock], outcomes, created + {id}, resolverCalls)
  {
  }

  lemma ResolveOnce(outcomes: map<GateId, string>, id: GateId, choice: string)
    requires id !in outcomes
    ensures ResolvePromise(outcomes, id, choice) == outcomes[id := choice]
    ensures |outcomes[id := choice]| == |outcomes| + 1
  {
  }

  lemma {:induction false} SettleKeepsInv(s: State, id: GateId, choice: string)
    requires Inv(s) && id in s.gates
    ensures Inv(Settle(s, id, choice))
    ensures Settle(s, id, choice).outcomes == s.outcomes[id := choice]
  {
    DeleteKeepsOrdered(s.order, s.gates, id);
    ResolveOnce(s.outcomes, id, choice);
  }

  lemma {:induction false} OldestExists(s: State)
    requires Inv(s) && |s.gates| >= MAX_PENDING
    ensures s.order != [] && s.order[0] in s.gates
    ensures forall other :: other in s.gates ==> s.gates[s.order[0]] <= s.gates[other]
  {
    assert s.gates.Keys != {};
    var some :| some in s.gates;
    assert some in s.order;
    forall other | other in s.gates ensures s.gates[s.order[0]] <= s.gates[other] {
      var i :| 0 <= i < |s.order| && s.order[i] == other;
      assert s.order[0] in s.order;
    }
  }

  /** Under the invariant, creating a gate is making room, if need be, and entering it. */
  lemma {:induction false} AddIsEnter(s: State, id: GateId)
    requires Inv(s) && id !in s.created
    ensures |s.gates| < MAX_PENDING ==> Add(s, id) == Enter(s, id)
    ensures |s.gates| >= MAX_PENDING ==> s.order != [] && Add(s, id) == Enter(Settle(s, s.order[0], DISMISS), id)
  {
    if |s.gates| >= MAX_PENDING {
      OldestExists(s);
      assert s.order[0] in s.created;
      MakeRoomFirst(s, id);
    }
  }

  lemma MakeRoomFirst(s: State, id: GateId)
    requires |s.gates| >= MAX_PENDING && s.order != [] && s.order[0] != id
    ensures Add(s, id) == Enter(Settle(s, s.order[0], DISMISS), id)
  {
  }

  function Enter(s: State, id: GateId): State {
    s.(order := s.order + [id], gates := s.gates[id := s.clock],
       timers := s.timers[id := s.clock + TIMEOUT], created := s.created + {id})
  }

  lemma EnterKeepsInv(s: State, id: GateId)
    requires Inv(s) && id !in s.created && |s.gates| < MAX_PENDING
    ensures Inv(Enter(s, id))
  {
    InsertKeepsOrdered(s.order, s.gates, id, s.clock);
    InsertKeepsInTime(s.gates, s.clock, s.lastSweep, id);
    InsertKeepsOwned(s.gates, s.timers, id, s.clock);
    InsertKeepsAccounted(s.gates, s.outcomes, s.created, s.resolverCalls, id, s.clock);
  }

  lemma {:induction false} AddKeepsInv(s: State, id: GateId)
    requires Inv(s) && id !in s.created
    ensures Inv(Add(s, id))
  {
    AddIsEnter(s, id);
    if |s.gates| >= MAX_PENDING {
      OldestExists(s);
      DeleteKeepsOrdered(s.order, s.gates, s.order[0]);
      SettleKeepsInv(s, s.order[0], DISMISS);
      EnterKeepsInv(Settle(s, s.order[0], DISMISS), id);
    } else {
      EnterKeepsInv(s, id);
    }
  }

  lemma {:induction false} SweepKeepsInv(s: State, ids: seq<GateId>)
    requires Inv(s)
    ensures Inv(SweepAll(s, ids)) && SweepAll(s, ids).clock == s.clock && SweepAll(s, ids).created == s.created
    decreases |ids|
  {
    if ids != [] {
      if ids[0] in s.gates && Overdue(s, ids[0]) {
        SettleKeepsInv(s, ids[0], DISMISS);
        SweepKeepsInv(Settle(s, ids[0], DISMISS), ids[1..]);
      } else {
        SweepKeepsInv(s, ids[1..]);
      }
    }
  }

  /** A sweep over some gates settles those of them that are overdue. */
  lemma {:induction false} SweepEffect(s: State, ids: seq<GateId>, id: GateId)
    ensures id in SweepAll(s, ids).gates <==> id in s.gates && (id in ids ==> !Overdue(s, id))
    ensures id in SweepAll(s, ids).gates ==> SweepAll(s, ids).gates[id] == s.gates[id]
    decreases |ids|
  {
    if ids != [] {
      assert ids == [ids[0]] + ids[1..];
      if ids[0] in s.gates && Overdue(s, ids[0]) {
        SweepEffect(Settle(s, ids[0], DISMISS), ids[1..], id);
      } else {
        SweepEffect(s, ids[1..], id);
      }
    }
  }

  lemma {:induction false} SweepResult(s: State)
    requires Inv(s)
    ensures Inv(Next(s, Sweep))
    ensures forall id :: id in Next(s, Sweep).gates <==> id in s.gates && !Overdue(s, id)
  {
    SweepKeepsInv(s, s.order);
    forall id ensures id in Next(s, Sweep).gates <==> id in s.gates && !Overdue(s, id) {
      SweepEffect(s, s.order, id);
    }
    forall id | id in Next(s, Sweep).gates ensures s.clock - Next(s, Sweep).gates[id] <= TIMEOUT + SWEEP_GRACE {
      SweepEffect(s, s.order, id);
    }
  }

  lemma {:induction false} NextKeepsInv(s: State, e: Event)
    requires Inv(s) && Enabled(s, e)
    ensures Inv(Next(s, e))
  {
    match e
    case Create(id) => AddKeepsInv(s, id);
    case Resolve(id, choice) =>
      if id in s.gates {
        SettleKeepsInv(s, id, choice);
      }
    case TimerFires(id) => SettleKeepsInv(s, id, DISMISS);
    case Sweep => SweepResult(s);
    case Tick(now) =>
  }

  // ---- Decisions stand ------------------------------------------------------------------------

  ghost predicate Extends(earlier: map<GateId, string>, later: map<GateId, string>) {
    forall id :: id in earlier ==> id in later && later[id] == earlier[id]
  }

  lemma {:induction false} SweepExtends(s: State, ids: seq<GateId>)
    ensures Extends(s.outcomes, SweepAll(s, ids).outcomes)
    decreases |ids|
  {
    if ids != [] {
      if ids[0] in s.gates && Overdue(s, ids[0]) {
        SweepExtends(Settle(s, ids[0], DISMISS), ids[1..]);
      } else {
        SweepExtends(s, ids[1..]);
      }
    }
  }

  lemma ResolveExtends(outcomes: map<GateId, string>, id: GateId, choice: string)
    ensures Extends(outcomes, ResolvePromise(outcomes, id, choice))
  {
  }

  lemma NextExtends(s: State, e: Event)
    ensures Extends(s.outcomes, Next(s, e).outcomes)
  {
    match e
    case Create(id) =>
      if |s.gates| >= MAX_PENDING && s.order != [] {
        ResolveExtends(s.outcomes, s.order[0], DISMISS);
      }
    case Resolve(id, choice) => ResolveExtends(s.outcomes, id, choice);
    case TimerFires(id) => ResolveExtends(s.outcomes, id, DISMISS);
    case Sweep => SweepExtends(s, s.order);
    case Tick(now) =>
  }

  // ---- Over whole runs ------------------------------------------------------------------------

  lemma {:induction false} RunKeepsInv(events: seq<Event>)
    requires Legal(events)
    ensures Inv(Play(events))
    decreases |events|
  {
    if events != [] {
      RunKeepsInv(events[..|events| - 1]);
      NextKeepsInv(Play(events[..|events| - 1]), events[|events| - 1]);
    }
  }

  /** At any time of any run at most 100 gates wait, a created gate is settled exactly when it no longer
      waits, and there were as many resolver calls as there are settled gates: no gate was resolved twice. */
  lemma {:induction false} GatesAccountedFor(events: seq<Event>)
    requires Legal(events)
    ensures |Play(events).gates| <= 100
    ensures forall id :: id in Play(events).created ==> (id in Play(events).outcomes <==> id !in Play(events).gates)
    ensures Play(events).resolverCalls == |Play(events).outcomes|
    ensures Play(events).timers.Keys == Play(events).gates.Keys
  {
    RunKeepsInv(events);
  }

  /** What has been decided stays decided, whatever happens later. */
  lemma {:induction false} DecisionsStand(events: seq<Event>, k: nat)
    requires Legal(events) && k <= |events|
    ensures Legal(events[..k]) && Extends(Play(events[..k]).outcomes, Play(events).outcomes)
    decreases |events|
  {
    var n := |events| - 1;
    if k <= n {
      DecisionsStand(events[..n], k);
      assert events[..n][..k] == events[..k];
      NextExtends(Play(events[..n]), events[n]);
    } else {
      assert events[..k] == events;
    }
  }

  /** The choice made for a gate that waits is the choice it is settled with. */
  lemma {:induction false} ResolveDecides(events: seq<Event>, id: GateId, choice: string)
    requires Legal(events) && id in Play(events).gates
    ensures var after := Play(events + [Resolve(id, choice)]);
      id in after.outcomes && after.outcomes[id] == choice && id !in after.gates && id !in after.timers
  {
    RunKeepsInv(events);
    assert (events + [Resolve(id, choice)])[..|events|] == events;
  }

  /** A timer that fires always finds its gate still waiting, and dismisses it. */
  lemma {:induction false} TimersNeverStale(events: seq<Event>, id: GateId)
    requires Legal(events) && Enabled(Play(events), TimerFires(id))
    ensures id in Play(events).gates
    ensures Next(Play(events), TimerFires(id)).outcomes
         == Play(events).outcomes[id := "Dismiss conflicts and synthesize"]
  {
    RunKeepsInv(events);
  }

  /** A gate created when the map is full evicts exactly one gate, and none is older. */
  lemma {:induction false} EvictsOldest(events: seq<Event>, id: GateId)
    requires Legal(events) && id !in Play(events).created && |Play(events).gates| >= 100
    ensures Play(events).order != [] && Play(events).order[0] in Play(events).gates
    ensures Next(Play(events), Create(id)).gates
         == (Play(events).gates - {Play(events).order[0]})[id := Play(events).clock]
    ensures Next(Play(events), Create(id)).outcomes == Play(events).outcomes[Play(events).order[0] := DISMISS]
    ensures forall other :: other in Play(events).gates ==>
      Play(events).gates[Play(events).order[0]] <= Play(events).gates[other]
  {
    RunKeepsInv(events);
    OldestExists(Play(events));
    AddIsEnter(Play(events), id);
    SettleKeepsInv(Play(events), Play(events).order[0], DISMISS);
  }

  /** While fewer than 100 gates wait, creating one leaves them all waiting, and settles none. */
  lemma {:induction false} NoEvictionBelow(events: seq<Event>, id: GateId)
    requires Legal(events) && id !in Play(events).created && |Play(events).gates| < 100
    ensures Next(Play(events), Create(id)).gates == Play(events).gates[id := Play(events).clock]
    ensures Next(Play(events), Create(id)).outcomes == Play(events).outcomes
  {
    RunKeepsInv(events);
    AddIsEnter(Play(events), id);
  }

  /** A sweep settles the overdue gates and no others. */
  lemma SweepSettlesOverdue(events: seq<Event>)
    requires Legal(events)
    ensures forall id :: id in Next(Play(events), Sweep).gates <==>
      id in Play(events).gates && Play(events).clock - Play(events).gates[id] <= 310_000
  {
    RunKeepsInv(events);
    SweepResult(Play(events));
  }

  /** Even if every timer fails: while the sweeps run on time, no gate waits longer than this. */
  lemma WaitIsBounded(events: seq<Event>, id: GateId)
    requires Legal(events) && id in Play(events).gates
    requires Play(events).clock - Play(events).lastSweep <= 60_000
    ensures Play(events).clock - Play(events).gates[id] <= 370_000
  {
    RunKeepsInv(events);
  }

  /** A new gate waits, last in order, from now on, with a timer for five minutes from now. */
  lemma {:induction false} CreatedGateWaits(events: seq<Event>, id: GateId)
    requires Legal(events) && id !in Play(events).created
    ensures var before, after := Play(events), Next(Play(events), Create(id));
      && after.order != [] && after.order[|after.order| - 1] == id
      && id in after.gates && after.gates[id] == before.clock
      && id in after.timers && after.timers[id] == before.clock + 300_000
      && id !in after.outcomes
  {
    RunKeepsInv(events);
    NextKeepsInv(Play(events), Create(id));
    AddIsEnter(Play(events), id);
  }

  lemma SweepSettlesFirst(s: State, rest: seq<GateId>, id: GateId)
    requires Inv(s) && id in s.gates
    ensures id in SweepAll(Settle(s, id, DISMISS), rest).outcomes
    ensures SweepAll(Settle(s, id, DISMISS), rest).outcomes[id] == DISMISS
  {
    SettleKeepsInv(s, id, DISMISS);
    SweepExtends(Settle(s, id, DISMISS), rest);
  }

  lemma {:induction false} SweepSettles(s: State, ids: seq<GateId>, id: GateId)
    requires Inv(s) && id in ids && id in s.gates && Overdue(s, id)
    ensures id in SweepAll(s, ids).outcomes && SweepAll(s, ids).outcomes[id] == DISMISS
    decreases |ids|
  {
    var rest := ids[1..];
    assert ids == [ids[0]] + rest;
    if ids[0] == id {
      SweepSettlesFirst(s, rest, id);
    } else if ids[0] in s.gates && Overdue(s, ids[0]) {
      SettleKeepsInv(s, ids[0], DISMISS);
      SweepSettles(Settle(s, ids[0], DISMISS), rest, id);
    } else {
      SweepSettles(s, rest, id);
    }
  }

  /** A gate older than five minutes and ten seconds is dismissed by the sweep, and its timer cleared. */
  lemma {:induction false} SweepDismisses(events: seq<Event>, id: GateId)
    requires Legal(events) && id in Play(events).gates && Play(events).clock - Play(events).gates[id] > 310_000
    ensures id in Next(Play(events), Sweep).outcomes
    ensures Next(Play(events), Sweep).outcomes[id] == "Dismiss conflicts and synthesize"
    ensures id !in Next(Play(events), Sweep).gates && id !in Next(Play(events), Sweep).timers
  {
    RunKeepsInv(events);
    SweepSettles(Play(events), Play(events).order, id);
    SweepResult(Play(events));
  }
}
