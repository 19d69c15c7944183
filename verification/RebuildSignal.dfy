/**
 How a change of registrations reaches the worker: callers write the map of lambdas
 and then signal through a channel with one slot; the worker drains the signal, takes
 a snapshot and makes a pass. Steps of all threads interleave freely.
 */
module RebuildSignal {
  import opened Common
  import Text
  import opened RouteCompare
  import opened RouteTable
  import opened RouteReconcile
  import opened RoutePass

  datatype Edit = Store(entries: Snapshot) | Delete(id: string)

  function Edited(lambdas: Snapshot, edit: Edit): Snapshot {
    match edit
    case Store(entries) => lambdas + entries
    case Delete(id) => lambdas - {id}
  }

  ghost predicate AllRegistered(state: Snapshot) {
    forall id | id in state :: Registered(state[id])
  }

  // --- The registration calls --------------------------------------------------------

  datatype Entry = Entry(id: string, providers: seq<string>, routes: seq<RouteDeclaration>)

  /** What a caller must get right for an entry to be stored. */
  predicate Acceptable(e: Entry) {
    && Text.Trim(e.id) != []
    && (exists i :: 0 <= i < |e.providers| && Text.Trim(e.providers[i]) != [])
    && (forall i | 0 <= i < |e.routes| :: ValidKind(e.routes[i].kind))
  }

  /** Which entry of a batch is kept under an id: the last one. */
  ghost predicate LastFor(batch: seq<Entry>, id: string, i: nat) {
    i < |batch| && Text.Trim(batch[i].id) == id && forall j | i < j < |batch| :: Text.Trim(batch[j].id) != id
  }

  ghost predicate Normalized(e: Entry, reg: Registration) {
    && Registered(reg) && reg.routes == e.routes
    && forall p :: p in reg.providers <==> exists i :: 0 <= i < |e.providers| && p == Text.Trim(e.providers[i]) && p != []
  }

  ghost predicate Collected(batch: seq<Entry>, entries: Snapshot) {
    && (forall id :: id in entries <==> exists i :: 0 <= i < |batch| && Text.Trim(batch[i].id) == id)
    && (forall id, i: nat | id in entries && LastFor(batch, id, i) :: Normalized(batch[i], entries[id]))
  }

  lemma CollectOne(batch: seq<Entry>, entries: Snapshot, e: Entry, reg: Registration)
    requires Collected(batch, entries) && Normalized(e, reg)
    ensures Collected(batch + [e], entries[Text.Trim(e.id) := reg])
  {
    hide Normalized;
    var more, next := batch + [e], entries[Text.Trim(e.id) := reg];
    forall id ensures id in next <==> exists i :: 0 <= i < |more| && Text.Trim(more[i].id) == id {
      if id in entries {
        var i :| 0 <= i < |batch| && Text.Trim(batch[i].id) == id;
        assert more[i] == batch[i];
      }
      assert more[|batch|] == e;
      if i :| 0 <= i < |batch| && Text.Trim(more[i].id) == id {
        assert more[i] == batch[i];
      }
    }
    forall id, i: nat | id in next && LastFor(more, id, i) ensures Normalized(more[i], next[id]) {
      assert more[|batch|] == e;
      if i < |batch| {
        forall j | i < j < |batch| ensures Text.Trim(batch[j].id) != id {
          assert more[j] == batch[j];
        }
        assert more[i] == batch[i] && LastFor(batch, id, i);
      }
    }
  }

  class Lambdas {
    var lambdas: Snapshot

    ghost predicate Valid()
      reads this
    {
      AllRegistered(lambdas)
    }

    constructor ()
      ensures Valid() && lambdas == map[]
    {
      lambdas := map[];
    }

    /** expired: the caller's context is done. signal: whether a rebuild is scheduled. */
    method RegisterLambda(expired: bool, e: Entry) returns (signal: bool)
      requires Valid()
      modifies this
      ensures Valid()
      ensures signal <==> !expired && Acceptable(e)
      ensures if signal then exists reg :: Normalized(e, reg) && lambdas == old(lambdas)[Text.Trim(e.id) := reg] ==
                                             Edited(old(lambdas), Store(map[Text.Trim(e.id) := reg]))
              else lambdas == old(lambdas)
    {
      if expired {
        return false;
      }
      var reg := NormalizeRegistration(e.id, e.providers, e.routes);
      if reg.None? {
        return false;
      }
      assert Normalized(e, reg.value.1);
      assert lambdas[reg.value.0 := reg.value.1] == lambdas + map[reg.value.0 := reg.value.1];
      lambdas := lambdas[reg.value.0 := reg.value.1];
      return true;
    }

    /** All of the batch or none of it; of entries with one id the last one counts. */
    method RegisterLambdaBatch(expired: bool, batch: seq<Entry>) returns (signal: bool)
      requires Valid()
      modifies this
      ensures Valid()
      ensures signal <==> !expired && batch != [] && forall i | 0 <= i < |batch| :: Acceptable(batch[i])
      ensures if signal then exists entries :: Collected(batch, entries) && lambdas == old(lambdas) + entries ==
                                                 Edited(old(lambdas), Store(entries))
              else lambdas == old(lambdas)
    {
      hide Collected, Registered, ValidKind;
      if expired || batch == [] {
        return false;
      }
      var entries: Snapshot := map[];
      assert Collected([], entries) by {
        CollectedNone();
      }
      for i := 0 to |batch|
        invariant Collected(batch[..i], entries) && AllRegistered(entries) && lambdas == old(lambdas)
        invariant forall j | 0 <= j < i :: Acceptable(batch[j])
      {
        var reg := NormalizeRegistration(batch[i].id, batch[i].providers, batch[i].routes);
        if reg.None? {
          assert !Acceptable(batch[i]);
          return false;
        }
        CollectOne(batch[..i], entries, batch[i], reg.value.1);
        assert batch[..i + 1] == batch[..i] + [batch[i]];
        entries := entries[reg.value.0 := reg.value.1];
      }
      assert batch[..|batch|] == batch;
      lambdas := lambdas + entries;
      return true;
    }

    method UnregisterLambda(expired: bool, id: string) returns (signal: bool)
      requires Valid()
      modifies this
      ensures Valid()
      ensures signal <==> !expired && Text.Trim(id) != []
      ensures lambdas == if signal then old(lambdas) - {Text.Trim(id)} else old(lambdas)
      ensures signal ==> lambdas == Edited(old(lambdas), Delete(Text.Trim(id)))
    {
      if expired || Text.Trim(id) == [] {
        return false;
      }
      lambdas := lambdas - {Text.Trim(id)};
      return true;
    }
  }

  lemma CollectedNone()
    ensures Collected([], map[])
  {
  }

  // --- The interleaving ------------------------------------------------------------------

  datatype Worker = Unstarted | Waiting | Draining | Drained | Applying(taken: Snapshot) | Exited

  /** A finished pass. cancelled: it found its context done; clean: no router call failed. */
  datatype Pass = Pass(taken: Snapshot, cancelled: bool, clean: bool)

  /**
   wrote and started hold the callers that have changed the map and not yet sent their
   signal: before and after making sure that the worker runs.
   */
  datatype State = State(
    lambdas: Snapshot, wrote: set<nat>, started: set<nat>, slot: bool,
    worker: Worker, last: Option<Pass>, closed: bool, routes: Routes)

  datatype Event =
    | Write(caller: nat, edit: Edit)
    | StartWorker(caller: nat)
    | Signal(caller: nat)
    | Receive
    | Drain
    | StopDraining
    | TakeSnapshot
    | MakePass(cancelled: bool, desired: Routes, router: Router)
    | Close
    | Exit

  ghost predicate Enabled(s: State, e: Event) {
    match e
    case Write(caller, edit) =>
      caller !in s.wrote + s.started && (edit.Store? ==> AllRegistered(edit.entries))
    case StartWorker(caller) => caller in s.wrote
    case Signal(caller) => caller in s.started
    case Receive => s.worker.Waiting? && s.slot
    case Drain => s.worker.Draining? && s.slot
    case StopDraining => s.worker.Draining? && !s.slot
    case TakeSnapshot => s.worker.Drained?
    case MakePass(cancelled, desired, router) =>
      s.worker.Applying? && (cancelled ==> s.closed) && Built(desired, Demands(s.worker.taken))
    case Close => true
    case Exit => s.worker.Waiting? && s.closed
  }

  /** A step that is not enabled does nothing. */
  ghost function Next(s: State, e: Event): State {
    if !Enabled(s, e) then s
    else
      match e
      case Write(caller, edit) => s.(lambdas := Edited(s.lambdas, edit), wrote := s.wrote + {caller})
      case StartWorker(caller) =>
        s.(wrote := s.wrote - {caller}, started := s.started + {caller},
           worker := if s.worker.Unstarted? then Waiting else s.worker)
      case Signal(caller) => s.(started := s.started - {caller}, slot := true)
      case Receive => s.(slot := false, worker := Draining)
      case Drain => s.(slot := false)
      case StopDraining => s.(worker := Drained)
      case TakeSnapshot => s.(worker := Applying(s.lambdas))
      case MakePass(cancelled, desired, router) =>
        s.(worker := Waiting,
           last := Some(Pass(s.worker.taken, cancelled, forall c | c in Calls(s.routes, desired) :: router(c))),
           routes := if cancelled then s.routes else NextTable(s.routes, desired, router))
      case Close => s.(closed := true)
      case Exit => s.(worker := Exited)
  }

  function Start(routes: Routes): State {
    State(map[], {}, {}, false, Unstarted, None, false, routes)
  }

  ghost function Run(s: State, es: seq<Event>): State {
    if es == [] then s else Next(Run(s, es[..|es| - 1]), es[|es| - 1])
  }

  /** The registrations the worker saw last. */
  function Seen(s: State): Snapshot {
    if s.worker.Applying? then s.worker.taken
    else if s.last.Some? then s.last.value.taken
    else map[]
  }

  /** A change the worker has not seen is on its way to it. */
  ghost predicate NoneLost(s: State) {
    s.lambdas == Seen(s) || s.slot || s.wrote + s.started != {} || s.worker.Draining? || s.worker.Drained?
  }

  /** The table serves the registrations of the last pass exactly if that pass was clean. */
  ghost predicate Served(s: State) {
    s.last.Some? && !s.last.value.cancelled ==>
      forall desired: Routes | Built(desired, Demands(s.last.value.taken)) ::
        InSync(s.routes, desired) <==> s.last.value.clean
  }

  ghost predicate Sound(s: State) {
    && NoneLost(s)
    && AllRegistered(s.lambdas) && AllRegistered(Seen(s))
    && (s.worker.Unstarted? ==> s.started == {} && !s.slot)
    && s.wrote !! s.started
  }

  lemma StepSound(s: State, e: Event)
    requires Sound(s)
    ensures Sound(Next(s, e))
  {
    hide Registered, Built, Demands, Calls, NextTable;
  }

  lemma RegisteredDemands(state: Snapshot)
    requires AllRegistered(state)
    ensures forall x | x in Demands(state) :: NormalizeKind(x.kind) == x.kind
  {
    forall x | x in Demands(state) ensures NormalizeKind(x.kind) == x.kind {
      DemandRegistered(state, x);
    }
  }

  lemma SyncAgrees(routes: Routes, a: Routes, b: Routes, taken: Snapshot)
    requires AllRegistered(taken) && Built(a, Demands(taken)) && Built(b, Demands(taken)) && InSync(routes, a)
    ensures InSync(routes, b)
  {
    hide Built, Demands, EqualRoutes, Registered;
    RegisteredDemands(taken);
    DesiredConfluent(a, b, Demands(taken));
    forall k | k in b ensures EqualRoutes(routes[k], b[k]) {
      EqualRoutesEquivalence(routes[k], a[k], b[k]);
    }
  }

  /** Whichever walk over the registrations the table is compared with. */
  lemma PassServes(taken: Snapshot, routes: Routes, desired: Routes, router: Router)
    requires AllRegistered(taken) && Built(desired, Demands(taken))
    ensures forall other: Routes | Built(other, Demands(taken)) ::
              InSync(NextTable(routes, desired, router), other) <==> forall c | c in Calls(routes, desired) :: router(c)
  {
    hide Built, Demands, Calls, NextTable, InSync, Registered;
    var next := NextTable(routes, desired, router);
    FailuresRemain(routes, desired, router);
    InSyncIsQuiet(next, desired);
    var failed := set c | c in Calls(routes, desired) && !router(c);
    assert forall c :: c in failed <==> c in Calls(routes, desired) && !router(c);
    forall other: Routes | Built(other, Demands(taken))
      ensures InSync(next, other) <==> forall c | c in Calls(routes, desired) :: router(c)
    {
      if InSync(next, desired) {
        SyncAgrees(next, desired, other, taken);
      }
      if InSync(next, other) {
        SyncAgrees(next, other, desired, taken);
      }
    }
  }

  lemma StepServed(s: State, e: Event)
    requires Sound(s) && Served(s)
    ensures Served(Next(s, e))
  {
    hide Registered, Built, Demands, Calls, NextTable, InSync, NoneLost;
    if e.MakePass? && Enabled(s, e) && !e.cancelled {
      PassServes(s.worker.taken, s.routes, e.desired, e.router);
    }
  }

  /** In every interleaving, whatever the router does. */
  lemma {:induction false} RunSound(routes: Routes, es: seq<Event>)
    ensures Sound(Run(Start(routes), es)) && Served(Run(Start(routes), es))
    decreases |es|
  {
    hide Sound, Served, Next;
    if es == [] {
      StartSound(routes);
    } else {
      RunSound(routes, es[..|es| - 1]);
      StepSound(Run(Start(routes), es[..|es| - 1]), es[|es| - 1]);
      StepServed(Run(Start(routes), es[..|es| - 1]), es[|es| - 1]);
    }
  }

  lemma StartSound(routes: Routes)
    ensures Sound(Start(routes)) && Served(Start(routes))
  {
  }

  /** No caller between its write and its signal, no signal, and a worker with nothing at hand. */
  ghost predicate AtRest(s: State) {
    s.wrote + s.started == {} && !s.slot && (s.worker.Unstarted? || s.worker.Waiting?)
  }

  /**
   At rest the worker has seen the current registrations, and the table is what they
   ask for exactly if its last pass was clean: a pass that failed is not tried again
   before the next signal.
   */
  lemma RestIsCurrent(routes: Routes, es: seq<Event>)
    ensures var s := Run(Start(routes), es);
            AtRest(s) ==>
              && s.lambdas == (if s.last.Some? then s.last.value.taken else map[])
              && (s.last.Some? && !s.last.value.cancelled ==>
                    forall desired: Routes | Built(desired, Demands(s.lambdas)) ::
                      InSync(s.routes, desired) <==> s.last.value.clean)
  {
    hide Built, Demands, InSync, Next, AllRegistered;
    RunSound(routes, es);
  }

  /** A snapshot is taken only after a look at an empty slot, so that all signals sent by then are spent on it. */
  lemma DrainedEmpty(s: State, e: Event)
    requires Next(s, e).worker.Drained? && !s.worker.Drained?
    ensures s.worker.Draining? && !s.slot && !Next(s, e).slot && Next(s, e).lambdas == s.lambdas
  {
    hide Built, Demands, Calls, NextTable;
  }

  /** In every run the worker gives up, or cuts a pass off, only once the registrar has been closed. */
  lemma {:induction false} CancelledOnlyClosed(routes: Routes, es: seq<Event>)
    ensures var s := Run(Start(routes), es);
            (s.last.Some? && s.last.value.cancelled) || s.worker.Exited? ==> s.closed
    decreases |es|
  {
    if es != [] {
      CancelledOnlyClosed(routes, es[..|es| - 1]);
      StepOnlyClosed(Run(Start(routes), es[..|es| - 1]), es[|es| - 1]);
    }
    hide Next;
  }

  lemma StepOnlyClosed(s: State, e: Event)
    requires (s.last.Some? && s.last.value.cancelled) || s.worker.Exited? ==> s.closed
    ensures var t := Next(s, e); (t.last.Some? && t.last.value.cancelled) || t.worker.Exited? ==> t.closed
  {
    hide Built, Demands, Calls, NextTable, AllRegistered;
  }

  /** A pass cut off leaves the table as it is. */
  lemma CutOffChangesNothing(s: State, e: Event)
    requires e.MakePass? && e.cancelled && Enabled(s, e)
    ensures Next(s, e).routes == s.routes && Next(s, e).lambdas == s.lambdas && Next(s, e).worker.Waiting?
  {
    hide Built, Demands, Calls, NextTable;
  }

  // --- It does come to rest ------------------------------------------------------------

  /** Steps that finish work already begun. */
  predicate Internal(e: Event) {
    !e.Write? && !e.Close? && !e.Exit?
  }

  /** An upper bound on the steps until rest. */
  function Distance(s: State): nat {
    7 * |s.wrote| + 6 * |s.started| + (if s.slot then 5 else 0) +
    match s.worker
    case Draining => 3
    case Drained => 2
    case Applying(_) => 1
    case _ => 0
  }

  lemma Closer(s: State, e: Event)
    requires Sound(s) && Internal(e) && Enabled(s, e)
    ensures Distance(Next(s, e)) < Distance(s)
  {
    hide NoneLost, AllRegistered, Built, Demands, Calls, NextTable;
    if e.StartWorker? {
      assert |s.wrote - {e.caller}| == |s.wrote| - 1;
    } else if e.Signal? {
      assert |s.started - {e.caller}| == |s.started| - 1;
    }
  }

  /** Away from rest some step is possible, unless the worker has left after Close. */
  lemma StepPossible(s: State)
    requires Sound(s) && !AtRest(s) && (s.worker.Exited? ==> s.wrote + s.started != {})
    ensures exists e :: Internal(e) && Enabled(s, e)
  {
    hide NoneLost, AllRegistered, Built, Demands, Calls, NextTable;
    var e: Event;
    if s.wrote != {} {
      var c :| c in s.wrote;
      e := StartWorker(c);
    } else if s.started != {} {
      var c :| c in s.started;
      e := Signal(c);
    } else if s.worker.Applying? {
      BuiltExists(Demands(s.worker.taken));
      var built: Routes :| Built(built, Demands(s.worker.taken));
      e := MakePass(false, built, _ => true);
    } else {
      e := match s.worker
           case Waiting => Receive
           case Draining => if s.slot then Drain else StopDraining
           case _ => TakeSnapshot;
    }
    assert Internal(e) && Enabled(s, e);
  }

  /** Every step of the run is a possible step that finishes work begun. */
  ghost predicate Working(s: State, es: seq<Event>) {
    es == [] || (Working(s, es[..|es| - 1]) && Internal(es[|es| - 1]) && Enabled(Run(s, es[..|es| - 1]), es[|es| - 1]))
  }

  /** Without new changes no run works on for longer than the distance to rest. */
  lemma {:induction false} WorkIsBounded(s: State, es: seq<Event>)
    requires Sound(s) && Working(s, es)
    ensures Sound(Run(s, es)) && |es| + Distance(Run(s, es)) <= Distance(s)
    decreases |es|
  {
    hide Sound, Next, Enabled, Distance;
    if es != [] {
      var before := Run(s, es[..|es| - 1]);
      WorkIsBounded(s, es[..|es| - 1]);
      StepSound(before, es[|es| - 1]);
      Closer(before, es[|es| - 1]);
    }
  }
}
