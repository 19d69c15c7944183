/**
 The manager of named pools while nobody else calls it: what single and bulk calls do to
 the counters and to the objects in the callers' hands, with the workers of the pools at
 work all the while.
 */
module PoolManager {
  import opened PoolModel
  import opened PoolLending
  import opened PoolLosses
  import opened PoolWaiting
  import opened PoolCalls
  import opened PoolBlocking

  type Pools = map<string, State>

  datatype Error = ShuttingDown | NotRegistered | NoObject

  /** Blocked: the call has not returned within the steps given. */
  datatype Outcome<T> = Got(value: T) | Unavailable | Failed(error: Error) | Blocked

  /** How an attempt to give an object back ends. */
  datatype Reply = Accepted | Rejected | Panicked

  function Elements(os: seq<nat>): set<nat> {
    set o | o in os
  }

  ghost predicate Distinct(os: seq<nat>) {
    forall i, j | 0 <= i < j < |os| :: os[i] != os[j]
  }

  lemma Extend(os: seq<nat>, o: nat)
    ensures Elements(os + [o]) == Elements(os) + {o}
    ensures Distinct(os + [o]) <==> Distinct(os) && o !in os
  {
    var more := os + [o];
    assert forall i | 0 <= i < |os| :: more[i] == os[i];
    assert more[|os|] == o;
    assert forall x :: x in more <==> x in os || x == o;
    if Distinct(more) {
      assert forall i, j | 0 <= i < j < |os| :: os[i] == more[i] && os[j] == more[j];
    }
  }

  /** What callers hold, pool by pool. */
  ghost function Outstanding(pools: Pools): set<(string, nat)> {
    set name, o | name in pools && o in HeldObjects(pools[name]) :: (name, o)
  }

  ghost predicate AllRested(pools: Pools) {
    forall name | name in pools :: Rested(pools[name])
  }

  lemma OutstandingWith(pools: Pools, name: string, t: State, n: string, o: nat)
    ensures (n, o) in Outstanding(pools[name := t]) <==>
              if n == name then o in HeldObjects(t) else (n, o) in Outstanding(pools)
    ensures (n, o) in Outstanding(pools) <==> n in pools && o in HeldObjects(pools[n])
  {
    hide HeldObjects;
  }

  lemma OneTaken(pools: Pools, name: string, t: State, o: nat)
    requires name in pools && o !in HeldObjects(pools[name]) && HeldObjects(t) == HeldObjects(pools[name]) + {o}
    ensures |Outstanding(pools[name := t])| == |Outstanding(pools)| + 1
  {
    hide HeldObjects, Outstanding;
    forall p: (string, nat) ensures p in Outstanding(pools[name := t]) <==> p in Outstanding(pools) + {(name, o)} {
      OutstandingWith(pools, name, t, p.0, p.1);
    }
    assert Outstanding(pools[name := t]) == Outstanding(pools) + {(name, o)};
    OutstandingWith(pools, name, t, name, o);
  }

  lemma OneBack(pools: Pools, name: string, t: State, o: nat)
    requires name in pools && o in HeldObjects(pools[name]) && HeldObjects(t) == HeldObjects(pools[name]) - {o}
    ensures |Outstanding(pools[name := t])| == |Outstanding(pools)| - 1
  {
    hide HeldObjects, Outstanding;
    forall p: (string, nat) ensures p in Outstanding(pools[name := t]) <==> p in Outstanding(pools) - {(name, o)} {
      OutstandingWith(pools, name, t, p.0, p.1);
    }
    assert Outstanding(pools[name := t]) == Outstanding(pools) - {(name, o)};
    OutstandingWith(pools, name, t, name, o);
  }

  lemma NoneMoved(pools: Pools, name: string, t: State)
    requires name in pools ==> HeldObjects(t) == HeldObjects(pools[name])
    requires name !in pools ==> HeldObjects(t) == {}
    ensures Outstanding(pools[name := t]) == Outstanding(pools)
  {
    hide HeldObjects, Outstanding;
    forall p: (string, nat) ensures p in Outstanding(pools[name := t]) <==> p in Outstanding(pools) {
      OutstandingWith(pools, name, t, p.0, p.1);
    }
  }

  /** Exchanging one pool for a later state of it. */
  lemma Exchanged(pools: Pools, name: string, t: State)
    ensures name in pools ==> OnlyIn(pools, pools[name := t], name)
    ensures name in pools && HeldObjects(t) == HeldObjects(pools[name]) ==> SameHands(pools, pools[name := t])
    ensures AllRested(pools) && Rested(t) ==> AllRested(pools[name := t])
    ensures AllRested(pools) && name in pools ==> Rested(pools[name])
  {
    hide HeldObjects, Rested;
  }

  lemma Unchanged(pools: Pools, name: string)
    ensures OnlyIn(pools, pools, name) && SameHands(pools, pools)
  {
    hide HeldObjects;
  }

  /** Only this pool has changed. */
  ghost predicate OnlyIn(before: Pools, now: Pools, name: string) {
    now.Keys == before.Keys && forall n | n in before && n != name :: now[n] == before[n]
  }

  /** The objects in the callers' hands are the same, in every pool. */
  ghost predicate SameHands(before: Pools, now: Pools) {
    now.Keys == before.Keys && forall n | n in before :: HeldObjects(now[n]) == HeldObjects(before[n])
  }

  /** Numbers for calls, none of them used yet. */
  ghost predicate Unused(pools: Pools, name: string, first: nat) {
    name in pools ==> forall r | r in pools[name].borrowers :: r < first
  }

  /** Distinct objects that callers hold. */
  ghost predicate InHand(pools: Pools, name: string, objects: seq<nat>) {
    name in pools && Distinct(objects) && Elements(objects) <= HeldObjects(pools[name])
  }

  ghost predicate HeldOrProcessed(s: State, objects: seq<nat>) {
    forall o | o in objects :: o in HeldObjects(s) || Processed(s, o)
  }

  /** The objects are back, and if the workers stand still their returns wait to be received. */
  ghost predicate HandedIn(before: Pools, now: Pools, name: string, objects: seq<nat>, still: bool) {
    && name in before && name in now
    && HeldObjects(now[name]) == HeldObjects(before[name]) - Elements(objects)
    && (still ==>
          && now[name].leases == before[name].leases
          && forall o | o in objects ::
               o in before[name].leases && before[name].leases[o] in now[name].channels &&
               now[name].channels[before[name].leases[o]].slot.Some?)
  }

  lemma NothingReturned(pools: Pools, name: string)
    requires name in pools
    ensures InHand(pools, name, []) && HandedIn(pools, pools, name, [], true)
  {
    hide HeldObjects;
    assert Elements([]) == {};
  }

  lemma PrefixInHand(pools: Pools, name: string, objects: seq<nat>, o: nat)
    ensures InHand(pools, name, objects + [o]) <==>
              InHand(pools, name, objects) && o in HeldObjects(pools[name]) && o !in objects
  {
    hide HeldObjects, Distinct;
    Extend(objects, o);
    hide Elements;
  }

  lemma PrefixesInHand(pools: Pools, name: string, objects: seq<nat>, n: nat)
    requires n <= |objects|
    ensures InHand(pools, name, objects) ==> InHand(pools, name, objects[..n])
  {
    hide HeldObjects;
    assert forall i | 0 <= i < n :: objects[..n][i] == objects[i];
  }

  /** An object handed in already, or seen through, is noticed if the workers stand still. */
  lemma PutNoticed(start: Pools, before: Pools, name: string, objects: seq<nat>, o: nat, still: bool)
    requires name in start && Rested(start[name]) && HandedIn(start, before, name, objects, still)
    requires o in objects || o !in HeldObjects(start[name])
    ensures o !in HeldObjects(before[name])
    ensures still && (o in objects || Processed(start[name], o)) ==> !Unnoticed(before[name], o, [])
  {
    hide HeldObjects, Exclusive, Requests, Served, InOrder, CountedWorkers;
    RunEmpty(before[name]);
    assert o in objects ==> o in Elements(objects);
  }

  lemma HandInOne(start: Pools, before: Pools, now: Pools, name: string, objects: seq<nat>, o: nat, still: bool)
    requires HandedIn(start, before, name, objects, still) && name in now && o !in objects
    requires HeldObjects(now[name]) == HeldObjects(before[name]) - {o}
    requires still ==> now[name].leases == before[name].leases && OneReturned(before[name], now[name], o)
    ensures HandedIn(start, now, name, objects + [o], still)
  {
    hide HeldObjects;
    Extend(objects, o);
    assert forall x :: x in objects + [o] <==> x in objects || x == o;
  }

  /** The callers hold these objects of the pool besides what they held before. */
  ghost predicate More(start: Pools, now: Pools, name: string, objects: seq<nat>) {
    && OnlyIn(start, now, name) && Distinct(objects)
    && if name in start then
         && Elements(objects) !! HeldObjects(start[name])
         && HeldObjects(now[name]) == HeldObjects(start[name]) + Elements(objects)
       else objects == []
  }

  lemma NoMore(pools: Pools, name: string)
    ensures More(pools, pools, name, []) && SameHands(pools, pools)
  {
    hide HeldObjects;
    assert Elements([]) == {};
  }

  lemma OneMore(start: Pools, before: Pools, now: Pools, name: string, objects: seq<nat>, o: nat)
    requires More(start, before, name, objects) && OnlyIn(before, now, name) && name in before
    requires o !in HeldObjects(before[name]) && HeldObjects(now[name]) == HeldObjects(before[name]) + {o}
    ensures More(start, now, name, objects + [o])
  {
    hide HeldObjects;
    Extend(objects, o);
  }

  lemma SameMore(start: Pools, before: Pools, now: Pools, name: string, objects: seq<nat>)
    requires More(start, before, name, objects) && OnlyIn(before, now, name) && SameHands(before, now)
    ensures More(start, now, name, objects)
  {
    hide HeldObjects;
  }

  lemma MoreInHand(start: Pools, now: Pools, name: string, objects: seq<nat>)
    requires More(start, now, name, objects)
    ensures objects == [] || InHand(now, name, objects)
    ensures name in now ==> InHand(now, name, objects)
    ensures name !in now ==> objects == []
  {
    hide HeldObjects;
  }

  /** All of it given back: the hands are as they were. */
  lemma NoneKept(start: Pools, before: Pools, now: Pools, name: string, objects: seq<nat>)
    requires More(start, before, name, objects) && OnlyIn(before, now, name)
    requires name in before ==> HeldObjects(now[name]) == HeldObjects(before[name]) - Elements(objects)
    ensures More(start, now, name, []) && SameHands(start, now)
  {
    hide HeldObjects;
    assert Elements([]) == {};
    if name in start {
      assert HeldObjects(now[name]) == HeldObjects(start[name]);
    }
  }

  lemma StartReturning(pools: Pools, name: string, objects: seq<nat>)
    ensures OnlyIn(pools, pools, name) && objects[..0] == []
    ensures name in pools ==> InHand(pools, name, []) && HandedIn(pools, pools, name, [], false)
    ensures InHand(pools, name, []) ==> name in pools
  {
    hide HeldObjects;
    if name in pools {
      NothingReturned(pools, name);
    }
  }

  lemma StillKeyed(start: Pools, now: Pools, name: string)
    requires OnlyIn(start, now, name)
    ensures name in now <==> name in start
  {
  }

  lemma OnlyInOn(start: Pools, before: Pools, now: Pools, name: string)
    requires OnlyIn(start, before, name) && OnlyIn(before, now, name)
    ensures OnlyIn(start, now, name)
  {
  }

  /** One more put, of an object in hand or not. */
  lemma TriedOne(start: Pools, before: Pools, now: Pools, name: string, objects: seq<nat>, o: nat)
    requires InHand(start, name, objects) && HandedIn(start, before, name, objects, false) && OnlyIn(before, now, name)
    requires o in HeldObjects(before[name]) ==> HeldObjects(now[name]) == HeldObjects(before[name]) - {o}
    requires o !in HeldObjects(before[name]) ==> HeldObjects(now[name]) == HeldObjects(before[name])
    ensures InHand(start, name, objects + [o]) <==> o in HeldObjects(before[name])
    ensures InHand(start, name, objects + [o]) ==> HandedIn(start, now, name, objects + [o], false)
    ensures !InHand(start, name, objects + [o]) ==> HandedIn(start, now, name, objects, false)
  {
    hide HeldObjects;
    PrefixInHand(start, name, objects, o);
    Extend(objects, o);
  }

  lemma AllReturned(start: Pools, now: Pools, name: string, objects: seq<nat>)
    ensures HandedIn(start, now, name, objects, false) ==>
              name in start && name in now && HeldObjects(now[name]) == HeldObjects(start[name]) - Elements(objects)
  {
  }

  /** The lease of an object nobody holds is cancelled while it is being put. */
  ghost predicate Cancelled(pools: Pools, name: string, o: nat, during: seq<Event>) {
    name in pools && o !in HeldObjects(pools[name]) && CutOff(pools[name], o, during)
  }

  /** The number names no request of the pool yet. */
  ghost predicate NewCall(pools: Pools, name: string, call: nat) {
    name in pools ==> call !in pools[name].borrowers
  }

  class Manager {
    var pools: Pools
    var shutdown: bool
    var activeCount: int
    var inFlight: int

    /** No call is under way, and both counters tell how many objects callers hold. */
    ghost predicate Valid()
      reads this
    {
      && AllRested(pools)
      && activeCount == inFlight == |Outstanding(pools)|
    }

    constructor ()
      ensures Valid() && pools == map[] && !shutdown
    {
      pools, shutdown, activeCount, inFlight := map[], false, 0, 0;
    }

    method RegisterPool(name: string, capacity: int, queueSize: int) returns (ok: bool)
      requires Valid()
      modifies this`pools
      ensures Valid()
      ensures ok <==> !shutdown && name !in old(pools) && capacity > 0
      ensures pools == if ok then old(pools)[name := NewPool(capacity, queueSize)] else old(pools)
      ensures ok ==>
                var s := pools[name];
                && (forall w: nat :: w in s.workers <==> w < capacity) && (forall w | w in s.workers :: s.workers[w] == Worker(w, Idle))
                && s.queue == [] && s.queueSize == (if queueSize > 0 then queueSize else capacity)
                && s.borrowers == map[] && s.leases == map[] && s.channels == map[]
    {
      hide Outstanding, Rested, HeldObjects, AllRested, NewPool, SameHands, OnlyIn;
      if shutdown || name in pools || capacity <= 0 {
        return false;
      }
      NewRested(capacity, queueSize);
      NewExactly(capacity, queueSize);
      NoneMoved(pools, name, NewPool(capacity, queueSize));
      Exchanged(pools, name, NewPool(capacity, queueSize));
      pools := pools[name := NewPool(capacity, queueSize)];
      return true;
    }

    /** The workers go on between calls, and nothing changes hands. */
    method WorkersAct(name: string, es: seq<Event>)
      requires Valid() && OnlyWorkers(es)
      modifies this`pools
      ensures Valid() && OnlyIn(old(pools), pools, name) && SameHands(old(pools), pools)
      ensures name in pools ==> pools[name] == Run(old(pools)[name], es)
    {
      hide Rested, Run, Outstanding, OnlyWorkers, OnlyIn, SameHands, AllRested;
      Unchanged(pools, name);
      if name !in pools {
        return;
      }
      Exchanged(pools, name, Run(pools[name], es));
      WorkersRest(pools[name], es);
      hide HeldObjects;
      NoneMoved(pools, name, Run(pools[name], es));
      pools := pools[name := Run(pools[name], es)];
    }

    /**
     call names the request; es is what the call and the workers do until it returns or as
     far as is told. A call that fails leaves the hands as they were, though not the pool:
     its request may still be queued, or an object stranded in its result slot.
     */
    method Get(name: string, call: nat, cancellable: bool, es: seq<Event>) returns (r: Outcome<nat>)
      requires Valid() && NewCall(pools, name, call) && Own(es, call)
      modifies this`pools, this`activeCount, this`inFlight
      ensures !r.Blocked? ==> Valid()
      ensures OnlyIn(old(pools), pools, name)
      ensures shutdown ==> r == Failed(ShuttingDown) && pools == old(pools)
      ensures !shutdown && name !in old(pools) ==> r == Failed(NotRegistered) && pools == old(pools)
      ensures !shutdown && name in old(pools) ==> pools[name] == Run(Next(old(pools)[name], PoolModel.Get(call, cancellable)), es)
      ensures !shutdown && name in old(pools) ==> pools[name].borrowers.Keys == old(pools)[name].borrowers.Keys + {call}
      ensures r.Got? ==>
                && !shutdown && name in old(pools) && r.value !in HeldObjects(old(pools)[name])
                && HeldObjects(pools[name]) == HeldObjects(old(pools)[name]) + {r.value}
      ensures !r.Got? ==> SameHands(old(pools), pools)
      ensures activeCount == old(activeCount) + (if r.Got? then 1 else 0)
      ensures !r.Unavailable?
    {
      hide Rested, Sound, Run, Next, HeldObjects, Outstanding, Spare, OnlyIn, SameHands, AllRested, Own, Called;
      Unchanged(pools, name);
      if shutdown {
        return Failed(ShuttingDown);
      }
      if name !in pools {
        return Failed(NotRegistered);
      }
      var s := pools[name];
      var t := Run(Next(s, PoolModel.Get(call, cancellable)), es);
      Exchanged(pools, name, t);
      GetEffect(s, PoolModel.Get(call, cancellable), es, call);
      CalledMeans(s, t, call);
      if t.borrowers[call].stage.Holding? {
        var o := t.borrowers[call].stage.item;
        OneTaken(pools, name, t, o);
        inFlight := inFlight + 1;
        activeCount := activeCount + 1;
        r := Got(o);
      } else {
        NoneMoved(pools, name, t);
        r := if t.borrowers[call].stage.Ended? then Failed(NoObject) else Blocked;
      }
      pools := pools[name := t];
    }

    /** Without other callers a request is never failed: the call gets an object, finds the queue full, or waits. */
    method TryGet(name: string, call: nat, es: seq<Event>) returns (r: Outcome<nat>)
      requires Valid() && NewCall(pools, name, call) && Alone(es, call)
      modifies this`pools, this`activeCount, this`inFlight
      ensures !r.Blocked? ==> Valid()
      ensures OnlyIn(old(pools), pools, name)
      ensures shutdown ==> r == Failed(ShuttingDown) && pools == old(pools)
      ensures !shutdown && name !in old(pools) ==> r == Failed(NotRegistered) && pools == old(pools)
      ensures !shutdown && name in old(pools) ==> pools[name] == Run(Next(old(pools)[name], PoolModel.TryGet(call)), es)
      ensures !shutdown && name in old(pools) ==> pools[name].borrowers.Keys == old(pools)[name].borrowers.Keys + {call}
      ensures r.Failed? <==> shutdown || name !in old(pools)
      ensures r.Unavailable? <==>
                !shutdown && name in old(pools) && |old(pools)[name].queue| >= old(pools)[name].queueSize
      ensures r.Got? ==>
                && r.value !in HeldObjects(old(pools)[name])
                && HeldObjects(pools[name]) == HeldObjects(old(pools)[name]) + {r.value}
                && Spare(pools[name]) < Spare(old(pools)[name]) && Spare(old(pools)[name]) > 0
      ensures r.Blocked? ==> !Back(pools[name], call)
      ensures r.Got? <==> !shutdown && name in old(pools) && Holds(pools[name], call)
      ensures !r.Got? ==> SameHands(old(pools), pools)
      ensures activeCount == old(activeCount) + (if r.Got? then 1 else 0)
    {
      hide Rested, Sound, Run, Next, HeldObjects, Outstanding, Spare, OnlyIn, SameHands, AllRested, Alone, Called;
      Unchanged(pools, name);
      if shutdown {
        return Failed(ShuttingDown);
      }
      if name !in pools {
        return Failed(NotRegistered);
      }
      var s := pools[name];
      var t := Run(Next(s, PoolModel.TryGet(call)), es);
      Exchanged(pools, name, t);
      GetEffect(s, PoolModel.TryGet(call), es, call);
      RestedSound(s);
      TryGetEnds(s, call, es);
      CalledMeans(s, t, call);
      if t.borrowers[call].stage.Holding? {
        var o := t.borrowers[call].stage.item;
        OneTaken(pools, name, t, o);
        inFlight := inFlight + 1;
        activeCount := activeCount + 1;
        r := Got(o);
      } else {
        NoneMoved(pools, name, t);
        r := if |s.queue| >= s.queueSize then Unavailable else if t.borrowers[call].stage.Ended? then Failed(NoObject) else Blocked;
      }
      pools := pools[name := t];
    }

    /**
     panicked: the pool is unknown, the put failed, or the objects in flight are counted below
     zero. The counters fall unless the pool is unknown.
     */
    method Put(name: string, o: nat, during: seq<Event>) returns (panicked: bool)
      requires OnlyWorkers(during)
      modifies this`pools, this`activeCount, this`inFlight
      ensures OnlyIn(old(pools), pools, name)
      ensures name !in old(pools) ==> panicked && pools == old(pools)
      ensures activeCount == old(activeCount) - (if name in old(pools) then 1 else 0)
      ensures inFlight == old(inFlight) - (if name in old(pools) then 1 else 0)
      ensures old(Valid()) && name in old(pools) && o in HeldObjects(old(pools)[name]) ==>
                !panicked && Valid() && HeldObjects(pools[name]) == HeldObjects(old(pools)[name]) - {o}
      ensures old(Valid()) && name in old(pools) && o in HeldObjects(old(pools)[name]) && during == [] ==>
                pools[name].leases == old(pools)[name].leases && OneReturned(old(pools)[name], pools[name], o)
      ensures name in old(pools) && o !in HeldObjects(old(pools)[name]) ==>
                (panicked <==> !Unnoticed(old(pools)[name], o, during) || old(inFlight) <= 0)
      ensures !panicked ==> old(inFlight) > 0
      ensures old(Valid()) && name in old(pools) && o !in HeldObjects(old(pools)[name]) ==>
                HeldObjects(pools[name]) == HeldObjects(old(pools)[name])
    {
      Unchanged(pools, name);
      if name !in pools {
        return true;
      }
      hide Rested, HeldObjects, Outstanding, OnlyIn, SameHands, AllRested, OnlyWorkers, Unnoticed, OneReturned;
      var t, ok, _ := Return(pools[name], o, during);
      Exchanged(pools, name, t);
      if old(Valid()) && o in HeldObjects(pools[name]) {
        OneBack(pools, name, t, o);
      }
      pools := pools[name := t];
      activeCount := activeCount - 1;
      inFlight := inFlight - 1;
      panicked := !ok || inFlight < 0;
    }

    /**
     Never panics over distinct objects the callers hold, whatever the workers do meanwhile.
     On anything else it does panic as long as the workers stand still and the objects not
     held are ones whose return has been seen through.
     */
    method PutMany(name: string, objects: seq<nat>, during: nat -> seq<Event>) returns (panicked: bool)
      requires Valid() && (forall i :: OnlyWorkers(during(i)))
      modifies this`pools, this`activeCount, this`inFlight
      ensures OnlyIn(old(pools), pools, name)
      ensures objects == [] ==> !panicked && pools == old(pools) && activeCount == old(activeCount) && Valid()
      ensures name !in old(pools) && objects != [] ==> panicked && pools == old(pools) && activeCount == old(activeCount)
      ensures InHand(old(pools), name, objects) ==>
                && !panicked && Valid() && activeCount == old(activeCount) - |objects|
                && HeldObjects(pools[name]) == HeldObjects(old(pools)[name]) - Elements(objects)
      ensures name in old(pools) && (forall i :: during(i) == []) && HeldOrProcessed(old(pools)[name], objects) ==>
                (panicked <==> !InHand(old(pools), name, objects))
      ensures !panicked ==> |objects| <= |Outstanding(old(pools))|
    {
      hide HeldObjects, Outstanding, OnlyWorkers, Unnoticed, OneReturned, Rested, Processed;
      panicked := false;
      ghost var still := forall i :: during(i) == [];
      assert objects[..0] == [];
      if name in pools {
        NothingReturned(pools, name);
      }
      for i := 0 to |objects|
        invariant !panicked && OnlyIn(old(pools), pools, name)
        invariant i == 0 ==> pools == old(pools) && activeCount == old(activeCount) && Valid()
        invariant name in old(pools) || i == 0
        invariant 0 <= inFlight == old(inFlight) - i
        invariant i > 0 && InHand(old(pools), name, objects[..i]) ==> Valid() && activeCount == old(activeCount) - i
        invariant InHand(old(pools), name, objects[..i]) ==> HandedIn(old(pools), pools, name, objects[..i], still)
        invariant still && name in old(pools) && HeldOrProcessed(old(pools)[name], objects) ==>
                    InHand(old(pools), name, objects[..i])
      {
        ghost var before := pools;
        assert objects[..i + 1] == objects[..i] + [objects[i]];
        PrefixInHand(old(pools), name, objects[..i], objects[i]);
        panicked := Put(name, objects[i], during(i));
        if name in before && InHand(old(pools), name, objects[..i]) {
          if InHand(old(pools), name, objects[..i + 1]) {
            HandInOne(old(pools), before, pools, name, objects[..i], objects[i], still);
          } else {
            PutNoticed(old(pools), before, name, objects[..i], objects[i], still);
          }
        }
        if panicked {
          PrefixesInHand(old(pools), name, objects, i + 1);
          return;
        }
      }
      assert objects[..|objects|] == objects;
    }

    /**
     All count objects, or, whatever goes wrong, the hands and the counters as before; only
     a call that never returns keeps what it has got. kept: what the callers have more than
     before; first: the first of the numbers that name the requests.
     */
    method GetMany(name: string, count: int, first: nat, cancellable: bool,
                   es: nat -> seq<Event>, during: nat -> seq<Event>)
      returns (r: Outcome<seq<nat>>, ghost kept: seq<nat>)
      requires Valid() && Unused(pools, name, first)
      requires forall i: nat :: Own(es(i), first + i) && OnlyWorkers(during(i))
      modifies this`pools, this`activeCount, this`inFlight
      ensures !r.Blocked? ==> Valid()
      ensures count <= 0 ==> r == Got([]) && pools == old(pools) && activeCount == old(activeCount)
      ensures More(old(pools), pools, name, kept) && activeCount == old(activeCount) + |kept|
      ensures r.Got? ==> r.value == kept && |kept| == if count <= 0 then 0 else count
      ensures r.Failed? ==> kept == [] && SameHands(old(pools), pools)
      ensures r.Blocked? ==> |kept| < count
      ensures !r.Unavailable?
    {
      hide HeldObjects, Outstanding, OnlyWorkers, Own, Rested, AllRested, OnlyIn, SameHands, More, Elements, Distinct, InHand, HeldOrProcessed;
      NoMore(pools, name);
      var objects: seq<nat> := [];
      kept := [];
      if count <= 0 {
        return Got([]), [];
      }
      for i := 0 to count
        invariant Valid() && More(old(pools), pools, name, objects) && kept == objects && |objects| == i
        invariant activeCount == old(activeCount) + i && Unused(pools, name, first + i)
      {
        ghost var before := pools;
        assert name in pools ==> first + i !in pools[name].borrowers;
        var got := Get(name, first + i, cancellable, es(i));
        match got
        case Got(o) =>
          OneMore(old(pools), before, pools, name, objects, o);
          objects := objects + [o];
          kept := objects;
        case Blocked =>
          SameMore(old(pools), before, pools, name, objects);
          return Blocked, objects;
        case Failed(error) =>
          SameMore(old(pools), before, pools, name, objects);
          RollBack(name, objects, during, old(pools));
          return Failed(error), [];
      }
      return Got(objects), objects;
    }

    method RollBack(name: string, objects: seq<nat>, during: nat -> seq<Event>, ghost start: Pools)
      requires Valid() && More(start, pools, name, objects) && (forall i: nat :: OnlyWorkers(during(i)))
      modifies this`pools, this`activeCount, this`inFlight
      ensures Valid() && More(start, pools, name, []) && SameHands(start, pools)
      ensures activeCount == old(activeCount) - |objects|
    {
      hide HeldObjects, Outstanding, OnlyWorkers, Rested, AllRested, OnlyIn, SameHands, More, Elements, Distinct, HeldOrProcessed;
      MoreInHand(start, pools, name, objects);
      var panicked := PutMany(name, objects, during);
      NoneKept(start, old(pools), pools, name, objects);
    }

    /** The same without waiting for room in the queue, and all of it exactly if each of the calls obtains its object. */
    method TryGetMany(name: string, count: int, first: nat, es: nat -> seq<Event>, during: nat -> seq<Event>)
      returns (r: Outcome<seq<nat>>, ghost kept: seq<nat>)
      requires Valid() && Unused(pools, name, first)
      requires forall i: nat :: Alone(es(i), first + i) && OnlyWorkers(during(i))
      modifies this`pools, this`activeCount, this`inFlight
      ensures !r.Blocked? ==> Valid()
      ensures count <= 0 ==> r == Got([]) && pools == old(pools) && activeCount == old(activeCount)
      ensures More(old(pools), pools, name, kept) && activeCount == old(activeCount) + |kept|
      ensures r.Got? ==> r.value == kept && |kept| == if count <= 0 then 0 else count
      ensures r.Got? <==>
                count <= 0 || (!shutdown && name in old(pools) && Obtains(old(pools)[name], first, es, count))
      ensures r.Got? && count > 0 ==> count <= Spare(old(pools)[name])
      ensures r.Failed? || r.Unavailable? ==> kept == [] && SameHands(old(pools), pools)
      ensures r.Failed? ==> shutdown || name !in old(pools)
      ensures r.Blocked? ==> |kept| < count
    {
      hide HeldObjects, Outstanding, OnlyWorkers, Alone, Rested, AllRested, OnlyIn, SameHands, More, Elements, Distinct, InHand, HeldOrProcessed, Spare, Back, Holds, Tries, Obtains, Run, Next;
      if name in pools {
        NoTries(pools[name], first, es);
      }
      NoMore(pools, name);
      var objects: seq<nat> := [];
      kept := [];
      if count <= 0 {
        return Got([]), [];
      }
      for i := 0 to count
        invariant Valid() && More(old(pools), pools, name, objects) && kept == objects && |objects| == i
        invariant activeCount == old(activeCount) + i && Unused(pools, name, first + i)
        invariant name in pools <==> name in old(pools)
        invariant i > 0 ==> name in pools && Spare(pools[name]) <= Spare(old(pools)[name]) - i && i <= Spare(old(pools)[name])
        invariant i == 0 ==> pools == old(pools)
        invariant i > 0 ==> !shutdown
        invariant name in pools ==>
                    pools[name] == Tries(old(pools)[name], first, es, i) && Obtains(old(pools)[name], first, es, i)
      {
        ghost var before := pools;
        assert name in pools ==> first + i !in pools[name].borrowers;
        var got := TryGet(name, first + i, es(i));
        StillKeyed(before, pools, name);
        if name in before && !shutdown {
          TryAfter(old(pools)[name], first, es, i, count);
        }
        match got
        case Got(o) =>
          OneMore(old(pools), before, pools, name, objects, o);
          objects := objects + [o];
          kept := objects;
        case Blocked =>
          SameMore(old(pools), before, pools, name, objects);
          return Blocked, objects;
        case Unavailable =>
          SameMore(old(pools), before, pools, name, objects);
          RollBack(name, objects, during, old(pools));
          return Unavailable, [];
        case Failed(error) =>
          SameMore(old(pools), before, pools, name, objects);
          RollBack(name, objects, during, old(pools));
          return Failed(error), [];
      }
      return Got(objects), objects;
    }

    /**
     Like Put, but a refusal is told and leaves the counters alone. Counting the objects in
     flight below zero panics here too, before the other counter is touched; and so does a
     lease cancelled meanwhile, before either is.
     */
    method TryPut(name: string, o: nat, during: seq<Event>) returns (r: Reply)
      requires OnlyWorkers(during)
      modifies this`pools, this`activeCount, this`inFlight
      ensures OnlyIn(old(pools), pools, name)
      ensures name !in old(pools) ==> r.Rejected? && pools == old(pools)
      ensures activeCount == old(activeCount) - (if r.Accepted? then 1 else 0)
      ensures inFlight == old(inFlight) - if r.Rejected? || Cancelled(old(pools), name, o, during) then 0 else 1
      ensures old(Valid()) && name in old(pools) && o in HeldObjects(old(pools)[name]) ==>
                r.Accepted? && Valid() && HeldObjects(pools[name]) == HeldObjects(old(pools)[name]) - {o}
      ensures name in old(pools) && o !in HeldObjects(old(pools)[name]) ==>
                && (r.Rejected? <==> !Unnoticed(old(pools)[name], o, during) && !CutOff(old(pools)[name], o, during))
                && (r.Panicked? <==> CutOff(old(pools)[name], o, during) ||
                                     (Unnoticed(old(pools)[name], o, during) && old(inFlight) <= 0))
      ensures r.Accepted? ==> old(inFlight) > 0 && inFlight == old(inFlight) - 1
      ensures r.Panicked? && old(inFlight) > 0 ==>
                Cancelled(old(pools), name, o, during) && pools[name] == Run(old(pools)[name], during)
      ensures old(Valid()) && name in old(pools) && o !in HeldObjects(old(pools)[name]) ==>
                HeldObjects(pools[name]) == HeldObjects(old(pools)[name])
    {
      hide Rested, HeldObjects, Outstanding, OnlyIn, SameHands, AllRested, OnlyWorkers, Unnoticed, OneReturned;
      Unchanged(pools, name);
      if name !in pools {
        return Rejected;
      }
      var t, ok, cut := Return(pools[name], o, during);
      Exchanged(pools, name, t);
      if old(Valid()) && o in HeldObjects(pools[name]) {
        OneBack(pools, name, t, o);
      }
      pools := pools[name := t];
      if cut {
        return Panicked;
      }
      if !ok {
        return Rejected;
      }
      inFlight := inFlight - 1;
      if inFlight < 0 {
        return Panicked;
      }
      activeCount := activeCount - 1;
      return Accepted;
    }

    /**
     Stops at the first object that is not taken, which is never one in hand: the objects
     before it are back, those after it still out. It never takes more than were in flight,
     and panics only after as many, or on a lease cancelled meanwhile. back: how many were
     taken; last: the pool before the last put.
     */
    method TryPutMany(name: string, objects: seq<nat>, during: nat -> seq<Event>)
      returns (r: Reply, ghost back: nat, ghost last: Pools)
      requires Valid() && (forall i :: OnlyWorkers(during(i)))
      modifies this`pools, this`activeCount, this`inFlight
      ensures OnlyIn(old(pools), pools, name)
      ensures back <= |objects| && (r.Accepted? <==> back == |objects|) && activeCount == old(activeCount) - back
      ensures r.Accepted? && InHand(old(pools), name, objects) ==> Valid()
      ensures !r.Accepted? ==> !InHand(old(pools), name, objects[..back + 1])
      ensures InHand(old(pools), name, objects[..back]) ==>
                HeldObjects(pools[name]) == HeldObjects(old(pools)[name]) - Elements(objects[..back])
      ensures name !in old(pools) ==> back == 0 && pools == old(pools)
      ensures back <= |Outstanding(old(pools))|
      ensures r.Panicked? ==> name in last && name in pools
      ensures r.Panicked? && back < |Outstanding(old(pools))| ==>
                Cancelled(last, name, objects[back], during(back)) && pools[name] == Run(last[name], during(back))
    {
      hide *;
      StartReturning(pools, name, objects);
      InFlightIsOutstanding();
      r, back, last := Accepted, 0, pools;
      for i := 0 to |objects|
        invariant r.Accepted? && back == i && OnlyIn(old(pools), pools, name) && activeCount == old(activeCount) - i
        invariant 0 <= inFlight == old(inFlight) - i
        invariant i == 0 ==> pools == old(pools) && Valid()
        invariant name in old(pools) || i == 0
        invariant InHand(old(pools), name, objects[..i]) ==> Valid() && HandedIn(old(pools), pools, name, objects[..i], false)
      {
        ghost var before := pools;
        last := pools;
        assert objects[..i + 1] == objects[..i] + [objects[i]];
        PrefixInHand(old(pools), name, objects[..i], objects[i]);
        StillKeyed(old(pools), pools, name);
        r := TryPut(name, objects[i], during(i));
        OnlyInOn(old(pools), before, pools, name);
        if InHand(old(pools), name, objects[..i]) {
          TriedOne(old(pools), before, pools, name, objects[..i], objects[i]);
        }
        if !r.Accepted? {
          AllReturned(old(pools), pools, name, objects[..i]);
          return;
        }
        back := i + 1;
      }
      assert objects[..|objects|] == objects;
      assert InHand(old(pools), name, objects) ==> HandedIn(old(pools), pools, name, objects, false);
      AllReturned(old(pools), pools, name, objects);
    }

    lemma InFlightIsOutstanding()
      requires Valid()
      ensures activeCount == inFlight == |Outstanding(pools)|
    {
    }
  }

  lemma CalledMeans(s: State, t: State, r: nat)
    requires Called(s, t, r)
    ensures r in t.borrowers && t.borrowers.Keys == s.borrowers.Keys + {r}
    ensures t.borrowers[r].stage.Holding? ==>
              var o := t.borrowers[r].stage.item; Rested(t) && o !in HeldObjects(s) && HeldObjects(t) == HeldObjects(s) + {o}
    ensures t.borrowers[r].stage.Ended? ==> Rested(t)
    ensures !t.borrowers[r].stage.Holding? ==> HeldObjects(t) == HeldObjects(s)
  {
  }

  lemma NewExactly(capacity: nat, queueSize: int)
    requires capacity > 0
    ensures var s := NewPool(capacity, queueSize);
            && (forall w: nat :: w in s.workers <==> w < capacity) && (forall w | w in s.workers :: s.workers[w] == Worker(w, Idle))
            && s.queue == [] && s.queueSize == (if queueSize > 0 then queueSize else capacity)
            && s.borrowers == map[] && s.leases == map[] && s.channels == map[]
  {
  }

  lemma NewRested(capacity: nat, queueSize: int)
    requires capacity > 0
    ensures Rested(NewPool(capacity, queueSize)) && HeldObjects(NewPool(capacity, queueSize)) == {}
  {
    hide Sound;
    RunSound(capacity, queueSize, []);
    RunEmpty(NewPool(capacity, queueSize));
  }

  lemma RestedSound(s: State)
    requires Rested(s)
    ensures Sound(s)
  {
  }

  lemma WorkersRest(s: State, es: seq<Event>)
    requires Rested(s) && OnlyWorkers(es)
    ensures Rested(Run(s, es)) && HeldObjects(Run(s, es)) == HeldObjects(s)
  {
    hide Sound, Run, OnlyWorkers;
    WorkersOnly(s, es);
    var t := Run(s, es);
    SameStagesSameHands(s, t);
  }
}
