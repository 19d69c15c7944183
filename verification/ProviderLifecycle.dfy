/**
 Providers and their two-phase start: a start marks the provider under the lock, builds
 the instance without it, and records the outcome under the lock again. Calls interleave
 freely in between.
 */
module ProviderLifecycle {
  import opened Common
  import Text

  datatype Status = Pending | Starting | Running | Stopped | Failed

  /** Built for a specification under a context; cancelling the context stops it. */
  datatype Instance = Instance(name: string, spec: int, context: nat)

  datatype Provider = Provider(
    spec: int, instance: Option<Instance>, subscriptions: Option<Instance>, cancel: Option<nat>,
    running: bool, status: Status)

  type Providers = map<string, Provider>

  /** Contexts created, and whether they are cancelled. */
  type Contexts = map<nat, bool>

  function Idle(spec: int, status: Status): Provider {
    Provider(spec, None, None, None, false, status)
  }

  function StatusFrom(text: string): Status {
    var t := Text.Lower(Text.Trim(text));
    if t == "starting" then Starting
    else if t == "running" then Running
    else if t == "stopped" then Stopped
    else if t == "failed" then Failed
    else Pending
  }

  function Restored(status: Status): Status {
    match status
    case Running | Starting => Stopped
    case _ => status
  }

  /** Stopping what is not running changes nothing. */
  function Stop(p: Provider): Provider {
    if p.running then Idle(p.spec, Stopped) else p
  }

  function CancelOf(contexts: Contexts, p: Provider): Contexts {
    if p.running && p.cancel.Some? then contexts[p.cancel.value := true] else contexts
  }

  predicate Startable(providers: Providers, name: string) {
    name in providers && !providers[name].running && !providers[name].status.Starting?
  }

  // --- The manager ---------------------------------------------------------------------

  class Manager {
    var states: Providers
    var contexts: Contexts

    method Insert(name: string, spec: int, status: Status) returns (ok: bool)
      modifies this`states
      ensures ok <==> name !in old(states)
      ensures states == if ok then old(states)[name := Idle(spec, status)] else old(states)
    {
      ok := name !in states;
      if ok {
        states := states[name := Provider(spec, None, None, None, false, status)];
      }
    }

    method Restore(name: string, spec: int, text: string) returns (ok: bool)
      modifies this`states
      ensures ok <==> Text.Trim(name) != "" && Text.Trim(name) !in old(states)
      ensures states ==
                if ok then old(states)[Text.Trim(name) := Idle(spec, Restored(StatusFrom(text)))] else old(states)
      ensures ok ==> var word := Text.Lower(Text.Trim(text));
                     states[Text.Trim(name)] == Provider(spec, None, None, None, false,
                       if word in {"starting", "running", "stopped"} then Stopped else if word == "failed" then Failed else Pending)
    {
      hide Text.Trim, Text.Lower;
      if Text.Trim(name) == "" {
        return false;
      }
      ok := Insert(Text.Trim(name), spec, Restored(StatusFrom(text)));
    }

    method StopLocked(name: string)
      requires name in states
      modifies this
      ensures states == old(states)[name := Stop(old(states)[name])]
      ensures contexts == CancelOf(old(contexts), old(states)[name])
      ensures var p := old(states)[name];
              && states[name] == (if p.running then Provider(p.spec, None, None, None, false, Stopped) else p)
              && contexts == (if p.running && p.cancel.Some? then old(contexts)[p.cancel.value := true] else old(contexts))
    {
      var p := states[name];
      if !p.running {
        assert states[name := p] == states;
        return;
      }
      if p.cancel.Some? {
        contexts := contexts[p.cancel.value := true];
      }
      states := states[name := Provider(p.spec, None, None, None, false, Stopped)];
    }

    /** A provider in the middle of a start is not touched. */
    method Update(name: string, spec: int) returns (ok: bool)
      modifies this
      ensures ok <==> name in old(states) && !old(states)[name].status.Starting?
      ensures states == if ok then old(states)[name := Stop(old(states)[name]).(spec := spec)] else old(states)
      ensures contexts == if ok then CancelOf(old(contexts), old(states)[name]) else old(contexts)
      ensures ok ==>
                var p := old(states)[name];
                && states[name] == (if p.running then Provider(spec, None, None, None, false, Stopped) else p.(spec := spec))
                && contexts == (if p.running && p.cancel.Some? then old(contexts)[p.cancel.value := true] else old(contexts))
    {
      if name !in states || states[name].status.Starting? {
        return false;
      }
      if states[name].running {
        StopLocked(name);
      }
      states := states[name := states[name].(spec := spec)];
      return true;
    }

    /** Removes even a provider in the middle of a start. */
    method Remove(name: string) returns (ok: bool)
      modifies this
      ensures ok <==> name in old(states)
      ensures states == old(states) - {name}
      ensures contexts == if ok then CancelOf(old(contexts), old(states)[name]) else old(contexts)
      ensures ok ==>
                var p := old(states)[name];
                contexts == if p.running && p.cancel.Some? then old(contexts)[p.cancel.value := true] else old(contexts)
    {
      if name !in states {
        assert states - {name} == states;
        return false;
      }
      StopLocked(name);
      states := states - {name};
      return true;
    }

    method StopProvider(name: string) returns (ok: bool)
      modifies this
      ensures ok <==> name in old(states) && old(states)[name].running
      ensures states == if ok then old(states)[name := Stop(old(states)[name])] else old(states)
      ensures contexts == if ok then CancelOf(old(contexts), old(states)[name]) else old(contexts)
      ensures ok ==>
                var p := old(states)[name];
                && states[name] == Provider(p.spec, None, None, None, false, Stopped)
                && contexts == if p.cancel.Some? then old(contexts)[p.cancel.value := true] else old(contexts)
    {
      if name !in states || !states[name].running {
        return false;
      }
      StopLocked(name);
      return true;
    }

    method PrepareStart(name: string) returns (spec: Option<int>)
      modifies this`states
      ensures spec == if Startable(old(states), name) then Some(old(states)[name].spec) else None
      ensures states == if spec.Some? then old(states)[name := old(states)[name].(status := Starting)] else old(states)
      ensures spec.Some? <==> name in old(states) && !old(states)[name].running && old(states)[name].status != Starting
      ensures spec.Some? ==> spec.value == old(states)[name].spec
    {
      if name !in states {
        return None;
      }
      if states[name].running {
        return None;
      }
      if states[name].status.Starting? {
        return None;
      }
      states := states[name := states[name].(status := Starting)];
      return Some(states[name].spec);
    }

    method RecordFailure(name: string)
      modifies this`states
      ensures states == RecordedFailure(old(states), name)
      ensures name in old(states) ==>
                states == old(states)[name := Provider(old(states)[name].spec, None, None, None, false, Failed)]
    {
      if name in states {
        var p := states[name];
        states := states[name := p.(cancel := None, instance := None, subscriptions := None, running := false, status := Failed)];
      }
    }

    method RecordSuccess(name: string, instance: Instance) returns (ok: bool)
      modifies this`states
      ensures ok <==> name in old(states)
      ensures states == RecordedSuccess(old(states), name, instance)
      ensures ok ==>
                states == old(states)[name := Provider(old(states)[name].spec, Some(instance), Some(instance),
                                                       Some(instance.context), true, Running)]
    {
      ok := name in states;
      if ok {
        var p := states[name];
        states := states[name := p.(cancel := Some(instance.context), instance := Some(instance),
        subscriptions := Some(instance), running := true, status := Running)];
      }
    }
  }

  function RecordedFailure(providers: Providers, name: string): Providers {
    if name in providers then providers[name := Idle(providers[name].spec, Failed)] else providers
  }

  function RecordedSuccess(providers: Providers, name: string, instance: Instance): Providers {
    if name in providers then
      providers[name := Provider(providers[name].spec, Some(instance), Some(instance), Some(instance.context), true, Running)]
    else providers
  }

  // --- Calls in flight -------------------------------------------------------------------

  /**
   Entered: before the first lock. Prepared to Built, and Doomed: between the locks, with
   a context from Opened on; Doomed: the build failed and the context is cancelled.
   Orphan: built, but the provider was gone. Undoing: a Create about to delete what it made.
   */
  datatype Stage = Entered | Prepared | Opened(context: nat) | Built(context: nat) | Doomed | Orphan(context: nat) | Undoing | Over
  {
    predicate Between() {
      Prepared? || Opened? || Built? || Doomed?
    }

    predicate Holds(c: nat) {
      (Opened? || Built? || Orphan?) && context == c
    }
  }

  /** creator: the start is part of a Create. */
  datatype Call = Call(name: string, spec: int, creator: bool, stage: Stage)

  datatype State = State(states: Providers, calls: map<nat, Call>, contexts: Contexts)

  datatype Event =
    | Create(id: nat, name: string, spec: int, start: bool)
    | Restore(name: string, spec: int, status: Status)
    | Update(id: nat, name: string, spec: int, start: bool)
    | Remove(name: string)
    | StopProvider(name: string)
    | StartProvider(id: nat, name: string)
    | Prepare(id: nat, expired: bool)
    | Open(id: nat, context: nat)
    | Build(id: nat, ok: bool)
    | RecordFailure(id: nat)
    | RecordSuccess(id: nat)
    | Discard(id: nat)
    | Undo(id: nat)

  predicate Enabled(s: State, e: Event) {
    match e
    case Create(id, name, _, _) => id !in s.calls && name !in s.states
    case Restore(name, _, _) => name !in s.states
    case Update(id, name, _, _) => id !in s.calls && name in s.states && !s.states[name].status.Starting?
    case Remove(name) => name in s.states
    case StopProvider(name) => name in s.states && s.states[name].running
    case StartProvider(id, _) => id !in s.calls
    case Prepare(id, _) => id in s.calls && s.calls[id].stage.Entered?
    case Open(id, c) => id in s.calls && s.calls[id].stage.Prepared? && c !in s.contexts
    case Build(id, _) => id in s.calls && s.calls[id].stage.Opened?
    case RecordFailure(id) => id in s.calls && s.calls[id].stage.Doomed?
    case RecordSuccess(id) => id in s.calls && s.calls[id].stage.Built?
    case Discard(id) => id in s.calls && s.calls[id].stage.Orphan?
    case Undo(id) => id in s.calls && s.calls[id].stage.Undoing?
  }

  function To(s: State, id: nat, stage: Stage): State
    requires id in s.calls
  {
    s.(calls := s.calls[id := s.calls[id].(stage := stage)])
  }

  /** A call that has failed; a Create still has to take back what it made. */
  function GivenUp(s: State, id: nat): State
    requires id in s.calls
  {
    To(s, id, if s.calls[id].creator then Undoing else Over)
  }

  function Begun(s: State, id: nat, name: string, creator: bool, start: bool): State {
    if start then s.(calls := s.calls[id := Call(name, 0, creator, Entered)]) else s
  }

  /** A call the manager refuses, or a step that is not possible, changes nothing. */
  function Next(s: State, e: Event): State {
    if !Enabled(s, e) then s
    else
      match e
      case Create(id, name, spec, start) =>
        Begun(s.(states := s.states[name := Idle(spec, Pending)]), id, name, true, start)
      case Restore(name, spec, status) => s.(states := s.states[name := Idle(spec, Restored(status))])
      case Update(id, name, spec, start) =>
        var p := s.states[name];
        Begun(s.(states := s.states[name := Stop(p).(spec := spec)], contexts := CancelOf(s.contexts, p)),
              id, name, false, start)
      case Remove(name) => s.(states := s.states - {name}, contexts := CancelOf(s.contexts, s.states[name]))
      case StopProvider(name) =>
        s.(states := s.states[name := Stop(s.states[name])], contexts := CancelOf(s.contexts, s.states[name]))
      case StartProvider(id, name) => Begun(s, id, name, false, true)
      case Prepare(id, expired) =>
        var c := s.calls[id];
        if expired || !Startable(s.states, c.name) then GivenUp(s, id)
        else
          var p := s.states[c.name];
          s.(states := s.states[c.name := p.(status := Starting)], calls := s.calls[id := c.(spec := p.spec, stage := Prepared)])
      case Open(id, context) => To(s.(contexts := s.contexts[context := false]), id, Opened(context))
      case Build(id, ok) =>
        var context := s.calls[id].stage.context;
        if ok then To(s, id, Built(context)) else To(s.(contexts := s.contexts[context := true]), id, Doomed)
      case RecordFailure(id) => GivenUp(s.(states := RecordedFailure(s.states, s.calls[id].name)), id)
      case RecordSuccess(id) =>
        var c := s.calls[id];
        if c.name in s.states then
          To(s.(states := RecordedSuccess(s.states, c.name, Instance(c.name, c.spec, c.stage.context))), id, Over)
        else To(s, id, Orphan(c.stage.context))
      case Discard(id) => GivenUp(s.(contexts := s.contexts[s.calls[id].stage.context := true]), id)
      case Undo(id) => To(s.(states := s.states - {s.calls[id].name}), id, Over)
  }

  function Run(s: State, es: seq<Event>): State {
    if es == [] then s else Next(Run(s, es[..|es| - 1]), es[|es| - 1])
  }

  function Start(): State {
    State(map[], map[], map[])
  }

  // --- What holds in every interleaving ---------------------------------------------------

  /** Running, status Running, and instance, subscriptions and cancel being set all mean the same. */
  predicate Coherent(name: string, p: Provider) {
    && (p.running <==> p.status.Running?)
    && (p.running <==> p.instance.Some?)
    && (p.running <==> p.subscriptions.Some?)
    && (p.running <==> p.cancel.Some?)
    && (p.running ==>
          p.subscriptions == p.instance && p.instance.value.name == name && p.cancel == Some(p.instance.value.context))
  }

  ghost predicate AllCoherent(s: State) {
    forall name | name in s.states :: Coherent(name, s.states[name])
  }

  predicate Stored(s: State, name: string, c: nat) {
    name in s.states && s.states[name].cancel == Some(c)
  }

  predicate Held(s: State, id: nat, c: nat) {
    id in s.calls && s.calls[id].stage.Holds(c)
  }

  /** A stored or held context is live, and stored or held once. */
  ghost predicate Owned(s: State, c: nat) {
    && (forall name | Stored(s, name, c) :: c in s.contexts && !s.contexts[c])
    && (forall id | Held(s, id, c) :: c in s.contexts && !s.contexts[c])
    && (forall a, b | Stored(s, a, c) && Stored(s, b, c) :: a == b)
    && (forall a, b | Held(s, a, c) && Held(s, b, c) :: a == b)
    && (forall a, b | Stored(s, a, c) :: !Held(s, b, c))
  }

  ghost predicate Sound(s: State) {
    AllCoherent(s) && forall c :: Owned(s, c)
  }

  lemma StepCoherent(s: State, e: Event)
    requires AllCoherent(s)
    ensures AllCoherent(Next(s, e))
  {
  }

  /** Who holds or stores a context after a step did so before, but for a new one and one handed over. */
  lemma Holders(s: State, e: Event, c: nat)
    ensures forall id | Held(Next(s, e), id, c) :: Held(s, id, c) || (e == Open(id, c) && Enabled(s, e))
    ensures forall name | Stored(Next(s, e), name, c) ::
              Stored(s, name, c) || (e.RecordSuccess? && Held(s, e.id, c) && !Held(Next(s, e), e.id, c) && name == s.calls[e.id].name)
  {
  }

  /** A live context is only cancelled by who lets go of it. */
  lemma Cancelled(s: State, e: Event, c: nat)
    requires AllCoherent(s)
    ensures c in s.contexts && !s.contexts[c] ==>
              || (c in Next(s, e).contexts && !Next(s, e).contexts[c])
              || (exists name :: Stored(s, name, c) && !Stored(Next(s, e), name, c))
              || (exists id :: Held(s, id, c) && !Held(Next(s, e), id, c) && !e.RecordSuccess?)
    ensures e.Open? && e.context == c && Enabled(s, e) ==>
              c !in s.contexts && c in Next(s, e).contexts && !Next(s, e).contexts[c]
  {
    var t := Next(s, e);
    if Enabled(s, e) {
      match e
      case Update(_, name, _, _) => assert Stored(s, name, c) ==> !Stored(t, name, c);
      case Remove(name) => assert Stored(s, name, c) ==> !Stored(t, name, c);
      case StopProvider(name) => assert Stored(s, name, c) ==> !Stored(t, name, c);
      case Build(id, ok) => assert !ok && Held(s, id, c) ==> !Held(t, id, c);
      case Discard(id) => assert Held(s, id, c) ==> !Held(t, id, c);
      case _ =>
    }
  }

  lemma StepOwned(s: State, e: Event, c: nat)
    requires AllCoherent(s) && Owned(s, c)
    ensures Owned(Next(s, e), c)
  {
    hide Next, Held, Stored, AllCoherent, Enabled;
    Holders(s, e, c);
    Cancelled(s, e, c);
  }

  lemma StepSound(s: State, e: Event)
    requires Sound(s)
    ensures Sound(Next(s, e))
  {
    hide Owned, Next;
    StepCoherent(s, e);
    forall c ensures Owned(Next(s, e), c) {
      StepOwned(s, e, c);
    }
  }

  /** In every interleaving of calls. */
  lemma {:induction false} RunSound(es: seq<Event>)
    ensures Sound(Run(Start(), es))
    decreases |es|
  {
    hide Sound, Next;
    if es == [] {
      assert Sound(Start()) by {
        StartSound();
      }
    } else {
      RunSound(es[..|es| - 1]);
      StepSound(Run(Start(), es[..|es| - 1]), es[|es| - 1]);
    }
  }

  lemma StartSound()
    ensures Sound(Start())
  {
  }

  /** Create makes an idle provider; a start whose context has run out leaves everything alone. */
  lemma Begins(s: State, e: Event)
    requires Enabled(s, e)
    ensures e.Create? ==>
              && Next(s, e).states == s.states[e.name := Provider(e.spec, None, None, None, false, Pending)]
              && (e.start ==> Next(s, e).calls == s.calls[e.id := Call(e.name, 0, true, Entered)])
    ensures e.Prepare? && e.expired ==>
              && Next(s, e).states == s.states && Next(s, e).contexts == s.contexts
              && Next(s, e).calls[e.id].stage == if s.calls[e.id].creator then Undoing else Over
  {
  }

  /** A Create that comes to its end leaves its provider running, or has taken it back. */
  lemma CreateEnds(s: State, e: Event, id: nat)
    requires id in s.calls && s.calls[id].creator && !s.calls[id].stage.Over?
    ensures var t := Next(s, e);
            id in t.calls && t.calls[id].stage.Over? ==>
              var name := t.calls[id].name; name in t.states ==> t.states[name].running
  {
  }

  // --- Which steps lose a context ----------------------------------------------------------

  /** Live, and nobody can cancel it any more. */
  ghost predicate Leaked(s: State, c: nat) {
    && c in s.contexts && !s.contexts[c]
    && (forall name :: !Stored(s, name, c))
    && (forall id :: !Held(s, id, c))
  }

  /** The step writes over, or deletes, a provider that another call has brought to run. */
  predicate Overrides(s: State, e: Event) {
    && Enabled(s, e) && (e.RecordSuccess? || e.RecordFailure? || e.Undo?)
    && s.calls[e.id].name in s.states && s.states[s.calls[e.id].name].running
  }

  lemma LeakStays(s: State, e: Event, c: nat)
    requires AllCoherent(s) && Leaked(s, c)
    ensures Leaked(Next(s, e), c)
  {
    hide Next, Held, Stored, AllCoherent, Enabled;
    Holders(s, e, c);
    Cancelled(s, e, c);
  }

  lemma OverrideLeaks(s: State, e: Event) returns (c: nat)
    requires Sound(s) && Overrides(s, e)
    ensures Leaked(Next(s, e), c)
  {
    var name := s.calls[e.id].name;
    assert Coherent(name, s.states[name]);
    c := s.states[name].cancel.value;
    assert Stored(s, name, c) && Owned(s, c);
    assert !Held(s, e.id, c);
    Holders(s, e, c);
    Cancelled(s, e, c);
    assert !Stored(Next(s, e), name, c);
  }

  lemma OnlyOverridesLeak(s: State, e: Event, c: nat)
    requires AllCoherent(s) && !Overrides(s, e) && Leaked(Next(s, e), c)
    ensures Leaked(s, c)
  {
    hide AllCoherent, Coherent, Overrides, Held, Stored, Next;
    forall name ensures !Stored(s, name, c) {
      if Stored(s, name, c) {
        StoredMovesOn(s, e, name, c);
      }
    }
    forall id ensures !Held(s, id, c) {
      if Held(s, id, c) && !Held(Next(s, e), id, c) {
        HolderMovesOn(s, e, id, c);
      }
    }
    NewIsHeld(s, e, c);
  }

  lemma NewIsHeld(s: State, e: Event, c: nat)
    requires c in Next(s, e).contexts && !Next(s, e).contexts[c]
    ensures (c in s.contexts && !s.contexts[c]) || exists id :: Held(Next(s, e), id, c)
  {
    if e.Open? && Enabled(s, e) && e.context == c {
      assert Held(Next(s, e), e.id, c);
    }
  }

  /** Without an override a stored context stays stored or is cancelled. */
  lemma StoredMovesOn(s: State, e: Event, name: string, c: nat)
    requires AllCoherent(s) && !Overrides(s, e) && Stored(s, name, c)
    ensures Stored(Next(s, e), name, c) || (c in Next(s, e).contexts && Next(s, e).contexts[c])
  {
    assert Coherent(name, s.states[name]);
  }

  /** A call that lets go of its context hands it over or cancels it. */
  lemma HolderMovesOn(s: State, e: Event, id: nat, c: nat)
    requires Held(s, id, c) && !Held(Next(s, e), id, c)
    ensures (exists name :: Stored(Next(s, e), name, c)) || (c in Next(s, e).contexts && Next(s, e).contexts[c])
  {
    if e.RecordSuccess? {
      assert Stored(Next(s, e), s.calls[id].name, c);
    }
  }

  ghost predicate Accounted(s: State) {
    forall c :: !Leaked(s, c)
  }

  ghost predicate NoOverride(es: seq<Event>) {
    forall i | 0 <= i < |es| :: !Overrides(Run(Start(), es[..i]), es[i])
  }

  lemma NoOverrideLast(es: seq<Event>)
    requires es != []
    ensures NoOverride(es) <==>
              NoOverride(es[..|es| - 1]) && !Overrides(Run(Start(), es[..|es| - 1]), es[|es| - 1])
  {
    hide Run, Overrides;
    var init := es[..|es| - 1];
    assert forall i | 0 <= i < |init| :: init[..i] == es[..i] && init[i] == es[i];
  }

  /**
   Every context ever made is cancelled, stored with a running provider, or held by one
   call in flight, exactly if no step of the run overrode a running provider.
   */
  lemma {:induction false} AccountedExactly(es: seq<Event>)
    ensures Accounted(Run(Start(), es)) <==> NoOverride(es)
    decreases |es|
  {
    hide Next, Overrides, NoOverride, Leaked, AllCoherent, Owned;
    if es == [] {
      StartAccounted();
    } else {
      var before, e := Run(Start(), es[..|es| - 1]), es[|es| - 1];
      AccountedExactly(es[..|es| - 1]);
      RunSound(es[..|es| - 1]);
      NoOverrideLast(es);
      if Overrides(before, e) {
        var c := OverrideLeaks(before, e);
      } else {
        forall c ensures Leaked(Next(before, e), c) <==> Leaked(before, c) {
          if Leaked(before, c) {
            LeakStays(before, e, c);
          }
          if Leaked(Next(before, e), c) {
            OnlyOverridesLeak(before, e, c);
          }
        }
      }
    }
  }

  lemma StartAccounted()
    ensures Accounted(Start()) && NoOverride([])
  {
  }

  // --- Running what the specification says --------------------------------------------------

  /** A running provider runs what its specification says. */
  ghost predicate Current(s: State, name: string)
    requires name in s.states
  {
    var p := s.states[name]; p.instance.Some? ==> p.instance.value.spec == p.spec
  }

  ghost predicate AllCurrent(s: State) {
    forall name | name in s.states :: Current(s, name)
  }

  /** A start is recorded with a provider whose specification is another one by now. */
  predicate Outdated(s: State, e: Event) {
    && e.RecordSuccess? && Enabled(s, e) && s.calls[e.id].name in s.states
    && s.states[s.calls[e.id].name].spec != s.calls[e.id].spec
  }

  lemma OthersCurrent(s: State, e: Event, name: string)
    requires AllCoherent(s) && AllCurrent(s) && !Outdated(s, e) && name in Next(s, e).states
    ensures Current(Next(s, e), name)
  {
    if name in s.states {
      assert Coherent(name, s.states[name]) && Current(s, name);
    }
    hide AllCoherent, AllCurrent;
  }

  lemma StepCurrent(s: State, e: Event)
    requires AllCoherent(s) && AllCurrent(s)
    ensures AllCurrent(Next(s, e)) <==> !Outdated(s, e)
  {
    if Outdated(s, e) {
      assert !Current(Next(s, e), s.calls[e.id].name);
    } else {
      hide Next, AllCoherent, Current, Outdated;
      forall name | name in Next(s, e).states ensures Current(Next(s, e), name) {
        OthersCurrent(s, e, name);
      }
    }
  }

  ghost predicate CurrentAfter(es: seq<Event>, n: nat)
    requires n <= |es|
  {
    AllCurrent(Run(Start(), es[..n]))
  }

  /** After every step of the run. */
  ghost predicate AlwaysCurrent(es: seq<Event>) {
    forall n: nat | n <= |es| :: CurrentAfter(es, n)
  }

  ghost predicate NeverOutdated(es: seq<Event>) {
    forall i | 0 <= i < |es| :: !Outdated(Run(Start(), es[..i]), es[i])
  }

  lemma AlwaysCurrentLast(es: seq<Event>)
    requires es != []
    ensures AlwaysCurrent(es) <==> AlwaysCurrent(es[..|es| - 1]) && AllCurrent(Run(Start(), es))
  {
    var init := es[..|es| - 1];
    forall n: nat | n <= |init| ensures CurrentAfter(init, n) <==> CurrentAfter(es, n) {
      assert init[..n] == es[..n];
    }
    assert es[..|es|] == es;
    assert CurrentAfter(es, |es|) <==> AllCurrent(Run(Start(), es));
    hide CurrentAfter, Run, AllCurrent;
  }

  lemma NowCurrent(es: seq<Event>)
    requires AlwaysCurrent(es)
    ensures AllCurrent(Run(Start(), es))
  {
    hide Run, AllCurrent;
    assert CurrentAfter(es, |es|) && es[..|es|] == es;
  }

  lemma NeverOutdatedLast(es: seq<Event>)
    requires es != []
    ensures NeverOutdated(es) <==>
              NeverOutdated(es[..|es| - 1]) && !Outdated(Run(Start(), es[..|es| - 1]), es[|es| - 1])
  {
    hide Run, Outdated;
    var init := es[..|es| - 1];
    assert forall i | 0 <= i < |init| :: init[..i] == es[..i] && init[i] == es[i];
  }

  /** In every run what runs has been built from its current specification all along, exactly if no step was outdated. */
  lemma {:induction false} CurrentExactly(es: seq<Event>)
    ensures AlwaysCurrent(es) <==> NeverOutdated(es)
    decreases |es|
  {
    hide Next, Outdated, AlwaysCurrent, NeverOutdated, AllCurrent, AllCoherent, Owned;
    if es == [] {
      StartCurrent();
    } else {
      CurrentExactly(es[..|es| - 1]);
      RunSound(es[..|es| - 1]);
      AlwaysCurrentLast(es);
      NeverOutdatedLast(es);
      if AlwaysCurrent(es[..|es| - 1]) {
        NowCurrent(es[..|es| - 1]);
        StepCurrent(Run(Start(), es[..|es| - 1]), es[|es| - 1]);
      }
    }
  }

  lemma StartCurrent()
    ensures AlwaysCurrent([]) && NeverOutdated([])
  {
  }

  // --- Who must not interfere ----------------------------------------------------------------

  ghost predicate InFlight(s: State, name: string) {
    exists id :: id in s.calls && s.calls[id].name == name && s.calls[id].stage.Between()
  }

  ghost predicate BeingCreated(s: State, name: string) {
    exists id :: id in s.calls && s.calls[id].name == name && s.calls[id].creator && !s.calls[id].stage.Over?
  }

  ghost predicate Busy(s: State, name: string) {
    exists id :: id in s.calls && s.calls[id].name == name && !s.calls[id].stage.Over?
  }

  /**
   A provider is not made anew while a start of an older one of its name is under way,
   and nobody else starts a provider while its Create is still starting it.
   */
  ghost predicate Considerate(s: State, e: Event) {
    match e
    case Create(_, name, _, start) => !InFlight(s, name) && !BeingCreated(s, name) && (start ==> !Busy(s, name))
    case Restore(name, _, _) => !InFlight(s, name) && !BeingCreated(s, name)
    case StartProvider(_, name) => !BeingCreated(s, name)
    case Update(_, name, _, start) => start ==> !BeingCreated(s, name)
    case _ => true
  }

  /** A call between its locks finds its provider as it left it; a Create still at work finds its own not running. */
  ghost predicate Matching(s: State, c: Call) {
    && (c.stage.Between() && c.name in s.states ==> s.states[c.name].status.Starting? && s.states[c.name].spec == c.spec)
    && (c.creator && !c.stage.Over? && c.name in s.states ==> !s.states[c.name].running)
    && (c.stage.Undoing? ==> c.creator)
  }

  /** Two calls for one name: not both between their locks, and next to a Create none at work. */
  ghost predicate Apart(c: Call, other: Call) {
    c.name == other.name ==>
      && !(c.stage.Between() && other.stage.Between())
      && (c.creator ==> c.stage.Over? || other.stage.Over?)
  }

  ghost predicate AllOrderly(s: State) {
    && (forall id | id in s.calls :: Matching(s, s.calls[id]))
    && (forall id, other | id in s.calls && other in s.calls && id != other :: Apart(s.calls[id], s.calls[other]))
  }

  lemma OrderlyNeverOverrides(s: State, e: Event)
    requires AllCoherent(s) && AllOrderly(s)
    ensures !Overrides(s, e) && !Outdated(s, e)
  {
    if Enabled(s, e) && (e.RecordSuccess? || e.RecordFailure? || e.Undo?) {
      assert Matching(s, s.calls[e.id]);
      assert s.calls[e.id].name in s.states ==> Coherent(s.calls[e.id].name, s.states[s.calls[e.id].name]);
    }
  }

  predicate OfCall(e: Event) {
    e.Prepare? || e.Open? || e.Build? || e.RecordFailure? || e.RecordSuccess? || e.Discard? || e.Undo?
  }

  lemma OwnStepMatching(s: State, e: Event)
    requires AllCoherent(s) && OfCall(e) && Enabled(s, e) && Matching(s, s.calls[e.id])
    ensures Matching(Next(s, e), Next(s, e).calls[e.id])
  {
    if s.calls[e.id].name in s.states {
      assert Coherent(s.calls[e.id].name, s.states[s.calls[e.id].name]);
    }
    hide AllCoherent, Coherent;
  }

  lemma OtherStepMatching(s: State, e: Event, id: nat)
    requires OfCall(e) && Enabled(s, e) && id in s.calls && id != e.id
    requires Matching(s, s.calls[id]) && Matching(s, s.calls[e.id])
    requires Apart(s.calls[id], s.calls[e.id]) && Apart(s.calls[e.id], s.calls[id])
    ensures Matching(Next(s, e), s.calls[id])
  {
  }

  lemma CallStepMatching(s: State, e: Event, id: nat)
    requires AllCoherent(s) && AllOrderly(s) && OfCall(e) && id in Next(s, e).calls
    ensures Matching(Next(s, e), Next(s, e).calls[id])
  {
    hide AllCoherent, Apart, Matching;
    if Enabled(s, e) {
      if id == e.id {
        OwnStepMatching(s, e);
      } else {
        OtherStepMatching(s, e, id);
      }
    }
  }

  lemma ManagerStepMatching(s: State, e: Event, id: nat)
    requires AllCoherent(s) && AllOrderly(s) && Considerate(s, e) && !OfCall(e) && id in Next(s, e).calls
    ensures Matching(Next(s, e), Next(s, e).calls[id])
  {
    if id in s.calls {
      assert Matching(s, s.calls[id]);
      if s.calls[id].name in s.states {
        assert Coherent(s.calls[id].name, s.states[s.calls[id].name]);
      }
    }
    hide AllCoherent, Coherent, Apart;
  }

  /** What one call's own step makes of it next to another. */
  lemma OwnStepApart(s: State, e: Event, other: nat)
    requires OfCall(e) && Enabled(s, e) && other in s.calls && other != e.id
    requires Matching(s, s.calls[other]) && Apart(s.calls[e.id], s.calls[other]) && Apart(s.calls[other], s.calls[e.id])
    ensures var c := Next(s, e).calls[e.id]; Apart(c, s.calls[other]) && Apart(s.calls[other], c)
  {
  }

  lemma OthersKept(s: State, e: Event, id: nat)
    requires OfCall(e) && (Enabled(s, e) ==> id != e.id)
    ensures id in Next(s, e).calls <==> id in s.calls
    ensures id in s.calls ==> Next(s, e).calls[id] == s.calls[id]
  {
  }

  lemma CallStepApart(s: State, e: Event, id: nat, other: nat)
    requires AllOrderly(s) && OfCall(e) && id in Next(s, e).calls && other in Next(s, e).calls && id != other
    ensures Apart(Next(s, e).calls[id], Next(s, e).calls[other])
  {
    hide Apart, Matching, Next;
    if Enabled(s, e) && id == e.id {
      OthersKept(s, e, other);
      OwnStepApart(s, e, other);
    } else if Enabled(s, e) && other == e.id {
      OthersKept(s, e, id);
      OwnStepApart(s, e, id);
    } else {
      OthersKept(s, e, id);
      OthersKept(s, e, other);
    }
  }

  lemma ManagerStepApart(s: State, e: Event, id: nat, other: nat)
    requires AllOrderly(s) && Considerate(s, e) && !OfCall(e)
    requires id in Next(s, e).calls && other in Next(s, e).calls && id != other
    ensures Apart(Next(s, e).calls[id], Next(s, e).calls[other])
  {
    if id in s.calls && other in s.calls {
      assert Apart(s.calls[id], s.calls[other]);
    }
    hide Matching;
  }

  lemma StepOrderly(s: State, e: Event)
    requires AllCoherent(s) && AllOrderly(s) && Considerate(s, e)
    ensures AllOrderly(Next(s, e))
  {
    var t := Next(s, e);
    hide AllCoherent, Next, Considerate, Matching, Apart;
    forall id | id in t.calls ensures Matching(t, t.calls[id]) {
      if OfCall(e) {
        CallStepMatching(s, e, id);
      } else {
        ManagerStepMatching(s, e, id);
      }
    }
    forall id, other | id in t.calls && other in t.calls && id != other ensures Apart(t.calls[id], t.calls[other]) {
      if OfCall(e) {
        CallStepApart(s, e, id, other);
      } else {
        ManagerStepApart(s, e, id, other);
      }
    }
  }

  ghost predicate ConsiderateRun(es: seq<Event>) {
    es == [] || (ConsiderateRun(es[..|es| - 1]) && Considerate(Run(Start(), es[..|es| - 1]), es[|es| - 1]))
  }

  lemma StartOrderly()
    ensures AllOrderly(Start())
  {
  }

  lemma {:induction false} ConsiderateRunOrderly(es: seq<Event>)
    requires ConsiderateRun(es)
    ensures AllOrderly(Run(Start(), es)) && NoOverride(es) && NeverOutdated(es)
    decreases |es|
  {
    hide Next, AllOrderly, Overrides, NoOverride, Outdated, NeverOutdated, AlwaysCurrent, Considerate, AllCoherent, Owned;
    if es == [] {
      StartOrderly();
      StartAccounted();
      StartCurrent();
    } else {
      var before := Run(Start(), es[..|es| - 1]);
      ConsiderateRunOrderly(es[..|es| - 1]);
      RunSound(es[..|es| - 1]);
      StepOrderly(before, es[|es| - 1]);
      OrderlyNeverOverrides(before, es[|es| - 1]);
      NoOverrideLast(es);
      NeverOutdatedLast(es);
    }
  }

  /**
   With considerate callers every context is accounted for in every interleaving, and a
   running provider has been built from its current specification.
   */
  lemma ConsiderateCallersAreSafe(es: seq<Event>)
    requires ConsiderateRun(es)
    ensures var s := Run(Start(), es);
            && Accounted(s)
            && forall name | name in s.states && s.states[name].running ::
                 s.states[name].instance.Some? && s.states[name].instance.value.spec == s.states[name].spec
  {
    hide Next, NoOverride, NeverOutdated, AlwaysCurrent, Considerate, Leaked, ConsiderateRun, Run;
    ConsiderateRunOrderly(es);
    AccountedExactly(es);
    CurrentExactly(es);
    RunSound(es);
    var s := Run(Start(), es);
    NowCurrent(es);
    forall name | name in s.states && s.states[name].running
      ensures s.states[name].instance.Some? && s.states[name].instance.value.spec == s.states[name].spec
    {
      assert Coherent(name, s.states[name]) && Current(s, name);
    }
  }

  /** Running, status Running, and the three resources go together in every interleaving of any callers. */
  lemma RunningIsOneThing(es: seq<Event>, name: string)
    requires name in Run(Start(), es).states
    ensures var p := Run(Start(), es).states[name];
            && (p.running <==> p.status.Running?)
            && (p.running <==> p.instance.Some?)
            && (p.running <==> p.subscriptions.Some?)
            && (p.running <==> p.cancel.Some?)
            && (p.running ==> p.instance.value.name == name && p.cancel == Some(p.instance.value.context))
            && (p.running ==> var c := p.cancel.value; c in Run(Start(), es).contexts && !Run(Start(), es).contexts[c])
  {
    hide Next, Run;
    RunSound(es);
    var s := Run(Start(), es);
    assert Coherent(name, s.states[name]);
    if s.states[name].running {
      assert Stored(s, name, s.states[name].cancel.value) && Owned(s, s.states[name].cancel.value);
    }
  }

  // --- And what an inconsiderate one can do ----------------------------------------------------

  lemma OneMore(es: seq<Event>, e: Event) returns (more: seq<Event>)
    ensures Run(Start(), more) == Next(Run(Start(), es), e)
  {
    more := es + [e];
    assert more[..|es|] == es;
  }

  /** Call 1 has built its instance for the removed provider while call 2 started the new one. */
  predicate Overtaken(s: State) {
    && "p" in s.states && s.states["p"] == Provider(8, Some(Instance("p", 8, 1)), Some(Instance("p", 8, 1)), Some(1), true, Running)
    && 1 in s.calls && s.calls[1] == Call("p", 7, true, Built(0))
    && 0 in s.contexts && 1 in s.contexts && !s.contexts[1]
  }

  lemma RemovedDuringStart() returns (es: seq<Event>)
    ensures Run(Start(), es) == State(map[], map[1 := Call("p", 7, true, Opened(0))], map[0 := false])
  {
    hide Run;
    es := [];
    RunNone();
    es := OneMore(es, Create(1, "p", 7, true));
    es := OneMore(es, Prepare(1, false));
    es := OneMore(es, Open(1, 0));
    assert Run(Start(), es).calls == map[1 := Call("p", 7, true, Opened(0))];
    es := OneMore(es, Remove("p"));
  }

  lemma RecreatedDuringStart() returns (es: seq<Event>)
    ensures var s := Run(Start(), es);
            && s.states == map["p" := Idle(8, Starting)] && s.contexts == map[0 := false]
            && s.calls == map[1 := Call("p", 7, true, Opened(0)), 2 := Call("p", 8, true, Prepared)]
  {
    hide Run;
    es := RemovedDuringStart();
    es := OneMore(es, Create(2, "p", 8, true));
    es := OneMore(es, Prepare(2, false));
  }

  lemma OvertakenReachable() returns (es: seq<Event>)
    ensures Overtaken(Run(Start(), es))
  {
    hide Run;
    es := RecreatedDuringStart();
    es := OneMore(es, Open(2, 1));
    es := OneMore(es, Build(2, true));
    es := OneMore(es, RecordSuccess(2));
    es := OneMore(es, Build(1, true));
  }

  lemma RunNone()
    ensures Run(Start(), []) == Start()
  {
  }

  /**
   Removing and recreating a provider during its start can leave it running an instance
   of the old specification, with the new instance's context live and out of reach.
   */
  lemma RecreateDuringStart()
    ensures exists es ::
              var s := Run(Start(), es);
              && Leaked(s, 1) && "p" in s.states && s.states["p"].running
              && s.states["p"].spec == 8 && s.states["p"].instance == Some(Instance("p", 7, 0))
              && !NoOverride(es) && !NeverOutdated(es)
  {
    var before := OvertakenReachable();
    RunSound(before);
    var s := Run(Start(), before);
    var es := OneMore(before, RecordSuccess(1));
    assert Overrides(s, RecordSuccess(1));
    var t := Run(Start(), es);
    assert t == Next(s, RecordSuccess(1));
    assert Stored(s, "p", 1) && Owned(s, 1);
    Holders(s, RecordSuccess(1), 1);
    assert Leaked(t, 1);
    assert !Current(t, "p");
    AccountedExactly(es);
    CurrentExactly(es);
    if AlwaysCurrent(es) {
      NowCurrent(es);
    }
  }
}
