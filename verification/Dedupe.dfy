/** The dispatcher's duplicate filter: a garbage-collected cache of the last accepted times. */
module Dedupe {
  import opened Common

  type Cache = map<string, int>

  /** An event id and the clock reading that goes with it. */
  datatype Arrival = Arrival(id: string, now: int)

  /** The cache without the entries accepted more than a window before now. */
  function Collected(cache: Cache, window: int, now: int): Cache {
    map id | id in cache && cache[id] >= now - window :: cache[id]
  }

  predicate Fresh(cache: Cache, window: int, a: Arrival) {
    a.id == "" || a.id !in cache || a.now - cache[a.id] >= window
  }

  function Marked(cache: Cache, window: int, capacity: nat, a: Arrival): Cache {
    if a.id == "" || !Fresh(cache, window, a) then cache
    else
      var more := cache[a.id := a.now];
      if |more| > capacity then Collected(more, window, a.now) else more
  }

  function After(window: int, capacity: nat, arrivals: seq<Arrival>): Cache {
    if arrivals == [] then map[]
    else Marked(After(window, capacity, arrivals[..|arrivals| - 1]), window, capacity, arrivals[|arrivals| - 1])
  }

  /** The filter's answer to the arrival at i. */
  predicate Accepts(window: int, capacity: nat, arrivals: seq<Arrival>, i: nat)
    requires i < |arrivals|
  {
    Fresh(After(window, capacity, arrivals[..i]), window, arrivals[i])
  }

  ghost predicate Ordered(arrivals: seq<Arrival>) {
    forall i, j | 0 <= i < j < |arrivals| :: arrivals[i].now <= arrivals[j].now
  }

  /** i and j carry the same id, and i was accepted. */
  ghost predicate AcceptedTwin(window: int, capacity: nat, arrivals: seq<Arrival>, i: nat, j: nat) {
    i < j < |arrivals| && arrivals[i].id == arrivals[j].id && Accepts(window, capacity, arrivals, i)
  }

  /** What the cache remembers of the first n arrivals. */
  ghost predicate Remembers(cache: Cache, window: int, capacity: nat, arrivals: seq<Arrival>, n: nat)
    requires n <= |arrivals|
  {
    && (forall id | id in cache :: exists i: nat :: i < n && Source(window, capacity, arrivals, i, id, cache[id]))
    && (forall i | 0 <= i < n && arrivals[i].id != "" && Accepts(window, capacity, arrivals, i) ::
          Kept(cache, window, arrivals[i], arrivals[n - 1].now))
  }

  /** The entry of id comes from the accepted arrival i. */
  predicate Source(window: int, capacity: nat, arrivals: seq<Arrival>, i: nat, id: string, ts: int) {
    i < |arrivals| && arrivals[i] == Arrival(id, ts) && Accepts(window, capacity, arrivals, i)
  }

  predicate Kept(cache: Cache, window: int, a: Arrival, now: int) {
    (a.id in cache && cache[a.id] >= a.now) || now - a.now > window
  }

  /** Marking keeps what it must. */
  lemma MarkedKeeps(cache: Cache, window: int, capacity: nat, a: Arrival, last: Arrival, now: int)
    requires a.now <= now <= last.now && Kept(cache, window, a, now)
    ensures Kept(Marked(cache, window, capacity, last), window, a, last.now)
  {
  }

  lemma {:induction false} CacheRemembers(window: int, capacity: nat, arrivals: seq<Arrival>, n: nat)
    requires Ordered(arrivals) && n <= |arrivals|
    ensures Remembers(After(window, capacity, arrivals[..n]), window, capacity, arrivals, n)
  {
    if n > 0 {
      hide Remembers, Marked, Fresh;
      CacheRemembers(window, capacity, arrivals, n - 1);
      assert arrivals[..n][..n - 1] == arrivals[..n - 1];
      RememberOne(After(window, capacity, arrivals[..n - 1]), window, capacity, arrivals, n - 1);
    }
  }

  lemma MarkedEffect(cache: Cache, window: int, capacity: nat, a: Arrival)
    ensures var next := Marked(cache, window, capacity, a);
            && (forall id | id in next ::
                  || (id == a.id != "" && next[id] == a.now && Fresh(cache, window, a))
                  || (id in cache && next[id] == cache[id]))
            && (a.id != "" && Fresh(cache, window, a) ==> Kept(next, window, a, a.now))
  {
  }

  lemma RememberOne(before: Cache, window: int, capacity: nat, arrivals: seq<Arrival>, n: nat)
    requires Ordered(arrivals) && n < |arrivals| && Remembers(before, window, capacity, arrivals, n)
    requires Accepts(window, capacity, arrivals, n) <==> Fresh(before, window, arrivals[n])
    ensures Remembers(Marked(before, window, capacity, arrivals[n]), window, capacity, arrivals, n + 1)
  {
    hide After, Accepts, Fresh;
    var cache := Marked(before, window, capacity, arrivals[n]);
    MarkedEffect(before, window, capacity, arrivals[n]);
    forall i | 0 <= i < n && arrivals[i].id != "" && Accepts(window, capacity, arrivals, i)
      ensures Kept(cache, window, arrivals[i], arrivals[n].now)
    {
      MarkedKeeps(before, window, capacity, arrivals[i], arrivals[n], arrivals[n - 1].now);
    }
    hide Marked;
    forall id | id in cache ensures exists i: nat :: i < n + 1 && Source(window, capacity, arrivals, i, id, cache[id]) {
      if id in before && cache[id] == before[id] {
        var i: nat :| i < n && Source(window, capacity, arrivals, i, id, cache[id]);
      } else {
        assert Source(window, capacity, arrivals, n, id, cache[id]);
      }
    }
  }

  /**
   With a clock that does not run backwards the filter answers like an unbounded history:
   it accepts an arrival iff its id is empty or every earlier accepted arrival of that id
   is at least a window old. Collecting garbage never shows.
   */
  lemma AgreesWithHistory(window: int, capacity: nat, arrivals: seq<Arrival>, j: nat)
    requires Ordered(arrivals) && j < |arrivals|
    ensures Accepts(window, capacity, arrivals, j) <==>
              arrivals[j].id == "" ||
              forall i: nat | AcceptedTwin(window, capacity, arrivals, i, j) :: arrivals[j].now - arrivals[i].now >= window
  {
    CacheRemembers(window, capacity, arrivals, j);
    var cache := After(window, capacity, arrivals[..j]);
    hide After;
    if arrivals[j].id != "" {
      if !Accepts(window, capacity, arrivals, j) {
        assert arrivals[j].id in cache;
        var i: nat :| i < j && Source(window, capacity, arrivals, i, arrivals[j].id, cache[arrivals[j].id]);
        assert AcceptedTwin(window, capacity, arrivals, i, j);
      }
    }
  }

  /** So within a window an id gets through once: what is turned away has an accepted twin in the window. */
  lemma OncePerWindow(window: int, capacity: nat, arrivals: seq<Arrival>, i: nat, j: nat)
    requires Ordered(arrivals) && i < j < |arrivals| && arrivals[i].id == arrivals[j].id != ""
    requires 0 < window && arrivals[j].now - arrivals[i].now < window && Accepts(window, capacity, arrivals, i)
    ensures !Accepts(window, capacity, arrivals, j)
  {
    AgreesWithHistory(window, capacity, arrivals, j);
    assert AcceptedTwin(window, capacity, arrivals, i, j);
  }

  /** After accepting an id the cache is within capacity, or holds nothing older than a window. */
  lemma SmallOrRecent(window: int, capacity: nat, arrivals: seq<Arrival>, j: nat)
    requires j < |arrivals| && arrivals[j].id != "" && Accepts(window, capacity, arrivals, j)
    ensures var cache := After(window, capacity, arrivals[..j + 1]);
            || |cache| <= capacity
            || forall id | id in cache :: arrivals[j].now - cache[id] <= window
  {
    assert arrivals[..j + 1][..j] == arrivals[..j];
  }

  // --- The dispatcher's loop ------------------------------------------------------------

  datatype Event = Event(id: string, provider: string, routingVersion: int, emitted: Option<int>)

  /** What the dispatcher fills in before it looks at the id; versions of zero and below are not stamped. */
  function Stamped(e: Event, version: int, now: int): Event {
    e.(routingVersion := if version > 0 then version else e.routingVersion,
       emitted := if e.emitted.None? then Some(now) else e.emitted)
  }

  function Named(e: Event): Event {
    if e.provider == "" then e.(provider := "binance") else e
  }

  /** One receive: the event, unless nil, with the clock and the table version read for it. */
  datatype Input = Input(event: Option<Event>, now: int, version: int)

  /** The arrivals the filter sees. */
  function Arrivals(inputs: seq<Input>): seq<Arrival> {
    if inputs == [] then []
    else
      var last := inputs[|inputs| - 1];
      Arrivals(inputs[..|inputs| - 1]) + if last.event.None? then [] else [Arrival(last.event.value.id, last.now)]
  }

  /** The events that come out one side or the other. */
  function Out(window: int, capacity: nat, inputs: seq<Input>, published: bool): seq<Event> {
    if inputs == [] then []
    else
      var init, last := inputs[..|inputs| - 1], inputs[|inputs| - 1];
      var rest := Out(window, capacity, init, published);
      if last.event.None? then rest
      else
        var e := Stamped(last.event.value, last.version, last.now);
        var accepted := Fresh(After(window, capacity, Arrivals(init)), window, Arrival(e.id, last.now));
        if accepted != published then rest
        else rest + [if published then Named(e) else e]
  }

  class Runtime {
    var dedupe: Cache
    const window: int
    const capacity: nat

    constructor ()
      ensures dedupe == map[] && window == 300_000_000_000 && capacity == 8192
    {
      dedupe, window, capacity := map[], 300_000_000_000, 8192;
    }

    method MarkSeen(id: string, now: int) returns (ok: bool)
      modifies this`dedupe
      ensures ok <==> Fresh(old(dedupe), window, Arrival(id, now))
      ensures dedupe == Marked(old(dedupe), window, capacity, Arrival(id, now))
    {
      if id == "" {
        return true;
      }
      if id in dedupe && now - dedupe[id] < window {
        return false;
      }
      dedupe := dedupe[id := now];
      if |dedupe| > capacity {
        GcDedupe(now);
      }
      return true;
    }

    /** The map is walked in whatever order :| picks. */
    method GcDedupe(now: int)
      modifies this`dedupe
      ensures dedupe == Collected(old(dedupe), window, now)
    {
      var threshold := now - window;
      var left := dedupe.Keys;
      while left != {}
        invariant left <= dedupe.Keys <= old(dedupe).Keys
        invariant forall id | id in dedupe :: dedupe[id] == old(dedupe)[id]
        invariant forall id | id in old(dedupe) :: id in dedupe <==> id in left || old(dedupe)[id] >= threshold
      {
        var id :| id in left;
        left := left - {id};
        if dedupe[id] < threshold {
          dedupe := dedupe - {id};
        }
      }
    }

    /** Consumes the inputs; published goes to the bus, released back to the pool. */
    method Consume(inputs: seq<Input>) returns (published: seq<Event>, released: seq<Event>)
      requires dedupe == map[]
      modifies this`dedupe
      ensures published == Out(window, capacity, inputs, true) && released == Out(window, capacity, inputs, false)
      ensures dedupe == After(window, capacity, Arrivals(inputs))
      ensures exists pub, rel ::
                && ComesFrom(inputs, published, true, pub) && ComesFrom(inputs, released, false, rel)
                && Parted(inputs, pub, rel) && (Clocked(inputs) ==> Selected(window, inputs, pub))
    {
      published, released := [], [];
      for i := 0 to |inputs|
        invariant published == Out(window, capacity, inputs[..i], true) && released == Out(window, capacity, inputs[..i], false)
        invariant dedupe == After(window, capacity, Arrivals(inputs[..i]))
      {
        hide After, Out, Arrivals;
        assert inputs[..i + 1] == inputs[..i] + [inputs[i]];
        InputLast(window, capacity, inputs[..i], inputs[i]);
        if inputs[i].event.Some? {
          var e := Stamped(inputs[i].event.value, inputs[i].version, inputs[i].now);
          var accepted := MarkSeen(e.id, inputs[i].now);
          if accepted {
            published := published + [Named(e)];
          } else {
            released := released + [e];
          }
        }
      }
      assert inputs[..|inputs|] == inputs;
      Told(window, capacity, inputs);
    }
  }

  /** What one more input adds. */
  lemma InputLast(window: int, capacity: nat, inputs: seq<Input>, last: Input)
    ensures var more, cache := inputs + [last], After(window, capacity, Arrivals(inputs));
            if last.event.None? then
              && Arrivals(more) == Arrivals(inputs)
              && Out(window, capacity, more, true) == Out(window, capacity, inputs, true)
              && Out(window, capacity, more, false) == Out(window, capacity, inputs, false)
            else
              var e := Stamped(last.event.value, last.version, last.now);
              var a := Arrival(e.id, last.now);
              var accepted := Fresh(cache, window, a);
              && Arrivals(more) == Arrivals(inputs) + [a]
              && After(window, capacity, Arrivals(more)) == Marked(cache, window, capacity, a)
              && Out(window, capacity, more, true) == Out(window, capacity, inputs, true) + (if accepted then [Named(e)] else [])
              && Out(window, capacity, more, false) == Out(window, capacity, inputs, false) + (if accepted then [] else [e])
  {
    hide Fresh, Marked;
    var more := inputs + [last];
    assert more[..|inputs|] == inputs;
    assert Arrivals(inputs) + [] == Arrivals(inputs);
    if last.event.Some? {
      var a := Arrival(last.event.value.id, last.now);
      assert (Arrivals(inputs) + [a])[..|Arrivals(inputs)|] == Arrivals(inputs);
    }
  }

  // --- What comes out --------------------------------------------------------------------

  /** The events that are not nil, stamped, in the order received. */
  function Stream(inputs: seq<Input>): seq<Event> {
    if inputs == [] then []
    else
      var last := inputs[|inputs| - 1];
      Stream(inputs[..|inputs| - 1]) + if last.event.None? then [] else [Stamped(last.event.value, last.version, last.now)]
  }

  /** The filter's answers, one for each arrival. */
  function Answers(window: int, capacity: nat, arrivals: seq<Arrival>): seq<bool> {
    seq(|arrivals|, i requires 0 <= i < |arrivals| => Accepts(window, capacity, arrivals, i))
  }

  /**
   Taken in order, each event of the stream is the next one published, where the answer is
   yes, and the next one released otherwise; nothing else is published or released.
   */
  predicate Interleaves(answers: seq<bool>, published: seq<Event>, released: seq<Event>, stream: seq<Event>)
    decreases |stream|
  {
    if stream == [] then answers == [] && published == [] && released == []
    else
      && answers != []
      && var n, e := |answers| - 1, stream[|stream| - 1];
         if answers[n] then
           && published != [] && published[|published| - 1] == Named(e)
           && Interleaves(answers[..n], published[..|published| - 1], released, stream[..|stream| - 1])
         else
           && released != [] && released[|released| - 1] == e
           && Interleaves(answers[..n], published, released[..|released| - 1], stream[..|stream| - 1])
  }

  lemma OneMore(answers: seq<bool>, published: seq<Event>, released: seq<Event>, stream: seq<Event>, e: Event, yes: bool)
    requires Interleaves(answers, published, released, stream)
    ensures Interleaves(answers + [yes], published + (if yes then [Named(e)] else []),
                        released + (if yes then [] else [e]), stream + [e])
  {
    assert (answers + [yes])[..|answers|] == answers && (stream + [e])[..|stream|] == stream;
    assert (published + [Named(e)])[..|published|] == published && (released + [e])[..|released|] == released;
    assert published + [] == published && released + [] == released;
  }

  lemma AnswersLast(window: int, capacity: nat, arrivals: seq<Arrival>, a: Arrival)
    ensures Answers(window, capacity, arrivals + [a]) ==
              Answers(window, capacity, arrivals) + [Fresh(After(window, capacity, arrivals), window, a)]
  {
    hide After, Fresh;
    var more := arrivals + [a];
    assert more[..|arrivals|] == arrivals;
    forall i | 0 <= i < |arrivals| ensures Accepts(window, capacity, more, i) == Accepts(window, capacity, arrivals, i) {
      assert more[..i] == arrivals[..i];
    }
  }

  lemma StreamLast(inputs: seq<Input>, last: Input)
    ensures Stream(inputs + [last]) == Stream(inputs) + if last.event.None? then [] else [Stamped(last.event.value, last.version, last.now)]
  {
    assert (inputs + [last])[..|inputs|] == inputs;
  }

  /** The two outputs are the stream of events, parted by the filter's answers, each in order. */
  lemma {:induction false} OutputsPartTheStream(window: int, capacity: nat, inputs: seq<Input>)
    ensures Interleaves(Answers(window, capacity, Arrivals(inputs)),
                        Out(window, capacity, inputs, true), Out(window, capacity, inputs, false), Stream(inputs))
  {
    if inputs != [] {
      var init, last := inputs[..|inputs| - 1], inputs[|inputs| - 1];
      OutputsPartTheStream(window, capacity, init);
      InputLast(window, capacity, init, last);
      StreamLast(init, last);
      assert inputs == init + [last];
      hide *;
      if last.event.Some? {
        var e := Stamped(last.event.value, last.version, last.now);
        var a := Arrival(e.id, last.now);
        AnswersLast(window, capacity, Arrivals(init), a);
        OneMore(Answers(window, capacity, Arrivals(init)), Out(window, capacity, init, true), Out(window, capacity, init, false),
                Stream(init), e, Fresh(After(window, capacity, Arrivals(init)), window, a));
      } else {
        assert Stream(init) + [] == Stream(init);
      }
    }
  }

  lemma {:induction false} AnswersAgree(window: int, small: nat, large: nat, arrivals: seq<Arrival>, i: nat)
    requires Ordered(arrivals) && i < |arrivals|
    ensures Accepts(window, small, arrivals, i) <==> Accepts(window, large, arrivals, i)
    decreases i
  {
    hide Accepts;
    forall j: nat | j < i ensures Accepts(window, small, arrivals, j) <==> Accepts(window, large, arrivals, j) {
      AnswersAgree(window, small, large, arrivals, j);
    }
    AgreesWithHistory(window, small, arrivals, i);
    AgreesWithHistory(window, large, arrivals, i);
    assert forall j: nat :: AcceptedTwin(window, small, arrivals, j, i) <==> AcceptedTwin(window, large, arrivals, j, i);
  }

  lemma OrderedPrefix(arrivals: seq<Arrival>, more: seq<Arrival>)
    requires Ordered(arrivals + more)
    ensures Ordered(arrivals)
  {
    assert forall i | 0 <= i < |arrivals| :: (arrivals + more)[i] == arrivals[i];
  }

  /** When and how much garbage is collected does not show in what is published or released. */
  lemma {:induction false} CapacityDoesNotShow(window: int, small: nat, large: nat, inputs: seq<Input>, published: bool)
    requires Ordered(Arrivals(inputs))
    ensures Out(window, small, inputs, published) == Out(window, large, inputs, published)
  {
    if inputs != [] {
      var init, last := inputs[..|inputs| - 1], inputs[|inputs| - 1];
      var before := Arrivals(init);
      InputLast(window, small, init, last);
      InputLast(window, large, init, last);
      assert inputs == init + [last];
      hide *;
      if last.event.Some? {
        var a := Arrival(Stamped(last.event.value, last.version, last.now).id, last.now);
        OrderedPrefix(before, [a]);
        SameAnswer(window, small, large, before, a);
      }
      CapacityDoesNotShow(window, small, large, init, published);
    }
  }

  lemma SameAnswer(window: int, small: nat, large: nat, arrivals: seq<Arrival>, a: Arrival)
    requires Ordered(arrivals + [a])
    ensures Fresh(After(window, small, arrivals), window, a) <==> Fresh(After(window, large, arrivals), window, a)
  {
    AnswersAgree(window, small, large, arrivals + [a], |arrivals|);
    hide After, Fresh;
    assert (arrivals + [a])[..|arrivals|] == arrivals;
  }

  // --- Each output told from its input ------------------------------------------------------

  /** What is written on the event of an input on its way out. */
  predicate Becomes(input: Input, out: Event, published: bool) {
    input.event.Some? &&
    var e := input.event.value;
    && out.id == e.id
    && out.routingVersion == (if input.version > 0 then input.version else e.routingVersion)
    && out.emitted == (if e.emitted.Some? then e.emitted else Some(input.now))
    && out.provider == (if published && e.provider == "" then "binance" else e.provider)
  }

  /** The inputs that the outputs come from, in order. */
  ghost predicate ComesFrom(inputs: seq<Input>, out: seq<Event>, published: bool, from: seq<nat>) {
    && |from| == |out|
    && (forall k | 0 <= k < |from| :: from[k] < |inputs| && Becomes(inputs[from[k]], out[k], published))
    && (forall k, l | 0 <= k < l < |from| :: from[k] < from[l])
  }

  /** One side or the other, and nothing that is nil. */
  ghost predicate Parted(inputs: seq<Input>, published: seq<nat>, released: seq<nat>) {
    forall i: nat | i < |inputs| ::
      !(i in published && i in released) && (inputs[i].event.Some? <==> i in published || i in released)
  }

  lemma SourcesLast(inputs: seq<Input>, last: Input, out: seq<Event>, published: bool, from: seq<nat>, e: Event)
    requires ComesFrom(inputs, out, published, from)
    ensures ComesFrom(inputs + [last], out, published, from)
    ensures Becomes(last, e, published) ==> ComesFrom(inputs + [last], out + [e], published, from + [|inputs|])
  {
    hide Becomes;
    assert (inputs + [last])[|inputs|] == last;
  }

  lemma PartedLast(inputs: seq<Input>, last: Input, pub: seq<nat>, rel: seq<nat>, published: bool)
    requires Parted(inputs, pub, rel) && (forall k | k in pub + rel :: k < |inputs|)
    ensures last.event.None? ==> Parted(inputs + [last], pub, rel)
    ensures last.event.Some? ==>
              Parted(inputs + [last], if published then pub + [|inputs|] else pub, if published then rel else rel + [|inputs|])
  {
    var more := inputs + [last];
    assert more[|inputs|] == last && forall i | 0 <= i < |inputs| :: more[i] == inputs[i];
    assert |inputs| in pub + rel <==> |inputs| in pub || |inputs| in rel;
  }

  /** The ids of some inputs, each with the clock reading for it. */
  ghost function ArrivalsOf(inputs: seq<Input>, from: seq<nat>): set<Arrival> {
    set k | k in from && k < |inputs| && inputs[k].event.Some? :: Arrival(inputs[k].event.value.id, inputs[k].now)
  }

  ghost function AcceptedSet(window: int, capacity: nat, arrivals: seq<Arrival>): set<Arrival> {
    set i: nat | i < |arrivals| && Accepts(window, capacity, arrivals, i) :: arrivals[i]
  }

  lemma AcceptedSetLast(window: int, capacity: nat, arrivals: seq<Arrival>, a: Arrival)
    ensures AcceptedSet(window, capacity, arrivals + [a]) ==
              AcceptedSet(window, capacity, arrivals) + if Fresh(After(window, capacity, arrivals), window, a) then {a} else {}
  {
    hide After, Fresh;
    var more := arrivals + [a];
    assert more[..|arrivals|] == arrivals && more[|arrivals|] == a;
    forall i: nat | i < |arrivals|
      ensures more[i] == arrivals[i] && (Accepts(window, capacity, more, i) <==> Accepts(window, capacity, arrivals, i))
    {
      assert more[..i] == arrivals[..i];
    }
  }

  lemma ArrivalsOfLast(inputs: seq<Input>, last: Input, from: seq<nat>)
    requires forall k | k in from :: k < |inputs|
    ensures ArrivalsOf(inputs + [last], from) == ArrivalsOf(inputs, from)
    ensures last.event.Some? ==>
              ArrivalsOf(inputs + [last], from + [|inputs|]) ==
                ArrivalsOf(inputs, from) + {Arrival(last.event.value.id, last.now)}
  {
    var more := inputs + [last];
    assert more[|inputs|] == last && forall i | 0 <= i < |inputs| :: more[i] == inputs[i];
    assert |inputs| in from + [|inputs|];
  }

  /**
   Everything that is published or released comes from one of the inputs that are not nil,
   in order, and each of those comes out once: with its own id, the table version read for
   it unless that is not positive, its own time or else the clock's, and a provider filled
   in if it is published without one.
   */
  lemma {:induction false} OutputsComeFrom(window: int, capacity: nat, inputs: seq<Input>) returns (pub: seq<nat>, rel: seq<nat>)
    ensures Sources(window, capacity, inputs, pub, rel)
    decreases |inputs|
  {
    hide *;
    if inputs == [] {
      pub, rel := [], [];
      NothingComes(window, capacity);
    } else {
      var init, last := inputs[..|inputs| - 1], inputs[|inputs| - 1];
      pub, rel := OutputsComeFrom(window, capacity, init);
      assert inputs == init + [last];
      pub, rel := OneMoreComes(window, capacity, init, last, pub, rel);
    }
  }

  /** The sources of the outputs, and what the filter has accepted by then. */
  ghost predicate Sources(window: int, capacity: nat, inputs: seq<Input>, pub: seq<nat>, rel: seq<nat>) {
    && ComesFrom(inputs, Out(window, capacity, inputs, true), true, pub)
    && ComesFrom(inputs, Out(window, capacity, inputs, false), false, rel)
    && Parted(inputs, pub, rel)
    && ArrivalsOf(inputs, pub) == AcceptedSet(window, capacity, Arrivals(inputs))
  }

  lemma NothingComes(window: int, capacity: nat)
    ensures Sources(window, capacity, [], [], [])
  {
  }

  /** The filter lets the event of the next input through. */
  predicate Passes(window: int, capacity: nat, inputs: seq<Input>, next: Input) {
    next.event.Some? && Fresh(After(window, capacity, Arrivals(inputs)), window, Arrival(next.event.value.id, next.now))
  }

  lemma OneMoreComes(window: int, capacity: nat, init: seq<Input>, last: Input, before: seq<nat>, kept: seq<nat>)
    returns (pub: seq<nat>, rel: seq<nat>)
    requires Sources(window, capacity, init, before, kept)
    ensures Sources(window, capacity, init + [last], pub, rel)
    ensures pub == before + if Passes(window, capacity, init, last) then [|init|] else []
  {
    hide After, Out, Arrivals, Fresh, Becomes, ComesFrom, Parted, AcceptedSet, ArrivalsOf, Stamped, Named;
    pub, rel := before, kept;
    var published, released := Out(window, capacity, init, true), Out(window, capacity, init, false);
    InputLast(window, capacity, init, last);
    SourcesBelow(init, published, released, pub, rel);
    if last.event.Some? {
      var e := Stamped(last.event.value, last.version, last.now);
      var a := Arrival(e.id, last.now);
      var yes := Fresh(After(window, capacity, Arrivals(init)), window, a);
      BecomesStamped(last);
      AcceptedSetLast(window, capacity, Arrivals(init), a);
      SourcesLast(init, last, published, true, pub, Named(e));
      SourcesLast(init, last, released, false, rel, e);
      ArrivalsOfLast(init, last, pub);
      PartedLast(init, last, pub, rel, yes);
      if yes {
        pub := pub + [|init|];
        assert released + [] == released;
      } else {
        rel := rel + [|init|];
        assert published + [] == published;
        assert ArrivalsOf(init, before) + {} == ArrivalsOf(init, before);
      }
    } else {
      var none := Event("", "", 0, None);
      SourcesLast(init, last, published, true, pub, none);
      SourcesLast(init, last, released, false, rel, none);
      ArrivalsOfLast(init, last, pub);
      PartedLast(init, last, pub, rel, true);
    }
  }

  lemma BecomesStamped(input: Input)
    requires input.event.Some?
    ensures var e := Stamped(input.event.value, input.version, input.now);
            e.id == input.event.value.id && Becomes(input, e, false) && Becomes(input, Named(e), true)
  {
  }

  lemma SourcesBelow(inputs: seq<Input>, published: seq<Event>, released: seq<Event>, pub: seq<nat>, rel: seq<nat>)
    requires ComesFrom(inputs, published, true, pub) && ComesFrom(inputs, released, false, rel)
    ensures forall k | k in pub + rel :: k < |inputs|
    ensures forall k | k in pub :: k < |inputs|
  {
  }

  /** The clock readings of the events do not go back. */
  ghost predicate Clocked(inputs: seq<Input>) {
    forall i, j | 0 <= i < j < |inputs| && inputs[i].event.Some? && inputs[j].event.Some? :: inputs[i].now <= inputs[j].now
  }

  lemma {:induction false} ClockedArrivals(inputs: seq<Input>, n: nat)
    requires Clocked(inputs) && n <= |inputs|
    ensures Ordered(Arrivals(inputs[..n]))
    ensures forall a | a in Arrivals(inputs[..n]) :: exists i :: 0 <= i < n && inputs[i].event.Some? && inputs[i].now == a.now
  {
    if n > 0 {
      ClockedArrivals(inputs, n - 1);
      assert inputs[..n][..n - 1] == inputs[..n - 1] && inputs[..n][n - 1] == inputs[n - 1];
      var before := Arrivals(inputs[..n - 1]);
      forall k | 0 <= k < |before| && inputs[n - 1].event.Some? ensures before[k].now <= inputs[n - 1].now {
        assert before[k] in before;
      }
    }
  }

  /** An earlier input with the same id was published less than a window before. */
  ghost predicate Repeats(window: int, inputs: seq<Input>, pub: seq<nat>, i: nat)
    requires i < |inputs| && inputs[i].event.Some?
  {
    exists j :: j in pub && j < i && inputs[j].event.Some? && inputs[j].event.value.id == inputs[i].event.value.id &&
                inputs[i].now - inputs[j].now < window
  }

  lemma AcceptedBefore(window: int, capacity: nat, arrivals: seq<Arrival>, a: Arrival)
    requires Ordered(arrivals + [a])
    ensures Fresh(After(window, capacity, arrivals), window, a) <==>
              a.id == "" || forall x | x in AcceptedSet(window, capacity, arrivals) && x.id == a.id :: a.now - x.now >= window
  {
    hide After, Fresh, AcceptedTwin;
    var more, n := arrivals + [a], |arrivals|;
    AgreesWithHistory(window, capacity, more, n);
    assert more[..n] == arrivals && more[n] == a;
    forall i: nat | i < n ensures AcceptedTwin(window, capacity, more, i, n) <==>
        arrivals[i].id == a.id && Accepts(window, capacity, arrivals, i) && more[i] == arrivals[i]
    {
      assert more[..i] == arrivals[..i];
      TwinMeans(window, capacity, more, i, n);
    }
    forall i: nat | i >= n ensures !AcceptedTwin(window, capacity, more, i, n) {
      TwinMeans(window, capacity, more, i, n);
    }
  }

  lemma TwinMeans(window: int, capacity: nat, arrivals: seq<Arrival>, i: nat, j: nat)
    ensures AcceptedTwin(window, capacity, arrivals, i, j) <==>
              i < j < |arrivals| && arrivals[i].id == arrivals[j].id && Accepts(window, capacity, arrivals, i)
  {
  }

  lemma PassesExactly(window: int, capacity: nat, init: seq<Input>, last: Input, pub: seq<nat>, rel: seq<nat>)
    requires Sources(window, capacity, init, pub, rel) && Clocked(init + [last]) && last.event.Some?
    ensures Passes(window, capacity, init, last) <==>
              last.event.value.id == "" || !Repeats(window, init + [last], pub, |init|)
  {
    hide After, Out, Fresh, Becomes, Parted, AcceptedSet, Arrivals;
    var a, more := Arrival(last.event.value.id, last.now), init + [last];
    assert more[..|more|] == more;
    ClockedArrivals(more, |more|);
    InputLast(window, capacity, init, last);
    AcceptedBefore(window, capacity, Arrivals(init), a);
    assert more[|init|] == last && forall j | 0 <= j < |init| :: more[j] == init[j];
    if Repeats(window, more, pub, |init|) {
      var j :| j in pub && j < |init| && more[j].event.Some? && more[j].event.value.id == a.id && a.now - more[j].now < window;
      assert Arrival(init[j].event.value.id, init[j].now) in ArrivalsOf(init, pub);
    } else {
      forall x | x in ArrivalsOf(init, pub) && x.id == a.id ensures a.now - x.now >= window {
        var j :| j in pub && j < |init| && init[j].event.Some? && x == Arrival(init[j].event.value.id, init[j].now);
        assert more[j] == init[j];
      }
    }
  }

  lemma ClockedInit(init: seq<Input>, last: Input)
    requires Clocked(init + [last])
    ensures Clocked(init)
  {
    assert forall i | 0 <= i < |init| :: (init + [last])[i] == init[i];
  }

  /** The inputs published are all that do not repeat a non-empty id. */
  ghost predicate Selected(window: int, inputs: seq<Input>, pub: seq<nat>) {
    forall i: nat | i < |inputs| && inputs[i].event.Some? ::
      i in pub <==> inputs[i].event.value.id == "" || !Repeats(window, inputs, pub, i)
  }

  lemma SelectedLast(window: int, init: seq<Input>, last: Input, before: seq<nat>, pub: seq<nat>)
    requires Selected(window, init, before) && (forall k | k in before :: k < |init|)
    requires pub == before || pub == before + [|init|]
    requires last.event.Some? ==>
               (|init| in pub <==> last.event.value.id == "" || !Repeats(window, init + [last], before, |init|))
    ensures Selected(window, init + [last], pub)
  {
    var more := init + [last];
    assert more[|init|] == last && forall i | 0 <= i < |init| :: more[i] == init[i];
    assert forall k :: k in pub ==> k in before || k == |init|;
    forall i: nat | i < |init| && init[i].event.Some?
      ensures Repeats(window, more, pub, i) <==> Repeats(window, init, before, i)
    {
    }
    if last.event.Some? {
      assert Repeats(window, more, pub, |init|) <==> Repeats(window, more, before, |init|);
    }
  }

  /** Which inputs are published, if the clock does not go back: all but repetitions of an id within the window. */
  lemma {:induction false} PublishedExactly(window: int, capacity: nat, inputs: seq<Input>) returns (pub: seq<nat>, rel: seq<nat>)
    requires Clocked(inputs)
    ensures Sources(window, capacity, inputs, pub, rel) && Selected(window, inputs, pub)
    decreases |inputs|
  {
    hide *;
    if inputs == [] {
      pub, rel := [], [];
      NothingComes(window, capacity);
      NothingSelected(window);
    } else {
      var init, last := inputs[..|inputs| - 1], inputs[|inputs| - 1];
      assert inputs == init + [last];
      ClockedInit(init, last);
      var before, kept := PublishedExactly(window, capacity, init);
      pub, rel := OneMoreComes(window, capacity, init, last, before, kept);
      if last.event.Some? {
        PassesExactly(window, capacity, init, last, before, kept);
      }
      SourcesInRange(window, capacity, init, before, kept);
      PassesSome(window, capacity, init, last);
      assert before + [] == before;
      SelectedLast(window, init, last, before, pub);
    }
  }

  lemma PassesSome(window: int, capacity: nat, inputs: seq<Input>, next: Input)
    ensures Passes(window, capacity, inputs, next) ==> next.event.Some?
  {
  }

  lemma SourcesInRange(window: int, capacity: nat, inputs: seq<Input>, pub: seq<nat>, rel: seq<nat>)
    requires Sources(window, capacity, inputs, pub, rel)
    ensures forall k | k in pub :: k < |inputs|
  {
    hide Out, Becomes;
  }

  lemma NothingSelected(window: int)
    ensures Selected(window, [], [])
  {
  }

  /** Both outputs told from the inputs, whatever the clock, and which is which if it does not go back. */
  lemma Told(window: int, capacity: nat, inputs: seq<Input>)
    ensures exists pub, rel ::
              && ComesFrom(inputs, Out(window, capacity, inputs, true), true, pub)
              && ComesFrom(inputs, Out(window, capacity, inputs, false), false, rel)
              && Parted(inputs, pub, rel) && (Clocked(inputs) ==> Selected(window, inputs, pub))
  {
    hide ComesFrom, Out, Parted, Clocked, Selected, ArrivalsOf, AcceptedSet;
    if Clocked(inputs) {
      var pub, rel := PublishedExactly(window, capacity, inputs);
      assert Sources(window, capacity, inputs, pub, rel);
    } else {
      var pub, rel := OutputsComeFrom(window, capacity, inputs);
      assert Sources(window, capacity, inputs, pub, rel);
    }
  }
}
