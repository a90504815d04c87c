/**
 The observable behaviour of the store as a pure state machine.

 A `Model` is the current snapshot value together with the bookkeeping that
 `switchMap` does for the load effect: the number of load requests issued so
 far (the id of the newest one) and whether that newest request is still
 waiting for its response.  Events are the store's commands (a reducer action
 dispatched, a load requested) and the two ways a fetch can end.  The class
 `Store.StoreService` is proved to follow `Step` event by event; the lemmas
 here state what holds over whole sequences of events.
 */
module StoreModel {
  import opened State

  datatype Model<T> = Model(state: Snapshot<T>, current: nat, inFlight: bool)

  datatype Event<T> =
    | Dispatch(a: Action<T>)
    | Request
    | Complete(id: nat, results: PokemonList<T>)
    | Fail(id: nat)

  /** The model right after construction; `empty` is the `[]` array of the initial snapshot. */
  function Initial<T>(empty: PokemonList<T>): Model<T>
  {
    Model(Snapshot(InitialLimit, InitialOffset, empty), 0, false)
  }

  /** The effect still listens for the response of request `id`: it is the newest
      request and it has not ended.  Earlier requests were switched away from. */
  predicate Live<T>(m: Model<T>, id: nat)
  {
    m.inFlight && id == m.current
  }

  /** The query parameters a load request issued in `m` carries. */
  function RequestParams<T>(m: Model<T>): (int, int)
  {
    (m.state.limit, m.state.offset)
  }

  /** One event.  A request takes the next id and becomes the one awaited; a response
      or failure of any other request is a no-op; settling a load never moves the
      counters, and a failure leaves the snapshot as it was. */
  function Step<T>(m: Model<T>, e: Event<T>): (r: Model<T>)
    ensures r.current == m.current + (if e.Request? then 1 else 0)
    ensures e.Request? ==> Live(r, r.current)
    ensures (e.Complete? || e.Fail?) && !Live(m, e.id) ==> r == m
    ensures (e.Complete? || e.Fail?) ==> RequestParams(r) == RequestParams(m)
    ensures (e.Complete? || e.Fail?) && Live(m, e.id) ==> !r.inFlight
    ensures e.Complete? ==> r.state.pokemons == if Live(m, e.id) then e.results else m.state.pokemons
    ensures e.Fail? ==> r.state == m.state
    ensures !e.Dispatch? && !e.Complete? ==> r.state == m.state
  {
    match e
    case Dispatch(a) => m.(state := Reduce(m.state, a))
    case Request => m.(current := m.current + 1, inFlight := true)
    case Complete(id, results) =>
      if Live(m, id) then Model(Reduce(m.state, LoadSucceeded(results)), m.current, false) else m
    case Fail(id) =>
      if Live(m, id) then m.(inFlight := false) else m
  }

  function Run<T>(m: Model<T>, evs: seq<Event<T>>): Model<T>
    decreases |evs|
  {
    if |evs| == 0 then m else Run(Step(m, evs[0]), evs[1..])
  }

  lemma {:induction false} RunConcat<T>(m: Model<T>, evs: seq<Event<T>>, more: seq<Event<T>>)
    ensures Run(m, evs + more) == Run(Run(m, evs), more)
    decreases |evs|
  {
    if |evs| == 0 {
      assert evs + more == more;
    } else {
      assert (evs + more)[1..] == evs[1..] + more;
      RunConcat(Step(m, evs[0]), evs[1..], more);
    }
  }

  // ----- The counters: limit = initial + sum of increases - sum of decreases -----

  /** The delta an event dispatches on channel `ch`, or 0 when it is not a counter dispatch. */
  function PayloadOn<T>(e: Event<T>, ch: Channel): int
  {
    if e.Dispatch? then Payload(e.a, ch) else 0
  }

  /** The sum of the deltas dispatched on channel `ch`. */
  function Total<T>(evs: seq<Event<T>>, ch: Channel): int
    decreases |evs|
  {
    if |evs| == 0 then 0 else PayloadOn(evs[0], ch) + Total(evs[1..], ch)
  }

  /** After any sequence of events a counter equals its value before plus the sum of its
      increases minus the sum of its decreases; loads never touch it and nothing clamps it. */
  lemma {:induction false} RunCounter<T>(m: Model<T>, evs: seq<Event<T>>, c: Counter)
    ensures Read(Run(m, evs).state, c) == Read(m.state, c) + Total(evs, Raise(c)) - Total(evs, Lower(c))
    decreases |evs|
  {
    if |evs| > 0 {
      RunCounter(Step(m, evs[0]), evs[1..], c);
    }
  }

  lemma {:induction false} TotalConcat<T>(evs: seq<Event<T>>, more: seq<Event<T>>, ch: Channel)
    ensures Total(evs + more, ch) == Total(evs, ch) + Total(more, ch)
    decreases |evs|
  {
    if |evs| == 0 {
      assert evs + more == more;
    } else {
      assert (evs + more)[1..] == evs[1..] + more;
      TotalConcat(evs[1..], more, ch);
    }
  }

  /** Taking one event out of a sequence takes its payload out of the sum. */
  lemma TotalRemove<T>(evs: seq<Event<T>>, k: nat, ch: Channel)
    requires k < |evs|
    ensures Total(evs, ch) == PayloadOn(evs[k], ch) + Total(evs[..k] + evs[k + 1..], ch)
  {
    assert evs == evs[..k] + [evs[k]] + evs[k + 1..];
    TotalConcat(evs[..k] + [evs[k]], evs[k + 1..], ch);
    TotalConcat(evs[..k], [evs[k]], ch);
    TotalConcat(evs[..k], evs[k + 1..], ch);
  }

  /** The sums do not depend on the order of the events. */
  lemma {:induction false} TotalOrderFree<T>(evs: seq<Event<T>>, perm: seq<Event<T>>, ch: Channel)
    requires multiset(evs) == multiset(perm)
    ensures Total(evs, ch) == Total(perm, ch)
    decreases |evs|
  {
    if |evs| == 0 {
      assert |perm| == |multiset(perm)| == 0;
    } else {
      var x := evs[0];
      assert x in multiset(perm);
      var k :| 0 <= k < |perm| && perm[k] == x;
      var rest := perm[..k] + perm[k + 1..];
      assert perm == perm[..k] + [x] + perm[k + 1..];
      assert evs == [x] + evs[1..];
      assert multiset(perm) == multiset(perm[..k]) + multiset([x]) + multiset(perm[k + 1..]);
      assert multiset(evs) == multiset([x]) + multiset(evs[1..]);
      assert multiset(rest) == multiset(perm[..k]) + multiset(perm[k + 1..]);
      assert multiset(evs[1..]) == multiset(evs) - multiset([x]);
      assert multiset(rest) == multiset(perm) - multiset([x]);
      TotalOrderFree(evs[1..], rest, ch);
      TotalRemove(perm, k, ch);
    }
  }

  /** Two event sequences that are reorderings of each other leave a counter at the same value. */
  lemma CounterOrderFree<T>(m: Model<T>, evs: seq<Event<T>>, perm: seq<Event<T>>, c: Counter)
    requires multiset(evs) == multiset(perm)
    ensures Read(Run(m, evs).state, c) == Read(Run(m, perm).state, c)
  {
    RunCounter(m, evs, c);
    RunCounter(m, perm, c);
    TotalOrderFree(evs, perm, Raise(c));
    TotalOrderFree(evs, perm, Lower(c));
  }

  // ----- The load effect: last request wins -----

  /** The number of load requests in a sequence of events. */
  function Requests<T>(evs: seq<Event<T>>): nat
    decreases |evs|
  {
    if |evs| == 0 then 0 else (if evs[0].Request? then 1 else 0) + Requests(evs[1..])
  }

  /** Request ids are handed out in order: each request gets the next id. */
  lemma {:induction false} RunCurrent<T>(m: Model<T>, evs: seq<Event<T>>)
    ensures Run(m, evs).current == m.current + Requests(evs)
    ensures Requests(evs) > 0 ==> Run(m, evs).current > m.current
    decreases |evs|
  {
    if |evs| > 0 {
      RunCurrent(Step(m, evs[0]), evs[1..]);
    }
  }

  /** After any history, the only request the effect can still be listening to is the
      newest one: the one whose id counts every request issued so far. */
  lemma LiveIsNewest<T>(m: Model<T>, evs: seq<Event<T>>, id: nat)
    requires Live(Run(m, evs), id)
    ensures id == m.current + Requests(evs)
  {
    RunCurrent(m, evs);
  }

  /** A request is superseded once a newer one has been issued: from then on its
      response and its failure are ignored, so its results never reach `pokemons`. */
  lemma SupersededNeverApplied<T>(m: Model<T>, evs: seq<Event<T>>, id: nat, results: PokemonList<T>)
    requires id <= m.current
    requires Requests(evs) > 0
    ensures !Live(Run(m, evs), id)
    ensures Step(Run(m, evs), Complete(id, results)) == Run(m, evs)
    ensures Step(Run(m, evs), Fail(id)) == Run(m, evs)
  {
    RunCurrent(m, evs);
  }

  /** An event a caller of the service can cause: a counter command, a load request,
      or the end of a fetch.  The success action is private to the service and is only
      emitted by the load effect. */
  predicate Public<T>(e: Event<T>)
  {
    !(e.Dispatch? && e.a.LoadSucceeded?)
  }

  /** Last request wins, over a whole history: `pokemons` is either the array it held at
      the start or the results of a completion that answered the request awaited at the
      moment it arrived. */
  lemma {:induction false} PokemonsProvenance<T>(m: Model<T>, evs: seq<Event<T>>)
    requires forall i :: 0 <= i < |evs| ==> Public(evs[i])
    ensures (var p := Run(m, evs).state.pokemons;
             p == m.state.pokemons
             || exists i :: 0 <= i < |evs| && evs[i].Complete? && evs[i].results == p
                          && Live(Run(m, evs[..i]), evs[i].id))
    decreases |evs|
  {
    if |evs| > 0 {
      var n := |evs| - 1;
      var before := Run(m, evs[..n]);
      var p := Run(m, evs).state.pokemons;
      assert evs == evs[..n] + [evs[n]];
      RunConcat(m, evs[..n], [evs[n]]);
      assert Run(m, evs) == Run(before, [evs[n]]) == Step(before, evs[n]);
      PokemonsProvenance(m, evs[..n]);
      if p != before.state.pokemons {
        assert Public(evs[n]);
        assert evs[n].Complete? && Live(before, evs[n].id) && evs[n].results == p;
      } else if p != m.state.pokemons {
        var i :| 0 <= i < n && evs[..n][i].Complete? && evs[..n][i].results == p
                 && Live(Run(m, evs[..n][..i]), evs[..n][i].id);
        assert evs[..n][..i] == evs[..i];
      }
    }
  }

  // ----- Scenarios -----

  /** From the initial state a load is requested with `limit = 10, offset = 0`, and its
      response becomes `pokemons` while the counters stay as they were. */
  lemma FirstLoad<T>(empty: PokemonList<T>, results: PokemonList<T>)
    ensures RequestParams(Step(Initial(empty), Request)) == (10, 0)
    ensures Run(Initial(empty), [Request, Complete(1, results)]).state == Snapshot(10, 0, results)
  {
    var m1 := Step(Initial(empty), Request);
    assert Run(Initial(empty), [Request, Complete(1, results)])
        == Run(m1, [Complete(1, results)])
        == Run(Step(m1, Complete(1, results)), []);
  }

  /** A request reads the state current when it is issued: after `increaseOffset(10)` the
      request carries offset 10. */
  lemma RequestReadsLatest<T>(empty: PokemonList<T>)
    ensures RequestParams(Run(Initial(empty), [Dispatch(IncreaseOffset(10)), Request])) == (10, 10)
  {
  }

  /** Two requests whose responses arrive in reverse order: the first response, arriving
      last, is discarded, and `pokemons` holds the second request's results. */
  lemma LastRequestWins<T>(m: Model<T>, first: PokemonList<T>, second: PokemonList<T>)
    ensures Run(m, [Request, Request, Complete(m.current + 2, second), Complete(m.current + 1, first)]).state
         == m.state.(pokemons := second)
  {
    var evs := [Request, Request, Complete(m.current + 2, second), Complete(m.current + 1, first)];
    var m1 := Step(m, Request);
    var m2 := Step(m1, Request);
    var m3 := Step(m2, Complete(m.current + 2, second));
    assert Run(m, evs) == Run(m1, evs[1..]);
    assert Run(m1, evs[1..]) == Run(m2, evs[2..]);
    assert Run(m2, evs[2..]) == Run(m3, evs[3..]);
    assert Run(m3, evs[3..]) == Run(Step(m3, evs[3]), []);
  }

  /** A failed load leaves the state as it was and the next request still succeeds. */
  lemma FailureThenRetry<T>(m: Model<T>, id: nat, results: PokemonList<T>)
    ensures Step(m, Fail(id)).state == m.state
    ensures var m' := Step(Step(m, Fail(id)), Request);
            Step(m', Complete(m'.current, results)).state == m.state.(pokemons := results)
  {
  }
}
