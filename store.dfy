/**
 The store service: one live snapshot, the reducer bindings that replace it,
 the three selectors that publish its fields, and the load effect.

 `limit$` and `offset$` are subscribed from construction on, because the load
 effect reads them through `withLatestFrom`; `pokemons$` is modelled as
 subscribed from construction too, which replays the same value as a selector
 first subscribed later.  Each selector keeps an emission log whose last
 element is the value it replays.  The load effect keeps the id of the newest
 request and whether it is still awaiting its response, which is what
 `switchMap` needs to drop responses of superseded requests.  Every command
 is proved to follow `StoreModel.Step`.
 */
module Store {
  import opened Selector
  import opened State
  import opened StoreModel

  class StoreService<T> {
    /** The live snapshot (the value of the state subject). */
    var state: AppState<T>
    /** What `limit$`, `offset$` and `pokemons$` have emitted, oldest first. */
    var limitEmitted: seq<int>
    var offsetEmitted: seq<int>
    var pokemonsEmitted: seq<PokemonList<T>>
    /** The id of the newest load request (0 before the first one). */
    var currentRequest: nat
    /** The newest load request has not yet received its response or failure. */
    var inFlight: bool

    /** Each selector replays the projection of the live snapshot and has never
        emitted the same value twice in a row. */
    ghost predicate Valid()
      reads this, state
    {
      && |limitEmitted| > 0 && Last(limitEmitted) == state.limit && NoRepeats(limitEmitted)
      && |offsetEmitted| > 0 && Last(offsetEmitted) == state.offset && NoRepeats(offsetEmitted)
      && |pokemonsEmitted| > 0 && Last(pokemonsEmitted) == state.pokemons && NoRepeats(pokemonsEmitted)
    }

    ghost function View(): Model<T>
      reads this, state
    {
      Model(state.Value(), currentRequest, inFlight)
    }

    /** The state subject starts at `{limit: 10, offset: 0, pokemons: []}`; `limit$` and
        `offset$` have emitted its projections, and the `pokemons$` log starts with the
        value it would hand its first subscriber. */
    constructor ()
      ensures Valid() && fresh(state) && fresh(state.pokemons)
      ensures View() == Initial(state.pokemons)
      ensures state.limit == 10 && state.offset == 0 && state.pokemons.items == []
      ensures limitEmitted == [10] && offsetEmitted == [0] && pokemonsEmitted == [state.pokemons]
    {
      state := new AppState.Initial();
      currentRequest := 0;
      inFlight := false;
      new;
      limitEmitted := [state.limit];
      offsetEmitted := [state.offset];
      pokemonsEmitted := [state.pokemons];
    }

    /** `state.next(newState)`: the new snapshot replaces the live one and every
        selector sees its projection. */
    method Commit(next: AppState<T>)
      requires Valid()
      modifies this
      ensures Valid() && state == next
      ensures limitEmitted == Emit(old(limitEmitted), next.limit)
      ensures offsetEmitted == Emit(old(offsetEmitted), next.offset)
      ensures pokemonsEmitted == Emit(old(pokemonsEmitted), next.pokemons)
      ensures currentRequest == old(currentRequest) && inFlight == old(inFlight)
    {
      state := next;
      limitEmitted := Emit(limitEmitted, next.limit);
      offsetEmitted := Emit(offsetEmitted, next.offset);
      pokemonsEmitted := Emit(pokemonsEmitted, next.pokemons);
    }

    /** A reducer binding reacting to `a`: copy the live snapshot, run the
        accumulator on the copy, commit the copy.  The previous snapshot object
        is left exactly as it was. */
    method Dispatch(a: Action<T>)
      requires Valid()
      modifies this
      ensures Valid()
      ensures fresh(state) && unchanged(old(state))
      ensures View() == Step(old(View()), Event.Dispatch(a))
      ensures limitEmitted == Emit(old(limitEmitted), state.limit)
      ensures offsetEmitted == Emit(old(offsetEmitted), state.offset)
      ensures pokemonsEmitted == Emit(old(pokemonsEmitted), state.pokemons)
    {
      var copy := new AppState.Copy(state);
      copy.Accumulate(a);
      Commit(copy);
    }

    /** `increaseLimit(n)`: `limit` grows by `n`; `limit$` emits unless `n` is 0;
        nothing else changes and the other selectors stay silent. */
    method IncreaseLimit(n: int)
      requires Valid()
      modifies this
      ensures Valid() && fresh(state) && unchanged(old(state))
      ensures View() == Step(old(View()), Event.Dispatch(Action.IncreaseLimit(n)))
      ensures state.limit == old(state.limit) + n
      ensures state.offset == old(state.offset) && state.pokemons == old(state.pokemons)
      ensures limitEmitted == if n == 0 then old(limitEmitted) else old(limitEmitted) + [state.limit]
      ensures offsetEmitted == old(offsetEmitted) && pokemonsEmitted == old(pokemonsEmitted)
    {
      Dispatch(Action.IncreaseLimit(n));
    }

    /** `decreaseLimit(n)`: `limit` shrinks by `n`, without a lower bound. */
    method DecreaseLimit(n: int)
      requires Valid()
      modifies this
      ensures Valid() && fresh(state) && unchanged(old(state))
      ensures View() == Step(old(View()), Event.Dispatch(Action.DecreaseLimit(n)))
      ensures state.limit == old(state.limit) - n
      ensures state.offset == old(state.offset) && state.pokemons == old(state.pokemons)
      ensures limitEmitted == if n == 0 then old(limitEmitted) else old(limitEmitted) + [state.limit]
      ensures offsetEmitted == old(offsetEmitted) && pokemonsEmitted == old(pokemonsEmitted)
    {
      Dispatch(Action.DecreaseLimit(n));
    }

    /** `increaseOffset(n)`: `offset` grows by `n`. */
    method IncreaseOffset(n: int)
      requires Valid()
      modifies this
      ensures Valid() && fresh(state) && unchanged(old(state))
      ensures View() == Step(old(View()), Event.Dispatch(Action.IncreaseOffset(n)))
      ensures state.offset == old(state.offset) + n
      ensures state.limit == old(state.limit) && state.pokemons == old(state.pokemons)
      ensures offsetEmitted == if n == 0 then old(offsetEmitted) else old(offsetEmitted) + [state.offset]
      ensures limitEmitted == old(limitEmitted) && pokemonsEmitted == old(pokemonsEmitted)
    {
      Dispatch(Action.IncreaseOffset(n));
    }

    /** `decreaseOffset(n)`: `offset` shrinks by `n`, without a lower bound. */
    method DecreaseOffset(n: int)
      requires Valid()
      modifies this
      ensures Valid() && fresh(state) && unchanged(old(state))
      ensures View() == Step(old(View()), Event.Dispatch(Action.DecreaseOffset(n)))
      ensures state.offset == old(state.offset) - n
      ensures state.limit == old(state.limit) && state.pokemons == old(state.pokemons)
      ensures offsetEmitted == if n == 0 then old(offsetEmitted) else old(offsetEmitted) + [state.offset]
      ensures limitEmitted == old(limitEmitted) && pokemonsEmitted == old(pokemonsEmitted)
    {
      Dispatch(Action.DecreaseOffset(n));
    }

    /** `loadPokemmon()`: the load effect takes the latest values of `limit$` and
        `offset$`, issues request `id` with them and switches to it, abandoning
        any request still outstanding.  The state is not touched. */
    method RequestLoad() returns (id: nat, limit: int, offset: int)
      requires Valid()
      modifies this
      ensures Valid()
      ensures View() == Step(old(View()), Request)
      ensures id == currentRequest && id > old(currentRequest) && Live(View(), id)
      ensures (limit, offset) == RequestParams(old(View()))
      ensures limit == state.limit && offset == state.offset
      ensures state == old(state)
      ensures limitEmitted == old(limitEmitted) && offsetEmitted == old(offsetEmitted)
      ensures pokemonsEmitted == old(pokemonsEmitted)
    {
      limit := Last(limitEmitted);
      offset := Last(offsetEmitted);
      currentRequest := currentRequest + 1;
      inFlight := true;
      id := currentRequest;
    }

    /** The response of request `id` arrives with its `results` array.  It reaches the
        success action, and so replaces `pokemons`, only when `id` is the request
        the effect is still waiting for; `limit` and `offset` never change. */
    method CompleteLoad(id: nat, results: PokemonList<T>) returns (applied: bool)
      requires Valid()
      modifies this
      ensures Valid()
      ensures applied == Live(old(View()), id)
      ensures View() == Step(old(View()), Complete(id, results))
      ensures state.limit == old(state.limit) && state.offset == old(state.offset)
      ensures limitEmitted == old(limitEmitted) && offsetEmitted == old(offsetEmitted)
      ensures applied ==> fresh(state) && unchanged(old(state)) && state.pokemons == results
      ensures applied ==> pokemonsEmitted == Emit(old(pokemonsEmitted), results)
      ensures !applied ==> state == old(state) && pokemonsEmitted == old(pokemonsEmitted)
    {
      applied := inFlight && id == currentRequest;
      if applied {
        inFlight := false;
        Dispatch(Action.LoadSucceeded(results));
      }
    }

    /** Request `id` fails.  When it is the request being waited for, the error action
        is emitted (`reported`) and the effect stops waiting; a superseded request's
        failure is never seen.  The state and the selectors are untouched either way,
        and later requests work as before. */
    method FailLoad(id: nat) returns (reported: bool)
      requires Valid()
      modifies this
      ensures Valid()
      ensures reported == Live(old(View()), id)
      ensures View() == Step(old(View()), Fail(id))
      ensures state == old(state)
      ensures limitEmitted == old(limitEmitted) && offsetEmitted == old(offsetEmitted)
      ensures pokemonsEmitted == old(pokemonsEmitted)
    {
      reported := inFlight && id == currentRequest;
      if reported {
        inFlight := false;
      }
    }

    /** Subscribing to `limit$` replays the live `limit` at once. */
    method LatestLimit() returns (v: int)
      requires Valid()
      ensures v == state.limit
    {
      v := Last(limitEmitted);
    }

    /** Subscribing to `offset$` replays the live `offset` at once. */
    method LatestOffset() returns (v: int)
      requires Valid()
      ensures v == state.offset
    {
      v := Last(offsetEmitted);
    }

    /** Subscribing to `pokemons$` replays the live `pokemons` array at once, whatever
        counter actions happened since it was set. */
    method LatestPokemons() returns (v: PokemonList<T>)
      requires Valid()
      ensures v == state.pokemons
    {
      v := Last(pokemonsEmitted);
    }
  }

  /** A caller's view: the second request reads the offset changed in between, its
      response arrives first, and the first request's late response is dropped. */
  method ClientOutOfOrderResponses()
  {
    var store := new StoreService<string>();
    var first, limit1, offset1 := store.RequestLoad();
    assert (limit1, offset1) == (10, 0);
    store.IncreaseOffset(10);
    var second, limit2, offset2 := store.RequestLoad();
    assert (limit2, offset2) == (10, 10);
    var page2 := new PokemonList(["ivysaur"]);
    var page1 := new PokemonList(["bulbasaur"]);
    var applied := store.CompleteLoad(second, page2);
    assert applied && store.state.pokemons.items == ["ivysaur"];
    applied := store.CompleteLoad(first, page1);
    assert !applied && store.state.pokemons.items == ["ivysaur"];
    var reported := store.FailLoad(first);
    assert !reported;
    store.IncreaseLimit(0);
    assert store.limitEmitted == [10];
  }
}
