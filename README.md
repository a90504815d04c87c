# Pokémon list store — a Dafny model

This project models `StoreService`, the hand-written state container of an
Angular application that pages through a remote Pokémon list. The service
holds one snapshot `{limit, offset, pokemons}`. Four counter actions change
`limit` and `offset`. A load action fetches a page with the current
`limit`/`offset`. Three selectors publish the fields.

The model follows the source's own mechanisms:

- **Snapshot and reducers** (`state.dfy`, module `State`). The snapshot is a
  mutable object (`AppState`). A reducer makes a shallow copy (`Copy`), runs
  its accumulator on the copy (`Accumulate`), and the store commits the copy.
  The pure function `Reduce` specifies what every accumulator does.
  `pokemons` is a `PokemonList` reference, because the source compares arrays
  with `===`, which is object identity.
- **Selectors** (`selector.dfy`, module `Selector`). `distinctUntilChanged`
  is modelled as an emission log. `Emit` adds a projected value only when it
  differs from the last value emitted. The last element is what
  `shareReplay(1)` replays to a new subscriber.
- **Store** (`store.dfy`, module `Store`). Class `StoreService` holds the
  live snapshot, the three selector logs, and the load effect's bookkeeping.
  That bookkeeping is the id of the newest request and whether it still awaits
  its response. This is how `switchMap` is modelled: a response or failure
  counts only for the newest request. Every command is proved to follow
  `StoreModel.Step`.
- **Trace model** (`model.dfy`, module `StoreModel`). The pure state machine
  `Step`/`Run` over events, with lemmas about whole event sequences: the
  counter sums, order independence, last-request-wins, and where `pokemons`
  can come from.

The fetch itself is an input. `RequestLoad` returns the request id and its
`(limit, offset)`. The network later calls `CompleteLoad(id, results)` or
`FailLoad(id)`.

## Model

| member | source | states |
|---|---|---|
| `Selector.SelectorStep` | src/store/store.service.ts:126 | the emit decision of `distinctUntilChanged`: a projection is emitted exactly when it is not strictly equal to the last emission |
| `Selector.Emit` | src/store/store.service.ts:123-129 | the new value is emitted exactly when it differs from the last emission; the log only grows, its last element is the newest projection, and it never gets two equal neighbours |
| `Selector.EmitAll` | src/store/store.service.ts:123-129 | feeding a stream of projections keeps what was already emitted as a prefix and emits at most one value per projection |
| `Selector.EmitAllLatest` | src/store/store.service.ts:123-129 | after any non-empty stream the selector replays the newest projection |
| `Selector.EmitAllNoRepeats` | src/store/store.service.ts:123-129 | a selector never emits the same value twice in a row |
| `Selector.EmitAllSilent` | src/store/store.service.ts:123-129 | snapshots whose projection equals the last emitted value cause no emission |
| `Selector.EmitAllComplete` | src/store/store.service.ts:123-129 | every projected value seen ends up in the log |
| `Selector.EmitAllFromStream` | src/store/store.service.ts:123-129 | every new emission is one of the projected values seen |
| `State.Reduce` | src/store/store.service.ts:77-100 | each accumulator moves a counter by what the action raises it minus what it lowers it, with no clamping; `pokemons` is replaced wholesale by a success payload and kept otherwise |
| `State.AppState.Initial` | src/store/store.service.ts:28-32 | the initial snapshot is `limit = 10`, `offset = 0`, with a fresh empty `pokemons` array |
| `State.AppState.Copy` | src/store/store.service.ts:136 | the shallow copy has the same field values; the `pokemons` array is shared |
| `State.AppState.Accumulate` | src/store/store.service.ts:77-100 | the accumulator mutates the copy into `Reduce` of its old value |
| `StoreModel.Live` | src/store/store.service.ts:51 | `switchMap`'s "still listening" test: the request is the newest one and has not yet been answered |
| `StoreModel.RequestParams` | src/store/store.service.ts:50 | the parameters `withLatestFrom` hands the fetch are the snapshot's `limit` and `offset` |
| `StoreModel.Step` | src/store/store.service.ts:48-100 | a request takes the next id and becomes the awaited one; a response or failure of any other request changes nothing; settling never moves the counters; only a live completion replaces `pokemons`, and a failure keeps the snapshot |
| `StoreModel.RunCounter` | src/store/store.service.ts:82-100 | after any event sequence, a counter is its old value plus the sum of its increases minus the sum of its decreases, with no clamping |
| `StoreModel.TotalOrderFree` | src/store/store.service.ts:82-100 | the sum of the deltas on a channel does not depend on the order of the events |
| `StoreModel.CounterOrderFree` | src/store/store.service.ts:82-100 | two reorderings of the same events leave `limit` and `offset` at the same values |
| `StoreModel.RunCurrent` | src/store/store.service.ts:48-51 | each load request gets the next id, so ids grow with every request |
| `StoreModel.LiveIsNewest` | src/store/store.service.ts:51 | after any history, a request that is still listened to has the id of the newest request: the start id plus the number of requests issued since |
| `StoreModel.SupersededNeverApplied` | src/store/store.service.ts:51 | once a newer request is issued, an older request's response and failure change nothing |
| `StoreModel.PokemonsProvenance` | src/store/store.service.ts:48-80 | over any history of public events, `pokemons` is either the array it started with or the results of a completion that answered the request awaited when it arrived |
| `StoreModel.FirstLoad` | src/store/store.service.ts:48-65 | from the initial state a load asks for `limit = 10, offset = 0`, and its response becomes `pokemons` with the counters unchanged |
| `StoreModel.RequestReadsLatest` | src/store/store.service.ts:50-54 | after `increaseOffset(10)` the request carries offset 10 |
| `StoreModel.LastRequestWins` | src/store/store.service.ts:51-65 | with two requests answered in reverse order, `pokemons` holds the second request's results |
| `StoreModel.FailureThenRetry` | src/store/store.service.ts:57-60 | a failed load leaves the state as it was, and the next request's response is still applied |
| `Store.StoreService.constructor` | src/store/store.service.ts:28-45 | the store starts at `{10, 0, []}`; `limit$` and `offset$` have emitted that snapshot's projections, and the `pokemons$` log starts with the value its first subscriber receives |
| `Store.StoreService.Commit` | src/store/store.service.ts:138 | the new snapshot replaces the live one, and each selector sees its projection through `Emit` |
| `Store.StoreService.Dispatch` | src/store/store.service.ts:131-140 | a reducer binding commits a fresh copy and leaves the previous snapshot object unchanged; the new state is `Step` of the old one |
| `Store.StoreService.IncreaseLimit` | src/store/store.service.ts:82-85 | `limit` becomes old `limit + n` and nothing else changes; `limit$` emits exactly when `n != 0`; the other selectors stay silent |
| `Store.StoreService.DecreaseLimit` | src/store/store.service.ts:87-90 | `limit` becomes old `limit - n` and nothing else changes; `limit$` emits exactly when `n != 0` |
| `Store.StoreService.IncreaseOffset` | src/store/store.service.ts:92-95 | `offset` becomes old `offset + n` and nothing else changes; `offset$` emits exactly when `n != 0` |
| `Store.StoreService.DecreaseOffset` | src/store/store.service.ts:97-100 | `offset` becomes old `offset - n` and nothing else changes; `offset$` emits exactly when `n != 0` |
| `Store.StoreService.RequestLoad` | src/store/store.service.ts:48-55 | a load takes the latest `limit$`/`offset$` values, which equal the live snapshot's; it issues a new, newest request id and leaves the state alone |
| `Store.StoreService.CompleteLoad` | src/store/store.service.ts:63-65 | a response is applied exactly when it answers the newest, still-awaited request; then `pokemons` becomes the results, which pass through `pokemons$`'s `Emit`; `limit`/`offset` never change |
| `Store.StoreService.FailLoad` | src/store/store.service.ts:57-60 | a failure emits the error action exactly when it belongs to the awaited request; the state and the selectors are untouched |
| `Store.StoreService.LatestLimit` | src/store/store.service.ts:43 | a new subscriber to `limit$` is handed the live `limit` |
| `Store.StoreService.LatestOffset` | src/store/store.service.ts:44 | a new subscriber to `offset$` is handed the live `offset` |
| `Store.StoreService.LatestPokemons` | src/store/store.service.ts:45 | a new subscriber to `pokemons$` is handed the live `pokemons` array |

## Left out

- The HTTP call and the pokeapi URL. The fetch is network I/O through `HttpClient`, so the model takes its outcome as input: `RequestLoad` returns the query parameters, and `CompleteLoad`/`FailLoad` deliver the result.
- `console.error` in the error effect. It is a diagnostic side channel. `FailLoad` reports whether the error action was emitted.
- RxJS scheduling and multicasting: subscriber fan-out, notification order, and the sharing done by `shareReplay`. Each selector is modelled as one emission log that all subscribers share.
- Angular dependency injection, routing and components. `app-routing.module.ts`, `app.component.ts` and `pokemon.component.ts` only declare things and hold no logic.
- JavaScript `number` is a float. `limit`, `offset` and the deltas are unbounded integers here, so rounding and `NaN` are not modelled.
- The item shape (`any[]`) is not modelled. A page is an opaque `PokemonList<T>` of items of any type `T`.
- `Store.StoreService.Dispatch` and `Store.StoreService.Commit` can be called directly, and `StoreModel.Event` admits a success dispatch. In the source, `createReducer` and the success subject are private, so only the load effect emits the success action. The lemmas about `pokemons` (`StoreModel.PokemonsProvenance`) therefore assume histories of public events only.
- `pokemons$` is modelled as subscribed from construction. In the source it is a cold `shareReplay(1)` that starts at its first subscriber. In the source nothing reaches `pokemons$` before its first subscriber, which then receives only the current array; the model's `pokemonsEmitted` also records the arrays committed before that point.
- A response body without a `results` field is not modelled. `CompleteLoad` receives the `results` array directly. A `null` body, or anything else that throws inside the success `tap`, is not modelled either. In the source that error is outside the `catchError` that wraps the GET, so it ends the load effect's subscription for good, and later `loadPokemmon()` calls reach nothing. The model's `CompleteLoad` and `StoreModel.FailureThenRetry` assume the effect stays subscribed.

The source clamps neither `limit` nor `offset`, so both may become negative (`StoreModel.RunCounter`).
