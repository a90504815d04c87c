/**
 The application state of the store (`AppState`) and its reducers.

 The store keeps one snapshot object: `limit`, `offset` and the `pokemons`
 array.  A reducer never touches the live snapshot: it copies it shallowly,
 lets the accumulator mutate the copy and then commits the copy as the new
 snapshot.  The pure function `Reduce` on snapshot values says what every
 accumulator does; the `AppState` class is the mutable object it acts on.
 */
module State {

  /** A JavaScript array of fetched items.  Two arrays are strictly equal only
      when they are the same object, so the list is a reference; its contents
      are never changed after it is created. */
  class PokemonList<T> {
    const items: seq<T>

    constructor (items: seq<T>)
      ensures this.items == items
    {
      this.items := items;
    }
  }

  /** The value of one snapshot.  `pokemons` is the array object, not its contents. */
  datatype Snapshot<T> = Snapshot(limit: int, offset: int, pokemons: PokemonList<T>)

  const InitialLimit: int := 10
  const InitialOffset: int := 0

  /** The payloads the reducer bindings react to.  The four counter actions carry a delta;
      the success action carries the `results` array of a response. */
  datatype Action<T> =
    | IncreaseLimit(n: int)
    | DecreaseLimit(n: int)
    | IncreaseOffset(n: int)
    | DecreaseOffset(n: int)
    | LoadSucceeded(results: PokemonList<T>)

  /** The two counters of the snapshot. */
  datatype Counter = Limit | Offset

  /** A reducer channel that carries a delta for one counter. */
  datatype Channel = Raise(c: Counter) | Lower(c: Counter)

  function Read<T>(s: Snapshot<T>, c: Counter): int
  {
    match c
    case Limit => s.limit
    case Offset => s.offset
  }

  /** The amount an action carries on channel `ch`, or 0 when it belongs to another channel. */
  function Payload<T>(a: Action<T>, ch: Channel): int
  {
    match a
    case IncreaseLimit(n) => if ch == Raise(Limit) then n else 0
    case DecreaseLimit(n) => if ch == Lower(Limit) then n else 0
    case IncreaseOffset(n) => if ch == Raise(Offset) then n else 0
    case DecreaseOffset(n) => if ch == Lower(Offset) then n else 0
    case LoadSucceeded(_) => 0
  }

  /** What each accumulator does to a copy of the snapshot: every counter moves by
      what the action raises it minus what it lowers it, with no clamping, so `limit`
      and `offset` may become negative; `pokemons` is replaced wholesale by a load
      success and kept otherwise. */
  function Reduce<T>(s: Snapshot<T>, a: Action<T>): (r: Snapshot<T>)
    ensures Read(r, Limit) == Read(s, Limit) + Payload(a, Raise(Limit)) - Payload(a, Lower(Limit))
    ensures Read(r, Offset) == Read(s, Offset) + Payload(a, Raise(Offset)) - Payload(a, Lower(Offset))
    ensures r.pokemons == if a.LoadSucceeded? then a.results else s.pokemons
  {
    match a
    case IncreaseLimit(n) => s.(limit := s.limit + n)
    case DecreaseLimit(n) => s.(limit := s.limit - n)
    case IncreaseOffset(n) => s.(offset := s.offset + n)
    case DecreaseOffset(n) => s.(offset := s.offset - n)
    case LoadSucceeded(results) => s.(pokemons := results)
  }

  /** The mutable snapshot object the store holds. */
  class AppState<T> {
    var limit: int
    var offset: int
    var pokemons: PokemonList<T>

    ghost function Value(): Snapshot<T>
      reads this
    {
      Snapshot(limit, offset, pokemons)
    }

    /** The initial snapshot `{limit: 10, offset: 0, pokemons: []}`. */
    constructor Initial()
      ensures limit == InitialLimit && offset == InitialOffset
      ensures fresh(pokemons) && pokemons.items == []
    {
      limit := InitialLimit;
      offset := InitialOffset;
      pokemons := new PokemonList([]);
    }

    /** The shallow copy `{ ...state }`: a new object with the same field values;
        the `pokemons` array is shared, not copied. */
    constructor Copy(s: AppState<T>)
      ensures Value() == s.Value()
    {
      limit := s.limit;
      offset := s.offset;
      pokemons := s.pokemons;
    }

    /** The accumulator bound to the action's channel, run on this (copied) object. */
    method Accumulate(a: Action<T>)
      modifies this
      ensures Value() == Reduce(old(Value()), a)
    {
      match a
      case IncreaseLimit(n) => limit := limit + n;
      case DecreaseLimit(n) => limit := limit - n;
      case IncreaseOffset(n) => offset := offset + n;
      case DecreaseOffset(n) => offset := offset - n;
      case LoadSucceeded(results) => pokemons := results;
    }
  }
}
