/**
 * The in-memory executor's iterator requests (src/ydn/db/core/req/simple_store.js):
 * `keysByIterator` collects effective keys; `iterate_` (behind
 * `listByIterator` and `getByIterator`) collects primary keys for key
 * iterators and values otherwise. Both test the key for both undefined and
 * null and step with `advance(1)`.
 */
module SimpleStoreExec {
  import opened Wrappers
  import opened Base
  import opened Keys
  import opened CoreIterator
  import opened Paging

  /** `keysByIterator`: errors are delivered flagged, without exiting the cursor. */
  const KEYS_FLAVOUR: Flavour := Flavour(true, AdvanceOne, false, true, false)

  /** `iterate_`: errors exit the cursor first; GET delivers the first item only. */
  function IterateFlavour(get: bool): (f: Flavour)
    ensures f.nullEnds && f.step == AdvanceOne && f.exitOnFail && f.failFlag && f.single == get
  {
    Flavour(true, AdvanceOne, true, true, get)
  }

  /** The effective key. */
  function KeyOf(r: Record): Item {
    KeyItem(r.key)
  }

  /** What `iterate_` collects: the primary key (the effective key on a store) for key iterators, the value otherwise. */
  function IterateItem(it: IterSpec, r: Record): (v: Item)
    ensures it.IsKeyIterator() && it.IsIndexIterator() ==> v == KeyItem(r.primary)
    ensures it.IsKeyIterator() && !it.IsIndexIterator() ==> v == KeyItem(r.key)
    ensures it.IsValueIterator() ==> v == ValueItem(r.value)
  {
    if it.IsKeyIterator() then KeyItem(if it.IsIndexIterator() then r.primary else r.key) else ValueItem(r.value)
  }

  /** `keysByIterator(iter, limit, offset)` over the records the iterator's cursor walks. */
  method KeysByIterator(walk: seq<Record>, limit: Option<int>, offset: int) returns (out: Outcome)
    ensures out == Delivered(Page(walk, offset, limit, KeyOf))
  {
    out := Collect(walk, KEYS_FLAVOUR, KeyOf, offset, limit);
  }

  /** `listByIterator(iter, limit, offset)`: `iterate_` with the VALUES method. */
  method ListByIterator(walk: seq<Record>, it: IterSpec, limit: Option<int>, offset: int) returns (out: Outcome)
    ensures out == Delivered(Page(walk, offset, limit, r => IterateItem(it, r)))
  {
    out := Collect(walk, IterateFlavour(false), r => IterateItem(it, r), offset, limit);
  }

  /** `getByIterator(iter)`: `iterate_` with GET, limit 1 and offset 0; nothing found delivers nothing. */
  method GetByIterator(walk: seq<Record>, it: IterSpec) returns (out: Outcome)
    ensures out == DeliveredOne(if |walk| == 0 then None else Some(IterateItem(it, walk[0])))
  {
    out := Collect(walk, IterateFlavour(true), r => IterateItem(it, r), 0, Some(1));
  }

  /** The arguments a cursor is built from. */
  datatype CursorArgs = CursorArgs(store: string, index: Option<string>, range: Option<KeyRange>, direction: Direction,
                                   keyOnly: bool, query: QueryMethod)

  /**
   * `getCursor`: the store must be in the schema (a debug assertion); the
   * index name is resolved through the executor only when one is given.
   */
  function GetCursor(schema: set<string>, store: string, index: Option<string>, range: Option<KeyRange>, direction: Direction,
                     keyOnly: bool, query: QueryMethod, resolve: string -> string): (r: Result<CursorArgs, Error>)
    ensures r.Success? <==> store in schema
    ensures r.Failure? ==> r.error == AssertionError
    ensures r.Success? ==> r.value.index == (if index.Some? then Some(resolve(index.value)) else None)
    ensures r.Success? ==> r.value == CursorArgs(store, r.value.index, range, direction, keyOnly, query)
  {
    if store !in schema then Failure(AssertionError)
    else Success(CursorArgs(store, if index.Some? then Some(resolve(index.value)) else None, range, direction, keyOnly, query))
  }
}
