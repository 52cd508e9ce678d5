/**
 * The older WebSQL executor's iterator requests (js/ydn/db/index/req/websql.js):
 * `keysByIterator` and `listByIterator` share `fetchIterator_` with a key
 * query flag. Only an undefined key ends the scan; the cursor steps with
 * `continueEffectiveKey()`. Its error handler is installed as `onError`,
 * a name the front cursor never calls (it calls `onFail`), so the
 * flavour's error settings describe that handler and not a path a failing
 * cursor takes.
 */
module IndexWebSqlExec {
  import opened Wrappers
  import opened Base
  import opened Keys
  import opened CoreIterator
  import opened Paging

  const FETCH_FLAVOUR: Flavour := Flavour(false, ContinueNext, true, true, false)

  /**
   * A key query collects the effective key; a value query collects the
   * primary key for key-only index iterators and the value otherwise
   * (`isKeyOnly` read as the key-only flag).
   */
  function FetchItem(keyQuery: bool, it: IterSpec, r: Record): (v: Item)
    ensures keyQuery ==> v == KeyItem(r.key)
    ensures !keyQuery && it.IsIndexIterator() && it.keyOnly ==> v == KeyItem(r.primary)
    ensures !keyQuery && !(it.IsIndexIterator() && it.keyOnly) ==> v == ValueItem(r.value)
  {
    if keyQuery then KeyItem(r.key)
    else if it.IsIndexIterator() && it.keyOnly then KeyItem(r.primary)
    else ValueItem(r.value)
  }

  /** `fetchIterator_(iter, keyQuery, limit, offset)`. */
  method FetchIterator(walk: seq<Record>, it: IterSpec, keyQuery: bool, limit: Option<int>, offset: int) returns (out: Outcome)
    ensures out == Delivered(Page(walk, offset, limit, r => FetchItem(keyQuery, it, r)))
  {
    out := Collect(walk, FETCH_FLAVOUR, r => FetchItem(keyQuery, it, r), offset, limit);
  }

  /** `keysByIterator`: a key query. */
  method KeysByIterator(walk: seq<Record>, it: IterSpec, limit: Option<int>, offset: int) returns (out: Outcome)
    ensures out == Delivered(Page(walk, offset, limit, (r: Record) => KeyItem(r.key)))
  {
    out := FetchIterator(walk, it, true, limit, offset);
    assert Page(walk, offset, limit, r => FetchItem(true, it, r)) == Page(walk, offset, limit, (r: Record) => KeyItem(r.key));
  }

  /** `listByIterator`: a value query. */
  method ListByIterator(walk: seq<Record>, it: IterSpec, limit: Option<int>, offset: int) returns (out: Outcome)
    ensures out == Delivered(Page(walk, offset, limit, r => FetchItem(false, it, r)))
  {
    out := FetchIterator(walk, it, false, limit, offset);
  }

  /** The arguments a cursor is built from. */
  datatype CursorArgs = CursorArgs(store: string, index: Option<string>, range: Option<KeyRange>, direction: Direction,
                                   keyOnly: bool, keyQuery: bool)

  /** `getCursor`: the store must be in the schema (a debug assertion); everything else is passed on. */
  function GetCursor(schema: set<string>, store: string, index: Option<string>, range: Option<KeyRange>, direction: Direction,
                     keyOnly: bool, keyQuery: bool): (r: Result<CursorArgs, Error>)
    ensures r.Success? <==> store in schema
    ensures r.Success? ==> r.value == CursorArgs(store, index, range, direction, keyOnly, keyQuery)
    ensures r.Failure? ==> r.error == AssertionError
  {
    if store in schema then Success(CursorArgs(store, index, range, direction, keyOnly, keyQuery)) else Failure(AssertionError)
  }
}
