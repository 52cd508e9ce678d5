/**
 * The WebSQL executor's iterator requests (src/ydn/db/core/req/websql.js):
 * one paging routine, `fetchIterator_`, for the KEYS, VALUES and GET
 * methods. Only an undefined key ends the scan; the cursor steps with
 * `continueEffectiveKey()`; errors exit the cursor and are reported flagged.
 */
module CoreWebSqlExec {
  import opened Wrappers
  import opened Base
  import opened Keys
  import opened CoreIterator
  import opened Paging
  import SimpleStoreExec

  /** The SQL query methods the routine is called with. */
  datatype SqlMethod = SqlKeys | SqlValues | SqlGet | SqlCount

  function FetchFlavour(mth: SqlMethod): (f: Flavour)
    ensures !f.nullEnds && f.step == ContinueNext && f.exitOnFail && f.failFlag && (f.single <==> mth == SqlGet)
  {
    Flavour(false, ContinueNext, true, true, mth == SqlGet)
  }

  /** KEYS collects the effective key; otherwise an index key iterator gives the primary key and anything else the value. */
  function FetchItem(mth: SqlMethod, it: IterSpec, r: Record): (v: Item)
    ensures mth == SqlKeys ==> v == KeyItem(r.key)
    ensures mth != SqlKeys && it.IsIndexIterator() && it.IsKeyIterator() ==> v == KeyItem(r.primary)
    ensures mth != SqlKeys && !(it.IsIndexIterator() && it.IsKeyIterator()) ==> v == ValueItem(r.value)
  {
    if mth == SqlKeys then KeyItem(r.key)
    else if it.IsIndexIterator() && it.IsKeyIterator() then KeyItem(r.primary)
    else ValueItem(r.value)
  }

  /**
   * For a key iterator over a store, listing values gives the record values
   * here where the in-memory executor gives the keys.
   */
  lemma PrimaryKeyIteratorListsValues(it: IterSpec, r: Record)
    requires it.IsKeyIterator() && !it.IsIndexIterator()
    ensures FetchItem(SqlValues, it, r) == ValueItem(r.value)
    ensures SimpleStoreExec.IterateItem(it, r) == KeyItem(r.key)
  {
  }

  /** `fetchIterator_(iter, mth, limit, offset)`. */
  method FetchIterator(walk: seq<Record>, it: IterSpec, mth: SqlMethod, limit: Option<int>, offset: int) returns (out: Outcome)
    ensures out == Deliver(FetchFlavour(mth), Page(walk, offset, limit, r => FetchItem(mth, it, r)))
  {
    out := Collect(walk, FetchFlavour(mth), r => FetchItem(mth, it, r), offset, limit);
  }

  /** `keysByIterator`: the KEYS method. */
  method KeysByIterator(walk: seq<Record>, it: IterSpec, limit: Option<int>, offset: int) returns (out: Outcome)
    ensures out == Delivered(Page(walk, offset, limit, (r: Record) => KeyItem(r.key)))
  {
    out := FetchIterator(walk, it, SqlKeys, limit, offset);
    assert Page(walk, offset, limit, r => FetchItem(SqlKeys, it, r)) == Page(walk, offset, limit, (r: Record) => KeyItem(r.key));
  }

  /** `listByIterator`: the VALUES method. */
  method ListByIterator(walk: seq<Record>, it: IterSpec, limit: Option<int>, offset: int) returns (out: Outcome)
    ensures out == Delivered(Page(walk, offset, limit, r => FetchItem(SqlValues, it, r)))
  {
    out := FetchIterator(walk, it, SqlValues, limit, offset);
  }

  /** `getByIterator`: the GET method with limit 1 and offset 0. */
  method GetByIterator(walk: seq<Record>, it: IterSpec) returns (out: Outcome)
    ensures out == DeliveredOne(if |walk| == 0 then None else Some(FetchItem(SqlGet, it, walk[0])))
  {
    out := FetchIterator(walk, it, SqlGet, Some(1), 0);
  }

  /** The arguments the WebSQL cursor is built from: the store and the method only. */
  datatype CursorArgs = CursorArgs(store: string, mth: SqlMethod)

  /**
   * `getCursor`: the store must be in the schema (a debug assertion); index,
   * range and direction are not passed on.
   */
  function GetCursor(schema: set<string>, store: string, mth: SqlMethod): (r: Result<CursorArgs, Error>)
    ensures r.Success? <==> store in schema
    ensures r.Success? ==> r.value.store == store && r.value.mth == mth
    ensures r.Failure? ==> r.error == AssertionError
  {
    if store in schema then Success(CursorArgs(store, mth)) else Failure(AssertionError)
  }

  /** `getStreamer` is not supported: it throws the bare string "not yet". */
  function GetStreamer(store: string, index: Option<string>): (r: Result<(), string>)
    ensures r == Failure("not yet")
  {
    Failure("not yet")
  }
}
