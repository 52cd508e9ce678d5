/**
 * The IndexedDB executor's iterator requests (js/ydn/db/core/req/indexed_db.js):
 * only an undefined key ends the scan; `keysByIterator` steps with
 * `advance(1)` and reports errors flagged, `listByIterator` steps with
 * `continueEffectiveKey()`, exits on error and reports it unflagged.
 */
module IndexedDbExec {
  import opened Wrappers
  import opened Base
  import opened Keys
  import opened CoreIterator
  import opened Paging

  const KEYS_FLAVOUR: Flavour := Flavour(false, AdvanceOne, false, true, false)
  const LIST_FLAVOUR: Flavour := Flavour(false, ContinueNext, true, false, false)

  function KeyOf(r: Record): Item {
    KeyItem(r.key)
  }

  /**
   * What `listByIterator` collects: the primary key (the effective key on a
   * store) for key-only iterators, the value otherwise. The key-only test
   * (`isKeyOnly`) is not defined by the iterator in this model; it is read
   * as the key-only flag.
   */
  function ListItem(it: IterSpec, r: Record): (v: Item)
    ensures it.keyOnly && it.IsIndexIterator() ==> v == KeyItem(r.primary)
    ensures it.keyOnly && !it.IsIndexIterator() ==> v == KeyItem(r.key)
    ensures !it.keyOnly ==> v == ValueItem(r.value)
  {
    if it.keyOnly then KeyItem(if it.IsIndexIterator() then r.primary else r.key) else ValueItem(r.value)
  }

  /** A null key is a record here and ends the scan in the in-memory executor. */
  lemma NullKeyIsARecord()
    ensures !Ends(KEYS_FLAVOUR, Null) && !Ends(LIST_FLAVOUR, Null)
    ensures Ends(KEYS_FLAVOUR, Undefined) && Ends(LIST_FLAVOUR, Undefined)
  {
  }

  /** `keysByIterator(iter, limit, offset)`. */
  method KeysByIterator(walk: seq<Record>, limit: Option<int>, offset: int) returns (out: Outcome)
    ensures out == Delivered(Page(walk, offset, limit, KeyOf))
  {
    out := Collect(walk, KEYS_FLAVOUR, KeyOf, offset, limit);
  }

  /** `listByIterator(iter, limit, offset)`. */
  method ListByIterator(walk: seq<Record>, it: IterSpec, limit: Option<int>, offset: int) returns (out: Outcome)
    ensures out == Delivered(Page(walk, offset, limit, r => ListItem(it, r)))
  {
    out := Collect(walk, LIST_FLAVOUR, r => ListItem(it, r), offset, limit);
  }

  /** The arguments a cursor is built from. */
  datatype CursorArgs = CursorArgs(store: string, index: Option<string>, range: Option<KeyRange>, direction: Direction,
                                   keyOnly: bool, query: QueryMethod)

  /** `getCursor` hands every argument to the IndexedDB cursor unchanged. */
  function GetCursor(store: string, index: Option<string>, range: Option<KeyRange>, direction: Direction,
                     keyOnly: bool, query: QueryMethod): (c: CursorArgs)
    ensures c.store == store && c.index == index && c.range == range
    ensures c.direction == direction && c.keyOnly == keyOnly && c.query == query
  {
    CursorArgs(store, index, range, direction, keyOnly, query)
  }
}
