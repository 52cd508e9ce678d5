/**
 * The state every cursor adapter shares (js/ydn/db/core/req/abstract_cursor.js):
 * flags derived once from the constructor arguments, and the transaction that
 * `disposeInternal` drops.
 */
module AbstractCursor {
  import opened Wrappers
  import opened Base
  import opened Keys

  /** The flags the constructor derives from its arguments. */
  datatype CursorFlags = CursorFlags(
    isIndex: bool, keyRange: Option<KeyRange>, reverse: bool, unique: bool, dir: Direction, keyOnly: bool)

  /**
   * Derived flags: an index cursor iff the index name is a string, a missing
   * range normalised to null, and the direction split into reverse/unique.
   */
  function Flags(indexName: Option<string>, keyRange: Option<KeyRange>, dir: Direction, keyOnly: bool): (f: CursorFlags)
    ensures f.isIndex <==> indexName.Some?
    ensures f.keyRange == keyRange
    ensures GetDirection(f.reverse, f.unique) == dir
    ensures f.dir == dir && f.keyOnly == keyOnly
  {
    CursorFlags(indexName.Some?, keyRange, dir == Prev || dir == PrevUnique,
                dir == NextUnique || dir == PrevUnique, dir, keyOnly)
  }

  /** The flags agree with the direction's own reverse/unique classification. */
  lemma FlagsMatchDirection(indexName: Option<string>, keyRange: Option<KeyRange>, dir: Direction, keyOnly: bool)
    ensures Flags(indexName, keyRange, dir, keyOnly).reverse <==> dir.IsReverse()
    ensures Flags(indexName, keyRange, dir, keyOnly).unique <==> dir.IsUnique()
  {
  }

  class Cursor {
    const storeName: string
    const indexName: Option<string>
    const flags: CursorFlags
    const queryMethod: QueryMethod
    var tx: Option<Tx>

    constructor (tx: Option<Tx>, storeName: string, indexName: Option<string>, keyRange: Option<KeyRange>,
                 dir: Direction, keyOnly: bool, queryMethod: QueryMethod)
      ensures this.tx == tx && this.storeName == storeName && this.indexName == indexName
      ensures flags == Flags(indexName, keyRange, dir, keyOnly) && this.queryMethod == queryMethod
    {
      this.tx := tx;
      this.storeName := storeName;
      this.indexName := indexName;
      this.flags := Flags(indexName, keyRange, dir, keyOnly);
      this.queryMethod := queryMethod;
    }

    /** `isActive()`: the cursor still has a transaction. */
    predicate IsActive()
      reads this
    {
      tx.Some?
    }

    predicate IsIndexCursor() { flags.isIndex }
    predicate IsPrimaryCursor() { !flags.isIndex }
    predicate IsValueCursor() { !flags.keyOnly }

    /** `disposeInternal()`: drop the transaction, so the cursor is inactive. */
    method Dispose()
      modifies this
      ensures !IsActive()
    {
      tx := None;
    }

    /** `onSuccess` and `onError` must be overridden by the user of the cursor. */
    method OnSuccess(key: MaybeKey, primaryKey: MaybeKey, value: Option<Value>) returns (r: Result<(), Error>)
      ensures r == Failure(InternalError)
    {
      r := Failure(InternalError);
    }

    method OnError() returns (r: Result<(), Error>)
      ensures r == Failure(InternalError)
    {
      r := Failure(InternalError);
    }
  }
}
