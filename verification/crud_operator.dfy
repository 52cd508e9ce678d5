/**
 * The CRUD operator (js/ydn/db/crud/operator.js). It validates the loosely
 * typed arguments of `count`, `get`, `keys`, `values`, `add`, `put`, `clear`,
 * `remove` and the `*Internal` variants. It then dispatches each call to a
 * request: the executor call, the stores it covers, the thread and the
 * transaction it runs in. The model is that of a debug build, so the
 * `goog.DEBUG` checks are on. Key-range objects are parsed and validated
 * elsewhere, and an argument carries the outcome of both.
 */
module CrudOperator {
  import opened Wrappers
  import opened Base
  import opened Keys
  import opened Collections

  // ---------------------------------------------------------------------
  // Arguments and schema facts
  // ---------------------------------------------------------------------

  /** A record object: its value, the key at its in-line key path, and its `name` property when that is a string. */
  datatype Rec = Rec(value: Value, inlineKey: Option<Key>, name: Option<string>)

  /** A JavaScript argument, as far as the operator tells arguments apart. */
  datatype Arg =
    | Undef
    | Nul
    | StrArg(s: string)
    | NumArg(n: int)
    | BoolArg(b: bool)
    | DateArg(t: int)
    /** A `ydn.db.Key` instance. */
    | KeyArg(keyStore: string, id: Key)
    /** A key-range object: what it parses to, and whether it validates. */
    | RangeArg(parsed: Option<KeyRange>, valid: bool)
    | ObjArg(rec: Rec)
    | ArrArg(items: seq<Arg>)
  {
    predicate IsDef() { !Undef? }
    predicate IsDefAndNotNull() { !Undef? && !Nul? }
    /** `goog.isObject`: objects, arrays and dates, not null. */
    predicate IsObject() { DateArg? || KeyArg? || RangeArg? || ObjArg? || ArrArg? }
    /** JavaScript truthiness. */
    predicate Truthy() {
      match this
      case Undef => false
      case Nul => false
      case StrArg(s) => s != ""
      case NumArg(n) => n != 0
      case BoolArg(b) => b
      case _ => true
    }
  }

  /** What an object store declares: its indexes, whether its key is in-line, whether its key path is a string, and whether it has a key generator. */
  datatype StoreInfo = StoreInfo(indexes: set<string>, inline: bool, stringKeyPath: bool, autoIncrement: bool)

  /** The database schema: its stores by name, their order, and whether stores are added on demand. */
  datatype Schema = Schema(stores: map<string, StoreInfo>, names: seq<string>, auto: bool)

  /** `ydn.db.KeyRange.parseIDBKeyRange`: the range of a key-range object; anything else parses to null. */
  function ParseRange(a: Arg): (r: Option<KeyRange>)
    ensures !a.RangeArg? ==> r.None?
    ensures a.RangeArg? ==> r == a.parsed
  {
    if a.RangeArg? then a.parsed else None
  }

  /** `ydn.db.KeyRange.validate` reports no problem; only a key-range object can be invalid. */
  predicate Validates(a: Arg) {
    !a.RangeArg? || a.valid
  }

  /** `ydn.db.Key.isValidKey`: numbers, strings, dates and arrays of valid keys are keys. */
  function ToKey(a: Arg): (k: Option<Key>)
    ensures a.NumArg? ==> k == Some(Num(a.n))
    ensures a.StrArg? ==> k == Some(Str(a.s))
    ensures a.DateArg? ==> k == Some(Date(a.t))
    ensures !(a.NumArg? || a.StrArg? || a.DateArg? || a.ArrArg?) ==> k.None?
    ensures a.ArrArg? ==> (k.Some? <==> ToKeys(a.items).Some?)
  {
    match a
    case NumArg(n) => Some(Num(n))
    case StrArg(s) => Some(Str(s))
    case DateArg(t) => Some(Date(t))
    case ArrArg(items) =>
      var ks := ToKeys(items);
      if ks.Some? then Some(Keys.Arr(ks.value)) else None
    case _ => None
  }

  /** Every element is a valid key. */
  function ToKeys(items: seq<Arg>): (ks: Option<seq<Key>>)
    ensures ks.Some? ==> |ks.value| == |items|
    decreases items, 0
  {
    if |items| == 0 then Some([])
    else
      var first := ToKey(items[0]);
      var rest := ToKeys(items[1..]);
      if first.Some? && rest.Some? then Some([first.value] + rest.value) else None
  }

  /** A key's id as the argument handed on. */
  function IdArg(id: Key): (a: Arg)
    ensures ToKey(a) == Some(id)
    decreases id, 1
  {
    match id
    case Num(n) => NumArg(n)
    case Date(t) => DateArg(t)
    case Str(s) => StrArg(s)
    case Arr(items) => ArrArg(IdArgs(items))
  }

  function IdArgs(ids: seq<Key>): (args: seq<Arg>)
    ensures |args| == |ids| && ToKeys(args) == Some(ids)
    decreases ids, 0
  {
    if |ids| == 0 then []
    else
      var args := [IdArg(ids[0])] + IdArgs(ids[1..]);
      assert args[1..] == IdArgs(ids[1..]);
      assert ids == [ids[0]] + ids[1..];
      args
  }

  /** A numeric argument, or the default when it is absent; anything else is refused. */
  function NumberArg(a: Arg, default: int): (r: Result<int, Error>)
    ensures a.NumArg? ==> r == Success(a.n)
    ensures a.Undef? ==> r == Success(default)
    ensures !a.NumArg? && !a.Undef? ==> r == Failure(ArgumentException)
  {
    if a.NumArg? then Success(a.n) else if a.Undef? then Success(default) else Failure(ArgumentException)
  }

  /** A `reverse` flag: false when absent, the boolean when given, refused otherwise. */
  function ReverseArg(a: Arg): (r: Result<bool, Error>)
    ensures r.Success? <==> a.Undef? || a.BoolArg?
    ensures a.BoolArg? ==> r == Success(a.b)
    ensures a.Undef? ==> r == Success(false)
    ensures r.Failure? ==> r.error == ArgumentException
  {
    if a.BoolArg? then Success(a.b) else if a.Undef? then Success(false) else Failure(ArgumentException)
  }

  /**
   * The `reverse` check of `keys` on an index, as written. Its condition
   * is the function `goog.isBoolean` itself rather than a call of it. A
   * function is always truthy, so any value given is taken; the executor
   * reads it by its truthiness.
   */
  function ReverseArgAsWritten(a: Arg): (r: Result<bool, Error>)
    ensures r.Success?
    ensures r.value == a.Truthy()
  {
    if a.IsDef() then Success(a.Truthy()) else Success(false)
  }

  /** The as-written check lets a string through where the intended check refuses it. */
  lemma ReverseAsWrittenAcceptsString()
    ensures ReverseArgAsWritten(StrArg("yes")) == Success(true)
    ensures ReverseArg(StrArg("yes")) == Failure(ArgumentException)
  {
  }

  /** The two checks agree exactly on booleans and on a missing argument. */
  lemma ReverseChecksAgree(a: Arg)
    ensures ReverseArgAsWritten(a) == ReverseArg(a) <==> a.BoolArg? || a.Undef?
  {
  }

  // ---------------------------------------------------------------------
  // Requests
  // ---------------------------------------------------------------------

  /** The request kinds the operator names when it asks a thread for a transaction. */
  datatype Method = COUNT | GET | KEYS | KEYS_INDEX | VALUES | VALUES_INDEX | VALUES_IDS | VALUES_KEYS

  /** The thread a request is queued on: the user's transaction thread or the synchronisation thread. */
  datatype Thread = TxThread | SyncThread

  /** `request(method, stores)` for reads, `exec(df, fn, stores, mode)` for writes. */
  datatype Via = Request(kind: Method) | Exec(mode: TransactionMode)

  /** The executor call made once the transaction is there. */
  datatype Call =
    | CountStores(storeArgs: seq<Arg>)
    | CountKeyRange(store: string, range: Option<KeyRange>, countIndex: Option<string>, unique: bool)
    | GetById(store: string, id: Key)
    | KeysByIndexKeyRange(store: string, index: string, range: Option<KeyRange>, reverse: bool, limit: int, offset: int)
    | KeysByKeyRange(store: string, range: Option<KeyRange>, reverse: bool, limit: int, offset: int)
    | ListByIds(store: string, ids: seq<Arg>)
    | ListByIndexKeyRange(store: string, index: string, range: Option<KeyRange>, reverse: bool, limit: int, offset: int)
    | ListByKeyRange(store: string, range: Option<KeyRange>, reverse: bool, limit: int, offset: int)
    | ListByKeys(dbKeys: seq<Arg>)
    | AddObjects(store: string, objs: seq<Arg>, objKeys: Arg)
    | AddObject(store: string, obj: Arg, key: Arg)
    | PutObjects(store: string, objs: seq<Arg>, objKeys: Arg)
    | PutObject(store: string, obj: Arg, key: Arg)
    | PutByKeys(values: seq<Arg>, dbKeys: seq<Arg>)
    | ClearByKeyRange(store: string, clearRange: KeyRange)
    | ClearByStores(storeArgs: seq<Arg>)
    | RemoveByIndexKeyRange(store: string, index: string, range: Option<KeyRange>)
    | RemoveById(store: string, removeId: Arg)
    | RemoveByKeyRange(store: string, range: Option<KeyRange>)
    | RemoveByKeys(dbKeys: seq<Arg>)

  /** A queued request: the thread, how it asks, the stores its transaction covers, and the executor call. */
  datatype Scheduled = Scheduled(thread: Thread, via: Via, stores: seq<Arg>, call: Call)

  /** An answer given at once, without a transaction. */
  datatype Immediate = UndefinedValue | EmptyList | UndefinedList(length: nat)

  /** What an operation returns: a queued request (`addsStore` when the store was first added to the schema) or an immediate answer. */
  datatype Outcome = Run(scheduled: Scheduled, addsStore: bool) | Answer(immediate: Immediate)

  /** Store names as arguments. */
  function Strs(names: seq<string>): (r: seq<Arg>)
    ensures |r| == |names| && forall i :: 0 <= i < |names| ==> r[i] == StrArg(names[i])
  {
    seq(|names|, i requires 0 <= i < |names| => StrArg(names[i]))
  }

  function ReadReq(thread: Thread, m: Method, stores: seq<string>, call: Call): Outcome {
    Run(Scheduled(thread, Request(m), Strs(stores), call), false)
  }

  function WriteReq(thread: Thread, stores: seq<Arg>, call: Call, addsStore: bool): Outcome {
    Run(Scheduled(thread, Exec(ReadWrite), stores, call), addsStore)
  }

  /** A request that writes: through `exec`, in a read-write transaction. */
  predicate IsWrite(r: Result<Outcome, Error>) {
    r.Success? ==> r.value.Run? && r.value.scheduled.via == Exec(ReadWrite)
  }

  // ---------------------------------------------------------------------
  // Key lists
  // ---------------------------------------------------------------------

  /** Every element is a key object whose store is in the schema. */
  predicate KnownKeys(schema: Schema, items: seq<Arg>) {
    forall i :: 0 <= i < |items| ==> items[i].KeyArg? && items[i].keyStore in schema.stores
  }

  /** Every element is a key object. */
  predicate AllKeyArgs(items: seq<Arg>) {
    forall i :: 0 <= i < |items| ==> items[i].KeyArg?
  }

  /** The store names of a list of key objects, one per key. */
  function StoreNamesOf(items: seq<Arg>): (names: seq<string>)
    requires AllKeyArgs(items)
    ensures |names| == |items| && forall i :: 0 <= i < |items| ==> names[i] == items[i].keyStore
  {
    seq(|items|, i requires 0 <= i < |items| => items[i].keyStore)
  }

  /** How the walk over a key list ends: all keys and their store names, a non-key, or a key of an unknown store. */
  datatype KeyScan = Found(names: seq<string>) | NonKeyAt(at: nat) | UnknownAt(at: nat)

  /**
   * The loop the operator runs over a key list: it reads each element's
   * store name, which fails on an element that is not a key object, then
   * looks the store up, which fails on an unknown store.
   */
  function ScanKeys(schema: Schema, items: seq<Arg>): (r: KeyScan)
    ensures r.Found? <==> KnownKeys(schema, items)
    ensures r.Found? ==> r.names == StoreNamesOf(items)
    ensures r.NonKeyAt? ==>
      r.at < |items| && !items[r.at].KeyArg?
      && forall i :: 0 <= i < r.at ==> items[i].KeyArg? && items[i].keyStore in schema.stores
    ensures r.UnknownAt? ==>
      r.at < |items| && items[r.at].KeyArg? && items[r.at].keyStore !in schema.stores
      && forall i :: 0 <= i < r.at ==> items[i].KeyArg? && items[i].keyStore in schema.stores
  {
    if |items| == 0 then Found([])
    else if !items[0].KeyArg? then NonKeyAt(0)
    else if items[0].keyStore !in schema.stores then UnknownAt(0)
    else
      KeyListCons(schema, items);
      match ScanKeys(schema, items[1..])
      case Found(names) => Found([items[0].keyStore] + names)
      case NonKeyAt(i) => NonKeyAt(i + 1)
      case UnknownAt(i) => UnknownAt(i + 1)
  }

  /** A key list whose head is a key of a known store is known, and named, exactly as its tail is. */
  lemma KeyListCons(schema: Schema, items: seq<Arg>)
    requires |items| > 0 && items[0].KeyArg? && items[0].keyStore in schema.stores
    ensures KnownKeys(schema, items) <==> KnownKeys(schema, items[1..])
    ensures forall i :: 1 <= i < |items| ==> items[i] == items[1..][i - 1]
    ensures AllKeyArgs(items[1..]) ==> AllKeyArgs(items) && StoreNamesOf(items) == [items[0].keyStore] + StoreNamesOf(items[1..])
  {
    var rest := items[1..];
    assert forall i :: 0 <= i < |rest| ==> rest[i] == items[i + 1];
    if AllKeyArgs(rest) {
      assert AllKeyArgs(items) by {
        forall i | 0 <= i < |items| ensures items[i].KeyArg? {
          if i > 0 { assert items[i] == rest[i - 1]; }
        }
      }
    }
  }

  /**
   * The store list of a key list: each store once, in order of first
   * appearance (the `indexOf == -1` push loop of the operator).
   */
  method KeyStoreNames(items: seq<Arg>) returns (stores: seq<string>)
    requires AllKeyArgs(items)
    ensures stores == Dedup(StoreNamesOf(items))
    ensures Distinct(stores)
    ensures forall i :: 0 <= i < |items| ==> items[i].keyStore in stores
  {
    stores := [];
    var i := 0;
    ghost var names := StoreNamesOf(items);
    while i < |items|
      invariant i <= |items|
      invariant stores == Dedup(names[..i])
    {
      if items[i].keyStore !in stores {
        stores := stores + [items[i].keyStore];
      }
      DedupAppend(names[..i], names[i]);
      assert names[..i + 1] == names[..i] + [names[i]];
      i := i + 1;
    }
    assert names[..i] == names;
    DedupSpec(names);
    assert forall j :: 0 <= j < |items| ==> names[j] in names;
  }

  /**
   * The transaction of a key-list request covers exactly the stores of its
   * keys, each once.
   */
  lemma {:induction false} KeyListStores(items: seq<Arg>)
    requires AllKeyArgs(items)
    ensures Distinct(Strs(Dedup(StoreNamesOf(items))))
    ensures forall i :: 0 <= i < |items| ==> StrArg(items[i].keyStore) in Strs(Dedup(StoreNamesOf(items)))
    ensures forall a :: a in Strs(Dedup(StoreNamesOf(items))) ==>
      exists i :: 0 <= i < |items| && a == StrArg(items[i].keyStore)
  {
    var names := StoreNamesOf(items);
    var stores := Dedup(names);
    DedupSpec(names);
    var args := Strs(stores);
    forall i | 0 <= i < |items|
      ensures StrArg(items[i].keyStore) in args
    {
      assert names[i] in names;
      var j :| 0 <= j < |stores| && stores[j] == names[i];
      assert args[j] == StrArg(names[i]);
    }
    forall a | a in args
      ensures exists i :: 0 <= i < |items| && a == StrArg(items[i].keyStore)
    {
      var j :| 0 <= j < |args| && args[j] == a;
      assert stores[j] in names;
      var i :| 0 <= i < |names| && names[i] == stores[j];
      assert a == StrArg(items[i].keyStore);
    }
  }

  // ---------------------------------------------------------------------
  // count
  // ---------------------------------------------------------------------

  /** Every element of a store list names a store of the schema. */
  predicate KnownStoreArgs(schema: Schema, items: seq<Arg>) {
    forall i :: 0 <= i < |items| ==> items[i].StrArg? && items[i].s in schema.stores
  }

  /** The key range of a count on one store. */
  function CountRange(indexOrRange: Arg, indexRange: Arg): (r: Result<Option<KeyRange>, Error>)
    ensures r.Failure? ==> r.error == ArgumentException
    ensures indexOrRange.StrArg? ==>
      (r.Success? <==> (indexRange.IsObject() && Validates(indexRange)) || !indexRange.IsDefAndNotNull())
    ensures !indexOrRange.StrArg? ==>
      (r.Success? <==> (indexOrRange.IsObject() && Validates(indexOrRange)) || indexOrRange.Undef?)
    ensures r.Success? ==> r.value == ParseRange(if indexOrRange.StrArg? then indexRange else indexOrRange)
  {
    if indexOrRange.StrArg? then
      if indexRange.IsObject() then
        if !Validates(indexRange) then Failure(ArgumentException) else Success(ParseRange(indexRange))
      else if indexRange.IsDefAndNotNull() then Failure(ArgumentException)
      else Success(None)
    else if indexOrRange.IsObject() then
      if !Validates(indexOrRange) then Failure(ArgumentException) else Success(ParseRange(indexOrRange))
    else if indexOrRange.Undef? then Success(None)
    else Failure(ArgumentException)
  }

  /** `count(store_name, index_or_keyrange, index_key_range, unique)`. */
  function Count(schema: Schema, store: Arg, indexOrRange: Arg, indexRange: Arg, unique: Arg): (r: Result<Outcome, Error>)
    ensures !store.ArrArg? && !store.StrArg? ==> r == Failure(ArgumentException)
    ensures store.ArrArg? ==>
      r == if indexOrRange.IsDef() || indexRange.IsDef() || !KnownStoreArgs(schema, store.items) then Failure(ArgumentException)
           else Success(Run(Scheduled(TxThread, Request(COUNT), store.items, CountStores(store.items)), false))
    ensures store.StrArg? && store.s !in schema.stores ==> r == Failure(ArgumentException)
    ensures store.StrArg? && store.s in schema.stores && unique.IsDef() && !unique.BoolArg? ==> r == Failure(TypeError)
    ensures store.StrArg? && store.s in schema.stores && (unique.Undef? || unique.BoolArg?) ==>
      var range := CountRange(indexOrRange, indexRange);
      r == if range.Failure? then Failure(range.error)
           else Success(ReadReq(TxThread, COUNT, [store.s],
                                CountKeyRange(store.s, range.value,
                                              if indexOrRange.StrArg? then Some(indexOrRange.s) else None,
                                              unique.Truthy())))
  {
    if !store.IsDefAndNotNull() then Failure(ArgumentException)
    else if store.ArrArg? then
      if indexRange.IsDef() || indexOrRange.IsDef() then Failure(ArgumentException)
      else if !KnownStoreArgs(schema, store.items) then Failure(ArgumentException)
      else Success(Run(Scheduled(TxThread, Request(COUNT), store.items, CountStores(store.items)), false))
    else if store.StrArg? then
      if store.s !in schema.stores then Failure(ArgumentException)
      else if unique.IsDef() && !unique.BoolArg? then Failure(TypeError)
      else
        var range := CountRange(indexOrRange, indexRange);
        if range.Failure? then Failure(range.error)
        else
          Success(ReadReq(TxThread, COUNT, [store.s],
                          CountKeyRange(store.s, range.value, if indexOrRange.StrArg? then Some(indexOrRange.s) else None,
                                        unique.Truthy())))
    else Failure(ArgumentException)
  }

  /** A count on one store with no range counts the whole store, over exactly that store. */
  lemma CountWholeStore(schema: Schema, store: string)
    requires store in schema.stores
    ensures Count(schema, StrArg(store), Undef, Undef, Undef)
            == Success(Run(Scheduled(TxThread, Request(COUNT), [StrArg(store)], CountKeyRange(store, None, None, false)), false))
  {
    assert Strs([store]) == [StrArg(store)];
  }

  // ---------------------------------------------------------------------
  // get
  // ---------------------------------------------------------------------

  /** `get(arg1, arg2)`: by a key object, or by store name and id. */
  function Get(schema: Schema, arg1: Arg, arg2: Arg): (r: Result<Outcome, Error>)
    ensures arg1.KeyArg? ==>
      r == if arg1.keyStore in schema.stores then Success(ReadReq(TxThread, GET, [arg1.keyStore], GetById(arg1.keyStore, arg1.id)))
           else if schema.auto then Success(Answer(UndefinedValue))
           else Failure(ArgumentException)
    ensures arg1.StrArg? && arg2.IsDef() ==>
      r == if arg1.s !in schema.stores then (if schema.auto then Success(Answer(UndefinedValue)) else Failure(ArgumentException))
           else if ToKey(arg2).Some? then Success(ReadReq(TxThread, GET, [arg1.s], GetById(arg1.s, ToKey(arg2).value)))
           else Failure(AssertionError)
    ensures !arg1.KeyArg? && !(arg1.StrArg? && arg2.IsDef()) ==> r == Failure(ArgumentException)
  {
    if arg1.KeyArg? then
      if arg1.keyStore !in schema.stores then
        if schema.auto then Success(Answer(UndefinedValue)) else Failure(ArgumentException)
      else Success(ReadReq(TxThread, GET, [arg1.keyStore], GetById(arg1.keyStore, arg1.id)))
    else if arg1.StrArg? && arg2.IsDef() then
      if arg1.s !in schema.stores then
        if schema.auto then Success(Answer(UndefinedValue)) else Failure(ArgumentException)
      else
        var id := ToKey(arg2);
        if id.None? then Failure(AssertionError)
        else Success(ReadReq(TxThread, GET, [arg1.s], GetById(arg1.s, id.value)))
    else Failure(ArgumentException)
  }

  /** Getting by a key object and getting by its store name and id ask for the same record. */
  lemma GetByKeyIsGetById(schema: Schema, store: string, id: Key)
    ensures Get(schema, KeyArg(store, id), Undef) == Get(schema, StrArg(store), IdArg(id))
  {
  }

  // ---------------------------------------------------------------------
  // keys
  // ---------------------------------------------------------------------

  /** Limit, offset and reverse of a listing. */
  datatype Paging = Paging(limit: int, offset: int, reverse: bool)

  /** Limit (default 100), offset (default 0) and reverse, checked in that order. */
  function PagingArgs(limit: Arg, offset: Arg, reverse: Result<bool, Error>): (r: Result<Paging, Error>)
    ensures r.Success? <==> (limit.NumArg? || limit.Undef?) && (offset.NumArg? || offset.Undef?) && reverse.Success?
    ensures r.Success? ==>
      r.value.limit == (if limit.NumArg? then limit.n else DEFAULT_RESULT_LIMIT)
      && r.value.offset == (if offset.NumArg? then offset.n else 0)
      && r.value.reverse == reverse.value
    ensures r.Failure? ==> r.error == ArgumentException || (reverse.Failure? && r.error == reverse.error)
  {
    var l := NumberArg(limit, DEFAULT_RESULT_LIMIT);
    var o := NumberArg(offset, 0);
    if l.Failure? then Failure(l.error)
    else if o.Failure? then Failure(o.error)
    else if reverse.Failure? then Failure(reverse.error)
    else Success(Paging(l.value, o.value, reverse.value))
  }

  /** The key-range argument of a listing by key range: a valid range object, or nothing. */
  function RangeArgCheck(a: Arg): (r: Result<Option<KeyRange>, Error>)
    ensures r.Success? <==> (a.IsObject() && Validates(a)) || !a.IsDefAndNotNull()
    ensures r.Success? ==> r.value == ParseRange(a)
    ensures r.Failure? ==> r.error == (if a.IsObject() then ArgumentException else TypeError)
  {
    if a.IsObject() && !Validates(a) then Failure(ArgumentException)
    else if !a.IsObject() && a.IsDefAndNotNull() then Failure(TypeError)
    else Success(ParseRange(a))
  }

  /**
   * `keys(store_name, arg1, ...)`: by index (`arg1` an index name, then
   * range, limit, offset, reverse) or by key range (`arg1` a range, then
   * limit, offset, reverse). The index form reads `reverse` with the
   * intended boolean check.
   */
  function KeysOp(schema: Schema, store: Arg, arg1: Arg, arg2: Arg, arg3: Arg, arg4: Arg, arg5: Arg): (r: Result<Outcome, Error>)
    ensures !store.StrArg? ==> r == Failure(ArgumentException)
    ensures store.StrArg? && store.s !in schema.stores ==>
      r == if schema.auto then Success(Answer(EmptyList)) else Failure(ArgumentException)
    ensures store.StrArg? && !schema.auto && store.s in schema.stores && arg1.StrArg? && arg1.s !in schema.stores[store.s].indexes ==>
      r == Failure(ArgumentException)
    ensures r.Success? && r.value.Run? ==>
      store.StrArg? && store.s in schema.stores && r.value.scheduled.stores == [store] && r.value.scheduled.thread == TxThread
    ensures store.StrArg? && store.s in schema.stores && arg1.StrArg? && r.Success? ==>
      var p := PagingArgs(arg3, arg4, ReverseArg(arg5));
      Validates(arg2) && p.Success?
      && r.value == ReadReq(TxThread, KEYS_INDEX, [store.s],
                            KeysByIndexKeyRange(store.s, arg1.s, ParseRange(arg2), p.value.reverse, p.value.limit, p.value.offset))
    ensures store.StrArg? && store.s in schema.stores && !arg1.StrArg? ==>
      var range := RangeArgCheck(arg1);
      var p := PagingArgs(arg2, arg3, ReverseArg(arg4));
      r == if range.Failure? then Failure(range.error)
           else if p.Failure? then Failure(p.error)
           else Success(ReadReq(TxThread, KEYS, [store.s],
                                KeysByKeyRange(store.s, range.value, p.value.reverse, p.value.limit, p.value.offset)))
  {
    if !store.StrArg? then Failure(ArgumentException)
    else if !schema.auto && store.s !in schema.stores then Failure(ArgumentException)
    else if !schema.auto && arg1.StrArg? && arg1.s !in schema.stores[store.s].indexes then Failure(ArgumentException)
    else if schema.auto && store.s !in schema.stores then Success(Answer(EmptyList))
    else if arg1.StrArg? then KeysByIndex(store.s, arg1.s, arg2, arg3, arg4, ReverseArg(arg5))
    else
      var range := RangeArgCheck(arg1);
      var p := PagingArgs(arg2, arg3, ReverseArg(arg4));
      if range.Failure? then Failure(range.error)
      else if p.Failure? then Failure(p.error)
      else Success(ReadReq(TxThread, KEYS, [store.s],
                           KeysByKeyRange(store.s, range.value, p.value.reverse, p.value.limit, p.value.offset)))
  }

  /** The index form of `keys` once the store and index are checked, with `reverse` already read. */
  function KeysByIndex(store: string, index: string, range: Arg, limit: Arg, offset: Arg, reverse: Result<bool, Error>): (r: Result<Outcome, Error>)
    ensures r.Success? <==> Validates(range) && PagingArgs(limit, offset, reverse).Success?
    ensures r.Success? ==>
      var p := PagingArgs(limit, offset, reverse).value;
      r.value == ReadReq(TxThread, KEYS_INDEX, [store], KeysByIndexKeyRange(store, index, ParseRange(range), p.reverse, p.limit, p.offset))
  {
    if !Validates(range) then Failure(ArgumentException)
    else
      var p := PagingArgs(limit, offset, reverse);
      if p.Failure? then Failure(p.error)
      else Success(ReadReq(TxThread, KEYS_INDEX, [store],
                           KeysByIndexKeyRange(store, index, ParseRange(range), p.value.reverse, p.value.limit, p.value.offset)))
  }

  /** A listing of keys with only a store name lists up to 100 keys from the start, in ascending order. */
  lemma KeysDefaults(schema: Schema, store: string)
    requires store in schema.stores
    ensures KeysOp(schema, StrArg(store), Undef, Undef, Undef, Undef, Undef)
            == Success(ReadReq(TxThread, KEYS, [store], KeysByKeyRange(store, None, false, 100, 0)))
  {
  }

  /**
   * As written, `keys` on an index accepts the string "yes" as `reverse`;
   * with the intended check the same call raises ArgumentException.
   */
  lemma KeysAcceptsNonBooleanReverse(schema: Schema, store: string, index: string)
    requires store in schema.stores && index in schema.stores[store].indexes
    ensures KeysByIndex(store, index, Undef, Undef, Undef, ReverseArgAsWritten(StrArg("yes")))
            == Success(ReadReq(TxThread, KEYS_INDEX, [store], KeysByIndexKeyRange(store, index, None, true, 100, 0)))
    ensures KeysOp(schema, StrArg(store), StrArg(index), Undef, Undef, Undef, StrArg("yes")) == Failure(ArgumentException)
  {
  }

  // ---------------------------------------------------------------------
  // values
  // ---------------------------------------------------------------------

  /**
   * `values(arg0, ...)`: by store name with a list of ids, an index and a
   * range, or a key range; or by a list of key objects.
   */
  function ValuesOp(schema: Schema, arg0: Arg, arg1: Arg, arg2: Arg, arg3: Arg, arg4: Arg, arg5: Arg): (r: Result<Outcome, Error>)
    ensures arg0.StrArg? && arg0.s !in schema.stores ==>
      r == if schema.auto then Success(Answer(EmptyList)) else Failure(NotFoundError)
    ensures arg0.StrArg? && arg0.s in schema.stores && arg1.ArrArg? ==>
      r == if arg2.IsDef() || arg3.IsDef() then Failure(ArgumentException)
           else Success(ReadReq(TxThread, VALUES_IDS, [arg0.s], ListByIds(arg0.s, arg1.items)))
    ensures arg0.StrArg? && arg0.s in schema.stores && arg1.StrArg? ==>
      r == if arg1.s !in schema.stores[arg0.s].indexes || !Validates(arg2) then Failure(ArgumentException)
           else
             var p := PagingArgs(arg3, arg4, ReverseArg(arg5));
             if p.Failure? then Failure(p.error)
             else Success(ReadReq(TxThread, VALUES_INDEX, [arg0.s],
                                  ListByIndexKeyRange(arg0.s, arg1.s, ParseRange(arg2), p.value.reverse, p.value.limit, p.value.offset)))
    ensures arg0.StrArg? && arg0.s in schema.stores && !arg1.StrArg? && !arg1.ArrArg? ==>
      var range := RangeArgCheck(arg1);
      var p := PagingArgs(arg2, arg3, ReverseArg(arg4));
      r == if range.Failure? then Failure(range.error)
           else if p.Failure? then Failure(p.error)
           else Success(ReadReq(TxThread, VALUES, [arg0.s],
                                ListByKeyRange(arg0.s, range.value, p.value.reverse, p.value.limit, p.value.offset)))
    ensures arg0.ArrArg? ==>
      r == if |arg0.items| == 0 || !arg0.items[0].KeyArg? then Failure(ArgumentException)
           else ValuesByKeys(schema, arg0.items)
    ensures !arg0.StrArg? && !arg0.ArrArg? ==> r == Failure(ArgumentException)
  {
    if arg0.StrArg? then
      if arg0.s !in schema.stores then
        if schema.auto then Success(Answer(EmptyList)) else Failure(NotFoundError)
      else if arg1.ArrArg? then
        if arg2.IsDef() || arg3.IsDef() then Failure(ArgumentException)
        else Success(ReadReq(TxThread, VALUES_IDS, [arg0.s], ListByIds(arg0.s, arg1.items)))
      else if arg1.StrArg? then
        if arg1.s !in schema.stores[arg0.s].indexes || !Validates(arg2) then Failure(ArgumentException)
        else
          var p := PagingArgs(arg3, arg4, ReverseArg(arg5));
          if p.Failure? then Failure(p.error)
          else Success(ReadReq(TxThread, VALUES_INDEX, [arg0.s],
                               ListByIndexKeyRange(arg0.s, arg1.s, ParseRange(arg2), p.value.reverse, p.value.limit, p.value.offset)))
      else
        var range := RangeArgCheck(arg1);
        var p := PagingArgs(arg2, arg3, ReverseArg(arg4));
        if range.Failure? then Failure(range.error)
        else if p.Failure? then Failure(p.error)
        else Success(ReadReq(TxThread, VALUES, [arg0.s],
                             ListByKeyRange(arg0.s, range.value, p.value.reverse, p.value.limit, p.value.offset)))
    else if arg0.ArrArg? then
      if |arg0.items| == 0 || !arg0.items[0].KeyArg? then Failure(ArgumentException)
      else ValuesByKeys(schema, arg0.items)
    else Failure(ArgumentException)
  }

  /**
   * The key-list form of `values`: a later element that is not a key fails
   * when its store name is read; the first unknown store gives a list of
   * undefined values as long as the key list under auto-schema, and an
   * error otherwise.
   */
  function ValuesByKeys(schema: Schema, items: seq<Arg>): (r: Result<Outcome, Error>)
    ensures r.Success? && r.value.Run? <==> KnownKeys(schema, items)
    ensures KnownKeys(schema, items) ==>
      r == Success(ReadReq(TxThread, VALUES_KEYS, Dedup(StoreNamesOf(items)), ListByKeys(items)))
    ensures r.Success? && r.value.Answer? ==> schema.auto && r.value.immediate == UndefinedList(|items|)
  {
    match ScanKeys(schema, items)
    case Found(names) => Success(ReadReq(TxThread, VALUES_KEYS, Dedup(names), ListByKeys(items)))
    case NonKeyAt(_) => Failure(TypeError)
    case UnknownAt(_) => if schema.auto then Success(Answer(UndefinedList(|items|))) else Failure(ArgumentException)
  }

  /**
   * A listing by key objects runs over exactly the stores of its keys, each
   * once.
   */
  lemma ValuesByKeysStores(schema: Schema, items: seq<Arg>)
    requires ValuesByKeys(schema, items).Success? && ValuesByKeys(schema, items).value.Run?
    ensures var stores := ValuesByKeys(schema, items).value.scheduled.stores;
      Distinct(stores)
      && (forall i :: 0 <= i < |items| ==> StrArg(items[i].keyStore) in stores)
      && (forall a :: a in stores ==> exists i :: 0 <= i < |items| && a == StrArg(items[i].keyStore))
  {
    KeyListStores(items);
  }

  // ---------------------------------------------------------------------
  // add and put
  // ---------------------------------------------------------------------

  /** The store name of a store-name-or-schema argument. */
  function StoreNameOf(a: Arg): (n: Option<string>)
    ensures a.StrArg? ==> n == Some(a.s)
    ensures a.ObjArg? ==> n == a.rec.name
    ensures !a.StrArg? && !a.ObjArg? ==> n.None?
  {
    if a.StrArg? then Some(a.s) else if a.ObjArg? then a.rec.name else None
  }

  /** A resolved store: its name, what it declares, and whether it was just added to the schema. */
  datatype Resolved = Resolved(name: string, info: StoreInfo, added: bool)

  /**
   * The store lookup of `add` and `getStore_`. An unknown store is an error
   * (`missing`) unless stores are added on demand; then it is made from the
   * argument (`fromJson`). Under auto-schema, a schema object that differs
   * from the existing store is refused.
   */
  function ResolveStore(schema: Schema, a: Arg, missing: Error, fromJson: Arg -> StoreInfo,
                        differs: (StoreInfo, Arg) -> bool): (r: Result<Resolved, Error>)
    ensures StoreNameOf(a).None? ==> r == Failure(ArgumentException)
    ensures StoreNameOf(a).Some? && StoreNameOf(a).value !in schema.stores ==>
      r == if schema.auto then Success(Resolved(StoreNameOf(a).value, fromJson(a), true)) else Failure(missing)
    ensures StoreNameOf(a).Some? && StoreNameOf(a).value in schema.stores ==>
      r == if schema.auto && a.IsObject() && differs(schema.stores[StoreNameOf(a).value], a) then Failure(NotSupportedException)
           else Success(Resolved(StoreNameOf(a).value, schema.stores[StoreNameOf(a).value], false))
  {
    var name := StoreNameOf(a);
    if name.None? then Failure(ArgumentException)
    else if name.value !in schema.stores then
      if schema.auto then Success(Resolved(name.value, fromJson(a), true)) else Failure(missing)
    else if schema.auto && a.IsObject() && differs(schema.stores[name.value], a) then Failure(NotSupportedException)
    else Success(Resolved(name.value, schema.stores[name.value], false))
  }

  /**
   * `add(store_name_or_schema, value, opt_keys)`: a key given for a store
   * with a string key path, or no key for a store with out-of-line keys and
   * no key generator, is refused; an array adds many records, another
   * object adds one.
   */
  function Add(schema: Schema, storeArg: Arg, value: Arg, keys: Arg, fromJson: Arg -> StoreInfo,
               differs: (StoreInfo, Arg) -> bool): (r: Result<Outcome, Error>)
    ensures IsWrite(r)
    ensures ResolveStore(schema, storeArg, ArgumentException, fromJson, differs).Failure? ==>
      r == Failure(ResolveStore(schema, storeArg, ArgumentException, fromJson, differs).error)
    ensures ResolveStore(schema, storeArg, ArgumentException, fromJson, differs).Success? ==>
      var s := ResolveStore(schema, storeArg, ArgumentException, fromJson, differs).value;
      r == if s.info.stringKeyPath && keys.IsDef() then Failure(ArgumentException)
           else if !s.info.inline && !s.info.autoIncrement && !keys.IsDef() then Failure(ArgumentException)
           else if value.ArrArg? then Success(WriteReq(TxThread, [StrArg(s.name)], AddObjects(s.name, value.items, keys), s.added))
           else if value.IsObject() then Success(WriteReq(TxThread, [StrArg(s.name)], AddObject(s.name, value, keys), s.added))
           else Failure(ArgumentException)
  {
    var st := ResolveStore(schema, storeArg, ArgumentException, fromJson, differs);
    if st.Failure? then Failure(st.error)
    else
      var s := st.value;
      if s.info.stringKeyPath && keys.IsDef() then Failure(ArgumentException)
      else if !s.info.inline && !s.info.autoIncrement && !keys.IsDef() then Failure(ArgumentException)
      else if value.ArrArg? then Success(WriteReq(TxThread, [StrArg(s.name)], AddObjects(s.name, value.items, keys), s.added))
      else if value.IsObject() then Success(WriteReq(TxThread, [StrArg(s.name)], AddObject(s.name, value, keys), s.added))
      else Failure(ArgumentException)
  }

  /** `setKeyValue`: the record with its in-line key set. */
  function WithKey(r: Rec, id: Key): (w: Rec)
    ensures w.inlineKey == Some(id) && w.value == r.value && w.name == r.name
  {
    r.(inlineKey := Some(id))
  }

  /** `extractKey`: the in-line key of a record object, none for anything else. */
  function InlineKeyOf(v: Arg): (k: Option<Key>)
    ensures k.Some? ==> v.ObjArg? && k == v.rec.inlineKey
  {
    if v.ObjArg? then v.rec.inlineKey else None
  }

  /**
   * `put` into a store named or described by `storeArg`, through
   * `getStore_`: a key given for a store with in-line keys, or no key for a
   * store with out-of-line keys and no key generator, is refused. A single
   * record needs a valid key, given or in-line, unless the store generates
   * keys.
   */
  function PutToStore(schema: Schema, storeArg: Arg, value: Arg, keys: Arg, fromJson: Arg -> StoreInfo,
                      differs: (StoreInfo, Arg) -> bool): (r: Result<Outcome, Error>)
    ensures IsWrite(r)
    ensures ResolveStore(schema, storeArg, NotFoundError, fromJson, differs).Failure? ==>
      r == Failure(ResolveStore(schema, storeArg, NotFoundError, fromJson, differs).error)
    ensures ResolveStore(schema, storeArg, NotFoundError, fromJson, differs).Success? ==>
      var s := ResolveStore(schema, storeArg, NotFoundError, fromJson, differs).value;
      r == if s.info.inline && keys.IsDef() then Failure(ArgumentException)
           else if !s.info.inline && !s.info.autoIncrement && !keys.IsDef() then Failure(ArgumentException)
           else if value.ArrArg? then Success(WriteReq(TxThread, [StrArg(s.name)], PutObjects(s.name, value.items, keys), s.added))
           else if !value.IsObject() then Failure(ArgumentException)
           else if keys.IsDef() && ToKey(keys).None? then Failure(AssertionError)
           else if !keys.IsDef() && !s.info.autoIncrement && s.info.inline && InlineKeyOf(value).None? then Failure(AssertionError)
           else Success(WriteReq(TxThread, [StrArg(s.name)], PutObject(s.name, value, keys), s.added))
  {
    var st := ResolveStore(schema, storeArg, NotFoundError, fromJson, differs);
    if st.Failure? then Failure(st.error)
    else
      var s := st.value;
      if s.info.inline && keys.IsDef() then Failure(ArgumentException)
      else if !s.info.inline && !s.info.autoIncrement && !keys.IsDef() then Failure(ArgumentException)
      else if value.ArrArg? then Success(WriteReq(TxThread, [StrArg(s.name)], PutObjects(s.name, value.items, keys), s.added))
      else if !value.IsObject() then Failure(ArgumentException)
      else if keys.IsDef() && ToKey(keys).None? then Failure(AssertionError)
      else if !keys.IsDef() && !s.info.autoIncrement && s.info.inline && InlineKeyOf(value).None? then Failure(AssertionError)
      else Success(WriteReq(TxThread, [StrArg(s.name)], PutObject(s.name, value, keys), s.added))
  }

  /** The values of `put(keys, values)`, each with its in-line key set from its key wherever the key's store uses one. */
  function KeyedValues(schema: Schema, keys: seq<Arg>, values: seq<Arg>): (vs: seq<Arg>)
    requires |keys| == |values| && KnownKeys(schema, keys)
    ensures |vs| == |values|
    ensures forall i :: 0 <= i < |values| ==>
      vs[i] == if schema.stores[keys[i].keyStore].inline && values[i].ObjArg? then ObjArg(WithKey(values[i].rec, keys[i].id)) else values[i]
  {
    seq(|values|, i requires 0 <= i < |values| =>
      if schema.stores[keys[i].keyStore].inline && values[i].ObjArg? then ObjArg(WithKey(values[i].rec, keys[i].id)) else values[i])
  }

  /**
   * `put(arg1, value, opt_keys)`: by a key object (an in-line key must agree
   * with the key's id and is filled in when absent), by a list of key
   * objects with a list of values, or by store name or schema.
   */
  function Put(schema: Schema, arg1: Arg, value: Arg, keys: Arg, fromJson: Arg -> StoreInfo,
               differs: (StoreInfo, Arg) -> bool): (r: Result<Outcome, Error>)
    ensures IsWrite(r)
    ensures arg1.KeyArg? && arg1.keyStore !in schema.stores ==> r == Failure(ArgumentException)
    ensures arg1.KeyArg? && arg1.keyStore in schema.stores && !schema.stores[arg1.keyStore].inline ==>
      r == PutToStore(schema, StrArg(arg1.keyStore), value, IdArg(arg1.id), fromJson, differs)
    ensures arg1.KeyArg? && arg1.keyStore in schema.stores && schema.stores[arg1.keyStore].inline ==>
      r == if InlineKeyOf(value).Some? && InlineKeyOf(value).value != arg1.id then Failure(ArgumentException)
           else PutToStore(schema, StrArg(arg1.keyStore), if value.ObjArg? then ObjArg(WithKey(value.rec, arg1.id)) else value,
                           Undef, fromJson, differs)
    ensures arg1.ArrArg? && keys.IsDef() ==> r == Failure(ArgumentException)
    ensures arg1.ArrArg? && r.Success? ==>
      KnownKeys(schema, arg1.items) && value.ArrArg? && |value.items| == |arg1.items|
      && r.value == WriteReq(TxThread, Strs(Dedup(StoreNamesOf(arg1.items))),
                             PutByKeys(KeyedValues(schema, arg1.items, value.items), arg1.items), false)
    ensures arg1.StrArg? || (arg1.IsObject() && !arg1.KeyArg? && !arg1.ArrArg?) ==>
      r == PutToStore(schema, arg1, value, keys, fromJson, differs)
    ensures !arg1.StrArg? && !arg1.IsObject() ==> r == Failure(ArgumentException)
  {
    if arg1.KeyArg? then
      if arg1.keyStore !in schema.stores then Failure(ArgumentException)
      else if schema.stores[arg1.keyStore].inline then
        var k := InlineKeyOf(value);
        if k.Some? && Cmp(k.value, arg1.id) != 0 then
          CmpAntisym(k.value, arg1.id);
          Failure(ArgumentException)
        else
          CmpAgrees(k, arg1.id);
          var v := if value.ObjArg? then ObjArg(WithKey(value.rec, arg1.id)) else value;
          PutToStore(schema, StrArg(arg1.keyStore), v, Undef, fromJson, differs)
      else PutToStore(schema, StrArg(arg1.keyStore), value, IdArg(arg1.id), fromJson, differs)
    else if arg1.ArrArg? then
      if keys.IsDef() then Failure(ArgumentException)
      else if !value.IsDef() then Failure(ArgumentException)
      else if !value.ArrArg? || |value.items| != |arg1.items| then Failure(AssertionError)
      else
        match ScanKeys(schema, arg1.items)
        case Found(names) =>
          Success(WriteReq(TxThread, Strs(Dedup(names)), PutByKeys(KeyedValues(schema, arg1.items, value.items), arg1.items), false))
        case NonKeyAt(_) => Failure(TypeError)
        case UnknownAt(_) => Failure(ArgumentException)
    else if arg1.StrArg? || arg1.IsObject() then PutToStore(schema, arg1, value, keys, fromJson, differs)
    else Failure(ArgumentException)
  }

  /** A key that compares equal to the id is the id. */
  lemma CmpAgrees(k: Option<Key>, id: Key)
    requires k.Some? ==> Cmp(k.value, id) == 0
    ensures k.Some? ==> k.value == id
  {
    if k.Some? {
      CmpAntisym(k.value, id);
    }
  }

  /**
   * Putting a record without an in-line key by a key object, into a known
   * store with in-line keys, puts that record with the key's id filled in.
   */
  lemma PutByKeySetsInlineKey(schema: Schema, store: string, id: Key, rec: Rec, fromJson: Arg -> StoreInfo,
                              differs: (StoreInfo, Arg) -> bool)
    requires store in schema.stores && schema.stores[store].inline && rec.inlineKey.None?
    ensures Put(schema, KeyArg(store, id), ObjArg(rec), Undef, fromJson, differs)
            == Success(WriteReq(TxThread, [StrArg(store)], PutObject(store, ObjArg(WithKey(rec, id)), Undef), false))
  {
  }

  /**
   * Putting by a key object into a known store with out-of-line keys puts
   * the record under the key's id, which is always a valid key.
   */
  lemma PutByKeyPassesId(schema: Schema, store: string, id: Key, rec: Rec, fromJson: Arg -> StoreInfo,
                         differs: (StoreInfo, Arg) -> bool)
    requires store in schema.stores && !schema.stores[store].inline
    ensures Put(schema, KeyArg(store, id), ObjArg(rec), Undef, fromJson, differs)
            == Success(WriteReq(TxThread, [StrArg(store)], PutObject(store, ObjArg(rec), IdArg(id)), false))
  {
  }

  /** Putting by key objects runs over exactly the stores of the keys, each once. */
  lemma PutByKeysStores(schema: Schema, keys: seq<Arg>, values: seq<Arg>, fromJson: Arg -> StoreInfo,
                        differs: (StoreInfo, Arg) -> bool)
    requires Put(schema, ArrArg(keys), ArrArg(values), Undef, fromJson, differs).Success?
    ensures var stores := Put(schema, ArrArg(keys), ArrArg(values), Undef, fromJson, differs).value.scheduled.stores;
      Distinct(stores)
      && (forall i :: 0 <= i < |keys| ==> StrArg(keys[i].keyStore) in stores)
      && (forall a :: a in stores ==> exists i :: 0 <= i < |keys| && a == StrArg(keys[i].keyStore))
  {
    KeyListStores(keys);
  }

  // ---------------------------------------------------------------------
  // Synchronisation-thread variants
  // ---------------------------------------------------------------------

  /**
   * `dumpInternal(store_name, objs, opt_keys)`: writes records on the
   * synchronisation thread, to one store by name or by a list of key
   * objects.
   */
  function DumpInternal(schema: Schema, storeArg: Arg, objs: seq<Arg>, keys: Arg): (r: Result<Outcome, Error>)
    ensures IsWrite(r) && (r.Success? ==> r.value.scheduled.thread == SyncThread)
    ensures storeArg.StrArg? ==>
      r == if storeArg.s !in schema.stores then Failure(NotFoundError)
           else if !schema.stores[storeArg.s].inline && !schema.stores[storeArg.s].autoIncrement && !keys.IsDefAndNotNull() then
             Failure(ArgumentException)
           else Success(WriteReq(SyncThread, [storeArg], PutObjects(storeArg.s, objs, keys), false))
    ensures storeArg.ArrArg? ==>
      (r.Success? <==> KnownKeys(schema, storeArg.items))
      && (r.Success? ==> r.value == WriteReq(SyncThread, Strs(Dedup(StoreNamesOf(storeArg.items))), PutByKeys(objs, storeArg.items), false))
    ensures !storeArg.StrArg? && !storeArg.ArrArg? ==> r == Failure(AssertionError)
  {
    if storeArg.StrArg? then
      if storeArg.s !in schema.stores then Failure(NotFoundError)
      else if !schema.stores[storeArg.s].inline && !schema.stores[storeArg.s].autoIncrement && !keys.IsDefAndNotNull() then
        Failure(ArgumentException)
      else Success(WriteReq(SyncThread, [storeArg], PutObjects(storeArg.s, objs, keys), false))
    else if storeArg.ArrArg? then
      match ScanKeys(schema, storeArg.items)
      case Found(names) => Success(WriteReq(SyncThread, Strs(Dedup(names)), PutByKeys(objs, storeArg.items), false))
      case NonKeyAt(_) => Failure(TypeError)
      case UnknownAt(_) => Failure(NotFoundError)
    else Failure(AssertionError)
  }

  /** `removeInternal(keys)`: removes records by key objects on the synchronisation thread. */
  function RemoveInternal(schema: Schema, keys: seq<Arg>): (r: Result<Outcome, Error>)
    ensures IsWrite(r) && (r.Success? ==> r.value.scheduled.thread == SyncThread)
    ensures r.Success? <==> KnownKeys(schema, keys)
    ensures r.Success? ==> r.value == WriteReq(SyncThread, Strs(Dedup(StoreNamesOf(keys))), RemoveByKeys(keys), false)
    ensures r.Failure? ==> r.error == (if ScanKeys(schema, keys).NonKeyAt? then TypeError else NotFoundError)
  {
    match ScanKeys(schema, keys)
    case Found(names) => Success(WriteReq(SyncThread, Strs(Dedup(names)), RemoveByKeys(keys), false))
    case NonKeyAt(_) => Failure(TypeError)
    case UnknownAt(_) => Failure(NotFoundError)
  }

  /** The index check of the internal listings: a non-empty index name must name an index of the store. */
  predicate IndexAbsent(info: StoreInfo, index: Option<string>) {
    index.Some? && index.value != "" && index.value !in info.indexes
  }

  /**
   * `listInternal(store_name, index_name, key_range, reverse, limit,
   * opt_offset)`: lists records on the synchronisation thread. Both forms
   * ask for a `VALUES_INDEX` request.
   */
  function ListInternal(schema: Schema, store: string, index: Option<string>, range: Arg, reverse: bool, limit: int,
                        offset: Option<int>): (r: Result<Outcome, Error>)
    ensures r.Failure? <==> store !in schema.stores || IndexAbsent(schema.stores[store], index)
    ensures r.Failure? ==> r.error == NotFoundError
    ensures r.Success? ==>
      r.value.Run? && r.value.scheduled.thread == SyncThread && r.value.scheduled.via == Request(VALUES_INDEX)
      && r.value.scheduled.stores == [StrArg(store)]
      && r.value.scheduled.call == if index.Some? then ListByIndexKeyRange(store, index.value, ParseRange(range), reverse, limit, offset.GetOr(0))
                                   else ListByKeyRange(store, ParseRange(range), reverse, limit, offset.GetOr(0))
  {
    if store !in schema.stores || IndexAbsent(schema.stores[store], index) then Failure(NotFoundError)
    else if index.Some? then
      Success(ReadReq(SyncThread, VALUES_INDEX, [store], ListByIndexKeyRange(store, index.value, ParseRange(range), reverse, limit, offset.GetOr(0))))
    else Success(ReadReq(SyncThread, VALUES_INDEX, [store], ListByKeyRange(store, ParseRange(range), reverse, limit, offset.GetOr(0))))
  }

  /** `valuesInternal(keys)`: an empty list answers at once; otherwise a `KEYS` request over the keys' stores. */
  function ValuesInternal(schema: Schema, keys: seq<Arg>): (r: Result<Outcome, Error>)
    ensures |keys| == 0 ==> r == Success(Answer(EmptyList))
    ensures |keys| > 0 ==> (r.Success? <==> KnownKeys(schema, keys))
    ensures |keys| > 0 && r.Success? ==> r.value == ReadReq(SyncThread, KEYS, Dedup(StoreNamesOf(keys)), ListByKeys(keys))
  {
    if |keys| == 0 then Success(Answer(EmptyList))
    else
      match ScanKeys(schema, keys)
      case Found(names) => Success(ReadReq(SyncThread, KEYS, Dedup(names), ListByKeys(keys)))
      case NonKeyAt(_) => Failure(TypeError)
      case UnknownAt(_) => Failure(NotFoundError)
  }

  /** `keysInternal(store_name, index_name, key_range, reverse, limit)`: lists keys on the synchronisation thread from offset 0. */
  function KeysInternal(schema: Schema, store: string, index: Option<string>, range: Option<KeyRange>, reverse: bool,
                        limit: int): (r: Result<Outcome, Error>)
    ensures r.Failure? <==> store !in schema.stores || IndexAbsent(schema.stores[store], index)
    ensures r.Failure? ==> r.error == NotFoundError
    ensures r.Success? ==>
      r.value == if index.Some? then ReadReq(SyncThread, KEYS_INDEX, [store], KeysByIndexKeyRange(store, index.value, range, reverse, limit, 0))
                 else ReadReq(SyncThread, KEYS, [store], KeysByKeyRange(store, range, reverse, limit, 0))
  {
    if store !in schema.stores || IndexAbsent(schema.stores[store], index) then Failure(NotFoundError)
    else if index.Some? then Success(ReadReq(SyncThread, KEYS_INDEX, [store], KeysByIndexKeyRange(store, index.value, range, reverse, limit, 0)))
    else Success(ReadReq(SyncThread, KEYS, [store], KeysByKeyRange(store, range, reverse, limit, 0)))
  }

  // ---------------------------------------------------------------------
  // clear and remove
  // ---------------------------------------------------------------------

  /**
   * `clear(arg1, arg2, arg3)`: one store, by key range or whole; a list of
   * stores whose first element is a name; or, with no argument, every
   * store of the schema.
   */
  function Clear(schema: Schema, arg1: Arg, arg2: Arg, arg3: Arg): (r: Result<Outcome, Error>)
    ensures IsWrite(r) && (r.Success? ==> r.value.scheduled.thread == TxThread)
    ensures arg3.IsDef() ==> r == Failure(ArgumentException)
    ensures !arg3.IsDef() && arg1.StrArg? ==>
      r == if arg1.s !in schema.stores then Failure(ArgumentException)
           else if arg2.IsObject() then
             (if ParseRange(arg2).None? then Failure(ArgumentException)
              else Success(WriteReq(TxThread, [arg1], ClearByKeyRange(arg1.s, ParseRange(arg2).value), false)))
           else if arg2.Undef? then Success(WriteReq(TxThread, [arg1], ClearByStores([arg1]), false))
           else Failure(ArgumentException)
    ensures !arg3.IsDef() && arg1.Undef? ==>
      r == Success(WriteReq(TxThread, Strs(schema.names), ClearByStores(Strs(schema.names)), false))
    ensures !arg3.IsDef() && arg1.ArrArg? ==>
      r == if |arg1.items| > 0 && arg1.items[0].StrArg? then Success(WriteReq(TxThread, arg1.items, ClearByStores(arg1.items), false))
           else Failure(ArgumentException)
    ensures !arg1.StrArg? && !arg1.Undef? && !arg1.ArrArg? ==> r == Failure(ArgumentException)
  {
    if arg3.IsDef() then Failure(ArgumentException)
    else if arg1.StrArg? then
      if arg1.s !in schema.stores then Failure(ArgumentException)
      else if arg2.IsObject() then
        var range := ParseRange(arg2);
        if range.None? then Failure(ArgumentException)
        else Success(WriteReq(TxThread, [arg1], ClearByKeyRange(arg1.s, range.value), false))
      else if arg2.Undef? then Success(WriteReq(TxThread, [arg1], ClearByStores([arg1]), false))
      else Failure(ArgumentException)
    else if arg1.Undef? || (arg1.ArrArg? && |arg1.items| > 0 && arg1.items[0].StrArg?) then
      var names := if arg1.Undef? then Strs(schema.names) else arg1.items;
      Success(WriteReq(TxThread, names, ClearByStores(names), false))
    else Failure(ArgumentException)
  }

  /** Clearing with no argument and clearing the schema's store list name the same stores. */
  lemma ClearAllIsClearByNames(schema: Schema)
    requires |schema.names| > 0
    ensures Clear(schema, Undef, Undef, Undef) == Clear(schema, ArrArg(Strs(schema.names)), Undef, Undef)
  {
  }

  /** Whether the id argument of `remove` is a key: a string, number, array or date. */
  predicate IdLike(a: Arg) {
    a.StrArg? || a.NumArg? || a.ArrArg? || a.DateArg?
  }

  /**
   * `remove(arg1, arg2, arg3)`: by index and key range, by id or by key
   * range in a named store; by a key object; or by a list of key objects.
   */
  function Remove(schema: Schema, arg1: Arg, arg2: Arg, arg3: Arg): (r: Result<Outcome, Error>)
    ensures IsWrite(r) && (r.Success? ==> r.value.scheduled.thread == TxThread)
    ensures arg1.StrArg? && arg1.s !in schema.stores ==> r == Failure(ArgumentException)
    ensures arg1.StrArg? && arg1.s in schema.stores && arg3.IsDef() ==>
      r == if arg2.StrArg? && arg2.s in schema.stores[arg1.s].indexes && (arg3.IsObject() || arg3.Nul?) then
             Success(WriteReq(TxThread, [arg1], RemoveByIndexKeyRange(arg1.s, arg2.s, ParseRange(arg3)), false))
           else Failure(ArgumentException)
    ensures arg1.StrArg? && arg1.s in schema.stores && !arg3.IsDef() ==>
      r == if IdLike(arg2) then Success(WriteReq(TxThread, [arg1], RemoveById(arg1.s, arg2), false))
           else if arg2.IsObject() then Success(WriteReq(TxThread, [arg1], RemoveByKeyRange(arg1.s, ParseRange(arg2)), false))
           else Failure(ArgumentException)
    ensures arg1.KeyArg? ==>
      r == Success(WriteReq(TxThread, [StrArg(arg1.keyStore)], RemoveById(arg1.keyStore, IdArg(arg1.id)), false))
    ensures arg1.ArrArg? ==>
      (r.Success? <==> |arg1.items| > 0 && AllKeyArgs(arg1.items))
      && (r.Success? ==> r.value == WriteReq(TxThread, Strs(Dedup(StoreNamesOf(arg1.items))), RemoveByKeys(arg1.items), false))
    ensures !arg1.StrArg? && !arg1.KeyArg? && !arg1.ArrArg? ==> r == Failure(ArgumentException)
  {
    if arg1.StrArg? then
      if arg1.s !in schema.stores then Failure(ArgumentException)
      else if arg3.IsDef() then
        if !arg2.StrArg? || arg2.s !in schema.stores[arg1.s].indexes then Failure(ArgumentException)
        else if arg3.IsObject() || arg3.Nul? then
          Success(WriteReq(TxThread, [arg1], RemoveByIndexKeyRange(arg1.s, arg2.s, ParseRange(arg3)), false))
        else Failure(ArgumentException)
      else if IdLike(arg2) then Success(WriteReq(TxThread, [arg1], RemoveById(arg1.s, arg2), false))
      else if arg2.IsObject() then Success(WriteReq(TxThread, [arg1], RemoveByKeyRange(arg1.s, ParseRange(arg2)), false))
      else Failure(ArgumentException)
    else if arg1.KeyArg? then
      Success(WriteReq(TxThread, [StrArg(arg1.keyStore)], RemoveById(arg1.keyStore, IdArg(arg1.id)), false))
    else if arg1.ArrArg? then
      if !AllKeyArgs(arg1.items) || |arg1.items| == 0 then Failure(ArgumentException)
      else Success(WriteReq(TxThread, Strs(Dedup(StoreNamesOf(arg1.items))), RemoveByKeys(arg1.items), false))
    else Failure(ArgumentException)
  }

  /** Removing by a key object removes the same record as removing by its store name and id. */
  lemma RemoveByKeyIsRemoveById(schema: Schema, store: string, id: Key)
    requires store in schema.stores
    ensures Remove(schema, KeyArg(store, id), Undef, Undef) == Remove(schema, StrArg(store), IdArg(id), Undef)
  {
  }
}
