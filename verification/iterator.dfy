/**
 * The iterator of the cursor layer (src/ydn/db/core/iterator.js): an immutable
 * description of what to walk (store, index or index key path, key range,
 * direction, key-only flag, joined stores) plus the one mutable slot, the
 * cursor it has opened, which `iterate` fills and `reset` clears.
 */
module CoreIterator {
  import opened Wrappers
  import opened Base
  import opened Keys
  import opened Collections

  /** An equi-join restriction: a store, and optionally a field that must equal a value. */
  datatype EquiJoin = EquiJoin(storeName: string, field: Option<string>, value: Option<Key>)

  /** What `iterate` asks the executor to open. */
  datatype CursorRequest = CursorRequest(
    store: string, index: IndexRef, range: Option<KeyRange>,
    direction: Direction, keyOnly: bool, queryMethod: QueryMethod)

  /** The index argument passed to the executor: the key path when one is set, else the index name. */
  datatype IndexRef = ByKeyPath(path: seq<string>) | ByName(name: Option<string>)

  /** Iterator states and their string values. */
  datatype State = Initial | Working | Resting | Completed {
    function Name(): string {
      match this
      case Initial => "init"
      case Working => "busy"
      case Resting => "rest"
      case Completed => "done"
    }
  }

  /** The immutable part of an iterator. */
  datatype IterSpec = IterSpec(
    store: string,
    index: Option<string>,
    keyPath: Option<seq<string>>,
    range: Option<KeyRange>,
    direction: Direction,
    keyOnly: bool,
    joins: seq<EquiJoin>)
  {
    /** `!!index_name`: the empty string is not an index. */
    predicate IsIndexIterator() { index.Some? && index.value != "" }
    predicate IsPrimaryIterator() { !IsIndexIterator() }
    predicate IsKeyIterator() { keyOnly }
    predicate IsValueIterator() { !keyOnly }
    predicate IsReversed() { direction == Prev || direction == PrevUnique }
    predicate IsUnique() { direction == NextUnique || direction == PrevUnique }
    predicate HasKeyRange() { range.Some? }

    /** The stores a transaction over this iterator must cover. */
    function JoinStores(): (r: seq<string>)
      ensures |r| == |joins|
      ensures forall i :: 0 <= i < |joins| ==> r[i] == joins[i].storeName
    {
      seq(|joins|, i requires 0 <= i < |joins| => joins[i].storeName)
    }
  }

  /** The constructor `ydn.db.Iterator(store, index, range, reverse, unique, keyOnly, keyPath)`. */
  function NewIterator(store: string, index: Option<string>, range: Option<KeyRange>,
                       reverse: bool, unique: bool, keyOnly: Option<bool>,
                       keyPath: Option<seq<string>>): (it: IterSpec)
    ensures it.store == store && it.index == index && it.range == range && it.keyPath == keyPath
    ensures it.IsReversed() <==> reverse
    ensures it.IsUnique() <==> unique
    ensures it.IsIndexIterator() <==> index.Some? && index.value != ""
    ensures keyOnly.Some? ==> it.IsKeyIterator() == keyOnly.value
    ensures keyOnly.None? ==> (it.IsKeyIterator() <==> index.Some?)
    ensures it.joins == []
  {
    var dir := if reverse && unique then PrevUnique
               else if reverse then Prev
               else if unique then NextUnique
               else Next;
    IterSpec(store, index, keyPath, range, dir, keyOnly.GetOr(index.Some?), [])
  }

  /** The constructor picks exactly the direction `getDirection` gives for the same flags. */
  lemma NewIteratorDirection(store: string, index: Option<string>, range: Option<KeyRange>,
                             reverse: bool, unique: bool, keyOnly: Option<bool>,
                             keyPath: Option<seq<string>>)
    ensures NewIterator(store, index, range, reverse, unique, keyOnly, keyPath).direction
            == GetDirection(reverse, unique)
  {
  }

  /** `KeyIterator(store, range, reverse)`: a primary key-only iterator; more arguments are refused. */
  function KeyIterator(store: string, range: Option<KeyRange>, reverse: bool, extraArgs: nat): (r: Result<IterSpec, Error>)
    ensures extraArgs > 0 <==> r == Failure(ArgumentException)
    ensures r.Success? ==> r.value.IsPrimaryIterator() && r.value.IsKeyIterator()
                           && !r.value.IsUnique() && (r.value.IsReversed() <==> reverse)
  {
    if extraArgs > 0 then Failure(ArgumentException)
    else Success(NewIterator(store, None, range, reverse, false, Some(true), None))
  }

  /** `ValueIterator(store, range, reverse)`: a primary value iterator; more arguments are refused. */
  function ValueIterator(store: string, range: Option<KeyRange>, reverse: bool, extraArgs: nat): (r: Result<IterSpec, Error>)
    ensures extraArgs > 0 <==> r == Failure(ArgumentException)
    ensures r.Success? ==> r.value.IsPrimaryIterator() && r.value.IsValueIterator()
                           && !r.value.IsUnique() && (r.value.IsReversed() <==> reverse)
  {
    if extraArgs > 0 then Failure(ArgumentException)
    else Success(NewIterator(store, None, range, reverse, false, Some(false), None))
  }

  /** `IndexIterator(store, index, ...)`: the index must be a string (None stands for a non-string). */
  function IndexIterator(store: string, index: Option<string>, range: Option<KeyRange>, reverse: bool, unique: bool): (r: Result<IterSpec, Error>)
    ensures index.None? <==> r == Failure(ArgumentException)
    ensures r.Success? ==> r.value.index == index && r.value.IsKeyIterator()
                           && (r.value.IsReversed() <==> reverse) && (r.value.IsUnique() <==> unique)
  {
    if index.None? then Failure(ArgumentException)
    else Success(NewIterator(store, index, range, reverse, unique, Some(true), None))
  }

  /** `IndexValueIterator(store, index, ...)`: as `IndexIterator`, but yielding values. */
  function IndexValueIterator(store: string, index: Option<string>, range: Option<KeyRange>, reverse: bool, unique: bool): (r: Result<IterSpec, Error>)
    ensures index.None? <==> r == Failure(ArgumentException)
    ensures r.Success? ==> r.value.index == index && r.value.IsValueIterator()
                           && (r.value.IsReversed() <==> reverse) && (r.value.IsUnique() <==> unique)
  {
    if index.None? then Failure(ArgumentException)
    else Success(NewIterator(store, index, range, reverse, unique, Some(false), None))
  }

  /** `clone`/`copy`: the same description without joins. */
  function Clone(it: IterSpec): (c: IterSpec)
    ensures c.joins == []
    ensures c.IsReversed() == it.IsReversed() && c.IsUnique() == it.IsUnique()
    ensures c == it.(joins := [])
  {
    NewIterator(it.store, it.index, it.range, it.IsReversed(), it.IsUnique(), Some(it.keyOnly), it.keyPath)
  }

  /** `reverse()`: the opposite direction; everything else but the joins kept. */
  function Reverse(it: IterSpec): (r: IterSpec)
    ensures r.IsReversed() == !it.IsReversed()
    ensures r.IsUnique() == it.IsUnique()
    ensures r.store == it.store && r.index == it.index && r.keyPath == it.keyPath
    ensures r.range == it.range && r.keyOnly == it.keyOnly && r.joins == []
  {
    NewIterator(it.store, it.index, it.range, !it.IsReversed(), it.IsUnique(), Some(it.keyOnly), it.keyPath)
  }

  /** Reversing twice gives back the original iterator, less its joins. */
  lemma ReverseReverse(it: IterSpec)
    ensures Reverse(Reverse(it)) == it.(joins := [])
  {
  }

  /** `join(store, field, value)`: a new description with the join appended. */
  function Join(it: IterSpec, store: string, field: Option<string>, value: Option<Key>): (r: IterSpec)
    ensures r.joins == it.joins + [EquiJoin(store, field, value)]
    ensures r.(joins := it.joins) == it
  {
    it.(joins := it.joins + [EquiJoin(store, field, value)])
  }

  /** `restrict(field, value)` joins the iterator's own store. */
  function Restrict(it: IterSpec, field: string, value: Key): (r: IterSpec)
    ensures r == Join(it, it.store, Some(field), Some(value))
    ensures Stores(r) == Stores(it)
  {
    StoresOfJoin(it, it.store, Some(field), Some(value));
    StoresSpec(it);
    it.(joins := it.joins + [EquiJoin(it.store, Some(field), Some(value))])
  }

  /** Specification of `stores()`: the own store, then joined stores, first occurrences only. */
  function Stores(it: IterSpec): seq<string> {
    Dedup([it.store] + it.JoinStores())
  }

  /** The own store comes first, every store appears once, and exactly the joined ones appear. */
  lemma StoresSpec(it: IterSpec)
    ensures |Stores(it)| > 0 && Stores(it)[0] == it.store
    ensures Distinct(Stores(it))
    ensures forall s :: s in Stores(it) <==> s == it.store || exists j :: j in it.joins && j.storeName == s
  {
    var all := [it.store] + it.JoinStores();
    DedupSpec(all);
    DedupHead(all);
    StoreListMembers(it);
  }

  /** The stores named by an iterator: its own and those of its joins. */
  lemma StoreListMembers(it: IterSpec)
    ensures forall s :: s in [it.store] + it.JoinStores() <==> s == it.store || exists j :: j in it.joins && j.storeName == s
  {
    var all := [it.store] + it.JoinStores();
    forall s ensures s in all <==> s == it.store || exists j :: j in it.joins && j.storeName == s {
      if s in all && s != it.store {
        var k :| 0 <= k < |all| && all[k] == s;
        assert it.joins[k - 1] in it.joins;
      }
      if exists j :: j in it.joins && j.storeName == s {
        var j :| j in it.joins && j.storeName == s;
        var k :| 0 <= k < |it.joins| && it.joins[k] == j;
        assert all[k + 1] == s;
      }
    }
  }

  /** Joining a store that is already listed leaves the store list unchanged; a new one is appended. */
  lemma StoresOfJoin(it: IterSpec, store: string, field: Option<string>, value: Option<Key>)
    ensures Stores(Join(it, store, field, value)) ==
            if store in Stores(it) then Stores(it) else Stores(it) + [store]
  {
    var j := Join(it, store, field, value);
    var all := [it.store] + it.JoinStores();
    assert j.JoinStores() == it.JoinStores() + [store] by {
      assert j.joins[..|j.joins| - 1] == it.joins;
    }
    assert [j.store] + j.JoinStores() == all + [store];
    assert (all + [store])[..|all + [store]| - 1] == all;
  }

  /**
   * The getters of the key range bounds, as written. They test the range
   * the wrong way round: with a range they return `undefined`, and without
   * one they dereference `null`.
   */
  function GetLowerAsWritten(it: IterSpec): (r: Result<Option<Key>, Error>)
  {
    if it.range.Some? then Success(None) else Failure(TypeError)
  }

  function GetUpperAsWritten(it: IterSpec): (r: Result<Option<Key>, Error>)
  {
    if it.range.Some? then Success(None) else Failure(TypeError)
  }

  /** With a range that has a lower bound, the getter as written loses it. */
  lemma GetLowerAsWrittenLosesBound(it: IterSpec)
    requires it.range.Some? && it.range.value.lower.Some?
    ensures GetLowerAsWritten(it) != Success(it.range.value.lower)
    ensures GetUpperAsWritten(it.(range := Some(it.range.value.(upper := it.range.value.lower))))
            != Success(it.range.value.lower)
  {
  }

  /** The getters as evidently intended: the bound of the range, or `undefined` without one. */
  function GetLower(it: IterSpec): (r: Option<Key>)
    ensures it.range.Some? ==> r == it.range.value.lower
    ensures it.range.None? ==> r.None?
  {
    if it.range.Some? then it.range.value.lower else None
  }

  function GetUpper(it: IterSpec): (r: Option<Key>)
    ensures it.range.Some? ==> r == it.range.value.upper
    ensures it.range.None? ==> r.None?
  {
    if it.range.Some? then it.range.value.upper else None
  }

  /** `getKeyRange()`: the range, or null. */
  function GetKeyRange(it: IterSpec): (r: Option<KeyRange>)
    ensures r.Some? <==> it.HasKeyRange()
    ensures r.Some? ==> GetLower(it) == r.value.lower && GetUpper(it) == r.value.upper
  {
    it.range
  }

  /** The cursor an iterator has opened: its open request, and the flags `getState` reads. */
  class IterCursor {
    const request: CursorRequest
    var done: bool
    var exited: bool
    /** Labels of the transactions the cursor was opened and resumed in. */
    var txLabels: seq<string>

    constructor (request: CursorRequest, txLabel: string)
      ensures this.request == request && !done && !exited && txLabels == [txLabel]
    {
      this.request := request;
      done, exited := false, false;
      txLabels := [txLabel];
    }

    /** `cursor.resume(tx, txLabel)`: continue in another transaction. */
    method Resume(txLabel: string)
      modifies this
      ensures txLabels == old(txLabels) + [txLabel]
      ensures done == old(done) && exited == old(exited)
    {
      txLabels := txLabels + [txLabel];
    }
  }

  /** `ydn.db.Iterator` with its cursor slot. */
  class Iterator {
    const spec: IterSpec
    var cursor: Option<IterCursor>

    constructor (spec: IterSpec)
      ensures this.spec == spec && cursor.None?
    {
      this.spec := spec;
      cursor := None;
    }

    /** `getState()`: no cursor, finished, exited, or running. */
    function GetState(): (s: State)
      reads this, if cursor.Some? then {cursor.value} else {}
      ensures s == Initial <==> cursor.None?
      ensures s == Completed <==> cursor.Some? && cursor.value.done
      ensures s == Resting <==> cursor.Some? && !cursor.value.done && cursor.value.exited
      ensures s == Working <==> cursor.Some? && !cursor.value.done && !cursor.value.exited
    {
      if cursor.None? then Initial
      else if cursor.value.done then Completed
      else if cursor.value.exited then Resting
      else Working
    }

    /** `reset()`: refused while working, otherwise forgets the cursor. */
    method Reset() returns (r: Result<(), Error>)
      modifies this
      ensures old(GetState()) == Working ==> r == Failure(InvalidOperationError) && cursor == old(cursor)
      ensures old(GetState()) != Working ==> r.Success? && cursor.None? && GetState() == Initial
    {
      if GetState() == Working {
        return Failure(InvalidOperationError);
      }
      cursor := None;
      return Success(());
    }

    /**
     * `iterate(tx, txLabel, executor, method)`: resume the saved cursor, or ask
     * the executor for one over this iterator's description and open it.
     */
    method Iterate(txLabel: string, queryMethod: Option<QueryMethod>) returns (c: IterCursor)
      modifies this, if cursor.Some? then {cursor.value} else {}
      ensures cursor == Some(c)
      ensures old(cursor).Some? ==> c == old(cursor).value && c.txLabels == old(c.txLabels) + [txLabel]
                                    && c.done == old(c.done) && c.exited == old(c.exited)
      ensures old(cursor).None? ==> fresh(c) && c.txLabels == [txLabel] && !c.done && !c.exited
      ensures old(cursor).None? ==> c.request == CursorRequest(
        spec.store,
        if spec.keyPath.Some? then ByKeyPath(spec.keyPath.value) else ByName(spec.index),
        spec.range, spec.direction, spec.keyOnly, queryMethod.GetOr(ValuesQuery))
    {
      if cursor.Some? {
        c := cursor.value;
        c.Resume(txLabel);
      } else {
        var ref := if spec.keyPath.Some? then ByKeyPath(spec.keyPath.value) else ByName(spec.index);
        c := new IterCursor(CursorRequest(spec.store, ref, spec.range, spec.direction, spec.keyOnly,
                                          queryMethod.GetOr(ValuesQuery)), txLabel);
        cursor := Some(c);
      }
    }

    /** `stores()`: the push loop over the joins. */
    method StoreNames() returns (stores: seq<string>)
      ensures stores == Stores(spec)
    {
      stores := [spec.store];
      var joinStores := spec.JoinStores();
      assert Dedup([spec.store]) == [spec.store] by {
        assert [spec.store][..0] == [];
      }
      var i := 0;
      while i < |spec.joins|
        invariant 0 <= i <= |spec.joins|
        invariant stores == Dedup([spec.store] + joinStores[..i])
      {
        var name := spec.joins[i].storeName;
        if name !in stores {
          stores := stores + [name];
        }
        ghost var next := [spec.store] + joinStores[..i + 1];
        assert next[..|next| - 1] == [spec.store] + joinStores[..i];
        i := i + 1;
      }
      assert joinStores[..i] == joinStores;
    }

    /** `reverse()`: a new iterator without cursor or joins, in the other direction. */
    method ReverseIterator() returns (r: Iterator)
      ensures fresh(r) && r.spec == Reverse(spec) && r.cursor.None?
    {
      r := new Iterator(Reverse(spec));
    }

    /** `join(...)`: a new iterator with the join appended; this one is unchanged. */
    method JoinIterator(store: string, field: Option<string>, value: Option<Key>) returns (r: Iterator)
      ensures fresh(r) && r.spec == Join(spec, store, field, value) && r.cursor.None?
    {
      r := new Iterator(Join(spec, store, field, value));
    }

    /**
     * `resume()`: a copy of the description (no joins) holding a copy of the
     * cursor; an iterator that never opened a cursor has none to copy, and
     * the call fails with a TypeError.
     */
    method ResumeIterator() returns (r: Result<Iterator, Error>)
      ensures cursor.None? <==> r.Failure?
      ensures r.Failure? ==> r.error == TypeError
      ensures r.Success? ==> fresh(r.value) && r.value.spec == Clone(spec) && r.value.cursor.Some? && fresh(r.value.cursor.value)
      ensures r.Success? ==> r.value.cursor.value.request == cursor.value.request
      ensures r.Success? ==> r.value.cursor.value.done == cursor.value.done && r.value.cursor.value.exited == cursor.value.exited
    {
      if cursor.None? {
        return Failure(TypeError);
      }
      var c := cursor.value;
      var copy := new IterCursor(c.request, "");
      copy.done, copy.exited, copy.txLabels := c.done, c.exited, c.txLabels;
      var it := new Iterator(Clone(spec));
      it.cursor := Some(copy);
      r := Success(it);
    }
  }
}
