/**
 * The IndexedDB cursor adapter of the newer generation
 * (js/ydn/db/core/req/idb_cursor.js). The backend request is modelled as a
 * position in the records it walks, listed in iteration order: `continue()`
 * moves one record, `continue(key)` moves to the next record whose key is not
 * before `key` in the direction of travel, `advance(n)` moves n records, and
 * position |recs| is the exhausted cursor. Each adapter method runs the
 * `onsuccess` handlers it installs until the adapter hands a record (or the
 * end) to its user.
 */
module CoreIdbCursor {
  import opened Wrappers
  import opened Base
  import opened Keys
  import AbstractCursor

  /** What the adapter passes to `onSuccess`: a record, or nothing at the end. */
  datatype Delivery =
    | Rec(key: Key, primary: Option<Key>, value: Option<Value>)
    | End

  /** A record at or past a target primary key, in the direction of travel. */
  predicate ReachedPrimary(r: Record, target: Key, reverse: bool) {
    var c := Cmp(r.primary, target);
    c == 0 || (c == 1 && !reverse) || (c == -1 && reverse)
  }

  class IdbCursor {
    /** The records the backend request walks, in iteration order. */
    const recs: seq<Record>
    const flags: AbstractCursor.CursorFlags
    /** Backend position; |recs| once exhausted. */
    var pos: nat
    /** `request_ != null`. */
    var hasRequest: bool

    ghost predicate Valid()
      reads this
    {
      pos <= |recs|
    }

    constructor (recs: seq<Record>, indexName: Option<string>, dir: Direction, keyOnly: bool)
      ensures Valid() && this.recs == recs && !hasRequest && pos == 0
      ensures flags == AbstractCursor.Flags(indexName, None, dir, keyOnly)
    {
      this.recs := recs;
      this.flags := AbstractCursor.Flags(indexName, None, dir, keyOnly);
      pos := 0;
      hasRequest := false;
    }

    /** `hasCursor()`. */
    predicate HasCursor()
      reads this
    {
      hasRequest
    }

    /**
     * What `onSuccess` receives at a position: the key, the primary key for
     * index cursors only, and the value unless an index key cursor was opened.
     */
    function DeliveryAt(p: nat): (d: Delivery)
      requires p <= |recs|
      ensures d.End? <==> p == |recs|
      ensures d.Rec? ==> d.key == recs[p].key
      ensures d.Rec? ==> (d.primary.Some? <==> flags.isIndex) && (flags.isIndex ==> d.primary.value == recs[p].primary)
    {
      if p == |recs| then End
      else
        var r := recs[p];
        var value := if flags.keyOnly && flags.isIndex then None else Some(r.value);
        Rec(r.key, if flags.isIndex then Some(r.primary) else None, value)
    }

    /**
     * `openCursor(key, primaryKey)`: without a start key, deliver from the
     * first record; with one, skip every record that is not beyond
     * (key, primaryKey) and deliver the first that is, or the end.
     */
    method OpenCursor(key: MaybeKey, primary: MaybeKey) returns (d: Delivery)
      requires Valid()
      modifies this
      ensures Valid() && hasRequest
      ensures d == DeliveryAt(pos)
      ensures !key.Defined? ==> pos == 0
      ensures key.Defined? ==> forall q :: 0 <= q < pos ==> !Beyond(recs[q], key.k, primary, flags.reverse)
      ensures key.Defined? && pos < |recs| ==> Beyond(recs[pos], key.k, primary, flags.reverse)
    {
      pos := 0;
      if !key.Defined? {
        hasRequest := true;
        d := DeliveryAt(pos);
        return;
      }
      var k := key.k;
      var dir := Sign(flags.reverse);
      var ready := false;
      while !ready && pos < |recs|
        invariant pos <= |recs|
        invariant forall q :: 0 <= q < pos ==> !Beyond(recs[q], k, primary, flags.reverse)
        invariant ready ==> pos < |recs| && Beyond(recs[pos], k, primary, flags.reverse)
        decreases |recs| - pos, !ready
      {
        var r := recs[pos];
        var c := Cmp(r.key, k);
        CmpAntisym(r.key, k);
        if c == dir {
          ready := true;
        } else if c == -dir {
          pos := SeekKey(recs, pos + 1, k, flags.reverse);
        } else if primary.Defined? && Cmp(r.primary, primary.k) == dir {
          ready := true;
        } else {
          pos := pos + 1;
        }
      }
      hasRequest := true;
      d := DeliveryAt(pos);
    }

    /**
     * `restart(effective, primary)` reopens with the arguments in the other
     * order: `openCursor(primary, effective)`.
     */
    method Restart(effective: MaybeKey, primary: MaybeKey) returns (d: Delivery)
      requires Valid()
      modifies this
      ensures Valid() && hasRequest && d == DeliveryAt(pos)
      ensures !primary.Defined? ==> pos == 0
      ensures primary.Defined? ==> forall q :: 0 <= q < pos ==> !Beyond(recs[q], primary.k, effective, flags.reverse)
      ensures primary.Defined? && pos < |recs| ==> Beyond(recs[pos], primary.k, effective, flags.reverse)
    {
      d := OpenCursor(primary, effective);
    }

    /** `advance(step)`: `continue()` for one step, the backend `advance` otherwise. */
    method Advance(step: nat) returns (r: Result<Delivery, Error>)
      requires Valid()
      modifies this
      ensures Valid()
      ensures !old(hasRequest) || old(pos) == |recs| ==> r == Failure(TypeError) && pos == old(pos)
      ensures old(hasRequest) && old(pos) < |recs| && step == 0 ==> r == Failure(TypeError) && pos == old(pos)
      ensures old(hasRequest) && old(pos) < |recs| && step > 0 ==>
                pos == if old(pos) + step < |recs| then old(pos) + step else |recs|
      ensures r.Success? ==> r.value == DeliveryAt(pos)
    {
      if !hasRequest || pos == |recs| {
        return Failure(TypeError);
      }
      if step == 1 {
        pos := pos + 1;
      } else if step == 0 {
        return Failure(TypeError);
      } else {
        pos := if pos + step < |recs| then pos + step else |recs|;
      }
      r := Success(DeliveryAt(pos));
    }

    /** `continueEffectiveKey(key)`: `continue(key)`, or `continue()` without a key. */
    method ContinueEffectiveKey(key: MaybeKey) returns (r: Result<Delivery, Error>)
      requires Valid()
      modifies this
      ensures Valid()
      ensures !old(hasRequest) || old(pos) == |recs| ==> r == Failure(TypeError) && pos == old(pos)
      ensures old(hasRequest) && old(pos) < |recs| && !key.Defined? ==> r.Success? && pos == old(pos) + 1
      ensures old(hasRequest) && old(pos) < |recs| && key.Defined? ==>
                if DirCmp(key.k, recs[old(pos)].key, flags.reverse) <= 0 then r == Failure(DataError) && pos == old(pos)
                else r.Success? && pos == SeekKey(recs, old(pos) + 1, key.k, flags.reverse)
      ensures r.Success? ==> r.value == DeliveryAt(pos)
    {
      if !hasRequest || pos == |recs| {
        return Failure(TypeError);
      }
      if key.Defined? {
        if DirCmp(key.k, recs[pos].key, flags.reverse) <= 0 {
          return Failure(DataError);
        }
        pos := SeekKey(recs, pos + 1, key.k, flags.reverse);
      } else {
        pos := pos + 1;
      }
      r := Success(DeliveryAt(pos));
    }

    /**
     * `continuePrimaryKey(key)`: the target must be above the current primary
     * key (whatever the direction); then step one record at a time to the
     * first record at or past the target, or the end.
     */
    method ContinuePrimaryKey(target: Key) returns (r: Result<Delivery, Error>)
      requires Valid()
      modifies this
      ensures Valid()
      ensures !old(hasRequest) || old(pos) == |recs| ==> r == Failure(TypeError) && pos == old(pos)
      ensures old(hasRequest) && old(pos) < |recs| && Cmp(target, recs[old(pos)].primary) != 1 ==>
                r == Failure(InternalError) && pos == old(pos)
      ensures r.Success? ==> old(pos) < pos && r.value == DeliveryAt(pos)
      ensures r.Success? ==> forall q :: old(pos) < q < pos ==> !ReachedPrimary(recs[q], target, flags.reverse)
      ensures r.Success? && pos < |recs| ==> ReachedPrimary(recs[pos], target, flags.reverse)
      ensures old(hasRequest) && old(pos) < |recs| && Cmp(target, recs[old(pos)].primary) == 1 ==> r.Success?
    {
      if !hasRequest || pos == |recs| {
        return Failure(TypeError);
      }
      if Cmp(target, recs[pos].primary) != 1 {
        return Failure(InternalError);
      }
      ghost var start := pos;
      pos := pos + 1;
      while pos < |recs| && !ReachedPrimary(recs[pos], target, flags.reverse)
        invariant start < pos <= |recs|
        invariant forall q :: start < q < pos ==> !ReachedPrimary(recs[q], target, flags.reverse)
        decreases |recs| - pos
      {
        pos := pos + 1;
      }
      r := Success(DeliveryAt(pos));
    }

    /** `update(record)`: only on a current record. */
    method Update() returns (r: Result<(), Error>)
      requires Valid()
      ensures !hasRequest ==> r == Failure(TypeError)
      ensures hasRequest && pos == |recs| ==> r == Failure(InvalidAccessError)
      ensures hasRequest && pos < |recs| ==> r.Success?
    {
      if !hasRequest { return Failure(TypeError); }
      if pos == |recs| { return Failure(InvalidAccessError); }
      r := Success(());
    }

    /** `clear()`: delete the current record; resolves to 1. */
    method Clear() returns (r: Result<nat, Error>)
      requires Valid()
      ensures !hasRequest ==> r == Failure(TypeError)
      ensures hasRequest && pos == |recs| ==> r == Failure(InvalidAccessError)
      ensures hasRequest && pos < |recs| ==> r == Success(1)
    {
      if !hasRequest { return Failure(TypeError); }
      if pos == |recs| { return Failure(InvalidAccessError); }
      r := Success(1);
    }

    /** `disposeInternal()`: forget the request. */
    method Dispose()
      modifies this
      ensures !HasCursor() && pos == old(pos)
    {
      hasRequest := false;
    }
  }

  /** Resuming with no primary key skips every record at the key: the first delivered key is strictly past it. */
  lemma ResumeWithoutPrimarySkipsKey(r: Record, key: Key, reverse: bool)
    ensures Beyond(r, key, Undefined, reverse) <==> DirCmp(r.key, key, reverse) == 1
    ensures Beyond(r, key, Null, reverse) <==> DirCmp(r.key, key, reverse) == 1
  {
  }

  /**
   * In a cursor-ordered walk, once a record is beyond the resume point so is
   * every later one: the skipped records are exactly a prefix.
   */
  lemma {:induction false} BeyondIsUpwardClosed(recs: seq<Record>, reverse: bool, key: Key, primary: MaybeKey, i: nat, j: nat)
    requires InCursorOrder(recs, reverse)
    requires i < j < |recs|
    requires Beyond(recs[i], key, primary, reverse)
    ensures Beyond(recs[j], key, primary, reverse)
  {
    var a, b := recs[i], recs[j];
    assert RecCmp(a, b) == -Sign(reverse);
    CmpAntisym(a.key, b.key);
    CmpAntisym(a.key, key);
    CmpAntisym(b.key, key);
    if reverse {
      if Cmp(a.key, key) == -1 {
        CmpTrans(b.key, a.key, key);
      } else {
        CmpAntisym(a.primary, b.primary);
        CmpAntisym(a.primary, primary.k);
        CmpAntisym(b.primary, primary.k);
        if Cmp(a.key, b.key) == 0 {
          CmpTrans(b.primary, a.primary, primary.k);
        } else {
          CmpTrans(b.key, a.key, key);
        }
      }
    } else {
      if Cmp(a.key, key) == 1 {
        CmpTrans(key, a.key, b.key);
      } else {
        CmpAntisym(a.primary, b.primary);
        CmpAntisym(a.primary, primary.k);
        CmpAntisym(b.primary, primary.k);
        if Cmp(a.key, b.key) == 0 {
          CmpTrans(primary.k, a.primary, b.primary);
        } else {
          CmpTrans(key, a.key, b.key);
        }
      }
    }
  }
}
