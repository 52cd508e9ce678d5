/**
 * The IndexedDB cursor adapter of the older generation
 * (js/ydn/db/index/req/idb_cursor.js). It opens the backend on a key range,
 * clipped to a start index key when one is given, and filters the records
 * the backend reports against a target primary key, a target index key and
 * an "exclusive" flag before handing one to its user as
 * (primary key, index key, value).
 */
module IndexIdbCursor {
  import opened Wrappers
  import opened Base
  import opened Keys
  import AbstractCursor

  /** What the adapter passes to `onSuccess`, in its argument order. */
  datatype Delivery =
    | Rec(primary: Key, key: Key, value: Option<Value>)
    | End

  /** `target_key_`, `target_index_key_` and `target_exclusive_`. */
  datatype Targets = Targets(primary: MaybeKey, index: MaybeKey, exclusive: bool)

  const NO_TARGETS := Targets(Null, Null, false)

  /** The handler's verdict on one record: the new targets, and whether to deliver it. */
  datatype Outcome = Outcome(next: Targets, deliver: bool)

  /**
   * The success handler's filter for one reported record. The index-key test
   * compares without regard to direction. With `keepIndexTarget` false this
   * is the handler as written, which forgets the index target once a record
   * at that index key is reached; with it true the index target is kept, so
   * that a record at a later index key is delivered whatever its primary key.
   */
  function Filter(t: Targets, r: Record, keepIndexTarget: bool): (o: Outcome)
    ensures o.deliver && t.index.Defined? ==> Cmp(r.key, t.index.k) >= 0
    ensures o.deliver && t.primary.Defined? && !(t.index.Defined? && Cmp(r.key, t.index.k) == 1) ==>
              Cmp(t.primary.k, r.primary) <= 0 && (t.exclusive ==> Cmp(t.primary.k, r.primary) == -1)
    ensures !t.index.Defined? && !t.primary.Defined? ==> o == Outcome(t, true)
    ensures o.deliver ==> !o.next.primary.Defined?
  {
    if t.index.Defined? && Cmp(r.key, t.index.k) == 1 then
      Outcome(t.(primary := Null, index := Null), true)
    else if t.index.Defined? && Cmp(r.key, t.index.k) == -1 then
      Outcome(t, false)
    else
      var t1 := if t.index.Defined? && !keepIndexTarget then t.(index := Null) else t;
      if !t1.primary.Defined? then Outcome(t1, true)
      else
        var c := Cmp(t1.primary.k, r.primary);
        if c == 0 then
          if t1.exclusive then Outcome(t1.(primary := Null, exclusive := false), false)
          else Outcome(t1.(primary := Null), true)
        else if c == 1 then Outcome(t1, false)
        else Outcome(t1.(primary := Null), true)
  }

  /** Where the handler stops: the delivered position (|walk| for the end) and the targets left. */
  datatype Stop = Stop(pos: nat, targets: Targets)

  /**
   * The success handler run from position `p` of the walk: every record the
   * filter rejects is followed by `continue()`; exhaustion clears all targets.
   */
  function Settle(walk: seq<Record>, p: nat, t: Targets, keepIndexTarget: bool): (s: Stop)
    requires p <= |walk|
    decreases |walk| - p
    ensures p <= s.pos <= |walk|
    ensures s.pos == |walk| ==> s.targets == NO_TARGETS
    ensures s.pos < |walk| ==> !s.targets.primary.Defined?
    ensures !t.index.Defined? && !t.primary.Defined? ==> s.pos == p
  {
    if p == |walk| then Stop(p, NO_TARGETS)
    else
      var o := Filter(t, walk[p], keepIndexTarget);
      if o.deliver then Stop(p, o.next) else Settle(walk, p + 1, o.next, keepIndexTarget)
  }

  /**
   * With only a primary target (`continuePrimaryKey` on an index cursor), the
   * handler delivers the first record whose primary key is at or above the
   * target, whatever the direction, or the end.
   */
  lemma {:induction false} PrimaryTargetSeek(walk: seq<Record>, p: nat, key: Key, keepIndexTarget: bool)
    requires p <= |walk|
    decreases |walk| - p
    ensures var s := Settle(walk, p, Targets(Defined(key), Null, false), keepIndexTarget);
            (forall q :: p <= q < s.pos ==> Cmp(walk[q].primary, key) == -1)
            && (s.pos < |walk| ==> Cmp(walk[s.pos].primary, key) >= 0)
  {
    if p < |walk| {
      CmpAntisym(key, walk[p].primary);
      if Cmp(key, walk[p].primary) == 1 {
        PrimaryTargetSeek(walk, p + 1, key, keepIndexTarget);
      }
    }
  }

  /** The two states of an exclusive resume at (k, pk): still seeking, or just past the resume record. */
  predicate ResumeState(walk: seq<Record>, p: nat, t: Targets, k: Key, pk: Key)
    requires p <= |walk|
  {
    t == Targets(Defined(pk), Defined(k), true)
    || (t == Targets(Null, Defined(k), false) && 0 < p && walk[p - 1].key == k && walk[p - 1].primary == pk)
  }

  /** One record while still seeking (k, pk): delivered exactly when it is beyond. */
  lemma SeekingStep(r: Record, k: Key, pk: Key)
    ensures var o := Filter(Targets(Defined(pk), Defined(k), true), r, true);
            && (o.deliver <==> Beyond(r, k, Defined(pk), false))
            && (!o.deliver ==>
                  o.next == Targets(Defined(pk), Defined(k), true)
                  || (o.next == Targets(Null, Defined(k), false) && r.key == k && r.primary == pk))
  {
    CmpAntisym(r.key, k);
    CmpAntisym(pk, r.primary);
  }

  /** The record after the resume record is beyond it, and delivered. */
  lemma PastResumeStep(prev: Record, r: Record, k: Key, pk: Key)
    requires prev.key == k && prev.primary == pk && RecCmp(prev, r) == -1
    ensures Filter(Targets(Null, Defined(k), false), r, true).deliver
    ensures Beyond(r, k, Defined(pk), false)
  {
    CmpAntisym(k, r.key);
    CmpAntisym(pk, r.primary);
  }

  lemma {:induction false} ResumeFrom(walk: seq<Record>, p: nat, t: Targets, k: Key, pk: Key)
    requires InCursorOrder(walk, false) && p <= |walk|
    requires ResumeState(walk, p, t, k, pk)
    decreases |walk| - p
    ensures var s := Settle(walk, p, t, true);
            (forall q :: p <= q < s.pos ==> !Beyond(walk[q], k, Defined(pk), false))
            && (s.pos < |walk| ==> Beyond(walk[s.pos], k, Defined(pk), false))
  {
    if p < |walk| {
      var r := walk[p];
      var o := Filter(t, r, true);
      if t.primary.Defined? {
        SeekingStep(r, k, pk);
        if !o.deliver {
          assert ResumeState(walk, p + 1, o.next, k, pk);
          ResumeFrom(walk, p + 1, o.next, k, pk);
        }
      } else {
        assert RecCmp(walk[p - 1], r) == -1;
        PastResumeStep(walk[p - 1], r, k, pk);
      }
    }
  }

  /**
   * With the index target kept, an exclusive resume at (k, pk) on a forward
   * walk delivers exactly the first record beyond (k, pk), or the end.
   */
  lemma ResumeDeliversFirstBeyond(walk: seq<Record>, k: Key, pk: Key)
    requires InCursorOrder(walk, false)
    ensures var s := Settle(walk, 0, Targets(Defined(pk), Defined(k), true), true);
            (forall q :: 0 <= q < s.pos ==> !Beyond(walk[q], k, Defined(pk), false))
            && (s.pos < |walk| ==> Beyond(walk[s.pos], k, Defined(pk), false))
  {
    ResumeFrom(walk, 0, Targets(Defined(pk), Defined(k), true), k, pk);
  }

  /** Two index entries: key 0 with primary key 1, then key 1 with primary key 2. */
  const SKIP_EXAMPLE: seq<Record> := [Record(Num(0), Num(1), Value(0)), Record(Num(1), Num(2), Value(1))]

  /**
   * As written, resuming exclusively at (index key 0, primary key 5) skips
   * the entry at index key 1 although it lies beyond the resume point, and
   * reports the end; with the index target kept, that entry is delivered.
   */
  lemma ResumeAsWrittenSkipsLaterKey()
    ensures InCursorOrder(SKIP_EXAMPLE, false)
    ensures Beyond(SKIP_EXAMPLE[1], Num(0), Defined(Num(5)), false)
    ensures Settle(SKIP_EXAMPLE, 0, Targets(Defined(Num(5)), Defined(Num(0)), true), false).pos == |SKIP_EXAMPLE|
    ensures Settle(SKIP_EXAMPLE, 0, Targets(Defined(Num(5)), Defined(Num(0)), true), true).pos == 1
  {
    var w := SKIP_EXAMPLE;
    var t := Targets(Defined(Num(5)), Defined(Num(0)), true);
    assert Filter(t, w[0], false) == Outcome(t.(index := Null), false);
    assert Filter(t.(index := Null), w[1], false) == Outcome(t.(index := Null), false);
    assert Settle(w, 2, t.(index := Null), false).pos == 2;
    assert Filter(t, w[0], true) == Outcome(t, false);
    assert Filter(t, w[1], true).deliver;
  }

  /** How `openCursor` opens the backend: not at all, or on a range. */
  datatype Opening = Exhausted | OpenOn(range: Option<KeyRange>)

  /**
   * Range clipping for a start index key: a forward start below the lower
   * bound, or a reverse start above it, is exhausted at once; otherwise the
   * backend opens on [start, upper), whatever the direction, or on
   * [start, ...) without a range. A bound that is not a key is a DataError
   * of the backend's comparison or range constructor, and so is a start
   * past the upper bound, or on an open one, where the range constructor
   * finds its lower bound above its upper.
   */
  function ClipRange(range: Option<KeyRange>, start: MaybeKey, reverse: bool): (o: Result<Opening, Error>)
    ensures !start.Defined? ==> o == Success(OpenOn(range))
    ensures start.Defined? && range.Some? && range.value.lower.None? ==> o == Failure(DataError)
    ensures start.Defined? && range.Some? && range.value.lower.Some? ==>
              (o == Success(Exhausted) <==>
                 (reverse && Cmp(start.k, range.value.lower.value) == 1)
                 || (!reverse && Cmp(start.k, range.value.lower.value) == -1))
    ensures start.Defined? && range.Some? && range.value.lower.Some? && o != Success(Exhausted) ==>
              (range.value.upper.None? ==> o == Failure(DataError))
              && (range.value.upper.Some? ==>
                    (o == Failure(DataError) <==>
                       Cmp(start.k, range.value.upper.value) == 1
                       || (Cmp(start.k, range.value.upper.value) == 0 && range.value.upperOpen)))
    ensures o.Success? && o.value.OpenOn? && start.Defined? ==>
              forall k :: InOptRange(k, o.value.range) ==> Cmp(k, start.k) >= 0
    ensures o.Success? && o.value.OpenOn? && range.Some? ==>
              forall k :: InOptRange(k, o.value.range) ==> InRange(k, range.value.(lower := None, lowerOpen := false))
  {
    if !start.Defined? then Success(OpenOn(range))
    else if range.None? then Success(OpenOn(Some(KeyRange(Some(start.k), None, false, false))))
    else
      var kr := range.value;
      if kr.lower.None? then Failure(DataError)
      else
        var c := Cmp(start.k, kr.lower.value);
        if reverse && c == 1 then Success(Exhausted)
        else if !reverse && c == -1 then Success(Exhausted)
        else if kr.upper.None? then Failure(DataError)
        else
          var cu := Cmp(start.k, kr.upper.value);
          if cu == 1 || (cu == 0 && kr.upperOpen) then Failure(DataError)
          else Success(OpenOn(Some(KeyRange(Some(start.k), kr.upper, false, kr.upperOpen))))
  }

  /**
   * Whenever the backend is opened on a clipped range, the start key itself
   * is in it: the cursor never opens on an empty range.
   */
  lemma ClipOpensOnStart(range: Option<KeyRange>, start: Key, reverse: bool)
    ensures var o := ClipRange(range, Defined(start), reverse);
            o.Success? && o.value.OpenOn? ==> InOptRange(start, o.value.range)
  {
    CmpAntisym(start, start);
    var o := ClipRange(range, Defined(start), reverse);
    if o.Success? && o.value.OpenOn? && range.Some? {
      CmpAntisym(start, range.value.upper.value);
    }
  }

  /**
   * Forward, from a start inside a bounded range, the clipped range admits
   * exactly the keys of the range at or past the start.
   */
  lemma ClipForwardKeepsRange(kr: KeyRange, start: Key, k: Key)
    requires kr.lower.Some? && kr.upper.Some? && InRange(start, kr)
    ensures ClipRange(Some(kr), Defined(start), false).Success?
    ensures var o := ClipRange(Some(kr), Defined(start), false);
            o.value.OpenOn? && (InOptRange(k, o.value.range) <==> InRange(k, kr) && Cmp(k, start) >= 0)
  {
    CmpAntisym(k, start);
    CmpAntisym(start, kr.lower.value);
    CmpAntisym(k, kr.lower.value);
    if Cmp(k, start) >= 0 {
      CmpTrans(kr.lower.value, start, k);
    }
  }

  class IdxCursor {
    /** Everything the store or index holds, in the order of the cursor's direction. */
    const records: seq<Record>
    const flags: AbstractCursor.CursorFlags
    /** The records of the started request. */
    var walk: seq<Record>
    var pos: nat
    /** A success event has set `cur_`. */
    var started: bool
    var targets: Targets

    ghost predicate Valid()
      reads this
    {
      pos <= |walk| && InCursorOrder(records, flags.reverse) && InCursorOrder(walk, flags.reverse)
    }

    constructor (records: seq<Record>, indexName: Option<string>, keyRange: Option<KeyRange>, dir: Direction, keyOnly: bool)
      requires InCursorOrder(records, dir.IsReverse())
      ensures Valid() && this.records == records && !HasCursor()
      ensures flags == AbstractCursor.Flags(indexName, keyRange, dir, keyOnly) && targets == NO_TARGETS
    {
      this.records := records;
      this.flags := AbstractCursor.Flags(indexName, keyRange, dir, keyOnly);
      walk := [];
      pos := 0;
      started := false;
      targets := NO_TARGETS;
    }

    /** `hasCursor()`: `cur_` holds a record. */
    predicate HasCursor()
      reads this
    {
      started && pos < |walk|
    }

    /** (primary key, index key, value); an index key cursor has no value. */
    function DeliveryAt(p: nat): (d: Delivery)
      reads this
      requires p <= |walk|
      ensures d.End? <==> p == |walk|
      ensures d.Rec? ==> d.primary == walk[p].primary && d.key == walk[p].key
      ensures d.Rec? ==> (d.value.None? <==> flags.keyOnly && flags.isIndex)
    {
      if p == |walk| then End
      else Rec(walk[p].primary, walk[p].key, if flags.keyOnly && flags.isIndex then None else Some(walk[p].value))
    }

    /** `requestOnSuccess`, event after event, until a record or the end is delivered. */
    method RunHandler() returns (d: Delivery)
      requires Valid()
      modifies this
      ensures Valid() && started && walk == old(walk)
      ensures Stop(pos, targets) == Settle(walk, old(pos), old(targets), true)
      ensures d == DeliveryAt(pos)
    {
      started := true;
      while pos < |walk|
        invariant Valid() && started && walk == old(walk)
        invariant old(pos) <= pos
        invariant Settle(walk, pos, targets, true) == Settle(walk, old(pos), old(targets), true)
        decreases |walk| - pos
      {
        var o := Filter(targets, walk[pos], true);
        targets := o.next;
        if o.deliver {
          d := DeliveryAt(pos);
          return;
        }
        pos := pos + 1;
      }
      targets := NO_TARGETS;
      d := DeliveryAt(pos);
    }

    /** `openCursor(iniKey, iniIndexKey, exclusive)`. */
    method OpenCursor(iniKey: MaybeKey, iniIndexKey: MaybeKey, exclusive: bool) returns (r: Result<Delivery, Error>)
      requires Valid()
      modifies this
      ensures Valid()
      ensures var o := ClipRange(flags.keyRange, iniIndexKey, flags.reverse);
              && (o.Failure? ==> r == Failure(o.error) && walk == old(walk) && pos == old(pos))
              && (o == Success(Exhausted) ==> r == Success(End) && walk == old(walk) && pos == old(pos))
              && (o.Success? && o.value.OpenOn? ==>
                    && walk == Select(records, o.value.range)
                    && Stop(pos, targets) == Settle(walk, 0, Targets(iniKey, iniIndexKey, exclusive), true)
                    && r == Success(DeliveryAt(pos)))
    {
      targets := Targets(iniKey, iniIndexKey, exclusive);
      var o := ClipRange(flags.keyRange, iniIndexKey, flags.reverse);
      if o.Failure? {
        return Failure(o.error);
      }
      if o.value.Exhausted? {
        return Success(End);
      }
      SelectInCursorOrder(records, o.value.range, flags.reverse);
      walk := Select(records, o.value.range);
      pos := 0;
      var d := RunHandler();
      r := Success(d);
    }

    /**
     * `restart(effective, primary)`: reopen at (effective, primary),
     * exclusively. A clipping error is passed on. On a forward cursor the
     * record delivered is the first one of the new walk beyond the resume
     * point, and the end is reported only when no record of the new walk is
     * beyond it or the start lies below the range.
     */
    method Restart(effective: MaybeKey, primary: MaybeKey) returns (r: Result<Delivery, Error>)
      requires Valid()
      modifies this
      ensures Valid()
      ensures var o := ClipRange(flags.keyRange, effective, flags.reverse);
              o.Failure? ==> r == Failure(o.error)
      ensures !flags.reverse && effective.Defined? && primary.Defined? && r == Success(End) ==>
                || ClipRange(flags.keyRange, effective, false) == Success(Exhausted)
                || forall q :: 0 <= q < |walk| ==> !Beyond(walk[q], effective.k, primary, false)
      ensures !flags.reverse && effective.Defined? && primary.Defined? && r.Success? && r.value.Rec? ==>
                && pos < |walk|
                && Beyond(walk[pos], effective.k, primary, false)
                && forall q :: 0 <= q < pos ==> !Beyond(walk[q], effective.k, primary, false)
      ensures r.Success? && r.value.Rec? ==> r.value == DeliveryAt(pos)
    {
      r := OpenCursor(primary, effective, true);
      if !flags.reverse && effective.Defined? && primary.Defined? && r.Success? && ClipRange(flags.keyRange, effective, false).Success? && ClipRange(flags.keyRange, effective, false).value.OpenOn? {
        ResumeDeliversFirstBeyond(walk, effective.k, primary.k);
      }
    }

    /** `advance(step)`: drop all targets, then `continue()` for one step or the backend `advance`. */
    method Advance(step: nat) returns (r: Result<Delivery, Error>)
      requires Valid()
      modifies this
      ensures Valid() && walk == old(walk)
      ensures !old(HasCursor()) ==> r == Failure(InvalidOperationError) && pos == old(pos)
      ensures old(HasCursor()) && step == 0 ==> r == Failure(TypeError) && pos == old(pos)
      ensures old(HasCursor()) && step > 0 ==>
                r.Success? && pos == (if old(pos) + step < |walk| then old(pos) + step else |walk|)
      ensures r.Success? ==> r.value == DeliveryAt(pos)
    {
      if !HasCursor() {
        return Failure(InvalidOperationError);
      }
      targets := NO_TARGETS;
      if step == 1 {
        pos := pos + 1;
      } else if step == 0 {
        return Failure(TypeError);
      } else {
        pos := if pos + step < |walk| then pos + step else |walk|;
      }
      var d := RunHandler();
      r := Success(d);
    }

    /**
     * `continuePrimaryKey(key)`: an index cursor walks to the first later
     * record whose primary key is at or above `key`; a primary cursor is a
     * backend `continue(key)`.
     */
    method ContinuePrimaryKey(key: Key) returns (r: Result<Delivery, Error>)
      requires Valid()
      modifies this
      ensures Valid() && walk == old(walk)
      ensures !old(HasCursor()) ==> r == Failure(InvalidOperationError) && pos == old(pos)
      ensures old(HasCursor()) && flags.isIndex ==>
                && r.Success? && old(pos) < pos
                && (forall q :: old(pos) < q < pos ==> Cmp(walk[q].primary, key) == -1)
                && (pos < |walk| ==> Cmp(walk[pos].primary, key) >= 0)
      ensures old(HasCursor()) && !flags.isIndex ==>
                if DirCmp(key, walk[old(pos)].key, flags.reverse) <= 0 then r == Failure(DataError) && pos == old(pos)
                else r.Success? && pos == SeekKey(walk, old(pos) + 1, key, flags.reverse)
      ensures r.Success? ==> r.value == DeliveryAt(pos)
    {
      if !HasCursor() {
        return Failure(InvalidOperationError);
      }
      if flags.isIndex {
        targets := Targets(Defined(key), Null, false);
        pos := pos + 1;
        PrimaryTargetSeek(walk, pos, key, true);
      } else {
        targets := NO_TARGETS;
        if DirCmp(key, walk[pos].key, flags.reverse) <= 0 {
          return Failure(DataError);
        }
        pos := SeekKey(walk, pos + 1, key, flags.reverse);
      }
      var d := RunHandler();
      r := Success(d);
    }

    /** `continueEffectiveKey(key)`: drop all targets; `continue(key)`, or `continue()` without a key. */
    method ContinueEffectiveKey(key: MaybeKey) returns (r: Result<Delivery, Error>)
      requires Valid()
      modifies this
      ensures Valid() && walk == old(walk)
      ensures !old(HasCursor()) ==> r == Failure(InvalidOperationError) && pos == old(pos)
      ensures old(HasCursor()) && !key.Defined? ==> r.Success? && pos == old(pos) + 1
      ensures old(HasCursor()) && key.Defined? ==>
                if DirCmp(key.k, walk[old(pos)].key, flags.reverse) <= 0 then r == Failure(DataError) && pos == old(pos)
                else r.Success? && pos == SeekKey(walk, old(pos) + 1, key.k, flags.reverse)
      ensures r.Success? ==> r.value == DeliveryAt(pos)
    {
      if !HasCursor() {
        return Failure(InvalidOperationError);
      }
      targets := NO_TARGETS;
      if key.Defined? {
        if DirCmp(key.k, walk[pos].key, flags.reverse) <= 0 {
          return Failure(DataError);
        }
        pos := SeekKey(walk, pos + 1, key.k, flags.reverse);
      } else {
        pos := pos + 1;
      }
      ghost var p := pos;
      assert Settle(walk, p, NO_TARGETS, true).pos == p;
      var d := RunHandler();
      assert pos == p;
      r := Success(d);
    }

    /** `update(record)`: only on a current record. */
    method Update() returns (r: Result<(), Error>)
      requires Valid()
      ensures r.Success? <==> HasCursor()
      ensures r.Failure? ==> r.error == InvalidAccessError
    {
      if !HasCursor() {
        return Failure(InvalidAccessError);
      }
      r := Success(());
    }

    /** `clear()`: delete the current record; resolves to 1. */
    method Clear() returns (r: Result<nat, Error>)
      requires Valid()
      ensures HasCursor() ==> r == Success(1)
      ensures !HasCursor() ==> r == Failure(InvalidAccessError)
    {
      if !HasCursor() {
        return Failure(InvalidAccessError);
      }
      r := Success(1);
    }

    /** `disposeInternal()`: forget the current record. */
    method Dispose()
      modifies this
      ensures !HasCursor() && walk == old(walk) && pos == old(pos)
    {
      started := false;
    }
  }
}
