/**
 * The in-memory cursor adapter (js/ydn/db/core/req/simple_cursor.js). The
 * ordered buffer it walks is given as its nodes in the order of travel
 * (the buffer's reverse traversal for a reverse cursor); a node position
 * stands for `current_`, and `None` for a null node. The buffer is assumed to
 * hand its visitor a null node once it runs out of nodes, as the visitors'
 * null tests expect. The key range plays no part in this adapter.
 */
module SimpleCursor {
  import opened Wrappers
  import opened Base
  import opened Keys
  import AbstractCursor

  /** `key_`, `primary_key_` and `value_`: what the next `onSuccess` reports. */
  datatype Position = Position(key: Option<Key>, primary: Option<Key>, value: Item)

  /** One timer tick of `dispatchOnSuccess_`. */
  datatype Tick = Delivered(position: Position) | Completed

  /**
   * What the `onSuccess` handler does with the cursor before it returns:
   * nothing, or a synchronous `advance(step)` or `continueEffectiveKey(key)`,
   * as the multi-cursor's handler does while it cues a cursor.
   */
  datatype Reaction = Idle | AdvanceBy(step: nat) | ContinueTo(key: MaybeKey)

  /**
   * The node a counted `advance(step)` stops at: `step` nodes past the
   * current one, or, with no current node, node `step - 1` (node 0 for a
   * zero step); `None` once the buffer runs out.
   */
  function AdvanceTarget(current: Option<nat>, step: nat, n: nat): (node: Option<nat>)
    ensures node.Some? ==> node.value < n
    ensures current.Some? ==> (node.Some? <==> current.value + step < n)
  {
    var q := if current.Some? then current.value + step else if step == 0 then 0 else step - 1;
    if q < n then Some(q) else None
  }

  /** Advancing by a then by b from a node is advancing by a + b, while the buffer lasts. */
  lemma AdvanceAdds(i: nat, a: nat, b: nat, n: nat)
    requires AdvanceTarget(Some(i), a, n).Some?
    ensures AdvanceTarget(AdvanceTarget(Some(i), a, n), b, n) == AdvanceTarget(Some(i), a + b, n)
  {
  }

  /**
   * Where an `openCursor` traversal from the start node (key, primary key)
   * begins: the first node not before it in the direction of travel, that
   * is at a later key, or at the key with the primary key (when one is
   * given) not before the start's.
   */
  function StartOf(walk: seq<Record>, from: nat, key: Key, primary: MaybeKey, reverse: bool): (q: nat)
    requires from <= |walk|
    decreases |walk| - from
    ensures from <= q <= |walk|
    ensures forall i :: from <= i < q ==> Beyond(walk[i], key, primary, reverse) == false && !AtStart(walk[i], key, primary, reverse)
    ensures q < |walk| ==> Beyond(walk[q], key, primary, reverse) || AtStart(walk[q], key, primary, reverse)
  {
    if from == |walk| then from
    else if Beyond(walk[from], key, primary, reverse) || AtStart(walk[from], key, primary, reverse) then from
    else StartOf(walk, from + 1, key, primary, reverse)
  }

  /** The node is the start node itself: at the key, and at the primary key when one is given. */
  predicate AtStart(r: Record, key: Key, primary: MaybeKey, reverse: bool) {
    Cmp(r.key, key) == 0 && (!primary.Defined? || Cmp(r.primary, primary.k) == 0)
  }

  class SimpleCursor {
    /** The buffer's nodes, in the order of travel. */
    const walk: seq<Record>
    const flags: AbstractCursor.CursorFlags
    /** `key_query`: a keys query does not fill in values. */
    const keyQuery: bool
    /** The store's records by primary key, as `getRecord` reads them. */
    const store: map<Key, Value>
    /** `isActive()`: the transaction is still held. */
    var active: bool
    /** `current_`. */
    var current: Option<nat>
    /** `result_ready_`. */
    var ready: bool
    var result: Position
    /** `onCursorComplete_` is set. */
    var completePending: bool

    ghost predicate Valid()
      reads this
    {
      current.Some? ==> current.value < |walk|
    }

    constructor (walk: seq<Record>, indexName: Option<string>, keyRange: Option<KeyRange>, dir: Direction,
                 keyOnly: bool, keyQuery: bool, store: map<Key, Value>)
      ensures Valid() && this.walk == walk && this.keyQuery == keyQuery && this.store == store
      ensures flags == AbstractCursor.Flags(indexName, keyRange, dir, keyOnly)
      ensures active && current.None? && !ready && !completePending
      ensures result == Position(None, None, NoItem)
    {
      this.walk := walk;
      this.flags := AbstractCursor.Flags(indexName, keyRange, dir, keyOnly);
      this.keyQuery := keyQuery;
      this.store := store;
      active := true;
      current := None;
      ready := false;
      result := Position(None, None, NoItem);
      completePending := false;
    }

    /** `hasCursor()` is `isActive()`. */
    predicate HasCursor()
      reads this
    {
      active
    }

    /**
     * What `defaultOnSuccess_` records for a node: the node's key; its
     * primary key for an index cursor and the key itself otherwise; and,
     * unless this is a keys query, the primary key as value for a key-only
     * cursor or the stored record otherwise. No node clears all three.
     */
    function PositionAt(node: Option<nat>, previous: Item): (p: Position)
      reads this
      requires node.Some? ==> node.value < |walk|
      ensures node.None? ==> p == Position(None, None, NoItem)
      ensures node.Some? ==> p.key == Some(walk[node.value].key)
      ensures node.Some? && !flags.isIndex ==> p.primary == p.key
      ensures node.Some? && flags.isIndex ==> p.primary == Some(walk[node.value].primary)
      ensures node.Some? && keyQuery ==> p.value == previous
      ensures node.Some? && !keyQuery && flags.keyOnly ==> p.value == KeyItem(p.primary.value)
      ensures node.Some? && !keyQuery && !flags.keyOnly ==>
                (p.value.ValueItem? <==> p.primary.value in store)
                && (p.value.ValueItem? ==> p.value.value == store[p.primary.value])
    {
      if node.None? then Position(None, None, NoItem)
      else
        var r := walk[node.value];
        var pk := if flags.isIndex then r.primary else r.key;
        var v := if keyQuery then previous
                 else if flags.keyOnly then KeyItem(pk)
                 else if pk in store then ValueItem(store[pk]) else NoItem;
        Position(Some(r.key), Some(pk), v)
    }

    /** `defaultOnSuccess_(node)`: make the node current and its position ready. */
    method DefaultOnSuccess(node: Option<nat>)
      requires node.Some? ==> node.value < |walk|
      modifies this
      ensures Valid() && current == node && ready && result == PositionAt(node, old(result.value))
      ensures active == old(active) && completePending == old(completePending)
    {
      current := node;
      result := PositionAt(node, result.value);
      ready := true;
    }

    /** The traversal of `advance(step)`: count nodes from the current one and stop at `step`. */
    method AdvanceStop(step: nat) returns (node: Option<nat>)
      requires Valid()
      ensures node == AdvanceTarget(current, step, |walk|)
    {
      var cnt: int := if current.Some? then -1 else 0;
      var q: nat := if current.Some? then current.value else 0;
      ghost var start := q;
      while true
        invariant q <= |walk|
        invariant current.Some? ==> cnt == q - current.value - 1
        invariant current.None? ==> cnt == q
        invariant start <= q
        invariant start < q ==> cnt < step as int
        decreases |walk| - q
      {
        cnt := cnt + 1;
        if q == |walk| || cnt >= step {
          node := if q == |walk| then None else Some(q);
          return;
        }
        q := q + 1;
      }
    }

    /** `advance(step)`. */
    method Advance(step: nat)
      requires Valid()
      modifies this
      ensures Valid() && ready && current == AdvanceTarget(old(current), step, |walk|)
      ensures result == PositionAt(current, old(result.value))
      ensures active == old(active) && completePending == old(completePending)
    {
      var node := AdvanceStop(step);
      DefaultOnSuccess(node);
    }

    /**
     * The traversal of `continueEffectiveKey(key)`: the first node whose key
     * is at or beyond `key` in the direction of travel, counted from the
     * start of the buffer rather than from the current node.
     */
    method SeekStop(key: Key) returns (node: Option<nat>)
      ensures var q := SeekKey(walk, 0, key, flags.reverse);
              node == if q < |walk| then Some(q) else None
    {
      var q := 0;
      while q < |walk|
        invariant q <= |walk|
        invariant SeekKey(walk, q, key, flags.reverse) == SeekKey(walk, 0, key, flags.reverse)
        decreases |walk| - q
      {
        var c := Cmp(walk[q].key, key);
        if (flags.reverse && c != 1) || (!flags.reverse && c != -1) {
          return Some(q);
        }
        q := q + 1;
      }
      node := None;
    }

    /** `continueEffectiveKey(key)`: seek to `key`, or `advance(1)` without a key. */
    method ContinueEffectiveKey(key: MaybeKey)
      requires Valid()
      modifies this
      ensures Valid() && ready && result == PositionAt(current, old(result.value))
      ensures !key.Defined? ==> current == AdvanceTarget(old(current), 1, |walk|)
      ensures key.Defined? ==>
                var q := SeekKey(walk, 0, key.k, flags.reverse);
                current == if q < |walk| then Some(q) else None
      ensures active == old(active) && completePending == old(completePending)
    {
      if key.Defined? {
        var node := SeekStop(key.k);
        DefaultOnSuccess(node);
      } else {
        Advance(1);
      }
    }

    /**
     * `openCursor(key, primaryKey)`: an index cursor starts at the start
     * node; a primary cursor, or no key, starts at the first node. The
     * first node is made ready and completion is armed.
     */
    method OpenCursor(key: MaybeKey, primary: MaybeKey)
      requires Valid()
      modifies this
      ensures Valid() && ready && completePending && active == old(active)
      ensures result == PositionAt(current, old(result.value))
      ensures var q := if key.Defined? && flags.isIndex then StartOf(walk, 0, key.k, primary, flags.reverse) else 0;
              current == if q < |walk| then Some(q) else None
    {
      var q := if key.Defined? && flags.isIndex then StartOf(walk, 0, key.k, primary, flags.reverse) else 0;
      DefaultOnSuccess(if q < |walk| then Some(q) else None);
      completePending := true;
    }

    /** The node the handler's reaction leaves current. */
    function ReactionTarget(from: Option<nat>, reaction: Reaction): (node: Option<nat>)
      requires from.Some? ==> from.value < |walk|
      ensures node.Some? ==> node.value < |walk|
      ensures reaction.Idle? ==> node == from
      ensures reaction.AdvanceBy? && from.Some? ==> (node.Some? <==> from.value + reaction.step < |walk|)
    {
      match reaction
      case Idle => from
      case AdvanceBy(step) => AdvanceTarget(from, step, |walk|)
      case ContinueTo(key) =>
        if key.Defined? then
          var q := SeekKey(walk, 0, key.k, flags.reverse);
          if q < |walk| then Some(q) else None
        else AdvanceTarget(from, 1, |walk|)
    }

    /** The handler's reaction, run on the cursor. */
    method React(reaction: Reaction)
      requires Valid()
      modifies this
      ensures Valid() && current == ReactionTarget(old(current), reaction)
      ensures reaction.Idle? ==> ready == old(ready) && result == old(result)
      ensures !reaction.Idle? ==> ready && result == PositionAt(current, old(result.value))
      ensures active == old(active) && completePending == old(completePending)
    {
      match reaction
      case Idle =>
      case AdvanceBy(step) => Advance(step);
      case ContinueTo(key) => ContinueEffectiveKey(key);
    }

    /**
     * One tick of `dispatchOnSuccess_`, as written: a ready position is
     * delivered, the handler reacts, and only then is the flag cleared, so a
     * position the handler readied is never delivered and the next tick
     * completes the cursor. With nothing ready the completion callback runs
     * once and is dropped, and a second call finds no callback to run.
     */
    method DispatchTick(reaction: Reaction) returns (t: Result<Tick, Error>)
      requires Valid()
      modifies this
      ensures Valid() && !ready
      ensures old(ready) ==> t == Success(Delivered(old(result))) && completePending == old(completePending)
      ensures old(ready) ==> current == ReactionTarget(old(current), reaction)
      ensures old(ready) && !reaction.Idle? ==> result == PositionAt(current, old(result.value))
      ensures !old(ready) && old(completePending) ==> t == Success(Completed) && !completePending
      ensures !old(ready) && !old(completePending) ==> t == Failure(TypeError) && !completePending
      ensures !old(ready) || reaction.Idle? ==> current == old(current) && result == old(result)
      ensures active == old(active)
    {
      if ready {
        t := Success(Delivered(result));
        React(reaction);
        ready := false;
      } else if completePending {
        t := Success(Completed);
        completePending := false;
      } else {
        t := Failure(TypeError);
      }
    }

    /**
     * One tick with the flag cleared before the handler runs: a position the
     * handler readies stays ready for the next tick.
     */
    method DispatchTickClearedFirst(reaction: Reaction) returns (t: Result<Tick, Error>)
      requires Valid()
      modifies this
      ensures Valid()
      ensures old(ready) ==> t == Success(Delivered(old(result))) && completePending == old(completePending)
      ensures old(ready) ==> current == ReactionTarget(old(current), reaction) && (ready <==> !reaction.Idle?)
      ensures old(ready) && !reaction.Idle? ==> result == PositionAt(current, old(result.value))
      ensures !old(ready) && old(completePending) ==> t == Success(Completed) && !completePending && !ready
      ensures !old(ready) && !old(completePending) ==> t == Failure(TypeError) && !completePending && !ready
      ensures !old(ready) || reaction.Idle? ==> current == old(current) && result == old(result)
      ensures active == old(active)
    {
      if ready {
        t := Success(Delivered(result));
        ready := false;
        React(reaction);
      } else if completePending {
        t := Success(Completed);
        completePending := false;
      } else {
        t := Failure(TypeError);
      }
    }

    /** `update`: unsupported. */
    method Update() returns (r: Result<(), string>)
      ensures r == Failure("no update")
    {
      r := Failure("no update");
    }

    /** `clear`: unsupported. */
    method Clear() returns (r: Result<nat, string>)
      ensures r == Failure("no clear")
    {
      r := Failure("no clear");
    }

    /** `restart`: unsupported. */
    method Restart(effective: MaybeKey, primary: MaybeKey) returns (r: Result<(), string>)
      ensures r == Failure("no restart")
    {
      r := Failure("no restart");
    }

    /** `continuePrimaryKey`: unsupported. */
    method ContinuePrimaryKey(key: Key) returns (r: Result<(), string>)
      ensures r == Failure("no p cont")
    {
      r := Failure("no p cont");
    }

    /** `disposeInternal()`: the transaction is released, so the cursor is gone. */
    method Dispose()
      modifies this
      ensures !HasCursor() && current == old(current)
    {
      active := false;
    }
  }
}
