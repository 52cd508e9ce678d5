/**
 * The offset/limit paging shared by the iterator-driven executors
 * (src/ydn/db/core/req/simple_store.js, js/ydn/db/core/req/indexed_db.js,
 * src/ydn/db/core/req/websql.js, js/ydn/db/index/req/websql.js): the
 * cursor's first record is skipped past with one `advance(offset)` when
 * an offset is given, then records are collected one step at a time until
 * the limit or the end. `Pager` is the state of one such `onNext` handler;
 * `Collect` follows a cursor over a record sequence and is proved to return
 * the page `Page` describes.
 */
module Paging {
  import opened Wrappers
  import opened Base
  import opened Keys

  /** What a handler asks of its cursor after a report. */
  datatype Command = AdvanceBy(n: int) | AdvanceOne | ContinueNext | Exit

  /** How the executors differ: whether a null key ends the scan, how they step, and how they report errors and results. */
  datatype Flavour = Flavour(nullEnds: bool, step: Command, exitOnFail: bool, failFlag: bool, single: bool)

  /** What the handler hands to the request: the items, the first item for GET, or an error with its flag. */
  datatype Outcome = Delivered(items: seq<Item>) | DeliveredOne(item: Option<Item>) | FailedWith(error: Error, flag: bool)

  function Deliver(f: Flavour, items: seq<Item>): (o: Outcome)
    ensures f.single ==> o == DeliveredOne(if |items| == 0 then None else Some(items[0]))
    ensures !f.single ==> o == Delivered(items)
  {
    if f.single then DeliveredOne(if |items| == 0 then None else Some(items[0])) else Delivered(items)
  }

  /** A report that ends the scan: an undefined key, or a null one where the executor tests for both. */
  predicate Ends(f: Flavour, key: MaybeKey) {
    key.Undefined? || (key.Null? && f.nullEnds)
  }

  /** Where collection starts: after `offset` records when it is positive. */
  function PageStart(n: nat, offset: int): (s: nat)
    ensures s <= n
  {
    if offset > 0 then (if offset <= n then offset else n) else 0
  }

  /** A limit below one still lets the first record through: the count is tested after it is collected. */
  function Take(limit: int): (t: nat)
    ensures t >= 1 && (limit >= 1 ==> t == limit)
  {
    if limit >= 1 then limit else 1
  }

  /** Where it stops: after `limit` records, at least one, or at the end when there is no limit. */
  function PageEnd(n: nat, offset: int, limit: Option<int>): (e: nat)
    ensures PageStart(n, offset) <= e <= n
  {
    var s := PageStart(n, offset);
    if limit.None? then n
    else if s + Take(limit.value) <= n then s + Take(limit.value) else n
  }

  /** The shaped records from the start to the stop. */
  function Page(walk: seq<Record>, offset: int, limit: Option<int>, shape: Record -> Item): (page: seq<Item>)
    ensures |page| == PageEnd(|walk|, offset, limit) - PageStart(|walk|, offset)
    ensures forall k :: 0 <= k < |page| ==> page[k] == shape(walk[PageStart(|walk|, offset) + k])
  {
    var s := PageStart(|walk|, offset);
    var e := PageEnd(|walk|, offset, limit);
    seq(e - s, k requires 0 <= k < e - s => shape(walk[s + k]))
  }

  /** The page holds at most `limit` items (at least one), and all remaining records when there is no limit. */
  lemma PageSize(walk: seq<Record>, offset: int, limit: Option<int>, shape: Record -> Item)
    ensures limit.Some? && limit.value >= 1 ==> |Page(walk, offset, limit, shape)| <= limit.value
    ensures limit.None? ==> |Page(walk, offset, limit, shape)| == |walk| - PageStart(|walk|, offset)
    ensures offset <= 0 && limit.Some? && 1 <= limit.value <= |walk| ==> |Page(walk, offset, limit, shape)| == limit.value
  {
  }

  /** Consecutive pages: the page at `offset` of `a` items followed by the page at `offset + a` is the page of `a + b` items. */
  lemma {:induction false} PagesConcatenate(walk: seq<Record>, offset: nat, a: nat, b: nat, shape: Record -> Item)
    requires a >= 1 && b >= 1 && offset + a <= |walk|
    ensures Page(walk, offset, Some(a), shape) + Page(walk, offset + a, Some(b), shape) == Page(walk, offset, Some(a + b), shape)
  {
    var p := Page(walk, offset, Some(a), shape);
    var q := Page(walk, offset + a, Some(b), shape);
    var r := Page(walk, offset, Some(a + b), shape);
    if offset == 0 {
      assert |p| == a;
      assert forall k :: 0 <= k < |q| ==> q[k] == shape(walk[a + k]);
    }
    assert |p + q| == |r|;
    forall k | 0 <= k < |r|
      ensures (p + q)[k] == r[k]
    {
      if k < |p| {
      } else {
        assert (p + q)[k] == q[k - |p|];
      }
    }
  }

  /** The state of one paging `onNext` handler. */
  class Pager {
    const flavour: Flavour
    const offset: int
    const limit: Option<int>
    var arr: seq<Item>
    var count: nat
    var cued: bool
    var finished: bool
    var outcome: Option<Outcome>

    ghost predicate Valid()
      reads this
    {
      && count == |arr|
      && (finished <==> outcome.Some?)
    }

    constructor (flavour: Flavour, offset: int, limit: Option<int>)
      ensures Valid() && this.flavour == flavour && this.offset == offset && this.limit == limit
      ensures arr == [] && count == 0 && !cued && !finished
    {
      this.flavour := flavour;
      this.offset := offset;
      this.limit := limit;
      arr := [];
      count := 0;
      cued := false;
      finished := false;
      outcome := None;
    }

    /**
     * `onNext(key)`: the end delivers what was collected; the first record
     * with an offset to skip asks for `advance(offset)` and is not
     * collected; any other record is collected, and the handler steps on
     * below the limit and exits and delivers at it.
     */
    method OnNext(key: MaybeKey, item: Item) returns (cmd: Command)
      requires Valid() && !finished
      modifies this
      ensures Valid()
      ensures Ends(flavour, key) ==> cmd == Exit && finished && arr == old(arr) && outcome == Some(Deliver(flavour, arr))
      ensures !Ends(flavour, key) && !old(cued) && offset > 0 ==> cmd == AdvanceBy(offset) && cued && arr == old(arr) && !finished
      ensures !Ends(flavour, key) && (old(cued) || offset <= 0) ==>
                && arr == old(arr) + [item] && cued == old(cued)
                && (limit.None? || count < limit.value ==> cmd == flavour.step && !finished)
                && (limit.Some? && count >= limit.value ==> cmd == Exit && finished && outcome == Some(Deliver(flavour, arr)))
    {
      if !Ends(flavour, key) {
        if !cued && offset > 0 {
          cued := true;
          return AdvanceBy(offset);
        }
        count := count + 1;
        arr := arr + [item];
        if limit.None? || count < limit.value {
          cmd := flavour.step;
        } else {
          cmd := Exit;
          finished := true;
          outcome := Some(Deliver(flavour, arr));
        }
      } else {
        cmd := Exit;
        finished := true;
        outcome := Some(Deliver(flavour, arr));
      }
    }

    /** `onFail(e)`: the error is delivered with the executor's flag (after exiting the cursor where it does). */
    method OnFail(e: Error) returns (cmd: Option<Command>)
      requires Valid()
      modifies this
      ensures Valid() && finished && outcome == Some(FailedWith(e, flavour.failFlag))
      ensures cmd == (if flavour.exitOnFail then Some(Exit) else None)
      ensures arr == old(arr)
    {
      finished := true;
      outcome := Some(FailedWith(e, flavour.failFlag));
      cmd := if flavour.exitOnFail then Some(Exit) else None;
    }
  }

  /**
   * A handler driven by a cursor over `walk`: each command moves the cursor
   * (`advance(n)` by n records, a step by one), and a cursor past the last
   * record reports an undefined key. The outcome is the page.
   */
  method Collect(walk: seq<Record>, flavour: Flavour, shape: Record -> Item, offset: int, limit: Option<int>)
    returns (out: Outcome)
    requires flavour.step == AdvanceOne || flavour.step == ContinueNext
    ensures out == Deliver(flavour, Page(walk, offset, limit, shape))
  {
    var pager := new Pager(flavour, offset, limit);
    var pos := 0;
    var s := PageStart(|walk|, offset);
    while !pager.finished
      invariant pager.Valid() && pager.flavour == flavour && pager.offset == offset && pager.limit == limit
      invariant 0 <= pos <= |walk|
      invariant !pager.cued && offset > 0 && !pager.finished ==> pos == 0 && pager.arr == []
      invariant (pager.cued || offset <= 0) && !pager.finished ==>
                  && pos == s + |pager.arr| && pos <= PageEnd(|walk|, offset, limit)
                  && (limit.Some? ==> |pager.arr| < Take(limit.value))
                  && pager.arr == Page(walk, offset, limit, shape)[..|pager.arr|]
      invariant pager.finished ==> pager.outcome == Some(Deliver(flavour, Page(walk, offset, limit, shape)))
      decreases |walk| - pos + (if pager.finished then 0 else 1)
    {
      var key := if pos < |walk| then Defined(walk[pos].key) else Undefined;
      var item := if pos < |walk| then shape(walk[pos]) else NoItem;
      ghost var page := Page(walk, offset, limit, shape);
      ghost var m := |pager.arr|;
      if pos < |walk| && (pager.cued || offset <= 0) {
        assert page[..m + 1] == page[..m] + [item];
      }
      if pos == |walk| && (pager.cued || offset <= 0) {
        assert page[..m] == page;
      }
      ghost var collecting := pos < |walk| && (pager.cued || offset <= 0);
      var cmd := pager.OnNext(key, item);
      if collecting && cmd == Exit {
        assert |page| == m + 1;
        assert page[..m + 1] == page;
      }
      if cmd.AdvanceBy? {
        pos := if pos + cmd.n <= |walk| then pos + cmd.n else |walk|;
      } else if cmd != Exit {
        pos := pos + 1;
      }
    }
    out := pager.outcome.value;
  }
}
