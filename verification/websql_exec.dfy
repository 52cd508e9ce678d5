/**
 * The WebSQL request executor (js/ydn/db/core/req/websql.js), following the
 * W3C Web SQL Database note: the SQL text of the key-range listings, clears
 * and counts; the windowed fan-out of `insertObjects`, `listByIds` and
 * `listByKeys`; and the one-after-another chains of `clearByStores` and
 * `countStores`. The statements themselves run in the database: each is an
 * event (succeeded with a result, or failed) that the state machines here
 * consume. Quoting of identifiers, the WHERE clause of a key range and the
 * column names of a store are given as inputs.
 */
module WebSqlExec {
  import opened Wrappers
  import opened Base
  import opened Keys
  import opened Collections

  /** Statements started at once by `insertObjects` (`RW_REQ_PER_TX`). */
  const RW_REQ_PER_TX: nat := 2
  /** Statements started at once by `listByIds` and `listByKeys` (`REQ_PER_TX`). */
  const REQ_PER_TX: nat := 10

  // ---------------------------------------------------------------------
  // SQL text
  // ---------------------------------------------------------------------

  /** An identifier in double quotes (the escaping of quotes inside it is not modelled). */
  function Quote(s: string): (q: string)
    ensures |q| == |s| + 2 && q[0] == '"' && q[|q| - 1] == '"' && q[1..|q| - 1] == s
  {
    "\"" + s + "\""
  }

  function Digit(d: nat): (c: char)
    requires d < 10
    ensures '0' <= c <= '9'
  {
    "0123456789"[d]
  }

  /** Decimal text of a natural number. */
  function NatText(n: nat): (s: string)
    ensures |s| > 0
    ensures forall i :: 0 <= i < |s| ==> '0' <= s[i] <= '9'
  {
    if n < 10 then [Digit(n)] else NatText(n / 10) + [Digit(n % 10)]
  }

  /** Decimal text of an integer, as string concatenation renders a whole number. */
  function IntText(x: int): (s: string)
    ensures |s| > 0
    ensures x >= 0 <==> s[0] != '-'
  {
    if x < 0 then "-" + NatText(-x) else NatText(x)
  }

  /** A WHERE clause built from a key range: its text and its parameters. */
  datatype WhereClause = WhereClause(sql: string, params: seq<Key>)

  /** The parts of a SELECT statement. */
  datatype Select = Select(distinct: bool, fields: string, table: string, where: Option<string>,
                           orderBy: string, descending: bool, limit: Option<int>, offset: Option<int>)

  /** The text of a SELECT statement: the clauses in SQL order, each present only when its part is. */
  function SelectText(q: Select): (s: string)
    ensures "SELECT " <= s
  {
    var paged := Paged(q);
    PrefixConcat(paged, NumberPart(" OFFSET ", q.offset));
    paged + NumberPart(" OFFSET ", q.offset)
  }

  /** Everything up to the OFFSET clause. */
  function Paged(q: Select): (s: string)
    ensures "SELECT " <= s
  {
    var ordered := Ordered(q);
    PrefixConcat(ordered, NumberPart(" LIMIT ", q.limit));
    ordered + NumberPart(" LIMIT ", q.limit)
  }

  /** Everything up to the LIMIT clause. */
  function Ordered(q: Select): (s: string)
    ensures "SELECT " <= s
  {
    var head := "SELECT " + (if q.distinct then "DISTINCT" else "");
    var pre := head + q.fields + " FROM " + q.table + WherePart(q.where) + " ORDER BY " + q.orderBy;
    PrefixConcat("SELECT ", (if q.distinct then "DISTINCT" else ""));
    PrefixConcat(head, pre[|head|..]);
    PrefixConcat(pre, OrderWord(q.descending));
    pre + OrderWord(q.descending)
  }

  function WherePart(w: Option<string>): string {
    if w.Some? then " WHERE " + w.value else ""
  }

  function OrderWord(descending: bool): string {
    if descending then " DESC" else " ASC"
  }

  /** A LIMIT or OFFSET clause, present only for a number. */
  function NumberPart(keyword: string, x: Option<int>): (t: string)
    ensures x.None? <==> t == ""
  {
    if x.Some? then keyword + IntText(x.value) else ""
  }

  /** The statement ends with its OFFSET clause, or its LIMIT clause, or the order keyword. */
  lemma SelectTextEnds(q: Select)
    ensures q.offset.Some? ==> IsSuffix(" OFFSET " + IntText(q.offset.value), SelectText(q))
    ensures q.offset.None? && q.limit.Some? ==> IsSuffix(" LIMIT " + IntText(q.limit.value), SelectText(q))
    ensures q.offset.None? && q.limit.None? ==> IsSuffix(OrderWord(q.descending), SelectText(q))
  {
    SuffixConcat(Paged(q), NumberPart(" OFFSET ", q.offset));
    if q.offset.None? {
      assert SelectText(q) == Paged(q);
      SuffixConcat(Ordered(q), NumberPart(" LIMIT ", q.limit));
      if q.limit.None? {
        assert Paged(q) == Ordered(q);
        var head := "SELECT " + (if q.distinct then "DISTINCT" else "");
        SuffixConcat(head + q.fields + " FROM " + q.table + WherePart(q.where) + " ORDER BY " + q.orderBy, OrderWord(q.descending));
      }
    }
  }

  lemma PrefixConcat(a: string, b: string)
    ensures a <= a + b
  {
  }

  lemma SuffixConcat(a: string, b: string)
    ensures IsSuffix(b, a + b)
  {
  }

  predicate IsSuffix(t: string, s: string) {
    |t| <= |s| && s[|s| - |t|..] == t
  }

  /** The statement `list_by_key_range_` runs, with its parameters. */
  datatype ListQuery = ListQuery(select: Select, params: seq<Key>, keyColumn: string)

  /**
   * `list_by_key_range_(keyOnly, store, indexColumn, range, reverse, limit,
   * offset, distinct)`. The flag the code calls `is_index` holds exactly
   * when NO index column is given; `storeColumn` is the store's column name
   * and `where` builds the WHERE clause of a range on a column.
   */
  function ListByKeyRange(keyOnly: bool, quotedTable: string, storeColumn: string, indexColumn: Option<string>,
                          range: Option<KeyRange>, reverse: bool, limit: Option<int>, offset: Option<int>,
                          distinct: bool, where: (string, KeyRange) -> WhereClause): (q: ListQuery)
    ensures q.select.where.Some? <==> range.Some?
    ensures range.Some? ==> q.select.where == Some(where(ListColumn(storeColumn, indexColumn), range.value).sql)
                            && q.params == where(ListColumn(storeColumn, indexColumn), range.value).params
    ensures range.None? ==> q.params == []
    ensures q.select.orderBy == Quote(ListColumn(storeColumn, indexColumn)) && (q.select.descending <==> reverse)
    ensures q.select.limit == limit && q.select.offset == offset
    ensures q.select.distinct == distinct && q.select.table == quotedTable
    ensures q.select.fields == ListFields(keyOnly, storeColumn, indexColumn)
    ensures q.keyColumn == storeColumn
  {
    var column := ListColumn(storeColumn, indexColumn);
    var clause := if range.Some? then Some(where(column, range.value)) else None;
    ListQuery(Select(distinct, ListFields(keyOnly, storeColumn, indexColumn), quotedTable,
                     if clause.Some? then Some(clause.value.sql) else None,
                     Quote(column), reverse, limit, offset),
              if clause.Some? then clause.value.params else [], storeColumn)
  }

  /** The column ordered and filtered on: the index column unless it is missing or empty. */
  function ListColumn(storeColumn: string, indexColumn: Option<string>): (c: string)
    ensures indexColumn.Some? && indexColumn.value != "" ==> c == indexColumn.value
    ensures indexColumn.None? || indexColumn.value == "" ==> c == storeColumn
  {
    if indexColumn.Some? && indexColumn.value != "" then indexColumn.value else storeColumn
  }

  /** The selected fields, following the code's `is_index` (true when no index column is given). */
  function ListFields(keyOnly: bool, storeColumn: string, indexColumn: Option<string>): (f: string)
    ensures keyOnly ==> f == Quote(storeColumn)
    ensures !keyOnly && indexColumn.Some? ==> f == "*"
    ensures !keyOnly && indexColumn.None? ==> f == Quote(ListColumn(storeColumn, indexColumn))
  {
    var isIndex := indexColumn.None?;
    if isIndex then (if keyOnly then Quote(storeColumn) else Quote(ListColumn(storeColumn, indexColumn)))
    else (if keyOnly then Quote(storeColumn) else "*")
  }

  /**
   * Because `is_index` is set when no index is given, a value listing of a
   * whole store selects the key column only, while a value listing by index
   * selects every column.
   */
  lemma StoreValueListingSelectsKeyColumn(storeColumn: string, index: string)
    ensures ListFields(false, storeColumn, None) == Quote(storeColumn) == ListFields(true, storeColumn, None)
    ensures ListFields(false, storeColumn, Some(index)) == "*"
    ensures ListFields(false, storeColumn, None) != ListFields(false, storeColumn, Some(index))
  {
    assert |Quote(storeColumn)| >= 2;
  }

  /** A statement with its parameters. */
  datatype Statement = Statement(sql: string, params: seq<Key>)

  /**
   * `clear_by_key_range_(store, column, range)`: a DELETE, filtered on the
   * given column (typed by its index) or on the store column (typed by the
   * store) when a range is given.
   */
  function ClearByKeyRange(quotedTable: string, storeColumn: string, storeType: Option<string>,
                           column: Option<string>, indexType: Option<string>, range: Option<KeyRange>,
                           where: (string, Option<string>, KeyRange) -> WhereClause): (st: Statement)
    ensures range.None? ==> st == Statement("DELETE FROM " + quotedTable, [])
    ensures range.Some? && column.Some? ==>
      var w := where(column.value, indexType, range.value);
      st == Statement("DELETE FROM " + quotedTable + " WHERE " + w.sql, w.params)
    ensures range.Some? && column.None? ==>
      var w := where(storeColumn, storeType, range.value);
      st == Statement("DELETE FROM " + quotedTable + " WHERE " + w.sql, w.params)
  {
    var c := if column.Some? then column.value else storeColumn;
    var t := if column.Some? then indexType else storeType;
    if range.None? then Statement("DELETE FROM " + quotedTable, [])
    else
      var w := where(c, t, range.value);
      Statement("DELETE FROM " + quotedTable + " WHERE " + w.sql, w.params)
  }

  /**
   * `countKeyRange(table, range, index)`: SELECT COUNT(*) over the quoted
   * table name, filtered on the index column (or the store column when the
   * index name is missing or empty) with the store's type.
   */
  function CountKeyRange(table: string, storeColumn: string, storeType: Option<string>, index: Option<string>,
                         range: Option<KeyRange>, where: (string, Option<string>, KeyRange) -> WhereClause): (st: Statement)
    ensures range.None? ==> st == Statement("SELECT COUNT(*) FROM " + Quote(table), [])
    ensures range.Some? ==>
      var w := where(ListColumn(storeColumn, index), storeType, range.value);
      st == Statement("SELECT COUNT(*) FROM " + Quote(table) + " WHERE " + w.sql, w.params)
  {
    var sql := "SELECT COUNT(*) FROM " + Quote(table);
    if range.None? then Statement(sql, [])
    else
      var w := where(ListColumn(storeColumn, index), storeType, range.value);
      Statement(sql + " WHERE " + w.sql, w.params)
  }

  /** Elements joined with a separator. */
  function Join(parts: seq<string>, sep: string): (s: string)
    ensures |parts| == 0 ==> s == ""
    ensures |parts| == 1 ==> s == parts[0]
  {
    if |parts| == 0 then "" else if |parts| == 1 then parts[0] else Join(parts[..|parts| - 1], sep) + sep + parts[|parts| - 1]
  }

  /**
   * The statement `insertObjects` runs for one object: INSERT for add,
   * INSERT OR REPLACE for put, with the object's columns and placeholders.
   */
  function InsertSql(create: bool, quotedTable: string, columns: seq<string>, slots: seq<string>): (sql: string)
    ensures create ==> "INSERT INTO " <= sql
    ensures !create ==> "INSERT OR REPLACE INTO " <= sql
    ensures IsSuffix(");", sql)
  {
    (if create then "INSERT INTO " else "INSERT OR REPLACE INTO ") + quotedTable
      + " (" + Join(columns, ", ") + ") " + "VALUES (" + Join(slots, ", ") + ");"
  }

  /** The key reported for an inserted object: its own key, or the row id the database assigned. */
  function InsertedKey(ownKey: Option<Key>, insertId: Key): (k: Key)
    ensures ownKey.Some? ==> k == ownKey.value
    ensures ownKey.None? ==> k == insertId
  {
    if ownKey.Some? then ownKey.value else insertId
  }

  // ---------------------------------------------------------------------
  // Result rows of a listing
  // ---------------------------------------------------------------------

  /** What one row becomes: its key column decoded for key listings, the parsed row otherwise. */
  function RowItem<R, V>(row: R, keyOnly: bool, decodeKey: R -> V, parse: R -> V): (v: V)
    ensures keyOnly ==> v == decodeKey(row)
    ensures !keyOnly ==> v == parse(row)
  {
    if keyOnly then decodeKey(row) else parse(row)
  }

  /** The success callback of `list_by_key_range_`: one item per row, in row order. */
  method DecodeRows<R, V>(rows: seq<R>, keyOnly: bool, decodeKey: R -> V, parse: R -> V) returns (arr: seq<V>)
    ensures |arr| == |rows|
    ensures forall i :: 0 <= i < |rows| ==> arr[i] == RowItem(rows[i], keyOnly, decodeKey, parse)
  {
    arr := [];
    var i := 0;
    while i < |rows|
      invariant i <= |rows| && |arr| == i
      invariant forall j :: 0 <= j < i ==> arr[j] == RowItem(rows[j], keyOnly, decodeKey, parse)
    {
      arr := arr + [RowItem(rows[i], keyOnly, decodeKey, parse)];
      i := i + 1;
    }
  }

  // ---------------------------------------------------------------------
  // Windowed fan-out
  // ---------------------------------------------------------------------

  /** What the deferred is called with. */
  datatype Reply<V> = Values(vs: seq<Option<V>>) | One(v: Option<V>) | Number(n: int) | Errback(e: Error)

  /** Whether the schedule has started statement j, given the statements that have succeeded. */
  predicate Due(j: nat, n: nat, width: nat, done: set<nat>) {
    j < n && (j < width || j - width in done)
  }

  /** The number of replies that are not errors. */
  function Successes<V>(replies: seq<Reply<V>>): nat {
    if |replies| == 0 then 0
    else Successes(replies[..|replies| - 1]) + (if replies[|replies| - 1].Errback? then 0 else 1)
  }

  lemma SuccessesSnoc<V>(replies: seq<Reply<V>>, r: Reply<V>)
    ensures Successes(replies + [r]) == Successes(replies) + (if r.Errback? then 0 else 1)
  {
    assert (replies + [r])[..|replies|] == replies;
  }

  /**
   * The invariant of a window: the started statements are exactly those due,
   * each once; answers come only for started statements, and the deferred
   * has been called back exactly when every statement has succeeded.
   */
  ghost predicate WindowInv<V>(n: nat, width: nat, single: bool, issued: seq<nat>, done: set<nat>, failed: set<nat>,
                               resultCount: nat, results: seq<Option<V>>, replies: seq<Reply<V>>)
  {
    && width >= 1
    && (single ==> n == 1)
    && Distinct(issued)
    && (forall j: nat :: j in issued <==> Due(j, n, width, done))
    && (forall j :: j in done ==> j in issued)
    && (forall j :: j in failed ==> j in issued)
    && done !! failed
    && resultCount == |done|
    && |issued| <= width + resultCount
    && |results| == n
    && Successes(replies) == (if resultCount == n then 1 else 0)
  }

  /** The reply a success of statement i adds, given the results after it and how many have succeeded. */
  function SuccessReplies<V>(single: bool, n: nat, resultCount: nat, v: Option<V>, results: seq<Option<V>>): (rs: seq<Reply<V>>)
    ensures |rs| <= 1 && (forall r :: r in rs ==> !r.Errback?)
    ensures single ==> rs == [One(v)]
    ensures !single ==> (|rs| == 1 <==> resultCount == n)
  {
    if single then [One(v)] else if resultCount == n then [Values(results)] else []
  }

  /** A success of an in-flight statement keeps the window invariant. */
  lemma SuccessKeepsInv<V>(n: nat, width: nat, single: bool, issued: seq<nat>, done: set<nat>, failed: set<nat>,
                           resultCount: nat, results: seq<Option<V>>, replies: seq<Reply<V>>, i: nat, v: Option<V>)
    requires WindowInv(n, width, single, issued, done, failed, resultCount, results, replies)
    requires i in issued && i !in done && i !in failed
    ensures i < n
    ensures var rc := resultCount + 1;
      var rs := results[i := v];
      WindowInv(n, width, single,
        if !single && rc < n && i + width < n then issued + [i + width] else issued,
        done + {i}, failed, rc, rs, replies + SuccessReplies(single, n, rc, v, rs))
  {
    assert i < n by { assert Due(i, n, width, done); }
    forall j | j in done + {i}
      ensures j < n
    {
      assert j in issued && Due(j, n, width, done);
    }
    DoneBound(done + {i}, n);
    DueAfterSuccess(issued, done, i, n, width);
    var rc := resultCount + 1;
    var rs := results[i := v];
    var add := SuccessReplies(single, n, rc, v, rs);
    if |add| == 1 {
      SuccessesSnoc(replies, add[0]);
      assert replies + add == replies + [add[0]];
    } else {
      assert replies + add == replies;
    }
    if !single && rc == n {
      AllDone(done + {i}, n);
      NextAlreadyDone(done, i, n, width);
    }
  }

  /**
   * One fan-out of `n` statements over a window of `width`: statements 0 to
   * width - 1 start at once, and a success at i starts i + width when that
   * is in range and not every statement has succeeded. The deferred is
   * called when the n-th success arrives, with the result of statement i at
   * position i; a single insert reports its one key as soon as it succeeds.
   */
  class Window<V> {
    const n: nat
    const width: nat
    const single: bool
    /** Started statements, in the order they were started. */
    var issued: seq<nat>
    var done: set<nat>
    var failed: set<nat>
    var resultCount: nat
    var results: seq<Option<V>>
    var replies: seq<Reply<V>>

    ghost predicate Valid()
      reads this
    {
      WindowInv(n, width, single, issued, done, failed, resultCount, results, replies)
    }

    /** Statement j has started and has not been answered. */
    predicate InFlight(j: nat)
      reads this
    {
      j in issued && j !in done && j !in failed
    }

    /** Start the fan-out; with no input the deferred gets `[]` at once and nothing is started. */
    constructor (n: nat, width: nat, single: bool)
      requires width >= 1 && (single ==> n == 1)
      ensures Valid()
      ensures this.n == n && this.width == width && this.single == single
      ensures issued == Iota(if n < width then n else width)
      ensures done == {} && failed == {}
      ensures n == 0 ==> replies == [Values([])]
      ensures n > 0 ==> replies == []
    {
      this.n := n;
      this.width := width;
      this.single := single;
      done := {};
      failed := {};
      resultCount := 0;
      results := seq(n, _ => None);
      var started: seq<nat> := [];
      var i := 0;
      while i < width && i < n
        invariant i <= width && i <= n
        invariant started == Iota(i)
      {
        started := started + [i];
        i := i + 1;
      }
      issued := started;
      replies := if n == 0 then [Values([])] else [];
      new;
      forall j: nat
        ensures j in issued <==> Due(j, n, width, {})
      {
        IotaMembers(i, j);
      }
      SuccessesSnoc<V>([], Values([]));
    }

    /** Statement i succeeded with result v. */
    method OnSuccess(i: nat, v: Option<V>)
      requires Valid() && InFlight(i)
      modifies this
      ensures Valid()
      ensures done == old(done) + {i} && failed == old(failed)
      ensures i < n && results == old(results)[i := v]
      ensures single ==> issued == old(issued) && replies == old(replies) + [One(v)]
      ensures !single && resultCount == n ==> issued == old(issued) && replies == old(replies) + [Values(results)]
      ensures !single && resultCount < n ==>
        replies == old(replies) && issued == old(issued) + (if i + width < n then [i + width] else [])
    {
      SuccessKeepsInv(n, width, single, issued, done, failed, resultCount, results, replies, i, v);
      var rc := resultCount + 1;
      var rs := results[i := v];
      if !single && rc < n && i + width < n {
        issued := issued + [i + width];
      }
      replies := replies + SuccessReplies(single, n, rc, v, rs);
      done := done + {i};
      resultCount := rc;
      results := rs;
    }

    /** Statement i failed: the deferred's error branch is called and nothing more is started from i. */
    method OnError(i: nat, e: Error)
      requires Valid() && InFlight(i)
      modifies this
      ensures Valid()
      ensures failed == old(failed) + {i} && done == old(done) && issued == old(issued) && results == old(results)
      ensures replies == old(replies) + [Errback(e)]
    {
      SuccessesSnoc(replies, Errback(e));
      failed := failed + {i};
      replies := replies + [Errback(e)];
    }
  }

  /** 0, 1, ..., k - 1. */
  function Iota(k: nat): (s: seq<nat>)
    ensures |s| == k
    ensures forall j :: 0 <= j < k ==> s[j] == j
    ensures Distinct(s)
  {
    if k == 0 then [] else Iota(k - 1) + [k - 1]
  }

  lemma IotaMembers(k: nat, j: nat)
    ensures j in Iota(k) <==> j < k
  {
    if j < k {
      assert Iota(k)[j] == j;
    }
  }

  /** The indices below n. */
  function Below(n: nat): (s: set<nat>)
    ensures forall j: int :: j in s <==> 0 <= j < n
    ensures |s| == n
  {
    if n == 0 then {} else Below(n - 1) + {n - 1}
  }

  lemma SubsetSize(a: set<nat>, b: set<nat>)
    requires a <= b
    ensures |b - a| == |b| - |a|
  {
    assert b == a + (b - a);
    assert a * (b - a) == {};
  }

  /**
   * A success of statement i makes statement i + width due, and only that
   * one, which had not been started before.
   */
  lemma DueAfterSuccess(issued: seq<nat>, done: set<nat>, i: nat, n: nat, width: nat)
    requires width >= 1
    requires forall j: nat :: j in issued <==> Due(j, n, width, done)
    requires i in issued && i !in done
    ensures forall j: nat :: j in issued + (if i + width < n then [i + width] else []) <==> Due(j, n, width, done + {i})
    ensures i + width < n ==> i + width !in issued
  {
    if i + width < n {
      assert !Due(i + width, n, width, done);
    }
  }

  /** Once every statement has succeeded, the one a window after i has too. */
  lemma NextAlreadyDone(done: set<nat>, i: nat, n: nat, width: nat)
    requires width >= 1
    requires forall j :: 0 <= j < n ==> j in done + {i}
    ensures i + width < n ==> i + width in done
  {
    if i + width < n {
      assert i + width in done + {i};
    }
  }

  /** n distinct indices below n are all of them. */
  lemma AllDone(done: set<nat>, n: nat)
    requires |done| == n
    requires forall j :: j in done ==> j < n
    ensures forall j :: 0 <= j < n ==> j in done
  {
    SubsetSize(done, Below(n));
    assert Below(n) - done == {};
    forall j | 0 <= j < n
      ensures j in done
    {
      assert j in Below(n);
    }
  }

  /** Indices below n number at most n. */
  lemma DoneBound(done: set<nat>, n: nat)
    requires forall j :: j in done ==> j < n
    ensures |done| <= n
  {
    SubsetSize(done, Below(n));
  }

  /** A started statement is due, hence below n. */
  lemma IssuedBelow<V>(w: Window<V>, j: nat)
    requires w.Valid() && j in w.issued
    ensures j < w.n
  {
    assert Due(j, w.n, w.width, w.done);
  }

  /**
   * Once nothing is in flight and nothing failed, every index below n has
   * been started and has succeeded, and the deferred has been called once.
   */
  lemma {:induction false} QuiescentIsComplete<V>(w: Window<V>)
    requires w.Valid() && w.failed == {}
    requires forall j: nat :: !w.InFlight(j)
    ensures forall j: nat :: j < w.n ==> j in w.done && j in w.issued
    ensures w.resultCount == w.n && Successes(w.replies) == 1
  {
    forall j: nat | j < w.n
      ensures j in w.done && j in w.issued
    {
      DoneFrom(w, j);
    }
    forall j | j in w.done
      ensures j < w.n
    {
      IssuedBelow(w, j);
    }
    assert w.done == Below(w.n);
  }

  lemma {:induction false} DoneFrom<V>(w: Window<V>, j: nat)
    requires w.Valid() && w.failed == {}
    requires forall j: nat :: !w.InFlight(j)
    requires j < w.n
    ensures j in w.done && j in w.issued
    decreases j
  {
    if j >= w.width {
      DoneFrom(w, j - w.width);
    }
    assert Due(j, w.n, w.width, w.done);
    assert !w.InFlight(j);
  }

  /** The statements in flight. */
  ghost function InFlightSet<V>(w: Window<V>): set<nat>
    reads w
  {
    set j | j in w.issued && w.InFlight(j)
  }

  /** At most `width` statements are ever in flight. */
  lemma InFlightBounded<V>(w: Window<V>)
    requires w.Valid()
    ensures |InFlightSet(w)| <= w.width
  {
    var started := Elems(w.issued);
    var answered := w.done + w.failed;
    assert InFlightSet(w) == started - answered;
    assert answered <= started;
    SubsetSize(answered, started);
    DistinctCard(w.issued);
    assert |started| <= w.width + |w.done|;
    assert w.done * w.failed == {};
    assert |answered| == |w.done| + |w.failed|;
  }

  /** The elements of a sequence. */
  ghost function Elems(s: seq<nat>): set<nat> {
    set j | j in s
  }

  /** A sequence without repetition has as many elements as its set. */
  lemma {:induction false} DistinctCard(s: seq<nat>)
    requires Distinct(s)
    ensures |Elems(s)| == |s|
  {
    if |s| > 0 {
      var init := s[..|s| - 1];
      var x := s[|s| - 1];
      DistinctInit(s);
      DistinctCard(init);
      assert s == init + [x];
      assert Elems(s) == Elems(init) + {x};
      assert x !in Elems(init);
    } else {
      assert Elems(s) == {};
    }
  }

  /** `insertObjects`: window 2, keys reported in input order; `[]` at once for no objects. */
  method InsertObjects(n: nat, single: bool) returns (w: Window<Key>)
    requires single ==> n == 1
    ensures fresh(w) && w.Valid() && w.width == RW_REQ_PER_TX && w.n == n
    ensures w.issued == Iota(if n < 2 then n else 2)
    ensures n == 0 ==> w.replies == [Values([])]
  {
    w := new Window(n, RW_REQ_PER_TX, single);
  }

  /** `listByIds` and `listByKeys`: window 10, a missing row leaves its position undefined. */
  method ListByIds(n: nat) returns (w: Window<Value>)
    ensures fresh(w) && w.Valid() && w.width == REQ_PER_TX && w.n == n && !w.single
    ensures w.issued == Iota(if n < 10 then n else 10)
    ensures n == 0 ==> w.replies == [Values([])]
  {
    w := new Window(n, REQ_PER_TX, false);
  }

  // ---------------------------------------------------------------------
  // Sequential chains
  // ---------------------------------------------------------------------

  datatype ChainKind = ClearStores | CountStores

  /**
   * `clearByStores` and `countStores`: one statement per store, each started
   * by the success of the one before. Clearing reports the number of stores;
   * counting reports the counts in store order; an empty list reports 0 in
   * both.
   */
  class Chain {
    const kind: ChainKind
    const n: nat
    /** Statements started so far: 0, 1, ..., started - 1. */
    var started: nat
    var succeeded: nat
    var failed: bool
    var counts: seq<int>
    var replies: seq<Reply<int>>

    ghost predicate Valid()
      reads this
    {
      && succeeded <= started <= n
      && (n > 0 ==> started >= 1)
      && (started == succeeded + 1 || (started == succeeded && (succeeded == n || n == 0)) || failed)
      && (failed ==> started == succeeded + 1)
      && |counts| == succeeded
      && (!failed ==> Successes(replies) == (if succeeded == n then 1 else 0) && |replies| == Successes(replies))
    }

    predicate InFlight()
      reads this
    {
      !failed && succeeded < started
    }

    constructor (kind: ChainKind, n: nat)
      ensures Valid() && this.kind == kind && this.n == n && !failed && counts == []
      ensures n == 0 ==> started == 0 && replies == [Number(0)]
      ensures n > 0 ==> started == 1 && replies == []
    {
      this.kind := kind;
      this.n := n;
      succeeded := 0;
      failed := false;
      counts := [];
      started := if n == 0 then 0 else 1;
      replies := if n == 0 then [Number(0)] else [];
      new;
      assert Successes(replies) == (if n == 0 then 1 else 0) by {
        assert n == 0 ==> replies[..0] == [];
      }
    }

    /** The statement for store `succeeded` succeeded, counting c rows. */
    method OnSuccess(c: int)
      requires Valid() && InFlight()
      modifies this
      ensures Valid()
      ensures succeeded == old(succeeded) + 1
      ensures kind == CountStores ==> counts == old(counts) + [c]
      ensures succeeded < n ==> started == succeeded + 1 && replies == old(replies)
      ensures succeeded == n && kind == ClearStores ==> started == n && replies == old(replies) + [Number(n)]
      ensures succeeded == n && kind == CountStores ==> started == n && replies == old(replies) + [Values(Somes(counts))]
    {
      succeeded := succeeded + 1;
      counts := counts + [if kind == CountStores then c else 0];
      if succeeded == n {
        replies := replies + [if kind == ClearStores then Number(n) else Values(Somes(counts))];
        assert replies[..|replies| - 1] == old(replies);
      } else {
        started := started + 1;
      }
    }

    /** The running statement failed: the deferred's error branch is called and the chain stops. */
    method OnError(e: Error)
      requires Valid() && InFlight()
      modifies this
      ensures Valid() && failed && started == old(started) && succeeded == old(succeeded)
      ensures replies == old(replies) + [Errback(e)]
    {
      failed := true;
      replies := replies + [Errback(e)];
    }
  }

  /** Counts as the array the deferred receives. */
  function Somes(cs: seq<int>): (r: seq<Option<int>>)
    ensures |r| == |cs| && forall i :: 0 <= i < |cs| ==> r[i] == Some(cs[i])
  {
    seq(|cs|, i requires 0 <= i < |cs| => Some(cs[i]))
  }

  /** Without failures the chain starts the stores one at a time, in order, and answers once after the last. */
  lemma ChainCompletes(c: Chain)
    requires c.Valid() && !c.failed && !c.InFlight()
    ensures c.succeeded == c.n && c.started == c.n
    ensures Successes(c.replies) == 1 && |c.replies| == 1
  {
  }
}
