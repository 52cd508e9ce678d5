/**
 * Keys and their order, as in section 3.1.3 of the W3C Indexed Database API:
 * numbers < dates < strings < arrays; numbers and dates by value, strings
 * character by character (Dafny characters, that is Unicode scalar values,
 * where the standard compares UTF-16 code units), arrays element by element
 * with a shorter prefix first.
 * The library compares keys with this order (`ydn.db.cmp`, `indexedDB.cmp`);
 * every cursor and scan model compares through `Cmp`.
 */
module Keys {
  import opened Wrappers

  datatype Key = Num(n: int) | Date(t: int) | Str(s: string) | Arr(items: seq<Key>)

  /** Opaque record value (a stored object). */
  datatype Value = Value(id: nat)

  /** A record as a cursor sees it: effective (index) key, primary key, value. */
  datatype Record = Record(key: Key, primary: Key, value: Value)

  /** A JavaScript key argument: `undefined`, `null` or a key. */
  datatype MaybeKey = Undefined | Null | Defined(k: Key) {
    predicate IsDefAndNotNull() { Defined? }

    /** JavaScript truthiness: undefined, null, the number 0 and the empty string are falsy. */
    predicate Truthy() { Defined? && k != Num(0) && k != Str("") }
  }

  /** An IndexedDB key range; an absent bound is unbounded. */
  datatype KeyRange = KeyRange(lower: Option<Key>, upper: Option<Key>, lowerOpen: bool, upperOpen: bool)

  /** How a request retrieves records (`ydn.db.schema.Store.QueryMethod`). */
  datatype QueryMethod = KeysQuery | ValuesQuery | GetQuery | CountQuery

  /** An element of a result array: a key, a record value, or `undefined`. */
  datatype Item = KeyItem(key: Key) | ValueItem(value: Value) | NoItem

  function Rank(k: Key): nat {
    match k
    case Num(_) => 0
    case Date(_) => 1
    case Str(_) => 2
    case Arr(_) => 3
  }

  function CmpInt(a: int, b: int): int {
    if a < b then -1 else if a == b then 0 else 1
  }

  function CmpChars(a: string, b: string): (c: int)
    ensures c == -1 || c == 0 || c == 1
  {
    if |a| == 0 && |b| == 0 then 0
    else if |a| == 0 then -1
    else if |b| == 0 then 1
    else if a[0] < b[0] then -1
    else if a[0] > b[0] then 1
    else CmpChars(a[1..], b[1..])
  }

  /** Three-way comparison of keys: -1, 0 or 1. */
  function Cmp(a: Key, b: Key): (c: int)
    decreases a, 1
    ensures c == -1 || c == 0 || c == 1
  {
    if Rank(a) != Rank(b) then CmpInt(Rank(a), Rank(b))
    else match a
      case Num(x) => CmpInt(x, b.n)
      case Date(x) => CmpInt(x, b.t)
      case Str(x) => CmpChars(x, b.s)
      case Arr(x) => CmpSeq(x, b.items)
  }

  function CmpSeq(a: seq<Key>, b: seq<Key>): (c: int)
    decreases a, 0
    ensures c == -1 || c == 0 || c == 1
  {
    if |a| == 0 && |b| == 0 then 0
    else if |a| == 0 then -1
    else if |b| == 0 then 1
    else
      var h := Cmp(a[0], b[0]);
      if h != 0 then h else CmpSeq(a[1..], b[1..])
  }

  // ---- Cmp is a total order ----

  lemma {:induction false} CharsAntisym(a: string, b: string)
    ensures CmpChars(a, b) == -CmpChars(b, a)
    ensures CmpChars(a, b) == 0 <==> a == b
  {
    if |a| > 0 && |b| > 0 && a[0] == b[0] {
      CharsAntisym(a[1..], b[1..]);
      assert a == [a[0]] + a[1..] && b == [b[0]] + b[1..];
    }
  }

  lemma {:induction false} CharsTrans(a: string, b: string, c: string)
    requires CmpChars(a, b) <= 0 && CmpChars(b, c) <= 0
    ensures CmpChars(a, c) <= 0
    ensures CmpChars(a, b) < 0 || CmpChars(b, c) < 0 ==> CmpChars(a, c) < 0
  {
    CharsAntisym(a, b);
    CharsAntisym(b, c);
    if |a| > 0 && |b| > 0 && |c| > 0 && a[0] == b[0] == c[0] {
      CharsTrans(a[1..], b[1..], c[1..]);
    }
  }

  /** Swapping the arguments negates the comparison; 0 means equal keys. */
  lemma {:induction false} CmpAntisym(a: Key, b: Key)
    decreases a, 1
    ensures Cmp(a, b) == -Cmp(b, a)
    ensures Cmp(a, b) == 0 <==> a == b
  {
    if Rank(a) == Rank(b) {
      match a
      case Num(_) =>
      case Date(_) =>
      case Str(x) => CharsAntisym(x, b.s);
      case Arr(x) => SeqAntisym(x, b.items);
    }
  }

  lemma {:induction false} SeqAntisym(a: seq<Key>, b: seq<Key>)
    decreases a, 0
    ensures CmpSeq(a, b) == -CmpSeq(b, a)
    ensures CmpSeq(a, b) == 0 <==> a == b
  {
    if |a| > 0 && |b| > 0 {
      CmpAntisym(a[0], b[0]);
      SeqAntisym(a[1..], b[1..]);
      assert a == [a[0]] + a[1..] && b == [b[0]] + b[1..];
    }
  }

  /** The order is transitive, and strictly so when either step is strict. */
  lemma {:induction false} CmpTrans(a: Key, b: Key, c: Key)
    decreases a, 1
    requires Cmp(a, b) <= 0 && Cmp(b, c) <= 0
    ensures Cmp(a, c) <= 0
    ensures Cmp(a, b) < 0 || Cmp(b, c) < 0 ==> Cmp(a, c) < 0
  {
    CmpAntisym(a, b);
    CmpAntisym(b, c);
    if Rank(a) == Rank(b) == Rank(c) {
      match a
      case Num(_) =>
      case Date(_) =>
      case Str(x) => CharsTrans(x, b.s, c.s);
      case Arr(x) => SeqTrans(x, b.items, c.items);
    }
  }

  lemma {:induction false} SeqTrans(a: seq<Key>, b: seq<Key>, c: seq<Key>)
    decreases a, 0
    requires CmpSeq(a, b) <= 0 && CmpSeq(b, c) <= 0
    ensures CmpSeq(a, c) <= 0
    ensures CmpSeq(a, b) < 0 || CmpSeq(b, c) < 0 ==> CmpSeq(a, c) < 0
  {
    SeqAntisym(a, b);
    SeqAntisym(b, c);
    if |a| > 0 && |b| > 0 && |c| > 0 {
      CmpAntisym(a[0], b[0]);
      CmpAntisym(b[0], c[0]);
      if Cmp(a[0], b[0]) == 0 && Cmp(b[0], c[0]) == 0 {
        SeqTrans(a[1..], b[1..], c[1..]);
      } else {
        CmpTrans(a[0], b[0], c[0]);
      }
    }
  }

  // ---- records in cursor order ----

  /** +1 for a forward cursor, -1 for a reverse one. */
  function Sign(reverse: bool): int {
    if reverse then -1 else 1
  }

  /** Order of records: by effective key, then by primary key. */
  function RecCmp(a: Record, b: Record): (c: int)
    ensures c == -1 || c == 0 || c == 1
  {
    var k := Cmp(a.key, b.key);
    if k != 0 then k else Cmp(a.primary, b.primary)
  }

  /** Records in the order a cursor of the given direction visits them, without repeated positions. */
  ghost predicate InCursorOrder(recs: seq<Record>, reverse: bool) {
    forall i, j :: 0 <= i < j < |recs| ==> RecCmp(recs[i], recs[j]) == -Sign(reverse)
  }

  /** Comparison in the direction of travel: 1 when `a` lies beyond `b`. */
  function DirCmp(a: Key, b: Key, reverse: bool): (c: int)
    ensures c == -1 || c == 0 || c == 1
  {
    if reverse then -Cmp(a, b) else Cmp(a, b)
  }

  /** Along a cursor, effective keys never go backwards. */
  lemma KeysMonotone(recs: seq<Record>, reverse: bool, i: nat, j: nat)
    requires InCursorOrder(recs, reverse)
    requires i <= j < |recs|
    ensures DirCmp(recs[i].key, recs[j].key, reverse) <= 0
  {
    CmpAntisym(recs[i].key, recs[j].key);
  }

  // ---- key ranges and backend movement ----

  /** Key `k` lies in `r` (section 3.1.4 of the W3C Indexed Database API). */
  predicate InRange(k: Key, r: KeyRange) {
    (r.lower.None? || (if r.lowerOpen then Cmp(k, r.lower.value) == 1 else Cmp(k, r.lower.value) >= 0))
    && (r.upper.None? || (if r.upperOpen then Cmp(k, r.upper.value) == -1 else Cmp(k, r.upper.value) <= 0))
  }

  /** No range (null) admits every key. */
  predicate InOptRange(k: Key, r: Option<KeyRange>) {
    r.None? || InRange(k, r.value)
  }

  /** The records a cursor opened on `range` walks, in the order of `recs`. */
  function Select(recs: seq<Record>, range: Option<KeyRange>): (s: seq<Record>)
    ensures |s| <= |recs|
    ensures forall r :: r in s <==> r in recs && InOptRange(r.key, range)
  {
    if |recs| == 0 then []
    else (if InOptRange(recs[0].key, range) then [recs[0]] else []) + Select(recs[1..], range)
  }

  /** The tail of a cursor-ordered walk is cursor-ordered. */
  lemma TailInCursorOrder(recs: seq<Record>, reverse: bool)
    requires |recs| > 0 && InCursorOrder(recs, reverse)
    ensures InCursorOrder(recs[1..], reverse)
  {
    var tail := recs[1..];
    forall i, j | 0 <= i < j < |tail|
      ensures RecCmp(tail[i], tail[j]) == -Sign(reverse)
    {
      assert tail[i] == recs[i + 1] && tail[j] == recs[j + 1];
    }
  }

  /** A record that precedes every record of a cursor-ordered walk can be put in front of it. */
  lemma ConsInCursorOrder(x: Record, rest: seq<Record>, reverse: bool)
    requires InCursorOrder(rest, reverse)
    requires forall r :: r in rest ==> RecCmp(x, r) == -Sign(reverse)
    ensures InCursorOrder([x] + rest, reverse)
  {
    var s := [x] + rest;
    forall i, j | 0 <= i < j < |s|
      ensures RecCmp(s[i], s[j]) == -Sign(reverse)
    {
      assert s[j] == rest[j - 1] && s[j] in rest;
      if i > 0 {
        assert s[i] == rest[i - 1];
      }
    }
  }

  /** Restricting a walk to a range keeps cursor order. */
  lemma {:induction false} SelectInCursorOrder(recs: seq<Record>, range: Option<KeyRange>, reverse: bool)
    requires InCursorOrder(recs, reverse)
    ensures InCursorOrder(Select(recs, range), reverse)
  {
    if |recs| > 0 {
      var tail := recs[1..];
      TailInCursorOrder(recs, reverse);
      SelectInCursorOrder(tail, range, reverse);
      var rest := Select(tail, range);
      if InOptRange(recs[0].key, range) {
        forall r | r in rest
          ensures RecCmp(recs[0], r) == -Sign(reverse)
        {
          var m :| 0 <= m < |tail| && tail[m] == r;
          assert recs[m + 1] == r;
        }
        ConsInCursorOrder(recs[0], rest, reverse);
      }
    }
  }

  /**
   * Backend `continue(key)` from position `from` of a walk: the first record
   * whose key is not before `key` in the direction of travel, or the end.
   */
  function SeekKey(recs: seq<Record>, from: nat, key: Key, reverse: bool): (q: nat)
    requires from <= |recs|
    decreases |recs| - from
    ensures from <= q <= |recs|
    ensures forall i :: from <= i < q ==> DirCmp(recs[i].key, key, reverse) < 0
    ensures q < |recs| ==> DirCmp(recs[q].key, key, reverse) >= 0
  {
    if from == |recs| then from
    else if DirCmp(recs[from].key, key, reverse) >= 0 then from
    else SeekKey(recs, from + 1, key, reverse)
  }

  /**
   * A record lies beyond the resume point (key, primary key): its key is past
   * the key, or it is at the key and its primary key is past the primary key.
   * With no primary key, no record at the key is beyond.
   */
  predicate Beyond(r: Record, key: Key, primary: MaybeKey, reverse: bool) {
    DirCmp(r.key, key, reverse) == 1
    || (Cmp(r.key, key) == 0 && primary.Defined? && DirCmp(r.primary, primary.k, reverse) == 1)
  }
}
