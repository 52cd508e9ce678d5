/**
 * Lists without repetition, in order of first appearance. The library builds
 * such lists of store names with `if (!contains(list, x)) list.push(x)` loops
 * (iterator stores, scan scopes, key-list store names); `Dedup` is the
 * specification those loops are proved against.
 */
module Collections {

  /** `s` with every element after its first occurrence removed. */
  function Dedup<T(==)>(s: seq<T>): seq<T>
  {
    if |s| == 0 then [] else AddNew(Dedup(s[..|s| - 1]), s[|s| - 1])
  }

  /** One step of the push loop. */
  function AddNew<T(==)>(acc: seq<T>, x: T): (r: seq<T>)
  {
    if x in acc then acc else acc + [x]
  }

  predicate Distinct<T(==)>(s: seq<T>) {
    forall i, j :: 0 <= i < j < |s| ==> s[i] != s[j]
  }

  /** Each element appears once, and exactly the elements of `s` appear. */
  lemma {:induction false} DedupSpec<T>(s: seq<T>)
    ensures Distinct(Dedup(s))
    ensures forall x :: x in Dedup(s) <==> x in s
  {
    if |s| > 0 {
      var init := s[..|s| - 1];
      DedupSpec(init);
      assert s == init + [s[|s| - 1]];
    }
  }

  /** First-seen order: the deduplicated prefix is a prefix of the deduplicated whole. */
  lemma {:induction false} DedupPrefix<T>(s: seq<T>, k: nat)
    requires k <= |s|
    ensures Dedup(s[..k]) <= Dedup(s)
  {
    if k < |s| {
      var init := s[..|s| - 1];
      assert init[..k] == s[..k];
      DedupPrefix(init, k);
    } else {
      assert s[..k] == s;
    }
  }

  /** The first element of a non-empty list is the first of its deduplication. */
  lemma DedupHead<T>(s: seq<T>)
    requires |s| > 0
    ensures |Dedup(s)| > 0 && Dedup(s)[0] == s[0]
  {
    DedupPrefix(s, 1);
    assert Dedup(s[..1]) == [s[0]] by {
      assert s[..1][..0] == [];
    }
  }

  /** A list that is already free of repetition is left as it is. */
  lemma {:induction false} DedupDistinct<T>(s: seq<T>)
    requires Distinct(s)
    ensures Dedup(s) == s
  {
    if |s| > 0 {
      DistinctInit(s);
      DedupDistinct(s[..|s| - 1]);
      DedupSnoc(s);
    }
  }

  lemma {:induction false} DistinctInit<T>(s: seq<T>)
    requires Distinct(s) && |s| > 0
    ensures Distinct(s[..|s| - 1])
    ensures s[|s| - 1] !in s[..|s| - 1]
  {
  }

  lemma {:induction false} DedupSnoc<T>(s: seq<T>)
    requires |s| > 0
    requires Dedup(s[..|s| - 1]) == s[..|s| - 1]
    requires s[|s| - 1] !in s[..|s| - 1]
    ensures Dedup(s) == s
  {
    var init, x := s[..|s| - 1], s[|s| - 1];
    assert Dedup(s) == AddNew(init, x) == init + [x];
    assert s == init + [x];
  }

  /** One more push: deduplicating `s + [x]` adds `x` unless it was already there. */
  lemma {:induction false} DedupAppend<T>(s: seq<T>, x: T)
    ensures Dedup(s + [x]) == AddNew(Dedup(s), x)
  {
    assert (s + [x])[..|s|] == s;
  }
}
