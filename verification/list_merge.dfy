/** Package update: merging a list of keyed entries into another one. An entry with a new key is appended; otherwise
    it is combined with the first entry that has its key. */
module ListMerge {
  import opened Wrappers

  /** A variable that holds a list and is updated through a pointer. */
  class Slice<T> {
    var items: seq<T>

    constructor (items: seq<T>)
      ensures this.items == items
    {
      this.items := items;
    }
  }

  ghost predicate KeepsKeys<T(!new), K>(key: T -> K, combine: (T, T) -> T)
  {
    forall d: T, x: T :: key(combine(d, x)) == key(x)
  }

  /** The first position of a key, or the length of the list. */
  function IndexOf<T, K(==)>(list: seq<T>, k: K, key: T -> K): (i: nat)
    ensures i <= |list|
    ensures forall j | 0 <= j < i :: key(list[j]) != k
    ensures i < |list| ==> key(list[i]) == k
  {
    if list == [] then 0 else if key(list[0]) == k then 0 else 1 + IndexOf(list[1..], k, key)
  }

  function MergeOne<T, K(==)>(list: seq<T>, x: T, key: T -> K, combine: (T, T) -> T): seq<T>
  {
    var i := IndexOf(list, key(x), key);
    if i < |list| then list[i := combine(list[i], x)] else list + [x]
  }

  function Merge<T, K(==)>(dst: seq<T>, src: seq<T>, key: T -> K, combine: (T, T) -> T): seq<T>
  {
    if src == [] then dst
    else MergeOne(Merge(dst, src[..|src| - 1], key, combine), src[|src| - 1], key, combine)
  }

  function Overwrite<T>(d: T, x: T): T
  {
    x
  }

  /** The search of the inner loops. */
  method Find<T, K(==)>(list: seq<T>, k: K, key: T -> K) returns (i: nat)
    ensures i == IndexOf(list, k, key)
  {
    i := 0;
    while i < |list|
      invariant i <= |list|
      invariant forall j | 0 <= j < i :: key(list[j]) != k
    {
      if key(list[i]) == k {
        return;
      }
      i := i + 1;
    }
  }

  /** Env, Volumes and VolumeMounts: entries with a known key are overwritten in place. */
  method UpdateList<T, K(==)>(dst: Slice<T>, src: seq<T>, key: T -> K)
    modifies dst
    ensures dst.items == Merge(old(dst.items), src, key, Overwrite)
  {
    for n := 0 to |src|
      invariant dst.items == Merge(old(dst.items), src[..n], key, Overwrite)
    {
      assert src[..n + 1][..n] == src[..n];
      var i := Find(dst.items, key(src[n]), key);
      if i < |dst.items| {
        dst.items := dst.items[i := src[n]];
      } else {
        dst.items := dst.items + [src[n]];
      }
    }
    assert src[..|src|] == src;
  }

  // ------------------------------------------------------------ what is found under a key

  ghost function Lookup<T, K>(list: seq<T>, k: K, key: T -> K): Option<T>
  {
    var i := IndexOf(list, k, key);
    if i < |list| then Some(list[i]) else None
  }

  ghost function Step<T>(o: Option<T>, x: T, combine: (T, T) -> T): Option<T>
  {
    match o
    case None => Some(x)
    case Some(d) => Some(combine(d, x))
  }

  /** What the entries of one key make, one after the other, of what was there before. */
  ghost function Fold<T, K>(o: Option<T>, src: seq<T>, k: K, key: T -> K, combine: (T, T) -> T): Option<T>
  {
    if src == [] then o
    else
      var before := Fold(o, src[..|src| - 1], k, key, combine);
      var x := src[|src| - 1];
      if key(x) == k then Step(before, x, combine) else before
  }

  lemma FirstIsIndex<T, K>(list: seq<T>, k: K, key: T -> K, i: nat)
    requires i < |list| && key(list[i]) == k && forall j | 0 <= j < i :: key(list[j]) != k
    ensures IndexOf(list, k, key) == i
  {
  }

  lemma MergeOneKeys<T(!new), K>(list: seq<T>, x: T, key: T -> K, combine: (T, T) -> T)
    requires KeepsKeys(key, combine)
    ensures var after := MergeOne(list, x, key, combine);
            && |list| <= |after| && IndexOf(after, key(x), key) < |after|
            && (forall j | 0 <= j < |list| :: key(after[j]) == key(list[j]))
            && (forall j | 0 <= j < |list| && j != IndexOf(list, key(x), key) :: after[j] == list[j])
            && (IndexOf(list, key(x), key) < |list| ==> |after| == |list|)
  {
    var after := MergeOne(list, x, key, combine);
    var i := IndexOf(list, key(x), key);
    assert key(after[i]) == key(x);
  }

  lemma MergeOneLookup<T(!new), K>(list: seq<T>, x: T, k: K, key: T -> K, combine: (T, T) -> T)
    requires KeepsKeys(key, combine)
    ensures Lookup(MergeOne(list, x, key, combine), k, key)
         == if key(x) == k then Step(Lookup(list, k, key), x, combine) else Lookup(list, k, key)
  {
    var after := MergeOne(list, x, key, combine);
    MergeOneKeys(list, x, key, combine);
    var i := IndexOf(list, k, key);
    if i < |list| {
      FirstIsIndex(after, k, key, i);
    } else if key(x) == k {
      FirstIsIndex(after, k, key, i);
    }
  }

  lemma {:induction false} MergeLookup<T(!new), K>(dst: seq<T>, src: seq<T>, k: K, key: T -> K, combine: (T, T) -> T)
    requires KeepsKeys(key, combine)
    ensures Lookup(Merge(dst, src, key, combine), k, key) == Fold(Lookup(dst, k, key), src, k, key, combine)
  {
    if src != [] {
      var front, x := src[..|src| - 1], src[|src| - 1];
      MergeLookup(dst, front, k, key, combine);
      MergeOneLookup(Merge(dst, front, key, combine), x, k, key, combine);
    }
  }

  // ------------------------------------------------------------ what stays in place

  /** Positions and keys are kept; what is not the first of its key, or has a key that `src` does not have, is kept
      as it is. */
  lemma {:induction false} MergeKeeps<T(!new), K>(dst: seq<T>, src: seq<T>, key: T -> K, combine: (T, T) -> T)
    requires KeepsKeys(key, combine)
    ensures var r := Merge(dst, src, key, combine);
            && |dst| <= |r|
            && (forall i | 0 <= i < |dst| :: key(r[i]) == key(dst[i]))
            && (forall i | 0 <= i < |dst| && (i != IndexOf(dst, key(dst[i]), key) || !HasKey(src, key(dst[i]), key)) ::
                  r[i] == dst[i])
  {
    if src != [] {
      var front, x := src[..|src| - 1], src[|src| - 1];
      assert src == front + [x];
      MergeKeeps(dst, front, key, combine);
      var before, r := Merge(dst, front, key, combine), Merge(dst, src, key, combine);
      MergeOneKeys(before, x, key, combine);
      forall i | 0 <= i < |dst| && (i != IndexOf(dst, key(dst[i]), key) || !HasKey(src, key(dst[i]), key))
        ensures r[i] == dst[i]
      {
        HasKeyOneMore(front, x, key(dst[i]), key);
        assert i != IndexOf(before, key(x), key);
      }
    }
  }

  ghost predicate HasKey<T, K>(list: seq<T>, k: K, key: T -> K)
  {
    exists i :: 0 <= i < |list| && key(list[i]) == k
  }

  lemma HasKeyOneMore<T, K>(list: seq<T>, x: T, k: K, key: T -> K)
    ensures HasKey(list + [x], k, key) <==> HasKey(list, k, key) || key(x) == k
  {
    var after := list + [x];
    if HasKey(list, k, key) {
      var i :| 0 <= i < |list| && key(list[i]) == k;
      assert key(after[i]) == k;
    } else if key(x) == k {
      assert key(after[|list|]) == k;
    }
  }

  /** What is added at the end has keys of `src`. */
  lemma {:induction false} MergeAdds<T(!new), K>(dst: seq<T>, src: seq<T>, key: T -> K, combine: (T, T) -> T)
    requires KeepsKeys(key, combine)
    ensures var r := Merge(dst, src, key, combine);
            |dst| <= |r| && forall i | |dst| <= i < |r| :: HasKey(src, key(r[i]), key)
  {
    if src != [] {
      var front, x := src[..|src| - 1], src[|src| - 1];
      assert src == front + [x];
      MergeAdds(dst, front, key, combine);
      var before, r := Merge(dst, front, key, combine), Merge(dst, src, key, combine);
      MergeOneKeys(before, x, key, combine);
      forall i | |dst| <= i < |r|
        ensures HasKey(src, key(r[i]), key)
      {
        HasKeyOneMore(front, x, key(r[i]), key);
        assert i < |before| ==> key(r[i]) == key(before[i]);
      }
    }
  }

  /** Merging entries whose keys are all there appends nothing. */
  lemma {:induction false} MergeOfKnown<T(!new), K>(dst: seq<T>, src: seq<T>, key: T -> K, combine: (T, T) -> T)
    requires KeepsKeys(key, combine)
    requires forall i | 0 <= i < |src| :: HasKey(dst, key(src[i]), key)
    ensures |Merge(dst, src, key, combine)| == |dst|
  {
    if src != [] {
      var front, x := src[..|src| - 1], src[|src| - 1];
      MergeOfKnown(dst, front, key, combine);
      MergeKeeps(dst, front, key, combine);
      var before := Merge(dst, front, key, combine);
      var i :| 0 <= i < |dst| && key(dst[i]) == key(x);
      assert key(before[i]) == key(x);
      MergeOneKeys(before, x, key, combine);
    }
  }

  lemma {:induction false} MergeHasKeys<T(!new), K>(dst: seq<T>, src: seq<T>, key: T -> K, combine: (T, T) -> T)
    requires KeepsKeys(key, combine)
    ensures forall i | 0 <= i < |src| :: HasKey(Merge(dst, src, key, combine), key(src[i]), key)
  {
    if src != [] {
      var front, x := src[..|src| - 1], src[|src| - 1];
      MergeHasKeys(dst, front, key, combine);
      var before, r := Merge(dst, front, key, combine), Merge(dst, src, key, combine);
      MergeOneKeys(before, x, key, combine);
      forall i | 0 <= i < |src|
        ensures HasKey(r, key(src[i]), key)
      {
        if i < |front| {
          assert HasKey(before, key(front[i]), key);
          var j :| 0 <= j < |before| && key(before[j]) == key(src[i]);
          assert key(r[j]) == key(src[i]);
        } else {
          assert key(r[IndexOf(r, key(x), key)]) == key(x);
        }
      }
    }
  }

  // ------------------------------------------------------------ idempotence

  /** Merging twice is merging once if that is so for what is found under each key. */
  lemma MergeTwice<T(!new), K(!new)>(dst: seq<T>, src: seq<T>, key: T -> K, combine: (T, T) -> T)
    requires KeepsKeys(key, combine)
    requires forall k: K :: FoldsOnce(Lookup(dst, k, key), src, k, key, combine)
    ensures Merge(Merge(dst, src, key, combine), src, key, combine) == Merge(dst, src, key, combine)
  {
    var once := Merge(dst, src, key, combine);
    var twice := Merge(once, src, key, combine);
    MergeHasKeys(dst, src, key, combine);
    MergeOfKnown(once, src, key, combine);
    MergeKeeps(once, src, key, combine);
    forall i | 0 <= i < |once|
      ensures twice[i] == once[i]
    {
      var k := key(once[i]);
      if i == IndexOf(once, k, key) {
        FirstIsIndex(twice, k, key, i);
        MergeLookup(dst, src, k, key, combine);
        MergeLookup(once, src, k, key, combine);
        assert FoldsOnce(Lookup(dst, k, key), src, k, key, combine);
        assert Lookup(twice, k, key) == Lookup(once, k, key);
      }
    }
  }

  ghost predicate FoldsOnce<T, K>(o: Option<T>, src: seq<T>, k: K, key: T -> K, combine: (T, T) -> T)
  {
    Fold(Fold(o, src, k, key, combine), src, k, key, combine) == Fold(o, src, k, key, combine)
  }

  /** Overwriting leaves the last entry of a key, whatever was there before. */
  lemma {:induction false} LastWins<T(!new), K>(o: Option<T>, src: seq<T>, k: K, key: T -> K)
    ensures Fold(o, src, k, key, Overwrite)
         == if HasKey(src, k, key) then Some(LastOf(src, k, key)) else o
  {
    if src != [] {
      var front, x := src[..|src| - 1], src[|src| - 1];
      assert src == front + [x];
      LastWins(o, front, k, key);
      HasKeyOneMore(front, x, k, key);
    }
  }

  ghost function LastOf<T, K>(src: seq<T>, k: K, key: T -> K): T
    requires HasKey(src, k, key)
  {
    var i := LastIndex(src, k, key);
    src[i]
  }

  ghost function LastIndex<T, K>(src: seq<T>, k: K, key: T -> K): (i: nat)
    requires HasKey(src, k, key)
    ensures i < |src| && key(src[i]) == k
    ensures forall j | i < j < |src| :: key(src[j]) != k
  {
    if key(src[|src| - 1]) == k then |src| - 1
    else
      assert HasKey(src[..|src| - 1], k, key) by {
        var i :| 0 <= i < |src| && key(src[i]) == k;
        assert key(src[..|src| - 1][i]) == k;
      }
      LastIndex(src[..|src| - 1], k, key)
  }

  /** Env, Volumes and VolumeMounts are idempotent, even if keys occur more than once. */
  lemma UpdateListIdempotent<T(!new), K(!new)>(dst: seq<T>, src: seq<T>, key: T -> K)
    ensures Merge(Merge(dst, src, key, Overwrite), src, key, Overwrite) == Merge(dst, src, key, Overwrite)
  {
    forall k: K
      ensures FoldsOnce(Lookup(dst, k, key), src, k, key, Overwrite)
    {
      var o := Lookup(dst, k, key);
      LastWins(o, src, k, key);
      LastWins(Fold(o, src, k, key, Overwrite), src, k, key);
    }
    MergeTwice(dst, src, key, Overwrite);
  }

  /** Afterwards, the last entry that `src` has for a key is found under it; other keys are as before. */
  lemma UpdateListMeaning<T(!new), K>(dst: seq<T>, src: seq<T>, k: K, key: T -> K)
    ensures Lookup(Merge(dst, src, key, Overwrite), k, key)
         == if HasKey(src, k, key) then Some(LastOf(src, k, key)) else Lookup(dst, k, key)
  {
    MergeLookup(dst, src, k, key, Overwrite);
    LastWins(Lookup(dst, k, key), src, k, key);
  }

  lemma {:induction false} MergeConcat<T, K>(dst: seq<T>, a: seq<T>, b: seq<T>, key: T -> K, combine: (T, T) -> T)
    ensures Merge(dst, a + b, key, combine) == Merge(Merge(dst, a, key, combine), b, key, combine)
  {
    if b == [] {
      assert a + b == a;
    } else {
      assert (a + b)[..|a + b| - 1] == a + b[..|b| - 1];
      MergeConcat(dst, a, b[..|b| - 1], key, combine);
    }
  }

  // ------------------------------------------------------------ merging a list that was not merged itself

  lemma LastIsIndex<T, K>(list: seq<T>, k: K, key: T -> K, i: nat)
    requires i < |list| && key(list[i]) == k && forall j | i < j < |list| :: key(list[j]) != k
    ensures HasKey(list, k, key) && LastIndex(list, k, key) == i
  {
  }

  lemma LastOfConcat<T, K>(a: seq<T>, b: seq<T>, k: K, key: T -> K)
    ensures HasKey(a + b, k, key) <==> HasKey(a, k, key) || HasKey(b, k, key)
    ensures HasKey(b, k, key) ==> LastOf(a + b, k, key) == LastOf(b, k, key)
    ensures HasKey(a, k, key) && !HasKey(b, k, key) ==> LastOf(a + b, k, key) == LastOf(a, k, key)
  {
    var both := a + b;
    if HasKey(b, k, key) {
      var i := LastIndex(b, k, key);
      assert both[|a| + i] == b[i];
      forall j | |a| + i < j < |both|
        ensures key(both[j]) != k
      {
        assert both[j] == b[j - |a|];
      }
      LastIsIndex(both, k, key, |a| + i);
    } else if HasKey(a, k, key) {
      var i := LastIndex(a, k, key);
      forall j | i < j < |both|
        ensures key(both[j]) != k
      {
        assert both[j] == if j < |a| then a[j] else b[j - |a|];
      }
      LastIsIndex(both, k, key, i);
    }
  }

  /** Where nothing later has the key, the first and the last entry of the list agree. */
  ghost predicate FirstIsLast<T, K(!new)>(list: seq<T>, later: seq<T>, key: T -> K)
  {
    forall k: K | HasKey(list, k, key) && !HasKey(later, k, key) :: Lookup(list, k, key) == Some(LastOf(list, k, key))
  }

  lemma UniqueKeysSuffice<T, K(!new)>(list: seq<T>, later: seq<T>, key: T -> K)
    requires forall i, j | 0 <= i < j < |list| :: key(list[i]) != key(list[j])
    ensures FirstIsLast(list, later, key)
  {
    forall k: K | HasKey(list, k, key)
      ensures Lookup(list, k, key) == Some(LastOf(list, k, key))
    {
      var i := LastIndex(list, k, key);
      FirstIsIndex(list, k, key, i);
    }
  }

  /** `later` was merged into `list`. Merging `list` and `later` into the result changes nothing exactly if, for every
      key that `later` does not have, the first and the last entry of `list` agree. */
  lemma RemergeExactly<T(!new), K(!new)>(list: seq<T>, later: seq<T>, key: T -> K)
    ensures var r := Merge(list, later, key, Overwrite);
            Merge(r, list + later, key, Overwrite) == r <==> FirstIsLast(list, later, key)
  {
    var src := list + later;
    var r := Merge(list, later, key, Overwrite);
    var again := Merge(r, src, key, Overwrite);
    MergeKeeps(list, later, key, Overwrite);
    MergeHasKeys(list, later, key, Overwrite);
    forall i | 0 <= i < |src|
      ensures HasKey(r, key(src[i]), key)
    {
      if i < |list| {
        assert key(r[i]) == key(src[i]);
      } else {
        assert src[i] == later[i - |list|];
      }
    }
    MergeOfKnown(r, src, key, Overwrite);
    MergeKeeps(r, src, key, Overwrite);
    forall k: K
      ensures Lookup(again, k, key) == Lookup(r, k, key)
         <==> (HasKey(list, k, key) && !HasKey(later, k, key) ==> Lookup(list, k, key) == Some(LastOf(list, k, key)))
    {
      UpdateListMeaning(list, later, k, key);
      UpdateListMeaning(r, src, k, key);
      LastOfConcat(list, later, k, key);
    }
    SameExactly(r, again, key);
  }

  /** Lists that agree except perhaps in the first entries of their keys. */
  lemma SameExactly<T, K(!new)>(a: seq<T>, b: seq<T>, key: T -> K)
    requires |a| == |b| && forall i | 0 <= i < |a| :: key(a[i]) == key(b[i])
    requires forall i | 0 <= i < |a| && i != IndexOf(a, key(a[i]), key) :: a[i] == b[i]
    ensures a == b <==> forall k: K :: Lookup(a, k, key) == Lookup(b, k, key)
  {
    if forall k: K :: Lookup(a, k, key) == Lookup(b, k, key) {
      forall i | 0 <= i < |a|
        ensures a[i] == b[i]
      {
        if i == IndexOf(a, key(a[i]), key) {
          FirstIsIndex(b, key(a[i]), key, i);
          assert Lookup(a, key(a[i]), key) == Lookup(b, key(a[i]), key);
        }
      }
    }
  }
}
