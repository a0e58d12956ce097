/** Package reconciler: a set of objects of one kind, of which only the listed keys are desired. */
module ObjectSet {
  import opened Reconciler
  import opened Wrappers

  type Key(==, !new)

  ghost function Lookup(objects: map<Key, Obj>, key: Key): Option<Obj>
  {
    if key in objects then Some(objects[key]) else None
  }

  /** The object after one error-free call with up-to-date reads. */
  ghost function Settled(st: Option<Obj>, wanted: bool, s: Strategy): Option<Obj>
  {
    ApplyWrites(st, Decide(st, wanted, s).0)
  }

  ghost function SettledTimes(st: Option<Obj>, s: Strategy, n: nat): Option<Obj>
  {
    if n == 0 then st else Settled(SettledTimes(st, s, n - 1), true, s)
  }

  ghost predicate Matches(objects: map<Key, Obj>, k: Key)
  {
    k in objects && objects[k].labelsMatch
  }

  /** The object after one call of which the server accepts the first `n` writes. */
  ghost function Partly(st: Option<Obj>, wanted: bool, s: Strategy, n: nat): Option<Obj>
  {
    ApplyWrites(st, Prefix(Decide(st, wanted, s).0, n))
  }

  /** The object `k` after all desired keys were tried in order; `accepts` bounds the accepted writes of each call. */
  ghost function Tried(st: Option<Obj>, k: Key, keys: seq<Key>, s: Strategy, accepts: nat -> nat): Option<Obj>
  {
    if keys == [] then st
    else
      var before := Tried(st, k, keys[..|keys| - 1], s, accepts);
      if keys[|keys| - 1] == k then Partly(before, true, s, accepts(|keys| - 1)) else before
  }

  /** Each desired key is reconciled as often as it is listed, each unwanted object that matches the selector
      is turned down, and nothing else is touched. */
  ghost predicate SetReconciled(before: map<Key, Obj>, after: map<Key, Obj>, keys: seq<Key>, strategy: Key -> Strategy)
  {
    && (forall k | k in keys ::
          Lookup(after, k) == SettledTimes(Lookup(before, k), strategy(k), multiset(keys)[k]))
    && (forall k | k !in keys ::
          Lookup(after, k) == if Matches(before, k) then Settled(Lookup(before, k), false, strategy(k))
                              else Lookup(before, k))
  }

  /** The same, if the server may refuse writes: it accepts at most `desired(i)` writes of the call for the i-th
      desired key, and at most `unwanted(k)` of the call for the unwanted key `k`. */
  ghost predicate SetTried(before: map<Key, Obj>, after: map<Key, Obj>, keys: seq<Key>, strategy: Key -> Strategy,
                           desired: nat -> nat, unwanted: Key -> nat)
  {
    && (forall k | k in keys :: Lookup(after, k) == Tried(Lookup(before, k), k, keys, strategy(k), desired))
    && (forall k | k !in keys ::
          Lookup(after, k) == if Matches(before, k) then Partly(Lookup(before, k), false, strategy(k), unwanted(k))
                              else Lookup(before, k))
  }

  lemma {:induction false} TriedUnlisted(st: Option<Obj>, k: Key, keys: seq<Key>, s: Strategy, accepts: nat -> nat)
    requires k !in keys
    ensures Tried(st, k, keys, s, accepts) == st
  {
    if keys != [] {
      TriedUnlisted(st, k, keys[..|keys| - 1], s, accepts);
    }
  }

  lemma AllAccepted(st: Option<Obj>, wanted: bool, s: Strategy, n: nat)
    requires n >= |Decide(st, wanted, s).0|
    ensures Partly(st, wanted, s, n) == Settled(st, wanted, s)
  {
    assert Prefix(Decide(st, wanted, s).0, n) == Decide(st, wanted, s).0;
  }

  /** Only the object `key` may have changed; it is `st` now. */
  ghost predicate Replaced(before: map<Key, Obj>, after: map<Key, Obj>, key: Key, st: Option<Obj>)
  {
    forall k :: Lookup(after, k) == if k == key then st else Lookup(before, k)
  }

  /** The log has grown, by writes for the object `key`. */
  ghost predicate WroteOnly(before: seq<(Key, Write)>, log: seq<(Key, Write)>, key: Key)
  {
    before <= log && forall i | |before| <= i < |log| :: log[i].0 == key
  }

  /** The log has grown, by writes for keys of which `desired` says whether they are desired. */
  ghost predicate LogGrew(before: seq<(Key, Write)>, log: seq<(Key, Write)>, keys: seq<Key>, desired: bool)
  {
    before <= log && forall i | |before| <= i < |log| :: (log[i].0 in keys) == desired
  }

  lemma LogGrowsOn(before: seq<(Key, Write)>, mid: seq<(Key, Write)>, log: seq<(Key, Write)>, keys: seq<Key>,
                   desired: bool, key: Key)
    requires LogGrew(before, mid, keys, desired) && WroteOnly(mid, log, key) && (key in keys) == desired
    ensures LogGrew(before, log, keys, desired)
  {
    forall i | |before| <= i < |log|
      ensures (log[i].0 in keys) == desired
    {
      assert i < |mid| ==> log[i] == mid[i];
    }
  }

  /** The calls for these keys, as wanted ones. */
  function Wanted(keys: seq<Key>): (calls: seq<(Key, bool)>)
    ensures |calls| == |keys|
    ensures forall i | 0 <= i < |keys| :: calls[i] == (keys[i], true)
  {
    if keys == [] then [] else Wanted(keys[..|keys| - 1]) + [(keys[|keys| - 1], true)]
  }

  lemma WantedOneMore(keys: seq<Key>, i: nat)
    requires i < |keys|
    ensures Wanted(keys[..i + 1]) == Wanted(keys[..i]) + [(keys[i], true)]
  {
    assert keys[..i + 1][..i] == keys[..i];
  }

  /** All keys have been tried in order, and nothing else was touched. */
  ghost predicate AllTried(before: map<Key, Obj>, after: map<Key, Obj>, keys: seq<Key>, strategy: Key -> Strategy,
                           accepts: nat -> nat)
  {
    forall k :: Lookup(after, k) == Tried(Lookup(before, k), k, keys, strategy(k), accepts)
  }

  /** All keys have been reconciled as often as they are listed, and nothing else was touched. */
  ghost predicate AllSettled(before: map<Key, Obj>, after: map<Key, Obj>, keys: seq<Key>, strategy: Key -> Strategy)
  {
    forall k :: Lookup(after, k) == SettledTimes(Lookup(before, k), strategy(k), multiset(keys)[k])
  }

  lemma TriedOneMore(before: map<Key, Obj>, mid: map<Key, Obj>, after: map<Key, Obj>, keys: seq<Key>, key: Key,
                     strategy: Key -> Strategy, accepts: nat -> nat)
    requires AllTried(before, mid, keys, strategy, accepts)
    requires Replaced(mid, after, key, Partly(Lookup(mid, key), true, strategy(key), accepts(|keys|)))
    ensures AllTried(before, after, keys + [key], strategy, accepts)
  {
    assert (keys + [key])[..|keys|] == keys;
    hide Partly, Lookup;
  }

  lemma SettledOneMore(before: map<Key, Obj>, mid: map<Key, Obj>, after: map<Key, Obj>, keys: seq<Key>, key: Key,
                       strategy: Key -> Strategy)
    requires AllSettled(before, mid, keys, strategy)
    requires Replaced(mid, after, key, Settled(Lookup(mid, key), true, strategy(key)))
    ensures AllSettled(before, after, keys + [key], strategy)
  {
    hide Settled, Lookup;
    assert multiset(keys + [key]) == multiset(keys) + multiset{key};
  }

  lemma OneMore(before: map<Key, Obj>, mid: map<Key, Obj>, after: map<Key, Obj>, keys: seq<Key>, i: nat,
                strategy: Key -> Strategy, accepts: nat -> nat, through: bool)
    requires i < |keys| && AllTried(before, mid, keys[..i], strategy, accepts)
    requires Replaced(mid, after, keys[i], Partly(Lookup(mid, keys[i]), true, strategy(keys[i]), accepts(i)))
    requires through ==>
               && AllSettled(before, mid, keys[..i], strategy)
               && accepts(i) >= |Decide(Lookup(mid, keys[i]), true, strategy(keys[i])).0|
    ensures AllTried(before, after, keys[..i + 1], strategy, accepts)
    ensures through ==> AllSettled(before, after, keys[..i + 1], strategy)
  {
    hide AllTried, AllSettled, Replaced, Partly, Settled;
    assert keys[..i + 1] == keys[..i] + [keys[i]];
    TriedOneMore(before, mid, after, keys[..i], keys[i], strategy, accepts);
    if through {
      AllAccepted(Lookup(mid, keys[i]), true, strategy(keys[i]), accepts(i));
      SettledOneMore(before, mid, after, keys[..i], keys[i], strategy);
    }
  }

  /** What the second loop has done when the keys in `todo` are still to be looked at. */
  ghost predicate PartlyDeleted(before: map<Key, Obj>, after: map<Key, Obj>, gone: set<Key>, strategy: Key -> Strategy,
                                accepts: Key -> nat)
  {
    forall k :: Lookup(after, k) == if k in gone then Partly(Lookup(before, k), false, strategy(k), accepts(k))
                                    else Lookup(before, k)
  }

  lemma DeletedOneMore(before: map<Key, Obj>, mid: map<Key, Obj>, after: map<Key, Obj>, gone: set<Key>, key: Key,
                       strategy: Key -> Strategy, accepts: Key -> nat)
    requires PartlyDeleted(before, mid, gone, strategy, accepts) && key !in gone
    requires Replaced(mid, after, key, Partly(Lookup(mid, key), false, strategy(key), accepts(key)))
    ensures PartlyDeleted(before, after, gone + {key}, strategy, accepts)
  {
    hide Partly, Lookup;
  }

  lemma Untouched(before: map<Key, Obj>, mid: map<Key, Obj>, gone: set<Key>, strategy: Key -> Strategy,
                  accepts: Key -> nat, key: Key)
    requires PartlyDeleted(before, mid, gone, strategy, accepts) && key !in gone
    ensures Lookup(mid, key) == Lookup(before, key)
  {
  }

  /** Every one of the attempted turndowns got through. */
  ghost predicate AllThrough(before: map<Key, Obj>, gone: set<Key>, strategy: Key -> Strategy, accepts: Key -> nat)
  {
    forall k | k in gone ::
      Partly(Lookup(before, k), false, strategy(k), accepts(k)) == Settled(Lookup(before, k), false, strategy(k))
  }

  class Cluster {
    var objects: map<Key, Obj>
    var log: seq<(Key, Write)>       // the accepted writes
    var calls: seq<(Key, bool)>      // the calls of ReconcileObject, with the wanted flag

    constructor (objects: map<Key, Obj>)
      ensures this.objects == objects && log == [] && calls == []
    {
      this.objects, log, calls := objects, [], [];
    }

    /** ReconcileObject for one key; the server refuses every write after the first `accepted` ones. */
    method Reconcile(key: Key, wanted: bool, s: Strategy, accepted: nat) returns (err: bool)
      modifies this
      ensures Replaced(old(objects), objects, key, Partly(Lookup(old(objects), key), wanted, s, accepted))
      ensures WroteOnly(old(log), log, key)
      ensures calls == old(calls) + [(key, wanted)]
      ensures var decided := Decide(Lookup(old(objects), key), wanted, s);
              err <==> decided.1 || accepted < |decided.0|
    {
      var cached := if key in objects then Some(objects[key]) else None;
      var server := new Server(cached);
      err := ReconcileObject(server, cached, wanted, s, accepted);
      objects := match server.stored case None => objects - {key} case Some(obj) => objects[key := obj];
      log := log + seq(|server.log|, i requires 0 <= i < |server.log| reads server => (key, server.log[i]));
      calls := calls + [(key, wanted)];
    }

    /** After an error, the loop goes on with the next key. */
    method ReconcileDesired(keys: seq<Key>, strategy: Key -> Strategy, accepts: nat -> nat) returns (err: bool)
      modifies this
      ensures AllTried(old(objects), objects, keys, strategy, accepts)
      ensures !err ==> AllSettled(old(objects), objects, keys, strategy)
      ensures LogGrew(old(log), log, keys, true)
      ensures calls == old(calls) + Wanted(keys)
    {
      assert AllTried(objects, objects, keys[..0], strategy, accepts) && AllSettled(objects, objects, keys[..0], strategy);
      assert LogGrew(log, log, keys, true) && Wanted(keys[..0]) == [];
      hide Partly, Settled, Lookup, AllTried, AllSettled, Replaced, Wanted, LogGrew, WroteOnly;
      err := false;
      for i := 0 to |keys|
        invariant AllTried(old(objects), objects, keys[..i], strategy, accepts)
        invariant !err ==> AllSettled(old(objects), objects, keys[..i], strategy)
        invariant LogGrew(old(log), log, keys, true)
        invariant calls == old(calls) + Wanted(keys[..i])
      {
        ghost var mid, written := objects, log;
        var failed := Reconcile(keys[i], true, strategy(keys[i]), accepts(i));
        OneMore(old(objects), mid, objects, keys, i, strategy, accepts, !err && !failed);
        LogGrowsOn(old(log), written, log, keys, true, keys[i]);
        WantedOneMore(keys, i);
        err := err || failed;
      }
      assert keys[..|keys|] == keys;
    }

    /** The listed objects are visited in any order; after an error, the loop goes on with the next one. */
    method DeleteUnwanted(list: set<Key>, keys: seq<Key>, strategy: Key -> Strategy, accepts: Key -> nat)
      returns (err: bool)
      modifies this
      ensures var gone := set k | k in list && k !in keys;
              && PartlyDeleted(old(objects), objects, gone, strategy, accepts)
              && (!err ==> AllThrough(old(objects), gone, strategy, accepts))
      ensures LogGrew(old(log), log, keys, false)
      ensures |calls| >= |old(calls)| && calls[..|old(calls)|] == old(calls)
      ensures forall k :: (k, false) in calls[|old(calls)|..] <==> k in list && k !in keys
      ensures forall i | |old(calls)| <= i < |calls| :: !calls[i].1
    {
      assert PartlyDeleted(objects, objects, {}, strategy, accepts) && AllThrough(objects, {}, strategy, accepts);
      assert LogGrew(log, log, keys, false);
      hide Partly, Settled, Lookup, PartlyDeleted, Replaced, LogGrew, WroteOnly;
      err := false;
      var todo := list;
      ghost var gone := {};
      while todo != {}
        invariant todo <= list
        invariant gone == set k | k in list && k !in todo && k !in keys
        invariant PartlyDeleted(old(objects), objects, gone, strategy, accepts)
        invariant !err ==> AllThrough(old(objects), gone, strategy, accepts)
        invariant LogGrew(old(log), log, keys, false)
        invariant |calls| >= |old(calls)| && calls[..|old(calls)|] == old(calls)
        invariant forall k :: (k, false) in calls[|old(calls)|..] <==> k in gone
        invariant forall i | |old(calls)| <= i < |calls| :: !calls[i].1
      {
        var key :| key in todo;
        todo := todo - {key};
        if key in keys {
          continue;
        }
        ghost var mid, before, written := objects, calls, log;
        var failed := Reconcile(key, false, strategy(key), accepts(key));
        LogGrowsOn(old(log), written, log, keys, false, key);
        assert calls[|old(calls)|..] == before[|old(calls)|..] + [(key, false)];
        Untouched(old(objects), mid, gone, strategy, accepts, key);
        DeletedOneMore(old(objects), mid, objects, gone, key, strategy, accepts);
        if !err && !failed {
          AllAccepted(Lookup(mid, key), false, strategy(key), accepts(key));
        }
        gone := gone + {key};
        err := err || failed;
      }
      assert gone == set k | k in list && k !in keys;
    }

    /** `strategy` gives the hooks for each key. */
    method ReconcileObjectSet(keys: seq<Key>, strategy: Key -> Strategy, desired: nat -> nat, unwanted: Key -> nat)
      returns (err: bool, ghost desiredPhase: nat)
      modifies this
      ensures SetTried(old(objects), objects, keys, strategy, desired, unwanted)
      ensures !err ==> SetReconciled(old(objects), objects, keys, strategy)
      // Whatever is refused, every desired key is attempted, in order, before anything unwanted is touched.
      ensures |old(calls)| + |keys| <= |calls| && calls[..|old(calls)| + |keys|] == old(calls) + Wanted(keys)
      ensures forall k :: (k, false) in calls[|old(calls)| + |keys|..]
                          <==> k !in keys && Matches(old(objects), k)
      ensures |old(log)| <= desiredPhase <= |log| && log[..|old(log)|] == old(log)
      ensures forall i | |old(log)| <= i < |log| :: (log[i].0 in keys) == (i < desiredPhase)
    {
      var list := set k | k in objects && objects[k].labelsMatch;
      ghost var gone := set k | k in list && k !in keys;
      hide Partly, Settled, Tried, AllTried, AllSettled, PartlyDeleted, AllThrough, SetTried, SetReconciled;
      ghost var before := objects;
      err := ReconcileDesired(keys, strategy, desired);
      desiredPhase := |log|;
      ghost var mid := objects;
      var failed := DeleteUnwanted(list, keys, strategy, unwanted);
      BothLoopsTried(before, mid, objects, keys, gone, strategy, desired, unwanted);
      if !err && !failed {
        BothLoopsThrough(before, mid, objects, keys, gone, strategy, desired, unwanted);
      }
      err := err || failed;
    }
  }

  lemma BothLoopsTried(before: map<Key, Obj>, mid: map<Key, Obj>, after: map<Key, Obj>, keys: seq<Key>, gone: set<Key>,
                       strategy: Key -> Strategy, desired: nat -> nat, unwanted: Key -> nat)
    requires forall k :: k in gone <==> Matches(before, k) && k !in keys
    requires AllTried(before, mid, keys, strategy, desired) && PartlyDeleted(mid, after, gone, strategy, unwanted)
    ensures SetTried(before, after, keys, strategy, desired, unwanted)
  {
    hide Partly, Lookup, Matches;
    forall k | k !in keys
      ensures Lookup(mid, k) == Lookup(before, k)
    {
      TriedUnlisted(Lookup(before, k), k, keys, strategy(k), desired);
    }
    hide Tried;
  }

  lemma BothLoopsThrough(before: map<Key, Obj>, mid: map<Key, Obj>, after: map<Key, Obj>, keys: seq<Key>, gone: set<Key>,
                         strategy: Key -> Strategy, desired: nat -> nat, unwanted: Key -> nat)
    requires forall k :: k in gone <==> Matches(before, k) && k !in keys
    requires AllSettled(before, mid, keys, strategy) && PartlyDeleted(mid, after, gone, strategy, unwanted)
    requires AllThrough(mid, gone, strategy, unwanted)
    ensures SetReconciled(before, after, keys, strategy)
  {
    hide Partly, Settled, Lookup, Matches;
    forall k | k !in keys
      ensures Lookup(mid, k) == Lookup(before, k)
    {
      assert multiset(keys)[k] == 0;
    }
  }

  /** What a turndown leaves behind. */
  lemma UnwantedLeftover(o: Obj, s: Strategy)
    requires o.labelsMatch
    ensures Settled(Some(o), false, s).Some? <==>
            !o.evicted
    ensures var left := Settled(Some(o), false, s);
            left.Some? && !left.value.deleting ==> !o.deleting && s.prepareForTurndown(o).Blocked?
    ensures var left := Settled(Some(o), false, s);
            !o.evicted && !o.deleting && s.prepareForTurndown(o).Proceed? ==> left.Some? && left.value.deleting
  {
    if o.evicted || (!o.deleting && s.prepareForTurndown(o).Proceed?) {
      ApplyPair(Some(o), Delete, Delete);
    } else if !o.deleting {
      var (ws, err) := InPlace(o, s.prepareForTurndown(o).updated);
      if ws != [] {
        ApplyPair(Some(o), ws[0], ws[0]);
        assert ws == [ws[0]];
      }
    }
  }

  /** A desired key has an object after a call, be it one that is on its way down to be recreated. */
  lemma DesiredExists(st: Option<Obj>, s: Strategy)
    ensures Settled(st, true, s).Some?
  {
    ReconciledWrites(st, s);
  }

  /** Afterwards every desired key has an object; and among the objects that match the selector, the undesired
      ones are exactly those that were there before, and whose turndown is blocked, or that are on their way
      down (a Pod that was evicted is gone at once). */
  lemma SetLeaves(before: map<Key, Obj>, after: map<Key, Obj>, keys: seq<Key>, strategy: Key -> Strategy, k: Key)
    requires SetReconciled(before, after, keys, strategy)
    ensures k in keys ==> k in after
    ensures k !in keys && Matches(after, k) && !after[k].deleting ==>
              Matches(before, k) && !before[k].deleting && strategy(k).prepareForTurndown(before[k]).Blocked?
    ensures k !in keys && Matches(before, k) ==> (k in after <==> !before[k].evicted)
    ensures (&& k !in keys && Matches(before, k) && !before[k].evicted && !before[k].deleting
             && strategy(k).prepareForTurndown(before[k]).Proceed?) ==>
              k in after && after[k].deleting
    ensures k !in keys && !Matches(before, k) ==> Lookup(after, k) == Lookup(before, k)
  {
    hide Settled;
    if k in keys {
      var n := multiset(keys)[k];
      assert SettledTimes(Lookup(before, k), strategy(k), n)
             == Settled(SettledTimes(Lookup(before, k), strategy(k), n - 1), true, strategy(k));
      DesiredExists(SettledTimes(Lookup(before, k), strategy(k), n - 1), strategy(k));
    } else if Matches(before, k) {
      UnwantedLeftover(before[k], strategy(k));
    }
  }
}
