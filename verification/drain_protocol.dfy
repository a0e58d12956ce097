/** The drain protocol as a distributed system.

    The API server is the history of all cluster states it went through; the resource version of a Pod is the
    index of the state that last wrote it, and its UID the index of the state that created it. The controller
    runs one pass at a time. A pass reads one past state (the informer cache lags, but never goes back in time),
    plans its writes from it, and sends them one by one; a write may be lost, and takes effect only if the
    Pod has not been written since it was read. Between any two steps, anyone may request drains, change,
    delete and create Pods, but nobody else sets or removes the controller's annotations, and nobody takes a
    drain request back. */
module DrainProtocol {
  import opened Annotations
  import opened Drain
  import opened ReconcileDrain
  import opened StringOrder

  datatype Pod = Pod(uid: nat, version: nat, annotations: Annotations)

  /** The tablet Pods of one shard, by tablet alias. */
  type Cluster = map<string, Pod>

  datatype Controller = Idle | Running(primary: string, pending: set<string>)

  datatype System = System(history: seq<Cluster>, snapshot: nat, controller: Controller)
  {
    ghost predicate WellFormed()
    {
      snapshot < |history|
    }

    ghost function Current(): Cluster
      requires WellFormed()
    {
      history[|history| - 1]
    }

    ghost function Observed(): Cluster
      requires WellFormed()
    {
      history[snapshot]
    }
  }

  ghost function View(c: Cluster): Pods
  {
    map n | n in c :: c[n].annotations
  }

  // ------------------------------------------------------------ steps

  /** The annotations of a Pod that nobody aborted: finished implies acknowledged implies requested. */
  ghost predicate Orderly(ann: Annotations)
  {
    (IsFinished(ann) ==> IsAcknowledged(ann)) && (IsAcknowledged(ann) ==> Started(ann))
  }

  ghost predicate Initial(s: System)
  {
    && |s.history| == 1 && s.snapshot == 0 && s.controller.Idle?
    && forall n | n in s.history[0] ::
         var p := s.history[0][n];
         p.uid == 0 && p.version == 0 && Orderly(p.annotations) && !IsFinished(p.annotations)
  }

  ghost predicate OnlyChanges(c: Cluster, c': Cluster, n: string)
  {
    c - {n} == c' - {n}
  }

  /** Someone else deletes, creates or updates the Pod `n`; `rev` is the revision of the write. */
  ghost predicate ForeignWrite(c: Cluster, c': Cluster, rev: nat, n: string)
  {
    && OnlyChanges(c, c', n)
    && (n in c' ==>
          && c'[n].version == rev
          && if n in c then
               && c'[n].uid == c[n].uid
               && (Started(c[n].annotations) ==> Started(c'[n].annotations))
               && (IsAcknowledged(c'[n].annotations) <==> IsAcknowledged(c[n].annotations))
               && (IsFinished(c'[n].annotations) <==> IsFinished(c[n].annotations))
             else
               c'[n].uid == rev && !IsAcknowledged(c'[n].annotations) && !IsFinished(c'[n].annotations))
  }

  datatype Step =
    | Foreign(name: string)
    | BeginPass(primary: string)
    | Write(name: string, now: string)
    | LoseWrite(name: string)
    | EndPass

  /** The object that the running pass sends for `n`: its cached copy with the planned change. */
  ghost predicate Writes(s: System, p': Pod, n: string, now: string)
    requires s.WellFormed()
  {
    && s.controller.Running?
    && n in s.Observed()
    && n in Plan(View(s.Observed()), s.controller.primary)
    && var target := Plan(View(s.Observed()), s.controller.primary)[n];
    && !target.Draining?
    && p' == s.Observed()[n].(version := |s.history|,
                              annotations := Updated(s.Observed()[n].annotations, target, now))
  }

  /** The API server accepts the write of `n`, because the Pod has not been written since it was read. */
  ghost predicate WriteApplies(s: System, c': Cluster, n: string, now: string)
    requires s.WellFormed()
  {
    && s.controller.Running? && n in s.controller.pending
    && n in s.Current() && n in s.Observed() && s.Current()[n].version == s.Observed()[n].version
    && n in c'
    && Writes(s, c'[n], n, now)
    && OnlyChanges(s.Current(), c', n)
  }

  ghost predicate Next(s: System, s': System, step: Step)
    requires s.WellFormed()
  {
    NextReading(s, s', step, s.snapshot)
  }

  /** A step of a system whose passes read snapshots no older than `oldest`. */
  ghost predicate NextReading(s: System, s': System, step: Step, oldest: nat)
    requires s.WellFormed()
  {
    match step
    case Foreign(n) =>
      && |s'.history| == |s.history| + 1
      && s' == s.(history := s.history + [s'.history[|s.history|]])
      && ForeignWrite(s.Current(), s'.history[|s.history|], |s.history|, n)
    case BeginPass(primary) =>
      && s.controller.Idle?
      && oldest <= s'.snapshot < |s.history|
      && s' == s.(snapshot := s'.snapshot,
                  controller := Running(primary, Plan(View(s.history[s'.snapshot]), primary).Keys))
    case Write(n, now) =>
      && |s'.history| == |s.history| + 1
      && WriteApplies(s, s'.history[|s.history|], n, now)
      && s' == s.(history := s.history + [s'.history[|s.history|]],
                  controller := s.controller.(pending := s.controller.pending - {n}))
    case LoseWrite(n) =>
      && s.controller.Running? && n in s.controller.pending
      && s' == s.(controller := s.controller.(pending := s.controller.pending - {n}))
    case EndPass =>
      s.controller.Running? && s' == s.(controller := Idle)
  }

  // ------------------------------------------------------------ invariant

  ghost predicate AtMostOneFinished(c: Cluster)
  {
    forall p, q | p in c && q in c && IsFinished(c[p].annotations) && IsFinished(c[q].annotations) :: p == q
  }

  /** A Pod is the same object in every state since the one that last wrote it. */
  ghost predicate Versioned(h: seq<Cluster>)
  {
    forall j, n | 0 <= j < |h| && n in h[j] ::
      && h[j][n].uid <= h[j][n].version <= j
      && forall i | h[j][n].version <= i <= j :: n in h[i] && h[i][n] == h[j][n]
  }

  ghost predicate AllOrderly(h: seq<Cluster>)
  {
    forall j, n | 0 <= j < |h| && n in h[j] :: Orderly(h[j][n].annotations)
  }

  /** A Pod marked finished stays so for as long as it lives. */
  ghost predicate Sticky(h: seq<Cluster>)
  {
    forall i, j, n | 0 <= i <= j < |h| && n in h[i] && n in h[j] && h[i][n].uid == h[j][n].uid ::
      IsFinished(h[i][n].annotations) ==> IsFinished(h[j][n].annotations)
  }

  /** Whatever is acknowledged was already requested in every state from `m` on. */
  ghost predicate RequestedSince(h: seq<Cluster>, m: nat)
  {
    forall i, j, n | m <= i <= j < |h| && n in h[j] && IsAcknowledged(h[j][n].annotations) ::
      n in h[i] && Started(h[i][n].annotations)
  }

  /** The snapshot `k` justified finishing `q`, and until that write took effect nothing new was acknowledged. */
  ghost predicate FinishedFrom(h: seq<Cluster>, q: string, k: nat)
  {
    && k < |h|
    && IsLeast(q, InState(Drains(View(h[k])), Acknowledged))
    && forall i | k <= i < |h| ::
         && q in h[i] && IsAcknowledged(h[i][q].annotations)
         && (IsFinished(h[i][q].annotations) || NoNewAcknowledged(h[k], h[i]))
  }

  ghost predicate NoNewAcknowledged(c: Cluster, c': Cluster)
  {
    forall p | p in c' && IsAcknowledged(c'[p].annotations) ::
      p in c && Started(c[p].annotations) && IsAcknowledged(c[p].annotations) && !IsFinished(c[p].annotations)
  }

  ghost predicate HasJustification(h: seq<Cluster>, q: string, m: nat)
  {
    exists k: nat :: k <= m && FinishedFrom(h, q, k)
  }

  ghost predicate Justified(h: seq<Cluster>, c: Cluster, m: nat)
  {
    forall q | q in c && IsFinished(c[q].annotations) :: HasJustification(h, q, m)
  }

  ghost predicate Inv(s: System)
  {
    && s.WellFormed()
    && Versioned(s.history)
    && AllOrderly(s.history)
    && Sticky(s.history)
    && RequestedSince(s.history, s.snapshot)
    && Justified(s.history, s.Current(), s.snapshot)
    && forall i | 0 <= i < |s.history| :: AtMostOneFinished(s.history[i])
  }

  // ------------------------------------------------------------ preservation

  /** What every write, ours or foreign, does to the one Pod it touches. */
  ghost predicate Evolves(c: Cluster, c': Cluster, rev: nat, n: string)
  {
    && OnlyChanges(c, c', n)
    && (n in c' ==>
          && c'[n].version == rev
          && Orderly(c'[n].annotations)
          && (n !in c ==> c'[n].uid == rev && !IsAcknowledged(c'[n].annotations))
          && (n in c ==>
                && c'[n].uid == c[n].uid
                && (Started(c[n].annotations) ==> Started(c'[n].annotations))
                && (IsAcknowledged(c[n].annotations) ==> IsAcknowledged(c'[n].annotations))
                && (IsFinished(c[n].annotations) ==> IsFinished(c'[n].annotations))))
  }

  lemma UnchangedAt(c: Cluster, c': Cluster, n: string, m: string)
    requires OnlyChanges(c, c', n) && m != n
    ensures m in c <==> m in c'
    ensures m in c ==> c[m] == c'[m]
  {
    assert m in c <==> m in c - {n};
    assert m in c' <==> m in c' - {n};
    assert m in c ==> (c - {n})[m] == c[m];
    assert m in c' ==> (c' - {n})[m] == c'[m];
  }

  lemma EvolvesKeepsVersioned(h: seq<Cluster>, c': Cluster, n: string)
    requires |h| > 0 && Versioned(h) && Evolves(h[|h| - 1], c', |h|, n)
    ensures Versioned(h + [c'])
  {
    forall m | m in c' && m != n
      ensures m in h[|h| - 1] && h[|h| - 1][m] == c'[m]
    {
      UnchangedAt(h[|h| - 1], c', n, m);
    }
  }

  lemma EvolvesKeepsOrderly(h: seq<Cluster>, c': Cluster, n: string)
    requires |h| > 0 && AllOrderly(h) && Evolves(h[|h| - 1], c', |h|, n)
    ensures AllOrderly(h + [c'])
  {
    forall m | m in c' && m != n
      ensures m in h[|h| - 1] && h[|h| - 1][m] == c'[m]
    {
      UnchangedAt(h[|h| - 1], c', n, m);
    }
  }

  lemma EvolvesKeepsSticky(h: seq<Cluster>, c': Cluster, n: string)
    requires |h| > 0 && Versioned(h) && Sticky(h) && Evolves(h[|h| - 1], c', |h|, n)
    ensures Sticky(h + [c'])
  {
    var last := |h| - 1;
    forall i, m | 0 <= i < |h| && m in h[i] && m in c' && h[i][m].uid == c'[m].uid && IsFinished(h[i][m].annotations)
      ensures IsFinished(c'[m].annotations)
    {
      if m != n {
        UnchangedAt(h[last], c', n, m);
      }
      assert h[i][m].uid <= i;
      assert m in h[last] && h[last][m].uid == c'[m].uid;
    }
  }

  lemma EvolvesKeepsHistory(h: seq<Cluster>, c': Cluster, n: string)
    requires |h| > 0 && Versioned(h) && AllOrderly(h) && Sticky(h)
    requires Evolves(h[|h| - 1], c', |h|, n)
    ensures Versioned(h + [c']) && AllOrderly(h + [c']) && Sticky(h + [c'])
  {
    EvolvesKeepsVersioned(h, c', n);
    EvolvesKeepsOrderly(h, c', n);
    EvolvesKeepsSticky(h, c', n);
  }

  /** The Pods of a state, as the drain state machine sees them. */
  lemma DrainState(c: Cluster, n: string)
    requires forall m | m in c :: Orderly(c[m].annotations)
    ensures AbortedPods(View(c)) == {}
    ensures n in Drains(View(c)) <==> n in c && Started(c[n].annotations)
    ensures n in c && Started(c[n].annotations) ==>
              Drains(View(c))[n] ==
                if IsFinished(c[n].annotations) then Finished
                else if IsAcknowledged(c[n].annotations) then Acknowledged else Draining
  {
  }

  /** A write of the controller acknowledges a Pod that was draining in the snapshot, or finishes the least
      acknowledged Pod of a quiet snapshot. */
  lemma WriteMeaning(s: System, p': Pod, n: string, now: string)
    requires s.WellFormed() && AllOrderly(s.history)
    requires Writes(s, p', n, now)
    ensures Started(s.Observed()[n].annotations) && !IsFinished(s.Observed()[n].annotations)
    ensures Started(p'.annotations) && IsAcknowledged(p'.annotations)
    ensures IsFinished(p'.annotations) ==>
              && Quiet(Drains(View(s.Observed())))
              && IsLeast(n, InState(Drains(View(s.Observed())), Acknowledged))
              && IsAcknowledged(s.Observed()[n].annotations)
  {
    var c := s.Observed();
    DrainState(c, n);
    if Drains(View(c)) == map[] {
      assert false;
    }
    TransitionsSound(Drains(View(c)), n);
    PlanReachesTarget(View(c), s.controller.primary, n, now);
  }

  lemma UnwrittenSince(h: seq<Cluster>, n: string, k: nat, i: nat)
    requires Versioned(h) && k <= i < |h|
    requires n in h[k] && n in h[|h| - 1] && h[|h| - 1][n].version == h[k][n].version
    ensures n in h[i] && h[i][n] == h[k][n]
  {
    var last := |h| - 1;
    assert h[last][n].version <= k;
    assert h[k][n] == h[last][n] && h[i][n] == h[last][n];
  }

  lemma RequestedSurvives(h: seq<Cluster>, c': Cluster, m: nat)
    requires RequestedSince(h, m)
    requires forall n | n in c' && IsAcknowledged(c'[n].annotations) :: Started(c'[n].annotations)
    requires forall i, n | m <= i < |h| && n in c' && IsAcknowledged(c'[n].annotations) ::
               n in h[i] && Started(h[i][n].annotations)
    ensures RequestedSince(h + [c'], m)
  {
  }

  lemma JustificationSurvives(h: seq<Cluster>, c': Cluster, q: string, m: nat)
    requires HasJustification(h, q, m)
    requires q in c' && IsFinished(c'[q].annotations) && IsAcknowledged(c'[q].annotations)
    ensures HasJustification(h + [c'], q, m)
  {
    var k: nat :| k <= m && FinishedFrom(h, q, k);
    assert FinishedFrom(h + [c'], q, k);
  }

  lemma InvExtends(s: System, c': Cluster)
    requires Inv(s) && AtMostOneFinished(c')
    requires Versioned(s.history + [c']) && AllOrderly(s.history + [c']) && Sticky(s.history + [c'])
    requires RequestedSince(s.history + [c'], s.snapshot)
    requires Justified(s.history + [c'], c', s.snapshot)
    ensures Inv(s.(history := s.history + [c']))
  {
    forall i | 0 <= i < |s.history| + 1 ensures AtMostOneFinished((s.history + [c'])[i]) {
    }
  }

  lemma ForeignMeaning(c: Cluster, c': Cluster, rev: nat, n: string, m: string)
    requires ForeignWrite(c, c', rev, n) && m in c'
    requires forall k | k in c :: Orderly(c[k].annotations)
    ensures Evolves(c, c', rev, n)
    ensures Orderly(c'[m].annotations)
    ensures IsAcknowledged(c'[m].annotations) ==> m in c && IsAcknowledged(c[m].annotations)
    ensures IsFinished(c'[m].annotations) ==> m in c && IsFinished(c[m].annotations)
  {
    if m != n { UnchangedAt(c, c', n, m); }
  }

  /** A foreign write brings no new marks of the controller. */
  ghost predicate NoNewMarks(c: Cluster, c': Cluster)
  {
    forall m | m in c' ::
      && Orderly(c'[m].annotations)
      && (IsAcknowledged(c'[m].annotations) ==> m in c && IsAcknowledged(c[m].annotations))
      && (IsFinished(c'[m].annotations) ==> m in c && IsFinished(c[m].annotations))
  }

  lemma NoNewMarksKeep(s: System, c': Cluster)
    requires Inv(s) && NoNewMarks(s.Current(), c')
    ensures RequestedSince(s.history + [c'], s.snapshot)
    ensures Justified(s.history + [c'], c', s.snapshot)
    ensures AtMostOneFinished(c')
  {
    var h, c := s.history, s.Current();
    hide Versioned, Sticky, AllOrderly, FinishedFrom;
    assert AtMostOneFinished(c);
    RequestedSurvives(h, c', s.snapshot);
    hide RequestedSince;
    forall q | q in c' && IsFinished(c'[q].annotations)
      ensures HasJustification(h + [c'], q, s.snapshot)
    {
      JustificationSurvives(h, c', q, s.snapshot);
    }
  }

  lemma ForeignKeepsInv(s: System, c': Cluster, n: string)
    requires Inv(s) && ForeignWrite(s.Current(), c', |s.history|, n)
    ensures Inv(s.(history := s.history + [c']))
  {
    var h, c := s.history, s.Current();
    forall m | m in c'
      ensures Orderly(c'[m].annotations)
      ensures IsAcknowledged(c'[m].annotations) ==> m in c && IsAcknowledged(c[m].annotations)
      ensures IsFinished(c'[m].annotations) ==> m in c && IsFinished(c[m].annotations)
    {
      ForeignMeaning(c, c', |h|, n, m);
    }
    assert Evolves(c, c', |h|, n);
    hide ForeignWrite, Evolves, Versioned, Sticky, RequestedSince, Justified, AtMostOneFinished;
    EvolvesKeepsHistory(h, c', n);
    NoNewMarksKeep(s, c');
    InvExtends(s, c');
  }

  /** Someone else's Pod, untouched by the write, was requested since the snapshot. */
  lemma OtherWasRequested(h: seq<Cluster>, c': Cluster, n: string, k: nat, i: nat, m: string)
    requires RequestedSince(h, k) && AllOrderly(h) && k <= i < |h| && OnlyChanges(h[|h| - 1], c', n)
    requires m != n && m in c' && IsAcknowledged(c'[m].annotations)
    ensures m in h[i] && Started(h[i][m].annotations) && Started(c'[m].annotations)
  {
    var last := |h| - 1;
    UnchangedAt(h[last], c', n, m);
    assert m in h[last] && IsAcknowledged(h[last][m].annotations) && Orderly(h[last][m].annotations);
  }

  ghost predicate AskedAt(h: seq<Cluster>, c': Cluster, i: int, m: string)
  {
    0 <= i < |h| && m in c' && m in h[i] && Started(h[i][m].annotations) && Started(c'[m].annotations)
  }

  lemma AskedSurvives(h: seq<Cluster>, c': Cluster, k: nat)
    requires k < |h| && RequestedSince(h, k)
    requires forall i, m | k <= i < |h| && m in c' && IsAcknowledged(c'[m].annotations) :: AskedAt(h, c', i, m)
    ensures RequestedSince(h + [c'], k)
  {
    forall m | m in c' && IsAcknowledged(c'[m].annotations)
      ensures Started(c'[m].annotations)
    {
      assert AskedAt(h, c', k, m);
    }
    forall i, m | k <= i < |h| && m in c' && IsAcknowledged(c'[m].annotations)
      ensures m in h[i] && Started(h[i][m].annotations)
    {
      assert AskedAt(h, c', i, m);
    }
    RequestedSurvives(h, c', k);
  }

  /** The Pod that is written has not changed since the snapshot, in which it was requested. */
  lemma OwnWasRequested(s: System, c': Cluster, n: string, now: string, i: nat)
    requires Inv(s) && WriteApplies(s, c', n, now) && s.snapshot <= i < |s.history|
    ensures n in s.history[i] && Started(s.history[i][n].annotations) && Started(c'[n].annotations)
  {
    WriteMeaning(s, c'[n], n, now);
    UnwrittenSince(s.history, n, s.snapshot, i);
  }

  lemma WasAsked(s: System, c': Cluster, n: string, now: string, i: nat, m: string)
    requires Inv(s) && WriteApplies(s, c', n, now)
    requires s.snapshot <= i < |s.history| && m in c' && IsAcknowledged(c'[m].annotations)
    ensures AskedAt(s.history, c', i, m)
  {
    if m == n {
      OwnWasRequested(s, c', n, now, i);
    } else {
      OtherWasRequested(s.history, c', n, s.snapshot, i, m);
    }
  }

  lemma WriteKeepsRequested(s: System, c': Cluster, n: string, now: string)
    requires Inv(s) && WriteApplies(s, c', n, now)
    ensures RequestedSince(s.history + [c'], s.snapshot)
  {
    hide AskedAt, WriteApplies, RequestedSince;
    forall i, m | s.snapshot <= i < |s.history| && m in c' && IsAcknowledged(c'[m].annotations)
      ensures AskedAt(s.history, c', i, m)
    {
      WasAsked(s, c', n, now, i, m);
    }
    AskedSurvives(s.history, c', s.snapshot);
  }

  /** The heart of the argument: two Pods cannot both have been the least acknowledged one. */
  lemma FinishExcludesOthers(s: System, n: string, q: string, p': Pod, now: string)
    requires Inv(s) && Writes(s, p', n, now) && IsFinished(p'.annotations)
    requires q in s.Current() && IsFinished(s.Current()[q].annotations)
    ensures q == n
  {
    var h: seq<Cluster>, i := s.history, s.snapshot;
    WriteMeaning(s, p', n, now);
    assert HasJustification(h, q, i);
    var k: nat :| k <= i && FinishedFrom(h, q, k);
    DrainState(h[i], q);
    assert q in h[i] && !IsFinished(h[i][q].annotations) && q in InState(Drains(View(h[i])), Acknowledged);
    assert NoNewAcknowledged(h[k], h[i]);
    DrainState(h[k], n);
    assert n in InState(Drains(View(h[k])), Acknowledged);
    LeqAntisymmetric(q, n);
  }

  /** Whatever has been acknowledged since a quiet snapshot was acknowledged in it. */
  lemma QuietSince(s: System, i: nat)
    requires Inv(s) && s.snapshot <= i < |s.history| && Quiet(Drains(View(s.Observed())))
    ensures NoNewAcknowledged(s.Observed(), s.history[i])
  {
    var c, c' := s.Observed(), s.history[i];
    forall p | p in c' && IsAcknowledged(c'[p].annotations)
      ensures p in c && Started(c[p].annotations)
      ensures IsAcknowledged(c[p].annotations) && !IsFinished(c[p].annotations)
    {
      DrainState(c, p);
      assert p in Drains(View(c));
    }
  }

  lemma FinishIsJustified(s: System, c': Cluster, n: string, now: string)
    requires Inv(s) && WriteApplies(s, c', n, now) && IsFinished(c'[n].annotations)
    ensures HasJustification(s.history + [c'], n, s.snapshot)
  {
    var h: seq<Cluster>, k := s.history, s.snapshot;
    WriteMeaning(s, c'[n], n, now);
    forall i | k <= i < |h|
      ensures n in h[i] && IsAcknowledged(h[i][n].annotations) && NoNewAcknowledged(h[k], h[i])
    {
      UnwrittenSince(h, n, k, i);
      QuietSince(s, i);
    }
    assert FinishedFrom(h + [c'], n, k);
  }

  lemma WriteEvolves(s: System, c': Cluster, n: string, now: string)
    requires Inv(s) && WriteApplies(s, c', n, now)
    ensures Evolves(s.Current(), c', |s.history|, n)
  {
    WriteMeaning(s, c'[n], n, now);
    UnwrittenSince(s.history, n, s.snapshot, |s.history| - 1);
    assert Orderly(s.Current()[n].annotations);
  }

  lemma WriteKeepsOthers(s: System, c': Cluster, n: string, now: string, q: string)
    requires Inv(s) && WriteApplies(s, c', n, now)
    requires q in c' && IsFinished(c'[q].annotations)
    ensures HasJustification(s.history + [c'], q, s.snapshot)
    ensures q != n ==> !IsFinished(c'[n].annotations) && q in s.Current() && IsFinished(s.Current()[q].annotations)
  {
    if q == n {
      FinishIsJustified(s, c', n, now);
    } else {
      UnchangedAt(s.Current(), c', n, q);
      assert Orderly(s.Current()[q].annotations);
      JustificationSurvives(s.history, c', q, s.snapshot);
      if IsFinished(c'[n].annotations) {
        FinishExcludesOthers(s, n, q, c'[n], now);
      }
    }
  }

  lemma WriteKeepsJustified(s: System, c': Cluster, n: string, now: string)
    requires Inv(s) && WriteApplies(s, c', n, now)
    ensures Justified(s.history + [c'], c', s.snapshot)
    ensures AtMostOneFinished(c')
  {
    forall q | q in c' && IsFinished(c'[q].annotations)
      ensures HasJustification(s.history + [c'], q, s.snapshot)
      ensures q != n ==> !IsFinished(c'[n].annotations) && q in s.Current() && IsFinished(s.Current()[q].annotations)
    {
      WriteKeepsOthers(s, c', n, now, q);
    }
    assert AtMostOneFinished(s.Current());
  }

  lemma WriteKeepsInv(s: System, c': Cluster, n: string, now: string)
    requires Inv(s) && WriteApplies(s, c', n, now)
    ensures Inv(s.(history := s.history + [c']))
  {
    hide Versioned, AllOrderly, Sticky, RequestedSince, Justified, AtMostOneFinished, WriteApplies, Evolves;
    WriteEvolves(s, c', n, now);
    EvolvesKeepsHistory(s.history, c', n);
    WriteKeepsRequested(s, c', n, now);
    WriteKeepsJustified(s, c', n, now);
    InvExtends(s, c');
  }

  lemma BeginKeepsInv(s: System, m: nat)
    requires Inv(s) && s.snapshot <= m < |s.history|
    ensures Inv(s.(snapshot := m))
  {
    forall q | q in s.Current() && IsFinished(s.Current()[q].annotations)
      ensures HasJustification(s.history, q, m)
    {
      assert HasJustification(s.history, q, s.snapshot);
    }
  }

  lemma StepKeepsInv(s: System, s': System, step: Step)
    requires Inv(s) && Next(s, s', step)
    ensures Inv(s')
  {
    match step
    case Foreign(n) =>
      ForeignKeepsInv(s, s'.history[|s.history|], n);
    case Write(n, now) =>
      WriteKeepsInv(s, s'.history[|s.history|], n, now);
      assert s'.history == (s.(history := s.history + [s'.history[|s.history|]])).history;
    case BeginPass(primary) =>
      BeginKeepsInv(s, s'.snapshot);
    case LoseWrite(n) =>
    case EndPass =>
  }

  // ------------------------------------------------------------ runs

  ghost predicate Run(states: seq<System>, steps: seq<Step>)
  {
    && |states| == |steps| + 1
    && Initial(states[0])
    && forall i | 0 <= i < |steps| :: states[i].WellFormed() && Next(states[i], states[i + 1], steps[i])
  }

  lemma InitialHistory(s: System)
    requires Initial(s)
    ensures Versioned(s.history) && AllOrderly(s.history) && Sticky(s.history)
  {
    var c := s.history[0];
    assert s.history == [c];
    assert forall n | n in c :: c[n].uid == c[n].version == 0 && Orderly(c[n].annotations) && !IsFinished(c[n].annotations);
    hide Initial, Orderly;
    OneState(c);
  }

  lemma OneState(c: Cluster)
    requires forall n | n in c :: c[n].uid == c[n].version == 0 && Orderly(c[n].annotations)
    requires forall n | n in c :: !IsFinished(c[n].annotations)
    ensures Versioned([c]) && AllOrderly([c]) && Sticky([c])
  {
    hide Orderly;
  }

  lemma InitialInv(s: System)
    requires Initial(s)
    ensures Inv(s)
  {
    InitialHistory(s);
    assert forall n | n in s.history[0] :: !IsFinished(s.history[0][n].annotations) && Orderly(s.history[0][n].annotations);
    hide Versioned, AllOrderly, Sticky, HasJustification;
  }

  lemma {:induction false} RunKeepsInv(states: seq<System>, steps: seq<Step>, i: nat)
    requires Run(states, steps) && i < |states|
    ensures Inv(states[i])
  {
    hide Inv, Initial, Next;
    if i == 0 {
      InitialInv(states[0]);
    } else {
      RunKeepsInv(states, steps, i - 1);
      StepKeepsInv(states[i - 1], states[i], steps[i - 1]);
    }
  }

  /** In every run, no state the API server ever goes through has two finished tablets. */
  lemma Safety(states: seq<System>, steps: seq<Step>, i: nat, t: nat)
    requires Run(states, steps) && i < |states| && t < |states[i].history|
    ensures AtMostOneFinished(states[i].history[t])
  {
    RunKeepsInv(states, steps, i);
  }

  /** Once a tablet is marked finished, it stays finished and no other tablet is, until that Pod is deleted. */
  lemma ExclusiveUntilDeleted(states: seq<System>, steps: seq<Step>, i: nat, t: nat, u: nat, p: string, q: string)
    requires Run(states, steps) && i < |states| && t <= u < |states[i].history|
    requires var h := states[i].history;
             && p in h[t] && IsFinished(h[t][p].annotations)
             && p in h[u] && h[u][p].uid == h[t][p].uid
             && q in h[u]
    ensures IsFinished(states[i].history[u][q].annotations) <==> q == p
  {
    RunKeepsInv(states, steps, i);
    assert AtMostOneFinished(states[i].history[u]);
  }

  /** Deletions are decided on copies from the cache and carry only the UID as precondition. Still, among all
      copies marked finished that anybody ever read, those that can delete a Pod now all name the same Pod. */
  lemma OneDeletableTablet(states: seq<System>, steps: seq<Step>, i: nat, t: nat, u: nat, p: string, q: string)
    requires Run(states, steps) && i < |states|
    requires states[i].WellFormed()
    requires var h, c := states[i].history, states[i].Current();
             && t < |h| && u < |h|
             && p in h[t] && IsFinished(h[t][p].annotations) && p in c && c[p].uid == h[t][p].uid
             && q in h[u] && IsFinished(h[u][q].annotations) && q in c && c[q].uid == h[u][q].uid
    ensures p == q
  {
    RunKeepsInv(states, steps, i);
  }

  // ------------------------------------------------------------ the snapshots must not go back in time

  lemma PlanToAcknowledge(pods: Pods, n: string)
    requires n in pods && Started(pods[n]) && GetState(pods[n]) == (Draining, false)
    requires forall m | m in pods && m != n :: Started(pods[m]) && GetState(pods[m]) == (Acknowledged, false)
    ensures Plan(pods, "") == map[n := Acknowledged]
  {
    assert AbortedPods(pods) == {};
    assert Drains(pods)[n] == Draining;
    assert InState(Drains(pods), Draining) == {n};
  }

  lemma PlanToFinish(pods: Pods, n: string)
    requires n in pods && n != "" && Started(pods[n]) && GetState(pods[n]) == (Acknowledged, false)
    requires forall m | m in pods && m != n ::
               GetState(pods[m]) == (NotDraining, false) || (GetState(pods[m]) == (Acknowledged, false) && Started(pods[m]) && Leq(n, m))
    ensures Plan(pods, "") == map[n := Finished]
  {
    var drains := Drains(pods);
    assert AbortedPods(pods) == {};
    assert drains[n] == Acknowledged;
    LeqReflexive(n);
    LeastUnique(n, InState(drains, Acknowledged));
    assert Quiet(drains);
  }

  // "a" sorts before "b"; at first "b" waits, acknowledged, and nobody has asked for "a".
  const REQUESTED: Annotations := map[DrainStarted := ""]
  const WAITING: Annotations := map[DrainStarted := "", DrainAcknowledged := ""]
  const DONE: Annotations := map[DrainStarted := "", DrainAcknowledged := "", DrainFinished := ""]

  ghost function Story(t: nat): Cluster
  {
    if t == 0 then BesideB(Pod(0, 0, map[]))
    else if t == 1 then BesideB(Pod(0, 1, REQUESTED))
    else if t == 2 then BesideB(Pod(0, 2, WAITING))
    else if t == 3 then BesideB(Pod(0, 3, DONE))
    else map["a" := Pod(0, 3, DONE), "b" := Pod(0, 4, DONE)]
  }

  ghost function Told(t: nat): seq<Cluster>
  {
    if t == 0 then [Story(0)] else Told(t - 1) + [Story(t)]
  }

  lemma {:induction false} ToldAt(t: nat, i: nat)
    requires i <= t
    ensures |Told(t)| == t + 1 && Told(t)[i] == Story(i)
  {
    if t > 0 {
      ToldAt(t - 1, if i < t then i else t - 1);
    }
  }

  /** "a" with these annotations, and "b" waiting. */
  ghost function BesideWaiting(ann: Annotations): Pods
  {
    map["a" := ann, "b" := WAITING]
  }

  lemma PlanWhileUnasked()
    ensures Plan(BesideWaiting(map[]), "") == map["b" := Finished]
  {
    hide Plan;
    PlanToFinish(BesideWaiting(map[]), "b");
  }

  lemma PlanWhenAsked()
    ensures Plan(BesideWaiting(REQUESTED), "") == map["a" := Acknowledged]
  {
    hide Plan;
    PlanToAcknowledge(BesideWaiting(REQUESTED), "a");
  }

  lemma PlanWhileBothWait()
    ensures Plan(BesideWaiting(WAITING), "") == map["a" := Finished]
  {
    assert Leq("a", "b");
    hide Plan, Leq;
    PlanToFinish(BesideWaiting(WAITING), "a");
  }

  ghost function BesideB(a: Pod): Cluster
  {
    map["a" := a, "b" := Pod(0, 0, WAITING)]
  }

  lemma ViewBesideB(a: Pod)
    ensures View(BesideB(a)) == BesideWaiting(a.annotations)
  {
  }

  lemma StoryViews()
    ensures View(Story(0)) == BesideWaiting(map[])
    ensures View(Story(1)) == BesideWaiting(REQUESTED)
    ensures View(Story(2)) == BesideWaiting(WAITING)
  {
    ViewBesideB(Pod(0, 0, map[]));
    ViewBesideB(Pod(0, 1, REQUESTED));
    ViewBesideB(Pod(0, 2, WAITING));
    hide View, BesideWaiting, BesideB;
  }

  lemma StoryPlans()
    ensures Plan(View(Story(0)), "") == map["b" := Finished]
    ensures Plan(View(Story(1)), "") == map["a" := Acknowledged]
    ensures Plan(View(Story(2)), "") == map["a" := Finished]
  {
    StoryViews();
    PlanWhileUnasked();
    PlanWhenAsked();
    PlanWhileBothWait();
    hide Plan, View, Story, BesideWaiting;
  }

  ghost predicate StoryWrites(k: nat, t: nat, n: string)
  {
    (k == 1 && t == 2 && n == "a") || (k == 2 && t == 3 && n == "a") || (k == 0 && t == 4 && n == "b")
  }

  lemma StoryChanges(k: nat, t: nat, n: string, target: State)
    requires StoryWrites(k, t, n)
    requires target == if k == 1 then Acknowledged else Finished
    ensures n in Story(t - 1) && n in Story(k) && n in Story(t)
    ensures Story(t - 1)[n].version == Story(k)[n].version
    ensures Story(t)[n] == Story(k)[n].(version := t, annotations := Updated(Story(k)[n].annotations, target, ""))
    ensures OnlyChanges(Story(t - 1), Story(t), n)
  {
    assert Updated(REQUESTED, Acknowledged, "") == WAITING && Updated(WAITING, Finished, "") == DONE;
  }

  /** The pass that read state `k` writes state `t`. */
  lemma StoryWrite(k: nat, t: nat, n: string)
    requires StoryWrites(k, t, n)
    ensures System(Told(t - 1), k, Running("", {n})).WellFormed()
    ensures NextReading(System(Told(t - 1), k, Running("", {n})), System(Told(t), k, Running("", {})), Write(n, ""), 0)
  {
    hide Plan, View, Story, OnlyChanges, Updated;
    StoryPlans();
    ToldAt(t - 1, k);
    ToldAt(t - 1, t - 1);
    ToldAt(t, t);
    StoryChanges(k, t, n, if k == 1 then Acknowledged else Finished);
    assert {n} - {n} == {};
  }

  lemma StoryRead(k: nat, t: nat, oldSnapshot: nat, n: string)
    requires (k == 1 && t == 1 && n == "a") || (k == 2 && t == 2 && n == "a") || (k == 0 && t == 3 && n == "b")
    requires oldSnapshot <= t
    ensures System(Told(t), oldSnapshot, Idle).WellFormed()
    ensures NextReading(System(Told(t), oldSnapshot, Idle), System(Told(t), k, Running("", {n})), BeginPass(""), 0)
  {
    hide Plan, View, Story;
    StoryPlans();
    ToldAt(t, k);
    assert map["a" := Acknowledged].Keys == {"a"} == map["a" := Finished].Keys;
    assert map["b" := Finished].Keys == {"b"};
  }

  lemma StoryBegins()
    ensures Initial(System(Told(0), 0, Idle))
    ensures NextReading(System(Told(0), 0, Idle), System(Told(1), 0, Idle), Foreign("a"), 0)
    ensures |Told(1)| == 2 && |Told(2)| == 3 && |Told(3)| == 4 && |Told(4)| == 5
    ensures !AtMostOneFinished(Told(4)[4])
  {
    ToldAt(0, 0);
    ToldAt(1, 1);
    ToldAt(2, 2);
    ToldAt(3, 3);
    ToldAt(4, 4);
    assert Told(1) == Told(0) + [Story(1)];
    hide Told;
    StoryFirst();
    assert "a" in Story(4) && "b" in Story(4);
    hide Story, ForeignWrite;
  }

  lemma StoryFirst()
    ensures Initial(System([Story(0)], 0, Idle)) && Told(0) == [Story(0)]
    ensures ForeignWrite(Story(0), Story(1), 1, "a")
  {
    assert OnlyChanges(Story(0), Story(1), "a");
  }

  ghost function StoryState(i: nat): System
  {
    if i == 0 then System(Told(0), 0, Idle)
    else if i == 1 then System(Told(1), 0, Idle)
    else if i == 2 then System(Told(1), 1, Running("", {"a"}))
    else if i == 3 then System(Told(2), 1, Running("", {}))
    else if i == 4 then System(Told(2), 1, Idle)
    else if i == 5 then System(Told(2), 2, Running("", {"a"}))
    else if i == 6 then System(Told(3), 2, Running("", {}))
    else if i == 7 then System(Told(3), 2, Idle)
    else if i == 8 then System(Told(3), 0, Running("", {"b"}))
    else System(Told(4), 0, Running("", {}))
  }

  ghost function StoryStep(i: nat): Step
  {
    if i == 0 then Foreign("a")
    else if i == 1 || i == 4 || i == 7 then BeginPass("")
    else if i == 2 || i == 5 then Write("a", "")
    else if i == 8 then Write("b", "")
    else EndPass
  }

  lemma StoryUnfolds(i: nat)
    requires i < 9
    ensures StoryState(i).WellFormed()
    ensures NextReading(StoryState(i), StoryState(i + 1), StoryStep(i), 0)
  {
    hide Told, Plan, View, WriteApplies, ForeignWrite;
    StoryBegins();
    if i == 1 { StoryRead(1, 1, 0, "a"); }
    else if i == 2 { StoryWrite(1, 2, "a"); }
    else if i == 4 { StoryRead(2, 2, 1, "a"); }
    else if i == 5 { StoryWrite(2, 3, "a"); }
    else if i == 7 { StoryRead(0, 3, 2, "b"); }
    else if i == 8 { StoryWrite(0, 4, "b"); }
  }

  /** A run in which every pass may read any past state, whatever earlier passes have read. */
  ghost predicate UnorderedRun(states: seq<System>, steps: seq<Step>)
  {
    && |states| == |steps| + 1
    && Initial(states[0])
    && forall i | 0 <= i < |steps| :: states[i].WellFormed() && NextReading(states[i], states[i + 1], steps[i], 0)
  }

  lemma StoryIsRun(states: seq<System>, steps: seq<Step>)
    requires |states| == 10 && forall i: nat | i < 10 :: states[i] == StoryState(i)
    requires |steps| == 9 && forall i: nat | i < 9 :: steps[i] == StoryStep(i)
    ensures UnorderedRun(states, steps)
  {
    hide NextReading, Told, StoryStep, System.WellFormed;
    StoryBegins();
    assert states[0] == System(Told(0), 0, Idle);
    hide StoryState, Initial;
    forall i | 0 <= i < |steps|
      ensures states[i].WellFormed() && NextReading(states[i], states[i + 1], steps[i], 0)
    {
      StoryUnfolds(i);
    }
  }

  /** If a pass may read a snapshot older than its predecessor's, two tablets can end up finished. */
  lemma OldSnapshotBreaksSafety() returns (states: seq<System>, steps: seq<Step>)
    ensures UnorderedRun(states, steps)
    ensures states[|steps|].WellFormed() && !AtMostOneFinished(states[|steps|].Current())
  {
    hide UnorderedRun, Told, AtMostOneFinished, StoryStep, Initial, NextReading;
    states, steps := seq(10, (i: nat) => StoryState(i)), seq(9, (i: nat) => StoryStep(i));
    StoryIsRun(states, steps);
    StoryBegins();
    assert states[9] == System(Told(4), 0, Running("", {}));
  }
}
