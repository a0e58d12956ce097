/** Package reconciler: bringing one API object to its desired state, through in-place updates, scheduled and
    released rollouts, drains, deletions and re-creations. */
module Reconciler {
  import opened Annotations
  import opened Drain
  import opened RolloutAnnotations
  import opened Wrappers

  /** Everything of an API object that the hooks of a strategy look at and change. */
  type Body(==, !new)

  datatype Controller = Nobody | Us | SomeoneElse

  /** `annotations` holds the annotations of packages drain and rollout that these packages write. Whether the
      object supports drains is decided by its body. `evicted` says that it is a Pod that failed although it was
      to be restarted. */
  datatype Obj = Obj(labelsMatch: bool, deleting: bool, evicted: bool, controller: Controller,
                     annotations: Annotations, body: Body)

  /** A hook that is nil behaves like one that changes nothing; a nil guard lets every turndown pass. */
  datatype Strategy = Strategy(
    newBody: Body,
    updateInPlace: Body -> Body,
    updateRecreate: Body -> Body,
    updateRollingInPlace: Body -> Body,
    updateRollingRecreate: Body -> Body,
    supportsDrain: Body -> bool,
    describeDiff: (Annotations, Body, Annotations, Body) -> string,
    prepareForTurndown: Obj -> Turndown)

  datatype Turndown = Proceed | Blocked(updated: Obj)

  datatype Write = Delete | Create(obj: Obj) | Update(obj: Obj)

  const ROLLING_UPDATE := "rolling update"

  // ------------------------------------------------------------ what one call writes

  /** `updateInPlace`: the writes, and whether it fails. */
  function InPlace(cur: Obj, updated: Obj): (seq<Write>, bool)
  {
    if updated.controller.SomeoneElse? then ([], true)
    else if updated.(controller := Us) == cur then ([], false)
    else ([Update(updated.(controller := Us))], false)
  }

  /** The annotations while a released object still waits for its drain. */
  function DrainingAnnotations(s: Strategy, ann: Annotations, updated: Body, recreated: Body): Annotations
  {
    var started := Added(ann, DrainStarted, ROLLING_UPDATE);
    // The message is computed after the drain was requested, on one side only.
    WithSchedule(started, s.describeDiff(started, updated, ann, recreated))
  }

  function NewObj(s: Strategy): Obj
  {
    Obj(true, false, false, Us, map[], s.newBody)
  }

  /** The existing, desired object `cur`, which is ours and not being deleted. */
  function DecideUpdate(cur: Obj, s: Strategy): (seq<Write>, bool)
  {
    var inPlace := s.updateInPlace(cur.body);
    var rolled := s.updateRollingInPlace(inPlace);
    var recreated := s.updateRollingRecreate(rolled);
    if s.updateRecreate(inPlace) != inPlace then ([Delete], false)
    else if Released(cur.annotations) then
      if recreated == rolled then
        InPlace(cur, cur.(body := rolled, annotations := WithoutSchedule(cur.annotations)))
      else if s.supportsDrain(cur.body) && !IsFinished(cur.annotations) then
        InPlace(cur, cur.(body := rolled, annotations := DrainingAnnotations(s, cur.annotations, rolled, recreated)))
      else ([Delete], false)
    else if recreated == inPlace then
      InPlace(cur, cur.(body := inPlace, annotations := WithoutSchedule(cur.annotations)))
    else
      InPlace(cur, cur.(body := inPlace,
                        annotations := WithSchedule(cur.annotations,
                                         s.describeDiff(cur.annotations, inPlace, cur.annotations, recreated))))
  }

  function DecideTurndown(cur: Obj, s: Strategy): (seq<Write>, bool)
  {
    if cur.deleting || !cur.labelsMatch then ([], false)
    else match s.prepareForTurndown(cur)
      case Proceed => ([Delete], false)
      case Blocked(updated) => InPlace(cur, updated)
  }

  /** The writes that a call decides on, given the cached copy it reads, and whether it returns an error. */
  function Decide(cached: Option<Obj>, wanted: bool, s: Strategy): (seq<Write>, bool)
  {
    if cached.None? then
      (if wanted then [Create(NewObj(s))] else [], false)
    else if cached.value.evicted then
      ([Delete] + if wanted then [Create(NewObj(s))] else [], false)
    else if !wanted then DecideTurndown(cached.value, s)
    else if !cached.value.labelsMatch then ([], true)
    else if cached.value.deleting then ([], false)
    else DecideUpdate(cached.value, s)
  }

  // ------------------------------------------------------------ the API server

  /** Deleting the tombstone of an evicted Pod removes it at once; anything else is deleted gracefully. */
  function ApplyWrite(stored: Option<Obj>, w: Write): Option<Obj>
  {
    match w
    case Delete =>
      if stored.None? || stored.value.evicted then None else Some(stored.value.(deleting := true))
    case Create(obj) => Some(obj)
    case Update(obj) => Some(obj)
  }

  ghost function ApplyWrites(stored: Option<Obj>, ws: seq<Write>): Option<Obj>
    decreases |ws|
  {
    if ws == [] then stored else ApplyWrites(ApplyWrite(stored, ws[0]), ws[1..])
  }

  lemma ApplyPair(stored: Option<Obj>, v: Write, w: Write)
    ensures ApplyWrites(stored, [v]) == ApplyWrite(stored, v)
    ensures ApplyWrites(stored, [v, w]) == ApplyWrite(ApplyWrite(stored, v), w)
  {
    assert [v, w][1..] == [w] && [w][1..] == [];
    assert ApplyWrites(ApplyWrite(stored, v), [w]) == ApplyWrite(ApplyWrite(stored, v), w);
  }

  class Server {
    var stored: Option<Obj>
    var log: seq<Write>

    constructor (stored: Option<Obj>)
      ensures this.stored == stored && log == []
    {
      this.stored, log := stored, [];
    }

    /** One write request, which the server may refuse. */
    method Send(w: Write, accepted: bool) returns (err: bool)
      modifies this
      ensures err <==> !accepted
      ensures stored == if accepted then ApplyWrite(old(stored), w) else old(stored)
      ensures log == if accepted then old(log) + [w] else old(log)
    {
      err := !accepted;
      if accepted {
        stored := ApplyWrite(stored, w);
        log := log + [w];
      }
    }
  }

  function Prefix(ws: seq<Write>, n: nat): seq<Write>
  {
    if n < |ws| then ws[..n] else ws
  }

  /** The decided writes take effect, up to the first one that the server refuses. */
  ghost predicate Effect(server: Server, stored: Option<Obj>, log: seq<Write>, decided: (seq<Write>, bool), accepted: nat,
                         err: bool)
    reads server
  {
    && server.stored == ApplyWrites(stored, Prefix(decided.0, accepted))
    && server.log == log + Prefix(decided.0, accepted)
    && (err <==> decided.1 || accepted < |decided.0|)
  }

  method UpdateInPlace(server: Server, cur: Obj, updated: Obj, accepted: nat) returns (err: bool)
    modifies server
    ensures Effect(server, old(server.stored), old(server.log), InPlace(cur, updated), accepted, err)
  {
    if updated.controller.SomeoneElse? {
      return true;
    }
    var newObj := updated.(controller := Us);
    if newObj == cur {
      return false;
    }
    err := server.Send(Update(newObj), accepted > 0);
  }

  method DrainAndDelete(server: Server, s: Strategy, cur: Obj, updatedInPlace: Obj, recreated: Body, accepted: nat)
    returns (err: bool)
    modifies server
    ensures Effect(server, old(server.stored), old(server.log),
                   if s.supportsDrain(cur.body) && !IsFinished(cur.annotations)
                   then InPlace(cur, updatedInPlace.(annotations :=
                          DrainingAnnotations(s, updatedInPlace.annotations, updatedInPlace.body, recreated)))
                   else ([Delete], false), accepted, err)
  {
    if s.supportsDrain(cur.body) && !IsFinished(cur.annotations) {
      var meta := new Object(updatedInPlace.annotations);
      Drain.Start(meta, ROLLING_UPDATE);
      var message := s.describeDiff(meta.annotations, updatedInPlace.body, updatedInPlace.annotations, recreated);
      Schedule(meta, message);
      err := UpdateInPlace(server, cur, updatedInPlace.(annotations := meta.annotations), accepted);
      return;
    }
    err := server.Send(Delete, accepted > 0);
  }

  method ReconcileExisting(server: Server, s: Strategy, curObj: Obj, accepted: nat) returns (err: bool)
    modifies server
    ensures Effect(server, old(server.stored), old(server.log), DecideUpdate(curObj, s), accepted, err)
  {
    var updatedObjInPlace := curObj.(body := s.updateInPlace(curObj.body));
    if s.updateRecreate(updatedObjInPlace.body) != updatedObjInPlace.body {
      err := server.Send(Delete, accepted > 0);
      return;
    }
    var meta := new Object(curObj.annotations);
    if Released(curObj.annotations) {
      updatedObjInPlace := updatedObjInPlace.(body := s.updateRollingInPlace(updatedObjInPlace.body));
      var recreated := s.updateRollingRecreate(updatedObjInPlace.body);
      if recreated != updatedObjInPlace.body {
        err := DrainAndDelete(server, s, curObj, updatedObjInPlace, recreated, accepted);
        return;
      }
      Unschedule(meta);
      err := UpdateInPlace(server, curObj, updatedObjInPlace.(annotations := meta.annotations), accepted);
      return;
    }
    var updatedRollout := s.updateRollingRecreate(s.updateRollingInPlace(updatedObjInPlace.body));
    if updatedObjInPlace.body == updatedRollout {
      Unschedule(meta);
    } else {
      Schedule(meta, s.describeDiff(curObj.annotations, updatedObjInPlace.body, curObj.annotations, updatedRollout));
    }
    err := UpdateInPlace(server, curObj, updatedObjInPlace.(annotations := meta.annotations), accepted);
  }

  /** `cached` is what the client's cache returns, possibly out of date. */
  method ReconcileObject(server: Server, cached: Option<Obj>, wanted: bool, s: Strategy, accepted: nat)
    returns (err: bool)
    modifies server
    ensures Effect(server, old(server.stored), old(server.log), Decide(cached, wanted, s), accepted, err)
    // Objects with other labels are left alone; it is an error to want one.
    ensures cached.Some? && !cached.value.evicted && !cached.value.labelsMatch ==>
              server.stored == old(server.stored) && server.log == old(server.log) && (err <==> wanted)
  {
    var curObj := cached;
    var evicted := curObj.Some? && curObj.value.evicted;
    if evicted {
      ApplyPair(server.stored, Delete, Create(NewObj(s)));
      assert Prefix([Delete, Create(NewObj(s))], 1) == [Delete];
      err := server.Send(Delete, accepted > 0);
      if err {
        return;
      }
      curObj := None;
    }
    if !wanted {
      if curObj.None? || curObj.value.deleting || !curObj.value.labelsMatch {
        return false;
      }
      match s.prepareForTurndown(curObj.value) {
        case Blocked(updated) => err := UpdateInPlace(server, curObj.value, updated, accepted);
        case Proceed => err := server.Send(Delete, accepted > 0);
      }
      return;
    }
    if curObj.None? {
      err := server.Send(Create(NewObj(s)), accepted > (if evicted then 1 else 0));
      return;
    }
    if !curObj.value.labelsMatch {
      return true;
    }
    if curObj.value.deleting {
      return false;
    }
    err := ReconcileExisting(server, s, curObj.value, accepted);
  }

  // ------------------------------------------------------------ what a call means

  /** With other labels the object is not ours: nothing is written, and it is an error to want it. */
  lemma ForeignLabelsAreLeftAlone(o: Obj, wanted: bool, s: Strategy)
    requires !o.evicted && !o.labelsMatch
    ensures Decide(Some(o), wanted, s).0 == []
    ensures Decide(Some(o), wanted, s).1 <==> wanted
  {
  }

  /** An object with another owner may be deleted, but it is never updated, and failing to update it is an error. */
  lemma ForeignOwnerIsNotUpdated(o: Obj, s: Strategy)
    requires o.labelsMatch && !o.deleting && !o.evicted && o.controller.SomeoneElse?
    ensures Decide(Some(o), true, s).0 == [] || Decide(Some(o), true, s).0 == [Delete]
    ensures Decide(Some(o), true, s).1 <==> Decide(Some(o), true, s).0 == []
  {
  }

  /** A missing object is created if it is wanted; the tombstone of an evicted Pod is removed first, whatever its
      labels are. */
  lemma MissingIsCreated(o: Obj, wanted: bool, s: Strategy)
    requires o.evicted
    ensures var created := Obj(true, false, false, Us, map[], s.newBody);
            && Decide(None, wanted, s) == (if wanted then [Create(created)] else [], false)
            && Decide(Some(o), wanted, s) == (if wanted then [Delete, Create(created)] else [Delete], false)
            && ApplyWrites(Some(o), Decide(Some(o), wanted, s).0) == if wanted then Some(created) else None
  {
    assert [Delete] + [Create(NewObj(s))] == [Delete, Create(NewObj(s))] && [Delete] + [] == [Delete];
    ApplyPair(Some(o), Delete, Create(NewObj(s)));
  }

  /** The object after one accepted call for a wanted object. */
  ghost function Brought(o: Obj, s: Strategy): Option<Obj>
  {
    ApplyWrites(Some(o), Decide(Some(o), true, s).0)
  }

  /** The object has this body and is ours; of its annotations only those in `keys` may have changed. */
  ghost predicate Shows(next: Option<Obj>, o: Obj, body: Body, keys: set<Key>)
  {
    next.Some? && next.value == o.(body := body, controller := Us, annotations := next.value.annotations)
    && next.value.annotations - keys == o.annotations - keys
  }

  lemma OneWrite(o: Obj, w: Write)
    ensures ApplyWrites(Some(o), [w]) == ApplyWrite(Some(o), w) && ApplyWrites(Some(o), []) == Some(o)
  {
    ApplyPair(Some(o), w, w);
  }

  /** A change that needs an immediate recreation deletes the object at once, released or not, drained or not. */
  lemma RecreatedAtOnce(o: Obj, s: Strategy)
    requires o.labelsMatch && !o.deleting && !o.evicted
    requires s.updateRecreate(s.updateInPlace(o.body)) != s.updateInPlace(o.body)
    ensures Brought(o, s) == Some(o.(deleting := true))
  {
    OneWrite(o, Delete);
  }

  /** An object that is not released gets the in-place changes at once; it is scheduled, with the description of what
      else is to come, exactly if anything else is to come, and nothing of that is applied. */
  lemma UnreleasedIsScheduled(o: Obj, s: Strategy)
    requires o.labelsMatch && !o.deleting && !o.evicted && !o.controller.SomeoneElse?
    requires RolloutReleased !in o.annotations
    requires s.updateRecreate(s.updateInPlace(o.body)) == s.updateInPlace(o.body)
    ensures var next, inPlace := Brought(o, s), s.updateInPlace(o.body);
            var rollout := s.updateRollingRecreate(s.updateRollingInPlace(inPlace));
            && Shows(next, o, inPlace, {RolloutScheduled})
            && (RolloutScheduled in next.value.annotations <==> rollout != inPlace)
            && (rollout != inPlace ==>
                  next.value.annotations[RolloutScheduled]
                  == s.describeDiff(o.annotations, inPlace, o.annotations, rollout))
  {
    var w := Decide(Some(o), true, s).0;
    OneWrite(o, if w == [] then Delete else w[0]);
    assert w == [] || w == [w[0]];
  }

  /** What is left of a released object that need not be recreated: the rolling changes, and no trace of the rollout. */
  lemma ReleasedIsUpdated(o: Obj, s: Strategy)
    requires o.labelsMatch && !o.deleting && !o.evicted && !o.controller.SomeoneElse?
    requires RolloutReleased in o.annotations
    requires s.updateRecreate(s.updateInPlace(o.body)) == s.updateInPlace(o.body)
    requires var rolled := s.updateRollingInPlace(s.updateInPlace(o.body)); s.updateRollingRecreate(rolled) == rolled
    ensures var next, rolled := Brought(o, s), s.updateRollingInPlace(s.updateInPlace(o.body));
            && Shows(next, o, rolled, {RolloutScheduled, RolloutReleased})
            && RolloutScheduled !in next.value.annotations && RolloutReleased !in next.value.annotations
  {
    var w := Decide(Some(o), true, s).0;
    OneWrite(o, if w == [] then Delete else w[0]);
    assert w == [] || w == [w[0]];
  }

  /** A released object that has to be recreated is deleted, unless it supports drains and is not drained yet: then it
      gets the changes that can be made in place, and a drain is requested if none was, and it stays released. */
  lemma ReleasedIsDrainedFirst(o: Obj, s: Strategy)
    requires o.labelsMatch && !o.deleting && !o.evicted && !o.controller.SomeoneElse?
    requires RolloutReleased in o.annotations
    requires s.updateRecreate(s.updateInPlace(o.body)) == s.updateInPlace(o.body)
    requires var rolled := s.updateRollingInPlace(s.updateInPlace(o.body)); s.updateRollingRecreate(rolled) != rolled
    ensures var next, rolled := Brought(o, s), s.updateRollingInPlace(s.updateInPlace(o.body));
            if s.supportsDrain(o.body) && DrainFinished !in o.annotations then
              && Shows(next, o, rolled, {RolloutScheduled, DrainStarted})
              && RolloutScheduled in next.value.annotations && DrainStarted in next.value.annotations
              && next.value.annotations[DrainStarted]
                 == (if DrainStarted in o.annotations then o.annotations[DrainStarted] else "rolling update")
              && next.value.annotations[RolloutScheduled]
                 == s.describeDiff(o.annotations[DrainStarted := next.value.annotations[DrainStarted]], rolled,
                                   o.annotations, s.updateRollingRecreate(rolled))
            else next == Some(o.(deleting := true))
  {
    var w := Decide(Some(o), true, s).0;
    OneWrite(o, if w == [] then Delete else w[0]);
    assert w == [] || w == [w[0]];
    assert DrainStarted in o.annotations ==> o.annotations[DrainStarted := o.annotations[DrainStarted]] == o.annotations;
  }

  /** An unwanted object of ours is deleted, or, if its turndown is blocked, it gets what the guard has changed. */
  lemma UnwantedIsTurnedDown(o: Obj, s: Strategy)
    requires o.labelsMatch && !o.deleting && !o.evicted
    ensures var decided := Decide(Some(o), false, s);
            match s.prepareForTurndown(o)
            case Proceed => decided == ([Delete], false)
            case Blocked(updated) =>
              if updated.controller.SomeoneElse? then decided == ([], true)
              else !decided.1 && ApplyWrites(Some(o), decided.0) == Some(updated.(controller := Us))
  {
    var w := Decide(Some(o), false, s).0;
    OneWrite(o, if w == [] then Delete else w[0]);
    assert w == [] || w == [w[0]];
  }

  // ------------------------------------------------------------ convergence

  /** What the hooks have to respect for reconciliation to come to rest. */
  ghost predicate Lawful(s: Strategy)
  {
    var I, P, Q, R := s.updateInPlace, s.updateRollingInPlace, s.updateRollingRecreate, s.updateRecreate;
    // In-place updates are idempotent, and undone neither by themselves nor by each other.
    && (forall b :: I(I(b)) == I(b))
    && (forall b :: I(P(I(b))) == P(I(b)) && P(P(I(b))) == P(I(b)))
    // A new object need not be recreated.
    && (var n := I(s.newBody); R(n) == n && R(P(n)) == P(n) && Q(P(n)) == P(n))
    // A difference that lies only in the bodies is described by the bodies only.
    && (forall a, b, x, y :: s.describeDiff(a, x, a, y) == s.describeDiff(b, x, b, y))
  }

  /** One error-free call for a wanted object, with up-to-date reads. */
  ghost function Reconciled(st: Option<Obj>, s: Strategy): Option<Obj>
  {
    ApplyWrites(st, Decide(st, true, s).0)
  }

  ghost predicate Doomed(b: Body, s: Strategy)
  {
    s.updateRecreate(s.updateInPlace(b)) != s.updateInPlace(b)
  }

  /** The body can only be brought up to date by deleting and recreating the object. */
  ghost predicate Stale(b: Body, s: Strategy)
  {
    var rolled := s.updateRollingInPlace(s.updateInPlace(b));
    Doomed(b, s) || s.updateRecreate(rolled) != rolled || s.updateRollingRecreate(rolled) != rolled
  }

  /** How far the object still has to go: the phases of a rollout, in descending order. */
  ghost function Stage(st: Option<Obj>, s: Strategy): nat
  {
    if st.None? then 4
    else
      var o := st.value;
      var inPlace := s.updateInPlace(o.body);
      var rolled := s.updateRollingInPlace(inPlace);
      if o.evicted then 11
      else if o.deleting then 5
      else if Doomed(o.body, s) then 6
      else if Stale(o.body, s) then
        if !Released(o.annotations) then 10
        else if s.updateRollingRecreate(rolled) == rolled || IsFinished(o.annotations) || !s.supportsDrain(o.body) then 7
        else if Started(o.annotations) then 8
        else 9
      else if Released(o.annotations) then 2
      else if rolled != inPlace || Scheduled(o.annotations) then 3
      else 1
  }

  ghost function Rank(st: Option<Obj>, s: Strategy): nat
  {
    8 * Stage(st, s)
    + (if st.Some? && !IsFinished(st.value.annotations) then 2 else 0)
    + (if st.Some? && !Released(st.value.annotations) then 2 else 0)
    + (if Reconciled(st, s) != st then 1 else 0)
  }

  /** The object exists and is ours, or it does not exist. */
  ghost predicate Ours(st: Option<Obj>)
  {
    st.Some? ==> st.value.labelsMatch && !st.value.controller.SomeoneElse?
  }

  lemma ReconciledWrites(st: Option<Obj>, s: Strategy)
    ensures var ws := Decide(st, true, s).0;
            Reconciled(st, s) == if |ws| == 0 then st
                                 else if |ws| == 1 then ApplyWrite(st, ws[0])
                                 else Some(NewObj(s))
  {
    if st.Some? && st.value.evicted {
      ApplyPair(st, Delete, Create(NewObj(s)));
    } else if |Decide(st, true, s).0| == 1 {
      var w := Decide(st, true, s).0[0];
      assert Decide(st, true, s).0 == [w];
      ApplyPair(st, w, w);
    }
  }

  /** The message of a schedule does not change any more once it has been written. */
  lemma SameMessage(s: Strategy, a: Annotations, b: Annotations, x: Body, y: Body)
    requires Lawful(s)
    ensures s.describeDiff(a, x, a, y) == s.describeDiff(b, x, b, y)
  {
  }

  lemma BodyLaws(s: Strategy, b: Body)
    requires Lawful(s)
    ensures var inPlace := s.updateInPlace(b);
            var rolled := s.updateRollingInPlace(inPlace);
            && s.updateInPlace(inPlace) == inPlace
            && s.updateInPlace(rolled) == rolled
            && s.updateRollingInPlace(rolled) == rolled
  {
  }

  lemma FreshObject(s: Strategy)
    requires Lawful(s)
    ensures Ours(Some(NewObj(s))) && Stage(Some(NewObj(s)), s) <= 3
  {
    BodyLaws(s, s.newBody);
  }

  lemma ScheduleLowersRank(o: Obj, s: Strategy)
    requires Lawful(s) && Ours(Some(o)) && !o.evicted && !o.deleting && !Doomed(o.body, s) && !Released(o.annotations)
    requires Reconciled(Some(o), s) != Some(o)
    ensures Ours(Reconciled(Some(o), s))
    ensures Rank(Reconciled(Some(o), s), s) < Rank(Some(o), s)
  {
    ReconciledWrites(Some(o), s);
    BodyLaws(s, o.body);
    var next := Reconciled(Some(o), s);
    var inPlace := s.updateInPlace(o.body);
    var target := s.updateRollingRecreate(s.updateRollingInPlace(inPlace));
    SameMessage(s, o.annotations, next.value.annotations, inPlace, target);
    ReconciledWrites(next, s);
    hide Lawful;
    assert Reconciled(next, s) == next;
  }

  lemma ReleasedLowersRank(o: Obj, s: Strategy)
    requires Lawful(s) && Ours(Some(o)) && !o.evicted && !o.deleting && !Doomed(o.body, s) && Released(o.annotations)
    requires Reconciled(Some(o), s) != Some(o)
    ensures Ours(Reconciled(Some(o), s))
    ensures Rank(Reconciled(Some(o), s), s) < Rank(Some(o), s)
  {
    ReconciledWrites(Some(o), s);
    BodyLaws(s, o.body);
    var next := Reconciled(Some(o), s);
    var rolled := s.updateRollingInPlace(s.updateInPlace(o.body));
    var target := s.updateRollingRecreate(rolled);
    ReconciledWrites(next, s);
    if target != rolled && s.supportsDrain(o.body) && !IsFinished(o.annotations) {
      SameMessage(s, o.annotations, next.value.annotations, rolled, target);
      assert Started(next.value.annotations);
    }
    hide Lawful;
  }

  /** Every call that changes anything takes the object closer to its goal: even the second write during a
      drain, which only corrects the message, happens once. */
  lemma CallLowersRank(st: Option<Obj>, s: Strategy)
    requires Lawful(s) && Ours(st) && Reconciled(st, s) != st
    ensures Ours(Reconciled(st, s))
    ensures Rank(Reconciled(st, s), s) < Rank(st, s)
  {
    ReconciledWrites(st, s);
    FreshObject(s);
    if st.None? || st.value.evicted {
      assert Reconciled(st, s) == Some(NewObj(s));
    } else if st.value.deleting {
      assert false;
    } else if Doomed(st.value.body, s) {
      assert Stage(Reconciled(st, s), s) == 5;
    } else if Released(st.value.annotations) {
      ReleasedLowersRank(st.value, s);
    } else {
      ScheduleLowersRank(st.value, s);
    }
  }

  // ------------------------------------------------------------ the other agents

  datatype Event =
    | Call                  // ReconcileObject
    | ReleaseScheduled      // a rollout policy releases a scheduled object
    | FinishDrain           // the drain controller finishes a requested drain
    | Vanish                // a deleted object is finally gone

  ghost function After(st: Option<Obj>, s: Strategy, e: Event): Option<Obj>
  {
    match e
    case Call => Reconciled(st, s)
    case ReleaseScheduled =>
      if st.Some? && Scheduled(st.value.annotations) && !Released(st.value.annotations)
      then Some(st.value.(annotations := WithRelease(st.value.annotations))) else st
    case FinishDrain =>
      if st.Some? && Started(st.value.annotations) && !IsFinished(st.value.annotations)
      then Some(st.value.(annotations := st.value.annotations[DrainFinished := ""])) else st
    case Vanish => if st.Some? && st.value.deleting then None else st
  }

  lemma ReleaseLowersRank(st: Option<Obj>, s: Strategy)
    requires Lawful(s) && Ours(st) && After(st, s, ReleaseScheduled) != st
    ensures Rank(After(st, s, ReleaseScheduled), s) < Rank(st, s)
  {
    hide Reconciled, Lawful;
  }

  lemma FinishLowersRank(st: Option<Obj>, s: Strategy)
    requires Lawful(s) && Ours(st) && After(st, s, FinishDrain) != st
    ensures Rank(After(st, s, FinishDrain), s) < Rank(st, s)
  {
    hide Reconciled, Lawful;
  }

  lemma EventLowersRank(st: Option<Obj>, s: Strategy, e: Event)
    requires Lawful(s) && Ours(st) && After(st, s, e) != st
    ensures Ours(After(st, s, e))
    ensures Rank(After(st, s, e), s) < Rank(st, s)
  {
    match e
    case Call => CallLowersRank(st, s);
    case ReleaseScheduled => ReleaseLowersRank(st, s);
    case FinishDrain => FinishLowersRank(st, s);
    case Vanish => hide Reconciled, Lawful;
  }

  ghost function Outcome(st: Option<Obj>, s: Strategy, events: seq<Event>): Option<Obj>
  {
    if events == [] then st
    else After(Outcome(st, s, events[..|events| - 1]), s, events[|events| - 1])
  }

  /** The number of events that changed anything. */
  ghost function Changes(st: Option<Obj>, s: Strategy, events: seq<Event>): nat
  {
    if events == [] then 0
    else
      var init := events[..|events| - 1];
      Changes(st, s, init) + if Outcome(st, s, events) != Outcome(st, s, init) then 1 else 0
  }

  /** However calls, releases, drains and completed deletions interleave, only a bounded number of them change
      anything, and the bound depends on nothing but the starting point. */
  lemma {:induction false} BoundedChanges(st: Option<Obj>, s: Strategy, events: seq<Event>)
    requires Lawful(s) && Ours(st)
    ensures Ours(Outcome(st, s, events))
    ensures Changes(st, s, events) + Rank(Outcome(st, s, events), s) <= Rank(st, s) <= 93
  {
    if events != [] {
      var init := events[..|events| - 1];
      BoundedChanges(st, s, init);
      hide Rank, Lawful, After, Ours;
      if Outcome(st, s, events) != Outcome(st, s, init) {
        EventLowersRank(Outcome(st, s, init), s, events[|events| - 1]);
      }
    }
  }

  /** Nothing is left to do: the object is as the hooks want it, and carries no trace of a rollout. */
  ghost predicate UpToDate(o: Obj, s: Strategy)
  {
    && o.controller.Us?
    && s.updateInPlace(o.body) == o.body
    && s.updateRecreate(o.body) == o.body
    && s.updateRollingRecreate(s.updateRollingInPlace(o.body)) == o.body
    && !Scheduled(o.annotations) && !Released(o.annotations)
  }

  /** Where the calls come to rest: the object is up to date, or waits to be released, to be drained or to
      vanish; hence when no event of any kind changes anything any more, it is up to date. */
  lemma RestingPlaces(st: Option<Obj>, s: Strategy)
    requires Ours(st) && Reconciled(st, s) == st
    ensures st.Some?
    ensures || UpToDate(st.value, s)
            || st.value.deleting
            || After(st, s, ReleaseScheduled) != st
            || After(st, s, FinishDrain) != st
  {
    ReconciledWrites(st, s);
  }

  /** A call changes the object exactly when it writes at all. */
  lemma WritesAreChanges(st: Option<Obj>, s: Strategy)
    requires Ours(st)
    ensures Decide(st, true, s).0 == [] <==> Reconciled(st, s) == st
  {
    ReconciledWrites(st, s);
  }

  ghost function Calls(st: Option<Obj>, s: Strategy, n: nat): Option<Obj>
    decreases n
  {
    if n == 0 then st else Calls(Reconciled(st, s), s, n - 1)
  }

  /** In an unchanged environment, repeated calls reach a state in which the next call writes nothing. */
  lemma {:induction false} CallsComeToRest(st: Option<Obj>, s: Strategy)
    requires Lawful(s) && Ours(st)
    ensures exists n: nat :: n <= Rank(st, s) && Ours(Calls(st, s, n)) && Decide(Calls(st, s, n), true, s).0 == []
    decreases Rank(st, s)
  {
    if Reconciled(st, s) == st {
      WritesAreChanges(st, s);
      assert Calls(st, s, 0) == st;
    } else {
      CallLowersRank(st, s);
      CallsComeToRest(Reconciled(st, s), s);
      var next := Reconciled(st, s);
      var n: nat :| n <= Rank(next, s) && Ours(Calls(next, s, n)) && Decide(Calls(next, s, n), true, s).0 == [];
      assert Calls(st, s, n + 1) == Calls(next, s, n);
    }
  }
}
