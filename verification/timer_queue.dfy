/** Package resync: a binary heap of timers with back-pointers, and the loop that triggers periodic resyncs.

    The heap operations are those of Go's container/heap, working through `Less` and `Swap` of the queue. */
module TimerQueue {
  import opened Wrappers

  datatype ObjectKey = ObjectKey(namespace: string, name: string)

  class Timer {
    const objectKey: ObjectKey
    var expiration: int
    var index: int

    constructor (objectKey: ObjectKey, expiration: int)
      ensures this.objectKey == objectKey && this.expiration == expiration
    {
      this.objectKey, this.expiration, this.index := objectKey, expiration, 0;
    }
  }

  // ------------------------------------------------------------ heap order on values

  function Parent(i: int): int
    requires i > 0
  {
    (i - 1) / 2
  }

  /** The first `n` values are in heap order. */
  ghost predicate IsHeap(e: seq<int>, n: int)
  {
    n <= |e| && forall i | 0 < i < n :: e[Parent(i)] <= e[i]
  }

  /** Only the value at `j` may be out of order, towards its parent or its children. */
  ghost predicate HeapBut(e: seq<int>, n: int, j: int)
  {
    && n <= |e|
    && (forall i | 0 < i < n && i != j && Parent(i) != j :: e[Parent(i)] <= e[i])
    && (j > 0 ==> forall i | 0 < i < n && Parent(i) == j :: e[Parent(j)] <= e[i])
  }

  ghost predicate FitsBelow(e: seq<int>, n: int, j: int)
  {
    n <= |e| && (0 < j < n ==> e[Parent(j)] <= e[j])
  }

  ghost predicate FitsAbove(e: seq<int>, n: int, j: int)
  {
    n <= |e| && 0 <= j && forall i | 0 < i < n && Parent(i) == j :: e[j] <= e[i]
  }

  function Swapped<T>(s: seq<T>, i: int, j: int): seq<T>
    requires 0 <= i < |s| && 0 <= j < |s|
  {
    s[i := s[j]][j := s[i]]
  }

  lemma SiftUpStep(e: seq<int>, j: int)
    requires 0 < j < |e| && HeapBut(e, |e|, j) && FitsAbove(e, |e|, j)
    requires e[j] < e[Parent(j)]
    ensures HeapBut(Swapped(e, Parent(j), j), |e|, Parent(j))
    ensures FitsAbove(Swapped(e, Parent(j), j), |e|, Parent(j))
  {
    var p, f := Parent(j), Swapped(e, Parent(j), j);
    forall i | 0 < i < |e| && i != p && Parent(i) != p ensures f[Parent(i)] <= f[i] {
      assert Parent(i) != j ==> e[Parent(i)] <= e[i];
    }
    forall i | 0 < i < |e| && Parent(i) == p ensures f[p] <= f[i] {
      assert i != j ==> e[p] <= e[i];
    }
  }

  /** `c` is the least child of `i`, and less than it. */
  lemma SiftDownStep(e: seq<int>, n: int, i: int, c: int)
    requires 0 <= i < c < n <= |e| && Parent(c) == i && HeapBut(e, n, i)
    requires forall d | 0 < d < n && Parent(d) == i :: e[c] <= e[d]
    requires e[c] < e[i]
    ensures HeapBut(Swapped(e, i, c), n, c)
    ensures FitsBelow(Swapped(e, i, c), n, c) && FitsBelow(Swapped(e, i, c), n, i)
  {
    var f := Swapped(e, i, c);
    forall k | 0 < k < n && k != c && Parent(k) != c ensures f[Parent(k)] <= f[k] {
      if Parent(k) == i {
        assert e[c] <= e[k];
      } else if k == i {
        assert e[Parent(i)] <= e[c];
      } else {
        assert e[Parent(k)] <= e[k];
      }
    }
    forall k | 0 < k < n && Parent(k) == c ensures f[i] <= f[k] {
      assert e[c] <= e[k];
    }
  }

  lemma Settled(e: seq<int>, n: int, j: int)
    requires 0 <= j && HeapBut(e, n, j) && FitsAbove(e, n, j) && FitsBelow(e, n, j)
    ensures IsHeap(e, n)
  {
  }

  /** Nothing is to be done at `i` once its least child `c`, if it has one, is no less. */
  lemma SiftDownEnds(e: seq<int>, n: int, i: int, c: int)
    requires 0 <= i && 0 <= n <= |e|
    requires 2 * i + 1 < n ==> 0 <= c < n && e[i] <= e[c] && forall d | 0 < d < n && Parent(d) == i :: e[c] <= e[d]
    ensures FitsAbove(e, n, i)
  {
  }

  /** The child that `down` compares with is the least one. */
  lemma LeastChild(e: seq<int>, n: int, i: int, c: int)
    requires 0 <= i && n <= |e| && 2 * i + 1 < n
    requires c == if 2 * i + 2 < n && e[2 * i + 2] < e[2 * i + 1] then 2 * i + 2 else 2 * i + 1
    ensures Parent(c) == i && c < n && forall d | 0 < d < n && Parent(d) == i :: e[c] <= e[d]
  {
    assert forall d | 0 < d < n && Parent(d) == i :: d == 2 * i + 1 || d == 2 * i + 2;
  }

  lemma {:induction false} RootIsLeast(e: seq<int>, n: int, i: int)
    requires IsHeap(e, n) && 0 <= i < n
    ensures e[0] <= e[i]
  {
    if i > 0 {
      RootIsLeast(e, n, Parent(i));
    }
  }

  lemma ChangedOnce(e: seq<int>, i: int, x: int)
    requires IsHeap(e, |e|) && 0 <= i < |e|
    ensures HeapBut(e[i := x], |e|, i)
  {
    forall c | 0 < c < |e| && i > 0 && Parent(c) == i ensures e[Parent(i)] <= e[c] {
      assert e[Parent(i)] <= e[i] <= e[c];
    }
  }

  lemma DropLast<T>(s: seq<T>, n: int)
    requires 0 <= n && |s| == n + 1 && forall i | 0 <= i < n :: s[i] != s[n]
    ensures (set x | x in s[..n]) == (set x | x in s) - {s[n]}
  {
    assert s == s[..n] + [s[n]];
  }

  /** A value added at the end may only be out of order towards its parent. */
  lemma AppendedBelow(e: seq<int>, f: seq<int>)
    requires IsHeap(e, |e|) && |f| == |e| + 1 && f[..|e|] == e
    ensures HeapBut(f, |f|, |e|) && FitsAbove(f, |f|, |e|)
  {
    forall i | 0 < i < |f| && i != |e|
      ensures f[Parent(i)] <= f[i]
    {
      assert f[i] == e[i] && f[Parent(i)] == e[Parent(i)];
    }
  }

  lemma SwapOutRoot(e: seq<int>, n: int)
    requires |e| == n + 1 && n >= 0 && IsHeap(e, |e|)
    ensures HeapBut(Swapped(e, 0, n), n, 0)
  {
    assert forall i | 0 < i < n :: Parent(i) < n;
  }

  lemma Shrunk(e: seq<int>, n: int)
    requires 0 <= n <= |e| && IsHeap(e, n)
    ensures IsHeap(e[..n], n)
  {
  }

  // ------------------------------------------------------------ the plain map that the queue stands for

  /** The pending keys when `event` is an enqueue request, with its expiration, or a tick. */
  function Requested(pending: map<ObjectKey, int>, event: Option<(ObjectKey, int)>): map<ObjectKey, int>
  {
    if event.None? then pending else pending[event.value.0 := event.value.1]
  }

  function Expired(pending: map<ObjectKey, int>, now: int): set<ObjectKey>
  {
    set k | k in pending && pending[k] < now
  }

  ghost predicate IsEarliest(pending: map<ObjectKey, int>, due: int)
  {
    (exists k :: k in pending && pending[k] == due) && forall k | k in pending :: due <= pending[k]
  }

  /** Pending keys, each once, soonest first. */
  ghost predicate InOrder(pending: map<ObjectKey, int>, keys: seq<ObjectKey>)
  {
    && (forall k | k in keys :: k in pending)
    && forall i, j | 0 <= i < j < |keys| :: keys[i] != keys[j] && pending[keys[i]] <= pending[keys[j]]
  }

  /** `keys` lists exactly the expired keys, in order of expiration. */
  ghost predicate TriggersExpired(pending: map<ObjectKey, int>, now: int, keys: seq<ObjectKey>)
  {
    InOrder(pending, keys) && forall k :: k in keys <==> k in Expired(pending, now)
  }

  // ------------------------------------------------------------ the queue

  ghost function ExpirationsOf(timers: seq<Timer>): (e: seq<int>)
    reads timers`expiration
    ensures |e| == |timers|
    ensures forall i | 0 <= i < |timers| :: e[i] == timers[i].expiration
  {
    if timers == [] then [] else [timers[0].expiration] + ExpirationsOf(timers[1..])
  }

  /** The map holds exactly these timers, each under its own key. */
  ghost predicate Links(objTimers: map<ObjectKey, Timer>, timers: set<Timer>)
  {
    && (forall k | k in objTimers :: objTimers[k] in timers && objTimers[k].objectKey == k)
    && (forall t | t in timers :: t.objectKey in objTimers && objTimers[t.objectKey] == t)
  }

  lemma LinkOneMore(objTimers: map<ObjectKey, Timer>, timers: set<Timer>, t: Timer)
    requires Links(objTimers, timers) && t.objectKey !in objTimers
    ensures Links(objTimers[t.objectKey := t], timers + {t})
  {
  }

  lemma LinkOneLess(objTimers: map<ObjectKey, Timer>, timers: set<Timer>, t: Timer)
    requires Links(objTimers, timers) && t in timers
    ensures t.objectKey in objTimers && Links(objTimers - {t.objectKey}, timers - {t})
  {
  }

  /** The state of the loop `run`: the heap, the map from keys to timers, and when the Go timer is due. */
  class Periodic {
    var queue: seq<Timer>
    var objTimers: map<ObjectKey, Timer>
    var nextTimer: Option<int>

    constructor ()
      ensures Valid() && Pending() == map[] && nextTimer == None
    {
      queue, objTimers, nextTimer := [], map[], None;
    }

    ghost function Expirations(): (e: seq<int>)
      reads this`queue, queue`expiration
      ensures |e| == |queue|
      ensures forall i | 0 <= i < |queue| :: e[i] == queue[i].expiration
    {
      ExpirationsOf(queue)
    }

    ghost function Timers(): set<Timer>
      reads this`queue
    {
      set t | t in queue
    }

    /** Every timer knows its position. */
    ghost predicate Indexed()
      reads this`queue, queue`index
    {
      forall i | 0 <= i < |queue| :: queue[i].index == i
    }

    ghost predicate Linked()
      reads this`queue, this`objTimers
    {
      Links(objTimers, Timers())
    }

    ghost predicate Valid()
      reads this`queue, this`objTimers, queue
    {
      Indexed() && Linked() && IsHeap(Expirations(), |queue|)
    }

    ghost function Pending(): map<ObjectKey, int>
      reads this`objTimers, objTimers.Values`expiration
    {
      map k | k in objTimers :: objTimers[k].expiration
    }

    method Less(i: int, j: int) returns (r: bool)
      requires 0 <= i < |queue| && 0 <= j < |queue|
      ensures r <==> Expirations()[i] < Expirations()[j]
    {
      r := queue[i].expiration < queue[j].expiration;
    }

    method Swap(i: int, j: int)
      requires Indexed() && 0 <= i < |queue| && 0 <= j < |queue|
      modifies this`queue, Timers()`index
      ensures Indexed() && queue == Swapped(old(queue), i, j)
      ensures Expirations() == Swapped(old(Expirations()), i, j)
      ensures Timers() == old(Timers())
    {
      hide Periodic.Expirations;
      ghost var before := Expirations();
      queue := queue[i := queue[j]][j := queue[i]];
      assert Expirations() == Swapped(before, i, j);
      queue[i].index := i;
      queue[j].index := j;
      forall t | t in old(queue) ensures t in queue {
        var k :| 0 <= k < |old(queue)| && old(queue)[k] == t;
        assert t == if k == i then queue[j] else if k == j then queue[i] else queue[k];
      }
    }

    method Up(j0: int)
      requires Indexed() && 0 <= j0 < |queue|
      requires HeapBut(Expirations(), |queue|, j0) && FitsAbove(Expirations(), |queue|, j0)
      modifies this`queue, Timers()`index
      ensures Indexed() && IsHeap(Expirations(), |queue|)
      ensures |queue| == |old(queue)| && Timers() == old(Timers())
    {
      hide HeapBut, FitsAbove, IsHeap, Periodic.Expirations, Periodic.Indexed, Periodic.Timers;
      var j := j0;
      while true
        invariant 0 <= j < |queue| == |old(queue)|
        invariant Timers() == old(Timers())
        invariant Indexed()
        invariant HeapBut(Expirations(), |queue|, j) && FitsAbove(Expirations(), |queue|, j)
        decreases j
      {
        var i := if j == 0 then 0 else (j - 1) / 2;
        if i == j {
          break;
        }
        var less := Less(j, i);
        if !less {
          break;
        }
        SiftUpStep(Expirations(), j);
        Swap(i, j);
        j := i;
      }
      Settled(Expirations(), |queue|, j);
    }

    /** The lesser child of `i`, the left one if they are equal. */
    method LesserChild(i: int, n: int) returns (j: int)
      requires 0 <= i && 2 * i + 1 < n <= |queue|
      ensures i < j < n && Parent(j) == i
      ensures forall d | 0 < d < n && Parent(d) == i :: Expirations()[j] <= Expirations()[d]
    {
      j := 2 * i + 1;
      var j2 := j + 1;
      if j2 < n {
        var right := Less(j2, j);
        if right {
          j := j2;
        }
      }
      LeastChild(Expirations(), n, i, j);
    }

    method Down(i0: int, n: int) returns (moved: bool)
      requires Indexed() && 0 <= i0 && 0 <= n <= |queue| && HeapBut(Expirations(), n, i0)
      modifies this`queue, Timers()`index
      ensures Indexed() && |queue| == |old(queue)| && Timers() == old(Timers())
      ensures forall k | n <= k < |queue| :: queue[k] == old(queue)[k]
      ensures moved ==> IsHeap(Expirations(), n)
      ensures !moved ==> queue == old(queue) && HeapBut(Expirations(), n, i0) && FitsAbove(Expirations(), n, i0)
    {
      hide HeapBut, FitsAbove, FitsBelow, IsHeap, Periodic.Expirations, Periodic.Indexed, Periodic.Timers;
      var i := i0;
      while true
        invariant i0 <= i && |queue| == |old(queue)|
        invariant Timers() == old(Timers())
        invariant Indexed() && forall k | n <= k < |queue| :: queue[k] == old(queue)[k]
        invariant HeapBut(Expirations(), n, i)
        invariant i > i0 ==> FitsBelow(Expirations(), n, i)
        invariant i == i0 ==> queue == old(queue)
        decreases n - i
      {
        var j1 := 2 * i + 1;
        if j1 >= n {
          SiftDownEnds(Expirations(), n, i, 0);
          break;
        }
        var j := LesserChild(i, n);
        var less := Less(j, i);
        if !less {
          SiftDownEnds(Expirations(), n, i, j);
          break;
        }
        SiftDownStep(Expirations(), n, i, j);
        Swap(i, j);
        i := j;
      }
      moved := i > i0;
      if moved {
        Settled(Expirations(), n, i);
      }
    }

    /** Push: the new timer goes to the end. */
    method Push(t: Timer)
      requires Indexed() && t !in queue
      modifies this`queue, t`index
      ensures Indexed() && queue == old(queue) + [t]
      ensures Timers() == old(Timers()) + {t}
    {
      t.index := |queue|;
      queue := queue + [t];
    }

    /** heap.Push */
    method HeapPush(t: Timer)
      requires Indexed() && IsHeap(Expirations(), |queue|) && t !in queue
      modifies this`queue, Timers()`index, t`index
      ensures Indexed() && IsHeap(Expirations(), |queue|)
      ensures Timers() == old(Timers()) + {t}
    {
      ghost var e := Expirations();
      Push(t);
      AppendedBelow(e, Expirations());
      hide IsHeap, HeapBut, FitsAbove, Periodic.Expirations, Periodic.Indexed, Periodic.Timers;
      Up(|queue| - 1);
    }

    /** heap.Fix */
    method HeapFix(i: int)
      requires Indexed() && 0 <= i < |queue| && HeapBut(Expirations(), |queue|, i)
      modifies this`queue, Timers()`index
      ensures Indexed() && IsHeap(Expirations(), |queue|)
      ensures Timers() == old(Timers())
    {
      var moved := Down(i, |queue|);
      if !moved {
        Up(i);
      }
    }

    /** heap.Pop */
    method HeapPop() returns (t: Timer)
      requires Indexed() && IsHeap(Expirations(), |queue|) && |queue| > 0
      modifies this`queue, Timers()`index
      ensures Indexed() && IsHeap(Expirations(), |queue|)
      ensures t == old(queue)[0]
      ensures Timers() == old(Timers()) - {t}
    {
      hide IsHeap, HeapBut, Periodic.Expirations;
      var n := |queue| - 1;
      SwapOutRoot(Expirations(), n);
      Swap(0, n);
      var moved := Down(0, n);
      t := queue[n];
      ghost var e := Expirations();
      Shrunk(e, n);
      assert forall i | 0 <= i < n :: queue[i] != queue[n];
      DropLast(queue, n);
      t.index := -1;
      queue := queue[..n];
      hide Periodic.Timers;
      assert Expirations() == e[..n];
    }

    lemma EmptyQueue()
      requires Valid() && |queue| == 0
      ensures Pending() == map[]
    {
      assert Timers() == {};
    }

    /** The root of the heap is due first of all pending keys. */
    lemma RootIsEarliest()
      requires Valid() && |queue| > 0
      ensures queue[0].objectKey in Pending()
      ensures Pending()[queue[0].objectKey] == queue[0].expiration
      ensures IsEarliest(Pending(), queue[0].expiration)
    {
      assert queue[0] in Timers();
      var root := queue[0].objectKey;
      assert root in Pending() && Pending()[root] == queue[0].expiration;
      forall k | k in Pending() ensures queue[0].expiration <= Pending()[k] {
        var i :| 0 <= i < |queue| && queue[i] == objTimers[k];
        RootIsLeast(Expirations(), |queue|, i);
      }
    }

    method Reset(t: Timer, expiration: int)
      requires Valid() && t in Timers()
      modifies this`queue, Timers()
      ensures Valid() && Timers() == old(Timers())
      ensures Pending() == old(Pending())[t.objectKey := expiration]
    {
      hide HeapBut, IsHeap, Periodic.Expirations;
      ghost var i :| 0 <= i < |queue| && queue[i] == t;
      ghost var e := Expirations();
      ChangedOnce(e, i, expiration);
      t.expiration := expiration;
      assert Expirations() == e[i := expiration];
      HeapFix(t.index);
    }

    /** Enters a queued timer into the map. */
    method Register(t: Timer)
      requires Indexed() && IsHeap(Expirations(), |queue|)
      requires t in Timers() && Links(objTimers, Timers() - {t}) && t.objectKey !in objTimers
      modifies this`objTimers
      ensures Valid()
      ensures Pending() == old(Pending())[t.objectKey := t.expiration]
    {
      hide IsHeap, Periodic.Expirations, Periodic.Timers;
      LinkOneMore(objTimers, Timers() - {t}, t);
      assert Timers() - {t} + {t} == Timers();
      hide Links;
      objTimers := objTimers[t.objectKey := t];
    }

    method Add(t: Timer)
      requires Valid() && t !in Timers() && t.objectKey !in objTimers
      modifies this`queue, this`objTimers, Timers()`index, t`index
      ensures Valid() && Timers() == old(Timers()) + {t}
      ensures Pending() == old(Pending())[t.objectKey := t.expiration]
    {
      hide IsHeap, Links, Periodic.Expirations, Periodic.Indexed;
      ghost var timers := Timers();
      HeapPush(t);
      assert Timers() - {t} == timers;
      assert Pending() == old(Pending());
      Register(t);
    }

    /** Adds the object to the queue, or resets its timer if it was there already. */
    method Enqueue(objKey: ObjectKey, expiration: int)
      requires Valid()
      modifies this`queue, this`objTimers, Timers()
      ensures Valid() && fresh(Timers() - old(Timers()))
      ensures Pending() == old(Pending())[objKey := expiration]
    {
      if objKey in objTimers {
        Reset(objTimers[objKey], expiration);
      } else {
        var t := new Timer(objKey, expiration);
        Add(t);
      }
    }

    /** Removes the timer that is due first. */
    method RemoveRoot() returns (objKey: ObjectKey)
      requires Valid() && |queue| > 0
      modifies this`queue, this`objTimers, Timers()`index
      ensures Valid() && Timers() <= old(Timers())
      ensures objKey in old(Pending()) && objKey == old(queue)[0].objectKey
      ensures Pending() == old(Pending()) - {objKey}
    {
      hide IsHeap, Periodic.Expirations, Periodic.Indexed;
      objKey := queue[0].objectKey;
      ghost var root, timers := queue[0], Timers();
      assert root in timers;
      LinkOneLess(objTimers, timers, root);
      hide Periodic.Timers, Links;
      var t := HeapPop();
      assert Pending() == old(Pending());
      objTimers := objTimers - {objKey};
      assert Pending() == old(Pending()) - {objKey};
    }

    /** Triggers a reconcile for every expired timer, in order of expiration. */
    method Fire(now: int) returns (triggered: seq<ObjectKey>)
      requires Valid()
      modifies this`queue, this`objTimers, Timers()`index
      ensures Valid() && Timers() <= old(Timers())
      ensures TriggersExpired(old(Pending()), now, triggered)
      ensures Pending() == old(Pending()) - Expired(old(Pending()), now)
    {
      hide IsHeap, Periodic.Indexed, Periodic.Linked, TriggersExpired, InOrder, IsEarliest;
      ghost var before := Pending();
      FiredNothing(before, now);
      triggered := [];
      while |queue| > 0 && queue[0].expiration < now
        invariant Valid() && Timers() <= old(Timers())
        invariant Fired(before, now, triggered, Pending())
        decreases |Pending()|
      {
        RootIsEarliest();
        ghost var pending := Pending();
        FiredStep(before, now, triggered, pending, queue[0].objectKey);
        var objKey := RemoveRoot();
        triggered := triggered + [objKey];
      }
      if |queue| > 0 {
        RootIsEarliest();
      } else {
        EmptyQueue();
      }
      FiredAll(before, now, triggered, Pending());
    }

    /** One iteration of `run`: a request or a tick arrives, expired timers trigger, and the Go timer is set
        for the next expiration. */
    method Wake(event: Option<(ObjectKey, int)>, now: int) returns (triggered: seq<ObjectKey>)
      requires Valid()
      modifies this, Timers()
      ensures Valid()
      ensures TriggersExpired(Requested(old(Pending()), event), now, triggered)
      ensures Pending() == Step(old(Pending()), event, now)
      ensures nextTimer.None? <==> Pending() == map[]
      ensures nextTimer.Some? ==> IsEarliest(Pending(), nextTimer.value)
    {
      hide Periodic.Valid, Periodic.Pending, Periodic.Timers, Expired, TriggersExpired, IsEarliest;
      if event.Some? {
        nextTimer := None;
        Enqueue(event.value.0, event.value.1);
      }
      triggered := Fire(now);
      if |queue| == 0 {
        EmptyQueue();
        nextTimer := None;
        return;
      }
      RootIsEarliest();
      var duration := queue[0].expiration - now;
      nextTimer := Some(now + duration);
    }
  }

  // ------------------------------------------------------------ firing, on the plain map

  /** `triggered` has been taken out of `before`, and nothing that is left is due before it. */
  ghost predicate Fired(before: map<ObjectKey, int>, now: int, triggered: seq<ObjectKey>, left: map<ObjectKey, int>)
  {
    && InOrder(before, triggered)
    && (forall k | k in triggered :: k in Expired(before, now))
    && left == before - (set k | k in triggered)
    && (forall i, k | 0 <= i < |triggered| && k in left :: before[triggered[i]] <= left[k])
  }

  lemma FiredNothing(before: map<ObjectKey, int>, now: int)
    ensures Fired(before, now, [], before)
  {
    assert before - {} == before;
  }

  lemma FiredStep(before: map<ObjectKey, int>, now: int, triggered: seq<ObjectKey>, left: map<ObjectKey, int>,
                  k: ObjectKey)
    requires Fired(before, now, triggered, left)
    requires k in left && left[k] < now && IsEarliest(left, left[k])
    ensures Fired(before, now, triggered + [k], left - {k})
  {
    assert k !in triggered;
    assert (set x | x in triggered + [k]) == (set x | x in triggered) + {k};
  }

  lemma FiredAll(before: map<ObjectKey, int>, now: int, triggered: seq<ObjectKey>, left: map<ObjectKey, int>)
    requires Fired(before, now, triggered, left)
    requires forall k | k in left :: now <= left[k]
    ensures TriggersExpired(before, now, triggered)
    ensures left == before - Expired(before, now)
  {
    forall k | k in Expired(before, now) ensures k in triggered {
      assert k !in left;
    }
  }

  // ------------------------------------------------------------ whole runs

  ghost function Step(pending: map<ObjectKey, int>, event: Option<(ObjectKey, int)>, now: int): map<ObjectKey, int>
  {
    Requested(pending, event) - Expired(Requested(pending, event), now)
  }

  datatype WakeUp = WakeUp(event: Option<(ObjectKey, int)>, now: int)
  {
    predicate Requests(k: ObjectKey)
    {
      event.Some? && event.value.0 == k
    }
  }

  /** What is pending after the wake-ups `ws`, starting from an empty queue. */
  ghost function PendingAfter(ws: seq<WakeUp>): map<ObjectKey, int>
  {
    if ws == [] then map[]
    else Step(PendingAfter(ws[..|ws| - 1]), ws[|ws| - 1].event, ws[|ws| - 1].now)
  }

  /** The last request for `k` is the one of wake-up `j`, and no wake-up since then came after its expiration. */
  ghost predicate StillWaits(ws: seq<WakeUp>, j: int, k: ObjectKey)
  {
    && 0 <= j < |ws| && ws[j].Requests(k)
    && forall i | j <= i < |ws| :: ws[i].now <= ws[j].event.value.1 && (i > j ==> !ws[i].Requests(k))
  }

  /** In every run, a key is pending exactly when its last request has not yet been met by a wake-up later than
      the expiration set then; hence each request triggers at most once, and no trigger is early or lost. */
  lemma {:induction false} PendingMeaning(ws: seq<WakeUp>, k: ObjectKey)
    ensures k in PendingAfter(ws) <==> exists j :: StillWaits(ws, j, k)
    ensures forall j | StillWaits(ws, j, k) :: k in PendingAfter(ws) && PendingAfter(ws)[k] == ws[j].event.value.1
  {
    if ws != [] {
      var last, init := |ws| - 1, ws[..|ws| - 1];
      PendingMeaning(init, k);
      if ws[last].Requests(k) {
        assert StillWaits(ws, last, k) <==> ws[last].now <= ws[last].event.value.1;
      } else {
        forall j ensures StillWaits(ws, j, k) <==> StillWaits(init, j, k) && ws[last].now <= ws[j].event.value.1 {
          if StillWaits(init, j, k) {
            assert forall i | 0 <= i < last :: init[i] == ws[i];
          }
          if StillWaits(ws, j, k) {
            assert forall i | 0 <= i < last :: init[i] == ws[i];
          }
        }
      }
    }
  }

  /** Wake-up `i` of the run triggers `k`. */
  ghost predicate Triggers(ws: seq<WakeUp>, i: int, k: ObjectKey)
    requires 0 <= i < |ws|
  {
    k in Expired(Requested(PendingAfter(ws[..i]), ws[i].event), ws[i].now)
  }

  /** The last request for `k` up to wake-up `i` is that of wake-up `j`; wake-up `i` comes after the expiration set
      then, and no wake-up before it did. */
  ghost predicate Meets(ws: seq<WakeUp>, i: int, j: int, k: ObjectKey)
  {
    && 0 <= j <= i < |ws| && ws[j].Requests(k)
    && (forall m | j < m <= i :: !ws[m].Requests(k))
    && ws[j].event.value.1 < ws[i].now
    && forall m | j <= m < i :: ws[m].now <= ws[j].event.value.1
  }

  /** A wake-up triggers a key exactly if it is the first one to come after the expiration that the last request for
      the key has set: no trigger is early, repeated or lost. */
  lemma TriggersExactly(ws: seq<WakeUp>, i: int, k: ObjectKey)
    requires 0 <= i < |ws|
    ensures Triggers(ws, i, k) <==> exists j :: Meets(ws, i, j, k)
  {
    var before := ws[..i];
    PendingMeaning(before, k);
    if ws[i].Requests(k) {
      assert Triggers(ws, i, k) <==> Meets(ws, i, i, k);
    } else {
      forall j
        ensures Meets(ws, i, j, k) <==> StillWaits(before, j, k) && ws[j].event.value.1 < ws[i].now
      {
        assert forall m | 0 <= m < i :: before[m] == ws[m];
      }
    }
  }
}
