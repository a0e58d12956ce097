/** Package update: bringing the containers of a live Pod in line with their specification, and leaving alone what
    admission controllers and the API server have put there. */
module PodSpec {
  import opened Wrappers
  import opened ListMerge

  /** Everything of an entry that is copied as it is. */
  type Rest(==, !new)

  type Value(==, !new)

  type Quantity(==, !new)

  /** A nil map is None. */
  type ResourceList = Option<map<string, Quantity>>

  datatype VolumeMount = VolumeMount(mountPath: string, rest: Rest)

  datatype SecurityContext = SecurityContext(procMount: Option<Value>, allowPrivilegeEscalation: Option<Value>,
                                             capabilities: Option<Value>, readOnlyRootFilesystem: Option<Value>,
                                             runAsGroup: Option<Value>, rest: Rest)

  datatype ResourceRequirements = ResourceRequirements(limits: ResourceList, requests: ResourceList)

  datatype Container = Container(name: string, imagePullPolicy: string, resources: ResourceRequirements,
                                 securityContext: Option<SecurityContext>, volumeMounts: seq<VolumeMount>, rest: Rest)

  function MountPath(m: VolumeMount): string { m.mountPath }

  function Name(c: Container): string { c.name }

  // ------------------------------------------------------------ merging the parts of a container

  function Quantities(r: ResourceList): map<string, Quantity>
  {
    match r case None => map[] case Some(m) => m
  }

  function OrElse<T>(a: Option<T>, b: Option<T>): Option<T>
  {
    if a.Some? then a else b
  }

  function MergedResources(dst: ResourceRequirements, src: ResourceRequirements): ResourceRequirements
  {
    ResourceRequirements(Some(Quantities(dst.limits) + Quantities(src.limits)),
                         Some(Quantities(dst.requests) + Quantities(src.requests)))
  }

  function Overlaid(src: SecurityContext, dst: SecurityContext): SecurityContext
  {
    SecurityContext(OrElse(src.procMount, dst.procMount),
                    OrElse(src.allowPrivilegeEscalation, dst.allowPrivilegeEscalation),
                    OrElse(src.capabilities, dst.capabilities),
                    OrElse(src.readOnlyRootFilesystem, dst.readOnlyRootFilesystem),
                    OrElse(src.runAsGroup, dst.runAsGroup), src.rest)
  }

  function MergedSecurityContext(dst: Option<SecurityContext>, src: Option<SecurityContext>): Option<SecurityContext>
  {
    if dst.None? || src.None? then src else Some(Overlaid(src.value, dst.value))
  }

  function MergedContainer(dst: Container, src: Container): Container
  {
    Container(src.name, if src.imagePullPolicy != "" then src.imagePullPolicy else dst.imagePullPolicy,
              MergedResources(dst.resources, src.resources),
              MergedSecurityContext(dst.securityContext, src.securityContext),
              Merge(dst.volumeMounts, src.volumeMounts, MountPath, Overwrite), src.rest)
  }

  function MergedContainers(dst: seq<Container>, src: seq<Container>): seq<Container>
  {
    Merge(dst, src, Name, MergedContainer)
  }

  /** A variable that is updated through a pointer. */
  class Ref<T> {
    var value: T

    constructor (value: T)
      ensures this.value == value
    {
      this.value := value;
    }
  }

  /** The quantities after those whose keys are not in `todo` have been copied. */
  ghost predicate Copied(dst: map<string, Quantity>, src: map<string, Quantity>, todo: set<string>,
                         now: map<string, Quantity>)
  {
    && now.Keys == dst.Keys + (src.Keys - todo)
    && forall k | k in now :: now[k] == if k in src && k !in todo then src[k] else dst[k]
  }

  lemma CopyOne(dst: map<string, Quantity>, src: map<string, Quantity>, todo: set<string>, now: map<string, Quantity>,
                k: string)
    requires Copied(dst, src, todo, now) && k in todo && k in src
    ensures Copied(dst, src, todo - {k}, now[k := src[k]])
  {
  }

  lemma AllCopied(dst: map<string, Quantity>, src: map<string, Quantity>, now: map<string, Quantity>)
    ensures Copied(dst, src, src.Keys, dst)
    ensures Copied(dst, src, {}, now) ==> now == dst + src
  {
  }

  method UpdateResourceList(dst: Ref<ResourceList>, src: ResourceList)
    modifies dst
    ensures dst.value == Some(Quantities(old(dst.value)) + Quantities(src))
  {
    if dst.value.None? {
      dst.value := Some(map[]);
    }
    hide Copied;
    ghost var before := dst.value.value;
    var values := Quantities(src);
    var todo := values.Keys;
    AllCopied(before, values, before);
    while todo != {}
      invariant todo <= values.Keys && dst.value.Some?
      invariant Copied(before, values, todo, dst.value.value)
      decreases |todo|
    {
      var srcKey :| srcKey in todo;
      CopyOne(before, values, todo, dst.value.value, srcKey);
      dst.value := Some(dst.value.value[srcKey := values[srcKey]]);
      todo := todo - {srcKey};
    }
    AllCopied(before, values, dst.value.value);
  }

  /** The source wins where it has an opinion; otherwise the value that was there before stays. */
  ghost predicate SourceWins(result: Option<Value>, src: Option<Value>, before: Option<Value>)
  {
    && (src.Some? ==> result == src)
    && (src.None? ==> result == before)
  }

  /** Five fields of a security context stay where the source has no opinion; all others are the source's. */
  ghost predicate SecurityMerged(result: SecurityContext, src: SecurityContext, before: SecurityContext)
  {
    && SourceWins(result.procMount, src.procMount, before.procMount)
    && SourceWins(result.allowPrivilegeEscalation, src.allowPrivilegeEscalation, before.allowPrivilegeEscalation)
    && SourceWins(result.capabilities, src.capabilities, before.capabilities)
    && SourceWins(result.readOnlyRootFilesystem, src.readOnlyRootFilesystem, before.readOnlyRootFilesystem)
    && SourceWins(result.runAsGroup, src.runAsGroup, before.runAsGroup)
    && result.rest == src.rest
  }

  /** Both are pointers. If one is nil, the target points to the source's object from now on; otherwise the object
      that the target points to is overwritten in place. */
  method UpdateSecurityContext(dst: Ref<Ref?<SecurityContext>>, src: Ref?<SecurityContext>)
    modifies dst, dst.value
    ensures old(dst.value) == null || src == null ==>
              dst.value == src && (old(dst.value) != null ==> old(dst.value).value == old(dst.value.value))
    ensures old(dst.value) != null && src != null ==>
              && dst.value == old(dst.value)
              && SecurityMerged(dst.value.value, old(src.value), old(dst.value.value))
              && dst.value.value == Overlaid(old(src.value), old(dst.value.value))
  {
    if dst.value == null || src == null {
      dst.value := src;
      return;
    }
    var saved, obj := dst.value.value, dst.value;
    obj.value := src.value;
    if obj.value.procMount.None? {
      obj.value := obj.value.(procMount := saved.procMount);
    }
    if obj.value.allowPrivilegeEscalation.None? {
      obj.value := obj.value.(allowPrivilegeEscalation := saved.allowPrivilegeEscalation);
    }
    if obj.value.capabilities.None? {
      obj.value := obj.value.(capabilities := saved.capabilities);
    }
    if obj.value.readOnlyRootFilesystem.None? {
      obj.value := obj.value.(readOnlyRootFilesystem := saved.readOnlyRootFilesystem);
    }
    if obj.value.runAsGroup.None? {
      obj.value := obj.value.(runAsGroup := saved.runAsGroup);
    }
  }

  /** A pointer to a copy, or nil. */
  method PointerTo(o: Option<SecurityContext>) returns (p: Ref?<SecurityContext>)
    ensures p == null <==> o.None?
    ensures p != null ==> fresh(p) && p.value == o.value
  {
    p := null;
    if o.Some? {
      p := new Ref(o.value);
    }
  }

  /** The same on values: the merge of two contexts that nobody else points to. */
  method MergeSecurityContexts(dst: Option<SecurityContext>, src: Option<SecurityContext>)
    returns (merged: Option<SecurityContext>)
    ensures merged == MergedSecurityContext(dst, src)
  {
    var target := PointerTo(dst);
    var source := PointerTo(src);
    var pointer := new Ref<Ref?<SecurityContext>>(target);
    UpdateSecurityContext(pointer, source);
    merged := if pointer.value == null then None else Some(pointer.value.value);
  }

  method PodContainer(dst: Ref<Container>, src: Container)
    modifies dst
    ensures dst.value == MergedContainer(old(dst.value), src)
  {
    var limits := new Ref(dst.value.resources.limits);
    var requests := new Ref(dst.value.resources.requests);
    UpdateResourceList(limits, src.resources.limits);
    UpdateResourceList(requests, src.resources.requests);
    var securityContext := MergeSecurityContexts(dst.value.securityContext, src.securityContext);
    var volumeMounts := new Slice(dst.value.volumeMounts);
    UpdateList(volumeMounts, src.volumeMounts, MountPath);
    var imagePullPolicy := dst.value.imagePullPolicy;
    if src.imagePullPolicy != "" {
      imagePullPolicy := src.imagePullPolicy;
    }
    dst.value := src.(resources := ResourceRequirements(limits.value, requests.value),
                      securityContext := securityContext,
                      volumeMounts := volumeMounts.items,
                      imagePullPolicy := imagePullPolicy);
  }

  method PodContainers(dst: Slice<Container>, src: seq<Container>)
    modifies dst
    ensures dst.items == MergedContainers(old(dst.items), src)
  {
    for n := 0 to |src|
      invariant dst.items == MergedContainers(old(dst.items), src[..n])
    {
      assert src[..n + 1][..n] == src[..n];
      var i := Find(dst.items, src[n].name, Name);
      if i < |dst.items| {
        var obj := new Ref(dst.items[i]);
        PodContainer(obj, src[n]);
        dst.items := dst.items[i := obj.value];
      } else {
        dst.items := dst.items + [src[n]];
      }
    }
    assert src[..|src|] == src;
  }

  // ------------------------------------------------------------ a container and several sources

  function Chain(d: Container, src: seq<Container>): Container
  {
    if src == [] then d else MergedContainer(Chain(d, src[..|src| - 1]), src[|src| - 1])
  }

  /** What a non-empty list of sources does to a security context: nothing of it is left once a source had none. */
  datatype Overlay = Replace(result: Option<SecurityContext>) | Onto(top: SecurityContext)

  /** What a non-empty list of sources does to a container. */
  datatype Effect = Effect(name: string, imagePullPolicy: string, limits: map<string, Quantity>,
                           requests: map<string, Quantity>, securityContext: Overlay, volumeMounts: seq<VolumeMount>,
                           rest: Rest)

  ghost function OverlayOf(src: Option<SecurityContext>): Overlay
  {
    match src case None => Replace(None) case Some(s) => Onto(s)
  }

  ghost function Then(o: Overlay, src: Option<SecurityContext>): Overlay
  {
    match o
    case Replace(r) => Replace(MergedSecurityContext(r, src))
    case Onto(top) => if src.None? then Replace(None) else Onto(Overlaid(src.value, top))
  }

  ghost function ApplyOverlay(o: Overlay, d: Option<SecurityContext>): Option<SecurityContext>
  {
    match o
    case Replace(r) => r
    case Onto(top) => MergedSecurityContext(d, Some(top))
  }

  ghost function EffectOf(src: seq<Container>): Effect
    requires src != []
  {
    var x := src[|src| - 1];
    if |src| == 1 then
      Effect(x.name, x.imagePullPolicy, Quantities(x.resources.limits), Quantities(x.resources.requests),
             OverlayOf(x.securityContext), x.volumeMounts, x.rest)
    else
      var e := EffectOf(src[..|src| - 1]);
      Effect(x.name, if x.imagePullPolicy != "" then x.imagePullPolicy else e.imagePullPolicy,
             e.limits + Quantities(x.resources.limits), e.requests + Quantities(x.resources.requests),
             Then(e.securityContext, x.securityContext), e.volumeMounts + x.volumeMounts, x.rest)
  }

  ghost function Apply(d: Container, e: Effect): Container
  {
    Container(e.name, if e.imagePullPolicy != "" then e.imagePullPolicy else d.imagePullPolicy,
              ResourceRequirements(Some(Quantities(d.resources.limits) + e.limits),
                                   Some(Quantities(d.resources.requests) + e.requests)),
              ApplyOverlay(e.securityContext, d.securityContext),
              Merge(d.volumeMounts, e.volumeMounts, MountPath, Overwrite), e.rest)
  }

  lemma {:induction false} ChainIsEffect(d: Container, src: seq<Container>)
    requires src != []
    ensures Chain(d, src) == Apply(d, EffectOf(src))
  {
    var front, x := src[..|src| - 1], src[|src| - 1];
    if |src| == 1 {
      assert Chain(d, front) == d;
    } else {
      ChainIsEffect(d, front);
      var e := EffectOf(front);
      ResourcesCompose(Quantities(d.resources.limits), e.limits, Quantities(x.resources.limits));
      ResourcesCompose(Quantities(d.resources.requests), e.requests, Quantities(x.resources.requests));
      OverlaysCompose(e.securityContext, d.securityContext, x.securityContext);
      MergeConcat(d.volumeMounts, e.volumeMounts, x.volumeMounts, MountPath, Overwrite);
    }
  }

  lemma ResourcesCompose(a: map<string, Quantity>, b: map<string, Quantity>, c: map<string, Quantity>)
    ensures a + b + c == a + (b + c)
  {
  }

  lemma OverlaysCompose(o: Overlay, d: Option<SecurityContext>, src: Option<SecurityContext>)
    ensures MergedSecurityContext(ApplyOverlay(o, d), src) == ApplyOverlay(Then(o, src), d)
  {
  }

  lemma ApplyTwice(d: Container, e: Effect)
    ensures Apply(Apply(d, e), e) == Apply(d, e)
  {
    UpdateListIdempotent(d.volumeMounts, e.volumeMounts, MountPath);
    var limits, requests := Quantities(d.resources.limits), Quantities(d.resources.requests);
    assert limits + e.limits + e.limits == limits + e.limits;
    assert requests + e.requests + e.requests == requests + e.requests;
  }

  lemma ChainTwice(d: Container, src: seq<Container>)
    ensures Chain(Chain(d, src), src) == Chain(d, src)
  {
    if src != [] {
      ChainIsEffect(d, src);
      ChainIsEffect(Chain(d, src), src);
      ApplyTwice(d, EffectOf(src));
    }
  }

  // ------------------------------------------------------------ idempotence

  /** Nil and empty resource maps are not told apart. */
  function Normal(c: Container): Container
  {
    c.(resources := ResourceRequirements(Some(Quantities(c.resources.limits)), Some(Quantities(c.resources.requests))))
  }

  function NormalList(cs: seq<Container>): seq<Container>
  {
    seq(|cs|, i requires 0 <= i < |cs| => Normal(cs[i]))
  }

  lemma {:induction false} NormalIndex(cs: seq<Container>, name: string)
    ensures IndexOf(NormalList(cs), name, Name) == IndexOf(cs, name, Name)
  {
    if cs != [] {
      assert NormalList(cs)[1..] == NormalList(cs[1..]);
      NormalIndex(cs[1..], name);
    }
  }

  lemma NormalMergeOne(list: seq<Container>, x: Container)
    ensures NormalList(MergeOne(list, x, Name, MergedContainer))
         == MergeOne(NormalList(list), Normal(x), Name, MergedContainer)
  {
    NormalIndex(list, x.name);
  }

  lemma {:induction false} NormalMerge(dst: seq<Container>, src: seq<Container>)
    ensures NormalList(MergedContainers(dst, src)) == MergedContainers(NormalList(dst), NormalList(src))
  {
    if src != [] {
      var front, x := src[..|src| - 1], src[|src| - 1];
      NormalMerge(dst, front);
      NormalMergeOne(MergedContainers(dst, front), x);
      assert NormalList(src)[..|src| - 1] == NormalList(front);
    }
  }

  /** The sources of one name, in order. */
  function Named(src: seq<Container>, name: string): seq<Container>
  {
    if src == [] then []
    else Named(src[..|src| - 1], name) + if src[|src| - 1].name == name then [src[|src| - 1]] else []
  }

  function StepAll(o: Option<Container>, src: seq<Container>): Option<Container>
  {
    match o
    case Some(d) => Some(Chain(d, src))
    case None => if src == [] then None else Some(Chain(src[0], src[1..]))
  }

  lemma StepAllOneMore(o: Option<Container>, src: seq<Container>, x: Container)
    ensures StepAll(o, src + [x]) == Step(StepAll(o, src), x, MergedContainer)
  {
    assert (src + [x])[..|src|] == src;
    if src == [] {
      assert [x][1..] == [] && src + [x] == [x];
    } else {
      assert (src + [x])[1..] == src[1..] + [x] && (src[1..] + [x])[..|src| - 1] == src[1..];
    }
  }

  lemma {:induction false} FoldIsStepAll(o: Option<Container>, src: seq<Container>, name: string)
    ensures Fold(o, src, name, Name, MergedContainer) == StepAll(o, Named(src, name))
  {
    if src != [] {
      var front, x := src[..|src| - 1], src[|src| - 1];
      FoldIsStepAll(o, front, name);
      if x.name == name {
        StepAllOneMore(o, Named(front, name), x);
      } else {
        assert Named(front, name) + [] == Named(front, name);
      }
    }
  }

  lemma {:induction false} NamedAreThere(src: seq<Container>, name: string)
    ensures forall x | x in Named(src, name) :: x in src && x.name == name
  {
    if src != [] {
      NamedAreThere(src[..|src| - 1], name);
    }
  }

  lemma {:induction false} ChainFirst(d: Container, src: seq<Container>)
    requires src != []
    ensures Chain(d, src) == Chain(MergedContainer(d, src[0]), src[1..])
  {
    hide MergedContainer;
    if |src| == 1 {
      assert src[..0] == [] && src[1..] == [];
    } else {
      ChainFirst(d, src[..|src| - 1]);
      assert src[..|src| - 1][1..] == src[1..][..|src| - 2];
    }
  }

  /** The mounts of several containers, one after the other. */
  function MountsOf(cs: seq<Container>): seq<VolumeMount>
  {
    if cs == [] then [] else MountsOf(cs[..|cs| - 1]) + cs[|cs| - 1].volumeMounts
  }

  lemma {:induction false} EffectMounts(src: seq<Container>)
    requires src != []
    ensures EffectOf(src).volumeMounts == MountsOf(src)
  {
    if |src| > 1 {
      EffectMounts(src[..|src| - 1]);
    } else {
      assert MountsOf(src[..0]) == [];
    }
  }

  /** For sources of one name: for every path that no later one mounts, the first and the last mount of the first one
      agree; in particular if there is only one. */
  ghost predicate Settled(src: seq<Container>)
    requires src != []
  {
    FirstIsLast(src[0].volumeMounts, MountsOf(src[1..]), MountPath)
  }

  /** The container that was appended as it is meets itself again: only its mounts can change. */
  lemma MeetsItself(x: Container)
    requires Normal(x) == x
    ensures MergedContainer(x, x) == x <==> Merge(x.volumeMounts, x.volumeMounts, MountPath, Overwrite) == x.volumeMounts
  {
    var limits, requests := Quantities(x.resources.limits), Quantities(x.resources.requests);
    assert limits + limits == limits && requests + requests == requests;
  }

  lemma MeetsItselfAgain(x: Container, e: Effect)
    ensures Apply(MergedContainer(Apply(x, e), x), e) == Apply(x, e)
       <==> var r := Merge(x.volumeMounts, e.volumeMounts, MountPath, Overwrite);
            Merge(Merge(r, x.volumeMounts, MountPath, Overwrite), e.volumeMounts, MountPath, Overwrite) == r
  {
    Overrides(Quantities(x.resources.limits), e.limits);
    Overrides(Quantities(x.resources.requests), e.requests);
  }

  lemma Overrides(a: map<string, Quantity>, b: map<string, Quantity>)
    ensures a + b + a + b == a + b
  {
  }

  /** Starting from nothing, the sources of one name come to rest exactly if they are settled. */
  lemma RestsExactly(src: seq<Container>)
    requires src != [] && Normal(src[0]) == src[0]
    ensures StepAll(StepAll(None, src), src) == StepAll(None, src) <==> Settled(src)
  {
    var x, later := src[0], src[1..];
    var once := Chain(x, later);
    ChainFirst(once, src);
    RemergeExactly(x.volumeMounts, MountsOf(later), MountPath);
    if later == [] {
      assert x.volumeMounts + [] == x.volumeMounts;
      MeetsItself(x);
    } else {
      var e := EffectOf(later);
      ChainIsEffect(x, later);
      ChainIsEffect(MergedContainer(once, x), later);
      EffectMounts(later);
      MeetsItselfAgain(x, e);
      MergeConcat(Merge(x.volumeMounts, e.volumeMounts, MountPath, Overwrite), x.volumeMounts, e.volumeMounts, MountPath,
                  Overwrite);
    }
  }

  lemma StepAllTwice(o: Option<Container>, src: seq<Container>)
    requires src != [] ==> Normal(src[0]) == src[0] && Settled(src)
    ensures StepAll(StepAll(o, src), src) == StepAll(o, src)
  {
    if o.Some? {
      ChainTwice(o.value, src);
    } else if src != [] {
      RestsExactly(src);
    }
  }

  lemma {:induction false} NamedNormal(src: seq<Container>, name: string)
    ensures Named(NormalList(src), name) == NormalList(Named(src, name))
  {
    if src != [] {
      NamedNormal(src[..|src| - 1], name);
      assert NormalList(src)[..|src| - 1] == NormalList(src[..|src| - 1]);
    }
  }

  lemma {:induction false} MountsNormal(cs: seq<Container>)
    ensures MountsOf(NormalList(cs)) == MountsOf(cs)
  {
    if cs != [] {
      MountsNormal(cs[..|cs| - 1]);
      assert NormalList(cs)[..|cs| - 1] == NormalList(cs[..|cs| - 1]);
    }
  }

  lemma SettledNormal(src: seq<Container>)
    requires src != []
    ensures Settled(NormalList(src)) <==> Settled(src)
    ensures Normal(NormalList(src)[0]) == NormalList(src)[0]
  {
    MountsNormal(src[1..]);
    assert NormalList(src)[1..] == NormalList(src[1..]);
  }

  ghost predicate Idempotent(dst: seq<Container>, src: seq<Container>)
  {
    NormalList(MergedContainers(MergedContainers(dst, src), src)) == NormalList(MergedContainers(dst, src))
  }

  /** The condition: the sources of every name are settled. */
  ghost predicate AllSettled(src: seq<Container>)
  {
    forall name | Named(src, name) != [] :: Settled(Named(src, name))
  }

  lemma FoldsOnceByName(o: Option<Container>, src: seq<Container>, name: string)
    requires AllSettled(src)
    ensures FoldsOnce(o, NormalList(src), name, Name, MergedContainer)
  {
    var s := NormalList(src);
    FoldIsStepAll(o, s, name);
    FoldIsStepAll(StepAll(o, Named(s, name)), s, name);
    NamedNormal(src, name);
    if Named(src, name) != [] {
      SettledNormal(Named(src, name));
    }
    StepAllTwice(o, Named(s, name));
  }

  /** Applying the same containers twice is applying them once, nil and empty maps identified, if the sources of every
      name are settled. */
  lemma PodContainersIdempotent(dst: seq<Container>, src: seq<Container>)
    requires AllSettled(src)
    ensures Idempotent(dst, src)
  {
    var d, s := NormalList(dst), NormalList(src);
    NormalMerge(dst, src);
    NormalMerge(MergedContainers(dst, src), src);
    assert KeepsKeys(Name, MergedContainer);
    hide MergedContainer, NormalList, Fold, Lookup, AllSettled;
    forall name: string
      ensures FoldsOnce(Lookup(d, name, Name), s, name, Name, MergedContainer)
    {
      FoldsOnceByName(Lookup(d, name, Name), src, name);
    }
    MergeTwice(d, s, Name, MergedContainer);
  }

  /** Conversely, the sources of a name that are not settled change an empty target twice. */
  lemma SettledIfIdempotent(src: seq<Container>, name: string)
    requires Idempotent([], src) && Named(src, name) != []
    ensures Settled(Named(src, name))
  {
    var s := NormalList(src);
    var once := MergedContainers([], s);
    NormalMerge([], src);
    NormalMerge(MergedContainers([], src), src);
    assert NormalList([]) == [];
    assert MergedContainers(once, s) == once;
    assert Lookup([], name, Name) == None;
    MergeLookup([], s, name, Name, MergedContainer);
    MergeLookup(once, s, name, Name, MergedContainer);
    FoldIsStepAll(None, s, name);
    FoldIsStepAll(StepAll(None, Named(s, name)), s, name);
    NamedNormal(src, name);
    SettledNormal(Named(src, name));
    RestsExactly(Named(s, name));
  }

  /** The condition is exact, whether or not names repeat. */
  lemma IdempotentExactlyWhen(src: seq<Container>)
    ensures (forall dst :: Idempotent(dst, src)) <==> AllSettled(src)
  {
    if AllSettled(src) {
      forall dst
        ensures Idempotent(dst, src)
      {
        PodContainersIdempotent(dst, src);
      }
    }
    if forall dst :: Idempotent(dst, src) {
      assert Idempotent([], src);
      hide Idempotent, Settled;
      forall name | Named(src, name) != []
        ensures Settled(Named(src, name))
      {
        SettledIfIdempotent(src, name);
      }
    }
  }

  /** Unique mount paths within each source container suffice. */
  lemma UniquePathsSuffice(src: seq<Container>)
    requires forall i, j, k | 0 <= i < |src| && 0 <= j < k < |src[i].volumeMounts| ::
               src[i].volumeMounts[j].mountPath != src[i].volumeMounts[k].mountPath
    ensures AllSettled(src)
  {
    forall name | Named(src, name) != []
      ensures Settled(Named(src, name))
    {
      NamedAreThere(src, name);
      var x := Named(src, name)[0];
      assert x in src;
      UniqueKeysSuffice(x.volumeMounts, MountsOf(Named(src, name)[1..]), MountPath);
    }
  }

  /** A container that mounts two different things at one path: the second call changes the first mount. */
  lemma TwoMountsAtOnePath(c: Container, path: string, m: Rest, n: Rest)
    requires c.volumeMounts == [VolumeMount(path, m), VolumeMount(path, n)] && m != n
    ensures MergedContainers([], [c]) == [c]
    ensures |MergedContainers([c], [c])| == 1
    ensures MergedContainers([c], [c])[0].volumeMounts == [VolumeMount(path, n), VolumeMount(path, n)]
    ensures !Idempotent([], [c])
  {
    var first, second := VolumeMount(path, m), VolumeMount(path, n);
    var mounts := c.volumeMounts;
    assert mounts[..1] == [first] && [first][..0] == [] && [c][..0] == [];
    assert Merge(mounts, [], MountPath, Overwrite) == mounts;
    assert Merge(mounts, [first], MountPath, Overwrite) == mounts;
    assert Merge(mounts, mounts, MountPath, Overwrite) == [second, second];
    assert MergedContainers([], []) == [] && MergedContainers([c], []) == [c];
    assert MergedContainers([c], [c]) == [MergedContainer(c, c)];
    assert NormalList([c])[0].volumeMounts[0] == first;
    assert NormalList([MergedContainer(c, c)])[0].volumeMounts[0] == second;
  }

  // ------------------------------------------------------------ what is kept, and what is achieved

  ghost predicate KeepsQuantities(d: map<string, Quantity>, r: map<string, Quantity>, owned: iset<string>)
  {
    && (forall q | q in d :: q in r && (q !in owned ==> r[q] == d[q]))
    && forall q | q in r :: q in d || q in owned
  }

  ghost predicate KeepsMounts(d: seq<VolumeMount>, r: seq<VolumeMount>, owned: iset<string>)
  {
    && |d| <= |r|
    && (forall j | 0 <= j < |d| :: r[j].mountPath == d[j].mountPath)
    && (forall j | 0 <= j < |d| && d[j].mountPath !in owned :: r[j] == d[j])
    && forall j | |d| <= j < |r| :: r[j].mountPath in owned
  }

  ghost function OwnedLimits(src: seq<Container>, name: string): iset<string>
  {
    iset i, q | 0 <= i < |src| && src[i].name == name && q in Quantities(src[i].resources.limits) :: q
  }

  ghost function OwnedRequests(src: seq<Container>, name: string): iset<string>
  {
    iset i, q | 0 <= i < |src| && src[i].name == name && q in Quantities(src[i].resources.requests) :: q
  }

  ghost function OwnedPaths(src: seq<Container>, name: string): iset<string>
  {
    iset i, j | 0 <= i < |src| && src[i].name == name && 0 <= j < |src[i].volumeMounts| ::
      src[i].volumeMounts[j].mountPath
  }

  /** The fields of a security context that a source may leave open. */
  datatype Field = ProcMount | AllowPrivilegeEscalation | Capabilities | ReadOnlyRootFilesystem | RunAsGroup

  function Get(sc: SecurityContext, f: Field): Option<Value>
  {
    match f
    case ProcMount => sc.procMount
    case AllowPrivilegeEscalation => sc.allowPrivilegeEscalation
    case Capabilities => sc.capabilities
    case ReadOnlyRootFilesystem => sc.readOnlyRootFilesystem
    case RunAsGroup => sc.runAsGroup
  }

  ghost predicate LeavesOpen(src: seq<Container>, name: string, f: Field)
  {
    forall i | 0 <= i < |src| && src[i].name == name ::
      src[i].securityContext.Some? && Get(src[i].securityContext.value, f).None?
  }

  /** If there was a security context, and all sources of that name have one that leaves a field open, its value stays. */
  ghost predicate KeepsSecurity(d: Option<SecurityContext>, r: Option<SecurityContext>, src: seq<Container>, name: string)
  {
    d.Some? ==> forall f | LeavesOpen(src, name, f) :: r.Some? && Get(r.value, f) == Get(d.value, f)
  }

  lemma LeavesOpenOneMore(src: seq<Container>, x: Container, name: string, f: Field)
    ensures LeavesOpen(src + [x], name, f)
       <==> LeavesOpen(src, name, f)
            && (x.name == name ==> x.securityContext.Some? && Get(x.securityContext.value, f).None?)
  {
    var after := src + [x];
    assert forall i | 0 <= i < |src| :: after[i] == src[i];
    assert after[|src|] == x;
  }

  lemma KeepsSecurityOneMore(d: Option<SecurityContext>, r: Option<SecurityContext>, src: seq<Container>, x: Container,
                             name: string)
    requires KeepsSecurity(d, r, src, name)
    ensures KeepsSecurity(d, if x.name == name then MergedSecurityContext(r, x.securityContext) else r, src + [x], name)
    ensures KeepsSecurity(d, r, src + [x], name)
  {
    forall f {
      LeavesOpenOneMore(src, x, name, f);
    }
    hide LeavesOpen;
  }

  /** `r` has everything that was injected into `d` and that no source of that name has an opinion on. */
  ghost predicate Keeps(d: Container, r: Container, src: seq<Container>)
  {
    && r.name == d.name
    && KeepsQuantities(Quantities(d.resources.limits), Quantities(r.resources.limits), OwnedLimits(src, d.name))
    && KeepsQuantities(Quantities(d.resources.requests), Quantities(r.resources.requests), OwnedRequests(src, d.name))
    && KeepsMounts(d.volumeMounts, r.volumeMounts, OwnedPaths(src, d.name))
    && KeepsSecurity(d.securityContext, r.securityContext, src, d.name)
    && ((forall i | 0 <= i < |src| && src[i].name == d.name :: src[i].imagePullPolicy == "") ==>
          r.imagePullPolicy == d.imagePullPolicy)
    && ((forall i | 0 <= i < |src| :: src[i].name != d.name) ==> r == d)
  }

  lemma KeepsOneMore(d: Container, r: Container, src: seq<Container>, x: Container)
    requires Keeps(d, r, src)
    ensures Keeps(d, if x.name == d.name then MergedContainer(r, x) else r, src + [x])
  {
    var after := src + [x];
    assert forall i | 0 <= i < |src| :: after[i] == src[i];
    assert after[|src|] == x;
    OwnedGrow(src, x, d.name);
    KeepsSecurityOneMore(d.securityContext, r.securityContext, src, x, d.name);
    hide KeepsSecurity;
    if x.name == d.name {
      MergeKeeps(r.volumeMounts, x.volumeMounts, MountPath, Overwrite);
      MergeAdds(r.volumeMounts, x.volumeMounts, MountPath, Overwrite);
      var merged := MergedContainer(r, x);
      forall j | 0 <= j < |d.volumeMounts| && d.volumeMounts[j].mountPath !in OwnedPaths(after, d.name)
        ensures merged.volumeMounts[j] == d.volumeMounts[j]
      {
        assert !HasKey(x.volumeMounts, d.volumeMounts[j].mountPath, MountPath);
      }
      assert KeepsMounts(d.volumeMounts, merged.volumeMounts, OwnedPaths(after, d.name));
    }
  }

  lemma OwnedGrow(src: seq<Container>, x: Container, name: string)
    ensures OwnedLimits(src, name) <= OwnedLimits(src + [x], name)
    ensures OwnedRequests(src, name) <= OwnedRequests(src + [x], name)
    ensures OwnedPaths(src, name) <= OwnedPaths(src + [x], name)
    ensures x.name == name ==>
              && (forall q | q in Quantities(x.resources.limits) :: q in OwnedLimits(src + [x], name))
              && (forall q | q in Quantities(x.resources.requests) :: q in OwnedRequests(src + [x], name))
              && (forall j | 0 <= j < |x.volumeMounts| :: x.volumeMounts[j].mountPath in OwnedPaths(src + [x], name))
  {
    var after := src + [x];
    assert forall i | 0 <= i < |src| :: after[i] == src[i];
    assert after[|src|] == x;
  }

  /** Every container stays where it is, and keeps what was injected into it. */
  lemma {:induction false} PodContainersKeep(dst: seq<Container>, src: seq<Container>)
    ensures var r := MergedContainers(dst, src);
            |dst| <= |r| && forall i | 0 <= i < |dst| :: Keeps(dst[i], r[i], src)
  {
    if src != [] {
      var front, x := src[..|src| - 1], src[|src| - 1];
      PodContainersKeep(dst, front);
      assert src == front + [x];
      var before, r := MergedContainers(dst, front), MergedContainers(dst, src);
      MergeOneKeys(before, x, Name, MergedContainer);
      forall i | 0 <= i < |dst|
        ensures Keeps(dst[i], r[i], src)
      {
        KeepsOneMore(dst[i], before[i], front, x);
        if i != IndexOf(before, x.name, Name) && x.name == dst[i].name {
          KeepsUntouched(dst[i], before[i], front, x);
        }
      }
    }
  }

  /** A second container of the same name is not touched. */
  lemma KeepsUntouched(d: Container, r: Container, src: seq<Container>, x: Container)
    requires Keeps(d, r, src) && x.name == d.name
    ensures Keeps(d, r, src + [x])
  {
    KeepsSecurityOneMore(d.securityContext, r.securityContext, src, x, d.name);
    hide KeepsSecurity;
    var after := src + [x];
    assert forall i | 0 <= i < |src| :: after[i] == src[i];
    assert after[|src|] == x;
    OwnedGrow(src, x, d.name);
  }

  /** `r` shows everything that the source container `x` asks for. */
  ghost predicate Achieves(r: Container, x: Container)
  {
    && r.name == x.name && r.rest == x.rest
    && (x.imagePullPolicy != "" ==> r.imagePullPolicy == x.imagePullPolicy)
    && (forall q | q in Quantities(x.resources.limits) ::
          q in Quantities(r.resources.limits)
          && Quantities(r.resources.limits)[q] == Quantities(x.resources.limits)[q])
    && (forall q | q in Quantities(x.resources.requests) ::
          q in Quantities(r.resources.requests)
          && Quantities(r.resources.requests)[q] == Quantities(x.resources.requests)[q])
    && (if x.securityContext.None? then r.securityContext.None?
        else
          && r.securityContext.Some? && r.securityContext.value.rest == x.securityContext.value.rest
          && forall f: Field | Get(x.securityContext.value, f).Some? ::
               Get(r.securityContext.value, f) == Get(x.securityContext.value, f))
    && forall path | HasKey(x.volumeMounts, path, MountPath) :: LastOf(x.volumeMounts, path, MountPath) in r.volumeMounts
  }

  lemma MergedAchieves(d: Container, x: Container)
    ensures Achieves(MergedContainer(d, x), x) && Achieves(x, x)
  {
    var r := MergedContainer(d, x);
    forall path | HasKey(x.volumeMounts, path, MountPath)
      ensures LastOf(x.volumeMounts, path, MountPath) in r.volumeMounts
    {
      UpdateListMeaning(d.volumeMounts, x.volumeMounts, path, MountPath);
    }
  }

  /** The last source container of every name is in force afterwards. */
  lemma {:induction false} PodContainersAchieve(dst: seq<Container>, src: seq<Container>, n: nat)
    requires n < |src| && forall i | n < i < |src| :: src[i].name != src[n].name
    ensures var found := Lookup(MergedContainers(dst, src), src[n].name, Name);
            found.Some? && Achieves(found.value, src[n])
  {
    var front, x := src[..|src| - 1], src[|src| - 1];
    MergeOneLookup(MergedContainers(dst, front), x, src[n].name, Name, MergedContainer);
    if n == |front| {
      var before := Lookup(MergedContainers(dst, front), x.name, Name);
      MergedAchieves(if before.Some? then before.value else x, x);
    } else {
      PodContainersAchieve(dst, front, n);
    }
  }
}
