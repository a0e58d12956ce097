/** Which shards the strategies of a backup schedule target. */
module BackupStrategies {
  import opened Wrappers

  datatype Scope = Unset | ShardScope | KeyspaceScope | ClusterScope | UnknownScope(text: string)

  datatype Strategy = Strategy(name: string, scope: Scope, keyspace: string, shard: string,
                               extraFlags: map<string, string>)

  /** A discovered keyspace and the names of its shards. */
  datatype Keyspace = Keyspace(name: string, shards: seq<string>)

  datatype Context = Context(allKeyspaces: seq<Keyspace>, excludedKeyspaces: set<string>,
                             shardsByKeyspace: map<string, seq<string>>)

  datatype Target = Target(keyspace: string, shard: string)

  datatype Error =
    | KeyspaceRequired(strategy: string)
    | ShardRequired(strategy: string)
    | KeyspaceNotAllowed(strategy: string)
    | ShardNotAllowed(strategy: string)
    | BadScope(strategy: string)
    | DuplicateTarget(text: string, first: string, second: string)

  function TargetOf(s: Strategy): Target
  {
    Target(s.keyspace, s.shard)
  }

  /** The form in which targets are compared. */
  function Text(t: Target): string
  {
    t.keyspace + "/" + t.shard
  }

  // ------------------------------------------------------------ consistency of one strategy

  function EffectiveScope(s: Strategy): Scope
  {
    if s.scope == Unset then ShardScope else s.scope
  }

  function StrategyError(s: Strategy): Option<Error>
  {
    match EffectiveScope(s)
    case ShardScope =>
      if s.keyspace == "" then Some(KeyspaceRequired(s.name))
      else if s.shard == "" then Some(ShardRequired(s.name))
      else None
    case KeyspaceScope =>
      if s.keyspace == "" then Some(KeyspaceRequired(s.name))
      else if s.shard != "" then Some(ShardNotAllowed(s.name))
      else None
    case ClusterScope =>
      if s.keyspace != "" then Some(KeyspaceNotAllowed(s.name))
      else if s.shard != "" then Some(ShardNotAllowed(s.name))
      else None
    case _ => Some(BadScope(s.name))
  }

  /** The error of the first inconsistent strategy. */
  function ValidateStrategies(strategies: seq<Strategy>): Option<Error>
  {
    if strategies == [] then None
    else
      var error := StrategyError(strategies[0]);
      if error.Some? then error else ValidateStrategies(strategies[1..])
  }

  // ------------------------------------------------------------ expansion

  /** The text up to the first hyphen and the text behind it, if there is a hyphen. */
  function Cut(s: string): Option<(string, string)>
  {
    if s == "" then None
    else if s[0] == '-' then Some(("", s[1..]))
    else
      match Cut(s[1..])
      case None => None
      case Some((start, end)) => Some(([s[0]] + start, end))
  }

  function ShardSafeName(shard: string): string
  {
    match Cut(shard)
    case None => shard
    case Some((start, end)) => (if start == "" then "x" else start) + "-" + (if end == "" then "x" else end)
  }

  /** The two ends of a key range appear in its safe name as they are, but an open end as x; what is no key range is
      its own safe name. */
  lemma {:induction false} SafeNameMeans(start: string, end: string)
    requires '-' !in start
    ensures Cut(start) == None && ShardSafeName(start) == start
    ensures Cut(start + "-" + end) == Some((start, end))
    ensures ShardSafeName(start + "-" + end)
         == (if start == "" then "x" else start) + "-" + (if end == "" then "x" else end)
  {
    var shard := start + "-" + end;
    if start == "" {
      assert shard[1..] == end;
    } else {
      assert start[0] in start;
      assert shard[1..] == start[1..] + "-" + end && start == [start[0]] + start[1..];
      SafeNameMeans(start[1..], end);
    }
  }

  function OnShard(base: Strategy, keyspace: string, shard: string): Strategy
  {
    Strategy(base.name + "-" + keyspace + "-" + ShardSafeName(shard), ShardScope, keyspace, shard, base.extraFlags)
  }

  function OnShards(base: Strategy, keyspace: string, shards: seq<string>): seq<Strategy>
  {
    seq(|shards|, i requires 0 <= i < |shards| => OnShard(base, keyspace, shards[i]))
  }

  function OnKeyspaces(base: Strategy, keyspaces: seq<Keyspace>, excluded: set<string>): seq<Strategy>
  {
    if keyspaces == [] then []
    else
      var ks := keyspaces[|keyspaces| - 1];
      OnKeyspaces(base, keyspaces[..|keyspaces| - 1], excluded)
      + if ks.name in excluded then [] else OnShards(base, ks.name, ks.shards)
  }

  function ShardsOf(ctx: Context, keyspace: string): seq<string>
  {
    if keyspace in ctx.shardsByKeyspace then ctx.shardsByKeyspace[keyspace] else []
  }

  function Expansion(s: Strategy, ctx: Context): Result<seq<Strategy>, Error>
  {
    match EffectiveScope(s)
    case ShardScope => Ok([s])
    case KeyspaceScope => Ok(OnShards(s, s.keyspace, ShardsOf(ctx, s.keyspace)))
    case ClusterScope => Ok(OnKeyspaces(s, ctx.allKeyspaces, ctx.excludedKeyspaces))
    case _ => Err(BadScope(s.name))
  }

  /** One strategy for each shard, in the same order. */
  ghost predicate ExpandedTo(result: seq<Strategy>, base: Strategy, keyspace: string, shards: seq<string>)
  {
    |result| == |shards| && forall i | 0 <= i < |shards| ::
      && result[i].scope == ShardScope && result[i].keyspace == keyspace && result[i].shard == shards[i]
      && result[i].extraFlags == base.extraFlags
      && result[i].name == base.name + "-" + keyspace + "-" + ShardSafeName(shards[i])
  }

  method ExpandToShards(base: Strategy, keyspace: string, shards: seq<string>) returns (result: seq<Strategy>)
    ensures result == OnShards(base, keyspace, shards)
    ensures ExpandedTo(result, base, keyspace, shards)
  {
    result := [];
    for i := 0 to |shards|
      invariant result == OnShards(base, keyspace, shards[..i])
    {
      result := result + [OnShard(base, keyspace, shards[i])];
    }
    assert shards[..|shards|] == shards;
  }

  lemma OnKeyspacesStep(base: Strategy, front: seq<Keyspace>, ks: Keyspace, excluded: set<string>)
    ensures OnKeyspaces(base, front + [ks], excluded)
         == OnKeyspaces(base, front, excluded) + if ks.name in excluded then [] else OnShards(base, ks.name, ks.shards)
  {
    assert (front + [ks])[..|front|] == front;
  }

  lemma OnKeyspacesPrefix(base: Strategy, keyspaces: seq<Keyspace>, i: nat, excluded: set<string>)
    requires i < |keyspaces|
    ensures OnKeyspaces(base, keyspaces[..i + 1], excluded)
         == OnKeyspaces(base, keyspaces[..i], excluded)
            + if keyspaces[i].name in excluded then [] else OnShards(base, keyspaces[i].name, keyspaces[i].shards)
  {
    hide OnKeyspaces, OnShards;
    OnKeyspacesStep(base, keyspaces[..i], keyspaces[i], excluded);
    assert keyspaces[..i + 1] == keyspaces[..i] + [keyspaces[i]];
  }

  lemma OneMoreInOrder(base: Strategy, a: seq<Keyspace>, front: seq<Keyspace>, ks: Keyspace, excluded: set<string>)
    requires OnKeyspaces(base, a + front, excluded) == OnKeyspaces(base, a, excluded) + OnKeyspaces(base, front, excluded)
    ensures OnKeyspaces(base, a + (front + [ks]), excluded)
         == OnKeyspaces(base, a, excluded) + OnKeyspaces(base, front + [ks], excluded)
  {
    hide OnKeyspaces, OnShards;
    OnKeyspacesStep(base, a + front, ks, excluded);
    OnKeyspacesStep(base, front, ks, excluded);
    assert (a + front) + [ks] == a + (front + [ks]);
  }

  lemma NoneInOrder(base: Strategy, a: seq<Keyspace>, excluded: set<string>)
    ensures OnKeyspaces(base, a + [], excluded) == OnKeyspaces(base, a, excluded) + OnKeyspaces(base, [], excluded)
  {
    assert OnKeyspaces(base, [], excluded) == [] && a + [] == a;
    hide OnKeyspaces;
  }

  /** Keyspaces are expanded one after the other. */
  lemma {:induction false} KeyspacesInOrder(base: Strategy, a: seq<Keyspace>, b: seq<Keyspace>, excluded: set<string>)
    ensures OnKeyspaces(base, a + b, excluded) == OnKeyspaces(base, a, excluded) + OnKeyspaces(base, b, excluded)
  {
    hide OnKeyspaces;
    if b == [] {
      NoneInOrder(base, a, excluded);
    } else {
      var front, ks := b[..|b| - 1], b[|b| - 1];
      KeyspacesInOrder(base, a, front, excluded);
      OneMoreInOrder(base, a, front, ks, excluded);
      assert b == front + [ks];
    }
  }

  /** A keyspace is expanded to its shards, or to nothing if it is excluded. */
  lemma OneKeyspace(base: Strategy, ks: Keyspace, excluded: set<string>)
    ensures ks.name in excluded ==> OnKeyspaces(base, [ks], excluded) == []
    ensures ks.name !in excluded ==> ExpandedTo(OnKeyspaces(base, [ks], excluded), base, ks.name, ks.shards)
  {
    OnKeyspacesStep(base, [], ks, excluded);
    assert [] + [ks] == [ks] && OnKeyspaces(base, [], excluded) == [];
    hide OnKeyspaces;
  }

  method ExpandToKeyspaces(base: Strategy, keyspaces: seq<Keyspace>, excluded: set<string>)
    returns (result: seq<Strategy>)
    ensures result == OnKeyspaces(base, keyspaces, excluded)
  {
    result := [];
    assert OnKeyspaces(base, keyspaces[..0], excluded) == [];
    hide OnKeyspaces, OnShards, OnShard;
    for i := 0 to |keyspaces|
      invariant result == OnKeyspaces(base, keyspaces[..i], excluded)
    {
      var ks := keyspaces[i];
      OnKeyspacesPrefix(base, keyspaces, i, excluded);
      if ks.name !in excluded {
        var expanded := ExpandToShards(base, ks.name, ks.shards);
        result := result + expanded;
      }
    }
    assert keyspaces[..|keyspaces|] == keyspaces;
  }

  method ExpandStrategy(strategy: Strategy, ctx: Context) returns (r: Result<seq<Strategy>, Error>)
    ensures r == Expansion(strategy, ctx)
    ensures strategy.scope == Unset || strategy.scope == ShardScope ==> r == Ok([strategy])
    ensures strategy.scope == KeyspaceScope ==>
              && r.Ok?
              && if strategy.keyspace in ctx.shardsByKeyspace
                 then ExpandedTo(r.value, strategy, strategy.keyspace, ctx.shardsByKeyspace[strategy.keyspace])
                 else r.value == []
    ensures strategy.scope == ClusterScope ==>
              r == Ok(OnKeyspaces(strategy, ctx.allKeyspaces, ctx.excludedKeyspaces))
    ensures strategy.scope.UnknownScope? ==> r == Err(BadScope(strategy.name))
  {
    var scope := strategy.scope;
    if scope == Unset {
      scope := ShardScope;
    }
    match scope {
      case ShardScope =>
        return Ok([strategy]);
      case KeyspaceScope =>
        var shards := ShardsOf(ctx, strategy.keyspace);
        if |shards| == 0 {
          assert OnShards(strategy, strategy.keyspace, shards) == [];
          return Ok([]);
        }
        hide OnShards;
        var expanded := ExpandToShards(strategy, strategy.keyspace, shards);
        return Ok(expanded);
      case ClusterScope =>
        hide OnKeyspaces;
        var result := ExpandToKeyspaces(strategy, ctx.allKeyspaces, ctx.excludedKeyspaces);
        return Ok(result);
      case _ =>
        return Err(BadScope(strategy.name));
    }
  }

  /** All strategies a schedule expands to, in order. */
  function ExpandAll(strategies: seq<Strategy>, ctx: Context): Result<seq<Strategy>, Error>
  {
    if strategies == [] then Ok([])
    else
      match ExpandAll(strategies[..|strategies| - 1], ctx)
      case Err(e) => Err(e)
      case Ok(before) =>
        match Expansion(strategies[|strategies| - 1], ctx)
        case Err(e) => Err(e)
        case Ok(last) => Ok(before + last)
  }

  lemma ExpandAllStep(strategies: seq<Strategy>, ctx: Context, n: nat)
    requires n < |strategies| && ExpandAll(strategies[..n], ctx).Ok?
    ensures ExpandAll(strategies[..n + 1], ctx)
         == match Expansion(strategies[n], ctx)
            case Err(e) => Err(e)
            case Ok(last) => Ok(ExpandAll(strategies[..n], ctx).value + last)
  {
    assert strategies[..n + 1][..n] == strategies[..n];
  }

  lemma {:induction false} ExpandAllPrefix(strategies: seq<Strategy>, ctx: Context, n: nat)
    requires n <= |strategies| && ExpandAll(strategies, ctx).Ok?
    ensures ExpandAll(strategies[..n], ctx).Ok?
    ensures ExpandAll(strategies[..n], ctx).value <= ExpandAll(strategies, ctx).value
  {
    if n == |strategies| {
      assert strategies[..n] == strategies;
    } else {
      var front := strategies[..|strategies| - 1];
      ExpandAllPrefix(front, ctx, n);
      assert front[..n] == strategies[..n];
    }
  }

  // ------------------------------------------------------------ duplicate targets

  ghost predicate DistinctTexts(expanded: seq<Strategy>)
  {
    forall i, j | 0 <= i < j < |expanded| :: Text(TargetOf(expanded[i])) != Text(TargetOf(expanded[j]))
  }

  ghost predicate DistinctTargets(expanded: seq<Strategy>)
  {
    forall i, j | 0 <= i < j < |expanded| :: TargetOf(expanded[i]) != TargetOf(expanded[j])
  }

  ghost predicate SeenIn(seen: map<string, string>, expanded: seq<Strategy>)
  {
    && (forall i | 0 <= i < |expanded| :: Text(TargetOf(expanded[i])) in seen)
    && forall text | text in seen ::
         exists i :: 0 <= i < |expanded| && Text(TargetOf(expanded[i])) == text && expanded[i].name == seen[text]
  }

  /** The error names the first unknown scope, or the first repeated text and the two strategies that have it. */
  ghost predicate Reports(strategies: seq<Strategy>, ctx: Context, error: Error)
  {
    exists n | 0 <= n < |strategies| && NoDuplicates(strategies[..n], ctx) ::
      match error
      case BadScope(name) => strategies[n].scope.UnknownScope? && name == strategies[n].name
      case DuplicateTarget(text, first, second) =>
        var e := Expansion(strategies[n], ctx);
        e.Ok? && exists j | 0 <= j < |e.value| :: RepeatsText(ExpandAll(strategies[..n], ctx).value + e.value[..j],
                                                              e.value[j], text, first, second)
      case _ => false
  }

  /** Behind strategies with different texts, `s` repeats the text of one of them. */
  ghost predicate RepeatsText(before: seq<Strategy>, s: Strategy, text: string, first: string, second: string)
  {
    && DistinctTexts(before) && Text(TargetOf(s)) == text && s.name == second
    && exists i :: 0 <= i < |before| && Text(TargetOf(before[i])) == text && before[i].name == first
  }

  ghost predicate NoDuplicates(strategies: seq<Strategy>, ctx: Context)
  {
    var all := ExpandAll(strategies, ctx);
    all.Ok? && DistinctTexts(all.value)
  }

  lemma RepeatedText(strategies: seq<Strategy>, ctx: Context, n: nat, expanded: seq<Strategy>, seen: map<string, string>,
                     j: nat)
    requires n < |strategies| && ExpandAll(strategies[..n], ctx).Ok? && Expansion(strategies[n], ctx) == Ok(expanded)
    requires j < |expanded| && SeenIn(seen, ExpandAll(strategies[..n], ctx).value + expanded[..j])
    requires Text(TargetOf(expanded[j])) in seen
    ensures !NoDuplicates(strategies, ctx)
  {
    var before := ExpandAll(strategies[..n], ctx).value;
    ExpandAllStep(strategies, ctx, n);
    var i :| 0 <= i < |before + expanded[..j]|
             && Text(TargetOf((before + expanded[..j])[i])) == Text(TargetOf(expanded[j]));
    assert (before + expanded)[i] == (before + expanded[..j])[i];
    assert (before + expanded)[|before| + j] == expanded[j];
    assert !DistinctTexts(before + expanded);
    if ExpandAll(strategies, ctx).Ok? {
      ExpandAllPrefix(strategies, ctx, n + 1);
      PrefixDistinct(before + expanded, ExpandAll(strategies, ctx).value);
    }
  }

  lemma PrefixDistinct(front: seq<Strategy>, all: seq<Strategy>)
    requires front <= all
    ensures DistinctTexts(all) ==> DistinctTexts(front)
  {
    assert forall i | 0 <= i < |front| :: front[i] == all[i];
  }

  lemma ReportsBadScope(strategies: seq<Strategy>, ctx: Context, n: nat)
    requires n < |strategies| && NoDuplicates(strategies[..n], ctx) && strategies[n].scope.UnknownScope?
    ensures Reports(strategies, ctx, BadScope(strategies[n].name))
  {
  }

  lemma ReportsRepeated(strategies: seq<Strategy>, ctx: Context, n: nat, expanded: seq<Strategy>,
                        seen: map<string, string>, j: nat)
    requires n < |strategies| && NoDuplicates(strategies[..n], ctx) && Expansion(strategies[n], ctx) == Ok(expanded)
    requires j < |expanded| && SeenIn(seen, ExpandAll(strategies[..n], ctx).value + expanded[..j])
    requires DistinctTexts(ExpandAll(strategies[..n], ctx).value + expanded[..j])
    requires Text(TargetOf(expanded[j])) in seen
    ensures var text := Text(TargetOf(expanded[j]));
            Reports(strategies, ctx, DuplicateTarget(text, seen[text], expanded[j].name))
  {
    var text, before := Text(TargetOf(expanded[j])), ExpandAll(strategies[..n], ctx).value + expanded[..j];
    assert RepeatsText(before, expanded[j], text, seen[text], expanded[j].name);
    hide SeenIn, DistinctTexts, Expansion, ExpandAll, RepeatsText;
  }

  lemma FailedExpansion(strategies: seq<Strategy>, ctx: Context, n: nat)
    requires n < |strategies| && ExpandAll(strategies[..n], ctx).Ok? && Expansion(strategies[n], ctx).Err?
    ensures !NoDuplicates(strategies, ctx)
  {
    ExpandAllStep(strategies, ctx, n);
    if ExpandAll(strategies, ctx).Ok? {
      ExpandAllPrefix(strategies, ctx, n + 1);
    }
  }

  /** Every target is looked up among the texts seen so far, and then added to them; `before` are the strategies
      that these texts come from. */
  method SeeTargets(seen: map<string, string>, expanded: seq<Strategy>, ghost before: seq<Strategy>)
    returns (seenTargets: map<string, string>, repeated: Option<nat>)
    requires DistinctTexts(before) && SeenIn(seen, before)
    ensures repeated.None? ==> DistinctTexts(before + expanded) && SeenIn(seenTargets, before + expanded)
    ensures repeated.Some? ==>
              && repeated.value < |expanded|
              && SeenIn(seenTargets, before + expanded[..repeated.value])
              && Text(TargetOf(expanded[repeated.value])) in seenTargets
              && DistinctTexts(before + expanded[..repeated.value])
  {
    hide SeenIn, DistinctTexts, Text;
    seenTargets := seen;
    assert before + expanded[..0] == before;
    for j := 0 to |expanded|
      invariant DistinctTexts(before + expanded[..j])
      invariant SeenIn(seenTargets, before + expanded[..j])
    {
      var target := Text(TargetOf(expanded[j]));
      if target in seenTargets {
        return seenTargets, Some(j);
      }
      SeeOneMore(seenTargets, before + expanded[..j], expanded[j]);
      assert before + expanded[..j + 1] == before + expanded[..j] + [expanded[j]];
      seenTargets := seenTargets[target := expanded[j].name];
    }
    assert before + expanded[..|expanded|] == before + expanded;
    return seenTargets, None;
  }

  method ValidateNoDuplicateExpandedShardTargets(strategies: seq<Strategy>, ctx: Context)
    returns (r: Option<Error>)
    ensures r.None? <==> NoDuplicates(strategies, ctx)
    ensures r.Some? ==> Reports(strategies, ctx, r.value)
  {
    var seenTargets: map<string, string> := map[];
    assert NoDuplicates(strategies[..0], ctx) && SeenIn(seenTargets, ExpandAll(strategies[..0], ctx).value);
    hide SeenIn, DistinctTexts, Expansion, ExpandAll, Text, Reports;
    for n := 0 to |strategies|
      invariant NoDuplicates(strategies[..n], ctx)
      invariant SeenIn(seenTargets, ExpandAll(strategies[..n], ctx).value)
    {
      var e := ExpandStrategy(strategies[n], ctx);
      if e.Err? {
        FailedExpansion(strategies, ctx, n);
        ReportsBadScope(strategies, ctx, n);
        return Some(e.error);
      }
      var expanded := e.value;
      var repeated;
      seenTargets, repeated := SeeTargets(seenTargets, expanded, ExpandAll(strategies[..n], ctx).value);
      if repeated.Some? {
        var target := Text(TargetOf(expanded[repeated.value]));
        RepeatedText(strategies, ctx, n, expanded, seenTargets, repeated.value);
        ReportsRepeated(strategies, ctx, n, expanded, seenTargets, repeated.value);
        return Some(DuplicateTarget(target, seenTargets[target], expanded[repeated.value].name));
      }
      ExpandAllStep(strategies, ctx, n);
    }
    assert strategies[..|strategies|] == strategies;
    return None;
  }

  lemma SeeOneMore(seen: map<string, string>, expanded: seq<Strategy>, s: Strategy)
    requires SeenIn(seen, expanded) && DistinctTexts(expanded) && Text(TargetOf(s)) !in seen
    ensures SeenIn(seen[Text(TargetOf(s)) := s.name], expanded + [s])
    ensures DistinctTexts(expanded + [s])
  {
    var after, seen' := expanded + [s], seen[Text(TargetOf(s)) := s.name];
    forall text | text in seen'
      ensures exists i :: 0 <= i < |after| && Text(TargetOf(after[i])) == text
    {
      if text == Text(TargetOf(s)) {
        assert after[|expanded|] == s;
      } else {
        var i :| 0 <= i < |expanded| && Text(TargetOf(expanded[i])) == text;
        assert after[i] == expanded[i];
      }
    }
  }

  /** The keyspace of `b` goes on where that of `a` ends, with a slash: one text can be cut into either target. */
  ghost predicate Straddles(a: Target, b: Target)
  {
    exists x :: b.keyspace == a.keyspace + "/" + x && a.shard == x + "/" + b.shard
  }

  /** If the texts are equal and the keyspace of `a` is the shorter one, `b` continues it. */
  lemma ShorterKeyspaceStraddles(a: Target, b: Target)
    requires Text(a) == Text(b) && |a.keyspace| < |b.keyspace|
    ensures Straddles(a, b)
  {
    var n, m, text := |a.keyspace|, |b.keyspace|, Text(a);
    assert a.keyspace == text[..n] && b.keyspace == text[..m] && text[n] == '/' && text[m] == '/';
    assert a.shard == text[n + 1..] && b.shard == text[m + 1..];
    var x := text[n + 1..m];
    assert b.keyspace == text[..n] + [text[n]] + x && [text[n]] == "/";
    assert text[n + 1..] == x + [text[m]] + text[m + 1..] && [text[m]] == "/";
  }

  /** Two targets have one text exactly if they are equal or one straddles the other. */
  lemma SameTextExactly(a: Target, b: Target)
    ensures Text(a) == Text(b) <==> a == b || Straddles(a, b) || Straddles(b, a)
  {
    if Text(a) == Text(b) {
      if |a.keyspace| < |b.keyspace| {
        ShorterKeyspaceStraddles(a, b);
      } else if |b.keyspace| < |a.keyspace| {
        ShorterKeyspaceStraddles(b, a);
      } else {
        var n, text := |a.keyspace|, Text(a);
        assert a.keyspace == text[..n] == b.keyspace && a.shard == text[n + 1..] == b.shard;
      }
    }
    StraddlingTexts(a, b);
    StraddlingTexts(b, a);
  }

  lemma StraddlingTexts(a: Target, b: Target)
    ensures Straddles(a, b) ==> Text(a) == Text(b) && a != b && '/' in b.keyspace
  {
    if Straddles(a, b) {
      var x :| b.keyspace == a.keyspace + "/" + x && a.shard == x + "/" + b.shard;
      assert Text(b) == a.keyspace + "/" + x + "/" + b.shard == Text(a);
      assert b.keyspace[|a.keyspace|] == '/';
    }
  }

  ghost predicate NoneStraddles(expanded: seq<Strategy>)
  {
    forall i, j | 0 <= i < |expanded| && 0 <= j < |expanded| :: !Straddles(TargetOf(expanded[i]), TargetOf(expanded[j]))
  }

  /** A schedule is accepted exactly if its targets are distinct and none straddles another. So a validated schedule
      never targets a shard twice; and it is only a slash in the name of a keyspace that can make validation refuse
      distinct targets. */
  lemma ValidatedExactlyWhenDistinct(strategies: seq<Strategy>, ctx: Context)
    requires ExpandAll(strategies, ctx).Ok?
    ensures var all := ExpandAll(strategies, ctx).value;
            && (NoDuplicates(strategies, ctx) <==> DistinctTargets(all) && NoneStraddles(all))
            && ((forall s | s in all :: '/' !in s.keyspace) ==> NoneStraddles(all))
  {
    var all := ExpandAll(strategies, ctx).value;
    forall i, j | 0 <= i < |all| && 0 <= j < |all|
      ensures Text(TargetOf(all[i])) == Text(TargetOf(all[j]))
         <==> TargetOf(all[i]) == TargetOf(all[j]) || Straddles(TargetOf(all[i]), TargetOf(all[j]))
                                                   || Straddles(TargetOf(all[j]), TargetOf(all[i]))
      ensures Straddles(TargetOf(all[i]), TargetOf(all[j])) ==> i != j && '/' in all[j].keyspace
    {
      SameTextExactly(TargetOf(all[i]), TargetOf(all[j]));
      StraddlingTexts(TargetOf(all[i]), TargetOf(all[j]));
    }
    hide Straddles, Text, ExpandAll;
  }

  /** With a slash, two different targets can be taken for one. */
  lemma SlashConfusesTargets(ctx: Context)
    ensures var a := Strategy("1", ShardScope, "k", "s/-", map[]);
            var b := Strategy("2", ShardScope, "k/s", "-", map[]);
            && ExpandAll([a, b], ctx) == Ok([a, b])
            && DistinctTargets([a, b]) && Straddles(TargetOf(a), TargetOf(b)) && !NoDuplicates([a, b], ctx)
  {
    var a := Strategy("1", ShardScope, "k", "s/-", map[]);
    var b := Strategy("2", ShardScope, "k/s", "-", map[]);
    var both := [a, b];
    ExpandAllStep(both, ctx, 0);
    ExpandAllStep(both, ctx, 1);
    assert both[..0] == [] && both[..0 + 1] == [a] && both[..1 + 1] == both;
    assert ExpandAll(both[..0], ctx) == Ok([]);
    assert ExpandAll(both[..0 + 1], ctx).value == [a];
    assert Expansion(both[1], ctx) == Ok([b]) && [a] + [b] == both;
    assert b.keyspace == a.keyspace + "/" + "s" && a.shard == "s" + "/" + b.shard;
    hide ExpandAll, Expansion, Text;
    ValidatedExactlyWhenDistinct(both, ctx);
    assert both[0] == a && both[1] == b && Straddles(TargetOf(both[0]), TargetOf(both[1]));
  }

  // ------------------------------------------------------------ coverage

  ghost function LocallyExcluded(strategies: seq<Strategy>): set<string>
  {
    set s | s in strategies && s.scope == KeyspaceScope && s.keyspace != "" :: s.keyspace
  }

  method LocalExcludedKeyspaces(strategies: seq<Strategy>) returns (excluded: set<string>)
    ensures excluded == LocallyExcluded(strategies)
  {
    excluded := {};
    for i := 0 to |strategies|
      invariant excluded == LocallyExcluded(strategies[..i])
    {
      assert strategies[..i + 1] == strategies[..i] + [strategies[i]];
      if strategies[i].scope == KeyspaceScope && strategies[i].keyspace != "" {
        excluded := excluded + {strategies[i].keyspace};
      }
    }
    assert strategies[..|strategies|] == strategies;
  }

  ghost predicate DistinctNames(keyspaces: seq<Keyspace>)
  {
    forall i, j | 0 <= i < j < |keyspaces| :: keyspaces[i].name != keyspaces[j].name
  }

  method NewStrategyExpansionContext(allKeyspaces: seq<Keyspace>, excluded: set<string>) returns (ctx: Context)
    ensures ctx.allKeyspaces == allKeyspaces && ctx.excludedKeyspaces == excluded
    ensures IsIndex(ctx.shardsByKeyspace, allKeyspaces)
  {
    var shardsByKeyspace: map<string, seq<string>> := map[];
    for i := 0 to |allKeyspaces|
      invariant IsIndex(shardsByKeyspace, allKeyspaces[..i])
    {
      IndexOneMore(shardsByKeyspace, allKeyspaces[..i], allKeyspaces[i]);
      assert allKeyspaces[..i + 1] == allKeyspaces[..i] + [allKeyspaces[i]];
      shardsByKeyspace := shardsByKeyspace[allKeyspaces[i].name := allKeyspaces[i].shards];
    }
    assert allKeyspaces[..|allKeyspaces|] == allKeyspaces;
    return Context(allKeyspaces, excluded, shardsByKeyspace);
  }

  /** The keyspaces by name; of several with one name, the last. */
  ghost predicate IsIndex(shards: map<string, seq<string>>, keyspaces: seq<Keyspace>)
  {
    && (forall i | 0 <= i < |keyspaces| :: keyspaces[i].name in shards)
    && (forall i | 0 <= i < |keyspaces| && (forall j | i < j < |keyspaces| :: keyspaces[j].name != keyspaces[i].name) ::
          shards[keyspaces[i].name] == keyspaces[i].shards)
    && forall name | name in shards :: exists i :: 0 <= i < |keyspaces| && keyspaces[i].name == name
  }

  lemma IndexOneMore(shards: map<string, seq<string>>, keyspaces: seq<Keyspace>, ks: Keyspace)
    requires IsIndex(shards, keyspaces)
    ensures IsIndex(shards[ks.name := ks.shards], keyspaces + [ks])
  {
    var shards', after := shards[ks.name := ks.shards], keyspaces + [ks];
    assert after[|keyspaces|] == ks;
    forall i | 0 <= i < |after| && forall j | i < j < |after| :: after[j].name != after[i].name
      ensures shards'[after[i].name] == after[i].shards
    {
      if i < |keyspaces| {
        assert forall j | i < j < |keyspaces| :: after[j].name == keyspaces[j].name;
      }
    }
    forall name | name in shards'
      ensures exists i :: 0 <= i < |after| && after[i].name == name
    {
      if name != ks.name {
        var i :| 0 <= i < |keyspaces| && keyspaces[i].name == name;
        assert after[i].name == name;
      }
    }
  }

  ghost predicate Targets(expanded: seq<Strategy>, t: Target)
  {
    exists i :: 0 <= i < |expanded| && TargetOf(expanded[i]) == t
  }

  ghost predicate Reaches(s: Strategy, ctx: Context, t: Target)
  {
    var e := Expansion(s, ctx);
    e.Ok? && Targets(e.value, t)
  }

  ghost predicate TargetsOnce(expanded: seq<Strategy>, t: Target)
  {
    exists i :: 0 <= i < |expanded| && TargetOf(expanded[i]) == t
                && forall j | 0 <= j < |expanded| && TargetOf(expanded[j]) == t :: j == i
  }

  ghost predicate Discovered(keyspaces: seq<Keyspace>, t: Target)
  {
    exists i :: 0 <= i < |keyspaces| && keyspaces[i].name == t.keyspace && t.shard in keyspaces[i].shards
  }

  /** The schedule has a strategy for this shard, or for its keyspace. */
  ghost predicate Named(strategies: seq<Strategy>, t: Target)
  {
    exists s :: s in strategies && s.keyspace == t.keyspace
                && (s.scope == KeyspaceScope || (EffectiveScope(s) == ShardScope && s.shard == t.shard))
  }

  /** A shard needs a keyspace and a shard, a keyspace only a keyspace, a cluster neither; nothing else is a scope. */
  ghost predicate Consistent(s: Strategy)
  {
    || ((s.scope == ShardScope || s.scope == Unset) && s.keyspace != "" && s.shard != "")
    || (s.scope == KeyspaceScope && s.keyspace != "" && s.shard == "")
    || (s.scope == ClusterScope && s.keyspace == "" && s.shard == "")
  }

  lemma ConsistentExactly(s: Strategy)
    ensures StrategyError(s).None? <==> Consistent(s)
  {
  }

  /** Validation accepts exactly the schedules all of whose strategies are consistent. */
  lemma {:induction false} ValidExactly(strategies: seq<Strategy>)
    ensures ValidateStrategies(strategies).None? <==> forall s | s in strategies :: Consistent(s)
  {
    if strategies != [] {
      ConsistentExactly(strategies[0]);
      ValidExactly(strategies[1..]);
      assert forall s :: s in strategies <==> s == strategies[0] || s in strategies[1..];
    }
  }

  lemma ValidStrategies(strategies: seq<Strategy>, s: Strategy)
    requires ValidateStrategies(strategies).None? && s in strategies
    ensures StrategyError(s).None?
  {
    ValidExactly(strategies);
    ConsistentExactly(s);
  }

  lemma OnShardsTargets(base: Strategy, keyspace: string, shards: seq<string>, t: Target)
    ensures Targets(OnShards(base, keyspace, shards), t) <==> t.keyspace == keyspace && t.shard in shards
  {
    var e := OnShards(base, keyspace, shards);
    if t.keyspace == keyspace && t.shard in shards {
      var i :| 0 <= i < |shards| && shards[i] == t.shard;
      assert TargetOf(e[i]) == t;
    }
  }

  lemma TargetsOfConcat(a: seq<Strategy>, b: seq<Strategy>, t: Target)
    ensures Targets(a + b, t) <==> Targets(a, t) || Targets(b, t)
  {
    if Targets(a, t) {
      var i :| 0 <= i < |a| && TargetOf(a[i]) == t;
      assert (a + b)[i] == a[i];
    } else if Targets(b, t) {
      var i :| 0 <= i < |b| && TargetOf(b[i]) == t;
      assert (a + b)[|a| + i] == b[i];
    }
  }

  lemma {:induction false} OnKeyspacesTargets(base: Strategy, keyspaces: seq<Keyspace>, excluded: set<string>, t: Target)
    ensures Targets(OnKeyspaces(base, keyspaces, excluded), t) <==> t.keyspace !in excluded && Discovered(keyspaces, t)
  {
    if keyspaces != [] {
      assert !Targets([], t);
      hide Targets, Discovered, OnKeyspaces, OnShards;
      var front, ks := keyspaces[..|keyspaces| - 1], keyspaces[|keyspaces| - 1];
      var last := if ks.name in excluded then [] else OnShards(base, ks.name, ks.shards);
      assert front + [ks] == keyspaces;
      OnKeyspacesStep(base, front, ks, excluded);
      OnKeyspacesTargets(base, front, excluded, t);
      OnShardsTargets(base, ks.name, ks.shards, t);
      TargetsOfConcat(OnKeyspaces(base, front, excluded), last, t);
      DiscoveredOneMore(front, ks, t);
    }
  }

  lemma DiscoveredOneMore(keyspaces: seq<Keyspace>, ks: Keyspace, t: Target)
    ensures Discovered(keyspaces + [ks], t)
       <==> Discovered(keyspaces, t) || (ks.name == t.keyspace && t.shard in ks.shards)
  {
    var after := keyspaces + [ks];
    if Discovered(keyspaces, t) {
      var i :| 0 <= i < |keyspaces| && keyspaces[i].name == t.keyspace && t.shard in keyspaces[i].shards;
      assert after[i] == keyspaces[i];
    } else if ks.name == t.keyspace && t.shard in ks.shards {
      assert after[|keyspaces|] == ks;
    }
  }

  lemma FrontAndLast(strategies: seq<Strategy>)
    requires strategies != []
    ensures forall s :: s in strategies <==> s in strategies[..|strategies| - 1] || s == strategies[|strategies| - 1]
  {
  }

  /** A target of the whole schedule is a target of one of its strategies. */
  lemma {:induction false} ExpandAllTargets(strategies: seq<Strategy>, ctx: Context, t: Target)
    requires forall s | s in strategies :: StrategyError(s).None?
    ensures ExpandAll(strategies, ctx).Ok?
    ensures Targets(ExpandAll(strategies, ctx).value, t)
       <==> exists s :: s in strategies && Reaches(s, ctx, t)
  {
    if strategies != [] {
      var front, last := strategies[..|strategies| - 1], strategies[|strategies| - 1];
      FrontAndLast(strategies);
      assert last in strategies && StrategyError(last).None? && Expansion(last, ctx).Ok?;
      var all := ExpandAll(strategies, ctx);
      assert all == match ExpandAll(front, ctx)
                    case Err(e) => Err(e)
                    case Ok(before) => Ok(before + Expansion(last, ctx).value);
      hide ExpandAll, Expansion, Targets, StrategyError;
      ExpandAllTargets(front, ctx, t);
      TargetsOfConcat(ExpandAll(front, ctx).value, Expansion(last, ctx).value, t);
      assert Reaches(last, ctx, t) <==> Targets(Expansion(last, ctx).value, t);
    }
  }

  lemma ExpansionTargets(s: Strategy, ctx: Context, t: Target)
    requires StrategyError(s).None?
    requires IsIndex(ctx.shardsByKeyspace, ctx.allKeyspaces) && DistinctNames(ctx.allKeyspaces)
    requires Discovered(ctx.allKeyspaces, t)
    ensures Reaches(s, ctx, t)
       <==> match s.scope
            case KeyspaceScope => s.keyspace == t.keyspace
            case ClusterScope => t.keyspace !in ctx.excludedKeyspaces
            case _ => TargetOf(s) == t
  {
    match s.scope {
      case KeyspaceScope =>
        OnShardsTargets(s, s.keyspace, ShardsOf(ctx, s.keyspace), t);
      case ClusterScope =>
        OnKeyspacesTargets(s, ctx.allKeyspaces, ctx.excludedKeyspaces, t);
      case UnknownScope(_) =>
        assert false;
      case _ =>
        assert Expansion(s, ctx).value[0] == s;
    }
  }

  /** Let a schedule that passes both validations have a strategy of cluster scope. Then every discovered shard is
      targeted exactly once, unless another schedule has taken over its keyspace and this one names neither the shard
      nor its keyspace; such a shard is not targeted at all. */
  lemma CoversExactlyOnce(strategies: seq<Strategy>, ctx: Context, peers: set<string>, t: Target)
    requires ValidateStrategies(strategies).None? && NoDuplicates(strategies, ctx)
    requires ctx.excludedKeyspaces == LocallyExcluded(strategies) + peers
    requires IsIndex(ctx.shardsByKeyspace, ctx.allKeyspaces) && DistinctNames(ctx.allKeyspaces)
    requires Discovered(ctx.allKeyspaces, t)
    requires exists s :: s in strategies && s.scope == ClusterScope
    ensures var all := ExpandAll(strategies, ctx).value;
            if t.keyspace in peers && !Named(strategies, t) then !Targets(all, t) else TargetsOnce(all, t)
  {
    var all := ExpandAll(strategies, ctx).value;
    forall s | s in strategies
      ensures StrategyError(s).None?
    {
      ValidStrategies(strategies, s);
      ExpansionTargets(s, ctx, t);
    }
    forall s | s in strategies
      ensures Reaches(s, ctx, t)
         <==> match s.scope
              case KeyspaceScope => s.keyspace == t.keyspace
              case ClusterScope => t.keyspace !in ctx.excludedKeyspaces
              case _ => TargetOf(s) == t
    {
      ExpansionTargets(s, ctx, t);
    }
    ExpandAllTargets(strategies, ctx, t);
    if t.keyspace in peers && !Named(strategies, t) {
      assert !Targets(all, t);
    } else {
      CoveredBySome(strategies, ctx, peers, t);
      ValidatedExactlyWhenDistinct(strategies, ctx);
      var i :| 0 <= i < |all| && TargetOf(all[i]) == t;
      assert forall j | 0 <= j < |all| && TargetOf(all[j]) == t :: j == i;
    }
  }

  lemma CoveredBySome(strategies: seq<Strategy>, ctx: Context, peers: set<string>, t: Target)
    requires ctx.excludedKeyspaces == LocallyExcluded(strategies) + peers
    requires forall s | s in strategies :: StrategyError(s).None?
    requires forall s | s in strategies ::
               Reaches(s, ctx, t)
               <==> match s.scope
                    case KeyspaceScope => s.keyspace == t.keyspace
                    case ClusterScope => t.keyspace !in ctx.excludedKeyspaces
                    case _ => TargetOf(s) == t
    requires t.keyspace !in peers || Named(strategies, t)
    requires exists s :: s in strategies && s.scope == ClusterScope
    ensures exists s :: s in strategies && Reaches(s, ctx, t)
  {
    if Named(strategies, t) {
      var s :| s in strategies && s.keyspace == t.keyspace
               && (s.scope == KeyspaceScope || (EffectiveScope(s) == ShardScope && s.shard == t.shard));
      assert Reaches(s, ctx, t);
    } else {
      var s :| s in strategies && s.scope == ClusterScope;
      assert t.keyspace !in LocallyExcluded(strategies);
      assert Reaches(s, ctx, t);
    }
  }
}
