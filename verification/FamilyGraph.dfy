/** Families of the pool: union-find over candidates. */
module FamilyGraph {
  import opened Prelude

  /** `task` identifies the row; a template is a whole token tuple. */
  datatype Candidate = Candidate(task: int, category: int, names: seq<string>, template: seq<string>)

  // ---------------------------------------------------------------- the family relation

  predicate SharesName(a: Candidate, b: Candidate) {
    exists name :: name in a.names && name in b.names
  }

  /** One edge of the family graph. */
  predicate Related(cs: seq<Candidate>, i: nat, j: nat)
    requires i < |cs| && j < |cs|
  {
    SharesName(cs[i], cs[j]) || cs[i].template == cs[j].template
  }

  /** A chain of related candidates from `i` to `j`. */
  ghost predicate IsChain(cs: seq<Candidate>, path: seq<nat>, i: nat, j: nat) {
    && path != [] && path[0] == i && path[|path| - 1] == j
    && (forall k :: 0 <= k < |path| ==> path[k] < |cs|)
    && (forall k :: 0 < k < |path| ==> Related(cs, path[k - 1], path[k]))
  }

  ghost predicate Connected(cs: seq<Candidate>, i: nat, j: nat) {
    exists path :: IsChain(cs, path, i, j)
  }

  lemma ConnectedSelf(cs: seq<Candidate>, i: nat)
    requires i < |cs|
    ensures Connected(cs, i, i)
  {
    assert IsChain(cs, [i], i, i);
  }

  lemma ConnectedStep(cs: seq<Candidate>, i: nat, j: nat)
    requires i < |cs| && j < |cs| && Related(cs, i, j)
    ensures Connected(cs, i, j)
  {
    assert IsChain(cs, [i, j], i, j);
  }

  lemma ConnectedSymmetric(cs: seq<Candidate>, i: nat, j: nat)
    requires Connected(cs, i, j)
    ensures Connected(cs, j, i)
  {
    var path :| IsChain(cs, path, i, j);
    var back := seq(|path|, k requires 0 <= k < |path| => path[|path| - 1 - k]);
    forall k | 0 < k < |back|
      ensures Related(cs, back[k - 1], back[k])
    {
      assert Related(cs, path[|path| - 1 - k], path[|path| - k]);
    }
    assert IsChain(cs, back, j, i);
  }

  lemma ConnectedTransitive(cs: seq<Candidate>, i: nat, j: nat, k: nat)
    requires Connected(cs, i, j) && Connected(cs, j, k)
    ensures Connected(cs, i, k)
  {
    var p :| IsChain(cs, p, i, j);
    var q :| IsChain(cs, q, j, k);
    var joined := p + q[1..];
    forall m | 0 < m < |joined|
      ensures Related(cs, joined[m - 1], joined[m])
    {
      if m < |p| {
        assert Related(cs, p[m - 1], p[m]);
      } else {
        assert joined[m] == q[m - |p| + 1];
        assert joined[m - 1] == q[m - |p|];
        assert Related(cs, q[m - |p|], q[m - |p| + 1]);
      }
    }
    assert IsChain(cs, joined, i, k);
  }

  // ---------------------------------------------------------------- the union-find forest

  /** Element `i` has the root of its parent, roots point at themselves, and `rank` grows along every other link. */
  ghost predicate NodeOk(parent: seq<nat>, roots: seq<nat>, rank: seq<nat>, i: nat)
    requires |parent| == |roots| == |rank| && i < |parent|
  {
    && parent[i] < |parent| && roots[i] < |parent|
    && roots[parent[i]] == roots[i]
    && parent[roots[i]] == roots[i]
    && (if parent[i] == i then roots[i] == i else rank[i] < rank[parent[i]])
  }

  /**
   `parent` is a forest whose root map is `roots`; ranks grow along links, so following
   links terminates. Ranks exist only in the proof: the source unites without ranks.
   */
  ghost predicate Forest(parent: seq<nat>, roots: seq<nat>, rank: seq<nat>) {
    && |parent| == |roots| == |rank|
    && forall i :: 0 <= i < |parent| ==> NodeOk(parent, roots, rank, i)
  }

  function MaxRank(rank: seq<nat>): (m: nat)
    ensures forall i :: 0 <= i < |rank| ==> rank[i] <= m
  {
    if rank == [] then 0
    else
      var rest := MaxRank(rank[..|rank| - 1]);
      if rest < rank[|rank| - 1] then rank[|rank| - 1] else rest
  }

  lemma RootOfRoot(parent: seq<nat>, roots: seq<nat>, rank: seq<nat>, i: nat)
    requires Forest(parent, roots, rank) && i < |parent|
    ensures roots[i] < |parent| && roots[roots[i]] == roots[i] && parent[roots[i]] == roots[i]
  {
    assert NodeOk(parent, roots, rank, i);
    assert NodeOk(parent, roots, rank, roots[i]);
  }

  /** Find with path halving: links are rewritten on the way, but no element changes its root. */
  method Find(parent: array<nat>, index: nat, ghost roots: seq<nat>, ghost rank: seq<nat>) returns (root: nat)
    requires Forest(parent[..], roots, rank) && index < parent.Length
    modifies parent
    ensures Forest(parent[..], roots, rank)
    ensures root == roots[index] && root < parent.Length && parent[root] == root
  {
    root := index;
    assert NodeOk(parent[..], roots, rank, root);
    while parent[root] != root
      invariant root < parent.Length
      invariant Forest(parent[..], roots, rank)
      invariant roots[root] == roots[index]
      invariant NodeOk(parent[..], roots, rank, root)
      decreases MaxRank(rank) - rank[root]
    {
      ghost var before := parent[..];
      assert NodeOk(before, roots, rank, before[root]);
      HalvingKeepsForest(before, roots, rank, root);
      parent[root] := parent[parent[root]];
      assert parent[..] == before[root := before[before[root]]];
      root := parent[root];
      assert NodeOk(parent[..], roots, rank, root);
    }
  }

  lemma HalvingKeepsForest(parent: seq<nat>, roots: seq<nat>, rank: seq<nat>, i: nat)
    requires Forest(parent, roots, rank) && i < |parent|
    requires parent[i] < |parent| && parent[parent[i]] < |parent| && parent[i] != i
    ensures Forest(parent[i := parent[parent[i]]], roots, rank)
  {
    var p := parent[i];
    var halved := parent[i := parent[p]];
    assert NodeOk(parent, roots, rank, i) && NodeOk(parent, roots, rank, p);
    assert NodeOk(parent, roots, rank, parent[p]);
    forall k | 0 <= k < |parent|
      ensures NodeOk(halved, roots, rank, k)
    {
      assert NodeOk(parent, roots, rank, k);
      RootOfRoot(parent, roots, rank, k);
    }
  }

  /** The root map after the class of `right` is hung below the root of `left`. */
  ghost function Merged(roots: seq<nat>, left: nat, right: nat): (merged: seq<nat>)
    requires left < |roots| && right < |roots|
    ensures |merged| == |roots|
    ensures forall i :: 0 <= i < |roots| ==>
                          merged[i] == if roots[i] == roots[right] then roots[left] else roots[i]
  {
    seq(|roots|, i requires 0 <= i < |roots| => if roots[i] == roots[right] then roots[left] else roots[i])
  }

  /** Union without ranks: the root of `right` is linked below the root of `left`. */
  method Union(parent: array<nat>, left: nat, right: nat, ghost roots: seq<nat>, ghost rank: seq<nat>)
    returns (ghost newRank: seq<nat>)
    requires Forest(parent[..], roots, rank) && left < parent.Length && right < parent.Length
    modifies parent
    ensures Forest(parent[..], Merged(roots, left, right), newRank)
  {
    var leftRoot := Find(parent, left, roots, rank);
    var rightRoot := Find(parent, right, roots, rank);
    ghost var before := parent[..];
    if leftRoot != rightRoot {
      parent[rightRoot] := leftRoot;
      newRank := rank[leftRoot := MaxRank(rank) + 1];
      assert parent[..] == before[rightRoot := leftRoot];
      LinkingMerges(before, roots, rank, left, right);
    } else {
      newRank := rank;
      assert Merged(roots, left, right) == roots;
    }
  }

  lemma LinkingMerges(parent: seq<nat>, roots: seq<nat>, rank: seq<nat>, left: nat, right: nat)
    requires Forest(parent, roots, rank) && left < |parent| && right < |parent|
    requires roots[left] < |parent| && roots[right] < |parent| && roots[left] != roots[right]
    ensures Forest(
              parent[roots[right] := roots[left]], Merged(roots, left, right),
              rank[roots[left] := MaxRank(rank) + 1])
  {
    var top, under := roots[left], roots[right];
    RootOfRoot(parent, roots, rank, left);
    RootOfRoot(parent, roots, rank, right);
    var linked, merged, raised := parent[under := top], Merged(roots, left, right), rank[top := MaxRank(rank) + 1];
    forall k | 0 <= k < |parent|
      ensures NodeOk(linked, merged, raised, k)
    {
      assert NodeOk(parent, roots, rank, k);
      RootOfRoot(parent, roots, rank, k);
      assert rank[k] <= MaxRank(rank);
    }
  }

  // ---------------------------------------------------------------- components

  /** Elements with one root are joined by a chain of related candidates. */
  ghost predicate Sound(cs: seq<Candidate>, roots: seq<nat>)
    requires |roots| == |cs|
  {
    forall i, j :: 0 <= i < |cs| && 0 <= j < |cs| && roots[i] == roots[j] ==> Connected(cs, i, j)
  }

  /** Every name of the first `count` candidates leads to a holder of that name in the same class. */
  ghost predicate NameJoined(cs: seq<Candidate>, roots: seq<nat>, byName: map<string, nat>, i: nat, name: string)
    requires |roots| == |cs| && i < |cs|
  {
    && name in byName && byName[name] < |cs|
    && name in cs[byName[name]].names
    && roots[byName[name]] == roots[i]
  }

  ghost predicate NamesJoined(
    cs: seq<Candidate>, roots: seq<nat>, byName: map<string, nat>, i: nat, count: nat)
    requires |roots| == |cs| && i < |cs| && count <= |cs[i].names|
  {
    forall k :: 0 <= k < count ==> NameJoined(cs, roots, byName, i, cs[i].names[k])
  }

  ghost predicate TemplateJoined(cs: seq<Candidate>, roots: seq<nat>, byTemplate: map<seq<string>, nat>, i: nat)
    requires |roots| == |cs| && i < |cs|
  {
    && cs[i].template in byTemplate && byTemplate[cs[i].template] < |cs|
    && cs[byTemplate[cs[i].template]].template == cs[i].template
    && roots[byTemplate[cs[i].template]] == roots[i]
  }

  ghost predicate Processed(
    cs: seq<Candidate>, roots: seq<nat>, byName: map<string, nat>, byTemplate: map<seq<string>, nat>, count: nat)
    requires |roots| == |cs| && count <= |cs|
  {
    forall i :: 0 <= i < count ==>
                  && NamesJoined(cs, roots, byName, i, |cs[i].names|)
                  && TemplateJoined(cs, roots, byTemplate, i)
  }

  /** Entries never change once set, and point at candidates that hold the key. */
  ghost predicate NameIndex(cs: seq<Candidate>, byName: map<string, nat>) {
    forall name :: name in byName ==> byName[name] < |cs| && name in cs[byName[name]].names
  }

  ghost predicate TemplateIndex(cs: seq<Candidate>, byTemplate: map<seq<string>, nat>) {
    forall t :: t in byTemplate ==> byTemplate[t] < |cs| && cs[byTemplate[t]].template == t
  }

  lemma MergeKeepsSound(cs: seq<Candidate>, roots: seq<nat>, left: nat, right: nat)
    requires |roots| == |cs| && Sound(cs, roots)
    requires left < |cs| && right < |cs| && Related(cs, left, right)
    ensures Sound(cs, Merged(roots, left, right))
  {
    var merged := Merged(roots, left, right);
    forall i, j | 0 <= i < |cs| && 0 <= j < |cs| && merged[i] == merged[j]
      ensures Connected(cs, i, j)
    {
      ConnectedStep(cs, left, right);
      ConnectedSymmetric(cs, left, right);
      if roots[i] != roots[j] {
        if roots[i] == roots[right] {
          ConnectedTransitive(cs, i, right, left);
          ConnectedTransitive(cs, i, left, j);
        } else {
          ConnectedTransitive(cs, i, left, right);
          ConnectedTransitive(cs, i, right, j);
        }
      }
    }
  }

  lemma MergeKeepsProcessed(
    cs: seq<Candidate>, roots: seq<nat>, byName: map<string, nat>, byTemplate: map<seq<string>, nat>,
    count: nat, left: nat, right: nat)
    requires |roots| == |cs| && count <= |cs| && Processed(cs, roots, byName, byTemplate, count)
    requires left < |cs| && right < |cs|
    ensures Processed(cs, Merged(roots, left, right), byName, byTemplate, count)
  {
    forall i | 0 <= i < count
      ensures NamesJoined(cs, Merged(roots, left, right), byName, i, |cs[i].names|)
      ensures TemplateJoined(cs, Merged(roots, left, right), byTemplate, i)
    {
      assert NamesJoined(cs, roots, byName, i, |cs[i].names|);
      forall k | 0 <= k < |cs[i].names|
        ensures NameJoined(cs, Merged(roots, left, right), byName, i, cs[i].names[k])
      {
        assert NameJoined(cs, roots, byName, i, cs[i].names[k]);
      }
      assert TemplateJoined(cs, roots, byTemplate, i);
    }
  }

  lemma MergeKeepsNames(
    cs: seq<Candidate>, roots: seq<nat>, byName: map<string, nat>, i: nat, count: nat, left: nat, right: nat)
    requires |roots| == |cs| && i < |cs| && count <= |cs[i].names| && NamesJoined(cs, roots, byName, i, count)
    requires left < |cs| && right < |cs|
    ensures NamesJoined(cs, Merged(roots, left, right), byName, i, count)
  {
    forall k | 0 <= k < count
      ensures NameJoined(cs, Merged(roots, left, right), byName, i, cs[i].names[k])
    {
      assert NameJoined(cs, roots, byName, i, cs[i].names[k]);
    }
  }

  /** `setdefault`: the first holder of a key stays its representative. */
  function SetDefault<K>(index: map<K, nat>, key: K, value: nat): (r: map<K, nat>)
    ensures key in r && r[key] == if key in index then index[key] else value
    ensures forall k :: k in index ==> k in r && r[k] == index[k]
  {
    if key in index then index else index[key := value]
  }

  lemma IndexGrowthKeepsProcessed(
    cs: seq<Candidate>, roots: seq<nat>,
    byName: map<string, nat>, byName': map<string, nat>,
    byTemplate: map<seq<string>, nat>, byTemplate': map<seq<string>, nat>, count: nat)
    requires |roots| == |cs| && count <= |cs| && Processed(cs, roots, byName, byTemplate, count)
    requires forall n :: n in byName ==> n in byName' && byName'[n] == byName[n]
    requires forall t :: t in byTemplate ==> t in byTemplate' && byTemplate'[t] == byTemplate[t]
    ensures Processed(cs, roots, byName', byTemplate', count)
  {
    forall i | 0 <= i < count
      ensures NamesJoined(cs, roots, byName', i, |cs[i].names|)
      ensures TemplateJoined(cs, roots, byTemplate', i)
    {
      assert NamesJoined(cs, roots, byName, i, |cs[i].names|);
      assert TemplateJoined(cs, roots, byTemplate, i);
      forall k | 0 <= k < |cs[i].names|
        ensures NameJoined(cs, roots, byName', i, cs[i].names[k])
      {
        assert NameJoined(cs, roots, byName, i, cs[i].names[k]);
      }
    }
  }

  /** Related candidates share a root once both are processed. */
  lemma RelatedShareRoot(
    cs: seq<Candidate>, roots: seq<nat>, byName: map<string, nat>, byTemplate: map<seq<string>, nat>, i: nat, j: nat)
    requires |roots| == |cs| && Processed(cs, roots, byName, byTemplate, |cs|)
    requires i < |cs| && j < |cs| && Related(cs, i, j)
    ensures roots[i] == roots[j]
  {
    assert NamesJoined(cs, roots, byName, i, |cs[i].names|) && NamesJoined(cs, roots, byName, j, |cs[j].names|);
    assert TemplateJoined(cs, roots, byTemplate, i) && TemplateJoined(cs, roots, byTemplate, j);
    if SharesName(cs[i], cs[j]) {
      var name :| name in cs[i].names && name in cs[j].names;
      assert NameJoined(cs, roots, byName, i, name) && NameJoined(cs, roots, byName, j, name);
    }
  }

  lemma {:induction false} ChainSharesRoot(
    cs: seq<Candidate>, roots: seq<nat>, byName: map<string, nat>, byTemplate: map<seq<string>, nat>,
    path: seq<nat>, i: nat, j: nat)
    requires |roots| == |cs| && Processed(cs, roots, byName, byTemplate, |cs|)
    requires IsChain(cs, path, i, j)
    ensures roots[i] == roots[j]
    decreases |path|
  {
    if |path| > 1 {
      var shorter := path[..|path| - 1];
      assert IsChain(cs, shorter, i, path[|path| - 2]);
      ChainSharesRoot(cs, roots, byName, byTemplate, shorter, i, path[|path| - 2]);
      assert Related(cs, path[|path| - 2], path[|path| - 1]);
      RelatedShareRoot(cs, roots, byName, byTemplate, path[|path| - 2], j);
    }
  }

  /** Labels are equal exactly along chains of shared names and equal templates. */
  ghost predicate IsPartition(cs: seq<Candidate>, labels: seq<nat>) {
    && |labels| == |cs|
    && forall i, j :: 0 <= i < |cs| && 0 <= j < |cs| ==> (labels[i] == labels[j] <==> Connected(cs, i, j))
  }

  lemma ProcessedIsPartition(
    cs: seq<Candidate>, roots: seq<nat>, byName: map<string, nat>, byTemplate: map<seq<string>, nat>)
    requires |roots| == |cs| && Sound(cs, roots) && Processed(cs, roots, byName, byTemplate, |cs|)
    ensures IsPartition(cs, roots)
  {
    forall i, j | 0 <= i < |cs| && 0 <= j < |cs| && Connected(cs, i, j)
      ensures roots[i] == roots[j]
    {
      var path :| IsChain(cs, path, i, j);
      ChainSharesRoot(cs, roots, byName, byTemplate, path, i, j);
    }
  }

  lemma FreshForest(cs: seq<Candidate>, parent: seq<nat>)
    requires |parent| == |cs| && forall i :: 0 <= i < |cs| ==> parent[i] == i
    ensures Forest(parent, parent, parent) && Sound(cs, parent)
  {
    forall i, j | 0 <= i < |cs| && 0 <= j < |cs| && parent[i] == parent[j]
      ensures Connected(cs, i, j)
    {
      ConnectedSelf(cs, i);
    }
  }

  /** Join candidate `index` with the first holder of each of its names and of its template. */
  method JoinCandidate(
    cs: seq<Candidate>, parent: array<nat>, index: nat,
    byName: map<string, nat>, byTemplate: map<seq<string>, nat>, ghost roots: seq<nat>, ghost rank: seq<nat>)
    returns (byName': map<string, nat>, byTemplate': map<seq<string>, nat>,
             ghost roots': seq<nat>, ghost rank': seq<nat>)
    requires parent.Length == |cs| && index < |cs|
    requires Forest(parent[..], roots, rank) && Sound(cs, roots)
    requires NameIndex(cs, byName) && TemplateIndex(cs, byTemplate)
    requires Processed(cs, roots, byName, byTemplate, index)
    modifies parent
    ensures Forest(parent[..], roots', rank') && Sound(cs, roots')
    ensures NameIndex(cs, byName') && TemplateIndex(cs, byTemplate')
    ensures Processed(cs, roots', byName', byTemplate', index + 1)
  {
    byName', byTemplate', roots', rank' := byName, byTemplate, roots, rank;
    for k := 0 to |cs[index].names|
      invariant byTemplate' == byTemplate
      invariant Forest(parent[..], roots', rank') && Sound(cs, roots')
      invariant NameIndex(cs, byName')
      invariant Processed(cs, roots', byName', byTemplate', index)
      invariant NamesJoined(cs, roots', byName', index, k)
    {
      var name := cs[index].names[k];
      ghost var older := byName';
      byName' := SetDefault(byName', name, index);
      IndexGrowthKeepsProcessed(cs, roots', older, byName', byTemplate', byTemplate', index);
      forall m | 0 <= m < k
        ensures NameJoined(cs, roots', byName', index, cs[index].names[m])
      {
        assert NameJoined(cs, roots', older, index, cs[index].names[m]);
      }
      var previous := byName'[name];
      assert name in cs[index].names && name in cs[previous].names;
      MergeKeepsSound(cs, roots', index, previous);
      MergeKeepsProcessed(cs, roots', byName', byTemplate', index, index, previous);
      MergeKeepsNames(cs, roots', byName', index, k, index, previous);
      rank' := Union(parent, index, previous, roots', rank');
      roots' := Merged(roots', index, previous);
      assert NameJoined(cs, roots', byName', index, name);
    }
    ghost var olderTemplates := byTemplate';
    byTemplate' := SetDefault(byTemplate', cs[index].template, index);
    IndexGrowthKeepsProcessed(cs, roots', byName', byName', olderTemplates, byTemplate', index);
    var previous := byTemplate'[cs[index].template];
    assert Related(cs, index, previous);
    MergeKeepsSound(cs, roots', index, previous);
    MergeKeepsProcessed(cs, roots', byName', byTemplate', index, index, previous);
    MergeKeepsNames(cs, roots', byName', index, |cs[index].names|, index, previous);
    rank' := Union(parent, index, previous, roots', rank');
    roots' := Merged(roots', index, previous);
    assert TemplateJoined(cs, roots', byTemplate', index);
  }

  /** Two candidates get the same component exactly when a chain of shared names or templates connects them. */
  method FamilyComponents(cs: seq<Candidate>) returns (components: seq<nat>)
    ensures IsPartition(cs, components)
  {
    var parent := new nat[|cs|](i => i);
    var byName: map<string, nat> := map[];
    var byTemplate: map<seq<string>, nat> := map[];
    ghost var roots, rank := parent[..], parent[..];
    FreshForest(cs, parent[..]);
    for index := 0 to |cs|
      invariant Forest(parent[..], roots, rank) && Sound(cs, roots)
      invariant NameIndex(cs, byName) && TemplateIndex(cs, byTemplate)
      invariant Processed(cs, roots, byName, byTemplate, index)
    {
      byName, byTemplate, roots, rank := JoinCandidate(cs, parent, index, byName, byTemplate, roots, rank);
    }
    ProcessedIsPartition(cs, roots, byName, byTemplate);
    components := [];
    for index := 0 to |cs|
      invariant Forest(parent[..], roots, rank)
      invariant components == roots[..index]
    {
      var root := Find(parent, index, roots, rank);
      components := components + [root];
    }
    assert components == roots;
  }

  // ---------------------------------------------------------------- singletons

  ghost predicate Alone(cs: seq<Candidate>, i: nat)
    requires i < |cs|
  {
    forall j :: 0 <= j < |cs| && j != i ==> !Related(cs, i, j)
  }

  /** A candidate in a class of its own shares no name and no template with any other, and conversely. */
  lemma AloneIsSingleton(cs: seq<Candidate>, labels: seq<nat>, i: nat)
    requires IsPartition(cs, labels) && i < |cs|
    ensures Alone(cs, i) <==> forall j :: 0 <= j < |cs| && j != i ==> labels[j] != labels[i]
  {
    if Alone(cs, i) {
      forall j | 0 <= j < |cs| && j != i
        ensures labels[j] != labels[i]
      {
        if Connected(cs, i, j) {
          var path :| IsChain(cs, path, i, j);
          ChainLeaves(cs, path, i, j);
        }
      }
    } else {
      var j :| 0 <= j < |cs| && j != i && Related(cs, i, j);
      ConnectedStep(cs, i, j);
      assert labels[i] == labels[j];
    }
  }

  /** A chain to somewhere else has a related first step. */
  lemma {:induction false} ChainLeaves(cs: seq<Candidate>, path: seq<nat>, i: nat, j: nat)
    requires IsChain(cs, path, i, j) && i != j
    ensures !Alone(cs, i)
    decreases |path|
  {
    assert Related(cs, path[0], path[1]);
    if path[1] == i {
      var rest := path[1..];
      forall k | 0 < k < |rest|
        ensures Related(cs, rest[k - 1], rest[k])
      {
        assert Related(cs, path[k], path[k + 1]);
      }
      ChainLeaves(cs, rest, i, j);
    }
  }

  /** The eligible pool, stated without components: rows outside the v1 roster that stand alone, in pool order. */
  ghost function EligibleUpTo(cs: seq<Candidate>, v1: set<int>, count: nat): seq<Candidate>
    requires count <= |cs|
  {
    if count == 0 then []
    else EligibleUpTo(cs, v1, count - 1)
         + if Alone(cs, count - 1) && cs[count - 1].task !in v1 then [cs[count - 1]] else []
  }

  method EligibleSingletons(cs: seq<Candidate>, components: seq<nat>, v1: set<int>)
    returns (eligible: seq<Candidate>)
    requires IsPartition(cs, components)
    ensures eligible == EligibleUpTo(cs, v1, |cs|)
  {
    assert |components| == |cs|;
    hide IsPartition, Alone;
    var sizes: map<nat, nat> := map[];
    for k := 0 to |cs|
      invariant forall c :: c in sizes <==> exists i :: 0 <= i < k && components[i] == c
      invariant forall c :: c in sizes ==> sizes[c] == Occurrences(components[..k], c)
    {
      var c := components[k];
      assert components[..k + 1] == components[..k] + [c];
      NoneWithout(components[..k], c);
      sizes := sizes[c := (if c in sizes then sizes[c] else 0) + 1];
    }
    assert components[..|cs|] == components;
    eligible := [];
    for k := 0 to |cs|
      invariant eligible == EligibleUpTo(cs, v1, k)
    {
      AloneIsSingleton(cs, components, k);
      OneOccurrence(components, k);
      if sizes[components[k]] == 1 && cs[k].task !in v1 {
        eligible := eligible + [cs[k]];
      }
    }
  }

  function Occurrences(labels: seq<nat>, c: nat): nat {
    if labels == [] then 0
    else Occurrences(labels[..|labels| - 1], c) + if labels[|labels| - 1] == c then 1 else 0
  }

  lemma {:induction false} NoneWithout(labels: seq<nat>, c: nat)
    ensures Occurrences(labels, c) == 0 <==> forall i :: 0 <= i < |labels| ==> labels[i] != c
    decreases |labels|
  {
    if labels != [] {
      NoneWithout(labels[..|labels| - 1], c);
    }
  }

  lemma {:induction false} OneOccurrence(labels: seq<nat>, i: nat)
    requires i < |labels|
    ensures Occurrences(labels, labels[i]) == 1 <==> forall j :: 0 <= j < |labels| && j != i ==> labels[j] != labels[i]
    ensures Occurrences(labels, labels[i]) >= 1
    decreases |labels|
  {
    var shorter := labels[..|labels| - 1];
    NoneWithout(shorter, labels[i]);
    if i < |shorter| {
      OneOccurrence(shorter, i);
      assert shorter[i] == labels[i];
    }
  }
}
