/** Assigning nodes in a new view: storages to engines, index engines to sequencers, backups to sequencers. */
module ViewPlans {
  import opened Options
  import opened Layouts
  import opened Ranks
  import S = Sequencing

  datatype Configuration = Configuration(
    sequencers: seq<nat>,
    engines: seq<nat>,
    storages: seq<nat>,
    numPhylogs: nat,
    metalogReplicas: nat,
    userlogReplicas: nat,
    indexReplicas: nat)

  datatype Plans = Plans(storagePlan: seq<nat>, indexPlan: seq<nat>)

  // ------------------------------------------------------------------------
  // Round robin

  ghost predicate RoundRobin(plan: seq<nat>, nodes: seq<nat>) {
    nodes != [] && forall i :: 0 <= i < |plan| ==> plan[i] == nodes[i % |nodes|]
  }

  lemma {:induction false} DivStep(x: nat, n: nat)
    requires n > 0
    ensures if x % n + 1 < n then (x + 1) / n == x / n && (x + 1) % n == x % n + 1
            else (x + 1) / n == x / n + 1 && (x + 1) % n == 0
  {
    var q, r := x / n, x % n;
    assert x == q * n + r;
    if r + 1 < n {
      Quotient(x + 1, n, q, r + 1);
    } else {
      assert x + 1 == (q + 1) * n;
      Quotient(x + 1, n, q + 1, 0);
    }
  }

  lemma {:induction false} Quotient(x: nat, n: nat, q: nat, r: nat)
    requires x == q * n + r && r < n
    ensures x / n == q && x % n == r
  {
    DivMod(x, n);
    if q < x / n {
      NextMultiple(q, x / n, n);
    } else if x / n < q {
      NextMultiple(x / n, q, n);
    }
  }

  lemma {:induction false} DivMod(x: nat, n: nat)
    requires n > 0
    ensures x == x / n * n + x % n && 0 <= x % n < n
  {
  }

  lemma {:induction false} NextMultiple(a: nat, b: nat, n: nat)
    requires a < b
    ensures a * n + n <= b * n
  {
    assert b * n == (b - a - 1) * n + (a + 1) * n;
  }

  // Positions less than a round apart have different remainders.
  lemma {:induction false} RemaindersDiffer(x: nat, y: nat, n: nat)
    requires x < y < x + n
    ensures x % n != y % n
  {
    if x % n == y % n {
      var q, r := x / n, x % n;
      assert y == q * n + (r + (y - x));
      if r + (y - x) < n {
        Quotient(y, n, q, r + (y - x));
      } else {
        assert y == (q + 1) * n + (r + (y - x) - n);
        Quotient(y, n, q + 1, r + (y - x) - n);
      }
    }
  }

  lemma {:induction false} WindowDistinct(plan: seq<nat>, nodes: seq<nat>, a: nat, b: nat)
    requires RoundRobin(plan, nodes) && Distinct(nodes) && a <= b <= |plan| && b - a <= |nodes|
    ensures Distinct(plan[a..b])
  {
    forall i, j | 0 <= i < j < b - a
      ensures plan[a..b][i] != plan[a..b][j]
    {
      RemaindersDiffer(a + i, a + j, |nodes|);
    }
  }

  lemma {:induction false} OneMore(plan: seq<nat>, x: nat, node: nat)
    requires x < |plan|
    ensures multiset(plan[..x + 1])[node] == multiset(plan[..x])[node] + if plan[x] == node then 1 else 0
  {
    assert plan[..x + 1] == plan[..x] + [plan[x]];
  }

  // How often node k is used in the first x places.
  lemma {:induction false} Load(plan: seq<nat>, nodes: seq<nat>, x: nat, k: nat)
    requires RoundRobin(plan, nodes) && Distinct(nodes) && x <= |plan| && k < |nodes|
    ensures multiset(plan[..x])[nodes[k]] == x / |nodes| + if k < x % |nodes| then 1 else 0
  {
    var n := |nodes|;
    if x == 0 {
      Quotient(0, n, 0, 0);
    } else {
      Load(plan, nodes, x - 1, k);
      DivStep(x - 1, n);
      OneMore(plan, x - 1, nodes[k]);
      assert plan[x - 1] == nodes[k] <==> (x - 1) % n == k;
    }
  }

  // ------------------------------------------------------------------------
  // The controller: building the plans

  method BuildPlan(count: nat, nodes: seq<nat>) returns (plan: seq<nat>)
    requires nodes != [] || count == 0
    ensures |plan| == count && (nodes != [] ==> RoundRobin(plan, nodes))
  {
    plan := [];
    for i := 0 to count
      invariant |plan| == i && forall j :: 0 <= j < i ==> plan[j] == nodes[j % |nodes|]
    {
      plan := plan + [nodes[i % |nodes|]];
    }
  }

  predicate Enough(c: Configuration) {
    && |c.sequencers| >= c.metalogReplicas && |c.sequencers| >= c.numPhylogs
    && |c.engines| >= c.indexReplicas && |c.storages| >= c.userlogReplicas
  }

  /** The plan-building part of ReconfigView; None when there are not enough nodes. */
  method ReconfigView(c: Configuration) returns (plans: Option<Plans>)
    ensures plans.Some? <==> Enough(c)
    ensures plans.Some? ==>
              && |plans.value.storagePlan| == |c.engines| * c.userlogReplicas
              && |plans.value.indexPlan| == |c.sequencers| * c.indexReplicas
              && (c.storages != [] ==> RoundRobin(plans.value.storagePlan, c.storages))
              && (c.engines != [] ==> RoundRobin(plans.value.indexPlan, c.engines))
  {
    if |c.sequencers| < c.metalogReplicas || |c.sequencers| < c.numPhylogs {
      return None;
    }
    if |c.engines| < c.indexReplicas {
      return None;
    }
    if |c.storages| < c.userlogReplicas {
      return None;
    }
    var storagePlan := BuildPlan(|c.engines| * c.userlogReplicas, c.storages);
    var indexPlan := BuildPlan(|c.sequencers| * c.indexReplicas, c.engines);
    plans := Some(Plans(storagePlan, indexPlan));
  }

  // ------------------------------------------------------------------------
  // The view: reading the plans

  ghost function Copies(i: nat, count: nat): (s: seq<nat>)
    ensures |s| == count && forall j :: 0 <= j < count ==> s[j] == i
  {
    if count == 0 then [] else Copies(i, count - 1) + [i]
  }

  // Groups are numbered; `of[i]` are the nodes of group i.
  ghost function Inverse(of: seq<seq<nat>>, node: nat): seq<nat> {
    if of == [] then []
    else
      var last := |of| - 1;
      Inverse(of[..last], node) + Copies(last, multiset(of[last])[node])
  }

  lemma {:induction false} CopiesHas(x: nat, n: nat, i: nat)
    ensures i in Copies(x, n) <==> i == x && n > 0
  {
    if n > 0 {
      assert Copies(x, n)[0] == x;
    }
  }

  lemma {:induction false} InverseHas(of: seq<seq<nat>>, node: nat, i: nat)
    ensures i in Inverse(of, node) <==> i < |of| && node in of[i]
  {
    if of != [] {
      var last := |of| - 1;
      InverseHas(of[..last], node, i);
      CopiesHas(last, multiset(of[last])[node], i);
      assert multiset(of[last])[node] > 0 <==> node in of[last];
    }
  }

  ghost predicate Groups(of: seq<seq<nat>>, plan: seq<nat>, replicas: nat) {
    |plan| == |of| * replicas && forall i: nat :: i < |of| ==> Group(of, plan, replicas, i)
  }

  ghost predicate Group(of: seq<seq<nat>>, plan: seq<nat>, replicas: nat, i: nat)
    requires i < |of|
  {
    i * replicas + replicas <= |plan| && of[i] == plan[i * replicas..i * replicas + replicas]
  }

  lemma {:induction false} NextStart(i: nat, replicas: nat)
    ensures (i + 1) * replicas == i * replicas + replicas
  {
  }

  // Every node of a group has got the group once more for each time it occurs in it.
  ghost predicate Gained(inverse: map<nat, seq<nat>>, inverse': map<nat, seq<nat>>, mine: seq<nat>, i: nat) {
    inverse'.Keys == inverse.Keys && forall s :: s in inverse ==> inverse'[s] == inverse[s] + Copies(i, multiset(mine)[s])
  }

  lemma {:induction false} GainedMore(inverse: map<nat, seq<nat>>, inverse': map<nat, seq<nat>>, mine: seq<nat>,
                                      j: nat, i: nat)
    requires j < |mine| && Gained(inverse, inverse', mine[..j], i) && mine[j] in inverse'
    ensures Gained(inverse, inverse'[mine[j] := inverse'[mine[j]] + [i]], mine[..j + 1], i)
  {
    forall s | s in inverse
      ensures inverse'[mine[j] := inverse'[mine[j]] + [i]][s] == inverse[s] + Copies(i, multiset(mine[..j + 1])[s])
    {
      OneMore(mine, j, s);
    }
  }

  // The inner loop: one group's part of the plan.
  method ReadGroup(mine: seq<nat>, i: nat, inverse: map<nat, seq<nat>>) returns (inverse': map<nat, seq<nat>>)
    requires forall k :: 0 <= k < |mine| ==> mine[k] in inverse
    ensures Gained(inverse, inverse', mine, i)
  {
    inverse' := inverse;
    for j := 0 to |mine|
      invariant Gained(inverse, inverse', mine[..j], i)
    {
      assert mine[j] in inverse'.Keys;
      GainedMore(inverse, inverse', mine, j, i);
      inverse' := inverse'[mine[j] := inverse'[mine[j]] + [i]];
    }
    assert mine[..|mine|] == mine;
  }

  ghost predicate InverseIs(inverse: map<nat, seq<nat>>, of: seq<seq<nat>>, nodes: seq<nat>) {
    && (forall s :: s in inverse <==> s in nodes)
    && (forall s :: s in inverse ==> inverse[s] == Inverse(of, s))
  }

  // The double loop of the View constructor, for storages of engines and index engines of sequencers.
  method ReadPlan(plan: seq<nat>, groups: nat, replicas: nat, nodes: seq<nat>)
      returns (of: seq<seq<nat>>, inverse: map<nat, seq<nat>>)
    requires |plan| == groups * replicas && forall i :: 0 <= i < |plan| ==> plan[i] in nodes
    ensures |of| == groups && Groups(of, plan, replicas) && InverseIs(inverse, of, nodes)
  {
    of, inverse := [], map s | s in nodes :: [];
    var start := 0;
    for i := 0 to groups
      invariant start == i * replicas && |of| == i && forall k: nat :: k < i ==> Group(of, plan, replicas, k)
      invariant InverseIs(inverse, of, nodes)
    {
      NextMultiple(i, groups, replicas);
      NextStart(i, replicas);
      var mine := plan[start..start + replicas];
      var inverse' := ReadGroup(mine, i, inverse);
      MoreGroups(of, mine, plan, replicas, nodes, inverse, inverse');
      of, inverse, start := of + [mine], inverse', start + replicas;
    }
  }

  lemma {:induction false} MoreGroups(of: seq<seq<nat>>, mine: seq<nat>, plan: seq<nat>, replicas: nat, nodes: seq<nat>,
                                      inverse: map<nat, seq<nat>>, inverse': map<nat, seq<nat>>)
    requires forall k: nat :: k < |of| ==> Group(of, plan, replicas, k)
    requires |of| * replicas + replicas <= |plan| && mine == plan[|of| * replicas..|of| * replicas + replicas]
    requires InverseIs(inverse, of, nodes) && Gained(inverse, inverse', mine, |of|)
    ensures forall k: nat :: k < |of| + 1 ==> Group(of + [mine], plan, replicas, k)
    ensures InverseIs(inverse', of + [mine], nodes)
  {
    var of' := of + [mine];
    assert of'[..|of|] == of;
    forall k: nat | k < |of'|
      ensures Group(of', plan, replicas, k)
    {
      assert k < |of| ==> Group(of, plan, replicas, k);
    }
  }

  // What a node's groups number: its places in the plan.
  lemma {:induction false} InverseCount(of: seq<seq<nat>>, plan: seq<nat>, replicas: nat, i: nat, node: nat)
    requires Groups(of, plan, replicas) && i <= |of|
    ensures i * replicas <= |plan| && |Inverse(of[..i], node)| == multiset(plan[..i * replicas])[node]
  {
    if i == 0 {
      assert plan[..0] == [];
    } else {
      InverseCount(of, plan, replicas, i - 1, node);
      assert Group(of, plan, replicas, i - 1);
      NextStart(i - 1, replicas);
      var a, b := (i - 1) * replicas, i * replicas;
      assert plan[..b] == plan[..a] + plan[a..b];
      assert of[..i][..i - 1] == of[..i - 1];
    }
  }

  /** With distinct nodes and enough of them: every group has as many distinct nodes as there are
      replicas, group and node are in each other's lists or in neither, and no node has two groups
      more than another. */
  lemma {:induction false} PlanRight(of: seq<seq<nat>>, plan: seq<nat>, replicas: nat, nodes: seq<nat>)
    requires Groups(of, plan, replicas) && RoundRobin(plan, nodes) && Distinct(nodes) && replicas <= |nodes|
    ensures forall i :: 0 <= i < |of| ==> |of[i]| == replicas && Distinct(of[i]) && forall s :: s in of[i] ==> s in nodes
    ensures forall s, i: nat :: i in Inverse(of, s) <==> i < |of| && s in of[i]
    ensures forall s, t :: s in nodes && t in nodes ==> |Inverse(of, s)| <= |Inverse(of, t)| + 1
  {
    forall i | 0 <= i < |of|
      ensures |of[i]| == replicas && Distinct(of[i]) && forall s :: s in of[i] ==> s in nodes
    {
      assert Group(of, plan, replicas, i);
      WindowDistinct(plan, nodes, i * replicas, i * replicas + replicas);
    }
    forall s, i: nat
      ensures i in Inverse(of, s) <==> i < |of| && s in of[i]
    {
      InverseHas(of, s, i);
    }
    forall s, t | s in nodes && t in nodes
      ensures |Inverse(of, s)| <= |Inverse(of, t)| + 1
    {
      LoadOf(of, plan, replicas, nodes, s);
      LoadOf(of, plan, replicas, nodes, t);
    }
  }

  lemma {:induction false} LoadOf(of: seq<seq<nat>>, plan: seq<nat>, replicas: nat, nodes: seq<nat>, s: nat)
    requires Groups(of, plan, replicas) && RoundRobin(plan, nodes) && Distinct(nodes) && s in nodes
    ensures |plan| / |nodes| <= |Inverse(of, s)| <= |plan| / |nodes| + 1
  {
    var k :| 0 <= k < |nodes| && nodes[k] == s;
    assert of[..|of|] == of && plan[..|plan|] == plan;
    InverseCount(of, plan, replicas, |of|, s);
    Load(plan, nodes, |plan|, k);
  }

  /** So the storages of engines and the engines of storages form a layout. */
  lemma {:induction false} PlanIsLayout(of: seq<seq<nat>>, inverse: map<nat, seq<nat>>, plan: seq<nat>, replicas: nat,
                                        nodes: seq<nat>)
    requires Groups(of, plan, replicas) && RoundRobin(plan, nodes) && Distinct(nodes) && 1 <= replicas <= |nodes|
    requires InverseIs(inverse, of, nodes)
    ensures ValidLayout(Layout(of, inverse))
  {
    forall e, s {:trigger s in of[e]} | 0 <= e < |of| && s in of[e]
      ensures s in inverse && e in inverse[s]
    {
      assert Group(of, plan, replicas, e);
      InverseHas(of, s, e);
    }
    forall s, e {:trigger e in inverse[s]} | s in inverse && e in inverse[s]
      ensures e < |of| && s in of[e]
    {
      InverseHas(of, s, e);
    }
    forall e | 0 <= e < |of|
      ensures of[e] != []
    {
      assert Group(of, plan, replicas, e);
    }
  }

  // ------------------------------------------------------------------------
  // Backups of a sequencer

  /** The sequencers after one in the ring: distinct, and not the sequencer itself. */
  method Backups(sequencers: seq<nat>, i: nat, replicas: nat) returns (backups: seq<nat>)
    requires i < |sequencers| && 1 <= replicas <= |sequencers| && Distinct(sequencers)
    ensures |backups| == replicas - 1 && Distinct(backups) && sequencers[i] !in backups
    ensures forall b :: b in backups ==> b in sequencers
    ensures forall shards: nat, tailLength: nat :: tailLength >= 1 ==>
              S.ValidConfig(S.Config(shards, sequencers[i], backups, tailLength))
  {
    var n := |sequencers|;
    backups := [];
    for j := 1 to replicas
      invariant |backups| == j - 1
      invariant forall k :: 0 <= k < j - 1 ==> backups[k] == sequencers[(i + k + 1) % n]
    {
      backups := backups + [sequencers[(i + j) % n]];
    }
    forall k, l | 0 <= k < l < |backups|
      ensures backups[k] != backups[l]
    {
      RemaindersDiffer(i + k + 1, i + l + 1, n);
    }
    forall k | 0 <= k < |backups|
      ensures backups[k] != sequencers[i]
    {
      RemaindersDiffer(i, i + k + 1, n);
      Quotient(i, n, 0, i);
    }
  }
}
