/** Rack arithmetic: how a datacenter's nodes and seeds are spread over its racks, which
    topology edits the admission webhook accepts, and how the per-rack replica counts
    move toward the balanced split when the datacenter grows or shrinks. */
module Racks {

  // ----- Go's integer division -----

  /** Go divides integers toward zero. */
  function GoDiv(a: int, b: int): int
    requires b > 0
  {
    if a >= 0 then a / b else -((-a) / b)
  }

  function GoMod(a: int, b: int): int
    requires b > 0
  {
    a - b * GoDiv(a, b)
  }

  // ----- Sums -----

  function Sum(s: seq<int>): int {
    if s == [] then 0 else Sum(s[..|s| - 1]) + s[|s| - 1]
  }

  lemma {:induction false} SumUpdate(s: seq<int>, i: nat, v: int)
    requires i < |s|
    ensures Sum(s[i := v]) == Sum(s) - s[i] + v
  {
    var t := s[i := v];
    var n := |s| - 1;
    if i == n {
      assert t[..n] == s[..n];
    } else {
      assert t[..n] == s[..n][i := v];
      SumUpdate(s[..n], i, v);
    }
  }

  lemma {:induction false} SumDominates(a: seq<int>, b: seq<int>)
    requires |a| == |b|
    requires forall i :: 0 <= i < |a| ==> a[i] <= b[i]
    ensures Sum(a) <= Sum(b)
    ensures Sum(a) == Sum(b) ==> a == b
  {
    if a != [] {
      var n := |a| - 1;
      SumDominates(a[..n], b[..n]);
      if Sum(a) == Sum(b) {
        assert a == a[..n] + [a[n]] && b == b[..n] + [b[n]];
      }
    }
  }

  // ----- The balanced split -----

  /** The number of nodes rack `i` gets when `nodes` are spread over `racks` racks. */
  function Share(nodes: int, racks: int, i: int): int
    requires racks > 0
  {
    GoDiv(nodes, racks) + if i < GoMod(nodes, racks) then 1 else 0
  }

  function Split(nodes: int, racks: int): (t: seq<int>)
    requires racks > 0
  {
    seq(racks, i => Share(nodes, racks, i))
  }

  /** The loop that builds the topology. For a non-negative node count the three clauses
      leave only one possible result (see SplitUnique). */
  method SplitRacks(nodeCount: int, rackCount: int) returns (topology: seq<int>)
    requires rackCount > 0
    ensures topology == Split(nodeCount, rackCount)
    ensures nodeCount >= 0 ==> Balanced(topology, nodeCount)
  {
    var nodesPerRack, extraNodes := GoDiv(nodeCount, rackCount), GoMod(nodeCount, rackCount);
    topology := [];
    var rackIdx := 0;
    while rackIdx < rackCount
      invariant 0 <= rackIdx <= rackCount
      invariant topology == Split(nodeCount, rackCount)[..rackIdx]
    {
      var nodesForThisRack := nodesPerRack;
      if rackIdx < extraNodes {
        nodesForThisRack := nodesForThisRack + 1;
      }
      topology := topology + [nodesForThisRack];
      rackIdx := rackIdx + 1;
    }
    if nodeCount >= 0 {
      SplitBalanced(nodeCount, rackCount);
    }
  }

  /** All nodes placed, no later rack above an earlier one, and no two racks more than one apart. */
  ghost predicate Balanced(t: seq<int>, nodes: int) {
    && Sum(t) == nodes
    && (forall i, j :: 0 <= i < j < |t| ==> t[j] <= t[i] <= t[j] + 1)
  }

  lemma DivFacts(nodes: nat, racks: int)
    requires racks > 0
    ensures nodes == racks * GoDiv(nodes, racks) + GoMod(nodes, racks)
    ensures GoDiv(nodes, racks) >= 0
    ensures 0 <= GoMod(nodes, racks) < racks
  {
  }

  lemma {:induction false} SplitPrefixSum(nodes: nat, racks: int, k: nat)
    requires 0 < racks && k <= racks
    ensures var e := GoMod(nodes, racks);
            Sum(Split(nodes, racks)[..k]) == k * GoDiv(nodes, racks) + if k < e then k else e
  {
    hide GoDiv, GoMod;
    DivFacts(nodes, racks);
    if k > 0 {
      SplitPrefixSum(nodes, racks, k - 1);
      var t := Split(nodes, racks)[..k];
      assert t[..k - 1] == Split(nodes, racks)[..k - 1];
      var q := GoDiv(nodes, racks);
      assert k * q == (k - 1) * q + q;
    }
  }

  lemma SplitBalanced(nodes: nat, racks: int)
    requires racks > 0
    ensures Balanced(Split(nodes, racks), nodes)
  {
    DivFacts(nodes, racks);
    SplitPrefixSum(nodes, racks, racks);
    assert Split(nodes, racks)[..racks] == Split(nodes, racks);
  }

  /** The split is the only balanced topology of its size and length. */
  lemma SplitUnique(t: seq<int>, nodes: nat)
    requires |t| > 0 && Balanced(t, nodes)
    ensures t == Split(nodes, |t|)
  {
    var u := Split(nodes, |t|);
    SplitBalanced(nodes, |t|);
    // Two balanced topologies cannot cross, so one dominates the other everywhere.
    assert (forall k :: 0 <= k < |t| ==> t[k] <= u[k]) || (forall k :: 0 <= k < |t| ==> u[k] <= t[k]);
    if forall k :: 0 <= k < |t| ==> t[k] <= u[k] {
      SumDominates(t, u);
    } else {
      SumDominates(u, t);
    }
  }

  // ----- Growing by one, and monotonicity -----

  lemma ShareSucc(nodes: nat, racks: int, i: int)
    requires racks > 0 && 0 <= i < racks
    ensures Share(nodes + 1, racks, i) == Share(nodes, racks, i) + if i == nodes % racks then 1 else 0
  {
    var q, e := nodes / racks, nodes % racks;
    assert nodes == racks * q + e;
    if e + 1 < racks {
      DivUnique(nodes + 1, racks, q, e + 1);
    } else {
      assert racks * (q + 1) == racks * q + racks;
      DivUnique(nodes + 1, racks, q + 1, 0);
    }
  }

  lemma DivUnique(n: int, d: int, q: int, e: int)
    requires d > 0 && n == d * q + e && 0 <= e < d
    ensures n / d == q && n % d == e
  {
    var q', e' := n / d, n % d;
    assert n == d * q' + e';
    if q > q' {
      MulAtLeast(d, q - q');
    } else if q < q' {
      MulAtLeast(d, q' - q);
    }
  }

  lemma MulAtLeast(d: int, x: int)
    requires d > 0 && x >= 1
    ensures d * x >= d
  {
  }

  lemma {:induction false} ShareMonotone(m: nat, n: nat, racks: int, i: int)
    requires racks > 0 && 0 <= i < racks && m <= n
    ensures Share(m, racks, i) <= Share(n, racks, i)
    decreases n - m
  {
    if m < n {
      ShareSucc(m, racks, i);
      ShareMonotone(m + 1, n, racks, i);
    }
  }

  // ----- Desired rack information -----

  /** The size a pass works toward: a stopped datacenter wants no nodes. */
  function DesiredNodes(size: int, stopped: bool): int {
    if stopped then 0 else size
  }

  /** Three seeds, or every node when there are fewer, or one per rack from four racks on. */
  function SeedTotal(nodes: int, racks: int): int {
    if nodes < 3 then nodes else if racks > 3 then racks else 3
  }

  datatype RackInfo = RackInfo(rackName: string, nodeCount: int, seedCount: int)

  function RackInfos(racks: seq<string>, size: int, stopped: bool): seq<RackInfo>
    requires racks != []
  {
    var nodes := DesiredNodes(size, stopped);
    var n := |racks|;
    seq(n, i requires 0 <= i < n => RackInfo(racks[i], Share(nodes, n, i), Share(SeedTotal(nodes, n), n, i)))
  }

  /** Rejects a datacenter with fewer nodes than racks, otherwise fills in every rack's counts. */
  method CalculateRackInformation(racks: seq<string>, size: int, stopped: bool)
    returns (ok: bool, info: seq<RackInfo>)
    ensures ok <==> |racks| <= size && racks != []
    ensures ok ==> info == RackInfos(racks, size, stopped)
  {
    var nodeCount := size;
    var rackCount := |racks|;
    info := [];
    if nodeCount < rackCount {
      return false, info;
    }
    if stopped {
      nodeCount := 0;
    }
    var seedCount := 3;
    if nodeCount < 3 {
      seedCount := nodeCount;
    } else if rackCount > 3 {
      seedCount := rackCount;
    }
    if rackCount < 1 {
      return false, info;
    }
    var rackSeedCounts := SplitRacks(seedCount, rackCount);
    var rackNodeCounts := SplitRacks(nodeCount, rackCount);
    info := FillRackInfo(racks, rackNodeCounts, rackSeedCounts);
    ok := true;
  }

  method FillRackInfo(racks: seq<string>, nodeCounts: seq<int>, seedCounts: seq<int>)
    returns (info: seq<RackInfo>)
    requires |nodeCounts| == |seedCounts| == |racks|
    ensures |info| == |racks|
    ensures forall i :: 0 <= i < |racks| ==> info[i] == RackInfo(racks[i], nodeCounts[i], seedCounts[i])
  {
    info := [];
    for i := 0 to |racks|
      invariant |info| == i
      invariant forall j :: 0 <= j < i ==> info[j] == RackInfo(racks[j], nodeCounts[j], seedCounts[j])
    {
      info := info + [RackInfo(racks[i], nodeCounts[i], seedCounts[i])];
    }
  }

  /** While the datacenter runs, every rack gets a seed and no more seeds than nodes, and
      the per-rack counts add up to the intended totals. */
  lemma SeedAllocation(racks: seq<string>, size: int)
    requires racks != [] && |racks| <= size
    ensures forall k :: 0 <= k < |racks| ==>
              1 <= RackInfos(racks, size, false)[k].seedCount <= RackInfos(racks, size, false)[k].nodeCount
    ensures Sum(Split(SeedTotal(size, |racks|), |racks|)) == SeedTotal(size, |racks|)
    ensures Sum(Split(size, |racks|)) == size
  {
    var n := |racks|;
    var seeds := SeedTotal(size, n);
    SplitBalanced(seeds, n);
    SplitBalanced(size, n);
    forall k | 0 <= k < n
      ensures 1 <= Share(seeds, n, k) <= Share(size, n, k)
    {
      DivUnique(n, n, 1, 0);
      assert Share(n, n, k) == 1;
      ShareMonotone(n, seeds, n, k);
      ShareMonotone(seeds, size, n, k);
    }
  }

  // ----- Scaling -----

  /** The first `n` racks raised to their shares where they were below. */
  function RaisedUpTo(replicas: seq<int>, size: int, n: int): (b: seq<int>)
    requires replicas != []
    ensures |b| == |replicas|
  {
    seq(|replicas|, k requires 0 <= k < |replicas| =>
      if k < n && replicas[k] < Share(size, |replicas|, k) then Share(size, |replicas|, k) else replicas[k])
  }

  ghost predicate AboveShare(replicas: seq<int>, size: int)
    requires replicas != []
  {
    forall i :: 0 <= i < |replicas| ==> Share(size, |replicas|, i) <= replicas[i]
  }

  /** No two racks differ by more than `d`. */
  ghost predicate SpreadWithin(replicas: seq<int>, d: int) {
    forall i, j :: 0 <= i < |replicas| && 0 <= j < |replicas| ==> replicas[i] <= replicas[j] + d
  }

  /** Rack `k` is the first one holding more nodes than it would in a split one node smaller. */
  ghost predicate FirstExcess(replicas: seq<int>, k: int)
    requires replicas != []
  {
    && 0 <= k < |replicas|
    && replicas[k] > Share(Sum(replicas) - 1, |replicas|, k)
    && forall j :: 0 <= j < k ==> replicas[j] <= Share(Sum(replicas) - 1, |replicas|, j)
  }

  /** A rack to shrink always exists while there are more nodes than wanted. */
  lemma ExcessExists(replicas: seq<int>) returns (k: int)
    requires replicas != [] && Sum(replicas) >= 1
    ensures FirstExcess(replicas, k)
  {
    var total, n := Sum(replicas), |replicas|;
    var target := Split(total - 1, n);
    SplitBalanced(total - 1, n);
    if forall i :: 0 <= i < n ==> replicas[i] <= target[i] {
      SumDominates(replicas, target);
      assert false;
    }
    k := 0;
    while replicas[k] <= Share(total - 1, n, k)
      invariant 0 <= k < n
      invariant forall j :: 0 <= j < k ==> replicas[j] <= target[j]
      invariant exists i :: k <= i < n && replicas[i] > target[i]
      decreases n - k
    {
      k := k + 1;
    }
  }

  /** Taking one node from the first rack in excess keeps every rack at or above its share of
      the wanted size, lowers the total by one, and never spreads the racks further apart. */
  lemma ShrinkStep(replicas: seq<int>, size: nat, k: int)
    requires replicas != [] && FirstExcess(replicas, k)
    requires AboveShare(replicas, size) && size < Sum(replicas)
    ensures var next := replicas[k := replicas[k] - 1];
            && Sum(next) == Sum(replicas) - 1
            && AboveShare(next, size)
            && forall d :: 1 <= d && SpreadWithin(replicas, d) ==> SpreadWithin(next, d)
  {
    var total, n := Sum(replicas), |replicas|;
    var next := replicas[k := replicas[k] - 1];
    SumUpdate(replicas, k, replicas[k] - 1);
    ShareMonotone(size, total - 1, n, k);
    forall d | 1 <= d && SpreadWithin(replicas, d)
      ensures SpreadWithin(next, d)
    {
      ShrinkKeepsSpread(replicas, k, d);
    }
  }

  lemma ShrinkKeepsSpread(replicas: seq<int>, k: int, d: int)
    requires replicas != [] && Sum(replicas) >= 1 && FirstExcess(replicas, k)
    requires 1 <= d && SpreadWithin(replicas, d)
    ensures SpreadWithin(replicas[k := replicas[k] - 1], d)
  {
    if forall j :: 0 <= j < |replicas| ==> replicas[k] <= replicas[j] {
      ShrinkFromLevel(replicas, k);
    }
  }

  /** When the rack to shrink is already a smallest one, all racks were equal. */
  lemma ShrinkFromLevel(replicas: seq<int>, k: int)
    requires replicas != [] && Sum(replicas) >= 1 && FirstExcess(replicas, k)
    requires forall j :: 0 <= j < |replicas| ==> replicas[k] <= replicas[j]
    ensures forall j :: 0 <= j < |replicas| ==> replicas[j] == replicas[k]
  {
    var total, n := Sum(replicas), |replicas|;
    var level := seq(n, _ => replicas[k]);
    SumDominates(level, replicas);
    LevelSum(replicas[k], n);
    LevelBound(total, n, replicas[k], k);
  }

  /** `n` racks of `v` nodes each, `v` above some share of `total - 1`, already hold `total` nodes. */
  lemma LevelBound(total: int, n: int, v: int, k: int)
    requires 0 <= k < n && total >= 1 && v > Share(total - 1, n, k)
    ensures n * v >= total
  {
    DivFacts(total - 1, n);
    var q := GoDiv(total - 1, n);
    MulMonotone(n, q + 1, v);
    assert n * (q + 1) == n * q + n;
  }

  lemma MulMonotone(n: int, a: int, b: int)
    requires n >= 0 && a <= b
    ensures n * a <= n * b
  {
  }

  lemma {:induction false} LevelSum(v: int, n: nat)
    ensures Sum(seq(n, _ => v)) == n * v
  {
    if n > 0 {
      var s := seq(n, _ => v);
      assert s[..n - 1] == seq(n - 1, _ => v);
      LevelSum(v, n - 1);
      assert n * v == (n - 1) * v + v;
    }
  }

  /** Replica counts after as many single-node shrinks as it takes to reach `size`. */
  ghost function ShrinkTo(replicas: seq<int>, size: nat): seq<int>
    requires replicas != []
    decreases Sum(replicas) - size
  {
    if Sum(replicas) <= size then replicas
    else
      assert exists k :: FirstExcess(replicas, k) by {
        var k := ExcessExists(replicas);
      }
      var k :| FirstExcess(replicas, k);
      SumUpdate(replicas, k, replicas[k] - 1);
      ShrinkTo(replicas[k := replicas[k] - 1], size)
  }

  /** Scaling converges: from any replica counts, scaling up and then shrinking one node at a
      time ends in exactly the balanced split. */
  lemma ScaleConverges(replicas: seq<int>, size: nat)
    requires replicas != []
    ensures ShrinkTo(RaisedUpTo(replicas, size, |replicas|), size) == Split(size, |replicas|)
  {
    ShrinkConverges(RaisedUpTo(replicas, size, |replicas|), size);
  }

  lemma {:induction false} ShrinkConverges(replicas: seq<int>, size: nat)
    requires replicas != [] && AboveShare(replicas, size)
    ensures ShrinkTo(replicas, size) == Split(size, |replicas|)
    decreases Sum(replicas) - size
  {
    if Sum(replicas) <= size {
      SettledAtSplit(replicas, size);
    } else {
      var found := ExcessExists(replicas);
      var k :| FirstExcess(replicas, k) && ShrinkTo(replicas, size) == ShrinkTo(replicas[k := replicas[k] - 1], size);
      ShrinkStep(replicas, size, k);
      ShrinkConverges(replicas[k := replicas[k] - 1], size);
    }
  }

  /** No rack below its share and no node too many leaves exactly the split. */
  lemma SettledAtSplit(replicas: seq<int>, size: nat)
    requires replicas != [] && AboveShare(replicas, size) && Sum(replicas) <= size
    ensures replicas == Split(size, |replicas|)
  {
    SplitBalanced(size, |replicas|);
    SumDominates(Split(size, |replicas|), replicas);
  }

  // ----- The admission webhook's topology rules -----

  datatype Rack = Rack(name: string, zone: string)

  datatype Topology = Topology(racks: seq<Rack>, size: int)

  /** A datacenter that names no racks has the single rack "default". */
  function GetRacks(t: Topology): (racks: seq<Rack>)
    ensures racks != []
  {
    if |t.racks| >= 1 then t.racks else [Rack("default", "")]
  }

  datatype Verdict =
    | Accepted
    | RemovesRack
    | AddsRackWithoutSize
    | AddsRackWithTooLittleSize
    | RenamesRack(index: nat)
    | MovesRack(index: nat)

  ghost predicate AddsRacks(oldDc: Topology, newDc: Topology) {
    |GetRacks(oldDc)| < |GetRacks(newDc)|
  }

  /** Added racks come with at least the smallest old rack's worth of nodes each. */
  ghost predicate SizeFits(oldDc: Topology, newDc: Topology) {
    var n, m := |GetRacks(oldDc)|, |GetRacks(newDc)|;
    newDc.size - oldDc.size >= GoDiv(oldDc.size, n) * (m - n)
  }

  /** No rack is removed, the size fits, and rack `i` is the first that is not the same. */
  ghost predicate FirstChanged(oldDc: Topology, newDc: Topology, i: nat) {
    var before, after := GetRacks(oldDc), GetRacks(newDc);
    && i < |before| <= |after| && before[..i] == after[..i] && before[i] != after[i]
    && (AddsRacks(oldDc, newDc) ==> newDc.size > oldDc.size && SizeFits(oldDc, newDc))
  }

  /** The rack and size part of the update check, branch by branch: each verdict names the first
      rule that is broken. */
  method ValidateTopologyChange(oldDc: Topology, newDc: Topology) returns (v: Verdict)
    ensures v.Accepted? <==> Acceptable(oldDc, newDc)
    ensures v.RemovesRack? <==> |GetRacks(oldDc)| > |GetRacks(newDc)|
    ensures v.AddsRackWithoutSize? <==> AddsRacks(oldDc, newDc) && newDc.size <= oldDc.size
    ensures v.AddsRackWithTooLittleSize? <==>
              AddsRacks(oldDc, newDc) && newDc.size > oldDc.size && !SizeFits(oldDc, newDc)
    ensures v.RenamesRack? ==>
              FirstChanged(oldDc, newDc, v.index) && GetRacks(oldDc)[v.index].name != GetRacks(newDc)[v.index].name
    ensures v.MovesRack? ==>
              FirstChanged(oldDc, newDc, v.index) && GetRacks(oldDc)[v.index].name == GetRacks(newDc)[v.index].name
  {
    var oldRacks, newRacks := GetRacks(oldDc), GetRacks(newDc);
    if |oldRacks| > |newRacks| {
      return RemovesRack;
    }
    var newRackCount := |newRacks| - |oldRacks|;
    if newRackCount > 0 {
      var newSizeDifference := newDc.size - oldDc.size;
      var oldRackNodeSplit := SplitRacks(oldDc.size, |oldRacks|);
      var minNodesFromOldRacks := oldRackNodeSplit[|oldRackNodeSplit| - 1];
      var minSizeAdjustment := minNodesFromOldRacks * newRackCount;
      LastShare(oldDc.size, |oldRacks|);
      if newSizeDifference <= 0 {
        return AddsRackWithoutSize;
      }
      if newSizeDifference < minSizeAdjustment {
        return AddsRackWithTooLittleSize;
      }
    }
    var index := 0;
    while index < |oldRacks|
      invariant 0 <= index <= |oldRacks|
      invariant forall i :: 0 <= i < index ==> oldRacks[i] == newRacks[i]
    {
      if oldRacks[index].name != newRacks[index].name {
        return RenamesRack(index);
      }
      if oldRacks[index].zone != newRacks[index].zone {
        return MovesRack(index);
      }
      index := index + 1;
    }
    v := Accepted;
  }

  /** What the webhook lets through: the old rack list is kept as a prefix, and added racks come
      with more nodes, and enough of them. */
  ghost predicate Acceptable(oldDc: Topology, newDc: Topology) {
    && GetRacks(oldDc) <= GetRacks(newDc)
    && (AddsRacks(oldDc, newDc) ==> newDc.size > oldDc.size && SizeFits(oldDc, newDc))
  }

  lemma LastShare(nodes: int, racks: int)
    requires racks > 0
    ensures Share(nodes, racks, racks - 1) == GoDiv(nodes, racks)
  {
    if nodes >= 0 {
      DivFacts(nodes, racks);
    } else {
      DivFacts(-nodes, racks);
    }
  }

  /** Adding racks never shrinks an old rack: every update the webhook accepts that adds
      racks gives each existing rack at least its former share, for every integer size. */
  lemma AddingRacksKeepsShares(oldDc: Topology, newDc: Topology, i: int)
    requires Acceptable(oldDc, newDc)
    requires |GetRacks(oldDc)| < |GetRacks(newDc)|
    requires 0 <= i < |GetRacks(oldDc)|
    ensures Share(oldDc.size, |GetRacks(oldDc)|, i) <= Share(newDc.size, |GetRacks(newDc)|, i)
  {
    ShareOfMoreRacks(oldDc.size, |GetRacks(oldDc)|, newDc.size, |GetRacks(newDc)|, i);
  }

  lemma ShareOfMoreRacks(s: int, n: int, s': int, m: int, i: int)
    requires 0 <= i < n < m && s < s' && s' - s >= GoDiv(s, n) * (m - n)
    ensures Share(s, n, i) <= Share(s', m, i)
  {
    if s >= 0 {
      var q, e := GoDiv(s, n), GoMod(s, n);
      DivFacts(s, n);
      assert q * (m - n) == m * q - n * q;
      DivUnique(m * q + e, m, q, e);
      ShareMonotone(m * q + e, s', m, i);
    } else {
      NegativeShare(s, n, i);
      if s' >= 0 {
        DivFacts(s', m);
      } else {
        NegativeShare(s', m, i);
        QuotientMonotone(-s', m, -s, n);
      }
    }
  }

  lemma QuotientMonotone(a: nat, m: int, b: nat, n: int)
    requires 0 < n <= m && a <= b
    ensures a / m <= b / n
  {
    var x, y := a / m, b / n;
    if x > y {
      MulMonotone(n, y + 1, x);
      MulMonotone(x, n, m);
    }
  }

  lemma NegativeShare(nodes: int, racks: int, i: int)
    requires racks > 0 && 0 <= i && nodes < 0
    ensures Share(nodes, racks, i) == -((-nodes) / racks) <= 0
  {
    DivFacts(-nodes, racks);
  }
}
