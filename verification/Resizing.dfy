/** How passes move the replica counts of a running datacenter: up to the racks' shares at once,
    down by one node of the first rack in excess at a time, and never otherwise. */
module Resizing {
  import opened Racks
  import opened Model
  import opened Specs
  import opened Pass
  import opened Frames
  import opened Labels
  import opened Decommission
  import opened BringUp

  /** A pod whose rack is still to be lowered is the last of the first rack in excess, and there
      are more nodes than wanted. So it is when the pod is labelled; an edit of the size that comes
      while the pod is leaving may take the warrant away. */
  ghost predicate Warranted(w: World)
    requires w.sts != []
  {
    forall i, k :: Leaving(w, i) && StsIndex(w.sts, w.pods[i].info.rack) == k && k >= 0
                   && w.sts[k].replicas == w.pods[i].info.ordinal + 1 ==>
      FirstExcess(Replicas(w), k) && w.dc.spec.size < Sum(Replicas(w))
  }

  ghost predicate Lowered(a: seq<int>, b: seq<int>, size: int)
    requires a != []
  {
    size < Sum(a) && exists k :: FirstExcess(a, k) && b == a[k := a[k] - 1]
  }

  /** The racks are raised in order, all of them or none, unless a write fails on the way. */
  ghost predicate RaisedBy(a: seq<int>, b: seq<int>, size: int, apiUp: bool, n: int)
    requires a != []
  {
    0 <= n <= |a| && (apiUp ==> n == 0 || n == |a|) && b == RaisedUpTo(a, size, n)
  }

  /** One rack is lowered by one although that was no longer warranted. */
  ghost predicate Slips(a: seq<int>, b: seq<int>) {
    exists k :: 0 <= k < |a| && b == a[k := a[k] - 1]
  }

  /** What a pass may do to the replica counts, if what it lowers is warranted. */
  ghost predicate Moves(a: seq<int>, b: seq<int>, size: int, apiUp: bool)
    requires a != []
  {
    Lowered(a, b, size) || exists n :: RaisedBy(a, b, size, apiUp, n)
  }

  lemma RaisedIsMove(a: seq<int>, b: seq<int>, size: int, x: bool, y: bool, n: int)
    requires a != [] && RaisedBy(a, b, size, x, n) && (y ==> x)
    ensures Moves(a, b, size, y)
  {
    assert RaisedBy(a, b, size, y, n);
  }

  lemma Weaker(a: seq<int>, b: seq<int>, size: int, apiUp: bool)
    requires a != [] && Moves(a, b, size, true)
    ensures Moves(a, b, size, apiUp)
  {
    if n :| RaisedBy(a, b, size, true, n) {
      RaisedIsMove(a, b, size, true, apiUp, n);
    }
  }

  lemma RaisedNone(a: seq<int>, size: int)
    requires a != []
    ensures RaisedUpTo(a, size, 0) == a
  {
  }

  lemma RaisedAll(a: seq<int>, size: int)
    requires a != []
    ensures AboveShare(RaisedUpTo(a, size, |a|), size)
  {
  }

  // ----- One check -----

  lemma SameReplicas(c: Check, w: World, w': World, r: Result)
    requires StepSpec(c, w, w', r)
    requires !c.DecommissioningNodes? && !c.RackScale? && (c.StoppedState? ==> !w.dc.spec.stopped)
    ensures Replicas(w') == Replicas(w)
  {
    StepKeeps(c, w, w', r);
  }

  lemma GrownReplicas(w: World, w': World, r: Result, desired: seq<int>) returns (n: int)
    requires |w.sts| == |desired| && ScaleSpec(w, w', r, desired)
    ensures 0 <= n <= |w.sts| == |w'.sts| && (r == Continue ==> n == |w.sts|) && (w.env.apiUp ==> r == Continue)
    ensures forall k :: 0 <= k < |w.sts| ==>
              w'.sts[k].replicas == if k < n then Max(w.sts[k].replicas, desired[k]) else w.sts[k].replicas
  {
    if r == Continue {
      n := |w.sts|;
    } else {
      n :| UpTo(w.sts, w'.sts, AllGrown(w, desired).sts, n);
    }
  }

  lemma RackScaleRaises(c: Check, w: World, w': World, r: Result) returns (n: int)
    requires StepSpec(c, w, w', r) && c.RackScale? && !w.dc.spec.stopped
    ensures 0 <= n <= |w.sts| && Replicas(w') == RaisedUpTo(Replicas(w), w.dc.spec.size, n)
    ensures (w.env.apiUp ==> r == Continue) && (r == Continue ==> n == |w.sts|)
  {
    hide ScaleSpec;
    var desired := Split(w.dc.spec.size, |w.dc.spec.racks|);
    n := GrownReplicas(w, w', r, desired);
    var a, b := Replicas(w), Replicas(w');
    assert b == RaisedUpTo(a, w.dc.spec.size, n);
  }

  lemma LoweredByOne(w: World, w': World, i: int)
    requires WellFormed(w) && OneLeaver(w) && Leaving(w, i)
    requires FollowsDown(w, w', i, StsIndex(w.sts, w.pods[i].info.rack))
    ensures Moves(Replicas(w), Replicas(w'), w.dc.spec.size, true) || (!Warranted(w) && Slips(Replicas(w), Replicas(w')))
  {
    var k := StsIndex(w.sts, w.pods[i].info.rack);
    var a, b := Replicas(w), Replicas(w');
    if b[k] == a[k] {
      assert b == a;
      RaisedNone(a, w.dc.spec.size);
      assert RaisedBy(a, b, w.dc.spec.size, true, 0);
    } else {
      assert b == a[k := a[k] - 1];
    }
  }

  lemma NobodyFollowed(c: Check, w: World, w': World, r: Result)
    requires StepSpec(c, w, w', r) && c.DecommissioningNodes? && (r == Continue || NoDc(w, IsDecommissioning))
    ensures w'.sts == w.sts
  {
  }

  // ----- A whole pass -----

  lemma {:induction false} ReachNobody(k: nat, w0: World, w: World)
    requires NoDc(w0, IsDecommissioning) && Reaches(k, w0, w)
    ensures NoDc(w, IsDecommissioning)
  {
    hide StepSpec;
    if k > 0 {
      var m := Before(k, w0, w);
      ReachNobody(k - 1, w0, m);
      NobodyNext(CheckAt(k - 1), m, w);
    }
  }

  lemma NobodyNext(c: Check, w: World, w': World)
    requires StepSpec(c, w, w', Continue) && NoDc(w, IsDecommissioning)
    ensures NoDc(w', IsDecommissioning)
  {
    if c.DecommissionNodes? {
      assert w' == w;
    } else {
      LatePhase(c, w, w', Continue);
    }
  }

  /** The replica counts part-way through a pass. */
  ghost predicate Midway(k: nat, a: seq<int>, b: seq<int>, size: int)
    requires a != []
  {
    && (k <= 8 ==> b == a)
    && (k >= 9 ==> b == RaisedUpTo(a, size, |a|))
  }

  lemma MidwayNext(k: nat, a: seq<int>, w: World, w': World)
    requires a != [] && Midway(k, a, Replicas(w), w.dc.spec.size) && !w.dc.spec.stopped
    requires StepSpec(CheckAt(k), w, w', Continue)
    ensures Midway(k + 1, a, Replicas(w'), w.dc.spec.size)
  {
    var c := CheckAt(k);
    if k == 8 {
      var n := RackScaleRaises(c, w, w', Continue);
    } else if k == 5 {
      NobodyFollowed(c, w, w', Continue);
    } else {
      SameReplicas(c, w, w', Continue);
    }
  }

  lemma {:induction false} ReachMidway(k: nat, w0: World, w: World, a: seq<int>)
    requires a != [] && a == Replicas(w0) && !w0.dc.spec.stopped && Reaches(k, w0, w)
    ensures Midway(k, a, Replicas(w), w0.dc.spec.size)
  {
    hide StepSpec;
    if k > 0 {
      var m := Before(k, w0, w);
      ReachMidway(k - 1, w0, m, a);
      assert m.dc.spec == w0.dc.spec by {
        ReachShape(k - 1, w0, m);
      }
      MidwayNext(k - 1, a, m, w);
    }
  }

  lemma EndMoves(k: nat, a: seq<int>, w: World, w': World, r: Result) returns (n: int)
    requires a != [] && Midway(k, a, Replicas(w), w.dc.spec.size) && !w.dc.spec.stopped
    requires StepSpec(CheckAt(k), w, w', r) && r != Continue && NoDc(w, IsDecommissioning)
    ensures RaisedBy(a, Replicas(w'), w.dc.spec.size, w.env.apiUp, n) && (k != 8 ==> n == 0 || n == |a|)
  {
    hide StepSpec;
    var c := CheckAt(k);
    RaisedNone(a, w.dc.spec.size);
    if k == 8 {
      n := RackScaleRaises(c, w, w', r);
    } else {
      n := if k <= 8 then 0 else |a|;
      if k == 5 {
        NobodyFollowed(c, w, w', r);
        assert Replicas(w') == Replicas(w);
      } else {
        SameReplicas(c, w, w', r);
      }
    }
  }

  /** On a running datacenter every pass raises racks in order to their shares, lowers the first rack in
      excess by one, or leaves the replica counts alone; unless it lowers a rack for a leaving pod
      although an edit of the size took the warrant away, and then it is the last time. */
  lemma PassMoves(w0: World, w': World)
    requires WellFormed(w0) && WellNamed(w0) && OneLeaver(w0) && !w0.dc.spec.stopped
    requires PassSpec(w0, w')
    ensures w'.sts != []
    ensures || Moves(Replicas(w0), Replicas(w'), w0.dc.spec.size, w0.env.apiUp)
            || (!Warranted(w0) && Warranted(w') && Slips(Replicas(w0), Replicas(w')))
  {
    hide StepSpec, Slips, Moves;
    PassShape(w0, w');
    if i :| Leaving(w0, i) {
      LeaverIsFollowedDown(w0, w', i);
      LoweredByOne(w0, w', i);
      if Moves(Replicas(w0), Replicas(w'), w0.dc.spec.size, true) {
        Weaker(Replicas(w0), Replicas(w'), w0.dc.spec.size, w0.env.apiUp);
      } else {
        LoweredNowWarranted(w0, w', i);
      }
    } else {
      var k, m, r := PassEnd(w0, w');
      var n := MovedAt(k, w0, m, w', r);
      RaisedIsMove(Replicas(w0), Replicas(w'), w0.dc.spec.size, w0.env.apiUp || k != 8, w0.env.apiUp, n);
    }
  }

  /** A leaving pod whose rack has been lowered leaves nothing to lower. */
  lemma LoweredNowWarranted(w: World, w': World, i: int)
    requires WellFormed(w) && OneLeaver(w) && Leaving(w, i) && SameShape(w, w') && SameLabels(w, w')
    requires FollowsDown(w, w', i, StsIndex(w.sts, w.pods[i].info.rack))
    requires !Moves(Replicas(w), Replicas(w'), w.dc.spec.size, true)
    ensures Warranted(w')
  {
    hide SameShape;
    assert Replicas(w') != Replicas(w) by {
      if Replicas(w') == Replicas(w) {
        RaisedNone(Replicas(w), w.dc.spec.size);
        RaisedIsMove(Replicas(w), Replicas(w), w.dc.spec.size, true, true, 0);
      }
    }
    SameRacks(w, w');
    SameRacksSameIndex(w.sts, w'.sts, w.pods[i].info.rack);
    forall j | Leaving(w', j) ensures j == i && w'.pods[j].info == w.pods[i].info {
      SameLeaver(w, w', j);
    }
  }

  lemma SameRacks(w: World, w': World)
    requires SameShape(w, w')
    ensures |w'.sts| == |w.sts| && forall k :: 0 <= k < |w.sts| ==> w'.sts[k].rack == w.sts[k].rack
  {
  }

  lemma SameLeaver(w: World, w': World, j: int)
    requires SameShape(w, w') && SameLabels(w, w') && Leaving(w', j)
    ensures Leaving(w, j) && w'.pods[j].info == w.pods[j].info
  {
  }

  lemma MovedAt(k: nat, w0: World, m: World, w': World, r: Result) returns (n: int)
    requires WellFormed(w0) && (forall i :: !Leaving(w0, i)) && !w0.dc.spec.stopped
    requires k <= CHECKS && Reaches(k, w0, m)
    requires if k == CHECKS then m == w' else r != Continue && StepSpec(CheckAt(k), m, w', r)
    ensures RaisedBy(Replicas(w0), Replicas(w'), w0.dc.spec.size, w0.env.apiUp || k != 8, n)
  {
    hide StepSpec;
    assert NoDc(w0, IsDecommissioning) by {
      assert forall i :: InDc(w0, i) ==> !Leaving(w0, i);
    }
    ReachNobody(k, w0, m);
    ReachMidway(k, w0, m, Replicas(w0));
    ReachShape(k, w0, m);
    if k < CHECKS {
      n := EndMoves(k, Replicas(w0), m, w', r);
    } else {
      n := |Replicas(w0)|;
    }
  }

  // ----- Warranted removals stay warranted -----

  lemma FollowedStaysWarranted(w: World, w': World, i: int)
    requires WellFormed(w) && OneLeaver(w) && Warranted(w) && Leaving(w, i) && SameShape(w, w') && SameLabels(w, w')
    requires FollowsDown(w, w', i, StsIndex(w.sts, w.pods[i].info.rack))
    ensures Warranted(w')
  {
    SameRacksSameIndex(w.sts, w'.sts, w.pods[i].info.rack);
    var k := StsIndex(w.sts, w.pods[i].info.rack);
    forall j | Leaving(w', j) ensures j == i {
      assert Leaving(w, j);
    }
    if w'.sts[k].replicas == w.pods[i].info.ordinal + 1 {
      assert Replicas(w') == Replicas(w);
    }
  }

  lemma LabelledIsWarranted(c: Check, w: World, w': World, r: Result)
    requires StepSpec(c, w, w', r) && WellNamed(w) && NoDc(w, IsDecommissioning)
    ensures w'.sts != [] && Warranted(w')
  {
    if c.DecommissionNodes? {
      GiveUpWarranted(w, w', r);
    } else {
      StepShape(c, w, w', r);
      LatePhase(c, w, w', r);
    }
  }

  lemma GiveUpWarranted(w: World, w': World, r: Result)
    requires WellFormed(w) && WellNamed(w) && NoDc(w, IsDecommissioning)
    requires DecommissionNodesSpec(w, w', r)
    ensures w'.sts == w.sts && Warranted(w')
  {
    GiveUpStep(w, w', r);
    DecommissionNodesKeeps(w, w', r);
    assert Replicas(w') == Replicas(w);
    forall i, k | Leaving(w', i) && StsIndex(w'.sts, w'.pods[i].info.rack) == k && k >= 0
      ensures FirstExcess(Replicas(w'), k) && w'.dc.spec.size < Sum(Replicas(w'))
    {
      var l :| LastOfExcess(w, i, l);
      RackFound(w, l);
    }
  }

  lemma PassKeepsWarranted(w0: World, w': World)
    requires WellFormed(w0) && WellNamed(w0) && OneLeaver(w0) && Warranted(w0) && PassSpec(w0, w')
    ensures w'.sts != [] && Warranted(w')
  {
    hide StepSpec;
    var k, m, r := PassEnd(w0, w');
    if i :| Leaving(w0, i) {
      PassShape(w0, w');
      LeaverIsFollowedDown(w0, w', i);
      FollowedStaysWarranted(w0, w', i);
    } else {
      assert NoDc(w0, IsDecommissioning) by {
        assert forall i :: InDc(w0, i) ==> !Leaving(w0, i);
      }
      ReachNobody(k, w0, m);
      ReachNamed(k, w0, m);
      if k < CHECKS {
        LabelledIsWarranted(CheckAt(k), m, w', r);
      } else {
        PassShape(w0, w');
      }
    }
  }

  // ----- Where the moves lead -----

  /** Raising all racks that are below their share levels them. */
  lemma RaisingLevels(a: seq<int>, size: nat, d: int)
    requires a != [] && 1 <= d && SpreadWithin(a, d)
    ensures SpreadWithin(RaisedUpTo(a, size, |a|), d)
  {
    var b, t := RaisedUpTo(a, size, |a|), Split(size, |a|);
    SplitBalanced(size, |a|);
    forall i, j | 0 <= i < |b| && 0 <= j < |b| ensures b[i] <= b[j] + d {
      if b[i] != a[i] {
        assert t[i] <= t[j] + 1;
      }
    }
  }

  /** No move drives the racks further apart than `d`, if no raise cut short on the way does. */
  lemma MovesKeepSpread(a: seq<int>, b: seq<int>, size: nat, apiUp: bool, d: int)
    requires a != [] && Moves(a, b, size, apiUp) && 1 <= d && SpreadWithin(a, d)
    requires apiUp || forall n :: 0 <= n <= |a| ==> SpreadWithin(RaisedUpTo(a, size, n), d)
    ensures SpreadWithin(b, d)
  {
    if Lowered(a, b, size) {
      var k :| FirstExcess(a, k) && b == a[k := a[k] - 1];
      ShrinkKeepsSpread(a, k, d);
    } else {
      RaisedNone(a, size);
      RaisingLevels(a, size, d);
    }
  }

  /** How far the counts are from the split: the nodes too many and the nodes missing. */
  function Distance(a: seq<int>, t: seq<int>): nat
    requires |a| == |t|
  {
    if a == [] then 0
    else
      var n := |a| - 1;
      Distance(a[..n], t[..n]) + if a[n] < t[n] then t[n] - a[n] else a[n] - t[n]
  }

  predicate Nearer(x: int, y: int, t: int) {
    (t <= y <= x) || (x <= y <= t)
  }

  lemma {:induction false} NearerIsCloser(a: seq<int>, b: seq<int>, t: seq<int>)
    requires |a| == |b| == |t| && forall k :: 0 <= k < |a| ==> Nearer(a[k], b[k], t[k])
    ensures Distance(b, t) <= Distance(a, t) && (Distance(b, t) == Distance(a, t) ==> b == a)
  {
    if a != [] {
      var n := |a| - 1;
      NearerIsCloser(a[..n], b[..n], t[..n]);
      if Distance(b, t) == Distance(a, t) {
        assert a == a[..n] + [a[n]] && b == b[..n] + [b[n]];
      }
    }
  }

  lemma {:induction false} NoDistance(a: seq<int>, t: seq<int>)
    requires |a| == |t|
    ensures Distance(a, t) == 0 <==> a == t
  {
    if a != [] {
      var n := |a| - 1;
      NoDistance(a[..n], t[..n]);
      assert a == a[..n] + [a[n]] && t == t[..n] + [t[n]];
    }
  }

  /** Every move that changes anything brings the counts nearer to the split, rack by rack; none
      takes a rack below its share, or further below. */
  lemma MovesConverge(a: seq<int>, b: seq<int>, size: nat, apiUp: bool)
    requires a != [] && Moves(a, b, size, apiUp)
    ensures |b| == |a| && forall k :: 0 <= k < |a| ==> Nearer(a[k], b[k], Share(size, |a|, k))
    ensures Distance(b, Split(size, |a|)) <= Distance(a, Split(size, |a|))
    ensures b == a || Distance(b, Split(size, |a|)) < Distance(a, Split(size, |a|))
  {
    var t := Split(size, |a|);
    if Lowered(a, b, size) {
      var k :| FirstExcess(a, k) && b == a[k := a[k] - 1];
      ShareMonotone(size, Sum(a) - 1, |a|, k);
    }
    assert forall k :: 0 <= k < |a| ==> Nearer(a[k], b[k], t[k]);
    NearerIsCloser(a, b, t);
  }

  /** How many of the first `t` moves changed anything. */
  function Changes(counts: seq<seq<int>>, t: nat): nat
    requires t < |counts|
  {
    if t == 0 then 0 else Changes(counts, t - 1) + if counts[t] == counts[t - 1] then 0 else 1
  }

  /** Counts that move, but for one slip while one is owed. */
  ghost predicate Moving(counts: seq<seq<int>>, owed: seq<nat>, size: int) {
    && counts != [] && |owed| == |counts| && counts[0] != []
    && forall t :: 0 <= t < |counts| - 1 ==>
         && counts[t] != [] && owed[t + 1] <= owed[t]
         && (Moves(counts[t], counts[t + 1], size, false) || (owed[t + 1] < owed[t] && Slips(counts[t], counts[t + 1])))
  }

  lemma {:induction false} OneFurther(a: seq<int>, t: seq<int>, k: int)
    requires |a| == |t| && 0 <= k < |a|
    ensures Distance(a[k := a[k] - 1], t) <= Distance(a, t) + 1
  {
    var n := |a| - 1;
    var b := a[k := a[k] - 1];
    if k == n {
      assert b[..n] == a[..n];
    } else {
      OneFurther(a[..n], t[..n], k);
      assert b[..n] == a[..n][k := a[k] - 1];
    }
  }

  lemma SlipCosts(a: seq<int>, b: seq<int>, t: seq<int>)
    requires |a| == |t| && Slips(a, b)
    ensures |b| == |a| && Distance(b, t) <= Distance(a, t) + 1 && forall k :: 0 <= k < |a| ==> b[k] >= a[k] - 1
  {
    var k :| 0 <= k < |a| && b == a[k := a[k] - 1];
    OneFurther(a, t, k);
  }

  /** A rack that was at its share or above is, but for the slips that have been. */
  ghost predicate HoldsShares(a: seq<int>, b: seq<int>, size: int, slips: int)
    requires a != [] && |a| == |b|
  {
    forall k :: 0 <= k < |a| && a[k] >= Share(size, |a|, k) ==> b[k] >= Share(size, |a|, k) - slips
  }

  lemma HeldOn(a: seq<int>, b: seq<int>, c: seq<int>, size: int, slips: nat)
    requires a != [] && |a| == |b| == |c| && HoldsShares(a, b, size, slips)
    requires forall k :: 0 <= k < |a| ==> Nearer(b[k], c[k], Share(size, |a|, k))
    ensures HoldsShares(a, c, size, slips)
  {
    hide Share;
  }

  /** From any counts, however the moves come: the counts change at most as often as they are away
      from the split, and twice more for every slip; a rack at its share or above stays there but for
      the slips; and counts that have no rack below its share and no node too many are exactly the
      split. */
  lemma {:induction false} ScalingEnds(counts: seq<seq<int>>, owed: seq<nat>, size: nat, t: nat)
    requires Moving(counts, owed, size) && t < |counts|
    ensures counts[t] != [] && |counts[t]| == |counts[0]| && owed[t] <= owed[0]
    ensures Changes(counts, t) + Distance(counts[t], Split(size, |counts[0]|)) + 2 * owed[t]
            <= Distance(counts[0], Split(size, |counts[0]|)) + 2 * owed[0]
    ensures HoldsShares(counts[0], counts[t], size, owed[0] - owed[t])
    ensures AboveShare(counts[t], size) && Sum(counts[t]) <= size ==> counts[t] == Split(size, |counts[0]|)
  {
    hide Moves, Slips, Distance, Share;
    if t > 0 {
      ScalingEnds(counts, owed, size, t - 1);
      if Moves(counts[t - 1], counts[t], size, false) {
        MovesConverge(counts[t - 1], counts[t], size, false);
        HeldOn(counts[0], counts[t - 1], counts[t], size, owed[0] - owed[t - 1]);
      } else {
        SlipCosts(counts[t - 1], counts[t], Split(size, |counts[0]|));
      }
    }
    if AboveShare(counts[t], size) && Sum(counts[t]) <= size {
      SettledAtSplit(counts[t], size);
    }
  }

  /** The check that gives nodes up never finds itself short of racks. */
  lemma NeverShortOfNodes(k: nat, w0: World, w: World)
    requires k >= 1 && WellFormed(w0) && Reaches(k, w0, w) && w.dc.spec.size < Sum(Replicas(w))
    ensures Sum(Replicas(w)) - 1 >= |w.sts|
  {
    hide StepSpec;
    ReachOrderPhase(k, w0, w);
    ReachShape(k, w0, w);
  }
}
