/** A failed drain holds the whole reconcile pass: until the taint is gone and the annotations are
    taken off, no pass starts, relabels or drains any pod. */
module FailedDrains {
  import opened Model
  import opened Specs
  import opened EmmSpecs
  import opened Pass
  import opened Frames
  import opened Labels
  import opened Draining
  import opened Rolling
  import opened Opening

  lemma SameTainted(w: World, w': World)
    requires SameShape(w, w')
    ensures Tainted(w') == Tainted(w)
  {
    forall n ensures CaresAbout(w', n) <==> CaresAbout(w, n) {
      if CaresAbout(w, n) {
        SameCares(w, w', n);
      }
      if CaresAbout(w', n) {
        SameCares(w', w, n);
      }
    }
  }

  lemma SameCares(w: World, w': World, n: string)
    requires SameShape(w, w') && CaresAbout(w, n)
    ensures CaresAbout(w', n)
  {
    var i :| InDc(w, i) && (w.pods[i].info.node == n || w.pods[i].info.pvcNode == n);
    assert InDc(w', i);
  }

  lemma MissingPvcRemoves(w: World, w': World, r: Result, j: int)
    requires MissingPvcSpec(w, w', r) && NewlyRemoved(w, w', j)
    ensures FoundWithoutPvc(w, j)
  {
    var i :| FoundWithoutPvc(w, i) && DeletesPod(w, w', i, r, Requeue);
  }

  /** What a pass may still do before it comes to the failed drain. */
  ghost predicate HeldBack(w: World, w': World) {
    && SameLabels(w, w')
    && forall j :: NewlyRemoved(w, w', j) ==> FoundWithoutPvc(w, j)
  }

  lemma FailedNext(c: Check, w: World, w': World, r: Result, i: int)
    requires StepSpec(c, w, w', r) && (Early(c) || Resizes(c)) && !c.RackScale? && w.env.pspEnabled && Failed(w, i)
    ensures HeldBack(w, w') && (c.Drains? ==> r != Continue)
    ensures !c.Drains? || w.pods[i].info.node in Tainted(w) ==> w'.pods[i].failure == w.pods[i].failure
  {
    hide StepSpec, Keeps, HeldBack, Tainted;
    StepKeeps(c, w, w', r);
    if c.Drains? {
      DrainWaits(c, w, w', r, i);
    } else {
      forall j | NewlyRemoved(w, w', j) ensures FoundWithoutPvc(w, j) {
        OnlyWithoutVolume(c, w, w', r, j);
      }
      KeepsFailure(c, w, w', i);
    }
    HeldByKeeps(c, w, w');
  }

  lemma HeldByKeeps(c: Check, w: World, w': World)
    requires Keeps(c, w, w') && !WritesStates(c) && forall j :: NewlyRemoved(w, w', j) ==> FoundWithoutPvc(w, j)
    ensures HeldBack(w, w')
  {
  }

  lemma KeepsFailure(c: Check, w: World, w': World, i: int)
    requires Keeps(c, w, w') && !c.Drains? && InDc(w, i)
    ensures |w'.pods| == |w.pods| && w'.pods[i].failure == w.pods[i].failure
  {
  }

  lemma DrainWaits(c: Check, w: World, w': World, r: Result, i: int)
    requires StepSpec(c, w, w', r) && c.Drains? && w.env.pspEnabled && Failed(w, i)
    ensures r != Continue && |w'.pods| == |w.pods| && (forall j :: !NewlyRemoved(w, w', j))
    ensures w.pods[i].info.node in Tainted(w) ==> w'.pods[i].failure == w.pods[i].failure
  {
    FailedDrainWaits(w, w', r, i);
  }

  lemma OnlyWithoutVolume(c: Check, w: World, w': World, r: Result, j: int)
    requires StepSpec(c, w, w', r) && (Early(c) || Resizes(c)) && !c.Drains? && NewlyRemoved(w, w', j)
    ensures FoundWithoutPvc(w, j)
  {
    hide MissingPvcSpec, LacksPvc;
    StepKeeps(c, w, w', r);
    MissingPvcRemoves(w, w', r, j);
  }

  lemma WhereHeld(k: nat)
    ensures k <= 7 ==> (Early(CheckAt(k)) || Resizes(CheckAt(k))) && !CheckAt(k).RackScale? && (CheckAt(k).Drains? <==> k == 7)
  {
  }

  lemma {:induction false} ReachFailed(k: nat, w0: World, w: World, i: int)
    requires w0.env.pspEnabled && Failed(w0, i) && Reaches(k, w0, w)
    ensures k <= 7 && SameShape(w0, w) && SameLabels(w0, w) && w.pods[i].failure == w0.pods[i].failure
  {
    hide StepSpec;
    ReachShape(k, w0, w);
    if k > 0 {
      var m := Before(k, w0, w);
      ReachFailed(k - 1, w0, m, i);
      WhereHeld(k - 1);
      FailedNext(CheckAt(k - 1), m, w, Continue, i);
    }
  }

  /** While a pod of the datacenter carries a failure annotation, no pass runs through, moves a
      node-state label, or removes a pod other than one found without its claim, which is the first
      such pod if calls succeed; and the annotation stays while the pod's node is tainted. */
  lemma FailedDrainHoldsPass(w0: World, w': World, i: int)
    requires w0.env.pspEnabled && Failed(w0, i) && PassSpec(w0, w')
    ensures HeldBack(w0, w')
    ensures w0.pods[i].info.node in Tainted(w0) ==> w'.pods[i].failure == w0.pods[i].failure
  {
    hide StepSpec;
    var k, m, r := PassEnd(w0, w');
    ReachFailed(k, w0, m, i);
    ReachRemovesNone(k, w0, m);
    WhereHeld(k);
    FailedNext(CheckAt(k), m, w', r, i);
    SameTainted(w0, m);
    HeldFromStart(w0, m, w');
  }

  lemma HeldFromStart(w0: World, m: World, w': World)
    requires SameShape(w0, m) && SameLabels(w0, m) && SameRemovals(w0, m) && HeldBack(m, w')
    ensures HeldBack(w0, w')
  {
    forall j | NewlyRemoved(w0, w', j) ensures FoundWithoutPvc(w0, j) {
      assert NewlyRemoved(m, w', j);
      assert FoundWithoutPvc(m, j);
      assert forall i :: InDc(w0, i) ==> InDc(m, i);
    }
  }

  lemma {:induction false} FirstUpTo(w: World, p: PodView -> bool, n: int) returns (i: int)
    requires InDc(w, n) && p(w.pods[n])
    ensures FirstDc(w, i, p)
    decreases n
  {
    if j :| 0 <= j < n && InDc(w, j) && p(w.pods[j]) {
      i := FirstUpTo(w, p, j);
    } else {
      i := n;
    }
  }

  /** The missing-volume check comes before the drains, so a failed drain does not hold it back. */
  lemma MissingVolumeRemoved(w: World, i: int)
    requires WellFormed(w) && Admitted(w) && FoundWithoutPvc(w, i)
    ensures PassSpec(w, RemovePod(w, i))
  {
    hide StepSpec;
    OpensTo(2, w);
    RemovesAt(CheckAt(2), w, i);
    assert EndsAt(2, w, RemovePod(w, i), Requeue);
  }

  lemma RemovesAt(c: Check, w: World, i: int)
    requires WellFormed(w) && c.MissingPvc? && FoundWithoutPvc(w, i)
    ensures StepSpec(c, w, RemovePod(w, i), Requeue)
  {
  }

  /** With a failed drain, passes remove nothing if and only if the datacenter is not admitted or
      none of its pods lacks its volume. */
  lemma FailedDrainExact(w: World, i: int)
    requires WellFormed(w) && NoneRemoved(w) && w.env.pspEnabled && Failed(w, i)
    ensures (forall w', j :: PassSpec(w, w') ==> !NewlyRemoved(w, w', j)) <==> !Admitted(w) || NoDc(w, LacksPvc)
  {
    hide StepSpec, Reaches, PassSpec, Admitted;
    forall w', j | PassSpec(w, w') && NewlyRemoved(w, w', j) ensures Admitted(w) && !NoDc(w, LacksPvc) {
      FailedDrainHoldsPass(w, w', i);
      RemovesIfAdmitted(w, w', j);
    }
    if Admitted(w) && !NoDc(w, LacksPvc) {
      var n :| InDc(w, n) && LacksPvc(w.pods[n]);
      var j := FirstUpTo(w, LacksPvc, n);
      MissingVolumeRemoved(w, j);
      assert NewlyRemoved(w, RemovePod(w, j), j);
    }
  }

  lemma RemovesIfAdmitted(w: World, w': World, j: int)
    requires PassSpec(w, w') && NewlyRemoved(w, w', j)
    ensures Admitted(w)
  {
    hide StepSpec;
    var k, m, r := PassEnd(w, w');
    if k <= 1 {
      OpensUnchanged(k, w, m);
      FirstChecks(k, m, w', r);
    } else {
      ReachesAdmitted(k, w, m);
    }
  }
}
