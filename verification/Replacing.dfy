/** Node replacements: names asked for in the spec are tracked in the status until their pods are
    back, and while any is tracked the datacenter says it is replacing nodes. */
module Replacing {
  import opened Conditions
  import Racks
  import opened Lists
  import opened Model
  import opened Specs
  import opened EmmSpecs
  import opened Pass
  import opened Frames
  import opened Labels
  import opened Convergence
  import opened Draining
  import opened Opening

  ghost predicate Tracked(w: World) {
    NoDuplicates(w.dc.replacements) && (w.dc.replacements != [] ==> Condition_(w, ReplacingNodes) == True)
  }

  /** Every name asked for is tracked already. */
  ghost predicate AllTracked(w: World) {
    forall n :: n in w.dc.replaceNodes ==> n in w.dc.replacements
  }

  // ----- The status check -----

  /** Names enter from the spec and leave only when their replacement is over. */
  ghost predicate Follows(w: World, w': World) {
    && (forall n :: n in w'.dc.replacements ==> n in w.dc.replacements || n in w.dc.replaceNodes)
    && (forall n :: n in w.dc.replacements && n !in w'.dc.replacements ==>
          exists i :: ReplacementOver(w, i) && w.pods[i].info.name == n)
  }

  lemma RecordedNames(w: World, left: seq<string>)
    requires left == RemoveEach(w.dc.replacements, OverNames(w)) && Tracked(w)
    ensures var all := AppendAbsent(left, w.dc.replaceNodes);
            && NoDuplicates(all)
            && (forall n :: n in all <==> n in left || n in w.dc.replaceNodes)
            && (forall n :: n in left ==> n in w.dc.replacements)
            && (forall n :: n in w.dc.replacements && n !in left ==> n in OverNames(w))
  {
    RemoveEachFacts(w.dc.replacements, OverNames(w));
    AppendAbsentFacts(left, w.dc.replaceNodes);
  }

  lemma StatusTracks(w: World, w': World, r: Result)
    requires Tracked(w) && UpdateStatusSpec(w, w', r)
    ensures Tracked(w') && Follows(w, w')
    ensures r == Continue || w.env.apiUp || AllTracked(w) ==> forall n :: n in w.dc.replaceNodes ==> n in w'.dc.replacements
  {
    if r == Continue {
      var left := RemoveEach(w.dc.replacements, OverNames(w));
      RecordedNames(w, left);
      WithStatus(w.dc.conditions, ReplacingNodes, True, w.env.now, ReplacingNodes);
      assert w.dc.replaceNodes == [] && w'.dc.replacements != [] ==> w.dc.replacements != [];
    }
  }

  // ----- The condition -----

  lemma {:induction false} GrowthKeepsReplacing(cs: seq<Condition>, n: nat, now: int)
    ensures StatusOf(GrowConditions(cs, n, now), ReplacingNodes) == StatusOf(cs, ReplacingNodes)
  {
    hide With, StatusOf;
    if n > 0 {
      var before := GrowConditions(cs, n - 1, now);
      GrowthKeepsReplacing(cs, n - 1, now);
      WithStatus(before, DcStopped, False, now, ReplacingNodes);
      WithStatus(With(before, DcStopped, False, now), Resuming, True, now, ReplacingNodes);
      WithStatus(before, ScalingUp, True, now, ReplacingNodes);
    }
  }

  lemma ScaleKeepsReplacing(w: World, w': World, r: Result, desired: seq<int>)
    requires |w.sts| == |desired| && ScaleSpec(w, w', r, desired)
    ensures Condition_(w', ReplacingNodes) == Condition_(w, ReplacingNodes)
  {
    if r == Continue {
      GrowthKeepsReplacing(w.dc.conditions, GrowCount(w.sts, desired, |w.sts|), w.env.now);
    } else {
      var n :| 0 <= n <= GrowCount(w.sts, desired, |w.sts|) && w'.dc.conditions == GrowConditions(w.dc.conditions, n, w.env.now);
      GrowthKeepsReplacing(w.dc.conditions, n, w.env.now);
    }
  }

  lemma FollowingKeepsReplacing(w: World, w': World, r: Result)
    requires DecommissioningSpec(w, w', r)
    ensures Condition_(w', ReplacingNodes) == Condition_(w, ReplacingNodes)
  {
    hide With, StatusOf;
    WithStatus(w.dc.conditions, ScalingDown, False, w.env.now, ReplacingNodes);
    if w' != w && !NoDc(w, IsDecommissioning) {
      var i :| FirstDc(w, i, IsDecommissioning) && CleanUpSpec(w, w', i, r);
    }
  }

  lemma ResizingKeepsReplacing(c: Check, w: World, w': World, r: Result)
    requires WellFormed(w) && Resizes(c) && ResizingSpec(c, w, w', r)
    ensures Condition_(w', ReplacingNodes) == Condition_(w, ReplacingNodes)
  {
    hide With, StatusOf, EmmSpec, DecommissioningSpec, ScaleSpec;
    var cs, now := w.dc.conditions, w.env.now;
    match c
    case DecommissioningNodes => FollowingKeepsReplacing(w, w', r);
    case StoppedState =>
      WithStatus(cs, DcStopped, True, now, ReplacingNodes);
      WithStatus(With(cs, DcStopped, True, now), DcReady, False, now, ReplacingNodes);
    case Drains => EmmKeeps(w, w', r);
    case RackScale => ScaleKeepsReplacing(w, w', r, Racks.Split(Wanted(w.dc.spec), |w.dc.spec.racks|));
  }

  lemma ShrinkKeepsReplacing(w: World, w': World, k: int, r: Result)
    requires 0 <= k < |w.sts| && ShrinkSpec(w, w', k, r)
    ensures Condition_(w', ReplacingNodes) == Condition_(w, ReplacingNodes)
  {
    hide With, StatusOf, MatchesLast;
    var cs, now := w.dc.conditions, w.env.now;
    WithStatus(cs, ScalingDown, True, now, ReplacingNodes);
    WithStatus(With(cs, ScalingDown, True, now), DcValid, False, now, ReplacingNodes);
  }

  lemma TemplateKeepsReplacing(w: World, w': World, r: Result)
    requires |w.dc.spec.hashes| == |w.sts| && PodTemplateSpec(w, w', r)
    ensures Condition_(w', ReplacingNodes) == Condition_(w, ReplacingNodes)
  {
    hide With, StatusOf;
    WithStatus(w.dc.conditions, Updating, True, w.env.now, ReplacingNodes);
  }

  lemma LateKeepsReplacing(c: Check, w: World, w': World, r: Result)
    requires WellFormed(w) && Late(c) && !c.ClearActions? && LateSpec(c, w, w', r)
    ensures Condition_(w', ReplacingNodes) == Condition_(w, ReplacingNodes)
  {
    hide With, StatusOf, PodTemplateSpec;
    var cs, now := w.dc.conditions, w.env.now;
    match c
    case RestartPods => WithStatus(cs, RollingRestart, True, now, ReplacingNodes);
    case DecommissionNodes =>
      if w' != w {
        var k :| Racks.FirstExcess(Replicas(w), k) && ShrinkSpec(w, w', k, r);
        ShrinkKeepsReplacing(w, w', k, r);
      }
    case PodTemplate => TemplateKeepsReplacing(w, w', r);
    case InitializedAndReady =>
      WithStatus(cs, DcInitialized, True, now, ReplacingNodes);
      WithStatus(With(cs, DcInitialized, True, now), DcReady, True, now, ReplacingNodes);
    case _ =>
  }

  lemma OthersKeepTracked(c: Check, w: World, w': World, r: Result)
    requires StepSpec(c, w, w', r) && !c.UpdateStatus? && Tracked(w)
    requires c.ClearActions? ==> w.dc.replacements == []
    ensures Tracked(w') && w'.dc.replacements == w.dc.replacements
  {
    StepKeeps(c, w, w', r);
    if c.ClearActions? || !WritesConditions(c) {
    } else if Resizes(c) {
      ResizingKeepsReplacing(c, w, w', r);
    } else {
      LateKeepsReplacing(c, w, w', r);
    }
  }

  lemma StatusStep(c: Check, w: World, w': World, r: Result)
    requires StepSpec(c, w, w', r) && c.UpdateStatus? && Tracked(w)
    ensures Tracked(w') && Follows(w, w')
    ensures r == Continue || w.env.apiUp || AllTracked(w) ==> forall n :: n in w.dc.replaceNodes ==> n in w'.dc.replacements
  {
    StatusTracks(w, w', r);
  }

  // ----- A whole pass -----

  lemma WhereTracked(k: nat)
    ensures (CheckAt(k).UpdateStatus? <==> k == 3) && (CheckAt(k).ClearActions? <==> k == 25)
  {
  }

  lemma TrackedNext(k: nat, w: World, w': World, r: Result)
    requires k < CHECKS && StepSpec(CheckAt(k), w, w', r) && Tracked(w)
    requires k == 25 ==> w.dc.replacements == []
    ensures Tracked(w')
  {
    hide StepSpec;
    WhereTracked(k);
    if k == 3 {
      StatusStep(CheckAt(k), w, w', r);
    } else {
      OthersKeepTracked(CheckAt(k), w, w', r);
    }
  }

  lemma {:induction false} ReachTracked(k: nat, w0: World, w: World)
    requires k <= CHECKS && WellFormed(w0) && !w0.dc.spec.stopped && Tracked(w0) && Reaches(k, w0, w)
    ensures Tracked(w) && (k >= 18 ==> w.dc.replacements == [])
  {
    hide StepSpec;
    ReachShape(k, w0, w);
    ReachEstablished(k, w0, w);
    if k > 0 {
      var m := Before(k, w0, w);
      ReachTracked(k - 1, w0, m);
      TrackedNext(k - 1, m, w, Continue);
    }
  }

  /** On a running datacenter every pass keeps the replacement list free of duplicates, and
      non-empty only while the ReplacingNodes condition is true. */
  lemma PassTracks(w0: World, w': World)
    requires WellFormed(w0) && !w0.dc.spec.stopped && Tracked(w0) && PassSpec(w0, w')
    ensures Tracked(w')
  {
    hide StepSpec;
    var k, m, r := PassEnd(w0, w');
    ReachTracked(k, w0, m);
    if k < CHECKS {
      TrackedNext(k, m, w', r);
    }
  }

  // ----- Every name is accounted for -----

  /** A name asked for is still asked for or is tracked. */
  ghost predicate NamesKept(w: World, w': World) {
    forall n :: n in w.dc.replaceNodes ==> n in w'.dc.replaceNodes || n in w'.dc.replacements
  }

  ghost predicate Untouched(w: World, w': World) {
    w'.dc == w.dc && SameShape(w, w') && SameLabels(w, w')
  }

  lemma BeforeStatus(c: Check, w: World, w': World, r: Result)
    requires StepSpec(c, w, w', r) && Early(c) && !c.UpdateStatus?
    ensures Untouched(w, w')
  {
    StepKeeps(c, w, w', r);
    KeepsShape(c, w, w');
  }

  lemma AfterStatus(c: Check, w: World, w': World, r: Result)
    requires StepSpec(c, w, w', r) && !c.UpdateStatus?
    ensures w'.dc.replacements == w.dc.replacements
    ensures forall n :: n in w.dc.replaceNodes ==> n in w'.dc.replaceNodes
  {
    StepKeeps(c, w, w', r);
    if c.Drains? {
      DrainsOnlyAsk(w, w', r);
    }
  }

  lemma DrainsOnlyAsk(w: World, w': World, r: Result)
    requires EmmSpec(w, w', r)
    ensures forall n :: n in w.dc.replaceNodes ==> n in w'.dc.replaceNodes
  {
    var a := EmmActs(w, w', r);
  }

  lemma FollowsFromStart(w0: World, m: World, w': World)
    requires Untouched(w0, m) && Follows(m, w')
    ensures Follows(w0, w')
  {
    forall n | n in w0.dc.replacements && n !in w'.dc.replacements
      ensures exists i :: ReplacementOver(w0, i) && w0.pods[i].info.name == n
    {
      var i :| ReplacementOver(m, i) && m.pods[i].info.name == n;
      assert InDc(w0, i);
      assert ReplacementOver(w0, i);
    }
  }

  ghost predicate Accounted(k: nat, w0: World, w: World) {
    if k <= 3 then Untouched(w0, w) && Tracked(w) else Follows(w0, w) && NamesKept(w0, w)
  }

  lemma AccountedStep(k: nat, w0: World, w: World, w': World, r: Result)
    requires k < CHECKS && Accounted(k, w0, w) && StepSpec(CheckAt(k), w, w', r)
    ensures Follows(w0, w') && (r == Continue || w.env.apiUp || k != 3 || AllTracked(w0) ==> NamesKept(w0, w'))
    ensures k < 3 ==> Untouched(w0, w') && Tracked(w')
  {
    hide StepSpec;
    WhereTracked(k);
    if k < 3 {
      BeforeStatus(CheckAt(k), w, w', r);
      ShapeTransitive(w0, w, w');
    } else if k == 3 {
      StatusStep(CheckAt(k), w, w', r);
      FollowsFromStart(w0, w, w');
    } else {
      AfterStatus(CheckAt(k), w, w', r);
    }
  }

  lemma {:induction false} ReachAccounted(k: nat, w0: World, w: World)
    requires k <= CHECKS && Tracked(w0) && Reaches(k, w0, w)
    ensures Accounted(k, w0, w)
  {
    hide StepSpec;
    if k > 0 {
      var m := Before(k, w0, w);
      ReachAccounted(k - 1, w0, m);
      AccountedStep(k - 1, w0, m, w, Continue);
    }
  }

  /** In every pass, names enter the list only from the spec, leave it only once a Started pod of
      that name is newer than the replacement or thirty minutes have passed, and with all calls
      succeeding none is forgotten. */
  lemma PassAccounts(w0: World, w': World)
    requires Tracked(w0) && PassSpec(w0, w')
    ensures Follows(w0, w') && (w0.env.apiUp ==> NamesKept(w0, w'))
  {
    hide StepSpec;
    var k, m, r := PassEnd(w0, w');
    ReachAccounted(k, w0, m);
    ReachShape(k, w0, m);
    if k < CHECKS {
      AccountedStep(k, w0, m, w', r);
    }
  }

  function Forgotten(w: World): World {
    w.(dc := w.dc.(replaceNodes := []))
  }

  lemma ForgottenAt(c: Check, w: World)
    requires WellFormed(w) && c.UpdateStatus? && Fails(w)
    ensures StepSpec(c, w, Forgotten(w), Error)
  {
  }

  /** A failing call between the two writes of the status check forgets the names asked for. */
  lemma FailureForgetsNames(w: World)
    requires WellFormed(w) && !w.env.apiUp && !AllTracked(w) && Admitted(w)
    ensures PassSpec(w, Forgotten(w)) && !NamesKept(w, Forgotten(w))
  {
    hide StepSpec, Reaches;
    OpensTo(3, w);
    ForgottenAt(CheckAt(3), w);
    assert EndsAt(3, w, Forgotten(w), Error);
  }

  /** Every pass keeps all names asked for, if and only if its calls succeed, or the datacenter is
      not admitted, or the names are tracked already. */
  lemma NamesKeptExact(w: World)
    requires WellFormed(w) && Tracked(w)
    ensures (forall w' :: PassSpec(w, w') ==> NamesKept(w, w'))
            <==> w.env.apiUp || !Admitted(w) || AllTracked(w)
  {
    hide StepSpec, Reaches, PassSpec, NamesKept, AllTracked, Admitted, Tracked;
    if w.env.apiUp || !Admitted(w) || AllTracked(w) {
      forall w' | PassSpec(w, w') ensures NamesKept(w, w') {
        NamesKeptBy(w, w');
      }
    } else {
      FailureForgetsNames(w);
    }
  }

  lemma NamesKeptBy(w: World, w': World)
    requires Tracked(w) && (w.env.apiUp || !Admitted(w) || AllTracked(w)) && PassSpec(w, w')
    ensures NamesKept(w, w')
  {
    hide StepSpec, NamesKept, AllTracked, Tracked;
    var k, m, r := PassEnd(w, w');
    ReachAccounted(k, w, m);
    ReachShape(k, w, m);
    if k < CHECKS {
      if k == 3 {
        OpensUnchanged(k, w, m);
      }
      AccountedStep(k, w, m, w', r);
    }
  }
}
