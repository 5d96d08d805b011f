/** The checks a pass opens with: when they hand over, and that they leave the world as it was. */
module Opening {
  import opened Conditions
  import opened Model
  import opened Specs
  import opened Pass
  import opened Frames

  /** The datacenter has a node for every rack and was not found invalid. */
  ghost predicate Admitted(w: World) {
    |w.dc.spec.racks| <= w.dc.spec.size && Condition_(w, DcValid) != False
  }

  lemma FirstChecks(k: nat, w: World, w': World, r: Result)
    requires k <= 1 && StepSpec(CheckAt(k), w, w', r)
    ensures w' == w && (Admitted(w) ==> r == Continue)
    ensures r == Continue ==> if k == 0 then |w.dc.spec.racks| <= w.dc.spec.size else Condition_(w, DcValid) != False
  {
  }

  lemma ClaimCheck(k: nat, w: World, w': World, r: Result)
    requires k == 2 && StepSpec(CheckAt(k), w, w', r)
    ensures MissingPvcSpec(w, w', r)
    ensures r == Continue ==> w' == w && ClaimsPass(w)
    ensures NoDc(w, LacksPvc) ==> w' == w && r == Continue
  {
  }

  lemma StatusChecks(k: nat, w: World, w': World, r: Result)
    requires 3 <= k <= 4 && StepSpec(CheckAt(k), w, w', r)
    ensures w.env.apiUp ==> r == Continue
  {
  }

  /** Nothing is changed up to the status check. */
  lemma {:induction false} OpensUnchanged(k: nat, w0: World, w: World)
    requires k <= 3 && Reaches(k, w0, w)
    ensures w == w0 && (k >= 1 ==> |w0.dc.spec.racks| <= w0.dc.spec.size) && (k >= 2 ==> Admitted(w0))
    ensures k == 3 ==> ClaimsPass(w0)
  {
    hide StepSpec;
    if k > 0 {
      var m := Before(k, w0, w);
      OpensUnchanged(k - 1, w0, m);
      if k - 1 <= 1 {
        FirstChecks(k - 1, m, w, Continue);
      } else {
        ClaimCheck(k - 1, m, w, Continue);
      }
    }
  }

  lemma {:induction false} ReachesAdmitted(k: nat, w0: World, w: World)
    requires k >= 2 && Reaches(k, w0, w)
    ensures Admitted(w0)
  {
    hide StepSpec;
    if k == 2 {
      OpensUnchanged(k, w0, w);
    } else {
      var m := Before(k, w0, w);
      ReachesAdmitted(k - 1, w0, m);
    }
  }

  lemma OpensTo(k: nat, w: World)
    requires WellFormed(w) && Admitted(w) && (k <= 2 || (k == 3 && ClaimsPass(w)))
    ensures Reaches(k, w, w)
  {
    if k > 0 {
      OpensTo(k - 1, w);
      FirstChecksPass(k - 1, w);
      ReachesNext(k - 1, w, w, w);
    }
  }

  lemma FirstChecksPass(k: nat, w: World)
    requires WellFormed(w) && Admitted(w) && (k <= 1 || (k == 2 && ClaimsPass(w)))
    ensures StepSpec(CheckAt(k), w, w, Continue)
  {
  }

  // ----- When the opening hands over -----

  /** A pass over an admitted datacenter whose pods have their claims gets past its first five
      checks, if calls succeed. */
  lemma OpeningHandsOver(k: nat, w0: World, m: World, w': World, r: Result)
    requires Admitted(w0) && NoDc(w0, LacksPvc) && w0.env.apiUp
    requires k < 5 && Reaches(k, w0, m) && StepSpec(CheckAt(k), m, w', r)
    ensures r == Continue
  {
    hide StepSpec;
    ReachShape(k, w0, m);
    if k <= 2 {
      OpensUnchanged(k, w0, m);
    }
    if k <= 1 {
      FirstChecks(k, m, w', r);
    } else if k == 2 {
      ClaimCheck(k, m, w', r);
    } else {
      StatusChecks(k, m, w', r);
    }
  }
}
