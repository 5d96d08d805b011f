/** The condition list of a datacenter's status. */
module Conditions {

  datatype ConditionType =
    | DcReady | DcInitialized | ReplacingNodes | ScalingUp | ScalingDown
    | Updating | DcStopped | Resuming | RollingRestart | DcValid

  datatype ConditionStatus = True | False | Unknown

  datatype Condition = Condition(kind: ConditionType, status: ConditionStatus, since: int)

  function Find(cs: seq<Condition>, k: ConditionType): (i: int)
    ensures -1 <= i < |cs|
  {
    if cs == [] then -1
    else if cs[0].kind == k then 0
    else
      var i := Find(cs[1..], k);
      if i == -1 then -1 else i + 1
  }

  /** Find returns the first entry of its kind. */
  lemma {:induction false} FirstFound(cs: seq<Condition>, k: ConditionType)
    ensures var i := Find(cs, k);
            && (i >= 0 ==> cs[i].kind == k && forall j :: 0 <= j < i ==> cs[j].kind != k)
            && (i == -1 ==> forall j :: 0 <= j < |cs| ==> cs[j].kind != k)
  {
    if cs != [] {
      FirstFound(cs[1..], k);
    }
  }

  function StatusOf(cs: seq<Condition>, k: ConditionType): ConditionStatus {
    var i := Find(cs, k);
    if i == -1 then Unknown else cs[i].status
  }

  /** When the condition last changed; zero when it was never set. */
  function SinceOf(cs: seq<Condition>, k: ConditionType): int {
    var i := Find(cs, k);
    if i == -1 then 0 else cs[i].since
  }

  /** Every entry of the same kind is overwritten; without one, the condition is appended. */
  function Assign(cs: seq<Condition>, c: Condition): seq<Condition> {
    if Find(cs, c.kind) == -1 then cs + [c]
    else seq(|cs|, i requires 0 <= i < |cs| => if cs[i].kind == c.kind then c else cs[i])
  }

  method SetCondition(conditions: seq<Condition>, c: Condition) returns (r: seq<Condition>)
    ensures r == Assign(conditions, c)
    ensures forall k :: StatusOf(r, k) == if k == c.kind then c.status else StatusOf(conditions, k)
  {
    r := conditions;
    var added := false;
    for i := 0 to |conditions|
      invariant |r| == |conditions|
      invariant forall j :: 0 <= j < i ==> r[j] == if conditions[j].kind == c.kind then c else conditions[j]
      invariant forall j :: i <= j < |r| ==> r[j] == conditions[j]
      invariant added <==> exists j :: 0 <= j < i && conditions[j].kind == c.kind
    {
      if r[i].kind == c.kind {
        r := r[i := c];
        added := true;
      }
    }
    FirstFound(conditions, c.kind);
    if !added {
      assert r == conditions;
      r := r + [c];
    }
    forall k {
      AssignedStatus(conditions, c, k);
    }
  }

  /** A status is only written when it changes, so its transition time is kept otherwise. */
  function With(cs: seq<Condition>, k: ConditionType, s: ConditionStatus, now: int): seq<Condition> {
    if StatusOf(cs, k) == s then cs else Assign(cs, Condition(k, s, now))
  }

  lemma AssignedStatus(cs: seq<Condition>, c: Condition, k: ConditionType)
    ensures StatusOf(Assign(cs, c), k) == if k == c.kind then c.status else StatusOf(cs, k)
    ensures SinceOf(Assign(cs, c), k) == if k == c.kind then c.since else SinceOf(cs, k)
  {
    var r := Assign(cs, c);
    var i, j := Find(cs, k), Find(r, k);
    FirstFound(cs, k);
    FirstFound(r, k);
    FirstFound(cs, c.kind);
    if k == c.kind {
      assert i == -1 ==> r[|cs|].kind == k;
      assert i >= 0 ==> r[i].kind == k;
    } else {
      assert forall m :: 0 <= m < |cs| ==> (r[m].kind == k <==> cs[m].kind == k);
      if i >= 0 {
        assert r[i].kind == k;
      }
    }
  }

  /** Setting one condition sets that one and leaves every other as it was. */
  lemma WithStatus(cs: seq<Condition>, k: ConditionType, s: ConditionStatus, now: int, other: ConditionType)
    ensures StatusOf(With(cs, k, s, now), other) == if other == k then s else StatusOf(cs, other)
    ensures other != k || StatusOf(cs, k) == s ==> SinceOf(With(cs, k, s, now), other) == SinceOf(cs, other)
    ensures other == k && StatusOf(cs, k) != s ==> SinceOf(With(cs, k, s, now), other) == now
  {
    if StatusOf(cs, k) != s {
      AssignedStatus(cs, Condition(k, s, now), other);
    }
  }

  /** Sets a condition if its status differs, and reports whether it did. */
  method SetStatus(cs: seq<Condition>, k: ConditionType, s: ConditionStatus, now: int)
    returns (r: seq<Condition>, changed: bool)
    ensures r == With(cs, k, s, now) && (changed <==> StatusOf(cs, k) != s)
    ensures forall other :: StatusOf(r, other) == if other == k then s else StatusOf(cs, other)
  {
    changed := StatusOf(cs, k) != s;
    r := cs;
    if changed {
      r := SetCondition(cs, Condition(k, s, now));
    }
  }
}
