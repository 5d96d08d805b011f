/** The list helpers of the operator: order-insensitive comparison, search, in-place removal
    and duplicate-free append. */
module Lists {

  ghost predicate NoDuplicates<T>(s: seq<T>) {
    forall i, j :: 0 <= i < j < |s| ==> s[i] != s[j]
  }

  // ----- Comparison up to order -----

  ghost function Pick<T>(b: seq<T>, idxs: seq<int>): seq<T>
    requires forall k :: 0 <= k < |idxs| ==> 0 <= idxs[k] < |b|
  {
    seq(|idxs|, k requires 0 <= k < |idxs| => b[idxs[k]])
  }

  /** Strikes a matching index off a list of indices into `b` for every element of `a`: true
      exactly when the two lists are permutations of each other. */
  method ElementsMatch<T(==)>(a: seq<T>, b: seq<T>) returns (r: bool)
    ensures r <==> multiset(a) == multiset(b)
  {
    if |a| != |b| {
      assert |multiset(a)| == |a| && |multiset(b)| == |b|;
      return false;
    }
    var idxs := seq(|b|, k => k);
    assert Pick(b, idxs) == b;
    var i := 0;
    while i < |a|
      invariant 0 <= i <= |a| && |idxs| == |b| - i
      invariant forall k :: 0 <= k < |idxs| ==> 0 <= idxs[k] < |b|
      invariant multiset(a[..i]) + multiset(Pick(b, idxs)) == multiset(b)
    {
      var foundIndex := FindMatch(b, idxs, a[i]);
      assert a[..i + 1] == a[..i] + [a[i]];
      if foundIndex > -1 {
        StrikeOut(b, idxs, foundIndex);
        idxs := idxs[..foundIndex] + idxs[foundIndex + 1..];
      } else {
        OneTooMany(a, i, Pick(b, idxs));
        return false;
      }
      i := i + 1;
    }
    assert a[..i] == a;
    r := true;
  }

  method FindMatch<T(==)>(b: seq<T>, idxs: seq<int>, e: T) returns (foundIndex: int)
    requires forall k :: 0 <= k < |idxs| ==> 0 <= idxs[k] < |b|
    ensures -1 <= foundIndex < |idxs|
    ensures foundIndex >= 0 ==> b[idxs[foundIndex]] == e
    ensures foundIndex == -1 ==> e !in Pick(b, idxs)
  {
    foundIndex := -1;
    for k := 0 to |idxs|
      invariant foundIndex == -1
      invariant forall j :: 0 <= j < k ==> b[idxs[j]] != e
    {
      if b[idxs[k]] == e {
        return k;
      }
    }
  }

  lemma OneTooMany<T>(a: seq<T>, i: int, left: seq<T>)
    requires 0 <= i < |a| && a[i] !in left
    ensures multiset(a) != multiset(a[..i]) + multiset(left)
  {
    assert a == a[..i] + [a[i]] + a[i + 1..];
    assert multiset(a)[a[i]] > multiset(a[..i])[a[i]];
  }

  lemma StrikeOut<T>(b: seq<T>, idxs: seq<int>, f: int)
    requires 0 <= f < |idxs|
    requires forall k :: 0 <= k < |idxs| ==> 0 <= idxs[k] < |b|
    ensures multiset(Pick(b, idxs)) == multiset(Pick(b, idxs[..f] + idxs[f + 1..])) + multiset{b[idxs[f]]}
  {
    var p := Pick(b, idxs);
    assert p == p[..f] + [p[f]] + p[f + 1..];
    assert Pick(b, idxs[..f] + idxs[f + 1..]) == p[..f] + p[f + 1..];
  }

  // ----- Search and removal -----

  function IndexOf(s: seq<string>, v: string): (i: int)
    ensures -1 <= i < |s|
    ensures i == -1 <==> v !in s
    ensures i >= 0 ==> s[i] == v && v !in s[..i]
  {
    if s == [] then -1
    else if s[0] == v then 0
    else
      var i := IndexOf(s[1..], v);
      if i == -1 then -1 else i + 1
  }

  function RemoveFirst(s: seq<string>, v: string): seq<string> {
    var i := IndexOf(s, v);
    if i < 0 then s else s[..i] + s[i + 1..]
  }

  /** Removal in place: later elements move down one slot, the freed last slot is blanked, and
      the list is cut to its new length `n`. */
  method RemoveValueFromStringArray(a: array<string>, v: string) returns (n: nat)
    modifies a
    ensures n <= a.Length
    ensures a[..n] == RemoveFirst(old(a[..]), v)
    ensures n < a.Length ==> a[n] == "" && n == a.Length - 1
  {
    ghost var was := a[..];
    var foundIdx := 0;
    while foundIdx < a.Length && a[foundIdx] != v
      invariant 0 <= foundIdx <= a.Length
      invariant v !in was[..foundIdx]
    {
      foundIdx := foundIdx + 1;
    }
    if foundIdx == a.Length {
      assert was[..foundIdx] == was;
      return a.Length;
    }
    FirstAt(was, v, foundIdx);
    var i := foundIdx;
    while i + 1 < a.Length
      invariant foundIdx <= i < a.Length
      invariant a[..i] == was[..foundIdx] + was[foundIdx + 1..i + 1]
      invariant a[i..] == was[i..]
    {
      assert a[i + 1] == a[i..][1] == was[i + 1];
      ghost var tail := a[i + 1..];
      assert tail == a[i..][1..];
      a[i] := a[i + 1];
      assert a[..i + 1] == a[..i] + [a[i]];
      i := i + 1;
    }
    a[i] := "";
    n := i;
    assert was[foundIdx + 1..i + 1] == was[foundIdx + 1..];
  }

  lemma FirstAt(s: seq<string>, v: string, i: int)
    requires 0 <= i < |s| && s[i] == v && v !in s[..i]
    ensures IndexOf(s, v) == i
  {
    assert v in s;
  }

  // ----- Duplicate-free append -----

  function AppendAbsent(s: seq<string>, values: seq<string>): seq<string>
    decreases |values|
  {
    if values == [] then s
    else AppendAbsent(if values[0] in s then s else s + [values[0]], values[1..])
  }

  method AppendValuesToStringArrayIfNotPresent(a: seq<string>, values: seq<string>) returns (r: seq<string>)
    ensures r == AppendAbsent(a, values)
    ensures a <= r && (NoDuplicates(a) ==> NoDuplicates(r))
    ensures forall x :: x in r <==> x in a || x in values
  {
    r := a;
    var i := 0;
    while i < |values|
      invariant 0 <= i <= |values|
      invariant AppendAbsent(r, values[i..]) == AppendAbsent(a, values)
    {
      var idx := IndexOf(r, values[i]);
      if idx < 0 {
        r := r + [values[i]];
      }
      i := i + 1;
    }
    AppendAbsentFacts(a, values);
  }

  /** Nothing is lost, nothing is added twice, and nothing else gets in. */
  lemma {:induction false} AppendAbsentFacts(s: seq<string>, values: seq<string>)
    ensures var r := AppendAbsent(s, values);
            && s <= r
            && (NoDuplicates(s) ==> NoDuplicates(r))
            && (forall x :: x in r <==> x in s || x in values)
    decreases |values|
  {
    if values != [] {
      var next := if values[0] in s then s else s + [values[0]];
      AppendAbsentFacts(next, values[1..]);
      assert values == [values[0]] + values[1..];
    }
  }

  // ----- Removing several names -----

  /** `s` without the first occurrence of every name in `names`. */
  function RemoveEach(s: seq<string>, names: set<string>): seq<string> {
    if s == [] then []
    else if s[0] in names then RemoveEach(s[1..], names - {s[0]})
    else [s[0]] + RemoveEach(s[1..], names)
  }

  lemma {:induction false} RemoveNone(s: seq<string>)
    ensures RemoveEach(s, {}) == s
  {
    if s != [] {
      RemoveNone(s[1..]);
    }
  }

  /** Removing one more name is one more in-place removal, in whatever order they come. */
  lemma {:induction false} RemoveOneMore(s: seq<string>, names: set<string>, v: string)
    requires v !in names
    ensures RemoveFirst(RemoveEach(s, names), v) == RemoveEach(s, names + {v})
  {
    if s != [] {
      var x := s[0];
      if x == v {
        assert names + {v} - {v} == names;
        RemoveFirstCons(x, RemoveEach(s[1..], names), v);
      } else if x in names {
        RemoveOneMore(s[1..], names - {x}, v);
        assert names - {x} + {v} == names + {v} - {x};
      } else {
        RemoveOneMore(s[1..], names, v);
        RemoveFirstCons(x, RemoveEach(s[1..], names), v);
      }
    }
  }

  lemma RemoveFirstCons(x: string, rest: seq<string>, v: string)
    ensures RemoveFirst([x] + rest, v) == if x == v then rest else [x] + RemoveFirst(rest, v)
  {
    var r := [x] + rest;
    assert r[1..] == rest;
    var i := IndexOf(rest, v);
    if x != v && i >= 0 {
      assert r[..i + 1] + r[i + 2..] == [x] + (rest[..i] + rest[i + 1..]);
    }
  }

  /** What is left of a duplicate-free list: no duplicates, and exactly the names not removed. */
  lemma {:induction false} RemoveEachFacts(s: seq<string>, names: set<string>)
    requires NoDuplicates(s)
    ensures NoDuplicates(RemoveEach(s, names))
    ensures forall x :: x in RemoveEach(s, names) <==> x in s && x !in names
  {
    if s != [] {
      var rest := s[1..];
      assert s[0] !in rest;
      if s[0] in names {
        RemoveEachFacts(rest, names - {s[0]});
      } else {
        RemoveEachFacts(rest, names);
      }
      assert forall x :: x in s <==> x == s[0] || x in rest;
    }
  }
}
