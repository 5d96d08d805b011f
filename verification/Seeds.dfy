/** Which pods of a rack are seeds after the seed check: as many of its first ready pods by name as
    the rack is to have, and labelled pods that are still starting. */
module Seeds {
  import opened Names
  import opened Model
  import opened Specs
  import Startup

  // ----- The first names of a set -----

  ghost function Earlier(s: set<string>, n: string): set<string> {
    set m | m in s && Less(m, n)
  }

  /** The first `c` names of `s`. */
  ghost function Firsts(s: set<string>, c: int): set<string> {
    set n | n in s && |Earlier(s, n)| < c
  }

  lemma {:induction false} LastExists(s: set<string>) returns (last: string)
    requires s != {}
    ensures last in s && forall m :: m in s && m != last ==> Less(m, last)
    decreases s
  {
    var n :| n in s;
    var rest := s - {n};
    if rest == {} {
      last := n;
      assert s == {n};
    } else {
      var l := LastExists(rest);
      LessTrichotomy(n, l);
      last := if Less(n, l) then l else n;
      forall m | m in s && m != last ensures Less(m, last) {
        if last == n && m != l {
          LessTransitive(m, l, n);
        }
      }
    }
  }

  /** The last name is preceded by all others and precedes none. */
  lemma LastRank(s: set<string>, last: string)
    requires last in s && forall m :: m in s && m != last ==> Less(m, last)
    ensures Earlier(s, last) == s - {last}
    ensures forall n :: n in s && n != last ==> Earlier(s, n) == Earlier(s - {last}, n)
  {
    LessTrichotomy(last, last);
    forall n | n in s && n != last ensures Earlier(s, n) == Earlier(s - {last}, n) {
      LessTrichotomy(n, last);
    }
  }

  /** Ranks run from zero up without gaps, so there are `c` first names, or all of them. */
  lemma {:induction false} FirstsCount(s: set<string>, c: nat)
    ensures |Firsts(s, c)| == if |s| < c then |s| else c
    decreases s
  {
    if s == {} {
      assert Firsts(s, c) == {};
    } else {
      var last := LastExists(s);
      var rest := s - {last};
      FirstsCount(rest, c);
      LastRank(s, last);
      assert |s| == |rest| + 1;
      FirstsOfRest(s, last, c);
    }
  }

  lemma FirstsOfRest(s: set<string>, last: string, c: nat)
    requires last in s && Earlier(s, last) == s - {last}
    requires forall n :: n in s && n != last ==> Earlier(s, n) == Earlier(s - {last}, n)
    ensures Firsts(s, c) == if |s| - 1 < c then Firsts(s - {last}, c) + {last} else Firsts(s - {last}, c)
  {
  }

  // ----- Ready pods -----

  ghost function ReadyNames(w: World, rack: string): set<string> {
    set i | 0 <= i < |w.pods| && InDc(w, i) && w.pods[i].info.rack == rack && w.pods[i].info.ready :: w.pods[i].info.name
  }

  ghost function Below(s: set<int>, n: nat): set<int> {
    set i | 0 <= i < n && i in s
  }

  ghost function NamesBelow(names: seq<string>, s: set<int>, n: nat): set<string>
    requires n <= |names|
  {
    set i | 0 <= i < n && i in s :: names[i]
  }

  lemma OneMoreName(names: seq<string>, s: set<int>, n: nat)
    requires n < |names| && forall i, j :: 0 <= i < j < |names| ==> names[i] != names[j]
    ensures Below(s, n + 1) == if n in s then Below(s, n) + {n} else Below(s, n)
    ensures NamesBelow(names, s, n + 1) == if n in s then NamesBelow(names, s, n) + {names[n]} else NamesBelow(names, s, n)
    ensures n !in Below(s, n) && names[n] !in NamesBelow(names, s, n)
  {
  }

  /** Names are unique, so there are as many as pods. */
  lemma {:induction false} AsManyNames(names: seq<string>, s: set<int>, n: nat)
    requires n <= |names| && forall i, j :: 0 <= i < j < |names| ==> names[i] != names[j]
    ensures |NamesBelow(names, s, n)| == |Below(s, n)|
  {
    if n == 0 {
      assert NamesBelow(names, s, n) == {} && Below(s, n) == {};
    } else {
      AsManyNames(names, s, n - 1);
      OneMoreName(names, s, n - 1);
    }
  }

  lemma SameRank(w: World, i: int)
    requires WellFormed(w) && InDc(w, i)
    ensures |ReadyBefore(w, i)| == |Earlier(ReadyNames(w, w.pods[i].info.rack), w.pods[i].info.name)|
  {
    var s := ReadyBefore(w, i);
    var names := seq(|w.pods|, j requires 0 <= j < |w.pods| => w.pods[j].info.name);
    AsManyNames(names, s, |w.pods|);
    assert Below(s, |w.pods|) == s;
    var earlier := Earlier(ReadyNames(w, w.pods[i].info.rack), w.pods[i].info.name);
    forall j | j in s ensures names[j] in earlier {
      assert w.pods[j].info.name == names[j];
    }
    forall n | n in earlier ensures n in NamesBelow(names, s, |w.pods|) {
      var j :| 0 <= j < |w.pods| && InDc(w, j) && w.pods[j].info.rack == w.pods[i].info.rack
               && w.pods[j].info.ready && w.pods[j].info.name == n;
      assert j in s && names[j] == n;
    }
    assert NamesBelow(names, s, |w.pods|) == earlier;
  }

  /** After the seed check, on a running datacenter, the seeds of rack `k` are exactly its first
      ready pods by name, as many as it is to have or all there are, and its pods that carried the
      label and are still starting. */
  lemma SeedLabelsExact(w: World, w': World, k: nat)
    requires WellFormed(w) && SeedLabelsSpec(w, w', Continue) && k < |w.dc.spec.racks|
    requires !w.dc.spec.stopped && |w.dc.spec.racks| <= w.dc.spec.size
    ensures var ready, seeds := ReadyNames(w, w.dc.spec.racks[k]), SeedsInRack(w.dc.spec, k);
            && |w'.pods| == |w.pods| && seeds >= 1
            && |Firsts(ready, seeds)| == (if |ready| < seeds then |ready| else seeds)
            && forall i :: InDc(w, i) && w.pods[i].info.rack == w.dc.spec.racks[k] ==>
                 (w'.pods[i].seed <==>
                   || (w.pods[i].info.ready && w.pods[i].info.name in Firsts(ready, seeds))
                   || (w.pods[i].seed && w.pods[i].state == Starting))
  {
    var rack := w.dc.spec.racks[k];
    var ready, seeds := ReadyNames(w, rack), SeedsInRack(w.dc.spec, k);
    Startup.EveryRackSeeds(w.dc.spec, k);
    Startup.RackIndex(w.dc.spec.racks, k);
    FirstsCount(ready, seeds);
    forall i | InDc(w, i) && w.pods[i].info.rack == rack
      ensures IsReadySeed(w, i) <==> w.pods[i].info.ready && w.pods[i].info.name in Firsts(ready, seeds)
    {
      SameRank(w, i);
    }
  }
}
