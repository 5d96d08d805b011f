/** The dynamic watch index: which datacenter watches which secret is kept as an annotation on the
    secrets themselves. The annotations are proved to agree with the plain relation. */
module Watch {
  import opened Names
  import opened Lists

  /** The watched-by annotation: missing, not a JSON list, or a list of watcher names. */
  datatype Annotation = Absent | Garbage | Watchers(names: seq<string>)

  datatype Item = Item(annotation: Annotation, labelled: bool)

  function WatcherNames(item: Item): seq<string> {
    if item.annotation.Watchers? then item.annotation.names else []
  }

  function Stamp(names: seq<string>): Item {
    if names == [] then Item(Absent, false) else Item(Watchers(names), true)
  }

  /** An item is written only if its watchers or its label change. */
  function Restamped(item: Item, names: seq<string>): Item {
    if WatcherNames(item) == names && item.labelled == (names != []) then item else Stamp(names)
  }

  /** What one call by `watcher`, naming `watched`, makes of the item called `name`. */
  function Updated(item: Item, name: NamespacedName, watcher: NamespacedName, watched: seq<NamespacedName>): Item {
    if name in watched then Restamped(item, AppendAbsent(WatcherNames(item), [ToString(watcher)]))
    else if item.labelled && name.namespace_ == watcher.namespace_ then
      Restamped(item, RemoveFirst(WatcherNames(item), ToString(watcher)))
    else item
  }

  // ----- The program -----

  /** A watched resource as fetched from the API server. */
  class Resource {
    const name: NamespacedName
    var annotation: Annotation
    var labelled: bool

    constructor (name: NamespacedName, item: Item)
      ensures this.name == name && View() == item
    {
      this.name := name;
      this.annotation := item.annotation;
      this.labelled := item.labelled;
    }

    function View(): Item
      reads this
    {
      Item(annotation, labelled)
    }

    method UpdateWatcherNames(names: seq<string>) returns (changed: bool)
      modifies this
      ensures View() == Stamp(names)
      ensures changed <==> WatcherNames(old(View())) != names || old(labelled) != (names != [])
    {
      var before, hadLabel := WatcherNames(View()), labelled;
      if names == [] {
        annotation, labelled := Absent, false;
      } else {
        annotation, labelled := Watchers(names), true;
      }
      changed := before != WatcherNames(View()) || hadLabel != labelled;
    }

    method RemoveWatcher(watcher: string) returns (changed: bool)
      modifies this
      ensures changed ==> View() == Restamped(old(View()), RemoveFirst(WatcherNames(old(View())), watcher))
      ensures !changed ==> old(View()) == Restamped(old(View()), RemoveFirst(WatcherNames(old(View())), watcher))
    {
      var watchers := WatcherNames(View());
      var a := new string[|watchers|](i requires 0 <= i < |watchers| => watchers[i]);
      assert a[..] == watchers;
      var n := RemoveValueFromStringArray(a, watcher);
      changed := UpdateWatcherNames(a[..n]);
    }

    method AddWatcher(watcher: string) returns (changed: bool)
      modifies this
      ensures changed ==> View() == Restamped(old(View()), AppendAbsent(WatcherNames(old(View())), [watcher]))
      ensures !changed ==> old(View()) == Restamped(old(View()), AppendAbsent(WatcherNames(old(View())), [watcher]))
    {
      var watchers := AppendValuesToStringArrayIfNotPresent(WatcherNames(View()), [watcher]);
      changed := UpdateWatcherNames(watchers);
    }
  }

  datatype Patch = Patch(name: NamespacedName, item: Item)

  function NamesToStrings(names: seq<NamespacedName>): (s: seq<string>)
    ensures |s| == |names| && forall i :: 0 <= i < |names| ==> s[i] == ToString(names[i])
  {
    if names == [] then [] else [ToString(names[0])] + NamesToStrings(names[1..])
  }

  lemma FoundByString(names: seq<NamespacedName>, n: NamespacedName)
    ensures IndexOf(NamesToStrings(names), ToString(n)) == -1 ==> n !in names
    ensures Printable(n) && n !in names && (forall m :: m in names ==> Printable(m)) ==>
              IndexOf(NamesToStrings(names), ToString(n)) == -1
  {
    var s := NamesToStrings(names);
    if n in names {
      var i :| 0 <= i < |names| && names[i] == n;
      assert s[i] == ToString(n);
    }
    if Printable(n) && (forall m :: m in names ==> Printable(m)) && ToString(n) in s {
      var i :| 0 <= i < |s| && s[i] == ToString(n);
      ToStringInjective(names[i], n);
      assert names[i] in names;
    }
  }

  /** Every patch is what the call makes of its item. */
  ghost predicate Pending(store: map<NamespacedName, Item>, patches: seq<Patch>, watcher: NamespacedName, watched: seq<NamespacedName>) {
    forall p :: p in patches ==> p.name in store && p.item == Updated(store[p.name], p.name, watcher, watched)
  }

  /** Item `n` needs no patch or has one. */
  ghost predicate Covered(store: map<NamespacedName, Item>, patches: seq<Patch>, watcher: NamespacedName, watched: seq<NamespacedName>, n: NamespacedName)
    requires n in store
  {
    Updated(store[n], n, watcher, watched) == store[n] || exists p :: p in patches && p.name == n
  }

  predicate AllExist(store: map<NamespacedName, Item>, watched: seq<NamespacedName>) {
    forall n :: n in watched ==> n in store
  }

  /** The whole call took effect. */
  ghost predicate Takes(before: map<NamespacedName, Item>, after: map<NamespacedName, Item>,
                        watcher: NamespacedName, watched: seq<NamespacedName>) {
    after.Keys == before.Keys && forall n :: n in before ==> after[n] == Updated(before[n], n, watcher, watched)
  }

  /** The call took effect on some items and left the others alone. */
  ghost predicate PartlyTakes(before: map<NamespacedName, Item>, after: map<NamespacedName, Item>,
                              watcher: NamespacedName, watched: seq<NamespacedName>) {
    && after.Keys == before.Keys
    && forall n :: n in before ==> after[n] == before[n] || after[n] == Updated(before[n], n, watcher, watched)
  }

  lemma AllSent(before: map<NamespacedName, Item>, after: map<NamespacedName, Item>, patches: seq<Patch>,
                watcher: NamespacedName, watched: seq<NamespacedName>)
    requires PartlyTakes(before, after, watcher, watched) && Pending(before, patches, watcher, watched)
    requires forall l :: 0 <= l < |patches| ==>
               patches[l].name in before
               && after[patches[l].name] == Updated(before[patches[l].name], patches[l].name, watcher, watched)
    requires forall n :: n in before ==> Covered(before, patches, watcher, watched, n)
    ensures Takes(before, after, watcher, watched)
  {
    hide Updated;
    forall n | n in before ensures after[n] == Updated(before[n], n, watcher, watched) {
      assert Covered(before, patches, watcher, watched, n);
      if p :| p in patches && p.name == n {
        var l :| 0 <= l < |patches| && patches[l] == p;
      }
    }
  }

  /** A call that names a resource that does not exist reads the name off nothing. */
  datatype Outcome = Completed | Failed | Crashed

  class DynamicWatches {
    var store: map<NamespacedName, Item>

    /** Records that `watcher` now watches exactly the resources named. If one of them does not
        exist the call is not completed, and as patches are sent last nothing is written. A call to
        the API server that fails is reported, and every other patch is sent all the same. */
    method UpdateWatch(watcher: NamespacedName, watched: seq<NamespacedName>, apiUp: bool) returns (o: Outcome)
      requires forall n :: n in store ==> Printable(n)
      modifies this
      ensures store.Keys == old(store.Keys)
      ensures apiUp ==> o != Failed
      ensures o.Crashed? ==> !AllExist(old(store), watched) && store == old(store)
      ensures o.Completed? ==> AllExist(old(store), watched) && Takes(old(store), store, watcher, watched)
      ensures o.Failed? ==> PartlyTakes(old(store), store, watcher, watched)
    {
      var listed := Answers(apiUp);
      if !listed {
        return Failed;
      }
      var patches := DropStale(watcher, watched);
      var found, answered;
      patches, found, answered := AddToWatched(watcher, watched, patches, apiUp);
      if !answered {
        return Failed;
      }
      if !found {
        return Crashed;
      }
      var ok := SendPatches(patches, watcher, watched, apiUp);
      o := if ok then Completed else Failed;
    }

    /** Whether a call to the API server succeeds. */
    method Answers(apiUp: bool) returns (ok: bool)
      ensures apiUp ==> ok
    {
      ok := true;
      if !apiUp {
        ok := *;
      }
    }

    method SendPatches(patches: seq<Patch>, ghost watcher: NamespacedName, ghost watched: seq<NamespacedName>, apiUp: bool)
      returns (ok: bool)
      requires Pending(store, patches, watcher, watched)
      requires forall n :: n in store ==> Covered(store, patches, watcher, watched, n)
      modifies this
      ensures apiUp ==> ok
      ensures if ok then Takes(old(store), store, watcher, watched) else PartlyTakes(old(store), store, watcher, watched)
    {
      hide Updated;
      ok := true;
      ghost var was := store;
      for k := 0 to |patches|
        invariant PartlyTakes(was, store, watcher, watched) && (apiUp ==> ok)
        invariant ok ==> forall l :: 0 <= l < k ==>
                    store[patches[l].name] == Updated(was[patches[l].name], patches[l].name, watcher, watched)
      {
        assert patches[k] in patches;
        var sent := Answers(apiUp);
        if sent {
          store := store[patches[k].name := patches[k].item];
        } else {
          ok := false;
        }
      }
      if ok {
        AllSent(was, store, patches, watcher, watched);
      }
    }

    /** The labelled resources of the watcher's namespace that it watches no longer. */
    method DropStale(watcher: NamespacedName, watched: seq<NamespacedName>) returns (patches: seq<Patch>)
      requires forall n :: n in store ==> Printable(n)
      ensures Pending(store, patches, watcher, watched)
      ensures AllExist(store, watched) ==>
                forall n :: n in store && n !in watched ==> Covered(store, patches, watcher, watched, n)
    {
      patches := [];
      var watchedAsStrings := NamesToStrings(watched);
      var todo := set n | n in store && store[n].labelled && n.namespace_ == watcher.namespace_;
      while todo != {}
        invariant todo <= store.Keys
        invariant forall n :: n in todo ==> store[n].labelled && n.namespace_ == watcher.namespace_
        invariant Pending(store, patches, watcher, watched)
        invariant AllExist(store, watched) ==>
                    forall n :: n in store && n !in watched && n !in todo ==> Covered(store, patches, watcher, watched, n)
        decreases |todo|
      {
        var name :| name in todo;
        todo := todo - {name};
        FoundByString(watched, name);
        if IndexOf(watchedAsStrings, ToString(name)) == -1 {
          var item := new Resource(name, store[name]);
          var changed := item.RemoveWatcher(ToString(watcher));
          if changed {
            patches := Extend(patches, Patch(name, item.View()), watcher, watched);
          }
        }
      }
    }

    method Extend(patches: seq<Patch>, p: Patch, ghost watcher: NamespacedName, ghost watched: seq<NamespacedName>)
      returns (r: seq<Patch>)
      requires Pending(store, patches, watcher, watched)
      requires p.name in store && p.item == Updated(store[p.name], p.name, watcher, watched)
      ensures Pending(store, r, watcher, watched) && Covered(store, r, watcher, watched, p.name)
      ensures forall n :: n in store && Covered(store, patches, watcher, watched, n) ==> Covered(store, r, watcher, watched, n)
    {
      r := patches + [p];
      assert r[|patches|] == p;
    }

    method AddToWatched(watcher: NamespacedName, watched: seq<NamespacedName>, stale: seq<Patch>, apiUp: bool)
      returns (patches: seq<Patch>, found: bool, answered: bool)
      requires Pending(store, stale, watcher, watched)
      ensures Pending(store, patches, watcher, watched)
      ensures apiUp ==> answered
      ensures answered ==> (found <==> AllExist(store, watched))
      ensures answered && found ==> forall n :: n in watched ==> Covered(store, patches, watcher, watched, n)
      ensures forall n :: n in store && Covered(store, stale, watcher, watched, n) ==> Covered(store, patches, watcher, watched, n)
    {
      patches := stale;
      for k := 0 to |watched|
        invariant Pending(store, patches, watcher, watched)
        invariant AllExist(store, watched[..k])
        invariant forall n :: n in watched[..k] ==> Covered(store, patches, watcher, watched, n)
        invariant forall n :: n in store && Covered(store, stale, watcher, watched, n) ==> Covered(store, patches, watcher, watched, n)
      {
        var name := watched[k];
        answered := Answers(apiUp);
        if !answered {
          return patches, false, false;
        }
        if name !in store {
          assert watched[k] in watched;
          return patches, false, true;  // the name is read off the resource that was not found
        }
        var item := new Resource(name, store[name]);
        var changed := item.AddWatcher(ToString(watcher));
        if changed {
          patches := Extend(patches, Patch(name, item.View()), watcher, watched);
        }
        assert watched[..k + 1] == watched[..k] + [name];
      }
      assert watched[..|watched|] == watched;
      found, answered := true, true;
    }

    method RemoveWatcher(watcher: NamespacedName, apiUp: bool) returns (o: Outcome)
      requires forall n :: n in store ==> Printable(n)
      modifies this
      ensures !o.Crashed? && (apiUp ==> o.Completed?)
      ensures if o.Completed? then Takes(old(store), store, watcher, []) else PartlyTakes(old(store), store, watcher, [])
    {
      o := UpdateWatch(watcher, [], apiUp);
    }

    /** Who watches a resource, read from its annotation. */
    method FindWatchers(name: NamespacedName) returns (watchers: seq<NamespacedName>)
      requires name in store
      ensures watchers == Parsed(WatcherNames(store[name]))
    {
      var names := WatcherNames(store[name]);
      watchers := [];
      for k := 0 to |names|
        invariant watchers == Parsed(names[..k])
      {
        assert names[..k + 1] == names[..k] + [names[k]];
        watchers := watchers + [FromString(names[k])];
      }
      assert names[..|names|] == names;
    }
  }

  function Parsed(names: seq<string>): (r: seq<NamespacedName>)
    ensures |r| == |names| && forall i :: 0 <= i < |names| ==> r[i] == FromString(names[i])
  {
    seq(|names|, i requires 0 <= i < |names| => FromString(names[i]))
  }

  // ----- The relation -----

  /** Who watches what, by each watcher's latest call. */
  type Relation = map<NamespacedName, set<NamespacedName>>

  ghost predicate Proper(rel: Relation) {
    forall w :: w in rel ==> Printable(w) && forall n :: n in rel[w] ==> n.namespace_ == w.namespace_
  }

  ghost predicate Watches(rel: Relation, w: NamespacedName, n: NamespacedName) {
    w in rel && n in rel[w]
  }

  ghost predicate Named(rel: Relation, n: NamespacedName, x: string) {
    exists w :: Watches(rel, w, n) && ToString(w) == x
  }

  /** The item's annotation lists exactly its watchers, once each, and it is labelled if it has any. */
  ghost predicate Indexed(item: Item, n: NamespacedName, rel: Relation) {
    var names := WatcherNames(item);
    && NoDuplicates(names) && (item.labelled <==> names != [])
    && forall x :: x in names <==> Named(rel, n, x)
  }

  ghost predicate Agrees(store: map<NamespacedName, Item>, rel: Relation) {
    Proper(rel) && forall n :: n in store ==> Indexed(store[n], n, rel)
  }

  lemma RemoveFirstFacts(s: seq<string>, v: string)
    requires NoDuplicates(s)
    ensures NoDuplicates(RemoveFirst(s, v)) && forall x :: x in RemoveFirst(s, v) <==> x in s && x != v
  {
    var i := IndexOf(s, v);
    if i >= 0 {
      CutOut(s, i);
    }
  }

  lemma CutOut(s: seq<string>, i: int)
    requires NoDuplicates(s) && 0 <= i < |s|
    ensures NoDuplicates(s[..i] + s[i + 1..]) && forall x :: x in s[..i] + s[i + 1..] <==> x in s && x != s[i]
  {
    var r := s[..i] + s[i + 1..];
    forall j | 0 <= j < |r| ensures r[j] in s && r[j] != s[i] {
      assert r[j] == s[if j < i then j else j + 1];
    }
    forall x | x in s && x != s[i] ensures x in r {
      var j :| 0 <= j < |s| && s[j] == x;
      assert r[if j < i then j else j - 1] == x;
    }
    forall j, k | 0 <= j < k < |r| ensures r[j] != r[k] {
      assert r[j] == s[if j < i then j else j + 1];
      assert r[k] == s[if k < i then k else k + 1];
    }
  }

  function Declared(rel: Relation, watcher: NamespacedName, watched: seq<NamespacedName>): Relation {
    rel[watcher := set n | n in watched]
  }

  /** A call is proper if the watcher names only resources of its own namespace. */
  ghost predicate ProperCall(watcher: NamespacedName, watched: seq<NamespacedName>) {
    Printable(watcher) && forall n :: n in watched ==> n.namespace_ == watcher.namespace_
  }

  /** The other watchers of an item are the same before and after a call. */
  lemma OtherWatchers(rel: Relation, watcher: NamespacedName, watched: seq<NamespacedName>, n: NamespacedName, x: string)
    requires Proper(rel) && Printable(watcher)
    ensures var next := Declared(rel, watcher, watched);
            Named(next, n, x)
            <==> if x == ToString(watcher) then n in watched else Named(rel, n, x)
  {
    var next := Declared(rel, watcher, watched);
    if w :| Watches(next, w, n) && ToString(w) == x {
      if x == ToString(watcher) {
        ToStringInjective(w, watcher);
      } else {
        assert Watches(rel, w, n);
      }
    }
    if x == ToString(watcher) && n in watched {
      assert Watches(next, watcher, n);
    }
    if x != ToString(watcher) {
      if w :| Watches(rel, w, n) && ToString(w) == x {
        assert Watches(next, w, n);
      }
    }
  }

  lemma RestampedIndexed(item: Item, names: seq<string>, n: NamespacedName, rel: Relation)
    requires NoDuplicates(names) && forall x :: x in names <==> Named(rel, n, x)
    ensures Indexed(Restamped(item, names), n, rel)
  {
  }

  lemma UpdatedIndexed(item: Item, n: NamespacedName, rel: Relation, watcher: NamespacedName, watched: seq<NamespacedName>)
    requires Proper(rel) && Indexed(item, n, rel) && ProperCall(watcher, watched)
    ensures Indexed(Updated(item, n, watcher, watched), n, Declared(rel, watcher, watched))
  {
    var names, me := WatcherNames(item), ToString(watcher);
    var next := Declared(rel, watcher, watched);
    forall x ensures Named(next, n, x) <==> if x == me then n in watched else Named(rel, n, x) {
      OtherWatchers(rel, watcher, watched, n, x);
    }
    if n in watched {
      AppendAbsentFacts(names, [me]);
      RestampedIndexed(item, AppendAbsent(names, [me]), n, next);
    } else if item.labelled && n.namespace_ == watcher.namespace_ {
      RemoveFirstFacts(names, me);
      RestampedIndexed(item, RemoveFirst(names, me), n, next);
    } else {
      NotWatchedBefore(item, n, rel, watcher);
    }
  }

  /** An item the call does not look at was not watched by the caller. */
  lemma NotWatchedBefore(item: Item, n: NamespacedName, rel: Relation, watcher: NamespacedName)
    requires Proper(rel) && Indexed(item, n, rel) && Printable(watcher)
    requires !item.labelled || n.namespace_ != watcher.namespace_
    ensures ToString(watcher) !in WatcherNames(item)
  {
    if ToString(watcher) in WatcherNames(item) {
      var w :| Watches(rel, w, n) && ToString(w) == ToString(watcher);
      ToStringInjective(w, watcher);
    }
  }

  // ----- Any sequence of calls -----

  datatype Call = Call(watcher: NamespacedName, watched: seq<NamespacedName>)

  function Applied(store: map<NamespacedName, Item>, calls: seq<Call>): map<NamespacedName, Item> {
    if calls == [] then store
    else
      var before, c := Applied(store, calls[..|calls| - 1]), calls[|calls| - 1];
      if AllExist(before, c.watched) then map n | n in before :: Updated(before[n], n, c.watcher, c.watched) else before
  }

  /** Each watcher's latest call, leaving out those that name a resource that does not exist. */
  function Latest(store: map<NamespacedName, Item>, rel: Relation, calls: seq<Call>): Relation {
    if calls == [] then rel
    else
      var before, c := Latest(store, rel, calls[..|calls| - 1]), calls[|calls| - 1];
      if AllExist(store, c.watched) then Declared(before, c.watcher, c.watched) else before
  }

  /** After any sequence of calls the annotations agree with the watchers' latest completed calls. */
  lemma {:induction false} IndexRefinesRelation(store: map<NamespacedName, Item>, rel: Relation, calls: seq<Call>)
    requires Agrees(store, rel) && forall i :: 0 <= i < |calls| ==> ProperCall(calls[i].watcher, calls[i].watched)
    ensures Agrees(Applied(store, calls), Latest(store, rel, calls)) && Applied(store, calls).Keys == store.Keys
  {
    if calls != [] {
      var k := |calls| - 1;
      var before, was, c := Applied(store, calls[..k]), Latest(store, rel, calls[..k]), calls[k];
      IndexRefinesRelation(store, rel, calls[..k]);
      assert AllExist(before, c.watched) <==> AllExist(store, c.watched);
      forall n | n in before ensures Indexed(Applied(store, calls)[n], n, Latest(store, rel, calls)) {
        UpdatedIndexed(before[n], n, was, c.watcher, c.watched);
      }
    }
  }

  // ----- Calls that fail half-way -----

  lemma RemovedOnce(s: seq<string>, v: string)
    requires NoDuplicates(s)
    ensures RemoveFirst(RemoveFirst(s, v), v) == RemoveFirst(s, v)
  {
    RemoveFirstFacts(s, v);
    assert v !in RemoveFirst(s, v);
  }

  lemma AppendedOnce(s: seq<string>, v: string)
    ensures AppendAbsent(AppendAbsent(s, [v]), [v]) == AppendAbsent(s, [v])
  {
  }

  /** A call repeated changes nothing more. */
  lemma UpdatedTwice(item: Item, n: NamespacedName, rel: Relation, watcher: NamespacedName, watched: seq<NamespacedName>)
    requires Indexed(item, n, rel)
    ensures var once := Updated(item, n, watcher, watched); Updated(once, n, watcher, watched) == once
  {
    var names, me := WatcherNames(item), ToString(watcher);
    if n in watched {
      AppendedOnce(names, me);
    } else {
      RemovedOnce(names, me);
    }
  }

  /** A call that failed half-way and is then completed has the effect of the call completed at once,
      so the annotations agree with it. */
  lemma RetryHeals(before: map<NamespacedName, Item>, half: map<NamespacedName, Item>, after: map<NamespacedName, Item>,
                   rel: Relation, watcher: NamespacedName, watched: seq<NamespacedName>)
    requires Agrees(before, rel) && ProperCall(watcher, watched)
    requires PartlyTakes(before, half, watcher, watched) && Takes(half, after, watcher, watched)
    ensures Takes(before, after, watcher, watched) && Agrees(after, Declared(rel, watcher, watched))
  {
    forall n | n in before
      ensures after[n] == Updated(before[n], n, watcher, watched) && Indexed(after[n], n, Declared(rel, watcher, watched))
    {
      UpdatedTwice(before[n], n, rel, watcher, watched);
      UpdatedIndexed(before[n], n, rel, watcher, watched);
    }
  }

  /** So reading an annotation back gives exactly the watchers, each once. */
  lemma FoundExactly(item: Item, n: NamespacedName, rel: Relation)
    requires Proper(rel) && Indexed(item, n, rel)
    ensures var found := Parsed(WatcherNames(item));
            && (forall w :: w in found <==> Watches(rel, w, n))
            && (forall i, j :: 0 <= i < j < |found| ==> found[i] != found[j])
            && (item.labelled <==> exists w :: Watches(rel, w, n))
  {
    var names := WatcherNames(item);
    var found := Parsed(names);
    forall i | 0 <= i < |names| ensures Watches(rel, found[i], n) && ToString(found[i]) == names[i] {
      assert names[i] in names;
      var w :| Watches(rel, w, n) && ToString(w) == names[i];
      RoundTrip(w);
    }
    forall w | Watches(rel, w, n) ensures w in found {
      assert ToString(w) in names;
      var i :| 0 <= i < |names| && names[i] == ToString(w);
      RoundTrip(w);
      assert found[i] == w;
    }
    assert item.labelled ==> Watches(rel, found[0], n);
  }
}
