/** Names as strings: StatefulSet pod names and the suffix that picks out the last pod of a
    rack, the text form of namespaced names, and the byte order pods are sorted by. */
module Names {

  predicate HasSuffix(s: string, t: string) {
    |t| <= |s| && s[|s| - |t|..] == t
  }

  // ----- Decimal numbers -----

  function Digit(d: int): (c: char)
    requires 0 <= d < 10
  {
    ['0', '1', '2', '3', '4', '5', '6', '7', '8', '9'][d]
  }

  function Digits(n: nat): (s: string)
    ensures s != []
  {
    if n < 10 then [Digit(n)] else Digits(n / 10) + [Digit(n % 10)]
  }

  /** Go's `%v` of an integer. */
  function Decimal(n: int): string {
    if n < 0 then "-" + Digits(-n) else Digits(n)
  }

  lemma {:induction false} DigitsHaveNoDash(n: nat)
    ensures '-' !in Digits(n)
  {
    if n >= 10 {
      DigitsHaveNoDash(n / 10);
    }
  }

  lemma {:induction false} DigitsInjective(a: nat, b: nat)
    requires Digits(a) == Digits(b)
    ensures a == b
  {
    var s, t := Digits(a), Digits(b);
    assert s[|s| - 1] == t[|t| - 1];
    if a >= 10 && b >= 10 {
      assert s[..|s| - 1] == Digits(a / 10) && t[..|t| - 1] == Digits(b / 10);
      DigitsInjective(a / 10, b / 10);
    }
  }

  // ----- Pods of a StatefulSet -----

  function StsName(cluster: string, dc: string, rack: string): string {
    cluster + "-" + dc + "-" + rack + "-sts"
  }

  function StsPodName(sts: string, ordinal: nat): string {
    sts + "-" + Decimal(ordinal)
  }

  function LastPodSuffix(replicas: int): string {
    "sts-" + Decimal(replicas - 1)
  }

  /** The suffix test singles out one ordinal: "sts-1" does not match pod 11 or 21, and the
      suffix for no replicas, "sts--1", matches no pod at all. */
  lemma SuffixPicksLastPod(cluster: string, dc: string, rack: string, ordinal: nat, replicas: int)
    ensures HasSuffix(StsPodName(StsName(cluster, dc, rack), ordinal), LastPodSuffix(replicas))
            <==> ordinal == replicas - 1
  {
    hide Digits, HasSuffix;
    var head := cluster + "-" + dc + "-" + rack + "-";
    var name := StsPodName(StsName(cluster, dc, rack), ordinal);
    var own, wanted := Digits(ordinal), Decimal(replicas - 1);
    assert name == head + "sts-" + own;
    DigitsHaveNoDash(ordinal);
    if replicas - 1 >= 0 {
      DigitsHaveNoDash(replicas - 1);
      SuffixOfTagged(head + "sts", own, "sts", wanted);
      OwnSuffix(head, "sts");
      assert name == head + "sts" + "-" + own && LastPodSuffix(replicas) == "sts" + "-" + wanted;
      if HasSuffix(name, LastPodSuffix(replicas)) {
        DigitsInjective(ordinal, replicas - 1);
      }
    } else {
      DigitsHaveNoDash(1 - replicas);
      SuffixOfTagged(head + "sts", own, "sts-", Digits(1 - replicas));
      var stem := head + "sts";
      NoSuffixDash(stem);
      assert name == stem + "-" + own && LastPodSuffix(replicas) == "sts-" + "-" + Digits(1 - replicas);
    }
  }

  lemma OwnSuffix(s: string, t: string)
    ensures HasSuffix(s + t, t)
  {
  }

  lemma NoSuffixDash(s: string)
    requires |s| >= 4 && s[|s| - 1] == 's'
    ensures !HasSuffix(s, "sts-")
  {
    assert s[|s| - 4..][3] == 's' && "sts-"[3] == '-';
  }

  /** Two texts "x-digits" and "y-digits'" where neither digit string holds a dash: the second is
      a suffix of the first only if the digits agree and y is a suffix of x. */
  lemma SuffixOfTagged(x: string, own: string, y: string, wanted: string)
    requires '-' !in own && '-' !in wanted
    ensures HasSuffix(x + "-" + own, y + "-" + wanted) <==> own == wanted && HasSuffix(x, y)
  {
    var s, t := x + "-" + own, y + "-" + wanted;
    if HasSuffix(s, t) {
      var d := |s| - |t|;
      assert forall k :: 0 <= k < |t| ==> s[d + k] == t[k];
      assert t[|y|] == '-' && s[|x|] == '-';
      assert s[d + |y|] == '-';
      assert |own| == |wanted|;
      assert own == s[|x| + 1..] == t[|y| + 1..] == wanted;
      assert x[|x| - |y|..] == s[d..d + |y|] == t[..|y|] == y;
    }
    if own == wanted && HasSuffix(x, y) {
      assert s == x[..|x| - |y|] + t;
    }
  }

  // ----- Namespaced names -----

  datatype NamespacedName = NamespacedName(namespace_: string, name: string)

  function ToString(n: NamespacedName): string {
    n.namespace_ + "/" + n.name
  }

  /** strings.Split(s, "/"): the pieces between slashes, one more than there are slashes. */
  function Components(s: string): (cs: seq<string>)
    ensures cs != []
  {
    if s == "" then [""]
    else
      var rest := Components(s[1..]);
      if s[0] == '/' then [""] + rest else [[s[0]] + rest[0]] + rest[1..]
  }

  function TrimSuffix(s: string, t: string): string {
    if HasSuffix(s, t) then s[..|s| - |t|] else s
  }

  function TrimRightSlashes(s: string): string {
    if s != "" && s[|s| - 1] == '/' then TrimRightSlashes(s[..|s| - 1]) else s
  }

  function FromString(s: string): NamespacedName {
    var comps := Components(s);
    var name := comps[|comps| - 1];
    NamespacedName(TrimRightSlashes(TrimSuffix(s, name)), name)
  }

  predicate Printable(n: NamespacedName) {
    '/' !in n.name && !(n.namespace_ != "" && n.namespace_[|n.namespace_| - 1] == '/')
  }

  lemma {:induction false} LastComponent(a: string, b: string)
    requires '/' !in b
    ensures var cs := Components(a + "/" + b); cs[|cs| - 1] == b
  {
    if a == "" {
      NoSlash(b);
      assert (a + "/" + b)[1..] == b;
    } else {
      assert (a + "/" + b)[1..] == a[1..] + "/" + b;
      LastComponent(a[1..], b);
      AtLeastTwo(a[1..], b);
    }
  }

  lemma {:induction false} AtLeastTwo(a: string, b: string)
    ensures |Components(a + "/" + b)| >= 2
  {
    if a == "" {
      assert (a + "/" + b)[1..] == b;
    } else {
      assert (a + "/" + b)[1..] == a[1..] + "/" + b;
      AtLeastTwo(a[1..], b);
    }
  }

  lemma {:induction false} NoSlash(b: string)
    requires '/' !in b
    ensures Components(b) == [b]
  {
    if b != "" {
      NoSlash(b[1..]);
      assert b == [b[0]] + b[1..];
    }
  }

  lemma {:induction false} ComponentsHaveNoSlash(s: string)
    ensures forall c :: c in Components(s) ==> '/' !in c
  {
    if s != "" {
      ComponentsHaveNoSlash(s[1..]);
    }
  }

  lemma {:induction false} TrimmedEnd(s: string)
    ensures var t := TrimRightSlashes(s); t == "" || t[|t| - 1] != '/'
  {
    if s != "" && s[|s| - 1] == '/' {
      TrimmedEnd(s[..|s| - 1]);
    }
  }

  /** Printing and parsing undo each other for exactly the names without a slash in a namespace
      that does not end in one. */
  lemma RoundTrip(n: NamespacedName)
    ensures FromString(ToString(n)) == n <==> Printable(n)
  {
    var s := ToString(n);
    if '/' in n.name {
      ComponentsHaveNoSlash(s);
      var cs := Components(s);
      assert cs[|cs| - 1] in cs;
    } else {
      LastComponent(n.namespace_, n.name);
      assert s[|s| - |n.name|..] == n.name;
      var trimmed := n.namespace_ + "/";
      assert TrimSuffix(s, n.name) == trimmed;
      assert trimmed[..|trimmed| - 1] == n.namespace_;
      assert FromString(s) == NamespacedName(TrimRightSlashes(n.namespace_), n.name);
      TrimmedEnd(n.namespace_);
    }
  }

  /** So the text form identifies the name. */
  lemma ToStringInjective(a: NamespacedName, b: NamespacedName)
    requires Printable(a) && Printable(b) && ToString(a) == ToString(b)
    ensures a == b
  {
    RoundTrip(a);
    RoundTrip(b);
  }

  // ----- Byte order -----

  /** Go's `<` on strings. */
  predicate Less(a: string, b: string) {
    if b == "" then false
    else if a == "" then true
    else a[0] < b[0] || (a[0] == b[0] && Less(a[1..], b[1..]))
  }

  lemma {:induction false} LessTrichotomy(a: string, b: string)
    ensures Less(a, b) ==> !Less(b, a) && a != b
    ensures a != b ==> Less(a, b) || Less(b, a)
  {
    if a != "" && b != "" && a[0] == b[0] {
      LessTrichotomy(a[1..], b[1..]);
      if a != b {
        assert a == [a[0]] + a[1..] && b == [b[0]] + b[1..];
      }
    }
  }

  lemma {:induction false} LessTransitive(a: string, b: string, c: string)
    requires Less(a, b) && Less(b, c)
    ensures Less(a, c)
  {
    if a != "" && a[0] == b[0] == c[0] {
      LessTransitive(a[1..], b[1..], c[1..]);
    }
  }
}
