/** Byte-wise string comparison and dot-separated host names, as used by the virtual-host tables. */
module Text {

  /** Byte-wise lexicographic order: `strings.Compare(a, b) < 0`. */
  predicate Less(a: string, b: string)
    decreases |b|
  {
    if b == "" then false
    else if a == "" then true
    else if a[0] != b[0] then a[0] < b[0]
    else Less(a[1..], b[1..])
  }

  lemma LessIrreflexive(a: string)
    ensures !Less(a, a)
  {
    if a != "" { LessIrreflexive(a[1..]); }
  }

  lemma {:induction false} LessTransitive(a: string, b: string, c: string)
    requires Less(a, b) && Less(b, c)
    ensures Less(a, c)
    decreases |c|
  {
    if a != "" && a[0] == b[0] && b[0] == c[0] {
      LessTransitive(a[1..], b[1..], c[1..]);
    }
  }

  lemma {:induction false} LessTotal(a: string, b: string)
    ensures Less(a, b) || a == b || Less(b, a)
    decreases |b|
  {
    if a == "" || b == "" {
    } else if a[0] == b[0] {
      LessTotal(a[1..], b[1..]);
      assert a == [a[0]] + a[1..] && b == [b[0]] + b[1..];
    }
  }

  /** A proper prefix comes first in the lexicographic order. */
  lemma {:induction false} PrefixIsLess(a: string, b: string)
    requires a <= b && a != b
    ensures Less(a, b)
    decreases |b|
  {
    if a != "" {
      assert a == [a[0]] + a[1..] && b == [b[0]] + b[1..];
      PrefixIsLess(a[1..], b[1..]);
    }
  }

  /** Among the prefixes of one path, lexicographic order is order by length. */
  lemma PrefixesOrderByLength(a: string, b: string, path: string)
    requires a <= path && b <= path
    ensures Less(a, b) <==> |a| < |b|
  {
    assert a == path[..|a|] && b == path[..|b|];
    if |a| < |b| {
      assert a <= b;
      PrefixIsLess(a, b);
    } else if |b| < |a| {
      assert b <= a;
      PrefixIsLess(b, a);
      if Less(a, b) {
        LessTransitive(a, b, a);
        LessIrreflexive(a);
      }
    } else {
      LessIrreflexive(a);
    }
  }

  /** `strings.Split(s, ".")`. */
  function Split(s: string): (labels: seq<string>)
    ensures labels != []
  {
    if s == "" then [""]
    else if s[0] == '.' then [""] + Split(s[1..])
    else
      var rest := Split(s[1..]);
      [[s[0]] + rest[0]] + rest[1..]
  }

  /** `strings.Join(labels, ".")`. */
  function Join(labels: seq<string>): string {
    if labels == [] then ""
    else if |labels| == 1 then labels[0]
    else labels[0] + "." + Join(labels[1..])
  }

  ghost predicate DotFree(labels: seq<string>) {
    forall i :: 0 <= i < |labels| ==> '.' !in labels[i]
  }

  lemma {:induction false} SplitIsDotFree(s: string)
    ensures DotFree(Split(s))
  {
    if s != "" { SplitIsDotFree(s[1..]); }
  }

  /** Joining the labels of a host gives the host back. */
  lemma {:induction false} JoinSplit(s: string)
    ensures Join(Split(s)) == s
  {
    if s == "" {
    } else {
      var rest := Split(s[1..]);
      JoinSplit(s[1..]);
      assert s == [s[0]] + s[1..];
      if s[0] == '.' {
        assert ([""] + rest)[1..] == rest;
        assert "" + "." + Join(rest) == s;
      } else {
        var labels := [[s[0]] + rest[0]] + rest[1..];
        assert labels[1..] == rest[1..];
        if |rest| > 1 {
          assert [s[0]] + rest[0] + "." + Join(rest[1..]) == [s[0]] + (rest[0] + "." + Join(rest[1..]));
        }
      }
    }
  }

  /** Splitting a joined list of dot-free labels gives the labels back. */
  lemma {:induction false} SplitJoin(labels: seq<string>)
    requires labels != [] && DotFree(labels)
    ensures Split(Join(labels)) == labels
    decreases |labels|, |labels[0]|
  {
    var head := labels[0];
    if head == "" {
      if |labels| > 1 {
        SplitJoin(labels[1..]);
        assert Join(labels) == "." + Join(labels[1..]);
        assert Join(labels)[1..] == Join(labels[1..]);
        assert labels == [""] + labels[1..];
      }
    } else {
      var shorter := [head[1..]] + labels[1..];
      assert DotFree(shorter) by {
        forall i | 0 <= i < |shorter| ensures '.' !in shorter[i] { assert '.' !in labels[i]; }
      }
      SplitJoin(shorter);
      assert shorter[1..] == labels[1..];
      assert head == [head[0]] + head[1..];
      assert Join(labels) == [head[0]] + Join(shorter);
      assert Join(labels)[1..] == Join(shorter);
      assert head[0] in head && head[0] != '.';
      assert labels == [head] + labels[1..];
    }
  }

  /**
   * The wildcard domains that cover a host, most specific first: for every dot of the host that has
   * another dot behind it, a star followed by the host from that dot on.
   */
  function Wildcards(host: string): seq<string> {
    if host == "" then []
    else if host[0] == '.' && '.' in host[1..] then ["*" + host] + Wildcards(host[1..])
    else Wildcards(host[1..])
  }

  /** The domain is a star followed by the host from its dot at position p on, and that suffix has a second dot. */
  predicate CoversFrom(domain: string, host: string, p: nat) {
    p < |host| && host[p] == '.' && '.' in host[p + 1..] && domain == "*" + host[p..]
  }

  /** A domain is one of the wildcards of a host exactly when it is a star and a suffix with two dots. */
  lemma {:induction false} WildcardsExact(host: string, domain: string)
    ensures domain in Wildcards(host) <==> exists p: nat :: CoversFrom(domain, host, p)
  {
    if host != "" {
      var rest := host[1..];
      WildcardsExact(rest, domain);
      forall p: nat ensures CoversFrom(domain, rest, p) <==> CoversFrom(domain, host, p + 1) {
        if p < |rest| { assert rest[p + 1..] == host[p + 2..] && rest[p..] == host[p + 1..]; }
      }
      if domain in Wildcards(rest) {
        var p: nat :| CoversFrom(domain, rest, p);
        assert CoversFrom(domain, host, p + 1);
      }
      if domain == "*" + host && host[0] == '.' && '.' in rest {
        assert CoversFrom(domain, host, 0);
      }
      if p: nat :| CoversFrom(domain, host, p) {
        if p > 0 { assert CoversFrom(domain, rest, p - 1); }
      }
    }
  }

  /** The wildcards of a host come in order of strictly decreasing length. */
  lemma {:induction false} WildcardsGetShorter(host: string, i: nat, j: nat)
    requires i < j < |Wildcards(host)|
    ensures |host| + 1 >= |Wildcards(host)[i]| > |Wildcards(host)[j]|
  {
    if host[0] == '.' && '.' in host[1..] {
      if i == 0 {
        WildcardsFit(host[1..], j - 1);
      } else {
        WildcardsGetShorter(host[1..], i - 1, j - 1);
      }
    } else {
      WildcardsGetShorter(host[1..], i, j);
    }
  }

  lemma {:induction false} WildcardsFit(host: string, i: nat)
    requires i < |Wildcards(host)|
    ensures |Wildcards(host)[i]| <= |host| + 1
  {
    if host[0] == '.' && '.' in host[1..] {
      if i > 0 { WildcardsFit(host[1..], i - 1); }
    } else {
      WildcardsFit(host[1..], i);
    }
  }

  lemma {:induction false} WildcardsSkipLabel(name: string, rest: string)
    requires '.' !in name
    ensures Wildcards(name + rest) == Wildcards(rest)
  {
    if name == "" {
      assert name + rest == rest;
    } else {
      assert name[0] in name;
      assert (name + rest)[1..] == name[1..] + rest;
      WildcardsSkipLabel(name[1..], rest);
    }
  }

  lemma {:induction false} DotInJoin(labels: seq<string>)
    requires DotFree(labels)
    ensures '.' in Join(labels) <==> |labels| >= 2
  {
    if |labels| >= 2 {
      assert Join(labels)[|labels[0]|] == '.';
    }
  }

  lemma WildcardsOfDotted(tail: string)
    ensures Wildcards("." + tail) == (if '.' in tail then ["*." + tail] else []) + Wildcards(tail)
  {
    var dotted := "." + tail;
    assert dotted[1..] == tail;
    assert "*" + dotted == "*." + tail;
  }

  lemma NoDotNoWildcards(name: string)
    requires '.' !in name
    ensures Wildcards(name) == []
  {
    assert name + "" == name;
    WildcardsSkipLabel(name, "");
  }

  /** One turn of the label loop: the wildcards of a host, in terms of its list of labels. */
  lemma WildcardsOfLabels(labels: seq<string>)
    requires labels != [] && DotFree(labels)
    ensures Wildcards(Join(labels)) ==
            if |labels| < 3 then [] else [Join(["*"] + labels[1..])] + Wildcards(Join(labels[1..]))
  {
    if |labels| == 1 {
      NoDotNoWildcards(labels[0]);
    } else {
      var tail := Join(labels[1..]);
      assert Join(labels) == labels[0] + ("." + tail);
      WildcardsSkipLabel(labels[0], "." + tail);
      WildcardsOfDotted(tail);
      DotInJoin(labels[1..]);
      if |labels| == 2 {
        NoDotNoWildcards(tail);
      } else {
        JoinStar(labels[1..]);
      }
    }
  }

  lemma JoinStar(labels: seq<string>)
    requires labels != []
    ensures Join(["*"] + labels) == "*." + Join(labels)
  {
    assert (["*"] + labels)[1..] == labels;
    assert "*" + "." == "*.";
  }
}
