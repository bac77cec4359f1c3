/** The figures `ReportGenerator` computes from a reasoned graph
    (laderr_engine/laderr_lib/services/report.py): the number of instances
    of each LaDeRR class, and the integer counts behind the resilience
    metrics. The graph is its set of triples; rdflib's iteration order over
    it is unspecified, and the loops below take its elements in any order. */
module Report {
  import opened Rdf

  // =====================================================================
  // count_laderr_classes

  /** `s.replace(pat, "")`: every occurrence of `pat`, scanning left to
      right without overlaps, removed. */
  function RemoveAll(s: string, pat: string): (r: string)
    requires pat != []
    ensures |r| <= |s|
    decreases |s|
  {
    if |s| < |pat| then s
    else if s[..|pat|] == pat then RemoveAll(s[|pat|..], pat)
    else [s[0]] + RemoveAll(s[1..], pat)
  }

  /** `pat in s`. */
  predicate Contains(s: string, pat: string)
    decreases |s|
  {
    |s| >= |pat| && (s[..|pat|] == pat || (s != [] && Contains(s[1..], pat)))
  }

  /** Text that does not contain `pat` loses nothing to `RemoveAll`. */
  lemma {:induction false} RemoveAllAbsent(s: string, pat: string)
    requires pat != [] && !Contains(s, pat)
    ensures RemoveAll(s, pat) == s
    decreases |s|
  {
    if |s| >= |pat| {
      RemoveAllAbsent(s[1..], pat);
      assert s == [s[0]] + s[1..];
    }
  }

  /** The name under which an `rdf:type` object is counted: the text of a
      node in the LaDeRR namespace with the namespace removed, except
      Scenario, which is not counted. */
  function ClassName(o: Node): Option<string> {
    var text := NodeText(o);
    if |text| >= |LaderrNs| && text[..|LaderrNs|] == LaderrNs then
      var name := RemoveAll(text, LaderrNs);
      if name == "Scenario" then None else Some(name)
    else None
  }

  /** A node whose text is a LaDeRR name that does not repeat the
      namespace is counted under that name, unless it is Scenario. */
  lemma ClassNameOfTerm(o: Node, name: string)
    requires NodeText(o) == LaderrNs + name && !Contains(name, LaderrNs)
    ensures ClassName(o) == if name == "Scenario" then None else Some(name)
  {
    var text := LaderrNs + name;
    assert text[..|LaderrNs|] == LaderrNs;
    assert text[|LaderrNs|..] == name;
    RemoveAllAbsent(name, LaderrNs);
  }

  /** The `rdf:type` triples counted under `name`. */
  function Counted(T: set<Triple>, name: string): set<Triple> {
    set t | t in T && t.p == V(Type) && ClassName(t.o) == Some(name)
  }

  /** A dict from class name to count, in insertion order. */
  type Counts = seq<(string, nat)>

  predicate Has(counts: Counts, name: string) {
    counts != [] && (counts[0].0 == name || Has(counts[1..], name))
  }

  /** `class_counts.get(name, 0)`. */
  function CountOf(counts: Counts, name: string): nat {
    if counts == [] then 0
    else if counts[0].0 == name then counts[0].1
    else CountOf(counts[1..], name)
  }

  predicate DistinctNames(counts: Counts) {
    forall i, j :: 0 <= i < j < |counts| ==> counts[i].0 != counts[j].0
  }

  /** `class_counts[name] = class_counts.get(name, 0) + 1`. */
  function Bump(counts: Counts, name: string): Counts {
    if counts == [] then [(name, 1)]
    else if counts[0].0 == name then [(name, counts[0].1 + 1)] + counts[1..]
    else [counts[0]] + Bump(counts[1..], name)
  }

  /** Incrementing a count changes that count by one and nothing else. */
  lemma {:induction false} BumpCount(counts: Counts, name: string, other: string)
    ensures CountOf(Bump(counts, name), other) == CountOf(counts, other) + (if other == name then 1 else 0)
    ensures Has(Bump(counts, name), other) <==> Has(counts, other) || other == name
  {
    if counts != [] && counts[0].0 != name {
      BumpCount(counts[1..], name, other);
    }
  }

  /** A name is present exactly when some entry carries it. */
  lemma {:induction false} HasAt(counts: Counts, name: string)
    ensures Has(counts, name) <==> exists i :: 0 <= i < |counts| && counts[i].0 == name
  {
    if counts != [] {
      HasAt(counts[1..], name);
      if exists i :: 0 <= i < |counts| && counts[i].0 == name {
        var i :| 0 <= i < |counts| && counts[i].0 == name;
        if i > 0 {
          assert counts[1..][i - 1].0 == name;
        }
      }
    }
  }

  lemma {:induction false} BumpDistinct(counts: Counts, name: string)
    requires DistinctNames(counts)
    ensures DistinctNames(Bump(counts, name))
  {
    if counts != [] && counts[0].0 != name {
      BumpDistinct(counts[1..], name);
      var rest := Bump(counts[1..], name);
      forall j | 0 <= j < |rest|
        ensures counts[0].0 != rest[j].0
      {
        HasAt(rest, rest[j].0);
        BumpCount(counts[1..], name, rest[j].0);
        HasAt(counts[1..], rest[j].0);
        if Has(counts[1..], rest[j].0) {
          var k :| 0 <= k < |counts[1..]| && counts[1..][k].0 == rest[j].0;
          assert counts[k + 1].0 == rest[j].0;
        }
      }
    } else if counts == [] {
    } else {
      assert forall j :: 1 <= j < |counts| ==> Bump(counts, name)[j] == counts[j];
    }
  }

  /** With distinct names, an entry is in the dict exactly when it pairs a
      present name with its count. */
  lemma {:induction false} InCounts(counts: Counts, name: string, n: nat)
    requires DistinctNames(counts)
    ensures (name, n) in counts <==> Has(counts, name) && n == CountOf(counts, name)
  {
    if counts != [] {
      TailDistinct(counts);
      InCounts(counts[1..], name, n);
      if counts[0].0 == name {
        HasAt(counts[1..], name);
      }
      assert counts == [counts[0]] + counts[1..];
    }
  }

  /** The entries after the first keep their names distinct, and none of
      them has the first one's name. */
  lemma TailDistinct(counts: Counts)
    requires DistinctNames(counts) && counts != []
    ensures DistinctNames(counts[1..])
    ensures forall k :: 0 <= k < |counts[1..]| ==> counts[1..][k].0 != counts[0].0
  {
    forall i, j | 0 <= i < j < |counts[1..]|
      ensures counts[1..][i].0 != counts[1..][j].0
    {
      assert counts[1..][i] == counts[i + 1] && counts[1..][j] == counts[j + 1];
    }
    forall k | 0 <= k < |counts[1..]|
      ensures counts[1..][k].0 != counts[0].0
    {
      assert counts[1..][k] == counts[k + 1];
    }
  }

  /** Counts in non-increasing order. */
  predicate NonIncreasing(counts: Counts) {
    forall i, j :: 0 <= i < j < |counts| ==> counts[i].1 >= counts[j].1
  }

  /** `x` placed before the first entry whose count is not larger: the step
      of a stable sort by decreasing count. */
  function InsertByCount(x: (string, nat), s: Counts): (r: Counts)
    requires NonIncreasing(s)
    ensures NonIncreasing(r) && multiset(r) == multiset(s) + multiset{x}
  {
    if s == [] || s[0].1 <= x.1 then [x] + s
    else
      var rest := InsertByCount(x, s[1..]);
      assert s == [s[0]] + s[1..];
      InsertedBelow(x, s, rest);
      NonIncreasingCons(s[0], rest);
      [s[0]] + rest
  }

  lemma NonIncreasingCons(h: (string, nat), rest: Counts)
    requires NonIncreasing(rest) && forall j :: 0 <= j < |rest| ==> h.1 >= rest[j].1
    ensures NonIncreasing([h] + rest)
  {
    forall i, j | 0 <= i < j < |[h] + rest|
      ensures ([h] + rest)[i].1 >= ([h] + rest)[j].1
    {
      if i > 0 {
        assert ([h] + rest)[i] == rest[i - 1];
      }
      assert ([h] + rest)[j] == rest[j - 1];
    }
  }

  /** What is inserted after the first entry counts no more than it. */
  lemma InsertedBelow(x: (string, nat), s: Counts, rest: Counts)
    requires NonIncreasing(s) && s != [] && x.1 < s[0].1
    requires multiset(rest) == multiset(s[1..]) + multiset{x}
    ensures forall j :: 0 <= j < |rest| ==> s[0].1 >= rest[j].1
  {
    forall j | 0 <= j < |rest|
      ensures s[0].1 >= rest[j].1
    {
      assert rest[j] in multiset(rest);
      if rest[j] != x {
        assert rest[j] in multiset(s[1..]);
        var k :| 0 <= k < |s[1..]| && s[1..][k] == rest[j];
        assert s[k + 1] == rest[j];
      }
    }
  }

  /** `sorted(items, key=count, reverse=True)`. */
  function SortByCount(s: Counts): (r: Counts)
    ensures NonIncreasing(r) && multiset(r) == multiset(s)
  {
    if s == [] then []
    else
      assert s == [s[0]] + s[1..];
      InsertByCount(s[0], SortByCount(s[1..]))
  }

  /** A rearrangement of a dict's entries keeps its names distinct. */
  lemma PermutationDistinct(a: Counts, b: Counts)
    requires DistinctNames(a) && multiset(a) == multiset(b)
    ensures DistinctNames(b)
  {
    forall i, j | 0 <= i < j < |b|
      ensures b[i].0 != b[j].0
    {
      if b[i].0 == b[j].0 {
        assert b[i] in multiset(a) && b[j] in multiset(a);
        InCounts(a, b[i].0, b[i].1);
        InCounts(a, b[j].0, b[j].1);
        assert b[i] == b[j];
        assert multiset(b)[b[i]] >= 2 by {
          assert b == b[..i] + [b[i]] + b[i + 1..j] + [b[j]] + b[j + 1..];
        }
        AtMostOnce(a, b[i]);
      }
    }
  }

  /** With distinct names, no entry occurs twice. */
  lemma {:induction false} AtMostOnce(a: Counts, x: (string, nat))
    requires DistinctNames(a)
    ensures multiset(a)[x] <= 1
  {
    if a != [] {
      TailDistinct(a);
      AtMostOnce(a[1..], x);
      assert a == [a[0]] + a[1..];
      if a[0] == x {
        assert x !in a[1..];
      }
    }
  }

  /** Taking one more triple into account. */
  lemma CountedStep(done: set<Triple>, t: Triple, name: string)
    requires t !in done
    ensures var hit := t.p == V(Type) && ClassName(t.o) == Some(name);
            |Counted(done + {t}, name)| == |Counted(done, name)| + (if hit then 1 else 0)
            && (Counted(done + {t}, name) != {} <==> Counted(done, name) != {} || hit)
  {
    if t.p == V(Type) && ClassName(t.o) == Some(name) {
      assert Counted(done + {t}, name) == Counted(done, name) + {t};
    } else {
      assert Counted(done + {t}, name) == Counted(done, name);
    }
  }

  /** The loop of `count_laderr_classes` that fills `class_counts`. */
  method TallyClasses(T: set<Triple>) returns (counts: Counts)
    ensures DistinctNames(counts)
    ensures forall name :: CountOf(counts, name) == |Counted(T, name)|
    ensures forall name :: Has(counts, name) <==> Counted(T, name) != {}
  {
    counts := [];
    var typed := set t | t in T && t.p == V(Type);
    var rest := typed;
    ghost var done: set<Triple> := {};
    while rest != {}
      invariant rest <= typed && done == typed - rest
      invariant DistinctNames(counts)
      invariant forall name :: CountOf(counts, name) == |Counted(done, name)|
      invariant forall name :: Has(counts, name) <==> Counted(done, name) != {}
      decreases |rest|
    {
      var t :| t in rest;
      var name := ClassName(t.o);
      ghost var before := counts;
      if name.Some? {
        BumpDistinct(counts, name.value);
        counts := Bump(counts, name.value);
      }
      forall other
        ensures CountOf(counts, other) == |Counted(done + {t}, other)|
        ensures Has(counts, other) <==> Counted(done + {t}, other) != {}
      {
        CountedStep(done, t, other);
        if name.Some? {
          BumpCount(before, name.value, other);
        }
      }
      rest := rest - {t};
      done := done + {t};
    }
    assert forall name :: Counted(done, name) == Counted(T, name);
  }

  /** `count_laderr_classes`: for every LaDeRR class but Scenario that some
      `rdf:type` triple names, the number of such triples, in order of
      decreasing count. */
  method CountLaderrClasses(T: set<Triple>) returns (r: Counts)
    ensures DistinctNames(r) && NonIncreasing(r)
    ensures forall name, n :: (name, n) in r <==> Counted(T, name) != {} && n == |Counted(T, name)|
  {
    var counts := TallyClasses(T);
    r := SortByCount(counts);
    PermutationDistinct(counts, r);
    forall name, n
      ensures (name, n) in r <==> Counted(T, name) != {} && n == |Counted(T, name)|
    {
      assert (name, n) in r <==> (name, n) in multiset(counts);
      InCounts(counts, name, n);
    }
  }

  // =====================================================================
  // calculate_resilience_metrics

  /** `set(graph.subjects(RDF.type, LADERR_NS[c]))`. */
  function Instances(T: set<Triple>, c: Vocab): set<Node> {
    Subjects(T, V(Type), V(c))
  }

  /** `(n, state, disabled) in graph`. */
  predicate IsDisabled(T: set<Triple>, n: Node) {
    Triple(n, V(State), V(Disabled)) in T
  }

  /** `bool(list(graph.subjects(exploits, n)))`. */
  predicate IsExploited(T: set<Triple>, n: Node) {
    HasSubjectFor(T, V(Exploits), n)
  }

  /** The members of `S` without a disabled state. */
  function EnabledIn(T: set<Triple>, S: set<Node>): set<Node> {
    set n | n in S && !IsDisabled(T, n)
  }

  /** The members of `S` with the given disabled and exploited status. */
  function Quadrant(T: set<Triple>, S: set<Node>, disabled: bool, exploited: bool): set<Node> {
    set n | n in S && IsDisabled(T, n) == disabled && IsExploited(T, n) == exploited
  }

  /** The integer entries of the metrics dict, and the numerator of the
      resilience index. */
  datatype Metrics = Metrics(
    totalVulnerabilities: nat, enabledVulnerabilities: nat, disabledVulnerabilities: int,
    exploitedEnabled: nat, exploitedDisabled: nat, notExploitedEnabled: nat, notExploitedDisabled: nat,
    totalCapabilities: nat, enabledCapabilities: nat, disabledCapabilities: int,
    totalEntities: nat, assets: nat, threats: nat, controls: nat, unclassifiedEntities: nat,
    resilienceNumerator: nat)

  /** The four status quadrants partition a set, and the enabled members are
      the two enabled quadrants. */
  lemma QuadrantsPartition(T: set<Triple>, S: set<Node>)
    ensures |Quadrant(T, S, true, false)| + |Quadrant(T, S, true, true)|
            + |Quadrant(T, S, false, false)| + |Quadrant(T, S, false, true)| == |S|
    ensures |EnabledIn(T, S)| == |Quadrant(T, S, false, false)| + |Quadrant(T, S, false, true)|
  {
    var dn, de := Quadrant(T, S, true, false), Quadrant(T, S, true, true);
    var en, ee := Quadrant(T, S, false, false), Quadrant(T, S, false, true);
    assert EnabledIn(T, S) == en + ee;
    assert S == dn + de + en + ee;
    assert dn !! de && (dn + de) !! en && (dn + de + en) !! ee;
  }

  /** Taking one more member into account. */
  lemma EnabledStep(T: set<Triple>, S: set<Node>, n: Node)
    requires n !in S
    ensures |EnabledIn(T, S + {n})| == |EnabledIn(T, S)| + (if IsDisabled(T, n) then 0 else 1)
  {
    if IsDisabled(T, n) {
      assert EnabledIn(T, S + {n}) == EnabledIn(T, S);
    } else {
      assert EnabledIn(T, S + {n}) == EnabledIn(T, S) + {n};
    }
  }

  lemma QuadrantStep(T: set<Triple>, S: set<Node>, n: Node, disabled: bool, exploited: bool)
    requires n !in S
    ensures |Quadrant(T, S + {n}, disabled, exploited)|
            == |Quadrant(T, S, disabled, exploited)|
               + (if IsDisabled(T, n) == disabled && IsExploited(T, n) == exploited then 1 else 0)
  {
    if IsDisabled(T, n) == disabled && IsExploited(T, n) == exploited {
      assert Quadrant(T, S + {n}, disabled, exploited) == Quadrant(T, S, disabled, exploited) + {n};
    } else {
      assert Quadrant(T, S + {n}, disabled, exploited) == Quadrant(T, S, disabled, exploited);
    }
  }

  /** `sum(1 for n in S if (n, state, disabled) not in graph)`. */
  method CountEnabled(T: set<Triple>, S: set<Node>) returns (count: nat)
    ensures count == |EnabledIn(T, S)|
  {
    count := 0;
    var rest := S;
    ghost var done: set<Node> := {};
    while rest != {}
      invariant rest !! done && rest + done == S
      invariant count == |EnabledIn(T, done)|
      decreases |rest|
    {
      var n :| n in rest;
      EnabledStep(T, done, n);
      if !IsDisabled(T, n) {
        count := count + 1;
      }
      rest := rest - {n};
      done := done + {n};
    }
  }

  /** The loop over the vulnerabilities of `calculate_resilience_metrics`:
      its four quadrant counters and the three `count_*` counters it keeps
      beside them. */
  method ClassifyVulnerabilities(T: set<Triple>, S: set<Node>)
    returns (exploitedEnabled: nat, exploitedDisabled: nat, notExploitedEnabled: nat, notExploitedDisabled: nat,
             disabledNoExploit: nat, disabledWithExploit: nat, enabledNoExploit: nat)
    ensures exploitedEnabled == |Quadrant(T, S, false, true)| && exploitedDisabled == |Quadrant(T, S, true, true)|
    ensures notExploitedEnabled == |Quadrant(T, S, false, false)| && notExploitedDisabled == |Quadrant(T, S, true, false)|
    ensures disabledNoExploit == notExploitedDisabled && disabledWithExploit == exploitedDisabled
    ensures enabledNoExploit == notExploitedEnabled
  {
    exploitedEnabled, exploitedDisabled, notExploitedEnabled, notExploitedDisabled := 0, 0, 0, 0;
    disabledNoExploit, disabledWithExploit, enabledNoExploit := 0, 0, 0;
    var rest := S;
    ghost var done: set<Node> := {};
    while rest != {}
      invariant rest !! done && rest + done == S
      invariant exploitedEnabled == |Quadrant(T, done, false, true)| && exploitedDisabled == |Quadrant(T, done, true, true)|
      invariant notExploitedEnabled == |Quadrant(T, done, false, false)| && notExploitedDisabled == |Quadrant(T, done, true, false)|
      invariant disabledNoExploit == notExploitedDisabled && disabledWithExploit == exploitedDisabled
      invariant enabledNoExploit == notExploitedEnabled
      decreases |rest|
    {
      var v :| v in rest;
      var isDisabled := IsDisabled(T, v);
      var hasExploit := IsExploited(T, v);
      QuadrantStep(T, done, v, false, true);
      QuadrantStep(T, done, v, true, true);
      QuadrantStep(T, done, v, false, false);
      QuadrantStep(T, done, v, true, false);
      if isDisabled && !hasExploit {
        disabledNoExploit := disabledNoExploit + 1;
        notExploitedDisabled := notExploitedDisabled + 1;
      } else if isDisabled && hasExploit {
        disabledWithExploit := disabledWithExploit + 1;
        exploitedDisabled := exploitedDisabled + 1;
      } else if !isDisabled && !hasExploit {
        enabledNoExploit := enabledNoExploit + 1;
        notExploitedEnabled := notExploitedEnabled + 1;
      } else {
        exploitedEnabled := exploitedEnabled + 1;
      }
      rest := rest - {v};
      done := done + {v};
    }
  }

  /** `calculate_resilience_metrics` without its two percentages: every
      count is the size of the set it names; the enabled and disabled
      counts add up to the totals, the four quadrants partition the
      vulnerabilities, and the resilience numerator counts every
      vulnerability but the enabled, exploited ones. */
  method CalculateResilienceMetrics(T: set<Triple>) returns (m: Metrics)
    ensures m.totalVulnerabilities == |Instances(T, Vulnerability)|
    ensures m.enabledVulnerabilities == |EnabledIn(T, Instances(T, Vulnerability))|
    ensures m.disabledVulnerabilities == |set n | n in Instances(T, Vulnerability) && IsDisabled(T, n)|
    ensures m.exploitedEnabled == |Quadrant(T, Instances(T, Vulnerability), false, true)|
    ensures m.exploitedDisabled == |Quadrant(T, Instances(T, Vulnerability), true, true)|
    ensures m.notExploitedEnabled == |Quadrant(T, Instances(T, Vulnerability), false, false)|
    ensures m.notExploitedDisabled == |Quadrant(T, Instances(T, Vulnerability), true, false)|
    ensures m.exploitedEnabled + m.exploitedDisabled + m.notExploitedEnabled + m.notExploitedDisabled == m.totalVulnerabilities
    ensures m.enabledVulnerabilities == m.notExploitedEnabled + m.exploitedEnabled
    ensures m.totalCapabilities == |Instances(T, Capability)|
    ensures m.enabledCapabilities == |EnabledIn(T, Instances(T, Capability))|
    ensures m.disabledCapabilities == |set n | n in Instances(T, Capability) && IsDisabled(T, n)|
    ensures m.totalEntities == |Instances(T, Entity)|
    ensures m.assets == |Instances(T, Asset)| && m.threats == |Instances(T, Threat)| && m.controls == |Instances(T, Control)|
    ensures m.unclassifiedEntities
            == |Instances(T, Entity) - (Instances(T, Asset) + Instances(T, Threat) + Instances(T, Control))|
    ensures m.resilienceNumerator == m.totalVulnerabilities - m.exploitedEnabled
    ensures m.resilienceNumerator <= m.totalVulnerabilities
  {
    var vulnerabilities := Instances(T, Vulnerability);
    var capabilities := Instances(T, Capability);
    var entities := Instances(T, Entity);
    var totalVul := |vulnerabilities|;
    var totalCap := |capabilities|;
    var enabledVul := CountEnabled(T, vulnerabilities);
    var enabledCap := CountEnabled(T, capabilities);
    DisabledComplement(T, vulnerabilities);
    DisabledComplement(T, capabilities);
    var ee, ed, ne, nd, dn, dw, en := ClassifyVulnerabilities(T, vulnerabilities);
    QuadrantsPartition(T, vulnerabilities);
    var numerator := dn + dw + en;
    var assets := Instances(T, Asset);
    var threats := Instances(T, Threat);
    var controls := Instances(T, Control);
    var unclassified := entities - (assets + threats + controls);
    m := Metrics(totalVul, enabledVul, totalVul - enabledVul, ee, ed, ne, nd,
                 totalCap, enabledCap, totalCap - enabledCap,
                 |entities|, |assets|, |threats|, |controls|, |unclassified|, numerator);
  }

  /** The disabled members are the complement of the enabled ones. */
  lemma DisabledComplement(T: set<Triple>, S: set<Node>)
    ensures |set n | n in S && IsDisabled(T, n)| == |S| - |EnabledIn(T, S)|
  {
    var D := set n | n in S && IsDisabled(T, n);
    assert S == D + EnabledIn(T, S) && D !! EnabledIn(T, S);
  }
}
