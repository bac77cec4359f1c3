/** The inference rules of `InferenceRules`
    (laderr_engine/laderr_lib/services/inference_rules.py).

    Each rule has a function that says what one execution does to a triple
    set, written as the rule's loops are nested, and a method that runs those
    loops over a `Graph`, collects the triples to add and to remove, and then
    applies them in place. The method's postcondition ties the graph it leaves
    to the function; the lemmas state what the function means. */
module InferenceRules {
  import opened Rdf
  import GraphHandler

  // =====================================================================
  // execute_rule_disabled_state

  /** The kinds of node whose state the rule sets when they are disabled. */
  predicate StateTarget(T: set<Triple>, d: Node) {
    Typed(T, d, Disposition) || Typed(T, d, Capability) || Typed(T, d, Vulnerability)
  }

  /** The pairs (d1, d2) with `d1 disables d2` and `d2` a state target: the
      iterations of the inner loop that get past its `continue`. */
  function PairsOf(T: set<Triple>, d1: Node): set<(Node, Node)> {
    set d2 | d2 in Objects(T, d1, V(Disables)) && StateTarget(T, d2) :: (d1, d2)
  }

  /** The pairs whose disabler is in `D`. */
  function DisablingPairsFrom(T: set<Triple>, D: set<Node>): set<(Node, Node)> {
    set d1, d2 | d1 in D && d2 in Objects(T, d1, V(Disables)) && StateTarget(T, d2) :: (d1, d2)
  }

  /** The pairs the rule acts on: `d1` ranges over the Dispositions. */
  function DisablingPairs(T: set<Triple>): set<(Node, Node)> {
    DisablingPairsFrom(T, Subjects(T, V(Type), V(Disposition)))
  }

  lemma DisablingPairsStep(T: set<Triple>, D: set<Node>, d1: Node)
    ensures DisablingPairsFrom(T, D + {d1}) == DisablingPairsFrom(T, D) + PairsOf(T, d1)
  {
  }

  lemma StateUpdatesStep(T: set<Triple>, P: set<(Node, Node)>, d1: Node, d2: Node)
    ensures StateRemovals(P + {(d1, d2)})
         == StateRemovals(P) + {Triple(d1, V(State), V(Disabled)), Triple(d2, V(State), V(Enabled))}
    ensures StateAdditions(T, P + {(d1, d2)})
         == StateAdditions(T, P)
            + (if Triple(d1, V(State), V(Enabled)) !in T then {Triple(d1, V(State), V(Enabled))} else {})
            + (if Triple(d2, V(State), V(Disabled)) !in T then {Triple(d2, V(State), V(Disabled))} else {})
  {
  }

  lemma StateUpdatesUnion(T: set<Triple>, P: set<(Node, Node)>, Q: set<(Node, Node)>)
    ensures StateRemovals(P + Q) == StateRemovals(P) + StateRemovals(Q)
    ensures StateAdditions(T, P + Q) == StateAdditions(T, P) + StateAdditions(T, Q)
  {
  }

  /** `removed_triples` after visiting the pairs `P`. */
  function StateRemovals(P: set<(Node, Node)>): set<Triple> {
    (set pr | pr in P :: Triple(pr.0, V(State), V(Disabled)))
    + (set pr | pr in P :: Triple(pr.1, V(State), V(Enabled)))
  }

  /** `new_triples` after visiting the pairs `P` of the graph `T`. */
  function StateAdditions(T: set<Triple>, P: set<(Node, Node)>): set<Triple> {
    (set pr | pr in P && Triple(pr.0, V(State), V(Enabled)) !in T :: Triple(pr.0, V(State), V(Enabled)))
    + (set pr | pr in P && Triple(pr.1, V(State), V(Disabled)) !in T :: Triple(pr.1, V(State), V(Disabled)))
  }

  /** The triple set one execution of the rule leaves. */
  function DisabledStateRule(T: set<Triple>): set<Triple> {
    if !HasSubjectFor(T, V(Type), V(Disposition)) then T
    else (T - StateRemovals(DisablingPairs(T))) + StateAdditions(T, DisablingPairs(T))
  }

  /** The inner loop, over what one disposition `d1` disables. */
  method StateUpdatesFor(T: set<Triple>, d1: Node) returns (newTriples: set<Triple>, removedTriples: set<Triple>)
    ensures removedTriples == StateRemovals(PairsOf(T, d1))
    ensures newTriples == StateAdditions(T, PairsOf(T, d1))
  {
    newTriples, removedTriples := {}, {};
    ghost var visited: set<(Node, Node)> := {};
    var targets := Objects(T, d1, V(Disables));
    var rest := targets;
    while rest != {}
      invariant rest <= targets
      invariant visited == set d2 | d2 in targets - rest && StateTarget(T, d2) :: (d1, d2)
      invariant removedTriples == StateRemovals(visited)
      invariant newTriples == StateAdditions(T, visited)
      decreases rest
    {
      var d2 :| d2 in rest;
      if StateTarget(T, d2) {
        StateUpdatesStep(T, visited, d1, d2);
        removedTriples := removedTriples + {Triple(d1, V(State), V(Disabled)), Triple(d2, V(State), V(Enabled))};
        if Triple(d1, V(State), V(Enabled)) !in T {
          newTriples := newTriples + {Triple(d1, V(State), V(Enabled))};
        }
        if Triple(d2, V(State), V(Disabled)) !in T {
          newTriples := newTriples + {Triple(d2, V(State), V(Disabled))};
        }
        visited := visited + {(d1, d2)};
      }
      rest := rest - {d2};
    }
    assert targets - rest == targets;
  }

  /** The rule's two loops: `removed_triples` and `new_triples` for the graph `T`. */
  method CollectStateUpdates(T: set<Triple>) returns (newTriples: set<Triple>, removedTriples: set<Triple>)
    ensures removedTriples == StateRemovals(DisablingPairs(T))
    ensures newTriples == StateAdditions(T, DisablingPairs(T))
  {
    newTriples, removedTriples := {}, {};
    var dispositions := Subjects(T, V(Type), V(Disposition));
    var todo := dispositions;
    while todo != {}
      invariant todo <= dispositions
      invariant removedTriples == StateRemovals(DisablingPairsFrom(T, dispositions - todo))
      invariant newTriples == StateAdditions(T, DisablingPairsFrom(T, dispositions - todo))
      decreases todo
    {
      var d1 :| d1 in todo;
      var added, removed := StateUpdatesFor(T, d1);
      DisablingPairsStep(T, dispositions - todo, d1);
      StateUpdatesUnion(T, DisablingPairsFrom(T, dispositions - todo), PairsOf(T, d1));
      newTriples, removedTriples := newTriples + added, removedTriples + removed;
      assert dispositions - (todo - {d1}) == (dispositions - todo) + {d1};
      todo := todo - {d1};
    }
    assert dispositions - todo == dispositions;
  }

  method ExecuteRuleDisabledState(g: Graph)
    modifies g
    ensures g.triples == DisabledStateRule(old(g.triples)) && g.namespaces == old(g.namespaces)
  {
    if !(exists t :: t in g.triples && t.p == V(Type) && t.o == V(Disposition)) {
      return;
    }
    var newTriples, removedTriples := CollectStateUpdates(g.triples);
    // apply removals first, then the new inferences
    g.RemoveAll(removedTriples);
    g.AddAll(newTriples);
  }

  /** When no node is both a disabler and a disabled target, one execution
      leaves every disabler enabled and not disabled, and every target
      disabled and not enabled, whatever states they had before. */
  lemma DisabledStateOutcome(T: set<Triple>, d1: Node, d2: Node)
    requires (d1, d2) in DisablingPairs(T)
    requires forall p, q :: p in DisablingPairs(T) && q in DisablingPairs(T) ==> p.0 != q.1
    ensures Triple(d1, V(State), V(Enabled)) in DisabledStateRule(T)
    ensures Triple(d1, V(State), V(Disabled)) !in DisabledStateRule(T)
    ensures Triple(d2, V(State), V(Disabled)) in DisabledStateRule(T)
    ensures Triple(d2, V(State), V(Enabled)) !in DisabledStateRule(T)
  {
    var P := DisablingPairs(T);
    assert Triple(d1, V(Type), V(Disposition)) in T;
    assert HasSubjectFor(T, V(Type), V(Disposition));
    assert Triple(d1, V(State), V(Disabled)) in StateRemovals(P);
    assert Triple(d2, V(State), V(Enabled)) in StateRemovals(P);
    assert Triple(d1, V(State), V(Disabled)) !in StateAdditions(T, P);
    assert Triple(d2, V(State), V(Enabled)) !in StateAdditions(T, P);
    assert Triple(d1, V(State), V(Enabled)) !in StateRemovals(P);
    assert Triple(d2, V(State), V(Disabled)) !in StateRemovals(P);
  }

  /** The rule only ever adds or removes `state` triples. */
  lemma DisabledStateOnlyChangesStates(T: set<Triple>)
    ensures forall t :: t in T && t !in DisabledStateRule(T) ==> t.p == V(State) && t.o in {V(Enabled), V(Disabled)}
    ensures forall t :: t !in T && t in DisabledStateRule(T) ==> t.p == V(State) && t.o in {V(Enabled), V(Disabled)}
  {
  }

  // =====================================================================
  // execute_rule_protects and execute_rule_threatens: the same pattern,
  // `o2 capabilities d2`, `o1 vulnerabilities d1`, `d2 link d1` gives
  // `o2 derived o1`, with link = disables / derived = protects and
  // link = exploits / derived = threatens.

  /** The facts the inner loop derives for the vulnerability owner `vo`
      (`vo.0 vulnerabilities vo.1`) while it visits the capability owners `C`. */
  function OwnerRelationFactsAtFrom(T: set<Triple>, link: Vocab, derived: Vocab, vo: (Node, Node),
                                    C: set<(Node, Node)>): set<Triple> {
    set co | co in C && Triple(co.1, V(link), vo.1) in T && Triple(co.0, V(derived), vo.0) !in T
      :: Triple(co.0, V(derived), vo.0)
  }

  /** The facts the inner loop derives for `vo` over all capability owners. */
  function OwnerRelationFactsAt(T: set<Triple>, link: Vocab, derived: Vocab, vo: (Node, Node)): set<Triple> {
    OwnerRelationFactsAtFrom(T, link, derived, vo, SubjectObjects(T, V(Capabilities)))
  }

  lemma OwnerRelationFactsAtStep(T: set<Triple>, link: Vocab, derived: Vocab, vo: (Node, Node),
                                 C: set<(Node, Node)>, co: (Node, Node))
    ensures OwnerRelationFactsAtFrom(T, link, derived, vo, C + {co})
         == OwnerRelationFactsAtFrom(T, link, derived, vo, C)
            + (if Triple(co.1, V(link), vo.1) in T && Triple(co.0, V(derived), vo.0) !in T
               then {Triple(co.0, V(derived), vo.0)} else {})
  {
  }

  /** The facts derived while the outer loop visits the owners `D`. */
  function OwnerRelationFactsOver(T: set<Triple>, link: Vocab, derived: Vocab, D: set<(Node, Node)>): set<Triple> {
    set vo, t | vo in D && t in OwnerRelationFactsAt(T, link, derived, vo) :: t
  }

  /** `new_triples` of the rule: the derived facts not yet in the graph. */
  function OwnerRelationFacts(T: set<Triple>, link: Vocab, derived: Vocab): set<Triple> {
    OwnerRelationFactsOver(T, link, derived, SubjectObjects(T, V(Vulnerabilities)))
  }

  lemma OwnerRelationFactsStepCovered(T: set<Triple>, link: Vocab, derived: Vocab, D: set<(Node, Node)>, vo: (Node, Node))
    ensures OwnerRelationFactsOver(T, link, derived, D + {vo})
         <= OwnerRelationFactsOver(T, link, derived, D) + OwnerRelationFactsAt(T, link, derived, vo)
  {
    forall t | t in OwnerRelationFactsOver(T, link, derived, D + {vo})
      ensures t in OwnerRelationFactsOver(T, link, derived, D) + OwnerRelationFactsAt(T, link, derived, vo)
    {
      var w :| w in D + {vo} && t in OwnerRelationFactsAt(T, link, derived, w);
      if w != vo {
        assert w in D;
      }
    }
  }

  lemma OwnerRelationFactStaysCovered(T: set<Triple>, link: Vocab, derived: Vocab, D: set<(Node, Node)>,
                                      vo: (Node, Node), t: Triple)
    requires t in OwnerRelationFactsOver(T, link, derived, D) + OwnerRelationFactsAt(T, link, derived, vo)
    ensures t in OwnerRelationFactsOver(T, link, derived, D + {vo})
  {
    if t !in OwnerRelationFactsAt(T, link, derived, vo) {
      var w :| w in D && t in OwnerRelationFactsAt(T, link, derived, w);
      assert w in D + {vo};
    }
  }

  lemma OwnerRelationFactsStepCovers(T: set<Triple>, link: Vocab, derived: Vocab, D: set<(Node, Node)>, vo: (Node, Node))
    ensures OwnerRelationFactsOver(T, link, derived, D) + OwnerRelationFactsAt(T, link, derived, vo)
         <= OwnerRelationFactsOver(T, link, derived, D + {vo})
  {
    forall t | t in OwnerRelationFactsOver(T, link, derived, D) + OwnerRelationFactsAt(T, link, derived, vo)
      ensures t in OwnerRelationFactsOver(T, link, derived, D + {vo})
    {
      OwnerRelationFactStaysCovered(T, link, derived, D, vo, t);
    }
  }

  lemma OwnerRelationFactsStep(T: set<Triple>, link: Vocab, derived: Vocab, D: set<(Node, Node)>, vo: (Node, Node))
    ensures OwnerRelationFactsOver(T, link, derived, D + {vo})
         == OwnerRelationFactsOver(T, link, derived, D) + OwnerRelationFactsAt(T, link, derived, vo)
  {
    OwnerRelationFactsStepCovered(T, link, derived, D, vo);
    OwnerRelationFactsStepCovers(T, link, derived, D, vo);
  }

  function OwnerRelationRule(T: set<Triple>, link: Vocab, derived: Vocab): set<Triple> {
    if !UsesPredicate(T, V(Capabilities)) || !UsesPredicate(T, V(Vulnerabilities)) || !UsesPredicate(T, V(link))
    then T
    else T + OwnerRelationFacts(T, link, derived)
  }

  function ProtectsRule(T: set<Triple>): set<Triple> {
    OwnerRelationRule(T, Disables, Protects)
  }

  function ThreatensRule(T: set<Triple>): set<Triple> {
    OwnerRelationRule(T, Exploits, Threatens)
  }

  /** The two loops of the rule for a fixed vulnerability owner `vo`. */
  method OwnerRelationFactsFor(T: set<Triple>, link: Vocab, derived: Vocab, vo: (Node, Node))
    returns (r: set<Triple>)
    ensures r == OwnerRelationFactsAt(T, link, derived, vo)
  {
    r := {};
    var owners := SubjectObjects(T, V(Capabilities));
    var rest := owners;
    while rest != {}
      invariant rest <= owners
      invariant r == OwnerRelationFactsAtFrom(T, link, derived, vo, owners - rest)
      decreases rest
    {
      var co :| co in rest;
      OwnerRelationFactsAtStep(T, link, derived, vo, owners - rest, co);
      if Triple(co.1, V(link), vo.1) in T && Triple(co.0, V(derived), vo.0) !in T {
        r := r + {Triple(co.0, V(derived), vo.0)};
      }
      assert owners - (rest - {co}) == (owners - rest) + {co};
      rest := rest - {co};
    }
    assert owners - rest == owners;
  }

  /** The rule's two loops: `new_triples` for the graph `T`. */
  method CollectOwnerRelationFacts(T: set<Triple>, link: Vocab, derived: Vocab) returns (newTriples: set<Triple>)
    ensures newTriples == OwnerRelationFacts(T, link, derived)
  {
    newTriples := {};
    var owners := SubjectObjects(T, V(Vulnerabilities));
    var todo := owners;
    while todo != {}
      invariant todo <= owners
      invariant newTriples == OwnerRelationFactsOver(T, link, derived, owners - todo)
      decreases todo
    {
      var vo :| vo in todo;
      var found := OwnerRelationFactsFor(T, link, derived, vo);
      newTriples := newTriples + found;
      OwnerRelationFactsStep(T, link, derived, owners - todo, vo);
      assert owners - (todo - {vo}) == (owners - todo) + {vo};
      todo := todo - {vo};
    }
    assert owners - todo == owners;
  }

  method ExecuteOwnerRelationRule(g: Graph, link: Vocab, derived: Vocab)
    modifies g
    ensures g.triples == OwnerRelationRule(old(g.triples), link, derived) && g.namespaces == old(g.namespaces)
  {
    if !(exists t :: t in g.triples && t.p == V(Capabilities))
       || !(exists t :: t in g.triples && t.p == V(Vulnerabilities))
       || !(exists t :: t in g.triples && t.p == V(link)) {
      return;
    }
    var newTriples := CollectOwnerRelationFacts(g.triples, link, derived);
    g.AddAll(newTriples);
  }

  method ExecuteRuleProtects(g: Graph)
    modifies g
    ensures g.triples == ProtectsRule(old(g.triples)) && g.namespaces == old(g.namespaces)
  {
    ExecuteOwnerRelationRule(g, Disables, Protects);
  }

  method ExecuteRuleThreatens(g: Graph)
    modifies g
    ensures g.triples == ThreatensRule(old(g.triples)) && g.namespaces == old(g.namespaces)
  {
    ExecuteOwnerRelationRule(g, Exploits, Threatens);
  }

  // ---------------------------------------------------------------------
  // What protects and threatens mean.

  /** A fact the rule derives has a witness: a capability of `a` linked to a
      vulnerability of `b`. */
  lemma FactWitness(T: set<Triple>, link: Vocab, derived: Vocab, t: Triple)
    returns (d1: Node, d2: Node)
    requires t in OwnerRelationFacts(T, link, derived)
    ensures t.p == V(derived) && t !in T
    ensures Triple(t.o, V(Vulnerabilities), d1) in T && Triple(t.s, V(Capabilities), d2) in T
    ensures Triple(d2, V(link), d1) in T
  {
    var vo :| vo in SubjectObjects(T, V(Vulnerabilities)) && t in OwnerRelationFactsAt(T, link, derived, vo);
    var co :| co in SubjectObjects(T, V(Capabilities)) && Triple(co.1, V(link), vo.1) in T
              && Triple(co.0, V(derived), vo.0) !in T && t == Triple(co.0, V(derived), vo.0);
    d1, d2 := vo.1, co.1;
  }

  /** Conversely, every witnessed fact not yet in the graph is derived. */
  lemma WitnessedFact(T: set<Triple>, link: Vocab, derived: Vocab, a: Node, b: Node, d1: Node, d2: Node)
    requires Triple(b, V(Vulnerabilities), d1) in T && Triple(a, V(Capabilities), d2) in T
    requires Triple(d2, V(link), d1) in T && Triple(a, V(derived), b) !in T
    ensures Triple(a, V(derived), b) in OwnerRelationFacts(T, link, derived)
  {
    var t := Triple(a, V(derived), b);
    var C := SubjectObjects(T, V(Capabilities));
    var D := SubjectObjects(T, V(Vulnerabilities));
    assert (a, d2) in C && (b, d1) in D;
    assert t in OwnerRelationFactsAtFrom(T, link, derived, (b, d1), C);
    assert t in OwnerRelationFactsAt(T, link, derived, (b, d1));
    assert t in OwnerRelationFactsOver(T, link, derived, D);
  }

  /** A derived fact holds after the rule exactly when it held before or a
      capability of `a` is linked to a vulnerability of `b`. */
  lemma OwnerRelationMeaning(T: set<Triple>, link: Vocab, derived: Vocab, a: Node, b: Node)
    ensures Triple(a, V(derived), b) in OwnerRelationRule(T, link, derived)
        <==> Triple(a, V(derived), b) in T
             || exists d1, d2 :: Triple(b, V(Vulnerabilities), d1) in T && Triple(a, V(Capabilities), d2) in T
                                 && Triple(d2, V(link), d1) in T
  {
    var t := Triple(a, V(derived), b);
    if t in OwnerRelationRule(T, link, derived) && t !in T {
      var d1, d2 := FactWitness(T, link, derived, t);
    }
    if t !in T && exists d1, d2 :: Triple(b, V(Vulnerabilities), d1) in T && Triple(a, V(Capabilities), d2) in T
                                   && Triple(d2, V(link), d1) in T {
      var d1, d2 :| Triple(b, V(Vulnerabilities), d1) in T && Triple(a, V(Capabilities), d2) in T
                    && Triple(d2, V(link), d1) in T;
      assert Triple(b, V(Vulnerabilities), d1) in T && Triple(a, V(Capabilities), d2) in T;
      assert UsesPredicate(T, V(Capabilities)) && UsesPredicate(T, V(Vulnerabilities)) && UsesPredicate(T, V(link));
      WitnessedFact(T, link, derived, a, b, d1, d2);
    }
  }

  /** The rule removes nothing and adds only `derived` facts. */
  lemma OwnerRelationOnlyAdds(T: set<Triple>, link: Vocab, derived: Vocab)
    ensures T <= OwnerRelationRule(T, link, derived)
    ensures forall t :: t in OwnerRelationRule(T, link, derived) && t !in T ==> t.p == V(derived)
  {
    forall t | t in OwnerRelationRule(T, link, derived) && t !in T
      ensures t.p == V(derived)
    {
      var d1, d2 := FactWitness(T, link, derived, t);
    }
  }

  /** Every capability of `a` linked to a vulnerability of `b` has its
      derived fact `a derived b` in `R`. */
  ghost predicate Closed(R: set<Triple>, link: Vocab, derived: Vocab) {
    forall a, b, d1, d2 ::
      (Triple(b, V(Vulnerabilities), d1) in R && Triple(a, V(Capabilities), d2) in R && Triple(d2, V(link), d1) in R)
      ==> Triple(a, V(derived), b) in R
  }

  /** A closed graph has nothing left to derive. */
  lemma ClosedHasNoFacts(R: set<Triple>, link: Vocab, derived: Vocab)
    requires Closed(R, link, derived)
    ensures OwnerRelationFacts(R, link, derived) == {}
  {
    forall t | t in OwnerRelationFacts(R, link, derived)
      ensures false
    {
      var d1, d2 := FactWitness(R, link, derived, t);
    }
  }

  /** One instance of the closure: a pattern match in the rule's result is
      matched by a derived fact in it. */
  lemma RuleClosesAt(T: set<Triple>, link: Vocab, derived: Vocab, a: Node, b: Node, d1: Node, d2: Node)
    requires Triple(b, V(Vulnerabilities), d1) in T && Triple(a, V(Capabilities), d2) in T
    requires Triple(d2, V(link), d1) in T
    ensures Triple(a, V(derived), b) in OwnerRelationRule(T, link, derived)
  {
    if Triple(a, V(derived), b) !in T {
      WitnessedFact(T, link, derived, a, b, d1, d2);
      assert UsesPredicate(T, V(Capabilities)) && UsesPredicate(T, V(Vulnerabilities)) && UsesPredicate(T, V(link));
    }
  }

  /** After one run the graph is closed. */
  lemma RuleCloses(T: set<Triple>, link: Vocab, derived: Vocab)
    requires derived != link && derived != Capabilities && derived != Vulnerabilities
    ensures Closed(OwnerRelationRule(T, link, derived), link, derived)
  {
    var R := OwnerRelationRule(T, link, derived);
    OwnerRelationOnlyAdds(T, link, derived);
    forall a, b, d1, d2 | Triple(b, V(Vulnerabilities), d1) in R && Triple(a, V(Capabilities), d2) in R
                          && Triple(d2, V(link), d1) in R
      ensures Triple(a, V(derived), b) in R
    {
      assert Triple(b, V(Vulnerabilities), d1) in T;
      assert Triple(a, V(Capabilities), d2) in T;
      assert Triple(d2, V(link), d1) in T;
      RuleClosesAt(T, link, derived, a, b, d1, d2);
    }
  }

  /** Running the rule a second time changes nothing. */
  lemma OwnerRelationIdempotent(T: set<Triple>, link: Vocab, derived: Vocab)
    requires derived != link && derived != Capabilities && derived != Vulnerabilities
    ensures OwnerRelationRule(OwnerRelationRule(T, link, derived), link, derived) == OwnerRelationRule(T, link, derived)
  {
    RuleCloses(T, link, derived);
    ClosedHasNoFacts(OwnerRelationRule(T, link, derived), link, derived);
  }

  /** `o2 protects o1` holds after execute_rule_protects exactly when it held
      before or `o2` owns a capability that disables a vulnerability of `o1`;
      the rule removes nothing, adds only protects facts, and a second run is
      a no-op. */
  lemma ProtectsMeaning(T: set<Triple>, o2: Node, o1: Node)
    ensures Triple(o2, V(Protects), o1) in ProtectsRule(T)
        <==> Triple(o2, V(Protects), o1) in T
             || exists d1, d2 :: Triple(o1, V(Vulnerabilities), d1) in T && Triple(o2, V(Capabilities), d2) in T
                                 && Triple(d2, V(Disables), d1) in T
    ensures T <= ProtectsRule(T) && forall t :: t in ProtectsRule(T) - T ==> t.p == V(Protects)
    ensures ProtectsRule(ProtectsRule(T)) == ProtectsRule(T)
  {
    OwnerRelationMeaning(T, Disables, Protects, o2, o1);
    OwnerRelationOnlyAdds(T, Disables, Protects);
    OwnerRelationIdempotent(T, Disables, Protects);
  }

  /** The same for execute_rule_threatens, with `exploits` as the link. */
  lemma ThreatensMeaning(T: set<Triple>, o2: Node, o1: Node)
    ensures Triple(o2, V(Threatens), o1) in ThreatensRule(T)
        <==> Triple(o2, V(Threatens), o1) in T
             || exists d1, d2 :: Triple(o1, V(Vulnerabilities), d1) in T && Triple(o2, V(Capabilities), d2) in T
                                 && Triple(d2, V(Exploits), d1) in T
    ensures T <= ThreatensRule(T) && forall t :: t in ThreatensRule(T) - T ==> t.p == V(Threatens)
    ensures ThreatensRule(ThreatensRule(T)) == ThreatensRule(T)
  {
    OwnerRelationMeaning(T, Exploits, Threatens, o2, o1);
    OwnerRelationOnlyAdds(T, Exploits, Threatens);
    OwnerRelationIdempotent(T, Exploits, Threatens);
  }

  // =====================================================================
  // execute_rule_inhibits

  /** The Entities of the graph. */
  function Entities(T: set<Triple>): set<Node> {
    Subjects(T, V(Type), V(Entity))
  }

  /** The innermost loop: for the Capabilities `c3` among `C` of `o3` that
      exploit `v1`, the inhibits fact `o2 inhibits o3` if not yet present. */
  function InhibitsAtC3(T: set<Triple>, o2: Node, v1: Node, o3: Node, C: set<Node>): set<Triple> {
    set c3 | c3 in C && Typed(T, c3, Capability) && Triple(c3, V(Exploits), v1) in T
             && Triple(o2, V(Inhibits), o3) !in T :: Triple(o2, V(Inhibits), o3)
  }

  /** The loop over the entities `o3` among `O`, skipping `o2` itself. */
  function InhibitsAtO3(T: set<Triple>, o2: Node, v1: Node, O: set<Node>): set<Triple> {
    set o3, t | o3 in O && o3 != o2 && t in InhibitsAtC3(T, o2, v1, o3, Objects(T, o3, V(Capabilities))) :: t
  }

  /** The loop over the Vulnerabilities `v1` among `V1` that `c2` disables. */
  function InhibitsAtV1(T: set<Triple>, o2: Node, V1: set<Node>): set<Triple> {
    set v1, t | v1 in V1 && Typed(T, v1, Vulnerability) && t in InhibitsAtO3(T, o2, v1, Entities(T)) :: t
  }

  /** The loop over the Capabilities `c2` among `C` of `o2`. */
  function InhibitsAtC2(T: set<Triple>, o2: Node, C: set<Node>): set<Triple> {
    set c2, t | c2 in C && Typed(T, c2, Capability) && t in InhibitsAtV1(T, o2, Objects(T, c2, V(Disables))) :: t
  }

  /** The outer loop over the entities `o2` among `O`. */
  function InhibitsOver(T: set<Triple>, O: set<Node>): set<Triple> {
    set o2, t | o2 in O && t in InhibitsAtC2(T, o2, Objects(T, o2, V(Capabilities))) :: t
  }

  /** `new_triples` of the rule. */
  function InhibitsFacts(T: set<Triple>): set<Triple> {
    InhibitsOver(T, Entities(T))
  }

  /** The triple set one execution of the rule leaves. */
  function InhibitsRule(T: set<Triple>): set<Triple> {
    T + InhibitsFacts(T)
  }

  lemma InhibitsAtC3Step(T: set<Triple>, o2: Node, v1: Node, o3: Node, C: set<Node>, c3: Node)
    ensures InhibitsAtC3(T, o2, v1, o3, C + {c3})
         == InhibitsAtC3(T, o2, v1, o3, C)
            + (if Typed(T, c3, Capability) && Triple(c3, V(Exploits), v1) in T && Triple(o2, V(Inhibits), o3) !in T
               then {Triple(o2, V(Inhibits), o3)} else {})
  {
  }

  lemma InhibitsAtO3Step(T: set<Triple>, o2: Node, v1: Node, O: set<Node>, o3: Node)
    ensures InhibitsAtO3(T, o2, v1, O + {o3})
         == InhibitsAtO3(T, o2, v1, O)
            + (if o3 != o2 then InhibitsAtC3(T, o2, v1, o3, Objects(T, o3, V(Capabilities))) else {})
  {
  }

  lemma InhibitsAtV1Step(T: set<Triple>, o2: Node, V1: set<Node>, v1: Node)
    ensures InhibitsAtV1(T, o2, V1 + {v1})
         == InhibitsAtV1(T, o2, V1)
            + (if Typed(T, v1, Vulnerability) then InhibitsAtO3(T, o2, v1, Entities(T)) else {})
  {
  }

  lemma InhibitsAtC2Step(T: set<Triple>, o2: Node, C: set<Node>, c2: Node)
    ensures InhibitsAtC2(T, o2, C + {c2})
         == InhibitsAtC2(T, o2, C)
            + (if Typed(T, c2, Capability) then InhibitsAtV1(T, o2, Objects(T, c2, V(Disables))) else {})
  {
  }

  lemma InhibitsOverStep(T: set<Triple>, O: set<Node>, o2: Node)
    ensures InhibitsOver(T, O + {o2})
         == InhibitsOver(T, O) + InhibitsAtC2(T, o2, Objects(T, o2, V(Capabilities)))
  {
  }

  /** The innermost loop, over the Capabilities `c3` of one `o3`. */
  method InhibitsAgainst(T: set<Triple>, o2: Node, v1: Node, o3: Node) returns (r: set<Triple>)
    ensures r == InhibitsAtC3(T, o2, v1, o3, Objects(T, o3, V(Capabilities)))
  {
    r := {};
    var caps := Objects(T, o3, V(Capabilities));
    var rest := caps;
    while rest != {}
      invariant rest <= caps
      invariant r == InhibitsAtC3(T, o2, v1, o3, caps - rest)
      decreases rest
    {
      var c3 :| c3 in rest;
      InhibitsAtC3Step(T, o2, v1, o3, caps - rest, c3);
      assert caps - (rest - {c3}) == (caps - rest) + {c3};
      rest := rest - {c3};
      if !Typed(T, c3, Capability) {
        continue;
      }
      if Triple(c3, V(Exploits), v1) in T && Triple(o2, V(Inhibits), o3) !in T {
        r := r + {Triple(o2, V(Inhibits), o3)};
      }
    }
    assert caps - rest == caps;
  }

  /** The loop over the entities `o3`, for one `o2` and one `v1`. */
  method InhibitsFor(T: set<Triple>, o2: Node, v1: Node) returns (r: set<Triple>)
    ensures r == InhibitsAtO3(T, o2, v1, Entities(T))
  {
    r := {};
    var entities := Entities(T);
    var todo := entities;
    while todo != {}
      invariant todo <= entities
      invariant r == InhibitsAtO3(T, o2, v1, entities - todo)
      decreases todo
    {
      var o3 :| o3 in todo;
      InhibitsAtO3Step(T, o2, v1, entities - todo, o3);
      assert entities - (todo - {o3}) == (entities - todo) + {o3};
      todo := todo - {o3};
      if o3 == o2 {
        continue;
      }
      var found := InhibitsAgainst(T, o2, v1, o3);
      r := r + found;
    }
    assert entities - todo == entities;
  }

  /** The loop over the Vulnerabilities `v1` that one `c2` disables. */
  method InhibitsVia(T: set<Triple>, o2: Node, c2: Node) returns (r: set<Triple>)
    ensures r == InhibitsAtV1(T, o2, Objects(T, c2, V(Disables)))
  {
    r := {};
    var vulns := Objects(T, c2, V(Disables));
    var rest := vulns;
    while rest != {}
      invariant rest <= vulns
      invariant r == InhibitsAtV1(T, o2, vulns - rest)
      decreases rest
    {
      var v1 :| v1 in rest;
      InhibitsAtV1Step(T, o2, vulns - rest, v1);
      assert vulns - (rest - {v1}) == (vulns - rest) + {v1};
      rest := rest - {v1};
      if !Typed(T, v1, Vulnerability) {
        continue;
      }
      var found := InhibitsFor(T, o2, v1);
      r := r + found;
    }
    assert vulns - rest == vulns;
  }

  /** The loop over the Capabilities `c2` of `o2`. */
  method InhibitsBy(T: set<Triple>, o2: Node) returns (r: set<Triple>)
    ensures r == InhibitsAtC2(T, o2, Objects(T, o2, V(Capabilities)))
  {
    r := {};
    var caps := Objects(T, o2, V(Capabilities));
    var todo := caps;
    while todo != {}
      invariant todo <= caps
      invariant r == InhibitsAtC2(T, o2, caps - todo)
      decreases todo
    {
      var c2 :| c2 in todo;
      InhibitsAtC2Step(T, o2, caps - todo, c2);
      assert caps - (todo - {c2}) == (caps - todo) + {c2};
      todo := todo - {c2};
      if !Typed(T, c2, Capability) {
        continue;
      }
      var found := InhibitsVia(T, o2, c2);
      r := r + found;
    }
    assert caps - todo == caps;
  }

  /** The rule's loops: `new_triples` for the graph `T`. */
  method CollectInhibits(T: set<Triple>) returns (newTriples: set<Triple>)
    ensures newTriples == InhibitsFacts(T)
  {
    newTriples := {};
    var entities := Entities(T);
    var todo := entities;
    while todo != {}
      invariant todo <= entities
      invariant newTriples == InhibitsOver(T, entities - todo)
      decreases todo
    {
      var o2 :| o2 in todo;
      var found := InhibitsBy(T, o2);
      InhibitsOverStep(T, entities - todo, o2);
      assert entities - (todo - {o2}) == (entities - todo) + {o2};
      newTriples := newTriples + found;
      todo := todo - {o2};
    }
    assert entities - todo == entities;
  }

  /** `execute_rule_inhibits`. */
  method ExecuteRuleInhibits(g: Graph)
    modifies g
    ensures g.triples == InhibitsRule(old(g.triples)) && g.namespaces == old(g.namespaces)
  {
    var newTriples := CollectInhibits(g.triples);
    g.AddAll(newTriples);
  }

  // ---------------------------------------------------------------------
  // What inhibits means.

  /** `a` and `b` are distinct Entities, a Capability of `a` disables a
      Vulnerability that a Capability of `b` exploits. */
  ghost predicate InhibitionWitnessed(T: set<Triple>, a: Node, b: Node) {
    Typed(T, a, Entity) && Typed(T, b, Entity) && a != b
    && exists c2, v1, c3 ::
         Triple(a, V(Capabilities), c2) in T && Typed(T, c2, Capability)
         && Triple(c2, V(Disables), v1) in T && Typed(T, v1, Vulnerability)
         && Triple(b, V(Capabilities), c3) in T && Typed(T, c3, Capability)
         && Triple(c3, V(Exploits), v1) in T
  }

  lemma InhibitsFactWitnessed(T: set<Triple>, t: Triple)
    requires t in InhibitsFacts(T)
    ensures t == Triple(t.s, V(Inhibits), t.o) && t !in T
    ensures InhibitionWitnessed(T, t.s, t.o)
  {
    var o2 :| o2 in Entities(T) && t in InhibitsAtC2(T, o2, Objects(T, o2, V(Capabilities)));
    var c2 :| c2 in Objects(T, o2, V(Capabilities)) && Typed(T, c2, Capability)
              && t in InhibitsAtV1(T, o2, Objects(T, c2, V(Disables)));
    var v1 :| v1 in Objects(T, c2, V(Disables)) && Typed(T, v1, Vulnerability)
              && t in InhibitsAtO3(T, o2, v1, Entities(T));
    var o3 :| o3 in Entities(T) && o3 != o2 && t in InhibitsAtC3(T, o2, v1, o3, Objects(T, o3, V(Capabilities)));
    var c3 :| c3 in Objects(T, o3, V(Capabilities)) && Typed(T, c3, Capability) && Triple(c3, V(Exploits), v1) in T
              && Triple(o2, V(Inhibits), o3) !in T && t == Triple(o2, V(Inhibits), o3);
  }

  lemma WitnessedInhibitsFact(T: set<Triple>, a: Node, b: Node)
    requires InhibitionWitnessed(T, a, b) && Triple(a, V(Inhibits), b) !in T
    ensures Triple(a, V(Inhibits), b) in InhibitsFacts(T)
  {
    var t := Triple(a, V(Inhibits), b);
    var c2, v1, c3 :| Triple(a, V(Capabilities), c2) in T && Typed(T, c2, Capability)
         && Triple(c2, V(Disables), v1) in T && Typed(T, v1, Vulnerability)
         && Triple(b, V(Capabilities), c3) in T && Typed(T, c3, Capability)
         && Triple(c3, V(Exploits), v1) in T;
    assert t in InhibitsAtC3(T, a, v1, b, Objects(T, b, V(Capabilities)));
    assert t in InhibitsAtO3(T, a, v1, Entities(T));
    assert t in InhibitsAtV1(T, a, Objects(T, c2, V(Disables)));
    assert t in InhibitsAtC2(T, a, Objects(T, a, V(Capabilities)));
  }

  /** `a inhibits b` holds after execute_rule_inhibits exactly when it held
      before or the inhibition is witnessed. */
  lemma InhibitsMeaning(T: set<Triple>, a: Node, b: Node)
    ensures Triple(a, V(Inhibits), b) in InhibitsRule(T) <==> Triple(a, V(Inhibits), b) in T || InhibitionWitnessed(T, a, b)
  {
    if Triple(a, V(Inhibits), b) in InhibitsFacts(T) {
      InhibitsFactWitnessed(T, Triple(a, V(Inhibits), b));
    }
    if InhibitionWitnessed(T, a, b) && Triple(a, V(Inhibits), b) !in T {
      WitnessedInhibitsFact(T, a, b);
    }
  }

  /** The rule removes nothing and adds only inhibits facts. */
  lemma InhibitsOnlyAdds(T: set<Triple>)
    ensures T <= InhibitsRule(T)
    ensures forall t :: t in InhibitsRule(T) && t !in T ==> t.p == V(Inhibits)
  {
    forall t | t in InhibitsRule(T) && t !in T
      ensures t.p == V(Inhibits)
    {
      InhibitsFactWitnessed(T, t);
    }
  }

  /** The rule never derives that an entity inhibits itself. */
  lemma NoSelfInhibition(T: set<Triple>, a: Node)
    ensures Triple(a, V(Inhibits), a) in InhibitsRule(T) <==> Triple(a, V(Inhibits), a) in T
  {
    InhibitsMeaning(T, a, a);
  }

  /** Adding inhibits facts creates no new witness. */
  lemma InhibitionWitnessedShrinks(T: set<Triple>, R: set<Triple>, a: Node, b: Node)
    requires forall t :: t in R && t !in T ==> t.p == V(Inhibits)
    requires InhibitionWitnessed(R, a, b)
    ensures InhibitionWitnessed(T, a, b)
  {
    var c2, v1, c3 :| Triple(a, V(Capabilities), c2) in R && Typed(R, c2, Capability)
         && Triple(c2, V(Disables), v1) in R && Typed(R, v1, Vulnerability)
         && Triple(b, V(Capabilities), c3) in R && Typed(R, c3, Capability)
         && Triple(c3, V(Exploits), v1) in R;
    assert Typed(T, a, Entity) && Typed(T, b, Entity);
    assert Triple(a, V(Capabilities), c2) in T && Typed(T, c2, Capability);
    assert Triple(c2, V(Disables), v1) in T && Typed(T, v1, Vulnerability);
    assert Triple(b, V(Capabilities), c3) in T && Typed(T, c3, Capability);
    assert Triple(c3, V(Exploits), v1) in T;
  }

  /** Running execute_rule_inhibits a second time changes nothing. */
  lemma InhibitsIdempotent(T: set<Triple>)
    ensures InhibitsRule(InhibitsRule(T)) == InhibitsRule(T)
  {
    var R := InhibitsRule(T);
    InhibitsOnlyAdds(T);
    forall t | t in InhibitsFacts(R)
      ensures false
    {
      InhibitsFactWitnessed(R, t);
      InhibitionWitnessedShrinks(T, R, t.s, t.o);
      InhibitsMeaning(T, t.s, t.o);
    }
    assert InhibitsFacts(R) == {};
  }

  // =====================================================================
  // execute_rule_resilience

  /** The loop variables of one iteration of the rule's four loops. */
  datatype Trigger = Trigger(o1: Node, c1: Node, v1: Node, o2: Node, c2: Node, o3: Node, c3: Node)

  /** The conditions under which an iteration goes on to look for an
      existing Resilience: `o1` owns `c1` and `v1`, `o2` owns `c2`, `o3` owns
      `c3`, `o1` is neither `o2` nor `o3`, `c2` disables `v1`, `v1` exposes `c1`
      and `c3` exploits `v1`. */
  predicate IsTrigger(T: set<Triple>, tr: Trigger) {
    Triple(tr.o1, V(Capabilities), tr.c1) in T && Triple(tr.o1, V(Vulnerabilities), tr.v1) in T
    && Triple(tr.o2, V(Capabilities), tr.c2) in T && Triple(tr.o3, V(Capabilities), tr.c3) in T
    && tr.o1 != tr.o2 && tr.o1 != tr.o3
    && Triple(tr.c2, V(Disables), tr.v1) in T && Triple(tr.v1, V(Exposes), tr.c1) in T
    && Triple(tr.c3, V(Exploits), tr.v1) in T
  }

  /** `r` is a Resilience equivalent to the one the trigger asks for. */
  predicate Matches(T: set<Triple>, r: Node, tr: Trigger) {
    Triple(tr.o1, V(Resiliences), r) in T && Triple(r, V(Preserves), tr.c1) in T
    && Triple(r, V(PreservesAgainst), tr.c3) in T && Triple(r, V(PreservesDespite), tr.v1) in T
    && Triple(tr.c2, V(Sustains), r) in T
  }

  /** Some Resilience of the graph already matches the trigger. */
  predicate Preserved(T: set<Triple>, tr: Trigger) {
    exists r :: r in Subjects(T, V(Type), V(Resilience)) && Matches(T, r, tr)
  }

  /** The eight triples that describe a new Resilience `r` labelled `id`. */
  function Created(r: Node, id: string, tr: Trigger): set<Triple> {
    {Triple(r, V(Type), V(Resilience)), Triple(tr.o1, V(Resiliences), r), Triple(r, V(Preserves), tr.c1),
     Triple(r, V(PreservesAgainst), tr.c3), Triple(r, V(PreservesDespite), tr.v1), Triple(tr.c2, V(Sustains), r),
     Triple(r, V(Label), Lit(AStr(id))), Triple(r, V(State), V(Enabled))}
  }

  /** The node of the Resilience a trigger creates: the base prefix followed
      by the identifier `mint` chooses for it. */
  function ResilienceNode(base: string, mint: Trigger -> string, tr: Trigger): Node {
    Iri(base + mint(tr))
  }

  /** The triggers of the innermost loop, over the capability owners `S` as
      `(o3, c3)`. */
  function TriggersAt4(T: set<Triple>, o1: Node, c1: Node, v1: Node, o2: Node, c2: Node,
                       S: set<(Node, Node)>): set<Trigger> {
    set oc | oc in S && IsTrigger(T, Trigger(o1, c1, v1, o2, c2, oc.0, oc.1)) :: Trigger(o1, c1, v1, o2, c2, oc.0, oc.1)
  }

  /** The triggers of the third loop, over the capability owners `S` as `(o2, c2)`. */
  function TriggersAt3(T: set<Triple>, o1: Node, c1: Node, v1: Node, S: set<(Node, Node)>): set<Trigger> {
    set oc, tr | oc in S && tr in TriggersAt4(T, o1, c1, v1, oc.0, oc.1, SubjectObjects(T, V(Capabilities))) :: tr
  }

  /** The triggers of the second loop, over the vulnerability owners `S`,
      skipping those that are not `o1`. */
  function TriggersAt2(T: set<Triple>, o1: Node, c1: Node, S: set<(Node, Node)>): set<Trigger> {
    set ov, tr | ov in S && ov.0 == o1 && tr in TriggersAt3(T, o1, c1, ov.1, SubjectObjects(T, V(Capabilities))) :: tr
  }

  /** The triggers of the outer loop, over the capability owners `S` as `(o1, c1)`. */
  function TriggersOver(T: set<Triple>, S: set<(Node, Node)>): set<Trigger> {
    set oc, tr | oc in S && tr in TriggersAt2(T, oc.0, oc.1, SubjectObjects(T, V(Vulnerabilities))) :: tr
  }

  /** Every iteration that reaches the search for an existing Resilience. */
  function Triggers(T: set<Triple>): set<Trigger> {
    TriggersOver(T, SubjectObjects(T, V(Capabilities)))
  }

  /** `new_triples` after the iterations `P`: a new Resilience for each one
      that no existing Resilience matches. */
  function CreatedFor(T: set<Triple>, base: string, mint: Trigger -> string, P: set<Trigger>): set<Triple> {
    set tr, t | tr in P && !Preserved(T, tr) && t in Created(ResilienceNode(base, mint, tr), mint(tr), tr) :: t
  }

  /** The triple set one execution of the rule leaves, given the graph's
      base prefix and the identifiers `mint` draws. */
  function ResilienceRule(T: set<Triple>, base: string, mint: Trigger -> string): set<Triple> {
    if !HasSubjectFor(T, V(Type), V(Entity)) then T
    else T + CreatedFor(T, base, mint, Triggers(T))
  }

  lemma CreatedForStep(T: set<Triple>, base: string, mint: Trigger -> string, P: set<Trigger>, tr: Trigger)
    ensures CreatedFor(T, base, mint, P + {tr})
         == CreatedFor(T, base, mint, P)
            + (if Preserved(T, tr) then {} else Created(ResilienceNode(base, mint, tr), mint(tr), tr))
  {
  }

  lemma TriggersAt4Step(T: set<Triple>, o1: Node, c1: Node, v1: Node, o2: Node, c2: Node,
                        S: set<(Node, Node)>, oc: (Node, Node))
    ensures TriggersAt4(T, o1, c1, v1, o2, c2, S + {oc})
         == TriggersAt4(T, o1, c1, v1, o2, c2, S)
            + (if IsTrigger(T, Trigger(o1, c1, v1, o2, c2, oc.0, oc.1))
               then {Trigger(o1, c1, v1, o2, c2, oc.0, oc.1)} else {})
  {
  }

  lemma TriggersAt3Step(T: set<Triple>, o1: Node, c1: Node, v1: Node, S: set<(Node, Node)>, oc: (Node, Node))
    ensures TriggersAt3(T, o1, c1, v1, S + {oc})
         == TriggersAt3(T, o1, c1, v1, S) + TriggersAt4(T, o1, c1, v1, oc.0, oc.1, SubjectObjects(T, V(Capabilities)))
  {
  }

  lemma TriggersAt2Step(T: set<Triple>, o1: Node, c1: Node, S: set<(Node, Node)>, ov: (Node, Node))
    ensures TriggersAt2(T, o1, c1, S + {ov})
         == TriggersAt2(T, o1, c1, S)
            + (if ov.0 == o1 then TriggersAt3(T, o1, c1, ov.1, SubjectObjects(T, V(Capabilities))) else {})
  {
  }

  lemma TriggersOverStep(T: set<Triple>, S: set<(Node, Node)>, oc: (Node, Node))
    ensures TriggersOver(T, S + {oc})
         == TriggersOver(T, S) + TriggersAt2(T, oc.0, oc.1, SubjectObjects(T, V(Vulnerabilities)))
  {
  }

  /** The search for an existing Resilience, which stops at the first match. */
  method FindResilience(T: set<Triple>, tr: Trigger) returns (found: Option<Node>)
    ensures found.Some? ==> Typed(T, found.value, Resilience) && Matches(T, found.value, tr)
    ensures found.None? <==> !Preserved(T, tr)
  {
    var candidates := Subjects(T, V(Type), V(Resilience));
    var todo := candidates;
    while todo != {}
      invariant todo <= candidates
      invariant forall r :: r in candidates - todo ==> !Matches(T, r, tr)
      decreases todo
    {
      var r :| r in todo;
      if Matches(T, r, tr) {
        return Some(r);
      }
      todo := todo - {r};
    }
    return None;
  }

  /** The innermost loop, over the capability owners `(o3, c3)`, for one
      `(o1, c1)`, one `v1` of `o1` and one `(o2, c2)`. */
  method ResilienceAgainst(T: set<Triple>, base: string, mint: Trigger -> string,
                           o1: Node, c1: Node, v1: Node, o2: Node, c2: Node)
    returns (visited: set<Trigger>, r: set<Triple>)
    requires Triple(o1, V(Capabilities), c1) in T && Triple(o1, V(Vulnerabilities), v1) in T
    requires Triple(o2, V(Capabilities), c2) in T
    ensures visited == TriggersAt4(T, o1, c1, v1, o2, c2, SubjectObjects(T, V(Capabilities)))
    ensures r == CreatedFor(T, base, mint, visited)
  {
    visited, r := {}, {};
    var owners := SubjectObjects(T, V(Capabilities));
    var rest := owners;
    while rest != {}
      invariant rest <= owners
      invariant visited == TriggersAt4(T, o1, c1, v1, o2, c2, owners - rest)
      invariant r == CreatedFor(T, base, mint, visited)
      decreases rest
    {
      var oc3 :| oc3 in rest;
      var (o3, c3) := oc3;
      TriggersAt4Step(T, o1, c1, v1, o2, c2, owners - rest, oc3);
      assert owners - (rest - {oc3}) == (owners - rest) + {oc3};
      rest := rest - {oc3};
      if o1 == o2 || o1 == o3 {
        continue;
      }
      if !(Triple(c2, V(Disables), v1) in T && Triple(v1, V(Exposes), c1) in T && Triple(c3, V(Exploits), v1) in T) {
        continue;
      }
      var tr := Trigger(o1, c1, v1, o2, c2, o3, c3);
      CreatedForStep(T, base, mint, visited, tr);
      visited := visited + {tr};
      var existing := FindResilience(T, tr);
      if existing.None? {
        var id := mint(tr);
        r := r + Created(Iri(base + id), id, tr);
      }
    }
    assert owners - rest == owners;
  }

  /** The third loop, over the capability owners `(o2, c2)`, for one
      `(o1, c1)` and one `v1` of `o1`. */
  method ResilienceFor(T: set<Triple>, base: string, mint: Trigger -> string, o1: Node, c1: Node, v1: Node)
    returns (visited: set<Trigger>, r: set<Triple>)
    requires Triple(o1, V(Capabilities), c1) in T && Triple(o1, V(Vulnerabilities), v1) in T
    ensures visited == TriggersAt3(T, o1, c1, v1, SubjectObjects(T, V(Capabilities)))
    ensures r == CreatedFor(T, base, mint, visited)
  {
    visited, r := {}, {};
    var owners := SubjectObjects(T, V(Capabilities));
    var todo := owners;
    while todo != {}
      invariant todo <= owners
      invariant visited == TriggersAt3(T, o1, c1, v1, owners - todo)
      invariant r == CreatedFor(T, base, mint, visited)
      decreases todo
    {
      var oc2 :| oc2 in todo;
      TriggersAt3Step(T, o1, c1, v1, owners - todo, oc2);
      assert owners - (todo - {oc2}) == (owners - todo) + {oc2};
      todo := todo - {oc2};
      var found, created := ResilienceAgainst(T, base, mint, o1, c1, v1, oc2.0, oc2.1);
      CreatedForUnion(T, base, mint, visited, found);
      visited := visited + found;
      r := r + created;
    }
    assert owners - todo == owners;
  }

  /** The second loop, over the vulnerability owners, for one `(o1, c1)`. */
  method ResilienceFrom(T: set<Triple>, base: string, mint: Trigger -> string, o1: Node, c1: Node)
    returns (visited: set<Trigger>, r: set<Triple>)
    requires Triple(o1, V(Capabilities), c1) in T
    ensures visited == TriggersAt2(T, o1, c1, SubjectObjects(T, V(Vulnerabilities)))
    ensures r == CreatedFor(T, base, mint, visited)
  {
    visited, r := {}, {};
    var vulnerable := SubjectObjects(T, V(Vulnerabilities));
    var rest := vulnerable;
    while rest != {}
      invariant rest <= vulnerable
      invariant visited == TriggersAt2(T, o1, c1, vulnerable - rest)
      invariant r == CreatedFor(T, base, mint, visited)
      decreases rest
    {
      var ov :| ov in rest;
      var (o1Vuln, v1) := ov;
      TriggersAt2Step(T, o1, c1, vulnerable - rest, ov);
      assert vulnerable - (rest - {ov}) == (vulnerable - rest) + {ov};
      rest := rest - {ov};
      if o1 != o1Vuln {
        continue;
      }
      var found, created := ResilienceFor(T, base, mint, o1, c1, v1);
      CreatedForUnion(T, base, mint, visited, found);
      visited := visited + found;
      r := r + created;
    }
    assert vulnerable - rest == vulnerable;
  }

  /** The rule's loops: every trigger visited and `new_triples`. */
  method CollectResilience(T: set<Triple>, base: string, mint: Trigger -> string)
    returns (visited: set<Trigger>, newTriples: set<Triple>)
    ensures visited == Triggers(T)
    ensures newTriples == CreatedFor(T, base, mint, Triggers(T))
  {
    visited, newTriples := {}, {};
    var owners := SubjectObjects(T, V(Capabilities));
    var todo := owners;
    while todo != {}
      invariant todo <= owners
      invariant visited == TriggersOver(T, owners - todo)
      invariant newTriples == CreatedFor(T, base, mint, visited)
      decreases todo
    {
      var oc1 :| oc1 in todo;
      TriggersOverStep(T, owners - todo, oc1);
      assert owners - (todo - {oc1}) == (owners - todo) + {oc1};
      todo := todo - {oc1};
      var found, created := ResilienceFrom(T, base, mint, oc1.0, oc1.1);
      CreatedForUnion(T, base, mint, visited, found);
      visited := visited + found;
      newTriples := newTriples + created;
    }
    assert owners - todo == owners;
  }

  lemma CreatedForUnion(T: set<Triple>, base: string, mint: Trigger -> string, P: set<Trigger>, Q: set<Trigger>)
    ensures CreatedFor(T, base, mint, P + Q) == CreatedFor(T, base, mint, P) + CreatedFor(T, base, mint, Q)
  {
  }

  /** `execute_rule_resilience`, with the identifiers drawn by `mint`. */
  method ExecuteRuleResilience(g: Graph, mint: Trigger -> string)
    modifies g
    ensures g.triples == ResilienceRule(old(g.triples), GraphHandler.BasePrefix(old(g.namespaces)), mint)
    ensures g.namespaces == old(g.namespaces)
  {
    if !(exists t :: t in g.triples && t.p == V(Type) && t.o == V(Entity)) {
      return;
    }
    var base := GraphHandler.GetBasePrefix(g);
    var _, newTriples := CollectResilience(g.triples, base, mint);
    g.AddAll(newTriples);
  }

  // ---------------------------------------------------------------------
  // What the resilience rule guarantees.

  /** The four loops visit exactly the triggers. */
  lemma TriggersMeaning(T: set<Triple>, tr: Trigger)
    ensures tr in Triggers(T) <==> IsTrigger(T, tr)
  {
    var caps := SubjectObjects(T, V(Capabilities));
    var vulns := SubjectObjects(T, V(Vulnerabilities));
    if IsTrigger(T, tr) {
      assert tr in TriggersAt4(T, tr.o1, tr.c1, tr.v1, tr.o2, tr.c2, caps) by {
        assert (tr.o3, tr.c3) in caps;
      }
      assert tr in TriggersAt3(T, tr.o1, tr.c1, tr.v1, caps) by {
        assert (tr.o2, tr.c2) in caps;
      }
      assert tr in TriggersAt2(T, tr.o1, tr.c1, vulns) by {
        assert (tr.o1, tr.v1) in vulns;
      }
      assert (tr.o1, tr.c1) in caps;
    }
  }

  /** The rule removes nothing, and each triple it adds belongs to the new
      Resilience of a trigger that no existing Resilience matched. */
  lemma ResilienceOnlyCreates(T: set<Triple>, base: string, mint: Trigger -> string, t: Triple)
    requires t in ResilienceRule(T, base, mint) && t !in T
    ensures exists tr :: IsTrigger(T, tr) && !Preserved(T, tr)
                         && t in Created(ResilienceNode(base, mint, tr), mint(tr), tr)
  {
    var tr :| tr in Triggers(T) && !Preserved(T, tr) && t in Created(ResilienceNode(base, mint, tr), mint(tr), tr);
    TriggersMeaning(T, tr);
  }

  /** After the rule, when some subject is typed Entity, every trigger is
      matched by a Resilience; when none was before, the match is the new,
      enabled Resilience named by `mint`. */
  lemma ResilienceCreated(T: set<Triple>, base: string, mint: Trigger -> string, tr: Trigger)
    requires HasSubjectFor(T, V(Type), V(Entity)) && IsTrigger(T, tr)
    ensures Preserved(ResilienceRule(T, base, mint), tr)
    ensures !Preserved(T, tr) ==>
              Created(ResilienceNode(base, mint, tr), mint(tr), tr) <= ResilienceRule(T, base, mint)
  {
    var R := ResilienceRule(T, base, mint);
    TriggersMeaning(T, tr);
    if Preserved(T, tr) {
      var r :| r in Subjects(T, V(Type), V(Resilience)) && Matches(T, r, tr);
      assert r in Subjects(R, V(Type), V(Resilience)) && Matches(R, r, tr);
    } else {
      var r := ResilienceNode(base, mint, tr);
      forall t | t in Created(r, mint(tr), tr)
        ensures t in R
      {
        assert t in CreatedFor(T, base, mint, Triggers(T));
      }
      assert Triple(r, V(Type), V(Resilience)) in R;
      assert r in Subjects(R, V(Type), V(Resilience)) && Matches(R, r, tr);
    }
  }

  /** Without any Entity the rule does nothing. */
  lemma ResilienceNeedsEntity(T: set<Triple>, base: string, mint: Trigger -> string)
    ensures !HasSubjectFor(T, V(Type), V(Entity)) ==> ResilienceRule(T, base, mint) == T
    ensures T <= ResilienceRule(T, base, mint)
  {
  }

  /** The predicates of the triples the rule adds are those of `Created`. */
  lemma ResilienceAddedPredicate(T: set<Triple>, base: string, mint: Trigger -> string, t: Triple)
    requires t in ResilienceRule(T, base, mint) && t !in T
    ensures t.p in {V(Type), V(Resiliences), V(Preserves), V(PreservesAgainst), V(PreservesDespite),
                    V(Sustains), V(Label), V(State)}
  {
    ResilienceOnlyCreates(T, base, mint, t);
  }

  /** The only state the rule sets is a new Resilience's `enabled`. */
  lemma ResilienceAddsEnabledOnly(T: set<Triple>, base: string, mint: Trigger -> string, t: Triple)
    requires t in ResilienceRule(T, base, mint) && t !in T && t.p == V(State)
    ensures t.o == V(Enabled)
  {
    ResilienceOnlyCreates(T, base, mint, t);
    var tr :| IsTrigger(T, tr) && !Preserved(T, tr) && t in Created(ResilienceNode(base, mint, tr), mint(tr), tr);
    CreatedState(ResilienceNode(base, mint, tr), mint(tr), tr, t);
  }

  lemma CreatedState(r: Node, id: string, tr: Trigger, t: Triple)
    requires t in Created(r, id, tr) && t.p == V(State)
    ensures t.o == V(Enabled)
  {
  }

  /** A triple of a trigger's kind is in the graph after the rule only if it
      was before. */
  lemma TriggerTripleKept(T: set<Triple>, base: string, mint: Trigger -> string, t: Triple)
    requires t in ResilienceRule(T, base, mint)
    requires t.p in {V(Capabilities), V(Vulnerabilities), V(Disables), V(Exposes), V(Exploits)}
    ensures t in T
  {
    if t !in T {
      ResilienceAddedPredicate(T, base, mint, t);
    }
  }

  /** The triples the rule adds use none of the predicates a trigger is made of. */
  lemma ResilienceKeepsTriggers(T: set<Triple>, base: string, mint: Trigger -> string, tr: Trigger)
    ensures IsTrigger(ResilienceRule(T, base, mint), tr) <==> IsTrigger(T, tr)
  {
    if IsTrigger(ResilienceRule(T, base, mint), tr) {
      TriggerTripleKept(T, base, mint, Triple(tr.o1, V(Capabilities), tr.c1));
      TriggerTripleKept(T, base, mint, Triple(tr.o1, V(Vulnerabilities), tr.v1));
      TriggerTripleKept(T, base, mint, Triple(tr.o2, V(Capabilities), tr.c2));
      TriggerTripleKept(T, base, mint, Triple(tr.o3, V(Capabilities), tr.c3));
      TriggerTripleKept(T, base, mint, Triple(tr.c2, V(Disables), tr.v1));
      TriggerTripleKept(T, base, mint, Triple(tr.v1, V(Exposes), tr.c1));
      TriggerTripleKept(T, base, mint, Triple(tr.c3, V(Exploits), tr.v1));
    }
  }

  /** Deduplication: a second execution, whatever identifiers it would draw
      and whatever base it would use, adds nothing. */
  lemma ResilienceSecondRunNoop(T: set<Triple>, base: string, mint: Trigger -> string,
                                base2: string, mint2: Trigger -> string)
    ensures ResilienceRule(ResilienceRule(T, base, mint), base2, mint2) == ResilienceRule(T, base, mint)
  {
    var R := ResilienceRule(T, base, mint);
    if HasSubjectFor(T, V(Type), V(Entity)) {
      forall t | t in CreatedFor(R, base2, mint2, Triggers(R))
        ensures false
      {
        var tr :| tr in Triggers(R) && !Preserved(R, tr)
                  && t in Created(ResilienceNode(base2, mint2, tr), mint2(tr), tr);
        TriggersMeaning(R, tr);
        ResilienceKeepsTriggers(T, base, mint, tr);
        ResilienceCreated(T, base, mint, tr);
      }
      assert CreatedFor(R, base2, mint2, Triggers(R)) == {};
      var e :| e in T && e.p == V(Type) && e.o == V(Entity);
      assert e in R;
    }
  }

  // =====================================================================
  // execute_rule_succeeded_to_damage

  /** The loop variables of one iteration of the rule's six loops. */
  datatype Attack = Attack(ls: Node, o1: Node, o2: Node, c1: Node, v1: Node, c2: Node)

  /** `o1` and `o2` are distinct constructs of the LaderrSpecification `ls`,
      `o1` owns `c1` and `v1`, `o2` owns `c2`, `c2` exploits `v1`, `v1` exposes
      `c1`, and both `v1` and `c2` are enabled. */
  predicate IsSuccessfulAttack(T: set<Triple>, a: Attack) {
    Typed(T, a.ls, LaderrSpecification)
    && Triple(a.ls, V(Constructs), a.o1) in T && Triple(a.ls, V(Constructs), a.o2) in T && a.o1 != a.o2
    && Triple(a.o1, V(Capabilities), a.c1) in T && Triple(a.o1, V(Vulnerabilities), a.v1) in T
    && Triple(a.o2, V(Capabilities), a.c2) in T
    && Triple(a.c2, V(Exploits), a.v1) in T && Triple(a.v1, V(Exposes), a.c1) in T
    && Triple(a.v1, V(State), V(Enabled)) in T && Triple(a.c2, V(State), V(Enabled)) in T
  }

  /** The pair `(o1, o2)` is not skipped: `ls` is incident or `o2` is not yet
      known to have damaged `o1`. */
  predicate Considered(T: set<Triple>, a: Attack) {
    Triple(a.ls, V(ScenarioOf), V(Incident)) in T || Triple(a.o2, V(SucceededToDamage), a.o1) !in T
  }

  /** The innermost loop, over the capabilities `C` of `o2`. */
  function AttacksAtC2(T: set<Triple>, ls: Node, o1: Node, o2: Node, c1: Node, v1: Node, C: set<Node>): set<Attack> {
    set c2 | c2 in C && IsSuccessfulAttack(T, Attack(ls, o1, o2, c1, v1, c2))
             && Considered(T, Attack(ls, o1, o2, c1, v1, c2)) :: Attack(ls, o1, o2, c1, v1, c2)
  }

  /** The loop over the vulnerabilities `Vs` of `o1`. */
  function AttacksAtV1(T: set<Triple>, ls: Node, o1: Node, o2: Node, c1: Node, Vs: set<Node>): set<Attack> {
    set v1, a | v1 in Vs && a in AttacksAtC2(T, ls, o1, o2, c1, v1, Objects(T, o2, V(Capabilities))) :: a
  }

  /** The loop over the capabilities `C` of `o1`. */
  function AttacksAtC1(T: set<Triple>, ls: Node, o1: Node, o2: Node, C: set<Node>): set<Attack> {
    set c1, a | c1 in C && a in AttacksAtV1(T, ls, o1, o2, c1, Objects(T, o1, V(Vulnerabilities))) :: a
  }

  /** The loop over the constructs `O` of `ls` as `o2`. */
  function AttacksAtO2(T: set<Triple>, ls: Node, o1: Node, O: set<Node>): set<Attack> {
    set o2, a | o2 in O && a in AttacksAtC1(T, ls, o1, o2, Objects(T, o1, V(Capabilities))) :: a
  }

  /** The loop over the constructs `O` of `ls` as `o1`. */
  function AttacksAtO1(T: set<Triple>, ls: Node, O: set<Node>): set<Attack> {
    set o1, a | o1 in O && a in AttacksAtO2(T, ls, o1, Objects(T, ls, V(Constructs))) :: a
  }

  /** The outer loop, over the LaderrSpecifications `L`. */
  function AttacksOver(T: set<Triple>, L: set<Node>): set<Attack> {
    set ls, a | ls in L && a in AttacksAtO1(T, ls, Objects(T, ls, V(Constructs))) :: a
  }

  /** Every iteration that gets past all the rule's checks. */
  function Attacks(T: set<Triple>): set<Attack> {
    AttacksOver(T, Subjects(T, V(Type), V(LaderrSpecification)))
  }

  /** `new_triples` after the iterations `P`: the damage fact when it is not
      yet present, and the specification's not_resilient scenario. */
  function DamageFacts(T: set<Triple>, P: set<Attack>): set<Triple> {
    (set a | a in P && Triple(a.o2, V(SucceededToDamage), a.o1) !in T :: Triple(a.o2, V(SucceededToDamage), a.o1))
    + (set a | a in P :: Triple(a.ls, V(ScenarioOf), V(NotResilient)))
  }

  /** The triple set one execution of the rule leaves. */
  function SucceededToDamageRule(T: set<Triple>): set<Triple> {
    T + DamageFacts(T, Attacks(T))
  }

  lemma DamageFactsUnion(T: set<Triple>, P: set<Attack>, Q: set<Attack>)
    ensures DamageFacts(T, P + Q) == DamageFacts(T, P) + DamageFacts(T, Q)
  {
  }

  lemma AttacksAtC2Step(T: set<Triple>, ls: Node, o1: Node, o2: Node, c1: Node, v1: Node, C: set<Node>, c2: Node)
    ensures AttacksAtC2(T, ls, o1, o2, c1, v1, C + {c2})
         == AttacksAtC2(T, ls, o1, o2, c1, v1, C)
            + (if IsSuccessfulAttack(T, Attack(ls, o1, o2, c1, v1, c2)) && Considered(T, Attack(ls, o1, o2, c1, v1, c2))
               then {Attack(ls, o1, o2, c1, v1, c2)} else {})
  {
  }

  lemma AttacksAtV1Step(T: set<Triple>, ls: Node, o1: Node, o2: Node, c1: Node, Vs: set<Node>, v1: Node)
    ensures AttacksAtV1(T, ls, o1, o2, c1, Vs + {v1})
         == AttacksAtV1(T, ls, o1, o2, c1, Vs) + AttacksAtC2(T, ls, o1, o2, c1, v1, Objects(T, o2, V(Capabilities)))
  {
    AttacksAtV1Within(T, ls, o1, o2, c1, Vs, v1);
    AttacksAtV1Covers(T, ls, o1, o2, c1, Vs, v1);
  }

  lemma AttacksAtV1Within(T: set<Triple>, ls: Node, o1: Node, o2: Node, c1: Node, Vs: set<Node>, v1: Node)
    ensures AttacksAtV1(T, ls, o1, o2, c1, Vs + {v1})
         <= AttacksAtV1(T, ls, o1, o2, c1, Vs) + AttacksAtC2(T, ls, o1, o2, c1, v1, Objects(T, o2, V(Capabilities)))
  {
    var C := Objects(T, o2, V(Capabilities));
    forall a | a in AttacksAtV1(T, ls, o1, o2, c1, Vs + {v1})
      ensures a in AttacksAtV1(T, ls, o1, o2, c1, Vs) + AttacksAtC2(T, ls, o1, o2, c1, v1, C)
    {
      var w :| w in Vs + {v1} && a in AttacksAtC2(T, ls, o1, o2, c1, w, C);
    }
  }

  lemma AttacksAtV1Covers(T: set<Triple>, ls: Node, o1: Node, o2: Node, c1: Node, Vs: set<Node>, v1: Node)
    ensures AttacksAtV1(T, ls, o1, o2, c1, Vs) + AttacksAtC2(T, ls, o1, o2, c1, v1, Objects(T, o2, V(Capabilities)))
         <= AttacksAtV1(T, ls, o1, o2, c1, Vs + {v1})
  {
    var C := Objects(T, o2, V(Capabilities));
    forall a | a in AttacksAtV1(T, ls, o1, o2, c1, Vs)
      ensures a in AttacksAtV1(T, ls, o1, o2, c1, Vs + {v1})
    {
      var w :| w in Vs && a in AttacksAtC2(T, ls, o1, o2, c1, w, C);
    }
  }

  lemma AttacksAtC1Step(T: set<Triple>, ls: Node, o1: Node, o2: Node, C: set<Node>, c1: Node)
    ensures AttacksAtC1(T, ls, o1, o2, C + {c1})
         == AttacksAtC1(T, ls, o1, o2, C) + AttacksAtV1(T, ls, o1, o2, c1, Objects(T, o1, V(Vulnerabilities)))
  {
  }

  lemma AttacksAtO2Step(T: set<Triple>, ls: Node, o1: Node, O: set<Node>, o2: Node)
    ensures AttacksAtO2(T, ls, o1, O + {o2})
         == AttacksAtO2(T, ls, o1, O) + AttacksAtC1(T, ls, o1, o2, Objects(T, o1, V(Capabilities)))
  {
  }

  lemma AttacksAtO1Step(T: set<Triple>, ls: Node, O: set<Node>, o1: Node)
    ensures AttacksAtO1(T, ls, O + {o1})
         == AttacksAtO1(T, ls, O) + AttacksAtO2(T, ls, o1, Objects(T, ls, V(Constructs)))
  {
  }

  lemma AttacksOverStep(T: set<Triple>, L: set<Node>, ls: Node)
    ensures AttacksOver(T, L + {ls}) == AttacksOver(T, L) + AttacksAtO1(T, ls, Objects(T, ls, V(Constructs)))
  {
  }

  /** A skipped pair contributes no iteration. */
  lemma SkippedPairHasNoAttacks(T: set<Triple>, ls: Node, o1: Node, o2: Node)
    requires o1 == o2 || (Triple(ls, V(ScenarioOf), V(Incident)) !in T && Triple(o2, V(SucceededToDamage), o1) in T)
    ensures AttacksAtC1(T, ls, o1, o2, Objects(T, o1, V(Capabilities))) == {}
  {
    forall a | a in AttacksAtC1(T, ls, o1, o2, Objects(T, o1, V(Capabilities)))
      ensures false
    {
    }
  }

  /** The innermost loop, over the capabilities `c2` of `o2`, for one pair,
      one capability `c1` and one vulnerability `v1` of `o1`. */
  method AttacksThrough(T: set<Triple>, ls: Node, o1: Node, o2: Node, c1: Node, v1: Node, existing: bool)
    returns (ghost visited: set<Attack>, r: set<Triple>)
    requires Typed(T, ls, LaderrSpecification) && o1 != o2
    requires Triple(ls, V(Constructs), o1) in T && Triple(ls, V(Constructs), o2) in T
    requires Triple(o1, V(Capabilities), c1) in T && Triple(o1, V(Vulnerabilities), v1) in T
    requires existing == (Triple(o2, V(SucceededToDamage), o1) in T)
    requires Triple(ls, V(ScenarioOf), V(Incident)) in T || !existing
    ensures visited == AttacksAtC2(T, ls, o1, o2, c1, v1, Objects(T, o2, V(Capabilities)))
    ensures r == DamageFacts(T, AttacksAtC2(T, ls, o1, o2, c1, v1, Objects(T, o2, V(Capabilities))))
  {
    visited, r := {}, {};
    var owned := Objects(T, o2, V(Capabilities));
    var rest := owned;
    while rest != {}
      invariant rest <= owned
      invariant visited == AttacksAtC2(T, ls, o1, o2, c1, v1, owned - rest)
      invariant r == DamageFacts(T, visited)
      decreases rest
    {
      var c2 :| c2 in rest;
      AttacksAtC2Step(T, ls, o1, o2, c1, v1, owned - rest, c2);
      assert owned - (rest - {c2}) == (owned - rest) + {c2};
      rest := rest - {c2};
      if !(Triple(c2, V(Exploits), v1) in T && Triple(v1, V(Exposes), c1) in T
           && Triple(v1, V(State), V(Enabled)) in T && Triple(c2, V(State), V(Enabled)) in T) {
        continue;
      }
      ghost var a := Attack(ls, o1, o2, c1, v1, c2);
      DamageFactsUnion(T, visited, {a});
      visited := visited + {a};
      if !existing {
        r := r + {Triple(o2, V(SucceededToDamage), o1)};
      }
      r := r + {Triple(ls, V(ScenarioOf), V(NotResilient))};
    }
    assert owned - rest == owned;
  }

  /** The loop over the vulnerabilities `v1` of `o1`, for one pair and one
      capability `c1` of `o1`. */
  method AttacksWith(T: set<Triple>, ls: Node, o1: Node, o2: Node, c1: Node, existing: bool)
    returns (ghost visited: set<Attack>, r: set<Triple>)
    requires Typed(T, ls, LaderrSpecification) && o1 != o2
    requires Triple(ls, V(Constructs), o1) in T && Triple(ls, V(Constructs), o2) in T
    requires Triple(o1, V(Capabilities), c1) in T
    requires existing == (Triple(o2, V(SucceededToDamage), o1) in T)
    requires Triple(ls, V(ScenarioOf), V(Incident)) in T || !existing
    ensures visited == AttacksAtV1(T, ls, o1, o2, c1, Objects(T, o1, V(Vulnerabilities)))
    ensures r == DamageFacts(T, AttacksAtV1(T, ls, o1, o2, c1, Objects(T, o1, V(Vulnerabilities))))
  {
    visited, r := {}, {};
    var vulns := Objects(T, o1, V(Vulnerabilities));
    var todo := vulns;
    while todo != {}
      invariant todo <= vulns
      invariant visited == AttacksAtV1(T, ls, o1, o2, c1, vulns - todo)
      invariant r == DamageFacts(T, visited)
      decreases todo
    {
      var v1 :| v1 in todo;
      AttacksAtV1Step(T, ls, o1, o2, c1, vulns - todo, v1);
      assert vulns - (todo - {v1}) == (vulns - todo) + {v1};
      todo := todo - {v1};
      ghost var found;
      var created;
      found, created := AttacksThrough(T, ls, o1, o2, c1, v1, existing);
      DamageFactsUnion(T, visited, found);
      visited := visited + found;
      r := r + created;
    }
    assert vulns - todo == vulns;
  }

  /** The loop over the capabilities `c1` of `o1`, for one pair that is not
      skipped. */
  method AttacksBetween(T: set<Triple>, ls: Node, o1: Node, o2: Node, existing: bool)
    returns (ghost visited: set<Attack>, r: set<Triple>)
    requires Typed(T, ls, LaderrSpecification) && o1 != o2
    requires Triple(ls, V(Constructs), o1) in T && Triple(ls, V(Constructs), o2) in T
    requires existing == (Triple(o2, V(SucceededToDamage), o1) in T)
    requires Triple(ls, V(ScenarioOf), V(Incident)) in T || !existing
    ensures visited == AttacksAtC1(T, ls, o1, o2, Objects(T, o1, V(Capabilities)))
    ensures r == DamageFacts(T, AttacksAtC1(T, ls, o1, o2, Objects(T, o1, V(Capabilities))))
  {
    visited, r := {}, {};
    var caps := Objects(T, o1, V(Capabilities));
    var rest := caps;
    while rest != {}
      invariant rest <= caps
      invariant visited == AttacksAtC1(T, ls, o1, o2, caps - rest)
      invariant r == DamageFacts(T, visited)
      decreases rest
    {
      var c1 :| c1 in rest;
      AttacksAtC1Step(T, ls, o1, o2, caps - rest, c1);
      assert caps - (rest - {c1}) == (caps - rest) + {c1};
      rest := rest - {c1};
      ghost var found;
      var created;
      found, created := AttacksWith(T, ls, o1, o2, c1, existing);
      DamageFactsUnion(T, visited, found);
      visited := visited + found;
      r := r + created;
    }
    assert caps - rest == caps;
  }

  /** The loop over the constructs `o2` of `ls`, for one construct `o1`. */
  method AttacksFrom(T: set<Triple>, ls: Node, o1: Node, isIncident: bool)
    returns (ghost visited: set<Attack>, r: set<Triple>)
    requires Typed(T, ls, LaderrSpecification) && Triple(ls, V(Constructs), o1) in T
    requires isIncident == (Triple(ls, V(ScenarioOf), V(Incident)) in T)
    ensures visited == AttacksAtO2(T, ls, o1, Objects(T, ls, V(Constructs)))
    ensures r == DamageFacts(T, AttacksAtO2(T, ls, o1, Objects(T, ls, V(Constructs))))
  {
    visited, r := {}, {};
    var entities := Objects(T, ls, V(Constructs));
    var todo := entities;
    while todo != {}
      invariant todo <= entities
      invariant visited == AttacksAtO2(T, ls, o1, entities - todo)
      invariant r == DamageFacts(T, visited)
      decreases todo
    {
      var o2 :| o2 in todo;
      AttacksAtO2Step(T, ls, o1, entities - todo, o2);
      assert entities - (todo - {o2}) == (entities - todo) + {o2};
      todo := todo - {o2};
      if o1 == o2 {
        SkippedPairHasNoAttacks(T, ls, o1, o2);
        continue;
      }
      var existing := Triple(o2, V(SucceededToDamage), o1) in T;
      if !isIncident && existing {
        SkippedPairHasNoAttacks(T, ls, o1, o2);
        continue;
      }
      ghost var found;
      var created;
      found, created := AttacksBetween(T, ls, o1, o2, existing);
      DamageFactsUnion(T, visited, found);
      visited := visited + found;
      r := r + created;
    }
    assert entities - todo == entities;
  }

  /** The loop over the constructs `o1` of one LaderrSpecification `ls`. */
  method AttacksIn(T: set<Triple>, ls: Node) returns (ghost visited: set<Attack>, r: set<Triple>)
    requires Typed(T, ls, LaderrSpecification)
    ensures visited == AttacksAtO1(T, ls, Objects(T, ls, V(Constructs)))
    ensures r == DamageFacts(T, AttacksAtO1(T, ls, Objects(T, ls, V(Constructs))))
  {
    visited, r := {}, {};
    var isIncident := Triple(ls, V(ScenarioOf), V(Incident)) in T;
    var entities := Objects(T, ls, V(Constructs));
    var rest := entities;
    while rest != {}
      invariant rest <= entities
      invariant visited == AttacksAtO1(T, ls, entities - rest)
      invariant r == DamageFacts(T, visited)
      decreases rest
    {
      var o1 :| o1 in rest;
      AttacksAtO1Step(T, ls, entities - rest, o1);
      assert entities - (rest - {o1}) == (entities - rest) + {o1};
      rest := rest - {o1};
      ghost var found;
      var created;
      found, created := AttacksFrom(T, ls, o1, isIncident);
      DamageFactsUnion(T, visited, found);
      visited := visited + found;
      r := r + created;
    }
    assert entities - rest == entities;
  }

  /** The rule's loops: every iteration that gets past the checks, and
      `new_triples`. */
  method CollectSucceeded(T: set<Triple>) returns (ghost visited: set<Attack>, newTriples: set<Triple>)
    ensures visited == Attacks(T)
    ensures newTriples == DamageFacts(T, Attacks(T))
  {
    visited, newTriples := {}, {};
    var specs := Subjects(T, V(Type), V(LaderrSpecification));
    var todo := specs;
    while todo != {}
      invariant todo <= specs
      invariant visited == AttacksOver(T, specs - todo)
      invariant newTriples == DamageFacts(T, visited)
      decreases todo
    {
      var ls :| ls in todo;
      AttacksOverStep(T, specs - todo, ls);
      assert specs - (todo - {ls}) == (specs - todo) + {ls};
      todo := todo - {ls};
      ghost var found;
      var created;
      found, created := AttacksIn(T, ls);
      DamageFactsUnion(T, visited, found);
      visited := visited + found;
      newTriples := newTriples + created;
    }
    assert specs - todo == specs;
  }

  /** `execute_rule_succeeded_to_damage`. */
  method ExecuteRuleSucceededToDamage(g: Graph)
    modifies g
    ensures g.triples == SucceededToDamageRule(old(g.triples)) && g.namespaces == old(g.namespaces)
  {
    ghost var attacks;
    var newTriples;
    attacks, newTriples := CollectSucceeded(g.triples);
    g.AddAll(newTriples);
  }

  /** The iterations that get past all the checks are exactly the successful
      attacks whose pair is not skipped. */
  lemma AttacksMeaning(T: set<Triple>, a: Attack)
    ensures a in Attacks(T) <==> IsSuccessfulAttack(T, a) && Considered(T, a)
  {
    if IsSuccessfulAttack(T, a) && Considered(T, a) {
      var constructs := Objects(T, a.ls, V(Constructs));
      assert a in AttacksAtC2(T, a.ls, a.o1, a.o2, a.c1, a.v1, Objects(T, a.o2, V(Capabilities)));
      assert a in AttacksAtV1(T, a.ls, a.o1, a.o2, a.c1, Objects(T, a.o1, V(Vulnerabilities)));
      assert a in AttacksAtC1(T, a.ls, a.o1, a.o2, Objects(T, a.o1, V(Capabilities)));
      assert a in AttacksAtO2(T, a.ls, a.o1, constructs);
      assert a in AttacksAtO1(T, a.ls, constructs);
      assert a.ls in Subjects(T, V(Type), V(LaderrSpecification));
    }
    if a in Attacks(T) {
      var ls :| ls in Subjects(T, V(Type), V(LaderrSpecification))
                && a in AttacksAtO1(T, ls, Objects(T, ls, V(Constructs)));
      var o1 :| o1 in Objects(T, ls, V(Constructs)) && a in AttacksAtO2(T, ls, o1, Objects(T, ls, V(Constructs)));
      var o2 :| o2 in Objects(T, ls, V(Constructs)) && a in AttacksAtC1(T, ls, o1, o2, Objects(T, o1, V(Capabilities)));
      var c1 :| c1 in Objects(T, o1, V(Capabilities))
                && a in AttacksAtV1(T, ls, o1, o2, c1, Objects(T, o1, V(Vulnerabilities)));
      var v1 :| v1 in Objects(T, o1, V(Vulnerabilities))
                && a in AttacksAtC2(T, ls, o1, o2, c1, v1, Objects(T, o2, V(Capabilities)));
    }
  }

  /** `o2 succeededToDamage o1` holds after the rule exactly when it held
      before or some successful attack of `o2` on `o1` exists within one
      LaderrSpecification. */
  lemma SucceededToDamageMeaning(T: set<Triple>, o2: Node, o1: Node)
    ensures Triple(o2, V(SucceededToDamage), o1) in SucceededToDamageRule(T)
        <==> Triple(o2, V(SucceededToDamage), o1) in T
             || exists ls, c1, v1, c2 :: IsSuccessfulAttack(T, Attack(ls, o1, o2, c1, v1, c2))
  {
    var t := Triple(o2, V(SucceededToDamage), o1);
    if t !in T && exists ls, c1, v1, c2 :: IsSuccessfulAttack(T, Attack(ls, o1, o2, c1, v1, c2)) {
      var ls, c1, v1, c2 :| IsSuccessfulAttack(T, Attack(ls, o1, o2, c1, v1, c2));
      AttacksMeaning(T, Attack(ls, o1, o2, c1, v1, c2));
    }
    if t in SucceededToDamageRule(T) && t !in T {
      var a :| a in Attacks(T) && Triple(a.o2, V(SucceededToDamage), a.o1) !in T
               && t == Triple(a.o2, V(SucceededToDamage), a.o1);
      AttacksMeaning(T, a);
    }
  }

  /** `ls scenario not_resilient` holds after the rule exactly when it held
      before or some successful attack within `ls` was not skipped: a pair is
      skipped only when `ls` is not incident and the damage fact already
      exists. */
  lemma NotResilientMeaning(T: set<Triple>, ls: Node)
    ensures Triple(ls, V(ScenarioOf), V(NotResilient)) in SucceededToDamageRule(T)
        <==> Triple(ls, V(ScenarioOf), V(NotResilient)) in T
             || exists o1, o2, c1, v1, c2 :: IsSuccessfulAttack(T, Attack(ls, o1, o2, c1, v1, c2))
                                             && Considered(T, Attack(ls, o1, o2, c1, v1, c2))
  {
    var t := Triple(ls, V(ScenarioOf), V(NotResilient));
    if exists o1, o2, c1, v1, c2 :: IsSuccessfulAttack(T, Attack(ls, o1, o2, c1, v1, c2))
                                   && Considered(T, Attack(ls, o1, o2, c1, v1, c2)) {
      var o1, o2, c1, v1, c2 :| IsSuccessfulAttack(T, Attack(ls, o1, o2, c1, v1, c2))
                                && Considered(T, Attack(ls, o1, o2, c1, v1, c2));
      AttacksMeaning(T, Attack(ls, o1, o2, c1, v1, c2));
    }
    if t in SucceededToDamageRule(T) && t !in T {
      var a :| a in Attacks(T) && t == Triple(a.ls, V(ScenarioOf), V(NotResilient));
      AttacksMeaning(T, a);
    }
  }

  /** The rule removes nothing and adds only damage facts and not_resilient
      scenarios; without a LaderrSpecification it adds nothing at all. */
  lemma SucceededToDamageOnlyAdds(T: set<Triple>)
    ensures T <= SucceededToDamageRule(T)
    ensures forall t :: t in SucceededToDamageRule(T) && t !in T ==>
              t.p == V(SucceededToDamage) || (t.p == V(ScenarioOf) && t.o == V(NotResilient))
    ensures !HasSubjectFor(T, V(Type), V(LaderrSpecification)) ==> SucceededToDamageRule(T) == T
  {
    if !HasSubjectFor(T, V(Type), V(LaderrSpecification)) {
      forall a | a in Attacks(T)
        ensures false
      {
        AttacksMeaning(T, a);
      }
    }
  }

  // =====================================================================
  // execute_rule_failed_to_damage

  /** The loop variables of one iteration of the rule's three loops. */
  datatype Attempt = Attempt(o1: Node, c1: Node, v1: Node, o2: Node, c2: Node)

  /** `o1` owns `c1` and `v1`, `o2` owns `c2`, `c2` exploits `v1`, `v1` exposes
      `c1`, `v1` is disabled and `c2` is enabled. */
  predicate IsFailedAttempt(T: set<Triple>, a: Attempt) {
    Triple(a.o1, V(Capabilities), a.c1) in T && Triple(a.o1, V(Vulnerabilities), a.v1) in T
    && Triple(a.o2, V(Capabilities), a.c2) in T
    && Triple(a.c2, V(Exploits), a.v1) in T && Triple(a.v1, V(Exposes), a.c1) in T
    && Triple(a.v1, V(State), V(Disabled)) in T && Triple(a.c2, V(State), V(Enabled)) in T
  }

  /** The innermost loop, over the capability owners `S` as `(o2, c2)`. */
  function FailedAt3(T: set<Triple>, o1: Node, c1: Node, v1: Node, S: set<(Node, Node)>): set<Triple> {
    set oc | oc in S && IsFailedAttempt(T, Attempt(o1, c1, v1, oc.0, oc.1))
             && Triple(oc.0, V(FailedToDamage), o1) !in T :: Triple(oc.0, V(FailedToDamage), o1)
  }

  /** The second loop, over the vulnerability owners `S`, skipping those
      that are not `o1`. */
  function FailedAt2(T: set<Triple>, o1: Node, c1: Node, S: set<(Node, Node)>): set<Triple> {
    set ov, t | ov in S && ov.0 == o1 && t in FailedAt3(T, o1, c1, ov.1, SubjectObjects(T, V(Capabilities))) :: t
  }

  /** The outer loop, over the capability owners `S` as `(o1, c1)`. */
  function FailedOver(T: set<Triple>, S: set<(Node, Node)>): set<Triple> {
    set oc, t | oc in S && t in FailedAt2(T, oc.0, oc.1, SubjectObjects(T, V(Vulnerabilities))) :: t
  }

  /** `new_triples` of the rule. */
  function FailedFacts(T: set<Triple>): set<Triple> {
    FailedOver(T, SubjectObjects(T, V(Capabilities)))
  }

  /** The triple set one execution of the rule leaves. */
  function FailedToDamageRule(T: set<Triple>): set<Triple> {
    T + FailedFacts(T)
  }

  lemma FailedAt3Step(T: set<Triple>, o1: Node, c1: Node, v1: Node, S: set<(Node, Node)>, oc: (Node, Node))
    ensures FailedAt3(T, o1, c1, v1, S + {oc})
         == FailedAt3(T, o1, c1, v1, S)
            + (if IsFailedAttempt(T, Attempt(o1, c1, v1, oc.0, oc.1)) && Triple(oc.0, V(FailedToDamage), o1) !in T
               then {Triple(oc.0, V(FailedToDamage), o1)} else {})
  {
  }

  lemma FailedAt2Step(T: set<Triple>, o1: Node, c1: Node, S: set<(Node, Node)>, ov: (Node, Node))
    ensures FailedAt2(T, o1, c1, S + {ov})
         == FailedAt2(T, o1, c1, S)
            + (if ov.0 == o1 then FailedAt3(T, o1, c1, ov.1, SubjectObjects(T, V(Capabilities))) else {})
  {
  }

  lemma FailedOverStep(T: set<Triple>, S: set<(Node, Node)>, oc: (Node, Node))
    ensures FailedOver(T, S + {oc}) == FailedOver(T, S) + FailedAt2(T, oc.0, oc.1, SubjectObjects(T, V(Vulnerabilities)))
  {
  }

  /** The innermost loop for one `(o1, c1)` and one `v1` of `o1`. */
  method FailedFor(T: set<Triple>, o1: Node, c1: Node, v1: Node) returns (r: set<Triple>)
    requires Triple(o1, V(Capabilities), c1) in T && Triple(o1, V(Vulnerabilities), v1) in T
    ensures r == FailedAt3(T, o1, c1, v1, SubjectObjects(T, V(Capabilities)))
  {
    r := {};
    var owners := SubjectObjects(T, V(Capabilities));
    var todo := owners;
    while todo != {}
      invariant todo <= owners
      invariant r == FailedAt3(T, o1, c1, v1, owners - todo)
      decreases todo
    {
      var oc2 :| oc2 in todo;
      var (o2, c2) := oc2;
      FailedAt3Step(T, o1, c1, v1, owners - todo, oc2);
      assert owners - (todo - {oc2}) == (owners - todo) + {oc2};
      todo := todo - {oc2};
      if Triple(c2, V(Exploits), v1) !in T {
        continue;
      }
      if Triple(v1, V(Exposes), c1) !in T {
        continue;
      }
      if Triple(v1, V(State), V(Disabled)) !in T || Triple(c2, V(State), V(Enabled)) !in T {
        continue;
      }
      if Triple(o2, V(FailedToDamage), o1) !in T {
        r := r + {Triple(o2, V(FailedToDamage), o1)};
      }
    }
    assert owners - todo == owners;
  }

  /** The second loop, over the vulnerability owners, for one `(o1, c1)`. */
  method FailedFrom(T: set<Triple>, o1: Node, c1: Node) returns (r: set<Triple>)
    requires Triple(o1, V(Capabilities), c1) in T
    ensures r == FailedAt2(T, o1, c1, SubjectObjects(T, V(Vulnerabilities)))
  {
    r := {};
    var vulnerable := SubjectObjects(T, V(Vulnerabilities));
    var rest := vulnerable;
    while rest != {}
      invariant rest <= vulnerable
      invariant r == FailedAt2(T, o1, c1, vulnerable - rest)
      decreases rest
    {
      var ov :| ov in rest;
      var (o1Vuln, v1) := ov;
      FailedAt2Step(T, o1, c1, vulnerable - rest, ov);
      assert vulnerable - (rest - {ov}) == (vulnerable - rest) + {ov};
      rest := rest - {ov};
      if o1 != o1Vuln {
        continue;
      }
      var found := FailedFor(T, o1, c1, v1);
      r := r + found;
    }
    assert vulnerable - rest == vulnerable;
  }

  /** The rule's loops: `new_triples` for the graph `T`. */
  method CollectFailed(T: set<Triple>) returns (newTriples: set<Triple>)
    ensures newTriples == FailedFacts(T)
  {
    newTriples := {};
    var owners := SubjectObjects(T, V(Capabilities));
    var todo := owners;
    while todo != {}
      invariant todo <= owners
      invariant newTriples == FailedOver(T, owners - todo)
      decreases todo
    {
      var oc1 :| oc1 in todo;
      FailedOverStep(T, owners - todo, oc1);
      assert owners - (todo - {oc1}) == (owners - todo) + {oc1};
      todo := todo - {oc1};
      var found := FailedFrom(T, oc1.0, oc1.1);
      newTriples := newTriples + found;
    }
    assert owners - todo == owners;
  }

  /** `execute_rule_failed_to_damage`. */
  method ExecuteRuleFailedToDamage(g: Graph)
    modifies g
    ensures g.triples == FailedToDamageRule(old(g.triples)) && g.namespaces == old(g.namespaces)
  {
    var newTriples := CollectFailed(g.triples);
    g.AddAll(newTriples);
  }

  /** `o2 failedToDamage o1` holds after the rule exactly when it held before
      or some attempt of `o2` on `o1` met a disabled vulnerability with an
      enabled capability; the rule adds nothing else. */
  lemma FailedToDamageMeaning(T: set<Triple>, o2: Node, o1: Node)
    ensures Triple(o2, V(FailedToDamage), o1) in FailedToDamageRule(T)
        <==> Triple(o2, V(FailedToDamage), o1) in T
             || exists c1, v1, c2 :: IsFailedAttempt(T, Attempt(o1, c1, v1, o2, c2))
    ensures forall t :: t in FailedToDamageRule(T) && t !in T ==> t.p == V(FailedToDamage)
  {
    var t := Triple(o2, V(FailedToDamage), o1);
    var caps := SubjectObjects(T, V(Capabilities));
    var vulns := SubjectObjects(T, V(Vulnerabilities));
    if t !in T && exists c1, v1, c2 :: IsFailedAttempt(T, Attempt(o1, c1, v1, o2, c2)) {
      var c1, v1, c2 :| IsFailedAttempt(T, Attempt(o1, c1, v1, o2, c2));
      assert t in FailedAt3(T, o1, c1, v1, caps) by {
        assert (o2, c2) in caps;
      }
      assert t in FailedAt2(T, o1, c1, vulns) by {
        assert (o1, v1) in vulns;
      }
      assert (o1, c1) in caps;
      assert t in FailedFacts(T);
    }
    if t in FailedFacts(T) {
      var oc1 :| oc1 in caps && t in FailedAt2(T, oc1.0, oc1.1, vulns);
      var ov :| ov in vulns && ov.0 == oc1.0 && t in FailedAt3(T, oc1.0, oc1.1, ov.1, caps);
      var oc2 :| oc2 in caps && IsFailedAttempt(T, Attempt(oc1.0, oc1.1, ov.1, oc2.0, oc2.1))
                 && t == Triple(oc2.0, V(FailedToDamage), oc1.0);
      assert IsFailedAttempt(T, Attempt(o1, oc1.1, ov.1, o2, oc2.1));
    }
  }

  /** One witness never yields both outcomes: when `v1` does not hold both
      states, a failed attempt on it is never also a successful attack with
      the same capabilities, vulnerability and entities. */
  lemma DamageOutcomesExclusive(T: set<Triple>, ls: Node, o1: Node, o2: Node, c1: Node, v1: Node, c2: Node)
    requires !(Triple(v1, V(State), V(Enabled)) in T && Triple(v1, V(State), V(Disabled)) in T)
    ensures !(IsFailedAttempt(T, Attempt(o1, c1, v1, o2, c2)) && IsSuccessfulAttack(T, Attack(ls, o1, o2, c1, v1, c2)))
  {
  }

  // =====================================================================
  // execute_rule_scenario_resilient

  /** Some construct of `ls` owns a vulnerability whose state is disabled. */
  predicate HasDisabledVulnerability(T: set<Triple>, ls: Node) {
    exists o :: o in Objects(T, ls, V(Constructs))
      && exists v :: v in Objects(T, o, V(Vulnerabilities)) && Triple(v, V(State), V(Disabled)) in T
  }

  /** The specifications whose scenario the rule turns to resilient. */
  function TurnedResilient(T: set<Triple>): set<Node> {
    set ls | ls in Subjects(T, V(Type), V(LaderrSpecification))
             && Triple(ls, V(ScenarioOf), V(Incident)) in T && HasDisabledVulnerability(T, ls)
  }

  /** The triple set one execution of the rule leaves. */
  function ScenarioResilientRule(T: set<Triple>): set<Triple> {
    var L := TurnedResilient(T);
    (T - set ls | ls in L :: Triple(ls, V(ScenarioOf), V(Incident)))
    + set ls | ls in L :: Triple(ls, V(ScenarioOf), V(Resilient))
  }

  /** The search of the rule's two inner loops, which stop at the first
      disabled vulnerability. */
  method SearchDisabledVulnerability(T: set<Triple>, ls: Node) returns (found: bool)
    ensures found == HasDisabledVulnerability(T, ls)
  {
    found := false;
    var constructs := Objects(T, ls, V(Constructs));
    var todo := constructs;
    while todo != {}
      invariant todo <= constructs
      invariant !found
      invariant forall o :: o in constructs - todo ==>
                  forall v :: v in Objects(T, o, V(Vulnerabilities)) ==> Triple(v, V(State), V(Disabled)) !in T
      decreases todo
    {
      var o :| o in todo;
      var vulns := Objects(T, o, V(Vulnerabilities));
      var rest := vulns;
      while rest != {}
        invariant rest <= vulns
        invariant forall v :: v in vulns - rest ==> Triple(v, V(State), V(Disabled)) !in T
        decreases rest
      {
        var v :| v in rest;
        if Triple(v, V(State), V(Disabled)) in T {
          found := true;
          break;
        }
        rest := rest - {v};
      }
      if found {
        return;
      }
      todo := todo - {o};
    }
  }

  /** The rule's loop: the triples to remove and to add. */
  method CollectScenarioResilient(T: set<Triple>) returns (newTriples: set<Triple>, removedTriples: set<Triple>)
    ensures removedTriples == set ls | ls in TurnedResilient(T) :: Triple(ls, V(ScenarioOf), V(Incident))
    ensures newTriples == set ls | ls in TurnedResilient(T) :: Triple(ls, V(ScenarioOf), V(Resilient))
  {
    newTriples, removedTriples := {}, {};
    var specs := Subjects(T, V(Type), V(LaderrSpecification));
    var todo := specs;
    ghost var turned: set<Node> := {};
    while todo != {}
      invariant todo <= specs
      invariant turned == set ls | ls in specs - todo && Triple(ls, V(ScenarioOf), V(Incident)) in T
                                   && HasDisabledVulnerability(T, ls)
      invariant removedTriples == set ls | ls in turned :: Triple(ls, V(ScenarioOf), V(Incident))
      invariant newTriples == set ls | ls in turned :: Triple(ls, V(ScenarioOf), V(Resilient))
      decreases todo
    {
      var ls :| ls in todo;
      assert specs - (todo - {ls}) == (specs - todo) + {ls};
      todo := todo - {ls};
      if Triple(ls, V(ScenarioOf), V(Incident)) !in T {
        continue;
      }
      var shouldBeResilient := SearchDisabledVulnerability(T, ls);
      if shouldBeResilient {
        removedTriples := removedTriples + {Triple(ls, V(ScenarioOf), V(Incident))};
        newTriples := newTriples + {Triple(ls, V(ScenarioOf), V(Resilient))};
        turned := turned + {ls};
      }
    }
    assert specs - todo == specs;
  }

  /** `execute_rule_scenario_resilient`. */
  method ExecuteRuleScenarioResilient(g: Graph)
    modifies g
    ensures g.triples == ScenarioResilientRule(old(g.triples)) && g.namespaces == old(g.namespaces)
  {
    var newTriples, removedTriples := CollectScenarioResilient(g.triples);
    g.RemoveAll(removedTriples);
    g.AddAll(newTriples);
  }

  /** An incident specification with a construct owning a disabled
      vulnerability ends with scenario resilient and not incident; every
      other specification keeps exactly the triples it had. */
  lemma ScenarioResilientMeaning(T: set<Triple>, ls: Node)
    ensures Typed(T, ls, LaderrSpecification) && Triple(ls, V(ScenarioOf), V(Incident)) in T
            && HasDisabledVulnerability(T, ls)
        ==> Triple(ls, V(ScenarioOf), V(Resilient)) in ScenarioResilientRule(T)
            && Triple(ls, V(ScenarioOf), V(Incident)) !in ScenarioResilientRule(T)
    ensures !(Typed(T, ls, LaderrSpecification) && Triple(ls, V(ScenarioOf), V(Incident)) in T
              && HasDisabledVulnerability(T, ls))
        ==> forall t: Triple :: t.s == ls ==> (t in ScenarioResilientRule(T) <==> t in T)
  {
  }

  /** Only `scenario` triples change: incident ones are removed and resilient
      ones added. */
  lemma ScenarioResilientOnlyChangesScenario(T: set<Triple>)
    ensures forall t :: t in T && t !in ScenarioResilientRule(T) ==> t.p == V(ScenarioOf) && t.o == V(Incident)
    ensures forall t :: t !in T && t in ScenarioResilientRule(T) ==> t.p == V(ScenarioOf) && t.o == V(Resilient)
  {
  }

  // =====================================================================
  // execute_rule_disabled_state: a disposition that both disables and is
  // disabled.

  /** As written, a disposition `d1` that disables a state target and is
      itself disabled by a Disposition has both of its state triples toggled
      by every execution: each is present afterwards exactly when it was
      absent before. The graph therefore never stops changing. */
  lemma ChainedDispositionToggles(T: set<Triple>, d0: Node, d1: Node, d2: Node)
    requires (d0, d1) in DisablingPairs(T) && (d1, d2) in DisablingPairs(T)
    ensures Triple(d1, V(State), V(Enabled)) in DisabledStateRule(T) <==> Triple(d1, V(State), V(Enabled)) !in T
    ensures Triple(d1, V(State), V(Disabled)) in DisabledStateRule(T) <==> Triple(d1, V(State), V(Disabled)) !in T
    ensures DisabledStateRule(T) != T
  {
    var P := DisablingPairs(T);
    assert Triple(d0, V(Type), V(Disposition)) in T;
    assert Triple(d1, V(State), V(Enabled)) in StateRemovals(P);
    assert Triple(d1, V(State), V(Disabled)) in StateRemovals(P);
    assert Triple(d1, V(State), V(Enabled)) !in T ==> Triple(d1, V(State), V(Enabled)) in StateAdditions(T, P);
    assert Triple(d1, V(State), V(Disabled)) !in T ==> Triple(d1, V(State), V(Disabled)) in StateAdditions(T, P);
    if Triple(d1, V(State), V(Enabled)) in T {
      assert Triple(d1, V(State), V(Enabled)) !in DisabledStateRule(T);
    } else {
      assert Triple(d1, V(State), V(Enabled)) in DisabledStateRule(T);
    }
  }

  /** The nodes some pair of `P` disables. */
  function Targets(P: set<(Node, Node)>): set<Node> {
    set pr | pr in P :: pr.1
  }

  /** The states the corrected rule sets: every target is disabled, and a
      disabler is enabled only when nothing disables it. There is no "not
      yet in the graph" filter. */
  function StateSettings(P: set<(Node, Node)>): set<Triple> {
    (set pr | pr in P && pr.0 !in Targets(P) :: Triple(pr.0, V(State), V(Enabled)))
    + (set pr | pr in P :: Triple(pr.1, V(State), V(Disabled)))
  }

  /** disabled_state corrected: the conflicting states are removed, and then
      every state `StateSettings` assigns is added, whatever the graph held.
      A disposition that both disables and is disabled ends disabled. */
  function StableDisabledStateRule(T: set<Triple>): set<Triple> {
    if !HasSubjectFor(T, V(Type), V(Disposition)) then T
    else (T - StateRemovals(DisablingPairs(T))) + StateSettings(DisablingPairs(T))
  }

  /** The disabling pairs depend on types and `disables` facts only. */
  lemma DisablingPairsIgnoreStates(T: set<Triple>, U: set<Triple>)
    requires forall t: Triple :: t.p != V(State) ==> (t in T <==> t in U)
    ensures DisablingPairs(T) == DisablingPairs(U)
    ensures HasSubjectFor(T, V(Type), V(Disposition)) == HasSubjectFor(U, V(Type), V(Disposition))
  {
    assert Subjects(T, V(Type), V(Disposition)) == Subjects(U, V(Type), V(Disposition));
    forall d1, d2 ensures (d1, d2) in DisablingPairs(T) <==> (d1, d2) in DisablingPairs(U) {
      assert Objects(T, d1, V(Disables)) == Objects(U, d1, V(Disables));
      assert StateTarget(T, d2) == StateTarget(U, d2);
    }
    if HasSubjectFor(T, V(Type), V(Disposition)) {
      var t :| t in T && t.p == V(Type) && t.o == V(Disposition);
      assert t in U;
    }
    if HasSubjectFor(U, V(Type), V(Disposition)) {
      var t :| t in U && t.p == V(Type) && t.o == V(Disposition);
      assert t in T;
    }
  }

  /** The corrected rule settles at once: a second execution changes nothing. */
  lemma StableDisabledStateIdempotent(T: set<Triple>)
    ensures StableDisabledStateRule(StableDisabledStateRule(T)) == StableDisabledStateRule(T)
  {
    var R := StableDisabledStateRule(T);
    DisablingPairsIgnoreStates(T, R);
  }

  /** The corrected rule leaves every node it sets exactly one state: a
      disabled target only `disabled`, and a disabler that nothing disables
      only `enabled`. */
  lemma StableDisabledStateOutcome(T: set<Triple>, d1: Node, d2: Node)
    requires (d1, d2) in DisablingPairs(T)
    ensures Triple(d2, V(State), V(Disabled)) in StableDisabledStateRule(T)
    ensures Triple(d2, V(State), V(Enabled)) !in StableDisabledStateRule(T)
    ensures (forall d0 :: (d0, d1) !in DisablingPairs(T))
            ==> Triple(d1, V(State), V(Enabled)) in StableDisabledStateRule(T)
                && Triple(d1, V(State), V(Disabled)) !in StableDisabledStateRule(T)
  {
    var P := DisablingPairs(T);
    assert Triple(d1, V(Type), V(Disposition)) in T;
    assert HasSubjectFor(T, V(Type), V(Disposition));
    assert d2 in Targets(P);
    assert Triple(d2, V(State), V(Enabled)) in StateRemovals(P);
    assert Triple(d1, V(State), V(Disabled)) in StateRemovals(P);
    if forall d0 :: (d0, d1) !in P {
      assert d1 !in Targets(P);
    }
  }

  /** When no disposition is both a disabler and a disabled target, the
      corrected rule is the rule as written. */
  lemma StableDisabledStateAgrees(T: set<Triple>)
    requires forall p, q :: p in DisablingPairs(T) && q in DisablingPairs(T) ==> p.0 != q.1
    ensures StableDisabledStateRule(T) == DisabledStateRule(T)
  {
    var P := DisablingPairs(T);
    if HasSubjectFor(T, V(Type), V(Disposition)) {
      forall t | t in StateSettings(P) && t !in StateAdditions(T, P)
        ensures t in T - StateRemovals(P)
      {
      }
    }
  }

  /** The corrected rule's inner loop, over what `d1` disables. */
  method CollectPairsOf(T: set<Triple>, d1: Node) returns (pairs: set<(Node, Node)>)
    ensures pairs == PairsOf(T, d1)
  {
    pairs := {};
    var targets := Objects(T, d1, V(Disables));
    var rest := targets;
    while rest != {}
      invariant rest <= targets
      invariant pairs == set d2 | d2 in targets - rest && StateTarget(T, d2) :: (d1, d2)
      decreases rest
    {
      var d2 :| d2 in rest;
      if StateTarget(T, d2) {
        pairs := pairs + {(d1, d2)};
      }
      rest := rest - {d2};
    }
    assert targets - rest == targets;
  }

  /** The pairs the rule acts on, gathered by its two loops. */
  method CollectDisablingPairs(T: set<Triple>) returns (pairs: set<(Node, Node)>)
    ensures pairs == DisablingPairs(T)
  {
    pairs := {};
    var dispositions := Subjects(T, V(Type), V(Disposition));
    var todo := dispositions;
    while todo != {}
      invariant todo <= dispositions
      invariant pairs == DisablingPairsFrom(T, dispositions - todo)
      decreases todo
    {
      var d1 :| d1 in todo;
      var more := CollectPairsOf(T, d1);
      DisablingPairsStep(T, dispositions - todo, d1);
      pairs := pairs + more;
      assert dispositions - (todo - {d1}) == (dispositions - todo) + {d1};
      todo := todo - {d1};
    }
    assert dispositions - todo == dispositions;
  }

  /** The corrected execute_rule_disabled_state. */
  method ExecuteStableDisabledState(g: Graph)
    modifies g
    ensures g.triples == StableDisabledStateRule(old(g.triples)) && g.namespaces == old(g.namespaces)
  {
    if !(exists t :: t in g.triples && t.p == V(Type) && t.o == V(Disposition)) {
      return;
    }
    var pairs := CollectDisablingPairs(g.triples);
    g.RemoveAll(StateRemovals(pairs));
    g.AddAll(StateSettings(pairs));
  }
}
