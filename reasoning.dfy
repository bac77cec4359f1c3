/** The reasoning loop of `ReasoningHandler.execute`
    (laderr_engine/laderr_lib/services/reasoning.py): merge the schema into
    the specification graph, then run the RDFS closure and the eight rules
    in a fixed order until a whole pass leaves the triples unchanged, and
    return the cleaned result.

    The RDFS closure is the parameter `expand`, of which the model only
    requires that it adds triples; the lemmas about chained dispositions
    also ask that it adds no `state` triple, as RDFS entailment does when
    no property of the schema is a sub-property of `state`. The identifiers
    the resilience rule draws in pass `k` are `mints(k)`. `calculate_hash` is
    modelled as the triple set itself: two hashes are equal exactly when the
    triple sets are. */
module Reasoning {
  import opened Rdf
  import opened GraphHandler
  import opened InferenceRules

  /** The value of `hash_before` / `hash_after`: one of the two distinct
      starting values, or the hash of a triple set. */
  datatype Digest = Start(n: int) | Hash(triples: set<Triple>)

  /** The triples a pass may remove: states, and the incident scenario. */
  predicate Removable(t: Triple) {
    t.p == V(State) || (t.p == V(ScenarioOf) && t.o == V(Incident))
  }

  /** The triples of `T` that no pass may remove. */
  function Durable(T: set<Triple>): set<Triple> {
    set t | t in T && !Removable(t)
  }

  /** Keeping the durable triples composes. */
  lemma DurableTransitive(A: set<Triple>, B: set<Triple>, C: set<Triple>)
    requires Durable(A) <= B && Durable(B) <= C
    ensures Durable(A) <= C
  {
  }

  /** The graph after the first `k` calls of the loop body: the RDFS
      closure, then the eight rules in their order. */
  function Stage(k: nat, T: set<Triple>, base: string, expand: set<Triple> -> set<Triple>, mint: Trigger -> string): set<Triple>
  {
    if k == 0 then T
    else
      var p := Stage(k - 1, T, base, expand, mint);
      if k == 1 then expand(p)
      else if k == 2 then DisabledStateRule(p)
      else if k == 3 then ProtectsRule(p)
      else if k == 4 then InhibitsRule(p)
      else if k == 5 then ThreatensRule(p)
      else if k == 6 then ResilienceRule(p, base, mint)
      else if k == 7 then SucceededToDamageRule(p)
      else if k == 8 then FailedToDamageRule(p)
      else ScenarioResilientRule(p)
  }

  /** One whole pass of the loop body, given the base prefix the resilience
      rule reads and the identifiers it draws. */
  function Pass(T: set<Triple>, base: string, expand: set<Triple> -> set<Triple>, mint: Trigger -> string): set<Triple> {
    Stage(9, T, base, expand, mint)
  }

  /** A pass removes nothing but state triples and incident scenarios; in
      particular no protects, inhibits, threatens, resiliences,
      succeededToDamage or failedToDamage fact is ever removed. */
  lemma PassRemovesOnlyStatesAndIncidents(T: set<Triple>, base: string, expand: set<Triple> -> set<Triple>,
                                          mint: Trigger -> string)
    requires forall X :: X <= expand(X)
    ensures Durable(T) <= Pass(T, base, expand, mint)
  {
    assert Stage(0, T, base, expand, mint) == T;
    var t0 := Stage(1, T, base, expand, mint);
    var t1 := Stage(2, T, base, expand, mint);
    var t2 := Stage(3, T, base, expand, mint);
    var t3 := Stage(4, T, base, expand, mint);
    var t4 := Stage(5, T, base, expand, mint);
    var t5 := Stage(6, T, base, expand, mint);
    var t6 := Stage(7, T, base, expand, mint);
    var t7 := Stage(8, T, base, expand, mint);
    assert T <= expand(T) == t0;
    DisabledStateOnlyChangesStates(t0);
    assert Durable(t0) <= t1;
    OwnerRelationOnlyAdds(t1, Disables, Protects);
    InhibitsOnlyAdds(t2);
    OwnerRelationOnlyAdds(t3, Exploits, Threatens);
    ResilienceNeedsEntity(t4, base, mint);
    SucceededToDamageOnlyAdds(t5);
    assert t1 <= t7;
    ScenarioResilientOnlyChangesScenario(t7);
    assert Durable(t7) <= Pass(T, base, expand, mint);
  }

  /** `d0 disables d1` and `d1 disables d2`, both pairs the disabled-state
      rule acts on. */
  predicate Chained(T: set<Triple>, d0: Node, d1: Node, d2: Node) {
    (d0, d1) in DisablingPairs(T) && (d1, d2) in DisablingPairs(T)
  }

  ghost predicate HasChain(T: set<Triple>) {
    exists d0, d1, d2 :: Chained(T, d0, d1, d2)
  }

  /** The closure derives no `state` triple. */
  ghost predicate AddsNoState(expand: set<Triple> -> set<Triple>) {
    forall X, t :: t in expand(X) && t.p == V(State) ==> t in X
  }

  /** The disabling pairs rest on type and `disables` triples, which no pass
      removes: a graph that keeps the durable triples of `T` keeps its pairs. */
  lemma DisablingPairsKept(T: set<Triple>, U: set<Triple>)
    requires Durable(T) <= U
    ensures DisablingPairs(T) <= DisablingPairs(U)
  {
    forall pr | pr in DisablingPairs(T)
      ensures pr in DisablingPairs(U)
    {
      var d1, d2 := pr.0, pr.1;
      assert Triple(d1, V(Type), V(Disposition)) in Durable(T);
      assert Triple(d1, V(Disables), d2) in Durable(T);
      assert StateTarget(U, d2) by {
        if Typed(T, d2, Disposition) {
          assert Triple(d2, V(Type), V(Disposition)) in Durable(T);
        } else if Typed(T, d2, Capability) {
          assert Triple(d2, V(Type), V(Capability)) in Durable(T);
        } else {
          assert Triple(d2, V(Type), V(Vulnerability)) in Durable(T);
        }
      }
      assert d1 in Subjects(U, V(Type), V(Disposition));
    }
  }

  /** After the disabled-state step no rule of the pass adds or removes a
      `disabled` state: the pass leaves `d state disabled` exactly when that
      step does. */
  lemma DisabledStateKept(T: set<Triple>, base: string, expand: set<Triple> -> set<Triple>,
                          mint: Trigger -> string, d: Node)
    ensures Triple(d, V(State), V(Disabled)) in Pass(T, base, expand, mint)
        <==> Triple(d, V(State), V(Disabled)) in Stage(2, T, base, expand, mint)
  {
    var x := Triple(d, V(State), V(Disabled));
    var t1 := Stage(2, T, base, expand, mint);
    var t2 := Stage(3, T, base, expand, mint);
    var t3 := Stage(4, T, base, expand, mint);
    var t4 := Stage(5, T, base, expand, mint);
    var t5 := Stage(6, T, base, expand, mint);
    var t6 := Stage(7, T, base, expand, mint);
    var t7 := Stage(8, T, base, expand, mint);
    OwnerRelationOnlyAdds(t1, Disables, Protects);
    assert x in t2 <==> x in t1;
    InhibitsOnlyAdds(t2);
    assert x in t3 <==> x in t2;
    OwnerRelationOnlyAdds(t3, Exploits, Threatens);
    assert x in t4 <==> x in t3;
    ResilienceNeedsEntity(t4, base, mint);
    if x in t5 && x !in t4 {
      ResilienceAddsEnabledOnly(t4, base, mint, x);
    }
    assert x in t5 <==> x in t4;
    SucceededToDamageOnlyAdds(t5);
    assert x in t6 <==> x in t5;
    FailedToDamageMeaning(t6, d, d);
    assert x in t7 <==> x in t6;
    ScenarioResilientOnlyChangesScenario(t7);
  }

  /** On a graph with chained dispositions every pass changes the triples,
      so `hash_before != hash_after` after every pass and `execute` never
      returns: the disabled-state step toggles d1's `disabled` state and no
      later step undoes that. */
  lemma ChainedPassChanges(T: set<Triple>, base: string, expand: set<Triple> -> set<Triple>,
                           mint: Trigger -> string, d0: Node, d1: Node, d2: Node)
    requires forall X :: X <= expand(X)
    requires AddsNoState(expand)
    requires Chained(T, d0, d1, d2)
    ensures Pass(T, base, expand, mint) != T
  {
    assert Stage(0, T, base, expand, mint) == T;
    var t0 := Stage(1, T, base, expand, mint);
    assert T <= expand(T) == t0;
    DisablingPairsKept(T, t0);
    ChainedDispositionToggles(t0, d0, d1, d2);
    DisabledStateKept(T, base, expand, mint, d1);
    var x := Triple(d1, V(State), V(Disabled));
    if x in T {
      assert x !in Pass(T, base, expand, mint);
    } else {
      assert x !in t0;
      assert x in Pass(T, base, expand, mint);
    }
  }

  /** A pass keeps every disabling pair, so a chain, once there, stays. */
  lemma PassKeepsDisablingPairs(T: set<Triple>, base: string, expand: set<Triple> -> set<Triple>,
                                mint: Trigger -> string)
    requires forall X :: X <= expand(X)
    ensures DisablingPairs(T) <= DisablingPairs(Pass(T, base, expand, mint))
  {
    PassRemovesOnlyStatesAndIncidents(T, base, expand, mint);
    DisablingPairsKept(T, Pass(T, base, expand, mint));
  }

  /** One pass of the loop body on the graph. */
  method RunPass(g: Graph, expand: set<Triple> -> set<Triple>, mint: Trigger -> string)
    requires forall X :: X <= expand(X)
    modifies g
    ensures g.triples == Pass(old(g.triples), BasePrefix(old(g.namespaces)), expand, mint)
    ensures g.namespaces == old(g.namespaces)
  {
    ghost var T := g.triples;
    ghost var base := BasePrefix(g.namespaces);
    assert T <= expand(T);
    g.AddAll(expand(g.triples));
    assert g.triples == Stage(1, T, base, expand, mint);
    ExecuteRuleDisabledState(g);
    assert g.triples == Stage(2, T, base, expand, mint);
    ExecuteRuleProtects(g);
    assert g.triples == Stage(3, T, base, expand, mint);
    ExecuteRuleInhibits(g);
    assert g.triples == Stage(4, T, base, expand, mint);
    ExecuteRuleThreatens(g);
    assert g.triples == Stage(5, T, base, expand, mint);
    ExecuteRuleResilience(g, mint);
    assert g.triples == Stage(6, T, base, expand, mint);
    ExecuteRuleSucceededToDamage(g);
    assert g.triples == Stage(7, T, base, expand, mint);
    ExecuteRuleFailedToDamage(g);
    assert g.triples == Stage(8, T, base, expand, mint);
    ExecuteRuleScenarioResilient(g);
  }

  /** `create_combined_graph`: a new graph holding the schema and the
      specification's triples, with a fresh graph's bindings. */
  method CreateCombinedGraph(g: Graph, schema: set<Triple>) returns (combined: Graph)
    ensures fresh(combined)
    ensures combined.triples == schema + g.triples && combined.namespaces == DefaultBindings
  {
    combined := new Graph();
    combined.AddAll(schema);
    combined.AddAll(g.triples);
  }

  /** One iteration of the `while` loop of `execute`: the hash before the
      pass, the pass, the hash after it. */
  method HashedPass(g: Graph, expand: set<Triple> -> set<Triple>, mint: Trigger -> string)
    returns (hashBefore: Digest, hashAfter: Digest)
    requires forall X :: X <= expand(X)
    modifies g
    ensures g.namespaces == old(g.namespaces)
    ensures hashBefore == Hash(old(g.triples)) && hashAfter == Hash(g.triples)
    ensures g.triples == Pass(old(g.triples), BasePrefix(g.namespaces), expand, mint)
    ensures Durable(old(g.triples)) <= g.triples
  {
    hashBefore := Hash(g.triples);
    ghost var before := g.triples;
    RunPass(g, expand, mint);
    PassRemovesOnlyStatesAndIncidents(before, BasePrefix(g.namespaces), expand, mint);
    hashAfter := Hash(g.triples);
  }

  /** The `while hash_before != hash_after` loop of `execute`, bounded by
      `maxPasses` passes: the Python loop has no bound. `converged` says
      whether the loop stopped because a pass changed nothing; on chained
      dispositions it never does. */
  method Saturate(g: Graph, expand: set<Triple> -> set<Triple>, mints: nat -> (Trigger -> string), maxPasses: nat)
    returns (passes: nat, converged: bool)
    requires forall X :: X <= expand(X)
    modifies g
    ensures g.namespaces == old(g.namespaces)
    ensures converged ==> 1 <= passes <= maxPasses
    ensures !converged ==> passes == maxPasses
    ensures converged ==> Pass(g.triples, BasePrefix(g.namespaces), expand, mints(passes - 1)) == g.triples
    ensures Durable(old(g.triples)) <= g.triples
    ensures AddsNoState(expand) && HasChain(old(g.triples)) ==> !converged
  {
    var hashBefore := Start(1);
    var hashAfter := Start(2);
    passes := 0;
    while hashBefore != hashAfter && passes < maxPasses
      invariant passes <= maxPasses
      invariant g.namespaces == old(g.namespaces)
      invariant passes == 0 ==> hashBefore == Start(1) && hashAfter == Start(2)
      invariant passes > 0 ==> hashAfter == Hash(g.triples) && hashBefore.Hash?
                               && Pass(hashBefore.triples, BasePrefix(g.namespaces), expand, mints(passes - 1)) == g.triples
      invariant Durable(old(g.triples)) <= g.triples
      invariant passes > 0 ==> Durable(old(g.triples)) <= hashBefore.triples
      decreases maxPasses - passes
    {
      ghost var before := g.triples;
      hashBefore, hashAfter := HashedPass(g, expand, mints(passes));
      DurableTransitive(old(g.triples), before, g.triples);
      passes := passes + 1;
    }
    if AddsNoState(expand) && HasChain(old(g.triples)) && passes > 0 {
      var d0, d1, d2 :| Chained(old(g.triples), d0, d1, d2);
      DisablingPairsKept(old(g.triples), hashBefore.triples);
      ChainedPassChanges(hashBefore.triples, BasePrefix(g.namespaces), expand, mints(passes - 1), d0, d1, d2);
    }
    converged := hashBefore == hashAfter;
  }

  /** `ReasoningHandler.execute`: merges the schema into a new graph bound
      to the input's base prefix, saturates it, and returns it cleaned.
      `fix` is the saturated graph before cleaning. */
  method Execute(g: Graph, schema: set<Triple>, expand: set<Triple> -> set<Triple>,
                 mints: nat -> (Trigger -> string), maxPasses: nat)
    returns (result: Graph, ghost fix: set<Triple>, passes: nat, converged: bool)
    requires forall X :: X <= expand(X)
    ensures converged ==> 1 <= passes <= maxPasses
    ensures !converged ==> passes == maxPasses
    ensures converged ==> Pass(fix, BasePrefix(g.namespaces), expand, mints(passes - 1)) == fix
    ensures Durable(schema + g.triples) <= fix
    ensures AddsNoState(expand) && HasChain(schema + g.triples) ==> !converged
    ensures result.triples == Cleaned(fix, BasePrefix(g.namespaces))
    ensures result.namespaces == LaderrBindings(BasePrefix(g.namespaces))
  {
    var basePrefix := GetBasePrefix(g);
    var combined := CreateCombinedGraph(g, schema);
    combined.Bind("", basePrefix);
    combined.Bind("laderr", LaderrNs);
    LaderrBindingsBasePrefix(basePrefix);
    passes, converged := Saturate(combined, expand, mints, maxPasses);
    fix := combined.triples;
    CleanGraph(combined, basePrefix);
    result := combined;
  }
}
