# LaDeRR derivation engine — a Dafny model

LaDeRR describes the dispositions of the entities in a system. A disposition is a capability or a vulnerability. A specification also describes the scenarios in which those dispositions are enabled or disabled, exploited or protected. The engine does five things:

- It reads a TOML specification and fills in defaults.
- It converts the specification into an RDF graph.
- It saturates the graph under eight inference rules and the RDFS closure, until a pass changes nothing.
- It cleans the result.
- It reports counts over the reasoned graph.

This project models that core:

- `rdf.dfy` (module `Rdf`) holds the RDF vocabulary and an rdflib graph. The graph is a class whose fields are its set of triples and its sequence of prefix bindings.
- `toml.dfy` (module `Toml`) holds parsed TOML values. A Python dict is an association list in insertion order. Python's `str` and `repr` of a value give the text rdflib stores for `Literal` of a list or dict.
- `inference_rules.dfy` (module `InferenceRules`) models the eight rules. Each rule is a specification function giving the graph after the rule. A method with the rule's loops is proved to compute it. Lemmas state what each rule derives, that it only adds (or only toggles) the triples it is about, and whether it is idempotent.
- `reasoning.dfy` (module `Reasoning`) models the fixpoint loop of `execute`.
- `graph.dfy` (module `GraphHandler`) models:
  - the base-prefix lookup;
  - the graph header;
  - the recursive conversion of instances and of the specification data into triples;
  - `clean_graph`.
- `specification.dfy` (module `Specification`) models:
  - the metadata and data defaults;
  - the injection of a default scenario;
  - the list collapse of `write_specification`.
- `report.dfy` (module `Report`) models the class counts and the integer resilience counts.

Python raises an error on malformed input in several places. There the model returns a flag `ok == false` or `None`. The flag is characterised by a predicate on the input.

Some values in the source are random or come from outside the core. The model takes them as parameters:

- the identifiers the resilience rule draws: `mint`, and `mints(k)` for pass `k`;
- the blank-node identifiers: `names`;
- the suffix of the default scenario: `suffix`;
- URI validity: `isValid`;
- the RDFS closure: `expand`, of which the model only assumes that it adds triples (and, for the lemmas about chained dispositions, that it adds no `state` triple);
- the schema graph: `schema`.

`calculate_hash` is modelled as the triple set itself. Two hashes are equal exactly when the triple sets are.

## Model

| member | source | states |
|---|---|---|
| Rdf.Subjects | laderr_engine/laderr_lib/services/inference_rules.py:38 | `graph.subjects(p, o)`: a node is returned exactly when the triple (node, p, o) is in the graph |
| Rdf.Objects | laderr_engine/laderr_lib/services/inference_rules.py:39 | `graph.objects(s, p)`: a node is returned exactly when (s, p, node) is in the graph |
| Rdf.SubjectObjects | laderr_engine/laderr_lib/services/inference_rules.py:79-80 | `graph.subject_objects(p)`: a pair is returned exactly when (s, p, o) is in the graph |
| Rdf.LaderrTerm | laderr_engine/laderr_lib/services/graph.py:114 | `LADERR_NS[name]` is a vocabulary term or the IRI of the namespace followed by the name |
| Rdf.LaderrTermText | laderr_engine/laderr_lib/services/graph.py:123 | the node for `LADERR_NS[name]` has the IRI of the LaDeRR namespace followed by the name |
| Rdf.LaderrNamesMeaning | laderr_engine/laderr_lib/services/graph.py:114 | every name in the table of LaDeRR terms is the local name of a term in the LaDeRR namespace |
| Rdf.Graph.Add | laderr_engine/laderr_lib/services/inference_rules.py:61-62 | adding a triple adds exactly that triple and keeps the bindings |
| Rdf.Graph.Remove | laderr_engine/laderr_lib/services/inference_rules.py:56-57 | removing a triple removes exactly that triple and keeps the bindings |
| Rdf.Graph.AddAll | laderr_engine/laderr_lib/services/inference_rules.py:84-85 | the loop adding a set of triples leaves the union |
| Rdf.Graph.RemoveAll | laderr_engine/laderr_lib/services/graph.py:342-343 | the loop removing a set of triples leaves the difference |
| Rdf.Graph.Bind | laderr_engine/laderr_lib/services/reasoning.py:54-55 | binding "" or "laderr" on a fresh graph, as every call in the source does, adds that binding last; the triples are unchanged (rdflib's handling of a prefix or namespace already bound elsewhere is under Left out) |
| Rdf.Unbound | laderr_engine/laderr_lib/services/reasoning.py:54-55 | the bindings left after a rebinding are exactly those of other prefixes |
| Rdf.Rebound | laderr_engine/laderr_lib/services/reasoning.py:54-55 | after a rebinding the prefix is bound once, to the new namespace, in the last position |
| Toml.HasKeyAt | laderr_engine/laderr_lib/services/specification.py:109 | `key in d` holds exactly when some entry carries the key |
| Toml.Get | laderr_engine/laderr_lib/services/specification.py:99 | a lookup misses exactly when the key is absent |
| Toml.GetIndex | laderr_engine/laderr_lib/services/specification.py:99 | a lookup returns the value of the entry holding the key |
| Toml.GetAt | laderr_engine/laderr_lib/services/specification.py:99 | the entry holding the key determines the lookup |
| Toml.PutAppends | laderr_engine/laderr_lib/services/specification.py:104 | assigning an existing key keeps the dict's size; a new key is appended last, in insertion order |
| Toml.PutGet | laderr_engine/laderr_lib/services/specification.py:104-106 | after `d[k] = v`, `d[k]` is `v` and every other key reads as before |
| Toml.Delete | laderr_engine/laderr_lib/services/specification.py:187 | `del d[k]` never grows the dict |
| Toml.DeleteEntries | laderr_engine/laderr_lib/services/specification.py:187 | after `del d[k]` exactly the entries of other keys remain |
| Toml.DeleteGet | laderr_engine/laderr_lib/services/specification.py:187 | after `del d[k]`, `k` is absent and every other key reads as before |
| Toml.PutDeleteUnique | laderr_engine/laderr_lib/services/specification.py:104-110 | assignment and deletion keep the keys of a dict distinct |
| Toml.PutKeys | laderr_engine/laderr_lib/services/specification.py:104 | an assignment introduces no key but its own |
| Toml.PutSame | laderr_engine/laderr_lib/services/specification.py:106 | assigning a key the value it holds leaves the dict unchanged |
| Toml.PutPut | laderr_engine/laderr_lib/services/specification.py:221-222 | a second assignment to a key overrides the first |
| Toml.PlainStrRepr | laderr_engine/laderr_lib/services/graph.py:134 | `repr` of a string of printable ASCII without quote or backslash is the string between single quotes |
| Toml.ListText | laderr_engine/laderr_lib/services/graph.py:134 | `str` of a list is its elements' `repr`s between brackets: "[]" and "['a']" |
| Toml.Keys | laderr_engine/laderr_lib/services/specification.py:132 | `d.keys()` lists the keys in insertion order |
| InferenceRules.CollectStateUpdates | laderr_engine/laderr_lib/services/inference_rules.py:31-53 | the loops of disabled_state collect the conflicting states of every (disabler, target) pair to remove, and the missing enabled/disabled states to add |
| InferenceRules.StateUpdatesFor | laderr_engine/laderr_lib/services/inference_rules.py:39-53 | the inner loop collects the removals and additions of exactly the relevant targets `d1` disables |
| InferenceRules.ExecuteRuleDisabledState | laderr_engine/laderr_lib/services/inference_rules.py:17-63 | the graph after the rule as written: no change without a Disposition, otherwise removals then additions |
| InferenceRules.DisabledStateOutcome | laderr_engine/laderr_lib/services/inference_rules.py:19-22 | when no disposition is both a disabler and a target, the disabler ends enabled only and the target disabled only |
| InferenceRules.DisabledStateOnlyChangesStates | laderr_engine/laderr_lib/services/inference_rules.py:46-53 | the rule removes and adds only enabled/disabled state triples |
| InferenceRules.ChainedDispositionToggles | laderr_engine/laderr_lib/services/inference_rules.py:46-53 | as written, a disposition that is both a disabler and a target has both state triples flipped by every run, so the graph always changes |
| InferenceRules.StableDisabledStateIdempotent | laderr_engine/laderr_lib/services/inference_rules.py:19-22 | the corrected rule changes nothing when run a second time |
| InferenceRules.StableDisabledStateOutcome | laderr_engine/laderr_lib/services/inference_rules.py:19-22 | the corrected rule leaves every disabled target with the disabled state only, and every disabler that nothing disables with the enabled state only |
| InferenceRules.StableDisabledStateAgrees | laderr_engine/laderr_lib/services/inference_rules.py:38-63 | without chained dispositions the corrected rule equals the rule as written |
| InferenceRules.DisablingPairsIgnoreStates | laderr_engine/laderr_lib/services/inference_rules.py:38-43 | the pairs the rule acts on depend only on types and `disables` facts, not on states |
| InferenceRules.CollectDisablingPairs | laderr_engine/laderr_lib/services/inference_rules.py:38-43 | the two loops find exactly the Disposition/`disables` pairs whose target is a Disposition, Capability or Vulnerability |
| InferenceRules.CollectPairsOf | laderr_engine/laderr_lib/services/inference_rules.py:39-43 | the inner loop finds exactly the targets of `d1` that are a Disposition, Capability or Vulnerability |
| InferenceRules.ExecuteStableDisabledState | laderr_engine/laderr_lib/services/inference_rules.py:17-63 | the corrected rule: conflicting states removed, then every target disabled and every disabler that nothing disables enabled |
| InferenceRules.OwnerRelationFactsFor | laderr_engine/laderr_lib/services/inference_rules.py:80-82 | the inner loop of protects/threatens finds the new facts for one (owner, vulnerability) pair |
| InferenceRules.CollectOwnerRelationFacts | laderr_engine/laderr_lib/services/inference_rules.py:77-82 | the nested loops collect exactly the missing owner-relation facts |
| InferenceRules.ExecuteOwnerRelationRule | laderr_engine/laderr_lib/services/inference_rules.py:72-86 | protects/threatens as one rule over the linking predicate, including the guard that skips the rule when a predicate is unused |
| InferenceRules.ExecuteRuleProtects | laderr_engine/laderr_lib/services/inference_rules.py:66-86 | the graph after protects |
| InferenceRules.ExecuteRuleThreatens | laderr_engine/laderr_lib/services/inference_rules.py:138-159 | the graph after threatens |
| InferenceRules.FactWitness | laderr_engine/laderr_lib/services/inference_rules.py:79-82 | every new fact is witnessed by a vulnerability of the target, a capability of the source, and the link between them |
| InferenceRules.WitnessedFact | laderr_engine/laderr_lib/services/inference_rules.py:79-82 | every such witness whose fact is missing yields the fact |
| InferenceRules.OwnerRelationMeaning | laderr_engine/laderr_lib/services/inference_rules.py:69-82 | o2 relates to o1 afterwards exactly when it did before or a capability of o2 links to a vulnerability of o1 |
| InferenceRules.OwnerRelationOnlyAdds | laderr_engine/laderr_lib/services/inference_rules.py:84-85 | the rule keeps every triple and adds only derived-predicate facts |
| InferenceRules.ClosedHasNoFacts | laderr_engine/laderr_lib/services/inference_rules.py:81 | in a graph closed under the rule there is nothing left to add |
| InferenceRules.RuleClosesAt | laderr_engine/laderr_lib/services/inference_rules.py:79-82 | a capability linked to a vulnerability in the graph before the rule has its owner related to the vulnerability's owner after it |
| InferenceRules.RuleCloses | laderr_engine/laderr_lib/services/inference_rules.py:72-86 | one run closes the graph under the rule |
| InferenceRules.OwnerRelationIdempotent | laderr_engine/laderr_lib/services/inference_rules.py:72-86 | a second run adds nothing |
| InferenceRules.ProtectsMeaning | laderr_engine/laderr_lib/services/inference_rules.py:66-86 | protects in both directions; it only adds protects triples, and it is idempotent |
| InferenceRules.ThreatensMeaning | laderr_engine/laderr_lib/services/inference_rules.py:138-159 | threatens in both directions; it only adds threatens triples, and it is idempotent |
| InferenceRules.InhibitsFor | laderr_engine/laderr_lib/services/inference_rules.py:119-130 | the loops over o3 and c3 find the new inhibits facts for one o2 and v1 |
| InferenceRules.InhibitsAgainst | laderr_engine/laderr_lib/services/inference_rules.py:124-130 | the loop over the capabilities `c3` of one `o3` finds the missing inhibits fact exactly when a Capability of `o3` exploits `v1` |
| InferenceRules.InhibitsBy | laderr_engine/laderr_lib/services/inference_rules.py:109-130 | the loops over c2 and v1, with the Capability and Vulnerability type checks |
| InferenceRules.InhibitsVia | laderr_engine/laderr_lib/services/inference_rules.py:113-130 | the loop over the Vulnerabilities one `c2` disables collects the facts of each |
| InferenceRules.CollectInhibits | laderr_engine/laderr_lib/services/inference_rules.py:105-130 | the loops collect exactly the missing inhibits facts |
| InferenceRules.ExecuteRuleInhibits | laderr_engine/laderr_lib/services/inference_rules.py:89-135 | the graph after inhibits |
| InferenceRules.InhibitsFactWitnessed | laderr_engine/laderr_lib/services/inference_rules.py:108-130 | each new fact has typed witnesses o2, c2, v1, o3, c3 with o2 != o3 |
| InferenceRules.WitnessedInhibitsFact | laderr_engine/laderr_lib/services/inference_rules.py:108-130 | every witnessed, missing fact is added |
| InferenceRules.InhibitsMeaning | laderr_engine/laderr_lib/services/inference_rules.py:91-100 | o2 inhibits o3 afterwards exactly when it did before or a witness exists |
| InferenceRules.InhibitsOnlyAdds | laderr_engine/laderr_lib/services/inference_rules.py:133-134 | the rule keeps every triple and adds only inhibits facts |
| InferenceRules.NoSelfInhibition | laderr_engine/laderr_lib/services/inference_rules.py:120-121 | the rule never makes an entity inhibit itself |
| InferenceRules.InhibitionWitnessedShrinks | laderr_engine/laderr_lib/services/inference_rules.py:108-127 | adding inhibits facts creates no new witness |
| InferenceRules.InhibitsIdempotent | laderr_engine/laderr_lib/services/inference_rules.py:89-135 | a second run adds nothing |
| InferenceRules.FindResilience | laderr_engine/laderr_lib/services/inference_rules.py:206-214 | the search finds a Resilience matching the trigger exactly when one exists |
| InferenceRules.ResilienceFor | laderr_engine/laderr_lib/services/inference_rules.py:192-231 | the loops over (o2, c2) and (o3, c3) visit the triggers for one o1, c1, v1 and create a resilience for each unpreserved one |
| InferenceRules.ResilienceAgainst | laderr_engine/laderr_lib/services/inference_rules.py:193-231 | the loop over `(o3, c3)` visits exactly the triggers with that `(o1, c1, v1, o2, c2)` and creates a resilience for each unpreserved one |
| InferenceRules.ResilienceFrom | laderr_engine/laderr_lib/services/inference_rules.py:188-231 | the loop over `(o1_vuln, v1)`, with its same-entity skip, visits exactly the triggers with that `(o1, c1)` |
| InferenceRules.CollectResilience | laderr_engine/laderr_lib/services/inference_rules.py:187-231 | the loops visit exactly the triggers and create their resiliences |
| InferenceRules.CreatedForUnion | laderr_engine/laderr_lib/services/inference_rules.py:222-231 | the triples created for two sets of triggers are the union of those created for each |
| InferenceRules.ExecuteRuleResilience | laderr_engine/laderr_lib/services/inference_rules.py:162-236 | the graph after resilience, with the base prefix the rule reads from the graph |
| InferenceRules.TriggersMeaning | laderr_engine/laderr_lib/services/inference_rules.py:166-172 | a trigger is visited exactly when its seven nodes satisfy the rule's conditions |
| InferenceRules.ResilienceOnlyCreates | laderr_engine/laderr_lib/services/inference_rules.py:216-231 | every new triple belongs to the eight created for an unpreserved trigger |
| InferenceRules.ResilienceCreated | laderr_engine/laderr_lib/services/inference_rules.py:173-178 | afterwards every trigger is preserved by a Resilience |
| InferenceRules.ResilienceNeedsEntity | laderr_engine/laderr_lib/services/inference_rules.py:181-182 | without an Entity the rule changes nothing; it never removes a triple |
| InferenceRules.ResilienceAddedPredicate | laderr_engine/laderr_lib/services/inference_rules.py:222-231 | new triples use only the eight predicates of a created resilience |
| InferenceRules.ResilienceAddsEnabledOnly | laderr_engine/laderr_lib/services/inference_rules.py:230 | the only state the rule adds is a new resilience's enabled state |
| InferenceRules.TriggerTripleKept | laderr_engine/laderr_lib/services/inference_rules.py:222-231 | the rule adds no capabilities, vulnerabilities, disables, exposes or exploits triple |
| InferenceRules.ResilienceKeepsTriggers | laderr_engine/laderr_lib/services/inference_rules.py:187-203 | the triggers are the same after the rule |
| InferenceRules.ResilienceSecondRunNoop | laderr_engine/laderr_lib/services/inference_rules.py:205-216 | a second run, whatever identifiers it draws, adds nothing |
| InferenceRules.AttacksWith | laderr_engine/laderr_lib/services/inference_rules.py:283-298 | the loops over v1 and c2 find the successful attacks for one c1 |
| InferenceRules.AttacksThrough | laderr_engine/laderr_lib/services/inference_rules.py:284-298 | the loop over the capabilities `c2` of `o2` finds exactly the successful attacks with that `c1` and `v1` and collects their facts |
| InferenceRules.AttacksFrom | laderr_engine/laderr_lib/services/inference_rules.py:272-298 | the loop over o2, including the self-pair and existing-fact skips |
| InferenceRules.AttacksBetween | laderr_engine/laderr_lib/services/inference_rules.py:282-298 | the loops over `c1` and `v1` of `o1` for one pair that is not skipped |
| InferenceRules.AttacksIn | laderr_engine/laderr_lib/services/inference_rules.py:271-298 | the loop over the constructs `o1` of one specification collects the attacks of every considered pair |
| InferenceRules.CollectSucceeded | laderr_engine/laderr_lib/services/inference_rules.py:259-298 | the loops visit exactly the considered successful attacks and collect their facts |
| InferenceRules.SkippedPairHasNoAttacks | laderr_engine/laderr_lib/services/inference_rules.py:273-280 | a skipped pair contributes no attack |
| InferenceRules.DamageFactsUnion | laderr_engine/laderr_lib/services/inference_rules.py:294-298 | the facts of two sets of attacks are the union of the facts of each |
| InferenceRules.ExecuteRuleSucceededToDamage | laderr_engine/laderr_lib/services/inference_rules.py:239-303 | the graph after succeededToDamage |
| InferenceRules.AttacksMeaning | laderr_engine/laderr_lib/services/inference_rules.py:262-291 | an attack is visited exactly when it succeeds and its pair is considered |
| InferenceRules.SucceededToDamageMeaning | laderr_engine/laderr_lib/services/inference_rules.py:276-295 | o2 succeeded to damage o1 afterwards exactly when it did before or some successful attack exists |
| InferenceRules.NotResilientMeaning | laderr_engine/laderr_lib/services/inference_rules.py:297-298 | a specification is not resilient afterwards exactly when it was before or a considered attack on it succeeds |
| InferenceRules.SucceededToDamageOnlyAdds | laderr_engine/laderr_lib/services/inference_rules.py:259-302 | the rule only adds succeededToDamage and not-resilient triples; without a LaderrSpecification it changes nothing |
| InferenceRules.FailedFor | laderr_engine/laderr_lib/services/inference_rules.py:328-344 | the loop over (o2, c2) finds the new failedToDamage facts for one o1, c1, v1 |
| InferenceRules.FailedFrom | laderr_engine/laderr_lib/services/inference_rules.py:324-344 | the loop over `(o1_vuln, v1)`, with its same-entity skip, finds the new failedToDamage facts for one `(o1, c1)` |
| InferenceRules.CollectFailed | laderr_engine/laderr_lib/services/inference_rules.py:317-344 | the loops collect exactly the missing failedToDamage facts |
| InferenceRules.ExecuteRuleFailedToDamage | laderr_engine/laderr_lib/services/inference_rules.py:306-348 | the graph after failedToDamage |
| InferenceRules.FailedToDamageMeaning | laderr_engine/laderr_lib/services/inference_rules.py:308-312 | o2 failed to damage o1 afterwards exactly when it did before or a failed attempt exists; the rule adds only such facts |
| InferenceRules.DamageOutcomesExclusive | laderr_engine/laderr_lib/services/inference_rules.py:338-339 | an attempt cannot both fail and succeed unless the vulnerability is both enabled and disabled |
| InferenceRules.SearchDisabledVulnerability | laderr_engine/laderr_lib/services/inference_rules.py:378-388 | the search with its two breaks finds a disabled vulnerability of a construct exactly when one exists |
| InferenceRules.CollectScenarioResilient | laderr_engine/laderr_lib/services/inference_rules.py:364-395 | the incident scenarios to replace and the resilient ones to add, one per specification that turns resilient |
| InferenceRules.ExecuteRuleScenarioResilient | laderr_engine/laderr_lib/services/inference_rules.py:351-404 | the graph after scenario_resilient |
| InferenceRules.ScenarioResilientMeaning | laderr_engine/laderr_lib/services/inference_rules.py:353-359 | an incident specification with a disabled vulnerability becomes resilient and loses the incident; any other subject is untouched |
| InferenceRules.ScenarioResilientOnlyChangesScenario | laderr_engine/laderr_lib/services/inference_rules.py:391-395 | the rule only removes incident triples and only adds resilient triples |
| Reasoning.PassRemovesOnlyStatesAndIncidents | laderr_engine/laderr_lib/services/reasoning.py:60-68 | a pass removes nothing but state triples and incident scenarios |
| Reasoning.RunPass | laderr_engine/laderr_lib/services/reasoning.py:60-68 | the closure and the eight rules as written, in their order, give the pass function |
| Reasoning.DisablingPairsKept | laderr_engine/laderr_lib/services/inference_rules.py:38-43 | the disabling pairs rest on type and disables triples, so a graph keeping the durable triples keeps the pairs |
| Reasoning.DisabledStateKept | laderr_engine/laderr_lib/services/reasoning.py:61-68 | after the disabled-state step no rule of the pass adds or removes a disabled state |
| Reasoning.ChainedPassChanges | laderr_engine/laderr_lib/services/reasoning.py:57-70 | on chained dispositions every pass changes the graph, so the hashes before and after a pass always differ |
| Reasoning.PassKeepsDisablingPairs | laderr_engine/laderr_lib/services/reasoning.py:57-70 | a pass keeps every disabling pair, so a chain, once present, stays |
| Reasoning.CreateCombinedGraph | laderr_engine/laderr_lib/services/graph.py:239-248 | a new graph holding the schema and the specification triples, with the default bindings |
| Reasoning.HashedPass | laderr_engine/laderr_lib/services/reasoning.py:58-70 | the hashes before and after a pass, and durable triples kept |
| Reasoning.Saturate | laderr_engine/laderr_lib/services/reasoning.py:57-70 | when the loop stops, the last pass changed nothing, so the graph is a fixpoint; durable triples are kept throughout; on chained dispositions it never stops |
| Reasoning.Execute | laderr_engine/laderr_lib/services/reasoning.py:36-72 | the result is the cleaned fixpoint of the combined graph, bound to the input's base prefix; on chained dispositions no fixpoint is reached |
| GraphHandler.FirstBinding | laderr_engine/laderr_lib/services/graph.py:299-301 | the first binding of a prefix, or none exactly when the prefix is unbound |
| GraphHandler.LastBinding | laderr_engine/laderr_lib/services/graph.py:302-303 | the last binding of a prefix, or none exactly when it is unbound |
| GraphHandler.GetBasePrefix | laderr_engine/laderr_lib/services/graph.py:282-312 | the loop returns the base prefix |
| GraphHandler.FirstBindingPrefix | laderr_engine/laderr_lib/services/graph.py:299-301 | the first "" binding is the one returned |
| GraphHandler.BasePrefixMeaning | laderr_engine/laderr_lib/services/graph.py:295-312 | "" if bound, else the last "ns1" binding when it is non-empty, else https://example.org/ |
| GraphHandler.UnboundNoop | laderr_engine/laderr_lib/services/graph.py:97 | unbinding an unbound prefix changes nothing |
| GraphHandler.ReboundFresh | laderr_engine/laderr_lib/services/graph.py:97-98 | binding a fresh prefix appends it |
| GraphHandler.LaderrBindingsBasePrefix | laderr_engine/laderr_lib/services/graph.py:94-98 | a graph bound to a base URI reports it as its base prefix |
| GraphHandler.InitializeGraphWithNamespaces | laderr_engine/laderr_lib/services/graph.py:82-105 | a fresh graph with the two header triples and the default, "" and laderr bindings |
| GraphHandler.Lower | laderr_engine/laderr_lib/services/graph.py:140 | `str.lower` on ASCII letters; other characters kept |
| GraphHandler.PropertyTriplesMeaning | laderr_engine/laderr_lib/services/graph.py:139-145 | a state maps to enabled exactly when it lower-cases to "enabled", else to disabled; scalars give one literal or IRI triple |
| GraphHandler.PropertyListTriples | laderr_engine/laderr_lib/services/graph.py:125-134 | a list without tables gives exactly one triple per element, an IRI for the keys in `uri_props` and a literal otherwise; a table in a list is linked from the instance |
| GraphHandler.NestedListLiteral | laderr_engine/laderr_lib/services/graph.py:133-134 | a list inside a list under a literal key converts: `tags = [[1, 2]]` gives the one literal "[1, 2]" |
| GraphHandler.LaderrTermIdDistinct | laderr_engine/laderr_lib/services/graph.py:120-123 | a property other than id never maps to the id predicate |
| GraphHandler.InstanceTriplesMeaning | laderr_engine/laderr_lib/services/graph.py:113-121 | an instance is typed with its class, and no triple uses the id property |
| GraphHandler.PropertyHasNoId | laderr_engine/laderr_lib/services/graph.py:120-121 | the triples of a property never use the id predicate, even in nested instances |
| GraphHandler.ItemHasNoId | laderr_engine/laderr_lib/services/graph.py:126-134 | the same for one list item |
| GraphHandler.NestedHasNoId | laderr_engine/laderr_lib/services/graph.py:127-130 | the same for a nested table |
| GraphHandler.ProcessInstance | laderr_engine/laderr_lib/services/graph.py:108-145 | adds exactly the instance's triples; it fails exactly where Python raises |
| GraphHandler.ProcessProperties | laderr_engine/laderr_lib/services/graph.py:119-145 | the property loop adds exactly the triples of every property but "id", and fails exactly where one of them raises |
| GraphHandler.ProcessProperty | laderr_engine/laderr_lib/services/graph.py:123-145 | adds the triples of one property: list, table, state, IRI property or literal |
| GraphHandler.ProcessItem | laderr_engine/laderr_lib/services/graph.py:126-134 | adds the triples of one list item: a nested instance, an IRI, or a literal, whose text is `str` of the item when it is a list; fails only inside a nested instance |
| GraphHandler.ProcessItems | laderr_engine/laderr_lib/services/graph.py:126-134 | the element loop adds exactly the triples of every element of the list, and fails exactly where one of them raises |
| GraphHandler.ProcessNested | laderr_engine/laderr_lib/services/graph.py:127-130 | a nested instance under its own id or a blank node, linked to its parent |
| GraphHandler.LevelConvertiblePrefix | laderr_engine/laderr_lib/services/graph.py:155-176 | the loops over scenarios, scenario keys and class members stop at the first failure, so a table that converts has every prefix converting |
| GraphHandler.ConvertDataToGraph | laderr_engine/laderr_lib/services/graph.py:148-188 | the graph holds the header plus exactly the triples of every scenario; conversion fails exactly where Python raises |
| GraphHandler.ConvertScenarios | laderr_engine/laderr_lib/services/graph.py:154-186 | the loop over scenarios adds the triples of each |
| GraphHandler.ConvertScenario | laderr_engine/laderr_lib/services/graph.py:155-186 | the scenario is linked and typed, then its content converted |
| GraphHandler.ConvertContent | laderr_engine/laderr_lib/services/graph.py:160-186 | the loop over a scenario's keys adds exactly the triples of every entry, and fails exactly where one of them raises |
| GraphHandler.ConvertContentEntry | laderr_engine/laderr_lib/services/graph.py:160-171 | label becomes a literal (with the `str` text of a list or table), situation and status LaDeRR terms; other non-table values are skipped |
| GraphHandler.ConvertClassTable | laderr_engine/laderr_lib/services/graph.py:173-186 | the loop adds every table-valued member and skips the rest |
| GraphHandler.ConvertMember | laderr_engine/laderr_lib/services/graph.py:179-186 | an instance plus its constructs and components links |
| GraphHandler.LevelIncludes | laderr_engine/laderr_lib/services/graph.py:155-186 | the triples of each scenario, each content entry and each class member are among those of its whole table |
| GraphHandler.ScenarioLinked | laderr_engine/laderr_lib/services/graph.py:156-158 | every declared scenario is a construct of the specification and typed Scenario |
| GraphHandler.InstanceLinked | laderr_engine/laderr_lib/services/graph.py:179-186 | every declared instance is typed with its class, a construct of the specification and a component of its scenario |
| GraphHandler.Unwanted | laderr_engine/laderr_lib/services/graph.py:334-340 | a triple is removed exactly when it fails the subject, blank-node, rdfs:Resource or topObjectProperty test |
| GraphHandler.CleanGraph | laderr_engine/laderr_lib/services/graph.py:315-345 | the graph after cleaning; the bindings are unchanged |
| GraphHandler.CleanedMeaning | laderr_engine/laderr_lib/services/graph.py:319-322 | exactly the kept triples remain |
| GraphHandler.CleanedIdempotent | laderr_engine/laderr_lib/services/graph.py:315-345 | cleaning twice is cleaning once |
| Specification.Dict.constructor | laderr_engine/laderr_lib/services/specification.py:84 | a dict holding the given entries |
| Specification.StrList | laderr_engine/laderr_lib/services/specification.py:132 | a list of scenario ids as TOML strings, element by element |
| Specification.PutGetAll | laderr_engine/laderr_lib/services/specification.py:104-110 | an assignment changes only its key |
| Specification.DeleteGetAll | laderr_engine/laderr_lib/services/specification.py:187 | a deletion changes only its key |
| Specification.MetadataDefaultsMeaning | laderr_engine/laderr_lib/services/specification.py:97-110 | baseURI set to itself when valid and to the default otherwise; a string createdBy wrapped in a list; other keys unchanged; failure exactly for a truthy non-string baseURI, while a falsy one gets the default |
| Specification.MetadataDefaultsIdempotent | laderr_engine/laderr_lib/services/specification.py:97-110 | applying the metadata defaults twice is applying them once |
| Specification.ApplyMetadataDefaults | laderr_engine/laderr_lib/services/specification.py:84-110 | the dict after the defaults, unchanged on failure |
| Specification.InjectDefaultScenarioMeaning | laderr_engine/laderr_lib/services/specification.py:216-222 | afterwards Scenario is truthy; it is unchanged if it was truthy, otherwise it holds exactly the new empty scenario; other keys unchanged; failure exactly for a falsy non-table Scenario |
| Specification.InjectDefaultScenarioIdempotent | laderr_engine/laderr_lib/services/specification.py:216-222 | a second injection, with any suffix, changes nothing |
| Specification.InjectDefaultScenarioIfMissing | laderr_engine/laderr_lib/services/specification.py:207-222 | the dict after injection, unchanged on failure |
| Specification.AsList | laderr_engine/laderr_lib/services/specification.py:175-178 | a list is kept and any other value wrapped in a list |
| Specification.DefaultGet | laderr_engine/laderr_lib/services/specification.py:151-152 | `if k not in d: d[k] = v` makes `d[k]` the old value or `v`, and changes nothing else |
| Specification.ScenarioToScenariosGet | laderr_engine/laderr_lib/services/specification.py:172-187 | scenario is removed; scenarios keeps its value, or becomes the scenario value as a list |
| Specification.LabelledGet | laderr_engine/laderr_lib/services/specification.py:143-155 | id is the section key; label is kept or defaults to the id |
| Specification.ScenarioFieldsGet | laderr_engine/laderr_lib/services/specification.py:159-169 | situation defaults to "operational" and status to "vulnerable" |
| Specification.ConstructFieldsGet | laderr_engine/laderr_lib/services/specification.py:171-203 | scenarios from scenario, else all scenario ids; state defaults to "enabled" for the three stateful types |
| Specification.ConstructDefaults | laderr_engine/laderr_lib/services/specification.py:138-140 | the instances of a construct type keep their ids and order |
| Specification.ScenarioDefaultsMeaning | laderr_engine/laderr_lib/services/specification.py:142-169 | a scenario's id, label, situation and status after the defaults; other keys unchanged |
| Specification.ConstructDefaultsMeaning | laderr_engine/laderr_lib/services/specification.py:142-203 | a construct's id, label, scenario, scenarios and state after the defaults |
| Specification.ConstructDefaultsKeepOthers | laderr_engine/laderr_lib/services/specification.py:142-203 | a construct's other keys are unchanged |
| Specification.InstanceDefaultsIdempotent | laderr_engine/laderr_lib/services/specification.py:138-203 | applying an instance's defaults twice is applying them once |
| Specification.GetSameKeys | laderr_engine/laderr_lib/services/specification.py:134-138 | two dicts with the same keys in the same order find a key at the same entry |
| Specification.DataDefaultsKeys | laderr_engine/laderr_lib/services/specification.py:131-136 | the construct types and the scenario ids are unchanged; failure exactly when Scenario is not a table |
| Specification.DataDefaultsIdempotent | laderr_engine/laderr_lib/services/specification.py:113-203 | applying the data defaults twice is applying them once |
| Specification.ApplyConstructDefaults | laderr_engine/laderr_lib/services/specification.py:138-203 | the loop over one construct type's instances gives their defaults |
| Specification.ApplyDataDefaults | laderr_engine/laderr_lib/services/specification.py:113-203 | the dict after the data defaults, unchanged on failure |
| Specification.StrLtTotal | laderr_engine/laderr_lib/services/specification.py:280 | Python's string order is total and asymmetric |
| Specification.StrLtTransitive | laderr_engine/laderr_lib/services/specification.py:280 | the order is transitive |
| Specification.Insert | laderr_engine/laderr_lib/services/specification.py:280 | inserting into a sorted list keeps it sorted and adds one occurrence |
| Specification.Sort | laderr_engine/laderr_lib/services/specification.py:280 | `sorted` gives a sorted permutation |
| Specification.SortedUnique | laderr_engine/laderr_lib/services/specification.py:280 | a sorted permutation is unique, so `Sort` is `sorted` |
| Specification.Distinct | laderr_engine/laderr_lib/services/specification.py:328 | `sorted(set(..))` is strictly sorted, with the same members |
| Specification.Strings | laderr_engine/laderr_lib/services/specification.py:327 | the strings of a list of TOML strings |
| Specification.CollapseMetadataMeaning | laderr_engine/laderr_lib/services/specification.py:278-281 | a one-element list becomes its element; longer lists become their sorted permutation |
| Specification.SortMembers | laderr_engine/laderr_lib/services/specification.py:328 | sorting keeps the members |
| Specification.CollapsePropertyMeaning | laderr_engine/laderr_lib/services/specification.py:325-329 | a list becomes a single value exactly when all its elements are equal; otherwise its distinct members, strictly sorted |
| Specification.CollapsePropertyIdempotent | laderr_engine/laderr_lib/services/specification.py:325-329 | collapsing a collapsed list changes nothing |
| Specification.CollapseMetadataIdempotent | laderr_engine/laderr_lib/services/specification.py:278-281 | collapsing collapsed metadata changes nothing |
| Specification.DistinctStrict | laderr_engine/laderr_lib/services/specification.py:328 | a strictly sorted list has no duplicates to drop |
| Specification.CollapseMetadataLists | laderr_engine/laderr_lib/services/specification.py:277-281 | every metadata value after the collapse loop, in the same order |
| Specification.CollapsedInstance | laderr_engine/laderr_lib/services/specification.py:325-329 | an instance keeps its number of properties |
| Specification.CollapseInstanceLists | laderr_engine/laderr_lib/services/specification.py:325-329 | the loop over an instance's properties |
| Specification.CollapseTableLists | laderr_engine/laderr_lib/services/specification.py:324-329 | the loop over a class's instances |
| Specification.CollapseConstructLists | laderr_engine/laderr_lib/services/specification.py:322-329 | every construct's every property after the collapse loops |
| Report.RemoveAll | laderr_engine/laderr_lib/services/report.py:32 | `str.replace(ns, "")` never lengthens the text |
| Report.RemoveAllAbsent | laderr_engine/laderr_lib/services/report.py:32 | text without the namespace is unchanged by the replace |
| Report.ClassNameOfTerm | laderr_engine/laderr_lib/services/report.py:30-34 | a LaDeRR class is counted under its local name, and Scenario is skipped |
| Report.BumpCount | laderr_engine/laderr_lib/services/report.py:35 | an increment changes one count by one |
| Report.HasAt | laderr_engine/laderr_lib/services/report.py:35 | a name is counted exactly when some entry carries it |
| Report.BumpDistinct | laderr_engine/laderr_lib/services/report.py:35 | an increment keeps the names distinct |
| Report.InCounts | laderr_engine/laderr_lib/services/report.py:35-36 | an item of the dict is a counted name with its count |
| Report.InsertByCount | laderr_engine/laderr_lib/services/report.py:36 | insertion keeps the counts in non-increasing order and adds one item |
| Report.SortByCount | laderr_engine/laderr_lib/services/report.py:36 | `sorted(.., reverse=True)` by count gives a permutation in non-increasing order |
| Report.PermutationDistinct | laderr_engine/laderr_lib/services/report.py:36 | sorting keeps the names distinct |
| Report.AtMostOnce | laderr_engine/laderr_lib/services/report.py:36 | no item occurs twice |
| Report.CountedStep | laderr_engine/laderr_lib/services/report.py:29-35 | one more type triple adds one to its class's count |
| Report.TallyClasses | laderr_engine/laderr_lib/services/report.py:28-35 | the loop counts, for every class name, its rdf:type triples |
| Report.CountLaderrClasses | laderr_engine/laderr_lib/services/report.py:27-36 | each counted class appears once with the number of its type triples, in non-increasing order of count |
| Report.QuadrantsPartition | laderr_engine/laderr_lib/services/report.py:67-81 | the four exploited/disabled counters partition the vulnerabilities; the enabled ones are the two enabled quadrants |
| Report.EnabledStep | laderr_engine/laderr_lib/services/report.py:52 | one more member adds one to the enabled count unless disabled |
| Report.QuadrantStep | laderr_engine/laderr_lib/services/report.py:67-81 | one more vulnerability adds one to exactly its quadrant |
| Report.CountEnabled | laderr_engine/laderr_lib/services/report.py:52-55 | the generator counts the members without a disabled state |
| Report.ClassifyVulnerabilities | laderr_engine/laderr_lib/services/report.py:58-81 | each counter is the size of its quadrant, and the duplicate counters agree |
| Report.CalculateResilienceMetrics | laderr_engine/laderr_lib/services/report.py:40-115 | every count is the size of the set it names; enabled and disabled add up to the total; the numerator is the total minus the enabled, exploited vulnerabilities |
| Report.DisabledComplement | laderr_engine/laderr_lib/services/report.py:53-56 | total minus enabled counts exactly the disabled members |

## Left out

- The RDFS closure (`DeductiveClosure(RDFS_Semantics).expand`) is a parameter. The model assumes only that it adds triples.
- The resilience identifiers drawn with `random.choices` are a parameter `mint`, assumed to name fresh nodes. The chance that two draws collide is not modelled.
- The blank-node identifiers of nested instances are a parameter `names`.
- The scenario suffix drawn at `_inject_default_scenario_if_missing` is a parameter: any three upper-case letters.
- URI validity (`urlparse` with scheme and netloc) is a parameter `isValid`.
- `calculate_hash` is the triple set. SHA-256 over the N-Triples serialisation is treated as injective.
- Reasoning.Saturate: the Python loop has no bound and runs forever on chained dispositions (`Reasoning.ChainedPassChanges`, and see Findings). The model stops after `maxPasses` passes and says whether it converged.
- Reasoning.ChainedPassChanges: requires that the RDFS closure adds no `state` triple. The schema is a parameter; this holds when no schema property is a sub-property of `state`.
- The schema graph is a parameter. Loading it from a file (`_load_laderr_schema`), `save_graph`, `read_specification`, `create_laderr_graph` and `_convert_metadata_to_graph` are I/O or outside this core.
- Reading the graph back in `write_specification` is outside this core: URI splitting, datetime formatting, XML literals, sorting the keys, `tomli_w` and the regex reformatting. Only the list collapse is modelled.
- Specification.CollapseMetadataLists: requires every list to hold strings. Python's `sorted` of mixed types raises, and its order on non-strings is not modelled.
- Specification.CollapseConstructLists: requires every list to hold strings, for the same reason.
- Specification.CollapseInstanceLists and Specification.CollapseTableLists: require string lists, for the same reason.
- GraphHandler.Lower: only ASCII letters are lower-cased. Unicode case mapping is not modelled.
- Toml.Repr: Python's `repr` escapes non-printable non-ASCII characters. The model copies every non-ASCII character, because Unicode's printability table is not modelled.
- TOML floats, dates and times are not values of the model. Integers, booleans, strings, lists and tables are.
- Python dicts are values. Aliasing between the dicts of a parsed document is not modelled; the parser never creates any.
- The percentages of `calculate_resilience_metrics` (`resilience_index`, the percent strings) are floating point. The model gives the numerator and the total, and proves numerator <= total.
- `generate_pdf_report`, the pie charts, the verbose logging and the warnings are output only.
- Report.CountLaderrClasses: the order of classes with equal counts follows rdflib's iteration order, which is unspecified. The model proves only that counts do not increase.
- Rdf.Graph.Bind: models only a prefix that names no other namespace and a namespace that no other prefix names. Every call in the source (graph.py:97-98, graph.py:206-207, graph.py:276-277, reasoning.py:54-55) binds "" and "laderr" on a fresh graph, which is that case. rdflib's renaming to `prefix1` when the prefix names another namespace, and its dropping of the namespace's other prefix, are not modelled.
- The driver (`Reasoning.Stage`) runs the disabled-state rule as written. The corrected rule `InferenceRules.StableDisabledStateRule` is modelled beside it, for the finding below.

## Findings

| source | as written | input that shows it | evidently intended | confidence | as-written member | corrected member |
|---|---|---|---|---|---|---|
| laderr_engine/laderr_lib/services/inference_rules.py:46-53 | The rule removes `d1 state disabled` and `d2 state enabled` for each pair, and adds a state only when it is absent. A disposition that both disables and is disabled loses whichever of its two state triples it has and gains the other, on every run. Each pass of `execute` (reasoning.py:57-70) therefore changes the graph, and the loop never ends (`Reasoning.ChainedPassChanges`). | Three Dispositions d0, d1, d2 with `d0 disables d1` and `d1 disables d2`. | Each disposition gets one state and a second run changes nothing: a disposition that something disables is disabled only, and a disabler that nothing disables is enabled only. | medium, not executed | InferenceRules.ChainedDispositionToggles | InferenceRules.StableDisabledStateIdempotent |
