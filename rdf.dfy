/** RDF terms and triples as the LaDeRR engine uses them through rdflib.

    IRIs of the fixed vocabularies the engine refers to by name (rdf:type,
    rdfs:label, the LaDeRR classes and properties, ...) are the constructors of
    `Vocab`; every other IRI is an `Iri` holding its full text. `LaderrTerm`
    is the only way the model turns a LaDeRR local name into a node, and it
    yields `V(..)` for every vocabulary name, so a vocabulary IRI never also
    appears as an `Iri`. */
module Rdf {

  datatype Option<T> = None | Some(value: T)

  /** The vocabulary terms that the engine names explicitly. */
  datatype Vocab =
    // rdf:, rdfs:, owl:, dcterms:
    | Type | Label | Resource | TopObjectProperty | ConformsTo
    // LaDeRR classes
    | Disposition | Capability | Vulnerability | Entity | Resilience
    | LaderrSpecification | Specification | Scenario | Asset | Threat | Control
    // LaDeRR properties
    | Disables | Exploits | Exposes | Capabilities | Vulnerabilities
    | Protects | Inhibits | Threatens | Resiliences | Preserves | PreservesAgainst
    | PreservesDespite | Sustains | State | SucceededToDamage | FailedToDamage
    | ScenarioOf | Constructs | Components
    // LaDeRR individuals
    | Enabled | Disabled | Incident | Resilient | NotResilient

  /** Scalar values that a literal can carry (TOML strings, integers, booleans). */
  datatype Atom = AStr(s: string) | AInt(i: int) | ABool(b: bool)

  datatype Node =
    | V(term: Vocab)
    | Iri(iri: string)
    | Blank(id: string)
    | Lit(value: Atom)

  datatype Triple = Triple(s: Node, p: Node, o: Node)

  const LaderrNs := "https://w3id.org/laderr#"
  const RdfNs := "http://www.w3.org/1999/02/22-rdf-syntax-ns#"
  const RdfsNs := "http://www.w3.org/2000/01/rdf-schema#"
  const OwlNs := "http://www.w3.org/2002/07/owl#"
  const DctermsNs := "http://purl.org/dc/terms/"

  predicate IsLaderrVocab(v: Vocab) {
    !(v.Type? || v.Label? || v.Resource? || v.TopObjectProperty? || v.ConformsTo?)
  }

  /** The local name of a vocabulary term inside its namespace. */
  function LocalName(v: Vocab): string {
    match v
    case Type => "type"
    case Label => "label"
    case Resource => "Resource"
    case TopObjectProperty => "topObjectProperty"
    case ConformsTo => "conformsTo"
    case Disposition => "Disposition"
    case Capability => "Capability"
    case Vulnerability => "Vulnerability"
    case Entity => "Entity"
    case Resilience => "Resilience"
    case LaderrSpecification => "LaderrSpecification"
    case Specification => "Specification"
    case Scenario => "Scenario"
    case Asset => "Asset"
    case Threat => "Threat"
    case Control => "Control"
    case Disables => "disables"
    case Exploits => "exploits"
    case Exposes => "exposes"
    case Capabilities => "capabilities"
    case Vulnerabilities => "vulnerabilities"
    case Protects => "protects"
    case Inhibits => "inhibits"
    case Threatens => "threatens"
    case Resiliences => "resiliences"
    case Preserves => "preserves"
    case PreservesAgainst => "preservesAgainst"
    case PreservesDespite => "preservesDespite"
    case Sustains => "sustains"
    case State => "state"
    case SucceededToDamage => "succeededToDamage"
    case FailedToDamage => "failedToDamage"
    case ScenarioOf => "scenario"
    case Constructs => "constructs"
    case Components => "components"
    case Enabled => "enabled"
    case Disabled => "disabled"
    case Incident => "incident"
    case Resilient => "resilient"
    case NotResilient => "not_resilient"
  }

  function NamespaceOf(v: Vocab): string {
    match v
    case Type => RdfNs
    case Label => RdfsNs
    case Resource => RdfsNs
    case TopObjectProperty => OwlNs
    case ConformsTo => DctermsNs
    case _ => LaderrNs
  }

  /** Decimal text of an integer, as Python's `str` writes it. */
  function IntText(i: int): (r: string)
    ensures |r| > 0
    decreases if i < 0 then -i + 1 else i
  {
    if i < 0 then "-" + IntText(-i)
    else if i < 10 then [DigitChar(i)]
    else IntText(i / 10) + [DigitChar(i % 10)]
  }

  function DigitChar(d: int): char
    requires 0 <= d < 10
  {
    "0123456789"[d]
  }

  /** `str(node)` in rdflib: the IRI, the blank-node id, or the lexical form. */
  function NodeText(n: Node): string {
    match n
    case V(v) => NamespaceOf(v) + LocalName(v)
    case Iri(s) => s
    case Blank(id) => id
    case Lit(a) =>
      match a
      case AStr(s) => s
      case AInt(i) => IntText(i)
      case ABool(b) => if b then "true" else "false"
  }

  /** The LaDeRR classes, by local name. */
  const ClassNames: map<string, Vocab> := map[
    LocalName(Disposition) := Disposition, LocalName(Capability) := Capability,
    LocalName(Vulnerability) := Vulnerability, LocalName(Entity) := Entity,
    LocalName(Resilience) := Resilience, LocalName(LaderrSpecification) := LaderrSpecification,
    LocalName(Specification) := Specification, LocalName(Scenario) := Scenario,
    LocalName(Asset) := Asset, LocalName(Threat) := Threat, LocalName(Control) := Control
  ]

  lemma ClassNamesMeaning(name: string)
    requires name in ClassNames
    ensures IsLaderrVocab(ClassNames[name])
    ensures LocalName(ClassNames[name]) == name && NamespaceOf(ClassNames[name]) == LaderrNs
  {
  }

  /** The LaDeRR relations between dispositions, entities and resiliences, by local name. */
  const RelationNames: map<string, Vocab> := map[
    LocalName(Disables) := Disables, LocalName(Exploits) := Exploits,
    LocalName(Exposes) := Exposes, LocalName(Capabilities) := Capabilities,
    LocalName(Vulnerabilities) := Vulnerabilities, LocalName(Protects) := Protects,
    LocalName(Inhibits) := Inhibits, LocalName(Threatens) := Threatens,
    LocalName(Resiliences) := Resiliences, LocalName(Preserves) := Preserves,
    LocalName(PreservesAgainst) := PreservesAgainst,
    LocalName(PreservesDespite) := PreservesDespite, LocalName(Sustains) := Sustains
  ]

  lemma RelationNamesMeaning(name: string)
    requires name in RelationNames
    ensures IsLaderrVocab(RelationNames[name])
    ensures LocalName(RelationNames[name]) == name && NamespaceOf(RelationNames[name]) == LaderrNs
  {
  }

  /** The remaining LaDeRR terms (states, outcomes, scenario structure), by local name. */
  const StateNames: map<string, Vocab> := map[
    LocalName(State) := State, LocalName(SucceededToDamage) := SucceededToDamage,
    LocalName(FailedToDamage) := FailedToDamage, LocalName(ScenarioOf) := ScenarioOf,
    LocalName(Constructs) := Constructs, LocalName(Components) := Components,
    LocalName(Enabled) := Enabled, LocalName(Disabled) := Disabled,
    LocalName(Incident) := Incident, LocalName(Resilient) := Resilient,
    LocalName(NotResilient) := NotResilient
  ]

  lemma StateNamesMeaning(name: string)
    requires name in StateNames
    ensures IsLaderrVocab(StateNames[name])
    ensures LocalName(StateNames[name]) == name && NamespaceOf(StateNames[name]) == LaderrNs
  {
  }

  /** The LaDeRR terms of `Vocab`, by local name. */
  const LaderrNames: map<string, Vocab> := ClassNames + RelationNames + StateNames

  /** Each name of `LaderrNames` is the local name of a LaDeRR term in the
      LaDeRR namespace. */
  lemma LaderrNamesMeaning(name: string)
    requires name in LaderrNames
    ensures IsLaderrVocab(LaderrNames[name])
    ensures LocalName(LaderrNames[name]) == name && NamespaceOf(LaderrNames[name]) == LaderrNs
  {
    if name in StateNames {
      StateNamesMeaning(name);
    } else if name in RelationNames {
      RelationNamesMeaning(name);
    } else {
      ClassNamesMeaning(name);
    }
  }

  /** `LADERR_NS[name]`: the LaDeRR IRI with the given local name, as the
      vocabulary term when it is one. */
  function LaderrTerm(name: string): (n: Node)
    ensures n.V? || n == Iri(LaderrNs + name)
  {
    if name in LaderrNames then V(LaderrNames[name]) else Iri(LaderrNs + name)
  }

  /** The node `LaderrTerm` yields has the IRI `LaderrNs + name`. */
  lemma LaderrTermText(name: string)
    ensures NodeText(LaderrTerm(name)) == LaderrNs + name
  {
    if name in LaderrNames {
      LaderrNamesMeaning(name);
    }
  }

  /** Every LaDeRR term is in `LaderrNames`. */
  lemma LaderrNamesCover(v: Vocab)
    requires IsLaderrVocab(v)
    ensures LocalName(v) in LaderrNames
  {
  }

  ghost predicate NamesLaderrTerm(name: string, v: Vocab) {
    IsLaderrVocab(v) && LocalName(v) == name
  }

  /** `LaderrTerm` with the table consulted only for a name some LaDeRR
      term has. The graph specifications below are written with it. */
  ghost function LaderrNode(name: string): Node {
    if exists v :: NamesLaderrTerm(name, v) then
      var v :| NamesLaderrTerm(name, v);
      LaderrNamesCover(v);
      V(LaderrNames[name])
    else
      Iri(LaderrNs + name)
  }

  lemma LaderrNodeIsTerm(name: string)
    ensures LaderrNode(name) == LaderrTerm(name)
  {
    if name in LaderrNames {
      LaderrNamesMeaning(name);
      assert NamesLaderrTerm(name, LaderrNames[name]);
    } else if exists v :: NamesLaderrTerm(name, v) {
      var v :| NamesLaderrTerm(name, v);
      LaderrNamesCover(v);
      assert false;
    }
  }

  /** The node `LaderrNode` names has the IRI `LaderrNs + name`. */
  lemma LaderrNodeText(name: string)
    ensures NodeText(LaderrNode(name)) == LaderrNs + name
  {
    LaderrNodeIsTerm(name);
    LaderrTermText(name);
  }

  // ---------------------------------------------------------------------
  // The graph queries the rules are written with (rdflib's pattern lookups).

  /** `(s, p, o) in graph` with `None` for the subject: some subject has `p` to `o`. */
  predicate HasSubjectFor(T: set<Triple>, p: Node, o: Node) {
    exists t :: t in T && t.p == p && t.o == o
  }

  /** `(None, p, None) in graph`: some triple uses predicate `p`. */
  predicate UsesPredicate(T: set<Triple>, p: Node) {
    exists t :: t in T && t.p == p
  }

  /** `graph.subjects(p, o)`. */
  function Subjects(T: set<Triple>, p: Node, o: Node): (r: set<Node>)
    ensures forall s :: s in r <==> Triple(s, p, o) in T
  {
    set t | t in T && t.p == p && t.o == o :: t.s
  }

  /** `graph.objects(s, p)`. */
  function Objects(T: set<Triple>, s: Node, p: Node): (r: set<Node>)
    ensures forall o :: o in r <==> Triple(s, p, o) in T
  {
    set t | t in T && t.s == s && t.p == p :: t.o
  }

  /** `graph.subject_objects(p)`. */
  function SubjectObjects(T: set<Triple>, p: Node): (r: set<(Node, Node)>)
    ensures forall s, o :: (s, o) in r <==> Triple(s, p, o) in T
  {
    set t | t in T && t.p == p :: (t.s, t.o)
  }

  /** `(n, rdf:type, laderr:c) in graph`. */
  predicate Typed(T: set<Triple>, n: Node, c: Vocab) {
    Triple(n, V(Type), V(c)) in T
  }

  /** Every node that occurs in some position of some triple. */
  function NodesOf(T: set<Triple>): set<Node> {
    (set t | t in T :: t.s) + (set t | t in T :: t.p) + (set t | t in T :: t.o)
  }

  // ---------------------------------------------------------------------
  // rdflib's Graph: a mutable set of triples plus its prefix bindings.

  /** The prefixes a fresh rdflib Graph binds by default; none of them is "" or "ns1". */
  const DefaultBindings: seq<(string, string)> :=
    [("owl", OwlNs), ("rdf", RdfNs), ("rdfs", RdfsNs),
     ("xsd", "http://www.w3.org/2001/XMLSchema#"), ("xml", "http://www.w3.org/XML/1998/namespace")]

  class Graph {
    var triples: set<Triple>
    /** `graph.namespaces()`, in the order rdflib yields them. */
    var namespaces: seq<(string, string)>

    constructor ()
      ensures triples == {} && namespaces == DefaultBindings
    {
      triples := {};
      namespaces := DefaultBindings;
    }

    method Add(t: Triple)
      modifies this
      ensures triples == old(triples) + {t} && namespaces == old(namespaces)
    {
      triples := triples + {t};
    }

    method Remove(t: Triple)
      modifies this
      ensures triples == old(triples) - {t} && namespaces == old(namespaces)
    {
      triples := triples - {t};
    }

    /** `for triple in new_triples: graph.add(triple)`. */
    method AddAll(S: set<Triple>)
      modifies this
      ensures triples == old(triples) + S && namespaces == old(namespaces)
    {
      var todo := S;
      while todo != {}
        invariant todo <= S
        invariant triples == old(triples) + (S - todo) && namespaces == old(namespaces)
        decreases todo
      {
        var t :| t in todo;
        Add(t);
        todo := todo - {t};
      }
    }

    /** `for triple in removed_triples: graph.remove(triple)`. */
    method RemoveAll(S: set<Triple>)
      modifies this
      ensures triples == old(triples) - S && namespaces == old(namespaces)
    {
      var todo := S;
      while todo != {}
        invariant todo <= S
        invariant triples == old(triples) - (S - todo) && namespaces == old(namespaces)
        decreases todo
      {
        var t :| t in todo;
        Remove(t);
        todo := todo - {t};
      }
    }

    /** `graph.bind(prefix, namespace)` on a prefix: the prefix now names
        `ns`, any earlier binding of the prefix is dropped. */
    method Bind(prefix: string, ns: string)
      modifies this
      ensures triples == old(triples)
      ensures namespaces == Rebound(old(namespaces), prefix, ns)
    {
      var kept: seq<(string, string)> := [];
      var i := 0;
      while i < |namespaces|
        invariant 0 <= i <= |namespaces|
        invariant kept == Unbound(namespaces[..i], prefix)
        invariant triples == old(triples) && namespaces == old(namespaces)
      {
        assert namespaces[..i + 1] == namespaces[..i] + [namespaces[i]];
        UnboundAppend(namespaces[..i], namespaces[i], prefix);
        if namespaces[i].0 != prefix {
          kept := kept + [namespaces[i]];
        }
        i := i + 1;
      }
      assert namespaces[..|namespaces|] == namespaces;
      namespaces := kept + [(prefix, ns)];
    }
  }

  /** The bindings without those of `prefix`, in their order. */
  function Unbound(ns: seq<(string, string)>, prefix: string): (r: seq<(string, string)>)
    ensures forall b :: b in r <==> b in ns && b.0 != prefix
  {
    if ns == [] then []
    else if ns[0].0 == prefix then Unbound(ns[1..], prefix)
    else [ns[0]] + Unbound(ns[1..], prefix)
  }

  lemma {:induction false} UnboundAppend(ns: seq<(string, string)>, b: (string, string), prefix: string)
    ensures Unbound(ns + [b], prefix) == Unbound(ns, prefix) + (if b.0 == prefix then [] else [b])
  {
    if ns != [] {
      assert (ns + [b])[1..] == ns[1..] + [b];
      UnboundAppend(ns[1..], b, prefix);
    }
  }

  function Rebound(ns: seq<(string, string)>, prefix: string, n: string): (r: seq<(string, string)>)
    ensures |r| > 0 && r[|r| - 1] == (prefix, n)
    ensures forall i :: 0 <= i < |r| - 1 ==> r[i].0 != prefix
  {
    Unbound(ns, prefix) + [(prefix, n)]
  }
}
