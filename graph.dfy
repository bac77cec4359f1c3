/** The graph utilities of `GraphHandler`
    (laderr_engine/laderr_lib/services/graph.py): the base-prefix lookup,
    the cleaning of a reasoned graph, and the conversion of the parsed
    specification into triples. */
module GraphHandler {
  import opened Rdf
  import opened Toml

  // =====================================================================
  // get_base_prefix

  const DefaultBase := "https://example.org/"

  /** The namespace of the first binding of `prefix`, if any. */
  function FirstBinding(ns: seq<(string, string)>, prefix: string): (r: Option<string>)
    ensures r.None? <==> forall i :: 0 <= i < |ns| ==> ns[i].0 != prefix
    ensures r.Some? ==> exists i :: 0 <= i < |ns| && ns[i] == (prefix, r.value)
                                    && forall j :: 0 <= j < i ==> ns[j].0 != prefix
  {
    if ns == [] then None
    else if ns[0].0 == prefix then Some(ns[0].1)
    else
      var rest := ns[1..];
      var r := FirstBinding(rest, prefix);
      if r.Some? then
        var i :| 0 <= i < |rest| && rest[i] == (prefix, r.value)
                 && forall j :: 0 <= j < i ==> rest[j].0 != prefix;
        assert ns[i + 1] == (prefix, r.value);
        r
      else r
  }

  /** The namespace of the last binding of `prefix`, if any: the value a
      loop that overwrites a variable at every match ends with. */
  function LastBinding(ns: seq<(string, string)>, prefix: string): (r: Option<string>)
    ensures r.None? <==> forall i :: 0 <= i < |ns| ==> ns[i].0 != prefix
    ensures r.Some? ==> exists i :: 0 <= i < |ns| && ns[i] == (prefix, r.value)
                                    && forall j :: i < j < |ns| ==> ns[j].0 != prefix
  {
    if ns == [] then None
    else
      var last := ns[|ns| - 1];
      if last.0 == prefix then Some(last.1)
      else
        var front := ns[..|ns| - 1];
        var r := LastBinding(front, prefix);
        if r.Some? then
          var i :| 0 <= i < |front| && front[i] == (prefix, r.value)
                   && forall j :: i < j < |front| ==> front[j].0 != prefix;
          assert ns[i] == (prefix, r.value);
          r
        else r
  }

  /** The base prefix of a graph with the namespace bindings `ns`: the
      namespace bound to the empty prefix, else a non-empty one bound to
      "ns1", else the default base. */
  function BasePrefix(ns: seq<(string, string)>): string {
    match FirstBinding(ns, "")
    case Some(base) => base
    case None =>
      match LastBinding(ns, "ns1")
      case Some(ns1) => if ns1 != "" then ns1 else DefaultBase
      case None => DefaultBase
  }

  /** `get_base_prefix`: one scan of the bindings that returns at the first
      empty prefix and otherwise remembers the last "ns1" namespace. */
  method GetBasePrefix(g: Graph) returns (base: string)
    ensures base == BasePrefix(g.namespaces)
  {
    var ns := g.namespaces;
    var ns1: Option<string> := None;
    var i := 0;
    while i < |ns|
      invariant 0 <= i <= |ns|
      invariant FirstBinding(ns[..i], "").None?
      invariant ns1 == LastBinding(ns[..i], "ns1")
    {
      assert ns[..i + 1] == ns[..i] + [ns[i]];
      assert ns[..i + 1][..i] == ns[..i];
      if ns[i].0 == "" {
        FirstBindingPrefix(ns, i);
        return ns[i].1;
      }
      if ns[i].0 == "ns1" {
        ns1 := Some(ns[i].1);
      }
      i := i + 1;
    }
    assert ns[..i] == ns;
    if ns1.Some? && ns1.value != "" {
      return ns1.value;
    }
    return DefaultBase;
  }

  /** If the first `i` bindings have no empty prefix and binding `i` has, the
      first binding of the empty prefix is binding `i`. */
  lemma FirstBindingPrefix(ns: seq<(string, string)>, i: nat)
    requires i < |ns| && ns[i].0 == ""
    requires FirstBinding(ns[..i], "").None?
    ensures FirstBinding(ns, "") == Some(ns[i].1)
  {
    var r := FirstBinding(ns, "");
    assert forall j :: 0 <= j < i ==> ns[j].0 != "" by {
      forall j | 0 <= j < i ensures ns[j].0 != "" {
        assert ns[..i][j] == ns[j];
      }
    }
    var k :| 0 <= k < |ns| && ns[k] == ("", r.value) && forall j :: 0 <= j < k ==> ns[j].0 != "";
    assert k == i;
  }

  /** What get_base_prefix returns, in terms of the bindings themselves. */
  lemma BasePrefixMeaning(ns: seq<(string, string)>)
    ensures (exists i :: 0 <= i < |ns| && ns[i].0 == "")
        ==> exists i :: 0 <= i < |ns| && ns[i] == ("", BasePrefix(ns))
    ensures (forall i :: 0 <= i < |ns| ==> ns[i].0 != "") && (exists i :: 0 <= i < |ns| && ns[i].0 == "ns1")
        ==> BasePrefix(ns) == DefaultBase || exists i :: 0 <= i < |ns| && ns[i] == ("ns1", BasePrefix(ns))
    ensures (forall i :: 0 <= i < |ns| ==> ns[i].0 != "" && ns[i].0 != "ns1") ==> BasePrefix(ns) == DefaultBase
  {
  }

  /** Removing the bindings of a prefix that is not bound changes nothing. */
  lemma {:induction false} UnboundNoop(ns: seq<(string, string)>, prefix: string)
    requires forall i :: 0 <= i < |ns| ==> ns[i].0 != prefix
    ensures Unbound(ns, prefix) == ns
  {
    if ns != [] {
      UnboundNoop(ns[1..], prefix);
    }
  }

  /** Binding a prefix that is not bound appends the binding. */
  lemma ReboundFresh(ns: seq<(string, string)>, prefix: string, n: string)
    requires forall i :: 0 <= i < |ns| ==> ns[i].0 != prefix
    ensures Rebound(ns, prefix, n) == ns + [(prefix, n)]
  {
    UnboundNoop(ns, prefix);
  }

  /** The bindings of a fresh graph after `bind("", base)` and
      `bind("laderr", LADERR_NS)`, as both the converter and the reasoner
      leave them. */
  function LaderrBindings(base: string): seq<(string, string)> {
    Rebound(Rebound(DefaultBindings, "", base), "laderr", LaderrNs)
  }

  /** get_base_prefix finds the base bound by those two calls: the
      resilience rule mints its nodes there, and cleaning keeps them. */
  lemma LaderrBindingsBasePrefix(base: string)
    ensures BasePrefix(LaderrBindings(base)) == base
  {
    var d := DefaultBindings;
    assert forall i :: 0 <= i < |d| ==> d[i].0 != "" && d[i].0 != "laderr";
    ReboundFresh(d, "", base);
    var once := d + [("", base)];
    assert forall i :: 0 <= i < |once| ==> once[i].0 != "laderr";
    ReboundFresh(once, "laderr", LaderrNs);
    var ns := once + [("laderr", LaderrNs)];
    assert ns[..|d|] == d;
    FirstBindingPrefix(ns, |d|);
  }


  // =====================================================================
  // _initialize_graph_with_namespaces

  const DefaultBaseUri := "https://laderr.laderr#"
  const LaderrOntology := "https://w3id.org/laderr"

  /** `Namespace(ns)[key]`: rdflib appends a string key to the namespace and
      nothing for a key of any other type. */
  function NsTerm(ns: string, key: Value): Node {
    Iri(ns + (if key.Str? then key.s else ""))
  }

  /** The local name `LADERR_NS[value]` is built from, for a value read
      from the specification. */
  function TermName(v: Value): string {
    if v.Str? then v.s else ""
  }

  /** The metadata carries a validated base URI: a string, when present. */
  predicate BaseIsText(meta: Entries) {
    Get(meta, "baseURI").None? || Get(meta, "baseURI").value.Str?
  }

  /** `spec_metadata.get("baseURI", "https://laderr.laderr#")`. */
  function MetadataBase(meta: Entries): string
    requires BaseIsText(meta)
  {
    match Get(meta, "baseURI")
    case None => DefaultBaseUri
    case Some(v) => v.s
  }

  /** The central Specification instance of a graph with data namespace `ns`. */
  function SpecificationNode(ns: string): Node {
    Iri(ns + "Specification")
  }

  /** The two triples that describe the Specification instance. */
  function HeaderTriples(ns: string): set<Triple> {
    {Triple(SpecificationNode(ns), V(Type), V(Specification)),
     Triple(SpecificationNode(ns), V(ConformsTo), Iri(LaderrOntology))}
  }

  /** `_initialize_graph_with_namespaces`: a new graph bound to the data
      namespace and to LaDeRR's, holding the Specification instance. */
  method InitializeGraphWithNamespaces(meta: Entries) returns (g: Graph, dataNs: string, specUri: Node)
    requires BaseIsText(meta)
    ensures fresh(g)
    ensures dataNs == MetadataBase(meta) && specUri == SpecificationNode(dataNs)
    ensures g.triples == HeaderTriples(dataNs) && g.namespaces == LaderrBindings(dataNs)
  {
    var base := Get(meta, "baseURI");
    dataNs := if base.Some? then base.value.s else DefaultBaseUri;
    g := new Graph();
    g.Bind("", dataNs);
    g.Bind("laderr", LaderrNs);
    specUri := Iri(dataNs + "Specification");
    g.Add(Triple(specUri, V(Type), V(Specification)));
    g.Add(Triple(specUri, V(ConformsTo), Iri(LaderrOntology)));
  }

  // =====================================================================
  // _process_instance

  /** The keys whose values name other instances. */
  const UriProps: set<string> := {"disables", "exploits", "exposes", "capabilities", "vulnerabilities"}

  /** The identifier rdflib's `BNode()` draws for a nested table without an
      "id": a function of the parent instance's IRI, the key and the position
      of the table in the key's list (0 for a table that is the value). */
  type BlankNamer = (string, string, nat) -> string

  /** The values rdflib turns into a `Literal`. */
  predicate Scalar(v: Value) {
    v.Str? || v.Int? || v.Bool?
  }

  /** `Literal(v)`: a string, integer or boolean literal for a scalar. rdflib
      keeps a list or a dict as a plain literal whose text is `str(v)`, which
      is the literal of that string. */
  function LiteralOf(v: Value): Node {
    match v
    case Str(s) => Lit(AStr(s))
    case Int(i) => Lit(AInt(i))
    case Bool(b) => Lit(ABool(b))
    case _ => Lit(AStr(Text(v)))
  }

  /** `str.lower()` on ASCII letters; no other character lowers to a letter
      of "enabled". */
  function Lower(s: string): (r: string)
    ensures |r| == |s|
    ensures forall i :: 0 <= i < |s| ==> r[i] == if 'A' <= s[i] <= 'Z' then (s[i] as int + 32) as char else s[i]
  {
    if s == [] then []
    else [if 'A' <= s[0] <= 'Z' then (s[0] as int + 32) as char else s[0]] + Lower(s[1..])
  }

  /** The state node a "state" string maps to. */
  function StateNode(s: string): Node {
    if Lower(s) == "enabled" then V(Enabled) else V(Disabled)
  }

  /** `item.get("id", BNode())` for the nested table `m`. */
  function NestedId(m: Entries, parent: Node, key: string, pos: nat, names: BlankNamer): Value {
    match Get(m, "id")
    case Some(id) => id
    case None => Str(names(NodeText(parent), key, pos))
  }

  /** The triples `_process_instance` adds for the instance `id` of class
      `cls` with the properties `props`. */
  ghost function InstanceTriples(ns: string, cls: string, id: Value, props: Entries, names: BlankNamer): set<Triple>
    decreases Table(props), 1
  {
    var subj := NsTerm(ns, id);
    {Triple(subj, V(Type), LaderrNode(cls))} + PropertiesTriples(ns, subj, props, |props|, names)
  }

  /** The triples of the first `n` properties, "id" skipped. */
  ghost function PropertiesTriples(ns: string, subj: Node, props: Entries, n: nat, names: BlankNamer): set<Triple>
    requires n <= |props|
    decreases Table(props), 0, n
  {
    if n == 0 then {}
    else
      PropertiesTriples(ns, subj, props, n - 1, names)
      + (if props[n - 1].0 != "id" then PropertyTriples(ns, subj, props[n - 1].0, props[n - 1].1, names) else {})
  }

  /** The triples of one property: a list gives one triple per element, a
      table a nested instance, "state" an enabled or disabled node, the keys
      in `UriProps` an instance IRI, and every other key a literal. */
  ghost function PropertyTriples(ns: string, subj: Node, key: string, v: Value, names: BlankNamer): set<Triple>
    decreases v, 3
  {
    match v
    case List(items) => ItemsTriples(ns, subj, key, items, |items|, names)
    case Table(m) => NestedTriples(ns, subj, key, 0, m, names)
    case _ =>
      if key == "state" then (if v.Str? then {Triple(subj, V(State), StateNode(v.s))} else {})
      else if key in UriProps then {Triple(subj, LaderrNode(key), NsTerm(ns, v))}
      else {Triple(subj, LaderrNode(key), LiteralOf(v))}
  }

  /** The triples of the first `n` elements of a list value. */
  ghost function ItemsTriples(ns: string, subj: Node, key: string, items: seq<Value>, n: nat, names: BlankNamer): set<Triple>
    requires n <= |items|
    decreases List(items), 2, n
  {
    if n == 0 then {}
    else ItemsTriples(ns, subj, key, items, n - 1, names) + ItemTriples(ns, subj, key, n - 1, items[n - 1], names)
  }

  /** The triples of the list element at position `pos`. */
  ghost function ItemTriples(ns: string, subj: Node, key: string, pos: nat, item: Value, names: BlankNamer): set<Triple>
    decreases item, 3
  {
    match item
    case Table(m) => NestedTriples(ns, subj, key, pos, m, names)
    case _ =>
      if key in UriProps then {Triple(subj, LaderrNode(key), NsTerm(ns, item))}
      else {Triple(subj, LaderrNode(key), LiteralOf(item))}
  }

  /** A nested table: an instance of class `key`, linked from its parent. */
  ghost function NestedTriples(ns: string, parent: Node, key: string, pos: nat, m: Entries, names: BlankNamer): set<Triple>
    decreases Table(m), 2
  {
    var id := NestedId(m, parent, key, pos, names);
    InstanceTriples(ns, key, id, m, names) + {Triple(parent, LaderrNode(key), NsTerm(ns, id))}
  }

  /** `_process_instance` completes without an exception: every "state"
      value that is not in a list is a string (Python calls `lower()` on it). */
  ghost predicate InstanceConvertible(props: Entries)
    decreases Table(props), 1
  {
    PropertiesConvertible(props, |props|)
  }

  ghost predicate PropertiesConvertible(props: Entries, n: nat)
    requires n <= |props|
    decreases Table(props), 0
  {
    forall j :: 0 <= j < n && props[j].0 != "id" ==> PropertyConvertible(props[j].0, props[j].1)
  }

  ghost predicate PropertyConvertible(key: string, v: Value)
    decreases v, 3
  {
    match v
    case List(items) => ItemsConvertible(key, items, |items|)
    case Table(m) => InstanceConvertible(m)
    case _ => key == "state" ==> v.Str?
  }

  ghost predicate ItemsConvertible(key: string, items: seq<Value>, n: nat)
    requires n <= |items|
    decreases List(items), 2
  {
    forall j :: 0 <= j < n ==> ItemConvertible(key, items[j])
  }

  ghost predicate ItemConvertible(key: string, item: Value)
    decreases item, 3
  {
    match item
    case Table(m) => InstanceConvertible(m)
    case _ => true
  }

  lemma PropertiesStep(ns: string, subj: Node, props: Entries, i: nat, names: BlankNamer)
    requires i < |props|
    ensures PropertiesTriples(ns, subj, props, i + 1, names)
         == PropertiesTriples(ns, subj, props, i, names)
            + (if props[i].0 != "id" then PropertyTriples(ns, subj, props[i].0, props[i].1, names) else {})
  {
  }

  lemma ItemsStep(ns: string, subj: Node, key: string, items: seq<Value>, i: nat, names: BlankNamer)
    requires i < |items|
    ensures ItemsTriples(ns, subj, key, items, i + 1, names)
         == ItemsTriples(ns, subj, key, items, i, names) + ItemTriples(ns, subj, key, i, items[i], names)
  {
  }

  /** A triple of the first `n` properties comes from one of them. */
  lemma {:induction false} PropertiesWitness(ns: string, subj: Node, props: Entries, n: nat, names: BlankNamer, t: Triple)
    returns (j: nat)
    requires n <= |props| && t in PropertiesTriples(ns, subj, props, n, names)
    ensures j < n && props[j].0 != "id" && t in PropertyTriples(ns, subj, props[j].0, props[j].1, names)
    decreases n
  {
    if props[n - 1].0 != "id" && t in PropertyTriples(ns, subj, props[n - 1].0, props[n - 1].1, names) {
      j := n - 1;
    } else {
      j := PropertiesWitness(ns, subj, props, n - 1, names, t);
    }
  }

  /** A triple of the first `n` list elements comes from one of them. */
  lemma {:induction false} ItemsWitness(ns: string, subj: Node, key: string, items: seq<Value>, n: nat, names: BlankNamer,
                                        t: Triple)
    returns (j: nat)
    requires n <= |items| && t in ItemsTriples(ns, subj, key, items, n, names)
    ensures j < n && t in ItemTriples(ns, subj, key, j, items[j], names)
    decreases n
  {
    if t in ItemTriples(ns, subj, key, n - 1, items[n - 1], names) {
      j := n - 1;
    } else {
      j := ItemsWitness(ns, subj, key, items, n - 1, names, t);
    }
  }

  /** Every list element's triples are among the list's. */
  lemma {:induction false} ItemsIncludes(ns: string, subj: Node, key: string, items: seq<Value>, j: nat, n: nat,
                                         names: BlankNamer)
    requires j < n <= |items|
    ensures ItemTriples(ns, subj, key, j, items[j], names) <= ItemsTriples(ns, subj, key, items, n, names)
    decreases n
  {
    if j < n - 1 {
      ItemsIncludes(ns, subj, key, items, j, n - 1, names);
    }
  }

  /** The object of the triple a list element that is not a table yields. */
  function ElementObject(ns: string, key: string, item: Value): Node {
    if key in UriProps then NsTerm(ns, item) else LiteralOf(item)
  }

  /** What one property yields: the state node is `enabled` exactly when the
      lowercased value is "enabled"; a scalar gives one triple, whose object is
      an instance IRI for the keys in `UriProps` and a literal otherwise; a
      list without tables gives exactly one triple per element; a table in a
      list is linked from the instance. */
  lemma PropertyTriplesMeaning(ns: string, subj: Node, key: string, v: Value, names: BlankNamer)
    ensures key == "state" && v.Str?
            ==> PropertyTriples(ns, subj, key, v, names) == {Triple(subj, V(State), StateNode(v.s))}
                && (StateNode(v.s) == V(Enabled) <==> Lower(v.s) == "enabled")
                && (StateNode(v.s) != V(Enabled) <==> StateNode(v.s) == V(Disabled))
    ensures Scalar(v) && key != "state"
            ==> PropertyTriples(ns, subj, key, v, names) == {Triple(subj, LaderrNode(key), ElementObject(ns, key, v))}
                && (ElementObject(ns, key, v).Iri? <==> key in UriProps)
    ensures v.List? && (forall j :: 0 <= j < |v.items| ==> !v.items[j].Table?)
            ==> forall t :: t in PropertyTriples(ns, subj, key, v, names)
                            <==> exists j :: 0 <= j < |v.items| && t == Triple(subj, LaderrNode(key), ElementObject(ns, key, v.items[j]))
    ensures v.List? ==> forall j :: (0 <= j < |v.items| && v.items[j].Table?
              ==> Triple(subj, LaderrNode(key), NsTerm(ns, NestedId(v.items[j].entries, subj, key, j, names)))
                  in PropertyTriples(ns, subj, key, v, names))
  {
    PropertyListTriples(ns, subj, key, v, names);
  }

  /** A list inside a list under a literal key converts: `tags = [[1, 2]]`
      gives the one literal "[1, 2]", the text of `Literal([1, 2])`. */
  lemma NestedListLiteral(ns: string, subj: Node, names: BlankNamer)
    ensures PropertyConvertible("tags", List([List([Int(1), Int(2)])]))
    ensures PropertyTriples(ns, subj, "tags", List([List([Int(1), Int(2)])]), names)
            == {Triple(subj, LaderrNode("tags"), Lit(AStr("[1, 2]")))}
  {
    var inner := [Int(1), Int(2)];
    assert Repr(inner[0]) == "1" && Repr(inner[1]) == "2" by {
      assert DecimalDigits(1) == "1" && DecimalDigits(2) == "2";
    }
    assert ReprItems(inner, 2) == ReprItems(inner, 1) + ", " + Repr(inner[1]);
    assert Text(List(inner)) == "[1, 2]";
    assert ItemsConvertible("tags", [List(inner)], 1);
    var items := [List(inner)];
    assert ItemsTriples(ns, subj, "tags", items, 1, names)
        == ItemsTriples(ns, subj, "tags", items, 0, names) + ItemTriples(ns, subj, "tags", 0, items[0], names);
  }

  /** The list half of `PropertyTriplesMeaning`. */
  lemma PropertyListTriples(ns: string, subj: Node, key: string, v: Value, names: BlankNamer)
    ensures v.List? && (forall j :: 0 <= j < |v.items| ==> !v.items[j].Table?)
            ==> forall t :: t in PropertyTriples(ns, subj, key, v, names)
                            <==> exists j :: 0 <= j < |v.items| && t == Triple(subj, LaderrNode(key), ElementObject(ns, key, v.items[j]))
    ensures v.List? ==> forall j :: (0 <= j < |v.items| && v.items[j].Table?
              ==> Triple(subj, LaderrNode(key), NsTerm(ns, NestedId(v.items[j].entries, subj, key, j, names)))
                  in PropertyTriples(ns, subj, key, v, names))
  {
    if v.List? {
      var items := v.items;
      var R := PropertyTriples(ns, subj, key, v, names);
      assert R == ItemsTriples(ns, subj, key, items, |items|, names);
      forall j | 0 <= j < |items| && items[j].Table?
        ensures Triple(subj, LaderrNode(key), NsTerm(ns, NestedId(items[j].entries, subj, key, j, names))) in R
      {
        var t := Triple(subj, LaderrNode(key), NsTerm(ns, NestedId(items[j].entries, subj, key, j, names)));
        assert t in NestedTriples(ns, subj, key, j, items[j].entries, names);
        assert t in ItemTriples(ns, subj, key, j, items[j], names);
        ItemsIncludes(ns, subj, key, items, j, |items|, names);
      }
      if forall j :: 0 <= j < |items| ==> !items[j].Table? {
        forall t
          ensures t in R <==> exists j :: 0 <= j < |items| && t == Triple(subj, LaderrNode(key), ElementObject(ns, key, items[j]))
        {
          if t in R {
            var j := ItemsWitness(ns, subj, key, items, |items|, names, t);
            assert t == Triple(subj, LaderrNode(key), ElementObject(ns, key, items[j]));
          }
          if exists j :: 0 <= j < |items| && t == Triple(subj, LaderrNode(key), ElementObject(ns, key, items[j])) {
            var j :| 0 <= j < |items| && t == Triple(subj, LaderrNode(key), ElementObject(ns, key, items[j]));
            assert t in ItemTriples(ns, subj, key, j, items[j], names);
            ItemsIncludes(ns, subj, key, items, j, |items|, names);
          }
        }
      }
    }
  }

  /** `LADERR_NS["id"]`, the term `_process_instance` never emits: "id" is
      not the local name of any LaDeRR term, so it is a plain IRI. */
  const IdTerm: Node := Iri(LaderrNs + "id")

  /** The term of a key other than "id" is never the term of "id". */
  lemma LaderrTermIdDistinct(key: string)
    requires key != "id"
    ensures LaderrNode(key) != IdTerm
  {
    LaderrNodeText(key);
    var a := LaderrNs + key;
    var b := LaderrNs + "id";
    assert a[|LaderrNs|..] == key && b[|LaderrNs|..] == "id";
  }

  /** `_process_instance` types the instance and never emits a triple for the
      key "id", at any depth of nesting. */
  lemma {:induction false} InstanceTriplesMeaning(ns: string, cls: string, id: Value, props: Entries, names: BlankNamer)
    ensures Triple(NsTerm(ns, id), V(Type), LaderrNode(cls)) in InstanceTriples(ns, cls, id, props, names)
    ensures forall t :: t in InstanceTriples(ns, cls, id, props, names) ==> t.p != IdTerm
    decreases Table(props), 1
  {
    var subj := NsTerm(ns, id);
    forall t | t in PropertiesTriples(ns, subj, props, |props|, names)
      ensures t.p != IdTerm
    {
      var j := PropertiesWitness(ns, subj, props, |props|, names, t);
      PropertyHasNoId(ns, subj, props[j].0, props[j].1, names);
    }
  }

  lemma {:induction false} PropertyHasNoId(ns: string, subj: Node, key: string, v: Value, names: BlankNamer)
    requires key != "id"
    ensures forall t :: t in PropertyTriples(ns, subj, key, v, names) ==> t.p != IdTerm
    decreases v, 3
  {
    LaderrTermIdDistinct(key);
    match v
    case List(items) =>
      forall t | t in ItemsTriples(ns, subj, key, items, |items|, names)
        ensures t.p != IdTerm
      {
        var j := ItemsWitness(ns, subj, key, items, |items|, names, t);
        ItemHasNoId(ns, subj, key, j, items[j], names);
      }
    case Table(m) =>
      NestedHasNoId(ns, subj, key, 0, m, names);
    case _ =>
  }

  lemma {:induction false} ItemHasNoId(ns: string, subj: Node, key: string, pos: nat, item: Value, names: BlankNamer)
    requires key != "id"
    ensures forall t :: t in ItemTriples(ns, subj, key, pos, item, names) ==> t.p != IdTerm
    decreases item, 3
  {
    LaderrTermIdDistinct(key);
    if item.Table? {
      NestedHasNoId(ns, subj, key, pos, item.entries, names);
    }
  }

  lemma {:induction false} NestedHasNoId(ns: string, parent: Node, key: string, pos: nat, m: Entries, names: BlankNamer)
    requires key != "id"
    ensures forall t :: t in NestedTriples(ns, parent, key, pos, m, names) ==> t.p != IdTerm
    decreases Table(m), 2
  {
    LaderrTermIdDistinct(key);
    InstanceTriplesMeaning(ns, key, NestedId(m, parent, key, pos, names), m, names);
  }

  /** `_process_instance`: adds the instance's type and then, property by
      property, its triples; `ok` is false where Python raises. */
  method ProcessInstance(g: Graph, ns: string, cls: string, id: Value, props: Entries, names: BlankNamer)
    returns (ok: bool)
    modifies g
    ensures g.namespaces == old(g.namespaces) && old(g.triples) <= g.triples
    ensures ok == InstanceConvertible(props)
    ensures ok ==> g.triples == old(g.triples) + InstanceTriples(ns, cls, id, props, names)
    decreases Table(props), 1
  {
    var subj := NsTerm(ns, id);
    LaderrNodeIsTerm(cls);
    g.Add(Triple(subj, V(Type), LaderrTerm(cls)));
    ok := ProcessProperties(g, ns, subj, props, names);
  }

  /** The property loop of `_process_instance`, "id" skipped. */
  method ProcessProperties(g: Graph, ns: string, subj: Node, props: Entries, names: BlankNamer)
    returns (ok: bool)
    modifies g
    ensures g.namespaces == old(g.namespaces) && old(g.triples) <= g.triples
    ensures ok == PropertiesConvertible(props, |props|)
    ensures ok ==> g.triples == old(g.triples) + PropertiesTriples(ns, subj, props, |props|, names)
    decreases Table(props), 0
  {
    var i := 0;
    while i < |props|
      invariant 0 <= i <= |props|
      invariant g.namespaces == old(g.namespaces) && old(g.triples) <= g.triples
      invariant PropertiesConvertible(props, i)
      invariant g.triples == old(g.triples) + PropertiesTriples(ns, subj, props, i, names)
    {
      PropertiesStep(ns, subj, props, i, names);
      PropertiesConvertibleStep(props, i);
      if props[i].0 != "id" {
        ok := ProcessProperty(g, ns, subj, props[i].0, props[i].1, names);
        if !ok {
          PropertiesConvertibleUpTo(props, i + 1);
          return;
        }
      }
      i := i + 1;
    }
    ok := true;
  }

  lemma PropertiesConvertibleStep(props: Entries, i: nat)
    requires i < |props|
    ensures PropertiesConvertible(props, i + 1)
        <==> PropertiesConvertible(props, i)
             && (props[i].0 != "id" ==> PropertyConvertible(props[i].0, props[i].1))
  {
  }

  /** A failing property fails the whole instance. */
  lemma PropertiesConvertibleUpTo(props: Entries, n: nat)
    requires n <= |props|
    ensures PropertiesConvertible(props, |props|) ==> PropertiesConvertible(props, n)
  {
  }

  /** The body of the property loop of `_process_instance` for one key. */
  method ProcessProperty(g: Graph, ns: string, subj: Node, key: string, v: Value, names: BlankNamer)
    returns (ok: bool)
    modifies g
    ensures g.namespaces == old(g.namespaces) && old(g.triples) <= g.triples
    ensures ok == PropertyConvertible(key, v)
    ensures ok ==> g.triples == old(g.triples) + PropertyTriples(ns, subj, key, v, names)
    decreases v, 3
  {
    if v.List? {
      ok := ProcessItems(g, ns, subj, key, v.items, names);
    } else if v.Table? {
      ok := ProcessNested(g, ns, subj, key, 0, v.entries, names);
    } else if key == "state" {
      if v.Str? {
        g.Add(Triple(subj, V(State), StateNode(v.s)));
        ok := true;
      } else {
        ok := false;
      }
    } else if key in UriProps {
      LaderrNodeIsTerm(key);
      g.Add(Triple(subj, LaderrTerm(key), NsTerm(ns, v)));
      ok := true;
    } else {
      LaderrNodeIsTerm(key);
      g.Add(Triple(subj, LaderrTerm(key), LiteralOf(v)));
      ok := true;
    }
  }

  /** The element loop of `_process_instance` for one list value. */
  method ProcessItems(g: Graph, ns: string, subj: Node, key: string, items: seq<Value>, names: BlankNamer)
    returns (ok: bool)
    modifies g
    ensures g.namespaces == old(g.namespaces) && old(g.triples) <= g.triples
    ensures ok == ItemsConvertible(key, items, |items|)
    ensures ok ==> g.triples == old(g.triples) + ItemsTriples(ns, subj, key, items, |items|, names)
    decreases List(items), 2
  {
    var j := 0;
    while j < |items|
      invariant 0 <= j <= |items|
      invariant g.namespaces == old(g.namespaces) && old(g.triples) <= g.triples
      invariant ItemsConvertible(key, items, j)
      invariant g.triples == old(g.triples) + ItemsTriples(ns, subj, key, items, j, names)
    {
      ItemsStep(ns, subj, key, items, j, names);
      ok := ProcessItem(g, ns, subj, key, j, items[j], names);
      if !ok {
        return;
      }
      j := j + 1;
    }
    ok := true;
  }

  /** The body of the element loop for one list element. */
  method ProcessItem(g: Graph, ns: string, subj: Node, key: string, pos: nat, item: Value, names: BlankNamer)
    returns (ok: bool)
    modifies g
    ensures g.namespaces == old(g.namespaces) && old(g.triples) <= g.triples
    ensures ok == ItemConvertible(key, item)
    ensures ok ==> g.triples == old(g.triples) + ItemTriples(ns, subj, key, pos, item, names)
    decreases item, 3
  {
    if item.Table? {
      ok := ProcessNested(g, ns, subj, key, pos, item.entries, names);
    } else if key in UriProps {
      LaderrNodeIsTerm(key);
      g.Add(Triple(subj, LaderrTerm(key), NsTerm(ns, item)));
      ok := true;
    } else {
      LaderrNodeIsTerm(key);
      g.Add(Triple(subj, LaderrTerm(key), LiteralOf(item)));
      ok := true;
    }
  }

  /** A nested table: the recursive call, then the link from the parent. */
  method ProcessNested(g: Graph, ns: string, parent: Node, key: string, pos: nat, m: Entries, names: BlankNamer)
    returns (ok: bool)
    modifies g
    ensures g.namespaces == old(g.namespaces) && old(g.triples) <= g.triples
    ensures ok == InstanceConvertible(m)
    ensures ok ==> g.triples == old(g.triples) + NestedTriples(ns, parent, key, pos, m, names)
    decreases Table(m), 2
  {
    var nestedId := NestedId(m, parent, key, pos, names);
    ok := ProcessInstance(g, ns, key, nestedId, m, names);
    if !ok {
      return;
    }
    LaderrNodeIsTerm(key);
    g.Add(Triple(parent, LaderrTerm(key), NsTerm(ns, nestedId)));
  }

  // =====================================================================
  // _convert_data_to_graph

  /** The keys of a scenario that describe the scenario itself. */
  const ScenarioKeys: set<string> := {"label", "situation", "status"}

  /** `spec_data.get("Scenario", {})`. */
  function ScenarioTable(data: Entries): Value {
    match Get(data, "Scenario")
    case Some(v) => v
    case None => Table([])
  }

  /** The three nested tables `_convert_data_to_graph` walks, which decide
      what an entry means: the Scenario table maps scenario ids to their
      contents, a scenario's content maps keys to its label, situation and
      status or to class tables, and a class table maps instance ids to
      their properties. */
  datatype Level = ScenarioLevel | ContentLevel | ClassLevel(cls: string)

  /** The triples `_convert_data_to_graph` adds after the Specification's. */
  ghost function DataTriples(ns: string, data: Entries, names: BlankNamer): set<Triple>
    requires ScenarioTable(data).Table?
  {
    var scenarios := ScenarioTable(data).entries;
    LevelTriples(ns, ScenarioLevel, SpecificationNode(ns), scenarios, |scenarios|, names)
  }

  /** The triples of the first `n` entries of a table at `level`, which
      hangs from `owner`: the Specification for the Scenario table, the
      scenario for its content and its class tables. */
  ghost function LevelTriples(ns: string, level: Level, owner: Node, es: Entries, n: nat, names: BlankNamer): set<Triple>
    requires n <= |es|
    decreases Table(es), 0, n
  {
    if n == 0 then {}
    else LevelTriples(ns, level, owner, es, n - 1, names) + EntryTriples(ns, level, owner, es[n - 1].0, es[n - 1].1, names)
  }

  /** One entry of a table at `level`. A scenario is constructed by the
      Specification and typed Scenario, and a table-valued one adds its
      content. In a scenario, "label" is a literal, "situation" and "status"
      a LaDeRR term, another table-valued key a class table, anything else
      nothing. In a class table, a table-valued entry is an instance, linked
      by `constructs` from the Specification and by `components` from the
      scenario. */
  ghost function EntryTriples(ns: string, level: Level, owner: Node, key: string, v: Value, names: BlankNamer): set<Triple>
    decreases v, 1
  {
    match level
    case ScenarioLevel =>
      var scen := NsTerm(ns, Str(key));
      {Triple(owner, V(Constructs), scen), Triple(scen, V(Type), V(Scenario))}
      + (if v.Table? then LevelTriples(ns, ContentLevel, scen, v.entries, |v.entries|, names) else {})
    case ContentLevel =>
      if key in ScenarioKeys then
        if key == "label" then {Triple(owner, LaderrNode(key), LiteralOf(v))}
        else {Triple(owner, LaderrNode(key), LaderrNode(TermName(v)))}
      else if v.Table? then LevelTriples(ns, ClassLevel(key), owner, v.entries, |v.entries|, names)
      else {}
    case ClassLevel(cls) =>
      if v.Table? then
        var inst := NsTerm(ns, Str(key));
        InstanceTriples(ns, cls, Str(key), v.entries, names)
        + {Triple(SpecificationNode(ns), V(Constructs), inst), Triple(owner, V(Components), inst)}
      else {}
  }

  /** `_convert_data_to_graph` completes without an exception: the Scenario
      table and every scenario are dicts, and every instance converts. */
  ghost predicate DataConvertible(data: Entries) {
    var scenarios := ScenarioTable(data);
    scenarios.Table? && LevelConvertible(ScenarioLevel, scenarios.entries, |scenarios.entries|)
  }

  ghost predicate LevelConvertible(level: Level, es: Entries, n: nat)
    requires n <= |es|
    decreases Table(es), 0, n
  {
    n == 0 || (LevelConvertible(level, es, n - 1) && EntryConvertible(level, es[n - 1].0, es[n - 1].1))
  }

  ghost predicate EntryConvertible(level: Level, key: string, v: Value)
    decreases v, 1
  {
    match level
    case ScenarioLevel => v.Table? && LevelConvertible(ContentLevel, v.entries, |v.entries|)
    case ContentLevel =>
      key !in ScenarioKeys && v.Table? ==> LevelConvertible(ClassLevel(key), v.entries, |v.entries|)
    case ClassLevel(_) => v.Table? ==> InstanceConvertible(v.entries)
  }

  /** Conversion succeeding on a table is necessary for it to succeed on the
      whole: the loops stop at the first failure. */
  lemma {:induction false} LevelConvertiblePrefix(level: Level, es: Entries, m: nat, n: nat)
    requires m <= n <= |es| && LevelConvertible(level, es, n)
    ensures LevelConvertible(level, es, m)
    decreases n
  {
    if m < n {
      LevelConvertiblePrefix(level, es, m, n - 1);
    }
  }

  /** `_convert_data_to_graph`: the Specification's graph, then every
      scenario; `ok` is false where Python raises. */
  method ConvertDataToGraph(meta: Entries, data: Entries, names: BlankNamer) returns (g: Graph, ok: bool)
    requires BaseIsText(meta)
    ensures fresh(g)
    ensures g.namespaces == LaderrBindings(MetadataBase(meta))
    ensures BasePrefix(g.namespaces) == MetadataBase(meta)
    ensures HeaderTriples(MetadataBase(meta)) <= g.triples
    ensures ok == DataConvertible(data)
    ensures ok ==> g.triples == HeaderTriples(MetadataBase(meta)) + DataTriples(MetadataBase(meta), data, names)
  {
    var dataNs, specUri;
    g, dataNs, specUri := InitializeGraphWithNamespaces(meta);
    LaderrBindingsBasePrefix(dataNs);
    var scenarios := ScenarioTable(data);
    if !scenarios.Table? {
      return g, false;
    }
    ok := ConvertScenarios(g, dataNs, scenarios.entries, names);
  }

  /** The scenario loop of `_convert_data_to_graph`. */
  method ConvertScenarios(g: Graph, ns: string, es: Entries, names: BlankNamer) returns (ok: bool)
    modifies g
    ensures g.namespaces == old(g.namespaces) && old(g.triples) <= g.triples
    ensures ok == LevelConvertible(ScenarioLevel, es, |es|)
    ensures ok ==> g.triples == old(g.triples) + LevelTriples(ns, ScenarioLevel, SpecificationNode(ns), es, |es|, names)
  {
    var i := 0;
    while i < |es|
      invariant 0 <= i <= |es|
      invariant g.namespaces == old(g.namespaces)
      invariant LevelConvertible(ScenarioLevel, es, i)
      invariant g.triples == old(g.triples) + LevelTriples(ns, ScenarioLevel, SpecificationNode(ns), es, i, names)
    {
      ok := ConvertScenario(g, ns, es[i].0, es[i].1, names);
      if !ok {
        if LevelConvertible(ScenarioLevel, es, |es|) {
          LevelConvertiblePrefix(ScenarioLevel, es, i + 1, |es|);
        }
        return;
      }
      i := i + 1;
    }
    ok := true;
  }

  /** The body of the scenario loop of `_convert_data_to_graph`. */
  method ConvertScenario(g: Graph, ns: string, sid: string, content: Value, names: BlankNamer) returns (ok: bool)
    modifies g
    ensures g.namespaces == old(g.namespaces) && old(g.triples) <= g.triples
    ensures ok == EntryConvertible(ScenarioLevel, sid, content)
    ensures ok ==> g.triples == old(g.triples) + EntryTriples(ns, ScenarioLevel, SpecificationNode(ns), sid, content, names)
  {
    var scen := NsTerm(ns, Str(sid));
    g.Add(Triple(SpecificationNode(ns), V(Constructs), scen));
    g.Add(Triple(scen, V(Type), V(Scenario)));
    if !content.Table? {
      return false;
    }
    ok := ConvertContent(g, ns, scen, content.entries, names);
  }

  /** The loop over the keys of one scenario. */
  method ConvertContent(g: Graph, ns: string, scen: Node, es: Entries, names: BlankNamer) returns (ok: bool)
    modifies g
    ensures g.namespaces == old(g.namespaces) && old(g.triples) <= g.triples
    ensures ok == LevelConvertible(ContentLevel, es, |es|)
    ensures ok ==> g.triples == old(g.triples) + LevelTriples(ns, ContentLevel, scen, es, |es|, names)
  {
    var i := 0;
    while i < |es|
      invariant 0 <= i <= |es|
      invariant g.namespaces == old(g.namespaces)
      invariant LevelConvertible(ContentLevel, es, i)
      invariant g.triples == old(g.triples) + LevelTriples(ns, ContentLevel, scen, es, i, names)
    {
      ok := ConvertContentEntry(g, ns, scen, es[i].0, es[i].1, names);
      if !ok {
        if LevelConvertible(ContentLevel, es, |es|) {
          LevelConvertiblePrefix(ContentLevel, es, i + 1, |es|);
        }
        return;
      }
      i := i + 1;
    }
    ok := true;
  }

  /** One key of a scenario, as the body of the inner loop of
      `_convert_data_to_graph` treats it. */
  method ConvertContentEntry(g: Graph, ns: string, scen: Node, key: string, v: Value, names: BlankNamer)
    returns (ok: bool)
    modifies g
    ensures g.namespaces == old(g.namespaces) && old(g.triples) <= g.triples
    ensures ok == EntryConvertible(ContentLevel, key, v)
    ensures ok ==> g.triples == old(g.triples) + EntryTriples(ns, ContentLevel, scen, key, v, names)
  {
    ok := true;
    if key in ScenarioKeys {
      if key != "label" {
        LaderrNodeIsTerm(key);
        LaderrNodeIsTerm(TermName(v));
        g.Add(Triple(scen, LaderrTerm(key), LaderrTerm(TermName(v))));
      } else {
        LaderrNodeIsTerm(key);
        g.Add(Triple(scen, LaderrTerm(key), LiteralOf(v)));
      }
    } else if v.Table? {
      ok := ConvertClassTable(g, ns, scen, key, v.entries, names);
    }
  }

  /** The instance loop over one class table of a scenario. */
  method ConvertClassTable(g: Graph, ns: string, scen: Node, cls: string, table: Entries, names: BlankNamer)
    returns (ok: bool)
    modifies g
    ensures g.namespaces == old(g.namespaces) && old(g.triples) <= g.triples
    ensures ok == LevelConvertible(ClassLevel(cls), table, |table|)
    ensures ok ==> g.triples == old(g.triples) + LevelTriples(ns, ClassLevel(cls), scen, table, |table|, names)
  {
    var i := 0;
    while i < |table|
      invariant 0 <= i <= |table|
      invariant g.namespaces == old(g.namespaces)
      invariant LevelConvertible(ClassLevel(cls), table, i)
      invariant g.triples == old(g.triples) + LevelTriples(ns, ClassLevel(cls), scen, table, i, names)
    {
      var props := table[i].1;
      if props.Table? {
        ok := ConvertMember(g, ns, scen, cls, table[i].0, props.entries, names);
        if !ok {
          if LevelConvertible(ClassLevel(cls), table, |table|) {
            LevelConvertiblePrefix(ClassLevel(cls), table, i + 1, |table|);
          }
          return;
        }
      }
      i := i + 1;
    }
    ok := true;
  }

  /** One instance of a class table: its own triples, then the
      `constructs` and `components` links. */
  method ConvertMember(g: Graph, ns: string, scen: Node, cls: string, iid: string, props: Entries, names: BlankNamer)
    returns (ok: bool)
    modifies g
    ensures g.namespaces == old(g.namespaces) && old(g.triples) <= g.triples
    ensures ok == InstanceConvertible(props)
    ensures ok ==> g.triples == old(g.triples) + EntryTriples(ns, ClassLevel(cls), scen, iid, Table(props), names)
  {
    ok := ProcessInstance(g, ns, cls, Str(iid), props, names);
    if !ok {
      return;
    }
    var inst := NsTerm(ns, Str(iid));
    g.Add(Triple(SpecificationNode(ns), V(Constructs), inst));
    g.Add(Triple(scen, V(Components), inst));
  }

  /** Each entry's triples are among those of its whole table. */
  lemma {:induction false} LevelIncludes(ns: string, level: Level, owner: Node, es: Entries, j: nat, n: nat, names: BlankNamer)
    requires j < n <= |es|
    ensures EntryTriples(ns, level, owner, es[j].0, es[j].1, names) <= LevelTriples(ns, level, owner, es, n, names)
    decreases n
  {
    if j < n - 1 {
      LevelIncludes(ns, level, owner, es, j, n - 1, names);
    }
  }

  /** Every scenario of the Scenario table is typed Scenario and linked from
      the Specification by `constructs`. */
  lemma ScenarioLinked(ns: string, data: Entries, names: BlankNamer, sid: string, content: Value)
    requires ScenarioTable(data).Table? && (sid, content) in ScenarioTable(data).entries
    ensures Triple(SpecificationNode(ns), V(Constructs), NsTerm(ns, Str(sid))) in DataTriples(ns, data, names)
    ensures Triple(NsTerm(ns, Str(sid)), V(Type), V(Scenario)) in DataTriples(ns, data, names)
  {
    var es := ScenarioTable(data).entries;
    var j :| 0 <= j < |es| && es[j] == (sid, content);
    LevelIncludes(ns, ScenarioLevel, SpecificationNode(ns), es, j, |es|, names);
  }

  /** An instance `iid` in the class table `cls` of a scenario `sid`. */
  ghost predicate Declares(data: Entries, sid: string, cls: string, iid: string, props: Entries) {
    ScenarioTable(data).Table? && cls !in ScenarioKeys
    && exists content, table ::
         (sid, Table(content)) in ScenarioTable(data).entries
         && (cls, Table(table)) in content
         && (iid, Table(props)) in table
  }

  /** Every instance under a scenario is typed with its class and linked both
      by `specification constructs instance` and `scenario components
      instance`. */
  lemma InstanceLinked(ns: string, data: Entries, names: BlankNamer, sid: string, cls: string, iid: string, props: Entries)
    requires Declares(data, sid, cls, iid, props)
    ensures Triple(SpecificationNode(ns), V(Constructs), NsTerm(ns, Str(iid))) in DataTriples(ns, data, names)
    ensures Triple(NsTerm(ns, Str(sid)), V(Components), NsTerm(ns, Str(iid))) in DataTriples(ns, data, names)
    ensures Triple(NsTerm(ns, Str(iid)), V(Type), LaderrNode(cls)) in DataTriples(ns, data, names)
  {
    var content, table :| (sid, Table(content)) in ScenarioTable(data).entries
                          && (cls, Table(table)) in content && (iid, Table(props)) in table;
    var es := ScenarioTable(data).entries;
    var j :| 0 <= j < |es| && es[j] == (sid, Table(content));
    var k :| 0 <= k < |content| && content[k] == (cls, Table(table));
    var m :| 0 <= m < |table| && table[m] == (iid, Table(props));
    var scen := NsTerm(ns, Str(sid));
    InstanceTriplesMeaning(ns, cls, Str(iid), props, names);
    LevelIncludes(ns, ClassLevel(cls), scen, table, m, |table|, names);
    assert EntryTriples(ns, ContentLevel, scen, cls, Table(table), names)
        == LevelTriples(ns, ClassLevel(cls), scen, table, |table|, names);
    LevelIncludes(ns, ContentLevel, scen, content, k, |content|, names);
    assert LevelTriples(ns, ContentLevel, scen, content, |content|, names)
        <= EntryTriples(ns, ScenarioLevel, SpecificationNode(ns), sid, Table(content), names);
    LevelIncludes(ns, ScenarioLevel, SpecificationNode(ns), es, j, |es|, names);
  }

  // =====================================================================
  // clean_graph

  /** `str(s).startswith(base_url)`. */
  predicate StartsWith(s: string, prefix: string) {
    |prefix| <= |s| && s[..|prefix|] == prefix
  }

  /** A triple that clean_graph keeps. */
  predicate Kept(t: Triple, baseUrl: string) {
    StartsWith(NodeText(t.s), baseUrl)
    && !t.s.Blank? && !t.p.Blank? && !t.o.Blank?
    && !(t.p == V(Type) && t.o == V(Resource))
    && t.p != V(TopObjectProperty)
  }

  /** The triples clean_graph removes. */
  function Unwanted(T: set<Triple>, baseUrl: string): (r: set<Triple>)
    ensures r <= T
    ensures forall t :: t in r <==> t in T && !Kept(t, baseUrl)
  {
    set t | t in T && !Kept(t, baseUrl)
  }

  /** The graph clean_graph leaves. */
  function Cleaned(T: set<Triple>, baseUrl: string): set<Triple> {
    T - Unwanted(T, baseUrl)
  }

  /** `clean_graph`: removes in place the triples that are not kept. */
  method CleanGraph(g: Graph, baseUrl: string)
    modifies g
    ensures g.triples == Cleaned(old(g.triples), baseUrl)
    ensures g.namespaces == old(g.namespaces)
  {
    var unwanted := set t | t in g.triples && !Kept(t, baseUrl);
    g.RemoveAll(unwanted);
  }

  /** Every remaining triple satisfies the four conditions, and every input
      triple satisfying them remains; nothing is added. */
  lemma CleanedMeaning(T: set<Triple>, baseUrl: string)
    ensures Cleaned(T, baseUrl) <= T
    ensures forall t :: t in Cleaned(T, baseUrl) <==> t in T && Kept(t, baseUrl)
  {
  }

  /** Cleaning twice with the same base is cleaning once. */
  lemma CleanedIdempotent(T: set<Triple>, baseUrl: string)
    ensures Cleaned(Cleaned(T, baseUrl), baseUrl) == Cleaned(T, baseUrl)
  {
  }
}
