/** The parsed TOML values the specification handler and the graph
    converter work on: Python dicts, lists and scalars as `tomllib` produces
    them. A dict is a sequence of entries in insertion order, as Python keeps
    it; the operations below behave like `dict.get`, item assignment and
    `del` on a dict whose keys are distinct. */
module Toml {
  import opened Rdf

  datatype Value =
    | Str(s: string)
    | Int(i: int)
    | Bool(b: bool)
    | List(items: seq<Value>)
    | Table(entries: seq<(string, Value)>)

  type Entries = seq<(string, Value)>

  /** `key in d`. */
  predicate HasKey(es: Entries, key: string) {
    es != [] && (es[0].0 == key || HasKey(es[1..], key))
  }

  /** `key in d` holds when some entry has the key. */
  lemma {:induction false} HasKeyAt(es: Entries, key: string)
    ensures HasKey(es, key) <==> exists i :: 0 <= i < |es| && es[i].0 == key
  {
    if es != [] {
      HasKeyAt(es[1..], key);
      if exists i :: 0 <= i < |es| && es[i].0 == key {
        var i :| 0 <= i < |es| && es[i].0 == key;
        if i > 0 {
          assert es[1..][i - 1].0 == key;
        }
      }
      if HasKey(es[1..], key) {
        var i :| 0 <= i < |es[1..]| && es[1..][i].0 == key;
        assert es[i + 1].0 == key;
      }
    }
  }

  /** Distinct keys, as every Python dict has. */
  predicate UniqueKeys(es: Entries) {
    forall i, j :: 0 <= i < j < |es| ==> es[i].0 != es[j].0
  }

  /** `d.get(key)`: the value of the first entry with the key. */
  function Get(es: Entries, key: string): (r: Option<Value>)
    ensures r.None? <==> !HasKey(es, key)
  {
    if es == [] then None
    else if es[0].0 == key then Some(es[0].1)
    else Get(es[1..], key)
  }

  /** The value `d.get(key)` finds sits at the first position holding the
      key. */
  lemma {:induction false} GetIndex(es: Entries, key: string)
    requires HasKey(es, key)
    ensures exists i :: 0 <= i < |es| && es[i] == (key, Get(es, key).value)
                        && forall j :: 0 <= j < i ==> es[j].0 != key
  {
    if es[0].0 != key {
      GetIndex(es[1..], key);
      var i :| 0 <= i < |es[1..]| && es[1..][i] == (key, Get(es, key).value)
               && forall j :: 0 <= j < i ==> es[1..][j].0 != key;
      assert es[i + 1] == (key, Get(es, key).value);
    }
  }

  /** `d[key] = v`: the first entry with the key gets the new value in place,
      or the entry is appended when the key is absent. */
  function Put(es: Entries, key: string, v: Value): Entries
  {
    if es == [] then [(key, v)]
    else if es[0].0 == key then [(key, v)] + es[1..]
    else
      var rest := Put(es[1..], key, v);
      [es[0]] + rest
  }

  /** Assigning a key that is present keeps the dict's size; a new key is
      appended last, in insertion order. */
  lemma {:induction false} PutAppends(es: Entries, key: string, v: Value)
    ensures HasKey(es, key) ==> |Put(es, key, v)| == |es|
    ensures !HasKey(es, key) ==> Put(es, key, v) == es + [(key, v)]
  {
    if es != [] && es[0].0 != key {
      PutAppends(es[1..], key, v);
      assert es == [es[0]] + es[1..];
    }
  }

  /** `del d[key]` (and no-op when absent): every entry with the key goes,
      the others keep their order. */
  function Delete(es: Entries, key: string): (r: Entries)
    ensures |r| <= |es|
  {
    if es == [] then []
    else if es[0].0 == key then Delete(es[1..], key)
    else [es[0]] + Delete(es[1..], key)
  }

  /** `del d[key]` keeps exactly the entries under other keys. */
  lemma {:induction false} DeleteEntries(es: Entries, key: string)
    ensures forall e :: e in Delete(es, key) <==> e in es && e.0 != key
  {
    if es != [] {
      DeleteEntries(es[1..], key);
    }
  }

  /** `list(d.keys())`. */
  function Keys(es: Entries): (r: seq<string>)
    ensures |r| == |es| && forall i :: 0 <= i < |es| ==> r[i] == es[i].0
  {
    if es == [] then [] else [es[0].0] + Keys(es[1..])
  }

  /** `not v` in Python: the empty string, zero, False, the empty list and
      the empty dict. */
  predicate Falsy(v: Value) {
    match v
    case Str(s) => s == ""
    case Int(i) => i == 0
    case Bool(b) => !b
    case List(items) => items == []
    case Table(es) => es == []
  }

  /** After `d[key] = v`, the key maps to `v` and every other key keeps its
      value. */
  lemma {:induction false} PutGet(es: Entries, key: string, v: Value, other: string)
    ensures Get(Put(es, key, v), key) == Some(v)
    ensures other != key ==> Get(Put(es, key, v), other) == Get(es, other)
  {
    if es != [] && es[0].0 != key {
      PutGet(es[1..], key, v, other);
    }
  }

  /** After `del d[key]` the key is absent and every other key keeps its
      value. */
  lemma {:induction false} DeleteGet(es: Entries, key: string, other: string)
    ensures Get(Delete(es, key), key) == None
    ensures other != key ==> Get(Delete(es, key), other) == Get(es, other)
  {
    if es != [] {
      DeleteGet(es[1..], key, other);
    }
  }

  /** Item assignment and `del` keep the keys distinct. */
  lemma {:induction false} PutDeleteUnique(es: Entries, key: string, v: Value)
    requires UniqueKeys(es)
    ensures UniqueKeys(Put(es, key, v)) && UniqueKeys(Delete(es, key))
  {
    if es != [] {
      PutDeleteUnique(es[1..], key, v);
      var r := Put(es, key, v);
      if es[0].0 != key {
        assert forall j :: 1 <= j < |r| ==> r[j] in Put(es[1..], key, v);
        PutKeys(es[1..], key, v);
      }
      var d := Delete(es, key);
      if es[0].0 != key {
        DeleteEntries(es[1..], key);
        assert d == [es[0]] + Delete(es[1..], key);
        assert forall j :: 1 <= j < |d| ==> d[j] in Delete(es[1..], key);
      }
    }
  }

  /** The keys after item assignment are the old keys plus the new one. */
  lemma {:induction false} PutKeys(es: Entries, key: string, v: Value)
    ensures forall e :: e in Put(es, key, v) ==> e.0 == key || e in es
  {
    if es != [] && es[0].0 != key {
      PutKeys(es[1..], key, v);
    }
  }

  /** Assigning a key the value it already has changes nothing. */
  lemma {:induction false} PutSame(es: Entries, key: string, v: Value)
    requires Get(es, key) == Some(v)
    ensures Put(es, key, v) == es
  {
    if es[0].0 != key {
      PutSame(es[1..], key, v);
    }
  }

  /** `d.get(key)` is the value at the first position holding the key. */
  lemma {:induction false} GetAt(es: Entries, key: string, i: nat)
    requires i < |es| && es[i].0 == key && forall j :: 0 <= j < i ==> es[j].0 != key
    ensures Get(es, key) == Some(es[i].1)
  {
    if i > 0 {
      GetAt(es[1..], key, i - 1);
    }
  }

  /** A second assignment to the same key overrides the first. */
  lemma {:induction false} PutPut(es: Entries, key: string, v: Value, w: Value)
    ensures Put(Put(es, key, v), key, w) == Put(es, key, w)
  {
    if es != [] && es[0].0 != key {
      PutPut(es[1..], key, v, w);
    }
  }

  // =====================================================================
  // str() and repr()

  /** The decimal digits of `n`. */
  function DecimalDigits(n: nat): (r: string)
    ensures r != [] && forall i :: 0 <= i < |r| ==> '0' <= r[i] <= '9'
  {
    if n < 10 then [(n + 48) as char] else DecimalDigits(n / 10) + [(n % 10 + 48) as char]
  }

  /** `str(i)` of an integer. */
  function IntText(i: int): string {
    if i < 0 then "-" + DecimalDigits(-i) else DecimalDigits(i)
  }

  /** A lower-case hexadecimal digit. */
  function HexDigit(n: nat): char
    requires n < 16
  {
    if n < 10 then (n + 48) as char else (n - 10 + 97) as char
  }

  /** The printable ASCII characters `repr` copies as they are, unless they
      are the quote or a backslash. */
  predicate PrintableAscii(c: char) {
    ' ' <= c <= '~'
  }

  /** One character of a string as `repr` writes it between `quote`s: the
      quote and the backslash escaped, tab, newline and carriage return by
      name, the other ASCII control characters in hexadecimal. */
  function EscapeChar(c: char, quote: char): string {
    if c == quote || c == '\\' then ['\\', c]
    else if c == '\t' then "\\t"
    else if c == '\n' then "\\n"
    else if c == '\r' then "\\r"
    else if c < ' ' || c as int == 0x7f then ['\\', 'x', HexDigit(c as int / 16), HexDigit(c as int % 16)]
    else [c]
  }

  function Escaped(s: string, quote: char): string {
    if s == [] then [] else EscapeChar(s[0], quote) + Escaped(s[1..], quote)
  }

  /** `repr(s)` of a string: in single quotes, unless it holds a single
      quote and no double quote. */
  function StrRepr(s: string): string {
    var quote := if '\'' in s && '"' !in s then '"' else '\'';
    [quote] + Escaped(s, quote) + [quote]
  }

  /** `repr(v)`: how Python writes a value inside a list or a dict. */
  function Repr(v: Value): string
    decreases v, 1
  {
    match v
    case Str(s) => StrRepr(s)
    case Int(i) => IntText(i)
    case Bool(b) => if b then "True" else "False"
    case List(items) => "[" + ReprItems(items, |items|) + "]"
    case Table(es) => "{" + ReprEntries(es, |es|) + "}"
  }

  /** The first `n` elements of a list, separated by ", ". */
  function ReprItems(items: seq<Value>, n: nat): string
    requires n <= |items|
    decreases List(items), 0, n
  {
    if n == 0 then ""
    else if n == 1 then Repr(items[0])
    else ReprItems(items, n - 1) + ", " + Repr(items[n - 1])
  }

  /** The first `n` entries of a dict as `key: value`, separated by ", ". */
  function ReprEntries(es: Entries, n: nat): string
    requires n <= |es|
    decreases Table(es), 0, n
  {
    if n == 0 then ""
    else if n == 1 then StrRepr(es[0].0) + ": " + Repr(es[0].1)
    else ReprEntries(es, n - 1) + ", " + StrRepr(es[n - 1].0) + ": " + Repr(es[n - 1].1)
  }

  /** `str(v)`: a string is its own text, any other value its `repr`. */
  function Text(v: Value): string {
    if v.Str? then v.s else Repr(v)
  }

  /** A string of printable ASCII without quote or backslash is written by
      `repr` as itself between single quotes. */
  lemma {:induction false} PlainStrRepr(s: string)
    requires forall i :: 0 <= i < |s| ==> PrintableAscii(s[i]) && s[i] != '\'' && s[i] != '\\'
    ensures StrRepr(s) == "'" + s + "'"
  {
    PlainEscaped(s, '\'');
  }

  lemma {:induction false} PlainEscaped(s: string, quote: char)
    requires forall i :: 0 <= i < |s| ==> PrintableAscii(s[i]) && s[i] != quote && s[i] != '\\'
    ensures Escaped(s, quote) == s
  {
    if s != [] {
      PlainEscaped(s[1..], quote);
      assert s == [s[0]] + s[1..];
    }
  }

  /** `str` of a list is its elements' `repr`s between brackets: `str([])`
      is "[]" and `str(["a"])` is "['a']", quotes included. */
  lemma ListText()
    ensures Text(List([])) == "[]"
    ensures Text(List([Str("a")])) == "['a']"
  {
    PlainStrRepr("a");
  }
}
