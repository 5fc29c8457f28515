/**
 * JSON-like values as the pipeline holds them after `json.loads`, their
 * Python `str()` form, and the `json_to_text` pretty-printer of the shared
 * library (pylon/void_ray.py).
 */
module JsonText {
  import opened Wrappers
  import opened Text

  /**
   * A value produced by `json.loads`. A number keeps the text Python's
   * `str()` gives for it; dictionaries keep their insertion order.
   */
  datatype Json =
    | JNull
    | JBool(b: bool)
    | JNum(text: string)
    | JStr(s: string)
    | JList(items: seq<Json>)
    | JDict(entries: seq<Entry>)
  {
    predicate IsContainer() {
      JList? || JDict?
    }
  }

  datatype Entry = Entry(key: string, value: Json)

  /** The value stored under `key`, if any (dictionary keys are unique). */
  function Lookup(entries: seq<Entry>, key: string): (r: Option<Json>)
    ensures r.Some? <==> exists i :: 0 <= i < |entries| && entries[i].key == key
    ensures r.Some? ==> exists i :: 0 <= i < |entries| && entries[i] == Entry(key, r.value)
  {
    if |entries| == 0 then None
    else if entries[0].key == key then Some(entries[0].value)
    else
      var r := Lookup(entries[1..], key);
      assert forall i :: 1 <= i < |entries| ==> entries[1..][i - 1] == entries[i];
      r
  }

  /** `str()` of a scalar that is not a string. */
  function ScalarText(j: Json): string
    requires !j.IsContainer() && !j.JStr?
  {
    match j
    case JNull => "None"
    case JBool(b) => if b then "True" else "False"
    case JNum(t) => t
  }

  /**
   * `repr()` of a value, as `str()` of a container prints its elements.
   * Strings are quoted with single quotes; Python's escaping rules are
   * not modelled.
   */
  function PyRepr(j: Json): string
    decreases j
  {
    match j
    case JStr(s) => "'" + s + "'"
    case JList(items) =>
      "[" + Join(", ", seq(|items|, i requires 0 <= i < |items| => PyRepr(items[i]))) + "]"
    case JDict(es) =>
      "{" + Join(", ", seq(|es|, i requires 0 <= i < |es| => "'" + es[i].key + "': " + PyRepr(es[i].value))) + "}"
    case _ => ScalarText(j)
  }

  /** `str(obj)`: a string is itself, a container prints as its `repr()`. */
  function PyStr(j: Json): string {
    if j.JStr? then j.s
    else if j.IsContainer() then PyRepr(j)
    else ScalarText(j)
  }

  /** One line of a dictionary rendering, before the value's own text. */
  function EntryHead(indent: nat, key: string): string {
    Spaces(2 * indent) + key + ": "
  }

  /** One line of a list rendering, before the item's own text. */
  function ItemHead(indent: nat): string {
    Spaces(2 * indent) + "- "
  }

  /**
   * `json_to_text(obj, indent)`: a dictionary gives one segment per entry
   * and a list one segment per item, joined by newlines, each value
   * rendered one level deeper; anything else is its `str()`.
   */
  function JsonToText(j: Json, indent: nat): (r: string)
    ensures j.JDict? && |j.entries| == 0 ==> r == ""
    ensures j.JList? && |j.items| == 0 ==> r == ""
    ensures j.JDict? && |j.entries| > 0 ==> StartsWith(r, EntryHead(indent, j.entries[0].key))
    ensures j.JList? && |j.items| > 0 ==> StartsWith(r, ItemHead(indent))
    decreases j
  {
    match j
    case JDict(es) =>
      Join("\n", seq(|es|, i requires 0 <= i < |es| => EntryHead(indent, es[i].key) + JsonToText(es[i].value, indent + 1)))
    case JList(items) =>
      Join("\n", seq(|items|, i requires 0 <= i < |items| => ItemHead(indent) + JsonToText(items[i], indent + 1)))
    case _ => PyStr(j)
  }

  /** A value that is neither a dictionary nor a list prints as its `str()`, whatever the indent. */
  lemma ScalarIgnoresIndent(j: Json, a: nat, b: nat)
    requires !j.IsContainer()
    ensures JsonToText(j, a) == PyStr(j) == JsonToText(j, b)
  {
  }

  /** The text of a scalar, with no line break in it. */
  predicate FlatScalar(j: Json) {
    !j.IsContainer() && '\n' !in PyStr(j)
  }

  lemma NoNewlineInSpaces(n: nat)
    ensures '\n' !in Spaces(n)
  {
  }

  /**
   * A dictionary of scalars prints one line per entry, in order: the
   * indent, the key, `": "` and the value's `str()`.
   */
  lemma FlatDictLines(es: seq<Entry>, indent: nat)
    requires |es| >= 1
    requires forall i :: 0 <= i < |es| ==> '\n' !in es[i].key && FlatScalar(es[i].value)
    ensures Lines(JsonToText(JDict(es), indent)) ==
      seq(|es|, i requires 0 <= i < |es| => EntryHead(indent, es[i].key) + PyStr(es[i].value))
  {
    var parts := seq(|es|, i requires 0 <= i < |es| => EntryHead(indent, es[i].key) + JsonToText(es[i].value, indent + 1));
    var flat := seq(|es|, i requires 0 <= i < |es| => EntryHead(indent, es[i].key) + PyStr(es[i].value));
    NoNewlineInSpaces(2 * indent);
    forall i | 0 <= i < |es| ensures parts[i] == flat[i] && '\n' !in flat[i] {
      ScalarIgnoresIndent(es[i].value, indent + 1, indent + 1);
      assert flat[i] == Spaces(2 * indent) + es[i].key + ": " + PyStr(es[i].value);
    }
    assert parts == flat;
    SplitJoin(flat, '\n');
  }

  /**
   * A list of scalars prints one line per item, in order: the indent,
   * `"- "` and the item's `str()`.
   */
  lemma FlatListLines(items: seq<Json>, indent: nat)
    requires |items| >= 1
    requires forall i :: 0 <= i < |items| ==> FlatScalar(items[i])
    ensures Lines(JsonToText(JList(items), indent)) ==
      seq(|items|, i requires 0 <= i < |items| => ItemHead(indent) + PyStr(items[i]))
  {
    var parts := seq(|items|, i requires 0 <= i < |items| => ItemHead(indent) + JsonToText(items[i], indent + 1));
    var flat := seq(|items|, i requires 0 <= i < |items| => ItemHead(indent) + PyStr(items[i]));
    NoNewlineInSpaces(2 * indent);
    forall i | 0 <= i < |items| ensures parts[i] == flat[i] && '\n' !in flat[i] {
      ScalarIgnoresIndent(items[i], indent + 1, indent + 1);
      assert flat[i] == Spaces(2 * indent) + "- " + PyStr(items[i]);
    }
    assert parts == flat;
    SplitJoin(flat, '\n');
  }

  /** `leaf` wrapped in `d` one-element lists. */
  function Nest(d: nat, leaf: Json): Json {
    if d == 0 then leaf else JList([Nest(d - 1, leaf)])
  }

  /** The list markers of `d` nested levels, starting at `indent`. */
  function NestPrefix(d: nat, indent: nat): string {
    if d == 0 then "" else ItemHead(indent) + NestPrefix(d - 1, indent + 1)
  }

  /** Each level of nesting adds one marker, indented by two more spaces than the one before. */
  lemma {:induction false} NestPrefixStep(d: nat, indent: nat)
    ensures NestPrefix(d + 1, indent) == NestPrefix(d, indent) + ItemHead(indent + d)
  {
    if d > 0 {
      NestPrefixStep(d - 1, indent + 1);
    }
  }

  /** A one-item list prints as its marker followed by the item one level deeper. */
  lemma SingletonList(x: Json, indent: nat)
    ensures JsonToText(JList([x]), indent) == ItemHead(indent) + JsonToText(x, indent + 1)
  {
    var parts := seq(1, i requires 0 <= i < 1 => ItemHead(indent) + JsonToText([x][i], indent + 1));
    assert parts == [ItemHead(indent) + JsonToText(x, indent + 1)];
  }

  /**
   * A scalar at nesting depth `d` is printed after the markers of every
   * level; the marker at depth `k` carries `2 * (indent + k)` spaces.
   */
  lemma {:induction false} NestText(d: nat, leaf: Json, indent: nat)
    requires !leaf.IsContainer()
    ensures JsonToText(Nest(d, leaf), indent) == NestPrefix(d, indent) + PyStr(leaf)
  {
    if d > 0 {
      var inner := Nest(d - 1, leaf);
      assert Nest(d, leaf) == JList([inner]);
      NestText(d - 1, leaf, indent + 1);
      SingletonList(inner, indent);
      var head, rest, text := ItemHead(indent), NestPrefix(d - 1, indent + 1), PyStr(leaf);
      assert JsonToText(inner, indent + 1) == rest + text;
      assert NestPrefix(d, indent) == head + rest;
      assert head + (rest + text) == (head + rest) + text;
    }
  }
}
