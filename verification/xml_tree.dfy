/** The tree the XML parser hands to the normaliser, and the JavaScript operations the
    normaliser applies to it.

    The parser is configured to keep attributes (as `@_`-prefixed keys), to leave element
    text as strings and to trim it. Its output is therefore built from three kinds of value:
    a text, a plain object keyed by child-element and attribute names, and an array when an
    element name repeats. */
module XmlTree {
  import opened Wrappers
  import opened Strings

  datatype Node =
    | Text(text: string)
    | Obj(fields: map<string, Node>)
    | Arr(elems: seq<Node>)

  /** JavaScript truthiness: strings are falsy only when empty; objects and arrays,
      even empty ones, are truthy. */
  predicate Truthy(n: Node) {
    !(n.Text? && n.text == "")
  }

  /** `typeof n === 'object' && n !== null`: true of objects and of arrays. */
  predicate IsObject(n: Node) {
    n.Obj? || n.Arr?
  }

  /** `key in n` on an object. */
  predicate Has(n: Node, key: string) {
    n.Obj? && key in n.fields
  }

  /** Property read `n[key]`: `None` is `undefined`. Arrays and strings have none of the
      property names the normaliser reads. */
  function Get(n: Node, key: string): (v: Option<Node>)
    ensures v.Some? <==> Has(n, key)
    ensures v.Some? ==> v.value == n.fields[key]
  {
    if Has(n, key) then Some(n.fields[key]) else None
  }

  /** A read value that is present and truthy: `if (v)`. */
  predicate Present(v: Option<Node>) {
    v.Some? && Truthy(v.value)
  }

  /** `String(n)`: a text is itself, a plain object prints as `[object Object]`, and an
      array joins its elements' strings with commas. */
  function Stringify(n: Node): (s: string)
    ensures n.Text? ==> s == n.text
    ensures n.Obj? ==> s == "[object Object]"
    ensures n.Arr? && |n.elems| == 1 ==> s == Stringify(n.elems[0])
    decreases n
  {
    match n
    case Text(t) => t
    case Obj(_) => "[object Object]"
    case Arr(es) => Join(seq(|es|, i requires 0 <= i < |es| => Stringify(es[i])), ",")
  }

  /** `String(v || '')`: the string of a truthy value, otherwise the empty string. */
  function OrEmpty(v: Option<Node>): (s: string)
    ensures !Present(v) ==> s == ""
    ensures v.Some? && v.value.Text? ==> s == v.value.text
    ensures Present(v) ==> s == Stringify(v.value)
  {
    if Present(v) then Stringify(v.value) else ""
  }

  /** `v ? String(v) : undefined`. */
  function IfTruthy(v: Option<Node>): (s: Option<string>)
    ensures s.None? <==> !Present(v)
    ensures s.Some? ==> s.value == Stringify(v.value)
    ensures v.Some? && v.value.Text? && v.value.text != "" ==> s == Some(v.value.text)
  {
    if Present(v) then Some(Stringify(v.value)) else None
  }

  /** `Array.isArray(n) ? n : [n]`. */
  function AsList(n: Node): (ns: seq<Node>)
    ensures n.Arr? ==> ns == n.elems
    ensures !n.Arr? ==> ns == [n]
  {
    if n.Arr? then n.elems else [n]
  }

  /** The "absent, single or repeated" element of the feed formats as an ordered sequence:
      `if (v) { list = Array.isArray(v) ? v : [v] }`, starting from `[]`. */
  function Elements(v: Option<Node>): (ns: seq<Node>)
    ensures !Present(v) ==> ns == []
    ensures Present(v) && !v.value.Arr? ==> ns == [v.value]
    ensures v.Some? && v.value.Arr? ==> ns == v.value.elems
  {
    if Present(v) then AsList(v.value) else []
  }

  /** A single truthy element is read exactly like a one-element list holding it. */
  lemma SingleAsList(x: Node)
    requires Truthy(x) && !x.Arr?
    ensures Elements(Some(x)) == Elements(Some(Arr([x])))
  {
  }

  /** The two ways a field is read agree: `v ? String(v) : undefined` with "" for `undefined`
      is `String(v || '')`. */
  lemma IfTruthyOrEmpty(v: Option<Node>)
    ensures IfTruthy(v).GetOr("") == OrEmpty(v)
  {
  }
}
