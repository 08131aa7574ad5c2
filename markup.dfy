/**
 * Markup documents as element trees, and the `e()` helper every markup
 * endpoint defines: `htmlspecialchars` with ENT_XML1 (or ENT_HTML5 in the
 * info page) plus the quote flag the call site passes.
 *
 * A tree holds its text exactly as the endpoint prints it, that is, after
 * escaping; white space between elements is not modelled.
 */
module Markup {

  datatype Node =
    | Element(name: string, attrs: seq<(string, string)>, children: seq<Node>)
    | Text(text: string)

  /** `<name>text</name>` */
  function Leaf(name: string, text: string): Node {
    Element(name, [], [Text(text)])
  }

  /** A block the template prints only when `present` holds. */
  function Opt(present: bool, n: Node): (r: seq<Node>)
    ensures |r| == (if present then 1 else 0)
  {
    if present then [n] else []
  }

  /** The child elements called `name`, in document order. */
  function Named(ns: seq<Node>, name: string): (r: seq<Node>)
    ensures |r| <= |ns|
    ensures forall k :: 0 <= k < |r| ==> r[k].Element? && r[k].name == name
  {
    if ns == [] then []
    else (if ns[0].Element? && ns[0].name == name then [ns[0]] else []) + Named(ns[1..], name)
  }

  lemma {:induction false} NamedConcat(a: seq<Node>, b: seq<Node>, name: string)
    ensures Named(a + b, name) == Named(a, name) + Named(b, name)
  {
    if a != [] {
      assert (a + b)[0] == a[0];
      assert (a + b)[1..] == a[1..] + b;
      NamedConcat(a[1..], b, name);
    } else {
      assert a + b == b;
    }
  }

  lemma NamedOpt(present: bool, n: Node, name: string)
    ensures Named(Opt(present, n), name) ==
      if present && n.Element? && n.name == name then [n] else []
  {
  }

  /** Two optional elements with different names: each name finds only
      its own element. */
  lemma NamedOpts2(p: bool, x: Node, q: bool, y: Node, name: string)
    requires x.Element? && y.Element? && x.name != y.name
    ensures Named(Opt(p, x) + Opt(q, y), name) ==
      if name == x.name then Opt(p, x) else if name == y.name then Opt(q, y) else []
  {
    NamedConcat(Opt(p, x), Opt(q, y), name);
    NamedOpt(p, x, name);
    NamedOpt(q, y, name);
  }

  /** The same for three optional elements with pairwise different names. */
  lemma NamedOpts3(p: bool, x: Node, q: bool, y: Node, r: bool, z: Node, name: string)
    requires x.Element? && y.Element? && z.Element?
    requires x.name != y.name && x.name != z.name && y.name != z.name
    ensures Named(Opt(p, x) + Opt(q, y) + Opt(r, z), name) ==
      if name == x.name then Opt(p, x) else if name == y.name then Opt(q, y)
      else if name == z.name then Opt(r, z) else []
  {
    NamedConcat(Opt(p, x) + Opt(q, y), Opt(r, z), name);
    NamedOpts2(p, x, q, y, name);
    NamedOpt(r, z, name);
  }

  /** The text of the first child element called `name` when that element
      holds exactly one piece of text. */
  function Field(n: Node, name: string): (r: string)
    requires n.Element?
  {
    var found := Named(n.children, name);
    if found != [] && found[0].children != [] && found[0].children[0].Text? then found[0].children[0].text
    else ""
  }

  /** The first element called `name` is the one at `k` when no child
      before it has that name. */
  lemma {:induction false} NamedFirst(ns: seq<Node>, k: int, name: string)
    requires 0 <= k < |ns| && ns[k].Element? && ns[k].name == name
    requires forall j :: 0 <= j < k ==> !(ns[j].Element? && ns[j].name == name)
    ensures Named(ns, name) != [] && Named(ns, name)[0] == ns[k]
  {
    if k > 0 {
      NamedFirst(ns[1..], k - 1, name);
    }
  }

  /** No child called `name`: nothing is found. */
  lemma {:induction false} NamedNone(ns: seq<Node>, name: string)
    requires forall j :: 0 <= j < |ns| ==> !(ns[j].Element? && ns[j].name == name)
    ensures Named(ns, name) == []
  {
    if ns != [] {
      NamedNone(ns[1..], name);
    }
  }

  /** Exactly one child called `name`: it alone is found. */
  lemma {:induction false} NamedOnly(ns: seq<Node>, k: int, name: string)
    requires 0 <= k < |ns| && ns[k].Element? && ns[k].name == name
    requires forall j :: 0 <= j < |ns| && j != k ==> !(ns[j].Element? && ns[j].name == name)
    ensures Named(ns, name) == [ns[k]]
  {
    if k == 0 {
      NamedNone(ns[1..], name);
    } else {
      NamedOnly(ns[1..], k - 1, name);
    }
  }

  lemma FieldAt(n: Node, k: int, name: string, text: string)
    requires n.Element? && 0 <= k < |n.children| && n.children[k] == Leaf(name, text)
    requires forall j :: 0 <= j < k ==> !(n.children[j].Element? && n.children[j].name == name)
    ensures Field(n, name) == text
  {
    NamedFirst(n.children, k, name);
  }

  // ---------------------------------------------------------------------
  // e(): htmlspecialchars with double encoding. Which quotes are escaped
  // depends on the flag passed: none by default, double quotes under
  // ENT_COMPAT, both under ENT_QUOTES. ENT_XML1 and ENT_HTML5 write the
  // single quote as &apos; alike.

  datatype Quotes = NoQuotes | DoubleQuotes | BothQuotes

  function EscapeChar(c: char, q: Quotes): (r: string)
    ensures |r| >= 1
  {
    if c == '&' then "&amp;"
    else if c == '<' then "&lt;"
    else if c == '>' then "&gt;"
    else if c == '"' && q != NoQuotes then "&quot;"
    else if c == '\'' && q == BothQuotes then "&apos;"
    else [c]
  }

  /** `e($s)`, `e($s, ENT_COMPAT)` or `e($s, ENT_QUOTES)` */
  function Escape(s: string, q: Quotes): (r: string)
    ensures |r| >= |s|
    ensures '<' !in r && '>' !in r
    ensures q != NoQuotes ==> '"' !in r
    ensures q == BothQuotes ==> '\'' !in r
  {
    if s == [] then [] else EscapeChar(s[0], q) + Escape(s[1..], q)
  }

  /** The characters `e()` rewrites. */
  predicate Special(c: char, q: Quotes) {
    c == '&' || c == '<' || c == '>' || (c == '"' && q != NoQuotes) || (c == '\'' && q == BothQuotes)
  }

  /** Text without special characters is printed as it is. */
  lemma {:induction false} EscapePlain(s: string, q: Quotes)
    requires forall i :: 0 <= i < |s| ==> !Special(s[i], q)
    ensures Escape(s, q) == s
  {
    if s != [] {
      EscapePlain(s[1..], q);
      assert [s[0]] + s[1..] == s;
    }
  }

  /** Escaping a concatenation escapes each part. */
  lemma {:induction false} EscapeConcat(a: string, b: string, q: Quotes)
    ensures Escape(a + b, q) == Escape(a, q) + Escape(b, q)
  {
    if a != [] {
      assert (a + b)[0] == a[0];
      assert (a + b)[1..] == a[1..] + b;
      EscapeConcat(a[1..], b, q);
    } else {
      assert a + b == b;
    }
  }

  /** What a markup reader makes of escaped text: the five entities `e()`
      writes are turned back into their characters. */
  function Unescape(s: string): (r: string)
  {
    if s == [] then []
    else if "&amp;" <= s then "&" + Unescape(s[5..])
    else if "&lt;" <= s then "<" + Unescape(s[4..])
    else if "&gt;" <= s then ">" + Unescape(s[4..])
    else if "&quot;" <= s then "\"" + Unescape(s[6..])
    else if "&apos;" <= s then "'" + Unescape(s[6..])
    else [s[0]] + Unescape(s[1..])
  }

  lemma UnescapeStep(c: char, q: Quotes, t: string)
    ensures Unescape(EscapeChar(c, q) + t) == [c] + Unescape(t)
  {
    var e := EscapeChar(c, q);
    var s := e + t;
    if c == '&' {
      assert "&amp;" <= s && s[5..] == t;
    } else if c == '<' {
      assert s[1] == 'l' && !("&amp;" <= s);
      assert "&lt;" <= s && s[4..] == t;
    } else if c == '>' {
      assert s[1] == 'g' && !("&amp;" <= s) && !("&lt;" <= s);
      assert "&gt;" <= s && s[4..] == t;
    } else if e == "&quot;" {
      assert s[1] == 'q' && !("&amp;" <= s) && !("&lt;" <= s) && !("&gt;" <= s);
      assert "&quot;" <= s && s[6..] == t;
    } else if e == "&apos;" {
      assert s[2] == 'p' && !("&amp;" <= s) && !("&lt;" <= s) && !("&gt;" <= s) && !("&quot;" <= s);
      assert "&apos;" <= s && s[6..] == t;
    } else {
      assert e == [c] && s[0] == c && s[1..] == t;
    }
  }

  /** A reader recovers exactly the escaped text: `e()` loses nothing. */
  lemma {:induction false} UnescapeEscape(s: string, q: Quotes)
    ensures Unescape(Escape(s, q)) == s
  {
    if s != [] {
      UnescapeStep(s[0], q, Escape(s[1..], q));
      UnescapeEscape(s[1..], q);
      assert [s[0]] + s[1..] == s;
    }
  }

  /** Two texts print alike only if they are equal. */
  lemma EscapeInjective(a: string, b: string, q: Quotes)
    requires Escape(a, q) == Escape(b, q)
    ensures a == b
  {
    UnescapeEscape(a, q);
    UnescapeEscape(b, q);
  }
}
