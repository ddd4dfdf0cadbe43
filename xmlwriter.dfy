/**
  The element writer `fixed_writexml` (genxml.py:44-70) that genxml.py
  installs in place of minidom's own: attributes in ascending name order, an
  element whose only child is a text node written on one line, a childless
  element closed with `/>`, and every other child one indentation step
  deeper.

  A document is a tree of `Node` values; an element's attributes are a map
  from name to value, as minidom keeps them. The writer is an object whose
  output grows with every `write`. How minidom escapes character data
  (`_write_data`) is not modelled: `esc` stands for it.
*/
module XmlWriter {
  import opened Wrappers

  datatype Node =
    | Text(data: string)
    | Element(tag: string, attrs: map<string, string>, children: seq<Node>)

  /** Python 2 string comparison `a <= b`: by character code, a prefix first. */
  predicate Below(a: string, b: string) {
    a == [] || (b != [] && (a[0] < b[0] || (a[0] == b[0] && Below(a[1..], b[1..]))))
  }

  lemma {:induction false} BelowTotal(a: string, b: string)
    ensures Below(a, b) || Below(b, a)
  {
    if a != [] && b != [] && a[0] == b[0] {
      BelowTotal(a[1..], b[1..]);
    }
  }

  lemma {:induction false} BelowReflexive(a: string)
    ensures Below(a, a)
  {
    if a != [] {
      BelowReflexive(a[1..]);
    }
  }

  lemma {:induction false} BelowAntisymmetric(a: string, b: string)
    requires Below(a, b) && Below(b, a)
    ensures a == b
  {
    if a != [] && b != [] {
      BelowAntisymmetric(a[1..], b[1..]);
      assert a == [a[0]] + a[1..] && b == [b[0]] + b[1..];
    }
  }

  lemma {:induction false} BelowTransitive(a: string, b: string, c: string)
    requires Below(a, b) && Below(b, c)
    ensures Below(a, c)
  {
    if a != [] && b != [] && c != [] && a[0] == b[0] == c[0] {
      BelowTransitive(a[1..], b[1..], c[1..]);
    }
  }

  predicate IsLeast(m: string, s: set<string>) {
    m in s && forall x :: x in s ==> Below(m, x)
  }

  lemma {:induction false} LeastExists(s: set<string>)
    requires s != {}
    ensures exists m :: IsLeast(m, s)
    decreases |s|
  {
    var y :| y in s;
    if s != {y} {
      var rest := s - {y};
      LeastExists(rest);
      var m :| IsLeast(m, rest);
      BelowTotal(m, y);
      if Below(m, y) {
        assert IsLeast(m, s);
      } else {
        forall x | x in s ensures Below(y, x) {
          if x == y { BelowReflexive(y); } else { BelowTransitive(y, m, x); }
        }
        assert IsLeast(y, s);
      }
    } else {
      BelowReflexive(y);
      assert IsLeast(y, s);
    }
  }

  lemma LeastUnique(s: set<string>)
    ensures forall m, m' :: IsLeast(m, s) && IsLeast(m', s) ==> m == m'
  {
    forall m, m' | IsLeast(m, s) && IsLeast(m', s) ensures m == m' {
      BelowAntisymmetric(m, m');
    }
  }

  /** `a_names = attrs.keys(); a_names.sort()`: the least name first, then the others sorted. */
  function SortedNames(names: set<string>): (r: seq<string>)
    ensures |r| == |names|
    decreases |names|
  {
    if names == {} then []
    else
      LeastExists(names);
      LeastUnique(names);
      var m :| IsLeast(m, names);
      [m] + SortedNames(names - {m})
  }

  /** The sorted names are exactly the given names, each once, in strictly ascending order. */
  lemma {:induction false} SortedNamesSorted(names: set<string>)
    ensures forall k :: k in SortedNames(names) <==> k in names
    ensures forall i, j :: 0 <= i < j < |SortedNames(names)| ==>
      Below(SortedNames(names)[i], SortedNames(names)[j]) && SortedNames(names)[i] != SortedNames(names)[j]
    decreases |names|
  {
    SortedNamesMembers(names);
    SortedNamesAscending(names);
  }

  lemma {:induction false} SortedNamesMembers(names: set<string>)
    ensures forall k :: k in SortedNames(names) <==> k in names
    decreases |names|
  {
    if names != {} {
      var m := SortedNamesHead(names);
      SortedNamesMembers(names - {m});
    }
  }

  lemma {:induction false} SortedNamesAscending(names: set<string>)
    ensures forall i, j :: 0 <= i < j < |SortedNames(names)| ==>
      Below(SortedNames(names)[i], SortedNames(names)[j]) && SortedNames(names)[i] != SortedNames(names)[j]
    decreases |names|
  {
    if names != {} {
      var m := SortedNamesHead(names);
      var rest := SortedNames(names - {m});
      SortedNamesMembers(names - {m});
      SortedNamesAscending(names - {m});
      var all := [m] + rest;
      forall i, j | 0 <= i < j < |all| ensures Below(all[i], all[j]) && all[i] != all[j] {
        assert all[j] == rest[j - 1];
        if i == 0 {
          assert all[j] in names - {m};
        } else {
          assert all[i] == rest[i - 1];
        }
      }
    }
  }

  /** The first sorted name is the least one. */
  lemma SortedNamesHead(names: set<string>) returns (m: string)
    requires names != {}
    ensures IsLeast(m, names) && SortedNames(names) == [m] + SortedNames(names - {m})
  {
    LeastExists(names);
    LeastUnique(names);
    m :| IsLeast(m, names);
  }

  /** The attributes written in the order of `names`: ` name="value"` each. */
  function RenderAttrs(names: seq<string>, attrs: map<string, string>, esc: string -> string): string
    requires forall k :: k in names ==> k in attrs
  {
    if names == [] then ""
    else
      var last := names[|names| - 1];
      RenderAttrs(names[..|names| - 1], attrs, esc) + Attr(last, esc(attrs[last]))
  }

  function Attr(name: string, value: string): string {
    " " + name + "=\"" + value + "\""
  }

  lemma RenderAttrsSnoc(names: seq<string>, i: nat, attrs: map<string, string>, esc: string -> string)
    requires i < |names| && forall k :: k in names ==> k in attrs
    ensures RenderAttrs(names[..i + 1], attrs, esc) == RenderAttrs(names[..i], attrs, esc) + Attr(names[i], esc(attrs[names[i]]))
  {
    assert names[..i + 1][..i] == names[..i];
  }

  /** The start of an element's tag, up to and including its attributes. */
  function OpenTag(tag: string, attrs: map<string, string>, esc: string -> string): string {
    SortedNamesSorted(attrs.Keys);
    "<" + tag + RenderAttrs(SortedNames(attrs.Keys), attrs, esc)
  }

  /**
    What `n.writexml(writer, indent, addindent, newl)` writes. A text node is
    minidom's: its data between `indent` and `newl`, all escaped.
  */
  function Render(n: Node, indent: string, addindent: string, newl: string, esc: string -> string): string
    decreases n, 2
  {
    match n
    case Text(data) => esc(indent + data + newl)
    case Element(tag, attrs, children) =>
      indent + OpenTag(tag, attrs, esc) + ElementBody(tag, children, indent, addindent, newl, esc)
  }

  /**
    What an element writes after its attributes: `/>` when it has no child,
    its only text child inline, or otherwise its children on their own lines
    followed by the closing tag at the element's indentation.
  */
  function ElementBody(tag: string, children: seq<Node>, indent: string, addindent: string, newl: string, esc: string -> string): string
    decreases children, 1
  {
    if children == [] then "/>" + newl
    else if |children| == 1 && children[0].Text? then
      ">" + Render(children[0], "", "", "", esc) + CloseTag(tag, newl)
    else
      ">" + newl + RenderChildren(children, indent + addindent, addindent, newl, esc) + indent + CloseTag(tag, newl)
  }

  function CloseTag(tag: string, newl: string): string {
    "</" + tag + ">" + newl
  }

  function RenderChildren(cs: seq<Node>, indent: string, addindent: string, newl: string, esc: string -> string): string
    decreases cs, 0
  {
    if cs == [] then ""
    else RenderChildren(cs[..|cs| - 1], indent, addindent, newl, esc) + Render(cs[|cs| - 1], indent, addindent, newl, esc)
  }

  /** The collector `toprettyxml` writes into. */
  class Writer {
    var out: string

    constructor ()
      ensures out == ""
    {
      out := "";
    }

    method Write(s: string)
      modifies this
      ensures out == old(out) + s
    {
      out := out + s;
    }
  }

  /** `fixed_writexml`, with a text child dispatched to minidom's text writer. */
  method WriteXml(n: Node, w: Writer, indent: string, addindent: string, newl: string, esc: string -> string)
    modifies w
    ensures w.out == old(w.out) + Render(n, indent, addindent, newl, esc)
    decreases n, 2
  {
    match n
    case Text(data) =>
      w.Write(esc(indent + data + newl));
    case Element(tag, attrs, children) =>
      ghost var start := w.out;
      var names := SortedNames(attrs.Keys);
      assert forall k :: k in names ==> k in attrs by {
        SortedNamesSorted(attrs.Keys);
      }
      w.Write(indent + "<" + tag);
      WriteAttrs(names, attrs, w, esc);
      WriteBody(tag, children, w, indent, addindent, newl, esc);
      ElementWritten(start, names, tag, attrs, children, indent, addindent, newl, esc);
  }

  /** The three writes of an element, put together, are what `Render` gives for it. */
  lemma ElementWritten(start: string, names: seq<string>, tag: string, attrs: map<string, string>, children: seq<Node>,
                       indent: string, addindent: string, newl: string, esc: string -> string)
    requires names == SortedNames(attrs.Keys) && forall k :: k in names ==> k in attrs
    ensures start + (indent + "<" + tag) + RenderAttrs(names, attrs, esc) + ElementBody(tag, children, indent, addindent, newl, esc)
      == start + Render(Element(tag, attrs, children), indent, addindent, newl, esc)
  {
    var written := RenderAttrs(names, attrs, esc);
    Concat3(start, indent + "<" + tag, written, ElementBody(tag, children, indent, addindent, newl, esc));
    assert indent + "<" + tag + written == indent + OpenTag(tag, attrs, esc);
  }

  /** The part of `fixed_writexml` after the attributes (genxml.py:58-70). */
  method WriteBody(tag: string, children: seq<Node>, w: Writer, indent: string, addindent: string, newl: string, esc: string -> string)
    modifies w
    ensures w.out == old(w.out) + ElementBody(tag, children, indent, addindent, newl, esc)
    decreases children, 1
  {
    if children != [] {
      ghost var start := w.out;
      w.Write(">");
      if |children| == 1 && children[0].Text? {
        ghost var inner := Render(children[0], "", "", "", esc);
        WriteXml(children[0], w, "", "", "", esc);
        w.Write(CloseTag(tag, newl));
        Concat3(start, ">", inner, CloseTag(tag, newl));
      } else {
        ghost var inner := RenderChildren(children, indent + addindent, addindent, newl, esc);
        w.Write(newl);
        WriteChildren(children, w, indent + addindent, addindent, newl, esc);
        w.Write(indent);
        w.Write(CloseTag(tag, newl));
        Concat5(start, ">", newl, inner, indent, CloseTag(tag, newl));
      }
    } else {
      w.Write("/>" + newl);
    }
  }

  lemma Concat3(s: string, a: string, b: string, c: string)
    ensures s + a + b + c == s + (a + b + c)
  {
  }

  lemma Concat5(s: string, a: string, b: string, c: string, d: string, e: string)
    ensures s + a + b + c + d + e == s + (a + b + c + d + e)
  {
  }

  /** The loop over the sorted attribute names (genxml.py:54-57). */
  method WriteAttrs(names: seq<string>, attrs: map<string, string>, w: Writer, esc: string -> string)
    requires forall k :: k in names ==> k in attrs
    modifies w
    ensures w.out == old(w.out) + RenderAttrs(names, attrs, esc)
  {
    for i := 0 to |names|
      invariant w.out == old(w.out) + RenderAttrs(names[..i], attrs, esc)
    {
      ghost var before := w.out;
      var name := names[i];
      w.Write(" " + name + "=\"");
      w.Write(esc(attrs[name]));
      w.Write("\"");
      Concat3(before, " " + name + "=\"", esc(attrs[name]), "\"");
      RenderAttrsSnoc(names, i, attrs, esc);
      Assoc(old(w.out), RenderAttrs(names[..i], attrs, esc), Attr(name, esc(attrs[name])));
    }
    assert names[..|names|] == names;
  }

  /** The loop over the child nodes (genxml.py:65-66). */
  method WriteChildren(cs: seq<Node>, w: Writer, indent: string, addindent: string, newl: string, esc: string -> string)
    modifies w
    ensures w.out == old(w.out) + RenderChildren(cs, indent, addindent, newl, esc)
    decreases cs, 0
  {
    for i := 0 to |cs|
      invariant w.out == old(w.out) + RenderChildren(cs[..i], indent, addindent, newl, esc)
    {
      WriteXml(cs[i], w, indent, addindent, newl, esc);
      RenderChildrenSnoc(cs, i, indent, addindent, newl, esc);
      Assoc(old(w.out), RenderChildren(cs[..i], indent, addindent, newl, esc), Render(cs[i], indent, addindent, newl, esc));
    }
    assert cs[..|cs|] == cs;
  }

  lemma RenderChildrenSnoc(cs: seq<Node>, i: nat, indent: string, addindent: string, newl: string, esc: string -> string)
    requires i < |cs|
    ensures RenderChildren(cs[..i + 1], indent, addindent, newl, esc)
      == RenderChildren(cs[..i], indent, addindent, newl, esc) + Render(cs[i], indent, addindent, newl, esc)
  {
    assert cs[..i + 1][..i] == cs[..i];
  }

  /** The same tree with no indentation and no line breaks at all. */
  function Compact(n: Node, esc: string -> string): string
    decreases n
  {
    match n
    case Text(data) => esc(data)
    case Element(tag, attrs, children) =>
      OpenTag(tag, attrs, esc) +
      if children == [] then "/>"
      else ">" + CompactChildren(children, esc) + "</" + tag + ">"
  }

  function CompactChildren(cs: seq<Node>, esc: string -> string): string
    decreases cs
  {
    if cs == [] then "" else CompactChildren(cs[..|cs| - 1], esc) + Compact(cs[|cs| - 1], esc)
  }

  /** Written with empty indentation and empty newline, a tree is its compact form. */
  lemma {:induction false} RenderFlatIsCompact(n: Node, esc: string -> string)
    ensures Render(n, "", "", "", esc) == Compact(n, esc)
    decreases n
  {
    match n
    case Text(data) =>
      assert "" + data + "" == data;
    case Element(tag, attrs, children) =>
      if |children| == 1 && children[0].Text? {
        RenderFlatIsCompact(children[0], esc);
      } else if children != [] {
        RenderChildrenFlatIsCompact(children, esc);
      }
      FlatBody(tag, children, esc);
      FlatElement(tag, attrs, children, esc);
  }

  /** With empty indentation and newline, an element's body is its compact body, given that of its children. */
  lemma FlatBody(tag: string, children: seq<Node>, esc: string -> string)
    requires |children| == 1 && children[0].Text? ==> Render(children[0], "", "", "", esc) == Compact(children[0], esc)
    requires children != [] && !(|children| == 1 && children[0].Text?) ==>
      RenderChildren(children, "", "", "", esc) == CompactChildren(children, esc)
    ensures ElementBody(tag, children, "", "", "", esc)
      == if children == [] then "/>" else ">" + CompactChildren(children, esc) + "</" + tag + ">"
  {
    if |children| == 1 && children[0].Text? {
      assert CompactChildren(children, esc) == "" + Compact(children[0], esc) by {
        assert children[..0] == [];
      }
      InlineBody(Compact(children[0], esc), tag);
    } else if children != [] {
      assert "" + "" == "";
      BrokenBody(CompactChildren(children, esc), tag);
    }
  }

  lemma InlineBody(inner: string, tag: string)
    ensures ">" + inner + CloseTag(tag, "") == ">" + ("" + inner) + "</" + tag + ">"
  {
    assert "" + inner == inner;
  }

  lemma BrokenBody(inner: string, tag: string)
    ensures ">" + "" + inner + "" + CloseTag(tag, "") == ">" + inner + "</" + tag + ">"
  {
    assert ">" + "" == ">";
  }

  lemma FlatElement(tag: string, attrs: map<string, string>, children: seq<Node>, esc: string -> string)
    requires ElementBody(tag, children, "", "", "", esc)
      == if children == [] then "/>" else ">" + CompactChildren(children, esc) + "</" + tag + ">"
    ensures Render(Element(tag, attrs, children), "", "", "", esc) == Compact(Element(tag, attrs, children), esc)
  {
    assert "" + OpenTag(tag, attrs, esc) == OpenTag(tag, attrs, esc);
  }

  lemma {:induction false} RenderChildrenFlatIsCompact(cs: seq<Node>, esc: string -> string)
    ensures RenderChildren(cs, "", "", "", esc) == CompactChildren(cs, esc)
    decreases cs
  {
    if cs != [] {
      RenderChildrenFlatIsCompact(cs[..|cs| - 1], esc);
      RenderFlatIsCompact(cs[|cs| - 1], esc);
    }
  }

  /**
    An element with no children, or with a single text child, is written on
    one line: its compact form between `indent` and `newl`, with nothing
    inserted inside it.
  */
  lemma LeafOnOneLine(n: Node, indent: string, addindent: string, newl: string, esc: string -> string)
    requires n.Element?
    requires n.children == [] || (|n.children| == 1 && n.children[0].Text?)
    ensures Render(n, indent, addindent, newl, esc) == indent + Compact(n, esc) + newl
  {
    var open := OpenTag(n.tag, n.attrs, esc);
    var c := n.children;
    if c == [] {
      Concat3(indent, open, "/>", newl);
    } else {
      var inner := Render(c[0], "", "", "", esc);
      assert inner == Compact(c[0], esc) by {
        assert "" + c[0].data + "" == c[0].data;
      }
      assert CompactChildren(c, esc) == inner by {
        assert c[..0] == [];
      }
      Concat3(indent, open, ">" + inner + "</" + n.tag + ">", newl);
      assert ElementBody(n.tag, c, indent, addindent, newl, esc) == ">" + inner + "</" + n.tag + ">" + newl;
    }
  }

  lemma RenderChildrenAppend(a: seq<Node>, b: seq<Node>, indent: string, addindent: string, newl: string, esc: string -> string)
    ensures RenderChildren(a + b, indent, addindent, newl, esc)
      == RenderChildren(a, indent, addindent, newl, esc) + RenderChildren(b, indent, addindent, newl, esc)
  {
    var f := (c: Node) => Render(c, indent, addindent, newl, esc);
    RenderChildrenConcat(a + b, indent, addindent, newl, esc);
    RenderChildrenConcat(a, indent, addindent, newl, esc);
    RenderChildrenConcat(b, indent, addindent, newl, esc);
    ConcatAppend(a, b, f);
  }

  /** The texts of the children, one after another. */
  ghost function Concat(cs: seq<Node>, f: Node -> string): string {
    if cs == [] then "" else Concat(cs[..|cs| - 1], f) + f(cs[|cs| - 1])
  }

  lemma {:induction false} RenderChildrenConcat(cs: seq<Node>, indent: string, addindent: string, newl: string, esc: string -> string)
    ensures RenderChildren(cs, indent, addindent, newl, esc) == Concat(cs, (c: Node) => Render(c, indent, addindent, newl, esc))
  {
    if cs != [] {
      RenderChildrenConcat(cs[..|cs| - 1], indent, addindent, newl, esc);
    }
  }

  lemma {:induction false} ConcatAppend(a: seq<Node>, b: seq<Node>, f: Node -> string)
    ensures Concat(a + b, f) == Concat(a, f) + Concat(b, f)
  {
    if b == [] {
      assert a + b == a;
    } else {
      var n := |b| - 1;
      ConcatAppend(a, b[..n], f);
      assert (a + b)[..|a + b| - 1] == a + b[..n];
      Assoc(Concat(a, f), Concat(b[..n], f), f(b[n]));
    }
  }

  /**
    An element whose children are neither absent nor a single text node is
    written as its opening tag and a newline, then every child whole, in
    order, at the element's indentation plus one step, then the closing tag
    at the element's own indentation.
  */
  lemma ChildrenIndented(tag: string, attrs: map<string, string>, cs: seq<Node>, k: nat,
                         indent: string, addindent: string, newl: string, esc: string -> string)
    requires k < |cs| && !(|cs| == 1 && cs[0].Text?)
    ensures Render(Element(tag, attrs, cs), indent, addindent, newl, esc)
      == indent + OpenTag(tag, attrs, esc) + ">" + newl
       + RenderChildren(cs[..k], indent + addindent, addindent, newl, esc)
       + Render(cs[k], indent + addindent, addindent, newl, esc)
       + RenderChildren(cs[k + 1..], indent + addindent, addindent, newl, esc)
       + indent + CloseTag(tag, newl)
  {
    var d := indent + addindent;
    var before := RenderChildren(cs[..k], d, addindent, newl, esc);
    var child := Render(cs[k], d, addindent, newl, esc);
    var after := RenderChildren(cs[k + 1..], d, addindent, newl, esc);
    RenderChildrenAt(cs, k, d, addindent, newl, esc);
    assert ElementBody(tag, cs, indent, addindent, newl, esc)
      == ">" + newl + (before + child + after) + indent + CloseTag(tag, newl);
    Regroup(indent, OpenTag(tag, attrs, esc), newl, before, child, after, CloseTag(tag, newl));
  }

  lemma Regroup(indent: string, open: string, newl: string, a: string, b: string, c: string, close: string)
    ensures indent + open + (">" + newl + (a + b + c) + indent + close)
      == indent + open + ">" + newl + a + b + c + indent + close
  {
  }

  /** Children written at one indentation: those before the `k`-th, the `k`-th whole, then those after it. */
  lemma RenderChildrenAt(cs: seq<Node>, k: nat, indent: string, addindent: string, newl: string, esc: string -> string)
    requires k < |cs|
    ensures RenderChildren(cs, indent, addindent, newl, esc)
      == RenderChildren(cs[..k], indent, addindent, newl, esc)
       + Render(cs[k], indent, addindent, newl, esc)
       + RenderChildren(cs[k + 1..], indent, addindent, newl, esc)
  {
    assert cs == cs[..k] + [cs[k]] + cs[k + 1..];
    RenderChildrenAppend(cs[..k] + [cs[k]], cs[k + 1..], indent, addindent, newl, esc);
    RenderChildrenAppend(cs[..k], [cs[k]], indent, addindent, newl, esc);
    assert [cs[k]][..0] == [];
  }
}
