/** The debug serialiser of src/reader.c. A node prints as
    `(name [start end]` followed, for a list, by each child on its own line
    indented two more spaces, and a closing `)`. The size pass
    (node_to_string_len) and the writing pass (node_to_string_impl) are
    separate in the source; `RenderLength` proves they agree. */
module Serializer {
  import opened Syntax

  /** The name printed for each leaf kind: ely_token_as_string of the token
      kind the leaf was read from. Its strings are not part of this model,
      so every operation takes them as a parameter. */
  type Names = LeafKind -> string

  /** The list names of reader.c:14-16. */
  function ListName(family: ListKind): string
  {
    match family
    case ParensList => "paren-list"
    case BracketList => "bracket-list"
    case BraceList => "brace-list"
  }

  // ---------------------------------------------------------------------
  // Decimal numbers (ely_u32_write_to_buffer and ely_u32_count_numbers are
  // not part of this model; they are taken to print plain decimal).

  function DigitChar(d: nat): char
    requires d < 10
  {
    ('0' as int + d) as char
  }

  predicate IsDigit(c: char)
  {
    '0' <= c <= '9'
  }

  function DigitValue(c: char): nat
    requires IsDigit(c)
  {
    (c - '0') as nat
  }

  /** The decimal digits of `n`, most significant first, without leading
      zeros. */
  function Decimal(n: nat): (s: string)
    ensures 1 <= |s|
  {
    if n < 10 then [DigitChar(n)] else Decimal(n / 10) + [DigitChar(n % 10)]
  }

  /** Only digits, and no leading zero. */
  predicate IsNumeral(s: string)
  {
    && (forall i | 0 <= i < |s| :: IsDigit(s[i]))
    && (|s| > 1 ==> s[0] != '0')
  }

  lemma {:induction false} DecimalIsNumeral(n: nat)
    ensures IsNumeral(Decimal(n)) && (n >= 10 ==> Decimal(n)[0] != '0')
  {
    if n >= 10 {
      DecimalIsNumeral(n / 10);
      var s := Decimal(n);
      assert s[..|s| - 1] == Decimal(n / 10);
    }
  }

  /** Reads a string of decimal digits back as a number. */
  function ParseDecimal(s: string): nat
    requires forall i | 0 <= i < |s| :: IsDigit(s[i])
  {
    if s == [] then 0 else ParseDecimal(s[..|s| - 1]) * 10 + DigitValue(s[|s| - 1])
  }

  lemma DigitRoundTrip(d: nat)
    requires d < 10
    ensures IsDigit(DigitChar(d)) && DigitValue(DigitChar(d)) == d
  {
  }

  /** The digits printed for a number read back as that number. */
  lemma {:induction false} DecimalRoundTrip(n: nat)
    ensures IsNumeral(Decimal(n)) && ParseDecimal(Decimal(n)) == n
  {
    DecimalIsNumeral(n);
    var s := Decimal(n);
    if n < 10 {
      DigitRoundTrip(n);
    } else {
      DecimalRoundTrip(n / 10);
      DigitRoundTrip(n % 10);
      assert s[..|s| - 1] == Decimal(n / 10);
    }
  }

  // ---------------------------------------------------------------------
  // The printed form.

  /** ely_stx_location_write_to_buffer (reader.c:155-165) prints a location
      as `[start end]`. */
  function LocationText(loc: Location): string
  {
    "[" + Decimal(loc.start) + " " + Decimal(loc.end) + "]"
  }

  /** ely_stx_location_write_length (reader.c:148-153): the bracket, the
      digits of the start, the space, the digits of the end, the bracket. */
  function LocationWriteLength(loc: Location): (r: nat)
    ensures r == |LocationText(loc)|
  {
    1 + |Decimal(loc.start)| + 1 + |Decimal(loc.end)| + 1
  }

  /** A location prints as two numbers that read back as its bounds. */
  lemma LocationTextRoundTrip(loc: Location)
    ensures var t := LocationText(loc); var a := |Decimal(loc.start)|;
      && |t| >= a + 3 && t[0] == '[' && t[a + 1] == ' ' && t[|t| - 1] == ']'
      && (forall i | 1 <= i < a + 1 :: IsDigit(t[i]))
      && (forall i | a + 2 <= i < |t| - 1 :: IsDigit(t[i]))
      && ParseDecimal(t[1..a + 1]) == loc.start
      && ParseDecimal(t[a + 2..|t| - 1]) == loc.end
  {
    var t := LocationText(loc);
    var a := |Decimal(loc.start)|;
    assert t[1..a + 1] == Decimal(loc.start);
    assert t[a + 2..|t| - 1] == Decimal(loc.end);
    DecimalRoundTrip(loc.start);
    DecimalRoundTrip(loc.end);
  }

  function Spaces(n: nat): (s: string)
    ensures |s| == n
  {
    if n == 0 then [] else Spaces(n - 1) + [' ']
  }

  /** What every node prints before its children: the indentation, `(`, the
      name, a space and the location. */
  function Header(indent: nat, name: string, loc: Location): string
  {
    Spaces(indent) + "(" + name + " " + LocationText(loc)
  }

  function NameOf(names: Names, n: Node): string
  {
    match n
    case Leaf(kind, _, _) => names(kind)
    case List(family, _, _) => ListName(family)
  }

  /** The text node_to_string_impl (reader.c:286-356) writes for `n`. */
  function Render(names: Names, n: Node, indent: nat): string
    decreases n, 1
  {
    match n
    case Leaf(_, loc, _) => Header(indent, NameOf(names, n), loc) + ")"
    case List(_, loc, children) =>
      Header(indent, NameOf(names, n), loc) + RenderChildren(names, n, |children|, indent + 2) + ")"
  }

  /** The first `k` children of a list, each on a new line (reader.c:343-348). */
  function RenderChildren(names: Names, n: Node, k: nat, indent: nat): string
    requires n.List? && k <= |n.children|
    decreases n, 0, k
  {
    if k == 0 then []
    else RenderChildren(names, n, k - 1, indent) + "\n" + Render(names, n.children[k - 1], indent)
  }

  /** node_to_string_len (reader.c:198-259), the size pass. */
  function PrintLength(names: Names, n: Node, indent: nat): nat
    decreases n, 1
  {
    var len := 3 + indent + LocationWriteLength(n.loc);
    match n
    case Leaf(kind, _, _) => len + |names(kind)|
    case List(family, _, children) =>
      len + ChildrenLength(names, n, |children|, indent + 2) + |ListName(family)|
  }

  /** The size of the first `k` children, one newline each. */
  function ChildrenLength(names: Names, n: Node, k: nat, indent: nat): nat
    requires n.List? && k <= |n.children|
    decreases n, 0, k
  {
    if k == 0 then 0 else ChildrenLength(names, n, k - 1, indent) + 1 + PrintLength(names, n.children[k - 1], indent)
  }

  /** The size pass computes exactly the number of bytes the writing pass
      writes, for every node and indentation. */
  lemma {:induction false} RenderLength(names: Names, n: Node, indent: nat)
    ensures |Render(names, n, indent)| == PrintLength(names, n, indent)
    decreases n, 1
  {
    if n.List? {
      ChildrenRenderLength(names, n, |n.children|, indent + 2);
    }
  }

  lemma {:induction false} ChildrenRenderLength(names: Names, n: Node, k: nat, indent: nat)
    requires n.List? && k <= |n.children|
    ensures |RenderChildren(names, n, k, indent)| == ChildrenLength(names, n, k, indent)
    decreases n, 0, k
  {
    if k > 0 {
      ChildrenRenderLength(names, n, k - 1, indent);
      RenderLength(names, n.children[k - 1], indent);
      var before := RenderChildren(names, n, k - 1, indent);
      var child := Render(names, n.children[k - 1], indent);
      assert |before + "\n" + child| == |before| + 1 + |child|;
    }
  }

  /** The printed text starts with the indentation and `(` and ends with
      `)`. */
  lemma RenderFrame(names: Names, n: Node, indent: nat)
    ensures var t := Render(names, n, indent);
      |t| > indent && t[..indent] == Spaces(indent) && t[indent] == '(' && t[|t| - 1] == ')'
  {
    var t := Render(names, n, indent);
    var h := Header(indent, NameOf(names, n), n.loc);
    assert h == Spaces(indent) + ("(" + NameOf(names, n) + " " + LocationText(n.loc));
    assert t[..|h|] == h;
    assert t[..indent] == h[..indent];
  }

  /** In a list's text, child `i` follows the header and the children before
      it, after a newline, printed two spaces deeper. */
  lemma ChildLine(names: Names, n: Node, indent: nat, i: nat)
    requires n.List? && i < |n.children|
    ensures OccursAt("\n" + Render(names, n.children[i], indent + 2), Render(names, n, indent),
      |Header(indent, ListName(n.family), n.loc)| + |RenderChildren(names, n, i, indent + 2)|)
  {
    var before := RenderChildren(names, n, i, indent + 2);
    var line := "\n" + Render(names, n.children[i], indent + 2);
    ChildrenStep(names, n, i, indent + 2);
    PrefixOfChildren(names, n, i + 1, |n.children|, indent + 2);
    RenderList(names, n, indent);
    PieceOf(Render(names, n, indent), Header(indent, ListName(n.family), n.loc),
      RenderChildren(names, n, |n.children|, indent + 2), RenderChildren(names, n, i + 1, indent + 2),
      before, line);
  }

  lemma RenderList(names: Names, n: Node, indent: nat)
    requires n.List?
    ensures Render(names, n, indent) ==
      Header(indent, ListName(n.family), n.loc) + RenderChildren(names, n, |n.children|, indent + 2) + ")"
  {
  }

  lemma ChildrenStep(names: Names, n: Node, i: nat, indent: nat)
    requires n.List? && i < |n.children|
    ensures RenderChildren(names, n, i + 1, indent) ==
      RenderChildren(names, n, i, indent) + ("\n" + Render(names, n.children[i], indent))
  {
  }

  lemma Assoc(t: string, a: string, b: string)
    ensures t + a + b == t + (a + b)
  {
  }

  lemma Assoc3(t: string, a: string, b: string, c: string)
    ensures t + a + b + c == t + (a + (b + c))
  {
  }

  lemma ChildrenLengthStep(names: Names, n: Node, i: nat, indent: nat)
    requires n.List? && i < |n.children|
    ensures ChildrenLength(names, n, i + 1, indent) ==
      ChildrenLength(names, n, i, indent) + 1 + PrintLength(names, n.children[i], indent)
  {
  }

  /** Printing more children never takes fewer bytes. */
  lemma {:induction false} ChildrenLengthGrows(names: Names, n: Node, k: nat, k': nat, indent: nat)
    requires n.List? && k <= k' <= |n.children|
    ensures ChildrenLength(names, n, k, indent) <= ChildrenLength(names, n, k', indent)
    decreases k' - k
  {
    if k < k' {
      ChildrenLengthGrows(names, n, k, k' - 1, indent);
      var c := PrintLength(names, n.children[k' - 1], indent);
      assert ChildrenLength(names, n, k', indent) == ChildrenLength(names, n, k' - 1, indent) + 1 + c;
    }
  }

  /** `piece` appears in `t` starting at index `at`. */
  predicate OccursAt(piece: string, t: string, at: nat)
  {
    at + |piece| <= |t| && t[at..at + |piece|] == piece
  }

  predicate IsPrefix(p: string, q: string)
  {
    |p| <= |q| && q[..|p|] == p
  }

  lemma PrefixExtends(p: string, q: string, u: string)
    requires IsPrefix(p, q)
    ensures IsPrefix(p, q + u)
  {
    assert (q + u)[..|p|] == q[..|p|];
  }

  /** A piece of a prefix of the middle part of a concatenation. */
  lemma PieceOf(t: string, x: string, y: string, u: string, before: string, line: string)
    requires t == x + y + ")" && u == before + line
    requires IsPrefix(u, y)
    ensures OccursAt(line, t, |x| + |before|)
  {
    assert t[|x| + |before|..|x| + |before| + |line|] == y[|before|..|before| + |line|];
    assert y[|before|..|before| + |line|] == y[..|u|][|before|..];
  }

  /** Children already printed are a prefix of the children printed later. */
  lemma {:induction false} PrefixOfChildren(names: Names, n: Node, k: nat, k': nat, indent: nat)
    requires n.List? && k <= k' <= |n.children|
    ensures IsPrefix(RenderChildren(names, n, k, indent), RenderChildren(names, n, k', indent))
    decreases k' - k
  {
    if k < k' {
      PrefixOfChildren(names, n, k, k' - 1, indent);
      ChildrenStep(names, n, k' - 1, indent);
      PrefixExtends(RenderChildren(names, n, k, indent), RenderChildren(names, n, k' - 1, indent),
        "\n" + Render(names, n.children[k' - 1], indent));
    }
  }

  // ---------------------------------------------------------------------
  // Filling a buffer.

  /** The `char*` the printers advance through a buffer of fixed size: `pos`
      is where the next byte goes and `text` is what has been written so
      far. */
  class Cursor {
    const data: array<char>
    var pos: nat
    ghost var text: string

    ghost predicate Valid()
      reads this, data
    {
      pos == |text| <= data.Length && data[..pos] == text
    }

    /** The buffer of ely_node_to_string (reader.c:361). */
    constructor(size: nat)
      ensures Valid() && fresh(data) && data.Length == size && text == []
    {
      data := new char[size];
      pos := 0;
      text := [];
    }

    /** `*buffer++ = c`. */
    method Put(c: char)
      requires Valid() && pos < data.Length
      modifies this, data
      ensures Valid() && text == old(text) + [c] && pos == old(pos) + 1
    {
      data[pos] := c;
      assert data[..pos + 1] == data[..pos] + [c];
      pos := pos + 1;
      text := text + [c];
    }
  }

  /** memcpy of `text` to the cursor. */
  method WriteText(w: Cursor, text: string)
    requires w.Valid() && w.pos + |text| <= w.data.Length
    modifies w, w.data
    ensures w.Valid() && w.text == old(w.text) + text && w.pos == old(w.pos) + |text|
  {
    var i := 0;
    while i < |text|
      invariant 0 <= i <= |text|
      invariant w.Valid() && w.text == old(w.text) + text[..i] && w.pos == old(w.pos) + i
    {
      w.Put(text[i]);
      assert text[..i] + [text[i]] == text[..i + 1];
      i := i + 1;
    }
    assert text[..i] == text;
  }

  /** The indentation loop (reader.c:268-272, 326-330). */
  method WriteIndent(w: Cursor, indent: nat)
    requires w.Valid() && w.pos + indent <= w.data.Length
    modifies w, w.data
    ensures w.Valid() && w.text == old(w.text) + Spaces(indent) && w.pos == old(w.pos) + indent
  {
    var i := 0;
    while i != indent
      invariant 0 <= i <= indent
      invariant w.Valid() && w.text == old(w.text) + Spaces(i) && w.pos == old(w.pos) + i
    {
      w.Put(' ');
      i := i + 1;
    }
  }

  /** ely_stx_location_write_to_buffer (reader.c:155-165): writes
      `[start end]` and returns its length. */
  method WriteLocation(w: Cursor, loc: Location) returns (written: nat)
    requires w.Valid() && w.pos + LocationWriteLength(loc) <= w.data.Length
    modifies w, w.data
    ensures w.Valid() && w.text == old(w.text) + LocationText(loc)
    ensures written == LocationWriteLength(loc) && w.pos == old(w.pos) + written
  {
    w.Put('[');
    WriteText(w, Decimal(loc.start));
    w.Put(' ');
    WriteText(w, Decimal(loc.end));
    w.Put(']');
    written := LocationWriteLength(loc);
  }

  /** The shared opening of both printers: indentation, `(`, the name, a
      space and the location (reader.c:268-281, 326-340). */
  method WriteHeader(w: Cursor, indent: nat, name: string, loc: Location)
    requires w.Valid() && w.pos + indent + |name| + 2 + LocationWriteLength(loc) <= w.data.Length
    modifies w, w.data
    ensures w.Valid() && w.text == old(w.text) + Header(indent, name, loc)
    ensures w.pos == old(w.pos) + indent + |name| + 2 + LocationWriteLength(loc)
  {
    ghost var t0 := w.text;
    WriteIndent(w, indent);
    w.Put('(');
    Assoc(t0, Spaces(indent), "(");
    WriteText(w, name);
    Assoc(t0, Spaces(indent) + "(", name);
    w.Put(' ');
    Assoc(t0, Spaces(indent) + "(" + name, " ");
    var _ := WriteLocation(w, loc);
    Assoc(t0, Spaces(indent) + "(" + name + " ", LocationText(loc));
  }

  /** node_print_generic (reader.c:261-284): a leaf prints as
      `(name [start end])` after its indentation; returns the bytes
      written. */
  method PrintGeneric(w: Cursor, indent: nat, name: string, loc: Location) returns (written: nat)
    requires w.Valid() && w.pos + indent + |name| + 3 + LocationWriteLength(loc) <= w.data.Length
    modifies w, w.data
    ensures w.Valid() && w.text == old(w.text) + (Header(indent, name, loc) + ")")
    ensures written == 3 + indent + |name| + LocationWriteLength(loc) && w.pos == old(w.pos) + written
  {
    ghost var t0 := w.text;
    WriteHeader(w, indent, name, loc);
    w.Put(')');
    Assoc(t0, Header(indent, name, loc), ")");
    written := 3 + indent + |name| + LocationWriteLength(loc);
  }

  /** node_to_string_impl (reader.c:286-356): writes the node and returns
      the number of bytes written. Bracket and brace lists are unreachable
      there (reader.c:353-354), so the node holds only parenthesised lists. */
  method WriteNode(names: Names, n: Node, w: Cursor, indent: nat) returns (written: nat)
    requires ParensOnly(n)
    requires w.Valid() && w.pos + PrintLength(names, n, indent) <= w.data.Length
    modifies w, w.data
    ensures w.Valid() && w.text == old(w.text) + Render(names, n, indent)
    ensures written == PrintLength(names, n, indent) && w.pos == old(w.pos) + written
    decreases n, 2
  {
    if n.Leaf? {
      written := PrintGeneric(w, indent, names(n.kind), n.loc);
    } else {
      ghost var t0 := w.text;
      var h := Header(indent, ListName(n.family), n.loc);
      WriteHeader(w, indent, ListName(n.family), n.loc);
      WriteChildren(names, n, indent + 2, w);
      Assoc(t0, h, RenderChildren(names, n, |n.children|, indent + 2));
      w.Put(')');
      Assoc(t0, h + RenderChildren(names, n, |n.children|, indent + 2), ")");
      RenderList(names, n, indent);
      written := PrintLength(names, n, indent);
    }
  }

  /** The loop over a list's children (reader.c:342-348): each child after a
      newline, two spaces deeper. */
  method WriteChildren(names: Names, n: Node, indent: nat, w: Cursor)
    requires ParensOnly(n) && n.List?
    requires w.Valid() && w.pos + ChildrenLength(names, n, |n.children|, indent) <= w.data.Length
    modifies w, w.data
    ensures w.Valid() && w.text == old(w.text) + RenderChildren(names, n, |n.children|, indent)
    ensures w.pos == old(w.pos) + ChildrenLength(names, n, |n.children|, indent)
    decreases n, 1
  {
    ghost var t0 := w.text;
    ghost var p0 := w.pos;
    var k := 0;
    while k < |n.children|
      invariant 0 <= k <= |n.children|
      invariant w.Valid() && w.text == t0 + RenderChildren(names, n, k, indent)
      invariant w.pos == p0 + ChildrenLength(names, n, k, indent)
    {
      WriteChildLine(names, n, k, indent, w, t0, p0);
      k := k + 1;
    }
  }

  /** One turn of that loop: a newline, then child `k`, after the children
      before it. */
  method WriteChildLine(names: Names, n: Node, k: nat, indent: nat, w: Cursor, ghost t0: string, ghost p0: nat)
    requires ParensOnly(n) && n.List? && k < |n.children|
    requires w.Valid() && w.text == t0 + RenderChildren(names, n, k, indent)
    requires w.pos == p0 + ChildrenLength(names, n, k, indent)
    requires p0 + ChildrenLength(names, n, |n.children|, indent) <= w.data.Length
    modifies w, w.data
    ensures w.Valid() && w.text == t0 + RenderChildren(names, n, k + 1, indent)
    ensures w.pos == p0 + ChildrenLength(names, n, k + 1, indent)
    decreases n, 0
  {
    ChildrenLengthGrows(names, n, k + 1, |n.children|, indent);
    ChildrenLengthStep(names, n, k, indent);
    ChildrenStep(names, n, k, indent);
    Assoc3(t0, RenderChildren(names, n, k, indent), "\n", Render(names, n.children[k], indent));
    w.Put('\n');
    var _ := WriteNode(names, n.children[k], w, indent);
  }

  /** node_to_string_len (reader.c:198-259), the size pass. */
  method NodeToStringLen(names: Names, n: Node, indent: nat) returns (len: nat)
    ensures len == PrintLength(names, n, indent)
    decreases n, 1
  {
    len := 3 + indent + LocationWriteLength(n.loc);
    if n.Leaf? {
      len := len + |names(n.kind)|;
    } else {
      var children := ChildrenToStringLen(names, n, indent + 2);
      len := len + children + |ListName(n.family)|;
    }
  }

  /** The loop of the size pass over a list's children (reader.c:223-231):
      one newline and the child's size each. */
  method ChildrenToStringLen(names: Names, n: Node, indent: nat) returns (len: nat)
    requires n.List?
    ensures len == ChildrenLength(names, n, |n.children|, indent)
    decreases n, 0
  {
    len := 0;
    var k := 0;
    while k < |n.children|
      invariant 0 <= k <= |n.children|
      invariant len == ChildrenLength(names, n, k, indent)
    {
      ChildrenLengthStep(names, n, k, indent);
      var child := NodeToStringLen(names, n.children[k], indent);
      len := len + 1 + child;
      k := k + 1;
    }
  }

  /** ely_node_to_string (reader.c:358-371): size the buffer with the size
      pass, fill it with the writing pass, and return the bytes written. */
  method NodeToString(names: Names, n: Node) returns (text: string)
    requires ParensOnly(n)
    ensures text == Render(names, n, 0)
    ensures |text| == PrintLength(names, n, 0)
  {
    var size := NodeToStringLen(names, n, 0);
    var w := new Cursor(size);
    var written := WriteNode(names, n, w, 0);
    text := w.data[..written];
    RenderLength(names, n, 0);
  }
}
