/** The reader of src/reader.c as a token-by-token machine over an explicit
    stack of open lists. `Step` is what the reader does with one raw token,
    `Run` folds it over a token slice, and `ReadFrom` is one call of
    `ely_reader_read`. The imperative reader (module Reader) is proved to
    compute exactly this, and the recursive shape of the C code (module
    ReaderRecursive) is proved to agree with it. */
module ReaderSpec {
  import opened Syntax

  /** Kinds of the raw tokens the lexer hands to the reader (ELY_TOKEN_*). */
  datatype TokenKind =
    | Whitespace | Tab | NewlineCr | NewlineLf | NewlineCrlf | Comment
    | LParen | RParen | LBracket | RBracket | LBrace | RBrace
    | Id | IntLit | FloatLit | StringLit | CharLit | KeywordLit | TrueLit | FalseLit
    | Eof

  /** A raw token: its kind and its length in bytes. */
  datatype RawToken = RawToken(kind: TokenKind, len: nat)

  /** The atmosphere kinds the reader skips (reader.c:74-79). */
  predicate IsAtmosphere(k: TokenKind)
  {
    k.Whitespace? || k.Tab? || k.NewlineCr? || k.NewlineLf? || k.NewlineCrlf? || k.Comment?
  }

  /** The kinds that become leaf nodes. */
  predicate IsLeafToken(k: TokenKind)
  {
    k.Id? || k.IntLit? || k.FloatLit? || k.StringLit? || k.CharLit? || k.KeywordLit? ||
    k.TrueLit? || k.FalseLit?
  }

  /** What the reader relies on the lexer for: a '(' is at least one byte
      (its start is the cursor minus one), and string, character and keyword
      lexemes carry their two delimiter or prefix bytes (their payload length
      is the 32-bit `len - 2`). */
  predicate Lexed(t: RawToken)
  {
    (t.kind.LParen? ==> t.len >= 1) &&
    (t.kind.StringLit? || t.kind.CharLit? || t.kind.KeywordLit? ==> t.len >= 2)
  }

  type LexedToken = t: RawToken | Lexed(t) witness RawToken(Eof, 0)

  /** Total byte length of a run of tokens. */
  function SumLen(ts: seq<RawToken>): nat
  {
    if ts == [] then 0 else ts[0].len + SumLen(ts[1..])
  }

  lemma {:induction false} SumLenConcat(a: seq<RawToken>, b: seq<RawToken>)
    ensures SumLen(a + b) == SumLen(a) + SumLen(b)
  {
    if a != [] {
      assert (a + b)[0] == a[0] && (a + b)[1..] == a[1..] + b;
      SumLenConcat(a[1..], b);
      assert SumLen(a + b) == a[0].len + SumLen(a[1..] + b);
    } else {
      assert a + b == b;
    }
  }

  /** The result of skip_atmosphere. */
  datatype SkipResult = SkipResult(tokensSkipped: nat, bytesSkipped: nat)

  /** skip_atmosphere (reader.c:25-45): the leading run of atmosphere tokens,
      how many there are and how many bytes they cover. */
  function Skipped(ts: seq<RawToken>): (r: SkipResult)
    ensures r.tokensSkipped <= |ts|
    ensures forall k | 0 <= k < r.tokensSkipped :: IsAtmosphere(ts[k].kind)
    ensures r.tokensSkipped < |ts| ==> !IsAtmosphere(ts[r.tokensSkipped].kind)
    ensures r.bytesSkipped == SumLen(ts[..r.tokensSkipped])
  {
    if ts == [] || !IsAtmosphere(ts[0].kind) then
      assert ts[..0] == [];
      SkipResult(0, 0)
    else
      var rest := Skipped(ts[1..]);
      assert ts[..rest.tokensSkipped + 1][1..] == ts[1..][..rest.tokensSkipped];
      SkipResult(rest.tokensSkipped + 1, rest.bytesSkipped + ts[0].len)
  }

  /** `src[from..to]`, clamped to the buffer. The reader copies payload bytes
      without checking the buffer's length; the lexer guarantees that every
      token lies inside it, and every lemma about payloads assumes so. */
  function Slice(src: string, from: nat, to: nat): string
  {
    var a := if from <= |src| then from else |src|;
    var b := if to <= |src| then to else |src|;
    if a <= b then src[a..b] else []
  }

  /** Errors the reader reports where the C code asserts. */
  datatype ReadError =
    | UnexpectedClose        // a closing delimiter with no open list
    | MismatchedClose        // ']' or '}' inside a parenthesised list
    | MissingClose           // Eof inside an open list
    | NotYetImplemented      // '[' or '{'
    | UnsupportedIdentifier  // an identifier containing '|'

  datatype LeafResult = Ok(node: Node) | Err(error: ReadError)

  function LeafKindOf(k: TokenKind): LeafKind
    requires IsLeafToken(k)
  {
    match k
    case Id => Identifier
    case IntLit => Syntax.IntLit
    case FloatLit => Syntax.FloatLit
    case StringLit => Syntax.StringLit
    case CharLit => Syntax.CharLit
    case KeywordLit => Syntax.KeywordLit
    case TrueLit => Syntax.TrueLit
    case FalseLit => Syntax.FalseLit
  }

  /** The leaf readers read_* (reader.c:380-522): the node spans
      `[start, start + len]`; its text is the token's bytes without the
      delimiters of its kind. */
  function ReadLeaf(src: string, t: LexedToken, start: nat): (r: LeafResult)
    requires IsLeafToken(t.kind)
    ensures r.Ok? ==> r.node.Leaf? && r.node.kind == LeafKindOf(t.kind)
    ensures r.Ok? ==> r.node.loc == Location(start, start + t.len)
    ensures r.Err? <==> t.kind.Id? && '|' in Slice(src, start, start + t.len)
  {
    var loc := Location(start, start + t.len);
    match t.kind
    case Id =>
      var text := Slice(src, start, start + t.len);
      if '|' in text then Err(UnsupportedIdentifier) else Ok(Leaf(Identifier, loc, text))
    case IntLit => Ok(Leaf(Syntax.IntLit, loc, Slice(src, start, start + t.len)))
    case FloatLit => Ok(Leaf(Syntax.FloatLit, loc, Slice(src, start, start + t.len)))
    case StringLit => Ok(Leaf(Syntax.StringLit, loc, Slice(src, start + 1, start + 1 + (t.len - 2))))
    case CharLit => Ok(Leaf(Syntax.CharLit, loc, Slice(src, start + 2, start + 2 + (t.len - 2))))
    case KeywordLit => Ok(Leaf(Syntax.KeywordLit, loc, Slice(src, start + 2, start + 2 + (t.len - 2))))
    case TrueLit => Ok(Leaf(Syntax.TrueLit, loc, []))
    case FalseLit => Ok(Leaf(Syntax.FalseLit, loc, []))
  }

  /** The decoded text is the token's bytes minus exactly the delimiter or
      prefix bytes of its kind. */
  lemma LeafTextRoundTrip(src: string, t: LexedToken, start: nat)
    requires IsLeafToken(t.kind) && start + t.len <= |src|
    requires ReadLeaf(src, t, start).Ok?
    ensures var text := ReadLeaf(src, t, start).node.text;
      var bytes := src[start..start + t.len];
      && (t.kind.Id? || t.kind.IntLit? || t.kind.FloatLit? ==> text == bytes)
      && (t.kind.StringLit? ==> bytes == [src[start]] + text + [src[start + t.len - 1]])
      && (t.kind.CharLit? || t.kind.KeywordLit? ==> bytes == src[start..start + 2] + text)
      && (t.kind.TrueLit? || t.kind.FalseLit? ==> text == [])
  {
    var bytes := src[start..start + t.len];
    if t.kind.StringLit? {
      assert bytes == [src[start]] + src[start + 1..start + t.len - 1] + [src[start + t.len - 1]];
    } else if t.kind.CharLit? || t.kind.KeywordLit? {
      assert bytes == src[start..start + 2] + src[start + 2..start + t.len];
    }
  }

  /** An open parenthesised list: where it starts and the children read so far. */
  datatype Frame = Frame(start: nat, children: seq<Node>)

  /** The reader's state: the byte cursor and the stack of open lists,
      innermost last. */
  datatype Machine = Machine(cursor: nat, open: seq<Frame>)

  function Top(open: seq<Frame>): Frame
    requires open != []
  {
    open[|open| - 1]
  }

  function Pop(open: seq<Frame>): seq<Frame>
    requires open != []
  {
    open[..|open| - 1]
  }

  /** Appends a child at the tail of the innermost open list (ely_list_insert
      at `list.prev`, reader.c:107). */
  function AppendChild(open: seq<Frame>, n: Node): (r: seq<Frame>)
    requires open != []
    ensures |r| == |open| && Pop(r) == Pop(open)
    ensures Top(r) == Frame(Top(open).start, Top(open).children + [n])
  {
    Pop(open) + [Frame(Top(open).start, Top(open).children + [n])]
  }

  /** What one token does to the reader. */
  datatype StepResult =
    | Continue(next: Machine)
    | Complete(node: Node, cursor: nat)
    | EndOfForms(cursor: nat)
    | Fail(error: ReadError, cursor: nat)

  /** A finished node either is a top-level form or becomes the last child of
      the innermost open list. */
  function Deliver(n: Node, m: Machine): StepResult
  {
    if m.open == [] then Complete(n, m.cursor)
    else Continue(Machine(m.cursor, AppendChild(m.open, n)))
  }

  /** The ')' arm of continue_read_parens_list (reader.c:82-91): the cursor
      moves past ')' and the list ends there. */
  function Close(m: Machine, len: nat): StepResult
    requires m.open != []
  {
    var c := m.cursor + len;
    var f := Top(m.open);
    Deliver(List(ParensList, Location(f.start, c), f.children), Machine(c, Pop(m.open)))
  }

  /** One token: the dispatch of reader_read_impl (reader.c:525-618) at top
      level, and of continue_read_parens_list (reader.c:64-112) inside a list. */
  function Step(src: string, m: Machine, t: LexedToken): (r: StepResult)
    ensures r.Continue? ==> m.cursor <= r.next.cursor <= m.cursor + t.len
    ensures !r.Continue? ==> m.cursor <= r.cursor <= m.cursor + t.len
    ensures r.Complete? ==> (r.node.List? <==> t.kind.RParen?)
    ensures r.EndOfForms? ==> t.kind.Eof? && m.open == []
  {
    var c := m.cursor + t.len;
    match t.kind
    case Whitespace | Tab | NewlineCr | NewlineLf | NewlineCrlf | Comment =>
      Continue(Machine(c, m.open))
    case LParen =>
      Continue(Machine(c, m.open + [Frame(c - 1, [])]))
    case RParen =>
      if m.open == [] then Fail(UnexpectedClose, c) else Close(m, t.len)
    case RBracket | RBrace =>
      if m.open == [] then Fail(UnexpectedClose, c) else Fail(MismatchedClose, m.cursor)
    case LBracket | LBrace =>
      Fail(NotYetImplemented, c)
    case Eof =>
      if m.open == [] then EndOfForms(c) else Fail(MissingClose, m.cursor)
    case Id | IntLit | FloatLit | StringLit | CharLit | KeywordLit | TrueLit | FalseLit =>
      match ReadLeaf(src, t, m.cursor)
      case Err(e) => Fail(e, c)
      case Ok(n) => Deliver(n, Machine(c, m.open))
  }

  /** What one call of the reader returns: a form and the tokens consumed,
      no form, the "incomplete" signal (the 0x1 sentinel of reader.c:117),
      or an error at a token index. */
  datatype ReadResult =
    | Form(node: Node, consumed: nat)
    | NoForm(consumed: nat)
    | Incomplete(consumed: nat)
    | Failed(error: ReadError, at: nat)

  datatype Outcome = Outcome(result: ReadResult, state: Machine)

  /** The machine run over `toks[i..]`. Running out of tokens with lists
      still open parks them (reader.c:114-121); a failure clears them. */
  function Run(src: string, m: Machine, toks: seq<LexedToken>, i: nat): Outcome
    requires i <= |toks|
    decreases |toks| - i
  {
    if i == |toks| then
      if m.open == [] then Outcome(NoForm(i), m) else Outcome(Incomplete(i), m)
    else
      match Step(src, m, toks[i])
      case Continue(next) => Run(src, next, toks, i + 1)
      case Complete(n, c) => Outcome(Form(n, i + 1), Machine(c, []))
      case EndOfForms(c) => Outcome(NoForm(i + 1), Machine(c, []))
      case Fail(e, c) => Outcome(Failed(e, i), Machine(c, []))
  }

  /** ely_reader_read (reader.c:639-660) with the open lists resumed first:
      an empty slice returns no form and changes nothing. */
  function ReadFrom(src: string, m: Machine, toks: seq<LexedToken>): Outcome
  {
    if |toks| == 0 then Outcome(NoForm(0), m) else Run(src, m, toks, 0)
  }

  /** Where each result lands and what the state looks like after it; the
      cursor never moves backwards. */
  lemma {:induction false} RunBounds(src: string, m: Machine, toks: seq<LexedToken>, i: nat)
    requires i <= |toks|
    ensures var o := Run(src, m, toks, i);
      && o.state.cursor >= m.cursor
      && (o.result.Form? ==> i < o.result.consumed <= |toks| && o.state.open == [])
      && (o.result.NoForm? ==> i <= o.result.consumed <= |toks| && o.state.open == [])
      && (o.result.Incomplete? ==> o.result.consumed == |toks| && o.state.open != [])
      && (o.result.Failed? ==> i <= o.result.at < |toks| && o.state.open == [])
    decreases |toks| - i
  {
    if i < |toks| {
      match Step(src, m, toks[i])
      case Continue(next) => RunBounds(src, next, toks, i + 1);
      case Complete(_, _) =>
      case EndOfForms(_) =>
      case Fail(_, _) =>
    }
  }

  /** Atmosphere only moves the cursor by its length. */
  lemma {:induction false} RunSkipsAtmosphere(src: string, m: Machine, toks: seq<LexedToken>, i: nat, j: nat)
    requires i <= j <= |toks|
    requires forall k | i <= k < j :: IsAtmosphere(toks[k].kind)
    ensures Run(src, m, toks, i) == Run(src, Machine(m.cursor + SumLen(toks[i..j]), m.open), toks, j)
    decreases j - i
  {
    if i == j {
      assert toks[i..j] == [];
    } else {
      assert toks[i..j][1..] == toks[i + 1..j];
      RunSkipsAtmosphere(src, Machine(m.cursor + toks[i].len, m.open), toks, i + 1, j);
    }
  }

  // ---------------------------------------------------------------------
  // Spans: every node the reader builds is a parenthesised tree whose
  // children sit inside their parent's span in increasing order.

  predicate FrameOk(f: Frame, limit: nat)
  {
    f.start <= limit &&
    (forall k | 0 <= k < |f.children| ::
       NodeOk(f.children[k]) && f.start <= f.children[k].loc.start && f.children[k].loc.end <= limit) &&
    (forall k | 0 <= k < |f.children| - 1 :: f.children[k].loc.end <= f.children[k + 1].loc.start)
  }

  /** An open list's children end before the next inner list starts, or
      before the cursor for the innermost one. */
  function Limit(m: Machine, k: nat): nat
    requires k < |m.open|
  {
    if k + 1 < |m.open| then m.open[k + 1].start else m.cursor
  }

  predicate Ordered(m: Machine)
  {
    forall k | 0 <= k < |m.open| :: FrameOk(m.open[k], Limit(m, k))
  }

  lemma FrameOkWiden(f: Frame, limit: nat, limit': nat)
    requires FrameOk(f, limit) && limit <= limit'
    ensures FrameOk(f, limit')
  {
  }

  lemma {:induction false} OrderedAdvance(m: Machine, c: nat)
    requires Ordered(m) && m.cursor <= c
    ensures Ordered(Machine(c, m.open))
  {
    var m' := Machine(c, m.open);
    forall k | 0 <= k < |m.open|
      ensures FrameOk(m'.open[k], Limit(m', k))
    {
      FrameOkWiden(m.open[k], Limit(m, k), Limit(m', k));
    }
  }

  lemma {:induction false} DeliverKeepsOrdered(n: Node, m: Machine)
    requires NodeOk(n) && n.loc.end <= m.cursor
    requires Ordered(Machine(n.loc.start, m.open))
    ensures Deliver(n, m).Continue? ==> Ordered(Deliver(n, m).next)
    ensures Deliver(n, m).Complete? ==> Deliver(n, m).node == n && Deliver(n, m).cursor == m.cursor
  {
    if m.open != [] {
      var before := Machine(n.loc.start, m.open);
      var after := Machine(m.cursor, AppendChild(m.open, n));
      var last := |m.open| - 1;
      forall k | 0 <= k < |after.open|
        ensures FrameOk(after.open[k], Limit(after, k))
      {
        if k < last {
          assert after.open[k] == m.open[k] && Limit(after, k) == Limit(before, k);
        } else {
          var f := m.open[last];
          assert FrameOk(f, n.loc.start);
          var g := after.open[k];
          assert g == Frame(f.start, f.children + [n]);
          assert Limit(after, k) == m.cursor;
        }
      }
    }
  }

  /** The list a ')' closes is a well-spanned parenthesised tree. */
  lemma ClosedListOk(m: Machine, len: nat)
    requires m.open != [] && Ordered(m)
    ensures NodeOk(List(ParensList, Location(Top(m.open).start, m.cursor + len), Top(m.open).children))
  {
    var f := Top(m.open);
    assert FrameOk(f, Limit(m, |m.open| - 1));
    var n := List(ParensList, Location(f.start, m.cursor + len), f.children);
    assert WellSpanned(n);
    assert ParensOnly(n);
  }

  /** The lists around the innermost one stay ordered up to where it began. */
  lemma PopKeepsOrdered(m: Machine)
    requires m.open != [] && Ordered(m)
    ensures Ordered(Machine(Top(m.open).start, Pop(m.open)))
  {
    var below := Machine(Top(m.open).start, Pop(m.open));
    forall k | 0 <= k < |below.open|
      ensures FrameOk(below.open[k], Limit(below, k))
    {
      assert below.open[k] == m.open[k] && Limit(below, k) == Limit(m, k);
    }
  }

  lemma CloseKeepsOrdered(m: Machine, len: nat)
    requires m.open != [] && Ordered(m)
    ensures Close(m, len).Continue? ==> Ordered(Close(m, len).next)
    ensures Close(m, len).Complete? ==>
      NodeOk(Close(m, len).node) && Close(m, len).node.loc.end == Close(m, len).cursor
  {
    ClosedListOk(m, len);
    PopKeepsOrdered(m);
    var f := Top(m.open);
    var n := List(ParensList, Location(f.start, m.cursor + len), f.children);
    assert Close(m, len) == Deliver(n, Machine(m.cursor + len, Pop(m.open)));
    DeliverKeepsOrdered(n, Machine(m.cursor + len, Pop(m.open)));
  }

  /** A '(' pushes a list that starts at the byte before the cursor. */
  lemma OpenKeepsOrdered(m: Machine, c: nat)
    requires Ordered(m) && m.cursor < c
    ensures Ordered(Machine(c, m.open + [Frame(c - 1, [])]))
  {
    OrderedAdvance(m, c - 1);
    var m' := Machine(c, m.open + [Frame(c - 1, [])]);
    forall k | 0 <= k < |m'.open|
      ensures FrameOk(m'.open[k], Limit(m', k))
    {
      if k < |m.open| {
        assert m'.open[k] == m.open[k] && Limit(m', k) == Limit(Machine(c - 1, m.open), k);
      }
    }
  }

  lemma StepKeepsOrdered(src: string, m: Machine, t: LexedToken)
    requires Ordered(m)
    ensures Step(src, m, t).Continue? ==> Ordered(Step(src, m, t).next)
    ensures Step(src, m, t).Complete? ==>
      NodeOk(Step(src, m, t).node) && Step(src, m, t).node.loc.end == Step(src, m, t).cursor
  {
    var c := m.cursor + t.len;
    if IsAtmosphere(t.kind) {
      assert Step(src, m, t) == Continue(Machine(c, m.open));
      OrderedAdvance(m, c);
    } else if t.kind.LParen? {
      assert Step(src, m, t) == Continue(Machine(c, m.open + [Frame(c - 1, [])]));
      OpenKeepsOrdered(m, c);
    } else if t.kind.RParen? {
      if m.open != [] {
        assert Step(src, m, t) == Close(m, t.len);
        CloseKeepsOrdered(m, t.len);
      }
    } else if IsLeafToken(t.kind) {
      var r := ReadLeaf(src, t, m.cursor);
      if r.Ok? {
        assert Step(src, m, t) == Deliver(r.node, Machine(c, m.open));
        DeliverKeepsOrdered(r.node, Machine(c, m.open));
      }
    } else {
      assert !Step(src, m, t).Continue? && !Step(src, m, t).Complete?;
    }
  }

  /** Every form the reader completes is a well-spanned parenthesised tree
      that ends at the cursor; parked lists stay ordered. */
  lemma {:induction false} RunKeepsOrdered(src: string, m: Machine, toks: seq<LexedToken>, i: nat)
    requires i <= |toks| && Ordered(m)
    ensures var o := Run(src, m, toks, i);
      && (o.result.Form? ==> NodeOk(o.result.node) && o.result.node.loc.end == o.state.cursor)
      && (o.result.Incomplete? ==> Ordered(o.state))
    decreases |toks| - i
  {
    if i < |toks| {
      StepKeepsOrdered(src, m, toks[i]);
      match Step(src, m, toks[i])
      case Continue(next) => RunKeepsOrdered(src, next, toks, i + 1);
      case Complete(_, _) =>
      case EndOfForms(_) =>
      case Fail(_, _) =>
    }
  }

  // ---------------------------------------------------------------------
  // Where a list starts and ends.

  lemma StepKeepsBottom(src: string, m: Machine, t: LexedToken)
    requires m.open != []
    ensures Step(src, m, t).Continue? ==>
      Step(src, m, t).next.open != [] && Step(src, m, t).next.open[0].start == m.open[0].start
    ensures Step(src, m, t).Complete? ==>
      Step(src, m, t).node.List? && Step(src, m, t).node.loc.start == m.open[0].start
  {
  }

  /** The outermost open list completes with the start it was opened with. */
  lemma {:induction false} RunKeepsBottom(src: string, m: Machine, toks: seq<LexedToken>, i: nat)
    requires i <= |toks| && m.open != []
    ensures var o := Run(src, m, toks, i);
      && (o.result.Form? ==> o.result.node.List? && o.result.node.loc.start == m.open[0].start)
      && (o.result.Incomplete? ==> o.state.open != [] && o.state.open[0].start == m.open[0].start)
    decreases |toks| - i
  {
    if i < |toks| {
      StepKeepsBottom(src, m, toks[i]);
      match Step(src, m, toks[i])
      case Continue(next) => RunKeepsBottom(src, next, toks, i + 1);
      case Complete(_, _) =>
      case EndOfForms(_) =>
      case Fail(_, _) =>
    }
  }

  /** A list read at top level starts at the byte its '(' token ends on
      minus one, the `current_byte - 1` of reader.c:132. */
  lemma OpenParenStartsList(src: string, m: Machine, toks: seq<LexedToken>, j: nat)
    requires m.open == [] && j < |toks| && toks[j].kind.LParen?
    ensures var o := Run(src, m, toks, j);
      o.result.Form? ==> o.result.node.List? && o.result.node.loc.start == m.cursor + toks[j].len - 1
  {
    var c := m.cursor + toks[j].len;
    var m' := Machine(c, [Frame(c - 1, [])]);
    assert Step(src, m, toks[j]) == Continue(m');
    assert Run(src, m, toks, j) == Run(src, m', toks, j + 1);
    RunKeepsBottom(src, m', toks, j + 1);
  }

  /** A top-level form never starts before the cursor the read started from. */
  lemma {:induction false} TopLevelFormStart(src: string, m: Machine, toks: seq<LexedToken>, i: nat)
    requires i <= |toks| && m.open == []
    ensures var o := Run(src, m, toks, i);
      o.result.Form? ==> o.result.node.loc.start >= m.cursor
    decreases |toks| - i
  {
    if i < |toks| {
      var t := toks[i];
      if IsAtmosphere(t.kind) {
        TopLevelFormStart(src, Machine(m.cursor + t.len, []), toks, i + 1);
      } else if t.kind.LParen? {
        OpenParenStartsList(src, m, toks, i);
      }
    }
  }

  /** The tokens consumed end exactly at the token that completed the form:
      a ')' for a list (reader.c:83-88), the leaf's own token otherwise. */
  lemma {:induction false} FormEndsAtItsLastToken(src: string, m: Machine, toks: seq<LexedToken>, i: nat)
    requires i <= |toks|
    ensures var o := Run(src, m, toks, i);
      o.result.Form? ==>
        0 < o.result.consumed <= |toks| &&
        (o.result.node.List? <==> toks[o.result.consumed - 1].kind.RParen?) &&
        (o.result.node.Leaf? ==>
          var t := toks[o.result.consumed - 1];
          && IsLeafToken(t.kind)
          && o.result.node.kind == LeafKindOf(t.kind)
          && o.result.node.loc.end == o.result.node.loc.start + t.len)
    decreases |toks| - i
  {
    if i < |toks| {
      match Step(src, m, toks[i])
      case Continue(next) => FormEndsAtItsLastToken(src, next, toks, i + 1);
      case Complete(_, _) =>
      case EndOfForms(_) =>
      case Fail(_, _) =>
    }
  }

  /** The first token that is not atmosphere decides the structural
      outcomes (reader.c:92-100, 564-570, 611-614). */
  lemma StructuralOutcomes(src: string, m: Machine, toks: seq<LexedToken>, i: nat, j: nat)
    requires i <= j < |toks|
    requires forall k | i <= k < j :: IsAtmosphere(toks[k].kind)
    ensures var k := toks[j].kind; var r := Run(src, m, toks, i).result;
      && (m.open == [] && (k.RParen? || k.RBracket? || k.RBrace?) ==> r == Failed(UnexpectedClose, j))
      && (m.open != [] && (k.RBracket? || k.RBrace?) ==> r == Failed(MismatchedClose, j))
      && (m.open != [] && k.Eof? ==> r == Failed(MissingClose, j))
      && (m.open == [] && k.Eof? ==> r == NoForm(j + 1))
      && (k.LBracket? || k.LBrace? ==> r == Failed(NotYetImplemented, j))
  {
    RunSkipsAtmosphere(src, m, toks, i, j);
  }

  /** A leaf token at top level, after its atmosphere: the node spans the
      cursor to the cursor plus the token's length, the cursor moves by that
      length, and the tokens consumed end just past it (reader.c:532-542). */
  lemma ReadsOneLeaf(src: string, m: Machine, toks: seq<LexedToken>, j: nat)
    requires m.open == [] && j < |toks| && IsLeafToken(toks[j].kind)
    requires ReadLeaf(src, toks[j], m.cursor).Ok?
    ensures var o := Run(src, m, toks, j);
      && o.result == Form(ReadLeaf(src, toks[j], m.cursor).node, j + 1)
      && o.result.node.loc == Location(m.cursor, m.cursor + toks[j].len)
      && o.state == Machine(m.cursor + toks[j].len, [])
  {
  }

  // ---------------------------------------------------------------------
  // Resumption: a slice that runs out inside a list, followed by the rest
  // of the tokens, reads exactly like the whole token sequence.

  function Shift(r: ReadResult, d: nat): ReadResult
  {
    match r
    case Form(n, k) => Form(n, k + d)
    case NoForm(k) => NoForm(k + d)
    case Incomplete(k) => Incomplete(k + d)
    case Failed(e, at) => Failed(e, at + d)
  }

  lemma {:induction false} RunShift(src: string, m: Machine, a: seq<LexedToken>, b: seq<LexedToken>, j: nat)
    requires j <= |b|
    ensures Run(src, m, a + b, |a| + j) ==
      var o := Run(src, m, b, j); Outcome(Shift(o.result, |a|), o.state)
    decreases |b| - j
  {
    if j < |b| {
      assert (a + b)[|a| + j] == b[j];
      match Step(src, m, b[j])
      case Continue(next) => RunShift(src, next, a, b, j + 1);
      case Complete(_, _) =>
      case EndOfForms(_) =>
      case Fail(_, _) =>
    }
  }

  lemma {:induction false} RunSplit(src: string, m: Machine, a: seq<LexedToken>, b: seq<LexedToken>, i: nat)
    requires i <= |a| && Run(src, m, a, i).result.Incomplete?
    ensures Run(src, m, a + b, i) ==
      var o := Run(src, Run(src, m, a, i).state, b, 0); Outcome(Shift(o.result, |a|), o.state)
    decreases |a| - i
  {
    if i == |a| {
      RunShift(src, m, a, b, 0);
    } else {
      assert (a + b)[i] == a[i];
      match Step(src, m, a[i])
      case Continue(next) => RunSplit(src, next, a, b, i + 1);
      case Complete(_, _) =>
      case EndOfForms(_) =>
      case Fail(_, _) =>
    }
  }

  /** Feeding a token sequence in two slices, where the first runs out inside
      an open list, gives the same result and the same final state as feeding
      it whole; the second call resumes at index 0 of its own slice. */
  lemma ChunkedReadEqualsWhole(src: string, m: Machine, a: seq<LexedToken>, b: seq<LexedToken>)
    requires a != [] && b != []
    requires ReadFrom(src, m, a).result.Incomplete?
    ensures var second := ReadFrom(src, ReadFrom(src, m, a).state, b);
      ReadFrom(src, m, a + b) == Outcome(Shift(second.result, |a|), second.state)
  {
    RunSplit(src, m, a, b, 0);
  }
  // ---------------------------------------------------------------------
  // Reading every form of a token sequence (ely_reader_read_all).

  /** The forms read one after another, each call starting at the tokens
      the previous one left, until a call returns anything but a form. */
  datatype ReadAllOutcome = ReadAllOutcome(forms: seq<Node>, stop: ReadResult, state: Machine)

  lemma ReadFromBounds(src: string, m: Machine, toks: seq<LexedToken>)
    ensures var o := ReadFrom(src, m, toks);
      o.result.Form? ==> 0 < o.result.consumed <= |toks| && o.state.open == []
  {
    if |toks| > 0 {
      RunBounds(src, m, toks, 0);
    }
  }

  function ReadAllFrom(src: string, m: Machine, toks: seq<LexedToken>): ReadAllOutcome
    decreases |toks|
  {
    var o := ReadFrom(src, m, toks);
    if o.result.Form? then
      ReadFromBounds(src, m, toks);
      var rest := ReadAllFrom(src, o.state, toks[o.result.consumed..]);
      ReadAllOutcome([o.result.node] + rest.forms, rest.stop, rest.state)
    else ReadAllOutcome([], o.result, o.state)
  }

  /** Every form read_all collects is a well-spanned parenthesised tree, the
      forms follow each other in the source without overlapping, and the
      first starts at or after the cursor when no list was open. */
  lemma {:induction false} ReadAllFormsOrdered(src: string, m: Machine, toks: seq<LexedToken>)
    requires Ordered(m)
    ensures var all := ReadAllFrom(src, m, toks);
      && (forall k | 0 <= k < |all.forms| :: NodeOk(all.forms[k]))
      && (forall k | 0 <= k < |all.forms| - 1 :: all.forms[k].loc.end <= all.forms[k + 1].loc.start)
      && (m.open == [] && all.forms != [] ==> all.forms[0].loc.start >= m.cursor)
      && (all.forms != [] ==> all.forms[|all.forms| - 1].loc.end <= all.state.cursor)
    decreases |toks|
  {
    var o := ReadFrom(src, m, toks);
    if o.result.Form? {
      ReadFromBounds(src, m, toks);
      RunKeepsOrdered(src, m, toks, 0);
      if m.open == [] {
        TopLevelFormStart(src, m, toks, 0);
      }
      var rest := toks[o.result.consumed..];
      ReadAllFormsOrdered(src, o.state, rest);
      var all := ReadAllFrom(src, o.state, rest);
      RunBounds(src, o.state, rest, 0);
      if all.forms != [] {
        assert rest != [];
        TopLevelFormStart(src, o.state, rest, 0);
      } else {
        assert o.state.cursor <= ReadFrom(src, o.state, rest).state.cursor by {
          if |rest| > 0 { RunBounds(src, o.state, rest, 0); }
        }
      }
    }
  }
}
