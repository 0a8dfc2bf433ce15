/** The reader as the C code is shaped: reader_read_impl and
    continue_read_parens_list call each other, one recursion level per open
    list, and reader_continue_unfinished resumes a parked list. These
    functions are a reference definition; `ReadAgrees` proves that the
    explicit-stack machine of ReaderSpec computes exactly what they compute,
    which is the equivalence the TODO at reader.c:102-104 asks of an
    iterative reader. */
module ReaderRecursive {
  import opened Syntax
  import opened ReaderSpec

  /** What one level of the descent returns (ElyReadResult): a node and the
      index after it, no node, the incomplete sentinel together with the lists
      it left open (outermost first), or an error. */
  datatype Descent =
    | Built(node: Node, next: nat)
    | Nothing(next: nat)
    | Parked(next: nat, frames: seq<Frame>)
    | Error(error: ReadError, at: nat)

  /** A descent result and the reader's `current_byte` after it. */
  datatype DescentOut = DescentOut(r: Descent, cursor: nat)

  /** reader_read_impl (reader.c:525-618): the token at `idx` is not
      atmosphere; the cursor moves past it before the dispatch. */
  function ReadImpl(src: string, toks: seq<LexedToken>, cur: nat, idx: nat): (out: DescentOut)
    requires idx < |toks| && !IsAtmosphere(toks[idx].kind)
    ensures out.r.Built? ==> idx < out.r.next <= |toks|
    ensures out.r.Nothing? ==> toks[idx].kind.Eof? && out.r.next == idx + 1
    ensures out.r.Parked? ==> out.r.next == |toks| && out.r.frames != []
    decreases |toks| - idx, 1
  {
    var t := toks[idx];
    var c := cur + t.len;
    match t.kind
    case LParen => ContinueList(src, toks, c, Frame(c - 1, []), idx + 1)
    case LBracket | LBrace => DescentOut(Error(NotYetImplemented, idx), c)
    case RParen | RBracket | RBrace => DescentOut(Error(UnexpectedClose, idx), c)
    case Eof => DescentOut(Nothing(idx + 1), c)
    case Id | IntLit | FloatLit | StringLit | CharLit | KeywordLit | TrueLit | FalseLit =>
      match ReadLeaf(src, t, cur)
      case Err(e) => DescentOut(Error(e, idx), c)
      case Ok(n) => DescentOut(Built(n, idx + 1), c)
  }

  /** continue_read_parens_list (reader.c:54-122): skip atmosphere and look
      at the next token; running out of tokens parks the list. */
  function ContinueList(src: string, toks: seq<LexedToken>, cur: nat, f: Frame, idx: nat): (out: DescentOut)
    requires idx <= |toks|
    ensures out.r.Built? ==> idx < out.r.next <= |toks|
    ensures out.r.Parked? ==> out.r.next == |toks| && out.r.frames != [] && out.r.frames[0].start == f.start
    ensures !out.r.Nothing?
    decreases |toks| - idx, 3
  {
    if idx == |toks| then DescentOut(Parked(idx, [f]), cur)
    else
      var s := Skipped(toks[idx..]);
      var j := idx + s.tokensSkipped;
      var c := cur + s.bytesSkipped;
      if j == |toks| then DescentOut(Parked(j, [f]), c)
      else
        assert toks[j] == toks[idx..][s.tokensSkipped];
        ListAt(src, toks, c, f, j)
  }

  /** The body of the loop in continue_read_parens_list at a token that is
      not atmosphere: close on ')', fail on ']', '}' and Eof, otherwise read
      one child, append it at the tail and go on from the index the child
      consumed up to. A child that ran out parks this list beneath its own
      open lists. */
  function ListAt(src: string, toks: seq<LexedToken>, c: nat, f: Frame, j: nat): (out: DescentOut)
    requires j < |toks| && !IsAtmosphere(toks[j].kind)
    ensures out.r.Built? ==> j < out.r.next <= |toks|
    ensures out.r.Parked? ==> out.r.next == |toks| && out.r.frames != [] && out.r.frames[0].start == f.start
    ensures !out.r.Nothing?
    decreases |toks| - j, 2
  {
    var t := toks[j];
    if t.kind.RParen? then
      DescentOut(Built(List(ParensList, Location(f.start, c + t.len), f.children), j + 1), c + t.len)
    else if t.kind.RBracket? || t.kind.RBrace? then DescentOut(Error(MismatchedClose, j), c)
    else if t.kind.Eof? then DescentOut(Error(MissingClose, j), c)
    else
      var child := ReadImpl(src, toks, c, j);
      if child.r.Built? then
        ContinueList(src, toks, child.cursor, Frame(f.start, f.children + [child.r.node]), child.r.next)
      else if child.r.Parked? then
        DescentOut(Parked(child.r.next, [f] + child.r.frames), child.cursor)
      else child
  }

  /** reader_continue_unfinished (reader.c:620-637) for a stack of parked
      lists: resume the innermost; when it closes, append it to the list
      beneath and resume that one from the index after its ')'. */
  function ResumeFrames(src: string, toks: seq<LexedToken>, cur: nat, open: seq<Frame>, idx: nat): DescentOut
    requires open != [] && idx <= |toks|
    decreases |open|
  {
    var out := ContinueList(src, toks, cur, Top(open), idx);
    if |open| == 1 then out
    else
      match out.r
      case Built(n, next) => ResumeFrames(src, toks, out.cursor, AppendChild(Pop(open), n), next)
      case Parked(next, frames) => DescentOut(Parked(next, Pop(open) + frames), out.cursor)
      case Error(_, _) => out
  }

  /** The reader's result and state after a top-level descent. */
  function ToOutcome(d: DescentOut): Outcome
  {
    match d.r
    case Built(n, next) => Outcome(Form(n, next), Machine(d.cursor, []))
    case Nothing(next) => Outcome(NoForm(next), Machine(d.cursor, []))
    case Parked(next, frames) => Outcome(Incomplete(next), Machine(d.cursor, frames))
    case Error(e, at) => Outcome(Failed(e, at), Machine(d.cursor, []))
  }

  /** ely_reader_read (reader.c:639-660) in recursive form, with the resumed
      result returned and a slice of only atmosphere read as no form. */
  function ReadRecursive(src: string, m: Machine, toks: seq<LexedToken>): Outcome
  {
    if |toks| == 0 then Outcome(NoForm(0), m)
    else if m.open != [] then ToOutcome(ResumeFrames(src, toks, m.cursor, m.open, 0))
    else
      var s := Skipped(toks);
      var c := m.cursor + s.bytesSkipped;
      if s.tokensSkipped == |toks| then Outcome(NoForm(|toks|), Machine(c, []))
      else ToOutcome(ReadImpl(src, toks, c, s.tokensSkipped))
  }

  // ---------------------------------------------------------------------
  // Agreement with the machine.

  /** What the machine does once a descent below the open lists `below` has
      returned `d`. */
  function After(src: string, toks: seq<LexedToken>, below: seq<Frame>, d: DescentOut): Outcome
    requires d.r.Built? ==> d.r.next <= |toks|
  {
    match d.r
    case Built(n, next) =>
      if below == [] then Outcome(Form(n, next), Machine(d.cursor, []))
      else Run(src, Machine(d.cursor, AppendChild(below, n)), toks, next)
    case Nothing(next) => Outcome(NoForm(next), Machine(d.cursor, below))
    case Parked(next, frames) => Outcome(Incomplete(next), Machine(d.cursor, below + frames))
    case Error(e, at) => Outcome(Failed(e, at), Machine(d.cursor, []))
  }

  lemma AfterEmpty(src: string, toks: seq<LexedToken>, d: DescentOut)
    requires d.r.Built? ==> d.r.next <= |toks|
    ensures After(src, toks, [], d) == ToOutcome(d)
  {
    if d.r.Parked? {
      assert [] + d.r.frames == d.r.frames;
    }
  }

  lemma SplitTop(open: seq<Frame>)
    requires open != []
    ensures Pop(open) + [Top(open)] == open
  {
  }

  lemma TopOfPush(below: seq<Frame>, f: Frame)
    ensures Top(below + [f]) == f && Pop(below + [f]) == below
  {
    assert (below + [f])[..|below|] == below;
  }

  /** Reading one form with reader_read_impl while the lists `below` are
      open is exactly what the machine does from that token on. */
  lemma {:induction false} ImplAgrees(src: string, toks: seq<LexedToken>, cur: nat, below: seq<Frame>, j: nat)
    requires j < |toks| && !IsAtmosphere(toks[j].kind)
    requires below != [] ==>
      !(toks[j].kind.RParen? || toks[j].kind.RBracket? || toks[j].kind.RBrace? || toks[j].kind.Eof?)
    ensures Run(src, Machine(cur, below), toks, j) == After(src, toks, below, ReadImpl(src, toks, cur, j))
    decreases |toks| - j, 1
  {
    var t := toks[j];
    var c := cur + t.len;
    if t.kind.LParen? {
      var f := Frame(c - 1, []);
      assert Step(src, Machine(cur, below), t) == Continue(Machine(c, below + [f]));
      ContinueAgrees(src, toks, c, below, f, j + 1);
    }
  }

  /** Continuing an open list `f` with continue_read_parens_list, with the
      lists `below` open beneath it, is exactly what the machine does. */
  lemma {:induction false} ContinueAgrees(src: string, toks: seq<LexedToken>, cur: nat, below: seq<Frame>, f: Frame, idx: nat)
    requires idx <= |toks|
    ensures Run(src, Machine(cur, below + [f]), toks, idx) ==
      After(src, toks, below, ContinueList(src, toks, cur, f, idx))
    decreases |toks| - idx, 3
  {
    if idx < |toks| {
      var s := Skipped(toks[idx..]);
      var j := idx + s.tokensSkipped;
      forall k | idx <= k < j
        ensures IsAtmosphere(toks[k].kind)
      {
        assert toks[k] == toks[idx..][k - idx];
      }
      assert toks[idx..][..s.tokensSkipped] == toks[idx..j];
      RunSkipsAtmosphere(src, Machine(cur, below + [f]), toks, idx, j);
      if j < |toks| {
        assert toks[j] == toks[idx..][s.tokensSkipped];
        ListAtAgrees(src, toks, cur + s.bytesSkipped, below, f, j);
      }
    }
  }

  /** One turn of the list loop agrees with the machine. */
  lemma {:induction false} ListAtAgrees(src: string, toks: seq<LexedToken>, c: nat, below: seq<Frame>, f: Frame, j: nat)
    requires j < |toks| && !IsAtmosphere(toks[j].kind)
    ensures Run(src, Machine(c, below + [f]), toks, j) ==
      After(src, toks, below, ListAt(src, toks, c, f, j))
    decreases |toks| - j, 2
  {
    TopOfPush(below, f);
    var t := toks[j];
    if !(t.kind.RParen? || t.kind.RBracket? || t.kind.RBrace? || t.kind.Eof?) {
      ImplAgrees(src, toks, c, below + [f], j);
      var child := ReadImpl(src, toks, c, j);
      if child.r.Built? {
        var f' := Frame(f.start, f.children + [child.r.node]);
        assert AppendChild(below + [f], child.r.node) == below + [f'];
        ContinueAgrees(src, toks, child.cursor, below, f', child.r.next);
      } else if child.r.Parked? {
        assert below + [f] + child.r.frames == below + ([f] + child.r.frames);
      }
    }
  }

  /** Resuming a stack of parked lists agrees with the machine. */
  lemma {:induction false} ResumeAgrees(src: string, toks: seq<LexedToken>, cur: nat, open: seq<Frame>, idx: nat)
    requires open != [] && idx <= |toks|
    ensures Run(src, Machine(cur, open), toks, idx) == ToOutcome(ResumeFrames(src, toks, cur, open, idx))
    decreases |open|
  {
    SplitTop(open);
    ContinueAgrees(src, toks, cur, Pop(open), Top(open), idx);
    var out := ContinueList(src, toks, cur, Top(open), idx);
    if |open| == 1 {
      assert Pop(open) == [];
      AfterEmpty(src, toks, out);
    } else {
      match out.r
      case Built(n, next) => ResumeAgrees(src, toks, out.cursor, AppendChild(Pop(open), n), next);
      case Parked(_, _) =>
      case Error(_, _) =>
    }
  }

  /** The explicit-stack reader and the recursive reader return the same
      result and leave the same state, on every input. */
  lemma ReadAgrees(src: string, m: Machine, toks: seq<LexedToken>)
    ensures ReadRecursive(src, m, toks) == ReadFrom(src, m, toks)
  {
    if |toks| > 0 {
      if m.open != [] {
        ResumeAgrees(src, toks, m.cursor, m.open, 0);
      } else {
        var s := Skipped(toks);
        assert toks[0..s.tokensSkipped] == toks[..s.tokensSkipped];
        RunSkipsAtmosphere(src, m, toks, 0, s.tokensSkipped);
        if s.tokensSkipped < |toks| {
          ImplAgrees(src, toks, m.cursor + s.bytesSkipped, [], s.tokensSkipped);
          AfterEmpty(src, toks, ReadImpl(src, toks, m.cursor + s.bytesSkipped, s.tokensSkipped));
        }
      }
    }
  }
}
