/** Places where src/reader.c, as written, departs from what the reader is
    evidently meant to do. Each is modelled as written, shown on a concrete
    input, and set against the behaviour the rest of the model uses. */
module Findings {
  import opened Syntax
  import opened ReaderSpec

  /** What a call does as written: returns a result, or reads the token just
      past the end of its slice, which C leaves undefined. */
  datatype AsWritten = Returned(result: ReadResult) | ReadsPastSlice(index: nat)

  /** A run that stops because the slice ended right after an atmosphere
      token: the loops of reader.c:64-70 and the read of reader.c:655-659
      then index the token past the slice. */
  predicate EndsInAtmosphere(toks: seq<LexedToken>, r: ReadResult)
  {
    (r.Incomplete? || r.NoForm?) && |toks| > 0 && r.consumed == |toks| &&
    IsAtmosphere(toks[|toks| - 1].kind)
  }

  function Checked(toks: seq<LexedToken>, r: ReadResult): AsWritten
  {
    if EndsInAtmosphere(toks, r) then ReadsPastSlice(|toks|) else Returned(r)
  }

  /** What a call as written returns, and the reader's state after it. */
  datatype WrittenOutcome = WrittenOutcome(result: AsWritten, state: Machine)

  /** The single unfinished slot after the resumption, as written: nothing
      clears it (reader.c:650-653), so a list the resumption completed stays
      in it with the children it was given; a list that ran out again parks
      only its outermost frame. */
  function SlotAfterResume(m: Machine, resumed: Outcome): seq<Frame>
    requires m.open != []
  {
    match resumed.result
    case Form(n, _) => if n.List? then [Frame(n.loc.start, n.children)] else m.open[..1]
    case Incomplete(_) => ParkAsWritten(resumed.state).open
    case _ => m.open[..1]
  }

  /** ely_reader_read as written (reader.c:639-660): an unfinished list is
      resumed, but what the resumption returns is dropped and the slot is not
      cleared; the slice is then read again from its first token, at top
      level, with the cursor the resumption left. A list that runs out in
      that read takes the slot over. */
  function ReadAsWritten(src: string, m: Machine, toks: seq<LexedToken>): (o: WrittenOutcome)
    ensures m.open == [] && o.result.Returned? ==> o.result.result == ReadFrom(src, m, toks).result
    ensures o.result.Returned? && (o.result.result.Form? || o.result.result.Incomplete?) ==>
      0 < o.result.result.consumed <= |toks|
    ensures o.result.Returned? && o.result.result.Incomplete? ==> o.result.result.consumed == |toks|
    ensures |m.open| <= 1 ==> |o.state.open| <= 1
  {
    if |toks| == 0 then WrittenOutcome(Returned(NoForm(0)), m)
    else
      var resumed := ReadFrom(src, m, toks);
      RunBounds(src, m, toks, 0);
      if m.open != [] && EndsInAtmosphere(toks, resumed.result) then
        WrittenOutcome(ReadsPastSlice(|toks|), ParkAsWritten(resumed.state))
      else if m.open != [] && resumed.result.Failed? then
        WrittenOutcome(Returned(resumed.result), resumed.state)
      else
        var slot := if m.open != [] then SlotAfterResume(m, resumed) else [];
        var cursor := if m.open != [] then resumed.state.cursor else m.cursor;
        var top := Run(src, Machine(cursor, []), toks, 0);
        RunBounds(src, Machine(cursor, []), toks, 0);
        var state := if top.result.Incomplete? then ParkAsWritten(top.state) else Machine(top.state.cursor, slot);
        WrittenOutcome(Checked(toks, top.result), state)
  }

  /** Finding 1, for every input: when the resumption completes the list, the
      intended reader leaves nothing open, but as written the list it already
      completed (and dropped) stays in the slot, so the next call resumes it
      once more. */
  lemma SlotNeverCleared(src: string, m: Machine, toks: seq<LexedToken>)
    requires m.open != [] && |toks| > 0
    requires ReadFrom(src, m, toks).result.Form?
    ensures ReadFrom(src, m, toks).state.open == []
    ensures var o := ReadAsWritten(src, m, toks);
      var done := ReadFrom(src, m, toks).result.node;
      o.result.Returned? && !o.result.result.Incomplete? ==>
        done.List? && o.state.open == [Frame(m.open[0].start, done.children)]
  {
    RunBounds(src, m, toks, 0);
    RunKeepsBottom(src, m, toks, 0);
  }

  /** Finding 1. A slice `(` leaves the list open with the cursor at 1; the
      next slice `)` should complete it. As written, the completed list is
      dropped and the `)` is read a second time, at top level, where it is an
      unexpected close. */
  lemma ResumeResultDropped()
    ensures var src := "()";
      var m := Machine(1, [Frame(0, [])]);
      var toks: seq<LexedToken> := [RawToken(RParen, 1)];
      && ReadAsWritten(src, m, toks).result == Returned(Failed(UnexpectedClose, 0))
      && ReadFrom(src, m, toks).result == Form(List(ParensList, Location(0, 2), []), 1)
  {
    var src := "()";
    var m := Machine(1, [Frame(0, [])]);
    var toks: seq<LexedToken> := [RawToken(RParen, 1)];
    assert Step(src, m, toks[0]) == Complete(List(ParensList, Location(0, 2), []), 2);
    assert Step(src, Machine(2, []), toks[0]) == Fail(UnexpectedClose, 3);
  }

  /** Finding 1 on the slices `(` then `a)`: the second slice completes
      `(a)`, which is dropped; the re-read at top level then returns the `a`
      token again as a leaf placed after the list, and `(a)` stays in the
      slot for the next call to resume. */
  lemma CompletedListStaysParked()
    ensures var src := "(a)x";
      var m := Machine(1, [Frame(0, [])]);
      var toks: seq<LexedToken> := [RawToken(Id, 1), RawToken(RParen, 1)];
      var a := Leaf(Identifier, Location(1, 2), "a");
      var o := ReadAsWritten(src, m, toks);
      && ReadFrom(src, m, toks) == Outcome(Form(List(ParensList, Location(0, 3), [a]), 2), Machine(3, []))
      && o.result == Returned(Form(Leaf(Identifier, Location(3, 4), "x"), 1))
      && o.state == Machine(4, [Frame(0, [a])])
  {
    ResumeCompletesList();
    RereadTakesLeaf();
  }

  /** The resumption of `(` over `a)` completes `(a)`. */
  lemma ResumeCompletesList()
    ensures var toks: seq<LexedToken> := [RawToken(Id, 1), RawToken(RParen, 1)];
      ReadFrom("(a)x", Machine(1, [Frame(0, [])]), toks)
        == Outcome(Form(List(ParensList, Location(0, 3), [Leaf(Identifier, Location(1, 2), "a")]), 2), Machine(3, []))
  {
    var src := "(a)x";
    var m := Machine(1, [Frame(0, [])]);
    var toks: seq<LexedToken> := [RawToken(Id, 1), RawToken(RParen, 1)];
    var a := Leaf(Identifier, Location(1, 2), "a");
    var m2 := Machine(2, [Frame(0, [a])]);
    IdentifierStep(src, [], Frame(0, []), 1, toks[0]);
    assert [] + [a] == [a];
    assert [] + [Frame(0, [a])] == m2.open;
    RunContinues(src, m, toks, 0, m2);
    CloseOnlyList(src, a);
  }

  /** A `)` at byte 2 closes the one open list, which holds `a`. */
  lemma CloseOnlyList(src: string, a: Node)
    ensures Step(src, Machine(2, [Frame(0, [a])]), RawToken(RParen, 1)) == Complete(List(ParensList, Location(0, 3), [a]), 3)
  {
    var open := [Frame(0, [a])];
    assert Pop(open) == [] && Top(open) == Frame(0, [a]);
  }

  /** The re-read of the same slice at top level, from byte 3, reads `x`. */
  lemma RereadTakesLeaf()
    ensures var toks: seq<LexedToken> := [RawToken(Id, 1), RawToken(RParen, 1)];
      Run("(a)x", Machine(3, []), toks, 0) == Outcome(Form(Leaf(Identifier, Location(3, 4), "x"), 1), Machine(4, []))
  {
    var toks: seq<LexedToken> := [RawToken(Id, 1), RawToken(RParen, 1)];
    assert Slice("(a)x", 3, 4) == "x";
    assert Step("(a)x", Machine(3, []), toks[0]) == Complete(Leaf(Identifier, Location(3, 4), "x"), 4);
  }

  /** Finding 2. A slice holding only a space, or `(` followed by a space,
      runs out right after atmosphere; as written the reader then reads the
      token past the slice, where the intended reader reports no form or an
      unfinished list. */
  lemma TrailingAtmosphereReadsPastSlice()
    ensures var src := "( ";
      var space: seq<LexedToken> := [RawToken(Whitespace, 1)];
      var open: seq<LexedToken> := [RawToken(LParen, 1), RawToken(Whitespace, 1)];
      && ReadAsWritten(src, Machine(0, []), space).result == ReadsPastSlice(1)
      && ReadFrom(src, Machine(0, []), space).result == NoForm(1)
      && ReadAsWritten(src, Machine(0, []), open).result == ReadsPastSlice(2)
      && ReadFrom(src, Machine(0, []), open).result == Incomplete(2)
  {
    var src := "( ";
    var space: seq<LexedToken> := [RawToken(Whitespace, 1)];
    var open: seq<LexedToken> := [RawToken(LParen, 1), RawToken(Whitespace, 1)];
    assert Run(src, Machine(0, []), space, 0).result == NoForm(1);
    assert Step(src, Machine(0, []), open[0]) == Continue(Machine(1, [Frame(0, [])]));
    assert Run(src, Machine(0, []), open, 0).result == Incomplete(2);
  }

  /** The intended reader on a slice of atmosphere only: no form, every
      token consumed, the cursor moved past all of them, nothing left open. */
  lemma {:induction false} AtmosphereOnlyReadsNothing(src: string, m: Machine, toks: seq<LexedToken>, i: nat)
    requires m.open == [] && i <= |toks|
    requires forall k | i <= k < |toks| :: IsAtmosphere(toks[k].kind)
    ensures Run(src, m, toks, i) == Outcome(NoForm(|toks|), Machine(m.cursor + SumLen(toks[i..]), []))
    decreases |toks| - i
  {
    if i < |toks| {
      assert Step(src, m, toks[i]) == Continue(Machine(m.cursor + toks[i].len, []));
      AtmosphereOnlyReadsNothing(src, Machine(m.cursor + toks[i].len, []), toks, i + 1);
      assert toks[i..][1..] == toks[i + 1..];
    } else {
      assert toks[i..] == [];
    }
  }

  /** The state a slice leaves when it runs out inside nested lists, as
      written (reader.c:105-108, 114-118): each list that runs out stores
      itself in the single unfinished slot, and the list around it then
      overwrites that slot, so only the outermost open list is kept. (The
      0x1 marker it also appends to that list as a child is not a node and is
      not represented.) */
  function ParkAsWritten(m: Machine): (r: Machine)
    ensures |r.open| <= 1 && r.cursor == m.cursor
    ensures m.open != [] ==> r.open == [m.open[0]]
  {
    if m.open == [] then m else Machine(m.cursor, [m.open[0]])
  }

  /** Finding 3. The slice `(a (b` runs out inside two lists. The intended
      reader keeps both; as written only the outer one survives, so the list
      `(b` and its child are lost. */
  lemma NestedListLost()
    ensures var src := "(a (b";
      var toks: seq<LexedToken> :=
        [RawToken(LParen, 1), RawToken(Id, 1), RawToken(Whitespace, 1), RawToken(LParen, 1), RawToken(Id, 1)];
      var o := ReadFrom(src, Machine(0, []), toks);
      && o.result == Incomplete(5)
      && o.state == Machine(5, [Frame(0, [Leaf(Identifier, Location(1, 2), "a")]),
                                Frame(3, [Leaf(Identifier, Location(4, 5), "b")])])
      && ParkAsWritten(o.state) == Machine(5, [Frame(0, [Leaf(Identifier, Location(1, 2), "a")])])
  {
    NestedOuter();
    NestedInner();
  }

  /** The first three tokens of `(a (b`: the outer list holds `a`. */
  lemma NestedOuter()
    ensures var toks: seq<LexedToken> :=
        [RawToken(LParen, 1), RawToken(Id, 1), RawToken(Whitespace, 1), RawToken(LParen, 1), RawToken(Id, 1)];
      Run("(a (b", Machine(0, []), toks, 0)
        == Run("(a (b", Machine(3, [Frame(0, [Leaf(Identifier, Location(1, 2), "a")])]), toks, 3)
  {
    var src := "(a (b";
    var toks: seq<LexedToken> :=
      [RawToken(LParen, 1), RawToken(Id, 1), RawToken(Whitespace, 1), RawToken(LParen, 1), RawToken(Id, 1)];
    var a := Leaf(Identifier, Location(1, 2), "a");
    var m1 := Machine(1, [Frame(0, [])]);
    var m2 := Machine(2, [Frame(0, [a])]);
    RunContinues(src, Machine(0, []), toks, 0, m1);
    IdentifierStep(src, [], Frame(0, []), 1, toks[1]);
    assert [] + [a] == [a];
    assert [] + [Frame(0, [a])] == m2.open;
    RunContinues(src, m1, toks, 1, m2);
    RunContinues(src, m2, toks, 2, Machine(3, [Frame(0, [a])]));
  }

  /** The last two tokens of `(a (b`: a second list opens and holds `b`. */
  lemma NestedInner()
    ensures var toks: seq<LexedToken> :=
        [RawToken(LParen, 1), RawToken(Id, 1), RawToken(Whitespace, 1), RawToken(LParen, 1), RawToken(Id, 1)];
      var a := Leaf(Identifier, Location(1, 2), "a");
      Run("(a (b", Machine(3, [Frame(0, [a])]), toks, 3)
        == Outcome(Incomplete(5), Machine(5, [Frame(0, [a]), Frame(3, [Leaf(Identifier, Location(4, 5), "b")])]))
  {
    var src := "(a (b";
    var toks: seq<LexedToken> :=
      [RawToken(LParen, 1), RawToken(Id, 1), RawToken(Whitespace, 1), RawToken(LParen, 1), RawToken(Id, 1)];
    var a := Leaf(Identifier, Location(1, 2), "a");
    var b := Leaf(Identifier, Location(4, 5), "b");
    var m3 := Machine(3, [Frame(0, [a])]);
    var m4 := Machine(4, [Frame(0, [a]), Frame(3, [])]);
    var m5 := Machine(5, [Frame(0, [a]), Frame(3, [b])]);
    RunContinues(src, m3, toks, 3, m4);
    IdentifierStep(src, [Frame(0, [a])], Frame(3, []), 4, toks[4]);
    assert [] + [b] == [b];
    RunContinues(src, m4, toks, 4, m5);
  }

  lemma RunContinues(src: string, m: Machine, toks: seq<LexedToken>, i: nat, next: Machine)
    requires i < |toks| && Step(src, m, toks[i]) == Continue(next)
    ensures Run(src, m, toks, i) == Run(src, next, toks, i + 1)
  {
  }

  /** A one-byte identifier inside a list becomes that list's last child. */
  lemma IdentifierStep(src: string, below: seq<Frame>, f: Frame, at: nat, t: LexedToken)
    requires t == RawToken(Id, 1) && at < |src| && src[at] != '|'
    ensures Step(src, Machine(at, below + [f]), t) ==
      Continue(Machine(at + 1, below + [Frame(f.start, f.children + [Leaf(Identifier, Location(at, at + 1), [src[at]])])]))
  {
    assert Slice(src, at, at + 1) == [src[at]];
    var open := below + [f];
    assert Pop(open) == below && Top(open) == f;
  }

  /** One entry appended by ely_reader_read_all: a node, or the 0x1 marker of
      an unfinished list, which is not null and so is appended too. */
  datatype Entry = FormEntry(node: Node) | UnfinishedMarker

  /** What ely_reader_read_all as written collects, and the outcome of the
      call that made it stop. */
  datatype AllAsWritten = AllAsWritten(entries: seq<Entry>, stop: AsWritten)

  /** ely_reader_read_all as written (reader.c:662-684): each round is the
      read as written; whatever is not null is appended, which includes the
      unfinished marker, and the slice moves past the tokens consumed. After
      the marker the slice is empty, and that call returns null. A round that
      reads past its slice stops everything. */
  function ReadAllAsWritten(src: string, m: Machine, toks: seq<LexedToken>): (a: AllAsWritten)
    ensures |a.entries| <= |toks|
    ensures forall k | 0 <= k < |a.entries| - 1 :: a.entries[k].FormEntry?
    ensures a.entries != [] && a.entries[|a.entries| - 1].UnfinishedMarker? ==> a.stop == Returned(NoForm(0))
    ensures a.stop.Returned? ==> !a.stop.result.Form? && !a.stop.result.Incomplete?
    decreases |toks|
  {
    var o := ReadAsWritten(src, m, toks);
    match o.result
    case ReadsPastSlice(_) => AllAsWritten([], o.result)
    case Returned(r) =>
      if r.Form? || r.Incomplete? then
        var rest := ReadAllAsWritten(src, o.state, toks[r.consumed..]);
        var e := if r.Form? then FormEntry(r.node) else UnfinishedMarker;
        AllAsWritten([e] + rest.entries, rest.stop)
      else AllAsWritten([], o.result)
  }

  /** Finding 4. The slice `(` runs out inside a list: the intended reader
      returns no forms, but as written the marker is appended as if it were
      a node. */
  lemma UnfinishedMarkerAppended()
    ensures var toks: seq<LexedToken> := [RawToken(LParen, 1)];
      && ReadAllAsWritten("(", Machine(0, []), toks).entries == [UnfinishedMarker]
      && ReadAllFrom("(", Machine(0, []), toks).forms == []
      && ReadAllFrom("(", Machine(0, []), toks).stop == Incomplete(1)
  {
    var toks: seq<LexedToken> := [RawToken(LParen, 1)];
    assert Run("(", Machine(0, []), toks, 0).result == Incomplete(1);
  }

  /** Finding 2 through read_all: after the form `a`, the slice left is a
      single space; as written that round reads past the slice, where the
      intended read_all stops with no form. */
  lemma ReadAllReadsPastSlice()
    ensures var toks: seq<LexedToken> := [RawToken(Id, 1), RawToken(Whitespace, 1)];
      var a := Leaf(Identifier, Location(0, 1), "a");
      && ReadAllAsWritten("a ", Machine(0, []), toks) == AllAsWritten([FormEntry(a)], ReadsPastSlice(1))
      && ReadAllFrom("a ", Machine(0, []), toks).forms == [a]
      && ReadAllFrom("a ", Machine(0, []), toks).stop == NoForm(1)
  {
    var toks: seq<LexedToken> := [RawToken(Id, 1), RawToken(Whitespace, 1)];
    var a := Leaf(Identifier, Location(0, 1), "a");
    assert Slice("a ", 0, 1) == "a";
    assert Run("a ", Machine(0, []), toks, 0).result == Form(a, 1);
    assert toks[1..] == [RawToken(Whitespace, 1)];
    assert Run("a ", Machine(1, []), toks[1..], 0).result == NoForm(1);
  }
}
