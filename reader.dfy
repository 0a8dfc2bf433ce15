/** The reader object of src/reader.c: a byte cursor and the lists left open
    by a slice that ran out, both updated in place by every call. Each method
    is proved to compute what the machine of ReaderSpec computes, so the
    properties proved there hold of the object. */
module Reading {
  import opened Syntax
  import opened ReaderSpec

  /** skip_atmosphere (reader.c:25-45): count the leading atmosphere tokens
      and add up their lengths. */
  method SkipAtmosphere(ts: seq<RawToken>) returns (r: SkipResult)
    ensures r == Skipped(ts)
  {
    var n := 0;
    var bytes := 0;
    while n < |ts|
      invariant 0 <= n <= |ts|
      invariant forall k | 0 <= k < n :: IsAtmosphere(ts[k].kind)
      invariant bytes == SumLen(ts[..n])
    {
      if !IsAtmosphere(ts[n].kind) {
        break;
      }
      assert ts[..n + 1] == ts[..n] + [ts[n]];
      SumLenConcat(ts[..n], [ts[n]]);
      bytes := bytes + ts[n].len;
      n := n + 1;
    }
    r := SkipResult(n, bytes);
  }

  /** The scan of read_identifier (reader.c:389-400) for a '|' byte, which
      marks an identifier the reader cannot handle yet. */
  method ContainsVbar(text: string) returns (found: bool)
    ensures found <==> '|' in text
  {
    found := false;
    var i := 0;
    while i < |text|
      invariant 0 <= i <= |text|
      invariant forall k | 0 <= k < i :: text[k] != '|'
    {
      if text[i] == '|' {
        found := true;
        break;
      }
      i := i + 1;
    }
  }

  /** The leaf readers read_* (reader.c:380-522) and their arms in
      reader_read_impl (reader.c:571-610). Only read_identifier loops, over
      the identifier's bytes; the others copy a fixed slice, which ReadLeaf
      states. */
  method ReadLeafNode(src: string, t: LexedToken, start: nat) returns (r: LeafResult)
    requires IsLeafToken(t.kind)
    ensures r == ReadLeaf(src, t, start)
  {
    if t.kind.Id? {
      var text := Slice(src, start, start + t.len);
      var vbar := ContainsVbar(text);
      if vbar {
        r := Err(UnsupportedIdentifier);
      } else {
        r := Ok(Leaf(Identifier, Location(start, start + t.len), text));
      }
    } else {
      r := ReadLeaf(src, t, start);
    }
  }

  /** ElyReader: `currentByte` is current_byte; `unfinished` generalises
      unfinished_node to every list still open, innermost last. The file
      name it also carries is never interpreted and is left out. */
  class Reader {
    var currentByte: nat
    var unfinished: seq<Frame>

    function State(): Machine
      reads this
    {
      Machine(currentByte, unfinished)
    }

    /** ely_reader_create (reader.c:373-378). */
    constructor()
      ensures currentByte == 0 && unfinished == []
    {
      currentByte := 0;
      unfinished := [];
    }

    /** A finished node becomes the form returned at top level, or is
        appended at the tail of the innermost open list (reader.c:107). */
    method Attach(n: Node) returns (s: StepResult)
      modifies this
      ensures s == Deliver(n, old(State()))
      ensures s.Continue? ==> State() == s.next
      ensures !s.Continue? ==> State() == old(State()) && s.Complete?
    {
      if unfinished == [] {
        s := Complete(n, currentByte);
      } else {
        var last := |unfinished| - 1;
        var f := unfinished[last];
        unfinished := unfinished[..last] + [Frame(f.start, f.children + [n])];
        s := Continue(State());
      }
    }

    /** What the reader does with a token after its atmosphere has been
        skipped: reader_read_impl (reader.c:532-617) at top level and the
        switch of continue_read_parens_list (reader.c:72-111) inside a list.
        A failure clears the open lists. */
    method Dispatch(src: string, t: LexedToken) returns (s: StepResult)
      requires !IsAtmosphere(t.kind)
      modifies this
      ensures s == Step(src, old(State()), t)
      ensures s.Continue? ==> State() == s.next
      ensures !s.Continue? ==> State() == Machine(s.cursor, [])
    {
      var start := currentByte;
      var c := currentByte + t.len;
      if t.kind.LParen? {
        currentByte := c;
        unfinished := unfinished + [Frame(c - 1, [])];
        s := Continue(State());
      } else if t.kind.RParen? {
        if unfinished == [] {
          s := Fail(UnexpectedClose, c);
        } else {
          var last := |unfinished| - 1;
          var f := unfinished[last];
          unfinished := unfinished[..last];
          currentByte := c;
          s := Attach(List(ParensList, Location(f.start, c), f.children));
        }
      } else if t.kind.RBracket? || t.kind.RBrace? {
        s := if unfinished == [] then Fail(UnexpectedClose, c) else Fail(MismatchedClose, start);
      } else if t.kind.LBracket? || t.kind.LBrace? {
        s := Fail(NotYetImplemented, c);
      } else if t.kind.Eof? {
        s := if unfinished == [] then EndOfForms(c) else Fail(MissingClose, start);
      } else {
        var leaf := ReadLeafNode(src, t, start);
        if leaf.Err? {
          s := Fail(leaf.error, c);
        } else {
          currentByte := c;
          s := Attach(leaf.node);
        }
      }
      if !s.Continue? {
        currentByte := s.cursor;
        unfinished := [];
      }
    }

    /** The atmosphere skip at the head of each round of
        continue_read_parens_list and of ely_reader_read (reader.c:66-68,
        655-656): the cursor moves
        past the atmosphere tokens from index `i`, which the machine treats
        the same way. */
    method SkipFrom(src: string, toks: seq<LexedToken>, i: nat) returns (j: nat)
      requires i <= |toks|
      modifies this
      ensures i <= j <= |toks| && unfinished == old(unfinished)
      ensures forall k | i <= k < j :: IsAtmosphere(toks[k].kind)
      ensures j < |toks| ==> !IsAtmosphere(toks[j].kind)
      ensures currentByte == old(currentByte) + SumLen(toks[i..j])
      ensures Run(src, State(), toks, j) == Run(src, old(State()), toks, i)
    {
      var skipped := SkipAtmosphere(toks[i..]);
      j := i + skipped.tokensSkipped;
      forall k | i <= k < j
        ensures IsAtmosphere(toks[k].kind)
      {
        assert toks[k] == toks[i..][k - i];
      }
      assert toks[i..][..skipped.tokensSkipped] == toks[i..j];
      ghost var m0 := State();
      RunSkipsAtmosphere(src, m0, toks, i, j);
      currentByte := currentByte + skipped.bytesSkipped;
      assert State() == Machine(m0.cursor + SumLen(toks[i..j]), m0.open);
      if j < |toks| {
        assert toks[j] == toks[i..][skipped.tokensSkipped];
      }
    }

    /** ely_reader_read (reader.c:639-660), with the open lists resumed from
        index 0 of the slice (reader_continue_unfinished, reader.c:620-637)
        and their result returned: skip atmosphere, dispatch on the next
        token, repeat until a form is complete, no form is left, an error
        occurs or the slice runs out. */
    method Read(src: string, toks: seq<LexedToken>) returns (r: ReadResult)
      modifies this
      ensures Outcome(r, State()) == ReadFrom(src, old(State()), toks)
    {
      if |toks| == 0 {
        return NoForm(0);
      }
      var i := 0;
      while i < |toks|
        invariant 0 <= i <= |toks|
        invariant Run(src, State(), toks, i) == Run(src, old(State()), toks, 0)
        decreases |toks| - i
      {
        i := SkipFrom(src, toks, i);
        if i == |toks| {
          break;
        }
        var s := Dispatch(src, toks[i]);
        match s {
          case Continue(_) =>
            i := i + 1;
          case Complete(n, _) =>
            return Form(n, i + 1);
          case EndOfForms(_) =>
            return NoForm(i + 1);
          case Fail(e, _) =>
            return Failed(e, i);
        }
      }
      r := if unfinished == [] then NoForm(i) else Incomplete(i);
    }

    /** ely_reader_read_all (reader.c:662-684): read forms one after another,
        each call starting just past the tokens the previous one consumed,
        until a call returns no form. */
    method ReadAll(src: string, toks: seq<LexedToken>) returns (forms: seq<Node>, stop: ReadResult)
      modifies this
      ensures ReadAllOutcome(forms, stop, State()) == ReadAllFrom(src, old(State()), toks)
    {
      forms := [];
      var rest := toks;
      while true
        invariant var a := ReadAllFrom(src, State(), rest);
          ReadAllOutcome(forms + a.forms, a.stop, a.state) == ReadAllFrom(src, old(State()), toks)
        decreases |rest|
      {
        ghost var before := State();
        var r := Read(src, rest);
        ReadFromBounds(src, before, rest);
        if !r.Form? {
          stop := r;
          assert forms + [] == forms;
          return;
        }
        assert forms + ([r.node] + ReadAllFrom(src, State(), rest[r.consumed..]).forms)
          == (forms + [r.node]) + ReadAllFrom(src, State(), rest[r.consumed..]).forms;
        forms := forms + [r.node];
        rest := rest[r.consumed..];
      }
    }
  }

  /** A fresh reader's read_all returns well-spanned parenthesised trees
      that follow each other in the source. */
  method ReadAllFresh(src: string, toks: seq<LexedToken>) returns (forms: seq<Node>)
    ensures forall k | 0 <= k < |forms| :: NodeOk(forms[k])
    ensures forall k | 0 <= k < |forms| - 1 :: forms[k].loc.end <= forms[k + 1].loc.start
    ensures forms == ReadAllFrom(src, Machine(0, []), toks).forms
  {
    var reader := new Reader();
    var stop;
    forms, stop := reader.ReadAll(src, toks);
    ReadAllFormsOrdered(src, Machine(0, []), toks);
  }
}
