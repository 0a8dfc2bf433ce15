# ely reader, serialiser and token model in Dafny

This project models two pieces of the ely front end.

**The resumable reader of `src/reader.c`.** The reader consumes a slice of raw tokens, each a kind and a byte length. It skips atmosphere tokens (whitespace, tab, the three line endings, comments) and keeps a byte cursor `current_byte`. From the tokens it builds leaf nodes and parenthesised list nodes with absolute `[start, end]` byte spans. When a slice runs out inside an open list, the list is parked, and the next call resumes it from index 0 of the new slice.

The model has three layers:
- `ReaderSpec` is a token-by-token machine. Its state is the cursor and an explicit stack of open lists, which is the iterative form the TODO at reader.c:102-104 asks for. All the reader's properties are proved about this machine.
- `ReaderRecursive` keeps the recursive shape of the C code: `reader_read_impl`, `continue_read_parens_list` and `reader_continue_unfinished`. It is proved to return exactly what the machine returns.
- `Reading.Reader` is a class with the fields `currentByte` and `unfinished`, updated in place by `Read` and `ReadAll`. Each method is proved to compute what the machine computes.

**The debug serialiser of `src/reader.c`.** A node prints as `(name [start end]`. For a list, each child follows on its own line, indented two more spaces. A closing `)` ends the node. The size pass (`node_to_string_len`) is a function, and the writing pass (`node_to_string_impl`) fills a fixed-size character buffer through a cursor. The model proves three things:
- the writing pass writes exactly the rendered text;
- the text is exactly as long as the size pass says;
- locations print as numbers that read back as the span.

**The token model of `include/ely/token.hpp`.** A lexeme (kind, start, length) is decoded into one of sixteen raw alternatives, each keeping only its payload. The raw token is wrapped with its leading and trailing atmosphere. Every payload alternative's `size()` recovers its lexeme's byte length, whatever bytes its constructor stripped. A delimiter reports 1, a boolean literal 2 and `Eof` 0, whatever length the lexeme had.

Where the behaviour is not pinned down by the code, the model decides as follows:
- The reader's `assert(false …)` paths become returned errors (`ReadError`). After an error, the reader's open lists are cleared.
- `Eof` inside an open list is the error `MissingClose`, as the code asserts at reader.c:98-99. It does not park the list. An open list is parked only when the slice runs out.
- The reader works on raw tokens and skips atmosphere itself, as `src/reader.c` does. The token model keeps atmosphere beside each token, as `token.hpp` does. The two token layouts are modelled separately, each as its own code has it.

## Model

| member | source | states |
|---|---|---|
| `ReaderSpec.Skipped` | src/reader.c:25-45 | The skipped run is a prefix of the slice, every skipped token is atmosphere, the first token after it is not, and the bytes skipped are the sum of the skipped lengths. |
| `Reading.SkipAtmosphere` | src/reader.c:25-45 | The counting loop returns exactly `Skipped` of the slice. |
| `Reading.ContainsVbar` | src/reader.c:389-400 | The scan reports a vertical bar exactly when the identifier's bytes contain one. |
| `ReaderSpec.ReadLeaf` | src/reader.c:380-522 | A leaf token becomes a leaf of the matching kind spanning `[start, start + len]`. It fails exactly when it is an identifier containing a vertical bar. |
| `ReaderSpec.LeafTextRoundTrip` | src/reader.c:422-502 | Identifier, int and float keep all the token's bytes; a string keeps them without its two quotes; char and keyword drop their two-byte prefix; true and false keep none. |
| `Reading.ReadLeafNode` | src/reader.c:380-522 | The leaf readers return exactly `ReadLeaf`. |
| `ReaderSpec.AppendChild` | src/reader.c:105-108 | A finished child goes at the tail of the innermost open list; the lists below it are unchanged. |
| `ReaderSpec.Step` | src/reader.c:525-618 | One token never moves the cursor back or past its own length. A completed form is a list exactly when the token was `)`. It reports the end of forms only for `Eof` at top level. |
| `ReaderSpec.RunBounds` | src/reader.c:54-122 | A read never moves the cursor back. A form consumes at least one token and leaves no list open; an incomplete read consumes the whole slice with a list open; an error is reported at a token index inside the slice. |
| `ReaderSpec.RunSkipsAtmosphere` | src/reader.c:64-69 | Atmosphere tokens only move the cursor by their summed length. |
| `ReaderSpec.DeliverKeepsOrdered` | src/reader.c:105-108 | Appending a well-spanned child that starts after the list's last child keeps every open list ordered. |
| `ReaderSpec.ClosedListOk` | src/reader.c:82-91 | The list a `)` closes is a well-spanned parenthesised tree. |
| `ReaderSpec.PopKeepsOrdered` | src/reader.c:82-91 | Closing the innermost list leaves the lists around it ordered up to where it began. |
| `ReaderSpec.CloseKeepsOrdered` | src/reader.c:82-91 | After a `)`, the open lists stay ordered, or the completed form is a well-spanned tree ending at the cursor. |
| `ReaderSpec.OpenKeepsOrdered` | src/reader.c:124-146 | A `(` pushes an empty list starting one byte before the cursor and keeps the stack ordered. |
| `ReaderSpec.StepKeepsOrdered` | src/reader.c:525-618 | Every token keeps the open lists ordered, and every form it completes is a well-spanned parenthesised tree ending at the cursor. |
| `ReaderSpec.RunKeepsOrdered` | src/reader.c:54-122 | Every form a read returns is well spanned and ends at the cursor, and a parked state is ordered. |
| `ReaderSpec.StepKeepsBottom` | src/reader.c:54-122 | While lists are open, the outermost one keeps its start, and a form completed there is a list starting at it. |
| `ReaderSpec.RunKeepsBottom` | src/reader.c:114-121 | The outermost open list completes, or stays parked, with the start it was opened with. |
| `ReaderSpec.OpenParenStartsList` | src/reader.c:131-132 | A list read at top level starts at the cursor after its `(` minus one. |
| `ReaderSpec.TopLevelFormStart` | src/reader.c:655-659 | A top-level form never starts before the cursor the read started from. |
| `ReaderSpec.FormEndsAtItsLastToken` | src/reader.c:83-91 | The tokens consumed end exactly at the token that completed the form: a form is a list exactly when that token is `)`, and a leaf was read from that token, with its kind and a span as long as the token. |
| `ReaderSpec.StructuralOutcomes` | src/reader.c:564-570 | After atmosphere, a close at top level is `UnexpectedClose`, `]` or `}` in a list is `MismatchedClose`, `Eof` in a list is `MissingClose`, `Eof` at top level is no form consuming `idx + 1`, and `[` or `{` is not yet implemented. |
| `ReaderSpec.ReadsOneLeaf` | src/reader.c:532-542 | A leaf at top level spans `[cursor, cursor + len]`, moves the cursor by `len` and consumes up to one past its index. |
| `ReaderSpec.RunShift` | src/reader.c:620-629 | Reading past a prefix of tokens gives the same outcome with indices shifted by its length. |
| `ReaderSpec.RunSplit` | src/reader.c:114-121 | A run that parks at the end of a slice, continued over more tokens, equals one run over both. |
| `ReaderSpec.ChunkedReadEqualsWhole` | src/reader.c:620-637 | Two slices, where the first parks inside a list and the second resumes it at index 0, give the same result and final state as the whole token sequence read at once. |
| `ReaderSpec.ReadFromBounds` | src/reader.c:644-648 | A form consumes at least one and at most all of the slice's tokens and leaves no list open. |
| `ReaderSpec.ReadAllFormsOrdered` | src/reader.c:662-685 | Every form read_all collects is a well-spanned parenthesised tree, consecutive forms do not overlap, the first starts at or after the cursor when no list was open, and the last ends before the final cursor. |
| `ReaderRecursive.ReadImpl` | src/reader.c:525-618 | A form consumes tokens inside the slice, no form is returned only for `Eof`, and a parked list consumes the whole slice. |
| `ReaderRecursive.ContinueList` | src/reader.c:54-122 | A list either completes inside the slice or parks at its end with itself outermost; it never returns no form. |
| `ReaderRecursive.ListAt` | src/reader.c:72-111 | One turn of the list loop: the same bounds as `ContinueList`. |
| `ReaderRecursive.ImplAgrees` | src/reader.c:525-618 | The recursive `reader_read_impl` returns what the machine returns from the same token. |
| `ReaderRecursive.ContinueAgrees` | src/reader.c:54-122 | The recursive list loop agrees with the machine running with that list on top of the stack. |
| `ReaderRecursive.ListAtAgrees` | src/reader.c:72-111 | One turn of the list loop agrees with the machine. |
| `ReaderRecursive.ResumeAgrees` | src/reader.c:620-637 | Resuming a stack of parked lists agrees with the machine. |
| `ReaderRecursive.ReadAgrees` | src/reader.c:639-660 | The recursive reader and the explicit-stack machine return the same result and state on every slice. |
| `Reading.Reader.constructor` | src/reader.c:373-378 | A new reader is at byte 0 with no open list. |
| `Reading.Reader.Attach` | src/reader.c:105-108 | A finished node is returned at top level or appended to the innermost open list, as `Deliver` says. |
| `Reading.Reader.Dispatch` | src/reader.c:525-618 | The switch on one token does to the fields exactly what `Step` does to the machine. |
| `Reading.Reader.SkipFrom` | src/reader.c:64-69 | Every token skipped from index `i` is atmosphere and the one it stops at is not; the cursor moves by exactly their summed length, the unfinished lists are untouched, and the machine's run from there is unchanged. |
| `Reading.Reader.Read` | src/reader.c:639-660 | The result and the new fields are exactly `ReadFrom` of the old fields, so every `ReaderSpec` property holds of the object. |
| `Reading.Reader.ReadAll` | src/reader.c:662-685 | The forms, the final result and the new fields are exactly `ReadAllFrom` of the old fields. |
| `Reading.ReadAllFresh` | src/reader.c:373-378 | A fresh reader's read_all returns well-spanned parenthesised trees that follow each other in the source. |
| `Serializer.DecimalRoundTrip` | src/reader.c:155-165 | The digits printed for a number are a numeral without a leading zero and read back as that number. |
| `Serializer.LocationWriteLength` | src/reader.c:148-153 | The length pass for a location equals the length of the text written for it. |
| `Serializer.LocationTextRoundTrip` | src/reader.c:155-165 | A location prints as `[`, digits, a space, digits, `]`, and the two numerals read back as its start and end. |
| `Serializer.RenderLength` | src/reader.c:198-259 | The size pass computes exactly the length of the text the writing pass produces. |
| `Serializer.ChildrenRenderLength` | src/reader.c:223-231 | The same for the children of a list: one newline plus the child's text each. |
| `Serializer.RenderFrame` | src/reader.c:261-284 | A node's text starts with its indentation and `(` and ends with `)`. |
| `Serializer.ChildLine` | src/reader.c:343-348 | In a list's text, each child appears after the header and the earlier children, preceded by a newline and printed two spaces deeper. |
| `Serializer.ChildrenLengthGrows` | src/reader.c:223-231 | Printing more children never takes fewer bytes. |
| `Serializer.PrefixOfChildren` | src/reader.c:343-348 | The children printed so far are a prefix of the children printed later. |
| `Serializer.Cursor.constructor` | src/reader.c:358-361 | A fresh buffer of the size asked for, with nothing written. |
| `Serializer.Cursor.Put` | src/reader.c:274-274 | Writing one character appends it and advances the cursor by one. |
| `Serializer.WriteText` | src/reader.c:275-276 | The memcpy appends the text and advances the cursor by its length. |
| `Serializer.WriteIndent` | src/reader.c:268-272 | The indentation loop appends exactly `indent` spaces. |
| `Serializer.WriteLocation` | src/reader.c:155-165 | Appends the location's text and returns the length the length pass computes. |
| `Serializer.WriteHeader` | src/reader.c:326-340 | Appends the indentation, `(`, the name, a space and the location. |
| `Serializer.PrintGeneric` | src/reader.c:261-284 | Appends a leaf's header and `)` and returns `3 + indent + name length + location length`. |
| `Serializer.WriteNode` | src/reader.c:286-356 | Appends exactly the rendered text of the node and returns the size pass's length. |
| `Serializer.WriteChildren` | src/reader.c:343-348 | The child loop appends every child, each after a newline, two spaces deeper. |
| `Serializer.WriteChildLine` | src/reader.c:344-347 | One turn of the child loop extends the children written by one. |
| `Serializer.NodeToStringLen` | src/reader.c:198-259 | The recursive size pass returns `PrintLength`, the length of the rendered text. |
| `Serializer.ChildrenToStringLen` | src/reader.c:223-231 | The size loop over a list's children returns their printed length with one newline each. |
| `Serializer.NodeToString` | src/reader.c:358-371 | The string returned is the rendered node, and its length is what the size pass allocated. |
| `Tokens.Payload` | include/ely/token.hpp:182-442 | A payload together with the bytes its kind strips is as long as the lexeme. |
| `Tokens.MakeRaw` | include/ely/token.hpp:86-457 | Each lexeme kind decodes to the alternative of the same name. |
| `Tokens.UnterminatedFromLexeme` | include/ely/token.hpp:390-396 | The lexeme constructor of UnterminatedStringLit keeps the same payload as its iterator constructor. |
| `Tokens.InvalidNumberSignFromLexeme` | include/ely/token.hpp:420-427 | The lexeme constructor of InvalidNumberSign keeps the same payload as its iterator constructor. |
| `Tokens.MakeToken` | include/ely/token.hpp:509-550 | The Token constructor activates the alternative named by the lexeme's kind and keeps both atmosphere lists. |
| `Tokens.SizeRoundTrip` | include/ely/token.hpp:58-78 | `vacuum_size` is 1 for a delimiter, 0 for Eof, 2 for a boolean and the lexeme's length for every payload kind; `pressurized_size` adds both atmosphere sizes. |
| `Tokens.PayloadRoundTrip` | include/ely/token.hpp:182-442 | The stripped front bytes, the payload and the stripped back bytes rebuild the lexeme. |
| `Tokens.DecodeInjective` | include/ely/token.hpp:182-442 | Two payload lexemes that decode to the same token had the same kind, length and payload. |
| `Tokens.BoolValue` | include/ely/token.hpp:365-376 | A boolean literal is true exactly when its second byte is `t`. |
| `Tokens.EofIffEofLexeme` | include/ely/token.hpp:576-588 | `is_eof` holds exactly when the lexeme was Eof, and `operator bool` exactly when it was not. |
| `Findings.ReadAsWritten` | src/reader.c:639-660 | `ely_reader_read` as written, with the state it leaves: with no list open and no out-of-slice read it returns what `ReadFrom` returns; a form or a parked list consumes at least one and at most all of the slice, a parked list all of it; the single slot never holds more than one list. |
| `Findings.SlotNeverCleared` | src/reader.c:650-653 | Whenever the resumption completes the parked list, the intended reader leaves no list open, but as written, if the call returns, that list stays in the slot with the children it was completed with. |
| `Findings.CompletedListStaysParked` | src/reader.c:650-659 | On the slices `(` then `a)`, the intended reader completes `(a)`; as written that list is dropped, the identifier token is read again at top level as a leaf after the list, and `(a)` stays parked. |
| `Findings.ResumeResultDropped` | src/reader.c:650-653 | On the slice `)` after `(`, the code as written reports an unexpected close, where the intended reader completes `()`. |
| `Findings.TrailingAtmosphereReadsPastSlice` | src/reader.c:655-659 | On the slices ` ` and `( `, where the atmosphere skip reaches the end of the slice, the code as written reads the token past the slice, where the intended reader returns no form or parks the list. |
| `Findings.AtmosphereOnlyReadsNothing` | src/reader.c:64-69 | The intended reader on atmosphere only returns no form, consumes every token and moves the cursor past them. |
| `Findings.ParkAsWritten` | src/reader.c:114-118 | The parking as written keeps only the outermost open list. |
| `Findings.NestedListLost` | src/reader.c:105-108 | On `(a (b`, the intended reader keeps both open lists, while as written the inner list `(b` is lost. |
| `Findings.ReadAllAsWritten` | src/reader.c:662-685 | `ely_reader_read_all` as written, each round being `ReadAsWritten` on what is left of the slice: every entry but the last is a form, an unfinished marker is only ever the last entry and the call after it returns no form, and the loop stops on no form, an error, or a read past the slice. |
| `Findings.ReadAllReadsPastSlice` | src/reader.c:662-685 | On the slice `a` and a space, read_all as written collects `a` and then reads past the slice, where the intended read_all collects `a` and stops with no form after consuming the space. |
| `Findings.UnfinishedMarkerAppended` | src/reader.c:672 | On the slice `(`, the code as written appends the incomplete marker as a form; the intended reader returns none. |

## Left out

- `include/ely/variant.hpp`: compile-time machinery; a Dafny datatype with `match` is its runtime meaning.
- Memory: `malloc`, the trailing-payload node layout, `ely_node_destroy` and `ELY_MUSTTAIL`. Nodes are values with owned `seq` children.
- The intrusive list links and the `parent` back-pointer; children are a sequence in source order.
- The names `ely_token_as_string` gives leaf kinds: its source is not part of this model, so the serialiser takes them as a parameter `names`.
- `ely_u32_count_numbers` and `ely_u32_write_to_buffer` are not part of this model; numbers are taken to print in plain decimal (`Decimal`).
- `AtmosphereList`'s items and `atmosphere_size`: an atmosphere list is only its size in bytes.
- Bracket and brace lists: the reader reports `NotYetImplemented` for `[` and `{`; the serialiser requires a tree of parenthesised lists (`ParensOnly`), because its bracket and brace arms are unreachable in the source.
- The lexer: its guarantees appear as the subset type `LexedToken` (a `(` is at least one byte; string, char and keyword lexemes at least two) and as the token-model predicate `Decodable`. `Slice` clamps to the source so that out-of-range tokens stay total.
- The `filename` carried in every location, which is never interpreted.
- 32-bit arithmetic: cursors, lengths and sizes are unbounded naturals, so a source over 4 GiB, which would wrap `current_byte`, is not modelled.
- `Token::visit` and `unsafe_get`: they are generic dispatch over the active alternative, which is `match` on `RawToken`. The `in_place` constructors and the `str()`, `name()` and `value()` accessors are the datatype's fields.
- `Findings.ParkAsWritten`: does not represent the `0x1` marker that the code also appends as a child of the outer list, because it is not a node.
- `Findings.ReadAsWritten`: the resumption and the top-level re-read are run with the intended stack-based reader, and only the state they leave is cut down to the single slot; the `0x1` children are not represented, and an `assert(false …)` path is a returned error.
- `Reading.Reader`: after an error the open lists are cleared, where the source aborts in `assert(false …)`.

## Findings

| source | as written | input that shows it | evidently intended | confidence | as-written member | corrected member |
|---|---|---|---|---|---|---|
| src/reader.c:650-653 | the result of resuming the unfinished list is dropped, `unfinished_node` is never cleared (`Findings.SlotNeverCleared`), and the slice is read again from index 0 at top level | the slices `(` then `)` | the resumed list is returned as the form | not executed | `Findings.ResumeResultDropped` | `ReaderSpec.ChunkedReadEqualsWhole` |
| src/reader.c:66-70 | after skipping atmosphere that reaches the end of the slice, `tokens[idx]` is read one past the slice (also at reader.c:658) | the slice ` ` or the slice `( ` | no form, or the list is parked, with every token consumed | not executed | `Findings.TrailingAtmosphereReadsPastSlice` | `Findings.AtmosphereOnlyReadsNothing` |
| src/reader.c:105-118 | a nested list that runs out parks itself, then the list around it appends the `0x1` marker as a child and overwrites the single parked slot | the slice `(a (b` | every open list is kept and resumed in order | not executed | `Findings.NestedListLost` | `ReaderSpec.ChunkedReadEqualsWhole` |
| src/reader.c:672 | read_all appends any non-null result, including the `0x1` incomplete marker | the slice `(` | the marker is not a form and is not appended | not executed | `Findings.UnfinishedMarkerAppended` | `ReaderSpec.ReadAllFormsOrdered` |
