/** The token model of include/ely/token.hpp: a lexeme (a kind, a start offset
    into the source and a byte length) is decoded into one of sixteen raw
    token alternatives, each keeping only its payload, and wrapped with the
    atmosphere before and after it. Every payload alternative reports a size
    equal to the byte length of its lexeme; a delimiter reports 1, a boolean
    2 and Eof 0, whatever length the lexeme had. */
module Tokens {

  /** The kinds a lexeme can have when it reaches the Token constructor: one
      per alternative (token.hpp:525-545). */
  datatype LexemeKind =
    | LParen | RParen | LBracket | RBracket | LBrace | RBrace
    | Identifier | IntLit | FloatLit | CharLit | StringLit | KeywordLit | BoolLit
    | InvalidNumberSign | UnterminatedStringLit | Eof

  /** A lexeme: its kind, the offset of its first byte in the source and its
      length in bytes. */
  datatype Lexeme = Lexeme(kind: LexemeKind, start: nat, len: nat)

  /** The atmosphere attached before or after a token. Its items are not part
      of this model; only the number of bytes it covers is. */
  datatype AtmosphereList = AtmosphereList(size: nat)

  /** The sixteen token::raw classes: each keeps the payload its constructor
      decoded and nothing else. */
  datatype RawToken =
    | RawLParen | RawRParen | RawLBracket | RawRBracket | RawLBrace | RawRBrace
    | RawIdentifier(name: string)
    | RawIntLit(str: string)
    | RawFloatLit(str: string)
    | RawCharLit(str: string)
    | RawStringLit(str: string)
    | RawKeywordLit(str: string)
    | RawBoolLit(value: bool)
    | RawInvalidNumberSign(str: string)
    | RawUnterminatedStringLit(str: string)
    | RawEof

  /** detail::Pressurized over the active alternative of Token's variant: the
      leading atmosphere, the trailing atmosphere and the raw token. */
  datatype Token = Token(leading: AtmosphereList, trailing: AtmosphereList, raw: RawToken)

  /** Which alternative is active (`holds<T>`, token.hpp:590-597). */
  function KindOf(r: RawToken): LexemeKind
  {
    match r
    case RawLParen => LParen
    case RawRParen => RParen
    case RawLBracket => LBracket
    case RawRBracket => RBracket
    case RawLBrace => LBrace
    case RawRBrace => RBrace
    case RawIdentifier(_) => Identifier
    case RawIntLit(_) => IntLit
    case RawFloatLit(_) => FloatLit
    case RawCharLit(_) => CharLit
    case RawStringLit(_) => StringLit
    case RawKeywordLit(_) => KeywordLit
    case RawBoolLit(_) => BoolLit
    case RawInvalidNumberSign(_) => InvalidNumberSign
    case RawUnterminatedStringLit(_) => UnterminatedStringLit
    case RawEof => Eof
  }

  predicate IsDelimiter(k: LexemeKind)
  {
    k == LParen || k == RParen || k == LBracket || k == RBracket || k == LBrace || k == RBrace
  }

  /** How many bytes a kind strips from the front and from the back of its
      lexeme to obtain its payload. */
  function StripFront(k: LexemeKind): nat
  {
    if k == CharLit || k == KeywordLit then 2
    else if k == StringLit || k == InvalidNumberSign || k == UnterminatedStringLit then 1
    else 0
  }

  function StripBack(k: LexemeKind): nat
  {
    if k == StringLit then 1 else 0
  }

  /** The kinds that copy a payload out of the source. */
  predicate HasPayload(k: LexemeKind)
  {
    !IsDelimiter(k) && k != BoolLit && k != Eof
  }

  /** The iterator ranges each raw constructor forms are valid: a payload
      kind reads `[start + front, start + len - back)`, which must lie in the
      source and not be reversed; BoolLit reads the byte after its first.
      Delimiters and Eof ignore the lexeme. */
  predicate Decodable(src: string, lx: Lexeme)
  {
    if HasPayload(lx.kind) then
      lx.start + lx.len <= |src| && StripFront(lx.kind) + StripBack(lx.kind) <= lx.len
    else if lx.kind == BoolLit then
      lx.start + 1 < |src|
    else
      true
  }

  /** The payload of a lexeme: its bytes without the stripped ones. */
  function Payload(src: string, lx: Lexeme): (p: string)
    requires HasPayload(lx.kind) && Decodable(src, lx)
    ensures |p| + StripFront(lx.kind) + StripBack(lx.kind) == lx.len
  {
    src[lx.start + StripFront(lx.kind)..lx.start + lx.len - StripBack(lx.kind)]
  }

  /** The raw constructors taking an iterator and a length
      (token.hpp:91-94, 190-193, 219-222, 248-251, 277-281, 307-310,
      336-339, 365-368, 398-401, 429-432, 450-452). */
  function MakeRaw(src: string, lx: Lexeme): (r: RawToken)
    requires Decodable(src, lx)
    ensures KindOf(r) == lx.kind
  {
    match lx.kind
    case LParen => RawLParen
    case RParen => RawRParen
    case LBracket => RawLBracket
    case RBracket => RawRBracket
    case LBrace => RawLBrace
    case RBrace => RawRBrace
    case Identifier => RawIdentifier(Payload(src, lx))
    case IntLit => RawIntLit(Payload(src, lx))
    case FloatLit => RawFloatLit(Payload(src, lx))
    case CharLit => RawCharLit(Payload(src, lx))
    case StringLit => RawStringLit(Payload(src, lx))
    case KeywordLit => RawKeywordLit(Payload(src, lx))
    case BoolLit => RawBoolLit(src[lx.start + 1] == 't')
    case InvalidNumberSign => RawInvalidNumberSign(Payload(src, lx))
    case UnterminatedStringLit => RawUnterminatedStringLit(Payload(src, lx))
    case Eof => RawEof
  }

  /** The constructors of UnterminatedStringLit and InvalidNumberSign that
      take a whole lexeme (token.hpp:390-396, 420-427): they check its kind
      and keep the same payload as the iterator constructors. The first
      expects a lexeme of kind StringLit, as the lexer reports a string that
      never closes. */
  function UnterminatedFromLexeme(src: string, lx: Lexeme): (r: RawToken)
    requires lx.kind == StringLit && 1 <= lx.len && lx.start + lx.len <= |src|
    ensures r == MakeRaw(src, Lexeme(UnterminatedStringLit, lx.start, lx.len))
  {
    RawUnterminatedStringLit(src[lx.start + 1..lx.start + lx.len])
  }

  function InvalidNumberSignFromLexeme(src: string, lx: Lexeme): (r: RawToken)
    requires lx.kind == InvalidNumberSign && Decodable(src, lx)
    ensures r == MakeRaw(src, lx)
  {
    RawInvalidNumberSign(src[lx.start + 1..lx.start + lx.len])
  }

  /** `size()` of each raw class (token.hpp:96-99, 112-115, 129-132, 146-149,
      161-164, 176-179, 205-208, 234-237, 263-266, 293-296, 322-325,
      351-354, 378-381, 408-411, 439-442, 454-457). */
  function RawSize(r: RawToken): nat
  {
    match r
    case RawIdentifier(name) => |name|
    case RawIntLit(s) => |s|
    case RawFloatLit(s) => |s|
    case RawCharLit(s) => 2 + |s|
    case RawStringLit(s) => 2 + |s|
    case RawKeywordLit(s) => 2 + |s|
    case RawBoolLit(_) => 2
    case RawInvalidNumberSign(s) => |s| + 1
    case RawUnterminatedStringLit(s) => |s| + 1
    case RawEof => 0
    case _ => 1
  }

  /** The Token constructor (token.hpp:509-550): the lexeme's kind chooses
      the alternative of the same name, built from the lexeme's start and
      size with the two atmosphere lists around it. */
  function MakeToken(leading: AtmosphereList, trailing: AtmosphereList, src: string, lx: Lexeme): (t: Token)
    requires Decodable(src, lx)
    ensures KindOf(t.raw) == lx.kind && t.leading == leading && t.trailing == trailing
  {
    Token(leading, trailing, MakeRaw(src, lx))
  }

  /** `vacuum_size` (token.hpp:58-61, 632-636): the raw token's own size. */
  function VacuumSize(t: Token): nat
  {
    RawSize(t.raw)
  }

  /** `pressurized_size` (token.hpp:73-78, 625-630). */
  function PressurizedSize(t: Token): nat
  {
    t.leading.size + t.trailing.size + VacuumSize(t)
  }

  /** `is_eof` (token.hpp:576-583). */
  predicate IsEof(t: Token)
  {
    KindOf(t.raw) == Eof
  }

  /** `operator bool` (token.hpp:585-588): a token is true unless it is the
      end of input. */
  predicate AsBool(t: Token)
  {
    !IsEof(t)
  }

  /** The number of bytes a kind's token reports for a lexeme of length
      `len`: one for a delimiter, none for Eof, two for a boolean and the
      lexeme's own length for every payload kind. */
  function ReportedSize(k: LexemeKind, len: nat): nat
  {
    if IsDelimiter(k) then 1
    else if k == Eof then 0
    else if k == BoolLit then 2
    else len
  }

  // ---------------------------------------------------------------------
  // Properties.

  /** The size a token reports: a payload kind reports its lexeme's full
      length, whatever bytes it stripped; a delimiter, a boolean and Eof
      report a fixed size that does not depend on the lexeme's length. */
  lemma SizeRoundTrip(leading: AtmosphereList, trailing: AtmosphereList, src: string, lx: Lexeme)
    requires Decodable(src, lx)
    ensures VacuumSize(MakeToken(leading, trailing, src, lx)) == ReportedSize(lx.kind, lx.len)
    ensures PressurizedSize(MakeToken(leading, trailing, src, lx))
      == leading.size + trailing.size + ReportedSize(lx.kind, lx.len)
  {
  }

  /** The payload kept is the lexeme with its stripped bytes removed, and
      the stripped bytes with the payload rebuild the lexeme. */
  lemma PayloadRoundTrip(src: string, lx: Lexeme)
    requires HasPayload(lx.kind) && Decodable(src, lx)
    ensures var front := StripFront(lx.kind);
      var back := StripBack(lx.kind);
      src[lx.start..lx.start + front] + Payload(src, lx) + src[lx.start + lx.len - back..lx.start + lx.len]
        == src[lx.start..lx.start + lx.len]
  {
    var front := StripFront(lx.kind);
    var back := StripBack(lx.kind);
    ThreeSlices(src, lx.start, lx.start + front, lx.start + lx.len - back, lx.start + lx.len);
  }

  /** Three adjacent slices of a sequence make up the slice they span. */
  lemma ThreeSlices(s: string, a: nat, b: nat, c: nat, d: nat)
    requires a <= b <= c <= d <= |s|
    ensures s[a..b] + s[b..c] + s[c..d] == s[a..d]
  {
    assert s[a..b] + s[b..c] == s[a..c];
  }

  /** Two lexemes of payload kinds that decode to the same token had the same
      kind and the same bytes between their stripped ends. */
  lemma DecodeInjective(src: string, a: Lexeme, b: Lexeme)
    requires HasPayload(a.kind) && Decodable(src, a) && HasPayload(b.kind) && Decodable(src, b)
    requires MakeRaw(src, a) == MakeRaw(src, b)
    ensures a.kind == b.kind && a.len == b.len && Payload(src, a) == Payload(src, b)
  {
    assert KindOf(MakeRaw(src, a)) == a.kind;
  }

  /** A boolean literal is true exactly when its second byte is `t`. */
  lemma BoolValue(src: string, lx: Lexeme)
    requires lx.kind == BoolLit && Decodable(src, lx)
    ensures MakeRaw(src, lx).RawBoolLit?
    ensures MakeRaw(src, lx).value <==> src[lx.start + 1] == 't'
  {
  }

  /** A token is the end of input exactly when its lexeme was, and is true
      otherwise. */
  lemma EofIffEofLexeme(leading: AtmosphereList, trailing: AtmosphereList, src: string, lx: Lexeme)
    requires Decodable(src, lx)
    ensures IsEof(MakeToken(leading, trailing, src, lx)) <==> lx.kind == Eof
    ensures AsBool(MakeToken(leading, trailing, src, lx)) <==> lx.kind != Eof
    ensures IsEof(MakeToken(leading, trailing, src, lx)) <==> MakeToken(leading, trailing, src, lx).raw == RawEof
  {
  }
}
