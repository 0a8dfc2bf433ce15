/** Syntax nodes built by the reader: leaves carry their decoded text, lists own
    their children in source order. Locations are absolute byte offsets. */
module Syntax {

  /** The leaf kinds of the syntax tree (ELY_STX_* leaf values). */
  datatype LeafKind =
    | Identifier | IntLit | FloatLit | CharLit | StringLit | KeywordLit | TrueLit | FalseLit

  /** The three bracket families of list nodes. */
  datatype ListKind = ParensList | BracketList | BraceList

  /** A byte span `[start, end]` into the source buffer; the file name the
      source carries alongside is never interpreted and is left out. */
  datatype Location = Location(start: nat, end: nat)

  /** A syntax node. The parent back-pointer and the intrusive list links of
      the source are replaced by an owned sequence of children. */
  datatype Node =
    | Leaf(kind: LeafKind, loc: Location, text: string)
    | List(family: ListKind, loc: Location, children: seq<Node>)

  /** Every list in the tree is a parenthesised list: the only family the
      reader builds and the only one the serialiser can print. */
  predicate ParensOnly(n: Node)
  {
    match n
    case Leaf(_, _, _) => true
    case List(family, _, children) =>
      family == ParensList && forall i | 0 <= i < |children| :: ParensOnly(children[i])
  }

  /** Children of a list lie inside their parent's span, in increasing,
      non-overlapping order, and no span ends before it starts. */
  predicate WellSpanned(n: Node)
  {
    n.loc.start <= n.loc.end &&
    match n
    case Leaf(_, _, _) => true
    case List(_, loc, children) =>
      (forall i | 0 <= i < |children| ::
         WellSpanned(children[i]) &&
         loc.start <= children[i].loc.start && children[i].loc.end <= loc.end) &&
      (forall i | 0 <= i < |children| - 1 :: children[i].loc.end <= children[i + 1].loc.start)
  }

  /** What every node produced by the reader satisfies. */
  predicate NodeOk(n: Node)
  {
    ParensOnly(n) && WellSpanned(n)
  }
}
