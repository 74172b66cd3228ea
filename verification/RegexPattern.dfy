/** The patterns the regex compiler is for: their concrete syntax and the words they stand for. */
module RegexPattern {

  type Byte = b: int | 0 <= b < 256 witness 0
  type Text = seq<Byte>

  const DOT: Byte := 46
  const STAR: Byte := 42
  const PLUS: Byte := 43
  const LPAREN: Byte := 40
  const RPAREN: Byte := 41
  const LBRACKET: Byte := 91
  const RBRACKET: Byte := 93
  const BAR: Byte := 124
  const DASH: Byte := 45

  const SPECIAL: set<Byte> := {DOT, STAR, PLUS, LPAREN, RPAREN, LBRACKET, RBRACKET, BAR}

  datatype Item =
    | Literal(text: Text)
    | OneOf(chars: Text)
    | Between(lo: Byte, hi: Byte)
    | Either(alts: seq<Text>)

  /** An item with its suffix: `plus` repeats it, `gap` lets any characters follow it. */
  datatype Piece = Piece(item: Item, plus: bool, gap: bool)

  predicate Free(t: Text, forbidden: set<Byte>) {
    forall i :: 0 <= i < |t| ==> t[i] !in forbidden && t[i] != 0
  }

  predicate FormedItem(item: Item) {
    match item
    case Literal(text) => text != [] && Free(text, SPECIAL)
    case OneOf(chars) => chars != [] && Free(chars, {LBRACKET, RBRACKET, DASH})
    case Between(lo, hi) => lo <= hi && Free([lo, hi], {LBRACKET, RBRACKET, DASH})
    case Either(alts) =>
      && alts != []
      && (forall i :: 0 <= i < |alts| ==> alts[i] != [] && Free(alts[i], {LPAREN, RPAREN, BAR}))
  }

  /** All alternatives have the same length. */
  predicate Level(item: Item) {
    item.Either? ==> forall i :: 0 <= i < |item.alts| ==> |item.alts[i]| == |item.alts[0]|
  }

  predicate WellFormedItem(item: Item) {
    FormedItem(item) && Level(item)
  }

  /** Two literals in a row would be one literal; the last piece has no suffix. */
  predicate Formed(ps: seq<Piece>) {
    && ps != []
    && (forall i :: 0 <= i < |ps| ==> FormedItem(ps[i].item))
    && (forall i :: 0 <= i < |ps| - 1 ==>
          ps[i].item.Literal? && ps[i + 1].item.Literal? ==> ps[i].plus || ps[i].gap)
    && !ps[|ps| - 1].plus && !ps[|ps| - 1].gap
  }

  /** A pattern whose states need no fix-up. */
  predicate WellFormed(ps: seq<Piece>) {
    Formed(ps) && forall i :: 0 <= i < |ps| ==> Level(ps[i].item)
  }

  // ----- concrete syntax -----

  /** The alternatives separated by bars. */
  function Joined(alts: seq<Text>): (t: Text) {
    if alts == [] then []
    else if |alts| == 1 then alts[0]
    else Joined(alts[..|alts| - 1]) + [BAR] + alts[|alts| - 1]
  }

  function PrintItem(item: Item): (t: Text) {
    match item
    case Literal(text) => text
    case OneOf(chars) => [LBRACKET] + chars + [RBRACKET]
    case Between(lo, hi) => [LBRACKET, lo, DASH, hi, RBRACKET]
    case Either(alts) => [LPAREN] + Joined(alts) + [RPAREN]
  }

  function PrintSuffix(p: Piece): (t: Text) {
    (if p.plus then [PLUS] else []) + (if p.gap then [DOT, STAR] else [])
  }

  function Print(ps: seq<Piece>): (t: Text) {
    if ps == [] then [] else PrintItem(ps[0].item) + PrintSuffix(ps[0]) + Print(ps[1..])
  }

  // ----- words -----

  predicate ItemWord(item: Item, w: Text) {
    match item
    case Literal(text) => w == text
    case OneOf(chars) => |w| == 1 && w[0] in chars
    case Between(lo, hi) => |w| == 1 && lo <= w[0] <= hi
    case Either(alts) => w in alts
  }

  /** One or more words of the item. */
  ghost predicate Repeated(item: Item, w: Text)
    decreases |w|
  {
    ItemWord(item, w)
    || exists u, v {:trigger ItemWord(item, u), Repeated(item, v)} ::
         u != [] && w == u + v && ItemWord(item, u) && Repeated(item, v)
  }

  ghost predicate PieceBody(p: Piece, w: Text) {
    if p.plus then Repeated(p.item, w) else ItemWord(p.item, w)
  }

  ghost predicate PieceWord(p: Piece, w: Text) {
    if p.gap then exists u :: u <= w && PieceBody(p, u) else PieceBody(p, w)
  }

  /** `w` is a word of the pattern. */
  ghost predicate Matches(ps: seq<Piece>, w: Text)
    decreases |ps|
  {
    if ps == [] then w == []
    else exists u, v {:trigger PieceWord(ps[0], u), Matches(ps[1..], v)} ::
           w == u + v && PieceWord(ps[0], u) && Matches(ps[1..], v)
  }
}
