/**
 The grammar of JSON texts (RFC 8259) and what they mean: strings with every escape in every form it may be written in,
 and values with white space wherever it is allowed.  Nothing here is taken from the parser.
 */
module JsonGrammar {
  import opened CText
  import opened Json
  import opened Numerals
  import opened Wrappers

  // ---- strings (section 7) ----

  /** A character as it is, an escape of one letter, or a code unit by four hexadecimal digits.  Characters are bytes:
      those of UTF-8 for what is not in ASCII. */
  datatype Piece = Plain(c: char) | Short(letter: char) | Unit(digits: string)

  predicate IsHexDigit(c: char) {
    IsDigit(c) || 'a' <= c <= 'f' || 'A' <= c <= 'F'
  }

  predicate IsPiece(p: Piece) {
    match p
    case Plain(c) => 0x20 as char <= c < 0x100 as char && c != '\"' && c != '\\'
    case Short(letter) => letter in ['\"', '\\', '/', 'b', 'f', 'n', 'r', 't']
    case Unit(digits) => |digits| == 4 && forall c <- digits :: IsHexDigit(c)
  }

  predicate IsBody(ps: seq<Piece>) {
    forall i :: 0 <= i < |ps| ==> IsPiece(ps[i])
  }

  function PieceText(p: Piece): string {
    match p
    case Plain(c) => [c]
    case Short(letter) => ['\\', letter]
    case Unit(digits) => "\\u" + digits
  }

  function BodyText(ps: seq<Piece>): string {
    if ps == [] then "" else PieceText(ps[0]) + BodyText(ps[1..])
  }

  function Letter(letter: char): char {
    match letter
    case 'b' => 0x08 as char
    case 't' => 0x09 as char
    case 'n' => 0x0A as char
    case 'f' => 0x0C as char
    case 'r' => 0x0D as char
    case '\"' => '\"'
    case '/' => '/'
    case _ => '\\'
  }

  function DigitOf(c: char): (d: nat)
    requires IsHexDigit(c)
    ensures d < 16
  {
    if IsDigit(c) then c as nat - '0' as nat
    else if 'a' <= c then 10 + (c as nat - 'a' as nat)
    else 10 + (c as nat - 'A' as nat)
  }

  function UnitOf(p: Piece): (u: nat)
    requires p.Unit? && IsPiece(p)
    ensures u < 0x1_0000
  {
    assert forall i :: 0 <= i < 4 ==> p.digits[i] in p.digits;
    DigitOf(p.digits[0]) * 4096 + DigitOf(p.digits[1]) * 256 + DigitOf(p.digits[2]) * 16 + DigitOf(p.digits[3])
  }

  predicate IsHigh(u: nat) {
    0xD800 <= u < 0xDC00
  }

  predicate IsLow(u: nat) {
    0xDC00 <= u < 0xE000
  }

  /** Section 3 of RFC 3629. */
  function Encoded(u: nat): string
    requires u < 0x11_0000
  {
    if u < 0x80 then [u as char]
    else if u < 0x800 then [(0xC0 + u / 64) as char, (0x80 + u % 64) as char]
    else if u < 0x1_0000 then [(0xE0 + u / 4096) as char, (0x80 + u / 64 % 64) as char, (0x80 + u % 64) as char]
    else
      [(0xF0 + u / 262_144) as char, (0x80 + u / 4096 % 64) as char, (0x80 + u / 64 % 64) as char,
       (0x80 + u % 64) as char]
  }

  /** The code point that the piece at the front stands for, and how many pieces spell it: two for a surrogate pair.
      None for a surrogate without its other half, and for U+0000, which no C string holds. */
  function FirstPoint(ps: seq<Piece>): (r: Option<(nat, nat)>)
    requires IsBody(ps) && ps != [] && ps[0].Unit?
    ensures r.Some? ==> 0 < r.value.0 < 0x11_0000 && 0 < r.value.1 <= |ps|
  {
    var u := UnitOf(ps[0]);
    if IsHigh(u) && |ps| > 1 && ps[1].Unit? && IsLow(UnitOf(ps[1])) then
      Some((0x1_0000 + (u - 0xD800) * 0x400 + (UnitOf(ps[1]) - 0xDC00), 2))
    else if IsHigh(u) || IsLow(u) || u == 0 then None
    else Some((u, 1))
  }

  /** The characters that a body denotes. */
  function Denoted(ps: seq<Piece>): Option<string>
    requires IsBody(ps)
    decreases |ps|
  {
    if ps == [] then Some("")
    else
      match ps[0]
      case Plain(c) => Behind([c], Denoted(ps[1..]))
      case Short(letter) => Behind([Letter(letter)], Denoted(ps[1..]))
      case Unit(_) =>
        match FirstPoint(ps)
        case None => None
        case Some((u, n)) => Behind(Encoded(u), Denoted(ps[n..]))
  }

  function Behind(t: string, rest: Option<string>): Option<string> {
    if rest.Some? then Some(t + rest.value) else None
  }

  // ---- values (sections 2 to 6) ----

  /** Arrays and objects with the white space around their parts; blank is what an empty one holds. */
  datatype Doc =
    | NullDoc
    | FalseDoc
    | TrueDoc
    | NumberDoc(n: Numeral)
    | StringDoc(body: seq<Piece>)
    | ArrayDoc(blank: string, items: seq<Item>)
    | ObjectDoc(blank: string, fields: seq<Field>)

  datatype Item = Item(before: string, value: Doc, after: string)

  datatype Field = Field(before: string, name: seq<Piece>, mid: string, gap: string, value: Doc, after: string)

  predicate IsSpace(t: string) {
    forall c <- t :: c in [0x20 as char, 0x09 as char, 0x0A as char, 0x0D as char]
  }

  predicate IsDoc(d: Doc)
    decreases d
  {
    match d
    case NumberDoc(n) => IsNumeral(n)
    case StringDoc(body) => IsBody(body)
    case ArrayDoc(blank, items) =>
      IsSpace(blank) && forall x <- items :: IsSpace(x.before) && IsDoc(x.value) && IsSpace(x.after)
    case ObjectDoc(blank, fields) =>
      IsSpace(blank) &&
      forall x <- fields ::
        && IsSpace(x.before) && IsBody(x.name) && IsSpace(x.mid) && IsSpace(x.gap)
        && IsDoc(x.value) && IsSpace(x.after)
    case _ => true
  }

  function StringText(ps: seq<Piece>): string {
    "\"" + BodyText(ps) + "\""
  }

  function DocText(d: Doc): string
    decreases d, 0
  {
    match d
    case NullDoc => "null"
    case FalseDoc => "false"
    case TrueDoc => "true"
    case NumberDoc(n) => NumeralText(n)
    case StringDoc(body) => StringText(body)
    case ArrayDoc(blank, items) => "[" + (if items == [] then blank else ItemTexts(items, 0)) + "]"
    case ObjectDoc(blank, fields) => "{" + (if fields == [] then blank else FieldTexts(fields, 0)) + "}"
  }

  /** items[k..] with commas between them */
  function ItemTexts(items: seq<Item>, k: nat): string
    requires k < |items|
    decreases items, |items| - k
  {
    items[k].before + DocText(items[k].value) + items[k].after +
    if k + 1 < |items| then "," + ItemTexts(items, k + 1) else ""
  }

  function FieldTexts(fields: seq<Field>, k: nat): string
    requires k < |fields|
    decreases fields, |fields| - k
  {
    fields[k].before + StringText(fields[k].name) + fields[k].mid + ":" + fields[k].gap + DocText(fields[k].value) +
    fields[k].after + if k + 1 < |fields| then "," + FieldTexts(fields, k + 1) else ""
  }

  /** The tree that a text means, if all its strings denote C strings. */
  function Tree(d: Doc): Option<Json>
    requires IsDoc(d)
    decreases d, 0
  {
    match d
    case NullDoc => Some(Null)
    case FalseDoc => Some(False)
    case TrueDoc => Some(True)
    case NumberDoc(n) => Some(Number(ValueOf(n)))
    case StringDoc(body) => if Denoted(body).Some? then Some(String(Denoted(body).value)) else None
    case ArrayDoc(_, items) => if Trees(items, 0).Some? then Some(Array(Trees(items, 0).value)) else None
    case ObjectDoc(_, fields) =>
      if MemberTrees(fields, 0).Some? then Some(Object(MemberTrees(fields, 0).value)) else None
  }

  function Trees(items: seq<Item>, k: nat): Option<seq<Json>>
    requires k <= |items| && forall x <- items :: IsDoc(x.value)
    decreases items, |items| - k
  {
    if k == |items| then Some([])
    else
      match (Tree(items[k].value), Trees(items, k + 1))
      case (Some(j), Some(rest)) => Some([j] + rest)
      case _ => None
  }

  function MemberTrees(fields: seq<Field>, k: nat): Option<seq<Member>>
    requires k <= |fields| && forall x <- fields :: IsBody(x.name) && IsDoc(x.value)
    decreases fields, |fields| - k
  {
    if k == |fields| then Some([])
    else
      match (Denoted(fields[k].name), Tree(fields[k].value), MemberTrees(fields, k + 1))
      case (Some(name), Some(j), Some(rest)) => Some([Member(name, j)] + rest)
      case _ => None
  }
}
