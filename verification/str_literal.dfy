/** What a string literal denotes: the pieces of its text, and the byte that each stands for. */
module StrLiteral {

  /** A character that stands for itself; a backslash with a letter; a backslash with a number of one to
      three digits; a backslash with a line end; a backslash with any other character. */
  datatype Piece = Plain(c: char) | Letter(c: char) | Code(digits: string) | Break(end: string) | Other(c: char)

  predicate Digit(c: char) { '0' <= c <= '9' }

  predicate Newline(c: char) { c == '\n' || c == '\r' }

  function Value(digits: string): nat {
    if digits == "" then 0 else
      var c := digits[|digits| - 1];
      10 * Value(digits[..|digits| - 1]) + if Digit(c) then c as int - '0' as int else 0
  }

  /** The pieces of a literal between two delimiters `del`. */
  predicate Allowed(e: Piece, del: char) {
    match e
    case Plain(c) => c != del && c != '\\' && !Newline(c)
    case Letter(c) => c in "abfnrtv"
    case Code(ds) => 1 <= |ds| <= 3 && (forall c | c in ds :: Digit(c)) && Value(ds) <= 255
    case Break(s) => s in ["\n", "\r", "\n\r", "\r\n"]
    case Other(c) => c !in "abfnrtv" && !Digit(c) && !Newline(c)
  }

  function Text(e: Piece): string {
    match e
    case Plain(c) => [c]
    case Letter(c) => ['\\', c]
    case Code(ds) => ['\\'] + ds
    case Break(s) => ['\\'] + s
    case Other(c) => ['\\', c]
  }

  function Byte(e: Piece): char {
    match e
    case Plain(c) => c
    case Letter(c) =>
      (match c
       case 'a' => 7 case 'b' => 8 case 'f' => 12 case 'n' => 10 case 'r' => 13 case 't' => 9 case 'v' => 11
       case _ => 0) as char
    case Code(ds) => if Value(ds) <= 255 then Value(ds) as char else '\0'
    case Break(_) => '\n'
    case Other(c) => c
  }

  function TextOf(es: seq<Piece>): string { if es == [] then "" else Text(es[0]) + TextOf(es[1..]) }

  function BytesOf(es: seq<Piece>): string { if es == [] then "" else [Byte(es[0])] + BytesOf(es[1..]) }

  /** How many line ends there are. */
  function Breaks(es: seq<Piece>): nat { if es == [] then 0 else (if es[0].Break? then 1 else 0) + Breaks(es[1..]) }

  /** A number goes on as far as it can, and a line end of two characters is one. */
  predicate Longest(e: Piece, rest: string) {
    && (e.Code? && |e.digits| < 3 && rest != "" ==> !Digit(rest[0]))
    && (e.Break? && |e.end| == 1 && rest != "" && Newline(rest[0]) ==> rest[0] == e.end[0])
  }

  /** The pieces may stand in a literal before `rest`. */
  predicate Literal(es: seq<Piece>, del: char, rest: string) {
    es == [] || (Allowed(es[0], del) && Longest(es[0], TextOf(es[1..]) + rest) && Literal(es[1..], del, rest))
  }
}
