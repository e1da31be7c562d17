/** The `%q` format (`lstrlib.c`) and the lexer's string reader (`llex.c`): what one writes the
    other reads back. */
module StrQuote {
  import opened StrLiteral

  const MAX_INT: nat := 0x7fff_fffd

  datatype Option<T> = None | Some(value: T)

  // ---------- writing ----------

  function QuoteChar(c: char): string {
    match c
    case '"' => "\\\""
    case '\\' => "\\\\"
    case '\n' => "\\\n"
    case '\r' => "\\r"
    case '\0' => "\\000"
    case _ => [c]
  }

  function QuoteAll(s: string): string { if s == "" then "" else QuoteChar(s[0]) + QuoteAll(s[1..]) }

  lemma {:induction false} QuoteMore(s: string, c: char)
    ensures QuoteAll(s + [c]) == QuoteAll(s) + QuoteChar(c)
  {
    if s == "" {
      assert s + [c] == [c] && QuoteAll([c]) == QuoteChar(c) + QuoteAll([]);
    } else {
      assert (s + [c])[1..] == s[1..] + [c];
      QuoteMore(s[1..], c);
    }
  }

  /** `addquoted`, on a buffer that holds `b` */
  method AddQuoted(b: string, s: string) returns (r: string)
    ensures r == b + "\"" + QuoteAll(s) + "\""
  {
    r := b + "\"";
    var i := 0;
    while i < |s|
      invariant i <= |s| && r == b + "\"" + QuoteAll(s[..i])
    {
      r := AddChar(r, s[i]);
      QuoteMore(s[..i], s[i]);
      assert s[..i + 1] == s[..i] + [s[i]];
      hide QuoteAll, QuoteChar;
      i := i + 1;
    }
    assert s[..i] == s;
    r := r + "\"";
  }

  /** The body of its loop. */
  method AddChar(b: string, c: char) returns (r: string)
    ensures r == b + QuoteChar(c)
  {
    match c
    case '"' => r := b + "\\"; r := r + [c];
    case '\\' => r := b + "\\"; r := r + [c];
    case '\n' => r := b + "\\"; r := r + [c];
    case '\r' => r := b + "\\r";
    case '\0' => r := b + "\\000";
    case _ => r := b + [c];
  }

  // ---------- reading ----------

  datatype LexError = Unfinished | EscapeTooLarge | TooManyLines

  /** The text of a string token, what follows it, and the line it ends in. */
  datatype Scanned = Token(text: string, next: nat, line: nat) | Failed(err: LexError)

  predicate IsDigit(c: char) { '0' <= c <= '9' }

  predicate IsNewline(c: char) { c == '\n' || c == '\r' }

  /** The control character that `\c` stands for. */
  function Control(c: char): Option<char> {
    match c
    case 'a' => Some(7 as char) case 'b' => Some(8 as char) case 'f' => Some(12 as char) case 'n' => Some('\n')
    case 'r' => Some('\r') case 't' => Some('\t') case 'v' => Some(11 as char)
    case _ => None
  }

  /** Behind the line end at `p`, which may be two characters. */
  function LineEnd(z: string, p: nat): nat
    requires p < |z|
  {
    if p + 1 < |z| && IsNewline(z[p + 1]) && z[p + 1] != z[p] then p + 2 else p + 1
  }

  /** The number that goes on at `p` with at most `k` digits, and what follows it. */
  function Number(z: string, p: nat, k: nat, c: nat): (nat, nat)
    decreases k
  {
    if k == 0 || p >= |z| || !IsDigit(z[p]) then (c, p)
        else Number(z, p + 1, k - 1, 10 * c + (z[p] as int - '0' as int))
  }

  lemma {:induction false} NumberAhead(z: string, p: nat, k: nat, c: nat)
    ensures Number(z, p, k, c).1 >= p
    decreases k
  {
    if k > 0 && p < |z| && IsDigit(z[p]) { NumberAhead(z, p + 1, k - 1, 10 * c + (z[p] as int - '0' as int)); }
  }

  /** What the reader makes of the input from `p` on; `buff` holds the opening delimiter and what
      has been read since. */
  function Scan(z: string, p: nat, del: char, buff: string, line: nat): Scanned
    requires buff != ""
    decreases |z| - p
  {
    if p >= |z| then Failed(Unfinished)
    else if z[p] == del then Token(buff[1..], p + 1, line)
    else if IsNewline(z[p]) then Failed(Unfinished)
    else if z[p] != '\\' then Scan(z, p + 1, del, buff + [z[p]], line)
    else if p + 1 >= |z| then Failed(Unfinished)
    else
      var c := z[p + 1];
      if IsNewline(c) then
        if line + 1 >= MAX_INT then Failed(TooManyLines) else Scan(z, LineEnd(z, p + 1), del, buff + "\n", line + 1)
      else if Control(c).Some? then Scan(z, p + 2, del, buff + [Control(c).value], line)
      else if IsDigit(c) then
        var (v, n) := Number(z, p + 2, 2, c as int - '0' as int);
        NumberAhead(z, p + 2, 2, c as int - '0' as int);
        if v > 255 then Failed(EscapeTooLarge) else Scan(z, n, del, buff + [v as char], line)
      else Scan(z, p + 2, del, buff + [c], line)
  }

  /** What the reader does with a backslash. */
  lemma EscapeScanned(z: string, p: nat, del: char, buff: string, line: nat)
    requires buff != "" && p + 1 < |z| && z[p] == '\\' && del != '\\'
    ensures var c := z[p + 1];
      Scan(z, p, del, buff, line) ==
      if IsNewline(c) then
        if line + 1 >= MAX_INT then Failed(TooManyLines) else Scan(z, LineEnd(z, p + 1), del, buff + "\n", line + 1)
      else if Control(c).Some? then Scan(z, p + 2, del, buff + [Control(c).value], line)
      else if IsDigit(c) then
        var (v, n) := Number(z, p + 2, 2, c as int - '0' as int);
        if v > 255 then Failed(EscapeTooLarge) else Scan(z, n, del, buff + [v as char], line)
      else Scan(z, p + 2, del, buff + [c], line)
  {
    hide Number, LineEnd, Control;
  }

  lemma NothingEscaped(z: string, p: nat, del: char, buff: string, line: nat)
    requires buff != "" && p + 1 == |z| && z[p] == '\\' && del != '\\'
    ensures Scan(z, p, del, buff, line) == Scan(z, p + 1, del, buff, line)
  {}

  // ---------- what the reader means ----------

  lemma NumberStep(z: string, p: nat, k: nat, c: nat)
    requires k > 0 && p < |z| && IsDigit(z[p])
    ensures Number(z, p, k, c) == Number(z, p + 1, k - 1, 10 * c + (z[p] as int - '0' as int))
  {}

  /** The digits at `p` that belong to an escape sequence. */
  function DigitsAt(z: string, p: nat, k: nat): (r: string)
    ensures |r| <= k && forall c | c in r :: IsDigit(c)
    decreases k
  {
    if k == 0 || p >= |z| || !IsDigit(z[p]) then "" else [z[p]] + DigitsAt(z, p + 1, k - 1)
  }

  lemma {:induction false} DigitsThere(z: string, p: nat, k: nat)
    ensures var ds := DigitsAt(z, p, k);
      p <= |z| ==> p + |ds| <= |z| && z[p..p + |ds|] == ds && (|ds| < k && p + |ds| < |z| ==> !IsDigit(z[p + |ds|]))
    decreases k
  {
    if k > 0 && p < |z| && IsDigit(z[p]) {
      DigitsThere(z, p + 1, k - 1);
      var ds := DigitsAt(z, p, k);
      assert z[p..p + |ds|] == [z[p]] + z[p + 1..p + |ds|];
    }
  }

  lemma {:induction false} ValueMore(a: string, c: char, b: string)
    ensures a + ([c] + b) == (a + [c]) + b
    ensures Value(a + [c]) == 10 * Value(a) + if Digit(c) then c as int - '0' as int else 0
  {
    assert (a + [c])[..|a|] == a;
  }

  lemma SameDigits(c: char)
    ensures Digit(c) == IsDigit(c) && Newline(c) == IsNewline(c)
  {}

  /** The number that is read is the value of the digits. */
  lemma {:induction false} NumberIsValue(z: string, p: nat, k: nat, a: string)
    ensures Number(z, p, k, Value(a)) == (Value(a + DigitsAt(z, p, k)), p + |DigitsAt(z, p, k)|)
    decreases k
  {
    if k == 0 || p >= |z| || !IsDigit(z[p]) {
      assert a + "" == a;
    } else {
      SameDigits(z[p]);
      NumberStep(z, p, k, Value(a));
      ValueMore(a, z[p], DigitsAt(z, p + 1, k - 1));
      NumberIsValue(z, p + 1, k - 1, a + [z[p]]);
    }
  }

  /** The input from `p` on starts with the text of a piece. */
  predicate PieceAt(z: string, p: nat, e: Piece, del: char) {
    && Allowed(e, del) && p + |Text(e)| <= |z| && z[p..p + |Text(e)|] == Text(e)
    && Longest(e, z[p + |Text(e)|..])
  }

  /** Why the reader stops at `p`: at the delimiter, or with an error. */
  predicate Stops(z: string, p: nat, del: char, line: nat, buff: string, r: Scanned) {
    match r
    case Token(text, next, l) => p < |z| && z[p] == del && text == buff && next == p + 1 && l == line
    case Failed(Unfinished) => p >= |z| || Newline(z[p]) || (z[p] == '\\' && p + 1 == |z|)
    case Failed(EscapeTooLarge) =>
      p + 4 <= |z| && z[p] == '\\' && (forall c | c in z[p + 1..p + 4] :: Digit(c)) && Value(z[p + 1..p + 4]) > 255
    case Failed(TooManyLines) => p + 1 < |z| && z[p] == '\\' && Newline(z[p + 1]) && line + 1 >= MAX_INT
  }

  /** A character that may end a literal; the lexer takes the two quotes for it. */
  predicate Delimiter(del: char) { del != '\\' && !Newline(del) }

  /** The reader takes a piece. */
  lemma ScanPiece(z: string, p: nat, del: char, buff: string, line: nat, e: Piece)
    requires buff != "" && Delimiter(del) && PieceAt(z, p, e, del)
    ensures Scan(z, p, del, buff, line) ==
      if e.Break? && line + 1 >= MAX_INT then Failed(TooManyLines)
      else Scan(z, p + |Text(e)|, del, buff + [Byte(e)], if e.Break? then line + 1 else line)
  {
    var t := Text(e);
    assert z[p] == z[p..p + |t|][0] == t[0];
    if |t| > 1 { assert z[p + 1] == z[p..p + |t|][1] == t[1]; }
    match e
    case Plain(c) =>
    case Letter(c) =>
    case Code(ds) => ScanCode(z, p, del, buff, line, ds);
    case Break(s) => ScanBreak(z, p, del, buff, line, s);
    case Other(c) =>
  }

  lemma ScanNumber(z: string, p: nat, del: char, buff: string, line: nat)
    requires buff != "" && Delimiter(del) && p + 1 < |z| && z[p] == '\\' && IsDigit(z[p + 1])
    ensures var (v, n) := Number(z, p + 2, 2, z[p + 1] as int - '0' as int);
      Scan(z, p, del, buff, line) ==
        if v > 255 then Failed(EscapeTooLarge) else Scan(z, n, del, buff + [v as char], line)
  {
    hide Number;
  }

  /** The number behind a backslash, by its digits. */
  lemma ScanDigits(z: string, p: nat, del: char, buff: string, line: nat)
    requires buff != "" && Delimiter(del) && p + 1 < |z| && z[p] == '\\' && IsDigit(z[p + 1])
    ensures var ds := DigitsAt(z, p + 1, 3);
      && Scan(z, p, del, buff, line) == (
           if Value(ds) > 255 then Failed(EscapeTooLarge)
           else Scan(z, p + 1 + |ds|, del, buff + [Value(ds) as char], line))
  {
    var c := z[p + 1];
    ScanNumber(z, p, del, buff, line);
    OneDigit(c);
    NumberIsValue(z, p + 2, 2, [c]);
    assert DigitsAt(z, p + 1, 3) == [c] + DigitsAt(z, p + 2, 2);
    hide Scan, Number, Value, DigitsAt;
  }

  lemma OneDigit(c: char)
    requires IsDigit(c)
    ensures Value([c]) == c as int - '0' as int
  {
    SameDigits(c);
    assert [c][..0] == "";
  }

  lemma PieceChars(z: string, p: nat, t: string)
    requires p + |t| <= |z| && z[p..p + |t|] == t
    ensures forall i | 0 <= i < |t| :: z[p + i] == t[i]
  {
    forall i | 0 <= i < |t| ensures z[p + i] == t[i] { assert z[p + i] == z[p..p + |t|][i]; }
  }

  lemma ScanCode(z: string, p: nat, del: char, buff: string, line: nat, ds: string)
    requires buff != "" && Delimiter(del) && PieceAt(z, p, Code(ds), del)
    ensures Scan(z, p, del, buff, line) == Scan(z, p + 1 + |ds|, del, buff + [Value(ds) as char], line)
  {
    hide Scan, Value;
    PieceChars(z, p, ['\\'] + ds);
    assert z[p + 0] == '\\';
    forall i | 0 <= i < |ds| ensures z[p + 1 + i] == ds[i] { assert z[p + (i + 1)] == (['\\'] + ds)[i + 1]; }
    assert z[p + 1 + 0] == ds[0];
    SameDigits(z[p + 1]);
    DigitsFrom(z, p + 1, 3, ds);
    ScanDigits(z, p, del, buff, line);
  }

  /** The digits at `p` are those of `ds`, if no further one may belong to them. */
  lemma {:induction false} DigitsFrom(z: string, p: nat, k: nat, ds: string)
    requires |ds| <= k && p + |ds| <= |z| && (forall i | 0 <= i < |ds| :: z[p + i] == ds[i] && Digit(ds[i]))
    requires |ds| < k && p + |ds| < |z| ==> !Digit(z[p + |ds|])
    ensures DigitsAt(z, p, k) == ds
    decreases k
  {
    if ds != "" {
      SameDigits(z[p + 0]);
      forall i | 0 <= i < |ds[1..]| ensures z[p + 1 + i] == ds[1..][i] && Digit(ds[1..][i]) {
        assert z[p + (i + 1)] == ds[i + 1];
      }
      DigitsFrom(z, p + 1, k - 1, ds[1..]);
      assert [ds[0]] + ds[1..] == ds;
    } else if k > 0 && p < |z| {
      SameDigits(z[p]);
    }
  }

  lemma ScanBreak(z: string, p: nat, del: char, buff: string, line: nat, s: string)
    requires buff != "" && Delimiter(del) && PieceAt(z, p, Break(s), del)
    ensures Scan(z, p, del, buff, line) ==
      if line + 1 >= MAX_INT then Failed(TooManyLines) else Scan(z, p + 1 + |s|, del, buff + "\n", line + 1)
  {
    var t := ['\\'] + s;
    PieceChars(z, p, t);
    assert z[p + 0] == t[0] && z[p + 1] == t[1] == s[0];
    if |s| == 2 { assert z[p + 2] == t[2] == s[1]; }
    assert LineEnd(z, p + 1) == p + 1 + |s|;
  }

  lemma Split(z: string, p: nat, a: string, b: string)
    requires p <= |z| && z[p..] == a + b
    ensures p + |a| <= |z| && z[p..p + |a|] == a && z[p + |a|..] == b
  {
    assert z[p..p + |a|] == z[p..][..|a|] && z[p + |a|..] == z[p..][|a|..];
  }

  lemma Join(z: string, p: nat, m: nat, q: nat)
    requires p <= m <= q <= |z|
    ensures z[p..q] == z[p..m] + z[m..q] && z[m..] == z[m..q] + z[q..]
  {}

  lemma Assoc(a: string, b: string, c: string)
    ensures a + (b + c) == (a + b) + c
  {}

  lemma Parts(es: seq<Piece>)
    requires es != []
    ensures TextOf(es) == Text(es[0]) + TextOf(es[1..]) && BytesOf(es) == [Byte(es[0])] + BytesOf(es[1..])
    ensures Breaks(es) == (if es[0].Break? then 1 else 0) + Breaks(es[1..])
  {
    hide Text, Byte;
  }

  lemma LiteralParts(es: seq<Piece>, del: char, rest: string)
    requires es != []
    ensures Literal(es, del, rest) <==>
      Allowed(es[0], del) && Longest(es[0], TextOf(es[1..]) + rest) && Literal(es[1..], del, rest)
  {
    hide Allowed, Longest, TextOf;
  }

  lemma PieceParts(z: string, p: nat, e: Piece, del: char)
    ensures PieceAt(z, p, e, del) <==>
      && Allowed(e, del) && p + |Text(e)| <= |z| && z[p..p + |Text(e)|] == Text(e)
      && Longest(e, z[p + |Text(e)|..])
  {
    hide Allowed, Text, Longest;
  }

  /** The first piece of the input. */
  lemma FirstPiece(z: string, p: nat, del: char, es: seq<Piece>, rest: string)
    requires p <= |z| && es != [] && z[p..] == TextOf(es) + rest && Literal(es, del, rest)
    ensures PieceAt(z, p, es[0], del) && p + |Text(es[0])| <= |z|
    ensures z[p + |Text(es[0])|..] == TextOf(es[1..]) + rest && Literal(es[1..], del, rest)
  {
    Parts(es);
    LiteralParts(es, del, rest);
    hide Text, TextOf, Longest, Allowed, Literal, PieceAt;
    Assoc(Text(es[0]), TextOf(es[1..]), rest);
    Split(z, p, Text(es[0]), TextOf(es[1..]) + rest);
    PieceParts(z, p, es[0], del);
  }

  lemma TailOf(buff: string, c: char)
    requires buff != ""
    ensures (buff + [c])[1..] == buff[1..] + [c]
  {}

  /** Reading the text of pieces gives the bytes that they denote, whatever follows. */
  lemma {:induction false} ScanPieces(z: string, p: nat, del: char, buff: string, line: nat, es: seq<Piece>,
                                      rest: string)
    requires buff != "" && Delimiter(del) && p <= |z| && z[p..] == TextOf(es) + rest && Literal(es, del, rest)
    ensures Scan(z, p, del, buff, line) ==
      if Breaks(es) == 0 || line + Breaks(es) < MAX_INT
      then Scan(z, p + |TextOf(es)|, del, buff + BytesOf(es), line + Breaks(es)) else Failed(TooManyLines)
    decreases |es|
  {
    hide Scan, Byte, Text, Literal, PieceAt;
    if es == [] {
      assert buff + "" == buff;
    } else {
      var e := es[0];
      FirstPiece(z, p, del, es, rest);
      Parts(es);
      hide TextOf, BytesOf, Breaks;
      Assoc(buff, [Byte(e)], BytesOf(es[1..]));
      ScanPiece(z, p, del, buff, line, e);
      ScanPieces(z, p + |Text(e)|, del, buff + [Byte(e)], if e.Break? then line + 1 else line, es[1..], rest);
    }
  }

  lemma PieceInside(z: string, p: nat, e: Piece, del: char)
    requires PieceAt(z, p, e, del)
    ensures p < p + |Text(e)| <= |z| && z[p..p + |Text(e)|] == Text(e)
  {}

  lemma StopsDef(z: string, p: nat, del: char, buff: string, line: nat)
    requires buff != "" && Delimiter(del) && p <= |z|
    requires !Stops(z, p, del, line, buff[1..], Scan(z, p, del, buff, line))
    ensures p < |z| && z[p] != del && !Newline(z[p]) && (z[p] == '\\' ==> p + 1 < |z|)
    ensures z[p] == '\\' && Newline(z[p + 1]) ==> line + 1 < MAX_INT
  {
    if p < |z| { SameDigits(z[p]); }
    if p + 1 < |z| { SameDigits(z[p + 1]); }
    hide Number, LineEnd;
  }

  /** Which piece stands at `p`, if the reader does not stop there. */
  lemma PieceIsThere(z: string, p: nat, del: char, buff: string, line: nat) returns (e: Piece)
    requires buff != "" && Delimiter(del) && p <= |z|
    requires !Stops(z, p, del, line, buff[1..], Scan(z, p, del, buff, line))
    ensures PieceAt(z, p, e, del) && (e.Break? ==> line + 1 < MAX_INT)
  {
    StopsDef(z, p, del, buff, line);
    hide Scan, Stops, Value;
    if z[p] != '\\' {
      e := Plain(z[p]);
      assert z[p..p + 1] == [z[p]];
    } else {
      var c := z[p + 1];
      SameDigits(c);
      assert z[p..p + 2] == ['\\', c];
      if Newline(c) {
        e := BreakIsThere(z, p, del);
      } else if c in "abfnrtv" {
        e := Letter(c);
      } else if Digit(c) {
        CodeFits(z, p, del, buff, line);
        e := CodeIsThere(z, p, del);
      } else {
        e := Other(c);
      }
    }
  }

  lemma CodeFits(z: string, p: nat, del: char, buff: string, line: nat)
    requires buff != "" && Delimiter(del) && p + 1 < |z| && z[p] == '\\' && IsDigit(z[p + 1])
    requires !Stops(z, p, del, line, buff[1..], Scan(z, p, del, buff, line))
    ensures Value(DigitsAt(z, p + 1, 3)) <= 255
  {
    var ds := DigitsAt(z, p + 1, 3);
    ScanDigits(z, p, del, buff, line);
    hide Scan;
    if Value(ds) > 255 {
      DigitsThere(z, p + 1, 3);
      forall x | x in ds ensures Digit(x) { SameDigits(x); }
      if |ds| < 3 { ShortValue(ds); }
      assert false;
    }
  }

  /** A piece that is written with a backslash. */
  lemma Backslashed(z: string, p: nat, e: Piece, t: string, del: char)
    requires p + 1 + |t| <= |z| && z[p] == '\\' && z[p + 1..p + 1 + |t|] == t && Text(e) == ['\\'] + t
    requires Allowed(e, del) && Longest(e, z[p + 1 + |t|..])
    ensures PieceAt(z, p, e, del)
  {
    hide Text, Allowed, Longest, PieceAt;
    PieceParts(z, p, e, del);
    assert z[p..p + 1 + |t|] == ['\\'] + z[p + 1..p + 1 + |t|];
  }

  lemma CodePiece(z: string, p: nat, del: char, ds: string)
    requires p + 1 + |ds| <= |z| && z[p] == '\\' && z[p + 1..p + 1 + |ds|] == ds && Value(ds) <= 255
    requires 1 <= |ds| <= 3 && forall c | c in ds :: Digit(c)
    requires |ds| < 3 && p + 1 + |ds| < |z| ==> !Digit(z[p + 1 + |ds|])
    ensures PieceAt(z, p, Code(ds), del)
  {
    hide Value, Text, Allowed, Longest, PieceAt, Digit;
    CodeAllowed(ds, z[p + 1 + |ds|..], del);
    Backslashed(z, p, Code(ds), ds, del);
  }

  lemma CodeAllowed(ds: string, rest: string, del: char)
    requires Value(ds) <= 255 && 1 <= |ds| <= 3 && forall c | c in ds :: Digit(c)
    requires |ds| < 3 && rest != "" ==> !Digit(rest[0])
    ensures Allowed(Code(ds), del) && Longest(Code(ds), rest) && Text(Code(ds)) == ['\\'] + ds
  {
    hide Value, Digit;
  }

  lemma CodeIsThere(z: string, p: nat, del: char) returns (e: Piece)
    requires p + 1 < |z| && z[p] == '\\' && IsDigit(z[p + 1]) && Value(DigitsAt(z, p + 1, 3)) <= 255
    ensures e == Code(DigitsAt(z, p + 1, 3)) && PieceAt(z, p, e, del)
  {
    var ds := DigitsAt(z, p + 1, 3);
    DigitsThere(z, p + 1, 3);
    assert ds != "";
    hide Value, DigitsAt, PieceAt, Digit;
    forall x | x in ds ensures Digit(x) { SameDigits(x); }
    if p + 1 + |ds| < |z| { SameDigits(z[p + 1 + |ds|]); }
    CodePiece(z, p, del, ds);
    e := Code(ds);
  }

  lemma ShortValue(ds: string)
    requires |ds| < 3
    ensures Value(ds) < 100
  {
    if |ds| == 2 { assert Value(ds[..1]) < 10 by { assert ds[..1][..0] == ""; } }
    if |ds| == 1 { assert Value(ds[..0]) == 0; }
  }

  lemma BreakPiece(z: string, p: nat, del: char, s: string)
    requires p + 1 + |s| <= |z| && z[p] == '\\' && z[p + 1..p + 1 + |s|] == s && s in ["\n", "\r", "\n\r", "\r\n"]
    requires |s| == 1 && p + 2 < |z| && Newline(z[p + 2]) ==> z[p + 2] == s[0]
    ensures PieceAt(z, p, Break(s), del)
  {
    assert Allowed(Break(s), del) && Longest(Break(s), z[p + 1 + |s|..]) && Text(Break(s)) == ['\\'] + s;
    hide Text, Allowed, Longest, PieceAt;
    Backslashed(z, p, Break(s), s, del);
  }

  lemma BreakIsThere(z: string, p: nat, del: char) returns (e: Piece)
    requires p + 1 < |z| && z[p] == '\\' && Newline(z[p + 1])
    ensures e.Break? && PieceAt(z, p, e, del) && p + |Text(e)| == LineEnd(z, p + 1)
  {
    var two := p + 2 < |z| && Newline(z[p + 2]) && z[p + 2] != z[p + 1];
    var n := if two then p + 3 else p + 2;
    var s := z[p + 1..n];
    assert s == if two then [z[p + 1], z[p + 2]] else [z[p + 1]];
    e := Break(s);
    hide PieceAt;
    BreakPiece(z, p, del, s);
  }

  /** The text of pieces from `p` on, and where it ends. */
  ghost predicate LiteralAt(z: string, p: nat, del: char, es: seq<Piece>, q: nat) {
    p <= q <= |z| && q == p + |TextOf(es)| && z[p..q] == TextOf(es) && Literal(es, del, z[q..])
  }

  lemma NoPieces(z: string, p: nat, del: char)
    requires p <= |z|
    ensures LiteralAt(z, p, del, [], p) && BytesOf([]) == "" && Breaks([]) == 0
  {}

  /** A piece before others. */
  lemma PieceBefore(z: string, p: nat, del: char, e: Piece, tail: seq<Piece>, q: nat)
    requires PieceAt(z, p, e, del) && LiteralAt(z, p + |Text(e)|, del, tail, q)
    ensures LiteralAt(z, p, del, [e] + tail, q)
  {
    var es := [e] + tail;
    assert es[1..] == tail && es[0] == e;
    Parts(es);
    LiteralParts(es, del, z[q..]);
    PieceParts(z, p, e, del);
    hide Text, TextOf, Longest, Allowed, Literal, PieceAt;
    Join(z, p, p + |Text(e)|, q);
  }

  lemma {:induction false} ScanMeans(z: string, p: nat, del: char, buff: string, line: nat)
    returns (es: seq<Piece>, q: nat)
    requires buff != "" && Delimiter(del) && p <= |z|
    ensures LiteralAt(z, p, del, es, q)
    ensures Stops(z, q, del, line + Breaks(es), buff[1..] + BytesOf(es), Scan(z, p, del, buff, line))
    decreases |z| - p
  {
    hide Scan, Byte, Stops, Text, TextOf, Literal, LiteralAt, PieceAt;
    NoPieces(z, p, del);
    if Stops(z, p, del, line, buff[1..], Scan(z, p, del, buff, line)) {
      es, q := [], p;
      assert buff[1..] + "" == buff[1..];
    } else {
      var e := PieceIsThere(z, p, del, buff, line);
      ScanPiece(z, p, del, buff, line, e);
      PieceInside(z, p, e, del);
      var tail;
      tail, q := ScanMeans(z, p + |Text(e)|, del, buff + [Byte(e)], if e.Break? then line + 1 else line);
      es := [e] + tail;
      assert es[1..] == tail;
      PieceBefore(z, p, del, e, tail, q);
      Parts(es);
      hide BytesOf, Breaks;
      TailOf(buff, Byte(e));
      Assoc(buff[1..], [Byte(e)], BytesOf(tail));
    }
  }

  /** The number behind the backslash at `p` is a piece. */
  lemma EscapeCode(z: string, p: nat, del: char) returns (e: Piece)
    requires p + 1 < |z| && z[p] == '\\' && IsDigit(z[p + 1])
    requires Number(z, p + 2, 2, z[p + 1] as int - '0' as int).0 <= 255
    ensures PieceAt(z, p, e, del) && e.Code?
    ensures (Byte(e) as int, p + |Text(e)|) == Number(z, p + 2, 2, z[p + 1] as int - '0' as int)
  {
    var c := z[p + 1];
    OneDigit(c);
    NumberIsValue(z, p + 2, 2, [c]);
    assert DigitsAt(z, p + 1, 3) == [c] + DigitsAt(z, p + 2, 2);
    hide Value, Number, DigitsAt, PieceAt;
    e := CodeIsThere(z, p, del);
    CodeByte(e.digits);
    hide Byte, Text;
  }

  /** What has been read behind the backslash at `p - 1` is a piece of the literal. */
  ghost predicate EscapeRead(z: string, p: nat, del: char, line: nat, buff: string, e: Piece, next: nat, line2: nat,
                             buff2: string)
    requires p > 0
  {
    && PieceAt(z, p - 1, e, del) && next == p - 1 + |Text(e)| && buff2 == buff + [Byte(e)]
    && line2 == line + if e.Break? then 1 else 0
  }

  lemma EscapeIsRead(z: string, p: nat, del: char, line: nat, buff: string, e: Piece, next: nat,
                     line2: nat, buff2: string)
    requires p > 0 && PieceAt(z, p - 1, e, del) && next == p - 1 + |Text(e)| && buff2 == buff + [Byte(e)]
    requires line2 == line + if e.Break? then 1 else 0
    ensures EscapeRead(z, p, del, line, buff, e, next, line2, buff2)
  {}

  lemma CodeByte(ds: string)
    requires Value(ds) <= 255
    ensures Byte(Code(ds)) as int == Value(ds) && |Text(Code(ds))| == 1 + |ds|
  {
    hide Value;
  }

  lemma LetterText(c: char)
    ensures |Text(Letter(c))| == 2 && |Text(Other(c))| == 2 && Byte(Other(c)) == c
  {}

  lemma BreakByte(e: Piece)
    requires e.Break?
    ensures Byte(e) == '\n'
  {}

  lemma LetterIsThere(z: string, p: nat, del: char)
    requires p + 1 < |z| && z[p] == '\\' && Control(z[p + 1]).Some? && !IsNewline(z[p + 1])
    ensures PieceAt(z, p, Letter(z[p + 1]), del) && Byte(Letter(z[p + 1])) == Control(z[p + 1]).value
  {
    assert z[p..p + 2] == ['\\', z[p + 1]];
  }

  lemma OtherIsThere(z: string, p: nat, del: char)
    requires p + 1 < |z| && z[p] == '\\' && Control(z[p + 1]).None? && !IsNewline(z[p + 1]) && !IsDigit(z[p + 1])
    ensures PieceAt(z, p, Other(z[p + 1]), del)
  {
    SameDigits(z[p + 1]);
    assert z[p..p + 2] == ['\\', z[p + 1]];
  }

  /** The result of the reader on the input behind the delimiter at `p`: the pieces that stand there, up
      to `q`, and what stops it. */
  ghost predicate ReadAs(z: string, p: nat, del: char, line: nat, es: seq<Piece>, q: nat, r: Scanned) {
    LiteralAt(z, p + 1, del, es, q) && Stops(z, q, del, line + Breaks(es), BytesOf(es), r)
  }

  /** The part of `LexState` that the reader uses; the current character is the one at `p`, and the
      input ends there when `p` is its length. */
  class LexState {
    const z: string
    var p: nat
    var linenumber: nat
    var buff: string

    constructor (z: string, p: nat, line: nat)
      ensures this.z == z && this.p == p && linenumber == line && buff == ""
    {
      this.z, this.p, linenumber, buff := z, p, line, "";
    }

    predicate Is(c: char)
      reads this
    {
      p < |z| && z[p] == c
    }

    predicate AtNewline()
      reads this
    {
      p < |z| && IsNewline(z[p])
    }

    method SaveAndNext()
      requires p < |z|
      modifies `p, `buff
      ensures buff == old(buff) + [z[old(p)]] && p == old(p) + 1
    {
      buff := buff + [z[p]];
      p := p + 1;
    }

    /** `inclinenumber` */
    method IncLineNumber() returns (ok: bool)
      requires AtNewline()
      modifies `p, `linenumber
      ensures p == LineEnd(z, old(p)) && linenumber == old(linenumber) + 1 && ok == (linenumber < MAX_INT)
    {
      var first := z[p];
      p := p + 1;
      if AtNewline() && z[p] != first { p := p + 1; }
      linenumber := linenumber + 1;
      ok := linenumber < MAX_INT;
    }

    /** The digits of an escape sequence. */
    method ReadNumber() returns (c: nat)
      requires p < |z| && IsDigit(z[p])
      modifies `p
      ensures (c, p) == Number(z, old(p) + 1, 2, z[old(p)] as int - '0' as int)
    {
      c := z[p] as int - '0' as int;
      p := p + 1;
      var i := 1;
      while i < 3 && p < |z| && IsDigit(z[p])
        invariant 1 <= i <= 3
        invariant Number(z, p, 3 - i, c) == Number(z, old(p) + 1, 2, z[old(p)] as int - '0' as int)
      {
        c := 10 * c + (z[p] as int - '0' as int);
        p := p + 1;
        i := i + 1;
      }
    }

    /** What follows a backslash: a piece of the literal, unless the input ends there. */
    method ReadEscape(ghost del: char) returns (err: Option<LexError>)
      requires p > 0 && p <= |z| && z[p - 1] == '\\' && del != '\\' && buff != ""
      modifies `p, `linenumber, `buff
      ensures match err
        case Some(x) => Scan(z, old(p) - 1, del, old(buff), old(linenumber)) == Failed(x)
        case None =>
          && p >= old(p) && buff != "" && buff[0] == old(buff[0])
          && Scan(z, old(p) - 1, del, old(buff), old(linenumber)) == Scan(z, p, del, buff, linenumber)
      ensures err.None? && old(p) < |z| ==>
        exists e :: EscapeRead(z, old(p), del, old(linenumber), old(buff), e, p, linenumber, buff)
    {
      hide PieceAt, Text, Byte, Value, EscapeRead, Scan, Number;
      err := None;
      if p >= |z| {
        NothingEscaped(z, p - 1, del, buff, linenumber);
        return;
      }
      EscapeScanned(z, p - 1, del, buff, linenumber);
      ghost var p0, line0, buff0 := p, linenumber, buff;
      ghost var e;
      var c := z[p];
      SameDigits(c);
      if IsNewline(c) {
        e := BreakIsThere(z, p - 1, del);
        buff := buff + "\n";
        var ok := IncLineNumber();
        if !ok { err := Some(TooManyLines); }
        BreakByte(e);
      } else if Control(c).Some? {
        LetterIsThere(z, p - 1, del);
        e := Letter(c);
        buff := buff + [Control(c).value];
        p := p + 1;
      } else if IsDigit(c) {
        NumberAhead(z, p + 1, 2, c as int - '0' as int);
        var v := ReadNumber();
        if v > 255 { return Some(EscapeTooLarge); }
        e := EscapeCode(z, p0 - 1, del);
        buff := buff + [v as char];
      } else {
        OtherIsThere(z, p - 1, del);
        e := Other(c);
        SaveAndNext();
      }
      assert |Text(Letter(c))| == 2 == |Text(Other(c))| && Byte(Other(c)) == c by { LetterText(c); }
      if err.None? { EscapeIsRead(z, p0, del, line0, buff0, e, p, linenumber, buff); }
    }

    /** `read_string` */
    method ReadString(del: char) returns (r: Scanned)
      requires Is(del) && Delimiter(del) && buff == ""
      modifies `p, `linenumber, `buff
      ensures r == Scan(z, old(p) + 1, del, [del], old(linenumber))
      ensures exists es, q :: ReadAs(z, old(p), del, old(linenumber), es, q, r)
      ensures r.Token? ==> p == r.next && linenumber == r.line
    {
      hide Stops, LiteralAt, BytesOf, Breaks, PieceAt, Text, Byte;
      SaveAndNext();
      assert buff == [del];
      ghost var es, q := ScanMeans(z, p, del, buff, linenumber);
      assert [del][1..] + BytesOf(es) == BytesOf(es);
      assert ReadAs(z, old(p), del, linenumber, es, q, Scan(z, p, del, buff, linenumber));
      hide ReadAs;
      while !Is(del)
        invariant buff != "" && Scan(z, p, del, buff, linenumber) == Scan(z, old(p) + 1, del, [del], old(linenumber))
        decreases |z| - p
      {
        if p >= |z| || AtNewline() { return Failed(Unfinished); }
        if Is('\\') {
          p := p + 1;
          var err := ReadEscape(del);
          if err.Some? { return Failed(err.value); }
        } else {
          SaveAndNext();
        }
      }
      assert (buff + [del])[1..|buff|] == buff[1..];
      SaveAndNext();
      r := Token(buff[1..|buff| - 1], p, linenumber);
    }
  }

  // ---------- the round trip ----------

  /** How many lines the quoted text has, besides the one it starts in. */
  function Lines(s: string): nat { if s == "" then 0 else Lines(s[1..]) + if s[0] == '\n' then 1 else 0 }

  /** At `p` the input goes on with `t`. */
  predicate Goes(z: string, p: nat, t: string) { p + |t| <= |z| && z[p..p + |t|] == t }

  lemma GoesParts(z: string, p: nat, a: string, b: string)
    requires Goes(z, p, a + b)
    ensures Goes(z, p, a) && Goes(z, p + |a|, b)
    ensures a != "" ==> p < |z| && z[p] == a[0]
    ensures |a| > 1 ==> z[p + 1] == a[1]
  {
    assert z[p..p + |a| + |b|][..|a|] == a && z[p..p + |a| + |b|][|a|..] == b;
    assert forall i | 0 <= i < |a| :: z[p + i] == (a + b)[i];
  }

  /** Reading what was written for one character. */
  lemma ScanChar(z: string, p: nat, c: char, t: string, buff: string, line: nat)
    requires buff != "" && Goes(z, p, QuoteChar(c) + t) && t != "" && (c == '\n' ==> !IsNewline(t[0]))
    ensures Scan(z, p, '"', buff, line) ==
      if c == '\n' && line + 1 >= MAX_INT then Failed(TooManyLines)
      else Scan(z, p + |QuoteChar(c)|, '"', buff + [c], if c == '\n' then line + 1 else line)
  {
    GoesParts(z, p, QuoteChar(c), t);
    GoesParts(z, p + |QuoteChar(c)|, t, "") by { assert t + "" == t; }
    if c == '\0' {
      assert z[p..p + 4] == "\\000";
      assert z[p] == z[p..p + 4][0] && z[p + 1] == z[p..p + 4][1] && z[p + 2] == z[p..p + 4][2]
          && z[p + 3] == z[p..p + 4][3];
      assert Number(z, p + 4, 0, 0) == (0, p + 4);
      assert Number(z, p + 3, 1, 0) == (0, p + 4);
      assert Number(z, p + 2, 2, 0) == (0, p + 4);
    }
  }

  lemma QuoteStart(s: string)
    ensures QuoteAll(s) + "\"" != "" && !IsNewline((QuoteAll(s) + "\"")[0])
  {}

  lemma ScanClose(z: string, p: nat, buff: string, line: nat)
    requires buff != "" && Goes(z, p, "\"")
    ensures Scan(z, p, '"', buff, line) == Token(buff[1..], p + 1, line)
  {
    GoesParts(z, p, "\"", "") by { assert "\"" + "" == "\""; }
  }

  /** What was quoted is read back: the same bytes, whatever follows, and the reader stops right
      behind the closing quote. It fails only when the chunk gets too many lines. */
  lemma {:induction false} ReadsBack(z: string, p: nat, s: string, buff: string, line: nat)
    requires buff != "" && Goes(z, p, QuoteAll(s) + "\"")
    ensures Scan(z, p, '"', buff, line) ==
      if Lines(s) == 0 || line + Lines(s) < MAX_INT then Token(buff[1..] + s, p + |QuoteAll(s)| + 1, line + Lines(s))
          else Failed(TooManyLines)
    decreases |s|
  {
    hide Scan, QuoteChar, Goes, IsNewline;
    if s == "" {
      assert QuoteAll(s) + "\"" == "\"";
      ScanClose(z, p, buff, line);
    } else {
      var c, t := s[0], QuoteAll(s[1..]) + "\"";
      assert QuoteAll(s) + "\"" == QuoteChar(c) + t;
      QuoteStart(s[1..]);
      ScanChar(z, p, c, t, buff, line);
      GoesParts(z, p, QuoteChar(c), t);
      ReadsBack(z, p + |QuoteChar(c)|, s[1..], buff + [c], if c == '\n' then line + 1 else line);
      assert (buff + [c])[1..] + s[1..] == buff[1..] + s;
    }
  }

  lemma {:induction false} LineEnds(n: nat)
    ensures Lines(seq(n, _ => '\n')) == n
  {
    if n > 0 {
      LineEnds(n - 1);
      assert seq(n, _ => '\n')[1..] == seq(n - 1, _ => '\n');
    }
  }

  /** So many line ends, quoted at the start of a chunk, are not read back. */
  lemma NotReadBack()
    ensures var s := seq(MAX_INT - 1, _ => '\n');
      Scan("\"" + (QuoteAll(s) + "\""), 1, '"', "\"", 1) == Failed(TooManyLines)
  {
    var s := seq(MAX_INT - 1, _ => '\n');
    LineEnds(MAX_INT - 1);
    hide Scan, QuoteAll, Lines;
    var z := "\"" + (QuoteAll(s) + "\"");
    assert z[1..1 + |QuoteAll(s) + "\""|] == QuoteAll(s) + "\"";
    ReadsBack(z, 1, s, "\"", 1);
  }

  /** A literal between two delimiters, wherever it stands, is read as the bytes of its pieces. */
  method ReadPieces(es: seq<Piece>, del: char, before: string, after: string, line: nat) returns (r: Scanned)
    requires Delimiter(del) && Literal(es, del, [del] + after)
    ensures r == if Breaks(es) == 0 || line + Breaks(es) < MAX_INT
                 then Token(BytesOf(es), |before| + |TextOf(es)| + 2, line + Breaks(es)) else Failed(TooManyLines)
  {
    hide Literal, TextOf, BytesOf, Breaks, Stops, LiteralAt;
    var q := TextOf(es) + ([del] + after);
    var z := before + ([del] + q);
    assert z[|before|..] == [del] + q && z[|before| + 1..] == q;
    var p := |before| + 1 + |TextOf(es)|;
    assert z[p] == q[|TextOf(es)|] == del;
    ScanPieces(z, |before| + 1, del, [del], line, es, [del] + after);
    assert ([del] + BytesOf(es))[1..] == BytesOf(es);
    var ls := new LexState(z, |before|, line);
    r := ls.ReadString(del);
  }

  /** `%q` and then the lexer, one after the other. */
  method QuoteAndRead(s: string, before: string, after: string, line: nat) returns (r: Scanned)
    ensures r == if Lines(s) == 0 || line + Lines(s) < MAX_INT then
        Token(s, |before| + |QuoteAll(s)| + 2, line + Lines(s))
                 else Failed(TooManyLines)
  {
    hide Scan, QuoteAll, Lines;
    var text := AddQuoted(before, s);
    var z := text + after;
    var ls := new LexState(z, |before|, line);
    ghost var q := "\"" + (QuoteAll(s) + "\"");
    assert z == before + q + after;
    assert z[|before|..|before| + |q|] == q;
    GoesParts(z, |before|, "\"", QuoteAll(s) + "\"");
    ReadsBack(z, |before| + 1, s, "\"", line);
    r := ls.ReadString('"');
  }

  // ---------- quoted text as a literal ----------

  /** The piece that a character is written as. */
  function PieceOf(c: char): Piece {
    if c == '\0' then Code("000") else if c == '\r' then Letter('r') else if c == '\n' then Break("\n")
    else if c == '"' || c == '\\' then Other(c) else Plain(c)
  }

  function PiecesOf(s: string): seq<Piece> { if s == "" then [] else [PieceOf(s[0])] + PiecesOf(s[1..]) }

  lemma PieceIs(c: char)
    ensures Text(PieceOf(c)) == QuoteChar(c) && Byte(PieceOf(c)) == c && Allowed(PieceOf(c), '"')
  {
    if c == '\0' { ThreeZeros(); }
  }

  lemma ThreeZeros()
    ensures Value("000") == 0
  {
    assert "000"[..2] == "00" && "00"[..1] == "0" && "0"[..0] == "";
    assert Value("") == 0 && Value("0") == 0 && Value("00") == 0;
  }

  /** What `%q` writes is the literal whose pieces stand for the characters one by one. */
  lemma {:induction false} QuotedPieces(s: string)
    ensures TextOf(PiecesOf(s)) == QuoteAll(s) && BytesOf(PiecesOf(s)) == s
    ensures forall e | e in PiecesOf(s) :: Allowed(e, '"')
    decreases |s|
  {
    hide PieceOf, Text, Byte, QuoteChar, Allowed;
    if s != "" {
      PieceIs(s[0]);
      QuotedPieces(s[1..]);
      assert PiecesOf(s)[1..] == PiecesOf(s[1..]);
    }
  }
}
