/** JSON texts (`json.c`): trees, how they are written, and the lexer. Characters are bytes; a NUL ends
    a text. */
module JsonText {

  datatype Kind = KString | KNumber | KObject | KArray | KTrue | KFalse | KNull

  /** A label is a string with one value below it. */
  datatype Tree = Tree(kind: Kind, text: string, kids: seq<Tree>)

  datatype Option<T> = None | Some(value: T)

  // ---------- which texts are strings and numbers ----------

  predicate IsDigit(c: char) { '0' <= c <= '9' }

  predicate IsHex(c: char) { IsDigit(c) || 'a' <= c <= 'f' || 'A' <= c <= 'F' }

  predicate IsEscape(c: char) {
    c == '\\' || c == '"' || c == '/' || c == 'b' || c == 'f' || c == 'n' || c == 'r' || c == 't'
  }

  /** The text of a string between its quotes, with escape sequences. */
  predicate StringText(s: string)
    decreases |s|
  {
    if s == "" then true
    else if s[0] == '"' || s[0] == '\0' then false
    else if s[0] != '\\' then StringText(s[1..])
    else if |s| < 2 then false
    else if s[1] == 'u' then |s| >= 6 && IsHex(s[2]) && IsHex(s[3]) && IsHex(s[4]) && IsHex(s[5]) && StringText(s[6..])
    else IsEscape(s[1]) && StringText(s[2..])
  }

  /** Digits, and nothing else. */
  predicate Digits(s: string)
    decreases |s|
  {
    s == "" || (IsDigit(s[0]) && Digits(s[1..]))
  }

  /** The exponent of a number. */
  predicate Exponent(s: string) {
    && |s| >= 2 && (s[0] == 'e' || s[0] == 'E')
    && if s[1] == '+' || s[1] == '-' then |s| >= 3 && Digits(s[2..]) else Digits(s[1..])
  }

  /** The digits of a fraction, and what may follow them. */
  predicate FractionDigits(s: string)
    decreases |s|
  {
    s == "" || (IsDigit(s[0]) && FractionDigits(s[1..])) || Exponent(s)
  }

  predicate AfterInt(s: string) {
    s == "" || (s[0] == '.' && |s| >= 2 && IsDigit(s[1]) && FractionDigits(s[2..])) || Exponent(s)
  }

  predicate IntDigits(s: string)
    decreases |s|
  {
    (s != "" && IsDigit(s[0]) && IntDigits(s[1..])) || AfterInt(s)
  }

  /** The grammar of numbers in section 6 of RFC 8259. */
  predicate NumberText(s: string) {
    var n := if s != "" && s[0] == '-' then s[1..] else s;
    n != "" && if n[0] == '0' then AfterInt(n[1..]) else '1' <= n[0] <= '9' && IntDigits(n[1..])
  }

  // ---------- trees and how they are written ----------

  /** A value, or a label with its value. */
  predicate WellFormed(t: Tree, isLabel: bool)
    decreases t
  {
    match t.kind
    case KString => StringText(t.text) && if isLabel then |t.kids| == 1 && WellFormed(t.kids[0], false)
        else t.kids == []
    case KNumber => !isLabel && NumberText(t.text) && t.kids == []
    case KObject => !isLabel && t.text == "" && forall k | k in t.kids :: WellFormed(k, true)
    case KArray => !isLabel && t.text == "" && forall k | k in t.kids :: WellFormed(k, false)
    case _ => !isLabel && t.text == "" && t.kids == []
  }

  /** What is written when a value is opened. */
  function OpenText(t: Tree): string {
    match t.kind
    case KString => "\"" + t.text + "\"" + if t.kids == [] then "" else ":"
    case KNumber => t.text
    case KObject => "{"
    case KArray => "["
    case KTrue => "true"
    case KFalse => "false"
    case KNull => "null"
  }

  function CloseText(t: Tree): string { match t.kind case KObject => "}" case KArray => "]" case _ => "" }

  function Print(t: Tree): string
    decreases t
  {
    OpenText(t) + PrintAll(t.kids, false) + CloseText(t)
  }

  /** The trees, with commas between them, and before them if some came before. */
  function PrintAll(ts: seq<Tree>, more: bool): string
    decreases ts
  {
    if ts == [] then "" else (if more then "," else "") + Print(ts[0]) + PrintAll(ts[1..], true)
  }

  // ---------- escaping ----------

  function EscapeChar(c: char): string {
    if c == '\\' then "\\\\" else if c == '"' then "\\\"" else if c == '/' then "\\/"
    else if c == 8 as char then "\\b" else if c == 12 as char then "\\f"
    else if c == '\n' then "\\n" else if c == '\r' then "\\r" else if c == '\t' then "\\t"
    else [c]
  }

  function EscapeAll(s: string): string { if s == "" then "" else EscapeChar(s[0]) + EscapeAll(s[1..]) }

  lemma {:induction false} EscapeMore(s: string, c: char)
    ensures EscapeAll(s + [c]) == EscapeAll(s) + EscapeChar(c)
  {
    if s == "" {
      assert s + [c] == [c] && EscapeAll([c]) == EscapeChar(c) + EscapeAll([]);
    } else {
      assert (s + [c])[1..] == s[1..] + [c];
      EscapeMore(s[1..], c);
    }
  }

  /** `json_escape` */
  method Escape(text: string) returns (r: string)
    ensures r == EscapeAll(text)
  {
    hide EscapeAll;
    r := "";
    assert EscapeAll("") == "" by { NothingEscaped(); }
    for i := 0 to |text|
      invariant r == EscapeAll(text[..i])
    {
      EscapeMore(text[..i], text[i]);
      assert text[..i + 1] == text[..i] + [text[i]];
      r := r + EscapeChar(text[i]);
    }
    assert text[..|text|] == text;
  }

  lemma NothingEscaped()
    ensures EscapeAll("") == ""
  {}

  /** What `json_escape` makes of any C string is the text of a string. */
  lemma {:induction false} EscapedIsText(s: string)
    requires '\0' !in s
    ensures StringText(EscapeAll(s))
    decreases |s|
  {
    if s != "" {
      EscapedIsText(s[1..]);
      var e, r := EscapeChar(s[0]), EscapeAll(s[1..]);
      assert (e + r)[|e|..] == r;
    }
  }

  /** Different strings have different escaped texts: nothing is lost. */
  lemma {:induction false} EscapeInjective(a: string, b: string)
    requires EscapeAll(a) == EscapeAll(b)
    ensures a == b
    decreases |a|
  {
    if a != "" && b != "" {
      var x, y := EscapeChar(a[0]), EscapeChar(b[0]);
      assert x[0] == EscapeAll(a)[0] && y[0] == EscapeAll(b)[0];
      if |x| == 2 { assert x[1] == EscapeAll(a)[1]; }
      if |y| == 2 { assert y[1] == EscapeAll(b)[1]; }
      assert x == y && a[0] == b[0];
      assert EscapeAll(a)[|x|..] == EscapeAll(a[1..]) && EscapeAll(b)[|x|..] == EscapeAll(b[1..]);
      EscapeInjective(a[1..], b[1..]);
    }
  }
}
