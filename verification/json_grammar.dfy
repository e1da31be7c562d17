/** The texts of strings and numbers by the grammar of RFC 8259, and what escaped text stands for. */
module JsonGrammar {
  import opened JsonText

  // ---------- strings ----------

  /** A character that stands for itself, a backslash with a letter, or one with four digits. */
  datatype Unit = Plain(c: char) | Letter(c: char) | Hex(digits: string)

  predicate HexDigit(c: char) { c in "0123456789abcdefABCDEF" }

  /** The unescaped characters and the escapes of section 7; control characters are let pass. */
  predicate Legal(u: Unit) {
    match u
    case Plain(c) => c != '"' && c != '\\' && c != '\0'
    case Letter(c) => c in "\"\\/bfnrt"
    case Hex(ds) => |ds| == 4 && forall d | d in ds :: HexDigit(d)
  }

  function UnitText(u: Unit): string {
    match u case Plain(c) => [c] case Letter(c) => ['\\', c] case Hex(ds) => "\\u" + ds
  }

  function UnitsText(us: seq<Unit>): string { if us == [] then "" else UnitText(us[0]) + UnitsText(us[1..]) }

  lemma HexIs(c: char)
    ensures HexDigit(c) == IsHex(c)
  {
    assert "0123456789abcdefABCDEF" == "0123456789" + "abcdef" + "ABCDEF";
    InRange("0123456789", '0', c);
    InRange("abcdef", 'a', c);
    InRange("ABCDEF", 'A', c);
  }

  lemma InRange(t: string, lo: char, c: char)
    requires forall i | 0 <= i < |t| :: t[i] as int == lo as int + i
    ensures c in t <==> lo as int <= c as int < lo as int + |t|
  {
    if lo as int <= c as int < lo as int + |t| { assert t[c as int - lo as int] == c; }
  }

  lemma UnitIsText(u: Unit, rest: string)
    requires Legal(u)
    ensures StringText(UnitText(u) + rest) == StringText(rest)
  {
    var t := UnitText(u) + rest;
    match u
    case Plain(c) => assert t[0] == c && t[1..] == rest;
    case Letter(c) => assert t[0] == '\\' && t[1] == c && t[2..] == rest;
    case Hex(ds) =>
      assert t[0] == '\\' && t[1] == 'u' && t[6..] == rest;
      assert t[2] == ds[0] && t[3] == ds[1] && t[4] == ds[2] && t[5] == ds[3];
      assert ds[0] in ds && ds[1] in ds && ds[2] in ds && ds[3] in ds;
      HexIs(ds[0]);
      HexIs(ds[1]);
      HexIs(ds[2]);
      HexIs(ds[3]);
  }

  lemma {:induction false} UnitsAreText(us: seq<Unit>)
    requires forall u | u in us :: Legal(u)
    ensures StringText(UnitsText(us))
    decreases |us|
  {
    hide Legal, UnitText;
    if us != [] {
      assert us[0] in us;
      UnitsAreText(us[1..]);
      UnitIsText(us[0], UnitsText(us[1..]));
    }
  }

  lemma FirstUnit(s: string) returns (u: Unit)
    requires s != "" && StringText(s)
    ensures Legal(u) && |UnitText(u)| <= |s| && s[..|UnitText(u)|] == UnitText(u) && StringText(s[|UnitText(u)|..])
  {
    if s[0] != '\\' {
      u := Plain(s[0]);
    } else if s[1] == 'u' {
      u := Hex(s[2..6]);
      forall d | d in s[2..6] ensures HexDigit(d) {
        var i :| 0 <= i < 4 && s[2..6][i] == d;
        assert s[2 + i] == d;
        HexIs(d);
      }
      assert s[..6] == "\\u" + s[2..6];
    } else {
      u := Letter(s[1]);
    }
  }

  lemma {:induction false} TextHasUnits(s: string) returns (us: seq<Unit>)
    requires StringText(s)
    ensures (forall u | u in us :: Legal(u)) && UnitsText(us) == s
    decreases |s|
  {
    hide StringText, Legal;
    us := [];
    if s != "" {
      var u := FirstUnit(s);
      var rest := TextHasUnits(s[|UnitText(u)|..]);
      assert s == s[..|UnitText(u)|] + s[|UnitText(u)|..];
      us := [u] + rest;
      assert us[1..] == rest;
    }
  }

  /** The text of a string is one of the grammar. */
  lemma StringGrammar(s: string)
    ensures StringText(s) <==> exists us :: (forall u | u in us :: Legal(u)) && UnitsText(us) == s
  {
    hide StringText, Legal, UnitsText;
    if StringText(s) { var us := TextHasUnits(s); }
    if us :| (forall u | u in us :: Legal(u)) && UnitsText(us) == s { UnitsAreText(us); }
  }

  // ---------- numbers ----------

  predicate AllDigits(s: string) { forall c | c in s :: c in "0123456789" }

  /** Section 6: zero, or digits that do not start with it. */
  predicate IntPart(s: string) { AllDigits(s) && s != "" && (s[0] == '0' ==> |s| == 1) }

  predicate FractionPart(s: string) { s == "" || (|s| >= 2 && s[0] == '.' && AllDigits(s[1..])) }

  predicate ExponentPart(s: string) {
    s == "" || (s[0] in "eE" && var d := if |s| > 1 && s[1] in "+-" then s[2..] else s[1..]; d != "" && AllDigits(d))
  }

  predicate NumberOf(s: string, sign: string, a: string, b: string, c: string) {
    (sign == "" || sign == "-") && IntPart(a) && FractionPart(b) && ExponentPart(c) && s == sign + a + b + c
  }

  lemma DigitIs(c: char)
    ensures c in "0123456789" <==> IsDigit(c)
  {
    InRange("0123456789", '0', c);
  }

  lemma {:induction false} DigitsAre(s: string)
    ensures Digits(s) == AllDigits(s)
    decreases |s|
  {
    if s != "" {
      DigitIs(s[0]);
      DigitsAre(s[1..]);
      assert s == [s[0]] + s[1..];
    }
  }

  lemma ExponentIs(s: string)
    ensures Exponent(s) <==> s != "" && ExponentPart(s)
  {
    if |s| >= 2 {
      DigitsAre(s[1..]);
      DigitsAre(s[2..]);
    }
  }

  /** Where the digits of a text end. */
  function DigitCount(s: string): (n: nat)
    ensures n <= |s|
  {
    if s == "" || !IsDigit(s[0]) then 0 else 1 + DigitCount(s[1..])
  }

  lemma {:induction false} DigitsFirst(s: string)
    ensures AllDigits(s[..DigitCount(s)]) && (DigitCount(s) < |s| ==> !IsDigit(s[DigitCount(s)]))
    decreases |s|
  {
    if s != "" && IsDigit(s[0]) {
      DigitsFirst(s[1..]);
      DigitIs(s[0]);
      assert s[..DigitCount(s)] == [s[0]] + s[1..][..DigitCount(s[1..])];
    }
  }

  lemma NoDigitExponent(s: string)
    requires Exponent(s)
    ensures !IsDigit(s[0]) && s[0] != '.'
  {}

  lemma {:induction false} FractionIs(s: string)
    ensures FractionDigits(s) <==> ExponentPart(s[DigitCount(s)..])
    decreases |s|
  {
    ExponentIs(s);
    if s == "" {
    } else if IsDigit(s[0]) {
      FractionIs(s[1..]);
      assert s[DigitCount(s)..] == s[1..][DigitCount(s[1..])..];
      if Exponent(s) { NoDigitExponent(s); }
    } else {
      assert s[DigitCount(s)..] == s;
    }
  }

  /** What follows the digits before a fraction. */
  predicate TailOf(s: string) {
    ExponentPart(s) || (|s| >= 2 && s[0] == '.' && IsDigit(s[1]) && ExponentPart(s[1 + DigitCount(s[1..])..]))
  }

  lemma TailIs(s: string)
    ensures AfterInt(s) == TailOf(s)
  {
    ExponentIs(s);
    if |s| >= 2 && s[0] == '.' && IsDigit(s[1]) {
      FractionIs(s[2..]);
      assert s[1..][1..] == s[2..] && s[1..][0] == s[1];
      assert s[1 + DigitCount(s[1..])..] == s[2..][DigitCount(s[2..])..];
    }
  }

  lemma {:induction false} IntIs(s: string)
    ensures IntDigits(s) <==> TailOf(s[DigitCount(s)..])
    decreases |s|
  {
    TailIs(s);
    if s != "" && IsDigit(s[0]) {
      IntIs(s[1..]);
      assert s[DigitCount(s)..] == s[1..][DigitCount(s[1..])..];
      if AfterInt(s) { AfterNoDigit(s); }
    } else {
      assert s[DigitCount(s)..] == s;
    }
  }

  lemma AfterNoDigit(s: string)
    requires AfterInt(s) && s != ""
    ensures !IsDigit(s[0])
  {}

  // ---------- a number has the parts of the grammar ----------

  lemma TailParts(s: string) returns (b: string, c: string)
    requires TailOf(s)
    ensures FractionPart(b) && ExponentPart(c) && s == b + c
  {
    if ExponentPart(s) {
      b, c := "", s;
    } else {
      var n := 1 + DigitCount(s[1..]);
      DigitsFirst(s[1..]);
      b, c := s[..n], s[n..];
      assert b[1..] == s[1..][..n - 1] && b[0] == '.';
      assert DigitCount(s[1..]) >= 1;
    }
  }

  lemma {:induction false} CountOf(d: string, rest: string)
    requires AllDigits(d) && (rest != "" ==> !IsDigit(rest[0]))
    ensures DigitCount(d + rest) == |d|
    decreases |d|
  {
    var s := d + rest;
    if d == "" {
      assert s == rest;
    } else {
      assert d[0] in d;
      DigitIs(d[0]);
      assert s[0] == d[0] && s[1..] == d[1..] + rest;
      CountOf(d[1..], rest);
    }
  }

  lemma ExponentNoDigit(c: string)
    requires ExponentPart(c)
    ensures c != "" ==> !IsDigit(c[0]) && c[0] != '.'
  {}

  lemma PartsTail(b: string, c: string)
    requires FractionPart(b) && ExponentPart(c)
    ensures TailOf(b + c) && (b + c != "" ==> !IsDigit((b + c)[0]))
  {
    var s := b + c;
    ExponentNoDigit(c);
    if b == "" {
      assert s == c;
    } else {
      assert s[0] == '.' && s[1..] == b[1..] + c;
      CountOf(b[1..], c);
      assert s[1] == b[1] && b[1] == b[1..][0] && b[1..][0] in b[1..];
      DigitIs(s[1]);
      assert s[|b|..] == c;
    }
  }

  /** A number is one of the grammar. */
  lemma NumberGrammar(s: string)
    ensures NumberText(s) <==> exists sign, a, b, c :: NumberOf(s, sign, a, b, c)
  {
    if NumberText(s) { var sign, a, b, c := NumberHasParts(s); }
    if sign, a, b, c :| NumberOf(s, sign, a, b, c) { PartsAreNumber(s, sign, a, b, c); }
  }

  /** A number without its sign. */
  predicate Unsigned(n: string) {
    n != "" && if n[0] == '0' then AfterInt(n[1..]) else '1' <= n[0] <= '9' && IntDigits(n[1..])
  }

  lemma OneDigit(c: char, ds: string)
    requires IsDigit(c) && AllDigits(ds) && (c == '0' ==> ds == "")
    ensures IntPart([c] + ds)
  {
    DigitIs(c);
  }

  lemma DigitsAndTail(r: string) returns (d: string, b: string, c: string)
    requires IntDigits(r)
    ensures AllDigits(d) && FractionPart(b) && ExponentPart(c) && r == d + (b + c)
  {
    IntIs(r);
    DigitsFirst(r);
    hide IntDigits, TailOf, ExponentPart, FractionPart, AllDigits;
    d := r[..DigitCount(r)];
    b, c := TailParts(r[DigitCount(r)..]);
  }

  lemma UnsignedParts(n: string) returns (a: string, b: string, c: string)
    requires Unsigned(n)
    ensures IntPart(a) && FractionPart(b) && ExponentPart(c) && n == a + b + c
  {
    hide AfterInt, IntDigits, TailOf, ExponentPart, FractionPart, AllDigits, IntPart;
    var d := "";
    if n[0] == '0' {
      TailIs(n[1..]);
      NoDigits(d);
      b, c := TailParts(n[1..]);
      assert d + (b + c) == b + c;
    } else {
      d, b, c := DigitsAndTail(n[1..]);
    }
    OneDigit(n[0], d);
    a := [n[0]] + d;
    assert n == [n[0]] + (d + (b + c));
  }

  lemma NoDigits(s: string)
    requires s == ""
    ensures AllDigits(s)
  {}

  lemma NumberHasParts(s: string) returns (sign: string, a: string, b: string, c: string)
    requires NumberText(s)
    ensures NumberOf(s, sign, a, b, c)
  {
    hide AfterInt, IntDigits, ExponentPart, FractionPart, IntPart;
    sign := if s[0] == '-' then "-" else "";
    var n := if s[0] == '-' then s[1..] else s;
    a, b, c := UnsignedParts(n);
    assert s == sign + n && sign + n == sign + a + b + c;
  }

  lemma PartsUnsigned(a: string, b: string, c: string)
    requires IntPart(a) && FractionPart(b) && ExponentPart(c)
    ensures Unsigned(a + (b + c))
  {
    hide AfterInt, IntDigits, TailOf, ExponentPart, FractionPart;
    var n, t := a + (b + c), b + c;
    PartsTail(b, c);
    assert a[0] in a;
    DigitIs(a[0]);
    assert n[0] == a[0] && n[1..] == a[1..] + t;
    if n[0] == '0' {
      assert n[1..] == t;
      TailIs(t);
    } else {
      forall x | x in a[1..] ensures x in "0123456789" { assert x in a; }
      LeadingDigits(a[1..], t);
    }
  }

  lemma LeadingDigits(d: string, t: string)
    requires AllDigits(d) && TailOf(t) && (t != "" ==> !IsDigit(t[0]))
    ensures IntDigits(d + t)
  {
    CountOf(d, t);
    IntIs(d + t);
    assert (d + t)[|d|..] == t;
    hide TailOf, IntDigits;
  }

  lemma PartsAreNumber(s: string, sign: string, a: string, b: string, c: string)
    requires NumberOf(s, sign, a, b, c)
    ensures NumberText(s)
  {
    var n := a + (b + c);
    PartsUnsigned(a, b, c);
    hide AfterInt, IntDigits, ExponentPart, FractionPart, IntPart;
    assert s == sign + n;
    assert if sign == "-" then s[0] == '-' && s[1..] == n else s == n;
  }

  // ---------- escaped text ----------

  /** The character that a unit stands for; none for a number. */
  function Stands(u: Unit): Option<char> {
    match u
    case Plain(c) => Some(c)
    case Letter(c) =>
      (match c
       case '"' => Some('"') case '\\' => Some('\\') case '/' => Some('/')
       case 'b' => Some(8 as char) case 'f' => Some(12 as char) case 'n' => Some(10 as char)
       case 'r' => Some(13 as char) case 't' => Some(9 as char)
       case _ => None)
    case Hex(_) => None
  }

  /** The units stand for the characters of the string. */
  predicate StandFor(us: seq<Unit>, s: string) {
    |us| == |s| && forall i | 0 <= i < |s| :: Stands(us[i]) == Some(s[i])
  }

  lemma EscapedUnit(c: char) returns (u: Unit)
    requires c != '\0'
    ensures Legal(u) && UnitText(u) == EscapeChar(c) && Stands(u) == Some(c)
  {
    u := if c == '\\' || c == '"' || c == '/' then Letter(c)
    else if c == 8 as char then Letter('b') else if c == 12 as char then Letter('f')
    else if c == '\n' then Letter('n') else if c == '\r' then Letter('r') else if c == '\t' then Letter('t')
    else Plain(c);
  }

  /** Escaped text stands for the string that was escaped. */
  lemma {:induction false} EscapedStands(s: string) returns (us: seq<Unit>)
    requires '\0' !in s
    ensures (forall u | u in us :: Legal(u)) && UnitsText(us) == EscapeAll(s) && StandFor(us, s)
    decreases |s|
  {
    hide Legal, UnitText, EscapeChar, Stands;
    us := [];
    if s != "" {
      assert s[0] in s;
      var u := EscapedUnit(s[0]);
      var rest := EscapedStands(s[1..]);
      us := [u] + rest;
      assert us[1..] == rest;
    }
  }
}
