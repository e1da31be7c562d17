/** The mark byte of an object and the macros of `lgc.h` that test and set its bits. */
module GcBits {
  import opened GcHeap

  const WHITE0: bv8 := 0x01
  const WHITE1: bv8 := 0x02
  const BLACK: bv8 := 0x04
  const FIXED: bv8 := 0x20
  const WHITEBITS: bv8 := 0x03
  const MASKMARKS: bv8 := 0xF8

  /** The two bytes that `currentwhite` takes between `lua_newstate` and `luaC_freeall`: a white
      bit, together with the fixed bit. */
  function CurrentWhite(bit: bool): bv8 { (if bit then WHITE1 else WHITE0) | FIXED }

  function OtherWhite(cw: bv8): bv8 { cw ^ WHITEBITS }

  function LuaCWhite(cw: bv8): bv8 { cw & WHITEBITS }

  predicate TestWhite(m: bv8) { m & WHITEBITS != 0 }

  predicate TestBlack(m: bv8) { m & BLACK != 0 }

  predicate TestGray(m: bv8) { !TestBlack(m) && !TestWhite(m) }

  predicate TestDead(cw: bv8, m: bv8) { m & OtherWhite(cw) & WHITEBITS != 0 }

  /** The test of `sweeplist`. */
  predicate TestNotDead(cw: bv8, m: bv8) { (m ^ WHITEBITS) & OtherWhite(cw) != 0 }

  function MakeWhiteBits(cw: bv8, m: bv8): bv8 { (m & MASKMARKS) | LuaCWhite(cw) }

  function ChangeWhite(m: bv8): bv8 { m ^ WHITEBITS }

  function White2Gray(m: bv8): bv8 { m & !WHITEBITS }

  function Gray2Black(m: bv8): bv8 { m | BLACK }

  function Black2Gray(m: bv8): bv8 { m & !BLACK }

  function StringMark(m: bv8): bv8 { m & !WHITEBITS }

  /** The byte says that the object has colour `c`, and whether it is fixed. */
  predicate Shows(m: bv8, c: Color, fixed: bool) {
    && (m & FIXED != 0 <==> fixed)
    && (m & (WHITEBITS | BLACK)) == (match c
                                     case White(b) => if b then WHITE1 else WHITE0
                                     case Gray => 0
                                     case Black => BLACK)
  }

  /** The tests tell the colours apart. */
  lemma TestsAreRight(m: bv8, c: Color, fixed: bool)
    requires Shows(m, c, fixed)
    ensures TestWhite(m) <==> c.White?
    ensures TestBlack(m) <==> c.Black?
    ensures TestGray(m) <==> c.Gray?
  {
    match c
    case White(b) => assert m & WHITEBITS == (if b then WHITE1 else WHITE0);
    case Gray => assert m & WHITEBITS == 0 && m & BLACK == 0;
    case Black => assert m & WHITEBITS == 0 && m & BLACK == BLACK;
  }

  /** `isdead` compares the white bit with the other white. The test of the sweep spares a dead
      object too if it is fixed, because the other white carries the fixed bit. */
  lemma DeathIsRight(m: bv8, c: Color, fixed: bool, cw: bool)
    requires Shows(m, c, fixed)
    ensures TestDead(CurrentWhite(cw), m) <==> c == White(!cw)
    ensures TestNotDead(CurrentWhite(cw), m) <==> c != White(!cw) || fixed
  {
    if cw {
      assert OtherWhite(CurrentWhite(true)) == WHITE0 | FIXED;
    } else {
      assert OtherWhite(CurrentWhite(false)) == WHITE1 | FIXED;
    }
  }

  /** `atomic` exchanges the two whites and keeps the fixed bit. */
  lemma FlipIsRight(cw: bool)
    ensures OtherWhite(CurrentWhite(cw)) == CurrentWhite(!cw)
  {
    assert CurrentWhite(true) == 0x22 && CurrentWhite(false) == 0x21;
  }

  /** The setters change the colour as their names say, and never the fixed bit. */
  lemma SettersAreRight(m: bv8, c: Color, fixed: bool, cw: bool)
    requires Shows(m, c, fixed)
    ensures Shows(MakeWhiteBits(CurrentWhite(cw), m), White(cw), fixed)
    ensures c.White? ==> Shows(White2Gray(m), Gray, fixed) && Shows(ChangeWhite(m), White(!c.bit), fixed)
    ensures c.Gray? ==> Shows(Gray2Black(m), Black, fixed)
    ensures c.Black? ==> Shows(Black2Gray(m), Gray, fixed)
    ensures Shows(StringMark(m), if c.White? then Gray else c, fixed)
  {
    assert LuaCWhite(CurrentWhite(cw)) == if cw then WHITE1 else WHITE0;
    match c
    case White(b) => assert m & 0x07 == (if b then WHITE1 else WHITE0);
    case Gray => assert m & 0x07 == 0;
    case Black => assert m & 0x07 == BLACK;
  }

  /** A dead object that is handed back to the mutator has the current white. */
  lemma ChangeWhiteRevives(m: bv8, fixed: bool, cw: bool)
    requires Shows(m, White(!cw), fixed)
    ensures !TestDead(CurrentWhite(cw), ChangeWhite(m)) && TestWhite(ChangeWhite(m))
  {
    SettersAreRight(m, White(!cw), fixed, cw);
    DeathIsRight(ChangeWhite(m), White(cw), fixed, cw);
    TestsAreRight(ChangeWhite(m), White(cw), fixed);
  }
}
