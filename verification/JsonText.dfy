/**
 JSON trees and their compact text, as `json.dumps(payload, separators=(",", ":"))`
 prints them: ASCII only, no white space, members in insertion order.
 The grammar is that of RFC 8259, sections 4 to 7.
 */
module JsonText {
  import opened Wrappers

  type Digit = d: nat | d < 10

  datatype Sign = NoSign | Plus | Minus

  datatype Exponent = Exponent(sign: Sign, digits: seq<Digit>)

  /** A decimal numeral. An empty `frac` means there is no decimal point. */
  datatype NumeralRaw = Numeral(neg: bool, whole: seq<Digit>, frac: seq<Digit>, exp: Option<Exponent>)
  {
    predicate Valid() {
      |whole| > 0 && (exp.Some? ==> |exp.value.digits| > 0)
    }
  }

  type Numeral = n: NumeralRaw | n.Valid() witness Numeral(false, [0], [], None)

  datatype Member = Member(key: string, value: Json)

  datatype Json =
    | Null
    | Bool(b: bool)
    | Num(n: Numeral)
    | Str(s: string)
    | Arr(items: seq<Json>)
    | Obj(members: seq<Member>)

  // ---------------------------------------------------------------- printing

  function HexChar(d: nat): char
    requires d < 16
  {
    if d < 10 then ('0' as int + d) as char else ('a' as int + d - 10) as char
  }

  function Hex4(n: nat): string
    requires n < 0x10000
  {
    [HexChar(n / 4096), HexChar(n / 256 % 16), HexChar(n / 16 % 16), HexChar(n % 16)]
  }

  predicate Printable(c: char) {
    ' ' <= c <= '~'
  }

  /** The character behind the backslash of a two-character escape. */
  function ShortEscape(c: char): Option<char> {
    if c == '"' || c == '\\' then Some(c)
    else if c == '\n' then Some('n')
    else if c == '\r' then Some('r')
    else if c == '\t' then Some('t')
    else if c == '\U{0C}' then Some('f')
    else if c == '\U{08}' then Some('b')
    else None
  }

  /** The ASCII-only escape of one character; code points above 0xFFFF become a surrogate pair. */
  function EscapeChar(c: char): string {
    match ShortEscape(c)
    case Some(x) => "\\" + [x]
    case None =>
      if Printable(c) then [c]
      else if c as int < 0x10000 then "\\" + ['u'] + Hex4(c as int)
      else
        var v := c as int - 0x10000;
        ("\\" + ['u'] + Hex4(0xD800 + v / 0x400)) + ("\\" + ['u'] + Hex4(0xDC00 + v % 0x400))
  }

  function Escape(s: string): string {
    if s == "" then "" else EscapeChar(s[0]) + Escape(s[1..])
  }

  function PrintString(s: string): string {
    "\"" + Escape(s) + "\""
  }

  function DigitChar(d: Digit): (c: char) {
    ('0' as int + d) as char
  }

  function PrintDigits(ds: seq<Digit>): string {
    seq(|ds|, i requires 0 <= i < |ds| => DigitChar(ds[i]))
  }

  function PrintExponent(e: Option<Exponent>): string {
    match e
    case None => ""
    case Some(Exponent(sign, digits)) =>
      "e" + (match sign case NoSign => "" case Plus => "+" case Minus => "-") + PrintDigits(digits)
  }

  function PrintFraction(frac: seq<Digit>): string {
    if frac == [] then "" else "." + PrintDigits(frac)
  }

  function PrintNumeral(n: Numeral): string {
    (if n.neg then "-" else "") + PrintDigits(n.whole) + PrintFraction(n.frac) + PrintExponent(n.exp)
  }

  function Print(v: Json): string
    decreases v
  {
    match v
    case Null => "null"
    case Bool(b) => if b then "true" else "false"
    case Num(n) => PrintNumeral(n)
    case Str(s) => PrintString(s)
    case Arr(items) => "[" + PrintItems(items) + "]"
    case Obj(members) => "{" + PrintMembers(members) + "}"
  }

  function PrintItems(items: seq<Json>): string
    decreases items
  {
    if |items| == 0 then ""
    else if |items| == 1 then Print(items[0])
    else Print(items[0]) + "," + PrintItems(items[1..])
  }

  function PrintMember(m: Member): string
    decreases m
  {
    PrintString(m.key) + ":" + Print(m.value)
  }

  function PrintMembers(members: seq<Member>): string
    decreases members
  {
    if |members| == 0 then ""
    else if |members| == 1 then PrintMember(members[0])
    else PrintMember(members[0]) + "," + PrintMembers(members[1..])
  }

  // ------------------------------------------------------- the text is ASCII

  ghost predicate Ascii(t: string) {
    forall i | 0 <= i < |t| :: Printable(t[i])
  }

  lemma EscapeCharIsAscii(c: char)
    ensures Ascii(EscapeChar(c))
  {
  }

  lemma {:induction false} EscapeIsAscii(s: string)
    ensures Ascii(Escape(s))
  {
    if s != "" {
      EscapeCharIsAscii(s[0]);
      EscapeIsAscii(s[1..]);
    }
  }

  lemma NumeralIsAscii(n: Numeral)
    ensures Ascii(PrintNumeral(n))
  {
    assert Ascii(PrintDigits(n.whole)) && Ascii(PrintFraction(n.frac));
    assert Ascii(PrintExponent(n.exp));
  }

  /** Every printed text consists of printable ASCII characters, so its UTF-8 bytes are its characters. */
  lemma {:induction false} PrintIsAscii(v: Json)
    ensures Ascii(Print(v))
    decreases v
  {
    match v
    case Null =>
    case Bool(_) =>
    case Num(n) => NumeralIsAscii(n);
    case Str(s) => EscapeIsAscii(s);
    case Arr(items) => PrintItemsIsAscii(items);
    case Obj(members) => PrintMembersIsAscii(members);
  }

  lemma {:induction false} PrintItemsIsAscii(items: seq<Json>)
    ensures Ascii(PrintItems(items))
    decreases items
  {
    if |items| > 0 {
      PrintIsAscii(items[0]);
      PrintItemsIsAscii(items[1..]);
    }
  }

  lemma {:induction false} PrintMembersIsAscii(members: seq<Member>)
    ensures Ascii(PrintMembers(members))
    decreases members
  {
    if |members| > 0 {
      EscapeIsAscii(members[0].key);
      PrintIsAscii(members[0].value);
      PrintMembersIsAscii(members[1..]);
    }
  }

  // ------------------------------------------------- the value of a numeral

  function DigitsValue(ds: seq<Digit>): nat {
    if ds == [] then 0 else DigitsValue(ds[..|ds| - 1]) * 10 + ds[|ds| - 1]
  }

  function PowerOfTen(k: nat): (r: int)
    ensures r > 0
  {
    if k == 0 then 1 else 10 * PowerOfTen(k - 1)
  }

  /** `x * 10^e` over the reals. */
  function Scale(x: real, e: int): real {
    if e >= 0 then x * PowerOfTen(e) as real else x / PowerOfTen(-e) as real
  }

  function ExponentValue(e: Option<Exponent>): int {
    match e
    case None => 0
    case Some(Exponent(sign, digits)) =>
      var magnitude: int := DigitsValue(digits);
      if sign == Minus then -magnitude else magnitude
  }

  function Magnitude(whole: seq<Digit>, frac: seq<Digit>, e: int): real {
    Scale(DigitsValue(whole) as real + DigitsValue(frac) as real / PowerOfTen(|frac|) as real, e)
  }

  /** The rational number a numeral denotes. */
  function NumeralValue(n: Numeral): real {
    var m := Magnitude(n.whole, n.frac, ExponentValue(n.exp));
    if n.neg then -m else m
  }

  function DigitsOf(n: nat): (ds: seq<Digit>)
    ensures |ds| > 0
  {
    if n < 10 then [n] else DigitsOf(n / 10) + [n % 10]
  }

  /** `str(i)` for a Python int. */
  function IntNumeral(i: int): Numeral {
    Numeral(i < 0, DigitsOf(if i < 0 then -i else i), [], None)
  }

  lemma {:induction false} DigitsOfValue(n: nat)
    ensures DigitsValue(DigitsOf(n)) == n
  {
    if n < 10 {
      assert DigitsValue([n]) == DigitsValue([n][..0]) * 10 + n;
    } else {
      DigitsOfValue(n / 10);
      assert DigitsOf(n)[..|DigitsOf(n)| - 1] == DigitsOf(n / 10);
    }
  }

  /** Printing an int and reading the numeral gives the int back. */
  lemma IntNumeralValue(i: int)
    ensures NumeralValue(IntNumeral(i)) == i as real
  {
    var m := if i < 0 then -i else i;
    DigitsOfValue(m);
    assert PowerOfTen(0) == 1;
    assert DigitsValue([]) == 0;
    assert Magnitude(DigitsOf(m), [], 0) == m as real;
  }

  lemma {:induction false} DigitsConcat(a: seq<Digit>, b: seq<Digit>)
    ensures DigitsValue(a + b) == DigitsValue(a) * PowerOfTen(|b|) + DigitsValue(b)
    decreases |b|
  {
    if b == [] {
      assert a + b == a && PowerOfTen(0) == 1;
    } else {
      var k := |b| - 1;
      assert (a + b)[..|a + b| - 1] == a + b[..k] && (a + b)[|a + b| - 1] == b[k];
      DigitsConcat(a, b[..k]);
      TenTimes(DigitsValue(a), PowerOfTen(k));
    }
  }

  lemma TenTimes(x: int, p: int)
    ensures x * p * 10 == x * (10 * p)
  {
  }

  /**
   What a numeral's magnitude means, without division: moved by its fraction's length it is all its
   digits read as one whole number, and a positive or negative exponent moves it by that many places.
   */
  lemma MagnitudeLaw(whole: seq<Digit>, frac: seq<Digit>, e: int)
    ensures Magnitude(whole, frac, 0) * PowerOfTen(|frac|) as real == DigitsValue(whole + frac) as real
    ensures e >= 0 ==> Magnitude(whole, frac, e) == Magnitude(whole, frac, 0) * PowerOfTen(e) as real
    ensures e < 0 ==> Magnitude(whole, frac, e) * PowerOfTen(-e) as real == Magnitude(whole, frac, 0)
  {
    hide Scale, DigitsValue, PowerOfTen;
    var p, w, f := PowerOfTen(|frac|), DigitsValue(whole), DigitsValue(frac);
    var x := w as real + f as real / p as real;
    DigitsConcat(whole, frac);
    FractionLaw(w, f, p);
    ScaleLaw(x, 0);
    ScaleLaw(x, e);
  }

  lemma FractionLaw(w: int, f: int, p: int)
    requires p > 0
    ensures (w as real + f as real / p as real) * p as real == (w * p + f) as real
  {
    DivideBack(f as real, p as real);
    Distribute(w as real, f as real / p as real, p as real);
    ProductAsReal(w, p);
  }

  lemma ScaleLaw(x: real, e: int)
    ensures e == 0 ==> Scale(x, e) == x
    ensures e >= 0 ==> Scale(x, e) == x * PowerOfTen(e) as real
    ensures e < 0 ==> Scale(x, e) * PowerOfTen(-e) as real == x
  {
    if e == 0 {
      assert PowerOfTen(0) == 1;
    } else if e < 0 {
      DivideBack(x, PowerOfTen(-e) as real);
    }
  }

  lemma DivideBack(x: real, p: real)
    requires p > 0.0
    ensures x / p * p == x
  {
  }

  lemma Distribute(x: real, y: real, p: real)
    ensures (x + y) * p == x * p + y * p
  {
  }

  lemma ProductAsReal(x: int, y: int)
    ensures (x * y) as real == x as real * y as real
  {
  }

  /** A numeral is its magnitude with the sign of its exponent and its own. */
  lemma NumeralMeans(n: Numeral)
    ensures var e: int := match n.exp
                          case None => 0
                          case Some(Exponent(Minus, digits)) => -(DigitsValue(digits) as int)
                          case Some(Exponent(_, digits)) => DigitsValue(digits);
            NumeralValue(n) == (if n.neg then -1.0 else 1.0) * Magnitude(n.whole, n.frac, e)
  {
    hide Magnitude, DigitsValue;
  }
}
