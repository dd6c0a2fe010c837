/**
 The scanner is right on every text of every JSON tree, compact or with white space: brackets of the
 other kind, brackets in strings, escaped quotes and nested objects never mislead it.
 */
module JsonScan {
  import opened Wrappers
  import opened JsonText
  import opened JsonLayout
  import opened Scanner

  // ------------------------------------------------------- scanning in pieces

  lemma {:induction false} RunConcat(st: Scan, a: string, b: string, open: char, close: char)
    ensures Run(st, a + b, open, close) == Run(Run(st, a, open, close), b, open, close)
    decreases |a|
  {
    if a == "" {
      assert a + b == b;
    } else {
      assert (a + b)[1..] == a[1..] + b;
      RunConcat(Step(st, a[0], open, close), a[1..], b, open, close);
    }
  }

  lemma {:induction false} RunStuck(st: Scan, t: string, open: char, close: char)
    requires !st.Going?
    ensures Run(st, t, open, close) == st
    decreases |t|
  {
    if t != "" {
      RunStuck(st, t[1..], open, close);
    }
  }

  /** A text that does not close the bracket only shifts the search for it. */
  lemma {:induction false} CloseAfter(st: Scan, a: string, b: string, open: char, close: char)
    requires Run(st, a, open, close).Going?
    ensures CloseFrom(st, a + b, open, close) == Shift(|a|, CloseFrom(Run(st, a, open, close), b, open, close))
    decreases |a|
  {
    if a == "" {
      assert a + b == b;
    } else {
      assert (a + b)[1..] == a[1..] + b;
      var st' := Step(st, a[0], open, close);
      if !st'.Going? {
        RunStuck(st', a[1..], open, close);
      }
      CloseAfter(st', a[1..], b, open, close);
    }
  }

  /** The two bracket pairs the scanner is used with. */
  predicate Brackets(open: char, close: char) {
    (open == '{' && close == '}') || (open == '[' && close == ']')
  }

  predicate Plain(t: string) {
    forall i | 0 <= i < |t| :: t[i] !in "\"\\{}[]"
  }

  lemma {:induction false} RunPlain(d: int, inString: bool, t: string, open: char, close: char)
    requires Plain(t) && Brackets(open, close)
    ensures Run(Going(d, inString, false), t, open, close) == Going(d, inString, false)
    decreases |t|
  {
    if t != "" {
      assert t[0] !in "\"\\{}[]";
      RunPlain(d, inString, t[1..], open, close);
    }
  }

  // ------------------------------------------------------------------ strings

  /** What the scanner reads back for a character: the backslash of its escape is lost. */
  function ScannedChar(c: char): (t: string)
    ensures |t| > 0
  {
    match ShortEscape(c)
    case Some(x) => [x]
    case None =>
      if Printable(c) then [c]
      else if c as int < 0x10000 then ['u'] + Hex4(c as int)
      else
        var v := c as int - 0x10000;
        (['u'] + Hex4(0xD800 + v / 0x400)) + (['u'] + Hex4(0xDC00 + v % 0x400))
  }

  function Scanned(s: string): string {
    if s == "" then "" else ScannedChar(s[0]) + Scanned(s[1..])
  }

  lemma {:induction false} BodyPlain(t: string, rest: string)
    requires Plain(t)
    ensures StringBody(t + rest, false) == Prefixed(t, |t|, StringBody(rest, false))
    decreases |t|
  {
    if t == "" {
      assert t + rest == rest;
      PrefixedNothing(StringBody(rest, false));
    } else {
      assert t[0] !in "\"\\{}[]";
      assert (t + rest)[1..] == t[1..] + rest;
      BodyPlain(t[1..], rest);
      assert [t[0]] + t[1..] == t;
      PrefixedTwice([t[0]], 1, t[1..], |t| - 1, StringBody(rest, false));
    }
  }

  /** A backslash, the character it protects, and plain characters. */
  lemma EscapeUnit(c: char, h: string, rest: string)
    requires Plain(h)
    ensures StringBody("\\" + [c] + h + rest, false) == Prefixed([c] + h, 2 + |h|, StringBody(rest, false))
  {
    var t := "\\" + [c] + h + rest;
    assert t[1..] == [c] + h + rest && t[1..][1..] == h + rest;
    BodyPlain(h, rest);
    PrefixedTwice([c], 1, h, |h|, StringBody(rest, false));
    PrefixedTwice("", 1, [c] + h, 1 + |h|, StringBody(rest, false));
    assert "" + ([c] + h) == [c] + h;
  }

  lemma RunEscapeUnit(d: int, c: char, h: string, open: char, close: char)
    requires Plain(h) && Brackets(open, close)
    ensures Run(Going(d, true, false), "\\" + [c] + h, open, close) == Going(d, true, false)
  {
    var t := "\\" + [c] + h;
    assert t[1..] == [c] + h && t[1..][1..] == h;
    RunPlain(d, true, h, open, close);
  }

  lemma HexIsPlain(n: nat)
    requires n < 0x10000
    ensures Plain(Hex4(n))
  {
  }

  lemma NothingIsPlain()
    ensures Plain("")
  {
  }

  /** How an escape is built: no unit at all, one escape unit `x` `h`, or the two units of a pair. */
  lemma EscapeShape(c: char) returns (units: nat, x: char, h: string, h': string)
    ensures units <= 2 && Plain(h) && Plain(h')
    ensures units == 0 ==> c != '"' && c != '\\' && EscapeChar(c) == [c] == ScannedChar(c)
    ensures units == 1 ==> EscapeChar(c) == "\\" + [x] + h && ScannedChar(c) == [x] + h
    ensures units == 2 ==> EscapeChar(c) == ("\\" + ['u'] + h) + ("\\" + ['u'] + h')
    ensures units == 2 ==> ScannedChar(c) == (['u'] + h) + (['u'] + h')
  {
    hide Hex4, Plain;
    NothingIsPlain();
    units, x, h, h' := 1, c, "", "";
    match ShortEscape(c)
    case Some(y) => x := y;
    case None =>
      if Printable(c) {
        units := 0;
      } else if c as int < 0x10000 {
        x, h := 'u', Hex4(c as int);
        HexIsPlain(c as int);
      } else {
        var v := c as int - 0x10000;
        units, h, h' := 2, Hex4(0xD800 + v / 0x400), Hex4(0xDC00 + v % 0x400);
        HexIsPlain(0xD800 + v / 0x400);
        HexIsPlain(0xDC00 + v % 0x400);
      }
  }

  lemma BodyOverChar(c: char, rest: string)
    ensures StringBody(EscapeChar(c) + rest, false)
         == Prefixed(ScannedChar(c), |EscapeChar(c)|, StringBody(rest, false))
  {
    hide EscapeChar, ScannedChar, Printable, Plain;
    var units, x, h, h' := EscapeShape(c);
    if units == 0 {
      assert ([c] + rest)[1..] == rest;
    } else if units == 1 {
      EscapeUnit(x, h, rest);
    } else {
      EscapeUnits(h, h', rest);
    }
  }

  lemma EscapeUnits(h: string, h': string, rest: string)
    requires Plain(h) && Plain(h')
    ensures StringBody(("\\" + ['u'] + h) + ("\\" + ['u'] + h') + rest, false)
         == Prefixed((['u'] + h) + (['u'] + h'), 4 + |h| + |h'|, StringBody(rest, false))
  {
    var tail := "\\" + ['u'] + h' + rest;
    assert ("\\" + ['u'] + h) + ("\\" + ['u'] + h') + rest == "\\" + ['u'] + h + tail;
    EscapeUnit('u', h, tail);
    EscapeUnit('u', h', rest);
    PrefixedTwice(['u'] + h, 2 + |h|, ['u'] + h', 2 + |h'|, StringBody(rest, false));
  }

  lemma RunOverChar(d: int, c: char, open: char, close: char)
    requires Brackets(open, close)
    ensures Run(Going(d, true, false), EscapeChar(c), open, close) == Going(d, true, false)
  {
    hide EscapeChar, ScannedChar, Printable, Plain;
    var units, x, h, h' := EscapeShape(c);
    if units == 0 {
      assert [c][1..] == "";
    } else if units == 1 {
      RunEscapeUnit(d, x, h, open, close);
    } else {
      RunEscapeUnit(d, 'u', h, open, close);
      RunEscapeUnit(d, 'u', h', open, close);
      RunConcat(Going(d, true, false), "\\" + ['u'] + h, "\\" + ['u'] + h', open, close);
    }
  }

  lemma BodyCloses(rest: string)
    ensures StringBody("\"" + rest, false) == Some(Token("", 1))
  {
  }

  lemma {:induction false} BodyOverEscape(s: string, rest: string)
    ensures StringBody(Escape(s) + "\"" + rest, false) == Some(Token(Scanned(s), |Escape(s)| + 1))
  {
    hide StringBody, EscapeChar, ScannedChar;
    if s == "" {
      assert Escape(s) + "\"" + rest == "\"" + rest;
      BodyCloses(rest);
    } else {
      BodyOverEscape(s[1..], rest);
      var tail := Escape(s[1..]) + "\"" + rest;
      assert Escape(s) + "\"" + rest == EscapeChar(s[0]) + tail;
      BodyOverChar(s[0], tail);
    }
  }

  /** A printed string is read as one token, whatever follows it. */
  lemma StringTokenPrinted(s: string, rest: string)
    ensures StringToken(PrintString(s) + rest) == Some(Token(Scanned(s), |PrintString(s)|))
  {
    hide StringBody, Escape, Scanned;
    var t := PrintString(s) + rest;
    assert t[1..] == Escape(s) + "\"" + rest;
    BodyOverEscape(s, rest);
    assert "" + Scanned(s) == Scanned(s);
  }

  lemma {:induction false} RunEscape(d: int, s: string, open: char, close: char)
    requires Brackets(open, close)
    ensures Run(Going(d, true, false), Escape(s), open, close) == Going(d, true, false)
  {
    if s != "" {
      RunOverChar(d, s[0], open, close);
      RunConcat(Going(d, true, false), EscapeChar(s[0]), Escape(s[1..]), open, close);
      RunEscape(d, s[1..], open, close);
    }
  }

  lemma RunString(d: int, s: string, open: char, close: char)
    requires Brackets(open, close)
    ensures Run(Going(d, false, false), PrintString(s), open, close) == Going(d, false, false)
  {
    RunEscape(d, s, open, close);
    var body := Escape(s);
    RunConcat(Going(d, true, false), body, "\"", open, close);
    assert PrintString(s)[1..] == body + "\"";
    assert "\""[1..] == "";
  }

  /** The scanner recovers a string exactly when it needs no escape but `\"` and `\\`. */
  lemma {:induction false} ScannedIsExact(s: string)
    ensures Scanned(s) == s <==> forall i | 0 <= i < |s| :: Printable(s[i])
  {
    if s != "" {
      ScannedIsExact(s[1..]);
      assert forall i | 1 <= i < |s| :: s[i] == s[1..][i - 1];
      if Printable(s[0]) {
        assert Scanned(s)[1..] == Scanned(s[1..]);
      } else {
        assert Scanned(s)[0] == ScannedChar(s[0])[0];
        assert Printable(ScannedChar(s[0])[0]);
      }
    }
  }

  // ------------------------------------------------------------------ numbers

  lemma {:induction false} DigitRunPrinted(ds: seq<Digit>, rest: string)
    requires rest == "" || !IsDigit(rest[0])
    ensures DigitRun(PrintDigits(ds) + rest) == |ds|
  {
    var t := PrintDigits(ds) + rest;
    if ds == [] {
      assert t == rest;
    } else {
      assert t[1..] == PrintDigits(ds[1..]) + rest;
      DigitRunPrinted(ds[1..], rest);
    }
  }

  lemma DigitsStart(ds: seq<Digit>, rest: string)
    requires ds != []
    ensures |PrintDigits(ds)| == |ds|
    ensures var t := PrintDigits(ds) + rest; t != "" && IsDigit(t[0])
  {
  }

  lemma FractionPrinted(frac: seq<Digit>, rest: string)
    requires AfterDigits(rest)
    ensures FractionLen(PrintFraction(frac) + rest) == |PrintFraction(frac)|
  {
    if frac == [] {
      assert PrintFraction(frac) + rest == rest;
    } else {
      var digits := PrintDigits(frac) + rest;
      assert PrintFraction(frac) + rest == "." + digits && ("." + digits)[1..] == digits;
      DigitRunPrinted(frac, rest);
    }
  }

  lemma EndsDigits(rest: string)
    requires AtValueEnd(rest)
    ensures rest == "" || !IsDigit(rest[0])
  {
  }

  lemma ExponentPrinted(e: Option<Exponent>, rest: string)
    requires e.Some? ==> |e.value.digits| > 0
    requires AtValueEnd(rest)
    ensures ExponentLen(PrintExponent(e) + rest) == Some(|PrintExponent(e)|)
  {
    hide ExponentLen, DigitRun, PrintDigits, SignLen, AtValueEnd, IsDigit, IsDelim;
    EndsDigits(rest);
    match e
    case None =>
      assert PrintExponent(e) + rest == rest;
      NoExponent(rest);
    case Some(Exponent(sign, digits)) =>
      var mark := match sign case NoSign => "" case Plus => "+" case Minus => "-";
      var tail := PrintDigits(digits) + rest;
      DigitRunPrinted(digits, rest);
      DigitsStart(digits, rest);
      SignPrinted(sign, tail);
      assert PrintExponent(e) == "e" + mark + PrintDigits(digits);
      hide *;
      Associative("e" + mark, PrintDigits(digits), rest);
      Associative("e", mark, tail);
      ExponentText(mark, tail);
  }

  lemma NoExponent(rest: string)
    requires AtValueEnd(rest)
    ensures ExponentLen(rest) == Some(0)
  {
  }

  lemma ExponentText(mark: string, tail: string)
    requires SignLen(mark + tail) == |mark| && DigitRun(tail) > 0
    ensures ExponentLen("e" + (mark + tail)) == Some(1 + |mark| + DigitRun(tail))
  {
    hide SignLen, DigitRun;
    var t := "e" + (mark + tail);
    assert t[1..] == mark + tail && t[1 + |mark|..] == tail;
  }

  lemma SignPrinted(sign: Sign, tail: string)
    requires tail != "" && IsDigit(tail[0])
    ensures var mark := match sign case NoSign => "" case Plus => "+" case Minus => "-";
            SignLen(mark + tail) == |mark|
  {
    match sign
    case NoSign => assert "" + tail == tail;
    case Plus =>
    case Minus =>
  }

  lemma NumberPrinted(n: Numeral, rest: string)
    requires AtValueEnd(rest)
    ensures NumberLen(PrintNumeral(n) + rest) == Some(|PrintNumeral(n)|)
  {
    hide PrintNumeral, PrintFraction, PrintExponent, PrintDigits, NumberLen, DigitRun, SignLen, FractionLen,
         ExponentLen, AtValueEnd;
    var t, exp, frac := PrintNumeral(n) + rest, PrintExponent(n.exp) + rest,
                        PrintFraction(n.frac) + (PrintExponent(n.exp) + rest);
    var s, w, f := NumeralSplits(n, rest, t, frac, exp);
    NumeralRuns(n, rest, exp, frac);
    NumberLenOf(t, s, w, f, Some(|PrintExponent(n.exp)|));
  }

  lemma NumeralRuns(n: Numeral, rest: string, exp: string, frac: string)
    requires AtValueEnd(rest)
    requires exp == PrintExponent(n.exp) + rest && frac == PrintFraction(n.frac) + exp
    ensures DigitRun(PrintDigits(n.whole) + frac) == |n.whole|
    ensures FractionLen(frac) == |PrintFraction(n.frac)|
    ensures ExponentLen(exp) == Some(|PrintExponent(n.exp)|)
  {
    ExponentStarts(n.exp, rest);
    FractionStarts(n.frac, exp);
    DigitRunPrinted(n.whole, frac);
    FractionPrinted(n.frac, exp);
    ExponentPrinted(n.exp, rest);
  }

  /** The text is over or goes on with a character no fraction or digit run can start with. */
  predicate AfterDigits(t: string) {
    t == "" || (!IsDigit(t[0]) && t[0] != '.')
  }

  lemma ExponentStarts(e: Option<Exponent>, rest: string)
    requires AtValueEnd(rest)
    ensures AfterDigits(PrintExponent(e) + rest)
  {
    var t := PrintExponent(e) + rest;
    if e == None {
      assert t == rest;
    } else {
      assert t[0] == 'e';
    }
  }

  lemma FractionStarts(frac: seq<Digit>, exp: string)
    requires AfterDigits(exp)
    ensures var t := PrintFraction(frac) + exp; t == "" || !IsDigit(t[0])
  {
    var t := PrintFraction(frac) + exp;
    if frac == [] {
      assert t == exp;
    } else {
      assert t[0] == '.';
    }
  }

  /** The suffixes of a printed numeral at its sign, its fraction, its exponent and its end. */
  lemma NumeralSplits(n: Numeral, rest: string, t: string, frac: string, exp: string) returns (s: nat, w: nat, f: nat)
    requires t == PrintNumeral(n) + rest
    requires exp == PrintExponent(n.exp) + rest && frac == PrintFraction(n.frac) + exp
    ensures s == (if n.neg then 1 else 0) && SignLen(t) == s
    ensures w == s + |n.whole| && f == w + |PrintFraction(n.frac)| <= |t|
    ensures |PrintNumeral(n)| == f + |PrintExponent(n.exp)| <= |t|
    ensures |n.whole| > 0
    ensures t[s..] == PrintDigits(n.whole) + frac && t[w..] == frac && t[f..] == exp
    ensures t[f + |PrintExponent(n.exp)|..] == rest
  {
    hide PrintDigits, PrintFraction, PrintExponent;
    s := if n.neg then 1 else 0;
    w := s + |n.whole|;
    f := w + |PrintFraction(n.frac)|;
    FourParts(if n.neg then "-" else "", PrintDigits(n.whole), PrintFraction(n.frac), PrintExponent(n.exp), rest);
    DigitsStart(n.whole, frac);
    assert t[s..] == PrintDigits(n.whole) + frac && t[s] == t[s..][0];
  }

  lemma FourParts(a: string, b: string, c: string, d: string, rest: string)
    ensures var t := a + b + c + d + rest;
            var i, j, k := |a|, |a| + |b|, |a| + |b| + |c|;
            && t[i..] == b + (c + (d + rest)) && t[j..] == c + (d + rest)
            && t[k..] == d + rest && t[k + |d|..] == rest
  {
  }

  lemma NumeralIsPlain(n: Numeral)
    ensures Plain(PrintNumeral(n))
  {
    assert Plain(PrintDigits(n.whole)) && Plain(PrintFraction(n.frac));
    assert Plain(PrintExponent(n.exp));
  }

  // ----------------------------------------------------------------- white space

  /** The value is over: the text ends here, or a comma, a closing bracket or a blank follows. */
  predicate Ended(rest: string) {
    rest == "" || rest[0] in ",}] \t\n\r"
  }

  lemma EndedIsValueEnd(rest: string)
    requires Ended(rest)
    ensures AtValueEnd(rest)
  {
  }

  lemma BlanksArePlain(b: Blanks)
    ensures Plain(b)
  {
    forall i | 0 <= i < |b| ensures b[i] !in "\"\\{}[]" {
      assert b[i] in " \t\n\r";
    }
  }

  /** Every blank is skipped, and nothing else. */
  lemma {:induction false} BlankOver(b: Blanks, rest: string)
    requires rest == "" || !IsSpace(rest[0])
    ensures Blank(b + rest) == |b|
    decreases |b|
  {
    var t := b + rest;
    if b == "" {
      assert t == rest;
    } else {
      assert b[0] in " \t\n\r";
      assert forall i | 0 <= i < |b[1..]| :: b[1..][i] == b[i + 1];
      assert t[1..] == b[1..] + rest;
      BlankOver(b[1..], rest);
    }
  }

  lemma BlankBehind(t: string, i: nat, b: Blanks, rest: string)
    requires i <= |t| && t[i..] == b + rest && (rest == "" || !IsSpace(rest[0]))
    ensures i + Blank(t[i..]) == i + |b| <= |t| && t[i + |b|..] == rest
  {
    BlankOver(b, rest);
    Subslice(t, i, |t|, |b|, |t| - i);
    assert (b + rest)[|b|..] == rest;
  }

  // --------------------------------------------------------------- whole trees

  /** Scanning the text leaves the depth as it was. */
  predicate Neutral(d: int, t: string, open: char, close: char) {
    Run(Going(d, false, false), t, open, close) == Going(d, false, false)
  }

  lemma NeutralConcat(d: int, a: string, b: string, open: char, close: char)
    requires Neutral(d, a, open, close) && Neutral(d, b, open, close)
    ensures Neutral(d, a + b, open, close)
  {
    RunConcat(Going(d, false, false), a, b, open, close);
  }

  lemma NeutralPlain(d: int, t: string, open: char, close: char)
    requires Plain(t) && Brackets(open, close)
    ensures Neutral(d, t, open, close)
  {
    RunPlain(d, false, t, open, close);
  }

  /** Scanning a whole tree leaves the depth as it was, so the search goes on behind it. */
  lemma {:induction false} RunText(d: int, l: Laid, open: char, close: char)
    requires d >= 1 && Brackets(open, close)
    ensures Neutral(d, Text(l), open, close)
    decreases l
  {
    hide Neutral;
    match l
    case Atom(v) => RunFlat(d, v, open, close);
    case LaidArr(inner, items) =>
      var deeper := if open == '[' then d + 1 else d;
      BlanksArePlain(inner);
      NeutralPlain(deeper, inner, open, close);
      RunItems(deeper, items, open, close);
      RunInBrackets(d, '[', if |items| == 0 then inner else ItemsText(items), ']', open, close);
    case LaidObj(inner, members) =>
      var deeper := if open == '{' then d + 1 else d;
      BlanksArePlain(inner);
      NeutralPlain(deeper, inner, open, close);
      RunMembers(deeper, members, open, close);
      RunInBrackets(d, '{', if |members| == 0 then inner else MembersText(members), '}', open, close);
  }

  lemma RunFlat(d: int, v: Flat, open: char, close: char)
    requires Brackets(open, close)
    ensures Neutral(d, Print(v), open, close)
  {
    match v
    case Null => RunPlain(d, false, "null", open, close);
    case Bool(b) => RunPlain(d, false, Print(v), open, close);
    case Num(n) => NumeralIsPlain(n); RunPlain(d, false, Print(v), open, close);
    case Str(s) => RunString(d, s, open, close);
  }

  lemma RunInBrackets(d: int, left: char, body: string, right: char, open: char, close: char)
    requires d >= 1 && Brackets(open, close) && Brackets(left, right)
    requires Neutral(if left == open then d + 1 else d, body, open, close)
    ensures Neutral(d, [left] + body + [right], open, close)
  {
    var inner := Going(if left == open then d + 1 else d, false, false);
    assert ([left] + body + [right])[1..] == body + [right];
    RunConcat(inner, body, [right], open, close);
    assert [right][1..] == "";
  }

  lemma RunItem(d: int, i: LaidItem, open: char, close: char)
    requires Brackets(open, close) && Neutral(d, Text(i.value), open, close)
    ensures Neutral(d, ItemText(i), open, close)
  {
    hide Neutral, Text, Plain;
    BlanksArePlain(i.before);
    BlanksArePlain(i.after);
    NeutralPlain(d, i.before, open, close);
    NeutralPlain(d, i.after, open, close);
    NeutralConcat(d, i.before, Text(i.value), open, close);
    NeutralConcat(d, i.before + Text(i.value), i.after, open, close);
  }

  lemma {:induction false} RunItems(d: int, items: seq<LaidItem>, open: char, close: char)
    requires d >= 1 && Brackets(open, close)
    ensures Neutral(d, ItemsText(items), open, close)
    decreases items
  {
    hide Neutral, ItemText;
    if |items| == 0 {
      NeutralPlain(d, "", open, close);
    } else {
      RunText(d, items[0].value, open, close);
      RunItem(d, items[0], open, close);
      if |items| > 1 {
        RunItems(d, items[1..], open, close);
        NeutralPlain(d, ",", open, close);
        NeutralConcat(d, ItemText(items[0]), ",", open, close);
        NeutralConcat(d, ItemText(items[0]) + ",", ItemsText(items[1..]), open, close);
      }
    }
  }

  lemma RunMember(d: int, m: LaidMember, open: char, close: char)
    requires Brackets(open, close) && Neutral(d, Text(m.value), open, close)
    ensures Neutral(d, MemberText(m), open, close)
  {
    RunString(d, m.key, open, close);
    hide Text, Plain, PrintString, Run;
    BlanksArePlain(m.before);
    BlanksArePlain(m.afterKey);
    BlanksArePlain(m.beforeValue);
    BlanksArePlain(m.after);
    NeutralPlain(d, m.before, open, close);
    NeutralPlain(d, m.afterKey, open, close);
    NeutralColon(d, open, close);
    NeutralPlain(d, m.beforeValue, open, close);
    NeutralPlain(d, m.after, open, close);
    hide Neutral;
    var name := m.before + PrintString(m.key);
    NeutralConcat(d, m.before, PrintString(m.key), open, close);
    NeutralConcat(d, name, m.afterKey, open, close);
    NeutralConcat(d, name + m.afterKey, ":", open, close);
    NeutralConcat(d, name + m.afterKey + ":", m.beforeValue, open, close);
    NeutralConcat(d, name + m.afterKey + ":" + m.beforeValue, Text(m.value), open, close);
    NeutralConcat(d, name + m.afterKey + ":" + m.beforeValue + Text(m.value), m.after, open, close);
  }

  lemma NeutralColon(d: int, open: char, close: char)
    requires Brackets(open, close)
    ensures Neutral(d, ":", open, close) && Neutral(d, ",", open, close)
  {
    NeutralPlain(d, ":", open, close);
    NeutralPlain(d, ",", open, close);
  }

  lemma {:induction false} RunMembers(d: int, members: seq<LaidMember>, open: char, close: char)
    requires d >= 1 && Brackets(open, close)
    ensures Neutral(d, MembersText(members), open, close)
    decreases members
  {
    hide Neutral, MemberText;
    if |members| == 0 {
      NeutralPlain(d, "", open, close);
    } else {
      RunText(d, members[0].value, open, close);
      RunMember(d, members[0], open, close);
      if |members| > 1 {
        RunMembers(d, members[1..], open, close);
        NeutralColon(d, open, close);
        NeutralConcat(d, MemberText(members[0]), ",", open, close);
        NeutralConcat(d, MemberText(members[0]) + ",", MembersText(members[1..]), open, close);
      }
    }
  }

  /** A bracket, a body that leaves the depth as it was, and the other bracket. */
  lemma CloseOfBody(body: string, rest: string, open: char, close: char)
    requires Brackets(open, close) && Neutral(1, body, open, close)
    ensures MatchingClose([open] + body + [close] + rest, open, close) == Some(1 + |body|)
  {
    hide Run;
    var st, tail := Going(1, false, false), [close] + rest;
    var t := [open] + body + [close] + rest;
    assert t[1..] == body + tail;
    CloseAfter(st, body, tail, open, close);
    assert CloseFrom(st, tail, open, close) == Some(0);
  }

  /** From the opening bracket of a container's text the matching close is its last character. */
  lemma CloseText(l: Laid, rest: string)
    requires !l.Atom?
    ensures var (open, close) := if l.LaidObj? then ('{', '}') else ('[', ']');
            MatchingClose(Text(l) + rest, open, close) == Some(|Text(l)| - 1)
  {
    hide MatchingClose, Neutral;
    if l.LaidObj? {
      var body := if |l.members| == 0 then l.inner else MembersText(l.members);
      BlanksArePlain(l.inner);
      NeutralPlain(1, l.inner, '{', '}');
      RunMembers(1, l.members, '{', '}');
      CloseOfBody(body, rest, '{', '}');
    } else {
      var body := if |l.items| == 0 then l.inner else ItemsText(l.items);
      BlanksArePlain(l.inner);
      NeutralPlain(1, l.inner, '[', ']');
      RunItems(1, l.items, '[', ']');
      CloseOfBody(body, rest, '[', ']');
    }
  }

  /** A literal is a value exactly when it is over behind its last letter. */
  lemma LiteralPrinted(word: string, rest: string)
    requires word == "true" || word == "false" || word == "null"
    ensures ValueLen(word + rest) == if AtValueEnd(rest) then Some(|word|) else None
  {
    var t := word + rest;
    assert t[0] == word[0] && t[|word|..] == rest;
    assert word <= t;
  }

  lemma OtherwiseNumber(t: string)
    requires t != "" && t[0] !in "\"{[tfn"
    ensures ValueLen(t) == NumberLen(t)
  {
  }

  lemma NumeralStarts(n: Numeral, rest: string)
    ensures var t := PrintNumeral(n) + rest; t != "" && (t[0] == '-' || IsDigit(t[0]))
  {
    var t := PrintNumeral(n) + rest;
    assert t[0] == if n.neg then '-' else DigitChar(n.whole[0]);
  }

  lemma NumeralValueLen(n: Numeral, rest: string)
    requires AtValueEnd(rest)
    ensures ValueLen(PrintNumeral(n) + rest) == Some(|PrintNumeral(n)|)
  {
    var t := PrintNumeral(n) + rest;
    NumeralStarts(n, rest);
    assert t[0] !in "\"{[tfn";
    OtherwiseNumber(t);
    NumberPrinted(n, rest);
  }

  lemma ContainerValueLen(l: Laid, rest: string, t: string)
    requires !l.Atom? && t == Text(l) + rest
    ensures ValueLen(t) == Some(|Text(l)|)
  {
    CloseText(l, rest);
    assert t[0] == if l.LaidObj? then '{' else '[';
  }

  lemma FlatValueLen(v: Flat, rest: string)
    requires AtValueEnd(rest)
    ensures ValueLen(Print(v) + rest) == Some(|Print(v)|)
  {
    var t := Print(v) + rest;
    match v
    case Null => LiteralPrinted("null", rest);
    case Bool(b) => LiteralPrinted(Print(v), rest);
    case Num(n) => NumeralValueLen(n, rest);
    case Str(s) =>
      StringTokenPrinted(s, rest);
      assert t[0] == '"';
  }

  /** `skip_json_value` stops exactly behind every tree's text when a delimiter, a blank or the end follows. */
  lemma ValueLenText(l: Laid, rest: string)
    requires Ended(rest)
    ensures ValueLen(Text(l) + rest) == Some(|Text(l)|)
  {
    hide ValueLen;
    EndedIsValueEnd(rest);
    match l
    case Atom(v) => FlatValueLen(v, rest);
    case _ => ContainerValueLen(l, rest, Text(l) + rest);
  }

  // ---------------------------------------------------------------- key lookup

  /** The index of the first top-level member that reads back as `key`, or the number of members. */
  function FirstMember(members: seq<Member>, key: string): (k: nat)
    ensures k <= |members|
    ensures k < |members| ==> Scanned(members[k].key) == key
    ensures forall j | 0 <= j < k :: Scanned(members[j].key) != key
  {
    if members == [] || Scanned(members[0].key) == key then 0 else 1 + FirstMember(members[1..], key)
  }

  /** Where the value of a member stands in its text. */
  function ValueStart(m: LaidMember): nat {
    |m.before| + |PrintString(m.key)| + |m.afterKey| + 1 + |m.beforeValue|
  }

  /** Where the value of member `k` stands in the text of the members. */
  function ValueOffset(members: seq<LaidMember>, k: nat): nat
    requires k < |members|
  {
    if k == 0 then ValueStart(members[0])
    else |MemberText(members[0])| + 1 + ValueOffset(members[1..], k - 1)
  }

  lemma FlatStarts(v: Flat)
    ensures Print(v) != "" && !IsSpace(Print(v)[0]) && Print(v)[0] !in "{["
    ensures v.Num? ==> Print(v)[0] == '-' || '0' <= Print(v)[0] <= '9'
    ensures v.Str? <==> Print(v)[0] == '"'
    ensures v == Null <==> Print(v)[0] == 'n'
    ensures v == Bool(true) <==> Print(v)[0] == 't'
    ensures v == Bool(false) <==> Print(v)[0] == 'f'
  {
    match v
    case Num(n) => assert Print(v)[0] == if n.neg then '-' else DigitChar(n.whole[0]);
    case _ =>
  }

  /** The first character tells the kind of a value. */
  lemma TextStarts(l: Laid)
    ensures Text(l) != "" && !IsSpace(Text(l)[0])
    ensures l.LaidObj? <==> Text(l)[0] == '{'
    ensures l.LaidArr? <==> Text(l)[0] == '['
    ensures l.Atom? ==> Text(l) == Print(l.v)
  {
    if l.Atom? {
      FlatStarts(l.v);
    }
  }

  /** What follows a value in an object: its blanks, and a comma with more members or nothing. */
  predicate Onwards(after: Blanks, tail: string) {
    tail == "" || tail[0] == ','
  }

  lemma OnwardsIsEnd(after: Blanks, tail: string)
    requires Onwards(after, tail)
    ensures Ended(after + tail)
  {
    if after != "" {
      assert (after + tail)[0] == after[0] && after[0] in " \t\n\r";
    } else {
      assert after + tail == tail;
    }
  }

  /**
   Lookup is scoped to the top level and blind to white space: in every text of an object's
   members the scanner finds the value of the first member whose key reads back as `key`, and
   nothing when there is none, whatever keys its nested objects, arrays and strings hold.
   */
  lemma FindKeyText(members: seq<LaidMember>, key: string)
    ensures var k := FirstMember(TreeMembers(members), key);
            FindKey(MembersText(members), key)
            == if k == |members| then None else Some(ValueOffset(members, k))
  {
    hide *;
    FindKeyByMember(members, key);
    OffsetByMember(members, key);
  }

  /** Between the braces of an empty object there is nothing but blanks, and no key. */
  lemma NoKeyInBlanks(b: Blanks, key: string)
    ensures FindKey(b, key) == None
  {
    hide KeyRound, FindKey;
    assert b + "" == b;
    BlankOver(b, "");
    KeyRoundNoKey(b, key, |b|);
    FindKeyStop(b, key);
  }

  function OffsetOf(members: seq<LaidMember>, key: string): Option<nat> {
    if |members| == 0 then None
    else if Scanned(members[0].key) == key then Some(ValueStart(members[0]))
    else Shift(|MemberText(members[0])| + 1, OffsetOf(members[1..], key))
  }

  lemma {:induction false} OffsetByMember(members: seq<LaidMember>, key: string)
    ensures var k := FirstMember(TreeMembers(members), key);
            OffsetOf(members, key) == if k == |members| then None else Some(ValueOffset(members, k))
  {
    hide Scanned, ValueStart, MemberText, Tree;
    if |members| > 0 {
      assert TreeMembers(members)[1..] == TreeMembers(members[1..]);
      if Scanned(members[0].key) != key {
        OffsetByMember(members[1..], key);
      }
    }
  }

  lemma {:induction false} FindKeyByMember(members: seq<LaidMember>, key: string)
    ensures FindKey(MembersText(members), key) == OffsetOf(members, key)
  {
    hide FindKey, Scanned, ValueStart, MemberText;
    if |members| > 0 {
      FindKeyFirst(members, key);
      FindKeyByMember(members[1..], key);
    } else {
      NoKeyInNothing(key);
    }
  }

  /** A member's text cut at its value: what stands before it, and what follows. */
  function HeadText(m: LaidMember): (t: string)
    ensures |t| == ValueStart(m)
  {
    m.before + PrintString(m.key) + m.afterKey + ":" + m.beforeValue
  }

  /** What follows the first member's value. */
  function TailText(members: seq<LaidMember>): string
    requires |members| > 0
  {
    if |members| == 1 then "" else "," + MembersText(members[1..])
  }

  lemma MembersSplit(members: seq<LaidMember>)
    requires |members| > 0
    ensures var m := members[0];
            MembersText(members) == HeadText(m) + (Text(m.value) + (m.after + TailText(members)))
    ensures |MemberText(members[0])| == ValueStart(members[0]) + |Text(members[0].value)| + |members[0].after|
    ensures Onwards(members[0].after, TailText(members))
  {
    hide Text, PrintString;
    var m, tail := members[0], TailText(members);
    assert MembersText(members) == MemberText(m) + tail;
    Associative(HeadText(m) + Text(m.value), m.after, tail);
    Associative(HeadText(m), Text(m.value), m.after + tail);
  }

  /** The first member decides the lookup or is skipped as a whole, with the comma behind it. */
  lemma FindKeyFirst(members: seq<LaidMember>, key: string)
    requires |members| > 0
    ensures FindKey(MembersText(members), key)
         == if Scanned(members[0].key) == key then Some(ValueStart(members[0]))
            else Shift(|MemberText(members[0])| + 1, FindKey(MembersText(members[1..]), key))
  {
    hide FindKey, KeyRound, Scanned, ValueStart, MemberText, HeadText, Text, MembersText, Onwards;
    var m := members[0];
    var t, tail, value := MembersText(members), TailText(members), Text(m.value);
    MembersSplit(members);
    RoundOnMember(m, t, tail, key);
    if Scanned(m.key) == key {
      FindKeyFound(t, key, ValueStart(m));
    } else {
      var rest := m.after + tail;
      var c := CommaLen(rest);
      var p := ValueStart(m) + |value|;
      BehindValue(HeadText(m), value, rest, c);
      FindKeyNext(t, key, p + c, rest[c..]);
      GoesOn(members, m.after, tail, key);
      ShiftTwice(p + c, |m.after| + 1 - c, FindKey(MembersText(members[1..]), key));
    }
  }

  lemma BehindValue(head: string, value: string, rest: string, c: nat)
    requires c <= |rest|
    ensures (head + (value + rest))[|head| + |value| + c..] == rest[c..]
  {
  }

  /** Behind a value the lookup goes on with the next member, if there is one. */
  lemma GoesOn(members: seq<LaidMember>, after: Blanks, tail: string, key: string)
    requires |members| > 0 && tail == TailText(members)
    ensures var rest := after + tail;
            var c := CommaLen(rest);
            && c <= |after| + 1
            && FindKey(rest[c..], key) == Shift(|after| + 1 - c, FindKey(MembersText(members[1..]), key))
  {
    hide FindKey, KeyRound, MembersText;
    var rest, more := after + tail, MembersText(members[1..]);
    NoKeyInNothing(key);
    assert |members| == 1 ==> more == "" by { NothingToLayOut(members[1..]); }
    if after == "" {
      assert rest == tail && rest[CommaLen(rest)..] == more;
      ShiftByNothing(FindKey(more, key));
    } else {
      assert rest[0] == after[0] && after[0] in " \t\n\r";
      assert rest[0..] == rest;
      BlankOver(after, tail);
      KeyRoundNoKey(rest, key, |after|);
      if tail == "" {
        FindKeyStop(rest, key);
      } else {
        assert tail == "," + more && rest[|after|] == ',';
        Associative(after, ",", more);
        assert rest[|after + ","|..] == more;
        FindKeyNext(rest, key, |after| + 1, more);
      }
    }
  }

  lemma NothingToLayOut(members: seq<LaidMember>)
    ensures |members| == 0 ==> MembersText(members) == ""
  {
  }

  lemma ShiftByNothing(r: Option<nat>)
    ensures Shift(0, r) == r && Shift(1, None) == None
  {
  }

  /** One round of the lookup on a member: its value is found, or it is skipped with a comma behind it. */
  lemma RoundOnMember(m: LaidMember, t: string, tail: string, key: string)
    requires t == HeadText(m) + (Text(m.value) + (m.after + tail)) && Onwards(m.after, tail)
    ensures KeyRound(t, key)
         == if Scanned(m.key) == key then Found(ValueStart(m))
            else Next(ValueStart(m) + |Text(m.value)| + CommaLen(m.after + tail))
  {
    hide *;
    var name, value, rest := PrintString(m.key), Text(m.value), m.after + tail;
    var fromValue := value + rest;
    var afterColon := m.beforeValue + fromValue;
    var fromColon := ":" + afterColon;
    var afterName := m.afterKey + fromColon;
    OnwardsIsEnd(m.after, tail);
    TokensText(m, fromColon, rest, name, value);
    HeadIs(m, t, fromValue, fromColon, name + afterName);
    ValueStartIs(m, name);
    assert fromValue != "" && fromValue[0] == value[0] && fromValue[|value|..] == rest;
    RoundOnMarks(t, key, m.before, name, name + afterName, afterName, m.afterKey, fromColon, afterColon,
                 m.beforeValue, fromValue, Scanned(m.key), |value|);
  }

  /** One round of the lookup on a text given by its tokens and the blanks before them. */
  lemma RoundOnMarks(t: string, key: string, before: Blanks, name: string, fromName: string, afterName: string,
                     afterKey: Blanks, fromColon: string, afterColon: string, beforeValue: Blanks, fromValue: string,
                     found: string, len: nat)
    requires t == before + fromName && fromName == name + afterName && afterName == afterKey + fromColon
    requires fromColon == ":" + afterColon
    requires afterColon == beforeValue + fromValue && fromValue != "" && !IsSpace(fromValue[0])
    requires name != "" && name[0] == '"' && !IsSpace(name[0])
    requires StringToken(fromName) == Some(Token(found, |name|)) && ValueLen(fromValue) == Some(len)
    ensures var v := |before| + |name| + |afterKey| + 1 + |beforeValue|;
            KeyRound(t, key) == if found == key then Found(v) else Next(v + len + CommaLen(fromValue[len..]))
  {
    hide *;
    var w := |before|;
    var a := w + |name|;
    var b := a + |afterKey|;
    var v := b + 1 + |beforeValue|;
    assert NameAt(t, w, a, fromName, afterName) by {
      NameMark(t, before, name, afterName, fromName);
    }
    assert ValueFollows(t, a, b, v, fromColon, fromValue) by {
      AfterNameIs(t, w, a, fromName, afterName);
      ValueMark(t, a, afterKey, beforeValue, fromValue, fromColon, afterColon);
    }
    assert fromName != "" && fromName[0] == '"';
    RoundOnText(t, key, w, a, b, v, fromName, afterName, fromColon, fromValue, Token(found, |name|), len);
  }

  /** A name stands at `w`, behind the text's blanks, and more text at `a`. */
  predicate NameAt(t: string, w: nat, a: nat, fromName: string, afterName: string) {
    w == Blank(t) && w <= a <= |t| && t[w..] == fromName && t[a..] == afterName
  }

  lemma AfterNameIs(t: string, w: nat, a: nat, fromName: string, afterName: string)
    requires NameAt(t, w, a, fromName, afterName)
    ensures a <= |t| && t[a..] == afterName
  {
  }

  /** Behind `a` a colon stands at `b` and a value at `v`, each behind its blanks. */
  predicate ValueFollows(t: string, a: nat, b: nat, v: nat, fromColon: string, fromValue: string) {
    && a <= b < v <= |t| && b == a + Blank(t[a..]) && v == b + 1 + Blank(t[b + 1..])
    && t[b..] == fromColon && t[v..] == fromValue
  }

  /** Blanks, a token and more text, at an offset. */
  lemma TokenBehind(t: string, i: nat, b: Blanks, token: string, rest: string, from: string)
    requires i <= |t| && t[i..] == b + from && from == token + rest && token != "" && !IsSpace(token[0])
    ensures i + Blank(t[i..]) == i + |b| && i + |b| + |token| <= |t|
    ensures t[i + |b|..] == from && t[i + |b| + |token|..] == rest
  {
    hide Blank, IsSpace;
    assert from[0] == token[0];
    BlankBehind(t, i, b, from);
    Behind(t, i + |b|, token, rest);
  }

  lemma NameMark(t: string, before: Blanks, name: string, afterName: string, fromName: string)
    requires t == before + fromName && fromName == name + afterName && name != "" && !IsSpace(name[0])
    ensures NameAt(t, |before|, |before| + |name|, fromName, afterName)
  {
    hide Blank, IsSpace;
    assert t[0..] == t;
    TokenBehind(t, 0, before, name, afterName, fromName);
  }

  lemma ValueMark(t: string, a: nat, afterKey: Blanks, beforeValue: Blanks, fromValue: string,
                  fromColon: string, afterColon: string)
    requires a <= |t| && t[a..] == afterKey + fromColon && fromColon == ":" + afterColon
    requires afterColon == beforeValue + fromValue && fromValue != "" && !IsSpace(fromValue[0])
    ensures var b := a + |afterKey|; ValueFollows(t, a, b, b + 1 + |beforeValue|, fromColon, fromValue)
  {
    assert !IsSpace(":"[0]);
    hide Blank, IsSpace;
    TokenBehind(t, a, afterKey, ":", afterColon, fromColon);
    BlankBehind(t, a + |afterKey| + 1, beforeValue, fromValue);
  }

  lemma ValueStartIs(m: LaidMember, name: string)
    requires name == PrintString(m.key)
    ensures ValueStart(m) == |m.before| + |name| + |m.afterKey| + 1 + |m.beforeValue|
  {
  }

  /** One round of the lookup from the offsets of its tokens. */
  lemma RoundOnText(t: string, key: string, w: nat, a: nat, b: nat, v: nat, fromName: string, afterName: string,
                    fromColon: string, fromValue: string, token: Token, len: nat)
    requires NameAt(t, w, a, fromName, afterName) && ValueFollows(t, a, b, v, fromColon, fromValue)
    requires fromName != "" && fromName[0] == '"' && StringToken(fromName) == Some(token) && a == w + token.len
    requires fromColon != "" && fromColon[0] == ':' && fromValue != "" && ValueLen(fromValue) == Some(len)
    ensures KeyRound(t, key)
         == if token.text == key then Found(v) else Next(v + len + CommaLen(fromValue[len..]))
  {
    hide Blank, KeyRound, StringToken, ValueLen, AfterKey, CommaLen;
    assert t[w] == fromName[0] && t[b] == fromColon[0];
    StringTokenIsLong(fromName);
    KeyRoundToken(t, key, w, fromName, token);
    AfterKeyOf(t, a, b, v, token.text == key, fromValue, Some(len));
  }

  lemma StringTokenIsLong(t: string)
    ensures StringToken(t).Some? ==> StringToken(t).value.len > 1
  {
  }

  lemma HeadIs(m: LaidMember, t: string, fromValue: string, fromColon: string, fromName: string)
    requires t == HeadText(m) + fromValue
    requires fromColon == ":" + (m.beforeValue + fromValue)
    requires fromName == PrintString(m.key) + (m.afterKey + fromColon)
    ensures t == m.before + fromName
  {
    hide PrintString;
  }

  lemma TokensText(m: LaidMember, fromColon: string, rest: string, name: string, value: string)
    requires Ended(rest)
    requires name == PrintString(m.key) && value == Text(m.value)
    ensures name != "" && name[0] == '"' && !IsSpace(name[0])
    ensures StringToken(name + (m.afterKey + fromColon)) == Some(Token(Scanned(m.key), |name|))
    ensures value != "" && !IsSpace(value[0]) && ValueLen(value + rest) == Some(|value|)
  {
    StringTokenPrinted(m.key, m.afterKey + fromColon);
    TextStarts(m.value);
    ValueLenText(m.value, rest);
  }

  lemma TailOfMore(t: string, head: string, more: string, off: nat)
    requires t == head + more && off <= |more|
    ensures t[|head| + off..] == more[off..]
  {
  }

  /** The text at the value's offset is the value, followed by its blanks and a comma or the end. */
  lemma {:induction false} ValueAtOffset(members: seq<LaidMember>, k: nat) returns (rest: string)
    requires k < |members|
    ensures ValueOffset(members, k) <= |MembersText(members)|
    ensures MembersText(members)[ValueOffset(members, k)..] == Text(members[k].value) + rest
    ensures Ended(rest)
    decreases k
  {
    hide HeadText, Text, MemberText, Ended;
    var t, m, tail := MembersText(members), members[0], TailText(members);
    MembersSplit(members);
    if k == 0 {
      rest := m.after + tail;
      OnwardsIsEnd(m.after, tail);
      assert t[|HeadText(m)|..] == Text(m.value) + rest;
    } else {
      rest := ValueAtOffset(members[1..], k - 1);
      var more, head, off := MembersText(members[1..]), MemberText(m) + ",", ValueOffset(members[1..], k - 1);
      assert t == head + more;
      TailOfMore(t, head, more, off);
    }
  }
}
