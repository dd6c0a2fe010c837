/** Exactly which texts the scanner takes for a number or a string token, on any text at all. */
module TokenGrammar {
  import opened Wrappers
  import opened Scanner

  // ---------------------------------------------------------------- where values end

  /** Nothing, or a comma, a closing bracket or white space of the C locale. */
  predicate EndHere(t: string) {
    t == "" || t[0] in ",}] \t\n\U{0B}\U{0C}\r"
  }

  lemma ValueEndIff(t: string)
    ensures AtValueEnd(t) <==> EndHere(t)
  {
  }

  // ------------------------------------------------------------------ numbers

  predicate AllDigits(t: string) {
    forall i | 0 <= i < |t| :: '0' <= t[i] <= '9'
  }

  predicate SignText(t: string) {
    t == "" || t == "+" || t == "-"
  }

  datatype ExponentText = ExponentText(mark: char, sign: string, digits: string) {
    predicate Valid() {
      (mark == 'e' || mark == 'E') && SignText(sign) && AllDigits(digits) && digits != ""
    }

    function Text(): string {
      [mark] + sign + digits
    }
  }

  /** A number as the scanner takes it: a sign, digits, a point and digits, an exponent; some digit before that. */
  datatype NumberText = NumberText(sign: string, whole: string, frac: Option<string>, exp: Option<ExponentText>) {
    predicate Valid() {
      && SignText(sign) && AllDigits(whole) && (frac.Some? ==> AllDigits(frac.value))
      && (whole != "" || (frac.Some? && frac.value != "")) && (exp.Some? ==> exp.value.Valid())
    }

    function FracText(): string {
      match frac case None => "" case Some(digits) => "." + digits
    }

    function ExpText(): string {
      match exp case None => "" case Some(e) => e.Text()
    }

    function Text(): string {
      sign + (whole + (FracText() + ExpText()))
    }
  }

  lemma {:induction false} DigitRunOver(digits: string, rest: string)
    requires AllDigits(digits) && (rest == "" || !('0' <= rest[0] <= '9'))
    ensures DigitRun(digits + rest) == |digits|
    decreases |digits|
  {
    var t := digits + rest;
    if digits == "" {
      assert t == rest;
    } else {
      assert t[1..] == digits[1..] + rest;
      DigitRunOver(digits[1..], rest);
    }
  }

  lemma {:induction false} DigitRunIsDigits(t: string)
    ensures AllDigits(t[..DigitRun(t)])
    decreases |t|
  {
    var n := DigitRun(t);
    if n > 0 {
      DigitRunIsDigits(t[1..]);
      forall i | 0 <= i < n ensures '0' <= t[..n][i] <= '9' {
        assert i > 0 ==> t[i] == t[1..][..n - 1][i - 1];
      }
    }
  }

  lemma SignOver(sign: string, rest: string)
    requires SignText(sign) && (rest == "" || rest[0] !in "+-")
    ensures SignLen(sign + rest) == |sign| && (sign + rest)[|sign|..] == rest
  {
  }

  lemma ExponentIs(t: string, s: nat)
    requires t != "" && (t[0] == 'e' || t[0] == 'E') && s == 1 + SignLen(t[1..]) && DigitRun(t[s..]) > 0
    ensures ExponentLen(t) == Some(s + DigitRun(t[s..]))
  {
    hide SignLen, DigitRun;
  }

  lemma NoExponentIs(t: string)
    requires EndHere(t)
    ensures ExponentLen(t) == Some(0)
  {
  }

  lemma ExponentTaken(t: string, mark: char, fromSign: string, sign: string, tail: string)
    requires t == [mark] + fromSign && fromSign == sign + tail && (mark == 'e' || mark == 'E')
    requires SignLen(fromSign) == |sign| && DigitRun(tail) > 0
    ensures ExponentLen(t) == Some(1 + |sign| + DigitRun(tail))
  {
    hide ExponentLen, SignLen, DigitRun;
    assert t[0..] == t;
    Behind(t, 0, [mark], fromSign);
    Behind(t, 1, sign, tail);
    ExponentIs(t, 1 + |sign|);
  }

  lemma ExponentOver(exp: Option<ExponentText>, rest: string)
    requires (exp.Some? ==> exp.value.Valid()) && EndHere(rest)
    ensures var text := match exp case None => "" case Some(e) => e.Text();
            ExponentLen(text + rest) == Some(|text|)
  {
    hide DigitRun, SignLen, ExponentLen;
    match exp
    case None =>
      assert "" + rest == rest;
      NoExponentIs(rest);
    case Some(e) => ExponentTextOver(e, rest, e.digits + rest, e.sign + (e.digits + rest));
  }

  lemma ExponentTextOver(e: ExponentText, rest: string, tail: string, fromSign: string)
    requires e.Valid() && EndHere(rest) && tail == e.digits + rest && fromSign == e.sign + tail
    ensures ExponentLen(e.Text() + rest) == Some(|e.Text()|)
  {
    hide DigitRun, SignLen, ExponentLen;
    DigitRunOver(e.digits, rest);
    SignOver(e.sign, tail);
    Associative([e.mark] + e.sign, e.digits, rest);
    Associative([e.mark], e.sign, tail);
    ExponentTaken([e.mark] + fromSign, e.mark, fromSign, e.sign, tail);
  }

  lemma FractionOver(frac: Option<string>, rest: string)
    requires (frac.Some? ==> AllDigits(frac.value)) && (rest == "" || (rest[0] != '.' && !('0' <= rest[0] <= '9')))
    ensures var text := match frac case None => "" case Some(digits) => "." + digits;
            FractionLen(text + rest) == |text|
  {
    hide DigitRun;
    match frac
    case None =>
      assert "" + rest == rest;
    case Some(digits) =>
      DigitRunOver(digits, rest);
      assert ("." + digits + rest)[1..] == digits + rest;
  }

  /** Four parts and a rest, each at the offset where the one before ends. */
  lemma PartsStand(t: string, sign: string, fromWhole: string, whole: string, fromFrac: string, frac: string,
                   fromExp: string, exp: string, rest: string)
    requires t == sign + fromWhole && fromWhole == whole + fromFrac && fromFrac == frac + fromExp
    requires fromExp == exp + rest
    ensures var w, f := |sign| + |whole|, |sign| + |whole| + |frac|;
            && f + |exp| <= |t| && t[|sign|..] == fromWhole && t[w..] == fromFrac && t[f..] == fromExp
            && t[f + |exp|..] == rest
  {
    assert t[0..] == t;
    Behind(t, 0, sign, fromWhole);
    Behind(t, |sign|, whole, fromFrac);
    Behind(t, |sign| + |whole|, frac, fromExp);
    Behind(t, |sign| + |whole| + |frac|, exp, rest);
  }

  /** A number text in front of the end of a value is taken as a whole. */
  lemma NumberTaken(p: NumberText, rest: string)
    requires p.Valid() && EndHere(rest)
    ensures NumberLen(p.Text() + rest) == Some(|p.Text()|)
  {
    hide NumberLen, DigitRun, SignLen, FractionLen, ExponentLen, AtValueEnd;
    var frac, exp := p.FracText(), p.ExpText();
    var fromExp := exp + rest;
    var fromFrac := frac + fromExp;
    var fromWhole := p.whole + fromFrac;
    ExponentOver(p.exp, rest);
    FractionOver(p.frac, fromExp);
    DigitRunOver(p.whole, fromFrac);
    SignOver(p.sign, fromWhole);
    TextOfParts(p.sign, p.whole, frac, exp, rest);
    ValueEndIff(rest);
    hide *;
    NumberFromParts(p.Text() + rest, p.sign, fromWhole, p.whole, fromFrac, frac, fromExp, exp, rest);
  }

  lemma TextOfParts(sign: string, whole: string, frac: string, exp: string, rest: string)
    ensures sign + (whole + (frac + exp)) + rest == sign + (whole + (frac + (exp + rest)))
  {
  }

  lemma NumberFromParts(t: string, sign: string, fromWhole: string, whole: string, fromFrac: string, frac: string,
                        fromExp: string, exp: string, rest: string)
    requires t == sign + fromWhole && fromWhole == whole + fromFrac && fromFrac == frac + fromExp
    requires fromExp == exp + rest && AtValueEnd(rest)
    requires SignLen(t) == |sign| && DigitRun(fromWhole) == |whole| && FractionLen(fromFrac) == |frac|
    requires ExponentLen(fromExp) == Some(|exp|) && (whole != "" || |frac| > 1)
    ensures NumberLen(t) == Some(|sign| + |whole| + |frac| + |exp|)
  {
    hide *;
    PartsStand(t, sign, fromWhole, whole, fromFrac, frac, fromExp, exp, rest);
    NumberLenOf(t, |sign|, |sign| + |whole|, |sign| + |whole| + |frac|, Some(|exp|));
  }

  lemma FractionParts(t: string) returns (frac: Option<string>)
    ensures frac.Some? ==> AllDigits(frac.value)
    ensures t[..FractionLen(t)] == match frac case None => "" case Some(digits) => "." + digits
    ensures FractionLen(t) > 1 <==> frac.Some? && frac.value != ""
  {
    hide DigitRun;
    if FractionLen(t) == 0 {
      return None;
    }
    var n := DigitRun(t[1..]);
    DigitRunIsDigits(t[1..]);
    frac := Some(t[1..][..n]);
    assert t[..1 + n] == "." + t[1..][..n];
  }

  lemma ExponentParts(t: string) returns (exp: Option<ExponentText>)
    requires ExponentLen(t).Some?
    ensures exp.Some? ==> exp.value.Valid()
    ensures t[..ExponentLen(t).value] == match exp case None => "" case Some(e) => e.Text()
  {
    hide DigitRun;
    if ExponentLen(t).value == 0 {
      return None;
    }
    var s := SignLen(t[1..]);
    var tail := t[1 + s..];
    var n := DigitRun(tail);
    DigitRunIsDigits(tail);
    exp := Some(ExponentText(t[0], t[1..][..s], tail[..n]));
    assert t[..1 + s + n] == [t[0]] + t[1..][..s] + tail[..n];
  }

  lemma FourCuts(t: string, s: nat, w: nat, f: nat, e: nat)
    requires s <= w <= f <= e <= |t|
    ensures t[..e] == t[..s] + (t[s..][..w - s] + (t[w..][..f - w] + t[f..][..e - f]))
  {
    assert t[s..][..w - s] == t[s..w] && t[w..][..f - w] == t[w..f] && t[f..][..e - f] == t[f..e];
  }

  /** What is taken is a number text, with the end of a value behind it. */
  lemma NumberParts(t: string) returns (p: NumberText)
    requires NumberLen(t).Some?
    ensures p.Valid() && p.Text() == t[..NumberLen(t).value] && EndHere(t[NumberLen(t).value..])
  {
    hide *;
    var s := SignLen(t);
    var w := s + DigitRun(t[s..]);
    var f := w + FractionLen(t[w..]);
    var len := ExponentLen(t[f..]);
    NumberLenOf(t, s, w, f, len);
    SignParts(t);
    ValueEndIff(t[f + len.value..]);
    DigitRunIsDigits(t[s..]);
    var frac := FractionParts(t[w..]);
    var exp := ExponentParts(t[f..]);
    FourCuts(t, s, w, f, f + len.value);
    p := NumberOf(t[..s], t[s..][..w - s], frac, exp);
  }

  lemma NumberOf(sign: string, whole: string, frac: Option<string>, exp: Option<ExponentText>) returns (p: NumberText)
    requires SignText(sign) && AllDigits(whole) && (frac.Some? ==> AllDigits(frac.value))
    requires (whole != "" || (frac.Some? && frac.value != "")) && (exp.Some? ==> exp.value.Valid())
    ensures p.Valid()
    ensures p.Text() == sign + (whole + ((match frac case None => "" case Some(digits) => "." + digits)
                                         + (match exp case None => "" case Some(e) => e.Text())))
  {
    p := NumberText(sign, whole, frac, exp);
  }

  lemma SignParts(t: string)
    ensures SignText(t[..SignLen(t)])
  {
  }

  /** The scanner takes `n` characters for a number exactly when they are one and a value may end behind them. */
  lemma NumberIff(t: string, n: nat)
    requires n <= |t|
    ensures NumberLen(t) == Some(n) <==> EndHere(t[n..]) && exists p: NumberText :: p.Valid() && p.Text() == t[..n]
  {
    hide *;
    if NumberLen(t) == Some(n) {
      var p := NumberParts(t);
    }
    if EndHere(t[n..]) && exists p: NumberText :: p.Valid() && p.Text() == t[..n] {
      var p: NumberText :| p.Valid() && p.Text() == t[..n];
      NumberTaken(p, t[n..]);
      assert t[..n] + t[n..] == t;
    }
  }

  // ------------------------------------------------------------------ strings

  /** A character that stands for itself, or a backslash with the character it protects. */
  datatype Unit = Itself(c: char) | Escaped(c: char) {
    predicate Valid() {
      Itself? ==> c != '"' && c != '\\'
    }

    function Text(): string {
      if Escaped? then "\\" + [c] else [c]
    }
  }

  predicate AllValid(units: seq<Unit>) {
    forall i | 0 <= i < |units| :: units[i].Valid()
  }

  function UnitsText(units: seq<Unit>): string {
    if units == [] then "" else units[0].Text() + UnitsText(units[1..])
  }

  /** What is kept of a string: the backslashes are lost. */
  function UnitsKept(units: seq<Unit>): string {
    if units == [] then "" else [units[0].c] + UnitsKept(units[1..])
  }

  lemma UnitTaken(u: Unit, later: string)
    requires u.Valid()
    ensures StringBody(u.Text() + later, false) == Prefixed([u.c], |u.Text()|, StringBody(later, false))
  {
    var t := u.Text() + later;
    if u.Escaped? {
      assert t[1..] == [u.c] + later && t[1..][1..] == later;
      PrefixedTwice("", 1, [u.c], 1, StringBody(later, false));
      assert "" + [u.c] == [u.c];
    } else {
      assert t[1..] == later;
    }
  }

  lemma {:induction false} UnitsTaken(units: seq<Unit>, rest: string)
    requires AllValid(units)
    ensures StringBody(UnitsText(units) + (['"'] + rest), false)
         == Some(Token(UnitsKept(units), |UnitsText(units)| + 1))
    decreases |units|
  {
    hide StringBody, Unit.Text;
    if units == [] {
      assert UnitsText(units) + (['"'] + rest) == ['"'] + rest;
      QuoteCloses(rest);
    } else {
      assert forall i | 0 <= i < |units[1..]| :: units[1..][i] == units[i + 1];
      UnitsTaken(units[1..], rest);
      Associative(units[0].Text(), UnitsText(units[1..]), ['"'] + rest);
      UnitTaken(units[0], UnitsText(units[1..]) + (['"'] + rest));
    }
  }

  lemma QuoteCloses(rest: string)
    ensures StringBody(['"'] + rest, false) == Some(Token("", 1))
  {
  }

  /** The first unit of a string's rest, or its closing quote. */
  lemma FirstUnit(t: string) returns (u: Unit)
    requires StringBody(t, false).Some? && t[0] != '"'
    ensures u.Valid() && |u.Text()| < |t| && t[..|u.Text()|] == u.Text()
    ensures StringBody(t, false) == Prefixed([u.c], |u.Text()|, StringBody(t[|u.Text()|..], false))
  {
    if t[0] == '\\' {
      assert t[1..] != "" && t[1..][1..] == t[2..];
      u := Escaped(t[1]);
      assert t[..2] == u.Text();
      PrefixedTwice("", 1, [t[1]], 1, StringBody(t[2..], false));
      assert "" + [t[1]] == [t[1]];
    } else {
      u := Itself(t[0]);
      assert t[..1] == u.Text();
    }
  }

  lemma {:induction false} UnitsParts(t: string) returns (units: seq<Unit>)
    requires StringBody(t, false).Some?
    ensures AllValid(units)
    ensures var token := StringBody(t, false).value;
            token.text == UnitsKept(units) && t[..token.len] == UnitsText(units) + ['"']
    decreases |t|
  {
    if t[0] == '"' {
      units := [];
    } else {
      hide StringBody, Unit.Text, Unit.Valid;
      var u := FirstUnit(t);
      var k := |u.Text()|;
      UnitHasText(u);
      var later := UnitsParts(t[k..]);
      units := [u] + later;
      assert units[1..] == later;
      var n := StringBody(t[k..], false).value.len;
      assert t[..k + n] == t[..k] + t[k..][..n];
      Associative(u.Text(), UnitsText(later), ['"']);
    }
  }

  lemma UnitHasText(u: Unit)
    ensures |u.Text()| > 0
  {
  }

  lemma FirstAndRest(t: string, n: nat)
    requires 0 < n <= |t|
    ensures t[..n] == [t[0]] + t[1..][..n - 1]
  {
  }

  /**
   The scanner takes `n` characters for a string token with text `kept` exactly when they are a
   quote, units with that text, and the first quote that no backslash protects.
   */
  lemma StringIff(t: string, n: nat, kept: string)
    requires n <= |t|
    ensures StringToken(t) == Some(Token(kept, n))
       <==> exists units: seq<Unit> :: AllValid(units) && UnitsKept(units) == kept
                                       && t[..n] == ['"'] + UnitsText(units) + ['"']
  {
    hide StringBody, AllValid, UnitsText, UnitsKept;
    if StringToken(t) == Some(Token(kept, n)) {
      var units := UnitsParts(t[1..]);
      FirstAndRest(t, n);
      Associative(['"'], UnitsText(units), ['"']);
      assert "" + UnitsKept(units) == kept;
    }
    if exists units: seq<Unit> :: AllValid(units) && UnitsKept(units) == kept
                                  && t[..n] == ['"'] + UnitsText(units) + ['"'] {
      var units: seq<Unit> :| AllValid(units) && UnitsKept(units) == kept
                              && t[..n] == ['"'] + UnitsText(units) + ['"'];
      assert t[0] == t[..n][0] && t[1..] == UnitsText(units) + (['"'] + t[n..]);
      UnitsTaken(units, t[n..]);
      assert "" + kept == kept;
    }
  }
}
