/**
 The command parser read as a function of the JSON tree: parsing any text of any object, with
 white space or without, is the same as looking the fields up in the tree.
 */
module CommandMeaning {
  import opened Wrappers
  import opened JsonText
  import opened JsonLayout
  import opened Scanner
  import opened JsonScan
  import CR = CommandReceiver

  // ------------------------------------------------------------ fields of a tree

  function ValueAt(members: seq<Member>, key: string): Option<Json> {
    var k := FirstMember(members, key);
    if k == |members| then None else Some(members[k].value)
  }

  function TextAt(members: seq<Member>, key: string): Option<string> {
    match ValueAt(members, key)
    case Some(Str(s)) => Some(Scanned(s))
    case _ => None
  }

  function RealAt(members: seq<Member>, key: string): Option<real> {
    match ValueAt(members, key)
    case Some(Num(n)) => Some(NumeralValue(n))
    case _ => None
  }

  function IntAt(members: seq<Member>, key: string): Option<int> {
    match ValueAt(members, key)
    case Some(Num(n)) => CR.ToInt(NumeralValue(n))
    case _ => None
  }

  function BoolAt(members: seq<Member>, key: string): Option<bool> {
    match ValueAt(members, key)
    case Some(Bool(b)) => Some(b)
    case _ => None
  }

  function SetpointsOf(members: seq<Member>): CR.Setpoints {
    CR.Setpoints(RealAt(members, "roll"), RealAt(members, "pitch"), RealAt(members, "yaw_rate"),
                 RealAt(members, "throttle"))
  }

  function TrackingOf(members: seq<Member>): Option<CR.Tracking> {
    var state, visSeq := IntAt(members, "tracking_state"), IntAt(members, "vis_seq");
    var x, y := RealAt(members, "loc_x"), RealAt(members, "loc_y");
    var w, h := RealAt(members, "bound_w"), RealAt(members, "bound_h");
    var confidence, time := RealAt(members, "confidence"), RealAt(members, "vis_timestamp_s");
    if state.None? || visSeq.None? || x.None? || y.None? || w.None? || h.None?
       || confidence.None? || time.None? then None
    else if state.value < 1 || state.value > 4 then None
    else Some(CR.Tracking(state.value, x.value, y.value, w.value, h.value, confidence.value, visSeq.value, time.value))
  }

  /** The command an object means to the flight controller, or nothing when it is refused. */
  function CommandOf(members: seq<Member>): Option<CR.CommandFrame> {
    var seqNo, time, mode := IntAt(members, "seq"), RealAt(members, "timestamp_s"), IntAt(members, "desired_mode");
    var setpoints, tracking := ValueAt(members, "setpoints"), ValueAt(members, "tracking");
    if TextAt(members, "type") != Some("CMD") || seqNo.None? || time.None? || mode.None? then None
    else if (setpoints.Some? && !setpoints.value.Obj?) || (tracking.Some? && !tracking.value.Obj?) then None
    else if tracking.Some? && TrackingOf(tracking.value.members).None? then None
    else Some(CR.CommandFrame(
      seqNo.value, time.value, mode.value, BoolAt(members, "arm"),
      if setpoints.Some? then SetpointsOf(setpoints.value.members) else CR.NO_SETPOINTS,
      if tracking.Some? then TrackingOf(tracking.value.members) else None))
  }

  predicate IsIntNumber(v: Option<Json>) {
    v.Some? && v.value.Num? && CR.ToInt(NumeralValue(v.value.n)).Some?
  }

  predicate IsNumber(v: Option<Json>) {
    v.Some? && v.value.Num?
  }

  predicate IsTracking(v: Json) {
    v.Obj? && var m := v.members;
    && IsIntNumber(ValueAt(m, "tracking_state")) && IsNumber(ValueAt(m, "loc_x")) && IsNumber(ValueAt(m, "loc_y"))
    && IsNumber(ValueAt(m, "bound_w")) && IsNumber(ValueAt(m, "bound_h")) && IsNumber(ValueAt(m, "confidence"))
    && IsIntNumber(ValueAt(m, "vis_seq")) && IsNumber(ValueAt(m, "vis_timestamp_s"))
    && 1 <= CR.ToInt(NumeralValue(ValueAt(m, "tracking_state").value.n)).value <= 4
  }

  /**
   Exactly which objects are commands: the type reads `CMD`, number, time and mode are there, set-points
   are an object if there are any, and tracking data is complete with a state from 1 to 4 if there is any.
   A set-point or arm switch of the wrong kind is passed over.
   */
  lemma AcceptedIff(members: seq<Member>)
    ensures CommandOf(members).Some?
       <==> var kind, setpoints, tracking := ValueAt(members, "type"), ValueAt(members, "setpoints"),
                                             ValueAt(members, "tracking");
            && kind.Some? && kind.value.Str? && Scanned(kind.value.s) == "CMD"
            && IsIntNumber(ValueAt(members, "seq")) && IsNumber(ValueAt(members, "timestamp_s"))
            && IsIntNumber(ValueAt(members, "desired_mode"))
            && (setpoints.Some? ==> setpoints.value.Obj?) && (tracking.Some? ==> IsTracking(tracking.value))
  {
    hide ValueAt, NumeralValue, CR.ToInt, Scanned;
  }

  // ------------------------------------------------------------ numeral tokens

  lemma CharDigitsPrinted(ds: seq<Digit>)
    ensures CR.CharDigits(PrintDigits(ds)) == ds
  {
  }

  lemma TokenExponentPrinted(e: Option<Exponent>)
    requires e.Some? ==> |e.value.digits| > 0
    ensures CR.TokenExponent(PrintExponent(e)) == ExponentValue(e)
  {
    hide ExponentLen;
    var t := PrintExponent(e);
    assert t + "" == t;
    ExponentPrinted(e, "");
    if e.Some? {
      var Exponent(sign, digits) := e.value;
      var s := if sign == NoSign then 1 else 2;
      assert t[s..|t|] == PrintDigits(digits);
      assert sign == NoSign ==> t[1] == DigitChar(digits[0]);
      CharDigitsPrinted(digits);
    }
  }

  /** The token of a printed numeral reads back as the number the numeral denotes. */
  lemma TokenValuePrinted(n: Numeral)
    ensures CR.TokenValue(PrintNumeral(n)) == NumeralValue(n)
  {
    hide *;
    var t, exp, frac := PrintNumeral(n), PrintExponent(n.exp), PrintFraction(n.frac) + PrintExponent(n.exp);
    assert t + "" == t && exp + "" == exp;
    var s, w, f := NumeralSplits(n, "", t, frac, exp);
    EndOfText();
    HasDigits(n);
    NumeralRuns(n, "", exp, frac);
    TokenExponentPrinted(n.exp);
    FractionDigits(n.frac, exp);
    assert t[s..w] == PrintDigits(n.whole) by { assert t[s..w] == t[s..][..w - s]; PrintDigitsLen(n.whole); }
    assert f > w ==> t[w + 1..f] == PrintDigits(n.frac) by {
      if f > w {
        assert t[w + 1..f] == t[w..][1..f - w];
      }
    }
    CharDigitsPrinted(n.whole);
    CharDigitsPrinted(n.frac);
    SignStarts(n, t);
    TokenValueOf(n, t, s, w, f);
  }

  lemma HasDigits(n: Numeral)
    ensures |n.whole| > 0 && (n.exp.Some? ==> |n.exp.value.digits| > 0)
  {
  }

  lemma EndOfText()
    ensures AtValueEnd("")
  {
  }

  lemma PrintDigitsLen(ds: seq<Digit>)
    ensures |PrintDigits(ds)| == |ds|
  {
  }

  lemma FractionDigits(frac: seq<Digit>, exp: string)
    ensures var t := PrintFraction(frac) + exp;
            if frac == [] then PrintFraction(frac) == ""
            else |PrintFraction(frac)| > 0 && t[1..|PrintFraction(frac)|] == PrintDigits(frac)
  {
  }

  lemma TokenValueOf(n: Numeral, t: string, s: nat, w: nat, f: nat)
    requires SignLen(t) == s && s + DigitRun(t[s..]) == w <= |t| && w + FractionLen(t[w..]) == f <= |t|
    requires CR.CharDigits(t[s..w]) == n.whole && (t != "" && t[0] == '-' <==> n.neg)
    requires if f > w then CR.CharDigits(t[w + 1..f]) == n.frac else n.frac == []
    requires CR.TokenExponent(t[f..]) == ExponentValue(n.exp)
    ensures CR.TokenValue(t) == NumeralValue(n)
  {
    hide SignLen, DigitRun, FractionLen, CR.CharDigits, CR.TokenExponent, ExponentValue, Magnitude;
    assert f == w ==> CR.CharDigits("") == [];
  }

  lemma SignStarts(n: Numeral, t: string)
    requires t == PrintNumeral(n)
    ensures t != "" && (t[0] == '-' <==> n.neg)
  {
    assert !n.neg ==> t[0] == DigitChar(n.whole[0]);
  }

  /** A printed int reads back as that int when it fits the receiver's 32 bits, and not at all otherwise. */
  lemma IntReadsBack(i: int)
    ensures CR.ToInt(NumeralValue(IntNumeral(i))) == if CR.IsInt32(i) then Some(i) else None
  {
    IntNumeralValue(i);
    hide NumeralValue;
    assert (i as real + 0.5).Floor == i;
  }

  /** A number is taken for an int exactly when it is in range and no more than a millionth away from it. */
  lemma ToIntIff(v: real, i: int)
    ensures CR.ToInt(v) == Some(i)
       <==> -2147483648.0 <= v <= 2147483647.0 && -0.000001 <= v - i as real <= 0.000001
  {
    var n := CR.Nearest(v);
    FloorBounds(v + 0.5);
    if -0.000001 <= v - i as real <= 0.000001 {
      FloorIs(v + 0.5, i);
    }
  }

  lemma FloorBounds(x: real)
    ensures x.Floor as real <= x < x.Floor as real + 1.0
  {
  }

  lemma FloorIs(x: real, i: int)
    requires i as real <= x < i as real + 1.0
    ensures x.Floor == i
  {
  }

  // ------------------------------------------------------- fields of the text

  lemma NoNumber(l: Laid, rest: string)
    requires !Tree(l).Num?
    ensures NumberLen(Text(l) + rest) == None
  {
    var t := Text(l) + rest;
    TextStarts(l);
    if l.Atom? {
      FlatStarts(l.v);
    }
    assert t[0] == Text(l)[0] && t[0] !in "+-." && !IsDigit(t[0]) by { KindByStart(l); }
    assert t[0..] == t;
  }

  /** The first character of a value that is no number. */
  lemma KindByStart(l: Laid)
    ensures Text(l) != ""
    ensures !Tree(l).Num? ==> Text(l)[0] in "{[\"ntf"
    ensures Tree(l).Num? ==> Text(l)[0] == '-' || '0' <= Text(l)[0] <= '9'
  {
    TextStarts(l);
    if l.Atom? {
      FlatStarts(l.v);
    }
  }

  /** The text between the braces of an object. */
  function InnerText(o: Laid): string
    requires o.LaidObj?
  {
    if |o.members| == 0 then o.inner else MembersText(o.members)
  }

  /** Where the lookup ends up between the braces of an object. */
  lemma LookUp(o: Laid, key: string) returns (k: nat, p: nat, rest: string)
    requires o.LaidObj?
    ensures k == FirstMember(TreeMembers(o.members), key) <= |o.members|
    ensures k == |o.members| ==> ValueAt(TreeMembers(o.members), key) == None && FindKey(InnerText(o), key) == None
    ensures k < |o.members| ==>
              && ValueAt(TreeMembers(o.members), key) == Some(Tree(o.members[k].value))
              && FindKey(InnerText(o), key) == Some(p) && p <= |InnerText(o)|
              && InnerText(o)[p..] == Text(o.members[k].value) + rest
    ensures Ended(rest) && AtValueEnd(rest)
  {
    hide FirstMember, FindKey, MembersText, Text, Tree, ValueOffset, Ended, AtValueEnd;
    k, p, rest := FirstMember(TreeMembers(o.members), key), 0, "";
    FindKeyText(o.members, key);
    NoKeyInBlanks(o.inner, key);
    NothingIsEnd();
    if k < |o.members| {
      p := ValueOffset(o.members, k);
      rest := ValueAtOffset(o.members, k);
      TreeMemberAt(o.members, k);
    }
    EndedIsValueEnd(rest);
  }

  lemma NothingIsEnd()
    ensures Ended("")
  {
  }

  lemma NumberFieldText(o: Laid, key: string)
    requires o.LaidObj?
    ensures NumberField(InnerText(o), key)
         == match ValueAt(TreeMembers(o.members), key) case Some(Num(n)) => Some(PrintNumeral(n)) case _ => None
  {
    hide FindKey, FirstMember, InnerText, Text, NumberLen, PrintNumeral, ValueAt, Ended, AtValueEnd;
    var k, p, rest := LookUp(o, key);
    if k < |o.members| {
      var l := o.members[k].value;
      if Tree(l).Num? {
        TextOfNumber(l);
        NumberPrinted(Tree(l).n, rest);
        At(InnerText(o), p, Text(l), rest);
      } else {
        NoNumber(l, rest);
      }
    }
  }

  lemma TextOfNumber(l: Laid)
    requires Tree(l).Num?
    ensures Text(l) == PrintNumeral(Tree(l).n)
  {
  }

  lemma StringFieldText(o: Laid, key: string)
    requires o.LaidObj?
    ensures StringField(InnerText(o), key) == TextAt(TreeMembers(o.members), key)
  {
    hide FindKey, FirstMember, InnerText, Text, StringToken, PrintString, Scanned, ValueAt, Ended, AtValueEnd;
    var k, p, rest := LookUp(o, key);
    if k < |o.members| {
      var l := o.members[k].value;
      if Tree(l).Str? {
        TextOfString(l);
        StringTokenPrinted(Tree(l).s, rest);
      } else {
        NoToken(l, rest);
      }
    }
  }

  lemma TextOfString(l: Laid)
    requires Tree(l).Str?
    ensures Text(l) == PrintString(Tree(l).s)
  {
  }

  lemma NoToken(l: Laid, rest: string)
    requires !Tree(l).Str?
    ensures StringToken(Text(l) + rest) == None
  {
    TextStarts(l);
    if l.Atom? {
      FlatStarts(l.v);
    }
    assert (Text(l) + rest)[0] == Text(l)[0];
  }

  lemma BoolFieldText(o: Laid, key: string)
    requires o.LaidObj?
    ensures BoolField(InnerText(o), key) == BoolAt(TreeMembers(o.members), key)
  {
    hide FindKey, FirstMember, InnerText, Text, ValueAt, Ended, AtValueEnd;
    var k, p, rest := LookUp(o, key);
    if k < |o.members| {
      BoolText(o.members[k].value, rest);
    }
  }

  lemma BoolText(l: Laid, rest: string)
    requires AtValueEnd(rest)
    ensures var t := Text(l) + rest;
            && ("true" <= t && AtValueEnd(t[4..]) <==> Tree(l) == Bool(true))
            && ("false" <= t && AtValueEnd(t[5..]) <==> Tree(l) == Bool(false))
  {
    hide AtValueEnd;
    var t := Text(l) + rest;
    TextStarts(l);
    if l.Atom? {
      FlatStarts(l.v);
    }
    assert t[0] == Text(l)[0];
    if Tree(l).Bool? {
      assert t[|Text(l)|..] == rest;
    }
  }

  lemma ObjectBodyText(o: Laid, key: string)
    requires o.LaidObj?
    ensures ObjectBody(InnerText(o), key)
         == var k := FirstMember(TreeMembers(o.members), key);
            if k == |o.members| then Absent
            else if o.members[k].value.LaidObj? then Body(InnerText(o.members[k].value))
            else Malformed
  {
    hide FindKey, FirstMember, InnerText, Text, MatchingClose, ValueAt, Ended, AtValueEnd;
    var k, p, rest := LookUp(o, key);
    if k < |o.members| {
      var l := o.members[k].value;
      if l.LaidObj? {
        ObjectBodyAt(InnerText(o), p, l, rest);
      } else {
        NoObject(l, rest);
      }
    }
  }

  lemma ObjectBodyAt(t: string, p: nat, l: Laid, rest: string)
    requires l.LaidObj? && p <= |t| && t[p..] == Text(l) + rest
    ensures MatchingClose(t[p..], '{', '}') == Some(|Text(l)| - 1) && |Text(l)| >= 2
    ensures t[p + 1..p + (|Text(l)| - 1)] == InnerText(l)
  {
    CloseText(l, rest);
    TextOfObject(l);
    hide Text, MembersText, MatchingClose, InnerText;
    Subslice(t, p, |t|, 1, |Text(l)| - 1);
  }

  lemma TextOfObject(l: Laid)
    requires l.LaidObj?
    ensures Text(l) == ['{'] + InnerText(l) + ['}']
  {
  }

  lemma NoObject(l: Laid, rest: string)
    requires !l.LaidObj?
    ensures MatchingClose(Text(l) + rest, '{', '}') == None
  {
    TextStarts(l);
    assert (Text(l) + rest)[0] == Text(l)[0];
  }

  // ----------------------------------------------------------- whole commands

  lemma RealFieldText(o: Laid, key: string)
    requires o.LaidObj?
    ensures CR.RealField(InnerText(o), key) == RealAt(TreeMembers(o.members), key)
    ensures CR.IntField(InnerText(o), key) == IntAt(TreeMembers(o.members), key)
  {
    hide NumberField, InnerText, ValueAt, CR.TokenValue, PrintNumeral, NumeralValue, CR.ToInt, TreeMembers;
    NumberFieldText(o, key);
    var v := ValueAt(TreeMembers(o.members), key);
    if v.Some? && v.value.Num? {
      TokenValuePrinted(v.value.n);
    }
  }

  lemma SetpointsText(o: Laid)
    requires o.LaidObj?
    ensures CR.ParseSetpoints(InnerText(o)) == SetpointsOf(TreeMembers(o.members))
  {
    hide CR.RealField, RealAt, InnerText, CR.IntField, IntAt, TreeMembers;
    RealFieldText(o, "roll");
    RealFieldText(o, "pitch");
    RealFieldText(o, "yaw_rate");
    RealFieldText(o, "throttle");
  }

  lemma TrackingText(o: Laid)
    requires o.LaidObj?
    ensures CR.ParseTracking(InnerText(o)) == TrackingOf(TreeMembers(o.members))
  {
    hide CR.RealField, RealAt, InnerText, CR.IntField, IntAt, TreeMembers;
    RealFieldText(o, "tracking_state");
    RealFieldText(o, "loc_x");
    RealFieldText(o, "loc_y");
    RealFieldText(o, "bound_w");
    RealFieldText(o, "bound_h");
    RealFieldText(o, "confidence");
    RealFieldText(o, "vis_seq");
    RealFieldText(o, "vis_timestamp_s");
  }

  /** A nested object is read as its own tree, in either way it is used. */
  lemma NestedText(o: Laid, key: string)
    requires o.LaidObj?
    ensures var v, body := ValueAt(TreeMembers(o.members), key), ObjectBody(InnerText(o), key);
            && (v == None <==> body.Absent?) && (v.Some? && v.value.Obj? <==> body.Body?)
            && (body.Body? ==> CR.ParseSetpoints(body.text) == SetpointsOf(v.value.members)
                               && CR.ParseTracking(body.text) == TrackingOf(v.value.members))
  {
    hide ObjectBody, InnerText, CR.ParseSetpoints, CR.ParseTracking, SetpointsOf, TrackingOf, FindKey;
    ObjectBodyText(o, key);
    var k := FirstMember(TreeMembers(o.members), key);
    if k < |o.members| {
      TreeMemberAt(o.members, k);
      var l := o.members[k].value;
      if l.LaidObj? {
        SetpointsText(l);
        TrackingText(l);
      }
    }
  }

  lemma BodyText(o: Laid)
    requires o.LaidObj?
    ensures CR.ParseBody(InnerText(o)) == CommandOf(TreeMembers(o.members))
  {
    hide CR.RealField, RealAt, InnerText, CR.IntField, IntAt, StringField, TextAt, BoolField, BoolAt, TreeMembers;
    hide ObjectBody, ValueAt, CR.ParseSetpoints, CR.ParseTracking, SetpointsOf, TrackingOf;
    RealFieldText(o, "seq");
    RealFieldText(o, "timestamp_s");
    RealFieldText(o, "desired_mode");
    StringFieldText(o, "type");
    BoolFieldText(o, "arm");
    NestedText(o, "setpoints");
    NestedText(o, "tracking");
  }

  /** The white space of the C locale. */
  predicate AllSpace(s: string) {
    forall i | 0 <= i < |s| :: s[i] in " \t\n\U{0B}\U{0C}\r"
  }

  lemma {:induction false} BlankOfSpace(s: string)
    ensures Blank(s) == |s| <==> AllSpace(s)
    decreases |s|
  {
    if s != "" {
      BlankOfSpace(s[1..]);
      assert forall i | 1 <= i < |s| :: s[i] == s[1..][i - 1];
      if IsSpace(s[0]) {
        assert s[0] in " \t\n\U{0B}\U{0C}\r";
        if AllSpace(s[1..]) {
          forall i | 0 <= i < |s| ensures s[i] in " \t\n\U{0B}\U{0C}\r" {
            assert i > 0 ==> s[1..][i - 1] in " \t\n\U{0B}\U{0C}\r";
          }
        }
      }
    }
  }

  /** The root object is found behind any blanks, and only if nothing but white space follows it. */
  lemma RootText(lead: Blanks, o: Laid, trail: string)
    requires o.LaidObj?
    ensures var end := |lead| + |Text(o)| - 1;
            RootSpan(lead + Text(o) + trail) == if AllSpace(trail) then Some(Span(|lead|, end)) else None
  {
    hide Text, MatchingClose, Blank, AllSpace, IsSpace;
    var t, rest := lead + Text(o) + trail, Text(o) + trail;
    Associative(lead, Text(o), trail);
    TextStarts(o);
    assert rest[0] == Text(o)[0];
    BlankOver(lead, rest);
    assert t[|lead|..] == rest;
    CloseText(o, trail);
    assert t[|lead + Text(o)|..] == trail;
    BlankOfSpace(trail);
  }

  /**
   Parsing any text of an object, whatever it holds and wherever it has blanks, is reading its
   fields off the tree: nothing inside strings, arrays or nested objects can pass for a field of
   the command, white space means nothing, and anything else behind the object refuses it.
   */
  lemma ParseText(lead: Blanks, o: Laid, trail: string)
    requires o.LaidObj?
    ensures CR.ParseCmd(lead + Text(o) + trail) == if AllSpace(trail) then CommandOf(TreeMembers(o.members)) else None
  {
    hide Text, RootSpan, CR.ParseBody, CommandOf, InnerText, TreeMembers, AllSpace;
    RootText(lead, o, trail);
    TextOfObject(o);
    var t := lead + Text(o) + trail;
    var first, last := |lead|, |lead| + |Text(o)| - 1;
    assert t[first + 1..last] == InnerText(o);
    BodyText(o);
  }

  /** The compact printing in particular. */
  lemma ParsePrinted(members: seq<Member>)
    ensures CR.ParseCmd(Print(Obj(members))) == CommandOf(members)
  {
    hide Text, Print, CR.ParseCmd, CommandOf, TreeMembers;
    var o := Compact(Obj(members));
    CompactIsPrint(Obj(members));
    CompactIsObject(members);
    ParseText("", o, "");
    assert "" + Text(o) + "" == Text(o);
  }

  lemma CompactIsObject(members: seq<Member>)
    ensures var o := Compact(Obj(members)); o.LaidObj? && Tree(o) == Obj(TreeMembers(o.members))
  {
  }
}
