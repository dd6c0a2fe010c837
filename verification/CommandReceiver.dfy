/**
 The command parser of the flight controller: the index-moving loops over the received text,
 each proved to compute its function in `Scanner`, and the command they extract.
 */
module CommandReceiver {
  import opened Wrappers
  import JsonText
  import opened Scanner

  // ---------------------------------------------------------------- the command

  datatype Setpoints = Setpoints(roll: Option<real>, pitch: Option<real>, yawRate: Option<real>, throttle: Option<real>)

  const NO_SETPOINTS := Setpoints(None, None, None, None)

  datatype Tracking = Tracking(state: int, locX: real, locY: real, boundW: real, boundH: real,
                               confidence: real, visSeq: int, visTimestamp: real)

  datatype CommandFrame = CommandFrame(seqNo: int, timestamp: real, desiredMode: int, arm: Option<bool>,
                                       setpoints: Setpoints, tracking: Option<Tracking>)

  const INT_MIN: int := -0x8000_0000
  const INT_MAX: int := 0x7FFF_FFFF

  predicate IsInt32(i: int) {
    INT_MIN <= i <= INT_MAX
  }

  // ------------------------------------------------------------- number values

  function CharDigits(t: string): (ds: seq<JsonText.Digit>)
    ensures |ds| == |t|
  {
    seq(|t|, i requires 0 <= i < |t| => if IsDigit(t[i]) then t[i] as int - '0' as int else 0)
  }

  function TokenExponent(t: string): int {
    match ExponentLen(t)
    case None => 0
    case Some(n) =>
      if n == 0 then 0
      else
        var s := 1 + SignLen(t[1..]);
        if s > n then 0
        else
          var magnitude: int := JsonText.DigitsValue(CharDigits(t[s..n]));
          if t[1..] != "" && t[1] == '-' then -magnitude else magnitude
  }

  /** The rational number `strtod` reads in the C locale. */
  function TokenValue(t: string): real {
    var s := SignLen(t);
    var w := s + DigitRun(t[s..]);
    var f := w + FractionLen(t[w..]);
    var frac := if f > w then t[w + 1..f] else "";
    var m := JsonText.Magnitude(CharDigits(t[s..w]), CharDigits(frac), TokenExponent(t[f..]));
    if t != "" && t[0] == '-' then -m else m
  }

  /** The nearest integer. Ties go up, unlike with `nearbyint`, but `ToInt` refuses ties. */
  function Nearest(v: real): int {
    (v + 0.5).Floor
  }

  function ToInt(v: real): Option<int> {
    var distance := v - Nearest(v) as real;
    if v < INT_MIN as real || v > INT_MAX as real || distance > 0.000001 || -distance > 0.000001 then None
    else Some(Nearest(v))
  }

  function RealField(body: string, key: string): Option<real> {
    match NumberField(body, key)
    case None => None
    case Some(t) => Some(TokenValue(t))
  }

  function IntField(body: string, key: string): Option<int> {
    match NumberField(body, key)
    case None => None
    case Some(t) => ToInt(TokenValue(t))
  }

  // ------------------------------------------------------------------- parsing

  function ParseSetpoints(body: string): Setpoints {
    Setpoints(RealField(body, "roll"), RealField(body, "pitch"), RealField(body, "yaw_rate"),
              RealField(body, "throttle"))
  }

  function ParseTracking(body: string): Option<Tracking> {
    var state, visSeq := IntField(body, "tracking_state"), IntField(body, "vis_seq");
    var x, y := RealField(body, "loc_x"), RealField(body, "loc_y");
    var w, h := RealField(body, "bound_w"), RealField(body, "bound_h");
    var confidence, time := RealField(body, "confidence"), RealField(body, "vis_timestamp_s");
    if state.None? || visSeq.None? || x.None? || y.None? || w.None? || h.None?
       || confidence.None? || time.None? then None
    else if state.value < 1 || state.value > 4 then None
    else Some(Tracking(state.value, x.value, y.value, w.value, h.value, confidence.value, visSeq.value, time.value))
  }

  /** The command in the text between the braces of the root object. */
  function ParseBody(body: string): Option<CommandFrame> {
    var seqNo, time, mode := IntField(body, "seq"), RealField(body, "timestamp_s"), IntField(body, "desired_mode");
    var setpoints, tracking := ObjectBody(body, "setpoints"), ObjectBody(body, "tracking");
    if StringField(body, "type") != Some("CMD") || seqNo.None? || time.None? || mode.None? then None
    else if setpoints.Malformed? || tracking.Malformed? then None
    else if tracking.Body? && ParseTracking(tracking.text).None? then None
    else Some(CommandFrame(seqNo.value, time.value, mode.value, BoolField(body, "arm"),
                           if setpoints.Body? then ParseSetpoints(setpoints.text) else NO_SETPOINTS,
                           if tracking.Body? then ParseTracking(tracking.text) else None))
  }

  function ParseCmd(t: string): Option<CommandFrame> {
    match RootSpan(t)
    case None => None
    case Some(span) => ParseBody(t[span.first + 1..span.last])
  }

  // --------------------------------------------------------------------- loops

  lemma Cut(json: string, i: nat, k: nat, end: nat)
    requires i <= i + k <= end <= |json|
    ensures json[i..end][k..] == json[i + k..end]
  {
  }

  method SkipWs(json: string, start: nat, end: nat) returns (i: nat)
    requires start <= end <= |json|
    ensures i == start + Blank(json[start..end])
    ensures start <= i <= end && forall k | start <= k < i :: json[k] in " \t\n\U{0B}\U{0C}\r"
    ensures i < end ==> json[i] !in " \t\n\U{0B}\U{0C}\r"
  {
    i := start;
    while i < end && IsSpace(json[i])
      invariant start <= i <= end && forall k | start <= k < i :: json[k] in " \t\n\U{0B}\U{0C}\r"
      invariant start + Blank(json[start..end]) == i + Blank(json[i..end])
    {
      Cut(json, i, 1, end);
      i := i + 1;
    }
  }

  method SkipDigits(json: string, start: nat, end: nat) returns (i: nat)
    requires start <= end <= |json|
    ensures i == start + DigitRun(json[start..end])
  {
    i := start;
    while i < end && IsDigit(json[i])
      invariant start <= i <= end
      invariant start + DigitRun(json[start..end]) == i + DigitRun(json[i..end])
    {
      Cut(json, i, 1, end);
      i := i + 1;
    }
  }

  lemma Onto(text: string, k: nat, c: string, r: Option<Token>)
    ensures Prefixed(text, k, Prefixed(c, 1, r)) == Prefixed(text + c, k + 1, r)
  {
    if r.Some? {
      assert text + (c + r.value.text) == text + c + r.value.text;
    }
  }

  /** What one character does to the rest of a string token. */
  lemma BodyStep(t: string, tail: string, escaped: bool)
    requires t != "" && tail == t[1..]
    ensures StringBody(t, escaped)
         == if escaped then Prefixed([t[0]], 1, StringBody(tail, false))
            else if t[0] == '\\' then Prefixed("", 1, StringBody(tail, true))
            else if t[0] == '"' then Some(Token("", 1))
            else Prefixed([t[0]], 1, StringBody(tail, false))
  {
  }

  lemma BodyDone(text: string, k: nat)
    ensures Prefixed(text, k, Some(Token("", 1))) == Some(Token(text, k + 1))
  {
    assert text + "" == text;
  }

  lemma NoBodyInNothing(text: string, k: nat, escaped: bool)
    ensures Prefixed(text, k, StringBody("", escaped)) == None
  {
  }

  method ParseStringToken(json: string, start: nat, end: nat) returns (ok: bool, value: string, next: nat)
    requires start <= end <= |json|
    ensures ok == StringToken(json[start..end]).Some?
    ensures ok ==> start < next <= end && StringToken(json[start..end]) == Some(Token(value, next - start))
  {
    hide StringBody, Prefixed;
    value, next := "", start;
    if start >= end || json[start] != '"' {
      return false, value, next;
    }
    var i, escaped := start + 1, false;
    Cut(json, start, 1, end);
    ghost var token := StringToken(json[start..end]);
    while i < end
      invariant start < i <= end
      invariant token == Prefixed(value, i - start, StringBody(json[i..end], escaped))
    {
      var c := json[i];
      Cut(json, i, 1, end);
      BodyStep(json[i..end], json[i + 1..end], escaped);
      ghost var rest := StringBody(json[i + 1..end], false);
      if escaped {
        Onto(value, i - start, [c], rest);
        value, escaped := value + [c], false;
      } else if c == '\\' {
        Onto(value, i - start, "", StringBody(json[i + 1..end], true));
        assert value + "" == value;
        escaped := true;
      } else if c == '"' {
        BodyDone(value, i - start);
        return true, value, i + 1;
      } else {
        Onto(value, i - start, [c], rest);
        value := value + [c];
      }
      i := i + 1;
    }
    NoBodyInNothing(value, i - start, escaped);
    return false, value, next;
  }

  method FindMatchingClose(json: string, openPos: nat, end: nat, open: char, close: char)
    returns (ok: bool, closePos: nat)
    requires openPos <= end <= |json|
    ensures ok == MatchingClose(json[openPos..end], open, close).Some?
    ensures ok ==> openPos <= closePos < end
                   && MatchingClose(json[openPos..end], open, close) == Some(closePos - openPos)
  {
    hide CloseFrom, Shift;
    closePos := openPos;
    if openPos >= end || json[openPos] != open {
      return false, closePos;
    }
    var depth, inString, escaped := 0, false, false;
    ghost var found := MatchingClose(json[openPos..end], open, close);
    ShiftNone(0, CloseFrom(Going(0, false, false), json[openPos..end], open, close));
    var i := openPos;
    while i < end
      invariant openPos <= i <= end
      invariant found == Shift(i - openPos, CloseFrom(Going(depth, inString, escaped), json[i..end], open, close))
      invariant inString || !escaped
    {
      var c := json[i];
      Cut(json, i, 1, end);
      CloseStep(Going(depth, inString, escaped), json[i..end], json[i + 1..end], open, close, i - openPos);
      if inString {
        if escaped {
          escaped := false;
        } else if c == '\\' {
          escaped := true;
        } else if c == '"' {
          inString := false;
        }
      } else if c == '"' {
        inString := true;
      } else if c == open {
        depth := depth + 1;
      } else if c == close {
        depth := depth - 1;
        if depth == 0 {
          return true, i;
        }
        if depth < 0 {
          return false, closePos;
        }
      }
      i := i + 1;
    }
    ShiftNone(i - openPos, CloseFrom(Going(depth, inString, escaped), json[i..end], open, close));
    NoCloseInNothing(Going(depth, inString, escaped), open, close);
    return false, closePos;
  }

  /** What one character does to the search for the closing bracket, `k` characters into it. */
  lemma CloseStep(st: Scan, t: string, tail: string, open: char, close: char, k: nat)
    requires st.Going? && t != "" && tail == t[1..]
    ensures Shift(k, CloseFrom(st, t, open, close))
         == match Step(st, t[0], open, close)
            case Closed => Some(k)
            case Failed => None
            case Going(_, _, _) => Shift(k + 1, CloseFrom(Step(st, t[0], open, close), tail, open, close))
  {
    hide Step;
  }

  lemma ShiftNone(k: nat, r: Option<nat>)
    ensures Shift(0, r) == r && Shift(k, None) == None
  {
  }

  lemma NoCloseInNothing(st: Scan, open: char, close: char)
    ensures st.Going? ==> CloseFrom(st, "", open, close) == None
  {
  }

  method ParseNumberToken(json: string, start: nat, end: nat) returns (ok: bool, next: nat)
    requires start <= end <= |json|
    ensures ok == NumberLen(json[start..end]).Some?
    ensures ok ==> start < next <= end && NumberLen(json[start..end]) == Some(next - start)
  {
    hide NumberLen, ExponentLen, FractionLen, DigitRun, SignLen;
    next := start;
    if start >= end {
      NoNumberInNothing();
      return false, next;
    }
    ghost var t := json[start..end];
    var digits := SkipSign(json, start, end);
    Cut(json, start, digits - start, end);
    var point := SkipDigits(json, digits, end);
    Cut(json, start, point - start, end);
    var exponent := SkipFraction(json, point, end);
    Cut(json, start, exponent - start, end);
    NumberLenOf(t, digits - start, point - start, exponent - start, ExponentLen(json[exponent..end]));
    var hasDigit := point > digits || exponent > point + 1;
    if !hasDigit {
      return false, next;
    }
    var i;
    ok, i := SkipExponent(json, exponent, end);
    if !ok {
      return false, next;
    }
    Cut(json, start, i - start, end);
    if i < end && !IsDelim(json[i]) {
      return false, next;
    }
    return true, i;
  }

  method SkipSign(json: string, start: nat, end: nat) returns (i: nat)
    requires start <= end <= |json|
    ensures i == start + SignLen(json[start..end])
  {
    i := if start < end && (json[start] == '+' || json[start] == '-') then start + 1 else start;
  }

  method SkipFraction(json: string, start: nat, end: nat) returns (i: nat)
    requires start <= end <= |json|
    ensures i == start + FractionLen(json[start..end])
  {
    i := start;
    if i < end && json[i] == '.' {
      Cut(json, start, 1, end);
      i := SkipDigits(json, i + 1, end);
    }
  }

  method SkipExponent(json: string, start: nat, end: nat) returns (ok: bool, i: nat)
    requires start <= end <= |json|
    ensures ok == ExponentLen(json[start..end]).Some?
    ensures start <= i <= end && (ok ==> ExponentLen(json[start..end]) == Some(i - start))
  {
    ok, i := true, start;
    if i < end && (json[i] == 'e' || json[i] == 'E') {
      Cut(json, start, 1, end);
      i := i + 1;
      var digits := SkipSign(json, i, end);
      i := digits;
      Cut(json, start, i - start, end);
      i := SkipDigits(json, i, end);
      ok := i > digits;
    }
  }

  method MatchLiteral(json: string, pos: nat, end: nat, word: string) returns (matches: bool, ends: bool)
    requires pos <= end <= |json|
    ensures matches == (word <= json[pos..end])
    ensures ends == (matches && AtValueEnd(json[pos..end][|word|..]))
  {
    matches := pos + |word| <= end && json[pos..pos + |word|] == word;
    if matches {
      assert json[pos..end][..|word|] == word;
      Cut(json, pos, |word|, end);
    } else if pos + |word| <= end {
      assert json[pos..pos + |word|] == json[pos..end][..|word|];
    }
    ends := matches && (pos + |word| == end || IsDelim(json[pos + |word|]));
  }

  method SkipJsonValue(json: string, pos: nat, end: nat) returns (ok: bool, next: nat)
    requires pos <= end <= |json|
    ensures ok == ValueLen(json[pos..end]).Some?
    ensures ok ==> ValueLen(json[pos..end]) == Some(next - pos) && pos < next <= end
  {
    hide StringToken, MatchingClose, NumberLen, AtValueEnd;
    next := pos;
    if pos >= end {
      return false, next;
    }
    var c := json[pos];
    if c == '"' {
      var value;
      ok, value, next := ParseStringToken(json, pos, end);
      return ok, next;
    }
    if c == '{' || c == '[' {
      var closePos;
      ok, closePos := FindMatchingClose(json, pos, end, c, if c == '{' then '}' else ']');
      return ok, if ok then closePos + 1 else pos;
    }
    var matches, ends := MatchLiteral(json, pos, end, "true");
    if matches {
      return ends, if ends then pos + 4 else pos;
    }
    matches, ends := MatchLiteral(json, pos, end, "false");
    if matches {
      return ends, if ends then pos + 5 else pos;
    }
    matches, ends := MatchLiteral(json, pos, end, "null");
    if matches {
      return ends, if ends then pos + 4 else pos;
    }
    ok, next := ParseNumberToken(json, pos, end);
  }

  method FindRootObjectSpan(json: string) returns (r: Option<Span>)
    ensures r == RootSpan(json)
  {
    hide Blank, MatchingClose;
    var i := SkipWs(json, 0, |json|);
    assert json[0..|json|] == json && json[i..|json|] == json[i..];
    if i >= |json| || json[i] != '{' {
      return None;
    }
    var ok, closePos := FindMatchingClose(json, i, |json|, '{', '}');
    if !ok {
      return None;
    }
    var tail := SkipWs(json, closePos + 1, |json|);
    assert json[closePos + 1..|json|] == json[closePos + 1..];
    if tail != |json| {
      return None;
    }
    return Some(Span(i, closePos));
  }

  lemma RoundCuts(json: string, i: nat, end: nat, k: nat)
    requires i <= i + k <= end <= |json|
    ensures json[i..end][k..] == json[i + k..end]
    ensures k < end - i ==> json[i..end][k] == json[i + k]
  {
  }

  /** One round of the lookup loop, from position `i` on. */
  method KeyRoundAt(json: string, i: nat, end: nat, key: string) returns (round: Round)
    requires i < end <= |json|
    ensures round == KeyRound(json[i..end], key)
  {
    hide KeyRound, AfterKey, StringToken, Blank;
    ghost var t := json[i..end];
    var w := SkipWs(json, i, end);
    KeyRoundNoKey(t, key, w - i);
    if w == end {
      return Stop;
    }
    RoundCuts(json, i, end, w - i);
    if json[w] == ',' {
      return Next(w + 1 - i);
    }
    var ok, parsedKey, afterKey := ParseStringToken(json, w, end);
    if !ok {
      KeyRoundNoToken(t, key, w - i, json[w..end]);
      return Stop;
    }
    TokenStarts(json[w..end]);
    KeyRoundToken(t, key, w - i, json[w..end], Token(parsedKey, afterKey - w));
    round := AfterKeyAt(json, i, end, afterKey, parsedKey == key);
  }

  method AfterKeyAt(json: string, i: nat, end: nat, afterKey: nat, hit: bool) returns (round: Round)
    requires i < afterKey <= end <= |json|
    ensures round == AfterKey(json[i..end], afterKey - i, hit)
  {
    hide AfterKey, ValueLen, Blank, CommaLen;
    ghost var t, a := json[i..end], afterKey - i;
    RoundCuts(json, i, end, a);
    var colon := SkipWs(json, afterKey, end);
    ghost var b := colon - i;
    RoundCuts(json, i, end, b);
    if colon == end || json[colon] != ':' {
      AfterKeyNoColon(t, a, b, hit);
      return Stop;
    }
    RoundCuts(json, i, end, b + 1);
    var value := SkipWs(json, colon + 1, end);
    RoundCuts(json, i, end, value - i);
    AfterKeyOf(t, a, b, value - i, hit, json[value..end], ValueLen(json[value..end]));
    if value == end {
      return Stop;
    }
    if hit {
      return Found(value - i);
    }
    var ok, next := SkipMember(json, value, end);
    return if ok then Next(next - i) else Stop;
  }

  /** Skips a member's value and the comma behind it. */
  method SkipMember(json: string, value: nat, end: nat) returns (ok: bool, next: nat)
    requires value <= end <= |json|
    ensures var t := json[value..end];
            match ValueLen(t)
            case None => !ok
            case Some(n) => ok && next == value + n + CommaLen(t[n..])
    ensures value <= next <= end
  {
    hide ValueLen, CommaLen;
    ok, next := SkipJsonValue(json, value, end);
    if !ok {
      return ok, value;
    }
    Cut(json, value, next - value, end);
    CommaIs(json, next, end);
    if next < end && json[next] == ',' {
      next := next + 1;
    }
  }

  lemma CommaIs(json: string, i: nat, end: nat)
    requires i <= end <= |json|
    ensures CommaLen(json[i..end]) == if i < end && json[i] == ',' then 1 else 0
  {
  }

  method FindKeyInObject(json: string, first: nat, last: nat, key: string) returns (ok: bool, valuePos: nat)
    requires first < |json| && last < |json|
    ensures ok == (first < last && json[first] == '{' && json[last] == '}' && FindKey(json[first + 1..last], key).Some?)
    ensures ok ==> FindKey(json[first + 1..last], key) == Some(valuePos - first - 1) && first < valuePos < last
  {
    hide KeyRound, FindKey;
    valuePos := first;
    if first >= last || json[first] != '{' || json[last] != '}' {
      return false, valuePos;
    }
    ghost var found := FindKey(json[first + 1..last], key);
    var i := first + 1;
    while i < last
      invariant first < i <= last
      invariant found == Shift(i - first - 1, FindKey(json[i..last], key))
      decreases last - i
    {
      var round := KeyRoundAt(json, i, last, key);
      match round
      case Stop =>
        FindKeyStop(json[i..last], key);
        return false, valuePos;
      case Found(pos) =>
        FindKeyFound(json[i..last], key, pos);
        return true, i + pos;
      case Next(pos) =>
        Cut(json, i, pos, last);
        FindKeyNext(json[i..last], key, pos, json[i + pos..last]);
        i := i + pos;
    }
    NoKeyInNothing(key);
    return false, valuePos;
  }

  // -------------------------------------------------------------------- fields

  method ReadNumberToken(json: string, span: Span, key: string) returns (r: Option<string>)
    requires span.IsObject(json)
    ensures r == NumberField(json[span.first + 1..span.last], key)
  {
    hide FindKey, NumberLen;
    var ok, pos := FindKeyInObject(json, span.first, span.last, key);
    if !ok {
      return None;
    }
    Cut(json, span.first + 1, pos - span.first - 1, span.last);
    var next;
    ok, next := ParseNumberToken(json, pos, span.last);
    if !ok {
      return None;
    }
    Subslice(json, span.first + 1, span.last, pos - span.first - 1, next - span.first - 1);
    return Some(json[pos..next]);
  }

  method ReadStringField(json: string, span: Span, key: string) returns (r: Option<string>)
    requires span.IsObject(json)
    ensures r == StringField(json[span.first + 1..span.last], key)
  {
    hide FindKey, StringToken;
    var ok, pos := FindKeyInObject(json, span.first, span.last, key);
    if !ok {
      return None;
    }
    Cut(json, span.first + 1, pos - span.first - 1, span.last);
    var value, next;
    ok, value, next := ParseStringToken(json, pos, span.last);
    return if ok then Some(value) else None;
  }

  method ReadBoolField(json: string, span: Span, key: string) returns (r: Option<bool>)
    requires span.IsObject(json)
    ensures r == BoolField(json[span.first + 1..span.last], key)
  {
    hide FindKey;
    var ok, pos := FindKeyInObject(json, span.first, span.last, key);
    if !ok {
      return None;
    }
    Cut(json, span.first + 1, pos - span.first - 1, span.last);
    var matches, ends := MatchLiteral(json, pos, span.last, "true");
    if ends {
      return Some(true);
    }
    matches, ends := MatchLiteral(json, pos, span.last, "false");
    return if ends then Some(false) else None;
  }

  /** The object stored under `key`: absent, present but not a closed object, or its span. */
  method ReadObjectSpan(json: string, span: Span, key: string) returns (present: bool, r: Option<Span>)
    requires span.IsObject(json)
    ensures match ObjectBody(json[span.first + 1..span.last], key)
            case Absent => !present
            case Malformed => present && r == None
            case Body(text) => present && r.Some? && r.value.IsObject(json)
                               && text == json[r.value.first + 1..r.value.last]
  {
    hide FindKey, MatchingClose;
    r := None;
    var pos;
    present, pos := FindKeyInObject(json, span.first, span.last, key);
    if present {
      Cut(json, span.first + 1, pos - span.first - 1, span.last);
      var ok, closePos := FindMatchingClose(json, pos, span.last, '{', '}');
      if ok {
        MatchingCloseIsClose(json[pos..span.last], '{', '}');
        Subslice(json, span.first + 1, span.last, pos - span.first, closePos - span.first - 1);
        r := Some(Span(pos, closePos));
      }
    }
  }

  method ReadReal(json: string, span: Span, key: string) returns (r: Option<real>)
    requires span.IsObject(json)
    ensures r == RealField(json[span.first + 1..span.last], key)
  {
    var t := ReadNumberToken(json, span, key);
    return match t case None => None case Some(token) => Some(TokenValue(token));
  }

  method ReadInt(json: string, span: Span, key: string) returns (r: Option<int>)
    requires span.IsObject(json)
    ensures r == IntField(json[span.first + 1..span.last], key)
  {
    var t := ReadNumberToken(json, span, key);
    return match t case None => None case Some(token) => ToInt(TokenValue(token));
  }

  method ReadSetpoints(json: string, span: Span) returns (r: Setpoints)
    requires span.IsObject(json)
    ensures r == ParseSetpoints(json[span.first + 1..span.last])
  {
    hide RealField;
    var roll := ReadReal(json, span, "roll");
    var pitch := ReadReal(json, span, "pitch");
    var yawRate := ReadReal(json, span, "yaw_rate");
    var throttle := ReadReal(json, span, "throttle");
    return Setpoints(roll, pitch, yawRate, throttle);
  }

  method ReadTracking(json: string, span: Span) returns (r: Option<Tracking>)
    requires span.IsObject(json)
    ensures r == ParseTracking(json[span.first + 1..span.last])
  {
    hide RealField, IntField;
    var state := ReadInt(json, span, "tracking_state");
    var x := ReadReal(json, span, "loc_x");
    var y := ReadReal(json, span, "loc_y");
    var w := ReadReal(json, span, "bound_w");
    var h := ReadReal(json, span, "bound_h");
    var confidence := ReadReal(json, span, "confidence");
    var visSeq := ReadInt(json, span, "vis_seq");
    var time := ReadReal(json, span, "vis_timestamp_s");
    if state.None? || x.None? || y.None? || w.None? || h.None? || confidence.None? || visSeq.None? || time.None? {
      return None;
    }
    if state.value < 1 || state.value > 4 {
      return None;
    }
    return Some(Tracking(state.value, x.value, y.value, w.value, h.value, confidence.value, visSeq.value, time.value));
  }

  /** `parse_cmd_frame`: the command in a received text, or nothing. */
  method ParseCmdFrame(json: string) returns (r: Option<CommandFrame>)
    ensures r == ParseCmd(json)
  {
    hide RootSpan, StringField, IntField, RealField, BoolField, ObjectBody, ParseSetpoints, ParseTracking;
    var root := FindRootObjectSpan(json);
    if root == None {
      return None;
    }
    var span := root.value;
    var kind := ReadStringField(json, span, "type");
    if kind != Some("CMD") {
      return None;
    }
    var seqNo := ReadInt(json, span, "seq");
    var time := ReadReal(json, span, "timestamp_s");
    var mode := ReadInt(json, span, "desired_mode");
    if seqNo.None? || time.None? || mode.None? {
      return None;
    }
    var arm := ReadBoolField(json, span, "arm");
    var setpoints := NO_SETPOINTS;
    var present, child := ReadObjectSpan(json, span, "setpoints");
    if present {
      if child == None {
        return None;
      }
      setpoints := ReadSetpoints(json, child.value);
    }
    var tracking := None;
    present, child := ReadObjectSpan(json, span, "tracking");
    if present {
      if child == None {
        return None;
      }
      tracking := ReadTracking(json, child.value);
      if tracking == None {
        return None;
      }
    }
    return Some(CommandFrame(seqNo.value, time.value, mode.value, arm, setpoints, tracking));
  }
}
