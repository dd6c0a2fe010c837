/**
 What the hand-rolled scanner of the flight controller computes, on texts: every function
 looks at a text that starts at the scanner's position and ends at its exclusive end, and
 gives an offset into that text. `CommandReceiver` holds the index-moving loops.
 */
module Scanner {
  import opened Wrappers

  predicate IsSpace(c: char) {
    c == ' ' || c == '\t' || c == '\n' || c == '\U{0B}' || c == '\U{0C}' || c == '\r'
  }

  predicate IsDigit(c: char) {
    '0' <= c <= '9'
  }

  predicate IsDelim(c: char) {
    c == ',' || c == '}' || c == ']' || IsSpace(c)
  }

  /** The value is over: the text ends here or a delimiter follows. */
  predicate AtValueEnd(t: string) {
    t == "" || IsDelim(t[0])
  }

  function Blank(t: string): (n: nat)
    ensures n <= |t|
  {
    if t != "" && IsSpace(t[0]) then 1 + Blank(t[1..]) else 0
  }

  function DigitRun(t: string): (n: nat)
    ensures n <= |t|
  {
    if t != "" && IsDigit(t[0]) then 1 + DigitRun(t[1..]) else 0
  }

  // ------------------------------------------------------------ string tokens

  datatype Token = Token(text: string, len: nat)

  function Prefixed(text: string, k: nat, r: Option<Token>): Option<Token> {
    match r
    case None => None
    case Some(Token(rest, n)) => Some(Token(text + rest, k + n))
  }

  lemma PrefixedNothing(r: Option<Token>)
    ensures Prefixed("", 0, r) == r
  {
    if r.Some? {
      assert "" + r.value.text == r.value.text;
    }
  }

  lemma PrefixedTwice(a: string, j: nat, b: string, k: nat, r: Option<Token>)
    ensures Prefixed(a, j, Prefixed(b, k, r)) == Prefixed(a + b, j + k, r)
  {
    if r.Some? {
      assert a + (b + r.value.text) == a + b + r.value.text;
    }
  }

  /** The rest of a string token. A backslash is dropped and the character after it is kept as it is. */
  function StringBody(t: string, escaped: bool): (r: Option<Token>)
    ensures r.Some? ==> 0 < r.value.len <= |t|
  {
    if t == "" then None
    else if escaped then Prefixed([t[0]], 1, StringBody(t[1..], false))
    else if t[0] == '\\' then Prefixed("", 1, StringBody(t[1..], true))
    else if t[0] == '"' then Some(Token("", 1))
    else Prefixed([t[0]], 1, StringBody(t[1..], false))
  }

  function StringToken(t: string): (r: Option<Token>)
    ensures r.Some? ==> 1 < r.value.len <= |t|
  {
    if t == "" || t[0] != '"' then None else Prefixed("", 1, StringBody(t[1..], false))
  }

  // --------------------------------------------------------- matching brackets

  /** The state of `find_matching_close` between two characters. */
  datatype Scan = Going(depth: int, inString: bool, escaped: bool) | Closed | Failed

  /** One character, counting only the bracket kind `open`/`close`. */
  function Step(st: Scan, c: char, open: char, close: char): Scan {
    match st
    case Closed => Closed
    case Failed => Failed
    case Going(depth, inString, escaped) =>
      if inString then
        if escaped then Going(depth, true, false)
        else if c == '\\' then Going(depth, true, true)
        else if c == '"' then Going(depth, false, escaped)
        else st
      else if c == '"' then Going(depth, true, escaped)
      else if c == open then Going(depth + 1, false, escaped)
      else if c == close then
        if depth - 1 == 0 then Closed
        else if depth - 1 < 0 then Failed
        else Going(depth - 1, false, escaped)
      else st
  }

  function Run(st: Scan, t: string, open: char, close: char): Scan
    decreases |t|
  {
    if t == "" then st else Run(Step(st, t[0], open, close), t[1..], open, close)
  }

  /** The offset of the character that closes the bracket, from state `st` on. */
  function CloseFrom(st: Scan, t: string, open: char, close: char): (r: Option<nat>)
    ensures r.Some? ==> r.value < |t|
    decreases |t|
  {
    if t == "" then None
    else
      match Step(st, t[0], open, close)
      case Closed => Some(0)
      case Failed => None
      case Going(_, _, _) => Shift(1, CloseFrom(Step(st, t[0], open, close), t[1..], open, close))
  }

  function MatchingClose(t: string, open: char, close: char): (r: Option<nat>)
    ensures r.Some? ==> r.value < |t|
  {
    if t == "" || t[0] != open then None else CloseFrom(Going(0, false, false), t, open, close)
  }

  // ------------------------------------------------------------ number tokens

  function SignLen(t: string): (n: nat)
    ensures n <= |t|
  {
    if t != "" && (t[0] == '+' || t[0] == '-') then 1 else 0
  }

  /** The length of `.` and the digits after it, or zero. */
  function FractionLen(t: string): (n: nat)
    ensures n <= |t|
  {
    if t != "" && t[0] == '.' then 1 + DigitRun(t[1..]) else 0
  }

  /** The length of an exponent; none when an `e` is not followed by digits. */
  function ExponentLen(t: string): (r: Option<nat>)
    ensures r.Some? ==> r.value <= |t|
  {
    if t != "" && (t[0] == 'e' || t[0] == 'E') then
      var s := 1 + SignLen(t[1..]);
      if DigitRun(t[s..]) == 0 then None else Some(s + DigitRun(t[s..]))
    else Some(0)
  }

  function NumberLen(t: string): (r: Option<nat>)
    ensures r.Some? ==> 0 < r.value <= |t|
  {
    var s := SignLen(t);
    var w := s + DigitRun(t[s..]);
    var f := w + FractionLen(t[w..]);
    if w == s && f <= w + 1 then None
    else
      match ExponentLen(t[f..])
      case None => None
      case Some(e) => if AtValueEnd(t[f + e..]) then Some(f + e) else None
  }

  // -------------------------------------------------------------- whole values

  function LiteralLen(t: string, word: string): (r: Option<nat>)
    requires word <= t
    ensures r.Some? ==> r.value == |word|
  {
    if AtValueEnd(t[|word|..]) then Some(|word|) else None
  }

  /** The length of the value the text starts with, as `skip_json_value` finds it. */
  function ValueLen(t: string): (r: Option<nat>)
    ensures r.Some? ==> 0 < r.value <= |t|
  {
    if t == "" then None
    else if t[0] == '"' then
      match StringToken(t)
      case None => None
      case Some(token) => Some(token.len)
    else if t[0] == '{' then Shift(1, MatchingClose(t, '{', '}'))
    else if t[0] == '[' then Shift(1, MatchingClose(t, '[', ']'))
    else if "true" <= t then LiteralLen(t, "true")
    else if "false" <= t then LiteralLen(t, "false")
    else if "null" <= t then LiteralLen(t, "null")
    else NumberLen(t)
  }

  // ---------------------------------------------------------------- key lookup

  function CommaLen(t: string): (n: nat)
    ensures n <= |t|
  {
    if t != "" && t[0] == ',' then 1 else 0
  }

  /** What one round of the lookup loop decides: give up, report an offset, or go on from one. */
  datatype Round = Stop | Found(pos: nat) | Next(pos: nat)

  /** The round after the key token, which ends at offset `a`. */
  function AfterKey(t: string, a: nat, hit: bool): (r: Round)
    requires 0 < a <= |t|
    ensures r.Found? ==> r.pos < |t|
    ensures r.Next? ==> 0 < r.pos <= |t|
  {
    var b := a + Blank(t[a..]);
    if b == |t| || t[b] != ':' then Stop
    else
      var v := b + 1 + Blank(t[b + 1..]);
      if v == |t| then Stop
      else if hit then Found(v)
      else
        match ValueLen(t[v..])
        case None => Stop
        case Some(n) => Next(v + n + CommaLen(t[v + n..]))
  }

  function KeyRound(t: string, key: string): (r: Round)
    ensures r.Found? ==> r.pos < |t|
    ensures r.Next? ==> 0 < r.pos <= |t|
  {
    var w := Blank(t);
    if w == |t| then Stop
    else if t[w] == ',' then Next(w + 1)
    else
      match StringToken(t[w..])
      case None => Stop
      case Some(token) => AfterKey(t, w + token.len, token.text == key)
  }

  /** The offset of the value of `key` in the text between an object's braces. */
  function FindKey(t: string, key: string): (r: Option<nat>)
    ensures r.Some? ==> r.value < |t|
    decreases |t|
  {
    match KeyRound(t, key)
    case Stop => None
    case Found(pos) => Some(pos)
    case Next(pos) => Shift(pos, FindKey(t[pos..], key))
  }

  // The scanner's functions step by step, for callers that already know the offsets.

  lemma NumberLenOf(t: string, s: nat, w: nat, f: nat, e: Option<nat>)
    requires SignLen(t) == s <= w <= f <= |t|
    requires s + DigitRun(t[s..]) == w && w + FractionLen(t[w..]) == f
    requires ExponentLen(t[f..]) == e
    ensures NumberLen(t)
         == if (w == s && f <= w + 1) || e.None? || !AtValueEnd(t[f + e.value..]) then None else Some(f + e.value)
  {
    hide SignLen, DigitRun, FractionLen, ExponentLen, AtValueEnd;
  }

  lemma KeyRoundToken(t: string, key: string, w: nat, tail: string, token: Token)
    requires w == Blank(t) < |t| && t[w] == '"' && tail == t[w..] && StringToken(tail) == Some(token)
    ensures KeyRound(t, key) == AfterKey(t, w + token.len, token.text == key)
  {
    hide Blank, StringToken, AfterKey;
  }

  lemma NoNumberInNothing()
    ensures NumberLen("") == None
  {
  }

  lemma KeyRoundNoKey(t: string, key: string, w: nat)
    requires w == Blank(t)
    ensures w == |t| ==> KeyRound(t, key) == Stop
    ensures w < |t| && t[w] == ',' ==> KeyRound(t, key) == Next(w + 1)
  {
    hide Blank, StringToken, AfterKey;
  }

  lemma TokenStarts(t: string)
    requires StringToken(t).Some?
    ensures t != "" && t[0] == '"'
  {
  }

  lemma KeyRoundNoToken(t: string, key: string, w: nat, tail: string)
    requires w == Blank(t) < |t| && t[w] != ',' && tail == t[w..] && StringToken(tail) == None
    ensures KeyRound(t, key) == Stop
  {
    hide Blank, StringToken, AfterKey;
  }

  lemma AfterKeyNoColon(t: string, a: nat, b: nat, hit: bool)
    requires 0 < a <= |t| && b == a + Blank(t[a..])
    requires b == |t| || t[b] != ':'
    ensures AfterKey(t, a, hit) == Stop
  {
    hide ValueLen, Blank;
  }

  lemma AfterKeyOf(t: string, a: nat, b: nat, v: nat, hit: bool, value: string, len: Option<nat>)
    requires 0 < a <= |t| && b == a + Blank(t[a..]) < |t| && t[b] == ':' && v == b + 1 + Blank(t[b + 1..])
    requires value == t[v..] && ValueLen(value) == len
    ensures AfterKey(t, a, hit)
         == if v == |t| then Stop
            else if hit then Found(v)
            else match len case None => Stop case Some(n) => Next(v + n + CommaLen(value[n..]))
  {
    hide ValueLen, Blank;
    if len.Some? {
      assert t[v + len.value..] == value[len.value..];
    }
  }

  lemma NoKeyInNothing(key: string)
    ensures KeyRound("", key) == Stop && FindKey("", key) == None
  {
  }

  lemma FindKeyStop(t: string, key: string)
    requires KeyRound(t, key) == Stop
    ensures FindKey(t, key) == None
  {
  }

  lemma FindKeyFound(t: string, key: string, pos: nat)
    requires KeyRound(t, key) == Found(pos)
    ensures FindKey(t, key) == Some(pos)
  {
  }

  lemma FindKeyNext(t: string, key: string, pos: nat, tail: string)
    requires KeyRound(t, key) == Next(pos) && tail == t[pos..]
    ensures FindKey(t, key) == Shift(pos, FindKey(tail, key))
  {
  }

  // ----------------------------------------------------------- field accessors

  /** An object in a text, from its `{` to its `}`. */
  datatype Span = Span(first: nat, last: nat) {
    predicate IsObject(t: string) {
      first < last < |t| && t[first] == '{' && t[last] == '}'
    }
  }

  /** The span from `{` to its `}` when the whole text is one object between white space. */
  function RootSpan(t: string): (r: Option<Span>)
    ensures r.Some? ==> r.value.IsObject(t)
  {
    var i := Blank(t);
    match MatchingClose(t[i..], '{', '}')
    case None => None
    case Some(n) =>
      MatchingCloseIsClose(t[i..], '{', '}');
      if i + n + 1 + Blank(t[i + n + 1..]) == |t| then Some(Span(i, i + n)) else None
  }

  lemma {:induction false} CloseFromIsClose(st: Scan, t: string, open: char, close: char)
    requires st.Going? && open != close
    ensures CloseFrom(st, t, open, close).Some? ==> t[CloseFrom(st, t, open, close).value] == close
    decreases |t|
  {
    if t != "" && Step(st, t[0], open, close).Going? {
      CloseFromIsClose(Step(st, t[0], open, close), t[1..], open, close);
    }
  }

  /** The position found holds the closing bracket and lies after the opening one. */
  lemma MatchingCloseIsClose(t: string, open: char, close: char)
    requires open != close
    ensures var r := MatchingClose(t, open, close);
            r.Some? ==> 0 < r.value && t[0] == open && t[r.value] == close
  {
    CloseFromIsClose(Going(0, false, false), t, open, close);
  }

  function StringField(body: string, key: string): Option<string> {
    match FindKey(body, key)
    case None => None
    case Some(p) =>
      match StringToken(body[p..])
      case None => None
      case Some(token) => Some(token.text)
  }

  function NumberField(body: string, key: string): Option<string> {
    match FindKey(body, key)
    case None => None
    case Some(p) =>
      match NumberLen(body[p..])
      case None => None
      case Some(n) => Some(body[p..p + n])
  }

  function BoolField(body: string, key: string): Option<bool> {
    match FindKey(body, key)
    case None => None
    case Some(p) =>
      var t := body[p..];
      if "true" <= t && AtValueEnd(t[4..]) then Some(true)
      else if "false" <= t && AtValueEnd(t[5..]) then Some(false)
      else None
  }

  datatype ObjectField = Absent | Malformed | Body(text: string)

  /** The text between the braces of the object stored under `key`. */
  function ObjectBody(body: string, key: string): ObjectField {
    match FindKey(body, key)
    case None => Absent
    case Some(p) =>
      match MatchingClose(body[p..], '{', '}')
      case None => Malformed
      case Some(n) =>
        MatchingCloseIsClose(body[p..], '{', '}');
        Body(body[p + 1..p + n])
  }
}
