/** Draining a receive buffer: what any stream of reply bytes gives, however it is cut up. */
module MspDrain {
  import opened Wrappers
  import opened Bytes
  import opened MspFraming

  /** The outcome of a drain: whole frames, bad checksums, and the bytes kept for the next time. */
  datatype Drained = Drained(frames: seq<MspFrame>, errors: nat, leftover: seq<byte>)

  function FramesOf(r: ParseResult): seq<MspFrame> {
    if r.frame.Some? then [r.frame.value] else []
  }

  function ErrorsOf(r: ParseResult): nat {
    if r.checksumError then 1 else 0
  }

  function Before(frames: seq<MspFrame>, errors: nat, d: Drained): Drained {
    Drained(frames + d.frames, errors + d.errors, d.leftover)
  }

  function Drain(buf: seq<byte>): Drained
    decreases |buf|
  {
    var r := ParsedResponse(buf);
    if r.consumed == 0 then Drained([], 0, buf)
    else Before(FramesOf(r), ErrorsOf(r), Drain(buf[r.consumed..]))
  }

  /** One poll after another, each with the bytes that have arrived since. */
  function Feed(leftover: seq<byte>, pieces: seq<seq<byte>>): Drained
    decreases |pieces|
  {
    if pieces == [] then Drained([], 0, leftover)
    else
      var d := Drain(leftover + pieces[0]);
      Before(d.frames, d.errors, Feed(d.leftover, pieces[1..]))
  }

  // --------------------------------------------------------------------- garbage

  lemma BeforeNothing(d: Drained)
    ensures Before([], 0, d) == d
  {
  }

  lemma BeforeTwice(f: seq<MspFrame>, e: nat, f': seq<MspFrame>, e': nat, d: Drained)
    ensures Before(f, e, Before(f', e', d)) == Before(f + f', e + e', d)
  {
    assert f + (f' + d.frames) == f + f' + d.frames;
  }

  /** Positions shift with the text they are in. */
  lemma HeaderShift(buf: seq<byte>, k: nat, i: nat)
    requires k <= |buf|
    ensures HeaderAt(buf[k..], i) <==> HeaderAt(buf, k + i)
  {
  }

  lemma {:induction false} FirstHeaderShift(buf: seq<byte>, k: nat)
    requires k + 2 <= |buf|
    requires forall j | 0 <= j < k :: !HeaderAt(buf, j)
    ensures FirstHeader(buf) == k + FirstHeader(buf[k..])
    decreases k
  {
    if k == 0 {
      assert buf[0..] == buf;
    } else {
      assert !HeaderAt(buf, 0);
      forall j | 0 <= j < k - 1 ensures !HeaderAt(buf[1..], j) {
        HeaderShift(buf, 1, j);
      }
      FirstHeaderShift(buf[1..], k - 1);
      assert buf[1..][k - 1..] == buf[k..];
    }
  }

  lemma ShortHasNoHeader(buf: seq<byte>)
    ensures |buf| < 3 ==> FirstHeader(buf) == 0 && !HeaderAt(buf, 0)
  {
  }

  lemma MovedTwice(k: nat, i: nat, t: seq<byte>)
    ensures HeaderAt(t, 0) ==> Moved(k, Moved(i, ParseAtHeader(t))) == Moved(k + i, ParseAtHeader(t))
    ensures Moved(k, ParseResult(None, i, false)) == ParseResult(None, k + i, false)
  {
  }

  /** Parsing past bytes that start no marker is parsing the rest. */
  lemma ParseShift(buf: seq<byte>, k: nat)
    requires 0 < k && k + 2 <= |buf|
    requires forall j | 0 <= j < k :: !HeaderAt(buf, j)
    ensures ParsedResponse(buf) == Moved(k, ParsedResponse(buf[k..]))
  {
    FirstHeaderShift(buf, k);
    var i := FirstHeader(buf[k..]);
    HeaderShift(buf, k, i);
    assert buf[k..][i..] == buf[k + i..];
    ShortHasNoHeader(buf[k..]);
    hide *;
    ParsedIs(buf, k + i);
    if |buf| > k + 2 {
      ParsedIs(buf[k..], i);
      MovedTwice(k, i, buf[k + i..]);
    }
  }

  lemma DrainStep(buf: seq<byte>, rest: seq<byte>)
    requires var r := ParsedResponse(buf); r.consumed > 0 && rest == buf[r.consumed..]
    ensures var r := ParsedResponse(buf); Drain(buf) == Before(FramesOf(r), ErrorsOf(r), Drain(rest))
  {
    hide ParsedResponse;
  }

  /** Bytes that start no marker can be dropped at once. */
  lemma DrainShift(buf: seq<byte>, k: nat)
    requires k == 0 || (k + 2 <= |buf| && forall j | 0 <= j < k :: !HeaderAt(buf, j))
    ensures Drain(buf) == if k == 0 then Drain(buf) else Drain(buf[k..])
  {
    hide ParsedResponse, HeaderAt, Drain;
    if k > 0 {
      ParseShift(buf, k);
      var rest, r := buf[k..], ParsedResponse(buf[k..]);
      DrainStep(buf, buf[k + r.consumed..]);
      if r.consumed == 0 {
        BeforeNothing(Drain(rest));
      } else {
        assert rest[r.consumed..] == buf[k + r.consumed..];
        DrainStep(rest, buf[k + r.consumed..]);
      }
    }
  }

  // -------------------------------------------------------------- cutting up

  /** More bytes behind a decided frame change nothing about it. */
  lemma ParseStable(a: seq<byte>, b: seq<byte>)
    requires ParsedResponse(a).frame.Some? || ParsedResponse(a).checksumError
    ensures ParsedResponse(a + b) == ParsedResponse(a)
  {
    var i := FirstHeader(a);
    forall j | 0 <= j < i ensures !HeaderAt(a + b, j) {
      assert HeaderAt(a + b, j) <==> HeaderAt(a, j);
    }
    if i > 0 {
      FirstHeaderShift(a + b, i);
    }
    assert (a + b)[i..] == a[i..] + b;
    assert HeaderAt((a + b)[i..], 0) && FirstHeader((a + b)[i..]) == 0;
    assert i == 0 ==> (a + b)[0..] == a + b;
    ParseAtHeaderStable(a[i..], b);
  }

  lemma ParseAtHeaderStable(a: seq<byte>, b: seq<byte>)
    requires HeaderAt(a, 0) && ParseAtHeader(a).consumed > 0
    ensures HeaderAt(a + b, 0) && ParseAtHeader(a + b) == ParseAtHeader(a)
  {
    var size: int := a[3];
    assert (a + b)[5..5 + size] == a[5..5 + size];
  }

  /** A drain without a frame or an error has only skipped bytes that start no marker. */
  lemma OnlySkipped(a: seq<byte>, b: seq<byte>)
    requires ParsedResponse(a).frame.None? && !ParsedResponse(a).checksumError
    ensures var k := ParsedResponse(a).consumed;
            k > 0 ==> k + 2 <= |a| && forall j | 0 <= j < k :: !HeaderAt(a + b, j)
  {
    var k := ParsedResponse(a).consumed;
    forall j | 0 <= j < k ensures !HeaderAt(a + b, j) {
      assert HeaderAt(a + b, j) <==> HeaderAt(a, j);
    }
  }

  /** Draining what has arrived and later the rest gives what draining everything at once gives. */
  lemma {:induction false} DrainInTwo(a: seq<byte>, b: seq<byte>)
    ensures var d := Drain(a);
            Drain(a + b) == Before(d.frames, d.errors, Drain(d.leftover + b))
    decreases |a|
  {
    hide ParsedResponse;
    var r := ParsedResponse(a);
    if r.consumed == 0 {
      BeforeNothing(Drain(a + b));
    } else {
      var a' := a[r.consumed..];
      var d := Drain(a');
      DrainInTwo(a', b);
      assert (a + b)[r.consumed..] == a' + b;
      if r.frame.Some? || r.checksumError {
        ParseStable(a, b);
      } else {
        OnlySkipped(a, b);
        DrainShift(a + b, r.consumed);
        BeforeNothing(Drain(a' + b));
      }
      BeforeTwice(FramesOf(r), ErrorsOf(r), d.frames, d.errors, Drain(d.leftover + b));
    }
  }

  /** One more piece after a feed: the leftover is drained together with it. */
  lemma {:induction false} FeedNext(leftover: seq<byte>, pieces: seq<seq<byte>>, piece: seq<byte>)
    ensures var d := Feed(leftover, pieces);
            Feed(leftover, pieces + [piece]) == Before(d.frames, d.errors, Drain(d.leftover + piece))
    decreases |pieces|
  {
    hide Drain;
    if pieces == [] {
      assert (pieces + [piece])[1..] == [];
      var d := Drain(leftover + piece);
      assert d.frames + [] == d.frames;
      BeforeNothing(d);
    } else {
      var first := Drain(leftover + pieces[0]);
      FeedNext(first.leftover, pieces[1..], piece);
      assert (pieces + [piece])[1..] == pieces[1..] + [piece];
      var d := Feed(first.leftover, pieces[1..]);
      BeforeTwice(first.frames, first.errors, d.frames, d.errors, Drain(d.leftover + piece));
    }
  }

  /** A buffer left by a drain is stuck: draining it again finds nothing. */
  lemma {:induction false} LeftoverIsStuck(a: seq<byte>)
    ensures Drain(Drain(a).leftover) == Drained([], 0, Drain(a).leftover)
    decreases |a|
  {
    var r := ParsedResponse(a);
    if r.consumed > 0 {
      LeftoverIsStuck(a[r.consumed..]);
    }
  }

  /**
   Chunking invariance: feeding a stream in any pieces gives the same frames, the same error
   count and the same leftover as feeding it whole.
   */
  lemma {:induction false} AnyPieces(start: seq<byte>, pieces: seq<seq<byte>>)
    requires Drain(start) == Drained([], 0, start)
    ensures Feed(start, pieces) == Drain(start + Flatten(pieces))
    decreases |pieces|
  {
    hide Drain;
    if pieces == [] {
      assert start + [] == start;
    } else {
      var d := Drain(start + pieces[0]);
      LeftoverIsStuck(start + pieces[0]);
      AnyPieces(d.leftover, pieces[1..]);
      DrainInTwo(start + pieces[0], Flatten(pieces[1..]));
      assert start + Flatten(pieces) == (start + pieces[0]) + Flatten(pieces[1..]);
    }
  }

  // ------------------------------------------------- what a stream decodes to

  ghost predicate NoHeader(g: seq<byte>) {
    forall j {:trigger HeaderAt(g, j)} :: 0 <= j ==> !HeaderAt(g, j)
  }

  /** Garbage followed by one frame; `cksum` is the checksum byte that was received. */
  datatype Item = Item(garbage: seq<byte>, frame: MspFrame, cksum: byte)
  {
    ghost predicate Valid() {
      NoHeader(garbage)
    }

    predicate Intact() {
      cksum == FrameChecksum(frame)
    }

    function Bytes(): seq<byte> {
      garbage + [DOLLAR, LETTER_M, FROM_FC, |frame.payload|, frame.cmd] + frame.payload + [cksum]
    }
  }

  function StreamOf(items: seq<Item>): seq<byte> {
    if items == [] then [] else items[0].Bytes() + StreamOf(items[1..])
  }

  function IntactFrames(items: seq<Item>): seq<MspFrame> {
    if items == [] then []
    else (if items[0].Intact() then [items[0].frame] else []) + IntactFrames(items[1..])
  }

  function Damaged(items: seq<Item>): nat {
    if items == [] then 0 else (if items[0].Intact() then 0 else 1) + Damaged(items[1..])
  }

  /** No marker can straddle garbage and the frame behind it. */
  lemma NoStraddle(g: seq<byte>, t: seq<byte>)
    requires NoHeader(g) && HeaderAt(t, 0)
    ensures forall j | 0 <= j < |g| :: !HeaderAt(g + t, j)
  {
    forall j | 0 <= j < |g| ensures !HeaderAt(g + t, j) {
      assert !HeaderAt(g, j);
    }
  }

  lemma ItemParsed(item: Item, rest: seq<byte>)
    requires item.Valid()
    ensures var size := 6 + |item.frame.payload|;
            ParsedResponse(item.Bytes()[|item.garbage|..] + rest)
            == if item.Intact() then ParseResult(Some(item.frame), size, false) else ParseResult(None, size, true)
  {
    var f := item.frame;
    var t := item.Bytes()[|item.garbage|..] + rest;
    assert t == [DOLLAR, LETTER_M, FROM_FC, |f.payload|, f.cmd] + f.payload + [item.cksum] + rest;
    assert HeaderAt(t, 0) && FirstHeader(t) == 0 && t[0..] == t;
    assert t[5..5 + |f.payload|] == f.payload;
    assert MspFrame(t[4], t[5..5 + |f.payload|]) == f;
  }

  lemma ItemDrained(item: Item, rest: seq<byte>)
    requires item.Valid()
    ensures Drain(item.Bytes() + rest)
         == Before(if item.Intact() then [item.frame] else [], if item.Intact() then 0 else 1, Drain(rest))
  {
    hide ParsedResponse;
    var g := item.garbage;
    var t := item.Bytes()[|g|..] + rest;
    assert item.Bytes() + rest == g + t;
    ItemParsed(item, rest);
    assert HeaderAt(t, 0);
    NoStraddle(g, t);
    DrainShift(g + t, |g|);
    assert (g + t)[|g|..] == t && t[6 + |item.frame.payload|..] == rest;
    assert g == [] ==> g + t == t;
  }

  /** Bytes without a marker are dropped, except the last two. */
  function Tail(g: seq<byte>): seq<byte> {
    if |g| <= 2 then g else g[|g| - 2..]
  }

  lemma GarbageDrained(g: seq<byte>)
    requires NoHeader(g)
    ensures Drain(g) == Drained([], 0, Tail(g))
  {
    if |g| > 2 {
      assert !HeaderAt(g, FirstHeader(g));
      DrainShift(g, |g| - 2);
    }
  }

  /**
   Decoding and resynchronisation: from frames separated by garbage the drain returns exactly
   the frames with a right checksum, in order, counts the others, and keeps at most two bytes.
   */
  lemma {:induction false} DecodesStream(items: seq<Item>, garbage: seq<byte>)
    requires forall i | 0 <= i < |items| :: items[i].Valid()
    requires NoHeader(garbage)
    ensures Drain(StreamOf(items) + garbage) == Drained(IntactFrames(items), Damaged(items), Tail(garbage))
    decreases |items|
  {
    if items == [] {
      assert StreamOf([]) + garbage == garbage;
      GarbageDrained(garbage);
    } else {
      DecodesStream(items[1..], garbage);
      ItemDrained(items[0], StreamOf(items[1..]) + garbage);
      assert StreamOf(items) + garbage == items[0].Bytes() + (StreamOf(items[1..]) + garbage);
    }
  }

  // ------------------------------------------------------------------- damage

  /** Two items that differ in exactly one byte: of the command, the payload or the checksum. */
  ghost predicate OneByteOff(a: Item, b: Item) {
    && a.garbage == b.garbage
    && |a.frame.payload| == |b.frame.payload|
    && (|| (a.frame.cmd != b.frame.cmd && a.frame.payload == b.frame.payload && a.cksum == b.cksum)
        || (a.frame == b.frame && a.cksum != b.cksum)
        || (a.frame.cmd == b.frame.cmd && a.cksum == b.cksum
            && exists k | 0 <= k < |a.frame.payload| ::
                 && a.frame.payload[k] != b.frame.payload[k]
                 && a.frame.payload[..k] == b.frame.payload[..k]
                 && a.frame.payload[k + 1..] == b.frame.payload[k + 1..]))
  }

  lemma DamageIsSeen(a: Item, b: Item)
    requires OneByteOff(a, b) && a.Intact()
    ensures !b.Intact()
  {
    var size := |a.frame.payload|;
    if a.frame.cmd != b.frame.cmd {
      if Xor(size, a.frame.cmd) == Xor(size, b.frame.cmd) {
        XorInjectiveRight(size, a.frame.cmd, b.frame.cmd);
      }
      ChecksumSeesChange(XorByte(size, a.frame.cmd), XorByte(size, b.frame.cmd), a.frame.payload, b.frame.payload);
    } else if a.frame != b.frame {
      ChecksumSeesChange(XorByte(size, a.frame.cmd), XorByte(size, b.frame.cmd), a.frame.payload, b.frame.payload);
    }
  }

  lemma {:induction false} CountAppend(a: seq<Item>, b: seq<Item>)
    ensures IntactFrames(a + b) == IntactFrames(a) + IntactFrames(b)
    ensures Damaged(a + b) == Damaged(a) + Damaged(b)
    decreases |a|
  {
    hide Item.Intact;
    if a == [] {
      assert a + b == b;
    } else {
      assert (a + b)[1..] == a[1..] + b && (a + b)[0] == a[0];
      CountAppend(a[1..], b);
      var first := if a[0].Intact() then [a[0].frame] else [];
      assert first + (IntactFrames(a[1..]) + IntactFrames(b)) == first + IntactFrames(a[1..]) + IntactFrames(b);
    }
  }

  lemma CountOne(item: Item)
    ensures IntactFrames([item]) == if item.Intact() then [item.frame] else []
    ensures Damaged([item]) == if item.Intact() then 0 else 1
  {
    hide Item.Intact;
    assert [item][1..] == [];
  }

  lemma AroundOne(before: seq<Item>, item: Item, after: seq<Item>, garbage: seq<byte>)
    requires forall i | 0 <= i < |before| :: before[i].Valid() && before[i].Intact()
    requires forall i | 0 <= i < |after| :: after[i].Valid() && after[i].Intact()
    requires item.Valid() && NoHeader(garbage)
    ensures Drain(StreamOf(before + [item] + after) + garbage)
         == Drained(IntactFrames(before) + (if item.Intact() then [item.frame] else []) + IntactFrames(after),
                    if item.Intact() then 0 else 1, Tail(garbage))
  {
    hide *;
    NoDamage(before);
    NoDamage(after);
    DecodesStream(before + [item] + after, garbage);
    CountAppend(before + [item], after);
    CountAppend(before, [item]);
    CountOne(item);
  }

  /** Damaging one byte of one frame loses that frame only and counts one error; the stream resynchronises. */
  lemma OneFrameLost(before: seq<Item>, hit: Item, wrong: Item, after: seq<Item>, garbage: seq<byte>)
    requires forall i | 0 <= i < |before| :: before[i].Valid() && before[i].Intact()
    requires forall i | 0 <= i < |after| :: after[i].Valid() && after[i].Intact()
    requires hit.Valid() && hit.Intact() && OneByteOff(hit, wrong) && NoHeader(garbage)
    ensures Drain(StreamOf(before + [hit] + after) + garbage)
         == Drained(IntactFrames(before) + [hit.frame] + IntactFrames(after), 0, Tail(garbage))
    ensures Drain(StreamOf(before + [wrong] + after) + garbage)
         == Drained(IntactFrames(before) + IntactFrames(after), 1, Tail(garbage))
  {
    hide *;
    DamageIsSeen(hit, wrong);
    SameShape(hit, wrong);
    AroundOne(before, hit, after, garbage);
    AroundOne(before, wrong, after, garbage);
    assert IntactFrames(before) + [] == IntactFrames(before);
  }

  lemma SameShape(a: Item, b: Item)
    requires OneByteOff(a, b) && a.Valid()
    ensures b.Valid()
  {
  }

  lemma {:induction false} NoDamage(items: seq<Item>)
    requires forall i | 0 <= i < |items| :: items[i].Valid() && items[i].Intact()
    ensures Damaged(items) == 0
  {
    if items != [] {
      NoDamage(items[1..]);
    }
  }
}
