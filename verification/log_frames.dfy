/** Podman's container log bodies: 8-byte headers in front of every payload, or no framing at all. */
module LogFrames {
  import opened Prelude

  /** What one write of the container to its standard output (1) or error (2) becomes on the wire. */
  datatype Frame = Frame(stream: Byte, payload: Bytes)

  const SIZE_LIMIT := 0x1_0000_0000

  predicate Valid(f: Frame) {
    (f.stream == 1 || f.stream == 2) && 0 < |f.payload| < SIZE_LIMIT
  }

  function BigEndian(n: nat): (b: Bytes)
    requires n < SIZE_LIMIT
    ensures |b| == 4
  {
    [n / 0x100 / 0x100 / 0x100, n / 0x100 / 0x100 % 0x100, n / 0x100 % 0x100, n % 0x100]
  }

  function FromBigEndian(b: Bytes): nat
    requires |b| == 4
  {
    ((b[0] as int * 0x100 + b[1]) * 0x100 + b[2]) * 0x100 + b[3]
  }

  lemma OneByte(high: int, low: Byte)
    ensures (high * 0x100 + low) / 0x100 == high && (high * 0x100 + low) % 0x100 == low
  {
  }

  lemma BigEndianInverts(n: nat, b: Bytes)
    requires n < SIZE_LIMIT && |b| == 4
    ensures FromBigEndian(BigEndian(n)) == n
    ensures FromBigEndian(b) < SIZE_LIMIT && BigEndian(FromBigEndian(b)) == b
  {
    OneByte(b[0], b[1]);
    OneByte(b[0] as int * 0x100 + b[1], b[2]);
    OneByte((b[0] as int * 0x100 + b[1]) * 0x100 + b[2], b[3]);
  }

  function Encoded(f: Frame): Bytes
    requires Valid(f)
  {
    [f.stream, 0, 0, 0] + BigEndian(|f.payload|) + f.payload
  }

  function Encode(frames: seq<Frame>): Bytes
    requires forall f :: f in frames ==> Valid(f)
  {
    if frames == [] then [] else Encoded(frames[0]) + Encode(frames[1..])
  }

  function Payloads(frames: seq<Frame>): (r: seq<Bytes>)
    ensures |r| == |frames|
  {
    seq(|frames|, i requires 0 <= i < |frames| => frames[i].payload)
  }

  /** The frame at the head of the bytes, if they start with a complete one. */
  function Head(raw: Bytes): (r: Option<Frame>)
    ensures r.Some? ==> Valid(r.value) && Encoded(r.value) <= raw
  {
    if |raw| < 8 || (raw[0] != 1 && raw[0] != 2) || raw[1..4] != [0, 0, 0] then None
    else
      var size := FromBigEndian(raw[4..8]);
      if size == 0 || 8 + size > |raw| then None
      else
        var f := Frame(raw[0], raw[8..8 + size]);
        assert Valid(f) && Encoded(f) == raw[..8 + size] by {
          BigEndianInverts(0, raw[4..8]);
          assert [f.stream, 0, 0, 0] == raw[..4];
        }
        Some(f)
  }

  /** All frames, when the bytes are a sequence of complete frames. */
  function Parse(raw: Bytes): (r: Option<seq<Frame>>)
    decreases |raw|
  {
    if raw == [] then Some([])
    else
      match Head(raw)
      case None => None
      case Some(f) =>
        match Parse(raw[|Encoded(f)|..])
        case None => None
        case Some(rest) => Some([f] + rest)
  }

  lemma HeadOfEncoded(f: Frame, rest: Bytes)
    requires Valid(f)
    ensures Head(Encoded(f) + rest) == Some(f)
  {
    var raw := Encoded(f) + rest;
    assert raw[4..8] == BigEndian(|f.payload|);
    BigEndianInverts(|f.payload|, raw[4..8]);
    assert raw[1..4] == [0, 0, 0];
    assert raw[8..8 + |f.payload|] == f.payload;
  }

  /** Printing then parsing gives the frames back. */
  lemma {:induction false} ParseEncode(frames: seq<Frame>)
    requires forall f :: f in frames ==> Valid(f)
    ensures Parse(Encode(frames)) == Some(frames)
  {
    if frames != [] {
      var first, rest := frames[0], frames[1..];
      assert [first] + rest == frames;
      ParseEncode(rest);
      ParseCons(first, Encode(rest), rest);
    }
  }

  lemma ParseCons(f: Frame, raw: Bytes, rest: seq<Frame>)
    requires Valid(f) && Parse(raw) == Some(rest)
    ensures Parse(Encoded(f) + raw) == Some([f] + rest)
  {
    HeadOfEncoded(f, raw);
    assert (Encoded(f) + raw)[|Encoded(f)|..] == raw;
  }

  lemma EncodeCons(f: Frame, rest: seq<Frame>)
    requires Valid(f) && forall g :: g in rest ==> Valid(g)
    ensures Encode([f] + rest) == Encoded(f) + Encode(rest)
  {
    assert ([f] + rest)[1..] == rest;
  }

  lemma HeadIsPrefix(raw: Bytes, f: Frame)
    requires Head(raw) == Some(f)
    ensures raw != [] && Encoded(f) + raw[|Encoded(f)|..] == raw
  {
    assert Encoded(f) <= raw;
  }

  /** Whatever parses is the printed form of its frames, with the stream bytes it came with. */
  lemma {:induction false} EncodeParse(raw: Bytes, frames: seq<Frame>)
    requires Parse(raw) == Some(frames)
    ensures (forall f :: f in frames ==> Valid(f)) && Encode(frames) == raw
    decreases |raw|
  {
    if raw != [] {
      var f := Head(raw).value;
      HeadIsPrefix(raw, f);
      var tail := raw[|Encoded(f)|..];
      var rest := Parse(tail).value;
      EncodeParse(tail, rest);
      EncodeCons(f, rest);
    }
  }

  /** The frames' payloads, or none when the bytes are not framed. */
  function Split(raw: Bytes): seq<Bytes> {
    match Parse(raw)
    case None => []
    case Some(frames) => Payloads(frames)
  }

  /**
   The splitter against the wire format alone: a non-empty result comes with frames that print as the whole input, and
   any frames that print as the input are the ones found.
   */
  lemma SplitExact(raw: Bytes, frames: seq<Frame>)
    requires frames != [] && forall f :: f in frames ==> Valid(f)
    ensures Encode(frames) == raw ==> Split(raw) == Payloads(frames)
    ensures Split(raw) != [] ==>
              exists fs: seq<Frame> :: (forall f :: f in fs ==> Valid(f)) && Encode(fs) == raw
                                       && Payloads(fs) == Split(raw)
  {
    ParseEncode(frames);
    if Split(raw) != [] {
      EncodeParse(raw, Parse(raw).value);
    }
  }

  lemma SubSub<T>(s: seq<T>, lo: nat, hi: nat, a: nat, b: nat)
    requires lo <= hi <= |s| && a <= b <= hi - lo
    ensures s[lo..hi][a..b] == s[lo + a..lo + b] && s[lo..][a..b] == s[lo + a..lo + b]
  {
    forall i | 0 <= i < b - a ensures s[lo..hi][a..b][i] == s[lo + a..lo + b][i] == s[lo..][a..b][i] {
      assert s[lo..hi][a + i] == s[lo + a + i] == s[lo..][a + i];
    }
  }

  /** The checks the loop makes on the bytes at an offset are the ones that make a frame. */
  lemma HeaderDecides(raw: Bytes, offset: nat, head: Option<Frame>)
    requires offset + 8 <= |raw| && head == Head(raw[offset..])
    ensures var header := raw[offset..offset + 8];
            var size := FromBigEndian(header[4..8]);
            head ==
            if (header[0] != 1 && header[0] != 2) || header[1..4] != [0, 0, 0] then None
            else if size == 0 || offset + 8 + size > |raw| then None
            else Some(Frame(header[0], raw[offset + 8..offset + 8 + size]))
  {
    var header, left := raw[offset..offset + 8], raw[offset..];
    SubSub(raw, offset, offset + 8, 1, 4);
    SubSub(raw, offset, offset + 8, 4, 8);
    var size := FromBigEndian(header[4..8]);
    if offset + 8 + size <= |raw| {
      SubSub(raw, offset, |raw|, 8, 8 + size);
    }
  }

  /** What the loop has found so far: the whole input is these frames and whatever the rest turns out to be. */
  ghost predicate Found(raw: Bytes, offset: nat, done: seq<Frame>) {
    offset <= |raw| && Parse(raw) == Prepend(done, Parse(raw[offset..]))
  }

  /** One turn of the splitter's loop: the frame at this offset, if the header and the length are good. */
  method ReadFrame(raw: Bytes, start: nat, ghost head: Option<Frame>) returns (payload: Option<Bytes>, next: nat)
    requires start + 8 <= |raw| && head == Head(raw[start..])
    ensures payload.Some? <==> head.Some?
    ensures head.Some? ==> payload.value == head.value.payload && next == start + 8 + |head.value.payload|
  {
    HeaderDecides(raw, start, head);
    var header := raw[start..start + 8];
    next := start + 8;
    if (header[0] != 1 && header[0] != 2) || header[1..4] != [0, 0, 0] {
      return None, next;
    }
    var size := FromBigEndian(header[4..8]);
    if size == 0 || next + size > |raw| {
      return None, next;
    }
    return Some(raw[next..next + size]), next + size;
  }

  /** One turn of the loop: no frame at the offset ends the parse, a frame is added to those found. */
  lemma LoopTurn(raw: Bytes, offset: nat, done: seq<Frame>, head: Option<Frame>)
    requires offset < |raw| && Found(raw, offset, done) && head == Head(raw[offset..])
    ensures head == None ==> Parse(raw) == None
    ensures head.Some? ==> Found(raw, offset + 8 + |head.value.payload|, done + [head.value])
  {
    ParseOne(raw, offset, head);
    if head.Some? {
      PrependOne(done, head.value, Parse(raw[offset + 8 + |head.value.payload|..]));
    }
  }

  lemma ParseOne(raw: Bytes, offset: nat, head: Option<Frame>)
    requires offset < |raw| && head == Head(raw[offset..])
    ensures head == None ==> Parse(raw[offset..]) == None
    ensures head.Some? ==> var next := offset + 8 + |head.value.payload|;
                           next <= |raw| && Parse(raw[offset..]) == Prepend([head.value], Parse(raw[next..]))
  {
    var left := raw[offset..];
    if head.Some? {
      var f := head.value;
      HeadIsPrefix(left, f);
      DropDrop(raw, offset, |Encoded(f)|);
    }
  }

  lemma DropDrop<T>(s: seq<T>, a: nat, b: nat)
    requires a + b <= |s|
    ensures s[a..][b..] == s[a + b..]
  {
  }

  lemma LoopEnd(raw: Bytes, offset: nat, done: seq<Frame>)
    requires Found(raw, offset, done) && offset + 8 > |raw|
    ensures Parse(raw) == if offset == |raw| then Some(done) else None
  {
    if offset < |raw| {
      assert Head(raw[offset..]) == None;
    } else {
      assert done + [] == done;
    }
  }

  lemma PayloadsSnoc(done: seq<Frame>, f: Frame)
    ensures Payloads(done + [f]) == Payloads(done) + [f.payload]
  {
  }

  /** The loop has these frames' payloads, and goes on at this offset. */
  ghost predicate Splitting(raw: Bytes, offset: nat, done: seq<Frame>, frames: seq<Bytes>) {
    frames == Payloads(done) && Found(raw, offset, done)
  }

  lemma SplittingTurn(raw: Bytes, offset: nat, done: seq<Frame>, frames: seq<Bytes>, head: Option<Frame>)
    requires offset < |raw| && Splitting(raw, offset, done, frames) && head == Head(raw[offset..])
    ensures head == None ==> Split(raw) == []
    ensures head.Some? ==> Splitting(raw, offset + 8 + |head.value.payload|, done + [head.value],
                                     frames + [head.value.payload])
  {
    LoopTurn(raw, offset, done, head);
    if head.Some? {
      PayloadsSnoc(done, head.value);
    }
  }

  lemma SplittingEnds(raw: Bytes, offset: nat, done: seq<Frame>, frames: seq<Bytes>)
    requires offset + 8 > |raw| && Splitting(raw, offset, done, frames)
    ensures Split(raw) == if frames == [] || offset != |raw| then [] else frames
  {
    LoopEnd(raw, offset, done);
  }

  method SplitLogFrames(raw: Bytes) returns (frames: seq<Bytes>)
    ensures frames == Split(raw)
  {
    frames := [];
    ghost var done: seq<Frame> := [];
    var offset := 0;
    NothingFoundYet(raw);
    while offset + 8 <= |raw|
      invariant Splitting(raw, offset, done, frames)
    {
      ghost var head := Head(raw[offset..]);
      SplittingTurn(raw, offset, done, frames, head);
      var payload;
      payload, offset := ReadFrame(raw, offset, head);
      if payload == None {
        return [];
      }
      frames, done := frames + [payload.value], done + [head.value];
    }
    SplittingEnds(raw, offset, done, frames);
    if frames == [] || offset != |raw| {
      return [];
    }
  }

  lemma NothingFoundYet(raw: Bytes)
    ensures Found(raw, 0, []) && Payloads([]) == []
  {
    assert raw[0..] == raw;
    assert Parse(raw).Some? ==> [] + Parse(raw).value == Parse(raw).value;
  }

  ghost function Prepend(done: seq<Frame>, rest: Option<seq<Frame>>): Option<seq<Frame>> {
    match rest
    case None => None
    case Some(frames) => Some(done + frames)
  }

  lemma PrependOne(done: seq<Frame>, f: Frame, rest: Option<seq<Frame>>)
    ensures Prepend(done, Prepend([f], rest)) == Prepend(done + [f], rest)
  {
    if rest.Some? {
      assert done + ([f] + rest.value) == done + [f] + rest.value;
    }
  }

  method DecodeLogs(raw: Bytes) returns (payload: Bytes)
    ensures payload == LogPayload(raw)
  {
    var frames := SplitLogFrames(raw);
    payload := if frames != [] then Concat(frames) else raw;
  }

  function LogPayload(raw: Bytes): Bytes {
    var frames := Split(raw);
    if frames != [] then Concat(frames) else raw
  }

  lemma {:induction false} PayloadsAreShorter(frames: seq<Frame>)
    requires forall f :: f in frames ==> Valid(f)
    ensures |Encode(frames)| == |Concat(Payloads(frames))| + 8 * |frames|
  {
    if frames != [] {
      PayloadsAreShorter(frames[1..]);
      assert Payloads(frames) == [frames[0].payload] + Payloads(frames[1..]);
      ConcatFirst(frames[0].payload, Payloads(frames[1..]));
    }
  }

  /**
   A framed body loses exactly its headers; the text passes through untouched exactly when the body is not a non-empty
   sequence of frames. A terminal's raw output that happens to be one is therefore mistaken for framed output.
   */
  lemma UntouchedIff(raw: Bytes)
    ensures LogPayload(raw) == raw <==> Parse(raw) == None || raw == []
    ensures Parse(raw).Some? ==> LogPayload(raw) == Concat(Payloads(Parse(raw).value))
    ensures Parse(raw).Some? ==> |raw| == |LogPayload(raw)| + 8 * |Parse(raw).value|
  {
    if Parse(raw).Some? {
      var frames := Parse(raw).value;
      EncodeParse(raw, frames);
      PayloadsAreShorter(frames);
    }
  }
}
