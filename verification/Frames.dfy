/** Messages on the wire: a header of fixed size, and as many bytes as it announces. */
module Frames {
  import opened Basics
  import opened Timestamps
  import opened StableSorts
  import Radix

  type byte = b: int | 0 <= b < 256

  /** Five machine words. */
  datatype Header = Header(channel: u64, source: u64, target: u64, length: u64, seqno: u64)

  const HEADER_BYTES: nat := 40

  /** The binary form of headers. */
  datatype Codec = Codec(encode: Header -> seq<byte>, decode: seq<byte> -> Header)

  /** Encoded headers have the fixed size, and decode to what was encoded. */
  ghost predicate LawfulCodec(codec: Codec) {
    forall h :: |codec.encode(h)| == HEADER_BYTES && codec.decode(codec.encode(h)) == h
  }

  // ---- headers in memory order ----

  /** The lowest `n` bytes of a word, the least significant one first. */
  function WordBytes(w: nat, n: nat): (s: seq<byte>)
    ensures |s| == n
  {
    if n == 0 then [] else [w % 256] + WordBytes(w / 256, n - 1)
  }

  function BytesWord(s: seq<byte>): (w: nat)
    ensures w < Radix.Pow256(|s|)
  {
    if s == [] then 0 else s[0] + 256 * BytesWord(s[1..])
  }

  lemma {:induction false} WordReads(w: nat, n: nat)
    requires w < Radix.Pow256(n)
    ensures BytesWord(WordBytes(w, n)) == w
  {
    if n > 0 {
      WordReads(w / 256, n - 1);
      assert WordBytes(w, n)[1..] == WordBytes(w / 256, n - 1);
    }
  }

  lemma WordSize()
    ensures Radix.Pow256(8) == TWO_TO_64
  {
    assert Radix.Pow256(4) == 0x1_0000_0000 && Radix.Pow256(8) == 256 * (256 * (256 * (256 * Radix.Pow256(4))));
  }

  /** Word `k` of the bytes of a header. */
  function WordAt(s: seq<byte>, k: nat): u64
    requires |s| == HEADER_BYTES && k < 5
  {
    WordSize();
    BytesWord(s[8 * k..8 * k + 8])
  }

  function EncodeWords(h: Header): (s: seq<byte>)
    ensures |s| == HEADER_BYTES
  {
    WordBytes(h.channel, 8) + WordBytes(h.source, 8) + WordBytes(h.target, 8) + WordBytes(h.length, 8) +
    WordBytes(h.seqno, 8)
  }

  /** What a header looks like in memory, where words begin with their least significant byte. */
  function LittleEndian(): Codec {
    Codec(EncodeWords, (s: seq<byte>) =>
      if |s| == HEADER_BYTES then Header(WordAt(s, 0), WordAt(s, 1), WordAt(s, 2), WordAt(s, 3), WordAt(s, 4))
      else Header(0, 0, 0, 0, 0))
  }

  lemma LittleEndianLawful()
    ensures LawfulCodec(LittleEndian())
  {
    WordSize();
    forall h: Header ensures |EncodeWords(h)| == HEADER_BYTES && LittleEndian().decode(EncodeWords(h)) == h {
      var s := EncodeWords(h);
      hide EncodeWords;
      WordsApart(h);
      WordReads(h.channel, 8);
      WordReads(h.source, 8);
      WordReads(h.target, 8);
      WordReads(h.length, 8);
      WordReads(h.seqno, 8);
    }
  }

  lemma WordsApart(h: Header)
    ensures EncodeWords(h)[0..8] == WordBytes(h.channel, 8) && EncodeWords(h)[8..16] == WordBytes(h.source, 8)
    ensures EncodeWords(h)[16..24] == WordBytes(h.target, 8) && EncodeWords(h)[24..32] == WordBytes(h.length, 8)
    ensures EncodeWords(h)[32..40] == WordBytes(h.seqno, 8)
  {
  }

  /** The header at the front of `s`, once all its bytes are there. */
  function TryRead(codec: Codec, s: seq<byte>): (h: Option<Header>)
    ensures h.Some? ==> HEADER_BYTES + h.value.length <= |s|
  {
    if |s| < HEADER_BYTES then None
    else
      var h := codec.decode(s[..HEADER_BYTES]);
      if |s| - HEADER_BYTES >= h.length then Some(h) else None
  }

  function RequiredBytes(h: Header): nat {
    HEADER_BYTES + h.length
  }

  /** Exactly one message of at least one byte, with its header. */
  predicate IsFrame(codec: Codec, s: seq<byte>) {
    TryRead(codec, s).Some? && |s| == RequiredBytes(TryRead(codec, s).value) && TryRead(codec, s).value.length > 0
  }

  predicate AllFrames(codec: Codec, frames: seq<seq<byte>>) {
    forall k :: 0 <= k < |frames| ==> IsFrame(codec, frames[k])
  }

  function HeaderOf(codec: Codec, frame: seq<byte>): Header
    requires IsFrame(codec, frame)
  {
    TryRead(codec, frame).value
  }

  /** A message with its header. */
  function Frame(codec: Codec, h: Header, payload: seq<byte>): seq<byte> {
    codec.encode(h) + payload
  }

  lemma FrameIs(codec: Codec, h: Header, payload: seq<byte>)
    requires LawfulCodec(codec) && |payload| == h.length > 0
    ensures IsFrame(codec, Frame(codec, h, payload)) && HeaderOf(codec, Frame(codec, h, payload)) == h
    ensures Frame(codec, h, payload)[HEADER_BYTES..] == payload
  {
    assert Frame(codec, h, payload)[..HEADER_BYTES] == codec.encode(h);
  }

  /** The header of a message is read exactly when all bytes of the message are there. */
  lemma ReadWhole(codec: Codec, h: Header, payload: seq<byte>, n: nat)
    requires LawfulCodec(codec) && |payload| == h.length && n <= |Frame(codec, h, payload)|
    ensures TryRead(codec, Frame(codec, h, payload)[..n]) == if n == |Frame(codec, h, payload)| then Some(h) else None
  {
    var frame := Frame(codec, h, payload);
    if n >= HEADER_BYTES {
      assert frame[..n][..HEADER_BYTES] == codec.encode(h);
    }
  }

  /** What a stream of bytes amounts to so far: complete messages, whether the message of no bytes that
      ends the stream was among them, and what remains. */
  datatype Parse = Parse(frames: seq<seq<byte>>, ended: bool, rest: seq<byte>)

  function ParseAll(codec: Codec, s: seq<byte>): (p: Parse)
    ensures AllFrames(codec, p.frames)
    ensures |p.rest| <= |s|
    decreases |s|
  {
    match TryRead(codec, s)
    case None => Parse([], false, s)
    case Some(h) =>
      if h.length == 0 then Parse([], true, s[HEADER_BYTES..])
      else
        var n := RequiredBytes(h);
        var p := ParseAll(codec, s[n..]);
        ReadAlone(codec, s);
        p.(frames := [s[..n]] + p.frames)
  }

  /** A header is read the same whatever follows its message. */
  lemma ReadMore(codec: Codec, s: seq<byte>, t: seq<byte>)
    requires TryRead(codec, s).Some?
    ensures TryRead(codec, s + t) == TryRead(codec, s)
  {
    assert (s + t)[..HEADER_BYTES] == s[..HEADER_BYTES];
  }

  lemma ReadAlone(codec: Codec, s: seq<byte>)
    requires TryRead(codec, s).Some?
    ensures TryRead(codec, s[..RequiredBytes(TryRead(codec, s).value)]) == TryRead(codec, s)
  {
    var n := RequiredBytes(TryRead(codec, s).value);
    assert s[..n][..HEADER_BYTES] == s[..HEADER_BYTES];
  }

  lemma ParseStep(codec: Codec, s: seq<byte>)
    requires TryRead(codec, s).Some? && TryRead(codec, s).value.length > 0
    ensures var n := RequiredBytes(TryRead(codec, s).value); var p := ParseAll(codec, s[n..]);
            ParseAll(codec, s) == Parse([s[..n]] + p.frames, p.ended, p.rest)
  {
  }

  lemma ParseStop(codec: Codec, s: seq<byte>)
    requires TryRead(codec, s).None?
    ensures ParseAll(codec, s) == Parse([], false, s)
  {
  }

  lemma ParseEnd(codec: Codec, s: seq<byte>)
    requires TryRead(codec, s).Some? && TryRead(codec, s).value.length == 0
    ensures ParseAll(codec, s) == Parse([], true, s[HEADER_BYTES..])
  {
  }

  /** Parsing resumes where it stopped: it does not matter how a stream is cut. */
  lemma {:induction false} ParseResumes(codec: Codec, s: seq<byte>, t: seq<byte>)
    requires !ParseAll(codec, s).ended
    ensures ParseAll(codec, s + t) == Resumed(ParseAll(codec, s), ParseAll(codec, ParseAll(codec, s).rest + t))
    decreases |s|
  {
    if TryRead(codec, s).None? {
      ParseStop(codec, s);
      hide ParseAll;
      assert [] + ParseAll(codec, s + t).frames == ParseAll(codec, s + t).frames;
    } else {
      if TryRead(codec, s).value.length == 0 { ParseEnd(codec, s); }
      ReadMore(codec, s, t);
      ParseStep(codec, s);
      ParseStep(codec, s + t);
      hide ParseAll;
      var n := RequiredBytes(TryRead(codec, s).value);
      assert (s + t)[n..] == s[n..] + t && (s + t)[..n] == s[..n];
      ParseResumes(codec, s[n..], t);
      Prepend(s[..n], ParseAll(codec, s[n..]).frames, ParseAll(codec, ParseAll(codec, s).rest + t).frames);
    }
  }

  /** Parsing `p`, and then `q` from where it stopped. */
  function Resumed(p: Parse, q: Parse): Parse {
    Parse(p.frames + q.frames, q.ended, q.rest)
  }

  lemma Prepend<T>(x: T, a: seq<T>, b: seq<T>)
    ensures [x] + (a + b) == [x] + a + b
  {
  }

  /** Nothing after the end of a stream is looked at. */
  lemma {:induction false} ParseEnded(codec: Codec, s: seq<byte>, t: seq<byte>)
    requires ParseAll(codec, s).ended
    ensures ParseAll(codec, s + t) == ParseAll(codec, s).(rest := ParseAll(codec, s).rest + t)
    decreases |s|
  {
    ReadMore(codec, s, t);
    var h := TryRead(codec, s).value;
    if h.length == 0 {
      assert (s + t)[HEADER_BYTES..] == s[HEADER_BYTES..] + t;
    } else {
      var n := RequiredBytes(h);
      assert (s + t)[n..] == s[n..] + t && (s + t)[..n] == s[..n];
      ParseEnded(codec, s[n..], t);
    }
  }

  /** A stream of messages parses into these messages. */
  lemma {:induction false} ParseFrames(codec: Codec, frames: seq<seq<byte>>, t: seq<byte>)
    requires AllFrames(codec, frames)
    ensures ParseAll(codec, Flatten(frames) + t) == Resumed(Parse(frames, false, []), ParseAll(codec, t))
    decreases |frames|
  {
    hide ParseAll;
    if frames == [] {
      assert Flatten(frames) + t == t;
      assert [] + ParseAll(codec, t).frames == ParseAll(codec, t).frames;
    } else {
      var f := frames[0];
      var more := Flatten(frames[1..]) + t;
      assert Flatten(frames) + t == f + more;
      ReadMore(codec, f, more);
      ParseStep(codec, f + more);
      assert (f + more)[..|f|] == f && (f + more)[|f|..] == more;
      ParseFrames(codec, frames[1..], t);
      assert frames == [f] + frames[1..];
      Prepend(f, frames[1..], ParseAll(codec, t).frames);
    }
  }

  /** The message that ends a stream. */
  function Shutdown(codec: Codec): seq<byte> {
    codec.encode(Header(0, 0, 0, 0, 0))
  }

  /** Everything sent is received: messages followed by the end of the stream parse into them. */
  lemma StreamParses(codec: Codec, frames: seq<seq<byte>>)
    requires LawfulCodec(codec) && AllFrames(codec, frames)
    ensures ParseAll(codec, Flatten(frames) + Shutdown(codec)) == Parse(frames, true, [])
  {
    var s := Shutdown(codec);
    assert s[..HEADER_BYTES] == s && s[HEADER_BYTES..] == [];
    ParseFrames(codec, frames, s);
    ParseEnd(codec, s);
    assert frames + [] == frames;
  }

  /** Whole messages, one after the other. */
  ghost predicate WholeFrames(codec: Codec, s: seq<byte>) {
    ParseAll(codec, s).rest == [] && !ParseAll(codec, s).ended
  }

  lemma WholeNone(codec: Codec)
    ensures WholeFrames(codec, []) && ParseAll(codec, []) == Parse([], false, [])
  {
  }

  lemma WholeOne(codec: Codec, f: seq<byte>)
    requires IsFrame(codec, f)
    ensures WholeFrames(codec, f) && ParseAll(codec, f).frames == [f]
  {
    assert f[..|f|] == f && f[|f|..] == [];
    WholeNone(codec);
  }

  /** Whole messages after whole messages are whole messages. */
  lemma WholeAppend(codec: Codec, s: seq<byte>, t: seq<byte>)
    requires WholeFrames(codec, s)
    ensures ParseAll(codec, s + t).frames == ParseAll(codec, s).frames + ParseAll(codec, t).frames
    ensures WholeFrames(codec, t) ==> WholeFrames(codec, s + t)
  {
    hide ParseAll;
    ParseResumes(codec, s, t);
    assert [] + t == t;
  }

  /** Whole messages are the messages they parse into. */
  lemma {:induction false} WholeIsFrames(codec: Codec, s: seq<byte>)
    requires WholeFrames(codec, s)
    ensures Flatten(ParseAll(codec, s).frames) == s
    decreases |s|
  {
    if TryRead(codec, s).Some? {
      var n := RequiredBytes(TryRead(codec, s).value);
      WholeIsFrames(codec, s[n..]);
      assert s == s[..n] + s[n..];
      assert ParseAll(codec, s).frames[1..] == ParseAll(codec, s[n..]).frames;
    }
  }
}
