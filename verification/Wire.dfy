/**
 The wire codec: datagrams as frames of a four-byte length and a payload, written to a sink that may take less than it
 is given and read from a source that may give less than it is asked for; and control messages as lines of limited
 length, read through a buffer that may hand them out in fragments.
 */
module Wire {
  import opened Basics
  import opened Text

  newtype Byte = x: int | 0 <= x < 256

  const MAX_DATAGRAM := 64 * 1024
  const HEADER := 4

  // ----- frames -----

  /** How a length is written as the header of a frame, and read from it. */
  datatype Codec = Codec(write: nat -> seq<Byte>, read: seq<Byte> -> nat)

  ghost predicate Lawful(c: Codec) {
    && (forall n :: |c.write(n)| == HEADER)
    && (forall n: nat :: n < 0x1_0000_0000 ==> c.read(c.write(n)) == n)
  }

  function BigEndian(n: nat): (h: seq<Byte>)
    ensures |h| == HEADER
  {
    [(n / 0x100_0000 % 0x100) as Byte, (n / 0x1_0000 % 0x100) as Byte, (n / 0x100 % 0x100) as Byte, (n % 0x100) as Byte]
  }

  function FromBigEndian(h: seq<Byte>): nat {
    if |h| != HEADER then 0
    else h[0] as int * 0x100_0000 + h[1] as int * 0x1_0000 + h[2] as int * 0x100 + h[3] as int
  }

  const FRAMES := Codec(BigEndian, FromBigEndian)

  lemma LengthRoundTrip(n: nat)
    requires n < 0x1_0000_0000
    ensures FromBigEndian(BigEndian(n)) == n
  {
    var a, b, c := n / 0x100_0000, n / 0x1_0000, n / 0x100;
    assert a % 0x100 == a;
    assert b == a * 0x100 + b % 0x100;
    assert c == b * 0x100 + c % 0x100;
  }

  /** The header is the length in network byte order. */
  lemma LengthBytes(n: nat)
    requires n < 0x1_0000_0000
    ensures var h := BigEndian(n);
            n == h[0] as int * 16777216 + h[1] as int * 65536 + h[2] as int * 256 + h[3] as int
  {
    LengthRoundTrip(n);
  }

  lemma FramesAreLawful()
    ensures Lawful(FRAMES)
  {
    forall n: nat | n < 0x1_0000_0000 ensures FRAMES.read(FRAMES.write(n)) == n {
      LengthRoundTrip(n);
    }
  }

  function Encode(c: Codec, payload: seq<Byte>): seq<Byte> {
    c.write(|payload|) + payload
  }

  predicate Framable(ps: seq<seq<Byte>>) {
    forall i :: 0 <= i < |ps| ==> |ps[i]| <= MAX_DATAGRAM
  }

  function EncodeAll(c: Codec, ps: seq<seq<Byte>>): seq<Byte> {
    if |ps| == 0 then [] else Encode(c, ps[0]) + EncodeAll(c, ps[1..])
  }

  /** One frame from the front of a stream, and what is left of the stream. */
  function Decode(c: Codec, s: seq<Byte>): (Option<seq<Byte>>, seq<Byte>) {
    if |s| < HEADER then (None, [])
    else
      var size := c.read(s[..HEADER]);
      var rest := s[HEADER..];
      if size > MAX_DATAGRAM then (None, rest)
      else if |rest| < size then (None, [])
      else (Some(rest[..size]), rest[size..])
  }

  /** The payloads that repeated reading returns, up to the first error. */
  function DecodeAll(c: Codec, s: seq<Byte>): seq<seq<Byte>>
    decreases |s|
  {
    match Decode(c, s)
    case (None, _) => []
    case (Some(payload), rest) => [payload] + DecodeAll(c, rest)
  }

  lemma DecodeEncoded(c: Codec, payload: seq<Byte>, rest: seq<Byte>)
    requires Lawful(c) && |payload| <= MAX_DATAGRAM
    ensures Decode(c, Encode(c, payload) + rest) == (Some(payload), rest)
  {
    var s := Encode(c, payload) + rest;
    assert s[..HEADER] == c.write(|payload|);
    assert s[HEADER..] == payload + rest;
  }

  /** A frame that is cut off is never read as a payload. */
  lemma DecodeTruncated(c: Codec, payload: seq<Byte>, s: seq<Byte>)
    requires Lawful(c) && |payload| <= MAX_DATAGRAM && s <= Encode(c, payload) && |s| < |Encode(c, payload)|
    ensures Decode(c, s) == (None, [])
  {
    if |s| >= HEADER {
      assert s[..HEADER] == Encode(c, payload)[..HEADER] == c.write(|payload|);
    }
  }

  lemma DecodeAllStep(c: Codec, s: seq<Byte>, payload: seq<Byte>, rest: seq<Byte>)
    requires Decode(c, s) == (Some(payload), rest)
    ensures DecodeAll(c, s) == [payload] + DecodeAll(c, rest)
  {
  }

  lemma EncodeAllStep(c: Codec, ps: seq<seq<Byte>>, rest: seq<Byte>)
    requires |ps| > 0
    ensures EncodeAll(c, ps) + rest == Encode(c, ps[0]) + (EncodeAll(c, ps[1..]) + rest)
  {
  }

  /** Reading what was written gives back exactly the payloads, whatever follows them. */
  lemma {:induction false} DecodeAllEncoded(c: Codec, ps: seq<seq<Byte>>, rest: seq<Byte>)
    requires Lawful(c) && Framable(ps)
    ensures DecodeAll(c, EncodeAll(c, ps) + rest) == ps + DecodeAll(c, rest)
  {
    if |ps| == 0 {
      assert EncodeAll(c, ps) + rest == rest && ps + DecodeAll(c, rest) == DecodeAll(c, rest);
    } else {
      var tail := EncodeAll(c, ps[1..]) + rest;
      EncodeAllStep(c, ps, rest);
      DecodeEncoded(c, ps[0], tail);
      DecodeAllStep(c, Encode(c, ps[0]) + tail, ps[0], tail);
      DecodeAllEncoded(c, ps[1..], rest);
      assert [ps[0]] + (ps[1..] + DecodeAll(c, rest)) == ps + DecodeAll(c, rest);
    }
  }

  /** Reading a stream that was cut off gives the first payloads and then an error: all of them only if nothing is missing. */
  lemma {:induction false} DecodeAllTruncated(c: Codec, ps: seq<seq<Byte>>, s: seq<Byte>)
    requires Lawful(c) && Framable(ps) && s <= EncodeAll(c, ps)
    ensures DecodeAll(c, s) <= ps
    ensures DecodeAll(c, s) == ps <==> s == EncodeAll(c, ps)
  {
    if |ps| == 0 {
      assert s == [];
    } else {
      var first, tail := Encode(c, ps[0]), EncodeAll(c, ps[1..]);
      if |s| < |first| {
        DecodeTruncated(c, ps[0], s);
      } else {
        var t := s[|first|..];
        assert s == first + t;
        assert t <= tail;
        DecodeEncoded(c, ps[0], t);
        DecodeAllStep(c, s, ps[0], t);
        DecodeAllTruncated(c, ps[1..], t);
      }
    }
  }

  /** The two for the frames that are really written. */
  lemma FramesRoundTrip(ps: seq<seq<Byte>>, rest: seq<Byte>, cut: seq<Byte>)
    requires (forall p :: p in ps ==> |p| <= 65536) && cut <= EncodeAll(FRAMES, ps)
    ensures DecodeAll(FRAMES, EncodeAll(FRAMES, ps) + rest) == ps + DecodeAll(FRAMES, rest)
    ensures DecodeAll(FRAMES, cut) <= ps
    ensures DecodeAll(FRAMES, cut) == ps <==> cut == EncodeAll(FRAMES, ps)
  {
    FramesAreLawful();
    DecodeAllEncoded(FRAMES, ps, rest);
    DecodeAllTruncated(FRAMES, ps, cut);
  }

  // ----- writing -----

  /** A sink takes any part of what it is given, and may fail; a reliable one takes at least a byte and does not. */
  class Sink {
    const reliable: bool
    var data: seq<Byte>

    constructor (reliable: bool)
      ensures data == [] && this.reliable == reliable
    {
      data, this.reliable := [], reliable;
    }

    method Write(p: seq<Byte>) returns (written: nat, ok: bool)
      modifies this
      ensures written <= |p| && data == old(data) + p[..written]
      ensures reliable && |p| > 0 ==> written > 0 && ok
    {
      ok := *;
      var n: nat :| n <= |p|;
      written := n;
      if reliable {
        ok := true;
        if written == 0 {
          written := |p|;
        }
      }
      data := data + p[..written];
    }
  }

  /** All of the payload is written, or a first part of it and an error is reported. */
  method WriteAll(sink: Sink, payload: seq<Byte>) returns (ok: bool)
    modifies sink
    ensures old(sink.data) <= sink.data <= old(sink.data) + payload
    ensures ok ==> sink.data == old(sink.data) + payload
    ensures sink.reliable ==> ok
  {
    var left := payload;
    while |left| > 0
      invariant |left| <= |payload| && left == payload[|payload| - |left|..]
      invariant sink.data == old(sink.data) + payload[..|payload| - |left|]
      decreases |left|
    {
      var written, fine := sink.Write(left);
      left := left[written..];
      if !fine {
        return false;
      }
      if written == 0 {
        return false;
      }
    }
    ok := true;
  }

  method WriteFrame(sink: Sink, payload: seq<Byte>) returns (ok: bool)
    modifies sink
    ensures |payload| > 65536 ==> !ok && sink.data == old(sink.data)
    ensures ok ==> exists header :: |header| == 4 && sink.data == old(sink.data) + header + payload
                                    && FromBigEndian(header) == |payload|
    ensures |payload| > MAX_DATAGRAM ==> !ok && sink.data == old(sink.data)
    ensures |payload| <= MAX_DATAGRAM ==> old(sink.data) <= sink.data <= old(sink.data) + Encode(FRAMES, payload)
    ensures ok ==> sink.data == old(sink.data) + Encode(FRAMES, payload)
    ensures sink.reliable && |payload| <= MAX_DATAGRAM ==> ok
  {
    if |payload| > MAX_DATAGRAM {
      return false;
    }
    var header := BigEndian(|payload|);
    LengthRoundTrip(|payload|);
    ok := WriteAll(sink, header);
    if !ok || |payload| == 0 {
      assert old(sink.data) + header <= old(sink.data) + Encode(FRAMES, payload);
      return;
    }
    ok := WriteAll(sink, payload);
    assert old(sink.data) + header + payload == old(sink.data) + Encode(FRAMES, payload);
  }

  // ----- reading -----

  /** A source gives at least a byte while it has one. */
  class Source {
    var data: seq<Byte>

    constructor (data: seq<Byte>)
      ensures this.data == data
    {
      this.data := data;
    }

    method Read(n: nat) returns (got: seq<Byte>)
      requires n > 0
      modifies this
      ensures |got| <= n && old(data) == got + data
      ensures old(data) != [] ==> got != []
    {
      var k: nat :| k <= n && k <= |data| && (data != [] ==> k > 0);
      got := data[..k];
      data := data[k..];
    }
  }

  /** Exactly `n` bytes, or an error once the source has no more. */
  method ReadFull(source: Source, n: nat) returns (r: Option<seq<Byte>>)
    modifies source
    ensures n <= |old(source.data)| ==> r == Some(old(source.data)[..n]) && source.data == old(source.data)[n..]
    ensures n > |old(source.data)| ==> r == None && source.data == []
  {
    var buffer: seq<Byte> := [];
    while |buffer| < n
      invariant |buffer| <= n && old(source.data) == buffer + source.data
      decreases n - |buffer|
    {
      var got := source.Read(n - |buffer|);
      if got == [] {
        return None;
      }
      buffer := buffer + got;
    }
    r := Some(buffer);
  }

  /** However the source splits the stream, the same frame is read. */
  method ReadFrame(source: Source) returns (r: Option<seq<Byte>>)
    modifies source
    ensures (r, source.data) == Decode(FRAMES, old(source.data))
    ensures r.Some? ==> |r.value| <= 65536 && exists header :: |header| == 4 && FromBigEndian(header) == |r.value|
                                                               && old(source.data) == header + r.value + source.data
  {
    var header := ReadFull(source, HEADER);
    if header.None? {
      return None;
    }
    var size := FromBigEndian(header.value);
    if size > MAX_DATAGRAM {
      return None;
    }
    if size == 0 {
      assert source.data[..0] == [] && source.data[0..] == source.data;
      assert old(source.data) == header.value + [] + source.data;
      return Some([]);
    }
    r := ReadFull(source, size);
    if r.Some? {
      assert old(source.data) == header.value + r.value + source.data;
    }
  }

  // ----- message lines -----

  function FirstNewline(s: string): (r: int)
    ensures -1 <= r < |s|
    ensures r == -1 <==> '\n' !in s
    ensures r >= 0 ==> s[r] == '\n' && '\n' !in s[..r]
  {
    if s == "" then -1
    else if s[0] == '\n' then 0
    else
      var i := FirstNewline(s[1..]);
      assert s == [s[0]] + s[1..];
      if i < 0 then -1 else assert s[..i + 1] == [s[0]] + s[1..][..i]; i + 1
  }

  lemma {:induction false} FirstIsLeast(s: string, k: nat)
    requires k < |s| && s[k] == '\n' && '\n' !in s[..k]
    ensures FirstNewline(s) == k
  {
    if k > 0 {
      assert s[..k] == [s[0]] + s[1..][..k - 1];
      FirstIsLeast(s[1..], k - 1);
    }
  }

  /** The message a reader should find: the first line, trimmed, if it is within the limit and not blank. */
  function Message(s: string, max: int): Option<string> {
    var i := FirstNewline(s);
    if i < 0 || i + 1 > max || Trim(s[..i + 1]) == "" then None else Some(Trim(s[..i + 1]))
  }

  /** A line within the limit that is not blank is the message, trimmed, whatever follows it. */
  lemma MessageIsRead(line: string, more: string, max: int)
    requires '\n' !in line && |line| + 1 <= max
    ensures Message(line + "\n" + more, max) == if Trim(line) == "" then None else Some(Trim(line))
  {
    var s := line + "\n" + more;
    assert s[|line|] == '\n' && s[..|line|] == line && s[..|line| + 1] == line + "\n";
    FirstIsLeast(s, |line|);
    TrimIgnoresTail(line, "\n");
  }

  /** A longer line is refused, and so is one without an end. */
  lemma LongLineIsRefused(line: string, more: string, max: int)
    requires '\n' !in line
    ensures |line| + 1 > max ==> Message(line + "\n" + more, max) == None
    ensures Message(line, max) == None
  {
    var s := line + "\n" + more;
    assert s[|line|] == '\n' && s[..|line|] == line;
    FirstIsLeast(s, |line|);
  }

  lemma NoNewlineBefore(s: string, k: nat)
    requires k <= if FirstNewline(s) < 0 then |s| else FirstNewline(s)
    ensures '\n' !in s[..k]
  {
    var i := FirstNewline(s);
    if i >= 0 {
      assert s[..k] == s[..i][..k];
    }
  }

  datatype Slice = Complete | BufferFull | Failed

  /** A buffered stream that ends with an error. It may hand out a line in fragments of any size. */
  class LineSource {
    var data: string

    constructor (data: string)
      ensures this.data == data
    {
      this.data := data;
    }

    method ReadSlice() returns (fragment: string, slice: Slice)
      modifies this
      ensures old(data) == fragment + data
      ensures slice.Complete? ==> FirstNewline(old(data)) >= 0 && |fragment| == FirstNewline(old(data)) + 1
      ensures slice.BufferFull? ==> fragment != "" && '\n' !in fragment
      ensures slice.Failed? ==> '\n' !in old(data) && data == ""
    {
      var i := FirstNewline(data);
      var before := if i < 0 then |data| else i;
      var full := *;
      if full && before > 0 {
        var k: nat :| 0 < k <= before;
        NoNewlineBefore(data, k);
        fragment, slice := data[..k], BufferFull;
      } else if i >= 0 {
        fragment, slice := data[..i + 1], Complete;
      } else {
        fragment, slice := data, Failed;
      }
      data := data[|fragment|..];
    }
  }

  lemma NewlineAfter(a: string, b: string)
    requires '\n' !in a
    ensures FirstNewline(a + b) == if FirstNewline(b) < 0 then -1 else |a| + FirstNewline(b)
  {
    var s, i, j := a + b, FirstNewline(a + b), FirstNewline(b);
    if j >= 0 {
      assert s[|a| + j] == '\n';
      assert '\n' !in s[..|a| + j] by {
        assert s[..|a| + j] == a + b[..j];
      }
      FirstIsLeast(s, |a| + j);
    }
  }

  /** For every fragmentation the same message is found and exactly its line is read; no more than the limit is kept. */
  method ReadMessageLineLimit(source: LineSource, max: int) returns (r: Option<string>)
    modifies source
    ensures r == Message(old(source.data), max)
    ensures r.Some? ==> source.data == old(source.data)[FirstNewline(old(source.data)) + 1..]
    ensures max <= 0 ==> source.data == old(source.data)
  {
    if max <= 0 {
      return None;
    }
    var line := "";
    while true
      invariant |line| <= max && '\n' !in line
      invariant old(source.data) == line + source.data
      decreases |source.data|
    {
      NewlineAfter(line, source.data);
      var fragment, slice := source.ReadSlice();
      assert old(source.data) == (line + fragment) + source.data;
      if |line| + |fragment| > max {
        if slice.BufferFull? {
          NewlineAfter(line + fragment, source.data);
        }
        return None;
      }
      line := line + fragment;
      match slice
      case Complete => break;
      case BufferFull => continue;
      case Failed => return None;
    }
    line := Trim(line);
    r := if line == "" then None else Some(line);
  }
}
