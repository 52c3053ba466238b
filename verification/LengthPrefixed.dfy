/** Length-prefixed video blobs over stream_data slices of any size. */
module LengthPrefixed {
  import opened Wrappers
  import opened Protocol
  import opened Cum
  import opened Framing
  import H264 = H264Fragments

  const MAX_FRAME := 32 * 1024 * 1024
  const DEFAULT_CHUNK := 1200

  /** "RTMSFMT:" and "video/webm". */
  const CONTROL: seq<byte> := [0x52, 0x54, 0x4d, 0x53, 0x46, 0x4d, 0x54, 0x3a]
  const WEBM: seq<byte> := [0x76, 0x69, 0x64, 0x65, 0x6f, 0x2f, 0x77, 0x65, 0x62, 0x6d]
  /** "RTV1". */
  const DATAGRAM: seq<byte> := [0x52, 0x54, 0x56, 0x31]

  // ---- Sender -----------------------------------------------------------------------------------------------------

  /** `prependLengthPrefixedWhole`. */
  function Frame(blob: seq<byte>): seq<byte> { Be32(|blob|) + blob }

  function Wire(blobs: seq<seq<byte>>): seq<byte> {
    if blobs == [] then [] else Frame(blobs[0]) + Wire(blobs[1..])
  }

  /** `body` in slices of `c` bytes, the last one possibly shorter. */
  function Cut(body: seq<byte>, c: nat): seq<seq<byte>>
    requires c > 0
    decreases |body|
  {
    if body == [] then [] else if |body| <= c then [body] else [body[..c]] + Cut(body[c..], c)
  }

  lemma {:induction false} CutJoins(body: seq<byte>, c: nat)
    requires c > 0
    ensures Joined(Cut(body, c)) == body
    decreases |body|
  {
    if |body| > c {
      CutJoins(body[c..], c);
      var later := Cut(body[c..], c);
      assert ([body[..c]] + later)[1..] == later;
    } else if body != [] {
      assert [body][1..] == [] && body + [] == body;
    }
  }

  /** `subarray` cuts an end beyond the last byte. */
  function End(body: seq<byte>, n: nat): (m: nat)
    ensures m <= |body|
  {
    if n < |body| then n else |body|
  }

  /** `broadcastStreamChunk`: the body in slices of at most `max` bytes. */
  method Broadcast(blob: seq<byte>, framed: bool, max: int) returns (slices: seq<seq<byte>>)
    ensures slices == Cut(if framed then Frame(blob) else blob, if max > 0 then max else DEFAULT_CHUNK)
    ensures Joined(slices) == if framed then Frame(blob) else blob
    ensures forall x | x in slices :: 0 < |x| <= if max > 0 then max else DEFAULT_CHUNK
  {
    hide Cut, Joined, Frame;
    var chunk := if max > 0 then max else DEFAULT_CHUNK;
    var body := if framed then Frame(blob) else blob;
    slices := [];
    var off := 0;
    assert body[0..] == body && [] + Cut(body, chunk) == Cut(body, chunk);
    while off < |body|
      invariant 0 <= off && slices + Cut(body[End(body, off)..], chunk) == Cut(body, chunk)
      invariant forall x | x in slices :: 0 < |x| <= chunk
    {
      CutOn(slices, body, off, chunk);
      slices := slices + [body[off..End(body, off + chunk)]];
      off := off + chunk;
    }
    assert body[|body|..] == [] && slices + [] == slices;
    CutNothing(chunk);
    CutJoins(body, chunk);
  }

  lemma CutNothing(c: nat)
    requires c > 0
    ensures Cut([], c) == []
  {
  }

  /** The next slice. */
  lemma CutOn(slices: seq<seq<byte>>, body: seq<byte>, off: nat, c: nat)
    requires c > 0 && off < |body|
    ensures var end := End(body, off + c);
      slices + Cut(body[off..], c) == slices + [body[off..end]] + Cut(body[end..], c)
  {
    var rest := body[off..];
    if c < |rest| {
      assert rest[c..] == body[off + c..] && rest[..c] == body[off..off + c];
      assert slices + ([rest[..c]] + Cut(rest[c..], c)) == slices + [rest[..c]] + Cut(rest[c..], c);
    } else {
      assert body[|body|..] == [] && body[off..|body|] == rest;
      assert slices + [rest] + [] == slices + [rest];
    }
  }

  // ---- Receiver ---------------------------------------------------------------------------------------------------

  /** What the receiver keeps for one peer: raw mode, the declared format and the bytes not yet framed. */
  datatype Rx = Rx(raw: bool, declared: seq<byte>, buf: seq<byte>)

  const FRESH := Rx(false, [], [])

  predicate IsSpace(b: byte) { 9 <= b <= 13 || b == 32 }

  function TrimLeft(s: seq<byte>): seq<byte> {
    if s != [] && IsSpace(s[0]) then TrimLeft(s[1..]) else s
  }

  function TrimRight(s: seq<byte>): seq<byte> {
    if s != [] && IsSpace(s[|s| - 1]) then TrimRight(s[..|s| - 1]) else s
  }

  predicate IsControl(frame: seq<byte>) { CONTROL <= frame }

  /** The format a control frame declares. */
  function Format(frame: seq<byte>): seq<byte>
    requires IsControl(frame)
  {
    TrimRight(TrimLeft(frame[|CONTROL|..]))
  }

  /** White space around a declared format is dropped, and nothing else. */
  lemma {:induction false} FormatIsTrimmed(left: seq<byte>, format: seq<byte>, right: seq<byte>)
    requires (forall b | b in left :: IsSpace(b)) && (forall b | b in right :: IsSpace(b))
    requires format != [] && !IsSpace(format[0]) && !IsSpace(format[|format| - 1])
    ensures Format(CONTROL + left + format + right) == format
  {
    hide IsSpace;
    var body := left + format + right;
    assert (CONTROL + left + format + right)[|CONTROL|..] == body;
    assert body == left + (format + right);
    LeftTrimmed(left, format + right);
    RightTrimmed(format, right);
  }

  lemma {:induction false} LeftTrimmed(left: seq<byte>, rest: seq<byte>)
    requires (forall b | b in left :: IsSpace(b)) && rest != [] && !IsSpace(rest[0])
    ensures TrimLeft(left + rest) == rest
  {
    hide IsSpace;
    if left == [] {
      assert left + rest == rest;
    } else {
      LeftTrimmed(left[1..], rest);
      assert (left + rest)[1..] == left[1..] + rest;
    }
  }

  lemma {:induction false} RightTrimmed(rest: seq<byte>, right: seq<byte>)
    requires (forall b | b in right :: IsSpace(b)) && rest != [] && !IsSpace(rest[|rest| - 1])
    ensures TrimRight(rest + right) == rest
    decreases |right|
  {
    hide IsSpace;
    if right == [] {
      assert rest + right == rest;
    } else {
      RightTrimmed(rest, right[..|right| - 1]);
      assert (rest + right)[..|rest + right| - 1] == rest + right[..|right| - 1];
    }
  }

  /** A control frame is noted, anything else handed on. */
  function Note(rx: Rx, frame: seq<byte>): Rx {
    if !IsControl(frame) || Format(frame) == [] then rx
    else Rx(rx.raw || WEBM <= Format(frame), Format(frame), rx.buf)
  }

  function HandedOn(frame: seq<byte>): seq<seq<byte>> {
    if IsControl(frame) then [] else [frame]
  }

  /** The framing loop: the new state and what is handed on. */
  function Drain(rx: Rx): (Rx, seq<seq<byte>>)
    decreases |rx.buf|
  {
    if |rx.buf| < 4 then (rx, []) else
      var n := Be32Value(rx.buf[..4]);
      if n < 1 || n > MAX_FRAME then (rx.(raw := true, buf := []), [rx.buf])
      else if |rx.buf| < 4 + n then (rx, [])
      else
        var frame := rx.buf[4..4 + n];
        var (rx', out) := Drain(Note(rx, frame).(buf := rx.buf[4 + n..]));
        (rx', HandedOn(frame) + out)
  }

  /** `parseVideoDatagramHeader` accepts the slice. */
  predicate IsDatagram(x: seq<byte>) {
    && |x| >= 16 && DATAGRAM <= x && x[4] == 1 && x[5] == 1
    && Be16Value(x[14..16]) >= 1 && Be16Value(x[12..14]) < Be16Value(x[14..16])
  }

  /** The part of `ingestLengthPrefixedVideo` for slices that are no datagrams. */
  function Unframe(rx: Rx, x: seq<byte>): (Rx, seq<seq<byte>>) {
    if x == [] then (rx, [])
    else if WEBM <= rx.declared || rx.raw then (rx, [x])
    else Drain(rx.(buf := rx.buf + x))
  }

  function UnframeAll(rx: Rx, slices: seq<seq<byte>>): (Rx, seq<seq<byte>>)
    decreases |slices|
  {
    if slices == [] then (rx, []) else
      var (rx', out) := Unframe(rx, slices[0]);
      var (rx'', more) := UnframeAll(rx', slices[1..]);
      (rx'', out + more)
  }

  /** The fields of a datagram. The frame id only serves as a key; the source prints it as a signed number. */
  function Datagram(x: seq<byte>): H264.Fragment
    requires IsDatagram(x)
  {
    H264.Fragment(Be32Value(x[8..12]), Be16Value(x[12..14]), Be16Value(x[14..16]), x[16..])
  }

  /** `feedPeerWebmSlice` ignores an empty buffer. */
  function Fed(buffer: Option<seq<byte>>): seq<seq<byte>> {
    if buffer.None? || buffer.value == [] then [] else [buffer.value]
  }

  /** What the receiver keeps for one stream: the framing state, and the datagrams not yet put together. */
  datatype Stream = Stream(key: string, rx: Rx, parts: H264.Table)

  function Fresh(key: string): Stream { Stream(key, FRESH, map[]) }

  /** `ingestLengthPrefixedVideo`: the new state and what is handed on. */
  function Ingest(s: Stream, x: seq<byte>): (Stream, seq<seq<byte>>) {
    if IsDatagram(x) then
      var (table, buffer) := H264.Accept(s.parts, s.key, Datagram(x));
      (s.(parts := table), Fed(buffer))
    else
      var (rx, out) := Unframe(s.rx, x);
      (s.(rx := rx), out)
  }

  function IngestAll(s: Stream, slices: seq<seq<byte>>): (Stream, seq<seq<byte>>)
    decreases |slices|
  {
    if slices == [] then (s, []) else
      var (s', out) := Ingest(s, slices[0]);
      var (s'', more) := IngestAll(s', slices[1..]);
      (s'', out + more)
  }

  class VideoReceiver {
    const key: string
    var raw: bool
    var declared: seq<byte>
    var buf: seq<byte>
    var parts: H264.Table
    /** The blobs handed to the player. */
    var played: seq<seq<byte>>

    constructor (key: string)
      ensures View() == Fresh(key) && played == []
    {
      this.key := key;
      raw, declared, buf, parts, played := false, [], [], map[], [];
    }

    ghost function Framed(): Rx
      reads this
    {
      Rx(raw, declared, buf)
    }

    ghost function View(): Stream
      reads this
    {
      Stream(key, Framed(), parts)
    }

    method IngestSlice(x: seq<byte>)
      modifies this
      ensures (View(), played) == (Ingest(old(View()), x).0, old(played) + Ingest(old(View()), x).1)
    {
      hide Drain, H264.Accept;
      if |x| == 0 {
        assert played + [] == played;
        return;
      }
      if IsDatagram(x) {
        StoreDatagram(Datagram(x));
        return;
      }
      UnframeSlice(x);
    }

    /** Stores one datagram and feeds the frame it completes, if any. */
    method StoreDatagram(f: H264.Fragment)
      modifies this`parts, this`played
      ensures var (table, buffer) := H264.Accept(old(parts), key, f);
        parts == table && played == old(played) + Fed(buffer)
    {
      hide Joined;
      var id := (key, f.number);
      if id !in parts || parts[id].total != f.count {
        parts := parts[id := H264.Partial(f.count, map[])];
      }
      parts := parts[id := parts[id].(got := parts[id].got[f.index := f.chunk])];
      var rec := parts[id];
      assert rec == H264.Stored(old(parts), id, f) && parts == old(parts)[id := rec];
      assert played + [] == played;
      if |rec.got| < rec.total { return; }
      var buffer := H264.Assemble(rec);
      if buffer.None? { return; }
      assert old(parts)[id := rec] - {id} == old(parts) - {id};
      parts := parts - {id};
      if |buffer.value| > 0 { played := played + [buffer.value]; }
    }

    method UnframeSlice(x: seq<byte>)
      modifies this`raw, this`declared, this`buf, this`played
      ensures (Framed(), played) == (Unframe(old(Framed()), x).0, old(played) + Unframe(old(Framed()), x).1)
    {
      assert played + [] == played;
      if |x| == 0 { return; }
      if WEBM <= declared || raw {
        played := played + [x];
        return;
      }
      hide Drain, Resume, Be32Value, Note, HandedOn, Format, IsControl;
      buf := buf + x;
      ghost var goal := Resume(Framed(), played);
      assert goal == (Unframe(old(Framed()), x).0, old(played) + Unframe(old(Framed()), x).1) by {
        ResumeIs(old(Framed()).(buf := buf), played);
      }
      while |buf| >= 4
        invariant Resume(Framed(), played) == goal
        decreases |buf|
      {
        DrainStep(Framed(), played);
        var n := Be32Value(buf[..4]);
        if n < 1 || n > MAX_FRAME {
          raw := true;
          played := played + [buf];
          buf := [];
          return;
        }
        if |buf| < 4 + n { return; }
        var frame := buf[4..4 + n];
        ghost var rx := Framed();
        buf := buf[4 + n..];
        assert Framed() == rx.(buf := rx.buf[4 + n..]);
        TakeFrame(frame);
      }
      DrainStep(Framed(), played);
    }

    /** A control frame declares a format; any other frame is played. */
    method TakeFrame(frame: seq<byte>)
      modifies this`raw, this`declared, this`played
      ensures Framed() == Note(old(Framed()), frame) && played == old(played) + HandedOn(frame)
    {
      if CONTROL <= frame {
        var format := Format(frame);
        if |format| > 0 {
          declared := format;
          if WEBM <= format { raw := true; }
        }
      } else {
        played := played + [frame];
      }
    }
  }

  /** The state and everything played once the loop is done. */
  function Resume(rx: Rx, played: seq<seq<byte>>): (Rx, seq<seq<byte>>) {
    (Drain(rx).0, played + Drain(rx).1)
  }

  lemma ResumeIs(rx: Rx, played: seq<seq<byte>>)
    ensures Resume(rx, played) == (Drain(rx).0, played + Drain(rx).1)
  {
  }

  /** One round of the framing loop. */
  lemma {:induction false} DrainStep(rx: Rx, played: seq<seq<byte>>)
    ensures if |rx.buf| < 4 then Resume(rx, played) == (rx, played) else
      var n := Be32Value(rx.buf[..4]);
      if n < 1 || n > MAX_FRAME then Resume(rx, played) == (rx.(raw := true, buf := []), played + [rx.buf])
      else if |rx.buf| < 4 + n then Resume(rx, played) == (rx, played)
      else
        var frame := rx.buf[4..4 + n];
        Resume(rx, played) == Resume(Note(rx.(buf := rx.buf[4 + n..]), frame), played + HandedOn(frame))
  {
    hide Be32Value;
    assert played + [] == played;
    if |rx.buf| >= 4 {
      var n := Be32Value(rx.buf[..4]);
      if 1 <= n <= MAX_FRAME && |rx.buf| >= 4 + n {
        var frame := rx.buf[4..4 + n];
        NoteIgnoresBuffer(rx, frame, rx.buf[4 + n..]);
        hide Note;
        Associates(played, HandedOn(frame), Drain(Note(rx, frame).(buf := rx.buf[4 + n..])).1);
      }
    }
  }

  // ---- Any slicing ------------------------------------------------------------------------------------------------

  /** Unless the first part switches to raw mode, draining in two parts is draining the whole. */
  lemma {:induction false} DrainInTwo(rx: Rx, x: seq<byte>)
    requires !Drain(rx).0.raw
    ensures var (first, out) := Drain(rx);
      var (second, more) := Drain(first.(buf := first.buf + x));
      Drain(rx.(buf := rx.buf + x)) == (second, out + more)
    decreases |rx.buf|
  {
    hide Be32Value, Note, Drain, Resume;
    var b := rx.buf;
    DrainStep(rx, []);
    DrainsAs(rx);
    NothingBefore(Drain(rx.(buf := b + x)).1);
    if |b| >= 4 {
      var n := Be32Value(b[..4]);
      if |b| >= 4 + n && 1 <= n <= MAX_FRAME {
        var frame, rest := b[4..4 + n], b[4 + n..];
        var next := Note(rx.(buf := rest), frame);
        NoteIgnoresBuffer(rx, frame, rest);
        NoteIgnoresBuffer(rx, frame, rest + x);
        DrainFrame(rx, n);
        assert (b + x)[..4] == b[..4] && (b + x)[4..4 + n] == frame && (b + x)[4 + n..] == rest + x;
        DrainFrame(rx.(buf := b + x), n);
        DrainInTwo(next, x);
        Associates(HandedOn(frame), Drain(next).1, Drain(Drain(next).0.(buf := Drain(next).0.buf + x)).1);
      }
    }
  }

  lemma DrainsAs(rx: Rx)
    ensures Resume(rx, []) == Drain(rx)
  {
    NothingBefore(Drain(rx).1);
  }

  /** Draining a buffer that starts with a complete frame. */
  lemma DrainFrame(rx: Rx, n: nat)
    requires 4 <= |rx.buf| && n == Be32Value(rx.buf[..4]) && 1 <= n <= MAX_FRAME && 4 + n <= |rx.buf|
    ensures var (frame, rest) := (rx.buf[4..4 + n], rx.buf[4 + n..]);
      var (rx', out) := Drain(Note(rx.(buf := rest), frame));
      Drain(rx) == (rx', HandedOn(frame) + out)
  {
    hide Be32Value, Note, HandedOn;
    NoteIgnoresBuffer(rx, rx.buf[4..4 + n], rx.buf[4 + n..]);
  }

  lemma Associates(a: seq<seq<byte>>, b: seq<seq<byte>>, c: seq<seq<byte>>)
    ensures a + (b + c) == (a + b) + c
  {
  }

  lemma NothingBefore(out: seq<seq<byte>>)
    ensures [] + out == out
  {
  }

  lemma NoteIgnoresBuffer(rx: Rx, frame: seq<byte>, b: seq<byte>)
    ensures Note(rx.(buf := b), frame) == Note(rx, frame).(buf := b)
  {
  }

  // ---- A framed stream ---------------------------------------------------------------------------------------------

  /** A frame the receiver takes as one: of legal length and not declaring a WebM stream. */
  predicate GoodFrame(f: seq<byte>) {
    1 <= |f| <= MAX_FRAME && (IsControl(f) ==> !(WEBM <= Format(f)))
  }

  /** How many frames lie completely within the first `n` bytes of the wire. */
  function Complete(frames: seq<seq<byte>>, n: nat): (k: nat)
    ensures k <= |frames|
  {
    if frames == [] || n < 4 + |frames[0]| then 0 else 1 + Complete(frames[1..], n - 4 - |frames[0]|)
  }

  function Blobs(frames: seq<seq<byte>>): seq<seq<byte>> {
    if frames == [] then [] else HandedOn(frames[0]) + Blobs(frames[1..])
  }

  /** The format last declared. */
  function Declared(before: seq<byte>, frames: seq<seq<byte>>): seq<byte>
    decreases |frames|
  {
    if frames == [] then before else Declared(Note(Rx(false, before, []), frames[0]).declared, frames[1..])
  }

  predicate FramedMode(rx: Rx) { !rx.raw && !(WEBM <= rx.declared) }

  /** A frame at the head of the buffer is read back. */
  lemma {:induction false} FirstFrame(f: seq<byte>, more: seq<byte>)
    requires 1 <= |f| <= MAX_FRAME
    ensures var b := Frame(f) + more;
      |b| >= 4 + |f| && Be32Value(b[..4]) == |f| && b[4..4 + |f|] == f && b[4 + |f|..] == more
  {
    hide Be32, Be32Value;
    var b := Frame(f) + more;
    assert b[..4] == Be32(|f|);
    Be32ReadsBack(|f|);
  }

  /** Noting a good frame stays in framed mode. */
  lemma NoteKeepsMode(rx: Rx, f: seq<byte>, rest: seq<byte>)
    requires FramedMode(rx) && GoodFrame(f)
    ensures var rx' := Note(rx, f).(buf := rest);
      FramedMode(rx') && rx' == Rx(false, Note(Rx(false, rx.declared, []), f).declared, rest)
  {
  }

  /** The wire up to and after the first frame. */
  lemma WireFirst(frames: seq<seq<byte>>, n: nat)
    requires frames != [] && 4 + |frames[0]| <= n <= |Wire(frames)| && 1 <= |frames[0]| <= MAX_FRAME
    ensures var (f, b) := (frames[0], Wire(frames)[..n]);
      && |Wire(frames)| == 4 + |f| + |Wire(frames[1..])|
      && Be32Value(b[..4]) == |f| && b[4..4 + |f|] == f && b[4 + |f|..] == Wire(frames[1..])[..n - 4 - |f|]
  {
    hide Be32, Be32Value;
    var f := frames[0];
    FirstFrame(f, Wire(frames[1..])[..n - 4 - |f|]);
    assert Wire(frames)[..n] == Frame(f) + Wire(frames[1..])[..n - 4 - |f|];
  }

  lemma WireStart(frames: seq<seq<byte>>, n: nat)
    requires frames != [] && 4 <= n <= |Wire(frames)| && 1 <= |frames[0]| <= MAX_FRAME
    ensures Be32Value(Wire(frames)[..n][..4]) == |frames[0]|
  {
    hide Be32, Be32Value;
    FirstFrame(frames[0], Wire(frames[1..]));
    assert Wire(frames)[..n][..4] == Wire(frames)[..4];
  }

  predicate AllGood(frames: seq<seq<byte>>) { forall f | f in frames :: GoodFrame(f) }

  /** What the receiver holds and has handed on after the first `n` bytes of the wire. */
  function Dealt(before: seq<byte>, frames: seq<seq<byte>>, n: nat): (Rx, seq<seq<byte>>)
    requires n <= |Wire(frames)|
  {
    var k := Complete(frames, n);
    var used := WireLength(frames[..k]);
    (Rx(false, Declared(before, frames[..k]), Kept(Wire(frames), used, n)), Blobs(frames[..k]))
  }

  function Kept(w: seq<byte>, used: nat, n: nat): seq<byte>
    requires n <= |w|
  {
    if used <= n then w[used..n] else []
  }

  function WireLength(frames: seq<seq<byte>>): nat {
    if frames == [] then 0 else 4 + |frames[0]| + WireLength(frames[1..])
  }

  lemma DealtFirst(before: seq<byte>, frames: seq<seq<byte>>, n: nat)
    requires frames != [] && 4 + |frames[0]| <= n <= |Wire(frames)|
    ensures var f := frames[0];
      && |Wire(frames)| == 4 + |f| + |Wire(frames[1..])|
      && var (rx, out) := Dealt(Note(Rx(false, before, []), f).declared, frames[1..], n - 4 - |f|);
      Dealt(before, frames, n) == (rx, HandedOn(f) + out)
  {
    hide Be32, Note, HandedOn, Wire, WireLength, Blobs, Declared, Complete, Frame, Kept;
    var f, k := frames[0], Complete(frames, n);
    var m := n - 4 - |f|;
    CompleteFirst(frames, n);
    TakeFirst(before, frames, k);
    WireUnfold(frames);
    FrameLength(f);
    KeptShift(Frame(f), Wire(frames[1..]), WireLength(frames[1..][..k - 1]), m);
  }

  lemma CompleteFirst(frames: seq<seq<byte>>, n: nat)
    requires frames != [] && 4 + |frames[0]| <= n
    ensures Complete(frames, n) == 1 + Complete(frames[1..], n - 4 - |frames[0]|)
  {
  }

  lemma FrameLength(f: seq<byte>)
    ensures |Frame(f)| == 4 + |f|
  {
  }

  lemma KeptShift(p: seq<byte>, v: seq<byte>, used: nat, m: nat)
    requires m <= |v|
    ensures Kept(p + v, |p| + used, |p| + m) == Kept(v, used, m)
  {
  }

  lemma TakeFirst(before: seq<byte>, frames: seq<seq<byte>>, k: nat)
    requires 1 <= k <= |frames|
    ensures WireLength(frames[..k]) == 4 + |frames[0]| + WireLength(frames[1..][..k - 1])
    ensures Blobs(frames[..k]) == HandedOn(frames[0]) + Blobs(frames[1..][..k - 1])
    ensures Declared(before, frames[..k])
         == Declared(Note(Rx(false, before, []), frames[0]).declared, frames[1..][..k - 1])
  {
    hide Note, HandedOn;
    assert frames[..k][1..] == frames[1..][..k - 1] && frames[..k][0] == frames[0];
  }

  /** What the receiver makes of the first `n` bytes: the complete frames are dealt with, the rest is kept. */
  lemma {:induction false} DrainWire(rx: Rx, frames: seq<seq<byte>>, n: nat)
    requires n <= |Wire(frames)| && rx.buf == Wire(frames)[..n] && FramedMode(rx) && AllGood(frames)
    ensures Drain(rx) == Dealt(rx.declared, frames, n) && FramedMode(Drain(rx).0)
    decreases |frames|
  {
    hide Be32, Be32Value, Drain, Resume, GoodFrame, Note, Dealt, Wire;
    DrainStep(rx, []);
    DrainsAs(rx);
    if frames == [] || n < 4 + |frames[0]| {
      NothingDealt(rx.declared, frames, n);
      if frames != [] && n >= 4 {
        assert GoodFrame(frames[0]);
        GoodLength(frames[0]);
        WireStart(frames, n);
      }
    } else {
      var f := frames[0];
      assert GoodFrame(f);
      GoodLength(f);
      WireFirst(frames, n);
      var next := Note(rx.(buf := rx.buf[4 + |f|..]), f);
      NoteIgnoresBuffer(rx, f, rx.buf[4 + |f|..]);
      NoteKeepsMode(rx, f, rx.buf[4 + |f|..]);
      DrainFrame(rx, |f|);
      DrainWire(next, frames[1..], n - 4 - |f|);
      DealtFirst(rx.declared, frames, n);
    }
  }

  lemma GoodLength(f: seq<byte>)
    requires GoodFrame(f)
    ensures 1 <= |f| <= MAX_FRAME
  {
  }

  lemma NothingDealt(before: seq<byte>, frames: seq<seq<byte>>, n: nat)
    requires n <= |Wire(frames)| && (frames == [] || n < 4 + |frames[0]|)
    ensures Dealt(before, frames, n) == (Rx(false, before, Wire(frames)[..n]), [])
    ensures frames == [] ==> n == 0
  {
    assert frames[..0] == [];
  }

  lemma NextSlice(w: seq<byte>, n: nat, x: seq<byte>, later: seq<byte>)
    requires n + |x + later| <= |w| && w[n..n + |x + later|] == x + later
    ensures w[..n + |x|] == w[..n] + x && w[n + |x|..n + |x| + |later|] == later
  {
    var all := w[n..n + |x + later|];
    assert w[n..n + |x|] == all[..|x|] == x && w[n + |x|..n + |x| + |later|] == all[|x|..] == later;
  }

  /** However the wire is cut: feeding slices is one drain of all their bytes. */
  lemma {:induction false} UnframeIsDrain(rx: Rx, frames: seq<seq<byte>>, n: nat, slices: seq<seq<byte>>)
    requires FramedMode(rx) && AllGood(frames)
    requires n + |Joined(slices)| <= |Wire(frames)| && Wire(frames)[n..n + |Joined(slices)|] == Joined(slices)
    ensures var done := Drain(rx.(buf := Wire(frames)[..n]));
      var (rx', out) := UnframeAll(done.0, slices);
      Drain(rx.(buf := Wire(frames)[..n + |Joined(slices)|])) == (rx', done.1 + out)
    decreases |slices|
  {
    hide Drain, Wire, GoodFrame;
    var w := Wire(frames);
    var done := Drain(rx.(buf := w[..n]));
    if slices == [] {
      assert done.1 + [] == done.1;
    } else {
      var x := slices[0];
      var m := n + |x|;
      NextSlice(w, n, x, Joined(slices[1..]));
      hide Joined;
      DrainWire(rx.(buf := w[..n]), frames, n);
      DrainInTwo(rx.(buf := w[..n]), x);
      UnframeIsDrain(rx, frames, m, slices[1..]);
      DrainTwice(rx.(buf := w[..n]));
      UnframeOne(done.0, x);
      var (first, out) := Unframe(done.0, x);
      var more := UnframeAll(first, slices[1..]).1;
      assert done.1 + (out + more) == (done.1 + out) + more;
    }
  }

  lemma {:induction false} DrainTwice(rx: Rx)
    requires !Drain(rx).0.raw
    ensures Drain(Drain(rx).0) == (Drain(rx).0, [])
    decreases |rx.buf|
  {
    hide Note, Be32Value;
    if |rx.buf| >= 4 {
      var n := Be32Value(rx.buf[..4]);
      if |rx.buf| >= 4 + n && 1 <= n <= MAX_FRAME {
        DrainTwice(Note(rx, rx.buf[4..4 + n]).(buf := rx.buf[4 + n..]));
      }
    }
  }

  /** An empty slice is a drain too, once the buffer holds no complete frame. */
  lemma UnframeOne(rx: Rx, x: seq<byte>)
    requires FramedMode(rx) && Drain(rx) == (rx, [])
    ensures Unframe(rx, x) == Drain(rx.(buf := rx.buf + x))
  {
    assert rx.buf + [] == rx.buf;
  }

  /**
   * For every list of good frames, every prefix of their wire and every way to cut it: the framing hands on exactly
   * the complete frames that are not control frames, in order, and holds exactly the incomplete tail.
   */
  lemma {:induction false} AnyCut(frames: seq<seq<byte>>, slices: seq<seq<byte>>)
    requires AllGood(frames) && Joined(slices) <= Wire(frames)
    ensures UnframeAll(FRESH, slices) == Dealt([], frames, |Joined(slices)|)
  {
    hide Drain, Wire, AllGood, Dealt;
    var n := |Joined(slices)|;
    var w := Wire(frames);
    assert w[0..n] == Joined(slices) && w[..0] == [];
    assert !(WEBM <= FRESH.declared);
    UnframeIsDrain(FRESH, frames, 0, slices);
    NothingDrained();
    DrainWire(FRESH.(buf := w[..n]), frames, n);
    assert [] + UnframeAll(FRESH, slices).1 == UnframeAll(FRESH, slices).1;
  }

  lemma NothingDrained()
    ensures Drain(FRESH) == (FRESH, []) && FRESH.(buf := []) == FRESH && AllGood([]) && Wire([]) == []
  {
  }

  /** `Dealt` is exact: the complete frames and the tail make up the `n` bytes, and the tail holds no frame. */
  lemma {:induction false} DealtExactly(before: seq<byte>, frames: seq<seq<byte>>, n: nat)
    requires n <= |Wire(frames)|
    ensures var (k, tail) := (Complete(frames, n), Dealt(before, frames, n).0.buf);
      && Wire(frames[..k]) + tail == Wire(frames)[..n]
      && (if k < |frames| then |tail| < 4 + |frames[k]| else tail == [])
    decreases |frames|
  {
    hide Dealt, Be32, Wire;
    if frames == [] || n < 4 + |frames[0]| {
      NothingDealt(before, frames, n);
      assert frames[..0] == [] && Wire([]) == [] by { NothingDrained(); }
      assert [] + Wire(frames)[..n] == Wire(frames)[..n];
    } else {
      var (f, k) := (frames[0], Complete(frames, n));
      var m := n - 4 - |f|;
      DealtFirst(before, frames, n);
      DealtExactly(Note(Rx(false, before, []), f).declared, frames[1..], m);
      WireUnfold(frames);
      WireUnfold(frames[..k]);
      assert frames[..k][1..] == frames[1..][..k - 1];
      var tail := Dealt(before, frames, n).0.buf;
      assert Frame(f) + Wire(frames[1..][..k - 1]) + tail == Frame(f) + (Wire(frames[1..][..k - 1]) + tail);
    }
  }

  /** A length of 0 or above 32 MiB is taken for raw bytes, length field and all. */
  lemma IllegalLengthGoesRaw(rx: Rx, blob: seq<byte>, n: nat)
    requires FramedMode(rx) && (|blob| == 0 || MAX_FRAME < |blob| < 0x1_0000_0000)
    requires 4 <= n <= |Frame(blob)| && rx.buf == Frame(blob)[..n]
    ensures Drain(rx) == (rx.(raw := true, buf := []), [rx.buf])
  {
    assert Be32Value(rx.buf[..4]) == |blob| by {
      hide Be32, Be32Value;
      assert rx.buf[..4] == Be32(|blob|);
      Be32ReadsBack(|blob|);
    }
    hide Be32Value, Be32, Note, HandedOn;
  }

  /** A control frame that declares WebM turns the stream raw; nothing of it is handed on. */
  lemma {:induction false} WebmGoesRaw(rx: Rx, format: seq<byte>)
    requires FramedMode(rx) && rx.buf == Frame(CONTROL + format) && 8 + |format| <= MAX_FRAME
    requires WEBM <= format && !IsSpace(format[|format| - 1])
    ensures Drain(rx) == (Rx(true, format, []), [])
  {
    hide Be32, Be32Value, IsSpace, Drain, Frame, Format;
    var f := CONTROL + format;
    assert !IsSpace(format[0]) by { WebmIsNoSpace(); }
    FormatIsTrimmed([], format, []);
    assert CONTROL + [] + format + [] == f;
    FirstFrame(f, []);
    assert Frame(f) + [] == Frame(f);
    DrainFrame(rx, |f|);
    DrainStep(Note(rx.(buf := []), f), []);
    DrainsAs(Note(rx.(buf := []), f));
  }

  lemma WebmIsNoSpace()
    ensures !IsSpace(WEBM[0])
  {
  }

  function NonEmpty(slices: seq<seq<byte>>): seq<seq<byte>> {
    if slices == [] then [] else (if slices[0] == [] then [] else [slices[0]]) + NonEmpty(slices[1..])
  }

  /** A raw stream is handed on slice by slice, unchanged. */
  lemma {:induction false} RawPassesThrough(rx: Rx, slices: seq<seq<byte>>)
    requires rx.raw
    ensures UnframeAll(rx, slices) == (rx, NonEmpty(slices))
    decreases |slices|
  {
    hide Drain;
    if slices != [] {
      RawPassesThrough(rx, slices[1..]);
    }
  }

  lemma {:induction false} AllDealt(before: seq<byte>, blobs: seq<seq<byte>>)
    requires forall b | b in blobs :: 1 <= |b| <= MAX_FRAME && !IsControl(b)
    ensures Dealt(before, blobs, |Wire(blobs)|) == (Rx(false, before, []), blobs)
  {
    hide IsControl, Dealt, Wire;
    if blobs == [] {
      assert Wire(blobs) == [] by { NothingDrained(); }
      NothingDealt(before, blobs, 0);
    } else {
      WireUnfold(blobs);
      assert |Wire(blobs)| >= 4 + |blobs[0]|;
      DealtFirst(before, blobs, |Wire(blobs)|);
      AllDealt(before, blobs[1..]);
      assert blobs == [blobs[0]] + blobs[1..];
    }
  }

  lemma WireUnfold(blobs: seq<seq<byte>>)
    requires blobs != []
    ensures Wire(blobs) == Frame(blobs[0]) + Wire(blobs[1..])
  {
  }
}
