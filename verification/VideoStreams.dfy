/** The receiver of a video stream as a whole: slices to be framed, and slices that look like datagrams of their own. */
module VideoStreams {
  import opened Wrappers
  import opened Protocol
  import opened Cum
  import opened Framing
  import H264 = H264Fragments
  import opened LengthPrefixed

  /** The slices that are no datagrams of their own. */
  function Framed(slices: seq<seq<byte>>): seq<seq<byte>> {
    if slices == [] then [] else (if IsDatagram(slices[0]) then [] else [slices[0]]) + Framed(slices[1..])
  }

  function Datagrams(slices: seq<seq<byte>>): nat {
    if slices == [] then 0 else (if IsDatagram(slices[0]) then 1 else 0) + Datagrams(slices[1..])
  }

  predicate NoDatagram(slices: seq<seq<byte>>) { forall x | x in slices :: !IsDatagram(x) }

  lemma {:induction false} CountsThem(slices: seq<seq<byte>>)
    ensures Datagrams(slices) == 0 <==> NoDatagram(slices)
    ensures NoDatagram(slices) ==> Framed(slices) == slices
  {
    hide IsDatagram;
    if slices != [] {
      CountsThem(slices[1..]);
      assert slices == [slices[0]] + slices[1..];
    }
  }

  /** Whatever arrives: the framing sees the other slices and nothing else; without datagrams it is all there is. */
  lemma {:induction false} DatagramsStandApart(s: Stream, slices: seq<seq<byte>>)
    ensures IngestAll(s, slices).0.rx == UnframeAll(s.rx, Framed(slices)).0
    ensures NoDatagram(slices) ==>
      IngestAll(s, slices) == (s.(rx := UnframeAll(s.rx, slices).0), UnframeAll(s.rx, slices).1)
    decreases |slices|
  {
    hide IsDatagram, Unframe, H264.Accept, Fed;
    if slices != [] {
      DatagramsStandApart(Ingest(s, slices[0]).0, slices[1..]);
      if !IsDatagram(slices[0]) {
        assert ([slices[0]] + Framed(slices[1..]))[1..] == Framed(slices[1..]);
      } else {
        assert [] + Framed(slices[1..]) == Framed(slices[1..]);
      }
    }
  }

  /** `makeVideoDatagramHeader`. */
  function DatagramHeader(isKey: bool, frameId: nat, index: nat, count: nat): seq<byte> {
    DATAGRAM + [1, 1, if isKey then 1 else 0, 0] + Be32(frameId) + Be16(index) + Be16(count)
  }

  /** The receiver finds what the sender of datagrams wrote into the header. */
  lemma DatagramReadsBack(isKey: bool, frameId: nat, index: nat, count: nat, body: seq<byte>)
    requires frameId < 0x1_0000_0000 && index < count < 0x1_0000
    ensures var x := DatagramHeader(isKey, frameId, index, count) + body;
      IsDatagram(x) && Datagram(x) == H264.Fragment(frameId, index, count, body)
  {
    hide Be32, Be16, Be32Value, Be16Value;
    var x := DatagramHeader(isKey, frameId, index, count) + body;
    assert x[..4] == DATAGRAM && x[4] == 1 && x[5] == 1;
    assert x[8..12] == Be32(frameId) && x[12..14] == Be16(index) && x[14..16] == Be16(count) && x[16..] == body;
    Be32ReadsBack(frameId);
    Be16ReadsBack(index);
    Be16ReadsBack(count);
  }

  /** Which slices look like a datagram, byte by byte. */
  lemma IsDatagramIff(x: seq<byte>)
    ensures IsDatagram(x) <==>
      && |x| >= 16 && x[..6] == [0x52, 0x54, 0x56, 0x31, 1, 1]
      && 0x100 * (x[12] as int) + x[13] < 0x100 * (x[14] as int) + x[15]
  {
    if |x| >= 16 {
      assert x[..6][..4] == x[..4];
      assert x[..6] == x[..4] + [x[4], x[5]];
    }
  }

  // ---- Nothing is handed on that was not received -----------------------------------------------------------------

  function Sum(f: nat -> nat, n: nat): nat {
    if n == 0 then 0 else Sum(f, n - 1) + f(n - 1)
  }

  /** Sums of functions that differ at most at `k`. */
  lemma {:induction false} SumDiffersAt(f: nat -> nat, g: nat -> nat, k: nat, n: nat)
    requires forall i: nat | i < n && i != k :: f(i) == g(i)
    ensures if k < n then Sum(g, n) + f(k) == Sum(f, n) + g(k) else Sum(f, n) == Sum(g, n)
  {
    if n > 0 {
      SumDiffersAt(f, g, k, n - 1);
    }
  }

  lemma {:induction false} SumOfZeros(f: nat -> nat, n: nat)
    requires forall i: nat | i < n :: f(i) == 0
    ensures Sum(f, n) == 0
  {
    if n > 0 {
      SumOfZeros(f, n - 1);
    }
  }

  /** A blob weighs its length and the four bytes that frame it, and so does a stored part. */
  function PartWeight(rec: H264.Partial): nat -> nat {
    (i: nat) => if i in rec.got then 4 + |rec.got[i]| else 0
  }

  function RecordWeight(rec: H264.Partial): nat { Sum(PartWeight(rec), rec.total) }

  function TableWeight(key: string, parts: H264.Table): nat -> nat {
    (id: nat) => if (key, id) in parts then RecordWeight(parts[(key, id)]) else 0
  }

  /** The weight of what a stream with frame ids below `n` holds back. */
  function Held(s: Stream, n: nat): nat { |s.rx.buf| + Sum(TableWeight(s.key, s.parts), n) }

  /** A declared WebM stream is raw. */
  predicate Sound(rx: Rx) { WEBM <= rx.declared ==> rx.raw }

  lemma {:induction false} WireLengthJoins(a: seq<seq<byte>>, b: seq<seq<byte>>)
    ensures WireLength(a + b) == WireLength(a) + WireLength(b)
  {
    if a == [] {
      assert [] + b == b;
    } else {
      WireLengthJoins(a[1..], b);
      assert (a + b)[1..] == a[1..] + b;
    }
  }

  lemma HandedOnWeight(frame: seq<byte>, out: seq<seq<byte>>)
    ensures WireLength(HandedOn(frame) + out) <= 4 + |frame| + WireLength(out)
  {
    hide IsControl;
    assert [] + out == out && ([frame] + out)[1..] == out;
  }

  lemma NothingWeighs()
    ensures WireLength([]) == 0
  {
  }

  /** Unless the stream goes raw, the framing loop hands on no more than the buffer held. */
  lemma {:induction false} DrainConserves(rx: Rx)
    requires Sound(rx)
    ensures Sound(Drain(rx).0) && (rx.raw ==> Drain(rx).0.raw)
    ensures !Drain(rx).0.raw ==> |Drain(rx).0.buf| + WireLength(Drain(rx).1) <= |rx.buf|
    decreases |rx.buf|
  {
    hide Be32Value, Format, IsControl, WireLength, HandedOn;
    NothingWeighs();
    if |rx.buf| >= 4 {
      var n := Be32Value(rx.buf[..4]);
      if |rx.buf| >= 4 + n && 1 <= n <= MAX_FRAME {
        var frame := rx.buf[4..4 + n];
        var next := Note(rx, frame).(buf := rx.buf[4 + n..]);
        DrainConserves(next);
        HandedOnWeight(frame, Drain(next).1);
      }
    }
  }

  lemma UnframeConserves(rx: Rx, x: seq<byte>)
    requires Sound(rx)
    ensures var (rx', out) := Unframe(rx, x);
      && Sound(rx') && (rx.raw ==> rx'.raw)
      && (!rx'.raw ==> |rx'.buf| + WireLength(out) <= |rx.buf| + |x|)
  {
    hide Drain, WireLength;
    NothingWeighs();
    DrainConserves(rx.(buf := rx.buf + x));
  }

  lemma {:induction false} JoinedWeight(rec: H264.Partial, k: nat)
    requires H264.HasAll(rec) && k <= rec.total
    ensures |Joined(H264.Ordered(rec)[..k])| + 4 * k == Sum(PartWeight(rec), k)
  {
    if k > 0 {
      hide Joined;
      JoinedWeight(rec, k - 1);
      var o := H264.Ordered(rec);
      assert o[..k] == o[..k - 1] + [rec.got[k - 1]];
      JoinedMore(o[..k - 1], rec.got[k - 1]);
    }
  }

  /** A frame weighs no more than its parts. */
  lemma FrameWeight(rec: H264.Partial)
    requires H264.HasAll(rec) && rec.total > 0
    ensures WireLength(Fed(Some(Joined(H264.Ordered(rec))))) <= RecordWeight(rec)
  {
    hide Joined;
    JoinedWeight(rec, rec.total);
    assert H264.Ordered(rec)[..rec.total] == H264.Ordered(rec);
  }

  lemma StoredWeight(key: string, parts: H264.Table, f: H264.Fragment)
    requires f.index < f.count
    ensures RecordWeight(H264.Stored(parts, (key, f.number), f))
         <= TableWeight(key, parts)(f.number) + 4 + |f.chunk|
  {
    var id := (key, f.number);
    var rec := H264.Stored(parts, id, f);
    var empty := H264.Partial(f.count, map[]);
    var before := if id in parts && parts[id].total == f.count then parts[id] else empty;
    SumDiffersAt(PartWeight(before), PartWeight(rec), f.index, f.count);
    SumOfZeros(PartWeight(empty), f.count);
  }

  lemma AcceptConserves(key: string, parts: H264.Table, f: H264.Fragment, n: nat)
    requires f.index < f.count && f.number < n
    ensures var (table, buffer) := H264.Accept(parts, key, f);
      Sum(TableWeight(key, table), n) + WireLength(Fed(buffer)) <= Sum(TableWeight(key, parts), n) + 4 + |f.chunk|
  {
    hide Joined, Sum, WireLength, Fed, H264.HasAll;
    var id := (key, f.number);
    var rec := H264.Stored(parts, id, f);
    var (table, buffer) := H264.Accept(parts, key, f);
    StoredWeight(key, parts, f);
    SumDiffersAt(TableWeight(key, parts), TableWeight(key, table), f.number, n);
    if buffer.Some? {
      FrameWeight(rec);
    } else {
      FedNothing();
    }
  }

  lemma FedNothing()
    ensures WireLength(Fed(None)) == 0
  {
  }

  /** One slice: twelve of a datagram's header bytes are gone. */
  lemma IngestConserves(s: Stream, x: seq<byte>, n: nat)
    requires Sound(s.rx) && n >= 0x1_0000_0000
    ensures var (s', out) := Ingest(s, x);
      && Sound(s'.rx) && (s.rx.raw ==> s'.rx.raw)
      && (!s'.rx.raw ==> Held(s', n) + WireLength(out) + (if IsDatagram(x) then 12 else 0) <= Held(s, n) + |x|)
  {
    hide Sum, WireLength, Unframe, H264.Accept, Fed, Be32Value, Be16Value;
    if IsDatagram(x) {
      AcceptConserves(s.key, s.parts, Datagram(x), n);
    } else {
      UnframeConserves(s.rx, x);
    }
  }

  /** Any slices, from any state: unless the stream is raw in the end, what was handed on and kept was received. */
  lemma {:induction false} Conserves(s: Stream, slices: seq<seq<byte>>, n: nat)
    requires Sound(s.rx) && n >= 0x1_0000_0000
    ensures var (s', out) := IngestAll(s, slices);
      && (s.rx.raw ==> s'.rx.raw)
      && (!s'.rx.raw ==> Held(s', n) + WireLength(out) + 12 * Datagrams(slices) <= Held(s, n) + |Joined(slices)|)
    decreases |slices|
  {
    hide Held, WireLength, Ingest, IsDatagram, Sound;
    if slices == [] {
      NothingWeighs();
    } else {
      var (next, out) := Ingest(s, slices[0]);
      IngestConserves(s, slices[0], n);
      Conserves(next, slices[1..], n);
      WireLengthJoins(out, IngestAll(next, slices[1..]).1);
    }
  }

  // ---- Any slicing ------------------------------------------------------------------------------------------------

  predicate NoControl(frames: seq<seq<byte>>) { forall f | f in frames :: !IsControl(f) }

  /** What a framed stream ends as when nothing of it is taken for a datagram. */
  function DealtStream(key: string, frames: seq<seq<byte>>, n: nat): (Stream, seq<seq<byte>>)
    requires n <= |Wire(frames)|
  {
    (Stream(key, Dealt([], frames, n).0, map[]), Dealt([], frames, n).1)
  }

  lemma {:induction false} WireWeighs(frames: seq<seq<byte>>)
    ensures |Wire(frames)| == WireLength(frames)
    ensures NoControl(frames) ==> Blobs(frames) == frames
  {
    if frames != [] {
      hide Be32, IsControl;
      WireWeighs(frames[1..]);
      assert frames == [frames[0]] + frames[1..];
    }
  }

  /** Without control frames all bytes of the wire are handed on or kept. */
  lemma DealtWeighs(frames: seq<seq<byte>>, n: nat)
    requires n <= |Wire(frames)| && NoControl(frames)
    ensures |Dealt([], frames, n).0.buf| + WireLength(Dealt([], frames, n).1) == n && !Dealt([], frames, n).0.raw
  {
    hide Wire, IsControl, Blobs, WireLength, Declared, Complete;
    DealtExactly([], frames, n);
    var k := Complete(frames, n);
    WireWeighs(frames[..k]);
    assert Dealt([], frames, n).1 == frames[..k];
    assert |Wire(frames[..k]) + Dealt([], frames, n).0.buf| == n;
  }

  lemma FreshHoldsNothing(key: string, n: nat)
    ensures Held(Fresh(key), n) == 0 && Sound(Fresh(key).rx)
  {
    SumOfZeros(TableWeight(key, map[]), n);
    assert !(WEBM <= []);
  }

  /**
   * Every list of good frames, every prefix of their wire, every cut. As long as no slice looks like a datagram, the
   * receiver hands on exactly the complete frames that are not control frames, in order, and holds exactly the
   * incomplete tail. Without control frames, any slice that looks like a datagram spoils this.
   */
  lemma {:induction false} AnySlicing(key: string, frames: seq<seq<byte>>, slices: seq<seq<byte>>)
    requires AllGood(frames) && Joined(slices) <= Wire(frames)
    ensures NoDatagram(slices) ==> IngestAll(Fresh(key), slices) == DealtStream(key, frames, |Joined(slices)|)
    ensures NoControl(frames) ==>
      (IngestAll(Fresh(key), slices) == DealtStream(key, frames, |Joined(slices)|) <==> NoDatagram(slices))
  {
    hide AllGood, Wire, Dealt, IngestAll, UnframeAll, IsDatagram, IsControl, WireLength, Sum;
    DatagramsStandApart(Fresh(key), slices);
    AnyCut(frames, slices);
    CountsThem(slices);
    if NoControl(frames) && IngestAll(Fresh(key), slices) == DealtStream(key, frames, |Joined(slices)|) {
      var n: nat :| n >= 0x1_0000_0000;
      Conserves(Fresh(key), slices, n);
      FreshHoldsNothing(key, n);
      DealtWeighs(frames, |Joined(slices)|);
    }
  }

  /**
   * Blobs of legal length that are no control frames: all arrive and nothing is left over if and only if no slice looks
   * like a datagram.
   */
  lemma {:induction false} BlobsArrive(key: string, blobs: seq<seq<byte>>, slices: seq<seq<byte>>)
    requires forall b | b in blobs :: 1 <= |b| <= MAX_FRAME && !IsControl(b)
    requires Joined(slices) == Wire(blobs)
    ensures IngestAll(Fresh(key), slices) == (Fresh(key), blobs) <==> NoDatagram(slices)
  {
    hide IsControl, Dealt, IngestAll, IsDatagram, Wire;
    AnySlicing(key, blobs, slices);
    AllDealt([], blobs);
  }

  /** A blob as the sender cuts it arrives if and only if none of the slices looks like a datagram. */
  lemma SentBlobArrives(key: string, blob: seq<byte>, c: nat)
    requires c > 0 && 1 <= |blob| <= MAX_FRAME && !IsControl(blob)
    ensures IngestAll(Fresh(key), Cut(Frame(blob), c)) == (Fresh(key), [blob]) <==> NoDatagram(Cut(Frame(blob), c))
  {
    hide IsControl, IngestAll, IsDatagram, Cut, Joined, Frame;
    CutJoins(Frame(blob), c);
    assert Wire([blob]) == Frame(blob) by {
      assert [blob][1..] == [] && Frame(blob) + [] == Frame(blob);
    }
    BlobsArrive(key, [blob], Cut(Frame(blob), c));
  }

  /** Sixteen bytes that look like the only part of frame 0. */
  const HEADER: seq<byte> := DATAGRAM + [1, 1, 0, 0] + [0, 0, 0, 0] + [0, 0] + [0, 1]

  function Spoiled(c: nat): seq<byte>
    requires c >= 16
  {
    Zeros(c - 4) + HEADER
  }

  /** The sender's own cut, at any chunk size from 16, can put such bytes at the start of a slice: the blob is lost. */
  lemma BlobIsLost(key: string, c: nat)
    requires 16 <= c <= MAX_FRAME - 12
    ensures |Spoiled(c)| <= MAX_FRAME && !IsControl(Spoiled(c))
    ensures IngestAll(Fresh(key), Cut(Frame(Spoiled(c)), c))
         == (Stream(key, Rx(false, [], Frame(Spoiled(c))[..c]), map[]), [])
  {
    var first := Frame(Spoiled(c))[..c];
    SpoiledIsCut(c);
    SpoiledStart(c);
    HeaderCompletes(key);
    hide Cut, Unframe, IsDatagram, Spoiled, Frame, H264.Accept;
    assert [first, HEADER][1..] == [HEADER] && [HEADER][1..] == [];
    assert IngestAll(Stream(key, Rx(false, [], first), map[]), [HEADER])
        == (Stream(key, Rx(false, [], first), map[]), []);
  }

  lemma SpoiledIsCut(c: nat)
    requires c >= 16
    ensures !IsControl(Spoiled(c)) && Cut(Frame(Spoiled(c)), c) == [Frame(Spoiled(c))[..c], HEADER]
  {
    hide Be32;
    assert Spoiled(c)[0] == 0;
    assert Frame(Spoiled(c)) == Be32(c + 12) + Zeros(c - 4) + HEADER;
    assert Frame(Spoiled(c))[c..] == HEADER;
    assert Cut(HEADER, c) == [HEADER];
  }

  lemma SpoiledLength(c: nat)
    requires c >= 16
    ensures |Spoiled(c)| == c + 12 && |Frame(Spoiled(c))| == c + 16
    ensures Frame(Spoiled(c))[..4] == Be32(c + 12)
  {
  }

  /** A slice that starts a legal frame and does not end it is kept. */
  lemma FrameStartIsKept(x: seq<byte>, n: nat)
    requires |x| >= 4 && n == Be32Value(x[..4]) && 1 <= n <= MAX_FRAME && |x| < 4 + n && x[0] != DATAGRAM[0]
    ensures !IsDatagram(x) && Unframe(FRESH, x) == (Rx(false, [], x), [])
  {
    hide Be32Value, Note, HandedOn;
    assert [] + x == x && !(WEBM <= []);
  }

  /** The first slice misses the last sixteen bytes of the frame. */
  lemma SpoiledStart(c: nat)
    requires 16 <= c <= MAX_FRAME - 12
    ensures |Frame(Spoiled(c))| >= c
    ensures var first := Frame(Spoiled(c))[..c];
      !IsDatagram(first) && Unframe(FRESH, first) == (Rx(false, [], first), [])
  {
    hide Be32Value, Frame, Spoiled, Unframe, IsDatagram, Be32;
    SpoiledLength(c);
    var first := Frame(Spoiled(c))[..c];
    assert first[..4] == Be32(c + 12);
    Be32ReadsBack(c + 12);
    SmallLengthStart(c + 12);
    assert first[0] == first[..4][0];
    FrameStartIsKept(first, c + 12);
  }

  lemma SmallLengthStart(n: nat)
    requires n <= MAX_FRAME
    ensures Be32(n)[0] <= 2
  {
  }

  lemma HeaderCompletes(key: string)
    ensures IsDatagram(HEADER)
    ensures H264.Accept(map[], key, Datagram(HEADER)) == (map[], Some([]))
  {
    assert HEADER[12..14] == [0, 0] && HEADER[14..16] == [0, 1] && HEADER[8..12] == [0, 0, 0, 0] && HEADER[16..] == [];
    var f := Datagram(HEADER);
    assert f == H264.Fragment(0, 0, 1, []);
    var rec := H264.Stored(map[], (key, 0), f);
    assert rec == H264.Partial(1, map[0 := []]);
    var parts: seq<seq<byte>> := [[]];
    assert H264.Ordered(rec) == parts && Joined(parts) == [] by { assert parts[1..] == []; }
    assert (map[(key, 0) := rec] - {(key, 0)}) == map[];
  }
}
