/** Capture segments: length-prefixed records, written with rotation and read back. The
    record codec is any pair of functions; compression is the identity. */
module Framing {
  import opened Common

  type Byte = x: nat | x < 256

  const U32_MAX: nat := 0xffff_ffff

  datatype Codec<!R> = Codec(encode: R -> seq<Byte>, decode: seq<Byte> -> Option<R>)

  ghost predicate Inverse<R(!new)>(codec: Codec<R>) {
    forall r :: codec.decode(codec.encode(r)) == Some(r)
  }

  // ----- Length prefixes -----

  function ToLe(n: nat): (r: seq<Byte>)
    requires n <= U32_MAX
    ensures |r| == 4
  {
    [n % 256, n / 256 % 256, n / 65536 % 256, n / 16777216]
  }

  function FromLe(b: seq<Byte>): nat
    requires |b| == 4
  {
    b[0] as nat + 256 * (b[1] as nat) + 65536 * (b[2] as nat) + 16777216 * (b[3] as nat)
  }

  lemma LeRoundTrip(n: nat)
    requires n <= U32_MAX
    ensures FromLe(ToLe(n)) == n
  {
    assert n / 65536 == n / 256 / 256;
    assert n / 16777216 == n / 65536 / 256;
  }

  /** The lowest byte comes first: small lengths fill it alone, and times 256 moves every byte
      one place up. */
  lemma LowestByteFirst(n: nat)
    ensures n < 256 ==> ToLe(n) == [n, 0, 0, 0]
    ensures n < 16777216 ==> ToLe(256 * n) == [0] + ToLe(n)[..3]
  {
    if n < 16777216 {
      Shifted(n);
    }
  }

  lemma Shifted(n: nat)
    requires n < 16777216
    ensures 256 * n % 256 == 0 && 256 * n / 256 == n
    ensures 256 * n / 65536 == n / 256 && 256 * n / 16777216 == n / 65536
  {
    assert 256 * n / 65536 == 256 * n / 256 / 256;
    assert 256 * n / 16777216 == 256 * n / 256 / 65536;
  }

  /** The bytes of one record: its length, capped at the largest prefix, then its payload. */
  function Frame(payload: seq<Byte>): seq<Byte> {
    ToLe(Min(|payload|, U32_MAX)) + payload
  }

  function Frames<R>(codec: Codec<R>, records: seq<R>): seq<Byte> {
    if records == [] then [] else Frame(codec.encode(records[0])) + Frames(codec, records[1..])
  }

  // ----- Reading -----

  /** What the reader finds next: nothing (or less than a prefix), a prefix without all of
      its payload, or a payload and what follows. */
  datatype Chunk = NoHeader | Short(wanted: nat) | Whole(payload: seq<Byte>, rest: seq<Byte>)

  function ReadFrame(bytes: seq<Byte>): Chunk {
    if |bytes| < 4 then NoHeader
    else
      var len := FromLe(bytes[..4]);
      if |bytes| - 4 < len then Short(len) else Whole(bytes[4..4 + len], bytes[4 + len..])
  }

  datatype Ending = CleanEnd | TruncatedPayload(wanted: nat) | Undecodable

  /** All records that can be read, and why reading stopped. */
  function Drain<R>(codec: Codec<R>, bytes: seq<Byte>): (seq<R>, Ending)
    decreases |bytes|
  {
    match ReadFrame(bytes)
    case NoHeader => ([], CleanEnd)
    case Short(wanted) => ([], TruncatedPayload(wanted))
    case Whole(payload, rest) =>
      match codec.decode(payload)
      case None => ([], Undecodable)
      case Some(r) => var (rs, end) := Drain(codec, rest); ([r] + rs, end)
  }

  /** A payload comes back from its frame exactly when its length fits the prefix. */
  lemma FrameRoundTripIff(payload: seq<Byte>, rest: seq<Byte>)
    ensures ReadFrame(Frame(payload) + rest) == Whole(payload, rest) <==> |payload| <= U32_MAX
  {
    var bytes := Frame(payload) + rest;
    var len := Min(|payload|, U32_MAX);
    assert bytes[..4] == ToLe(len);
    LeRoundTrip(len);
    if |payload| <= U32_MAX {
      assert bytes[4..4 + len] == payload && bytes[4 + len..] == rest;
    }
  }

  ghost predicate Fits<R>(codec: Codec<R>, records: seq<R>) {
    forall i :: 0 <= i < |records| ==> |codec.encode(records[i])| <= U32_MAX
  }

  /** Reading a whole frame: its record, then what the rest holds. */
  lemma DrainStep<R(!new)>(codec: Codec<R>, rec: R, rest: seq<Byte>)
    requires Inverse(codec) && |codec.encode(rec)| <= U32_MAX
    ensures Drain(codec, Frame(codec.encode(rec)) + rest) == ([rec] + Drain(codec, rest).0, Drain(codec, rest).1)
  {
    FrameRoundTripIff(codec.encode(rec), rest);
  }

  lemma Associate<T>(a: seq<T>, b: seq<T>, c: seq<T>)
    ensures (a + b) + c == a + (b + c)
  {
  }

  /** Reading after some whole frames: their records, then whatever follows. */
  lemma {:induction false} DrainFrames<R(!new)>(codec: Codec<R>, records: seq<R>, rest: seq<Byte>)
    requires Inverse(codec) && Fits(codec, records)
    ensures Drain(codec, Frames(codec, records) + rest) == (records + Drain(codec, rest).0, Drain(codec, rest).1)
  {
    if records == [] {
      assert Frames(codec, records) + rest == rest;
      assert records + Drain(codec, rest).0 == Drain(codec, rest).0;
    } else {
      var payload, more := codec.encode(records[0]), Frames(codec, records[1..]) + rest;
      Associate(Frame(payload), Frames(codec, records[1..]), rest);
      DrainStep(codec, records[0], more);
      DrainFrames(codec, records[1..], rest);
      Associate([records[0]], records[1..], Drain(codec, rest).0);
      assert [records[0]] + records[1..] == records;
    }
  }

  /** The round trip of a segment. */
  lemma SegmentRoundTrip<R(!new)>(codec: Codec<R>, records: seq<R>)
    requires Inverse(codec) && Fits(codec, records)
    ensures Drain(codec, Frames(codec, records)) == (records, CleanEnd)
  {
    DrainFrames(codec, records, []);
    assert Frames(codec, records) + [] == Frames(codec, records);
    assert records + [] == records;
  }

  /** Whole frames and then one whose payload does not decode: the records before it, and that
      is why reading stops, whatever follows. */
  lemma DrainUndecodable<R(!new)>(codec: Codec<R>, records: seq<R>, payload: seq<Byte>, rest: seq<Byte>)
    requires Inverse(codec) && Fits(codec, records)
    requires |payload| <= U32_MAX && codec.decode(payload).None?
    ensures Drain(codec, Frames(codec, records) + (Frame(payload) + rest)) == (records, Undecodable)
  {
    DrainFrames(codec, records, Frame(payload) + rest);
    FrameRoundTripIff(payload, rest);
    assert records + [] == records;
  }

  /** A frame is four bytes and the payload. */
  lemma FrameIs(payload: seq<Byte>)
    ensures |Frame(payload)| == 4 + |payload| && Frame(payload)[4..] == payload
    ensures |payload| <= 0xffff_ffff ==> Frame(payload)[..4] == ToLe(|payload|)
    ensures |payload| > 0xffff_ffff ==> Frame(payload)[..4] == [255, 255, 255, 255]
  {
  }

  lemma {:induction false} FramesSplit<R>(codec: Codec<R>, a: seq<R>, b: seq<R>)
    ensures Frames(codec, a + b) == Frames(codec, a) + Frames(codec, b)
  {
    if a == [] {
      assert a + b == b;
    } else {
      assert (a + b)[1..] == a[1..] + b;
      FramesSplit(codec, a[1..], b);
    }
  }

  lemma FramesPush<R>(codec: Codec<R>, records: seq<R>, rec: R)
    ensures Frames(codec, records + [rec]) == Frames(codec, records) + Frame(codec.encode(rec))
  {
    FramesSplit(codec, records, [rec]);
    assert Frames(codec, [rec]) == Frame(codec.encode(rec)) + [];
  }

  /** How many records lie entirely within the first `k` bytes. */
  function WholeRecords<R>(codec: Codec<R>, records: seq<R>, k: nat): (m: nat)
    ensures m <= |records|
  {
    if records == [] || k < |Frame(codec.encode(records[0]))| then 0
    else 1 + WholeRecords(codec, records[1..], k - |Frame(codec.encode(records[0]))|)
  }

  /** Bytes of the cut that are past the whole records. */
  ghost function Leftover<R>(codec: Codec<R>, records: seq<R>, k: nat): int {
    k - |Frames(codec, records[..WholeRecords(codec, records, k)])|
  }

  lemma WholeStep<R>(codec: Codec<R>, records: seq<R>, k: nat)
    requires records != [] && k >= |Frame(codec.encode(records[0]))|
    ensures var n := |Frame(codec.encode(records[0]))|;
            && WholeRecords(codec, records, k) == 1 + WholeRecords(codec, records[1..], k - n)
            && Leftover(codec, records, k) == Leftover(codec, records[1..], k - n)
  {
    var n := |Frame(codec.encode(records[0]))|;
    var m := WholeRecords(codec, records[1..], k - n);
    assert records[..m + 1][0] == records[0] && records[..m + 1][1..] == records[1..][..m];
  }

  /** A frame cut inside: too short for a prefix, or a prefix without its payload. */
  lemma CutFrame(payload: seq<Byte>, rest: seq<Byte>, k: nat)
    requires |payload| <= U32_MAX && k < |Frame(payload)|
    ensures ReadFrame((Frame(payload) + rest)[..k]) == if k < 4 then NoHeader else Short(|payload|)
  {
    var cut := (Frame(payload) + rest)[..k];
    if k >= 4 {
      assert cut[..4] == ToLe(|payload|);
      LeRoundTrip(|payload|);
    }
  }

  /** What a cut at `k` leaves readable, and how reading it ends. */
  ghost predicate CutReads<R(!new)>(codec: Codec<R>, records: seq<R>, k: nat, rs: seq<R>, end: Ending) {
    var m := WholeRecords(codec, records, k);
    && rs == records[..m]
    && Leftover(codec, records, k) >= 0
    && end == (if m == |records| || Leftover(codec, records, k) < 4 then CleanEnd
               else TruncatedPayload(|codec.encode(records[m])|))
  }

  lemma CutInFirst<R(!new)>(codec: Codec<R>, records: seq<R>, k: nat)
    requires Fits(codec, records) && records != [] && k < |Frame(codec.encode(records[0]))|
    ensures CutReads(codec, records, k, [], if k < 4 then CleanEnd else TruncatedPayload(|codec.encode(records[0])|))
  {
    assert records[..0] == [];
  }

  lemma CutAfterFirst<R(!new)>(codec: Codec<R>, records: seq<R>, k: nat, rs: seq<R>, end: Ending)
    requires records != [] && k >= |Frame(codec.encode(records[0]))|
    requires CutReads(codec, records[1..], k - |Frame(codec.encode(records[0]))|, rs, end)
    ensures CutReads(codec, records, k, [records[0]] + rs, end)
  {
    WholeStep(codec, records, k);
    var m := WholeRecords(codec, records[1..], k - |Frame(codec.encode(records[0]))|);
    assert [records[0]] + records[1..][..m] == records[..m + 1];
  }

  ghost predicate CutIsRead<R(!new)>(codec: Codec<R>, records: seq<R>, k: nat)
    requires k <= |Frames(codec, records)|
  {
    var read := Drain(codec, Frames(codec, records)[..k]);
    CutReads(codec, records, k, read.0, read.1)
  }

  lemma CutLater<R(!new)>(codec: Codec<R>, records: seq<R>, k: nat)
    requires Inverse(codec) && Fits(codec, records) && k <= |Frames(codec, records)|
    requires records != [] && k >= |Frame(codec.encode(records[0]))|
    requires CutIsRead(codec, records[1..], k - |Frame(codec.encode(records[0]))|)
    ensures CutIsRead(codec, records, k)
  {
    var frame, later := Frame(codec.encode(records[0])), Frames(codec, records[1..]);
    var rest := later[..k - |frame|];
    TakeAfter(frame, later, k);
    DrainStep(codec, records[0], rest);
    CutAfterFirst(codec, records, k, Drain(codec, rest).0, Drain(codec, rest).1);
  }

  lemma CutEarly<R(!new)>(codec: Codec<R>, records: seq<R>, k: nat)
    requires Fits(codec, records) && k <= |Frames(codec, records)|
    requires records != [] && k < |Frame(codec.encode(records[0]))|
    ensures CutIsRead(codec, records, k)
  {
    CutFrame(codec.encode(records[0]), Frames(codec, records[1..]), k);
    CutInFirst(codec, records, k);
  }

  lemma CutNothing<R(!new)>(codec: Codec<R>)
    ensures CutIsRead(codec, [], 0)
  {
  }

  /** A segment cut anywhere yields exactly the records that are whole, and then a clean
      end if the cut leaves less than a prefix, or a truncated payload otherwise. */
  lemma {:induction false} CutSegment<R(!new)>(codec: Codec<R>, records: seq<R>, k: nat)
    requires Inverse(codec) && Fits(codec, records) && k <= |Frames(codec, records)|
    ensures CutIsRead(codec, records, k)
  {
    if records == [] {
      CutNothing(codec);
    } else if k < |Frame(codec.encode(records[0]))| {
      CutEarly(codec, records, k);
    } else {
      CutSegment(codec, records[1..], k - |Frame(codec.encode(records[0]))|);
      CutLater(codec, records, k);
    }
  }

  lemma TakeAfter<T>(a: seq<T>, b: seq<T>, k: nat)
    requires |a| <= k <= |a| + |b|
    ensures (a + b)[..k] == a + b[..k - |a|]
  {
  }

  // ----- The writer and the reader -----

  /** Everything that can be read from the segments, in order. */
  function ReadSegments<R>(codec: Codec<R>, segments: seq<seq<Byte>>): seq<R> {
    if segments == [] then [] else Drain(codec, segments[0]).0 + ReadSegments(codec, segments[1..])
  }

  function Flatten<R>(groups: seq<seq<R>>): seq<R> {
    if groups == [] then [] else groups[0] + Flatten(groups[1..])
  }

  lemma {:induction false} FlattenLast<R>(groups: seq<seq<R>>, last: seq<R>)
    ensures Flatten(groups + [last]) == Flatten(groups) + last
  {
    if groups == [] {
      assert Flatten([last]) == last + [];
      assert groups + [last] == [last];
    } else {
      assert (groups + [last])[1..] == groups[1..] + [last];
      FlattenLast(groups[1..], last);
    }
  }

  /** A record put at the end of the last group comes last of all. */
  lemma FlattenPush<R>(groups: seq<seq<R>>, rec: R)
    requires groups != []
    ensures Flatten(groups[|groups| - 1 := groups[|groups| - 1] + [rec]]) == Flatten(groups) + [rec]
  {
    var n := |groups| - 1;
    FlattenLast(groups[..n], groups[n]);
    FlattenLast(groups[..n], groups[n] + [rec]);
    assert groups == groups[..n] + [groups[n]];
    assert groups[n := groups[n] + [rec]] == groups[..n] + [groups[n] + [rec]];
  }


  class CaptureWriter<R(!new)> {
    const codec: Codec<R>
    const rotateSecs: nat
    /** Finished segments and the one being written. */
    var finished: seq<seq<Byte>>
    var current: seq<Byte>
    var bytesWritten: nat
    var rotateAt: nat
    /** The records of every segment, the current one last. */
    ghost var written: seq<seq<R>>

    ghost predicate Valid()
      reads this
    {
      && |written| == |finished| + 1
      && (forall i :: 0 <= i < |finished| ==> finished[i] == Frames(codec, written[i]))
      && current == Frames(codec, written[|finished|])
      && bytesWritten == |current|
    }

    constructor (codec: Codec<R>, rotateSecs: nat, now: nat)
      ensures Valid() && written == [[]] && this.codec == codec && this.rotateSecs == rotateSecs
      ensures rotateAt == now + rotateSecs
    {
      this.codec := codec;
      this.rotateSecs := rotateSecs;
      finished, current, bytesWritten, rotateAt := [], [], 0, now + rotateSecs;
      written := [[]];
    }

    /** Appends one record, after starting a new segment if the current one is due;
        `openedAt` is the clock when the new segment is opened. */
    method WriteRecord(rec: R, now: nat, openedAt: nat)
      requires Valid()
      modifies this
      ensures Valid()
      ensures var base := if now >= old(rotateAt) then old(written) + [[]] else old(written);
              written == base[|base| - 1 := base[|base| - 1] + [rec]]
      ensures Flatten(written) == Flatten(old(written)) + [rec]
      ensures rotateAt == if now >= old(rotateAt) then openedAt + rotateSecs else old(rotateAt)
    {
      if now >= rotateAt {
        FlattenLast(written, []);
        Rotate(openedAt);
      }
      FlattenPush(written, rec);
      Append(rec);
    }

    method Append(rec: R)
      requires Valid()
      modifies this
      ensures Valid() && rotateAt == old(rotateAt)
      ensures var n := |old(written)| - 1; written == old(written)[n := old(written)[n] + [rec]]
    {
      var payload := codec.encode(rec);
      var lenBytes := ToLe(if |payload| <= U32_MAX then |payload| else U32_MAX);
      ghost var n := |written| - 1;
      ghost var grown := written[n] + [rec];
      FramesPush(codec, written[n], rec);
      Associate(current, lenBytes, payload);
      assert current + lenBytes + payload == Frames(codec, grown);
      current := current + lenBytes;
      current := current + payload;
      bytesWritten := bytesWritten + |lenBytes| + |payload|;
      written := written[n := grown];
    }

    method Rotate(openedAt: nat)
      requires Valid()
      modifies this
      ensures Valid() && written == old(written) + [[]] && rotateAt == openedAt + rotateSecs
      ensures finished == old(finished) + [old(current)]
    {
      finished := finished + [current];
      current, bytesWritten, rotateAt := [], 0, openedAt + rotateSecs;
      written := written + [[]];
    }
  }

  /** What one call of the reader returns. */
  datatype Next<R> = Record(rec: R, index: nat) | EndOfSegment | Error(ending: Ending, index: nat)

  class ReplayReader<R(!new)> {
    const codec: Codec<R>
    const bytes: seq<Byte>
    var pos: nat
    var nextIndex: nat

    ghost predicate Valid()
      reads this
    {
      pos <= |bytes|
    }

    constructor (codec: Codec<R>, bytes: seq<Byte>)
      ensures Valid() && pos == 0 && nextIndex == 0 && this.codec == codec && this.bytes == bytes
    {
      this.codec, this.bytes := codec, bytes;
      pos, nextIndex := 0, 0;
    }

    /** The next record: the first that `Drain` finds in what is left, and after it the
        reader stands at the rest. Failed reads consume what they reached. */
    method NextRecord() returns (next: Next<R>)
      requires Valid()
      modifies this
      ensures Valid()
      ensures var (rs, end) := Drain(codec, old(bytes[pos..]));
              match next
              case Record(r, i) =>
                && rs != [] && r == rs[0] && i == old(nextIndex) && nextIndex == i + 1 && pos > old(pos)
                && Drain(codec, bytes[pos..]) == (rs[1..], end)
              case EndOfSegment => rs == [] && end == CleanEnd && nextIndex == old(nextIndex)
              case Error(e, i) => rs == [] && end == e && e != CleanEnd && i == old(nextIndex) && nextIndex == i
    {
      if |bytes| - pos < 4 {
        pos := |bytes|;
        return EndOfSegment;
      }
      var len := FromLe(bytes[pos..pos + 4]);
      assert bytes[pos..][..4] == bytes[pos..pos + 4];
      pos := pos + 4;
      if |bytes| - pos < len {
        pos := |bytes|;
        return Error(TruncatedPayload(len), nextIndex);
      }
      var buf := bytes[pos..pos + len];
      assert old(bytes[pos..])[4..4 + len] == buf;
      assert old(bytes[pos..])[4 + len..] == bytes[pos + len..];
      pos := pos + len;
      match codec.decode(buf) {
        case None => return Error(Undecodable, nextIndex);
        case Some(rec) =>
          var i := nextIndex;
          nextIndex := nextIndex + 1;
          return Record(rec, i);
      }
    }

    /** All records, or the error that stopped the reading. */
    method ReadAll() returns (result: (seq<(R, nat)>, Ending))
      requires Valid() && pos == 0 && nextIndex == 0
      modifies this
      ensures var (rs, end) := Drain(codec, bytes);
              && result.1 == end
              && result.0 == if end == CleanEnd then seq(|rs|, i requires 0 <= i < |rs| => (rs[i], i)) else []
    {
      var out: seq<(R, nat)> := [];
      assert bytes[0..] == bytes;
      ghost var (all, end) := Drain(codec, bytes);
      while true
        invariant Valid() && nextIndex == |out| <= |all|
        invariant out == seq(|out|, i requires 0 <= i < |out| => (all[i], i))
        invariant Drain(codec, bytes[pos..]) == (all[|out|..], end)
        decreases |bytes| - pos
      {
        var next := NextRecord();
        match next {
          case Record(rec, i) => out := out + [(rec, i)];
          case EndOfSegment => return (out, CleanEnd);
          case Error(e, i) => return ([], e);
        }
      }
    }
  }

  lemma {:induction false} SegmentsRoundTrip<R(!new)>(codec: Codec<R>, segments: seq<seq<Byte>>, written: seq<seq<R>>)
    requires Inverse(codec) && |segments| == |written|
    requires forall i :: 0 <= i < |segments| ==> segments[i] == Frames(codec, written[i]) && Fits(codec, written[i])
    ensures ReadSegments(codec, segments) == Flatten(written)
  {
    if segments != [] {
      SegmentRoundTrip(codec, written[0]);
      SegmentsRoundTrip(codec, segments[1..], written[1..]);
    }
  }

  /** Whatever was written, with whatever rotations, is what reading the segments in order gives. */
  lemma WrittenIsRead<R(!new)>(w: CaptureWriter<R>)
    requires w.Valid() && Inverse(w.codec)
    requires forall i :: 0 <= i < |w.written| ==> Fits(w.codec, w.written[i])
    ensures ReadSegments(w.codec, w.finished + [w.current]) == Flatten(w.written)
  {
    SegmentsRoundTrip(w.codec, w.finished + [w.current], w.written);
  }
}
