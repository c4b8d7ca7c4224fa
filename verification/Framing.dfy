/** The byte protocol between the master and one worker: frames written to a pipe, and the
    worker's incremental listener that reads them back (frontik/process.py). */
module Framing {
  import opened Common

  /** b'T1uf31f'; its first byte occurs nowhere else in it. */
  const MAGIC: Bytes := [0x54, 0x31, 0x75, 0x66, 0x33, 0x31, 0x66]
  const MAGIC_LEN := 7
  const SIZE_LEN := 8
  const SIZE_BOUND := 0x1_0000_0000_0000_0000
  /** asyncio.StreamReader's default separator-search limit. */
  const DEFAULT_LIMIT := 65536

  /******* Size field: '=Q', eight bytes, least significant first *******/

  function Pack(n: nat, width: nat): (bs: Bytes)
    ensures |bs| == width
  {
    if width == 0 then [] else [n % 256] + Pack(n / 256, width - 1)
  }

  function Unpack(bs: Bytes): nat {
    if bs == [] then 0 else bs[0] + 256 * Unpack(bs[1..])
  }

  function Range(width: nat): nat {
    if width == 0 then 1 else 256 * Range(width - 1)
  }

  lemma {:induction false} UnpackPack(n: nat, width: nat)
    requires n < Range(width)
    ensures Unpack(Pack(n, width)) == n
  {
    if width > 0 {
      UnpackPack(n / 256, width - 1);
      assert Pack(n, width)[1..] == Pack(n / 256, width - 1);
    }
  }

  lemma SizeRoundTrip(n: nat)
    requires n < SIZE_BOUND
    ensures Unpack(Pack(n, SIZE_LEN)) == n
  {
    assert Range(4) == 256 * 256 * 256 * 256;
    assert Range(8) == 256 * 256 * 256 * 256 * Range(4);
    UnpackPack(n, SIZE_LEN);
  }

  /******* Frames *******/

  /** What struct.pack accepts: anything longer raises and nothing is written. */
  predicate Sendable(p: Bytes) {
    |p| < SIZE_BOUND
  }

  function Header(n: nat): (h: Bytes)
    ensures |h| == MAGIC_LEN + SIZE_LEN
  {
    MAGIC + Pack(n, SIZE_LEN)
  }

  function Frame(p: Bytes): (f: Bytes)
    ensures |f| == MAGIC_LEN + SIZE_LEN + |p|
  {
    Header(|p|) + p
  }

  function Stream(ps: seq<Bytes>): Bytes {
    if ps == [] then [] else Frame(ps[0]) + Stream(ps[1..])
  }

  predicate AllSendable(ps: seq<Bytes>) {
    forall p | p in ps :: Sendable(p)
  }

  /******* Searching for the separator *******/

  predicate Occurs(s: Bytes, i: nat) {
    i + MAGIC_LEN <= |s| && s[i..i + MAGIC_LEN] == MAGIC
  }

  predicate NoMagic(s: Bytes) {
    forall i: nat :: i <= |s| ==> !Occurs(s, i)
  }

  function FindFrom(s: Bytes, i: nat): (r: Option<nat>)
    requires i <= |s|
    ensures r.Some? ==> i <= r.value && Occurs(s, r.value)
    decreases |s| - i
  {
    if Occurs(s, i) then Some(i)
    else if i == |s| then None
    else FindFrom(s, i + 1)
  }

  /** bytearray.find(MAGIC). */
  function Find(s: Bytes): (r: Option<nat>)
    ensures r.Some? ==> Occurs(s, r.value)
  {
    FindFrom(s, 0)
  }

  lemma {:induction false} FindFromIsFirst(s: Bytes, i: nat, j: nat)
    requires i <= |s|
    ensures i <= j && Occurs(s, j) ==> FindFrom(s, i).Some? && FindFrom(s, i).value <= j
    decreases |s| - i
  {
    if !Occurs(s, i) && i < |s| {
      FindFromIsFirst(s, i + 1, j);
    }
  }

  /** Find returns the first occurrence, and nothing only if there is none. */
  lemma FindIsFirst(s: Bytes)
    ensures Find(s).None? <==> NoMagic(s)
    ensures Find(s).Some? ==> forall j: nat :: j < Find(s).value ==> !Occurs(s, j)
  {
    forall j: nat ensures Occurs(s, j) ==> Find(s).Some? && Find(s).value <= j {
      FindFromIsFirst(s, 0, j);
    }
  }

  lemma OccursBytes(s: Bytes, i: nat, j: nat)
    requires j < MAGIC_LEN
    ensures Occurs(s, i) ==> s[i + j] == MAGIC[j]
  {
    if Occurs(s, i) {
      assert s[i..i + MAGIC_LEN][j] == s[i + j];
    }
  }

  /** An occurrence in a prefix is the same occurrence in the whole. */
  lemma OccursAppend(a: Bytes, b: Bytes, i: nat)
    requires i + MAGIC_LEN <= |a|
    ensures Occurs(a, i) <==> Occurs(a + b, i)
  {
    assert (a + b)[i..i + MAGIC_LEN] == a[i..i + MAGIC_LEN];
  }

  lemma OccursShift(a: Bytes, b: Bytes, i: nat)
    requires |a| <= i
    ensures Occurs(a + b, i) <==> Occurs(b, i - |a|)
  {
    if i + MAGIC_LEN <= |a| + |b| {
      assert (a + b)[i..i + MAGIC_LEN] == b[i - |a|..i - |a| + MAGIC_LEN];
    }
  }

  /******* The listener *******/

  /** Seek: inside readuntil; Size: inside readexactly(8); Body(n): inside readexactly(n);
      Wedged: readuntil raised LimitOverrunError. That error leaves the buffer as it is and is
      swallowed by the loop, so the coroutine spins on it without ever yielding again. */
  datatype Phase = Seek | Size | Body(size: nat) | Wedged

  datatype Reader = Reader(phase: Phase, buf: Bytes)

  datatype Progress = Wait | Move(reader: Reader, delivered: seq<Bytes>)

  const WEDGED := Reader(Wedged, [])

  /** One read of the loop, if the buffered bytes allow it to finish. */
  function Step(limit: nat, rd: Reader): (r: Progress)
    ensures r.Move? ==> |r.reader.buf| < |rd.buf| || (rd.phase.Body? && r.reader == Reader(Seek, rd.buf))
                        || r.reader == WEDGED
  {
    match rd.phase
    case Seek =>
      (match Find(rd.buf)
       case Some(i) =>
         if i <= limit then Move(Reader(Size, rd.buf[i + MAGIC_LEN..]), []) else Move(WEDGED, [])
       case None =>
         if |rd.buf| + 1 - MAGIC_LEN > limit then Move(WEDGED, []) else Wait)
    case Size =>
      if |rd.buf| < SIZE_LEN then Wait
      else Move(Reader(Body(Unpack(rd.buf[..SIZE_LEN])), rd.buf[SIZE_LEN..]), [])
    case Body(n) =>
      if |rd.buf| < n then Wait else Move(Reader(Seek, rd.buf[n..]), [rd.buf[..n]])
    case Wedged => Wait
  }

  function Rank(rd: Reader): nat {
    match rd.phase
    case Wedged => 0
    case Seek => 1
    case Size => 1
    case Body(_) => 2
  }

  /** Everything the loop does before it has to wait: the reader it waits in and the payloads
      handed to pickle.loads, in order. */
  datatype Outcome = Outcome(reader: Reader, delivered: seq<Bytes>)

  function Run(limit: nat, rd: Reader): Outcome
    decreases |rd.buf|, Rank(rd)
  {
    match Step(limit, rd)
    case Wait => Outcome(rd, [])
    case Move(next, out) =>
      var rest := Run(limit, next);
      Outcome(rest.reader, out + rest.delivered)
  }

  function Feed(rd: Reader, chunk: Bytes): Reader {
    if rd.phase.Wedged? then rd else rd.(buf := rd.buf + chunk)
  }

  function FeedAll(limit: nat, rd: Reader, chunks: seq<Bytes>): Outcome
    decreases |chunks|
  {
    if chunks == [] then Outcome(rd, [])
    else
      var first := Run(limit, Feed(rd, chunks[0]));
      var rest := FeedAll(limit, first.reader, chunks[1..]);
      Outcome(rest.reader, first.delivered + rest.delivered)
  }

  function Flatten(chunks: seq<Bytes>): Bytes {
    if chunks == [] then [] else chunks[0] + Flatten(chunks[1..])
  }

  lemma FindAppend(a: Bytes, b: Bytes)
    ensures Find(a).Some? ==> Find(a + b) == Find(a)
    ensures Find(a).None? && Find(a + b).Some? ==> |a| < Find(a + b).value + MAGIC_LEN
  {
    FindIsFirst(a);
    FindIsFirst(a + b);
    forall j: nat | j + MAGIC_LEN <= |a| ensures Occurs(a, j) <==> Occurs(a + b, j) {
      OccursAppend(a, b, j);
    }
  }

  /** More bytes never change a read that could already finish. */
  lemma StepIsMonotone(limit: nat, rd: Reader, chunk: Bytes)
    requires Step(limit, rd).Move?
    ensures Step(limit, Feed(rd, chunk)) ==
            Move(Feed(Step(limit, rd).reader, chunk), Step(limit, rd).delivered)
  {
    match rd.phase
    case Seek =>
      FindAppend(rd.buf, chunk);
      if Find(rd.buf).Some? {
        SplitAppend(rd.buf, chunk, Find(rd.buf).value + MAGIC_LEN);
      }
    case Size => SplitAppend(rd.buf, chunk, SIZE_LEN);
    case Body(n) => SplitAppend(rd.buf, chunk, n);
  }

  lemma SplitAppend(a: Bytes, b: Bytes, k: nat)
    requires k <= |a|
    ensures (a + b)[..k] == a[..k] && (a + b)[k..] == a[k..] + b
  {
  }

  lemma RunUnfold(limit: nat, rd: Reader, next: Reader, out: seq<Bytes>)
    requires Step(limit, rd) == Move(next, out)
    ensures Run(limit, rd) == Outcome(Run(limit, next).reader, out + Run(limit, next).delivered)
  {
  }

  lemma Associates(a: seq<Bytes>, b: seq<Bytes>, c: seq<Bytes>)
    ensures a + (b + c) == a + b + c
  {
  }

  lemma RunAfterStep(limit: nat, rd: Reader, next: Reader, out: seq<Bytes>, got: seq<Bytes>)
    requires Step(limit, rd) == Move(next, out)
    ensures Run(limit, rd).reader == Run(limit, next).reader
    ensures got + Run(limit, rd).delivered == (got + out) + Run(limit, next).delivered
  {
    RunUnfold(limit, rd, next, out);
    Associates(got, out, Run(limit, next).delivered);
  }

  lemma RunWaits(limit: nat, rd: Reader)
    requires Step(limit, rd).Wait?
    ensures Run(limit, rd) == Outcome(rd, [])
  {
  }

  lemma {:induction false} RunAppend(limit: nat, rd: Reader, chunk: Bytes)
    ensures var first := Run(limit, rd);
            var second := Run(limit, Feed(first.reader, chunk));
            Run(limit, Feed(rd, chunk)) == Outcome(second.reader, first.delivered + second.delivered)
    decreases |rd.buf|, Rank(rd)
  {
    var step := Step(limit, rd);
    if step.Move? {
      var next := step.reader;
      StepIsMonotone(limit, rd, chunk);
      RunUnfold(limit, rd, next, step.delivered);
      RunUnfold(limit, Feed(rd, chunk), Feed(next, chunk), step.delivered);
      RunAppend(limit, next, chunk);
      Associates(step.delivered, Run(limit, next).delivered,
                 Run(limit, Feed(Run(limit, next).reader, chunk)).delivered);
    } else {
      RunWaits(limit, rd);
    }
  }

  /** Delivery depends on the bytes only, not on how the pipe splits them into chunks. */
  lemma {:induction false} ChunkingIsIrrelevant(limit: nat, rd: Reader, chunks: seq<Bytes>)
    requires Step(limit, rd).Wait?
    ensures FeedAll(limit, rd, chunks) == Run(limit, Feed(rd, Flatten(chunks)))
    decreases |chunks|
  {
    if chunks == [] {
      assert rd.buf + [] == rd.buf;
      RunWaits(limit, rd);
    } else {
      var fed, rest := Feed(rd, chunks[0]), Flatten(chunks[1..]);
      RunEndsWaiting(limit, fed);
      ChunkingIsIrrelevant(limit, Run(limit, fed).reader, chunks[1..]);
      RunAppend(limit, fed, rest);
      FeedTwice(rd, chunks[0], rest);
    }
  }

  lemma FeedTwice(rd: Reader, a: Bytes, b: Bytes)
    ensures Feed(Feed(rd, a), b) == Feed(rd, a + b)
  {
    assert rd.buf + a + b == rd.buf + (a + b);
  }

  lemma {:induction false} RunEndsWaiting(limit: nat, rd: Reader)
    ensures Step(limit, Run(limit, rd).reader).Wait?
    decreases |rd.buf|, Rank(rd)
  {
    if Step(limit, rd).Move? {
      RunEndsWaiting(limit, Step(limit, rd).reader);
    }
  }

  /******* Round trip *******/

  /** From a reader that waits at the start of a frame, or in junk that holds no separator, a
      complete frame is read whole, whatever its payload contains. */
  lemma ReadOneFrame(limit: nat, junk: Bytes, p: Bytes, rest: Bytes)
    requires Sendable(p) && NoMagic(junk) && |junk| <= limit
    ensures var after := Run(limit, Reader(Seek, rest));
            Run(limit, Reader(Seek, junk + Frame(p) + rest)) == Outcome(after.reader, [p] + after.delivered)
  {
    var all := junk + Frame(p) + rest;
    var sized := Pack(|p|, SIZE_LEN) + (p + rest);
    FindPastJunk(junk, p, rest);
    assert all[|junk| + MAGIC_LEN..] == sized;
    RunUnfold(limit, Reader(Seek, all), Reader(Size, sized), []);
    ReadSize(limit, |p|, p + rest);
    assert (p + rest)[..|p|] == p && (p + rest)[|p|..] == rest;
    RunUnfold(limit, Reader(Body(|p|), p + rest), Reader(Seek, rest), [p]);
  }

  lemma ReadSize(limit: nat, n: nat, rest: Bytes)
    requires n < SIZE_BOUND
    ensures Run(limit, Reader(Size, Pack(n, SIZE_LEN) + rest)) == Run(limit, Reader(Body(n), rest))
  {
    var sized := Pack(n, SIZE_LEN) + rest;
    assert sized[..SIZE_LEN] == Pack(n, SIZE_LEN) && sized[SIZE_LEN..] == rest;
    SizeRoundTrip(n);
    RunUnfold(limit, Reader(Size, sized), Reader(Body(n), rest), []);
  }

  /** Border-freeness at work: no occurrence can begin in the junk and end in the separator. */
  lemma FindPastJunk(junk: Bytes, p: Bytes, rest: Bytes)
    requires NoMagic(junk)
    ensures Find(junk + Frame(p) + rest) == Some(|junk|)
  {
    var tail := Frame(p) + rest;
    FindIsFirst(junk + tail);
    assert junk + Frame(p) + rest == junk + tail;
    assert tail[..MAGIC_LEN] == MAGIC;
    OccursShift(junk, tail, |junk|);
    forall j: nat | j < |junk| ensures !Occurs(junk + tail, j) {
      if j + MAGIC_LEN <= |junk| {
        OccursAppend(junk, tail, j);
      } else {
        assert (junk + tail)[|junk|] == tail[0] == MAGIC[0];
        OccursBytes(junk + tail, j, |junk| - j);
      }
    }
  }

  lemma ReadFrameAtStart(limit: nat, p: Bytes, rest: Bytes)
    requires Sendable(p)
    ensures var after := Run(limit, Reader(Seek, rest));
            Run(limit, Reader(Seek, Frame(p) + rest)) == Outcome(after.reader, [p] + after.delivered)
  {
    ReadOneFrame(limit, [], p, rest);
    assert [] + Frame(p) + rest == Frame(p) + rest;
  }

  lemma {:induction false} RoundTrip(limit: nat, ps: seq<Bytes>)
    requires AllSendable(ps)
    ensures Run(limit, Reader(Seek, Stream(ps))) == Outcome(Reader(Seek, []), ps)
  {
    if ps == [] {
      RunWaits(limit, Reader(Seek, []));
    } else {
      var head, tail := ps[0], ps[1..];
      RoundTrip(limit, tail);
      ReadFrameAtStart(limit, head, Stream(tail));
      assert [head] + tail == ps;
    }
  }

  /** Every sequence of payloads written in full, cut into chunks anywhere, is delivered exactly. */
  lemma FramingRoundTrip(limit: nat, ps: seq<Bytes>, chunks: seq<Bytes>)
    requires AllSendable(ps)
    requires Flatten(chunks) == Stream(ps)
    ensures FeedAll(limit, Reader(Seek, []), chunks) == Outcome(Reader(Seek, []), ps)
  {
    ChunkingIsIrrelevant(limit, Reader(Seek, []), chunks);
    assert [] + Stream(ps) == Stream(ps);
    RoundTrip(limit, ps);
  }

  /******* Resynchronisation after a cut frame *******/

  /** The separator does not occur in what follows the frame's own separator. */
  predicate Clean(p: Bytes) {
    NoMagic(Pack(|p|, SIZE_LEN) + p)
  }

  predicate AllClean(ps: seq<Bytes>) {
    forall p | p in ps :: Clean(p)
  }

  /** The payloads whose frames start at or after offset r of Stream(ps). */
  function FramesFrom(ps: seq<Bytes>, r: nat): seq<Bytes> {
    if r == 0 || ps == [] then ps
    else FramesFrom(ps[1..], if r <= |Frame(ps[0])| then 0 else r - |Frame(ps[0])|)
  }

  /** What lies between offset r and the first frame that starts there or later. */
  function Junk(ps: seq<Bytes>, r: nat): Bytes {
    if r == 0 || ps == [] then []
    else if r <= |Frame(ps[0])| then Frame(ps[0])[r..]
    else Junk(ps[1..], r - |Frame(ps[0])|)
  }

  lemma CleanTailHasNoMagic(p: Bytes, r: nat)
    requires Clean(p) && 0 < r <= |Frame(p)|
    ensures NoMagic(Frame(p)[r..])
  {
    var f := Frame(p);
    var inner := Pack(|p|, SIZE_LEN) + p;
    assert f == MAGIC + inner;
    forall j: nat ensures !Occurs(f[r..], j) {
      assert f[..r] + f[r..] == f;
      OccursShift(f[..r], f[r..], r + j);
      if r + j < MAGIC_LEN {
        assert f[r + j] == MAGIC[r + j];
        OccursBytes(f, r + j, 0);
      } else {
        OccursShift(MAGIC, inner, r + j);
      }
    }
  }

  lemma {:induction false} SplitAtOffset(ps: seq<Bytes>, r: nat)
    requires AllClean(ps) && r <= |Stream(ps)|
    ensures Stream(ps)[r..] == Junk(ps, r) + Stream(FramesFrom(ps, r))
    ensures NoMagic(Junk(ps, r))
    ensures forall p | p in FramesFrom(ps, r) :: p in ps
  {
    if r == 0 {
      assert Stream(ps)[0..] == Stream(ps);
    } else {
      var f := Frame(ps[0]);
      if r <= |f| {
        CleanTailHasNoMagic(ps[0], r);
        assert FramesFrom(ps, r) == ps[1..];
        assert Stream(ps)[r..] == f[r..] + Stream(ps[1..]);
      } else {
        SplitAtOffset(ps[1..], r - |f|);
        assert Stream(ps)[r..] == Stream(ps[1..])[r - |f|..];
      }
    }
  }

  /** Offset i of Stream(ps) is where one of its frames begins. */
  predicate IsStart(ps: seq<Bytes>, i: nat) {
    ps != [] && (i == 0 || (i >= |Frame(ps[0])| && IsStart(ps[1..], i - |Frame(ps[0])|)))
  }

  ghost predicate OnlyAtStarts(ps: seq<Bytes>) {
    forall i: nat :: Occurs(Stream(ps), i) ==> IsStart(ps, i)
  }

  lemma {:induction false} JunkBeforeStart(ps: seq<Bytes>, i: nat)
    requires i <= |Stream(ps)|
    ensures Junk(ps, i) == [] ==> IsStart(ps, i) || i == |Stream(ps)|
  {
    if ps != [] && i >= |Frame(ps[0])| {
      JunkBeforeStart(ps[1..], i - |Frame(ps[0])|);
    }
  }

  /** Frame by frame cleanness is exactly what resynchronisation needs of the whole stream: the
      separator occurs at the starts of frames and nowhere else. */
  lemma {:induction false} CleanMeansOnlyStarts(ps: seq<Bytes>)
    ensures AllClean(ps) <==> OnlyAtStarts(ps)
  {
    if AllClean(ps) {
      forall i: nat ensures Occurs(Stream(ps), i) ==> IsStart(ps, i) {
        CleanOccursAtStart(ps, i);
      }
    } else if OnlyAtStarts(ps) {
      OnlyStartsMeansClean(ps);
    }
  }

  lemma CleanOccursAtStart(ps: seq<Bytes>, i: nat)
    requires AllClean(ps)
    ensures Occurs(Stream(ps), i) ==> IsStart(ps, i)
  {
    var s := Stream(ps);
    if i <= |s| {
      assert s == s[..i] + s[i..];
      OccursShift(s[..i], s[i..], i);
      SplitAtOffset(ps, i);
      JunkBeforeStart(ps, i);
      OnlyAtJunkEnd(Junk(ps, i), FramesFrom(ps, i));
    }
  }

  lemma OnlyAtJunkEnd(junk: Bytes, ps: seq<Bytes>)
    requires NoMagic(junk)
    ensures Occurs(junk + Stream(ps), 0) ==> junk == [] && ps != []
  {
    FindIsFirst(junk + Stream(ps));
    if ps == [] {
      assert junk + Stream(ps) == junk;
    } else {
      FindPastJunk(junk, ps[0], Stream(ps[1..]));
      assert junk + Frame(ps[0]) + Stream(ps[1..]) == junk + Stream(ps);
    }
  }

  lemma {:induction false} OnlyStartsMeansClean(ps: seq<Bytes>)
    requires OnlyAtStarts(ps)
    ensures AllClean(ps)
  {
    if ps != [] {
      var f, rest := Frame(ps[0]), Stream(ps[1..]);
      var inner := Pack(|ps[0]|, SIZE_LEN) + ps[0];
      assert f == MAGIC + inner;
      forall j: nat ensures !Occurs(inner, j) {
        OccursShift(MAGIC, inner, MAGIC_LEN + j);
        if j + MAGIC_LEN <= |inner| {
          OccursAppend(f, rest, MAGIC_LEN + j);
          assert !IsStart(ps, MAGIC_LEN + j);
          assert !Occurs(Stream(ps), MAGIC_LEN + j);
        }
      }
      forall i: nat | Occurs(rest, i) ensures IsStart(ps[1..], i) {
        OccursShift(f, rest, |f| + i);
        assert IsStart(ps, |f| + i);
      }
      OnlyStartsMeansClean(ps[1..]);
      assert ps == [ps[0]] + ps[1..];
    }
  }

  /** Reading on from separator-free junk followed by complete frames. */
  lemma ReadPastJunk(limit: nat, junk: Bytes, ps: seq<Bytes>)
    requires AllSendable(ps) && NoMagic(junk)
    ensures Run(limit, Reader(Seek, junk + Stream(ps))) ==
            if ps == [] then
              (if |junk| + 1 - MAGIC_LEN > limit then Outcome(WEDGED, []) else Outcome(Reader(Seek, junk), []))
            else if |junk| <= limit then Outcome(Reader(Seek, []), ps)
            else Outcome(WEDGED, [])
  {
    if ps == [] {
      assert junk + Stream(ps) == junk;
      FindIsFirst(junk);
    } else {
      var rest := Stream(ps[1..]);
      assert junk + Stream(ps) == junk + Frame(ps[0]) + rest;
      FindPastJunk(junk, ps[0], rest);
      if |junk| <= limit {
        ReadOneFrame(limit, junk, ps[0], rest);
        RoundTrip(limit, ps[1..]);
        assert [ps[0]] + ps[1..] == ps;
      }
    }
  }

  /** The listener waits inside a payload of n bytes of which it has buf; the missing bytes were
      never written. It takes them from the complete frames that follow, and then delivers exactly
      the frames that start beyond them, if the next start is within the search limit. */
  lemma Resynchronises(limit: nat, n: nat, buf: Bytes, ps: seq<Bytes>)
    requires |buf| < n <= |buf| + |Stream(ps)|
    requires AllSendable(ps) && AllClean(ps)
    ensures var r := n - |buf|;
            Run(limit, Reader(Body(n), buf + Stream(ps))).delivered ==
            [buf + Stream(ps)[..r]] + (if |Junk(ps, r)| <= limit then FramesFrom(ps, r) else [])
    ensures var r := n - |buf|;
            FramesFrom(ps, r) != [] ==>
              Run(limit, Reader(Body(n), buf + Stream(ps))).reader ==
              if |Junk(ps, r)| <= limit then Reader(Seek, []) else WEDGED
  {
    var r := n - |buf|;
    var all := buf + Stream(ps);
    SplitAtOffset(ps, r);
    assert all[..n] == buf + Stream(ps)[..r];
    assert all[n..] == Stream(ps)[r..];
    RunUnfold(limit, Reader(Body(n), all), Reader(Seek, all[n..]), [all[..n]]);
    ReadPastJunk(limit, Junk(ps, r), FramesFrom(ps, r));
  }

  /** A frame cut after its header, from the first byte on: the header makes the listener wait in
      exactly the state of the previous lemma. */
  lemma ResynchronisesAfterCut(limit: nat, cut: Bytes, r: nat, ps: seq<Bytes>)
    requires 0 < r <= |cut| && r <= |Stream(ps)|
    requires Sendable(cut) && AllSendable(ps) && AllClean(ps)
    ensures Run(limit, Reader(Seek, Header(|cut|) + cut[..|cut| - r] + Stream(ps))).delivered ==
            [cut[..|cut| - r] + Stream(ps)[..r]] + (if |Junk(ps, r)| <= limit then FramesFrom(ps, r) else [])
  {
    var head := cut[..|cut| - r];
    var all := Header(|cut|) + head + Stream(ps);
    EnterBody(limit, |cut|, head + Stream(ps));
    assert all == Header(|cut|) + (head + Stream(ps));
    Resynchronises(limit, |cut|, head, ps);
  }

  lemma EnterSize(limit: nat, rest: Bytes)
    ensures Run(limit, Reader(Seek, MAGIC + rest)) == Run(limit, Reader(Size, rest))
  {
    var all := MAGIC + rest;
    assert all[0..MAGIC_LEN] == MAGIC && all[MAGIC_LEN..] == rest;
    FindIsFirst(all);
    assert Occurs(all, 0);
    RunUnfold(limit, Reader(Seek, all), Reader(Size, rest), []);
  }

  lemma EnterBody(limit: nat, n: nat, rest: Bytes)
    requires n < SIZE_BOUND
    ensures Run(limit, Reader(Seek, Header(n) + rest)) == Run(limit, Reader(Body(n), rest))
  {
    assert Header(n) + rest == MAGIC + (Pack(n, SIZE_LEN) + rest);
    EnterSize(limit, Pack(n, SIZE_LEN) + rest);
    ReadSize(limit, n, rest);
  }

  /******* A size field cut short *******/

  /** 2^48: no stream gets there. */
  const HUGE := 0x1_0000_0000_0000

  lemma OneDigitMore(digit: nat, range: nat, tail: nat)
    requires tail >= digit * range
    ensures 256 * tail >= digit * (256 * range)
  {
    assert digit * (256 * range) == 256 * (digit * range);
  }

  lemma {:induction false} UnpackAtLeast(bs: Bytes, i: nat)
    requires i < |bs|
    ensures Unpack(bs) >= bs[i] * Range(i)
  {
    if i > 0 {
      UnpackAtLeast(bs[1..], i - 1);
      assert bs[1..][i - 1] == bs[i];
      OneDigitMore(bs[i], Range(i - 1), Unpack(bs[1..]));
    }
  }

  /** When a separator falls into the size field, its bytes make the size astronomical. */
  lemma SeparatorMakesHugeSize(buf: Bytes, p: Bytes, rest: Bytes)
    requires |buf| < SIZE_LEN
    ensures Unpack((buf + Frame(p) + rest)[..SIZE_LEN]) >= HUGE
  {
    var field := (buf + Frame(p) + rest)[..SIZE_LEN];
    assert Range(3) == 256 * 256 * 256;
    assert Range(6) == 256 * 256 * 256 * Range(3);
    assert Range(7) == 256 * Range(6);
    if |buf| == 0 {
      assert field[6] == MAGIC[6];
      UnpackAtLeast(field, 6);
    } else {
      assert field[7] == MAGIC[7 - |buf|];
      UnpackAtLeast(field, 7);
    }
  }

  /** A listener waiting inside a size field hears nothing of any frames that follow. */
  lemma DeafInSize(limit: nat, buf: Bytes, ps: seq<Bytes>)
    requires |buf| < SIZE_LEN && |Stream(ps)| < HUGE
    ensures Run(limit, Reader(Size, buf + Stream(ps))).delivered == []
  {
    var all := buf + Stream(ps);
    if |all| < SIZE_LEN {
      RunWaits(limit, Reader(Size, all));
    } else {
      SeparatorMakesHugeSize(buf, ps[0], Stream(ps[1..]));
      assert all == buf + Frame(ps[0]) + Stream(ps[1..]);
      var n := Unpack(all[..SIZE_LEN]);
      RunUnfold(limit, Reader(Size, all), Reader(Body(n), all[SIZE_LEN..]), []);
      RunWaits(limit, Reader(Body(n), all[SIZE_LEN..]));
    }
  }

  /** Why the dump is written twice: one copy feeds the gap, the other one arrives, and it arrives
      exactly when the gap is at most one frame and its remainder within the search limit. With a
      larger remainder the listener is stuck for good. */
  lemma SecondCopyArrives(limit: nat, n: nat, buf: Bytes, dump: Bytes)
    requires |buf| < n <= |buf| + 2 * |Frame(dump)|
    requires Sendable(dump) && Clean(dump)
    ensures var r := n - |buf|;
            var twice := Frame(dump) + Frame(dump);
            Run(limit, Reader(Body(n), buf + twice)).delivered ==
            [buf + twice[..r]] + (if |Frame(dump)| - limit <= r <= |Frame(dump)| then [dump] else [])
    ensures n - |buf| < |Frame(dump)| - limit ==>
              Run(limit, Reader(Body(n), buf + (Frame(dump) + Frame(dump)))).reader == WEDGED
    ensures |Frame(dump)| - limit <= n - |buf| <= |Frame(dump)| ==>
              Run(limit, Reader(Body(n), buf + (Frame(dump) + Frame(dump)))).reader == Reader(Seek, [])
  {
    var ps := [dump, dump];
    var r := n - |buf|;
    var f := Frame(dump);
    assert ps[1..] == [dump] && [dump][1..] == [];
    assert Stream([dump]) == f + [] == f;
    assert Stream(ps) == f + f;
    Resynchronises(limit, n, buf, ps);
    if r <= |f| {
      assert FramesFrom(ps, r) == [dump];
    } else {
      assert FramesFrom([dump], r - |f|) == FramesFrom([], 0) == [];
    }
  }

  lemma NoMagicWithoutFirstByte(s: Bytes)
    requires MAGIC[0] !in s
    ensures NoMagic(s)
  {
    forall i: nat ensures !Occurs(s, i) {
      OccursBytes(s, i, 0);
    }
  }

  /** A dump of 64 KiB of zeros after a gap of one byte: the search for the second copy overruns
      asyncio's default limit and the listener never reads again. */
  lemma LargeDumpWedges(buf: Bytes)
    ensures var dump := seq(DEFAULT_LIMIT, _ => 0);
            var twice := Frame(dump) + Frame(dump);
            var out := Run(DEFAULT_LIMIT, Reader(Body(|buf| + 1), buf + twice));
            out.delivered == [buf + twice[..1]] && out.reader == WEDGED
  {
    var dump: Bytes := seq(DEFAULT_LIMIT, _ => 0);
    ZerosAreClean(dump);
    SecondCopyArrives(DEFAULT_LIMIT, |buf| + 1, buf, dump);
  }

  lemma ZerosAreClean(dump: Bytes)
    requires |dump| == DEFAULT_LIMIT && forall i | 0 <= i < |dump| :: dump[i] == 0
    ensures Clean(dump)
  {
    forall k: nat | k < SIZE_LEN ensures Pack(|dump|, SIZE_LEN)[k] <= 1 {
      PackOf64K(k);
    }
    NoMagicWithoutFirstByte(Pack(|dump|, SIZE_LEN) + dump);
  }

  lemma PackOf64K(k: nat)
    requires k < SIZE_LEN
    ensures Pack(DEFAULT_LIMIT, SIZE_LEN)[k] <= 1
  {
    ZeroPacks(5);
    assert Pack(1, 6) == [1] + Pack(0, 5);
    assert Pack(256, 7) == [0] + Pack(1, 6);
    assert Pack(65536, 8) == [0] + Pack(256, 7);
  }

  lemma {:induction false} ZeroPacks(width: nat)
    ensures forall k | 0 <= k < width :: Pack(0, width)[k] == 0
  {
    if width > 0 { ZeroPacks(width - 1); }
  }

  /******* The listener as the source runs it *******/

  class WorkerListener {
    const limit: nat
    var phase: Phase
    var buffer: Bytes
    var received: seq<Bytes>

    function View(): Reader
      reads this
    {
      Reader(phase, buffer)
    }

    constructor (limit: nat)
      ensures this.limit == limit && View() == Reader(Seek, []) && received == []
    {
      this.limit := limit;
      phase := Seek;
      buffer := [];
      received := [];
    }

    /** The pipe delivers a chunk and the listener runs until it has to wait again. */
    method DataReceived(chunk: Bytes)
      modifies this
      ensures var out := Run(limit, Feed(old(View()), chunk));
              View() == out.reader && received == old(received) + out.delivered
    {
      if phase.Wedged? {
        RunWaits(limit, View());
        assert received + [] == received;
        return;
      }
      var reader := Reader(phase, buffer + chunk);
      var got: seq<Bytes> := [];
      ghost var goal := Run(limit, reader);
      var progress := Step(limit, reader);
      while progress.Move?
        invariant progress == Step(limit, reader) && received == old(received)
        invariant goal == Outcome(Run(limit, reader).reader, got + Run(limit, reader).delivered)
        decreases |reader.buf|, Rank(reader)
      {
        RunAfterStep(limit, reader, progress.reader, progress.delivered, got);
        reader := progress.reader;
        got := got + progress.delivered;
        progress := Step(limit, reader);
      }
      RunWaits(limit, reader);
      assert got + [] == got;
      phase, buffer, received := reader.phase, reader.buf, received + got;
    }
  }
}
