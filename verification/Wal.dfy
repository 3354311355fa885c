// The write-ahead log of runtime/wal.c: frames, scanning, truncation of a torn tail,
// appending and replay.
module WalFormat {
  import opened Bytes
  import opened Crc

  const TXN_BEGIN: byte := 0xF0
  const TXN_COMMIT: byte := 0xF1
  const MAX_PAYLOAD := 64 * 1024 * 1024
  const HEAD := 13

  // One log entry. The timestamp is its eight bytes as written.
  datatype Frame = Frame(op: byte, ts: seq<byte>, payload: seq<byte>) {
    ghost predicate Writable() {
      |ts| == 8 && |payload| < Range(4)
    }
    predicate LenOk() { FrameLenOk(op, |payload|) }
    predicate Marker() { op == TXN_BEGIN || op == TXN_COMMIT }
  }

  predicate FrameLenOk(op: byte, len: nat) {
    op == TXN_BEGIN || len <= MAX_PAYLOAD
  }

  const MAGIC: seq<byte> := [0x4A, 0x49, 0x4E, 0x4E, 0x57, 0x41, 0x4C, 0x32]
  const MAGIC_V1: seq<byte> := [0x4A, 0x49, 0x4E, 0x4E, 0x57, 0x41, 0x4C, 0]

  function Header(len: nat, op: byte, ts: seq<byte>): seq<byte> {
    LE(len, 4) + [op] + ts
  }

  // wal_frame_crc
  function Checksum(len: nat, op: byte, ts: seq<byte>, payload: seq<byte>): (r: seq<byte>)
    ensures |r| == 4
  {
    Stored(Feed(Feed(SEED, Header(len, op, ts)), payload))
  }

  function Encode(f: Frame): seq<byte> {
    Header(|f.payload|, f.op, f.ts) + f.payload + Checksum(|f.payload|, f.op, f.ts, f.payload)
  }

  // Where a frame keeps what: its length, op, time and payload, and then the checksum of all
  // of them.
  lemma FrameLayout(f: Frame)
    requires |f.ts| == 8
    ensures var (b, n) := (Encode(f), 13 + |f.payload|);
            && |b| == n + 4
            && b[0..4] == LE(|f.payload|, 4) && b[4] == f.op && b[5..13] == f.ts && b[13..n] == f.payload
            && b[n..] == Stored(Feed(SEED, b[..n]))
  {
    hide LE, Feed, Stored;
    var h := Header(|f.payload|, f.op, f.ts);
    var b := Encode(f);
    FeedSplit(SEED, h, f.payload);
    assert b[..13] == h && b[..13 + |f.payload|] == h + f.payload;
    assert h[0..4] == LE(|f.payload|, 4) && h[5..13] == f.ts;
    assert b[0..4] == h[0..4] && b[5..13] == h[5..13] && b[4] == h[4];
  }

  function EncodeAll(fs: seq<Frame>): seq<byte> {
    if |fs| == 0 then [] else Encode(fs[0]) + EncodeAll(fs[1..])
  }

  // A log file holding the given frames.
  function Log(fs: seq<Frame>): seq<byte> { MAGIC + EncodeAll(fs) }

  // A frame found in a file, with the offsets it starts and ends at.
  datatype Entry = Entry(frame: Frame, start: nat, end: nat)

  datatype Parsed = Damaged | Found(entry: Entry)

  // What wal_scan_valid_end makes of the bytes at pos.
  function ParseAt(data: seq<byte>, pos: nat): (r: Parsed)
    requires pos <= |data|
    ensures r.Found? ==> r.entry.start == pos < r.entry.end <= |data|
  {
    if |data| - pos < HEAD then Damaged
    else
      var len := FromLE(data[pos..pos + 4]);
      var op := data[pos + 4];
      var ts := data[pos + 5..pos + HEAD];
      var body := pos + HEAD;
      if !FrameLenOk(op, len) || |data| - body < len + 4 then Damaged
      else
        var payload := data[body..body + len];
        if data[body + len..body + len + 4] != Checksum(len, op, ts, payload) then Damaged
        else Found(Entry(Frame(op, ts, payload), pos, body + len + 4))
  }

  // A frame is accepted only if the four bytes after it are the checksum of all its bytes.
  lemma FrameBytesChecked(data: seq<byte>, e: Entry)
    requires e.start <= |data| && ParseAt(data, e.start) == Found(e)
    ensures e.start + HEAD <= e.end - 4 && e.end <= |data|
    ensures e.end - 4 - HEAD - e.start == FromLE(data[e.start..e.start + 4])
    ensures data[e.end - 4..e.end] == Stored(Feed(SEED, data[e.start..e.end - 4]))
  {
    hide LE, FromLE, Feed;
    var len, body := |e.frame.payload|, e.start + HEAD;
    BytesRoundTrip(data[e.start..e.start + 4]);
    assert data[e.start..body] == Header(len, e.frame.op, e.frame.ts);
    assert data[e.start..e.end - 4] == data[e.start..body] + e.frame.payload;
    FeedSplit(SEED, Header(len, e.frame.op, e.frame.ts), e.frame.payload);
  }

  // Whichever byte after its length is changed, a frame is not accepted any more.
  lemma ChangedByteRejected(data: seq<byte>, e: Entry, i: nat, x: byte)
    requires e.start <= |data| && ParseAt(data, e.start) == Found(e)
    requires e.start + 4 <= i < e.end <= |data| && x != data[i]
    ensures ParseAt(data[i := x], e.start).Damaged?
  {
    hide ParseAt, FromLE, Feed, Stored, Checksum;
    var other := data[i := x];
    FrameBytesChecked(data, e);
    ParsedStart(other, e.start);
    if ParseAt(other, e.start).Found? {
      FrameBytesChecked(other, ParseAt(other, e.start).entry);
      assert other[e.start..e.start + 4] == data[e.start..e.start + 4];
      NotBothChecked(data, e.start, e.end, i, x);
    }
  }

  lemma NotBothChecked(data: seq<byte>, start: nat, end: nat, i: nat, x: byte)
    requires start + 4 <= i < end <= |data| && x != data[i]
    ensures var other := data[i := x];
            data[end - 4..end] == Stored(Feed(SEED, data[start..end - 4])) ==>
              other[end - 4..end] != Stored(Feed(SEED, other[start..end - 4]))
  {
    hide Feed, Stored;
    var other := data[i := x];
    if i < end - 4 {
      assert other[end - 4..end] == data[end - 4..end];
      assert other[start..end - 4] == data[start..end - 4][i - start := x];
      ChangedByteShows(SEED, data[start..end - 4], i - start, x);
      StoredInjective(Feed(SEED, data[start..end - 4]), Feed(SEED, other[start..end - 4]));
    } else {
      assert other[start..end - 4] == data[start..end - 4];
      assert other[end - 4..end][i - (end - 4)] != data[end - 4..end][i - (end - 4)];
    }
  }

  lemma ParsedStart(data: seq<byte>, pos: nat)
    requires pos <= |data|
    ensures ParseAt(data, pos).Found? ==> ParseAt(data, pos).entry.start == pos
  {
  }

  // The entries from pos up to the end or the first damaged frame.
  function Scan(data: seq<byte>, pos: nat): (r: seq<Entry>)
    requires pos <= |data|
    ensures forall i :: 0 <= i < |r| ==> r[i].end <= |data|
    decreases |data| - pos
  {
    if pos == |data| || ParseAt(data, pos).Damaged? then []
    else
      var e := ParseAt(data, pos).entry;
      [e] + Scan(data, e.end)
  }

  function EndOf(es: seq<Entry>, pos: nat): nat {
    if |es| == 0 then pos else es[|es| - 1].end
  }

  function FramesOf(es: seq<Entry>): (r: seq<Frame>)
    ensures |r| == |es| && forall i :: 0 <= i < |es| ==> r[i] == es[i].frame
  {
    if |es| == 0 then [] else [es[0].frame] + FramesOf(es[1..])
  }

  // ----- a frame reads back as itself -----

  lemma EncodeLength(f: Frame)
    requires f.Writable()
    ensures |Encode(f)| == HEAD + |f.payload| + 4
  {
  }

  // Bytes of a slice taken inside the middle part of a concatenation.
  lemma SliceMiddle<T>(pre: seq<T>, mid: seq<T>, post: seq<T>, lo: nat, hi: nat)
    requires lo <= hi <= |mid|
    ensures (pre + mid + post)[|pre| + lo..|pre| + hi] == mid[lo..hi]
  {
  }

  lemma EncodeParts(f: Frame)
    requires f.Writable()
    ensures var e, n := Encode(f), |f.payload|;
            && |e| == HEAD + n + 4 && e[0..4] == LE(n, 4) && e[4] == f.op && e[5..HEAD] == f.ts
            && e[HEAD..HEAD + n] == f.payload
            && e[HEAD + n..HEAD + n + 4] == Checksum(n, f.op, f.ts, f.payload)
  {
    hide Checksum;
    var n := |f.payload|;
    var h := Header(n, f.op, f.ts);
    assert h[0..4] == LE(n, 4) && h[4] == f.op && h[5..HEAD] == f.ts;
    assert Encode(f)[..HEAD] == h;
    assert Encode(f)[0..4] == h[0..4] && Encode(f)[5..HEAD] == h[5..HEAD];
  }

  lemma ReadHead(pre: seq<byte>, f: Frame, post: seq<byte>)
    requires f.Writable()
    ensures var data, pos := pre + Encode(f) + post, |pre|;
            && FromLE(data[pos..pos + 4]) == |f.payload| && data[pos + 4] == f.op
            && data[pos + 5..pos + HEAD] == f.ts
            && data[pos + HEAD..pos + HEAD + |f.payload|] == f.payload
            && data[pos + HEAD + |f.payload|..pos + HEAD + |f.payload| + 4]
                 == Checksum(|f.payload|, f.op, f.ts, f.payload)
  {
    hide Checksum, Encode;
    var e, n := Encode(f), |f.payload|;
    EncodeParts(f);
    SliceMiddle(pre, e, post, 0, 4);
    SliceMiddle(pre, e, post, 5, HEAD);
    SliceMiddle(pre, e, post, HEAD, HEAD + n);
    SliceMiddle(pre, e, post, HEAD + n, HEAD + n + 4);
    assert (pre + e + post)[|pre| + 4] == e[4];
    WordRoundTrip(n, 4);
  }

  // The scan accepts a written frame exactly when its length is one it allows.
  lemma FrameReadsBack(pre: seq<byte>, f: Frame, post: seq<byte>)
    requires f.Writable()
    ensures var data := pre + Encode(f) + post;
            ParseAt(data, |pre|) ==
              if f.op == 0xF0 || |f.payload| <= 0x400_0000 then Found(Entry(f, |pre|, |pre| + |Encode(f)|)) else Damaged
  {
    hide Checksum, Encode, FromLE, LE;
    EncodeLength(f);
    ReadHead(pre, f, post);
  }

  // A file cut inside a frame has no frame there.
  lemma TornFrame(pre: seq<byte>, f: Frame, cut: nat)
    requires f.Writable() && cut < |Encode(f)|
    ensures ParseAt(pre + Encode(f)[..cut], |pre|).Damaged?
  {
    hide Checksum, FromLE, LE;
    var data := pre + Encode(f)[..cut];
    if cut >= HEAD {
      hide Encode;
      EncodeParts(f);
      var e := Encode(f);
      assert data[|pre|..|pre| + 4] == e[0..4];
      assert data[|pre| + 4] == e[4];
      WordRoundTrip(|f.payload|, 4);
    }
  }

  // ----- whole logs -----

  ghost predicate AllWritable(fs: seq<Frame>) {
    forall i :: 0 <= i < |fs| ==> fs[i].Writable()
  }

  // How many leading frames lie complete in the first n bytes and pass the scan's
  // length rule.
  ghost function Complete(fs: seq<Frame>, n: nat): (k: nat)
    ensures k <= |fs|
  {
    if |fs| == 0 || !fs[0].LenOk() || |Encode(fs[0])| > n then 0
    else 1 + Complete(fs[1..], n - |Encode(fs[0])|)
  }

  lemma {:induction false} EncodeAllAppend(fs: seq<Frame>, f: Frame)
    ensures EncodeAll(fs + [f]) == EncodeAll(fs) + Encode(f)
  {
    hide Encode;
    if |fs| == 0 {
      assert fs + [f] == [f];
      assert EncodeAll([f]) == Encode(f) + EncodeAll([]);
    } else {
      assert (fs + [f])[1..] == fs[1..] + [f];
      EncodeAllAppend(fs[1..], f);
      Associate(Encode(fs[0]), EncodeAll(fs[1..]), Encode(f));
    }
  }

  // Scanning a log cut at any byte finds exactly its complete frames.
  lemma {:induction false} CutScan(pre: seq<byte>, fs: seq<Frame>, n: nat)
    requires AllWritable(fs) && n <= |EncodeAll(fs)|
    ensures var data := pre + EncodeAll(fs)[..n];
            var es := Scan(data, |pre|);
            var k := Complete(fs, n);
            && FramesOf(es) == fs[..k]
            && data[..EndOf(es, |pre|)] == pre + EncodeAll(fs[..k])
    decreases |fs|
  {
    hide Encode, ParseAt, Scan, FramesOf, EndOf;
    var data := pre + EncodeAll(fs)[..n];
    assert fs[..0] == [] && pre + [] == pre;
    if |fs| == 0 {
      assert data == pre;
      NothingFound(data, pre);
    } else {
      var e := Encode(fs[0]);
      assert EncodeAll(fs) == e + EncodeAll(fs[1..]);
      EncodeLength(fs[0]);
      if n < |e| {
        assert data == pre + e[..n];
        TornFrame(pre, fs[0], n);
        NothingFound(data, pre);
      } else {
        var post := EncodeAll(fs[1..])[..n - |e|];
        assert data == pre + e + post;
        FrameReadsBack(pre, fs[0], post);
        if fs[0].LenOk() {
          CutScan(pre + e, fs[1..], n - |e|);
          EntriesInside(data, |pre + e|);
          CutStep(pre, fs, n, data);
        } else {
          assert data == pre + (e + post);
          NothingFound(data, pre);
        }
      }
    }
  }

  lemma EntriesInside(data: seq<byte>, pos: nat)
    requires pos <= |data|
    ensures EndOf(Scan(data, pos), pos) <= |data|
  {
  }

  lemma NothingFound(data: seq<byte>, pre: seq<byte>)
    requires pre <= data && (data == pre || ParseAt(data, |pre|).Damaged?)
    ensures FramesOf(Scan(data, |pre|)) == [] && EndOf(Scan(data, |pre|), |pre|) == |pre|
    ensures data[..|pre|] == pre
  {
    hide ParseAt;
  }

  lemma CutStep(pre: seq<byte>, fs: seq<Frame>, n: nat, data: seq<byte>)
    requires |fs| > 0 && fs[0].LenOk() && |Encode(fs[0])| <= n
    requires |pre| + |Encode(fs[0])| <= |data| && |pre| < |data|
    requires ParseAt(data, |pre|) == Found(Entry(fs[0], |pre|, |pre| + |Encode(fs[0])|))
    requires var es := Scan(data, |pre| + |Encode(fs[0])|);
             var k := Complete(fs[1..], n - |Encode(fs[0])|);
             && FramesOf(es) == fs[1..][..k]
             && EndOf(es, |pre| + |Encode(fs[0])|) <= |data|
             && data[..EndOf(es, |pre| + |Encode(fs[0])|)] == pre + Encode(fs[0]) + EncodeAll(fs[1..][..k])
    ensures var es := Scan(data, |pre|);
            var k := Complete(fs, n);
            && FramesOf(es) == fs[..k]
            && data[..EndOf(es, |pre|)] == pre + EncodeAll(fs[..k])
  {
    hide Encode, EncodeAll, ParseAt, Complete, Scan, EndOf, FramesOf;
    var after := |pre| + |Encode(fs[0])|;
    var e := Entry(fs[0], |pre|, after);
    var rest, k := Scan(data, after), Complete(fs[1..], n - |Encode(fs[0])|);
    ScanOne(data, |pre|, e);
    CompleteOne(fs, n);
    EndOfRest(e, rest, |pre|, after);
    FramesOfRest(e, rest, fs, k);
    BytesOfRest(pre, fs, k);
  }

  lemma FramesOfRest(e: Entry, rest: seq<Entry>, fs: seq<Frame>, k: nat)
    requires k < |fs| && e.frame == fs[0] && FramesOf(rest) == fs[1..][..k]
    ensures FramesOf([e] + rest) == fs[..k + 1]
  {
    hide FramesOf;
    var r := FramesOf([e] + rest);
    assert |fs[1..][..k]| == k && |FramesOf(rest)| == |rest|;
    forall i | 0 <= i < k + 1 ensures r[i] == fs[..k + 1][i] {
      if i > 0 { assert FramesOf(rest)[i - 1] == fs[1..][..k][i - 1] == fs[i]; }
    }
  }

  lemma BytesOfRest(pre: seq<byte>, fs: seq<Frame>, k: nat)
    requires k < |fs|
    ensures pre + Encode(fs[0]) + EncodeAll(fs[1..][..k]) == pre + EncodeAll(fs[..k + 1])
  {
    hide Encode;
    assert fs[..k + 1][0] == fs[0] && fs[..k + 1][1..] == fs[1..][..k];
    Associate(pre, Encode(fs[0]), EncodeAll(fs[1..][..k]));
  }

  lemma ScanOne(data: seq<byte>, pos: nat, e: Entry)
    requires pos < |data| && e.end <= |data| && ParseAt(data, pos) == Found(e)
    ensures Scan(data, pos) == [e] + Scan(data, e.end)
  {
    hide ParseAt;
  }

  lemma CompleteOne(fs: seq<Frame>, n: nat)
    requires |fs| > 0 && fs[0].LenOk() && |Encode(fs[0])| <= n
    ensures Complete(fs, n) == 1 + Complete(fs[1..], n - |Encode(fs[0])|)
  {
    hide Encode;
  }

  lemma EndOfRest(e: Entry, rest: seq<Entry>, pos: nat, after: nat)
    requires e.end == after
    ensures EndOf([e] + rest, pos) == EndOf(rest, after)
  {
  }

  // What opening leaves of a file that starts with the magic.
  ghost function Reopened(data: seq<byte>): seq<byte>
    requires |data| >= 8
  {
    data[..EndOf(Scan(data, 8), 8)]
  }

  // A log of written frames, cut at any byte from 8 on, reopens to the log of exactly its
  // complete frames; a frame longer than the scan allows ends it early.
  lemma CutLogReopens(fs: seq<Frame>, cut: nat)
    requires AllWritable(fs) && 8 <= cut <= |Log(fs)|
    ensures var k := Complete(fs, cut - 8);
            && Reopened(Log(fs)[..cut]) == Log(fs[..k])
            && FramesOf(Scan(Log(fs)[..cut], 8)) == fs[..k]
  {
    hide Encode, ParseAt, Scan;
    assert Log(fs)[..cut] == MAGIC + EncodeAll(fs)[..cut - 8];
    CutScan(MAGIC, fs, cut - 8);
  }

  lemma {:induction false} AllComplete(fs: seq<Frame>)
    requires AllWritable(fs)
    ensures Complete(fs, |EncodeAll(fs)|) == |fs| <==> forall i :: 0 <= i < |fs| ==> fs[i].LenOk()
  {
    hide Encode;
    if |fs| > 0 {
      AllComplete(fs[1..]);
      assert forall i :: 0 <= i < |fs[1..]| ==> fs[1..][i] == fs[i + 1];
      assert forall i :: 0 < i < |fs| ==> fs[i] == fs[1..][i - 1];
    }
  }

  lemma {:induction false} FewerFramesShorter(fs: seq<Frame>, k: nat)
    requires AllWritable(fs) && k < |fs|
    ensures |EncodeAll(fs[..k])| < |EncodeAll(fs)|
  {
    hide Encode;
    EncodeLength(fs[0]);
    if k > 0 {
      assert fs[..k][0] == fs[0] && fs[..k][1..] == fs[1..][..k - 1];
      FewerFramesShorter(fs[1..], k - 1);
    }
  }

  lemma UncutLogReopens(fs: seq<Frame>)
    requires AllWritable(fs)
    ensures Reopened(Log(fs)) == Log(fs[..Complete(fs, |EncodeAll(fs)|)])
  {
    hide Encode, EncodeAll, Scan, Complete, Reopened;
    CutLogReopens(fs, |Log(fs)|);
    assert Log(fs)[..|Log(fs)|] == Log(fs);
  }

  // The uncut log survives whole if and only if every frame passes the length rule.
  lemma WholeIffLengthsOk(fs: seq<Frame>)
    requires AllWritable(fs)
    ensures Reopened(Log(fs)) == Log(fs) <==>
              forall i :: 0 <= i < |fs| ==> fs[i].op == 0xF0 || |fs[i].payload| <= 0x400_0000
  {
    hide Encode, EncodeAll, Complete, Reopened;
    UncutLogReopens(fs);
    AllComplete(fs);
    var k := Complete(fs, |EncodeAll(fs)|);
    if k < |fs| { FewerFramesShorter(fs, k); } else { assert fs[..k] == fs; }
  }

  // The first frame that breaks the rule is dropped with everything after it.
  lemma LostFromOversized(fs: seq<Frame>, k: nat)
    requires AllWritable(fs) && k < |fs| && !fs[k].LenOk() && forall i :: 0 <= i < k ==> fs[i].LenOk()
    ensures Reopened(Log(fs)) == Log(fs[..k])
  {
    hide Encode, EncodeAll, Reopened;
    UncutLogReopens(fs);
    CompleteUpTo(fs, k);
  }

  lemma {:induction false} CompleteUpTo(fs: seq<Frame>, k: nat)
    requires k < |fs| && !fs[k].LenOk() && forall i :: 0 <= i < k ==> fs[i].LenOk()
    ensures Complete(fs, |EncodeAll(fs)|) == k
  {
    hide Encode;
    if k > 0 { CompleteUpTo(fs[1..], k - 1); }
  }

  // One entry of 64 MiB and a byte is written without complaint, and its log reopens empty.
  lemma OversizedEntryIsLost(op: byte)
    requires op != TXN_BEGIN
    ensures var f := Frame(op, seq(8, _ => 0), seq(MAX_PAYLOAD + 1, _ => 0));
            |f.payload| == 0x400_0001 && f.Writable() && Reopened(Log([f])) == MAGIC
  {
    hide Encode, Reopened;
    var f := Frame(op, seq(8, _ => 0), seq(MAX_PAYLOAD + 1, _ => 0));
    LostFromOversized([f], 0);
    assert [f][..0] == [] && MAGIC + [] == MAGIC;
  }

  // Reopening and appending gives the complete frames followed by the new one.
  lemma ReopenThenAppend(fs: seq<Frame>, cut: nat, f: Frame)
    requires AllWritable(fs) && 8 <= cut <= |Log(fs)| && f.Writable()
    ensures Reopened(Log(fs)[..cut]) + Encode(f) == Log(fs[..Complete(fs, cut - 8)] + [f])
  {
    hide Encode, Scan, Complete, Reopened;
    CutLogReopens(fs, cut);
    var kept := fs[..Complete(fs, cut - 8)];
    EncodeAllAppend(kept, f);
    Associate(MAGIC, EncodeAll(kept), Encode(f));
  }

  // ----- which entries replay delivers -----

  // The transaction left open after the first n frames: the index of its TXN_BEGIN.
  datatype Pending = NonePending | PendingAt(index: nat)

  function Track(fs: seq<Frame>, n: nat): Pending
    requires n <= |fs|
  {
    if n == 0 then NonePending
    else if fs[n - 1].op == TXN_BEGIN then PendingAt(n - 1)
    else if fs[n - 1].op == TXN_COMMIT then NonePending
    else Track(fs, n - 1)
  }

  // Frame i is the last TXN_BEGIN and no TXN_COMMIT follows it.
  ghost predicate OpenBegin(fs: seq<Frame>, i: nat) {
    && i < |fs| && fs[i].op == TXN_BEGIN
    && forall j :: i < j < |fs| ==> !fs[j].Marker()
  }

  lemma {:induction false} TrackMeaning(fs: seq<Frame>, n: nat)
    requires n <= |fs|
    ensures forall i: nat :: Track(fs, n) == PendingAt(i) <==> OpenBegin(fs[..n], i)
    ensures Track(fs, n).NonePending? <==>
              forall i :: 0 <= i < n && fs[i].op == TXN_BEGIN ==> exists j :: i < j < n && fs[j].op == TXN_COMMIT
  {
    if n > 0 {
      TrackMeaning(fs, n - 1);
      var p, q := fs[..n], fs[..n - 1];
      forall i: nat
        ensures Track(fs, n) == PendingAt(i) <==> OpenBegin(p, i)
      {
        if OpenBegin(p, i) && i < n - 1 {
          assert !p[n - 1].Marker();
          assert forall j :: i < j < |q| ==> q[j] == p[j];
          assert OpenBegin(q, i);
        }
        if OpenBegin(q, i) && !fs[n - 1].Marker() {
          assert forall j :: i < j < |q| ==> q[j] == p[j];
        }
      }
      if fs[n - 1].op == TXN_COMMIT {
        assert forall i :: 0 <= i < n && fs[i].op == TXN_BEGIN ==> i < n - 1 < n && fs[n - 1].op == TXN_COMMIT;
      }
    }
  }

  function NonMarkers(fs: seq<Frame>): seq<Frame> {
    if |fs| == 0 then []
    else NonMarkers(fs[..|fs| - 1]) + if fs[|fs| - 1].Marker() then [] else [fs[|fs| - 1]]
  }

  // The frames replay hands to its callback.
  function Delivered(fs: seq<Frame>): seq<Frame> {
    match Track(fs, |fs|)
    case NonePending => NonMarkers(fs)
    case PendingAt(i) => if i <= |fs| then NonMarkers(fs[..i]) else []
  }

  // NonMarkers is fs without its markers, in order: idx lists exactly the places kept.
  lemma {:induction false} NonMarkersMeaning(fs: seq<Frame>) returns (idx: seq<nat>)
    ensures |idx| == |NonMarkers(fs)|
    ensures forall j :: 0 <= j < |idx| ==> idx[j] < |fs| && NonMarkers(fs)[j] == fs[idx[j]]
    ensures forall j, k :: 0 <= j < k < |idx| ==> idx[j] < idx[k]
    ensures forall k: nat :: k in idx <==> k < |fs| && fs[k].op != 0xF0 && fs[k].op != 0xF1
  {
    if |fs| == 0 { return []; }
    var n := |fs| - 1;
    var rest := NonMarkersMeaning(fs[..n]);
    if fs[n].Marker() { return rest; }
    idx := rest + [n];
    assert idx[|rest|] == n;
  }

  // How the delivered entries grow as frames are appended: an entry outside a transaction is
  // delivered at once, one inside waits, a commit releases everything, a begin holds nothing
  // back that came before it.
  lemma DeliveredGrows(fs: seq<Frame>, f: Frame)
    ensures !f.Marker() && Track(fs, |fs|).NonePending? ==> Delivered(fs + [f]) == Delivered(fs) + [f]
    ensures !f.Marker() && Track(fs, |fs|).PendingAt? ==> Delivered(fs + [f]) == Delivered(fs)
    ensures f.op == 0xF1 ==> Delivered(fs + [f]) == NonMarkers(fs)
    ensures f.op == 0xF0 ==> Delivered(fs + [f]) == NonMarkers(fs)
    ensures Delivered([]) == []
  {
    assert (fs + [f])[..|fs|] == fs;
    TrackPrefix(fs, [f], |fs|);
    match Track(fs, |fs|)
    case NonePending =>
    case PendingAt(i) =>
      PendingInside(fs, |fs|);
      assert (fs + [f])[..i] == fs[..i];
  }

  lemma {:induction false} TrackPrefix(fs: seq<Frame>, more: seq<Frame>, n: nat)
    requires n <= |fs|
    ensures Track(fs + more, n) == Track(fs, n)
  {
    if n > 0 { TrackPrefix(fs, more, n - 1); }
  }

  lemma {:induction false} PendingInside(fs: seq<Frame>, n: nat)
    requires n <= |fs| && Track(fs, n).PendingAt?
    ensures Track(fs, n).index < n
  {
    if fs[n - 1].op != TXN_BEGIN { PendingInside(fs, n - 1); }
  }

  // ----- a transaction in the log is replayed whole or not at all -----

  lemma {:induction false} NonMarkersSplit(a: seq<Frame>, b: seq<Frame>)
    ensures NonMarkers(a + b) == NonMarkers(a) + NonMarkers(b)
    decreases |b|
  {
    if |b| == 0 {
      assert a + b == a;
    } else {
      assert (a + b)[..|a + b| - 1] == a + b[..|b| - 1];
      NonMarkersSplit(a, b[..|b| - 1]);
    }
  }

  lemma {:induction false} OpenThroughout(fs: seq<Frame>, begin: Frame, ops: seq<Frame>, n: nat)
    requires begin.op == TXN_BEGIN && n <= |ops| && forall i :: 0 <= i < |ops| ==> !ops[i].Marker()
    ensures Track(fs + [begin] + ops, |fs| + 1 + n) == PendingAt(|fs|)
    ensures NonMarkers(ops[..n]) == ops[..n]
    decreases n
  {
    var all := fs + [begin] + ops;
    if n == 0 {
      assert all[|fs|] == begin;
    } else {
      OpenThroughout(fs, begin, ops, n - 1);
      assert all[|fs| + n] == ops[n - 1];
      assert ops[..n][..n - 1] == ops[..n - 1] && ops[..n] == ops[..n - 1] + [ops[n - 1]];
    }
  }

  // Until its TXN_COMMIT frame is in the log, none of a transaction's entries is replayed;
  // with it, all of them are, after everything replayed before.
  lemma ReplayAllOrNothing(fs: seq<Frame>, begin: Frame, ops: seq<Frame>, commit: Frame)
    requires Track(fs, |fs|) == NonePending
    requires begin.op == TXN_BEGIN && commit.op == TXN_COMMIT
    requires forall i :: 0 <= i < |ops| ==> !ops[i].Marker()
    ensures Delivered(fs + [begin] + ops) == Delivered(fs)
    ensures Delivered(fs + [begin] + ops + [commit]) == Delivered(fs) + ops
  {
    hide Track, NonMarkers, Delivered;
    OpenThroughout(fs, begin, ops, |ops|);
    OpenDelivers(fs, begin, ops);
    CommitDelivers(fs + [begin] + ops, commit);
    TransactionEntries(fs, begin, ops);
    RestDelivers(fs);
  }

  lemma OpenDelivers(fs: seq<Frame>, begin: Frame, ops: seq<Frame>)
    requires Track(fs, |fs|) == NonePending
    requires Track(fs + [begin] + ops, |fs| + 1 + |ops|) == PendingAt(|fs|)
    ensures Delivered(fs + [begin] + ops) == Delivered(fs)
  {
    hide Track, NonMarkers, Delivered;
    PendingCuts(fs + [begin] + ops, |fs|);
    RestDelivers(fs);
    assert (fs + [begin] + ops)[..|fs|] == fs;
  }

  lemma TransactionEntries(fs: seq<Frame>, begin: Frame, ops: seq<Frame>)
    requires begin.Marker() && NonMarkers(ops[..|ops|]) == ops[..|ops|]
    ensures NonMarkers(fs + [begin] + ops) == NonMarkers(fs) + ops
  {
    hide NonMarkers;
    NonMarkersSplit(fs + [begin], ops);
    NonMarkersSplit(fs, [begin]);
    MarkerDropped(begin);
    assert ops[..|ops|] == ops && NonMarkers(fs) + [] == NonMarkers(fs);
  }

  lemma RestDelivers(fs: seq<Frame>)
    requires Track(fs, |fs|) == NonePending
    ensures Delivered(fs) == NonMarkers(fs)
  {
    hide Track, NonMarkers;
  }

  lemma PendingCuts(fs: seq<Frame>, i: nat)
    requires Track(fs, |fs|) == PendingAt(i) && i <= |fs|
    ensures Delivered(fs) == NonMarkers(fs[..i])
  {
  }

  lemma MarkerDropped(f: Frame)
    requires f.Marker()
    ensures NonMarkers([f]) == []
  {
    assert [f][..0] == [];
  }

  lemma CommitDelivers(fs: seq<Frame>, commit: Frame)
    requires commit.op == TXN_COMMIT
    ensures Delivered(fs + [commit]) == NonMarkers(fs)
  {
    assert (fs + [commit])[..|fs|] == fs;
  }
}

// The open log file and the loops over it.
module WalFile {
  import opened Bytes
  import opened Crc
  import opened Options
  import opened WalFormat

  datatype OpenResult = Opened(log: LogFile) | Refused

  class LogFile {
    var data: seq<byte>
    var pos: nat

    constructor (content: seq<byte>, at: nat)
      ensures data == content && pos == at
    {
      data, pos := content, at;
    }

    // Read the frame at pos, checking its length rule and its checksum, the payload in
    // 4096-byte chunks. On success pos is just past the frame.
    method CheckFrame() returns (ok: bool, op: byte)
      requires pos < |data|
      modifies this`pos
      ensures pos <= |data|
      ensures ok <==> ParseAt(data, old(pos)).Found?
      ensures ok ==> pos == ParseAt(data, old(pos)).entry.end && op == ParseAt(data, old(pos)).entry.frame.op
    {
      hide Stored, Feed, FromLE, LE;
      op := 0;
      if |data| - pos < HEAD { return false, 0; }
      var start := pos;
      var len := FromLE(data[pos..pos + 4]);
      op := data[pos + 4];
      var ts := data[pos + 5..pos + HEAD];
      pos := pos + HEAD;
      if !FrameLenOk(op, len) { return false, op; }
      if |data| - pos < len + 4 { return false, op; }
      var c := Feed(SEED, Header(len, op, ts));
      ghost var body := pos;
      assert data[body..body] == [];
      FeedNothing(c);
      var left := len;
      while left > 0
        invariant left <= len && pos == body + (len - left)
        invariant c == Feed(Feed(SEED, Header(len, op, ts)), data[body..pos])
      {
        var chunk := if left < 4096 then left else 4096;
        FeedSplit(Feed(SEED, Header(len, op, ts)), data[body..pos], data[pos..pos + chunk]);
        assert data[body..pos + chunk] == data[body..pos] + data[pos..pos + chunk];
        c := Feed(c, data[pos..pos + chunk]);
        pos := pos + chunk;
        left := left - chunk;
      }
      var stored := data[pos..pos + 4];
      pos := pos + 4;
      ok := stored == Stored(c);
    }

    // wal_scan_valid_end: where the last valid frame ends, and whether anything follows.
    method ScanValidEnd() returns (validEnd: nat, damaged: bool)
      requires |data| >= 8
      modifies this`pos
      ensures validEnd == EndOf(Scan(data, 8), 8)
      ensures damaged <==> validEnd != |data|
    {
      hide ParseAt;
      pos := 8;
      validEnd, damaged := 8, false;
      ghost var done: seq<Entry> := [];
      while pos < |data| && !damaged
        invariant 8 <= validEnd <= |data| && pos <= |data|
        invariant Scan(data, 8) == done + Scan(data, validEnd) && EndOf(done, 8) == validEnd
        invariant !damaged ==> pos == validEnd
        invariant damaged ==> validEnd < |data| && ParseAt(data, validEnd).Damaged?
        decreases |data| - validEnd, !damaged
      {
        var ok, _ := CheckFrame();
        if ok {
          ghost var e := ParseAt(data, validEnd).entry;
          Associate(done, [e], Scan(data, e.end));
          done := done + [e];
          validEnd := pos;
        } else {
          damaged := true;
        }
      }
      assert Scan(data, validEnd) == [];
    }

    // wal_stop_before_uncommitted: the offset replay must stop at, and the start of the
    // transaction left open, if any.
    method StopBeforeUncommitted() returns (stop: nat, begin: Option<nat>)
      requires |data| >= 8
      modifies this`pos
      ensures var es := Scan(data, 8);
              match Track(FramesOf(es), |es|)
              case PendingAt(i) => i < |es| && begin == Some(es[i].start) && stop == es[i].start
              case NonePending => begin == None && stop == EndOf(es, 8)
    {
      hide ParseAt, Scan, Track, EndOf, FramesOf;
      pos := 8;
      var validEnd := 8;
      begin := None;
      ghost var es := Scan(data, 8);
      ghost var n := 0;
      var more := true;
      assert es[..0] == [] && [] + es == es;
      EndOfNothing(8);
      TrackNone(FramesOf(es));
      while pos < |data| && more
        invariant 8 <= validEnd <= |data| && pos <= |data| && n <= |es|
        invariant es == es[..n] + Scan(data, validEnd) && EndOf(es[..n], 8) == validEnd
        invariant more ==> pos == validEnd
        invariant !more ==> validEnd < |data| && ParseAt(data, validEnd).Damaged?
        invariant match Track(FramesOf(es), n)
                  case PendingAt(i) => i < n && begin == Some(es[i].start)
                  case NonePending => begin == None
        decreases |data| - validEnd, more
      {
        ghost var start := validEnd;
        var frameStart := pos;
        var ok, op := CheckFrame();
        if ok {
          NextEntry(data, es, n, start);
          TrackNext(FramesOf(es), n);
          EntryGrows(data, es[n]);
          if op == TXN_BEGIN {
            begin := Some(frameStart);
          } else if op == TXN_COMMIT {
            begin := None;
          }
          validEnd := pos;
          n := n + 1;
        } else {
          more := false;
        }
      }
      NoMoreEntries(data, es, n, validEnd);
      stop := if begin.Some? then begin.value else validEnd;
    }

    // jinn_wal_uncommitted_begin: the undo image of the transaction left open.
    method UncommittedBegin() returns (image: Option<seq<byte>>)
      requires |data| >= 8
      modifies this`pos
      ensures pos == old(pos)
      ensures var fs := FramesOf(Scan(data, 8));
              match Track(fs, |fs|)
              case PendingAt(i) => i < |fs| && image == Some(fs[i].payload)
              case NonePending => image == None
    {
      hide ParseAt, Scan, Track, FromLE, FramesOf;
      var saved := pos;
      var _, begin := StopBeforeUncommitted();
      if begin.None? {
        pos := saved;
        return None;
      }
      var at := begin.value;
      ghost var es := Scan(data, 8);
      EntryParses(data, 8, Track(FramesOf(es), |es|).index);
      ParsedParts(data, es[Track(FramesOf(es), |es|).index]);
      var len := FromLE(data[at..at + 4]);
      image := Some(data[at + HEAD..at + HEAD + len]);
      pos := saved;
    }

    // One round of the replay loop: skip a marker, or check a payload and hand it over.
    method ReplayNext(ghost e: Entry) returns (ok: bool, frame: Option<Frame>)
      requires e.start < |data| && ParseAt(data, e.start) == Found(e) && pos == e.start
      modifies this`pos
      ensures ok && pos == e.end
      ensures frame == if e.frame.Marker() then None else Some(e.frame)
    {
      hide ParseAt, FromLE, Checksum;
      ParsedParts(data, e);
      frame := None;
      var len := FromLE(data[pos..pos + 4]);
      var op := data[pos + 4];
      var ts := data[pos + 5..pos + HEAD];
      pos := pos + HEAD;
      if !FrameLenOk(op, len) { return false, None; }
      if op == TXN_BEGIN || op == TXN_COMMIT {
        pos := pos + len + 4;
        return true, None;
      }
      if |data| - pos < len + 4 { return false, None; }
      var payload := data[pos..pos + len];
      pos := pos + len;
      var stored := data[pos..pos + 4];
      pos := pos + 4;
      if Checksum(len, op, ts, payload) != stored { return false, None; }
      return true, Some(Frame(op, ts, payload));
    }

    // jinn_wal_replay: deliver the payloads before the open transaction, skipping the
    // transaction markers, and report how many and whether the walk was complete.
    method Replay() returns (delivered: seq<Frame>, count: nat, complete: bool)
      requires |data| >= 8
      modifies this`pos
      ensures pos == old(pos)
      ensures delivered == Delivered(FramesOf(Scan(data, 8))) && count == |delivered| && complete
    {
      hide ParseAt, Scan, EndOf, Track, NonMarkers, FramesOf;
      complete := true;
      var saved := pos;
      var stop, _ := StopBeforeUncommitted();
      ghost var es := Scan(data, 8);
      ghost var fs := FramesOf(es);
      ghost var last := LastDelivered(fs);
      StopIsBoundary(data, last, stop);
      pos, delivered, count := 8, [], 0;
      ghost var n := 0;
      var going := true;
      EndOfNothing(8);
      assert es[..0] == [];
      DeliverNone(fs);
      while pos < stop && going
        invariant n <= last && pos == EndOf(es[..n], 8) && going
        invariant delivered == NonMarkers(fs[..n]) && count == |delivered|
        decreases last - n
      {
        BoundaryStep(data, n, last);
        EntryParses(data, 8, n);
        DeliverNext(fs, n);
        var ok, frame := ReplayNext(es[n]);
        if !ok {
          going := false;
        } else if frame.Some? {
          delivered := delivered + [frame.value];
          count := count + 1;
        }
        n := n + 1;
      }
      BoundaryEnd(data, n, last);
      if pos != stop { complete := false; }
      pos := saved;
    }

    // jinn_wal_write: append one frame at the end.
    method Write(op: byte, ts: seq<byte>, payload: seq<byte>)
      requires |ts| == 8 && |payload| < Range(4)
      modifies this
      ensures data == old(data) + Encode(Frame(op, ts, payload)) && pos == |data|
    {
      hide Checksum, LE;
      pos := |data|;
      var checksum := Checksum(|payload|, op, ts, payload);
      AppendParts(data, LE(|payload|, 4), [op], ts, payload, checksum);
      data := data + LE(|payload|, 4) + [op] + ts;
      if |payload| > 0 {
        data := data + payload;
      }
      data := data + checksum;
      pos := |data|;
    }

    // jinn_wal_checkpoint: outside a transaction, forget every frame.
    method Checkpoint(transactionActive: bool)
      requires |data| >= 8
      modifies this
      ensures data == if transactionActive then old(data) else old(data)[..8]
    {
      if transactionActive { return; }
      data := data[..8];
      pos := 8;
    }
  }

  // jinn_wal_open on a file that is absent, empty, a log, an old-format log or foreign.
  method Open(content: Option<seq<byte>>) returns (r: OpenResult)
    ensures content.None? || content.value == [] ==> r.Opened? && r.log.data == MAGIC && r.log.pos == 8
    ensures content.Some? && MAGIC <= content.value ==>
              r.Opened? && r.log.data == Reopened(content.value) && r.log.pos == |r.log.data|
    ensures content.Some? && MAGIC_V1 <= content.value ==> r.Opened? && r.log.data == MAGIC && r.log.pos == 8
    ensures content.Some? && content.value != [] && !(MAGIC <= content.value) && !(MAGIC_V1 <= content.value) ==>
              r.Refused?
    ensures r.Opened? ==> fresh(r.log)
  {
    hide Scan;
    assert MAGIC[7] == 0x32 && MAGIC_V1[7] == 0;
    if content.Some? {
      var file := content.value;
      if |file| >= 8 && file[..8] == MAGIC {
        var f := new LogFile(file, 8);
        var validEnd, damaged := f.ScanValidEnd();
        if damaged {
          f.data := f.data[..validEnd];
        }
        f.pos := validEnd;
        return Opened(f);
      }
      if |file| >= 8 && file[..8] == MAGIC_V1 {
        var f := new LogFile(MAGIC, 8);
        return Opened(f);
      }
      if |file| > 0 {
        return Refused;
      }
    }
    var f := new LogFile(MAGIC, 8);
    r := Opened(f);
  }

  lemma AppendParts(d: seq<byte>, a: seq<byte>, b: seq<byte>, c: seq<byte>, p: seq<byte>, s: seq<byte>)
    ensures d + a + b + c + p + s == d + (a + b + c + p + s)
    ensures p == [] ==> d + a + b + c + s == d + (a + b + c + p + s)
  {
  }

  lemma EndOfNothing(pos: nat)
    ensures EndOf([], pos) == pos
  {
  }

  // One more entry of the scan.
  lemma NextEntry(data: seq<byte>, es: seq<Entry>, n: nat, pos: nat)
    requires pos < |data| && n <= |es| && es == es[..n] + Scan(data, pos) && ParseAt(data, pos).Found?
    ensures var e := ParseAt(data, pos).entry;
            && n < |es| && es[n] == e && e.start == pos
            && es == es[..n + 1] + Scan(data, e.end) && EndOf(es[..n + 1], 8) == e.end
  {
    hide ParseAt;
    var e := ParseAt(data, pos).entry;
    assert Scan(data, pos) == [e] + Scan(data, e.end);
    assert es[n] == (es[..n] + ([e] + Scan(data, e.end)))[n];
    assert es[..n + 1] == es[..n] + [e];
    Associate(es[..n], [e], Scan(data, e.end));
  }

  lemma NoMoreEntries(data: seq<byte>, es: seq<Entry>, n: nat, pos: nat)
    requires pos <= |data| && n <= |es| && es == es[..n] + Scan(data, pos)
    requires pos == |data| || ParseAt(data, pos).Damaged?
    ensures n == |es| && es[..n] == es
  {
    hide ParseAt;
    assert Scan(data, pos) == [];
  }

  lemma DeliverNone(fs: seq<Frame>)
    ensures NonMarkers(fs[..0]) == []
  {
  }

  lemma DeliverNext(fs: seq<Frame>, n: nat)
    requires n < |fs|
    ensures NonMarkers(fs[..n + 1]) == if fs[n].Marker() then NonMarkers(fs[..n]) else NonMarkers(fs[..n]) + [fs[n]]
  {
    assert fs[..n + 1][..n] == fs[..n];
  }

  lemma TrackNone(fs: seq<Frame>)
    ensures Track(fs, 0) == NonePending
  {
  }

  lemma TrackNext(fs: seq<Frame>, n: nat)
    requires n < |fs|
    ensures Track(fs, n + 1) ==
              if fs[n].op == TXN_BEGIN then PendingAt(n)
              else if fs[n].op == TXN_COMMIT then NonePending
              else Track(fs, n)
  {
  }

  // How many leading frames replay walks over.
  ghost function LastDelivered(fs: seq<Frame>): (n: nat)
    ensures n <= |fs| && Delivered(fs) == NonMarkers(fs[..n])
    ensures match Track(fs, |fs|) case PendingAt(i) => n == i case NonePending => n == |fs|
  {
    TrackMeaning(fs, |fs|);
    assert fs[..|fs|] == fs;
    match Track(fs, |fs|)
    case NonePending => |fs|
    case PendingAt(i) => assert OpenBegin(fs[..|fs|], i); i
  }

  // The offset of the first frame replay must not touch is the end of the ones before it.
  lemma StopIsBoundary(data: seq<byte>, last: nat, stop: nat)
    requires |data| >= 8 && last <= |Scan(data, 8)|
    requires stop == if last < |Scan(data, 8)| then Scan(data, 8)[last].start else EndOf(Scan(data, 8), 8)
    ensures stop == EndOf(Scan(data, 8)[..last], 8)
  {
    hide Scan;
    var es := Scan(data, 8);
    assert es[..|es|] == es;
    if last < |es| { EntryFollows(data, 8, last); }
  }

  lemma BoundaryStep(data: seq<byte>, n: nat, last: nat)
    requires |data| >= 8 && n <= last <= |Scan(data, 8)|
    requires EndOf(Scan(data, 8)[..n], 8) < EndOf(Scan(data, 8)[..last], 8)
    ensures n < last && Scan(data, 8)[n].start == EndOf(Scan(data, 8)[..n], 8)
    ensures EndOf(Scan(data, 8)[..n + 1], 8) == Scan(data, 8)[n].end
  {
    hide Scan;
    EntryFollows(data, 8, n);
  }

  lemma {:induction false} BoundaryEnd(data: seq<byte>, n: nat, last: nat)
    requires |data| >= 8 && n <= last <= |Scan(data, 8)|
    ensures EndOf(Scan(data, 8)[..n], 8) <= EndOf(Scan(data, 8)[..last], 8)
    ensures EndOf(Scan(data, 8)[..n], 8) == EndOf(Scan(data, 8)[..last], 8) ==> n == last
    decreases last - n
  {
    hide Scan, ParseAt;
    if n < last {
      EntryFollows(data, 8, n);
      EntryParses(data, 8, n);
      EntryGrows(data, Scan(data, 8)[n]);
      BoundaryEnd(data, n + 1, last);
    }
  }

  lemma EntryGrows(data: seq<byte>, e: Entry)
    requires e.start < |data| && ParseAt(data, e.start) == Found(e)
    ensures e.start < e.end
  {
  }

  lemma ParsedParts(data: seq<byte>, e: Entry)
    requires e.start < |data| && ParseAt(data, e.start) == Found(e)
    ensures var len := |e.frame.payload|;
            && e.start + HEAD + len + 4 == e.end <= |data|
            && FromLE(data[e.start..e.start + 4]) == len && data[e.start + 4] == e.frame.op
            && data[e.start + 5..e.start + HEAD] == e.frame.ts
            && data[e.start + HEAD..e.start + HEAD + len] == e.frame.payload
            && data[e.end - 4..e.end] == Checksum(len, e.frame.op, e.frame.ts, e.frame.payload)
            && e.frame.LenOk()
  {
    hide Checksum, FromLE;
  }

  // Every scanned entry is what parsing at its start gives.
  lemma {:induction false} EntryParses(data: seq<byte>, pos: nat, i: nat)
    requires pos <= |data| && i < |Scan(data, pos)|
    ensures var e := Scan(data, pos)[i];
            e.start < |data| && ParseAt(data, e.start) == Found(e)
    decreases i
  {
    hide ParseAt;
    if i > 0 {
      EntryParses(data, ParseAt(data, pos).entry.end, i - 1);
    }
  }

  // Consecutive entries touch.
  lemma {:induction false} EntryFollows(data: seq<byte>, pos: nat, i: nat)
    requires pos <= |data| && i < |Scan(data, pos)|
    ensures Scan(data, pos)[i].start == if i == 0 then pos else Scan(data, pos)[i - 1].end
    decreases i
  {
    hide ParseAt;
    if i > 0 {
      EntryFollows(data, ParseAt(data, pos).entry.end, i - 1);
    }
  }
}
