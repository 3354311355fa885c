// Replaying the write-ahead log over a store file (runtime/recover.c).
module Recovery {
  import opened Bytes
  import opened Options
  import opened WalFormat
  import WalFile

  type Row = seq<byte>

  const STORE_MAGIC: seq<byte> := [0x4A, 0x41, 0x44, 0x45, 0x53, 0x54, 0x52, 0]
  const REC_HEADER := 40
  const OP_DELETE: byte := 3

  // Row size, where the row identity lives, and where the deletion stamp lives if any.
  datatype Shape = Shape(size: nat, sid: nat, del: Option<nat>) {
    predicate Valid() {
      8 <= size < Range(8) / 2 && sid <= size - 8 && (del.Some? ==> del.value <= size - 8)
    }
  }

  function Sid(c: Shape, row: Row): seq<byte>
    requires c.Valid() && |row| == c.size
  {
    row[c.sid..c.sid + 8]
  }

  // The row image an entry carries: its payload, with a deletion stamped by the entry's
  // time unless it is stamped already. Payloads of another size carry none.
  function ImageOf(c: Shape, f: Frame): (r: Option<Row>)
    requires c.Valid() && |f.ts| == 8
    ensures r.Some? ==> |r.value| == c.size
  {
    if |f.payload| != c.size then None
    else if f.op == OP_DELETE && c.del.Some? && f.payload[c.del.value..c.del.value + 8] == LE(0, 8) then
      Some(f.payload[..c.del.value] + f.ts + f.payload[c.del.value + 8..])
    else Some(f.payload)
  }

  // row is what entry f writes: its payload, and in the deletion field, if f is a delete and
  // the payload's own stamp is zero, the entry's time.
  ghost predicate Imprint(c: Shape, f: Frame, row: Row) {
    && |row| == |f.payload| == c.size && |f.ts| == 8
    && forall i :: 0 <= i < c.size ==>
         row[i] == if StampsAt(c, f, i) then f.ts[i - c.del.value] else f.payload[i]
  }

  ghost predicate StampsAt(c: Shape, f: Frame, i: int) {
    && f.op == 3 && c.del.Some? && c.del.value <= i < c.del.value + 8 <= |f.payload|
    && forall j :: c.del.value <= j < c.del.value + 8 ==> f.payload[j] == 0
  }

  // The two rows carry the same identity, byte by byte.
  ghost predicate SameSid(c: Shape, a: Row, b: Row) {
    |a| == |b| == c.size && c.sid + 8 <= c.size && a[c.sid..c.sid + 8] == b[c.sid..c.sid + 8]
  }

  lemma {:induction false} ZeroBytes(n: nat)
    ensures forall j :: 0 <= j < n ==> LE(0, n)[j] == 0
  {
    if n > 0 {
      ZeroBytes(n - 1);
      assert LE(0, n)[1..] == LE(0, n - 1);
    }
  }

  // Exactly the payloads of the row size carry an image, and it is the entry's imprint.
  lemma ImageMeaning(c: Shape, f: Frame)
    requires c.Valid() && |f.ts| == 8
    ensures ImageOf(c, f).Some? <==> |f.payload| == c.size
    ensures ImageOf(c, f).Some? ==> Imprint(c, f, ImageOf(c, f).value)
  {
    hide LE;
    ZeroBytes(8);
    if |f.payload| == c.size && c.del.Some? {
      var d := c.del.value;
      var stamp := f.payload[d..d + 8];
      assert stamp == LE(0, 8) <==> forall j :: d <= j < d + 8 ==> f.payload[j] == 0 by {
        assert forall j :: d <= j < d + 8 ==> f.payload[j] == stamp[j - d];
        assert forall j :: 0 <= j < 8 ==> stamp[j] == f.payload[d + j];
      }
    }
  }

  // When the two fields do not overlap the stamp leaves the identity alone.
  lemma ImprintSid(c: Shape, f: Frame, row: Row)
    requires c.Valid() && Imprint(c, f, row)
    requires c.del.Some? ==> c.del.value + 8 <= c.sid || c.sid + 8 <= c.del.value
    ensures SameSid(c, row, f.payload)
  {
  }

  ghost predicate AllSized(c: Shape, rows: seq<Row>) {
    forall i :: 0 <= i < |rows| ==> |rows[i]| == c.size
  }

  ghost predicate Stamped(fs: seq<Frame>) {
    forall i :: 0 <= i < |fs| ==> |fs[i].ts| == 8
  }

  // The first row with the given identity, or the number of rows.
  function IndexOf(c: Shape, rows: seq<Row>, sid: seq<byte>): (i: nat)
    requires c.Valid() && AllSized(c, rows)
    ensures i <= |rows| && (i < |rows| ==> Sid(c, rows[i]) == sid)
    ensures forall k :: 0 <= k < i ==> Sid(c, rows[k]) != sid
    decreases |rows|
  {
    if |rows| == 0 || Sid(c, rows[0]) == sid then 0 else 1 + IndexOf(c, rows[1..], sid)
  }

  function Upsert(c: Shape, rows: seq<Row>, row: Row): (r: seq<Row>)
    requires c.Valid() && AllSized(c, rows) && |row| == c.size
    ensures AllSized(c, r)
  {
    var i := IndexOf(c, rows, Sid(c, row));
    if i < |rows| then rows[i := row] else rows + [row]
  }

  // Entry f is written over the first row of its identity, or appended if there is none.
  ghost predicate StoredAt(c: Shape, before: seq<Row>, after: seq<Row>, f: Frame, i: nat) {
    && i < |after| && Imprint(c, f, after[i])
    && (forall k :: 0 <= k < i ==> !SameSid(c, after[k], after[i]))
    && if i < |before| then SameSid(c, before[i], after[i]) && after == before[i := after[i]]
       else i == |before| && after == before + [after[i]]
  }

  lemma UpsertMeaning(c: Shape, rows: seq<Row>, f: Frame)
    requires c.Valid() && AllSized(c, rows) && |f.ts| == 8 && |f.payload| == c.size
    ensures ImageOf(c, f).Some?
    ensures exists i: nat :: StoredAt(c, rows, Upsert(c, rows, ImageOf(c, f).value), f, i)
  {
    ImageMeaning(c, f);
    hide ImageOf, Imprint;
    var row := ImageOf(c, f).value;
    var i := IndexOf(c, rows, Sid(c, row));
    var r := Upsert(c, rows, row);
    assert r[i] == row && forall k :: 0 <= k < i ==> r[k] == rows[k] && Sid(c, r[k]) != Sid(c, row);
    assert StoredAt(c, rows, r, f, i);
  }

  function Replay(c: Shape, rows: seq<Row>, images: seq<Row>): (r: seq<Row>)
    requires c.Valid() && AllSized(c, rows) && AllSized(c, images)
    ensures AllSized(c, r) && |r| >= |rows|
    decreases |images|
  {
    if |images| == 0 then rows
    else Upsert(c, Replay(c, rows, images[..|images| - 1]), images[|images| - 1])
  }

  // Images of the entries that have one, in order.
  function Images(c: Shape, fs: seq<Frame>): (r: seq<Row>)
    requires c.Valid() && Stamped(fs)
    ensures AllSized(c, r)
    decreases |fs|
  {
    if |fs| == 0 then []
    else
      var rest := Images(c, fs[..|fs| - 1]);
      match ImageOf(c, fs[|fs| - 1])
      case None => rest
      case Some(row) => rest + [row]
  }

  function Skipped(c: Shape, fs: seq<Frame>): nat
    requires c.Valid() && Stamped(fs)
    decreases |fs|
  {
    if |fs| == 0 then 0
    else Skipped(c, fs[..|fs| - 1]) + if ImageOf(c, fs[|fs| - 1]).None? then 1 else 0
  }

  // ----- a log replayed over a store that already holds part of it -----

  ghost function LastImage(c: Shape, images: seq<Row>, sid: seq<byte>): (r: Option<Row>)
    requires c.Valid() && AllSized(c, images)
    ensures r.Some? ==> |r.value| == c.size && Sid(c, r.value) == sid
    decreases |images|
  {
    if |images| == 0 then None
    else if Sid(c, images[|images| - 1]) == sid then Some(images[|images| - 1])
    else LastImage(c, images[..|images| - 1], sid)
  }

  lemma {:induction false} ReplaySplit(c: Shape, rows: seq<Row>, a: seq<Row>, b: seq<Row>)
    requires c.Valid() && AllSized(c, rows) && AllSized(c, a) && AllSized(c, b)
    ensures AllSized(c, a + b) && Replay(c, rows, a + b) == Replay(c, Replay(c, rows, a), b)
    decreases |b|
  {
    if |b| == 0 {
      assert a + b == a;
    } else {
      assert (a + b)[..|a + b| - 1] == a + b[..|b| - 1];
      ReplaySplit(c, rows, a, b[..|b| - 1]);
    }
  }

  // Upserting leaves every identity where it was.
  lemma UpsertKeepsPlaces(c: Shape, rows: seq<Row>, row: Row, sid: seq<byte>)
    requires c.Valid() && AllSized(c, rows) && |row| == c.size
    ensures IndexOf(c, rows, sid) < |rows| ==> IndexOf(c, Upsert(c, rows, row), sid) == IndexOf(c, rows, sid)
    ensures IndexOf(c, Upsert(c, rows, row), Sid(c, row)) < |Upsert(c, rows, row)|
    ensures Upsert(c, rows, row)[IndexOf(c, Upsert(c, rows, row), Sid(c, row))] == row
  {
    var r := Upsert(c, rows, row);
    var i := IndexOf(c, rows, Sid(c, row));
    assert forall k :: 0 <= k < |rows| ==> Sid(c, r[k]) == Sid(c, rows[k]);
    assert Sid(c, r[i]) == Sid(c, row);
  }

  // Every identity in the log ends at its last image; rows of other identities stay.
  lemma {:induction false} LastImageWins(c: Shape, rows: seq<Row>, images: seq<Row>, sid: seq<byte>)
    requires c.Valid() && AllSized(c, rows) && AllSized(c, images)
    ensures var r := Replay(c, rows, images);
            var i := IndexOf(c, r, sid);
            match LastImage(c, images, sid)
            case Some(row) => i < |r| && r[i] == row
            case None => i < |r| ==> i == IndexOf(c, rows, sid) && i < |rows| && r[i] == rows[i]
    decreases |images|
  {
    if |images| > 0 {
      var n := |images| - 1;
      LastImageWins(c, rows, images[..n], sid);
      var before := Replay(c, rows, images[..n]);
      UpsertKeepsPlaces(c, before, images[n], sid);
      if Sid(c, images[n]) != sid { OnlyOneMoves(c, before, images[n], sid); }
    }
  }

  lemma OnlyOneMoves(c: Shape, rows: seq<Row>, row: Row, sid: seq<byte>)
    requires c.Valid() && AllSized(c, rows) && |row| == c.size && Sid(c, row) != sid
    ensures var r := Upsert(c, rows, row);
            var i := IndexOf(c, r, sid);
            i < |r| ==> i < |rows| && i == IndexOf(c, rows, sid) && r[i] == rows[i]
  {
    UpsertKeepsPlaces(c, rows, row, sid);
    var r := Upsert(c, rows, row);
    var i := IndexOf(c, r, sid);
    if i < |rows| {
      var j := IndexOf(c, rows, Sid(c, row));
      assert forall k :: 0 <= k < |rows| ==> Sid(c, r[k]) == Sid(c, rows[k]);
    }
  }

  // Replaying images whose identities are all present changes values in place only, and
  // only at the first row of an identity in the log.
  lemma {:induction false} ReplayInPlace(c: Shape, rows: seq<Row>, images: seq<Row>, i: nat)
    requires c.Valid() && AllSized(c, rows) && AllSized(c, images)
    requires forall k :: 0 <= k < |images| ==> IndexOf(c, rows, Sid(c, images[k])) < |rows|
    requires i < |rows|
    ensures var r := Replay(c, rows, images);
            && |r| == |rows| && Sid(c, r[i]) == Sid(c, rows[i])
            && r[i] == if IndexOf(c, rows, Sid(c, rows[i])) == i && LastImage(c, images, Sid(c, rows[i])).Some?
                       then LastImage(c, images, Sid(c, rows[i])).value else rows[i]
    decreases |images|
  {
    if |images| > 0 {
      var n := |images| - 1;
      forall k | 0 <= k < n ensures IndexOf(c, rows, Sid(c, images[..n][k])) < |rows| {
        assert images[..n][k] == images[k];
      }
      var before := Replay(c, rows, images[..n]);
      forall k | 0 <= k < |rows| ensures |before| == |rows| && Sid(c, before[k]) == Sid(c, rows[k]) {
        ReplayInPlace(c, rows, images[..n], k);
      }
      ReplayInPlace(c, rows, images[..n], i);
      SamePlaces(c, before, rows, Sid(c, images[n]));
    }
  }

  lemma SamePlaces(c: Shape, a: seq<Row>, b: seq<Row>, sid: seq<byte>)
    requires c.Valid() && AllSized(c, a) && AllSized(c, b) && |a| == |b|
    requires forall k :: 0 <= k < |a| ==> Sid(c, a[k]) == Sid(c, b[k])
    ensures IndexOf(c, a, sid) == IndexOf(c, b, sid)
  {
  }

  lemma {:induction false} AllPresent(c: Shape, rows: seq<Row>, images: seq<Row>, k: nat)
    requires c.Valid() && AllSized(c, rows) && AllSized(c, images) && k < |images|
    ensures var r := Replay(c, rows, images); IndexOf(c, r, Sid(c, images[k])) < |r|
    decreases |images|
  {
    LastImageWins(c, rows, images, Sid(c, images[k]));
    LastImageExists(c, images, k);
  }

  lemma {:induction false} LastImageExists(c: Shape, images: seq<Row>, k: nat)
    requires c.Valid() && AllSized(c, images) && k < |images|
    ensures LastImage(c, images, Sid(c, images[k])).Some?
    decreases |images|
  {
    if k < |images| - 1 { LastImageExists(c, images[..|images| - 1], k); }
  }

  lemma ReplayTwice(c: Shape, rows: seq<Row>, images: seq<Row>)
    requires c.Valid() && AllSized(c, rows) && AllSized(c, images)
    ensures Replay(c, Replay(c, rows, images), images) == Replay(c, rows, images)
  {
    var r := Replay(c, rows, images);
    forall k | 0 <= k < |images| ensures IndexOf(c, r, Sid(c, images[k])) < |r| {
      AllPresent(c, rows, images, k);
    }
    forall i | 0 <= i < |r| ensures |Replay(c, r, images)| == |r| && Replay(c, r, images)[i] == r[i] {
      ReplayInPlace(c, r, images, i);
      LastImageWins(c, rows, images, Sid(c, r[i]));
    }
    if |images| > 0 { AllPresent(c, rows, images, 0); }
  }

  // A store that already holds the effects of any prefix of the log ends with the same
  // rows in the same order as one that holds none.
  lemma PrefixAbsorbed(c: Shape, rows: seq<Row>, images: seq<Row>, k: nat)
    requires c.Valid() && AllSized(c, rows) && AllSized(c, images) && k <= |images|
    ensures Replay(c, Replay(c, rows, images[..k]), images) == Replay(c, rows, images)
  {
    hide Replay;
    var a, b := images[..k], images[k..];
    assert a + b == images;
    ReplaySplit(c, rows, a, b);
    ReplaySplit(c, Replay(c, rows, a), a, b);
    ReplayTwice(c, rows, a);
  }

  // ----- the store file -----

  function Header(count: nat, size: nat, fingerprint: seq<byte>, version: seq<byte>): seq<byte> {
    STORE_MAGIC + LE(count, 8) + LE(size, 8) + fingerprint + version
  }

  function Concat(rows: seq<Row>): seq<byte> {
    if |rows| == 0 then [] else rows[0] + Concat(rows[1..])
  }

  // recover_fill
  function Fill(c: Shape, rows: seq<Row>, fingerprint: seq<byte>, version: seq<byte>): seq<byte> {
    Header(|rows|, c.size, fingerprint, version) + Concat(rows)
  }

  // count rows of the given size at the front of a file body.
  function RowsIn(c: Shape, body: seq<byte>, count: nat): (r: seq<Row>)
    requires c.Valid() && count * c.size <= |body|
    ensures |r| == count && AllSized(c, r)
    decreases count
  {
    if count == 0 then []
    else
      assert count * c.size == c.size + (count - 1) * c.size;
      [body[..c.size]] + RowsIn(c, body[c.size..], count - 1)
  }

  // A signed machine word.
  function Int64(b: seq<byte>): int
    requires |b| == 8
  {
    if FromLE(b) < Range(8) / 2 then FromLE(b) else FromLE(b) - Range(8)
  }

  lemma CountFits(count: nat, size: nat, room: nat)
    requires size > 0 && count <= room / size
    ensures count * size <= room
  {
    assert room / size * size <= room;
    assert count * size <= room / size * size;
  }

  // What replay starts from, or why it does not start.
  datatype Start =
    | Refuse
    | Leave
    | Abort
    | From(rows: seq<Row>, fingerprint: seq<byte>, version: seq<byte>, force: bool)

  function StartOf(c: Shape, store: seq<byte>, undo: Option<seq<byte>>): (r: Start)
    requires c.Valid()
    ensures r.From? ==> AllSized(c, r.rows) && |r.fingerprint| == 8 && |r.version| == 8
  {
    if |store| < REC_HEADER || Int64(store[8..16]) < 0 then Refuse
    else if Int64(store[16..24]) != 0 && Int64(store[16..24]) != c.size then Leave
    else match undo
      case None =>
        var count := Int64(store[8..16]);
        if count > (|store| - REC_HEADER) / c.size then Refuse
        else
          CountFits(count, c.size, |store| - REC_HEADER);
          From(RowsIn(c, store[REC_HEADER..], count), store[24..32], store[32..40], false)
      case Some(u) =>
        if |u| < REC_HEADER || u[..8] != STORE_MAGIC then Abort
        else
          var count := Int64(u[8..16]);
          if count < 0 || (Int64(u[16..24]) != c.size && count != 0) || count > (|u| - REC_HEADER) / c.size then Abort
          else
            CountFits(count, c.size, |u| - REC_HEADER);
            From(RowsIn(c, u[REC_HEADER..], count), u[24..32], u[32..40], true)
  }

  datatype Outcome = Failed | Stopped | Kept | Done(store: seq<byte>)

  // How many entries altered the rows.
  function Changes(c: Shape, rows: seq<Row>, images: seq<Row>): nat
    requires c.Valid() && AllSized(c, rows) && AllSized(c, images)
    decreases |images|
  {
    if |images| == 0 then 0
    else
      var n := |images| - 1;
      Changes(c, rows, images[..n]) + if Replay(c, rows, images) == Replay(c, rows, images[..n]) then 0 else 1
  }

  // jinn_store_recover on the entries the log delivers and the undo image it holds.
  function Result(c: Shape, store: seq<byte>, fs: seq<Frame>, undo: Option<seq<byte>>): Outcome
    requires c.Valid() && Stamped(fs)
  {
    match StartOf(c, store, undo)
    case Refuse => Failed
    case Leave => Kept
    case Abort => Stopped
    case From(rows, fingerprint, version, force) =>
      if Skipped(c, fs) > 0 then Failed
      else if Changes(c, rows, Images(c, fs)) > 0 || force then
        Done(Fill(c, Replay(c, rows, Images(c, fs)), fingerprint, version))
      else Done(store)
  }

  lemma {:induction false} RowsRoundTrip(c: Shape, rows: seq<Row>)
    requires c.Valid() && AllSized(c, rows)
    ensures |Concat(rows)| == |rows| * c.size && RowsIn(c, Concat(rows), |rows|) == rows
    decreases |rows|
  {
    if |rows| > 0 {
      RowsRoundTrip(c, rows[1..]);
      assert |rows| * c.size == c.size + (|rows| - 1) * c.size;
      assert Concat(rows)[..c.size] == rows[0] && Concat(rows)[c.size..] == Concat(rows[1..]);
    }
  }

  lemma SignedRoundTrip(n: nat)
    requires n < Range(8) / 2
    ensures Int64(LE(n, 8)) == n
  {
    WordRoundTrip(n, 8);
  }

  lemma HeaderParts(c: Shape, rows: seq<Row>, fingerprint: seq<byte>, version: seq<byte>)
    requires |fingerprint| == 8 && |version| == 8
    ensures var f := Fill(c, rows, fingerprint, version);
            && |f| >= REC_HEADER && f[..8] == STORE_MAGIC && f[8..16] == LE(|rows|, 8) && f[16..24] == LE(c.size, 8)
            && f[24..32] == fingerprint && f[32..40] == version && f[REC_HEADER..] == Concat(rows)
  {
    hide LE, Concat;
  }

  lemma RoomFor(count: nat, size: nat)
    requires size > 0
    ensures count <= count * size / size
  {
    var q := count * size / size;
    assert count * size < (q + 1) * size;
    if q < count { NoLess(q + 1, count, size); }
  }

  lemma NoLess(a: nat, b: nat, size: nat)
    requires a <= b
    ensures a * size <= b * size
  {
  }

  // A rewritten store reads back as the rows written to it.
  lemma FillReadsBack(c: Shape, rows: seq<Row>, fingerprint: seq<byte>, version: seq<byte>)
    requires c.Valid() && AllSized(c, rows) && |rows| < Range(8) / 2
    requires |fingerprint| == 8 && |version| == 8
    ensures StartOf(c, Fill(c, rows, fingerprint, version), None) == From(rows, fingerprint, version, false)
  {
    hide LE, Concat, Int64, Fill, Range;
    HeaderParts(c, rows, fingerprint, version);
    SignedRoundTrip(|rows|);
    SignedRoundTrip(c.size);
    RowsRoundTrip(c, rows);
    RoomFor(|rows|, c.size);
  }

  // ----- what the entries of a log leave in the store -----

  lemma {:induction false} SkippedMeaning(c: Shape, fs: seq<Frame>)
    requires c.Valid() && Stamped(fs)
    ensures Skipped(c, fs) == 0 <==> forall k :: 0 <= k < |fs| ==> |fs[k].payload| == c.size
    decreases |fs|
  {
    hide ImageOf;
    if |fs| > 0 {
      var n := |fs| - 1;
      SkippedMeaning(c, fs[..n]);
      ImageMeaning(c, fs[n]);
      assert forall k :: 0 <= k < n ==> fs[..n][k] == fs[k];
    }
  }

  // The last entry of a row is what the row ends as: of several entries with one identity
  // the others leave no trace.
  ghost predicate LastOfRow(c: Shape, fs: seq<Frame>, k: nat) {
    && k < |fs| && |fs[k].payload| == c.size
    && forall l :: k < l < |fs| ==> !SameSid(c, fs[l].payload, fs[k].payload)
  }

  ghost predicate Apart(c: Shape) {
    c.del.Some? ==> c.del.value + 8 <= c.sid || c.sid + 8 <= c.del.value
  }

  // Row i is the first of its identity and bears entry f's imprint.
  ghost predicate Bears(c: Shape, rows: seq<Row>, f: Frame, i: nat) {
    i < |rows| && Imprint(c, f, rows[i]) && forall j :: 0 <= j < i ==> !SameSid(c, rows[j], rows[i])
  }

  lemma {:induction false} LastEntryStays(c: Shape, rows: seq<Row>, fs: seq<Frame>, k: nat)
    requires c.Valid() && Apart(c) && AllSized(c, rows) && Stamped(fs) && LastOfRow(c, fs, k)
    ensures exists i: nat :: Bears(c, Replay(c, rows, Images(c, fs)), fs[k], i)
    decreases |fs|
  {
    hide ImageOf, Imprint;
    var n := |fs| - 1;
    var before := Replay(c, rows, Images(c, fs[..n]));
    ImageMeaning(c, fs[n]);
    ReplayMore(c, rows, fs);
    if k == n {
      UpsertMeaning(c, before, fs[n]);
      var i: nat :| StoredAt(c, before, Replay(c, rows, Images(c, fs)), fs[n], i);
      assert Bears(c, Replay(c, rows, Images(c, fs)), fs[k], i);
    } else {
      assert fs[..n][k] == fs[k] && forall l :: 0 <= l < n ==> fs[..n][l] == fs[l];
      LastEntryStays(c, rows, fs[..n], k);
      var i: nat :| Bears(c, before, fs[k], i);
      if ImageOf(c, fs[n]).Some? {
        ImprintSid(c, fs[n], ImageOf(c, fs[n]).value);
        ImprintSid(c, fs[k], before[i]);
        BearsOn(c, before, ImageOf(c, fs[n]).value, fs[k], i);
      }
    }
  }

  // Every row bears the imprint of its last entry.
  ghost predicate AllBorne(c: Shape, rows: seq<Row>, fs: seq<Frame>) {
    forall k: nat :: LastOfRow(c, fs, k) ==> exists i: nat :: Bears(c, rows, fs[k], i)
  }

  lemma LastEntriesStay(c: Shape, rows: seq<Row>, fs: seq<Frame>)
    requires c.Valid() && Apart(c) && AllSized(c, rows) && Stamped(fs)
    ensures AllBorne(c, Replay(c, rows, Images(c, fs)), fs)
  {
    hide Bears, Replay, Images;
    forall k: nat | LastOfRow(c, fs, k) ensures exists i: nat :: Bears(c, Replay(c, rows, Images(c, fs)), fs[k], i) {
      LastEntryStays(c, rows, fs, k);
    }
  }

  lemma ReplayMore(c: Shape, rows: seq<Row>, fs: seq<Frame>)
    requires c.Valid() && AllSized(c, rows) && Stamped(fs) && |fs| > 0
    ensures var n := |fs| - 1;
            var before, after := Replay(c, rows, Images(c, fs[..n])), Replay(c, rows, Images(c, fs));
            var image := ImageOf(c, fs[n]);
            && after == (if image.Some? then Upsert(c, before, image.value) else before)
            && Skipped(c, fs) == Skipped(c, fs[..n]) + (if image.None? then 1 else 0)
            && Changes(c, rows, Images(c, fs))
               == Changes(c, rows, Images(c, fs[..n])) + (if image.None? || after == before then 0 else 1)
  {
    hide ImageOf, Upsert;
    var n := |fs| - 1;
    var images := Images(c, fs[..n]);
    if ImageOf(c, fs[n]).Some? { assert (images + [ImageOf(c, fs[n]).value])[..|images|] == images; }
  }

  lemma NothingReplayed(c: Shape, rows: seq<Row>)
    requires c.Valid() && AllSized(c, rows)
    ensures Images(c, []) == [] && Replay(c, rows, []) == rows && Skipped(c, []) == 0 && Changes(c, rows, []) == 0
  {
  }

  lemma BearsOn(c: Shape, rows: seq<Row>, row: Row, f: Frame, i: nat)
    requires c.Valid() && AllSized(c, rows) && |row| == c.size && Bears(c, rows, f, i) && !SameSid(c, row, rows[i])
    ensures Bears(c, Upsert(c, rows, row), f, i)
  {
    hide Imprint;
    var r := Upsert(c, rows, row);
    assert r[i] == rows[i];
    assert forall j :: 0 <= j < i ==> Sid(c, r[j]) == Sid(c, rows[j]);
  }

  lemma {:induction false} NoChange(c: Shape, rows: seq<Row>, images: seq<Row>)
    requires c.Valid() && AllSized(c, rows) && AllSized(c, images) && Changes(c, rows, images) == 0
    ensures Replay(c, rows, images) == rows
    decreases |images|
  {
    if |images| > 0 { NoChange(c, rows, images[..|images| - 1]); }
  }

  // Rewritten or left alone: when recovery succeeds the store reads back as the rows it
  // started from, those of the undo image if there is one, with all entries replayed.
  lemma RecoveredStoreReads(c: Shape, store: seq<byte>, fs: seq<Frame>, undo: Option<seq<byte>>)
    requires c.Valid() && Stamped(fs) && Result(c, store, fs, undo).Done?
    requires StartOf(c, store, undo).From? ==>
               |Replay(c, StartOf(c, store, undo).rows, Images(c, fs))| < Range(8) / 2
    ensures var start := StartOf(c, store, undo);
            && start.From?
            && StartOf(c, Result(c, store, fs, undo).store, None)
               == From(Replay(c, start.rows, Images(c, fs)), start.fingerprint, start.version, false)
  {
    hide LE, Concat, Int64, Fill, Range, Replay, Images, Skipped;
    var start := StartOf(c, store, undo);
    var rows := Replay(c, start.rows, Images(c, fs));
    if Changes(c, start.rows, Images(c, fs)) > 0 || start.force {
      FillReadsBack(c, rows, start.fingerprint, start.version);
    } else {
      NoChange(c, start.rows, Images(c, fs));
    }
  }

  // So every row ends as the last entry written for it: a delete entry that was logged
  // without a stamp leaves the row stamped with the entry's time.
  lemma RecoveredEntries(c: Shape, store: seq<byte>, fs: seq<Frame>, undo: Option<seq<byte>>, k: nat)
    requires c.Valid() && Apart(c) && Stamped(fs) && Result(c, store, fs, undo).Done? && LastOfRow(c, fs, k)
    requires StartOf(c, store, undo).From? ==>
               |Replay(c, StartOf(c, store, undo).rows, Images(c, fs))| < Range(8) / 2
    ensures StartOf(c, Result(c, store, fs, undo).store, None).From?
    ensures exists i: nat :: Bears(c, StartOf(c, Result(c, store, fs, undo).store, None).rows, fs[k], i)
  {
    hide LE, Range, Replay, Images, Result, StartOf, Bears;
    RecoveredStoreReads(c, store, fs, undo);
    LastEntryStays(c, StartOf(c, store, undo).rows, fs, k);
  }

  // A well-formed undo image is always written back, with the entries logged before the
  // interrupted transaction replayed over it; without any the store becomes that image.
  lemma UndoRestores(c: Shape, store: seq<byte>, fs: seq<Frame>, rows: seq<Row>,
                     fingerprint: seq<byte>, version: seq<byte>)
    requires c.Valid() && AllSized(c, rows) && |rows| < Range(8) / 2 && |fingerprint| == |version| == 8
    requires |store| >= REC_HEADER && Int64(store[8..16]) >= 0
    requires Int64(store[16..24]) == 0 || Int64(store[16..24]) == c.size
    requires Stamped(fs) && forall k :: 0 <= k < |fs| ==> |fs[k].payload| == c.size
    ensures Result(c, store, fs, Some(Fill(c, rows, fingerprint, version)))
         == Done(Fill(c, Replay(c, rows, Images(c, fs)), fingerprint, version))
    ensures fs == [] ==> Replay(c, rows, Images(c, fs)) == rows
  {
    hide LE, Concat, Int64, Range, Skipped, Changes;
    SkippedMeaning(c, fs);
    UndoAccepted(c, store, rows, fingerprint, version);
  }

  lemma UndoAccepted(c: Shape, store: seq<byte>, rows: seq<Row>, fingerprint: seq<byte>, version: seq<byte>)
    requires c.Valid() && AllSized(c, rows) && |rows| < Range(8) / 2 && |fingerprint| == |version| == 8
    requires |store| >= REC_HEADER && Int64(store[8..16]) >= 0
    requires Int64(store[16..24]) == 0 || Int64(store[16..24]) == c.size
    ensures StartOf(c, store, Some(Fill(c, rows, fingerprint, version))) == From(rows, fingerprint, version, true)
  {
    hide LE, Concat, Int64, Range, Fill;
    FillReadsBack(c, rows, fingerprint, version);
    HeaderParts(c, rows, fingerprint, version);
    SignedRoundTrip(|rows|);
    SignedRoundTrip(c.size);
    RowsRoundTrip(c, rows);
    RoomFor(|rows|, c.size);
  }

  // A crash between the store rewrite and the log checkpoint is harmless: running recovery
  // again on the rewritten store and the same log leaves the same store.
  lemma RecoveredTwice(c: Shape, store: seq<byte>, fs: seq<Frame>, undo: Option<seq<byte>>)
    requires c.Valid() && Stamped(fs) && Result(c, store, fs, undo).Done?
    requires StartOf(c, store, undo).From? ==>
               |Replay(c, StartOf(c, store, undo).rows, Images(c, fs))| < Range(8) / 2
    ensures Result(c, Result(c, store, fs, undo).store, fs, undo) == Result(c, store, fs, undo)
  {
    hide LE, Concat, Int64, Fill, Range, Replay, Changes, Images, Skipped;
    var first := Result(c, store, fs, undo).store;
    var start := StartOf(c, store, undo);
    var rows := Replay(c, start.rows, Images(c, fs));
    if first != store {
      assert first == Fill(c, rows, start.fingerprint, start.version);
      FillReadsBack(c, rows, start.fingerprint, start.version);
      ReplayTwice(c, start.rows, Images(c, fs));
      if undo.Some? { SameStart(c, store, first, undo.value); }
    }
  }

  lemma SameStart(c: Shape, store: seq<byte>, other: seq<byte>, undo: seq<byte>)
    requires c.Valid() && StartOf(c, store, Some(undo)).From? && StartOf(c, other, None).From?
    ensures StartOf(c, other, Some(undo)) == StartOf(c, store, Some(undo))
  {
  }

  // ----- the replay callback and the loops around it -----

  class Buffer {
    const c: Shape
    var rows: array<Row>
    var count: nat
    var changed: nat
    var skipped: nat

    ghost predicate Valid()
      reads this, rows
    {
      && c.Valid() && count <= rows.Length
      && forall i :: 0 <= i < count ==> |rows[i]| == c.size
    }

    ghost function Contents(): (s: seq<Row>)
      requires Valid()
      reads this, rows
      ensures AllSized(c, s)
    {
      rows[..count]
    }

    constructor (shape: Shape, start: seq<Row>)
      requires shape.Valid() && AllSized(shape, start)
      ensures Valid() && c == shape && fresh(rows) && Contents() == start && changed == 0 && skipped == 0
    {
      c := shape;
      rows := new Row[|start|](i requires 0 <= i < |start| => start[i]);
      count, changed, skipped := |start|, 0, 0;
    }

    // recover_cb: overwrite the first row with the image's identity, or append it.
    method Callback(f: Frame)
      requires Valid() && |f.ts| == 8
      modifies this`rows, this`count, this`changed, this`skipped, rows
      ensures Valid() && (rows == old(rows) || fresh(rows))
      ensures match ImageOf(c, f)
              case None => Contents() == old(Contents()) && changed == old(changed) && skipped == old(skipped) + 1
              case Some(row) =>
                && Contents() == Upsert(c, old(Contents()), row) && skipped == old(skipped)
                && changed == old(changed) + if Contents() == old(Contents()) then 0 else 1
      ensures |f.payload| != c.size ==> Contents() == old(Contents()) && skipped == old(skipped) + 1
      ensures |f.payload| == c.size ==>
                skipped == old(skipped) && exists i: nat :: StoredAt(c, old(Contents()), Contents(), f, i)
    {
      hide LE, Upsert, StoredAt;
      if |f.payload| == c.size { UpsertMeaning(c, Contents(), f); }
      if |f.payload| != c.size {
        skipped := skipped + 1;
        return;
      }
      var img := f.payload;
      if f.op == OP_DELETE && c.del.Some? {
        if img[c.del.value..c.del.value + 8] == LE(0, 8) {
          img := img[..c.del.value] + f.ts + img[c.del.value + 8..];
        }
      }
      Store(img);
    }

    method Store(img: Row)
      requires Valid() && |img| == c.size
      modifies this`rows, this`count, this`changed, rows
      ensures Valid() && (rows == old(rows) || fresh(rows)) && Contents() == Upsert(c, old(Contents()), img)
      ensures changed == old(changed) + if Contents() == old(Contents()) then 0 else 1
    {
      ghost var before := Contents();
      var sid := Sid(c, img);
      var i := 0;
      while i < count
        invariant i <= count
        invariant forall k :: 0 <= k < i ==> Sid(c, rows[k]) != sid
      {
        if Sid(c, rows[i]) == sid {
          FoundAt(c, before, sid, i);
          if rows[i] != img {
            rows[i] := img;
            changed := changed + 1;
            assert Contents() == before[i := img];
          } else {
            assert before[i := img] == before;
          }
          return;
        }
        i := i + 1;
      }
      FoundAt(c, before, sid, |before|);
      Append(img);
    }

    method Append(img: Row)
      requires Valid() && |img| == c.size
      modifies this`rows, this`count, this`changed, rows
      ensures Valid() && (rows == old(rows) || fresh(rows)) && Contents() == old(Contents()) + [img]
      ensures changed == old(changed) + 1
    {
      ghost var before := Contents();
      if count == rows.Length { Grow(); }
      rows[count] := img;
      count := count + 1;
      changed := changed + 1;
      assert Contents() == before + [img];
    }

    method Grow()
      requires Valid() && count == rows.Length
      modifies this`rows
      ensures Valid() && fresh(rows) && count < rows.Length && Contents() == old(Contents())
    {
      var cap := if rows.Length > 0 then 2 * rows.Length else 64;
      var wider := new Row[cap](i requires 0 <= i < cap reads this, rows => if i < rows.Length then rows[i] else []);
      assert wider[..count] == rows[..count];
      rows := wider;
    }
  }

  lemma FoundAt(c: Shape, rows: seq<Row>, sid: seq<byte>, i: nat)
    requires c.Valid() && AllSized(c, rows) && i <= |rows|
    requires forall k :: 0 <= k < i ==> Sid(c, rows[k]) != sid
    requires i < |rows| ==> Sid(c, rows[i]) == sid
    ensures IndexOf(c, rows, sid) == i
  {
  }

  // Entries found by a scan carry their eight timestamp bytes.
  lemma {:induction false} ScanStamped(data: seq<byte>, pos: nat)
    requires pos <= |data|
    ensures Stamped(FramesOf(Scan(data, pos)))
    decreases |data| - pos
  {
    hide Checksum, FromLE;
    if pos < |data| && ParseAt(data, pos).Found? {
      ScanStamped(data, ParseAt(data, pos).entry.end);
      var e := ParseAt(data, pos).entry;
      assert Scan(data, pos)[1..] == Scan(data, e.end);
    }
  }

  lemma {:induction false} NonMarkersStamped(fs: seq<Frame>)
    requires Stamped(fs)
    ensures Stamped(NonMarkers(fs))
    decreases |fs|
  {
    if |fs| > 0 { NonMarkersStamped(fs[..|fs| - 1]); }
  }

  lemma DeliveredStamped(data: seq<byte>)
    requires |data| >= 8
    ensures Stamped(Delivered(FramesOf(Scan(data, 8))))
  {
    hide Scan, NonMarkers;
    ScanStamped(data, 8);
    var fs := FramesOf(Scan(data, 8));
    NonMarkersStamped(fs);
    match Track(fs, |fs|)
    case NonePending =>
    case PendingAt(i) => if i <= |fs| { NonMarkersStamped(fs[..i]); }
  }

  ghost function UndoImage(data: seq<byte>): Option<seq<byte>>
    requires |data| >= 8
  {
    var fs := FramesOf(Scan(data, 8));
    match Track(fs, |fs|)
    case PendingAt(i) => if i < |fs| then Some(fs[i].payload) else None
    case NonePending => None
  }

  // jinn_store_recover once the log is open: rebuild the rows from the undo image or the
  // store, replay, rewrite the store if anything changed, then checkpoint the log.
  method Recover(c: Shape, store: seq<byte>, log: WalFile.LogFile) returns (r: Outcome)
    requires c.Valid() && |log.data| >= 8
    modifies log
    ensures |old(log.data)| == 8 ==> r == Kept
    ensures Stamped(Delivered(FramesOf(Scan(old(log.data), 8))))
    ensures |old(log.data)| > 8 ==>
              r == Result(c, store, Delivered(FramesOf(Scan(old(log.data), 8))), UndoImage(old(log.data)))
    ensures log.data == if r.Done? then old(log.data)[..8] else old(log.data)
  {
    hide Scan, Delivered, Track, StartOf, Fill, Upsert;
    DeliveredStamped(log.data);
    if |log.data| == 8 { return Kept; }
    var undo := log.UncommittedBegin();
    assert undo == UndoImage(log.data);
    var start := StartOf(c, store, undo);
    match start {
      case Refuse => return Failed;
      case Leave => return Kept;
      case Abort => return Stopped;
      case From(rows, fingerprint, version, force) =>
        var fs, _, complete := log.Replay();
        var buf := new Buffer(c, rows);
        RunCallback(buf, fs);
        if buf.skipped > 0 { return Failed; }
        r := Done(store);
        if buf.changed > 0 || force {
          r := Done(Fill(c, buf.rows[..buf.count], fingerprint, version));
        }
        log.Checkpoint(false);
    }
  }

  method RunCallback(buf: Buffer, fs: seq<Frame>)
    requires buf.Valid() && Stamped(fs) && buf.changed == 0 && buf.skipped == 0
    modifies buf, buf.rows
    ensures buf.Valid() && buf.skipped == Skipped(buf.c, fs)
    ensures buf.Contents() == Replay(buf.c, old(buf.Contents()), Images(buf.c, fs))
    ensures buf.changed == Changes(buf.c, old(buf.Contents()), Images(buf.c, fs))
    ensures Apart(buf.c) ==> AllBorne(buf.c, buf.Contents(), fs)
  {
    hide Upsert, AllBorne, StoredAt, Apart, ImageOf, Images, Replay, Skipped, Changes;
    ghost var rows := buf.Contents();
    NothingReplayed(buf.c, rows);
    for i := 0 to |fs|
      invariant buf.Valid() && (buf.rows == old(buf.rows) || fresh(buf.rows))
      invariant buf.skipped == Skipped(buf.c, fs[..i])
      invariant buf.Contents() == Replay(buf.c, rows, Images(buf.c, fs[..i]))
      invariant buf.changed == Changes(buf.c, rows, Images(buf.c, fs[..i]))
    {
      assert fs[..i + 1][..i] == fs[..i];
      buf.Callback(fs[i]);
      ReplayMore(buf.c, rows, fs[..i + 1]);
    }
    assert fs[..|fs|] == fs;
    if Apart(buf.c) { LastEntriesStay(buf.c, rows, fs); }
  }
}
