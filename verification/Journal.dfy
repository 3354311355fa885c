// The undo journal of runtime/txn_journal.c: record encoding, reading back a journal that
// may have been cut anywhere, and restoring the recorded images.
module Journal {
  import opened Bytes
  import opened Options

  type Path = seq<byte>

  // A file's content as it was when it was recorded.
  datatype Image = Image(path: Path, data: seq<byte>)

  // The record checksum (FNV-1a in the source; any function will do) and the paths that
  // persistence_check_path accepts.
  datatype Env = Env(hash: seq<byte> -> nat, known: set<Path>)

  const MAGIC: seq<byte> := [0x4A, 0x49, 0x4E, 0x4E, 0x54, 0x58, 0x4E, 0x31]
  const PATH_MAX := 4096
  const INT64_MAX := 0x7FFF_FFFF_FFFF_FFFF
  const SLASH: byte := 0x2F
  const HEAD := 12

  // What realpath returns: absolute, short enough, without NUL.
  predicate PathOk(p: Path) {
    0 < |p| < PATH_MAX && p[0] == SLASH && 0 !in p
  }

  predicate Recordable(env: Env, im: Image) {
    PathOk(im.path) && im.path in env.known && |im.data| <= INT64_MAX
  }

  function Lengths(pathLen: nat, len: nat): seq<byte> { LE(pathLen, 4) + LE(len, 8) }

  function Sum(env: Env, lengths: seq<byte>, path: Path, data: seq<byte>): (r: seq<byte>)
    ensures |r| == 8
  {
    LE(env.hash(lengths + path + data), 8)
  }

  function Encode(env: Env, im: Image): seq<byte> {
    var l := Lengths(|im.path|, |im.data|);
    l + im.path + im.data + Sum(env, l, im.path, im.data)
  }

  // Where a record keeps what: the two lengths, the path, the content, and then the hash of
  // all of them.
  lemma RecordLayout(env: Env, im: Image)
    ensures var (b, p, n) := (Encode(env, im), 12 + |im.path|, 12 + |im.path| + |im.data|);
            && |b| == n + 8
            && b[0..4] == LE(|im.path|, 4) && b[4..12] == LE(|im.data|, 8)
            && b[12..p] == im.path && b[p..n] == im.data && b[n..] == LE(env.hash(b[..n]), 8)
  {
    hide LE;
    var l, b := Lengths(|im.path|, |im.data|), Encode(env, im);
    assert b[..12] == l && l[0..4] == LE(|im.path|, 4) && l[4..12] == LE(|im.data|, 8);
    assert b[0..4] == l[0..4] && b[4..12] == l[4..12];
    assert b[..12 + |im.path| + |im.data|] == l + im.path + im.data;
  }

  function EncodeAll(env: Env, ims: seq<Image>): seq<byte> {
    if |ims| == 0 then [] else Encode(env, ims[0]) + EncodeAll(env, ims[1..])
  }

  function Full(env: Env, ims: seq<Image>): seq<byte> { MAGIC + EncodeAll(env, ims) }

  // Reading one record: a complete one, an incomplete tail, or something that stops the
  // process with the evidence preserved.
  datatype ReadResult = Got(image: Image, end: nat) | Torn | Fatal

  function ReadAt(env: Env, file: seq<byte>, pos: nat): (r: ReadResult)
    requires pos <= |file|
    ensures r.Got? ==> pos < r.end <= |file|
  {
    if |file| - pos < HEAD then Torn
    else
      var pathLen := FromLE(file[pos..pos + 4]);
      var len := FromLE(file[pos + 4..pos + HEAD]);
      var body := pos + HEAD;
      if pathLen == 0 || pathLen >= PATH_MAX || len > INT64_MAX then Fatal
      else if pathLen + 8 > |file| - body || len > |file| - body - pathLen - 8 then Torn
      else
        var path := file[body..body + pathLen];
        var data := file[body + pathLen..body + pathLen + len];
        var expected := file[body + pathLen + len..body + pathLen + len + 8];
        if Sum(env, file[pos..pos + HEAD], path, data) != expected || path[0] != SLASH || 0 in path
           || path !in env.known then Fatal
        else Got(Image(path, data), body + pathLen + len + 8)
  }

  // A record is accepted only if the eight bytes after it are the hash of all its bytes.
  lemma RecordBytesChecked(env: Env, file: seq<byte>, pos: nat)
    requires pos <= |file| && ReadAt(env, file, pos).Got?
    ensures var end := ReadAt(env, file, pos).end;
            pos + HEAD + 8 < end && file[end - 8..end] == LE(env.hash(file[pos..end - 8]), 8)
  {
    hide LE, FromLE;
    var r := ReadAt(env, file, pos);
    var body := pos + HEAD;
    assert file[pos..r.end - 8] == file[pos..body] + r.image.path + r.image.data;
  }

  // A record with one byte changed after its lengths stops recovery, unless the hash of the
  // changed record agrees with that of the original in all 64 bits.
  lemma ChangedRecordRefused(env: Env, file: seq<byte>, pos: nat, i: nat, x: byte)
    requires pos <= |file| && ReadAt(env, file, pos).Got?
    requires pos + HEAD <= i < ReadAt(env, file, pos).end - 8
    requires var body := file[pos..ReadAt(env, file, pos).end - 8];
             LE(env.hash(body[i - pos := x]), 8) != LE(env.hash(body), 8)
    ensures ReadAt(env, file[i := x], pos) == Fatal
  {
    hide LE, FromLE;
    var other, end := file[i := x], ReadAt(env, file, pos).end;
    var body := pos + HEAD;
    RecordBytesChecked(env, file, pos);
    assert other[pos..pos + 4] == file[pos..pos + 4] && other[pos + 4..body] == file[pos + 4..body];
    assert other[pos..end - 8] == file[pos..end - 8][i - pos := x];
    assert other[end - 8..end] == file[end - 8..end];
    var n, len := FromLE(file[pos..pos + 4]), FromLE(file[pos + 4..body]);
    assert other[pos..end - 8] == other[pos..body] + other[body..body + n] + other[body + n..body + n + len];
  }

  datatype Reading = Images(images: seq<Image>) | Refused

  // All complete records from pos, oldest first.
  function ReadAll(env: Env, file: seq<byte>, pos: nat): Reading
    requires pos <= |file|
    decreases |file| - pos
  {
    match ReadAt(env, file, pos)
    case Fatal => Refused
    case Torn => Images([])
    case Got(im, end) =>
      match ReadAll(env, file, end)
      case Refused => Refused
      case Images(rest) => Images([im] + rest)
  }

  // The whole recovery decision on a journal file's bytes.
  function ReadJournal(env: Env, file: seq<byte>): Reading {
    if |file| < 8 then Images([])
    else if file[..8] != MAGIC then Refused
    else ReadAll(env, file, 8)
  }

  // Complete records in the first n bytes after the magic.
  ghost function Complete(env: Env, ims: seq<Image>, n: nat): (k: nat)
    ensures k <= |ims|
  {
    if |ims| == 0 || |Encode(env, ims[0])| > n then 0
    else 1 + Complete(env, ims[1..], n - |Encode(env, ims[0])|)
  }

  ghost predicate AllRecordable(env: Env, ims: seq<Image>) {
    forall i :: 0 <= i < |ims| ==> Recordable(env, ims[i])
  }

  lemma EncodeParts(env: Env, im: Image)
    requires Recordable(env, im)
    ensures var e, p, n := Encode(env, im), |im.path|, |im.data|;
            && |e| == HEAD + p + n + 8 && e[0..4] == LE(p, 4) && e[4..HEAD] == LE(n, 8)
            && e[0..HEAD] == Lengths(p, n)
            && e[HEAD..HEAD + p] == im.path && e[HEAD + p..HEAD + p + n] == im.data
            && e[HEAD + p + n..HEAD + p + n + 8] == Sum(env, Lengths(p, n), im.path, im.data)
  {
    hide Sum, LE;
    var p, n := |im.path|, |im.data|;
    var l := Lengths(p, n);
    assert l[0..4] == LE(p, 4) && l[4..HEAD] == LE(n, 8);
    assert Encode(env, im)[..HEAD] == l;
    assert Encode(env, im)[0..4] == l[0..4] && Encode(env, im)[4..HEAD] == l[4..HEAD];
  }

  lemma SliceMiddle<T>(pre: seq<T>, mid: seq<T>, post: seq<T>, lo: nat, hi: nat)
    requires lo <= hi <= |mid|
    ensures (pre + mid + post)[|pre| + lo..|pre| + hi] == mid[lo..hi]
  {
  }

  // A whole record reads back as itself.
  lemma RecordReadsBack(env: Env, pre: seq<byte>, im: Image, post: seq<byte>)
    requires Recordable(env, im)
    ensures ReadAt(env, pre + Encode(env, im) + post, |pre|) == Got(im, |pre| + |Encode(env, im)|)
  {
    hide Sum, Encode, FromLE, LE, Lengths;
    var e, p, n := Encode(env, im), |im.path|, |im.data|;
    EncodeParts(env, im);
    RecordSlices(pre, e, post, p, n);
    LengthsFit(im);
    WordRoundTrip(p, 4);
    WordRoundTrip(n, 8);
  }

  lemma RecordSlices(pre: seq<byte>, e: seq<byte>, post: seq<byte>, p: nat, n: nat)
    requires |e| == HEAD + p + n + 8
    ensures var data, pos := pre + e + post, |pre|;
            && data[pos..pos + 4] == e[0..4] && data[pos + 4..pos + HEAD] == e[4..HEAD]
            && data[pos..pos + HEAD] == e[0..HEAD]
            && data[pos + HEAD..pos + HEAD + p] == e[HEAD..HEAD + p]
            && data[pos + HEAD + p..pos + HEAD + p + n] == e[HEAD + p..HEAD + p + n]
            && data[pos + HEAD + p + n..pos + HEAD + p + n + 8] == e[HEAD + p + n..HEAD + p + n + 8]
  {
    SliceMiddle(pre, e, post, 0, 4);
    SliceMiddle(pre, e, post, 4, HEAD);
    SliceMiddle(pre, e, post, 0, HEAD);
    SliceMiddle(pre, e, post, HEAD, HEAD + p);
    SliceMiddle(pre, e, post, HEAD + p, HEAD + p + n);
    SliceMiddle(pre, e, post, HEAD + p + n, HEAD + p + n + 8);
  }

  lemma LengthsFit(im: Image)
    requires PathOk(im.path) && |im.data| <= INT64_MAX
    ensures |im.path| < Range(4) && |im.data| < Range(8)
  {
    Widths();
  }

  // A record cut short reads as torn, never as an error.
  lemma TornRecord(env: Env, pre: seq<byte>, im: Image, cut: nat)
    requires Recordable(env, im) && cut < |Encode(env, im)|
    ensures ReadAt(env, pre + Encode(env, im)[..cut], |pre|) == Torn
  {
    hide Sum, Encode, FromLE, LE, Lengths;
    EncodeParts(env, im);
    var e := Encode(env, im);
    var file := pre + e[..cut];
    if cut >= HEAD {
      assert file[|pre|..|pre| + 4] == e[0..4];
      assert file[|pre| + 4..|pre| + HEAD] == e[4..HEAD];
      LengthsFit(im);
      WordRoundTrip(|im.path|, 4);
      WordRoundTrip(|im.data|, 8);
    }
  }

  lemma {:induction false} EncodeAllAppend(env: Env, ims: seq<Image>, im: Image)
    ensures EncodeAll(env, ims + [im]) == EncodeAll(env, ims) + Encode(env, im)
  {
    hide Encode;
    if |ims| == 0 {
      assert ims + [im] == [im];
      assert EncodeAll(env, [im]) == Encode(env, im) + EncodeAll(env, []);
    } else {
      assert (ims + [im])[1..] == ims[1..] + [im];
      EncodeAllAppend(env, ims[1..], im);
      Associate(Encode(env, ims[0]), EncodeAll(env, ims[1..]), Encode(env, im));
    }
  }

  lemma {:induction false} ReadCut(env: Env, pre: seq<byte>, ims: seq<Image>, n: nat)
    requires AllRecordable(env, ims) && n <= |EncodeAll(env, ims)|
    ensures ReadAll(env, pre + EncodeAll(env, ims)[..n], |pre|) == Images(ims[..Complete(env, ims, n)])
    decreases |ims|
  {
    hide Encode, ReadAt;
    var file := pre + EncodeAll(env, ims)[..n];
    if |ims| == 0 {
      assert file == pre;
      NothingToRead(env, pre);
    } else {
      var e := Encode(env, ims[0]);
      assert EncodeAll(env, ims) == e + EncodeAll(env, ims[1..]);
      if n < |e| {
        assert file == pre + e[..n];
        TornRecord(env, pre, ims[0], n);
        assert ims[..0] == [];
      } else {
        var post := EncodeAll(env, ims[1..])[..n - |e|];
        assert file == pre + e + post;
        RecordReadsBack(env, pre, ims[0], post);
        ReadCut(env, pre + e, ims[1..], n - |e|);
        var k := Complete(env, ims[1..], n - |e|);
        assert ims[..k + 1] == [ims[0]] + ims[1..][..k];
      }
    }
  }

  lemma NothingToRead(env: Env, file: seq<byte>)
    ensures ReadAt(env, file, |file|) == Torn
  {
  }

  // A journal cut at any byte from 8 on yields exactly its complete records and no error.
  lemma CutJournalReads(env: Env, ims: seq<Image>, cut: nat)
    requires AllRecordable(env, ims) && 8 <= cut <= |Full(env, ims)|
    ensures ReadJournal(env, Full(env, ims)[..cut]) == Images(ims[..Complete(env, ims, cut - 8)])
  {
    hide Encode, ReadAll;
    assert Full(env, ims)[..cut] == MAGIC + EncodeAll(env, ims)[..cut - 8];
    assert Full(env, ims)[..cut][..8] == MAGIC;
    ReadCut(env, MAGIC, ims, cut - 8);
  }

  // A cut that leaves the first a records leaves at least those.
  lemma {:induction false} CompleteAtLeast(env: Env, ims: seq<Image>, a: nat, n: nat)
    requires a <= |ims| && |EncodeAll(env, ims[..a])| <= n
    ensures Complete(env, ims, n) >= a
    decreases a
  {
    hide Encode;
    if a > 0 {
      assert ims[..a][0] == ims[0] && ims[..a][1..] == ims[1..][..a - 1];
      CompleteAtLeast(env, ims[1..], a - 1, n - |Encode(env, ims[0])|);
    }
  }

  // ----- restoring -----

  ghost function PathsOf(ims: seq<Image>): set<Path> {
    set i | 0 <= i < |ims| :: ims[i].path
  }

  // The oldest image recorded for p.
  ghost function FirstImage(ims: seq<Image>, p: Path): Option<seq<byte>> {
    if |ims| == 0 then None
    else if ims[0].path == p then Some(ims[0].data)
    else FirstImage(ims[1..], p)
  }

  // Rewriting every recorded file, the newest record first.
  function Restore(files: map<Path, seq<byte>>, ims: seq<Image>): map<Path, seq<byte>>
    decreases |ims|
  {
    if |ims| == 0 then files
    else Restore(files[ims[|ims| - 1].path := ims[|ims| - 1].data], ims[..|ims| - 1])
  }

  lemma {:induction false} FirstImageAppend(ims: seq<Image>, im: Image, p: Path)
    ensures FirstImage(ims + [im], p) ==
              if FirstImage(ims, p).Some? then FirstImage(ims, p)
              else if im.path == p then Some(im.data) else None
    decreases |ims|
  {
    if |ims| > 0 {
      assert (ims + [im])[1..] == ims[1..] + [im];
      FirstImageAppend(ims[1..], im, p);
    }
  }

  lemma {:induction false} FirstImageSome(ims: seq<Image>, p: Path)
    ensures FirstImage(ims, p).Some? <==> p in PathsOf(ims)
    decreases |ims|
  {
    if |ims| > 0 {
      FirstImageSome(ims[1..], p);
      assert forall i :: 0 < i < |ims| ==> ims[i] == ims[1..][i - 1];
      if p in PathsOf(ims) && ims[0].path != p {
        var i :| 0 <= i < |ims| && ims[i].path == p;
        assert ims[1..][i - 1].path == p;
      }
    }
  }

  // Because records are restored last to first, a path recorded several times ends at
  // its first image; a path not recorded keeps its content.
  lemma {:induction false} FirstImageWins(files: map<Path, seq<byte>>, ims: seq<Image>, p: Path)
    ensures p in Restore(files, ims) <==> p in files || p in PathsOf(ims)
    ensures var first := FirstImage(ims, p);
            p in Restore(files, ims) && (first.Some? || p in files) ==>
              Restore(files, ims)[p] == if first.Some? then first.value else files[p]
    decreases |ims|
  {
    FirstImageSome(ims, p);
    if |ims| > 0 {
      var k := |ims| - 1;
      FirstImageWins(files[ims[k].path := ims[k].data], ims[..k], p);
      assert ims[..k] + [ims[k]] == ims;
      FirstImageAppend(ims[..k], ims[k], p);
      FirstImageSome(ims[..k], p);
    }
  }

  // Recovery from any cut of a written journal restores exactly the paths with a complete
  // record, each to its first image.
  lemma CutJournalRestores(env: Env, ims: seq<Image>, cut: nat, files: map<Path, seq<byte>>, p: Path)
    requires AllRecordable(env, ims) && 8 <= cut <= |Full(env, ims)| && p in files
    ensures var done := ims[..Complete(env, ims, cut - 8)];
            var first := FirstImage(done, p);
            && ReadJournal(env, Full(env, ims)[..cut]) == Images(done)
            && (first.Some? <==> p in PathsOf(done))
            && p in Restore(files, done)
            && Restore(files, done)[p] == if first.Some? then first.value else files[p]
  {
    hide Complete, ReadJournal, Full;
    CutJournalReads(env, ims, cut);
    var done := ims[..Complete(env, ims, cut - 8)];
    FirstImageWins(files, done, p);
    FirstImageSome(done, p);
  }

  // ----- the journal handle and the loops over it -----

  // The working directory: every file's content, the journal file if there is one, and
  // whether this process holds it open for appending.
  class Directory {
    var files: map<Path, seq<byte>>
    var journal: Option<seq<byte>>
    var open: bool

    constructor (content: map<Path, seq<byte>>, left: Option<seq<byte>>)
      ensures files == content && journal == left && !open
    {
      files, journal, open := content, left, false;
    }

    // jinn_txn_journal_snapshot: create the journal on first use, then append one record;
    // false when the code stops the process over the path or the size instead.
    method Snapshot(env: Env, path: Path, data: seq<byte>, ghost ims: seq<Image>) returns (ok: bool)
      requires open ==> journal == Some(Full(env, ims))
      requires !open ==> journal == None && ims == []
      modifies this`journal, this`open
      ensures ok <==> path in env.known && 0 < |path| < 4096 && path[0] == 0x2F && 0 !in path
                      && |data| < 0x8000_0000_0000_0000
      ensures ok ==> open && journal == Some(Full(env, ims + [Image(path, data)]))
      ensures !ok ==> open == old(open) && journal == old(journal)
    {
      hide Sum, LE;
      if !Recordable(env, Image(path, data)) { return false; }
      EncodeAllAppend(env, ims, Image(path, data));
      if !open {
        journal, open := Some(MAGIC), true;
        assert MAGIC + [] == MAGIC;
      }
      ghost var before := journal.value;
      var lengths := LE(|path|, 4) + LE(|data|, 8);
      var h := Sum(env, lengths, path, data);
      journal := Some(journal.value + LE(|path|, 4) + LE(|data|, 8) + path + data + h);
      AppendRecord(before, LE(|path|, 4), LE(|data|, 8), path, data, h);
      Associate(MAGIC, EncodeAll(env, ims), Encode(env, Image(path, data)));
      return true;
    }

    // journal_recover: read records until the journal ends or is torn, newest at the front
    // of the list; rewrite each file from the list; then remove the journal. A journal the
    // code refuses stops the process with everything left in place.
    method Recover(env: Env) returns (ok: bool)
      requires !open
      modifies this`files, this`journal
      ensures Found(old(journal), env).Refused? ==> !ok && files == old(files) && journal == old(journal)
      ensures Found(old(journal), env).Images? ==>
                ok && journal == None && files == Restore(old(files), Found(old(journal), env).images)
    {
      hide ReadAll, Restore;
      RestoreNothing(files);
      if journal.None? { return true; }
      var file := journal.value;
      if |file| < 8 {
        journal := None;
        return true;
      }
      if file[..8] != MAGIC { return false; }
      var r := ReadImages(env, file);
      if r.None? { return false; }
      RestoreImages(r.value);
      journal := None;
      ok := true;
    }

    // The read loop: a list of images, the newest first; nothing if the code must stop.
    method ReadImages(env: Env, file: seq<byte>) returns (r: Option<seq<Image>>)
      requires |file| >= 8
      ensures ReadAll(env, file, 8).Refused? ==> r == None
      ensures ReadAll(env, file, 8).Images? ==> r.Some? && ReadAll(env, file, 8) == Images(Reversed(r.value))
    {
      hide ReadAt, Reversed;
      var images: seq<Image> := [];
      var pos := 8;
      ReversedFront([], Image([], []));
      while true
        invariant pos <= |file|
        invariant Prefixed(Reversed(images), ReadAll(env, file, pos)) == ReadAll(env, file, 8)
        decreases |file| - pos
      {
        var next := ReadAt(env, file, pos);
        match next {
          case Fatal =>
            return None;
          case Torn =>
            assert Reversed(images) + [] == Reversed(images);
            return Some(images);
          case Got(im, end) =>
            PrefixedStep(Reversed(images), im, ReadAll(env, file, end));
            ReversedFront(images, im);
            images := [im] + images;
            pos := end;
        }
      }
    }

    // The restore loop over that list.
    method RestoreImages(images: seq<Image>)
      modifies this`files
      ensures files == Restore(old(files), Reversed(images))
    {
      ghost var all := Reversed(images);
      assert all[..|all|] == all;
      var i := 0;
      while i < |images|
        invariant i <= |images|
        invariant Restore(files, all[..|all| - i]) == Restore(old(files), all)
      {
        ReversedAt(images, i);
        assert all[..|all| - i][..|all| - i - 1] == all[..|all| - i - 1];
        files := files[images[i].path := images[i].data];
        i := i + 1;
      }
    }

    // jinn_txn_journal_finish
    method Finish()
      modifies this`journal, this`open
      ensures !open && journal == if old(open) then None else old(journal)
    {
      if !open { return; }
      open := false;
      journal := None;
    }
  }

  // What recovery finds: nothing, if there is no journal.
  function Found(journal: Option<seq<byte>>, env: Env): Reading {
    if journal.None? then Images([]) else ReadJournal(env, journal.value)
  }

  function Reversed<T>(s: seq<T>): (r: seq<T>)
    ensures |r| == |s|
  {
    if |s| == 0 then [] else Reversed(s[1..]) + [s[0]]
  }

  lemma ReversedFront<T>(s: seq<T>, x: T)
    ensures Reversed<T>([]) == [] && Reversed([x] + s) == Reversed(s) + [x]
  {
    assert ([x] + s)[1..] == s;
  }

  lemma RestoreNothing(files: map<Path, seq<byte>>)
    ensures Restore(files, []) == files
  {
  }

  lemma {:induction false} ReversedAt<T>(s: seq<T>, k: nat)
    requires k < |s|
    ensures Reversed(s)[|s| - 1 - k] == s[k]
  {
    if k > 0 { ReversedAt(s[1..], k - 1); }
  }

  ghost function Prefixed(before: seq<Image>, rest: Reading): Reading {
    match rest
    case Refused => Refused
    case Images(ims) => Images(before + ims)
  }

  lemma PrefixedStep(before: seq<Image>, im: Image, rest: Reading)
    ensures Prefixed(before, Prefixed([im], rest)) == Prefixed(before + [im], rest)
  {
    if rest.Images? { Associate(before, [im], rest.images); }
  }

  lemma AppendRecord(d: seq<byte>, a: seq<byte>, b: seq<byte>, p: seq<byte>, c: seq<byte>, h: seq<byte>)
    ensures d + a + b + p + c + h == d + (a + b + p + c + h)
  {
  }

  // Whatever was snapshotted, and wherever the journal was cut: recovery succeeds and puts
  // back the first image of exactly the paths whose record is complete.
  lemma RecoverAfterCut(env: Env, ims: seq<Image>, cut: nat, files: map<Path, seq<byte>>)
    requires AllRecordable(env, ims) && cut <= |Full(env, ims)|
    ensures var k := if cut < 8 then 0 else Complete(env, ims, cut - 8);
            Found(Some(Full(env, ims)[..cut]), env) == Images(ims[..k])
  {
    hide Complete, Full, ReadAll;
    if cut < 8 {
      assert ims[..0] == [];
    } else {
      CutJournalReads(env, ims, cut);
    }
  }
}
