// The transaction calls of runtime/wal.c as they run in one process: methods over the
// files, the journal and the participant list. Each one extends a run of the step system
// by the steps it takes, so a crash inside it is a crash of that run.
module TxnProcess {
  import opened Bytes
  import opened Options
  import opened Journal
  import opened Txn
  import W = WalFormat

  ghost function Last(run: seq<State>): State
    requires |run| > 0
  {
    run[|run| - 1]
  }

  ghost predicate Trail(w: World, run: seq<State>) { |run| > 0 && Run(w, run) }

  lemma Extend(w: World, run: seq<State>, t: State)
    requires Trail(w, run) && Step(w, Last(run), t)
    ensures Trail(w, run + [t])
  {
    hide Step, Init;
    var longer := run + [t];
    forall i | 0 <= i < |longer| - 1 ensures Step(w, longer[i], longer[i + 1]) {
      if i < |run| - 1 { assert Step(w, run[i], run[i + 1]); }
    }
  }

  lemma TrailPrefix(w: World, run: seq<State>, k: nat)
    requires Trail(w, run) && k < |run|
    ensures Trail(w, run[..k + 1]) && Last(run[..k + 1]) == run[k]
  {
    hide Step, Init;
    var shorter := run[..k + 1];
    forall i | 0 <= i < |shorter| - 1 ensures Step(w, shorter[i], shorter[i + 1]) {
      assert Step(w, run[i], run[i + 1]);
    }
  }

  lemma CrashIsStep(w: World, s: State, t: State)
    requires Txn.Crash(s, t)
    ensures Step(w, s, t)
  {
    hide Txn.Crash;
  }

  // The content the commit leaves: a TXN_COMMIT frame at the end of every store's log.
  function Marked(data: Content, parts: seq<Part>, ts: seq<byte>): Content {
    if |parts| == 0 then data
    else
      var rest := Marked(data, parts[..|parts| - 1], ts);
      match parts[|parts| - 1].wal
      case None => rest
      case Some(p) => if p in rest then rest[p := rest[p] + W.Encode(W.Frame(W.TXN_COMMIT, ts, []))] else rest
  }

  ghost function LogOf(parts: seq<Part>, p: Path): nat {
    if |parts| == 0 then 0
    else LogOf(parts[..|parts| - 1], p) + if parts[|parts| - 1].wal == Some(p) then 1 else 0
  }

  // A file that is the log of one participant gains exactly one TXN_COMMIT frame, a file that
  // is nobody's log stays as it is.
  lemma {:induction false} MarkedMeaning(data: Content, parts: seq<Part>, ts: seq<byte>, p: Path)
    requires p in data
    ensures p in Marked(data, parts, ts) && Marked(data, parts, ts).Keys == data.Keys
    ensures LogOf(parts, p) == 0 ==> Marked(data, parts, ts)[p] == data[p]
    ensures LogOf(parts, p) == 1 ==> Marked(data, parts, ts)[p] == data[p] + W.Encode(W.Frame(0xF1, ts, []))
    decreases |parts|
  {
    hide W.Encode;
    if |parts| > 0 { MarkedMeaning(data, parts[..|parts| - 1], ts, p); }
  }

  // So a commit is what makes a transaction's entries count: a log with the frames fs, a
  // TXN_BEGIN and the entries ops delivers what fs does before the commit, and the entries
  // as well after it.
  lemma CommitDelivers(data: Content, parts: seq<Part>, ts: seq<byte>, p: Path,
                       fs: seq<W.Frame>, begin: W.Frame, ops: seq<W.Frame>)
    requires p in data && LogOf(parts, p) == 1 && data[p] == W.Log(fs + [begin] + ops)
    requires W.Track(fs, |fs|) == W.NonePending && begin.op == 0xF0
    requires forall i :: 0 <= i < |ops| ==> !ops[i].Marker()
    ensures var after := fs + [begin] + ops + [W.Frame(0xF1, ts, [])];
            && p in Marked(data, parts, ts) && Marked(data, parts, ts)[p] == W.Log(after)
            && W.Delivered(fs + [begin] + ops) == W.Delivered(fs)
            && W.Delivered(after) == W.Delivered(fs) + ops
  {
    hide W.Encode, W.Track, W.Delivered, Marked, W.EncodeAll;
    MarkedMeaning(data, parts, ts, p);
    var commit := W.Frame(0xF1, ts, []);
    var open := fs + [begin] + ops;
    W.EncodeAllAppend(open, commit);
    Associate(W.MAGIC, W.EncodeAll(open), W.Encode(commit));
    W.ReplayAllOrNothing(fs, begin, ops, commit);
  }

  // The content rollback leaves: every undo image written back, the newest first.
  function Undone(data: Content, parts: seq<Part>): Content {
    if |parts| == 0 then data
    else Undone(data, parts[..|parts| - 1])[parts[|parts| - 1].path := parts[|parts| - 1].snap]
  }

  class Process {
    const w: World
    var files: map<Path, File>
    var journal: Log
    var depth: nat
    var parts: seq<Part>
    ghost var trace: seq<State>

    ghost predicate Running()
      reads this
    {
      && Trail(w, trace)
      && Last(trace).files == files && Last(trace).journal == journal
      && Last(trace).depth == depth && Last(trace).parts == parts
    }

    ghost predicate At(pc: Pc)
      reads this
    {
      Running() && Last(trace).pc == pc
    }

    // Where the last transaction stands.
    ghost function Fated(): Fate
      reads this
    {
      if |trace| > 0 then Last(trace).fate else Undecided
    }

    function Resting(): Pc
      reads this
    {
      if depth > 0 then Active else Idle
    }

    constructor (world: World, content: map<Path, seq<byte>>)
      ensures At(Idle) && depth == 0 && w == world && DataOf(files) == content
    {
      w := world;
      files := map p | p in content :: File(content[p], true);
      journal, depth, parts := Log(None, None), 0, [];
      new;
      trace := [State(files, journal, 0, [], Idle, [], DataOf(files), map[], {}, Undecided)];
    }

    // A process started after a crash that struck some earlier run at its state k, be it in the
    // middle of a call.
    constructor Restart(world: World, content: map<Path, seq<byte>>, tail: Option<seq<byte>>,
                        ghost run: seq<State>, ghost k: nat, ghost s: State)
      requires Trail(world, run) && k < |run| && Txn.Crash(run[k], s)
      requires DataOf(s.files) == content && s.journal.now == tail
      ensures At(Down) && w == world && DataOf(files) == content && journal == Log(tail, tail)
      ensures trace == run[..k + 1] + [s]
    {
      w := world;
      files := map p | p in content :: File(content[p], true);
      journal, depth, parts := Log(tail, tail), 0, [];
      new;
      hide Run, Step;
      TrailPrefix(w, run, k);
      Extend(w, run[..k + 1], s) by { CrashIsStep(w, run[k], s); }
      trace := run[..k + 1] + [s];
      assert files == s.files;
    }

    ghost method Go(t: State)
      requires Trail(w, trace) && Step(w, Last(trace), t)
      modifies this`trace
      ensures Trail(w, trace) && trace == old(trace) + [t] && Last(trace) == t
    {
      Extend(w, trace, t);
      trace := trace + [t];
    }

    // jinn_txn_begin
    method Begin()
      requires At(Resting())
      modifies this
      ensures At(Active) && depth == old(depth) + 1 && old(trace) <= trace
      ensures files == old(files) && journal == old(journal)
      ensures old(depth) == 0 ==> parts == [] && Last(trace).pre == DataOf(files)
      ensures old(depth) > 0 ==> parts == old(parts)
    {
      hide Init, Inv, Step;
      ghost var s := Last(trace);
      if depth == 0 {
        parts := [];
        ghost var t := s.(depth := 1, parts := [], pc := Active, recs := [], pre := DataOf(s.files), post := map[],
          anchored := (set p | p in s.files && s.files[p].synced), fate := Undecided);
        Go(t) by { assert BeginOuter(s, t); OutsideIsStep(w, s, t); }
      } else {
        ghost var t := s.(depth := s.depth + 1);
        Go(t) by { assert BeginInner(s, t); OutsideIsStep(w, s, t); }
      }
      depth := depth + 1;
    }

    // A write in place: to any file outside a transaction, to a tracked one inside.
    method Write(p: Path, data: seq<byte>)
      requires At(Resting()) && p in files && p !in w.sidecars && (depth > 0 ==> p in Tracked(parts))
      modifies this`files, this`trace
      ensures At(Resting()) && old(trace) <= trace && files == old(files)[p := File(data, false)]
    {
      hide Run, Init, Inv, Step;
      ghost var s := Last(trace);
      files := files[p := File(data, false)];
      if depth > 0 {
        ghost var t := s.(files := files);
        Go(t) by { assert Mutate(w, s, t, p, data); OutsideIsStep(w, s, t); }
      } else {
        ghost var t := s.(files := files, anchored := s.anchored - {p});
        Go(t) by { assert IdleWrite(w, s, t, p, data); OutsideIsStep(w, s, t); }
      }
    }

    // The machine stops and comes back with these files and this journal.
    method Crash(left: map<Path, File>, tail: Option<seq<byte>>)
      requires Running()
      requires Txn.Crash(Last(trace),
                 Last(trace).(files := left, journal := Log(tail, tail), depth := 0, parts := [], pc := Down))
      modifies this
      ensures At(Down) && old(trace) <= trace && files == left && journal == Log(tail, tail)
      ensures depth == 0 && parts == []
    {
      hide Run, Step;
      ghost var s := Last(trace);
      files, journal, depth, parts := left, Log(tail, tail), 0, [];
      ghost var t := s.(files := files, journal := journal, depth := 0, parts := [], pc := Down);
      Go(t) by { CrashIsStep(w, s, t); }
    }

    // jinn_txn_journal_snapshot up to its final sync; false when the code stops the process.
    method Snapshot(im: Image, ghost job: Job) returns (ok: bool)
      requires At(if journal.now.None? then Create(job) else Append(job))
      requires job.Target() == im.path && im.path in files && im.data == files[im.path].data
      modifies this`journal, this`trace
      ensures Running() && old(trace) <= trace
      ensures ok <==> Recordable(w.env, im)
      ensures ok ==> At(AppendSync(job)) && Last(trace).recs == Last(old(trace)).recs + [im]
      ensures ok ==> journal.now == Some((if old(journal.now).None? then MAGIC else old(journal.now).value)
                                         + Encode(w.env, im))
      ensures ok ==>
                Last(trace) == Last(old(trace)).(journal := journal, recs := Last(trace).recs, pc := AppendSync(job))
    {
      hide Run, Init, Inv, Encode, Step;
      ghost var s := Last(trace);
      if !Recordable(w.env, im) { return false; }
      if journal.now.None? {
        journal := Log(Some(MAGIC), journal.kept);
        ghost var t := s.(journal := journal, pc := CreateSync(job));
        Go(t) by { assert CreateJournal(s, t); TrackIsStep(w, s, t); }
        journal := Log(journal.now, journal.now);
        s := t.(journal := journal, pc := Append(job));
        Go(s) by { assert CreateDone(t, s); TrackIsStep(w, t, s); }
      }
      journal := Log(Some(journal.now.value + Encode(w.env, im)), journal.kept);
      ghost var t := s.(journal := journal, recs := s.recs + [im], pc := AppendSync(job));
      Go(t) by { assert AppendRec(w, s, t); TrackIsStep(w, s, t); }
      return true;
    }

    // jinn_txn_track_impl for a file, or for a store with its log; false when the process
    // stops because the image cannot be recorded.
    method Track(p: Path, wal: Option<Path>, ts: seq<byte>) returns (ok: bool)
      requires At(Resting()) && p in files
      requires wal.Some? ==> wal.value in files && wal.value != p && wal.value !in w.sidecars && p !in w.sidecars
      modifies this
      ensures Running() && old(trace) <= trace
      ensures ok ==> At(Resting()) && depth == old(depth)
      ensures old(depth) == 0 || p in Tracked(old(parts)) ==> ok && files == old(files) && parts == old(parts)
      ensures ok && old(depth) > 0 && p !in Tracked(old(parts)) ==>
                && journal.kept == journal.now
                && parts == [Part(p, old(files)[p].data, wal)]
                            + (if wal.Some? && wal.value !in Tracked(old(parts))
                               then [Part(wal.value, old(files)[wal.value].data, None)] + old(parts)
                               else old(parts))
                && files == if wal.None? then old(files)
                            else old(files)[wal.value := File(old(files)[wal.value].data
                                   + W.Encode(W.Frame(W.TXN_BEGIN, ts, old(files)[p].data)), true)]
    {
      hide Run, Init, Inv, Encode, W.Encode, TrackStart, AppendDone, Step;
      if depth == 0 || exists i :: 0 <= i < |parts| && parts[i].path == p { return true; }
      assert p !in Tracked(parts);
      var snap := files[p].data;
      ghost var job := Job(p, snap, wal, false);
      ok := Record(p, wal);
      if !ok { return; }
      if wal.None? {
        ListFile(p, snap, job);
        return true;
      }
      ok := TrackLog(p, snap, wal.value, job);
      if !ok { return; }
      MarkLog(p, snap, wal.value, ts, Last(trace).pc.job);
      return true;
    }

    // The file's own undo record.
    method Record(p: Path, wal: Option<Path>) returns (ok: bool)
      requires At(Active) && p in files
      requires wal.Some? ==> wal.value in files && wal.value != p && wal.value !in w.sidecars && p !in w.sidecars
      modifies this`journal, this`trace
      ensures Running() && old(trace) <= trace
      ensures ok ==> At(AppendSync(Job(p, files[p].data, wal, false))) && journal.now.Some?
      ensures ok ==> |Last(trace).recs| > 0 && Last(trace).recs[|Last(trace).recs| - 1] == Image(p, files[p].data)
    {
      hide Run, Init, Inv, Encode, CreateJournal, CreateDone, AppendRec, AppendDone, Step;
      ghost var s := Last(trace);
      ghost var job := Job(p, files[p].data, wal, false);
      ghost var t := s.(pc := if s.journal.now.None? then Create(job) else Append(job));
      Go(t) by { assert TrackStart(w, s, t, p, wal); TrackIsStep(w, s, t); }
      ok := Snapshot(Image(p, files[p].data), job);
    }

    // The record is durable: list a plain file.
    method ListFile(p: Path, snap: seq<byte>, ghost job: Job)
      requires At(AppendSync(job)) && job == Job(p, snap, None, false)
      requires |Last(trace).recs| > 0 && Last(trace).recs[|Last(trace).recs| - 1] == Image(p, snap)
      modifies this`journal, this`parts, this`trace
      ensures At(Active) && old(trace) <= trace
      ensures journal == Log(old(journal).now, old(journal).now) && parts == [Part(p, snap, None)] + old(parts)
    {
      hide Run, Init, Inv, Encode, Step;
      ghost var s := Last(trace);
      journal := Log(journal.now, journal.now);
      parts := [Part(p, snap, None)] + parts;
      ghost var t := s.(journal := journal, anchored := s.anchored + {p}, parts := parts, pc := Active);
      Go(t) by { assert AppendDone(s, t); TrackIsStep(w, s, t); }
    }

    // The record is durable: track a store's log unless it is tracked already.
    method TrackLog(p: Path, snap: seq<byte>, log: Path, ghost job: Job) returns (ok: bool)
      requires At(AppendSync(job)) && job == Job(p, snap, Some(log), false) && log in files && journal.now.Some?
      requires |Last(trace).recs| > 0 && Last(trace).recs[|Last(trace).recs| - 1] == Image(p, snap)
      modifies this`journal, this`parts, this`trace
      ensures Running() && old(trace) <= trace
      ensures ok ==> journal.kept == journal.now && Last(trace).pc.Begin?
      ensures ok ==> var j := Last(trace).pc.job; j.path == p && j.snap == snap && j.wal == Some(log)
      ensures ok ==> parts == if log in Tracked(old(parts)) then old(parts)
                              else [Part(log, files[log].data, None)] + old(parts)
    {
      hide Run, Init, Inv, Encode, CreateJournal, CreateDone, AppendRec, TrackStart, Step;
      ghost var s := Last(trace);
      journal := Log(journal.now, journal.now);
      if exists i :: 0 <= i < |parts| && parts[i].path == log {
        assert log in Tracked(parts);
        ghost var t := s.(journal := journal, anchored := s.anchored + {p}, pc := Txn.Begin(job));
        Go(t) by { assert AppendDone(s, t); TrackIsStep(w, s, t); }
        return true;
      }
      assert log !in Tracked(parts);
      ghost var inside := job.(inner := true);
      ghost var t := s.(journal := journal, anchored := s.anchored + {p}, pc := Append(inside));
      Go(t) by { assert AppendDone(s, t); TrackIsStep(w, s, t); }
      ok := RecordLog(log, inside);
    }

    // The nested call for the store's log.
    method RecordLog(log: Path, ghost job: Job) returns (ok: bool)
      requires At(Append(job)) && journal.now.Some? && log in files
      requires job.inner && job.wal == Some(log)
      modifies this`journal, this`parts, this`trace
      ensures Running() && old(trace) <= trace
      ensures ok ==> At(Txn.Begin(job)) && journal.kept == journal.now
      ensures ok ==> parts == [Part(log, files[log].data, None)] + old(parts)
    {
      hide Run, Init, Inv, Encode, Step;
      var im := Image(log, files[log].data);
      ok := Snapshot(im, job);
      if !ok { return; }
      ghost var s := Last(trace);
      journal := Log(journal.now, journal.now);
      parts := [Part(log, files[log].data, None)] + parts;
      ghost var t := s.(journal := journal, anchored := s.anchored + {log}, parts := parts, pc := Txn.Begin(job));
      Go(t) by { assert AppendDone(s, t); TrackIsStep(w, s, t); }
    }

    // The TXN_BEGIN frame with the undo image, synced before the store is listed.
    method MarkLog(p: Path, snap: seq<byte>, log: Path, ts: seq<byte>, ghost job: Job)
      requires At(Txn.Begin(job)) && log in files
      requires job.path == p && job.snap == snap && job.wal == Some(log)
      modifies this`files, this`parts, this`trace
      ensures At(Active) && old(trace) <= trace
      ensures parts == [Part(p, snap, Some(log))] + old(parts)
      ensures files == old(files)[log := File(old(files)[log].data + W.Encode(W.Frame(W.TXN_BEGIN, ts, snap)), true)]
    {
      hide Run, Init, Inv, W.Encode, Step;
      ghost var s := Last(trace);
      files := files[log := File(files[log].data + W.Encode(W.Frame(W.TXN_BEGIN, ts, snap)), false)];
      ghost var t := s.(files := files, pc := BeginSync(job));
      Go(t) by { assert MarkBegin(s, t, ts); TrackIsStep(w, s, t); }
      files := files[log := File(files[log].data, true)];
      parts := [Part(p, snap, Some(log))] + parts;
      s := t.(files := files, parts := parts, pc := Active);
      Go(s) by { assert MarkBeginDone(t, s); TrackIsStep(w, t, s); }
    }

    // jinn_txn_commit
    method Commit(ts: seq<byte>)
      requires At(Resting())
      modifies this
      ensures At(Resting()) && old(trace) <= trace
      ensures depth == if old(depth) > 0 then old(depth) - 1 else 0
      ensures old(depth) != 1 ==> files == old(files) && journal == old(journal) && parts == old(parts)
      ensures old(depth) == 1 ==>
                && journal == Log(None, None) && parts == []
                && DataOf(files) == Marked(DataOf(old(files)), old(parts), ts)
                && Fated() == Committed && AllAfter(Last(trace))
    {
      hide Trail, DataOf, Marked, AllAfter, W.Encode;
      if depth == 0 { return; }
      if depth > 1 { LeaveInner(); } else { CommitAll(ts); }
    }

    // The commit of the outermost level.
    method CommitAll(ts: seq<byte>)
      requires At(Active) && depth == 1
      modifies this
      ensures At(Idle) && old(trace) <= trace && depth == 0 && journal == Log(None, None) && parts == []
      ensures DataOf(files) == Marked(DataOf(old(files)), old(parts), ts)
      ensures Fated() == Committed && AllAfter(Last(trace))
    {
      hide At, DataOf, Marked, AllAfter, W.Encode, Fated;
      StartCommit();
      SyncAll();
      MarkAll(ts);
      Finish(true);
      Ended();
    }

    method LeaveInner()
      requires At(Active) && depth > 1
      modifies this`depth, this`trace
      ensures At(Active) && old(trace) <= trace && depth == old(depth) - 1
    {
      hide Run, Init, Inv, Step, DataOf;
      ghost var s := Last(trace);
      depth := depth - 1;
      ghost var t := s.(depth := depth);
      Go(t) by { assert Txn.CommitInner(s, t); EndIsStep(w, s, t); }
    }

    method StartCommit()
      requires At(Active) && depth == 1
      modifies this`depth, this`trace
      ensures At(CommitSync(0)) && old(trace) <= trace && depth == 0
      ensures forall i :: 0 <= i < |parts| ==> parts[i].path in files
      ensures forall i :: 0 <= i < |parts| && parts[i].wal.Some? ==> parts[i].wal.value in files
      ensures journal.now.None? ==> journal.kept.None?
    {
      hide Run, Init, Inv, Step, DataOf;
      ghost var s := Last(trace);
      PartsKnown(w, trace);
      depth := 0;
      ghost var t := s.(depth := 0, pc := CommitSync(0));
      Go(t) by { assert CommitOuter(s, t); EndIsStep(w, s, t); }
    }

    // One participant of that loop; a file only ever replaced by rename needs no sync.
    method SyncOne(i: nat)
      requires At(CommitSync(i)) && i < |parts| && parts[i].path in files
      modifies this`files, this`trace
      ensures At(CommitSync(i + 1)) && old(trace) <= trace && DataOf(files) == DataOf(old(files))
      ensures files.Keys == old(files).Keys
    {
      hide Run, Init, Inv, Step, DataOf, EndStep, MarkCommit;
      ghost var s := Last(trace);
      var p := parts[i].path;
      if p !in w.sidecars {
        DataPut(files, p, File(files[p].data, true));
        files := files[p := File(files[p].data, true)];
      }
      ghost var t := s.(files := files, pc := CommitSync(i + 1));
      Go(t) by { assert SyncPart(w, s, t); EndIsStep(w, s, t); }
    }

    method SyncAll()
      requires At(CommitSync(0)) && forall i :: 0 <= i < |parts| ==> parts[i].path in files
      modifies this`files, this`trace
      ensures At(CommitMark(0)) && old(trace) <= trace && DataOf(files) == DataOf(old(files))
      ensures files.Keys == old(files).Keys
    {
      hide At, DataOf;
      for i := 0 to |parts|
        invariant At(CommitSync(i)) && old(trace) <= trace && DataOf(files) == DataOf(old(files))
        invariant files.Keys == old(files).Keys
      {
        SyncOne(i);
      }
      StartMarking();
    }

    // All participants are synced: on to the marks.
    ghost method StartMarking()
      requires At(CommitSync(|parts|))
      modifies this`trace
      ensures At(CommitMark(0)) && old(trace) <= trace
    {
      hide Run, Init, Inv, Step, DataOf, EndStep, MarkCommit;
      var s := Last(trace);
      var t := s.(pc := CommitMark(0));
      Go(t) by { assert SyncPart(w, s, t); EndIsStep(w, s, t); }
    }

    method MarkAll(ts: seq<byte>)
      requires At(CommitMark(0)) && forall i :: 0 <= i < |parts| && parts[i].wal.Some? ==> parts[i].wal.value in files
      modifies this`files, this`trace
      ensures At(Retire(true)) && old(trace) <= trace
      ensures DataOf(files) == Marked(DataOf(old(files)), parts, ts)
    {
      hide Run, Init, Inv, Step, DataOf, W.Encode;
      for i := 0 to |parts|
        invariant At(CommitMark(i)) && old(trace) <= trace && files.Keys == old(files).Keys
        invariant DataOf(files) == Marked(DataOf(old(files)), parts[..i], ts)
      {
        assert parts[..i + 1][..i] == parts[..i];
        MarkPart(i, ts);
      }
      assert parts[..|parts|] == parts;
      ghost var s := Last(trace);
      ghost var t := s.(pc := Retire(true), post := DataOf(s.files));
      Go(t) by { assert MarkCommit(s, t, ts); EndIsStep(w, s, t); }
    }

    method MarkPart(i: nat, ts: seq<byte>)
      requires At(CommitMark(i)) && i < |parts| && (parts[i].wal.Some? ==> parts[i].wal.value in files)
      modifies this`files, this`trace
      ensures At(CommitMark(i + 1)) && old(trace) <= trace && files.Keys == old(files).Keys
      ensures DataOf(files).Keys == files.Keys == old(files).Keys
      ensures parts[i].wal.None? ==> DataOf(files) == DataOf(old(files))
      ensures parts[i].wal.Some? ==>
                var p, before := parts[i].wal.value, DataOf(old(files));
                p in before && DataOf(files) == before[p := before[p] + W.Encode(W.Frame(W.TXN_COMMIT, ts, []))]
    {
      hide At, DataOf, W.Encode;
      DataKeys(files);
      if parts[i].wal.None? {
        SkipMark(i, ts);
        return;
      }
      var p := parts[i].wal.value;
      AppendCommit(i, p, ts);
      DataPut(old(files), p, files[p]);
      ghost var appended := files;
      SyncCommit(i, p);
      DataPut(appended, p, files[p]);
    }

    // A participant without a log needs no mark.
    ghost method SkipMark(i: nat, ts: seq<byte>)
      requires At(CommitMark(i)) && i < |parts| && parts[i].wal.None?
      modifies this`trace
      ensures At(CommitMark(i + 1)) && old(trace) <= trace
    {
      hide Run, Init, Inv, Step, DataOf, EndStep;
      var s := Last(trace);
      var t := s.(pc := CommitMark(i + 1));
      Go(t) by { assert MarkCommit(s, t, ts); EndIsStep(w, s, t); }
    }

    // The TXN_COMMIT frame at the end of a log, and its sync.
    method AppendCommit(i: nat, p: Path, ts: seq<byte>)
      requires At(CommitMark(i)) && i < |parts| && parts[i].wal == Some(p) && p in files
      modifies this`files, this`trace
      ensures At(CommitMarkSync(i)) && old(trace) <= trace
      ensures files == old(files)[p := File(old(files)[p].data + W.Encode(W.Frame(W.TXN_COMMIT, ts, [])), false)]
    {
      hide Run, Init, Inv, Step, DataOf, W.Encode, EndStep;
      ghost var s := Last(trace);
      files := files[p := File(files[p].data + W.Encode(W.Frame(W.TXN_COMMIT, ts, [])), false)];
      ghost var t := s.(files := files, pc := CommitMarkSync(i));
      Go(t) by { assert MarkCommit(s, t, ts); EndIsStep(w, s, t); }
    }

    method SyncCommit(i: nat, p: Path)
      requires At(CommitMarkSync(i)) && i < |parts| && parts[i].wal == Some(p) && p in files
      modifies this`files, this`trace
      ensures At(CommitMark(i + 1)) && old(trace) <= trace && files == old(files)[p := File(old(files)[p].data, true)]
    {
      hide Run, Init, Inv, Step, DataOf, EndStep;
      ghost var s := Last(trace);
      files := files[p := File(files[p].data, true)];
      ghost var t := s.(files := files, pc := CommitMark(i + 1));
      Go(t) by { assert MarkCommitDone(s, t); EndIsStep(w, s, t); }
    }

    // jinn_txn_journal_finish and the release of the participants.
    method Finish(commit: bool)
      requires At(Retire(commit)) && depth == 0
      requires journal.now.None? ==> journal.kept.None?
      modifies this`journal, this`parts, this`trace
      ensures At(Idle) && old(trace) <= trace && journal == Log(None, None) && parts == []
      ensures Fated() == if commit then Committed else old(Fated())
    {
      hide Run, Init, Inv, Step;
      ghost var s := Last(trace);
      if journal.now.None? {
        parts := [];
        ghost var t := s.(pc := Idle, parts := [], fate := if commit then Committed else s.fate);
        Go(t) by { assert Unlink(s, t); EndIsStep(w, s, t); }
        return;
      }
      journal := Log(None, journal.kept);
      ghost var t := s.(journal := journal, pc := RetireDir(commit), fate := if commit then Unlinked else s.fate);
      Go(t) by { assert Unlink(s, t); EndIsStep(w, s, t); }
      journal, parts := Log(None, None), [];
      s := t.(journal := journal, pc := Idle, parts := [], fate := if commit then Committed else t.fate);
      Go(s) by { assert UnlinkDone(t, s); EndIsStep(w, t, s); }
    }

    // jinn_txn_rollback
    method Rollback()
      requires At(Resting())
      modifies this
      ensures At(Idle) && depth == 0 && old(trace) <= trace
      ensures old(depth) == 0 ==> files == old(files) && journal == old(journal) && parts == old(parts)
      ensures old(depth) > 0 ==>
                && journal == Log(None, None) && parts == []
                && DataOf(files) == Undone(DataOf(old(files)), old(parts))
                && AllBefore(Last(trace))
    {
      hide At, DataOf, AllBefore, Undone, Fated;
      if depth == 0 { return; }
      StartRollback();
      UndoAll();
      Finish(false);
      Ended();
    }

    method StartRollback()
      requires At(Active) && depth > 0
      modifies this`depth, this`trace
      ensures At(Roll(0)) && old(trace) <= trace && depth == 0 && Fated() == Undecided
      ensures forall i :: 0 <= i < |parts| ==> parts[i].path in files
      ensures journal.now.None? ==> journal.kept.None?
    {
      hide Run, Init, Inv, Step, DataOf, RecoveryStep, RollPart, RollPartDone;
      ghost var s := Last(trace);
      PartsKnown(w, trace);
      depth := 0;
      ghost var t := s.(depth := 0, pc := Roll(0));
      Go(t) by { assert Txn.Rollback(s, t); EndIsStep(w, s, t); }
    }

    method UndoAll()
      requires At(Roll(0)) && forall i :: 0 <= i < |parts| ==> parts[i].path in files
      modifies this`files, this`trace
      ensures At(Retire(false)) && old(trace) <= trace && Fated() == old(Fated())
      ensures DataOf(files) == Undone(DataOf(old(files)), parts)
    {
      hide At, DataOf, Fated;
      for i := 0 to |parts|
        invariant At(Roll(i)) && old(trace) <= trace && files.Keys == old(files).Keys
        invariant Fated() == old(Fated())
        invariant DataOf(files) == Undone(DataOf(old(files)), parts[..i])
      {
        assert parts[..i + 1][..i] == parts[..i];
        UndoPart(i);
      }
      assert parts[..|parts|] == parts;
      AllUndone();
    }

    // Every image is back: on to the journal.
    ghost method AllUndone()
      requires At(Roll(|parts|))
      modifies this`trace
      ensures At(Retire(false)) && old(trace) <= trace && Fated() == old(Fated())
    {
      hide Run, Init, Inv, Step, DataOf;
      var s := Last(trace);
      var t := s.(pc := Retire(false));
      Go(t) by { assert RollPart(s, t); EndIsStep(w, s, t); }
    }

    method UndoPart(i: nat)
      requires At(Roll(i)) && i < |parts| && parts[i].path in files
      modifies this`files, this`trace
      ensures At(Roll(i + 1)) && old(trace) <= trace && Fated() == old(Fated())
      ensures files.Keys == old(files).Keys
      ensures DataOf(files) == DataOf(old(files))[parts[i].path := parts[i].snap]
    {
      hide Run, Init, Inv, Step, DataOf;
      ghost var s := Last(trace);
      var p := parts[i].path;
      DataPut(files, p, File(parts[i].snap, false));
      files := files[p := File(parts[i].snap, false)];
      ghost var t := s.(files := files, pc := RollSync(i));
      Go(t) by { assert RollPart(s, t); EndIsStep(w, s, t); }
      DataPut(files, p, File(parts[i].snap, true));
      files := files[p := File(parts[i].snap, true)];
      s := t.(files := files, pc := Roll(i + 1));
      Go(s) by { assert RollPartDone(t, s); EndIsStep(w, t, s); }
    }

    // journal_recover after a crash, from the decision on: rewrite the recorded files, the
    // newest record first, then remove the journal.
    method Recover()
      requires At(Down)
      modifies this
      ensures At(Idle) && old(trace) <= trace && journal == Log(None, None)
      ensures Settled(Last(trace))
      ensures match Found(old(journal).now, w.env)
              case Images(ims) => DataOf(files) == Restore(DataOf(old(files)), ims)
              case Refused => false
    {
      hide At, DataOf, Encode, Full, ReadAll, Settled;
      Restorable();
      if journal.now.None? {
        Decide(Idle);
        Ended();
        return;
      }
      if |journal.now.value| < 8 {
        Decide(RecUnlink);
      } else {
        var images := ReadJournal(w.env, journal.now.value).images;
        Decide(Rec(images, 0));
        RewriteAll(images);
      }
      RemoveJournal();
      Ended();
    }

    // What recovery makes of the journal it finds.
    ghost method Decide(pc: Pc)
      requires At(Down)
      requires pc == if journal.now.None? then Idle
                     else if |journal.now.value| < 8 then RecUnlink
                     else match ReadJournal(w.env, journal.now.value)
                       case Refused => Stuck
                       case Images(ims) => Rec(ims, 0)
      modifies this`trace
      ensures At(pc) && old(trace) <= trace
    {
      hide Run, Init, Inv, Step, DataOf, ReadJournal;
      var s := Last(trace);
      var t := s.(pc := pc);
      Go(t) by { assert Txn.Recover(w, s, t); RecoveryIsStep(w, s, t); }
    }

    lemma Restorable()
      requires At(Down)
      ensures journal.kept == journal.now && (journal.now.Some? ==> Found(journal.now, w.env).Images?)
      ensures journal.now.Some? && |journal.now.value| < 8 ==> Found(journal.now, w.env) == Images([])
    {
      hide Run, Found;
      DownShape(w, trace);
    }

    lemma Ended()
      requires At(Idle)
      ensures Settled(Last(trace))
      ensures Fated() == Undecided ==> AllBefore(Last(trace))
      ensures Fated() == Committed ==> AllAfter(Last(trace))
    {
      hide Run, AllBefore, AllAfter;
      AtRest(w, trace);
    }

    // The journal's unlink, then the sync of its directory.
    method RemoveJournal()
      requires At(RecUnlink)
      modifies this`journal, this`trace
      ensures At(Idle) && old(trace) <= trace && journal == Log(None, None)
    {
      hide Run, Init, Inv, Step, DataOf;
      ghost var s := Last(trace);
      journal := Log(None, journal.kept);
      ghost var t := s.(journal := journal, pc := RecUnlinkDir);
      Go(t) by { assert RecRemove(s, t); RecoveryIsStep(w, s, t); }
      journal := Log(None, None);
      s := t.(journal := journal, pc := Idle);
      Go(s) by { assert RecRemoveDone(t, s); RecoveryIsStep(w, t, s); }
    }

    method RewriteAll(images: seq<Image>)
      requires At(Rec(images, 0))
      modifies this`files, this`trace
      ensures At(RecUnlink) && old(trace) <= trace
      ensures DataOf(files) == Restore(DataOf(old(files)), images)
    {
      hide At, DataOf;
      var i := 0;
      assert images[..|images| - 0] == images;
      while i < |images|
        invariant i <= |images| && At(Rec(images, i)) && old(trace) <= trace
        invariant Restore(DataOf(files), images[..|images| - i]) == Restore(DataOf(old(files)), images)
      {
        assert images[..|images| - i][..|images| - i - 1] == images[..|images| - i - 1];
        RewriteOne(images, i);
        i := i + 1;
      }
      AllRewritten(images);
    }

    ghost method AllRewritten(images: seq<Image>)
      requires At(Rec(images, |images|))
      modifies this`trace
      ensures At(RecUnlink) && old(trace) <= trace
    {
      hide Run, Init, Inv, Step, DataOf;
      var s := Last(trace);
      var t := s.(pc := RecUnlink);
      Go(t) by { assert Rewrite(s, t); RecoveryIsStep(w, s, t); }
    }

    method RewriteOne(images: seq<Image>, i: nat)
      requires i < |images| && At(Rec(images, i))
      modifies this`files, this`trace
      ensures At(Rec(images, i + 1)) && old(trace) <= trace
      ensures var im := images[|images| - 1 - i];
              DataOf(files) == DataOf(old(files))[im.path := im.data]
    {
      hide Run, Init, Inv, Step, DataOf;
      ghost var s := Last(trace);
      var im := images[|images| - 1 - i];
      DataPut(files, im.path, File(im.data, false));
      files := files[im.path := File(im.data, false)];
      ghost var t := s.(files := files, pc := RecSync(images, i));
      Go(t) by { assert Rewrite(s, t); RecoveryIsStep(w, s, t); }
      DataPut(files, im.path, File(im.data, true));
      files := files[im.path := File(im.data, true)];
      s := t.(files := files, pc := Rec(images, i + 1));
      Go(s) by { assert RewriteDone(t, s); RecoveryIsStep(w, t, s); }
    }
  }

  lemma OutsideIsStep(w: World, s: State, t: State)
    requires OutsideStep(w, s, t)
    ensures Step(w, s, t)
  {
  }

  lemma TrackIsStep(w: World, s: State, t: State)
    requires TrackStep(w, s, t)
    ensures Step(w, s, t)
  {
  }

  lemma EndIsStep(w: World, s: State, t: State)
    requires EndStep(w, s, t)
    ensures Step(w, s, t)
  {
  }

  lemma RecoveryIsStep(w: World, s: State, t: State)
    requires RecoveryStep(w, s, t)
    ensures Step(w, s, t)
  {
  }

  // A crash leaves a journal that recovery can read, or none.
  lemma DownShape(w: World, run: seq<State>)
    requires Trail(w, run) && Last(run).pc == Down
    ensures var j := Last(run).journal;
            && j.kept == j.now
            && (j.now.Some? ==> Found(j.now, w.env).Images?)
            && (j.now.Some? && |j.now.value| < 8 ==> Found(j.now, w.env) == Images([]))
  {
    hide Init, Step, Full, Complete, PathsOf, Oldest, FirstImage, ReadAll;
    RunInv(w, run, |run| - 1);
    var s := Last(run);
    if s.journal.now.Some? && |s.journal.now.value| >= 8 {
      var n := |s.journal.now.value|;
      assert s.journal.now.value == Full(w.env, s.recs)[..n];
      CutJournalReads(w.env, s.recs, n);
    }
  }

  lemma AtRest(w: World, run: seq<State>)
    requires Trail(w, run) && Last(run).pc == Idle
    ensures Settled(Last(run))
  {
    hide Init, Step, AllBefore, AllAfter;
    AllOrNothing(w, run, |run| - 1);
  }

  lemma DataKeys(files: map<Path, File>)
    ensures DataOf(files).Keys == files.Keys
  {
  }

  lemma DataPut(files: map<Path, File>, p: Path, f: File)
    ensures DataOf(files[p := f]) == DataOf(files)[p := f.data] && DataOf(files).Keys == files.Keys
    ensures p in files ==> DataOf(files)[p] == files[p].data
    ensures p in files && files[p].data == f.data ==> DataOf(files[p := f]) == DataOf(files)
  {
  }

  // In a running transaction every participant and every participant's log is a file.
  lemma PartsKnown(w: World, run: seq<State>)
    requires Trail(w, run) && Last(run).pc == Active
    ensures var s := Last(run);
            && (forall i :: 0 <= i < |s.parts| ==> s.parts[i].path in s.files)
            && (forall i :: 0 <= i < |s.parts| && s.parts[i].wal.Some? ==> s.parts[i].wal.value in s.files)
            && (s.journal.now.None? ==> s.journal.kept.None?) && s.fate == Undecided
  {
    hide Init, Step, Encode, Full, PathsOf, FirstImage, Oldest;
    RunInv(w, run, |run| - 1);
    var s := Last(run);
    assert Undoable(s, s.parts);
    forall i | 0 <= i < |s.parts| ensures s.parts[i].path in Tracked(s.parts) {
    }
  }
}
