// Multi-file transactions over the undo journal (runtime/wal.c, runtime/txn_journal.c and
// the atomic rewrite of runtime/durable.c) as a step system in which the machine may stop
// after any step, including the steps of recovery.
module Txn {
  import opened Bytes
  import opened Options
  import opened Journal
  import W = WalFormat

  // A file as the program sees it. While it is not synced a crash may leave anything.
  datatype File = File(data: seq<byte>, synced: bool)

  // The journal file: its current content, and what a crash is sure to leave of it.
  datatype Log = Log(now: Option<seq<byte>>, kept: Option<seq<byte>>)

  // A tracked file with its undo image and, for a store, its write-ahead log.
  datatype Part = Part(path: Path, snap: seq<byte>, wal: Option<Path>)

  // One jinn_txn_track_impl call: `inner` while it is tracking the store's log.
  datatype Job = Job(path: Path, snap: seq<byte>, wal: Option<Path>, inner: bool) {
    function Target(): Path { if inner && wal.Some? then wal.value else path }
  }

  datatype Pc =
    | Idle
    | Active
    | Rewriting(path: Path)
    | Create(job: Job) | CreateSync(job: Job)
    | Append(job: Job) | AppendSync(job: Job)
    | Begin(job: Job) | BeginSync(job: Job)
    | CommitSync(i: nat) | CommitMark(i: nat) | CommitMarkSync(i: nat)
    | Roll(i: nat) | RollSync(i: nat)
    | Retire(commit: bool) | RetireDir(commit: bool)
    | Down
    | Rec(images: seq<Image>, i: nat) | RecSync(images: seq<Image>, i: nat)
    | RecUnlink | RecUnlinkDir
    | Stuck

  // Whether the last transaction is before its commit point, past it, or has returned.
  datatype Fate = Undecided | Unlinked | Committed

  type Content = map<Path, seq<byte>>

  // The paths accepted, the record hash, and the files only ever replaced by rename.
  datatype World = World(env: Env, sidecars: set<Path>)

  // The last four fields are history: every undo record written by this transaction, the
  // contents at its begin and at its commit, and the files whose fate it decides.
  datatype State = State(
    files: map<Path, File>, journal: Log, depth: nat, parts: seq<Part>, pc: Pc,
    recs: seq<Image>, pre: Content, post: Content, anchored: set<Path>, fate: Fate)

  function DataOf(files: map<Path, File>): Content {
    map p | p in files :: files[p].data
  }

  function Tracked(parts: seq<Part>): set<Path> {
    set i | 0 <= i < |parts| :: parts[i].path
  }

  function Put(s: State, p: Path, data: seq<byte>): map<Path, File> { s.files[p := File(data, false)] }

  function Synced(s: State, p: Path): map<Path, File>
    requires p in s.files
  {
    s.files[p := File(s.files[p].data, true)]
  }

  // ----- the steps -----

  // Writes outside any transaction.
  ghost predicate IdleWrite(w: World, s: State, t: State, p: Path, data: seq<byte>) {
    && s.pc == Idle && p in s.files && p !in w.sidecars
    && t == s.(files := Put(s, p, data), anchored := s.anchored - {p})
  }

  ghost predicate IdleSync(s: State, t: State, p: Path) {
    s.pc == Idle && p in s.files && t == s.(files := Synced(s, p))
  }

  // jinn_atomic_rewrite: rename, then make the directory durable. Inside a transaction only
  // on tracked files.
  ghost predicate Rename(s: State, t: State, p: Path, data: seq<byte>) {
    && p in s.files
    && ((s.pc == Idle && t.anchored == s.anchored - {p})
        || (s.pc == Active && p in Tracked(s.parts) && t.anchored == s.anchored))
    && t == s.(files := Put(s, p, data), pc := Rewriting(p), anchored := t.anchored)
  }

  ghost predicate RenameDone(s: State, t: State) {
    && s.pc.Rewriting? && s.pc.path in s.files
    && t == s.(files := Synced(s, s.pc.path), pc := if s.depth > 0 then Active else Idle)
  }

  // jinn_txn_begin
  ghost predicate BeginOuter(s: State, t: State) {
    && s.pc == Idle
    && t == s.(depth := 1, parts := [], pc := Active, recs := [], pre := DataOf(s.files), post := map[],
               anchored := (set p | p in s.files && s.files[p].synced), fate := Undecided)
  }

  ghost predicate BeginInner(s: State, t: State) {
    s.pc == Active && t == s.(depth := s.depth + 1)
  }

  // A write in place to a file already tracked, and a sync of one.
  ghost predicate Mutate(w: World, s: State, t: State, p: Path, data: seq<byte>) {
    && s.pc == Active && p in Tracked(s.parts) && p in s.files && p !in w.sidecars
    && t == s.(files := Put(s, p, data))
  }

  ghost predicate Force(s: State, t: State, p: Path) {
    s.pc == Active && p in s.files && p in Tracked(s.parts) && t == s.(files := Synced(s, p))
  }

  // jinn_txn_track_impl: take the snapshot, write its record durably, do the same for the
  // log if it is new, mark the log, and only then list the participant.
  ghost predicate TrackStart(w: World, s: State, t: State, p: Path, wal: Option<Path>) {
    && s.pc == Active && p in s.files
    && (wal.Some? ==> wal.value in s.files && wal.value != p && wal.value !in w.sidecars && p !in w.sidecars)
    && var job := Job(p, s.files[p].data, wal, false);
       t == s.(pc := if s.journal.now.None? then Create(job) else Append(job))
  }

  ghost predicate CreateJournal(s: State, t: State) {
    s.pc.Create? && t == s.(journal := Log(Some(MAGIC), s.journal.kept), pc := CreateSync(s.pc.job))
  }

  ghost predicate CreateDone(s: State, t: State) {
    s.pc.CreateSync? && t == s.(journal := Log(s.journal.now, s.journal.now), pc := Append(s.pc.job))
  }

  ghost predicate AppendRec(w: World, s: State, t: State) {
    && s.pc.Append? && s.pc.job.Target() in s.files && s.journal.now.Some?
    && var im := Image(s.pc.job.Target(), s.files[s.pc.job.Target()].data);
       && Recordable(w.env, im)
       && t == s.(journal := Log(Some(s.journal.now.value + Encode(w.env, im)), s.journal.kept),
                  recs := s.recs + [im], pc := AppendSync(s.pc.job))
  }

  ghost predicate AppendDone(s: State, t: State) {
    && s.pc.AppendSync? && |s.recs| > 0
    && var job, im := s.pc.job, s.recs[|s.recs| - 1];
       && t.journal == Log(s.journal.now, s.journal.now)
       && t == s.(journal := t.journal, anchored := s.anchored + {im.path}, parts := t.parts, pc := t.pc)
       && if job.inner then
            t.parts == [Part(im.path, im.data, None)] + s.parts && t.pc == Begin(job)
          else if job.wal.None? then
            t.parts == [Part(im.path, im.data, None)] + s.parts && t.pc == Active
          else if job.wal.value in Tracked(s.parts) then
            t.parts == s.parts && t.pc == Begin(job)
          else
            t.parts == s.parts && t.pc == Append(job.(inner := true))
  }

  ghost predicate MarkBegin(s: State, t: State, ts: seq<byte>) {
    && s.pc.Begin? && s.pc.job.wal.Some? && s.pc.job.wal.value in s.files
    && var p := s.pc.job.wal.value;
       t == s.(files := Put(s, p, s.files[p].data + W.Encode(W.Frame(W.TXN_BEGIN, ts, s.pc.job.snap))),
               pc := BeginSync(s.pc.job))
  }

  ghost predicate MarkBeginDone(s: State, t: State) {
    && s.pc.BeginSync? && s.pc.job.wal.Some? && s.pc.job.wal.value in s.files
    && var job := s.pc.job;
       t == s.(files := Synced(s, job.wal.value), parts := [Part(job.path, job.snap, job.wal)] + s.parts,
               pc := Active)
  }

  // jinn_txn_commit: sync every participant except those replaced by rename, mark every
  // log, then remove the journal.
  ghost predicate CommitInner(s: State, t: State) {
    s.pc == Active && s.depth > 1 && t == s.(depth := s.depth - 1)
  }

  ghost predicate CommitOuter(s: State, t: State) {
    s.pc == Active && s.depth == 1 && t == s.(depth := 0, pc := CommitSync(0))
  }

  ghost predicate SyncPart(w: World, s: State, t: State) {
    && s.pc.CommitSync?
    && if s.pc.i >= |s.parts| then t == s.(pc := CommitMark(0))
       else
         && s.parts[s.pc.i].path in s.files
         && t == s.(files := if s.parts[s.pc.i].path in w.sidecars then s.files else Synced(s, s.parts[s.pc.i].path),
                    pc := CommitSync(s.pc.i + 1))
  }

  ghost predicate MarkCommit(s: State, t: State, ts: seq<byte>) {
    && s.pc.CommitMark?
    && if s.pc.i >= |s.parts| then
         t == s.(pc := Retire(true), post := DataOf(s.files))
       else if s.parts[s.pc.i].wal.None? then t == s.(pc := CommitMark(s.pc.i + 1))
       else
         && var p := s.parts[s.pc.i].wal.value;
            && p in s.files
            && t == s.(files := Put(s, p, s.files[p].data + W.Encode(W.Frame(W.TXN_COMMIT, ts, []))),
                       pc := CommitMarkSync(s.pc.i))
  }

  ghost predicate MarkCommitDone(s: State, t: State) {
    && s.pc.CommitMarkSync? && s.pc.i < |s.parts| && s.parts[s.pc.i].wal.Some?
    && s.parts[s.pc.i].wal.value in s.files
    && t == s.(files := Synced(s, s.parts[s.pc.i].wal.value), pc := CommitMark(s.pc.i + 1))
  }

  // jinn_txn_rollback: write back every undo image, newest participant first.
  ghost predicate Rollback(s: State, t: State) {
    s.pc == Active && t == s.(depth := 0, pc := Roll(0))
  }

  ghost predicate RollPart(s: State, t: State) {
    && s.pc.Roll?
    && if s.pc.i >= |s.parts| then t == s.(pc := Retire(false))
       else
         && s.parts[s.pc.i].path in s.files
         && t == s.(files := Put(s, s.parts[s.pc.i].path, s.parts[s.pc.i].snap), pc := RollSync(s.pc.i))
  }

  ghost predicate RollPartDone(s: State, t: State) {
    && s.pc.RollSync? && s.pc.i < |s.parts| && s.parts[s.pc.i].path in s.files
    && t == s.(files := Synced(s, s.parts[s.pc.i].path), pc := Roll(s.pc.i + 1))
  }

  // jinn_txn_journal_finish: unlink, then make the unlink durable. Without a journal there
  // is nothing to do.
  ghost predicate Unlink(s: State, t: State) {
    && s.pc.Retire?
    && if s.journal.now.None? then
         t == s.(pc := Idle, parts := [], fate := if s.pc.commit then Committed else s.fate)
       else
         t == s.(journal := Log(None, s.journal.kept), pc := RetireDir(s.pc.commit),
                 fate := if s.pc.commit then Unlinked else s.fate)
  }

  ghost predicate UnlinkDone(s: State, t: State) {
    && s.pc.RetireDir?
    && t == s.(journal := Log(None, None), pc := Idle, parts := [],
               fate := if s.pc.commit then Committed else s.fate)
  }

  // What a crash may leave of the journal: a prefix that is at least the part already
  // durable, or either state of an unlink not yet durable.
  ghost predicate Survives(j: Log, left: Option<seq<byte>>) {
    match left
    case None => j.now.None? || j.kept.None?
    case Some(b) =>
      || (j.now.Some? && b <= j.now.value && (j.kept.Some? ==> |j.kept.value| <= |b|))
      || (j.now.None? && j.kept == Some(b))
  }

  ghost predicate Crash(s: State, t: State) {
    && t.files.Keys == s.files.Keys
    && (forall p :: p in s.files ==> t.files[p].synced && (s.files[p].synced ==> t.files[p].data == s.files[p].data))
    && Survives(s.journal, t.journal.now) && t.journal.kept == t.journal.now
    && t == s.(files := t.files, journal := t.journal, depth := 0, parts := [], pc := Down)
  }

  // journal_recover
  ghost predicate Recover(w: World, s: State, t: State) {
    && s.pc == Down
    && if s.journal.now.None? then t == s.(pc := Idle)
       else if |s.journal.now.value| < 8 then t == s.(pc := RecUnlink)
       else match ReadJournal(w.env, s.journal.now.value)
         case Refused => t == s.(pc := Stuck)
         case Images(ims) => t == s.(pc := Rec(ims, 0))
  }

  ghost predicate Rewrite(s: State, t: State) {
    && s.pc.Rec?
    && if s.pc.i >= |s.pc.images| then t == s.(pc := RecUnlink)
       else
         var im := s.pc.images[|s.pc.images| - 1 - s.pc.i];
         t == s.(files := Put(s, im.path, im.data), pc := RecSync(s.pc.images, s.pc.i))
  }

  ghost predicate RewriteDone(s: State, t: State) {
    && s.pc.RecSync? && s.pc.i < |s.pc.images|
    && var p := s.pc.images[|s.pc.images| - 1 - s.pc.i].path;
       p in s.files && t == s.(files := Synced(s, p), pc := Rec(s.pc.images, s.pc.i + 1))
  }

  ghost predicate RecRemove(s: State, t: State) {
    s.pc == RecUnlink && t == s.(journal := Log(None, s.journal.kept), pc := RecUnlinkDir)
  }

  ghost predicate RecRemoveDone(s: State, t: State) {
    s.pc == RecUnlinkDir && t == s.(journal := Log(None, None), pc := Idle)
  }

  ghost predicate OutsideStep(w: World, s: State, t: State) {
    || (exists p, data :: IdleWrite(w, s, t, p, data))
    || (exists p :: IdleSync(s, t, p))
    || (exists p, data :: Rename(s, t, p, data))
    || RenameDone(s, t) || BeginOuter(s, t) || BeginInner(s, t)
    || (exists p, data :: Mutate(w, s, t, p, data))
    || (exists p :: Force(s, t, p))
  }

  ghost predicate TrackStep(w: World, s: State, t: State) {
    || (exists p, wal :: TrackStart(w, s, t, p, wal))
    || CreateJournal(s, t) || CreateDone(s, t) || AppendRec(w, s, t) || AppendDone(s, t)
    || (exists ts :: MarkBegin(s, t, ts))
    || MarkBeginDone(s, t)
  }

  ghost predicate EndStep(w: World, s: State, t: State) {
    || CommitInner(s, t) || CommitOuter(s, t) || SyncPart(w, s, t)
    || (exists ts :: MarkCommit(s, t, ts))
    || MarkCommitDone(s, t)
    || Rollback(s, t) || RollPart(s, t) || RollPartDone(s, t)
    || Unlink(s, t) || UnlinkDone(s, t)
  }

  ghost predicate RecoveryStep(w: World, s: State, t: State) {
    || Recover(w, s, t) || Rewrite(s, t) || RewriteDone(s, t) || RecRemove(s, t) || RecRemoveDone(s, t)
  }

  ghost predicate Step(w: World, s: State, t: State) {
    OutsideStep(w, s, t) || TrackStep(w, s, t) || EndStep(w, s, t) || RecoveryStep(w, s, t) || Crash(s, t)
  }

  // A process starting on any files, with no transaction left behind.
  ghost predicate Init(w: World, s: State) {
    && s.pc == Idle && s.journal == Log(None, None) && s.depth == 0 && s.parts == [] && s.recs == []
    && s.anchored == {} && s.fate == Undecided && s.pre == DataOf(s.files)
    && (forall p :: p in w.sidecars && p in s.files ==> s.files[p].synced)
  }

  ghost predicate Run(w: World, run: seq<State>) {
    && |run| > 0 && Init(w, run[0])
    && forall i :: 0 <= i < |run| - 1 ==> Step(w, run[i], run[i + 1])
  }

  // ----- what holds in every state of every run -----

  ghost predicate Before(s: State, p: Path) {
    p in s.files && p in s.pre && s.files[p] == File(s.pre[p], true)
  }

  ghost predicate After(s: State, p: Path) {
    p in s.files && p in s.post && s.files[p] == File(s.post[p], true)
  }

  ghost predicate AllBefore(s: State) { forall p :: p in s.anchored ==> Before(s, p) }

  ghost predicate AllAfter(s: State) { forall p :: p in s.anchored ==> After(s, p) }

  // All or nothing: before the commit point every file is as at begin, after commit has
  // returned every file is as committed, in between it is one or the other for all.
  ghost predicate Settled(s: State) {
    match s.fate
    case Undecided => AllBefore(s)
    case Unlinked => AllBefore(s) || AllAfter(s)
    case Committed => AllAfter(s)
  }

  ghost predicate Base(w: World, s: State) {
    && s.pre.Keys == s.files.Keys && s.anchored <= s.files.Keys
    && AllRecordable(w.env, s.recs)
    && (forall i :: 0 <= i < |s.recs| ==> s.recs[i].path in s.files)
    && (forall p :: p in s.files && FirstImage(s.recs, p).Some? ==> FirstImage(s.recs, p).value == s.pre[p])
  }

  ghost predicate SidecarsSynced(w: World, s: State, except: set<Path>) {
    forall p :: p in w.sidecars && p in s.files && p !in except ==> s.files[p].synced
  }

  ghost predicate NoJournal(s: State) { s.journal == Log(None, None) }

  // The first d records are durable and all of them are in the file.
  ghost predicate Held(w: World, s: State, d: nat) {
    && d <= |s.recs| <= d + 1
    && s.journal.now == Some(Full(w.env, s.recs)) && s.journal.kept == Some(Full(w.env, s.recs[..d]))
  }

  ghost predicate HeldOrNone(w: World, s: State) {
    Held(w, s, |s.recs|) || (NoJournal(s) && s.recs == [])
  }

  // A file that is not safely at its old content has its image among the first d records.
  ghost predicate Guarded(s: State, d: nat)
    requires d <= |s.recs|
  {
    forall p :: p in s.anchored ==> p in PathsOf(s.recs[..d]) || Before(s, p)
  }

  // The undo image that rollback writes last for p.
  ghost function Oldest(parts: seq<Part>, p: Path): Option<seq<byte>> {
    if |parts| == 0 then None
    else if Oldest(parts[1..], p).Some? then Oldest(parts[1..], p)
    else if parts[0].path == p then Some(parts[0].snap) else None
  }

  ghost predicate Undoable(s: State, parts: seq<Part>) {
    && (forall p :: p in Tracked(parts) ==> p in s.files)
    && (forall p :: p in s.files && Oldest(parts, p).Some? ==> p in s.pre && Oldest(parts, p).value == s.pre[p])
  }

  // While the transaction runs: d records are durable, the files in `flight` are recorded
  // but not yet listed, and nothing else has been touched.
  ghost predicate Live(w: World, s: State, d: nat, flight: set<Path>)
    requires d <= |s.recs|
  {
    && s.fate == Undecided
    && PathsOf(s.recs[..d]) <= s.anchored
    && PathsOf(s.recs[..d]) == Tracked(s.parts) + flight
    && (forall p :: p in s.files && p !in PathsOf(s.recs[..d]) ==>
          p in s.pre && s.files[p].data == s.pre[p] && (p in s.anchored ==> s.files[p].synced))
    && Undoable(s, s.parts)
    && (forall i :: 0 <= i < |s.parts| && s.parts[i].wal.Some? ==>
          s.parts[i].wal.value in Tracked(s.parts) && s.parts[i].wal.value !in w.sidecars)
  }

  ghost predicate JobOk(w: World, s: State, job: Job) {
    && job.path in s.files
    && (job.inner ==> job.wal.Some?)
    && (job.wal.Some? ==>
          job.wal.value in s.files && job.wal.value != job.path && job.wal.value !in w.sidecars)
    && (job.path !in Tracked(s.parts) ==> job.path in s.pre && job.snap == s.pre[job.path])
  }

  function Flight(job: Job): set<Path> { if job.inner then {job.path} else {} }

  ghost predicate PartSynced(s: State, part: Part) { part.path in s.files && s.files[part.path].synced }

  ghost predicate TrackedSynced(s: State, except: set<Path>) {
    forall p :: p in Tracked(s.parts) && p !in except ==> p in s.files && s.files[p].synced
  }

  ghost predicate CrashLeft(w: World, s: State, b: seq<byte>) {
    && b <= Full(w.env, s.recs)
    && s.fate != Committed
    && (if |b| < 8 then AllBefore(s) else Guarded(s, Complete(w.env, s.recs, |b| - 8)))
  }

  ghost predicate Crashed(w: World, s: State) {
    && s.depth == 0
    && SidecarsSynced(w, s, {}) && s.journal.kept == s.journal.now
    && (if s.journal.now.None? then Settled(s) else CrashLeft(w, s, s.journal.now.value))
  }

  ghost predicate Recovering(w: World, s: State, images: seq<Image>, i: nat) {
    && s.depth == 0
    && s.journal.now.Some? && s.journal.kept == s.journal.now && |s.journal.now.value| >= 8
    && s.journal.now.value <= Full(w.env, s.recs) && s.fate != Committed
    && images == s.recs[..Complete(w.env, s.recs, |s.journal.now.value| - 8)]
    && i <= |images|
    && forall p :: p in s.anchored ==> p in PathsOf(images[..|images| - i]) || Before(s, p)
  }

  ghost predicate Rolling(w: World, s: State, i: nat) {
    && s.depth == 0 && i <= |s.parts| && s.fate == Undecided
    && HeldOrNone(w, s) && Guarded(s, |s.recs|) && Tracked(s.parts) <= PathsOf(s.recs)
    && Undoable(s, s.parts[i..])
    && forall p :: p in s.anchored ==> p in Tracked(s.parts[i..]) || Before(s, p)
  }

  ghost predicate Open(w: World, s: State) {
    HeldOrNone(w, s) && Live(w, s, |s.recs|, {})
  }

  // Between calls: no transaction, one running, or a rename on its way.
  ghost predicate Outside(w: World, s: State) {
    match s.pc
    case Idle => s.depth == 0 && NoJournal(s) && SidecarsSynced(w, s, {}) && Settled(s)
    case Active => s.depth > 0 && Open(w, s) && SidecarsSynced(w, s, {})
    case Rewriting(p) =>
      && SidecarsSynced(w, s, {p})
      && (if s.depth > 0 then Open(w, s) && p in Tracked(s.parts) else NoJournal(s) && Settled(s))
    case _ => false
  }

  // Inside jinn_txn_track_impl.
  ghost predicate Tracking(w: World, s: State) {
    match s.pc
    case Create(job) =>
      && s.depth > 0 && NoJournal(s) && s.recs == [] && !job.inner && JobOk(w, s, job)
      && Live(w, s, 0, {}) && SidecarsSynced(w, s, {})
    case CreateSync(job) =>
      && s.depth > 0 && s.journal == Log(Some(MAGIC), None) && s.recs == [] && !job.inner && JobOk(w, s, job)
      && Live(w, s, 0, {}) && SidecarsSynced(w, s, {})
    case Append(job) =>
      && s.depth > 0 && Held(w, s, |s.recs|) && JobOk(w, s, job)
      && Live(w, s, |s.recs|, Flight(job)) && SidecarsSynced(w, s, {})
    case AppendSync(job) =>
      && s.depth > 0 && |s.recs| > 0 && Held(w, s, |s.recs| - 1) && JobOk(w, s, job)
      && s.recs[|s.recs| - 1] == Image(job.Target(), s.files[job.Target()].data)
      && Live(w, s, |s.recs| - 1, Flight(job)) && SidecarsSynced(w, s, {})
    case Begin(job) =>
      && s.depth > 0 && Held(w, s, |s.recs|) && JobOk(w, s, job) && job.wal.Some?
      && job.wal.value in Tracked(s.parts)
      && Live(w, s, |s.recs|, {job.path}) && SidecarsSynced(w, s, {})
    case BeginSync(job) =>
      && s.depth > 0 && Held(w, s, |s.recs|) && JobOk(w, s, job) && job.wal.Some?
      && job.wal.value in Tracked(s.parts)
      && Live(w, s, |s.recs|, {job.path}) && SidecarsSynced(w, s, {})
    case _ => false
  }

  // Inside an outer commit, up to the journal.
  ghost predicate Committing(w: World, s: State) {
    match s.pc
    case CommitSync(i) =>
      && s.depth == 0 && Open(w, s) && SidecarsSynced(w, s, {}) && i <= |s.parts|
      && forall j :: 0 <= j < i ==> PartSynced(s, s.parts[j])
    case CommitMark(i) =>
      && s.depth == 0 && Open(w, s) && SidecarsSynced(w, s, {}) && i <= |s.parts|
      && TrackedSynced(s, {})
    case CommitMarkSync(i) =>
      && s.depth == 0 && Open(w, s) && SidecarsSynced(w, s, {}) && i < |s.parts| && s.parts[i].wal.Some?
      && TrackedSynced(s, {s.parts[i].wal.value})
    case _ => false
  }

  // Inside a rollback, and the end of the journal for both.
  ghost predicate Undoing(w: World, s: State) {
    match s.pc
    case Roll(i) => Rolling(w, s, i) && SidecarsSynced(w, s, Tracked(s.parts[i..]))
    case RollSync(i) =>
      && Rolling(w, s, i) && i < |s.parts| && SidecarsSynced(w, s, Tracked(s.parts[i..]))
      && s.parts[i].path in s.files && s.files[s.parts[i].path].data == s.parts[i].snap
    case Retire(commit) =>
      && s.depth == 0 && HeldOrNone(w, s) && Guarded(s, |s.recs|) && SidecarsSynced(w, s, {})
      && s.fate == Undecided && (if commit then AllAfter(s) else AllBefore(s))
    case RetireDir(commit) =>
      && s.depth == 0 && s.journal == Log(None, Some(Full(w.env, s.recs))) && Guarded(s, |s.recs|)
      && SidecarsSynced(w, s, {})
      && (if commit then s.fate == Unlinked && AllAfter(s) else s.fate == Undecided && AllBefore(s))
    case _ => false
  }

  // After a crash, until recovery is through.
  ghost predicate Restoring(w: World, s: State) {
    match s.pc
    case Down => Crashed(w, s)
    case Rec(images, i) => Recovering(w, s, images, i) && SidecarsSynced(w, s, {})
    case RecSync(images, i) =>
      && Recovering(w, s, images, i) && i < |images|
      && var im := images[|images| - 1 - i];
         && SidecarsSynced(w, s, {im.path})
         && im.path in s.files && s.files[im.path].data == im.data
    case RecUnlink =>
      && s.depth == 0 && s.fate != Committed && AllBefore(s) && SidecarsSynced(w, s, {})
      && s.journal.now.Some? && s.journal.kept == s.journal.now
      && s.journal.now.value <= Full(w.env, s.recs)
    case RecUnlinkDir =>
      && s.depth == 0 && s.fate != Committed && AllBefore(s) && SidecarsSynced(w, s, {})
      && s.journal.now.None? && s.journal.kept.Some?
      && s.journal.kept.value <= Full(w.env, s.recs)
    case _ => false
  }

  ghost predicate Inv(w: World, s: State) {
    && Base(w, s)
    && match s.pc
       case Idle | Active | Rewriting(_) => Outside(w, s)
       case Create(_) | CreateSync(_) | Append(_) | AppendSync(_) | Begin(_) | BeginSync(_) => Tracking(w, s)
       case CommitSync(_) | CommitMark(_) | CommitMarkSync(_) => Committing(w, s)
       case Roll(_) | RollSync(_) | Retire(_) | RetireDir(_) => Undoing(w, s)
       case Down | Rec(_, _) | RecSync(_, _) | RecUnlink | RecUnlinkDir => Restoring(w, s)
       case Stuck => false
  }

  // ----- every step keeps it -----

  lemma TrackedFront(parts: seq<Part>, part: Part)
    ensures Tracked([part] + parts) == {part.path} + Tracked(parts)
    ensures forall p :: Oldest([part] + parts, p) ==
                          if Oldest(parts, p).Some? then Oldest(parts, p)
                          else if part.path == p then Some(part.snap) else None
  {
    var all := [part] + parts;
    assert all[1..] == parts;
    forall p | p in Tracked(parts) ensures p in Tracked(all) {
      var i :| 0 <= i < |parts| && parts[i].path == p;
      assert all[i + 1].path == p;
    }
    assert all[0] == part;
  }

  lemma {:induction false} OldestSome(parts: seq<Part>, p: Path)
    ensures Oldest(parts, p).Some? <==> p in Tracked(parts)
  {
    if |parts| > 0 {
      OldestSome(parts[1..], p);
      TrackedFront(parts[1..], parts[0]);
      assert [parts[0]] + parts[1..] == parts;
    }
  }

  lemma PathsAppend(ims: seq<Image>, im: Image)
    ensures PathsOf(ims + [im]) == PathsOf(ims) + {im.path}
  {
    var all := ims + [im];
    assert all[|ims|] == im;
    forall p | p in PathsOf(ims) ensures p in PathsOf(all) {
      var i :| 0 <= i < |ims| && ims[i].path == p;
      assert all[i].path == p;
    }
  }

  lemma IdleWriteKeeps(w: World, s: State, t: State, p: Path, data: seq<byte>)
    requires Inv(w, s) && IdleWrite(w, s, t, p, data)
    ensures Inv(w, t)
  {
    hide Encode, Full, Complete, ReadJournal, Oldest, FirstImage, PathsOf, Tracking, Committing, Undoing, Restoring;
  }

  lemma IdleSyncKeeps(w: World, s: State, t: State, p: Path)
    requires Inv(w, s) && IdleSync(s, t, p)
    ensures Inv(w, t)
  {
    hide Encode, Full, Complete, ReadJournal, Oldest, FirstImage, PathsOf, Tracking, Committing, Undoing, Restoring;
  }

  lemma RenameKeeps(w: World, s: State, t: State, p: Path, data: seq<byte>)
    requires Inv(w, s) && Rename(s, t, p, data)
    ensures Inv(w, t)
  {
    hide Encode, Full, Complete, ReadJournal, Oldest, FirstImage, PathsOf, JobOk, Rolling, Recovering, CrashLeft,
      Crashed, TrackedSynced, PartSynced, Tracking, Committing, Undoing, Restoring;
  }

  lemma RenameDoneKeeps(w: World, s: State, t: State)
    requires Inv(w, s) && RenameDone(s, t)
    ensures Inv(w, t)
  {
    hide Encode, Full, Complete, ReadJournal, Oldest, FirstImage, PathsOf, Live, Tracking, Committing, Undoing,
      Restoring;
    if s.depth > 0 {
      var p := s.pc.path;
      LiveWals(w, s, |s.recs|, {});
      LiveAfterWrite(w, s, t, |s.recs|, {}, p, t.files[p]);
    }
  }

  lemma BeginOuterKeeps(w: World, s: State, t: State)
    requires Inv(w, s) && BeginOuter(s, t)
    ensures Inv(w, t)
  {
    hide Encode, Full, Complete, ReadJournal, Tracking, Committing, Undoing, Restoring;
    assert t.recs[..0] == [];
  }

  lemma BeginInnerKeeps(w: World, s: State, t: State)
    requires Inv(w, s) && BeginInner(s, t)
    ensures Inv(w, t)
  {
    hide Encode, Full, Complete, ReadJournal, Oldest, FirstImage, PathsOf, Tracking, Committing, Undoing, Restoring;
  }

  lemma MutateKeeps(w: World, s: State, t: State, p: Path, data: seq<byte>)
    requires Inv(w, s) && Mutate(w, s, t, p, data)
    ensures Inv(w, t)
  {
    hide Encode, Full, Complete, ReadJournal, Oldest, FirstImage, PathsOf, JobOk, Rolling, Recovering, CrashLeft,
      Crashed, TrackedSynced, PartSynced, Settled, Guarded, Tracking, Committing, Undoing, Restoring;
  }

  lemma ForceKeeps(w: World, s: State, t: State, p: Path)
    requires Inv(w, s) && Force(s, t, p)
    ensures Inv(w, t)
  {
    hide Encode, Full, Complete, ReadJournal, Oldest, FirstImage, PathsOf, Tracking, Committing, Undoing, Restoring;
  }

  lemma TrackStartKeeps(w: World, s: State, t: State, p: Path, wal: Option<Path>)
    requires Inv(w, s) && TrackStart(w, s, t, p, wal)
    ensures Inv(w, t)
  {
    hide Encode, Full, Complete, ReadJournal, Oldest, FirstImage, PathsOf, Committing, Undoing, Restoring;
  }

  lemma CreateJournalKeeps(w: World, s: State, t: State)
    requires Inv(w, s) && CreateJournal(s, t)
    ensures Inv(w, t)
  {
    hide Encode, Full, Complete, ReadJournal, Oldest, FirstImage, PathsOf, Outside, Committing, Undoing, Restoring;
  }

  lemma CreateDoneKeeps(w: World, s: State, t: State)
    requires Inv(w, s) && CreateDone(s, t)
    ensures Inv(w, t)
  {
    hide Encode, Complete, ReadJournal, Oldest, FirstImage, PathsOf, Outside, Committing, Undoing, Restoring;
    assert MAGIC + [] == MAGIC && t.recs[..0] == t.recs;
  }

  lemma FullAppend(env: Env, ims: seq<Image>, im: Image)
    ensures Full(env, ims + [im]) == Full(env, ims) + Encode(env, im)
  {
    hide Encode;
    EncodeAllAppend(env, ims, im);
    Associate(MAGIC, EncodeAll(env, ims), Encode(env, im));
  }

  // A new record keeps every path's first image at its content at begin.
  lemma RecordedBase(w: World, s: State, t: State)
    requires Tracking(w, s) && Base(w, s) && AppendRec(w, s, t)
    ensures Base(w, t)
  {
    hide Encode, Full, Oldest, FirstImage, PathsOf, SidecarsSynced;
    var im := t.recs[|s.recs|];
    assert s.recs[..|s.recs|] == s.recs;
    forall p | p in s.files && FirstImage(t.recs, p).Some?
      ensures FirstImage(t.recs, p).value == s.pre[p]
    {
      FirstImageAppend(s.recs, im, p);
      FirstImageSome(s.recs, p);
    }
  }

  lemma AppendRecKeeps(w: World, s: State, t: State)
    requires Inv(w, s) && AppendRec(w, s, t)
    ensures Inv(w, t)
  {
    hide Encode, Full, Oldest, FirstImage, PathsOf, Base, Outside, Committing, Undoing, Restoring;
    RecordedBase(w, s, t);
    assert t.recs[..|s.recs|] == s.recs && s.recs[..|s.recs|] == s.recs;
    FullAppend(w.env, s.recs, t.recs[|s.recs|]);
  }

  // Listing a participant whose image is its content at begin, or who is listed already.
  lemma ListPart(w: World, s: State, t: State, part: Part, d: nat)
    requires Undoable(s, s.parts) && t.parts == [part] + s.parts && t.files.Keys == s.files.Keys && t.pre == s.pre
    requires part.path in s.files
    requires part.path !in Tracked(s.parts) ==> part.path in s.pre && part.snap == s.pre[part.path]
    ensures Undoable(t, t.parts) && Tracked(t.parts) == {part.path} + Tracked(s.parts)
    ensures forall i :: 0 < i < |t.parts| ==> t.parts[i] == s.parts[i - 1]
  {
    hide Oldest;
    TrackedFront(s.parts, part);
    OldestSome(s.parts, part.path);
  }

  lemma LiveUndoable(w: World, s: State, d: nat, flight: set<Path>)
    requires d <= |s.recs| && Live(w, s, d, flight)
    ensures Undoable(s, s.parts)
  {
  }

  // The record just synced joins the durable ones.
  lemma RecordDurable(w: World, s: State, t: State)
    requires Inv(w, s) && AppendDone(s, t)
    ensures Held(w, t, |t.recs|) && s.recs[..|s.recs|] == s.recs
    ensures var n := |s.recs| - 1; PathsOf(s.recs) == PathsOf(s.recs[..n]) + {s.recs[n].path}
    ensures var im := s.recs[|s.recs| - 1];
            im.path !in Tracked(s.parts) + Flight(s.pc.job) ==> im.path in s.pre && im.data == s.pre[im.path]
  {
    hide Encode, Full, Complete, Oldest, FirstImage, PathsOf, Outside, Committing, Undoing, Restoring;
    var n := |s.recs| - 1;
    assert s.recs[..n] + [s.recs[n]] == s.recs && s.recs[..|s.recs|] == s.recs;
    PathsAppend(s.recs[..n], s.recs[n]);
  }

  lemma LiveGrown(w: World, s: State, t: State, d: nat, flight: set<Path>)
    requires |s.recs| == d + 1 && Live(w, s, d, flight) && flight == {}
    requires PathsOf(s.recs[..d + 1]) == PathsOf(s.recs[..d]) + {s.recs[d].path}
    requires t == s.(journal := t.journal, anchored := s.anchored + {s.recs[d].path}, pc := t.pc)
    ensures Live(w, t, d + 1, {s.recs[d].path})
  {
    hide Oldest, PathsOf;
  }

  lemma LiveListed(w: World, s: State, t: State, d: nat, flight: set<Path>)
    requires |s.recs| == d + 1 && Live(w, s, d, flight)
    requires PathsOf(s.recs[..d + 1]) == PathsOf(s.recs[..d]) + {s.recs[d].path}
    requires t == s.(journal := t.journal, anchored := s.anchored + {s.recs[d].path}, parts := t.parts, pc := t.pc)
    requires t.parts == [Part(s.recs[d].path, s.recs[d].data, None)] + s.parts
    requires Tracked(t.parts) == {s.recs[d].path} + Tracked(s.parts) && Undoable(t, t.parts)
    ensures Live(w, t, d + 1, flight)
  {
    hide Oldest, PathsOf, Undoable, Tracked;
    LiveWals(w, s, d, flight);
    assert forall i :: 0 < i < |t.parts| ==> t.parts[i] == s.parts[i - 1];
  }

  lemma LiveWals(w: World, s: State, d: nat, flight: set<Path>)
    requires d <= |s.recs| && Live(w, s, d, flight)
    ensures forall i :: 0 <= i < |s.parts| && s.parts[i].wal.Some? ==>
              s.parts[i].wal.value in Tracked(s.parts) && s.parts[i].wal.value !in w.sidecars
    ensures forall p :: p in Tracked(s.parts) ==> p in s.files
  {
  }

  lemma AppendDoneKeeps(w: World, s: State, t: State)
    requires Inv(w, s) && AppendDone(s, t)
    ensures Inv(w, t)
  {
    hide Encode, Full, Complete, ReadJournal, Oldest, FirstImage, PathsOf, Live, Undoable, Committing, Undoing,
      Restoring;
    var n := |s.recs| - 1;
    var job, im := s.pc.job, s.recs[n];
    assert s.recs[..|s.recs|] == s.recs;
    RecordDurable(w, s, t);
    if t.parts != s.parts {
      ListPart(w, s, t, Part(im.path, im.data, None), n) by { LiveUndoable(w, s, n, Flight(job)); }
      LiveListed(w, s, t, n, Flight(job));
    } else {
      LiveGrown(w, s, t, n, Flight(job));
    }
  }

  // A change to a listed file's content keeps the running transaction in order.
  lemma LiveAfterWrite(w: World, s: State, t: State, d: nat, flight: set<Path>, p: Path, f: File)
    requires d <= |s.recs| && Live(w, s, d, flight) && p in Tracked(s.parts) && p in s.files
    requires t.files == s.files[p := f] && t == s.(files := t.files, pc := t.pc)
    ensures Live(w, t, d, flight)
  {
    hide Oldest, PathsOf, Full, Encode;
  }

  lemma MarkBeginKeeps(w: World, s: State, t: State, ts: seq<byte>)
    requires Inv(w, s) && MarkBegin(s, t, ts)
    ensures Inv(w, t)
  {
    hide Encode, Full, Complete, ReadJournal, Oldest, FirstImage, PathsOf, Live, W.Encode, Outside, Committing,
      Undoing, Restoring;
    var p := s.pc.job.wal.value;
    LiveAfterWrite(w, s, t, |s.recs|, {s.pc.job.path}, p, t.files[p]);
  }

  lemma MarkBeginDoneKeeps(w: World, s: State, t: State)
    requires Inv(w, s) && MarkBeginDone(s, t)
    ensures Inv(w, t)
  {
    hide Encode, Full, Complete, ReadJournal, Oldest, FirstImage, PathsOf, Committing, Undoing, Restoring;
    var job := s.pc.job;
    ListPart(w, s, t, Part(job.path, job.snap, job.wal), |s.recs|);
  }

  lemma CommitInnerKeeps(w: World, s: State, t: State)
    requires Inv(w, s) && CommitInner(s, t)
    ensures Inv(w, t)
  {
    hide Encode, Full, Complete, ReadJournal, Oldest, FirstImage, PathsOf, Tracking, Committing, Undoing, Restoring;
  }

  lemma CommitOuterKeeps(w: World, s: State, t: State)
    requires Inv(w, s) && CommitOuter(s, t)
    ensures Inv(w, t)
  {
    hide Encode, Full, Complete, ReadJournal, Oldest, FirstImage, PathsOf, Tracking, Undoing, Restoring;
  }

  lemma LiveElsewhere(w: World, s: State, t: State, d: nat, flight: set<Path>)
    requires d <= |s.recs| && Live(w, s, d, flight) && t == s.(pc := t.pc)
    ensures Live(w, t, d, flight)
  {
  }

  lemma SyncPartKeeps(w: World, s: State, t: State)
    requires Inv(w, s) && SyncPart(w, s, t)
    ensures Inv(w, t)
  {
    hide Encode, Full, Complete, ReadJournal, Oldest, FirstImage, PathsOf, Live, Outside, Tracking, Undoing,
      Restoring;
    LiveWals(w, s, |s.recs|, {});
    if s.pc.i < |s.parts| {
      var p := s.parts[s.pc.i].path;
      assert p in Tracked(s.parts);
      assert t.files == s.files[p := t.files[p]];
      LiveAfterWrite(w, s, t, |s.recs|, {}, p, t.files[p]);
      assert forall j :: 0 <= j < s.pc.i ==> PartSynced(s, s.parts[j]);
    } else {
      LiveElsewhere(w, s, t, |s.recs|, {});
      forall p | p in Tracked(s.parts) ensures s.files[p].synced {
        var j :| 0 <= j < |s.parts| && s.parts[j].path == p;
        assert PartSynced(s, s.parts[j]);
      }
    }
  }

  // Once every participant is synced, all files stand as the commit means to leave them.
  lemma CommitReached(w: World, s: State, t: State)
    requires Base(w, s) && Open(w, s) && TrackedSynced(s, {})
    requires t == s.(pc := Retire(true), post := DataOf(s.files))
    ensures Guarded(t, |t.recs|) && AllAfter(t) && t.fate == Undecided
  {
    hide Oldest, PathsOf, Full;
    assert s.recs[..|s.recs|] == s.recs;
  }

  lemma MarkCommitKeeps(w: World, s: State, t: State, ts: seq<byte>)
    requires Inv(w, s) && MarkCommit(s, t, ts)
    ensures Inv(w, t)
  {
    hide Encode, Full, Complete, ReadJournal, Oldest, FirstImage, PathsOf, Live, W.Encode, JobOk, Rolling, Recovering,
      CrashLeft, Crashed, PartSynced, Settled, Outside, Tracking, Restoring;
    LiveWals(w, s, |s.recs|, {});
    if s.pc.i >= |s.parts| {
      CommitReached(w, s, t);
    } else if s.parts[s.pc.i].wal.Some? {
      var p := s.parts[s.pc.i].wal.value;
      LiveAfterWrite(w, s, t, |s.recs|, {}, p, t.files[p]);
    } else {
      LiveElsewhere(w, s, t, |s.recs|, {});
    }
  }

  lemma MarkCommitDoneKeeps(w: World, s: State, t: State)
    requires Inv(w, s) && MarkCommitDone(s, t)
    ensures Inv(w, t)
  {
    hide Encode, Full, Complete, ReadJournal, Oldest, FirstImage, PathsOf, Live, CrashLeft, Outside, Tracking,
      Undoing, Restoring;
    var p := s.parts[s.pc.i].wal.value;
    LiveWals(w, s, |s.recs|, {});
    LiveAfterWrite(w, s, t, |s.recs|, {}, p, t.files[p]);
  }

  lemma RollbackKeeps(w: World, s: State, t: State)
    requires Inv(w, s) && Rollback(s, t)
    ensures Inv(w, t)
  {
    hide Encode, Full, Complete, ReadJournal, Oldest, FirstImage, PathsOf, Tracking, Committing, Restoring;
    assert s.parts[0..] == s.parts && s.recs[..|s.recs|] == s.recs;
  }

  lemma SplitPart(parts: seq<Part>, i: nat)
    requires i < |parts|
    ensures Tracked(parts[i..]) == {parts[i].path} + Tracked(parts[i + 1..])
    ensures forall p :: Oldest(parts[i..], p) ==
                          if Oldest(parts[i + 1..], p).Some? then Oldest(parts[i + 1..], p)
                          else if parts[i].path == p then Some(parts[i].snap) else None
  {
    hide Oldest;
    assert parts[i..] == [parts[i]] + parts[i + 1..];
    TrackedFront(parts[i + 1..], parts[i]);
  }

  lemma RolledBack(w: World, s: State)
    requires Rolling(w, s, |s.parts|)
    ensures AllBefore(s)
  {
    hide Held, PathsOf, Before, Undoable, Guarded;
    assert s.parts[|s.parts|..] == [];
  }

  // Writing the next image back leaves the earlier ones alone.
  lemma RollingAfterWrite(w: World, s: State, t: State, i: nat)
    requires Rolling(w, s, i) && i < |s.parts| && s.parts[i].path in s.files
    requires t == s.(files := Put(s, s.parts[i].path, s.parts[i].snap), pc := t.pc)
    ensures Rolling(w, t, i)
  {
    hide Full, PathsOf, Oldest;
    var p := s.parts[i].path;
    SplitPart(s.parts, i);
    assert p in Tracked(s.parts) && s.recs[..|s.recs|] == s.recs;
  }

  lemma RollPartKeeps(w: World, s: State, t: State)
    requires Inv(w, s) && RollPart(s, t)
    ensures Inv(w, t)
  {
    hide Encode, Full, Complete, PathsOf, Oldest, FirstImage, Rolling, Outside, Tracking, Committing, Restoring;
    var i := s.pc.i;
    if i < |s.parts| {
      RollingAfterWrite(w, s, t, i);
      SplitPart(s.parts, i);
    } else {
      RollingBounds(w, s, i);
      RolledBack(w, s);
      assert s.parts[i..] == [];
    }
  }

  lemma RollingBounds(w: World, s: State, i: nat)
    requires Rolling(w, s, i)
    ensures s.depth == 0 && i <= |s.parts| && s.fate == Undecided && HeldOrNone(w, s) && Guarded(s, |s.recs|)
  {
    hide HeldOrNone, Guarded, Undoable;
  }

  lemma RollPartDoneKeeps(w: World, s: State, t: State)
    requires Inv(w, s) && RollPartDone(s, t)
    ensures Inv(w, t)
  {
    hide Encode, Full, Complete, ReadJournal, Oldest, FirstImage, PathsOf, Outside, Tracking, Committing, Restoring;
    SplitPart(s.parts, s.pc.i);
    OldestSome(s.parts[s.pc.i + 1..], s.parts[s.pc.i].path);
  }

  lemma UnlinkKeeps(w: World, s: State, t: State)
    requires Inv(w, s) && Unlink(s, t)
    ensures Inv(w, t)
  {
    hide Encode, Full, Complete, ReadJournal, Oldest, FirstImage, PathsOf, Tracking, Committing, Restoring;
    assert s.recs[..|s.recs|] == s.recs;
  }

  lemma UnlinkDoneKeeps(w: World, s: State, t: State)
    requires Inv(w, s) && UnlinkDone(s, t)
    ensures Inv(w, t)
  {
    hide Encode, Full, Complete, ReadJournal, Oldest, FirstImage, PathsOf, Tracking, Committing, Restoring;
  }

  lemma RecoverKeeps(w: World, s: State, t: State)
    requires Inv(w, s) && Recover(w, s, t)
    ensures Inv(w, t)
  {
    hide Encode, Full, Complete, ReadJournal, Oldest, FirstImage, PathsOf, Tracking, Committing, Undoing;
    if s.journal.now.Some? && |s.journal.now.value| >= 8 {
      var n := |s.journal.now.value|;
      assert s.journal.now.value == Full(w.env, s.recs)[..n];
      CutJournalReads(w.env, s.recs, n);
      var images := s.recs[..Complete(w.env, s.recs, n - 8)];
      assert images[..|images| - 0] == images;
    }
  }

  lemma PathListed(ims: seq<Image>, j: nat)
    requires j < |ims|
    ensures ims[j].path in PathsOf(ims)
  {
  }

  lemma NoPaths()
    ensures PathsOf([]) == {}
  {
  }

  lemma RewriteKeeps(w: World, s: State, t: State)
    requires Inv(w, s) && Rewrite(s, t)
    ensures Inv(w, t)
  {
    hide Encode, Full, Complete, ReadJournal, Oldest, FirstImage, PathsOf, Live, JobOk, Rolling, CrashLeft, Crashed,
      TrackedSynced, PartSynced, Settled, AllAfter, Outside, Tracking, Committing, Undoing;
    var images, i := s.pc.images, s.pc.i;
    if i < |images| {
      var j := |images| - 1 - i;
      assert images[j] == s.recs[j] && images[..|images| - i][j] == images[j];
      PathListed(images[..|images| - i], j);
    } else {
      assert images[..|images| - i] == [];
      NoPaths();
    }
  }

  lemma {:induction false} FirstOccurrence(ims: seq<Image>, j: nat)
    requires j < |ims|
    ensures FirstImage(ims, ims[j].path).Some?
    ensures ims[j].path !in PathsOf(ims[..j]) ==> FirstImage(ims, ims[j].path).value == ims[j].data
  {
    if j > 0 {
      FirstOccurrence(ims[1..], j - 1);
      assert ims[..j][1..] == ims[1..][..j - 1];
      assert ims[..j] == [ims[0]] + ims[1..][..j - 1];
      PathListed(ims[..j], 0);
      if ims[j].path in PathsOf(ims[1..][..j - 1]) {
        var k :| 0 <= k < j - 1 && ims[1..][..j - 1][k].path == ims[j].path;
        PathListed(ims[..j], k + 1);
      }
    }
  }

  lemma RewriteDoneKeeps(w: World, s: State, t: State)
    requires Inv(w, s) && RewriteDone(s, t)
    ensures Inv(w, t)
  {
    hide Encode, Full, Complete, ReadJournal, Oldest, FirstImage, PathsOf, Live, JobOk, Rolling, CrashLeft, Crashed,
      TrackedSynced, PartSynced, Settled, AllAfter, Outside, Tracking, Committing, Undoing;
    var images, i := s.pc.images, s.pc.i;
    var j := |images| - 1 - i;
    assert images[..j] + [images[j]] == images[..|images| - i];
    PathsAppend(images[..j], images[j]);
    assert images[..j] == s.recs[..j] && images[j] == s.recs[j];
    FirstOccurrence(s.recs, j);
  }

  lemma RecRemoveKeeps(w: World, s: State, t: State)
    requires Inv(w, s) && RecRemove(s, t)
    ensures Inv(w, t)
  {
    hide Encode, Full, Complete, ReadJournal, Oldest, FirstImage, PathsOf, Outside, Tracking, Committing, Undoing;
  }

  lemma RecRemoveDoneKeeps(w: World, s: State, t: State)
    requires Inv(w, s) && RecRemoveDone(s, t)
    ensures Inv(w, t)
  {
    hide Encode, Full, Complete, ReadJournal, Oldest, FirstImage, PathsOf, Tracking, Committing, Undoing;
  }

  // ----- what a crash leaves, case by case -----

  lemma StaysBefore(s: State, t: State)
    requires Crash(s, t)
    ensures forall p :: Before(s, p) ==> Before(t, p)
    ensures forall p :: After(s, p) ==> After(t, p)
    ensures AllBefore(s) ==> AllBefore(t)
    ensures AllAfter(s) ==> AllAfter(t)
    ensures Settled(s) ==> Settled(t)
  {
  }

  lemma CrashSettled(s: State, t: State)
    requires Crash(s, t) && NoJournal(s) && Settled(s)
    ensures t.journal.now.None? && Settled(t)
  {
    StaysBefore(s, t);
  }

  // A crash while the records guard every file that is not at its old content.
  lemma CrashGuarded(w: World, s: State, t: State, d: nat)
    requires Crash(s, t) && s.fate == Undecided && d <= |s.recs| && Guarded(s, d)
    requires Held(w, s, d) || (NoJournal(s) && s.recs == [])
    ensures t.journal.now.None? ==> Settled(t)
    ensures t.journal.now.Some? ==> CrashLeft(w, t, t.journal.now.value)
  {
    hide Encode, Complete, FirstImage, EncodeAll, Before;
    StaysBefore(s, t);
    if t.journal.now.Some? {
      var b := t.journal.now.value;
      assert |Full(w.env, s.recs[..d])| == 8 + |EncodeAll(w.env, s.recs[..d])|;
      CompleteAtLeast(w.env, s.recs, d, |b| - 8);
      MorePaths(s.recs, d, Complete(w.env, s.recs, |b| - 8));
    } else {
      assert s.recs[..d] == [];
    }
  }

  lemma MorePaths(ims: seq<Image>, a: nat, b: nat)
    requires a <= b <= |ims|
    ensures PathsOf(ims[..a]) <= PathsOf(ims[..b])
  {
    forall p | p in PathsOf(ims[..a]) ensures p in PathsOf(ims[..b]) {
      var i :| 0 <= i < a && ims[..a][i].path == p;
      assert ims[..b][i].path == p;
    }
  }

  lemma CrashRunning(w: World, s: State, t: State, d: nat, flight: set<Path>)
    requires Base(w, s) && Crash(s, t) && d <= |s.recs| && Live(w, s, d, flight)
    requires Held(w, s, d) || (NoJournal(s) && s.recs == [])
    ensures t.journal.now.None? ==> Settled(t)
    ensures t.journal.now.Some? ==> CrashLeft(w, t, t.journal.now.value)
  {
    hide Complete, FirstImage, Oldest, Full, Held, CrashLeft, PathsOf;
    CrashGuarded(w, s, t, d);
  }

  lemma CrashCreating(w: World, s: State, t: State)
    requires Base(w, s) && Crash(s, t) && s.recs == [] && Live(w, s, 0, {})
    requires s.journal == Log(Some(MAGIC), None)
    ensures t.journal.now.None? ==> Settled(t)
    ensures t.journal.now.Some? ==> CrashLeft(w, t, t.journal.now.value)
  {
    hide Encode;
    StaysBefore(s, t);
    assert s.recs[..0] == [] && MAGIC + [] == MAGIC;
    assert AllBefore(s);
  }

  lemma KeptWhole(j: Log, left: Option<seq<byte>>)
    requires Survives(j, left) && j.kept == j.now
    ensures left == j.now
  {
    if left.Some? && j.now.Some? {
      assert |left.value| == |j.now.value|;
      assert left.value == j.now.value;
    }
  }

  lemma CrashAgain(w: World, s: State, t: State)
    requires Crashed(w, s) && Crash(s, t)
    ensures t.journal.now == s.journal.now && Crashed(w, t)
  {
    hide Full, Complete, Before, PathsOf;
    StaysBefore(s, t);
    KeptWhole(s.journal, t.journal.now);
  }

  lemma CrashRecovering(w: World, s: State, t: State, images: seq<Image>, i: nat)
    requires Recovering(w, s, images, i) && Crash(s, t)
    ensures t.journal.now.Some? && CrashLeft(w, t, t.journal.now.value)
  {
    hide Full, Complete, Before, PathsOf;
    StaysBefore(s, t);
    KeptWhole(s.journal, t.journal.now);
    MorePaths(images, |images| - i, |images|);
    assert images[..|images|] == images;
  }

  lemma CrashBefore(w: World, s: State, t: State)
    requires Crash(s, t) && AllBefore(s) && s.fate != Committed
    requires s.journal.now.Some? || s.journal.kept.Some?
    requires s.journal.now.Some? ==> s.journal.kept == s.journal.now && s.journal.now.value <= Full(w.env, s.recs)
    requires s.journal.now.None? ==> s.journal.kept.value <= Full(w.env, s.recs)
    ensures t.journal.now.None? ==> Settled(t)
    ensures t.journal.now.Some? ==> CrashLeft(w, t, t.journal.now.value)
  {
    hide Full, Complete, Before, PathsOf;
    StaysBefore(s, t);
  }

  lemma CrashUnlinked(w: World, s: State, t: State)
    requires Crash(s, t) && s.pc.RetireDir? && Inv(w, s)
    ensures t.journal.now.None? ==> Settled(t)
    ensures t.journal.now.Some? ==> CrashLeft(w, t, t.journal.now.value)
  {
    hide Encode, Complete, Before, PathsOf, FirstImage, Outside, Tracking, Committing, Restoring;
    StaysBefore(s, t);
    if t.journal.now.Some? {
      assert s.recs[..|s.recs|] == s.recs;
      CompleteAtLeast(w.env, s.recs, |s.recs|, |EncodeAll(w.env, s.recs)|);
    }
  }

  lemma CrashKeeps(w: World, s: State, t: State)
    requires Inv(w, s) && Crash(s, t)
    ensures Inv(w, t)
  {
    hide Encode, Full, Complete, ReadJournal, Oldest, FirstImage, PathsOf, Live, Undoable, Guarded, CrashLeft,
      Settled, AllAfter, AllBefore, Before, After, Survives, Recovering, JobOk, PartSynced;
    match s.pc
    case Down => CrashAgain(w, s, t);
    case Rec(images, i) => CrashRecovering(w, s, t, images, i);
    case RecSync(images, i) => CrashRecovering(w, s, t, images, i);
    case RecUnlink => CrashBefore(w, s, t);
    case RecUnlinkDir => CrashBefore(w, s, t);
    case RetireDir(_) => CrashUnlinked(w, s, t);
    case Idle => CrashSettled(s, t);
    case Rewriting(_) => if s.depth > 0 { CrashRunning(w, s, t, |s.recs|, {}); } else { CrashSettled(s, t); }
    case Create(_) => CrashRunning(w, s, t, 0, {});
    case CreateSync(_) => CrashCreating(w, s, t);
    case AppendSync(job) => CrashRunning(w, s, t, |s.recs| - 1, Flight(job));
    case Append(job) => CrashRunning(w, s, t, |s.recs|, Flight(job));
    case Begin(job) => CrashRunning(w, s, t, |s.recs|, {job.path});
    case BeginSync(job) => CrashRunning(w, s, t, |s.recs|, {job.path});
    case Roll(_) => CrashGuarded(w, s, t, |s.recs|);
    case RollSync(_) => CrashGuarded(w, s, t, |s.recs|);
    case Retire(_) => CrashGuarded(w, s, t, |s.recs|);
    case _ => CrashRunning(w, s, t, |s.recs|, {});
  }

  lemma OutsideKeeps(w: World, s: State, t: State)
    requires Inv(w, s) && OutsideStep(w, s, t)
    ensures Inv(w, t)
  {
    hide Inv, IdleWrite, IdleSync, Rename, RenameDone, BeginOuter, BeginInner, Mutate, Force;
    if p, data :| IdleWrite(w, s, t, p, data) { IdleWriteKeeps(w, s, t, p, data); }
    else if p :| IdleSync(s, t, p) { IdleSyncKeeps(w, s, t, p); }
    else if p, data :| Rename(s, t, p, data) { RenameKeeps(w, s, t, p, data); }
    else if RenameDone(s, t) { RenameDoneKeeps(w, s, t); }
    else if BeginOuter(s, t) { BeginOuterKeeps(w, s, t); }
    else if BeginInner(s, t) { BeginInnerKeeps(w, s, t); }
    else if p, data :| Mutate(w, s, t, p, data) { MutateKeeps(w, s, t, p, data); }
    else if p :| Force(s, t, p) { ForceKeeps(w, s, t, p); }
  }

  lemma TrackKeeps(w: World, s: State, t: State)
    requires Inv(w, s) && TrackStep(w, s, t)
    ensures Inv(w, t)
  {
    hide Inv, TrackStart, CreateJournal, CreateDone, AppendRec, AppendDone, MarkBegin, MarkBeginDone;
    if p, wal :| TrackStart(w, s, t, p, wal) { TrackStartKeeps(w, s, t, p, wal); }
    else if CreateJournal(s, t) { CreateJournalKeeps(w, s, t); }
    else if CreateDone(s, t) { CreateDoneKeeps(w, s, t); }
    else if AppendRec(w, s, t) { AppendRecKeeps(w, s, t); }
    else if AppendDone(s, t) { AppendDoneKeeps(w, s, t); }
    else if ts :| MarkBegin(s, t, ts) { MarkBeginKeeps(w, s, t, ts); }
    else { MarkBeginDoneKeeps(w, s, t); }
  }

  lemma EndKeeps(w: World, s: State, t: State)
    requires Inv(w, s) && EndStep(w, s, t)
    ensures Inv(w, t)
  {
    hide Inv, CommitInner, CommitOuter, SyncPart, MarkCommit, MarkCommitDone, Rollback, RollPart, RollPartDone,
      Unlink, UnlinkDone;
    if CommitInner(s, t) { CommitInnerKeeps(w, s, t); }
    else if CommitOuter(s, t) { CommitOuterKeeps(w, s, t); }
    else if SyncPart(w, s, t) { SyncPartKeeps(w, s, t); }
    else if ts :| MarkCommit(s, t, ts) { MarkCommitKeeps(w, s, t, ts); }
    else if MarkCommitDone(s, t) { MarkCommitDoneKeeps(w, s, t); }
    else if Rollback(s, t) { RollbackKeeps(w, s, t); }
    else if RollPart(s, t) { RollPartKeeps(w, s, t); }
    else if RollPartDone(s, t) { RollPartDoneKeeps(w, s, t); }
    else if Unlink(s, t) { UnlinkKeeps(w, s, t); }
    else { UnlinkDoneKeeps(w, s, t); }
  }

  lemma RecoveryKeeps(w: World, s: State, t: State)
    requires Inv(w, s) && RecoveryStep(w, s, t)
    ensures Inv(w, t)
  {
    hide Inv, Recover, Rewrite, RewriteDone, RecRemove, RecRemoveDone;
    if Recover(w, s, t) { RecoverKeeps(w, s, t); }
    else if Rewrite(s, t) { RewriteKeeps(w, s, t); }
    else if RewriteDone(s, t) { RewriteDoneKeeps(w, s, t); }
    else if RecRemove(s, t) { RecRemoveKeeps(w, s, t); }
    else { RecRemoveDoneKeeps(w, s, t); }
  }

  lemma StepKeeps(w: World, s: State, t: State)
    requires Inv(w, s) && Step(w, s, t)
    ensures Inv(w, t)
  {
    hide Inv, OutsideStep, TrackStep, EndStep, RecoveryStep, Crash;
    if OutsideStep(w, s, t) { OutsideKeeps(w, s, t); }
    else if TrackStep(w, s, t) { TrackKeeps(w, s, t); }
    else if EndStep(w, s, t) { EndKeeps(w, s, t); }
    else if RecoveryStep(w, s, t) { RecoveryKeeps(w, s, t); }
    else { CrashKeeps(w, s, t); }
  }

  lemma InitInv(w: World, s: State)
    requires Init(w, s)
    ensures Inv(w, s)
  {
    hide Encode;
  }

  lemma {:induction false} RunInv(w: World, run: seq<State>, n: nat)
    requires Run(w, run) && n < |run|
    ensures Inv(w, run[n])
  {
    hide Inv, Init, Step;
    if n == 0 {
      InitInv(w, run[0]);
    } else {
      RunInv(w, run, n - 1);
      assert Step(w, run[n - 1], run[n - 1 + 1]);
      StepKeeps(w, run[n - 1], run[n]);
    }
  }

  // ----- the theorems -----

  // For every run, with crashes anywhere including inside recovery: whenever no transaction
  // and no recovery is in progress, the files whose fate the last transaction decides are
  // all as they were at its begin or all as it committed them; if the machine never passed
  // the journal's removal they are as at begin, and once commit has returned they are as
  // committed. Recovery never refuses the journal it finds.
  lemma AllOrNothing(w: World, run: seq<State>, n: nat)
    requires Run(w, run) && n < |run|
    ensures !run[n].pc.Stuck?
    ensures run[n].pc == Idle ==>
              match run[n].fate
              case Undecided => AllBefore(run[n])
              case Unlinked => AllBefore(run[n]) || AllAfter(run[n])
              case Committed => AllAfter(run[n])
  {
    hide AllBefore, AllAfter, Base, SidecarsSynced, Live, Held, Guarded, Rolling, Recovering, CrashLeft;
    RunInv(w, run, n);
  }

  // A file that differs from its content at begin, in any state of a running transaction,
  // has that content in the durable part of the journal: the undo image comes first.
  lemma UndoBeforeMutation(w: World, run: seq<State>, n: nat, p: Path)
    requires Run(w, run) && n < |run| && run[n].depth > 0 && p in run[n].files
    requires p in run[n].pre ==> run[n].files[p].data != run[n].pre[p]
    ensures var s := run[n];
            exists d: nat :: d <= |s.recs| && s.journal.kept == Some(Full(w.env, s.recs[..d]))
              && p in s.pre && FirstImage(s.recs[..d], p) == Some(s.pre[p])
  {
    hide Encode, Full, Complete, FirstImage, PathsOf, Oldest, Undoable, SidecarsSynced;
    RunInv(w, run, n);
    var s := run[n];
    var d := if s.pc.AppendSync? then |s.recs| - 1 else |s.recs|;
    assert p in PathsOf(s.recs[..d]);
    FirstImageSome(s.recs[..d], p);
    FirstImagePrefix(s.recs, d, p);
    assert s.recs[..|s.recs|] == s.recs;
    assert [] == s.recs[..0];
    NoPaths();
  }

  lemma {:induction false} FirstImagePrefix(ims: seq<Image>, d: nat, p: Path)
    requires d <= |ims| && FirstImage(ims[..d], p).Some?
    ensures FirstImage(ims, p) == FirstImage(ims[..d], p)
    decreases d
  {
    if d > 0 && ims[0].path != p {
      assert ims[..d][1..] == ims[1..][..d - 1];
      FirstImagePrefix(ims[1..], d - 1, p);
    }
  }

  // Until the machine is idle again no step, crashes and recovery included, takes a file out
  // of those whose fate is decided or forgets their content at begin.
  lemma StepAnchors(w: World, s: State, t: State)
    requires Step(w, s, t) && s.pc != Idle
    ensures s.anchored <= t.anchored && t.pre == s.pre
  {
    hide OutsideStep, TrackStep, EndStep, RecoveryStep;
    if OutsideStep(w, s, t) { OutsideAnchors(w, s, t); }
    else if TrackStep(w, s, t) { TrackAnchors(w, s, t); }
    else if EndStep(w, s, t) { EndAnchors(w, s, t); }
    else if RecoveryStep(w, s, t) { RecoveryAnchors(w, s, t); }
  }

  lemma OutsideAnchors(w: World, s: State, t: State)
    requires OutsideStep(w, s, t) && s.pc != Idle
    ensures t.anchored == s.anchored && t.pre == s.pre
  {
    hide Tracked;
  }

  lemma TrackAnchors(w: World, s: State, t: State)
    requires TrackStep(w, s, t)
    ensures s.anchored <= t.anchored && t.pre == s.pre
  {
    hide Encode, Recordable, Tracked, W.Encode;
  }

  lemma EndAnchors(w: World, s: State, t: State)
    requires EndStep(w, s, t)
    ensures t.anchored == s.anchored && t.pre == s.pre
  {
    hide W.Encode;
  }

  lemma RecoveryAnchors(w: World, s: State, t: State)
    requires RecoveryStep(w, s, t)
    ensures t.anchored == s.anchored && t.pre == s.pre
  {
    hide ReadJournal;
  }

  lemma {:induction false} RunAnchors(w: World, run: seq<State>, m: nat, n: nat)
    requires Run(w, run) && m <= n < |run| && forall k :: m <= k < n ==> run[k].pc != Idle
    ensures run[m].anchored <= run[n].anchored && run[n].pre == run[m].pre
    decreases n - m
  {
    hide Step, Init;
    if m < n {
      RunAnchors(w, run, m, n - 1);
      assert Step(w, run[n - 1], run[n - 1 + 1]);
      StepAnchors(w, run[n - 1], run[n]);
    }
  }

  // A participant listed at any time while the transaction runs is among the files whose
  // fate is decided, then and in every later state up to and including the next idle one,
  // through commit, rollback, crashes and recovery.
  lemma ParticipantsDecided(w: World, run: seq<State>, m: nat, n: nat)
    requires Run(w, run) && m <= n < |run| && run[m].depth > 0
    requires forall k :: m <= k < n ==> run[k].pc != Idle
    ensures Tracked(run[m].parts) <= run[n].anchored && run[n].pre == run[m].pre
  {
    hide Encode, Full, Complete, FirstImage, PathsOf, Oldest, Undoable, SidecarsSynced, Run;
    RunInv(w, run, m);
    RunAnchors(w, run, m, n);
  }

  // So when the machine next is idle, the participants are all as they were at begin or all
  // as committed.
  lemma ParticipantsAllOrNothing(w: World, run: seq<State>, m: nat, n: nat)
    requires Run(w, run) && m <= n < |run| && run[m].depth > 0 && run[n].pc == Idle
    requires forall k :: m <= k < n ==> run[k].pc != Idle
    ensures var (ps, s) := (Tracked(run[m].parts), run[n]);
            || (forall p :: p in ps ==> p in s.files && p in run[m].pre && s.files[p] == File(run[m].pre[p], true))
            || (forall p :: p in ps ==> p in s.files && p in s.post && s.files[p] == File(s.post[p], true))
  {
    hide Run, Tracked;
    ParticipantsDecided(w, run, m, n);
    AllOrNothing(w, run, n);
  }

  // ----- recovery ends -----

  predicate RecoveryPc(pc: Pc) { pc.Down? || pc.Rec? || pc.RecSync? || pc.RecUnlink? || pc.RecUnlinkDir? }

  // Steps left until recovery is through.
  ghost function Remaining(w: World, s: State): nat {
    match s.pc
    case Down =>
      if s.journal.now.None? then 1
      else (match ReadJournal(w.env, s.journal.now.value)
            case Images(ims) => 2 * |ims| + 4
            case Refused => 3)
    case Rec(images, i) => if i <= |images| then 2 * (|images| - i) + 3 else 3
    case RecSync(images, i) => if i < |images| then 2 * (|images| - i) + 2 else 3
    case RecUnlink => 2
    case RecUnlinkDir => 1
    case _ => 0
  }

  lemma RecoveryNearer(w: World, s: State, t: State)
    requires Inv(w, s) && RecoveryPc(s.pc) && RecoveryStep(w, s, t)
    ensures Remaining(w, t) < Remaining(w, s) && (RecoveryPc(t.pc) || t.pc == Idle)
  {
    hide Encode, Full, Complete, FirstImage, PathsOf, Oldest, Undoable, SidecarsSynced, ReadJournal, Guarded, Settled,
      CrashLeft, Before, Live, Held, Base, Rolling, Tracking, Committing, Undoing;
    RecoveryKeeps(w, s, t);
    if s.pc == Down && s.journal.now.Some? && |s.journal.now.value| < 8 { ShortJournal(w.env, s.journal.now.value); }
  }

  // Undisturbed, recovery can always go on and every step brings it nearer to its end.
  lemma RecoveryEnds(w: World, run: seq<State>, n: nat)
    requires Run(w, run) && n < |run| && RecoveryPc(run[n].pc)
    ensures exists t :: RecoveryStep(w, run[n], t)
    ensures forall t :: RecoveryStep(w, run[n], t) ==>
              Remaining(w, t) < Remaining(w, run[n]) && (RecoveryPc(t.pc) || t.pc == Idle)
  {
    hide Inv, RecoveryStep, RecoveryPc, Remaining;
    RunInv(w, run, n);
    RecoveryGoesOn(w, run[n]);
    forall t | RecoveryStep(w, run[n], t)
      ensures Remaining(w, t) < Remaining(w, run[n]) && (RecoveryPc(t.pc) || t.pc == Idle)
    {
      RecoveryNearer(w, run[n], t);
    }
  }

  lemma ShortJournal(env: Env, b: seq<byte>)
    requires |b| < 8
    ensures ReadJournal(env, b) == Images([])
  {
  }

  lemma RecoveryGoesOn(w: World, s: State)
    requires Inv(w, s) && RecoveryPc(s.pc)
    ensures exists t :: RecoveryStep(w, s, t)
  {
    hide Encode, Full, Complete, FirstImage, PathsOf, Oldest, Undoable, SidecarsSynced, ReadJournal;
    match s.pc
    case Down =>
      var t := if s.journal.now.None? then s.(pc := Idle)
               else if |s.journal.now.value| < 8 then s.(pc := RecUnlink)
               else match ReadJournal(w.env, s.journal.now.value)
                    case Refused => s.(pc := Stuck)
                    case Images(ims) => s.(pc := Rec(ims, 0));
      assert Recover(w, s, t);
      assert RecoveryStep(w, s, t);
    case Rec(images, i) =>
      var t := if i >= |images| then s.(pc := RecUnlink)
               else var im := images[|images| - 1 - i];
                    s.(files := Put(s, im.path, im.data), pc := RecSync(images, i));
      assert Rewrite(s, t);
      assert RecoveryStep(w, s, t);
    case RecSync(images, i) =>
      var p := images[|images| - 1 - i].path;
      var t := s.(files := Synced(s, p), pc := Rec(images, i + 1));
      assert RewriteDone(s, t);
      assert RecoveryStep(w, s, t);
    case RecUnlink =>
      var t := s.(journal := Log(None, s.journal.kept), pc := RecUnlinkDir);
      assert RecRemove(s, t);
      assert RecoveryStep(w, s, t);
    case RecUnlinkDir =>
      var t := s.(journal := Log(None, None), pc := Idle);
      assert RecRemoveDone(s, t);
      assert RecoveryStep(w, s, t);
  }
}
