// What a commit and a rollback leave, in terms of the contents they found: the outcomes of
// the step system told without its history of committed contents.
module Outcomes {
  import opened Bytes
  import opened Options
  import opened Journal
  import opened Txn
  import W = WalFormat

  // Only TXN_COMMIT frames were appended.
  ghost predicate OnlyMarks(before: seq<byte>, after: seq<byte>) {
    exists marks: seq<W.Frame> :: AllCommits(marks) && after == before + W.EncodeAll(marks)
  }

  ghost predicate AllCommits(marks: seq<W.Frame>) {
    forall i :: 0 <= i < |marks| ==> marks[i].op == 0xF1 && marks[i].payload == []
  }

  ghost predicate IsLog(parts: seq<Part>, p: Path) {
    exists i :: 0 <= i < |parts| && parts[i].wal == Some(p)
  }

  // The content a commit that started in s0 means to leave in p: what p held then, with
  // marks at the end if it is a participant's log.
  ghost predicate AsCommitted(s0: State, p: Path, data: seq<byte>) {
    && p in s0.files
    && if IsLog(s0.parts, p) then OnlyMarks(s0.files[p].data, data) else data == s0.files[p].data
  }

  ghost predicate FilesCommitted(s0: State, files: map<Path, File>) {
    files.Keys == s0.files.Keys && forall p :: p in files ==> AsCommitted(s0, p, files[p].data)
  }

  ghost predicate PostCommitted(s0: State, post: Content) {
    post.Keys == s0.files.Keys && forall p :: p in post ==> AsCommitted(s0, p, post[p])
  }

  // How far a commit that started in s0 has come, crashes and recovery included.
  ghost predicate UnderWay(s0: State, s: State) {
    match s.pc
    case CommitSync(_) | CommitMark(_) | CommitMarkSync(_) =>
      s.parts == s0.parts && s.fate == Undecided && FilesCommitted(s0, s.files)
    case Retire(commit) => commit && s.fate == Undecided && PostCommitted(s0, s.post)
    case RetireDir(commit) => commit && s.fate == Unlinked && PostCommitted(s0, s.post)
    case Down | Rec(_, _) | RecSync(_, _) | RecUnlink | RecUnlinkDir =>
      s.fate == Undecided || (s.fate == Unlinked && PostCommitted(s0, s.post))
    case Idle => s.fate == Undecided || PostCommitted(s0, s.post)
    case Stuck => true
    case _ => false
  }

  lemma NoMarks(data: seq<byte>)
    ensures OnlyMarks(data, data)
  {
    assert AllCommits([]) && data == data + W.EncodeAll([]);
  }

  lemma MoreMarks(a: seq<byte>, b: seq<byte>, ts: seq<byte>)
    requires OnlyMarks(a, b)
    ensures OnlyMarks(a, b + W.Encode(W.Frame(0xF1, ts, [])))
  {
    hide W.Encode;
    var marks :| AllCommits(marks) && b == a + W.EncodeAll(marks);
    var f := W.Frame(0xF1, ts, []);
    W.EncodeAllAppend(marks, f);
    Associate(a, W.EncodeAll(marks), W.Encode(f));
    assert AllCommits(marks + [f]) && b + W.Encode(f) == a + W.EncodeAll(marks + [f]);
  }

  lemma StartCommitted(s0: State)
    ensures FilesCommitted(s0, s0.files)
  {
    forall p | p in s0.files ensures AsCommitted(s0, p, s0.files[p].data) {
      NoMarks(s0.files[p].data);
    }
  }

  // One commit step before the journal goes.
  lemma MarkUnderWay(s0: State, s: State, t: State, ts: seq<byte>)
    requires UnderWay(s0, s) && MarkCommit(s, t, ts)
    ensures UnderWay(s0, t)
  {
    hide W.Encode, OnlyMarks, AllCommits;
    if s.pc.i < |s.parts| && s.parts[s.pc.i].wal.Some? {
      var p := s.parts[s.pc.i].wal.value;
      assert IsLog(s0.parts, p) && AsCommitted(s0, p, s.files[p].data);
      MoreMarks(s0.files[p].data, s.files[p].data, ts);
    }
  }

  lemma EndUnderWay(w: World, s0: State, s: State, t: State)
    requires UnderWay(s0, s) && EndStep(w, s, t) && s.pc != Idle
    ensures UnderWay(s0, t)
  {
    hide OnlyMarks, AllCommits, MarkCommit, IsLog;
    if ts :| MarkCommit(s, t, ts) { MarkUnderWay(s0, s, t, ts); }
  }

  lemma RecoveryUnderWay(w: World, s0: State, s: State, t: State)
    requires UnderWay(s0, s) && RecoveryStep(w, s, t)
    ensures UnderWay(s0, t)
  {
    hide PostCommitted, FilesCommitted, ReadJournal, Put, Synced;
  }

  lemma CrashUnderWay(s0: State, s: State, t: State)
    requires UnderWay(s0, s) && Crash(s, t) && s.pc != Idle && s.pc != Stuck
    ensures UnderWay(s0, t)
  {
    hide PostCommitted, FilesCommitted, Survives;
  }

  lemma NotOutside(w: World, s0: State, s: State, t: State)
    requires UnderWay(s0, s) && s.pc != Idle
    ensures !OutsideStep(w, s, t) && !TrackStep(w, s, t)
  {
    hide PostCommitted, FilesCommitted, Put, Synced, Recordable, Encode, W.Encode;
  }

  lemma {:induction false} RunUnderWay(w: World, run: seq<State>, m: nat, n: nat)
    requires Run(w, run) && m <= n < |run| && run[m].pc == CommitSync(0)
    requires forall k :: m <= k < n ==> run[k].pc != Idle
    ensures UnderWay(run[m], run[n])
    decreases n - m
  {
    hide Run, EndStep, TrackStep, OutsideStep, RecoveryStep, Crash, UnderWay, FilesCommitted;
    if m == n {
      CommitStarts(w, run, m);
    } else {
      RunUnderWay(w, run, m, n - 1);
      NextInRun(w, run, n - 1);
      NeverStuck(w, run, n - 1);
      StepUnderWay(w, run[m], run[n - 1], run[n]);
    }
  }

  lemma CommitStarts(w: World, run: seq<State>, m: nat)
    requires Run(w, run) && m < |run| && run[m].pc == CommitSync(0)
    ensures UnderWay(run[m], run[m])
  {
    hide Run, FilesCommitted, Held, Base, SidecarsSynced, Undoable;
    RunInv(w, run, m);
    StartCommitted(run[m]);
  }

  lemma NeverStuck(w: World, run: seq<State>, n: nat)
    requires Run(w, run) && n < |run|
    ensures run[n].pc != Stuck
  {
    hide Run;
    AllOrNothing(w, run, n);
  }

  lemma NextInRun(w: World, run: seq<State>, n: nat)
    requires Run(w, run) && n + 1 < |run|
    ensures Step(w, run[n], run[n + 1])
  {
    hide Step, Init;
  }

  lemma StepUnderWay(w: World, s0: State, s: State, t: State)
    requires UnderWay(s0, s) && Step(w, s, t) && s.pc != Idle && s.pc != Stuck
    ensures UnderWay(s0, t)
  {
    hide UnderWay, EndStep, TrackStep, OutsideStep, RecoveryStep, Crash;
    NotOutside(w, s0, s, t);
    if EndStep(w, s, t) { EndUnderWay(w, s0, s, t); }
    else if RecoveryStep(w, s, t) { RecoveryUnderWay(w, s0, s, t); }
    else { CrashUnderWay(s0, s, t); }
  }

  // ----- the theorems -----

  // A commit that finds certain contents ends, whatever crashes come between, with all
  // participants durably as they were at begin, or all durably as the commit found them,
  // TXN_COMMIT frames at the end of the logs aside.
  lemma CommitOutcome(w: World, run: seq<State>, m: nat, n: nat)
    requires Run(w, run) && m <= n < |run| && run[m].pc == CommitSync(0) && run[n].pc == Idle
    requires forall k :: m <= k < n ==> run[k].pc != Idle
    ensures var (ps, s0, s) := (Tracked(run[m].parts), run[m], run[n]);
            || (forall p :: p in ps ==> p in s.files && p in s0.pre && s.files[p] == File(s0.pre[p], true))
            || (forall p :: p in ps ==> p in s.files && s.files[p].synced && AsCommitted(s0, p, s.files[p].data))
  {
    hide Run, Tracked, AsCommitted;
    RunUnderWay(w, run, m, n);
    PartsAnchored(w, run, m);
    RunAnchors(w, run, m, n);
    AllOrNothing(w, run, n);
  }

  lemma PartsAnchored(w: World, run: seq<State>, m: nat)
    requires Run(w, run) && m < |run| && run[m].pc == CommitSync(0)
    ensures Tracked(run[m].parts) <= run[m].anchored
  {
    hide Run, Base, SidecarsSynced, Undoable, Full, PathsOf;
    RunInv(w, run, m);
    assert run[m].recs[..|run[m].recs|] == run[m].recs;
  }

  // A rollback always ends with all participants durably as they were at begin.
  lemma RollbackOutcome(w: World, run: seq<State>, m: nat, n: nat)
    requires Run(w, run) && m <= n < |run| && run[m].pc == Roll(0) && run[n].pc == Idle
    requires forall k :: m <= k < n ==> run[k].pc != Idle
    ensures forall p :: p in Tracked(run[m].parts) ==>
              p in run[n].files && p in run[m].pre && run[n].files[p] == File(run[m].pre[p], true)
  {
    hide Run, Tracked;
    RunUndoing(w, run, m, n);
    RollAnchored(w, run, m);
    RunAnchors(w, run, m, n);
    AllOrNothing(w, run, n);
  }

  lemma RollAnchored(w: World, run: seq<State>, m: nat)
    requires Run(w, run) && m < |run| && run[m].pc == Roll(0)
    ensures Tracked(run[m].parts) <= run[m].anchored
  {
    hide Run, Step, Tracked, Inv;
    FirstIsIdle(w, run);
    NextInRun(w, run, m - 1);
    RollFrom(w, run[m - 1], run[m]);
    RunInv(w, run, m - 1);
    ActiveDeep(w, run[m - 1]);
    ParticipantsDecided(w, run, m - 1, m - 1);
  }

  lemma FirstIsIdle(w: World, run: seq<State>)
    requires Run(w, run)
    ensures run[0].pc == Idle
  {
    hide Step;
  }

  lemma RollFrom(w: World, s: State, t: State)
    requires Step(w, s, t) && t.pc == Roll(0)
    ensures s.pc == Active && t.parts == s.parts && t.anchored == s.anchored
  {
    hide OutsideStep, TrackStep, EndStep, RecoveryStep;
    NoOtherRolls(w, s, t);
    if EndStep(w, s, t) { EndRolls(w, s, t); }
  }

  lemma EndRolls(w: World, s: State, t: State)
    requires EndStep(w, s, t) && t.pc == Roll(0)
    ensures s.pc == Active && t.parts == s.parts && t.anchored == s.anchored
  {
    hide W.Encode, Put, Synced;
  }

  lemma NoOtherRolls(w: World, s: State, t: State)
    requires t.pc == Roll(0)
    ensures !OutsideStep(w, s, t) && !RecoveryStep(w, s, t) && !TrackStep(w, s, t) && !Crash(s, t)
  {
    NoOutsideRoll(w, s, t);
    NoTrackRoll(w, s, t);
  }

  lemma NoOutsideRoll(w: World, s: State, t: State)
    requires t.pc == Roll(0)
    ensures !OutsideStep(w, s, t) && !RecoveryStep(w, s, t)
  {
    hide ReadJournal, Put, Synced, Tracked;
  }

  lemma NoTrackRoll(w: World, s: State, t: State)
    requires t.pc == Roll(0)
    ensures !TrackStep(w, s, t)
  {
    hide Put, Synced, Recordable, Encode, W.Encode, Tracked;
  }

  lemma ActiveDeep(w: World, s: State)
    requires Inv(w, s) && s.pc == Active
    ensures s.depth > 0
  {
    hide Base, Open, SidecarsSynced;
  }

  ghost predicate TakenBack(s: State) {
    && s.fate == Undecided
    && match s.pc
       case Roll(_) | RollSync(_) => true
       case Retire(commit) => !commit
       case RetireDir(commit) => !commit
       case Down | Rec(_, _) | RecSync(_, _) | RecUnlink | RecUnlinkDir | Idle | Stuck => true
       case _ => false
  }

  lemma StepTakenBack(w: World, s: State, t: State)
    requires TakenBack(s) && Step(w, s, t) && s.pc != Idle
    ensures TakenBack(t)
  {
    hide OutsideStep, TrackStep, EndStep, RecoveryStep, TakenBack;
    if OutsideStep(w, s, t) || TrackStep(w, s, t) { BackNotOutside(w, s, t); }
    else if EndStep(w, s, t) { EndTakenBack(w, s, t); }
    else { LaterTakenBack(w, s, t); }
  }

  lemma BackNotOutside(w: World, s: State, t: State)
    requires TakenBack(s) && s.pc != Idle
    ensures !OutsideStep(w, s, t) && !TrackStep(w, s, t)
  {
    hide Put, Synced, Recordable, Encode, W.Encode, Tracked;
  }

  lemma EndTakenBack(w: World, s: State, t: State)
    requires TakenBack(s) && EndStep(w, s, t)
    ensures TakenBack(t)
  {
    hide W.Encode, Put, Synced;
  }

  lemma LaterTakenBack(w: World, s: State, t: State)
    requires TakenBack(s) && (RecoveryStep(w, s, t) || Crash(s, t))
    ensures TakenBack(t)
  {
    hide Survives, ReadJournal, Put, Synced;
  }

  lemma {:induction false} RunUndoing(w: World, run: seq<State>, m: nat, n: nat)
    requires Run(w, run) && m <= n < |run| && run[m].pc == Roll(0)
    requires forall k :: m <= k < n ==> run[k].pc != Idle
    ensures TakenBack(run[n])
    decreases n - m
  {
    hide Run, Step;
    if m == n {
      RollUndecided(w, run, m);
    } else {
      RunUndoing(w, run, m, n - 1);
      NextInRun(w, run, n - 1);
      StepTakenBack(w, run[n - 1], run[n]);
    }
  }

  lemma RollUndecided(w: World, run: seq<State>, m: nat)
    requires Run(w, run) && m < |run| && run[m].pc == Roll(0)
    ensures run[m].fate == Undecided
  {
    hide Run, Base, SidecarsSynced, Undoable, HeldOrNone, Guarded;
    RunInv(w, run, m);
  }
}
