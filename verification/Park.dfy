// Parking and waking coroutines (runtime/channel.c, runtime/select.c, the worker loop of
// runtime/sched.c): locks handed to the worker, wait-queue nodes, the claim word that lets
// one wake-up win, and the run-queue entries. One step per shared access, any number of
// coroutines, channels and other threads, every interleaving.
module Parking {
  type Id = nat
  type Chan = nat

  // A wait-queue node: case `idx` of the coroutine's current wait, on a channel.
  datatype Node = Node(coro: Id, chan: Chan, idx: nat)

  // Who holds a channel's lock: a thread that wakes others, a coroutine, or the worker that
  // switched away from the coroutine and has yet to release it.
  datatype Holder = Free | Agent(a: nat) | Coro(c: Id) | Tail(c: Id)

  datatype Pc =
    | Ready
    | Run
    | Locking(i: nat) | Locked | Unlocking(i: nat)
    | Parked
    | Off
    | Relock(i: nat) | Cleaning
    | Done
    | Bad

  // `locks` are the distinct channels of the current wait in address order, `held` how many
  // of them the worker still has to release, `claimed` whether a wake-up has won and `via`
  // the lock it won under; `pending` wake-ups are decided but not yet in a run queue,
  // `tokens` are in a run queue, `enq` counts the enqueues since the last park.
  datatype Coroutine = Coroutine(
    pc: Pc, locks: seq<Chan>, nodes: set<Node>, select: bool,
    claimed: bool, via: nat, held: nat, pending: nat, tokens: nat, enq: nat)

  datatype State = State(coros: map<Id, Coroutine>, locks: map<Chan, Holder>, queued: set<Node>)

  function HolderOf(s: State, ch: Chan): Holder {
    if ch in s.locks then s.locks[ch] else Free
  }

  function Set(s: State, c: Id, k: Coroutine): State { s.(coros := s.coros[c := k]) }

  ghost predicate Increasing(q: seq<Chan>) {
    forall i, j :: 0 <= i < j < |q| ==> q[i] < q[j]
  }

  // A wait: its nodes belong to the coroutine and its locks are exactly their channels.
  ghost predicate WaitOk(c: Id, locks: seq<Chan>, nodes: set<Node>, select: bool) {
    && |locks| > 0 && Increasing(locks)
    && (forall n :: n in nodes ==> n.coro == c && n.chan in locks)
    && (forall i :: 0 <= i < |locks| ==> exists n :: n in nodes && n.chan == locks[i])
    && (!select ==> |locks| == 1 && exists n :: nodes == {n})
  }

  // ----- the steps -----

  // Entering send, recv or select, and taking the locks in address order.
  ghost predicate Enter(s: State, t: State, c: Id, locks: seq<Chan>, nodes: set<Node>, select: bool) {
    && c in s.coros && s.coros[c].pc == Run && WaitOk(c, locks, nodes, select)
    && t == Set(s, c, s.coros[c].(pc := Locking(0), locks := locks, nodes := nodes, select := select))
  }

  ghost predicate Take(s: State, t: State, c: Id) {
    && c in s.coros && s.coros[c].pc.Locking?
    && var k := s.coros[c];
       if k.pc.i >= |k.locks| then t == Set(s, c, k.(pc := Locked))
       else
         && HolderOf(s, k.locks[k.pc.i]) == Free
         && t == Set(s, c, k.(pc := Locking(k.pc.i + 1))).(locks := s.locks[k.locks[k.pc.i] := Coro(c)])
  }

  // Not parking: a case fired, or there was a default.
  ghost predicate Leave(s: State, t: State, c: Id) {
    && c in s.coros && s.coros[c].pc == Locked
    && t == Set(s, c, s.coros[c].(pc := Unlocking(|s.coros[c].locks|)))
  }

  ghost predicate Drop(s: State, t: State, c: Id) {
    && c in s.coros && s.coros[c].pc.Unlocking?
    && var k := s.coros[c];
       if k.pc.i == 0 then t == Set(s, c, k.(pc := Run))
       else
         && k.pc.i <= |k.locks|
         && t == Set(s, c, k.(pc := Unlocking(k.pc.i - 1))).(locks := s.locks[k.locks[k.pc.i - 1] := Free])
  }

  // Parking under the locks: a fresh claim word and a node on every case's queue.
  ghost predicate Park(s: State, t: State, c: Id) {
    && c in s.coros && s.coros[c].pc == Locked
    && t == Set(s, c, s.coros[c].(pc := Parked, claimed := false, enq := 0)).(queued := s.queued + s.coros[c].nodes)
  }

  // Switching off the coroutine's stack: the worker now has its locks to release.
  ghost predicate Switch(s: State, t: State, c: Id) {
    && c in s.coros && s.coros[c].pc == Parked
    && var k := s.coros[c];
       t == Set(s, c, k.(pc := Off, held := |k.locks|)).(locks := HandOver(s.locks, k.locks, c))
  }

  function HandOver(locks: map<Chan, Holder>, q: seq<Chan>, c: Id): map<Chan, Holder> {
    map ch | ch in locks.Keys + (set i | 0 <= i < |q| :: q[i]) :: if ch in q then Tail(c) else locks[ch]
  }

  // The release loop of the worker, last lock first.
  ghost predicate Release(s: State, t: State, c: Id) {
    && c in s.coros && 0 < s.coros[c].held <= |s.coros[c].locks|
    && var k := s.coros[c];
       t == Set(s, c, k.(held := k.held - 1)).(locks := s.locks[k.locks[k.held - 1] := Free])
  }

  // Another thread takes or releases one channel's lock.
  ghost predicate AgentTake(s: State, t: State, a: nat, ch: Chan) {
    HolderOf(s, ch) == Free && t == s.(locks := s.locks[ch := Agent(a)])
  }

  ghost predicate AgentDrop(s: State, t: State, a: nat, ch: Chan) {
    HolderOf(s, ch) == Agent(a) && t == s.(locks := s.locks[ch := Free])
  }

  function IndexIn(q: seq<Chan>, ch: Chan): (i: nat)
    ensures i <= |q| && (ch in q <==> i < |q|) && (i < |q| ==> q[i] == ch)
  {
    if |q| == 0 || q[0] == ch then 0 else 1 + IndexIn(q[1..], ch)
  }

  // Whoever holds a channel's lock takes a node off its queue and tries to claim it: pops
  // for a counterpart, for close, and the removal by cancellation.
  ghost predicate Pop(s: State, t: State, n: Node) {
    && n in s.queued && n.coro in s.coros
    && (match HolderOf(s, n.chan)
        case Agent(_) => true
        case Coro(d) => d in s.coros && s.coros[d].pc == Locked
        case _ => false)
    && var k := s.coros[n.coro];
       if k.select && k.claimed then t == s.(queued := s.queued - {n})
       else
         t == Set(s, n.coro, k.(claimed := true, via := IndexIn(k.locks, n.chan), pending := k.pending + 1))
              .(queued := s.queued - {n})
  }

  // jinn_sched_enqueue
  ghost predicate Enqueue(s: State, t: State, c: Id) {
    && c in s.coros && s.coros[c].pending > 0
    && var k := s.coros[c];
       t == Set(s, c, k.(pending := k.pending - 1, tokens := k.tokens + 1, enq := k.enq + 1))
  }

  // A worker takes the coroutine from a run queue and switches to it.
  ghost predicate Resume(s: State, t: State, c: Id) {
    && c in s.coros && s.coros[c].tokens > 0
    && var k := s.coros[c];
       var next := if k.pc == Off then (if k.select then Relock(0) else Run) else if k.pc == Ready then Run else Bad;
       t == Set(s, c, k.(pc := next, tokens := k.tokens - 1))
  }

  // A resumed select takes all its locks again, unlinks its nodes and lets go.
  ghost predicate Retake(s: State, t: State, c: Id) {
    && c in s.coros && s.coros[c].pc.Relock?
    && var k := s.coros[c];
       if k.pc.i >= |k.locks| then t == Set(s, c, k.(pc := Cleaning))
       else
         && HolderOf(s, k.locks[k.pc.i]) == Free
         && t == Set(s, c, k.(pc := Relock(k.pc.i + 1))).(locks := s.locks[k.locks[k.pc.i] := Coro(c)])
  }

  ghost predicate Clean(s: State, t: State, c: Id) {
    && c in s.coros && s.coros[c].pc == Cleaning
    && t == Set(s, c, s.coros[c].(pc := Unlocking(|s.coros[c].locks|))).(queued := s.queued - s.coros[c].nodes)
  }

  // A yield: the worker requeues the coroutine after switching off its stack.
  ghost predicate Yield(s: State, t: State, c: Id) {
    && c in s.coros && s.coros[c].pc == Run
    && t == Set(s, c, s.coros[c].(pc := Ready, tokens := s.coros[c].tokens + 1))
  }

  ghost predicate Finish(s: State, t: State, c: Id) {
    && c in s.coros && s.coros[c].pc == Run
    && t == Set(s, c, s.coros[c].(pc := Done))
  }

  // jinn_sched_spawn
  ghost predicate Spawn(s: State, t: State, c: Id) {
    && c !in s.coros
    && t == Set(s, c, Coroutine(Ready, [], {}, false, false, 0, 0, 0, 1, 0))
  }

  ghost predicate CoroStep(s: State, t: State, c: Id) {
    || (exists locks, nodes, select :: Enter(s, t, c, locks, nodes, select))
    || Take(s, t, c) || Leave(s, t, c) || Drop(s, t, c) || Park(s, t, c) || Switch(s, t, c)
    || Retake(s, t, c) || Clean(s, t, c) || Yield(s, t, c) || Finish(s, t, c)
  }

  ghost predicate OtherStep(s: State, t: State) {
    || (exists c :: Release(s, t, c))
    || (exists a, ch :: AgentTake(s, t, a, ch))
    || (exists a, ch :: AgentDrop(s, t, a, ch))
    || (exists n :: Pop(s, t, n))
    || (exists c :: Enqueue(s, t, c))
    || (exists c :: Resume(s, t, c))
    || (exists c :: Spawn(s, t, c))
  }

  ghost predicate Step(s: State, t: State) {
    (exists c :: CoroStep(s, t, c)) || OtherStep(s, t)
  }

  ghost predicate Init(s: State) {
    s == State(map[], map[], {})
  }

  ghost predicate IsRun(run: seq<State>) {
    && |run| > 0 && Init(run[0])
    && forall i :: 0 <= i < |run| - 1 ==> Step(run[i], run[i + 1])
  }

  // ----- the invariant -----

  // How many of its locks a coroutine itself holds.
  function Owned(k: Coroutine): nat {
    match k.pc
    case Locking(i) => if i <= |k.locks| then i else |k.locks|
    case Unlocking(i) => if i <= |k.locks| then i else |k.locks|
    case Relock(i) => if i <= |k.locks| then i else |k.locks|
    case Locked => |k.locks|
    case Parked => |k.locks|
    case Cleaning => |k.locks|
    case _ => 0
  }

  ghost predicate Unlisted(s: State, c: Id) { forall n :: n in s.queued ==> n.coro != c }

  ghost predicate Listed(s: State, k: Coroutine) { k.nodes <= s.queued }

  ghost predicate Quiet(k: Coroutine) { k.pending == 0 && k.tokens == 0 && k.held == 0 }

  ghost predicate Phase(s: State, c: Id, k: Coroutine) {
    match k.pc
    case Ready => Unlisted(s, c) && k.tokens == 1 && k.pending == 0 && k.held == 0
    case Run => Unlisted(s, c) && Quiet(k)
    case Locking(i) => i <= |k.locks| && Unlisted(s, c) && Quiet(k)
    case Locked => Unlisted(s, c) && Quiet(k)
    case Unlocking(i) => i <= |k.locks| && Unlisted(s, c) && Quiet(k)
    case Parked => Listed(s, k) && Quiet(k) && !k.claimed && k.enq == 0
    case Off =>
      if k.claimed then
        && k.pending + k.tokens == 1 && k.enq == k.tokens
        && k.via < |k.locks| && k.held <= k.via
        && (!k.select ==> Unlisted(s, c))
      else Listed(s, k) && k.pending == 0 && k.tokens == 0 && k.enq == 0
    case Relock(i) =>
      && k.select && i <= |k.locks| && k.claimed && k.pending == 0 && k.tokens == 0
      && (k.held > 0 ==> i == 0)
    case Cleaning => k.select && Quiet(k)
    case Done => Unlisted(s, c) && Quiet(k)
    case Bad => false
  }

  ghost predicate Waiting(pc: Pc) {
    !pc.Ready? && !pc.Run? && !pc.Done?
  }

  ghost predicate CoroInv(s: State, c: Id)
    requires c in s.coros
  {
    var k := s.coros[c];
    && Phase(s, c, k)
    && (Waiting(k.pc) ==> WaitOk(c, k.locks, k.nodes, k.select))
    && k.held <= |k.locks| && k.enq <= 1
    && (forall j :: 0 <= j < Owned(k) ==> HolderOf(s, k.locks[j]) == Coro(c))
    && (forall j :: 0 <= j < k.held ==> HolderOf(s, k.locks[j]) == Tail(c))
  }

  // A lock held for a coroutine is one it is accounted as holding.
  ghost predicate HolderOk(s: State, ch: Chan) {
    match HolderOf(s, ch)
    case Coro(c) => c in s.coros && IndexIn(s.coros[c].locks, ch) < Owned(s.coros[c])
    case Tail(c) => c in s.coros && IndexIn(s.coros[c].locks, ch) < s.coros[c].held
    case _ => true
  }

  ghost predicate Inv(s: State) {
    && (forall c :: c in s.coros ==> CoroInv(s, c))
    && (forall n :: n in s.queued ==> n.coro in s.coros && n in s.coros[n.coro].nodes)
    && (forall ch :: HolderOk(s, ch))
  }

  // ----- every step keeps it -----

  ghost predicate Near(h: Holder, c: Id) { h == Free || h == Coro(c) || h == Tail(c) }

  // A step that concerns one coroutine only.
  ghost predicate Local(s: State, t: State, c: Id) {
    && c in t.coros && t.coros == s.coros[c := t.coros[c]]
    && (forall n: Node :: n.coro != c ==> (n in s.queued <==> n in t.queued))
    && (forall ch :: HolderOf(t, ch) == HolderOf(s, ch) || (Near(HolderOf(s, ch), c) && Near(HolderOf(t, ch), c)))
  }

  // What then remains to be shown is about that coroutine.
  lemma LocalKeeps(s: State, t: State, c: Id)
    requires Inv(s) && Local(s, t, c) && CoroInv(t, c)
    requires forall n :: n in t.queued && n.coro == c ==> n in t.coros[c].nodes
    requires forall ch :: HolderOf(t, ch) == Coro(c) ==> IndexIn(t.coros[c].locks, ch) < Owned(t.coros[c])
    requires forall ch :: HolderOf(t, ch) == Tail(c) ==> IndexIn(t.coros[c].locks, ch) < t.coros[c].held
    ensures Inv(t)
  {
    hide IndexIn, WaitOk;
    forall d | d in t.coros && d != c ensures CoroInv(t, d) {
      OtherKeeps(s, t, c, d);
    }
    forall ch ensures HolderOk(t, ch) {
      assert HolderOk(s, ch);
    }
  }

  lemma OtherKeeps(s: State, t: State, c: Id, d: Id)
    requires Inv(s) && Local(s, t, c) && d in s.coros && d != c
    ensures d in t.coros && CoroInv(t, d)
  {
    hide IndexIn, WaitOk, HolderOk, HolderOf;
    assert t.coros[d] == s.coros[d];
    assert CoroInv(s, d);
    var k := s.coros[d];
    forall n | n in k.nodes && n in s.queued && k.pc != Done ensures n.coro != c ==> n in t.queued {
    }
    OtherListed(s, t, c, d);
  }

  lemma OtherListed(s: State, t: State, c: Id, d: Id)
    requires Inv(s) && Local(s, t, c) && d in s.coros && d != c && CoroInv(s, d)
    ensures Unlisted(s, d) ==> Unlisted(t, d)
    ensures Waiting(s.coros[d].pc) && Listed(s, s.coros[d]) ==> Listed(t, s.coros[d])
  {
    hide IndexIn, HolderOk, HolderOf, Phase;
  }

  lemma {:induction false} IndexAt(q: seq<Chan>, j: nat)
    requires Increasing(q) && j < |q|
    ensures IndexIn(q, q[j]) == j
  {
    var i := IndexIn(q, q[j]);
    assert q[i] == q[j];
  }

  lemma EnterKeeps(s: State, t: State, c: Id, locks: seq<Chan>, nodes: set<Node>, select: bool)
    requires Inv(s) && Enter(s, t, c, locks, nodes, select)
    ensures Inv(t)
  {
    hide IndexIn, WaitOk;
    NoHolder(s, c);
    LocalKeeps(s, t, c);
  }

  // A coroutine that owns nothing and owes nothing holds no lock.
  lemma NoHolder(s: State, c: Id)
    requires Inv(s) && c in s.coros && Owned(s.coros[c]) == 0 && s.coros[c].held == 0
    ensures forall ch :: HolderOf(s, ch) != Coro(c) && HolderOf(s, ch) != Tail(c)
  {
    hide IndexIn, HolderOf;
    forall ch ensures HolderOf(s, ch) != Coro(c) && HolderOf(s, ch) != Tail(c) {
      assert HolderOk(s, ch);
    }
  }

  lemma OwnedOnly(s: State, c: Id)
    requires Inv(s) && c in s.coros
    ensures forall ch :: HolderOf(s, ch) == Coro(c) ==> IndexIn(s.coros[c].locks, ch) < Owned(s.coros[c])
    ensures forall ch :: HolderOf(s, ch) == Tail(c) ==> IndexIn(s.coros[c].locks, ch) < s.coros[c].held
  {
    hide IndexIn, HolderOf;
    forall ch ensures HolderOf(s, ch) == Coro(c) ==> IndexIn(s.coros[c].locks, ch) < Owned(s.coros[c]) {
      assert HolderOk(s, ch);
    }
    forall ch ensures HolderOf(s, ch) == Tail(c) ==> IndexIn(s.coros[c].locks, ch) < s.coros[c].held {
      assert HolderOk(s, ch);
    }
  }

  lemma TakeKeeps(s: State, t: State, c: Id)
    requires Inv(s) && Take(s, t, c)
    ensures Inv(t)
  {
    hide IndexIn, WaitOk;
    var k := s.coros[c];
    OwnedOnly(s, c);
    if k.pc.i < |k.locks| {
      WaitIncreasing(s, c);
      TakeOne(s, t, c, k.pc.i);
    }
    LocalKeeps(s, t, c);
  }

  // Taking the next lock in order.
  lemma TakeOne(s: State, t: State, c: Id, i: nat)
    requires Inv(s) && c in s.coros && c in t.coros && i < |s.coros[c].locks| && Increasing(s.coros[c].locks)
    requires Owned(s.coros[c]) == i && s.coros[c].held == 0
    requires HolderOf(s, s.coros[c].locks[i]) == Free && t.locks == s.locks[s.coros[c].locks[i] := Coro(c)]
    ensures forall j :: 0 <= j <= i ==> HolderOf(t, s.coros[c].locks[j]) == Coro(c)
    ensures forall ch :: HolderOf(t, ch) == Coro(c) ==> IndexIn(s.coros[c].locks, ch) < i + 1
    ensures forall ch :: HolderOf(t, ch) != Tail(c)
    ensures forall ch :: HolderOf(t, ch) == HolderOf(s, ch) || (Near(HolderOf(s, ch), c) && Near(HolderOf(t, ch), c))
  {
    hide IndexIn, WaitOk, Phase;
    assert CoroInv(s, c);
    OwnedOnly(s, c);
    var x := s.coros[c].locks[i];
    forall ch ensures HolderOf(t, ch) == if ch == x then Coro(c) else HolderOf(s, ch) {
    }
    IndexAt(s.coros[c].locks, i);
  }

  lemma LeaveKeeps(s: State, t: State, c: Id)
    requires Inv(s) && Leave(s, t, c)
    ensures Inv(t)
  {
    hide IndexIn, WaitOk;
    OwnedOnly(s, c);
    LocalKeeps(s, t, c);
  }

  lemma DropKeeps(s: State, t: State, c: Id)
    requires Inv(s) && Drop(s, t, c)
    ensures Inv(t)
  {
    hide IndexIn, WaitOk;
    OwnedOnly(s, c);
    var k := s.coros[c];
    if k.pc.i > 0 { DropOne(s, t, c, k.pc.i - 1) by { WaitIncreasing(s, c); } }
    LocalKeeps(s, t, c);
  }

  lemma WaitIncreasing(s: State, c: Id)
    requires Inv(s) && c in s.coros && Waiting(s.coros[c].pc)
    ensures Increasing(s.coros[c].locks) && |s.coros[c].locks| > 0
  {
    assert CoroInv(s, c);
  }

  lemma DropOne(s: State, t: State, c: Id, i: nat)
    requires Inv(s) && c in s.coros && i < |s.coros[c].locks| && Increasing(s.coros[c].locks)
    requires Owned(s.coros[c]) == i + 1 && s.coros[c].held == 0
    requires t.locks == s.locks[s.coros[c].locks[i] := Free]
    ensures forall j :: 0 <= j < i ==> HolderOf(t, s.coros[c].locks[j]) == Coro(c)
    ensures forall ch :: HolderOf(t, ch) == Coro(c) ==> IndexIn(s.coros[c].locks, ch) < i
    ensures forall ch :: HolderOf(t, ch) != Tail(c)
    ensures forall ch :: HolderOf(t, ch) == HolderOf(s, ch) || (Near(HolderOf(s, ch), c) && Near(HolderOf(t, ch), c))
  {
    hide IndexIn, WaitOk, Phase;
    assert CoroInv(s, c);
    OwnedOnly(s, c);
    var x := s.coros[c].locks[i];
    forall ch ensures HolderOf(t, ch) == if ch == x then Free else HolderOf(s, ch) {
    }
    IndexAt(s.coros[c].locks, i);
  }

  lemma ParkKeeps(s: State, t: State, c: Id)
    requires Inv(s) && Park(s, t, c)
    ensures Inv(t)
  {
    hide IndexIn;
    OwnedOnly(s, c);
    LocalKeeps(s, t, c);
  }

  lemma SwitchKeeps(s: State, t: State, c: Id)
    requires Inv(s) && Switch(s, t, c)
    ensures Inv(t)
  {
    hide IndexIn, WaitOk, Phase;
    OwnedOnly(s, c);
    HandedOver(s, t, c);
    assert Phase(t, c, t.coros[c]) by { SwitchPhase(s, t, c); }
    LocalKeeps(s, t, c);
  }

  lemma SwitchPhase(s: State, t: State, c: Id)
    requires Inv(s) && Switch(s, t, c)
    ensures Phase(t, c, t.coros[c])
  {
    hide IndexIn, WaitOk;
  }

  lemma HandedOver(s: State, t: State, c: Id)
    requires Inv(s) && c in s.coros && s.coros[c].pc == Parked
    requires t.locks == HandOver(s.locks, s.coros[c].locks, c)
    ensures forall j :: 0 <= j < |s.coros[c].locks| ==> HolderOf(t, s.coros[c].locks[j]) == Tail(c)
    ensures forall ch :: HolderOf(t, ch) == Tail(c) ==> IndexIn(s.coros[c].locks, ch) < |s.coros[c].locks|
    ensures forall ch :: HolderOf(t, ch) != Coro(c)
    ensures forall ch :: HolderOf(t, ch) == HolderOf(s, ch) || (Near(HolderOf(s, ch), c) && Near(HolderOf(t, ch), c))
  {
    hide IndexIn, WaitOk;
    assert CoroInv(s, c);
    OwnedOnly(s, c);
    var q := s.coros[c].locks;
    forall ch ensures HolderOf(t, ch) == if ch in q then Tail(c) else HolderOf(s, ch) {
    }
  }

  lemma ReleaseKeeps(s: State, t: State, c: Id)
    requires Inv(s) && Release(s, t, c)
    ensures Inv(t)
  {
    hide IndexIn, WaitOk;
    assert CoroInv(s, c);
    WaitIncreasing(s, c);
    ReleaseOne(s, t, c, s.coros[c].held - 1);
    LocalKeeps(s, t, c);
  }

  lemma ReleaseOne(s: State, t: State, c: Id, i: nat)
    requires Inv(s) && c in s.coros && i < |s.coros[c].locks| && Increasing(s.coros[c].locks)
    requires Owned(s.coros[c]) == 0 && s.coros[c].held == i + 1
    requires t.locks == s.locks[s.coros[c].locks[i] := Free]
    ensures forall j :: 0 <= j < i ==> HolderOf(t, s.coros[c].locks[j]) == Tail(c)
    ensures forall ch :: HolderOf(t, ch) == Tail(c) ==> IndexIn(s.coros[c].locks, ch) < i
    ensures forall ch :: HolderOf(t, ch) != Coro(c)
    ensures forall ch :: HolderOf(t, ch) == HolderOf(s, ch) || (Near(HolderOf(s, ch), c) && Near(HolderOf(t, ch), c))
  {
    hide IndexIn, WaitOk, Phase;
    assert CoroInv(s, c);
    OwnedOnly(s, c);
    var x := s.coros[c].locks[i];
    forall ch ensures HolderOf(t, ch) == if ch == x then Free else HolderOf(s, ch) {
    }
    IndexAt(s.coros[c].locks, i);
  }

  lemma EnqueueKeeps(s: State, t: State, c: Id)
    requires Inv(s) && Enqueue(s, t, c)
    ensures Inv(t)
  {
    hide IndexIn, WaitOk;
    assert CoroInv(s, c);
    OwnedOnly(s, c);
    LocalKeeps(s, t, c);
  }

  lemma ResumeKeeps(s: State, t: State, c: Id)
    requires Inv(s) && Resume(s, t, c)
    ensures Inv(t)
  {
    hide IndexIn;
    assert CoroInv(s, c);
    OwnedOnly(s, c);
    LocalKeeps(s, t, c);
  }

  // The lock released last is the first in order.
  lemma FirstStillHeld(s: State, c: Id)
    requires Inv(s) && c in s.coros && |s.coros[c].locks| > 0
    ensures s.coros[c].held > 0 ==> HolderOf(s, s.coros[c].locks[0]) == Tail(c)
  {
    assert CoroInv(s, c);
  }

  lemma RetakeKeeps(s: State, t: State, c: Id)
    requires Inv(s) && Retake(s, t, c)
    ensures Inv(t)
  {
    hide IndexIn, WaitOk;
    var k := s.coros[c];
    assert CoroInv(s, c);
    WaitIncreasing(s, c);
    FirstStillHeld(s, c);
    OwnedOnly(s, c);
    if k.pc.i < |k.locks| {
      TakeOne(s, t, c, k.pc.i);
    }
    LocalKeeps(s, t, c);
  }

  lemma CleanKeeps(s: State, t: State, c: Id)
    requires Inv(s) && Clean(s, t, c)
    ensures Inv(t)
  {
    hide IndexIn, WaitOk;
    assert CoroInv(s, c);
    OwnedOnly(s, c);
    assert forall n :: n in s.coros[c].nodes ==> n.coro == c by { NodesMine(s, c); }
    LocalKeeps(s, t, c);
  }

  lemma NodesMine(s: State, c: Id)
    requires Inv(s) && c in s.coros && Waiting(s.coros[c].pc)
    ensures forall n :: n in s.coros[c].nodes ==> n.coro == c && n.chan in s.coros[c].locks
  {
    assert CoroInv(s, c);
  }

  lemma YieldKeeps(s: State, t: State, c: Id)
    requires Inv(s) && Yield(s, t, c)
    ensures Inv(t)
  {
    hide IndexIn, WaitOk;
    assert CoroInv(s, c);
    NoHolder(s, c);
    LocalKeeps(s, t, c);
  }

  lemma FinishKeeps(s: State, t: State, c: Id)
    requires Inv(s) && Finish(s, t, c)
    ensures Inv(t)
  {
    hide IndexIn, WaitOk;
    assert CoroInv(s, c);
    NoHolder(s, c);
    LocalKeeps(s, t, c);
  }

  lemma SpawnKeeps(s: State, t: State, c: Id)
    requires Inv(s) && Spawn(s, t, c)
    ensures Inv(t)
  {
    hide IndexIn, WaitOk;
    forall ch ensures HolderOf(s, ch) != Coro(c) && HolderOf(s, ch) != Tail(c) {
      assert HolderOk(s, ch);
    }
    LocalKeeps(s, t, c);
  }

  lemma AgentKeeps(s: State, t: State, ch: Chan)
    requires Inv(s) && (HolderOf(s, ch).Free? || HolderOf(s, ch).Agent?)
    requires HolderOf(t, ch).Free? || HolderOf(t, ch).Agent?
    requires t == s.(locks := s.locks[ch := HolderOf(t, ch)])
    ensures Inv(t)
  {
    hide IndexIn, WaitOk, Phase;
    forall c | c in t.coros ensures CoroInv(t, c) {
      assert CoroInv(s, c);
      AgentPhase(s, t, c);
    }
    forall x ensures HolderOk(t, x) {
      assert HolderOk(s, x);
    }
  }

  lemma AgentPhase(s: State, t: State, c: Id)
    requires c in s.coros && Phase(s, c, s.coros[c]) && t == s.(locks := t.locks)
    ensures Phase(t, c, s.coros[c])
  {
  }

  // Winning a wake-up: the coroutine is asleep off its stack, nothing else has woken it,
  // and the lock it is woken under has been released.
  lemma PopFacts(s: State, n: Node)
    requires Inv(s) && n in s.queued && n.coro in s.coros
    requires match HolderOf(s, n.chan)
             case Agent(_) => true
             case Coro(d) => d in s.coros && s.coros[d].pc == Locked
             case _ => false
    requires !(s.coros[n.coro].select && s.coros[n.coro].claimed)
    ensures var k := s.coros[n.coro];
            && n in k.nodes && k.pc == Off && !k.claimed && k.pending == 0 && k.tokens == 0 && k.enq == 0
            && IndexIn(k.locks, n.chan) < |k.locks| && k.held <= IndexIn(k.locks, n.chan)
  {
    hide IndexIn, WaitOk;
    var k := s.coros[n.coro];
    assert CoroInv(s, n.coro);
    NodesMine(s, n.coro);
    var i := IndexIn(k.locks, n.chan);
    assert k.locks[i] == n.chan;
    assert forall j :: 0 <= j < k.held ==> HolderOf(s, k.locks[j]) == Tail(n.coro);
  }

  lemma PopKeeps(s: State, t: State, n: Node)
    requires Inv(s) && Pop(s, t, n)
    ensures Inv(t)
  {
    hide IndexIn;
    var c := n.coro;
    assert CoroInv(s, c);
    OwnedOnly(s, c);
    if !(s.coros[c].select && s.coros[c].claimed) { PopFacts(s, n); }
    assert t.coros == s.coros[c := t.coros[c]];
    LocalKeeps(s, t, c);
  }

  lemma CoroStepKeeps(s: State, t: State, c: Id)
    requires Inv(s) && CoroStep(s, t, c)
    ensures Inv(t)
  {
    hide Inv, Enter, Take, Leave, Drop, Park, Switch, Retake, Clean, Yield, Finish;
    if locks, nodes, select :| Enter(s, t, c, locks, nodes, select) { EnterKeeps(s, t, c, locks, nodes, select); }
    else if Take(s, t, c) { TakeKeeps(s, t, c); }
    else if Leave(s, t, c) { LeaveKeeps(s, t, c); }
    else if Drop(s, t, c) { DropKeeps(s, t, c); }
    else if Park(s, t, c) { ParkKeeps(s, t, c); }
    else if Switch(s, t, c) { SwitchKeeps(s, t, c); }
    else if Retake(s, t, c) { RetakeKeeps(s, t, c); }
    else if Clean(s, t, c) { CleanKeeps(s, t, c); }
    else if Yield(s, t, c) { YieldKeeps(s, t, c); }
    else { FinishKeeps(s, t, c); }
  }

  lemma OtherStepKeeps(s: State, t: State)
    requires Inv(s) && OtherStep(s, t)
    ensures Inv(t)
  {
    hide Inv, Release, Pop, Enqueue, Resume, Spawn;
    if c :| Release(s, t, c) { ReleaseKeeps(s, t, c); }
    else if a, ch :| AgentTake(s, t, a, ch) { AgentKeeps(s, t, ch); }
    else if a, ch :| AgentDrop(s, t, a, ch) { AgentKeeps(s, t, ch); }
    else if n :| Pop(s, t, n) { PopKeeps(s, t, n); }
    else if c :| Enqueue(s, t, c) { EnqueueKeeps(s, t, c); }
    else if c :| Resume(s, t, c) { ResumeKeeps(s, t, c); }
    else if c :| Spawn(s, t, c) { SpawnKeeps(s, t, c); }
  }

  lemma {:induction false} RunInv(run: seq<State>, n: nat)
    requires IsRun(run) && n < |run|
    ensures Inv(run[n])
  {
    hide Inv, CoroStep, OtherStep;
    if n == 0 {
      StartInv(run[0]);
    } else {
      RunInv(run, n - 1);
      var s, t := run[n - 1], run[n];
      assert Step(s, run[n - 1 + 1]);
      if c :| CoroStep(s, t, c) { CoroStepKeeps(s, t, c); } else { OtherStepKeeps(s, t); }
    }
  }

  lemma StartInv(s: State)
    requires Init(s)
    ensures Inv(s)
  {
  }

  // ----- the theorems -----

  // Each park causes at most one enqueue; a coroutine is only ever resumed from a yield or
  // from a park it has switched away from; a finished one is owed no wake-up.
  lemma OneEnqueuePerPark(run: seq<State>, n: nat, c: Id)
    requires IsRun(run) && n < |run| && c in run[n].coros
    ensures var k := run[n].coros[c];
            && k.enq <= 1 && k.pc != Bad && k.pending + k.tokens <= 1
            && (k.pending + k.tokens > 0 ==> k.pc == Off || k.pc == Ready)
  {
    hide WaitOk, Owned, HolderOf;
    RunInv(run, n);
    assert CoroInv(run[n], c);
  }

  // An enqueue finds the coroutine switched off its stack, and the lock it was woken under
  // and every later one released. With a single lock that is all of them.
  lemma EnqueueAfterSwitch(run: seq<State>, n: nat, t: State, c: Id)
    requires IsRun(run) && n < |run| && Enqueue(run[n], t, c)
    ensures var k := run[n].coros[c];
            && k.pc == Off && k.via < |k.locks| && k.held <= k.via
            && (forall j :: k.via <= j < |k.locks| ==> HolderOf(run[n], k.locks[j]) != Tail(c))
            && (|k.locks| == 1 ==> k.held == 0)
  {
    hide WaitOk, HolderOf;
    RunInv(run, n);
    var s, k := run[n], run[n].coros[c];
    assert CoroInv(s, c);
    WaitIncreasing(s, c);
    OwnedOnly(s, c);
    forall j | k.via <= j < |k.locks| ensures HolderOf(s, k.locks[j]) != Tail(c) {
      IndexAt(k.locks, j);
    }
  }

  ghost predicate OnQueue(s: State, c: Id, ch: Chan) {
    exists x :: x in s.queued && x.coro == c && x.chan == ch
  }

  // Nobody is forgotten: as long as no wake-up has won, a sleeping coroutine has a node on
  // every queue it waits on; once one has, exactly one wake-up is on its way to it.
  lemma NobodyForgotten(run: seq<State>, n: nat, c: Id)
    requires IsRun(run) && n < |run| && c in run[n].coros && (run[n].coros[c].pc == Off || run[n].coros[c].pc == Parked)
    ensures var k := run[n].coros[c];
            && (!k.claimed ==> k.pending + k.tokens == 0)
            && (!k.claimed ==> forall i :: 0 <= i < |k.locks| ==> OnQueue(run[n], c, k.locks[i]))
            && (k.claimed ==> k.pc == Off && k.pending + k.tokens == 1)
  {
    hide HolderOf, Owned, Step, Init, WaitOk;
    RunInv(run, n);
    assert CoroInv(run[n], c);
    hide Inv;
    var k := run[n].coros[c];
    if !k.claimed {
      assert Listed(run[n], k);
      forall i | 0 <= i < |k.locks| ensures OnQueue(run[n], c, k.locks[i]) {
        NodeFor(c, k.locks, k.nodes, k.select, i);
      }
    }
  }

  lemma NodeFor(c: Id, locks: seq<Chan>, nodes: set<Node>, select: bool, i: nat)
    requires WaitOk(c, locks, nodes, select) && i < |locks|
    ensures exists x :: x in nodes && x.coro == c && x.chan == locks[i]
  {
    var x :| x in nodes && x.chan == locks[i];
  }

  // Whoever holds the lock of a queue with a node of a coroutine nobody has woken yet can
  // wake it: the coroutine is enqueued once and resumed, a select at its first lock.
  lemma CanBeWoken(run: seq<State>, n: nat, x: Node, a: nat) returns (popped: State, queued: State, up: State)
    requires IsRun(run) && n < |run| && x in run[n].queued && HolderOf(run[n], x.chan) == Agent(a)
    requires x.coro in run[n].coros ==> !run[n].coros[x.coro].claimed
    ensures x.coro in run[n].coros
    ensures Pop(run[n], popped, x) && Enqueue(popped, queued, x.coro) && Resume(queued, up, x.coro)
    ensures var (k, u) := (run[n].coros[x.coro], up.coros);
            && u.Keys == run[n].coros.Keys && (forall d :: d in u && d != x.coro ==> u[d] == run[n].coros[d])
            && u[x.coro].pc == (if k.select then Relock(0) else Run) && u[x.coro].claimed && u[x.coro].enq == 1
            && u[x.coro].locks == k.locks && u[x.coro].pending + u[x.coro].tokens == 0
            && up.queued == run[n].queued - {x}
  {
    hide HolderOf, IsRun, Step, Init, IndexIn, Phase, CoroInv, HolderOk, WaitOk, Owned;
    RunInv(run, n);
    var s, c := run[n], x.coro;
    PopFacts(s, x);
    hide Inv;
    var k := s.coros[c];
    var won := k.(claimed := true, via := IndexIn(k.locks, x.chan), pending := k.pending + 1);
    popped := Set(s, c, won).(queued := s.queued - {x});
    var listed := won.(pending := 0, tokens := 1, enq := 1);
    queued := Set(popped, c, listed);
    up := Set(queued, c, listed.(pc := if k.select then Relock(0) else Run, tokens := 0));
  }

  // No wait queue keeps a node of a coroutine that is not waiting.
  lemma NoStaleNodes(run: seq<State>, n: nat, x: Node)
    requires IsRun(run) && n < |run| && x in run[n].queued
    ensures x.coro in run[n].coros
    ensures var pc := run[n].coros[x.coro].pc; pc == Parked || pc == Off || pc.Relock? || pc == Cleaning
  {
    hide WaitOk, HolderOf, Owned;
    RunInv(run, n);
    assert CoroInv(run[n], x.coro);
  }

  // The lock list the worker is still walking lives on the coroutine's stack; until the walk
  // is over the coroutine cannot have got past its first lock, so the list stays alive.
  lemma LockListStaysAlive(run: seq<State>, n: nat, c: Id)
    requires IsRun(run) && n < |run| && c in run[n].coros && run[n].coros[c].held > 0
    ensures run[n].coros[c].pc == Off || run[n].coros[c].pc == Relock(0)
  {
    hide WaitOk, HolderOf, Owned;
    RunInv(run, n);
    assert CoroInv(run[n], c);
  }

  // The lock a coroutine is about to take.
  ghost predicate Wants(s: State, c: Id, ch: Chan) {
    && c in s.coros
    && var k := s.coros[c];
       && (k.pc.Locking? || k.pc.Relock?) && Owned(k) < |k.locks| && k.locks[Owned(k)] == ch
  }

  // Locks are taken in address order, so among coroutines that each wait for a lock the next
  // one holds the wanted addresses climb, and no circle of them can form.
  lemma {:induction false} LocksClimb(run: seq<State>, n: nat, chain: seq<Id>, wanted: seq<Chan>)
    requires IsRun(run) && n < |run| && |chain| == |wanted| && |chain| > 1
    requires forall i :: 0 <= i < |chain| ==> Wants(run[n], chain[i], wanted[i])
    requires forall i :: 0 <= i < |chain| - 1 ==> HolderOf(run[n], wanted[i]) == Coro(chain[i + 1])
    ensures wanted[0] < wanted[|wanted| - 1]
    ensures HolderOf(run[n], wanted[|wanted| - 1]) != Coro(chain[0])
    decreases |chain|
  {
    hide HolderOf, Owned, Wants, Inv, Step;
    RunInv(run, n);
    var s, last := run[n], |chain| - 1;
    NextIsHigher(s, chain[last], wanted[last - 1], wanted[last]);
    if last > 1 { LocksClimb(run, n, chain[..last], wanted[..last]); }
    if HolderOf(s, wanted[last]) == Coro(chain[0]) {
      NextIsHigher(s, chain[0], wanted[last], wanted[0]);
    }
  }

  lemma NextIsHigher(s: State, c: Id, held: Chan, wanted: Chan)
    requires Inv(s) && Wants(s, c, wanted) && HolderOf(s, held) == Coro(c)
    ensures held < wanted
  {
    hide HolderOf, Phase;
    OwnedOnly(s, c);
    WaitIncreasing(s, c);
    assert s.coros[c].locks[IndexIn(s.coros[c].locks, held)] == held;
  }

  // ----- with several locks an enqueue can come before the release loop is through -----

  lemma Append(run: seq<State>, t: State)
    requires |run| > 0 && IsRun(run) && Step(run[|run| - 1], t)
    ensures IsRun(run + [t])
  {
    hide Step;
    var longer := run + [t];
    forall i | 0 <= i < |longer| - 1 ensures Step(longer[i], longer[i + 1]) {
      if i < |run| - 1 { assert Step(run[i], run[i + 1]); }
    }
  }

  // The lock table after the first i locks were taken by coroutine 0.
  ghost function Taken(locks: seq<Chan>, i: nat): (m: map<Chan, Holder>)
    requires i <= |locks|
    ensures forall ch :: ch in m <==> ch in locks[..i]
    ensures forall ch :: ch in m ==> m[ch] == Coro(0)
  {
    if i == 0 then map[] else
      assert locks[..i] == locks[..i - 1] + [locks[i - 1]];
      Taken(locks, i - 1)[locks[i - 1] := Coro(0)]
  }

  ghost function AtLock(locks: seq<Chan>, nodes: set<Node>, i: nat): State
    requires i <= |locks|
  {
    State(map[0 := Coroutine(Locking(i), locks, nodes, true, false, 0, 0, 0, 0, 0)], Taken(locks, i), {})
  }

  lemma {:induction false} LockingRun(locks: seq<Chan>, nodes: set<Node>, i: nat) returns (run: seq<State>)
    requires WaitOk(0, locks, nodes, true) && i <= |locks|
    ensures |run| > 0 && IsRun(run) && run[|run| - 1] == AtLock(locks, nodes, i)
  {
    hide WaitOk;
    if i == 0 {
      var s0 := State(map[], map[], {});
      var s1 := Set(s0, 0, Coroutine(Ready, [], {}, false, false, 0, 0, 0, 1, 0));
      assert Spawn(s0, s1, 0);
      var s2 := Set(s1, 0, s1.coros[0].(pc := Run, tokens := 0));
      assert Resume(s1, s2, 0);
      var s3 := AtLock(locks, nodes, 0);
      assert Enter(s2, s3, 0, locks, nodes, true);
      assert CoroStep(s2, s3, 0);
      run := [s0];
      Append(run, s1);
      run := run + [s1];
      Append(run, s2);
      run := run + [s2];
      Append(run, s3);
      run := run + [s3];
    } else {
      run := LockingRun(locks, nodes, i - 1);
      var s, t := AtLock(locks, nodes, i - 1), AtLock(locks, nodes, i);
      NotYetTaken(0, locks, nodes, true, i - 1);
      assert Take(s, t, 0);
      assert CoroStep(s, t, 0);
      Append(run, t);
      run := run + [t];
    }
  }

  lemma NotYetTaken(c: Id, locks: seq<Chan>, nodes: set<Node>, select: bool, i: nat)
    requires WaitOk(c, locks, nodes, select) && i < |locks|
    ensures locks[i] !in locks[..i]
  {
  }

  ghost function ParkedState(locks: seq<Chan>, nodes: set<Node>): State {
    State(map[0 := Coroutine(Parked, locks, nodes, true, false, 0, 0, 0, 0, 0)], Taken(locks, |locks|), nodes)
  }

  lemma ParkedRun(locks: seq<Chan>, nodes: set<Node>) returns (run: seq<State>)
    requires WaitOk(0, locks, nodes, true)
    ensures |run| > 0 && IsRun(run) && run[|run| - 1] == ParkedState(locks, nodes)
  {
    hide WaitOk, IsRun;
    run := LockingRun(locks, nodes, |locks|);
    var s0 := AtLock(locks, nodes, |locks|);
    var s1 := Set(s0, 0, s0.coros[0].(pc := Locked));
    assert Take(s0, s1, 0);
    assert CoroStep(s0, s1, 0);
    Append(run, s1);
    run := run + [s1];
    var s2 := ParkedState(locks, nodes);
    assert {} + nodes == nodes;
    assert Park(s1, s2, 0);
    assert CoroStep(s1, s2, 0);
    Append(run, s2);
    run := run + [s2];
  }

  ghost function OffState(locks: seq<Chan>, nodes: set<Node>): State {
    State(map[0 := Coroutine(Off, locks, nodes, true, false, 0, |locks|, 0, 0, 0)],
          HandOver(Taken(locks, |locks|), locks, 0), nodes)
  }

  lemma OffRun(locks: seq<Chan>, nodes: set<Node>) returns (run: seq<State>)
    requires WaitOk(0, locks, nodes, true)
    ensures |run| > 0 && IsRun(run) && run[|run| - 1] == OffState(locks, nodes)
  {
    hide WaitOk, IsRun, HandOver;
    run := ParkedRun(locks, nodes);
    var s, t := ParkedState(locks, nodes), OffState(locks, nodes);
    assert Switch(s, t, 0);
    assert CoroStep(s, t, 0);
    Append(run, t);
    run := run + [t];
  }

  lemma Handed(locks: map<Chan, Holder>, q: seq<Chan>, c: Id, ch: Chan)
    requires ch in q
    ensures ch in HandOver(locks, q, c) && HandOver(locks, q, c)[ch] == Tail(c)
  {
  }

  // Parked, switched away from, and one lock released.
  lemma PartlyReleasedRun(locks: seq<Chan>, nodes: set<Node>) returns (run: seq<State>)
    requires WaitOk(0, locks, nodes, true)
    ensures |run| > 0 && IsRun(run)
    ensures var s := run[|run| - 1];
            && s.coros == map[0 := Coroutine(Off, locks, nodes, true, false, 0, |locks| - 1, 0, 0, 0)]
            && s.queued == nodes && HolderOf(s, locks[|locks| - 1]) == Free
            && (|locks| > 1 ==> HolderOf(s, locks[0]) == Tail(0))
  {
    hide WaitOk, IsRun, HandOver;
    var n := |locks|;
    NotEmpty(0, locks, nodes, true);
    run := OffRun(locks, nodes);
    var s := OffState(locks, nodes);
    Handed(Taken(locks, n), locks, 0, locks[0]);
    var t := Set(s, 0, s.coros[0].(held := n - 1)).(locks := s.locks[locks[n - 1] := Free]);
    assert Release(s, t, 0);
    Append(run, t);
    run := run + [t];
  }

  lemma NotEmpty(c: Id, locks: seq<Chan>, nodes: set<Node>, select: bool)
    requires WaitOk(c, locks, nodes, select)
    ensures |locks| > 0 && (|locks| > 1 ==> locks[0] != locks[|locks| - 1])
    ensures exists n :: n in nodes && n.chan == locks[|locks| - 1]
  {
  }

  // For every select over two or more channels there is a run in which it is enqueued while
  // the worker still has to release its first lock. So an enqueue always follows the release
  // of all held locks exactly for waits on a single channel.
  lemma EnqueueBeforeRelease(locks: seq<Chan>, nodes: set<Node>) returns (run: seq<State>, t: State)
    requires WaitOk(0, locks, nodes, true) && |locks| >= 2
    ensures |run| > 0 && IsRun(run) && Enqueue(run[|run| - 1], t, 0)
    ensures run[|run| - 1].coros[0].locks == locks && run[|run| - 1].coros[0].held > 0
    ensures HolderOf(run[|run| - 1], locks[0]) == Tail(0)
  {
    hide WaitOk, IndexIn;
    run := PartlyReleasedRun(locks, nodes);
    var s0 := run[|run| - 1];
    NotEmpty(0, locks, nodes, true);
    var ch := locks[|locks| - 1];
    var s1 := s0.(locks := s0.locks[ch := Agent(0)]);
    assert AgentTake(s0, s1, 0, ch);
    Append(run, s1);
    run := run + [s1];
    var x :| x in nodes && x.chan == ch;
    OwnNode(0, locks, nodes, true, x);
    var k := s1.coros[0];
    var s2 := Set(s1, 0, k.(claimed := true, via := IndexIn(locks, ch), pending := 1)).(queued := s1.queued - {x});
    assert Pop(s1, s2, x);
    Append(run, s2);
    run := run + [s2];
    t := Set(s2, 0, s2.coros[0].(pending := 0, tokens := 1, enq := 1));
    assert Enqueue(s2, t, 0);
  }

  lemma OwnNode(c: Id, locks: seq<Chan>, nodes: set<Node>, select: bool, x: Node)
    requires WaitOk(c, locks, nodes, select) && x in nodes
    ensures x.coro == c
  {
  }
}
