// The cancellation tree of runtime/scope.c: cancel walks a scope's children and child scopes
// under its lock, recursively, while other threads create scopes, register and unregister
// coroutines and join scopes. Accesses to cancelled flags are single steps; work on a list
// is one step of the thread that holds the list's lock.
module Cancellation {
  import opened Options

  type Tid = nat
  type Sid = nat
  type Cid = nat

  // How far the one walk of a cancelled scope has come.
  datatype Walk = NoWalk | Waiting | Kids(i: nat) | Scopes(i: nat) | Walked {
    predicate Going() { Waiting? || Kids? || Scopes? }
    predicate Inside() { Kids? || Scopes? }
  }

  // A newcomer has yet to look at the flag of the scope it joined, or has seen it set and
  // has yet to set its own.
  datatype Entry = Checking | WillStore | Settled

  datatype Scope = Scope(
    cancelled: bool, walk: Walk, walker: Tid, entry: Entry, maker: Tid, parent: Option<Sid>,
    children: seq<Cid>, scopes: seq<Sid>, lock: Option<Tid>, freed: bool)

  datatype Coro = Coro(cancelled: bool, entry: Entry, maker: Tid, scope: Sid)

  datatype Op =
    | Idle
    | Cancel(stack: seq<Sid>, swap: Option<Sid>)
    | CreateLock(x: Sid) | CreateCheck(x: Sid) | CreateUnlock(x: Sid, flag: bool) | CreateStore(x: Sid, flag: bool)
    | RegLock(x: Sid, c: Cid) | RegCheck(x: Sid, c: Cid) | RegFinish(x: Sid, c: Cid, flag: bool)
    | FreeIt(x: Sid)

  // The last three fields are history: the scopes named in a cancel call, the coroutines
  // unregistered from a scope, and the scopes taken off their parent's list by a join.
  datatype State = State(
    scopes: map<Sid, Scope>, coros: map<Cid, Coro>, threads: map<Tid, Op>,
    asked: set<Sid>, left: set<(Sid, Cid)>, joined: set<Sid>)

  // ----- the steps -----

  ghost predicate At(s: State, t: Tid, op: Op) { t in s.threads && s.threads[t] == op }

  function Go(s: State, t: Tid, op: Op): State { s.(threads := s.threads[t := op]) }

  function Put(s: State, x: Sid, k: Scope): State { s.(scopes := s.scopes[x := k]) }

  ghost predicate StartCancel(s: State, u: State, t: Tid, x: Sid) {
    At(s, t, Idle) && x in s.scopes && u == Go(s, t, Cancel([], Some(x))).(asked := s.asked + {x})
  }

  function Advanced(s: State, stack: seq<Sid>): map<Sid, Scope> {
    if |stack| == 0 || stack[|stack| - 1] !in s.scopes then s.scopes
    else
      var top := stack[|stack| - 1];
      var k := s.scopes[top];
      if k.walk.Scopes? then s.scopes[top := k.(walk := Scopes(k.walk.i + 1))] else s.scopes
  }

  // The exchange on a scope's flag: the first caller goes on to walk it, any other returns.
  ghost predicate Swap(s: State, u: State, t: Tid) {
    && t in s.threads && s.threads[t].Cancel? && s.threads[t].swap.Some?
    && var op := s.threads[t];
       var x := op.swap.value;
       && x in s.scopes
       && var after := Advanced(s, op.stack);
          && x in after
          && if s.scopes[x].cancelled then
               u == Go(s, t, Cancel(op.stack, None)).(scopes := after)
             else
               u == Go(s, t, Cancel(op.stack + [x], None)).(
                 scopes := after[x := after[x].(cancelled := true, walk := Waiting, walker := t)])
  }

  ghost predicate OnTop(s: State, t: Tid, x: Sid) {
    && t in s.threads && s.threads[t].Cancel? && s.threads[t].swap.None?
    && |s.threads[t].stack| > 0 && x == s.threads[t].stack[|s.threads[t].stack| - 1] && x in s.scopes
  }

  ghost predicate Acquire(s: State, u: State, t: Tid, x: Sid) {
    && OnTop(s, t, x) && s.scopes[x].walk == Waiting && s.scopes[x].lock == None
    && u == Put(s, x, s.scopes[x].(walk := Kids(0), lock := Some(t)))
  }

  // One child coroutine, then on to the child scopes.
  ghost predicate CancelKid(s: State, u: State, t: Tid, x: Sid) {
    && OnTop(s, t, x) && s.scopes[x].walk.Kids?
    && var k := s.scopes[x];
       var i := k.walk.i;
       if i >= |k.children| then u == Put(s, x, k.(walk := Scopes(0)))
       else
         && k.children[i] in s.coros
         && u == Put(s, x, k.(walk := Kids(i + 1))).(
              coros := s.coros[k.children[i] := s.coros[k.children[i]].(cancelled := true)])
  }

  ghost predicate Descend(s: State, u: State, t: Tid, x: Sid) {
    && OnTop(s, t, x) && s.scopes[x].walk.Scopes? && s.scopes[x].walk.i < |s.scopes[x].scopes|
    && u == Go(s, t, Cancel(s.threads[t].stack, Some(s.scopes[x].scopes[s.scopes[x].walk.i])))
  }

  ghost predicate Ascend(s: State, u: State, t: Tid, x: Sid) {
    && OnTop(s, t, x) && s.scopes[x].walk.Scopes? && s.scopes[x].walk.i >= |s.scopes[x].scopes|
    && u == Go(Put(s, x, s.scopes[x].(walk := Walked, lock := None)), t,
               Cancel(s.threads[t].stack[..|s.threads[t].stack| - 1], None))
  }

  ghost predicate EndCancel(s: State, u: State, t: Tid) {
    At(s, t, Cancel([], None)) && u == Go(s, t, Idle)
  }

  // jinn_scope_create
  ghost predicate NewScope(s: State, u: State, t: Tid, x: Sid, parent: Option<Sid>) {
    && At(s, t, Idle) && x !in s.scopes
    && (parent.Some? ==> parent.value in s.scopes && s.scopes[parent.value].entry == Settled)
    && var k := Scope(false, NoWalk, 0, if parent.Some? then Checking else Settled, t, parent, [], [], None, false);
       u == Go(Put(s, x, k), t, if parent.Some? then CreateLock(x) else Idle)
  }

  ghost predicate ListScope(s: State, u: State, t: Tid, x: Sid, p: Sid) {
    && At(s, t, CreateLock(x)) && x in s.scopes && s.scopes[x].parent == Some(p) && p in s.scopes
    && s.scopes[p].lock == None
    && u == Go(Put(s, p, s.scopes[p].(lock := Some(t), scopes := s.scopes[p].scopes + [x])), t, CreateCheck(x))
  }

  ghost predicate CheckParent(s: State, u: State, t: Tid, x: Sid, p: Sid) {
    && At(s, t, CreateCheck(x)) && x in s.scopes && s.scopes[x].parent == Some(p) && p in s.scopes
    && var flag := s.scopes[p].cancelled;
       u == Go(Put(s, x, s.scopes[x].(entry := if flag then WillStore else Settled)), t, CreateUnlock(x, flag))
  }

  ghost predicate UnlockParent(s: State, u: State, t: Tid, x: Sid, p: Sid) {
    && t in s.threads && s.threads[t].CreateUnlock? && s.threads[t].x == x
    && x in s.scopes && s.scopes[x].parent == Some(p) && p in s.scopes
    && u == Go(Put(s, p, s.scopes[p].(lock := None)), t, CreateStore(x, s.threads[t].flag))
  }

  ghost predicate StoreOwn(s: State, u: State, t: Tid, x: Sid) {
    && t in s.threads && s.threads[t].CreateStore? && s.threads[t].x == x && x in s.scopes
    && u == if s.threads[t].flag then Go(Put(s, x, s.scopes[x].(cancelled := true, entry := Settled)), t, Idle)
            else Go(s, t, Idle)
  }

  // jinn_scope_register_child_in, for a new coroutine.
  ghost predicate Register(s: State, u: State, t: Tid, x: Sid, c: Cid) {
    && At(s, t, Idle) && x in s.scopes && s.scopes[x].entry == Settled && c !in s.coros
    && u == Go(s, t, RegLock(x, c)).(coros := s.coros[c := Coro(false, Checking, t, x)])
  }

  ghost predicate ListChild(s: State, u: State, t: Tid, x: Sid, c: Cid) {
    && At(s, t, RegLock(x, c)) && x in s.scopes && s.scopes[x].lock == None
    && u == Go(Put(s, x, s.scopes[x].(lock := Some(t), children := s.scopes[x].children + [c])), t, RegCheck(x, c))
  }

  ghost predicate CheckScope(s: State, u: State, t: Tid, x: Sid, c: Cid) {
    && At(s, t, RegCheck(x, c)) && x in s.scopes && c in s.coros
    && var flag := s.scopes[x].cancelled;
       u == Go(s, t, RegFinish(x, c, flag)).(
         coros := s.coros[c := s.coros[c].(entry := if flag then WillStore else Settled)])
  }

  ghost predicate FinishRegister(s: State, u: State, t: Tid, x: Sid, c: Cid) {
    && t in s.threads && s.threads[t].RegFinish? && s.threads[t].x == x && s.threads[t].c == c
    && x in s.scopes && c in s.coros
    && u == Go(Put(s, x, s.scopes[x].(lock := None)), t, Idle).(
         coros := if s.threads[t].flag then s.coros[c := s.coros[c].(cancelled := true, entry := Settled)]
                  else s.coros)
  }

  // The swap with the last entry that removes one.
  function Removed(q: seq<nat>, x: nat): (r: seq<nat>)
    ensures forall y :: y in r ==> y in q
  {
    if |q| == 0 then []
    else if q[0] == x then (if |q| == 1 then [] else [q[|q| - 1]] + q[1..|q| - 1])
    else [q[0]] + Removed(q[1..], x)
  }

  // jinn_scope_unregister_child
  ghost predicate Unregister(s: State, u: State, t: Tid, x: Sid, c: Cid) {
    && At(s, t, Idle) && x in s.scopes && s.scopes[x].lock == None
    && u == Go(Put(s, x, s.scopes[x].(children := Removed(s.scopes[x].children, c))), t, Idle).(
         left := s.left + {(x, c)})
  }

  // The end of jinn_scope_join: off the parent's list, then free.
  ghost predicate Unlist(s: State, u: State, t: Tid, x: Sid) {
    && At(s, t, Idle) && x in s.scopes && s.scopes[x].entry == Settled
    && match s.scopes[x].parent
       case None => u == Go(s, t, FreeIt(x)).(joined := s.joined + {x})
       case Some(p) =>
         && p in s.scopes && s.scopes[p].lock == None
         && u == Go(Put(s, p, s.scopes[p].(scopes := Removed(s.scopes[p].scopes, x))), t, FreeIt(x)).(
              joined := s.joined + {x})
  }

  ghost predicate Free(s: State, u: State, t: Tid, x: Sid) {
    && At(s, t, FreeIt(x)) && x in s.scopes
    && u == Go(Put(s, x, s.scopes[x].(freed := true)), t, Idle)
  }

  ghost predicate NewThread(s: State, u: State, t: Tid) {
    t !in s.threads && u == Go(s, t, Idle)
  }

  // ----- the invariant -----

  // A listed coroutine or scope is cancelled, or its newcomer check will see to it.
  ghost predicate ChildOk(s: State, c: Cid) {
    c in s.coros && (s.coros[c].cancelled || s.coros[c].entry != Settled)
  }

  ghost predicate ScopeOk(s: State, y: Sid) {
    y in s.scopes && (s.scopes[y].cancelled || s.scopes[y].entry != Settled)
  }

  // What the walk of a cancelled scope has covered so far.
  ghost predicate Covered(s: State, k: Scope) {
    match k.walk
    case Waiting => true
    case Kids(i) => i <= |k.children| && forall j :: 0 <= j < i ==> ChildOk(s, k.children[j])
    case Scopes(i) =>
      && i <= |k.scopes|
      && (forall c :: c in k.children ==> ChildOk(s, c))
      && forall j :: 0 <= j < i ==> ScopeOk(s, k.scopes[j])
    case _ =>
      && (forall c :: c in k.children ==> ChildOk(s, c))
      && forall y :: y in k.scopes ==> ScopeOk(s, y)
  }

  ghost predicate NoDup(q: seq<nat>) { forall i, j :: 0 <= i < j < |q| ==> q[i] != q[j] }

  // The lock of x is held by thread t.
  ghost predicate Holds(s: State, t: Tid, x: Sid) {
    && t in s.threads && x in s.scopes
    && match s.threads[t]
       case Cancel(stack, _) => x in stack && s.scopes[x].walk.Inside()
       case CreateCheck(y) => y in s.scopes && s.scopes[y].parent == Some(x)
       case CreateUnlock(y, _) => y in s.scopes && s.scopes[y].parent == Some(x)
       case RegCheck(y, _) => y == x
       case RegFinish(y, _, _) => y == x
       case _ => false
  }

  ghost predicate Making(s: State, t: Tid, x: Sid, entry: Entry) {
    && t in s.threads
    && match s.threads[t]
       case CreateLock(y) => y == x && entry == Checking
       case CreateCheck(y) => y == x && entry == Checking
       case CreateUnlock(y, flag) => y == x && flag && entry == WillStore
       case CreateStore(y, flag) => y == x && flag && entry == WillStore
       case _ => false
  }

  ghost predicate Registering(s: State, t: Tid, c: Cid, entry: Entry) {
    && t in s.threads
    && match s.threads[t]
       case RegLock(_, d) => d == c && entry == Checking
       case RegCheck(_, d) => d == c && entry == Checking
       case RegFinish(_, d, flag) => d == c && flag && entry == WillStore
       case _ => false
  }

  ghost predicate InStack(s: State, t: Tid, x: Sid) {
    t in s.threads && s.threads[t].Cancel? && x in s.threads[t].stack
  }

  ghost predicate Listing(s: State, x: Sid)
    requires x in s.scopes
  {
    var k := s.scopes[x];
    && NoDup(k.scopes)
    && (forall y :: y in k.scopes ==> y in s.scopes && s.scopes[y].parent == Some(x) && !s.scopes[y].freed && y != x)
    && (forall c :: c in k.children ==> c in s.coros && s.coros[c].scope == x)
  }

  ghost predicate ScopeInv(s: State, x: Sid)
    requires x in s.scopes
  {
    var k := s.scopes[x];
    && (k.walk.Going() ==> k.cancelled && InStack(s, k.walker, x))
    && (k.walk.Inside() ==> k.lock == Some(k.walker))
    && (k.cancelled ==> Covered(s, k))
    && (k.entry != Settled ==> k.children == [] && k.scopes == [] && Making(s, k.maker, x, k.entry))
    && (k.lock.Some? ==> Holds(s, k.lock.value, x))
  }

  ghost predicate CoroInv(s: State, c: Cid)
    requires c in s.coros
  {
    s.coros[c].entry != Settled ==> Registering(s, s.coros[c].maker, c, s.coros[c].entry)
  }

  ghost predicate Unlisted(s: State, x: Sid) {
    forall z :: z in s.scopes ==> x !in s.scopes[z].scopes
  }

  ghost predicate CancelInv(s: State, t: Tid, stack: seq<Sid>, swap: Option<Sid>) {
    && NoDup(stack)
    && (forall i :: 0 <= i < |stack| ==>
          stack[i] in s.scopes && s.scopes[stack[i]].walk.Going() && s.scopes[stack[i]].walker == t)
    && (swap.Some? ==> swap.value in s.scopes)
    && (swap.Some? && |stack| > 0 ==>
          var k := s.scopes[stack[|stack| - 1]];
          k.walk.Scopes? && k.walk.i < |k.scopes| && k.scopes[k.walk.i] == swap.value)
  }

  ghost predicate OwnParent(s: State, x: Sid) {
    x in s.scopes && s.scopes[x].parent.Some? && s.scopes[x].parent.value in s.scopes && s.scopes[x].parent.value != x
  }

  ghost predicate ThreadInv(s: State, t: Tid)
    requires t in s.threads
  {
    match s.threads[t]
    case Idle => true
    case Cancel(stack, swap) => CancelInv(s, t, stack, swap)
    case CreateLock(x) =>
      && OwnParent(s, x) && s.scopes[x].maker == t && s.scopes[x].entry == Checking && !s.scopes[x].freed
      && s.scopes[s.scopes[x].parent.value].entry == Settled && Unlisted(s, x)
    case CreateCheck(x) =>
      && OwnParent(s, x) && s.scopes[x].maker == t && s.scopes[x].entry == Checking
      && s.scopes[s.scopes[x].parent.value].lock == Some(t)
    case CreateUnlock(x, flag) =>
      && OwnParent(s, x) && s.scopes[s.scopes[x].parent.value].lock == Some(t)
      && (flag ==> s.scopes[x].maker == t && s.scopes[x].entry == WillStore)
    case CreateStore(x, flag) => x in s.scopes && (flag ==> s.scopes[x].maker == t && s.scopes[x].entry == WillStore)
    case RegLock(x, c) =>
      && x in s.scopes && s.scopes[x].entry == Settled
      && c in s.coros && s.coros[c].scope == x && s.coros[c].maker == t && s.coros[c].entry == Checking
    case RegCheck(x, c) =>
      && x in s.scopes && s.scopes[x].lock == Some(t)
      && c in s.coros && s.coros[c].scope == x && s.coros[c].maker == t && s.coros[c].entry == Checking
    case RegFinish(x, c, flag) =>
      && x in s.scopes && s.scopes[x].lock == Some(t) && c in s.coros && s.coros[c].scope == x
      && (flag ==> s.coros[c].maker == t && s.coros[c].entry == WillStore)
    case FreeIt(x) => x in s.scopes && s.scopes[x].entry == Settled && Unlisted(s, x)
  }

  ghost predicate Inv(s: State) {
    && (forall x :: x in s.scopes ==> ScopeInv(s, x) && Listing(s, x))
    && (forall c :: c in s.coros ==> CoroInv(s, c))
    && (forall t :: t in s.threads ==> ThreadInv(s, t))
  }

  // ----- what a step of one thread leaves alone -----

  // A change thread t may make to a scope without upsetting other threads.
  ghost predicate Gentle(k: Scope, l: Scope, t: Tid) {
    && l.parent == k.parent
    && (k.walk.Going() && k.walker != t ==> l.walk == k.walk && l.walker == k.walker)
    && (k.walk.Inside() && k.walker != t ==> l.scopes == k.scopes)
    && (k.entry != Settled && k.maker != t ==> l.entry == k.entry && l.maker == k.maker)
    && (k.entry == Settled ==> l.entry == Settled)
    && (k.lock.Some? && k.lock.value != t ==> l.lock == k.lock)
  }

  ghost predicate GentleCoro(k: Coro, l: Coro, t: Tid) {
    l.scope == k.scope && (k.entry != Settled && k.maker != t ==> l.entry == k.entry && l.maker == k.maker)
  }

  // Thread t changes only itself, the scopes in d and the coroutines in e.
  ghost predicate Mild(s: State, u: State, t: Tid, d: set<Sid>, e: set<Cid>) {
    && t in u.threads && u.threads == s.threads[t := u.threads[t]]
    && s.scopes.Keys <= u.scopes.Keys <= s.scopes.Keys + d
    && s.coros.Keys <= u.coros.Keys <= s.coros.Keys + e
    && (forall z :: z in s.scopes ==>
          if z in d then Gentle(s.scopes[z], u.scopes[z], t) else u.scopes[z] == s.scopes[z])
    && (forall c :: c in s.coros ==>
          if c in e then GentleCoro(s.coros[c], u.coros[c], t) else u.coros[c] == s.coros[c])
  }

  ghost predicate Uncancelled(s: State, x: Sid) { x in s.scopes && !s.scopes[x].cancelled }

  // What a cancelled scope has covered stays covered, only the thread's own newborn is newly listed, and
  // nothing listed is freed.
  ghost predicate Orderly(s: State, u: State, t: Tid) {
    && (forall c :: ChildOk(s, c) ==> ChildOk(u, c) || (c in s.coros && Uncancelled(s, s.coros[c].scope)))
    && (forall y :: ScopeOk(s, y) ==>
          ScopeOk(u, y) || (y in s.scopes && s.scopes[y].parent.Some? && Uncancelled(s, s.scopes[y].parent.value)))
    && (forall z, y :: z in u.scopes && y in u.scopes[z].scopes ==>
          (z in s.scopes && y in s.scopes[z].scopes)
          || (y in s.scopes && s.scopes[y].maker == t && s.scopes[y].entry == Checking))
    && (forall y :: y in s.scopes && u.scopes.Keys >= s.scopes.Keys && u.scopes[y].freed ==>
          s.scopes[y].freed || (s.scopes[y].entry == Settled && Unlisted(s, y)))
  }

  // What thread t itself owes to scopes and coroutines it does not change.
  ghost predicate Retained(s: State, u: State, t: Tid, d: set<Sid>, e: set<Cid>) {
    && (forall z :: z !in d ==> (InStack(s, t, z) ==> InStack(u, t, z)) && (Holds(s, t, z) ==> Holds(u, t, z)))
    && (forall z, n :: z !in d && Making(s, t, z, n) ==> Making(u, t, z, n))
    && (forall c, n :: c !in e && Registering(s, t, c, n) ==> Registering(u, t, c, n))
  }

  lemma OtherScope(s: State, u: State, t: Tid, d: set<Sid>, e: set<Cid>, z: Sid)
    requires Inv(s) && Mild(s, u, t, d, e) && Orderly(s, u, t) && Retained(s, u, t, d, e)
    requires z in s.scopes && z !in d
    ensures z in u.scopes && ScopeInv(u, z) && Listing(u, z)
  {
    hide ThreadInv, CoroInv, ChildOk, ScopeOk, Unlisted, Covered, Orderly, Retained, Holds, Making, InStack;
    assert ScopeInv(s, z) && Listing(s, z);
    OtherHolds(s, u, t, d, e, z);
    if s.scopes[z].cancelled { OtherCovered(s, u, t, d, e, z); }
    OtherListing(s, u, t, d, e, z);
  }

  lemma OtherCovered(s: State, u: State, t: Tid, d: set<Sid>, e: set<Cid>, z: Sid)
    requires Mild(s, u, t, d, e) && Orderly(s, u, t)
    requires z in s.scopes && z !in d && s.scopes[z].cancelled && Covered(s, s.scopes[z]) && Listing(s, z)
    ensures Covered(u, s.scopes[z])
  {
    hide ChildOk, ScopeOk, Unlisted;
    var k := s.scopes[z];
    forall c | c in k.children && ChildOk(s, c) ensures ChildOk(u, c) {
    }
    forall y | y in k.scopes && ScopeOk(s, y) ensures ScopeOk(u, y) {
    }
  }

  lemma OtherListing(s: State, u: State, t: Tid, d: set<Sid>, e: set<Cid>, z: Sid)
    requires Mild(s, u, t, d, e) && Orderly(s, u, t) && z in s.scopes && z !in d && Listing(s, z)
    ensures z in u.scopes && Listing(u, z)
  {
    hide ChildOk, ScopeOk, Unlisted;
    forall y | y in s.scopes[z].scopes
      ensures y in u.scopes && !u.scopes[y].freed && u.scopes[y].parent == Some(z)
    {
      ListedNotUnlisted(s, z, y);
    }
  }

  lemma ListedNotUnlisted(s: State, z: Sid, y: Sid)
    requires z in s.scopes && y in s.scopes[z].scopes
    ensures !Unlisted(s, y)
  {
  }

  // Facts about the threads an unchanged scope relies on.
  lemma OtherHolds(s: State, u: State, t: Tid, d: set<Sid>, e: set<Cid>, z: Sid)
    requires Mild(s, u, t, d, e) && Retained(s, u, t, d, e) && z in s.scopes && z !in d
    ensures forall r :: InStack(s, r, z) ==> InStack(u, r, z)
    ensures forall r :: Holds(s, r, z) ==> Holds(u, r, z)
    ensures forall r, n :: Making(s, r, z, n) ==> Making(u, r, z, n)
  {
    forall r | InStack(s, r, z) ensures InStack(u, r, z) {
      if r != t { assert u.threads[r] == s.threads[r]; }
    }
    forall r | Holds(s, r, z) ensures Holds(u, r, z) {
      if r != t { assert u.threads[r] == s.threads[r]; }
    }
    forall r, n | Making(s, r, z, n) ensures Making(u, r, z, n) {
      if r != t { assert u.threads[r] == s.threads[r]; }
    }
  }

  lemma OtherCoro(s: State, u: State, t: Tid, d: set<Sid>, e: set<Cid>, c: Cid)
    requires Inv(s) && Mild(s, u, t, d, e) && Retained(s, u, t, d, e) && c in s.coros && c !in e
    ensures c in u.coros && CoroInv(u, c)
  {
    hide ThreadInv, ScopeInv, Listing;
    assert CoroInv(s, c);
    var r := s.coros[c].maker;
    if s.coros[c].entry != Settled && r != t { assert u.threads[r] == s.threads[r]; }
  }

  lemma OtherThread(s: State, u: State, t: Tid, d: set<Sid>, e: set<Cid>, r: Tid)
    requires Inv(s) && Mild(s, u, t, d, e) && Orderly(s, u, t) && r in s.threads && r != t
    ensures r in u.threads && ThreadInv(u, r)
  {
    hide ScopeInv, Listing, CoroInv, CancelInv, Unlisted, Orderly;
    assert ThreadInv(s, r);
    assert u.threads[r] == s.threads[r];
    match s.threads[r]
    case Cancel(stack, swap) => OtherCancel(s, u, t, d, e, r, stack, swap);
    case CreateLock(x) =>
      StillUnlisted(s, u, t, x);
      StillUnfreed(s, u, t, x);
    case FreeIt(x) => StillUnlisted(s, u, t, x);
    case _ =>
  }

  lemma StillUnfreed(s: State, u: State, t: Tid, x: Sid)
    requires Orderly(s, u, t) && x in s.scopes && s.scopes.Keys <= u.scopes.Keys
    requires !s.scopes[x].freed && s.scopes[x].entry != Settled
    ensures !u.scopes[x].freed
  {
    hide ChildOk, ScopeOk, Unlisted;
  }

  lemma StillUnlisted(s: State, u: State, t: Tid, x: Sid)
    requires Orderly(s, u, t) && Unlisted(s, x) && x in s.scopes
    requires s.scopes[x].maker != t || s.scopes[x].entry == Settled
    ensures Unlisted(u, x)
  {
  }

  lemma OtherCancel(
    s: State, u: State, t: Tid, d: set<Sid>, e: set<Cid>, r: Tid, stack: seq<Sid>, swap: Option<Sid>)
    requires Inv(s) && Mild(s, u, t, d, e) && r != t && CancelInv(s, r, stack, swap)
    ensures CancelInv(u, r, stack, swap)
  {
    hide ThreadInv, ScopeInv, Listing, CoroInv;
    forall i | 0 <= i < |stack|
      ensures stack[i] in u.scopes && u.scopes[stack[i]].walk.Going() && u.scopes[stack[i]].walker == r
    {
      assert stack[i] in s.scopes && s.scopes[stack[i]].walk.Going();
    }
  }

  // So a step needs looking at only where it acts.
  lemma StepKeepsIf(s: State, u: State, t: Tid, d: set<Sid>, e: set<Cid>)
    requires Inv(s) && Mild(s, u, t, d, e) && Orderly(s, u, t) && Retained(s, u, t, d, e)
    requires ThreadInv(u, t)
    requires forall z :: z in d && z in u.scopes ==> ScopeInv(u, z) && Listing(u, z)
    requires forall c :: c in e && c in u.coros ==> CoroInv(u, c)
    ensures Inv(u)
  {
    hide ThreadInv, ScopeInv, Listing, CoroInv, Orderly, Retained;
    forall z | z in u.scopes ensures ScopeInv(u, z) && Listing(u, z) {
      if z !in d { OtherScope(s, u, t, d, e, z); }
    }
    forall c | c in u.coros ensures CoroInv(u, c) {
      if c !in e { OtherCoro(s, u, t, d, e, c); }
    }
    forall r | r in u.threads ensures ThreadInv(u, r) {
      if r != t { OtherThread(s, u, t, d, e, r); }
    }
  }

  // What the invariant says of one thread and one scope.
  ghost predicate Near(s: State, t: Tid, x: Sid) {
    t in s.threads && ThreadInv(s, t) && (x in s.scopes ==> ScopeInv(s, x) && Listing(s, x))
  }

  lemma NearInv(s: State, t: Tid, x: Sid)
    requires Inv(s) && t in s.threads
    ensures Near(s, t, x)
  {
    hide ThreadInv, ScopeInv, Listing, CoroInv;
  }

  // ----- every step keeps the invariant -----

  ghost function KidOf(s: State, x: Sid): set<Cid> {
    if x in s.scopes && s.scopes[x].walk.Kids? && s.scopes[x].walk.i < |s.scopes[x].children| then
      {s.scopes[x].children[s.scopes[x].walk.i]}
    else {}
  }

  ghost function ParentOf(s: State, x: Sid): set<Sid> {
    if x in s.scopes && s.scopes[x].parent.Some? then {s.scopes[x].parent.value} else {}
  }

  ghost function SwapTouches(s: State, t: Tid): set<Sid> {
    if t in s.threads && s.threads[t].Cancel? && s.threads[t].swap.Some? then
      (if Uncancelled(s, s.threads[t].swap.value) then {s.threads[t].swap.value} else {})
      + if |s.threads[t].stack| > 0 then {s.threads[t].stack[|s.threads[t].stack| - 1]} else {}
    else {}
  }

  lemma StartCancelKeeps(s: State, u: State, t: Tid, x: Sid)
    requires Inv(s) && StartCancel(s, u, t, x)
    ensures Inv(u)
  {
    StepKeepsIf(s, u, t, {}, {});
  }

  // A scope being tried is the next on the list of the one on top of the stack.
  lemma SwapFacts(s: State, u: State, t: Tid)
    requires Inv(s) && Swap(s, u, t)
    ensures var op := s.threads[t];
            var x, n := op.swap.value, |op.stack|;
            var won := !s.scopes[x].cancelled;
            && x in u.scopes && (won ==> x !in op.stack)
            && u == s.(scopes := u.scopes, threads := u.threads)
            && u.threads == s.threads[t := Cancel(if won then op.stack + [x] else op.stack, None)]
            && u.scopes[x]
               == (if won then s.scopes[x].(cancelled := true, walk := Waiting, walker := t) else s.scopes[x])
            && (n == 0 ==> u.scopes == s.scopes[x := u.scopes[x]])
            && (n > 0 ==>
                  var p := op.stack[n - 1];
                  && p in s.scopes && p != x && s.scopes[p].walk.Scopes? && s.scopes[p].walker == t
                  && s.scopes[p].walk.i < |s.scopes[p].scopes| && s.scopes[p].scopes[s.scopes[p].walk.i] == x
                  && u.scopes == s.scopes[p := s.scopes[p].(walk := Scopes(s.scopes[p].walk.i + 1))][x := u.scopes[x]])
  {
    hide CoroInv, Covered, Making, Holds;
    var op := s.threads[t];
    assert ThreadInv(s, t);
    var x, n := op.swap.value, |op.stack|;
    if n > 0 {
      var p := op.stack[n - 1];
      assert Listing(s, p) && x in s.scopes[p].scopes;
    }
    if x in op.stack { assert ScopeInv(s, x); }
  }

  lemma SwapMild(s: State, u: State, t: Tid)
    requires Inv(s) && Swap(s, u, t)
    ensures Mild(s, u, t, SwapTouches(s, t), {})
  {
    hide Inv, Advanced, Covered;
    SwapFacts(s, u, t);
    if Uncancelled(s, s.threads[t].swap.value) { UncancelledIdle(s, s.threads[t].swap.value); }
  }

  lemma UncancelledIdle(s: State, x: Sid)
    requires Inv(s) && Uncancelled(s, x)
    ensures !s.scopes[x].walk.Going()
  {
    assert ScopeInv(s, x);
  }

  lemma SwapOrderly(s: State, u: State, t: Tid)
    requires Inv(s) && Swap(s, u, t)
    ensures Orderly(s, u, t)
  {
    hide Inv, Advanced, Covered, Unlisted;
    SwapFacts(s, u, t);
  }

  lemma SwapRetained(s: State, u: State, t: Tid)
    requires Inv(s) && Swap(s, u, t)
    ensures Retained(s, u, t, SwapTouches(s, t), {})
  {
    hide Inv, Advanced, Covered;
    SwapFacts(s, u, t);
  }

  lemma SwapThread(s: State, u: State, t: Tid)
    requires Inv(s) && Swap(s, u, t)
    ensures ThreadInv(u, t)
  {
    hide Covered, CoroInv, Listing, ScopeInv, Advanced;
    SwapFacts(s, u, t);
    assert ThreadInv(s, t);
  }

  lemma SwapWon(s: State, u: State, t: Tid)
    requires Inv(s) && Swap(s, u, t) && Uncancelled(s, s.threads[t].swap.value)
    ensures var x := s.threads[t].swap.value; x in u.scopes && ScopeInv(u, x) && Listing(u, x)
  {
    hide Inv, ThreadInv, Advanced;
    SwapFacts(s, u, t);
    var x := s.threads[t].swap.value;
    NearInv(s, t, x);
  }

  lemma SwapTop(s: State, u: State, t: Tid)
    requires Inv(s) && Swap(s, u, t) && |s.threads[t].stack| > 0
    ensures var p := s.threads[t].stack[|s.threads[t].stack| - 1]; p in u.scopes && ScopeInv(u, p) && Listing(u, p)
  {
    hide Inv, ThreadInv, Advanced;
    SwapFacts(s, u, t);
    var p := s.threads[t].stack[|s.threads[t].stack| - 1];
    NearInv(s, t, p);
  }

  lemma SwapKeeps(s: State, u: State, t: Tid)
    requires Inv(s) && Swap(s, u, t)
    ensures Inv(u)
  {
    hide Inv, ThreadInv, ScopeInv, Listing, CoroInv, Mild, Orderly, Retained;
    SwapMild(s, u, t);
    SwapOrderly(s, u, t);
    SwapRetained(s, u, t);
    SwapThread(s, u, t);
    if Uncancelled(s, s.threads[t].swap.value) { SwapWon(s, u, t); }
    if |s.threads[t].stack| > 0 { SwapTop(s, u, t); }
    StepKeepsIf(s, u, t, SwapTouches(s, t), {});
  }

  lemma AcquireFrame(s: State, u: State, t: Tid, x: Sid)
    requires Near(s, t, x) && Acquire(s, u, t, x)
    ensures Mild(s, u, t, {x}, {}) && Orderly(s, u, t) && Retained(s, u, t, {x}, {})
  {
    hide Covered, CoroInv, Listing;
  }

  lemma AcquireLocal(s: State, u: State, t: Tid, x: Sid)
    requires Near(s, t, x) && Acquire(s, u, t, x)
    ensures ThreadInv(u, t)
    ensures forall z :: z in {x} && z in u.scopes ==> ScopeInv(u, z) && Listing(u, z)
  {
  }

  lemma AcquireKeeps(s: State, u: State, t: Tid, x: Sid)
    requires Inv(s) && Acquire(s, u, t, x)
    ensures Inv(u)
  {
    hide Inv, Near, ThreadInv, ScopeInv, Listing, CoroInv, Mild, Orderly, Retained;
    NearInv(s, t, x);
    AcquireFrame(s, u, t, x);
    AcquireLocal(s, u, t, x);
    StepKeepsIf(s, u, t, {x}, {});
  }

  lemma CancelKidRetained(s: State, u: State, t: Tid, x: Sid)
    requires Near(s, t, x) && CancelKid(s, u, t, x)
    ensures Retained(s, u, t, {x}, KidOf(s, x))
  {
    hide Inv;
  }

  lemma CancelKidFrame(s: State, u: State, t: Tid, x: Sid)
    requires Near(s, t, x) && CancelKid(s, u, t, x)
    ensures Mild(s, u, t, {x}, KidOf(s, x)) && Orderly(s, u, t) && Retained(s, u, t, {x}, KidOf(s, x))
  {
    hide Covered, CoroInv, Making, Holds;
    CancelKidRetained(s, u, t, x);
  }

  lemma CancelKidThread(s: State, u: State, t: Tid, x: Sid)
    requires Near(s, t, x) && CancelKid(s, u, t, x)
    ensures ThreadInv(u, t)
  {
    hide ScopeInv, Listing, CoroInv;
  }

  lemma CancelKidLocal(s: State, u: State, t: Tid, x: Sid)
    requires Near(s, t, x) && CancelKid(s, u, t, x)
    ensures ThreadInv(u, t)
    ensures forall z :: z in {x} && z in u.scopes ==> ScopeInv(u, z) && Listing(u, z)
  {
    hide ThreadInv, CancelInv;
    CancelKidThread(s, u, t, x);
  }

  lemma CancelKidCoro(s: State, u: State, t: Tid, x: Sid)
    requires Inv(s) && CancelKid(s, u, t, x)
    ensures forall o :: o in KidOf(s, x) && o in u.coros ==> CoroInv(u, o)
  {
    hide ThreadInv, ScopeInv, Listing;
    assert forall o :: o in KidOf(s, x) && o in s.coros ==> CoroInv(s, o);
  }

  lemma CancelKidKeeps(s: State, u: State, t: Tid, x: Sid)
    requires Inv(s) && CancelKid(s, u, t, x)
    ensures Inv(u)
  {
    hide Inv, Near, ThreadInv, ScopeInv, Listing, CoroInv, Mild, Orderly, Retained;
    NearInv(s, t, x);
    CancelKidFrame(s, u, t, x);
    CancelKidLocal(s, u, t, x);
    CancelKidCoro(s, u, t, x);
    StepKeepsIf(s, u, t, {x}, KidOf(s, x));
  }

  lemma DescendKeeps(s: State, u: State, t: Tid, x: Sid)
    requires Inv(s) && Descend(s, u, t, x)
    ensures Inv(u)
  {
    hide Inv, CoroInv, Covered;
    NearInv(s, t, x);
    StepKeepsIf(s, u, t, {}, {});
  }

  lemma AscendOrderly(s: State, u: State, t: Tid, x: Sid)
    requires Ascend(s, u, t, x)
    ensures Orderly(s, u, t)
  {
    hide Unlisted;
  }

  lemma AscendFrame(s: State, u: State, t: Tid, x: Sid)
    requires Near(s, t, x) && Ascend(s, u, t, x)
    ensures Mild(s, u, t, {x}, {}) && Orderly(s, u, t) && Retained(s, u, t, {x}, {})
  {
    hide Covered, CoroInv, Listing, Orderly;
    AscendOrderly(s, u, t, x);
  }

  lemma AscendLocal(s: State, u: State, t: Tid, x: Sid)
    requires Near(s, t, x) && Ascend(s, u, t, x)
    ensures ThreadInv(u, t)
    ensures forall z :: z in {x} && z in u.scopes ==> ScopeInv(u, z) && Listing(u, z)
  {
  }

  lemma AscendKeeps(s: State, u: State, t: Tid, x: Sid)
    requires Inv(s) && Ascend(s, u, t, x)
    ensures Inv(u)
  {
    hide Inv, Near, ThreadInv, ScopeInv, Listing, CoroInv, Mild, Orderly, Retained;
    NearInv(s, t, x);
    AscendFrame(s, u, t, x);
    AscendLocal(s, u, t, x);
    StepKeepsIf(s, u, t, {x}, {});
  }

  lemma EndCancelKeeps(s: State, u: State, t: Tid)
    requires Inv(s) && EndCancel(s, u, t)
    ensures Inv(u)
  {
    StepKeepsIf(s, u, t, {}, {});
  }

  lemma NewScopeFrame(s: State, u: State, t: Tid, x: Sid, parent: Option<Sid>)
    requires Near(s, t, x) && NewScope(s, u, t, x, parent)
    ensures Mild(s, u, t, {x}, {}) && Orderly(s, u, t) && Retained(s, u, t, {x}, {})
  {
    hide Covered, CoroInv, Listing;
  }

  lemma NewScopeLocal(s: State, u: State, t: Tid, x: Sid, parent: Option<Sid>)
    requires Inv(s) && NewScope(s, u, t, x, parent)
    ensures ThreadInv(u, t)
    ensures forall z :: z in {x} && z in u.scopes ==> ScopeInv(u, z) && Listing(u, z)
  {
  }

  lemma NewScopeKeeps(s: State, u: State, t: Tid, x: Sid, parent: Option<Sid>)
    requires Inv(s) && NewScope(s, u, t, x, parent)
    ensures Inv(u)
  {
    hide Inv, Near, ThreadInv, ScopeInv, Listing, CoroInv, Mild, Orderly, Retained;
    NearInv(s, t, x);
    NewScopeFrame(s, u, t, x, parent);
    NewScopeLocal(s, u, t, x, parent);
    StepKeepsIf(s, u, t, {x}, {});
  }

  lemma ListScopeFrame(s: State, u: State, t: Tid, x: Sid, p: Sid)
    requires Near(s, t, p) && ListScope(s, u, t, x, p)
    ensures Mild(s, u, t, {p}, {}) && Orderly(s, u, t) && Retained(s, u, t, {p}, {})
  {
    hide Covered, CoroInv, Listing;
  }

  lemma ListScopeThread(s: State, u: State, t: Tid, x: Sid, p: Sid)
    requires Near(s, t, p) && ListScope(s, u, t, x, p)
    ensures ThreadInv(u, t) && x !in s.scopes[p].scopes && !s.scopes[x].freed && s.scopes[x].entry == Checking && x != p
  {
    hide ScopeInv, Listing, CoroInv, CancelInv;
  }

  lemma ListScopeLocal(s: State, u: State, t: Tid, x: Sid, p: Sid)
    requires Near(s, t, p) && ListScope(s, u, t, x, p)
    ensures ThreadInv(u, t)
    ensures forall z :: z in {p} && z in u.scopes ==> ScopeInv(u, z) && Listing(u, z)
  {
    assert x !in s.scopes[p].scopes;
    hide ThreadInv;
    ListScopeThread(s, u, t, x, p);
  }

  lemma ListScopeKeeps(s: State, u: State, t: Tid, x: Sid, p: Sid)
    requires Inv(s) && ListScope(s, u, t, x, p)
    ensures Inv(u)
  {
    hide Inv, Near, ThreadInv, ScopeInv, Listing, CoroInv, Mild, Orderly, Retained;
    NearInv(s, t, p);
    ListScopeFrame(s, u, t, x, p);
    ListScopeLocal(s, u, t, x, p);
    StepKeepsIf(s, u, t, {p}, {});
  }

  lemma CheckParentFrame(s: State, u: State, t: Tid, x: Sid, p: Sid)
    requires Near(s, t, x) && CheckParent(s, u, t, x, p)
    ensures Mild(s, u, t, {x}, {}) && Orderly(s, u, t) && Retained(s, u, t, {x}, {})
  {
    hide Covered, CoroInv, Listing;
  }

  lemma CheckParentLocal(s: State, u: State, t: Tid, x: Sid, p: Sid)
    requires Near(s, t, x) && CheckParent(s, u, t, x, p)
    ensures ThreadInv(u, t)
    ensures forall z :: z in {x} && z in u.scopes ==> ScopeInv(u, z) && Listing(u, z)
  {
  }

  lemma CheckParentKeeps(s: State, u: State, t: Tid, x: Sid, p: Sid)
    requires Inv(s) && CheckParent(s, u, t, x, p)
    ensures Inv(u)
  {
    hide Inv, Near, ThreadInv, ScopeInv, Listing, CoroInv, Mild, Orderly, Retained;
    NearInv(s, t, x);
    CheckParentFrame(s, u, t, x, p);
    CheckParentLocal(s, u, t, x, p);
    StepKeepsIf(s, u, t, {x}, {});
  }

  lemma UnlockParentOrderly(s: State, u: State, t: Tid, x: Sid, p: Sid)
    requires UnlockParent(s, u, t, x, p)
    ensures Orderly(s, u, t)
  {
    hide Unlisted;
  }

  lemma UnlockParentFrame(s: State, u: State, t: Tid, x: Sid, p: Sid)
    requires Near(s, t, p) && UnlockParent(s, u, t, x, p)
    ensures Mild(s, u, t, {p}, {}) && Orderly(s, u, t) && Retained(s, u, t, {p}, {})
  {
    hide Covered, CoroInv, Listing, Orderly;
    UnlockParentOrderly(s, u, t, x, p);
  }

  lemma UnlockParentLocal(s: State, u: State, t: Tid, x: Sid, p: Sid)
    requires Near(s, t, p) && UnlockParent(s, u, t, x, p)
    ensures ThreadInv(u, t)
    ensures forall z :: z in {p} && z in u.scopes ==> ScopeInv(u, z) && Listing(u, z)
  {
  }

  lemma UnlockParentKeeps(s: State, u: State, t: Tid, x: Sid, p: Sid)
    requires Inv(s) && UnlockParent(s, u, t, x, p)
    ensures Inv(u)
  {
    hide Inv, Near, ThreadInv, ScopeInv, Listing, CoroInv, Mild, Orderly, Retained;
    NearInv(s, t, p);
    UnlockParentFrame(s, u, t, x, p);
    UnlockParentLocal(s, u, t, x, p);
    StepKeepsIf(s, u, t, {p}, {});
  }

  lemma StoreOwnFrame(s: State, u: State, t: Tid, x: Sid)
    requires Near(s, t, x) && StoreOwn(s, u, t, x)
    ensures Mild(s, u, t, {x}, {}) && Orderly(s, u, t) && Retained(s, u, t, {x}, {})
  {
    hide Covered, CoroInv, Listing, OwnParent;
  }

  lemma StoreOwnLocal(s: State, u: State, t: Tid, x: Sid)
    requires Near(s, t, x) && StoreOwn(s, u, t, x)
    ensures ThreadInv(u, t)
    ensures forall z :: z in {x} && z in u.scopes ==> ScopeInv(u, z) && Listing(u, z)
  {
    hide CancelInv, CoroInv;
  }

  lemma StoreOwnKeeps(s: State, u: State, t: Tid, x: Sid)
    requires Inv(s) && StoreOwn(s, u, t, x)
    ensures Inv(u)
  {
    hide Inv, Near, ThreadInv, ScopeInv, Listing, CoroInv, Mild, Orderly, Retained;
    NearInv(s, t, x);
    StoreOwnFrame(s, u, t, x);
    StoreOwnLocal(s, u, t, x);
    StepKeepsIf(s, u, t, {x}, {});
  }

  lemma RegisterKeeps(s: State, u: State, t: Tid, x: Sid, c: Cid)
    requires Inv(s) && Register(s, u, t, x, c)
    ensures Inv(u)
  {
    hide Inv, ScopeInv, Listing, Covered, CancelInv;
    StepKeepsIf(s, u, t, {}, {c});
  }

  lemma ListChildFrame(s: State, u: State, t: Tid, x: Sid, c: Cid)
    requires Near(s, t, x) && ListChild(s, u, t, x, c)
    ensures Mild(s, u, t, {x}, {}) && Orderly(s, u, t) && Retained(s, u, t, {x}, {})
  {
    hide Covered, CoroInv, Listing;
  }

  lemma ListChildLocal(s: State, u: State, t: Tid, x: Sid, c: Cid)
    requires Near(s, t, x) && ListChild(s, u, t, x, c)
    ensures ThreadInv(u, t)
    ensures forall z :: z in {x} && z in u.scopes ==> ScopeInv(u, z) && Listing(u, z)
  {
  }

  lemma ListChildKeeps(s: State, u: State, t: Tid, x: Sid, c: Cid)
    requires Inv(s) && ListChild(s, u, t, x, c)
    ensures Inv(u)
  {
    hide Inv, Near, ThreadInv, ScopeInv, Listing, CoroInv, Mild, Orderly, Retained;
    NearInv(s, t, x);
    ListChildFrame(s, u, t, x, c);
    ListChildLocal(s, u, t, x, c);
    StepKeepsIf(s, u, t, {x}, {});
  }

  lemma CheckScopeFrame(s: State, u: State, t: Tid, x: Sid, c: Cid)
    requires Near(s, t, x) && CheckScope(s, u, t, x, c)
    ensures Mild(s, u, t, {}, {c}) && Orderly(s, u, t) && Retained(s, u, t, {}, {c})
  {
    hide Covered, CoroInv, Listing;
  }

  lemma CheckScopeLocal(s: State, u: State, t: Tid, x: Sid, c: Cid)
    requires Near(s, t, x) && CheckScope(s, u, t, x, c)
    ensures ThreadInv(u, t)
    ensures forall o :: o in {c} && o in u.coros ==> CoroInv(u, o)
  {
  }

  lemma CheckScopeKeeps(s: State, u: State, t: Tid, x: Sid, c: Cid)
    requires Inv(s) && CheckScope(s, u, t, x, c)
    ensures Inv(u)
  {
    hide Inv, Near, ThreadInv, ScopeInv, Listing, CoroInv, Mild, Orderly, Retained;
    NearInv(s, t, x);
    CheckScopeFrame(s, u, t, x, c);
    CheckScopeLocal(s, u, t, x, c);
    StepKeepsIf(s, u, t, {}, {c});
  }

  lemma FinishRegisterOrderly(s: State, u: State, t: Tid, x: Sid, c: Cid)
    requires FinishRegister(s, u, t, x, c)
    ensures Orderly(s, u, t)
  {
    hide Unlisted;
  }

  lemma FinishRegisterFrame(s: State, u: State, t: Tid, x: Sid, c: Cid)
    requires Near(s, t, x) && FinishRegister(s, u, t, x, c)
    ensures Mild(s, u, t, {x}, {c}) && Orderly(s, u, t) && Retained(s, u, t, {x}, {c})
  {
    hide Covered, CoroInv, Listing, Orderly;
    FinishRegisterOrderly(s, u, t, x, c);
  }

  lemma FinishRegisterScope(s: State, u: State, t: Tid, x: Sid, c: Cid)
    requires Inv(s) && FinishRegister(s, u, t, x, c)
    ensures ScopeInv(u, x) && Listing(u, x)
  {
    hide CancelInv, CoroInv, Inv;
    RegisterParts(s, t, x, c);
  }

  lemma RegisterParts(s: State, t: Tid, x: Sid, c: Cid)
    requires Inv(s) && t in s.threads && s.threads[t].RegFinish? && s.threads[t].x == x && s.threads[t].c == c
    ensures x in s.scopes && s.scopes[x].lock == Some(t) && c in s.coros && s.coros[c].scope == x
    ensures ScopeInv(s, x) && Listing(s, x)
  {
    hide CancelInv, CoroInv, ScopeInv, Listing;
    assert ThreadInv(s, t);
  }

  lemma FinishRegisterCoro(s: State, u: State, t: Tid, x: Sid, c: Cid)
    requires Inv(s) && FinishRegister(s, u, t, x, c)
    ensures CoroInv(u, c)
  {
    hide CancelInv, ScopeInv, Listing;
    assert ThreadInv(s, t) && CoroInv(s, c);
  }

  lemma FinishRegisterLocal(s: State, u: State, t: Tid, x: Sid, c: Cid)
    requires Inv(s) && FinishRegister(s, u, t, x, c)
    ensures ThreadInv(u, t)
    ensures forall z :: z in {x} && z in u.scopes ==> ScopeInv(u, z) && Listing(u, z)
    ensures forall o :: o in {c} && o in u.coros ==> CoroInv(u, o)
  {
    hide CancelInv, CoroInv;
    FinishRegisterScope(s, u, t, x, c);
    FinishRegisterCoro(s, u, t, x, c);
  }

  lemma FinishRegisterKeeps(s: State, u: State, t: Tid, x: Sid, c: Cid)
    requires Inv(s) && FinishRegister(s, u, t, x, c)
    ensures Inv(u)
  {
    hide Inv, Near, ThreadInv, ScopeInv, Listing, CoroInv, Mild, Orderly, Retained;
    NearInv(s, t, x);
    FinishRegisterFrame(s, u, t, x, c);
    FinishRegisterLocal(s, u, t, x, c);
    StepKeepsIf(s, u, t, {x}, {c});
  }

  lemma UnregisterFrame(s: State, u: State, t: Tid, x: Sid, c: Cid)
    requires Near(s, t, x) && Unregister(s, u, t, x, c)
    ensures Mild(s, u, t, {x}, {}) && Orderly(s, u, t) && Retained(s, u, t, {x}, {})
  {
    hide Covered, CoroInv, Listing;
  }

  lemma UnregisterLocal(s: State, u: State, t: Tid, x: Sid, c: Cid)
    requires Near(s, t, x) && Unregister(s, u, t, x, c)
    ensures ThreadInv(u, t)
    ensures forall z :: z in {x} && z in u.scopes ==> ScopeInv(u, z) && Listing(u, z)
  {
  }

  lemma UnregisterKeeps(s: State, u: State, t: Tid, x: Sid, c: Cid)
    requires Inv(s) && Unregister(s, u, t, x, c)
    ensures Inv(u)
  {
    hide Inv, Near, ThreadInv, ScopeInv, Listing, CoroInv, Mild, Orderly, Retained;
    NearInv(s, t, x);
    UnregisterFrame(s, u, t, x, c);
    UnregisterLocal(s, u, t, x, c);
    StepKeepsIf(s, u, t, {x}, {});
  }

  lemma UnlistOrderly(s: State, u: State, t: Tid, x: Sid)
    requires Unlist(s, u, t, x)
    ensures Orderly(s, u, t)
  {
    hide Unlisted;
  }

  lemma UnlistFrame(s: State, u: State, t: Tid, x: Sid)
    requires Inv(s) && Unlist(s, u, t, x)
    ensures Mild(s, u, t, ParentOf(s, x), {}) && Orderly(s, u, t) && Retained(s, u, t, ParentOf(s, x), {})
  {
    hide Covered, CoroInv, Listing, Orderly;
    UnlistOrderly(s, u, t, x);
  }

  lemma {:induction false} RemovedGone(q: seq<nat>, x: nat)
    requires NoDup(q)
    ensures NoDup(Removed(q, x)) && x !in Removed(q, x)
  {
    if |q| > 1 && q[0] == x {
      var last := |q| - 1;
      assert Removed(q, x) == [q[last]] + q[1..last];
    } else if |q| > 0 && q[0] != x {
      RemovedGone(q[1..], x);
      assert q[0] !in q[1..];
    }
  }

  lemma UnlistParent(s: State, u: State, t: Tid, x: Sid, p: Sid)
    requires Inv(s) && Unlist(s, u, t, x) && s.scopes[x].parent == Some(p)
    requires NoDup(Removed(s.scopes[p].scopes, x))
    ensures ScopeInv(u, p) && Listing(u, p)
  {
    hide ThreadInv, CoroInv;
    assert ScopeInv(s, p) && Listing(s, p);
  }

  lemma UnlistedAfter(s: State, u: State, t: Tid, x: Sid)
    requires Inv(s) && Unlist(s, u, t, x)
    requires s.scopes[x].parent.Some? ==> x !in Removed(s.scopes[s.scopes[x].parent.value].scopes, x)
    ensures Unlisted(u, x)
  {
    hide Removed, ThreadInv, CoroInv, ScopeInv;
    forall z | z in u.scopes ensures x !in u.scopes[z].scopes {
      assert Listing(s, z);
    }
  }

  lemma UnlistLocal(s: State, u: State, t: Tid, x: Sid)
    requires Inv(s) && Unlist(s, u, t, x)
    ensures ThreadInv(u, t)
    ensures forall z :: z in ParentOf(s, x) && z in u.scopes ==> ScopeInv(u, z) && Listing(u, z)
  {
    if s.scopes[x].parent.Some? {
      var p := s.scopes[x].parent.value;
      RemovedGone(s.scopes[p].scopes, x);
      UnlistParent(s, u, t, x, p);
    }
    UnlistedAfter(s, u, t, x);
  }

  lemma UnlistKeeps(s: State, u: State, t: Tid, x: Sid)
    requires Inv(s) && Unlist(s, u, t, x)
    ensures Inv(u)
  {
    hide Inv, ThreadInv, ScopeInv, Listing, CoroInv, Mild, Orderly, Retained;
    UnlistFrame(s, u, t, x);
    UnlistLocal(s, u, t, x);
    StepKeepsIf(s, u, t, ParentOf(s, x), {});
  }

  lemma FreeFrame(s: State, u: State, t: Tid, x: Sid)
    requires Near(s, t, x) && Free(s, u, t, x)
    ensures Mild(s, u, t, {x}, {}) && Orderly(s, u, t) && Retained(s, u, t, {x}, {})
  {
    hide Covered, CoroInv, Listing;
  }

  lemma FreeLocal(s: State, u: State, t: Tid, x: Sid)
    requires Near(s, t, x) && Free(s, u, t, x)
    ensures ThreadInv(u, t)
    ensures forall z :: z in {x} && z in u.scopes ==> ScopeInv(u, z) && Listing(u, z)
  {
  }

  lemma FreeKeeps(s: State, u: State, t: Tid, x: Sid)
    requires Inv(s) && Free(s, u, t, x)
    ensures Inv(u)
  {
    hide Inv, Near, ThreadInv, ScopeInv, Listing, CoroInv, Mild, Orderly, Retained;
    NearInv(s, t, x);
    FreeFrame(s, u, t, x);
    FreeLocal(s, u, t, x);
    StepKeepsIf(s, u, t, {x}, {});
  }

  lemma NewThreadKeeps(s: State, u: State, t: Tid)
    requires Inv(s) && NewThread(s, u, t)
    ensures Inv(u)
  {
    StepKeepsIf(s, u, t, {}, {});
  }

  // ----- runs -----

  ghost predicate CancelStep(s: State, u: State) {
    || (exists t, x :: StartCancel(s, u, t, x))
    || (exists t :: Swap(s, u, t))
    || (exists t, x :: Acquire(s, u, t, x))
    || (exists t, x :: CancelKid(s, u, t, x))
    || (exists t, x :: Descend(s, u, t, x))
    || (exists t, x :: Ascend(s, u, t, x))
    || (exists t :: EndCancel(s, u, t))
  }

  ghost predicate CreateStep(s: State, u: State) {
    || (exists t, x, parent :: NewScope(s, u, t, x, parent))
    || (exists t, x, p :: ListScope(s, u, t, x, p))
    || (exists t, x, p :: CheckParent(s, u, t, x, p))
    || (exists t, x, p :: UnlockParent(s, u, t, x, p))
    || (exists t, x :: StoreOwn(s, u, t, x))
    || (exists t :: NewThread(s, u, t))
  }

  ghost predicate MemberStep(s: State, u: State) {
    || (exists t, x, c :: Register(s, u, t, x, c))
    || (exists t, x, c :: ListChild(s, u, t, x, c))
    || (exists t, x, c :: CheckScope(s, u, t, x, c))
    || (exists t, x, c :: FinishRegister(s, u, t, x, c))
    || (exists t, x, c :: Unregister(s, u, t, x, c))
    || (exists t, x :: Unlist(s, u, t, x))
    || (exists t, x :: Free(s, u, t, x))
  }

  ghost predicate Step(s: State, u: State) {
    CancelStep(s, u) || CreateStep(s, u) || MemberStep(s, u)
  }

  ghost predicate Run(run: seq<State>) {
    && |run| > 0 && run[0] == State(map[], map[], map[], {}, {}, {})
    && forall i :: 0 <= i < |run| - 1 ==> Step(run[i], run[i + 1])
  }

  lemma CancelStepKeeps(s: State, u: State)
    requires Inv(s) && CancelStep(s, u)
    ensures Inv(u)
  {
    hide Inv, StartCancel, Swap, Acquire, CancelKid, Descend, Ascend, EndCancel;
    if t, x :| StartCancel(s, u, t, x) { StartCancelKeeps(s, u, t, x); }
    else if t :| Swap(s, u, t) { SwapKeeps(s, u, t); }
    else if t, x :| Acquire(s, u, t, x) { AcquireKeeps(s, u, t, x); }
    else if t, x :| CancelKid(s, u, t, x) { CancelKidKeeps(s, u, t, x); }
    else if t, x :| Descend(s, u, t, x) { DescendKeeps(s, u, t, x); }
    else if t, x :| Ascend(s, u, t, x) { AscendKeeps(s, u, t, x); }
    else if t :| EndCancel(s, u, t) { EndCancelKeeps(s, u, t); }
  }

  lemma CreateStepKeeps(s: State, u: State)
    requires Inv(s) && CreateStep(s, u)
    ensures Inv(u)
  {
    hide Inv, NewScope, ListScope, CheckParent, UnlockParent, StoreOwn, NewThread;
    if t, x, parent :| NewScope(s, u, t, x, parent) { NewScopeKeeps(s, u, t, x, parent); }
    else if t, x, p :| ListScope(s, u, t, x, p) { ListScopeKeeps(s, u, t, x, p); }
    else if t, x, p :| CheckParent(s, u, t, x, p) { CheckParentKeeps(s, u, t, x, p); }
    else if t, x, p :| UnlockParent(s, u, t, x, p) { UnlockParentKeeps(s, u, t, x, p); }
    else if t, x :| StoreOwn(s, u, t, x) { StoreOwnKeeps(s, u, t, x); }
    else if t :| NewThread(s, u, t) { NewThreadKeeps(s, u, t); }
  }

  lemma MemberStepKeeps(s: State, u: State)
    requires Inv(s) && MemberStep(s, u)
    ensures Inv(u)
  {
    hide Inv, Register, ListChild, CheckScope, FinishRegister, Unregister, Unlist, Free;
    if t, x, c :| Register(s, u, t, x, c) { RegisterKeeps(s, u, t, x, c); }
    else if t, x, c :| ListChild(s, u, t, x, c) { ListChildKeeps(s, u, t, x, c); }
    else if t, x, c :| CheckScope(s, u, t, x, c) { CheckScopeKeeps(s, u, t, x, c); }
    else if t, x, c :| FinishRegister(s, u, t, x, c) { FinishRegisterKeeps(s, u, t, x, c); }
    else if t, x, c :| Unregister(s, u, t, x, c) { UnregisterKeeps(s, u, t, x, c); }
    else if t, x :| Unlist(s, u, t, x) { UnlistKeeps(s, u, t, x); }
    else if t, x :| Free(s, u, t, x) { FreeKeeps(s, u, t, x); }
  }

  lemma {:induction false} RunInv(run: seq<State>, n: nat)
    requires Run(run) && n < |run|
    ensures Inv(run[n])
  {
    hide CancelStep, CreateStep, MemberStep, ScopeInv, Listing, CoroInv, ThreadInv;
    if n > 0 {
      RunInv(run, n - 1);
      var s, u := run[n - 1], run[n];
      assert Step(s, run[n - 1 + 1]);
      if CancelStep(s, u) { CancelStepKeeps(s, u); }
      else if CreateStep(s, u) { CreateStepKeeps(s, u); }
      else { MemberStepKeeps(s, u); }
    }
  }

  // ----- the theorems -----

  // No cancel, create or register call is in progress.
  ghost predicate Quiescent(s: State) {
    forall t :: t in s.threads ==> s.threads[t].Idle? || s.threads[t].FreeIt?
  }

  // A chain of scopes each listed by the one before it.
  ghost predicate Chain(s: State, chain: seq<Sid>) {
    && |chain| > 0 && chain[0] in s.scopes
    && forall i :: 0 <= i < |chain| - 1 ==> chain[i] in s.scopes && chain[i + 1] in s.scopes[chain[i]].scopes
  }

  lemma CoveredWhenQuiet(s: State, x: Sid)
    requires Inv(s) && Quiescent(s) && x in s.scopes && s.scopes[x].cancelled
    ensures forall c :: c in s.scopes[x].children ==> c in s.coros && s.coros[c].cancelled
    ensures forall y :: y in s.scopes[x].scopes ==> y in s.scopes && s.scopes[y].cancelled
  {
    assert ScopeInv(s, x) && Listing(s, x);
    forall c | c in s.scopes[x].children ensures s.coros[c].entry == Settled {
      assert CoroInv(s, c);
    }
    forall y | y in s.scopes[x].scopes ensures s.scopes[y].entry == Settled {
      assert ScopeInv(s, y);
    }
  }

  // Whatever the race between cancel, create and register: whenever none of them is in
  // progress, everything registered below a cancelled scope, to any depth, is cancelled.
  lemma {:induction false} CancelReachesAll(run: seq<State>, n: nat, chain: seq<Sid>)
    requires Run(run) && n < |run| && Quiescent(run[n])
    requires Chain(run[n], chain) && run[n].scopes[chain[0]].cancelled
    ensures var s, last := run[n], chain[|chain| - 1];
            && last in s.scopes && s.scopes[last].cancelled
            && forall c :: c in s.scopes[last].children ==> c in s.coros && s.coros[c].cancelled
    decreases |chain|
  {
    hide Inv, Quiescent, Run;
    RunInv(run, n);
    var k := |chain| - 1;
    if k > 0 {
      CancelReachesAll(run, n, chain[..k]);
      CoveredWhenQuiet(run[n], chain[k - 1]);
      assert chain[k - 1 + 1] in run[n].scopes[chain[k - 1]].scopes;
    }
    CoveredWhenQuiet(run[n], chain[k]);
  }

  // A scope is freed only after its parent has stopped listing it.
  lemma ListedIsAlive(run: seq<State>, n: nat, p: Sid, x: Sid)
    requires Run(run) && n < |run| && p in run[n].scopes && x in run[n].scopes[p].scopes
    ensures x in run[n].scopes && !run[n].scopes[x].freed && run[n].scopes[x].parent == Some(p)
  {
    hide ScopeInv, CoroInv, ThreadInv;
    RunInv(run, n);
    assert Listing(run[n], p);
  }

  // The walk of a scope's lists and the calls that change them exclude each other, so a walk
  // visits exactly what was listed when it took the lock.
  lemma WalksAlone(run: seq<State>, n: nat, t: Tid, r: Tid, x: Sid)
    requires Run(run) && n < |run| && Holds(run[n], t, x) && Holds(run[n], r, x)
    ensures t == r && run[n].scopes[x].lock == Some(t)
  {
    hide CoroInv, Listing, Covered;
    RunInv(run, n);
    var s := run[n];
    HolderHasLock(s, t, x);
    HolderHasLock(s, r, x);
  }

  lemma HolderHasLock(s: State, t: Tid, x: Sid)
    requires Inv(s) && Holds(s, t, x)
    ensures s.scopes[x].lock == Some(t)
  {
    assert ThreadInv(s, t) && ScopeInv(s, x);
  }

  // ----- the growing arrays behind a scope's lists -----

  class Registry {
    const first: nat
    var items: array<nat>
    var count: nat

    ghost predicate Valid()
      reads this
    {
      first > 0 && count <= items.Length
    }

    ghost function Contents(): seq<nat>
      requires Valid()
      reads this, items
    {
      items[..count]
    }

    // No storage yet; the first entry allocates `initial` places.
    constructor (initial: nat)
      requires initial > 0
      ensures Valid() && fresh(items) && Contents() == []
    {
      first := initial;
      items := new nat[0];
      count := 0;
    }

    method Add(x: nat)
      requires Valid()
      modifies this`items, this`count, items
      ensures Valid() && (items == old(items) || fresh(items)) && Contents() == old(Contents()) + [x]
    {
      ghost var was := Contents();
      if count == items.Length {
        var wider := new nat[if items.Length > 0 then 2 * items.Length else first];
        forall i | 0 <= i < count { wider[i] := items[i]; }
        assert wider[..count] == was;
        items := wider;
      }
      items[count] := x;
      count := count + 1;
      assert Contents() == was + [x];
    }

    // The last entry takes the removed one's place.
    method Remove(x: nat)
      requires Valid()
      modifies this`count, items
      ensures Valid() && Contents() == Removed(old(Contents()), x)
    {
      hide Removed;
      ghost var was := Contents();
      var i := 0;
      while i < count
        invariant i <= count && count == old(count) && Contents() == was && x !in was[..i]
      {
        if items[i] == x {
          RemovedAt(was, x, i);
          count := count - 1;
          items[i] := items[count];
          assert Contents() == was[i := was[count]][..count];
          return;
        }
        i := i + 1;
      }
      assert was[..i] == was;
      RemovedAbsent(was, x);
    }
  }

  lemma {:induction false} RemovedAt(q: seq<nat>, x: nat, i: nat)
    requires i < |q| && q[i] == x && x !in q[..i]
    ensures Removed(q, x) == q[i := q[|q| - 1]][..|q| - 1]
  {
    if i > 0 {
      assert q[0] == q[..i][0] && q[1..][..i - 1] == q[..i][1..];
      RemovedAt(q[1..], x, i - 1);
      assert q[i := q[|q| - 1]] == [q[0]] + q[1..][i - 1 := q[|q| - 1]];
    }
  }

  lemma {:induction false} RemovedAbsent(q: seq<nat>, x: nat)
    requires x !in q
    ensures Removed(q, x) == q
  {
    if |q| > 0 { RemovedAbsent(q[1..], x); }
  }
}
