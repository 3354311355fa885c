// Why something is cancelled, and what a cancel reaches, told from the calls themselves:
// nothing is cancelled without a cancel call above it, and what was registered below a
// cancelled scope is on its list until it is unregistered or joined.
module Causes {
  import opened Options
  import opened Cancellation

  // Nothing known is forgotten from one state to the next.
  ghost predicate Grows(s: State, u: State) {
    && (forall x :: x in s.scopes ==>
          x in u.scopes && u.scopes[x].parent == s.scopes[x].parent
          && (s.scopes[x].cancelled ==> u.scopes[x].cancelled))
    && (forall c :: c in s.coros ==> c in u.coros && u.coros[c].scope == s.coros[c].scope)
    && s.asked <= u.asked && s.left <= u.left && s.joined <= u.joined
  }

  // What is newly cancelled was named in a cancel call or has a cancelled parent.
  ghost predicate NewCause(s: State, u: State) {
    forall x :: x in u.scopes && u.scopes[x].cancelled && !(x in s.scopes && s.scopes[x].cancelled) ==>
      x in s.asked || (u.scopes[x].parent.Some? && Cancelled(s, u.scopes[x].parent.value))
  }

  ghost predicate Cancelled(s: State, x: Sid) { x in s.scopes && s.scopes[x].cancelled }

  // From a scope named in a cancel call down to the last one, each cancelled and each the
  // parent of the next.
  ghost predicate CauseOf(s: State, chain: seq<Sid>) {
    && |chain| > 0 && chain[0] in s.asked
    && (forall i :: 0 <= i < |chain| ==> Cancelled(s, chain[i]))
    && (forall i :: 0 < i < |chain| ==> ChildOf(s, chain[i - 1], chain[i]))
  }

  ghost predicate ChildOf(s: State, p: Sid, x: Sid) { x in s.scopes && s.scopes[x].parent == Some(p) }

  ghost predicate Caused(s: State, x: Sid) {
    exists chain :: |chain| > 0 && CauseOf(s, chain) && chain[|chain| - 1] == x
  }

  ghost predicate AllCaused(s: State) { forall x :: Cancelled(s, x) ==> Caused(s, x) }

  lemma CauseStays(s: State, u: State, chain: seq<Sid>)
    requires Grows(s, u) && CauseOf(s, chain)
    ensures CauseOf(u, chain)
  {
  }

  lemma CausesKept(s: State, u: State)
    requires AllCaused(s) && Grows(s, u) && NewCause(s, u)
    ensures AllCaused(u)
  {
    hide Grows, NewCause, Caused, Cancelled;
    forall x | Cancelled(u, x) ensures Caused(u, x) {
      CauseFound(s, u, x);
    }
  }

  lemma CauseFound(s: State, u: State, x: Sid)
    requires AllCaused(s) && Grows(s, u) && NewCause(s, u) && Cancelled(u, x)
    ensures Caused(u, x)
  {
    hide Caused;
    if Cancelled(s, x) {
      CausedStays(s, u, x);
    } else if x in s.asked {
      CauseAsked(u, x);
    } else {
      CausedStays(s, u, u.scopes[x].parent.value);
      CauseBelow(u, u.scopes[x].parent.value, x);
    }
  }

  lemma CausedStays(s: State, u: State, x: Sid)
    requires Caused(s, x) && Grows(s, u)
    ensures Caused(u, x)
  {
    hide Grows, CauseOf;
    var chain :| |chain| > 0 && CauseOf(s, chain) && chain[|chain| - 1] == x;
    CauseStays(s, u, chain);
  }

  lemma CauseAsked(u: State, x: Sid)
    requires x in u.asked && Cancelled(u, x)
    ensures Caused(u, x)
  {
    assert CauseOf(u, [x]) && [x][|[x]| - 1] == x;
  }

  lemma CauseBelow(u: State, p: Sid, x: Sid)
    requires Caused(u, p) && Cancelled(u, x) && u.scopes[x].parent == Some(p)
    ensures Caused(u, x)
  {
    var chain :| |chain| > 0 && CauseOf(u, chain) && chain[|chain| - 1] == p;
    var more := chain + [x];
    forall i | 0 < i < |more| ensures ChildOf(u, more[i - 1], more[i]) {
      if i < |chain| { assert ChildOf(u, chain[i - 1], chain[i]); }
    }
    forall i | 0 <= i < |more| ensures Cancelled(u, more[i]) {
      if i < |chain| { assert Cancelled(u, chain[i]); }
    }
    assert more[0] == chain[0];
    assert CauseOf(u, more) && more[|more| - 1] == x;
  }

  // ----- what the calls in progress know -----

  ghost predicate Trying(s: State, x: Sid) { exists t :: At(s, t, Cancel([], Some(x))) }

  ghost predicate ParentCancelled(s: State, x: Sid) {
    x in s.scopes && s.scopes[x].parent.Some? && Cancelled(s, s.scopes[x].parent.value)
  }

  // A cancel call tries the scope it was asked for; a newcomer that is about to set its own
  // flag has seen the other one set.
  ghost predicate ThreadKnows(s: State, t: Tid)
    requires t in s.threads
  {
    match s.threads[t]
    case Cancel(stack, swap) => |stack| == 0 && swap.Some? ==> swap.value in s.asked
    case CreateUnlock(x, flag) => flag ==> ParentCancelled(s, x)
    case CreateStore(x, flag) => flag ==> ParentCancelled(s, x)
    case RegFinish(x, c, flag) => (flag ==> Cancelled(s, x)) && c in s.coros && s.coros[c].scope == x
    case _ => true
  }

  ghost predicate CoroKnown(s: State, c: Cid)
    requires c in s.coros
  {
    var x := s.coros[c].scope;
    && x in s.scopes
    && (s.coros[c].cancelled ==> s.scopes[x].cancelled)
    && (c in s.scopes[x].children || (x, c) in s.left || At(s, s.coros[c].maker, RegLock(x, c)))
  }

  ghost predicate ScopeKnown(s: State, x: Sid)
    requires x in s.scopes
  {
    s.scopes[x].parent.Some? ==>
      var p := s.scopes[x].parent.value;
      && p in s.scopes
      && (x in s.scopes[p].scopes || x in s.joined || At(s, s.scopes[x].maker, CreateLock(x)))
  }

  ghost predicate Knows(s: State) {
    && (forall t :: t in s.threads ==> ThreadKnows(s, t))
    && (forall c :: c in s.coros ==> CoroKnown(s, c))
    && (forall x :: x in s.scopes ==> ScopeKnown(s, x))
    && (forall x :: x in s.asked ==> Cancelled(s, x) || Trying(s, x))
  }

  // ----- one step of thread t -----

  // Lists lose entries only to unregistering and joining.
  ghost predicate ListsKept(s: State, u: State) {
    && (forall x, c :: x in s.scopes && x in u.scopes && c in s.scopes[x].children ==>
          c in u.scopes[x].children || (x, c) in u.left)
    && (forall x, y :: x in s.scopes && x in u.scopes && y in s.scopes[x].scopes ==>
          y in u.scopes[x].scopes || y in u.joined)
  }

  ghost predicate CorosFollow(s: State, u: State, t: Tid) {
    && (forall c :: c in u.coros && u.coros[c].cancelled && !(c in s.coros && s.coros[c].cancelled) ==>
          Cancelled(u, u.coros[c].scope))
    && (forall c :: c in s.coros && c in u.coros ==>
          && u.coros[c].maker == s.coros[c].maker
          && (At(s, t, RegLock(s.coros[c].scope, c)) ==>
                At(u, t, RegLock(s.coros[c].scope, c))
                || (s.coros[c].scope in u.scopes && c in u.scopes[s.coros[c].scope].children)))
    && (forall c :: c in u.coros && c !in s.coros ==>
          u.coros[c].scope in u.scopes && At(u, u.coros[c].maker, RegLock(u.coros[c].scope, c)))
  }

  ghost predicate ScopesFollow(s: State, u: State, t: Tid) {
    && (forall x :: x in s.scopes && x in u.scopes && s.scopes[x].parent.Some? && At(s, t, CreateLock(x)) ==>
          || At(u, t, CreateLock(x))
          || (s.scopes[x].parent.value in u.scopes && x in u.scopes[s.scopes[x].parent.value].scopes))
    && (forall x :: x in s.scopes && x in u.scopes ==> u.scopes[x].maker == s.scopes[x].maker)
    && (forall x :: x in u.scopes && x !in s.scopes && u.scopes[x].parent.Some? ==>
          u.scopes[x].parent.value in u.scopes && At(u, u.scopes[x].maker, CreateLock(x)))
  }

  ghost predicate AskedFollow(s: State, u: State, t: Tid) {
    && (forall x :: x in u.asked && x !in s.asked ==> At(u, t, Cancel([], Some(x))))
    && (forall x :: At(s, t, Cancel([], Some(x))) ==> At(u, t, Cancel([], Some(x))) || Cancelled(u, x))
  }

  ghost predicate Follows(s: State, u: State, t: Tid) {
    && t in u.threads && u.threads == s.threads[t := u.threads[t]]
    && Grows(s, u) && ListsKept(s, u) && NewCause(s, u)
    && CorosFollow(s, u, t) && ScopesFollow(s, u, t) && AskedFollow(s, u, t) && ThreadKnows(u, t)
  }

  lemma KnowsNext(s: State, u: State, t: Tid)
    requires Knows(s) && Follows(s, u, t)
    ensures Knows(u)
  {
    hide ThreadKnows, CoroKnown, ScopeKnown, Trying, Cancelled, NewCause, ListsKept, CorosFollow, ScopesFollow,
      AskedFollow, Grows;
    forall r | r in u.threads ensures ThreadKnows(u, r) {
      if r != t { ThreadStays(s, u, r); }
    }
    forall c | c in u.coros ensures CoroKnown(u, c) {
      CoroStays(s, u, t, c);
    }
    forall x | x in u.scopes ensures ScopeKnown(u, x) {
      ScopeStays(s, u, t, x);
    }
    forall x | x in u.asked ensures Cancelled(u, x) || Trying(u, x) {
      AskedStays(s, u, t, x);
    }
  }

  lemma ThreadStays(s: State, u: State, r: Tid)
    requires r in s.threads && ThreadKnows(s, r) && Grows(s, u) && r in u.threads && u.threads[r] == s.threads[r]
    ensures ThreadKnows(u, r)
  {
  }

  lemma CoroStays(s: State, u: State, t: Tid, c: Cid)
    requires c in s.coros ==> CoroKnown(s, c)
    requires Follows(s, u, t) && c in u.coros
    ensures CoroKnown(u, c)
  {
    hide ThreadKnows, ScopesFollow, AskedFollow, NewCause;
    if c in s.coros {
      var x := s.coros[c].scope;
      if At(s, s.coros[c].maker, RegLock(x, c)) && s.coros[c].maker != t {
        assert At(u, u.coros[c].maker, RegLock(x, c));
      }
    }
  }

  lemma ScopeStays(s: State, u: State, t: Tid, x: Sid)
    requires x in s.scopes ==> ScopeKnown(s, x)
    requires Follows(s, u, t) && x in u.scopes
    ensures ScopeKnown(u, x)
  {
    hide ThreadKnows, CorosFollow, AskedFollow, NewCause;
    if x in s.scopes && s.scopes[x].parent.Some? {
      if At(s, s.scopes[x].maker, CreateLock(x)) && s.scopes[x].maker != t {
        assert At(u, u.scopes[x].maker, CreateLock(x));
      }
    }
  }

  lemma AskedStays(s: State, u: State, t: Tid, x: Sid)
    requires x in s.asked ==> Cancelled(s, x) || Trying(s, x)
    requires Follows(s, u, t) && x in u.asked
    ensures Cancelled(u, x) || Trying(u, x)
  {
    hide ThreadKnows, CorosFollow, ScopesFollow, NewCause, ListsKept;
    if x in s.asked && !Cancelled(s, x) {
      var r :| At(s, r, Cancel([], Some(x)));
      if r != t { assert At(u, r, Cancel([], Some(x))); }
    }
  }

  lemma {:induction false} OthersStay(q: seq<nat>, x: nat)
    ensures forall y :: y in q && y != x ==> y in Removed(q, x)
  {
    if |q| > 0 {
      OthersStay(q[1..], x);
      forall y | y in q && y != x ensures y in Removed(q, x) {
        if q[0] == x { assert y in q[1..]; } else if y != q[0] { assert y in q[1..]; }
      }
    }
  }

  lemma StartCancelFollows(s: State, u: State, t: Tid, x: Sid)
    requires Inv(s) && Knows(s) && StartCancel(s, u, t, x)
    ensures Follows(s, u, t)
  {
    hide Inv, Covered, CoroKnown, ScopeKnown;
    NearInv(s, t, x);
  }

  // The scope tried is the one asked for, or listed by one that is cancelled already.
  lemma SwapCause(s: State, u: State, t: Tid)
    requires Inv(s) && Knows(s) && Swap(s, u, t)
    ensures var op := s.threads[t];
            var x := op.swap.value;
            x in s.asked || (s.scopes[x].parent.Some? && Cancelled(s, s.scopes[x].parent.value))
  {
    hide Inv, Covered, CoroKnown, ScopeKnown, Advanced;
    SwapFacts(s, u, t);
    assert ThreadKnows(s, t);
    var op := s.threads[t];
    if |op.stack| > 0 { NearInv(s, t, op.stack[|op.stack| - 1]); }
  }

  lemma SwapGrows(s: State, u: State, t: Tid)
    requires Inv(s) && Knows(s) && Swap(s, u, t)
    ensures Grows(s, u) && ListsKept(s, u) && NewCause(s, u)
  {
    hide Inv, Covered, CoroKnown, ScopeKnown, Advanced;
    SwapFacts(s, u, t);
    SwapCause(s, u, t);
  }

  lemma SwapFollows(s: State, u: State, t: Tid)
    requires Inv(s) && Knows(s) && Swap(s, u, t)
    ensures Follows(s, u, t)
  {
    hide Inv, Covered, CoroKnown, ScopeKnown, Advanced, Grows, ListsKept, NewCause;
    SwapFacts(s, u, t);
    SwapCause(s, u, t);
    SwapGrows(s, u, t);
  }

  lemma AcquireFollows(s: State, u: State, t: Tid, x: Sid)
    requires Inv(s) && Knows(s) && Acquire(s, u, t, x)
    ensures Follows(s, u, t)
  {
    hide Inv, Covered, CoroKnown, ScopeKnown;
    NearInv(s, t, x);
  }

  lemma CancelKidGrows(s: State, u: State, t: Tid, x: Sid)
    requires Inv(s) && Knows(s) && CancelKid(s, u, t, x)
    ensures Grows(s, u) && ListsKept(s, u) && NewCause(s, u)
  {
    hide Inv, Covered, CoroKnown, ScopeKnown;
    NearInv(s, t, x);
  }

  lemma CancelKidFollows(s: State, u: State, t: Tid, x: Sid)
    requires Inv(s) && Knows(s) && CancelKid(s, u, t, x)
    ensures Follows(s, u, t)
  {
    hide Inv, Covered, CoroKnown, ScopeKnown, Grows, ListsKept, NewCause;
    NearInv(s, t, x);
    CancelKidGrows(s, u, t, x);
  }

  lemma DescendFollows(s: State, u: State, t: Tid, x: Sid)
    requires Inv(s) && Knows(s) && Descend(s, u, t, x)
    ensures Follows(s, u, t)
  {
    hide Inv, Covered, CoroKnown, ScopeKnown;
    NearInv(s, t, x);
  }

  lemma AscendFollows(s: State, u: State, t: Tid, x: Sid)
    requires Inv(s) && Knows(s) && Ascend(s, u, t, x)
    ensures Follows(s, u, t)
  {
    hide Inv, Covered, CoroKnown, ScopeKnown;
    NearInv(s, t, x);
  }

  lemma EndCancelFollows(s: State, u: State, t: Tid)
    requires Inv(s) && Knows(s) && EndCancel(s, u, t)
    ensures Follows(s, u, t)
  {
    hide Inv, Covered, CoroKnown, ScopeKnown;
    NearInv(s, t, 0);
  }

  lemma NewScopeFollows(s: State, u: State, t: Tid, x: Sid, parent: Option<Sid>)
    requires Inv(s) && Knows(s) && NewScope(s, u, t, x, parent)
    ensures Follows(s, u, t)
  {
    hide Inv, Covered, CoroKnown, ScopeKnown;
    NearInv(s, t, x);
  }

  lemma ListScopeFollows(s: State, u: State, t: Tid, x: Sid, p: Sid)
    requires Inv(s) && Knows(s) && ListScope(s, u, t, x, p)
    ensures Follows(s, u, t)
  {
    hide Inv, Covered, CoroKnown, ScopeKnown;
    NearInv(s, t, p);
  }

  lemma CheckParentFollows(s: State, u: State, t: Tid, x: Sid, p: Sid)
    requires Inv(s) && Knows(s) && CheckParent(s, u, t, x, p)
    ensures Follows(s, u, t)
  {
    hide Inv, Covered, CoroKnown, ScopeKnown;
    NearInv(s, t, x);
  }

  lemma UnlockParentFollows(s: State, u: State, t: Tid, x: Sid, p: Sid)
    requires Inv(s) && Knows(s) && UnlockParent(s, u, t, x, p)
    ensures Follows(s, u, t)
  {
    hide Inv, Covered, CoroKnown, ScopeKnown;
    NearInv(s, t, x);
  }

  lemma StoreOwnGrows(s: State, u: State, t: Tid, x: Sid)
    requires Inv(s) && Knows(s) && StoreOwn(s, u, t, x)
    ensures Grows(s, u) && ListsKept(s, u) && NewCause(s, u)
  {
    hide Inv, Covered, CoroKnown, ScopeKnown;
    NearInv(s, t, x);
  }

  lemma StoreOwnFollows(s: State, u: State, t: Tid, x: Sid)
    requires Inv(s) && Knows(s) && StoreOwn(s, u, t, x)
    ensures Follows(s, u, t)
  {
    hide Inv, Covered, CoroKnown, ScopeKnown, Grows, ListsKept, NewCause;
    NearInv(s, t, x);
    StoreOwnGrows(s, u, t, x);
  }

  lemma NewThreadFollows(s: State, u: State, t: Tid)
    requires Inv(s) && Knows(s) && NewThread(s, u, t)
    ensures Follows(s, u, t)
  {
    hide Inv, Covered, CoroKnown, ScopeKnown;
    
  }

  lemma RegisterGrows(s: State, u: State, t: Tid, x: Sid, c: Cid)
    requires Inv(s) && Knows(s) && Register(s, u, t, x, c)
    ensures Grows(s, u) && ListsKept(s, u) && NewCause(s, u)
  {
    hide Inv, Covered, CoroKnown, ScopeKnown;
    NearInv(s, t, x);
  }

  lemma RegisterFollows(s: State, u: State, t: Tid, x: Sid, c: Cid)
    requires Inv(s) && Knows(s) && Register(s, u, t, x, c)
    ensures Follows(s, u, t)
  {
    hide Inv, Covered, CoroKnown, ScopeKnown, Grows, ListsKept, NewCause;
    NearInv(s, t, x);
    RegisterGrows(s, u, t, x, c);
  }

  lemma ListChildFollows(s: State, u: State, t: Tid, x: Sid, c: Cid)
    requires Inv(s) && Knows(s) && ListChild(s, u, t, x, c)
    ensures Follows(s, u, t)
  {
    hide Inv, Covered, CoroKnown, ScopeKnown;
    NearInv(s, t, x);
  }

  lemma CheckScopeFollows(s: State, u: State, t: Tid, x: Sid, c: Cid)
    requires Inv(s) && Knows(s) && CheckScope(s, u, t, x, c)
    ensures Follows(s, u, t)
  {
    hide Inv, Covered, CoroKnown, ScopeKnown;
    NearInv(s, t, x);
  }

  lemma FinishRegisterGrows(s: State, u: State, t: Tid, x: Sid, c: Cid)
    requires Inv(s) && Knows(s) && FinishRegister(s, u, t, x, c)
    ensures Grows(s, u) && ListsKept(s, u) && NewCause(s, u)
  {
    hide Inv, Covered, CoroKnown, ScopeKnown;
    NearInv(s, t, x);
  }

  lemma FinishRegisterCoros(s: State, u: State, t: Tid, x: Sid, c: Cid)
    requires Inv(s) && Knows(s) && FinishRegister(s, u, t, x, c)
    ensures CorosFollow(s, u, t)
  {
    hide Inv, Covered, CoroKnown, ScopeKnown, Grows, ListsKept, NewCause;
    NearInv(s, t, x);
  }

  lemma FinishRegisterFollows(s: State, u: State, t: Tid, x: Sid, c: Cid)
    requires Inv(s) && Knows(s) && FinishRegister(s, u, t, x, c)
    ensures Follows(s, u, t)
  {
    hide Inv, Covered, CoroKnown, ScopeKnown, Grows, ListsKept, NewCause, CorosFollow;
    NearInv(s, t, x);
    FinishRegisterGrows(s, u, t, x, c);
    FinishRegisterCoros(s, u, t, x, c);
  }

  lemma UnregisterFollows(s: State, u: State, t: Tid, x: Sid, c: Cid)
    requires Inv(s) && Knows(s) && Unregister(s, u, t, x, c)
    ensures Follows(s, u, t)
  {
    hide Inv, Covered, CoroKnown, ScopeKnown;
    NearInv(s, t, x);
    OthersStay(s.scopes[x].children, c);
  }

  lemma UnlistGrows(s: State, u: State, t: Tid, x: Sid)
    requires Inv(s) && Knows(s) && Unlist(s, u, t, x)
    ensures Grows(s, u) && ListsKept(s, u) && NewCause(s, u)
  {
    hide Inv, Covered, CoroKnown, ScopeKnown;
    NearInv(s, t, x);
    if s.scopes[x].parent.Some? { OthersStay(s.scopes[s.scopes[x].parent.value].scopes, x); }
  }

  lemma UnlistFollows(s: State, u: State, t: Tid, x: Sid)
    requires Inv(s) && Knows(s) && Unlist(s, u, t, x)
    ensures Follows(s, u, t)
  {
    hide Inv, Covered, CoroKnown, ScopeKnown, Grows, ListsKept, NewCause;
    NearInv(s, t, x);
    UnlistGrows(s, u, t, x);
  }

  lemma FreeFollows(s: State, u: State, t: Tid, x: Sid)
    requires Inv(s) && Knows(s) && Free(s, u, t, x)
    ensures Follows(s, u, t)
  {
    hide Inv, Covered, CoroKnown, ScopeKnown;
    NearInv(s, t, x);
  }

  lemma CancelStepFollows(s: State, u: State)
    requires Inv(s) && Knows(s) && CancelStep(s, u)
    ensures exists t :: Follows(s, u, t)
  {
    hide Inv, Knows, Follows, StartCancel, Swap, Acquire, CancelKid, Descend, Ascend, EndCancel;
    if t, x :| StartCancel(s, u, t, x) { StartCancelFollows(s, u, t, x); }
    else if t :| Swap(s, u, t) { SwapFollows(s, u, t); }
    else if t, x :| Acquire(s, u, t, x) { AcquireFollows(s, u, t, x); }
    else if t, x :| CancelKid(s, u, t, x) { CancelKidFollows(s, u, t, x); }
    else if t, x :| Descend(s, u, t, x) { DescendFollows(s, u, t, x); }
    else if t, x :| Ascend(s, u, t, x) { AscendFollows(s, u, t, x); }
    else if t :| EndCancel(s, u, t) { EndCancelFollows(s, u, t); }
  }

  lemma CreateStepFollows(s: State, u: State)
    requires Inv(s) && Knows(s) && CreateStep(s, u)
    ensures exists t :: Follows(s, u, t)
  {
    hide Inv, Knows, Follows, NewScope, ListScope, CheckParent, UnlockParent, StoreOwn, NewThread;
    if t, x, parent :| NewScope(s, u, t, x, parent) { NewScopeFollows(s, u, t, x, parent); }
    else if t, x, p :| ListScope(s, u, t, x, p) { ListScopeFollows(s, u, t, x, p); }
    else if t, x, p :| CheckParent(s, u, t, x, p) { CheckParentFollows(s, u, t, x, p); }
    else if t, x, p :| UnlockParent(s, u, t, x, p) { UnlockParentFollows(s, u, t, x, p); }
    else if t, x :| StoreOwn(s, u, t, x) { StoreOwnFollows(s, u, t, x); }
    else if t :| NewThread(s, u, t) { NewThreadFollows(s, u, t); }
  }

  lemma MemberStepFollows(s: State, u: State)
    requires Inv(s) && Knows(s) && MemberStep(s, u)
    ensures exists t :: Follows(s, u, t)
  {
    hide Inv, Knows, Follows, Register, ListChild, CheckScope, FinishRegister, Unregister, Unlist, Free;
    if t, x, c :| Register(s, u, t, x, c) { RegisterFollows(s, u, t, x, c); }
    else if t, x, c :| ListChild(s, u, t, x, c) { ListChildFollows(s, u, t, x, c); }
    else if t, x, c :| CheckScope(s, u, t, x, c) { CheckScopeFollows(s, u, t, x, c); }
    else if t, x, c :| FinishRegister(s, u, t, x, c) { FinishRegisterFollows(s, u, t, x, c); }
    else if t, x, c :| Unregister(s, u, t, x, c) { UnregisterFollows(s, u, t, x, c); }
    else if t, x :| Unlist(s, u, t, x) { UnlistFollows(s, u, t, x); }
    else if t, x :| Free(s, u, t, x) { FreeFollows(s, u, t, x); }
  }

  // ----- every run -----

  lemma StepFollows(s: State, u: State)
    requires Inv(s) && Knows(s) && Step(s, u)
    ensures exists t :: Follows(s, u, t)
  {
    hide Inv, Knows, Follows, CancelStep, CreateStep, MemberStep;
    if CancelStep(s, u) { CancelStepFollows(s, u); }
    else if CreateStep(s, u) { CreateStepFollows(s, u); }
    else { MemberStepFollows(s, u); }
  }

  lemma {:induction false} RunKnows(run: seq<State>, n: nat)
    requires Run(run) && n < |run|
    ensures Inv(run[n]) && Knows(run[n]) && AllCaused(run[n])
  {
    hide Inv, Step, Caused, ThreadKnows, CoroKnown, ScopeKnown, Trying, Cancelled;
    RunInv(run, n);
    if n == 0 {
      NothingYet(run[0]);
    } else {
      RunKnows(run, n - 1);
      assert Step(run[n - 1], run[n - 1 + 1]);
      RunInv(run, n - 1);
      StepFollows(run[n - 1], run[n]);
      var t :| Follows(run[n - 1], run[n], t);
      KnowsNext(run[n - 1], run[n], t);
      CausesKept(run[n - 1], run[n]);
    }
  }

  lemma NothingYet(s: State)
    requires s == State(map[], map[], map[], {}, {}, {})
    ensures Knows(s) && AllCaused(s)
  {
  }

  // ----- the theorems -----

  // A cancelled coroutine belongs to a cancelled scope, and above a cancelled scope, in an
  // unbroken line of cancelled ancestors, is one that a cancel call named.
  lemma CancelledForAReason(run: seq<State>, n: nat)
    requires Run(run) && n < |run|
    ensures forall c :: c in run[n].coros && run[n].coros[c].cancelled ==> Cancelled(run[n], run[n].coros[c].scope)
    ensures forall x :: Cancelled(run[n], x) ==> Caused(run[n], x)
  {
    hide Inv, Run, Caused;
    RunKnows(run, n);
    forall c | c in run[n].coros && run[n].coros[c].cancelled ensures Cancelled(run[n], run[n].coros[c].scope) {
      assert CoroKnown(run[n], c);
    }
  }

  // So where nobody has called cancel nothing is cancelled.
  lemma NobodyAsked(run: seq<State>, n: nat)
    requires Run(run) && n < |run| && run[n].asked == {}
    ensures forall x :: x in run[n].scopes ==> !run[n].scopes[x].cancelled
    ensures forall c :: c in run[n].coros ==> !run[n].coros[c].cancelled
  {
    hide Run;
    CancelledForAReason(run, n);
    assert forall x :: x in run[n].scopes && run[n].scopes[x].cancelled ==> Caused(run[n], x);
  }

  // A cancel call that is over has cancelled its scope.
  lemma AskedIsCancelled(run: seq<State>, n: nat, x: Sid)
    requires Run(run) && n < |run| && Quiescent(run[n]) && x in run[n].asked
    ensures Cancelled(run[n], x)
  {
    hide Inv, Run, Cancelled;
    RunKnows(run, n);
  }

  // From ancestor to descendant, none of them joined.
  ghost predicate Lineage(s: State, chain: seq<Sid>) {
    && |chain| > 0 && chain[0] in s.scopes
    && forall i :: 0 < i < |chain| ==> ChildOf(s, chain[i - 1], chain[i]) && chain[i] !in s.joined
  }

  // Whenever no cancel, create or register is in progress: below a scope named in a cancel
  // call every scope created and not joined is cancelled, and in it every coroutine
  // registered and not unregistered.
  lemma CancelReachesRegistered(run: seq<State>, n: nat, chain: seq<Sid>)
    requires Run(run) && n < |run| && Quiescent(run[n])
    requires Lineage(run[n], chain) && chain[0] in run[n].asked
    ensures var s, x := run[n], chain[|chain| - 1];
            && Cancelled(s, x)
            && forall c :: c in s.coros && s.coros[c].scope == x && (x, c) !in s.left ==> s.coros[c].cancelled
  {
    hide Run, Inv;
    var s, x := run[n], chain[|chain| - 1];
    RunKnows(run, n);
    AskedIsCancelled(run, n, chain[0]);
    LineageListed(s, chain);
    CancelReachesAll(run, n, chain);
    forall c | c in s.coros && s.coros[c].scope == x && (x, c) !in s.left ensures s.coros[c].cancelled {
      assert CoroKnown(s, c);
    }
  }

  lemma LineageListed(s: State, chain: seq<Sid>)
    requires Knows(s) && Quiescent(s) && Lineage(s, chain)
    ensures Chain(s, chain)
  {
    forall i | 0 <= i < |chain| - 1 ensures chain[i] in s.scopes && chain[i + 1] in s.scopes[chain[i]].scopes {
      assert ChildOf(s, chain[i + 1 - 1], chain[i + 1]);
      assert ScopeKnown(s, chain[i + 1]);
    }
  }
}
