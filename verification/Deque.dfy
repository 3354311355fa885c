// The growable work-stealing deque of runtime/deque.c as a step system: one owner, any
// number of thieves, one atomic access per step, sequentially consistent.
module Deque {
  import opened Bits
  import opened Options

  type Coro = nat
  // A slot buffer; retired buffers stay reachable through `prev`.
  datatype Buf = Buf(size: nat, slots: seq<Coro>) {
    predicate Shaped() { PowerOfTwo(size) && |slots| == size }
    function At(i: nat): Coro
      requires Shaped()
    {
      SlotRange(i, size);
      slots[Slot(i, size)]
    }
    function Put(i: nat, c: Coro): Buf
      requires Shaped()
    {
      SlotRange(i, size);
      this.(slots := slots[Slot(i, size) := c])
    }
  }

  // Where the owner is. Push, with the new element c and the bottom b it read:
  // PushTop, PushBuf, Grow (copying index i into the private buffer nb), PushSlot,
  // PushBottom. Pop, with b one below the bottom it read: PopBuf, PopStore, PopTop,
  // PopSlot, PopCas, PopRestore (result r).
  datatype Owner =
    | Idle
    | PushTop(b: nat, c: Coro)
    | PushBuf(b: nat, c: Coro, t: nat)
    | Grow(b: nat, c: Coro, t: nat, i: nat, nb: Buf)
    | PushSlot(b: nat, c: Coro)
    | PushBottom(b: nat, c: Coro)
    | PopBuf(pb: int)
    | PopStore(pb: int)
    | PopTop(pb: int)
    | PopSlot(pb: int, t: nat)
    | PopCas(pb: int, t: nat, c: Coro)
    | PopRestore(pb: int, r: Option<Coro>)

  // Where a thief is: it has read top (t), then bottom, then the buffer k, then the slot.
  datatype Thief = Away | SawTop(t: nat) | SawBottom(t: nat) | SawBuf(t: nat, k: nat) | SawSlot(t: nat, c: Coro)

  // The shared words, the program points, and three histories: what was pushed, what
  // calls have returned, and the abstract content, oldest first.
  datatype State = State(
    top: nat, bottom: int, bufs: seq<Buf>, owner: Owner, thieves: map<nat, Thief>,
    pushed: multiset<Coro>, returned: multiset<Coro>, live: seq<Coro>)
  {
    predicate Formed() {
      |bufs| > 0 && forall k :: 0 <= k < |bufs| ==> bufs[k].Shaped()
    }

    function Cur(): Buf
      requires |bufs| > 0
    {
      bufs[|bufs| - 1]
    }
  }

  const INIT_CAP := 1024

  ghost predicate Init(s: State) {
    && s.top == 0 && s.bottom == 0 && |s.bufs| == 1 && s.bufs[0].Shaped() && s.bufs[0].size == INIT_CAP
    && s.owner == Idle && s.pushed == multiset{} && s.returned == multiset{} && s.live == []
    && forall i :: i in s.thieves ==> s.thieves[i] == Away
  }

  // What moves next: the owner (starting a push or a pop when idle) or a thief.
  datatype Label = StartPush(c: Coro) | StartPop | Continue | Steal(id: nat)

  function Tail(q: seq<Coro>): seq<Coro> { if |q| == 0 then [] else q[1..] }
  function Front(q: seq<Coro>): seq<Coro> { if |q| == 0 then [] else q[..|q| - 1] }

  // deque_grow: copy one slot into the private buffer, or publish it.
  function GrowStep(s: State): State
    requires s.Formed() && s.owner.Grow? && s.owner.nb.Shaped()
  {
    var Grow(b, c, t, i, nb) := s.owner;
    if i < b
    then s.(owner := Grow(b, c, t, i + 1, nb.Put(i, s.Cur().At(i))))
    else s.(bufs := s.bufs + [nb], owner := PushSlot(b, c))
  }

  function PushStep(s: State): State
    requires s.Formed()
  {
    match s.owner
    case PushTop(b, c) => s.(owner := PushBuf(b, c, s.top))
    case PushBuf(b, c, t) =>
      if b - t >= s.Cur().size
      then s.(owner := Grow(b, c, t, t, Buf(2 * s.Cur().size, seq(2 * s.Cur().size, _ => 0))))
      else s.(owner := PushSlot(b, c))
    case PushSlot(b, c) =>
      s.(bufs := s.bufs[|s.bufs| - 1 := s.Cur().Put(b, c)], owner := PushBottom(b, c))
    case PushBottom(b, c) =>
      s.(bottom := b + 1, owner := Idle, pushed := s.pushed + multiset{c}, live := s.live + [c])
    case _ => s
  }

  // Reading top in pop: empty, the last element, or an element no thief can reach.
  function PopTopStep(s: State): State
    requires s.owner.PopTop?
  {
    var b := s.owner.pb;
    if s.top > b then s.(owner := PopRestore(b, None))
    else if s.top == b then s.(owner := PopSlot(b, s.top))
    else s.(owner := PopSlot(b, s.top), live := Front(s.live))
  }

  function PopSlotStep(s: State): State
    requires s.Formed() && s.owner.PopSlot?
  {
    var PopSlot(b, t) := s.owner;
    if b < 0 then s
    else if t == b then s.(owner := PopCas(b, t, s.Cur().At(b)))
    else s.(owner := Idle, returned := s.returned + multiset{s.Cur().At(b)})
  }

  // The race for the last element.
  function PopCasStep(s: State): State
    requires s.owner.PopCas?
  {
    var PopCas(b, t, c) := s.owner;
    if s.top != t then s.(owner := PopRestore(b, None))
    else s.(top := t + 1, owner := PopRestore(b, Some(c)), live := Tail(s.live))
  }

  function PopRestoreStep(s: State): State
    requires s.owner.PopRestore?
  {
    var PopRestore(b, r) := s.owner;
    if r.Some? then s.(bottom := b + 1, owner := Idle, returned := s.returned + multiset{r.value})
    else s.(bottom := b + 1, owner := Idle)
  }

  function OwnerStep(s: State): State
    requires s.Formed() && (s.owner.Grow? ==> s.owner.nb.Shaped())
  {
    match s.owner
    case Idle => s
    case Grow(_, _, _, _, _) => GrowStep(s)
    case PopBuf(b) => s.(owner := PopStore(b))
    case PopStore(b) => s.(bottom := b, owner := PopTop(b))
    case PopTop(_) => PopTopStep(s)
    case PopSlot(_, _) => PopSlotStep(s)
    case PopCas(_, _, _) => PopCasStep(s)
    case PopRestore(_, _) => PopRestoreStep(s)
    case _ => PushStep(s)
  }

  // The thief's compare-and-swap.
  function TakeStep(s: State, id: nat): State
    requires id in s.thieves && s.thieves[id].SawSlot?
  {
    var SawSlot(t, c) := s.thieves[id];
    if s.top != t then s.(thieves := s.thieves[id := Away])
    else s.(top := t + 1, thieves := s.thieves[id := Away], returned := s.returned + multiset{c}, live := Tail(s.live))
  }

  function ThiefStep(s: State, id: nat): State
    requires s.Formed() && id in s.thieves
  {
    match s.thieves[id]
    case Away => s.(thieves := s.thieves[id := SawTop(s.top)])
    case SawTop(t) => s.(thieves := s.thieves[id := if t < s.bottom then SawBottom(t) else Away])
    case SawBottom(t) => s.(thieves := s.thieves[id := SawBuf(t, |s.bufs| - 1)])
    case SawBuf(t, k) => s.(thieves := s.thieves[id := if k < |s.bufs| then SawSlot(t, s.bufs[k].At(t)) else Away])
    case SawSlot(_, _) => TakeStep(s, id)
  }

  function Next(s: State, l: Label): State
    requires s.Formed() && (s.owner.Grow? ==> s.owner.nb.Shaped())
  {
    match l
    case StartPush(c) =>
      if s.owner == Idle && s.bottom >= 0 then s.(owner := PushTop(s.bottom, c)) else s
    case StartPop => if s.owner == Idle then s.(owner := PopBuf(s.bottom - 1)) else s
    case Continue => OwnerStep(s)
    case Steal(id) => if id in s.thieves then ThiefStep(s, id) else s
  }

  // ----- the invariant -----

  // The logical bottom: an element a pop has committed to is no longer live.
  function Back(s: State): int {
    match s.owner
    case PopTop(b) => b + 1
    case PopSlot(b, t) => if t < b then b else b + 1
    case PopCas(b, _, _) => b + 1
    case PopRestore(b, _) => b + 1
    case _ => s.bottom
  }

  // Elements taken by the owner but not yet returned.
  function InFlight(s: State): multiset<Coro>
    requires s.Formed()
  {
    match s.owner
    case PopSlot(b, t) => if t < b then multiset{s.Cur().At(b)} else multiset{}
    case PopRestore(_, Some(c)) => multiset{c}
    case _ => multiset{}
  }

  // The live content sits in the current buffer between top and the logical bottom.
  ghost predicate Window(s: State)
    requires s.Formed()
  {
    && Back(s) - s.top == |s.live| <= s.Cur().size
    && forall i :: 0 <= i < |s.live| ==> s.live[i] == s.Cur().At(s.top + i)
  }

  ghost predicate OwnerOk(s: State)
    requires s.Formed()
  {
    match s.owner
    case Idle => s.bottom >= 0
    case PushTop(b, _) => s.bottom == b
    case PushBuf(b, _, t) => s.bottom == b && t <= s.top && b - t <= s.Cur().size
    case Grow(b, _, t, i, nb) =>
      && s.bottom == b && t <= s.top && b - t == s.Cur().size && t <= i <= b
      && nb.Shaped() && nb.size == 2 * s.Cur().size
      && forall j :: t <= j < i ==> nb.At(j) == s.Cur().At(j)
    case PushSlot(b, _) => s.bottom == b && |s.live| < s.Cur().size
    case PushBottom(b, c) => s.bottom == b && |s.live| < s.Cur().size && s.Cur().At(b) == c
    case PopBuf(b) => s.bottom == b + 1 && s.bottom >= 0
    case PopStore(b) => s.bottom == b + 1 && s.bottom >= 0
    case PopTop(b) => s.bottom == b && b >= -1
    case PopSlot(b, t) => s.bottom == b && t <= s.top && t <= b
    case PopCas(b, t, c) => s.bottom == b && t == b && t <= s.top && (s.top == t ==> s.live == [c])
    case PopRestore(b, _) => s.bottom == b && b >= -1 && s.top == b + 1
  }

  // A thief that can still win its compare-and-swap holds, or will read, the oldest element.
  ghost predicate ThiefOk(s: State, h: Thief)
    requires s.Formed()
  {
    match h
    case Away => true
    case SawTop(t) => t <= s.top
    case SawBottom(t) => t <= s.top && (t == s.top ==> |s.live| > 0)
    case SawBuf(t, k) =>
      && t <= s.top && k < |s.bufs|
      && (t == s.top ==> |s.live| > 0 && s.bufs[k].At(t) == s.live[0])
    case SawSlot(t, c) => t <= s.top && (t == s.top ==> |s.live| > 0 && c == s.live[0])
  }

  ghost predicate ThievesOk(s: State)
    requires s.Formed()
  {
    forall i :: i in s.thieves ==> ThiefOk(s, s.thieves[i])
  }

  // Every pushed element is returned, live, or in the owner's hands, with multiplicity.
  // Pushed is returned, live and in the owner's hand.
  ghost predicate Balance(pushed: multiset<Coro>, returned: multiset<Coro>, live: seq<Coro>, flight: multiset<Coro>) {
    pushed == returned + multiset(live) + flight
  }

  ghost predicate Conserved(s: State)
    requires s.Formed()
  {
    Balance(s.pushed, s.returned, s.live, InFlight(s))
  }

  ghost predicate Inv(s: State) {
    s.Formed() && Window(s) && OwnerOk(s) && ThievesOk(s) && Conserved(s)
  }

  lemma PutSame(b: Buf, i: nat, c: Coro)
    requires b.Shaped()
    ensures b.Put(i, c).Shaped() && b.Put(i, c).size == b.size && b.Put(i, c).At(i) == c
  {
    SlotRange(i, b.size);
  }

  lemma PutOther(b: Buf, i: nat, c: Coro, j: nat)
    requires b.Shaped() && i != j && i < j + b.size && j < i + b.size
    ensures b.Put(i, c).Shaped() && b.Put(i, c).At(j) == b.At(j)
  {
    SlotRange(i, b.size);
    SlotRange(j, b.size);
    if i < j { SlotDistinct(i, j, b.size); } else { SlotDistinct(j, i, b.size); }
  }

  // What keeps a thief's hope intact: top only grows, and while it stands still the
  // oldest element stays where and what it is.
  ghost predicate KeepsOldest(s: State, n: State) {
    && n.bufs == s.bufs && n.top >= s.top
    && (n.top == s.top && |s.live| > 0 ==> |n.live| > 0 && n.live[0] == s.live[0])
  }

  lemma ThievesKept(s: State, n: State)
    requires s.Formed() && n.Formed() && ThievesOk(s) && KeepsOldest(s, n) && n.thieves == s.thieves
    ensures ThievesOk(n)
  {
    hide And, Slot, PowerOfTwo, ThiefOk, KeepsOldest;
    forall i | i in n.thieves
      ensures ThiefOk(n, n.thieves[i])
    {
      ThiefKept(s, n, n.thieves[i]);
    }
  }

  lemma ThiefKept(s: State, n: State, h: Thief)
    requires s.Formed() && n.Formed() && ThiefOk(s, h) && KeepsOldest(s, n)
    ensures ThiefOk(n, h)
  {
    hide And, Slot, PowerOfTwo;
  }

  lemma InitInv(s: State)
    requires Init(s)
    ensures Inv(s)
  {
  }

  lemma StartKeeps(s: State, l: Label)
    requires Inv(s) && (l.StartPush? || l.StartPop?)
    ensures Inv(Next(s, l)) && Next(s, l).live == s.live
  {
    hide And, Slot, PowerOfTwo, Balance;
  }

  // ----- the owner's steps -----

  lemma GrowKeeps(s: State)
    requires Inv(s) && s.owner.Grow?
    ensures Inv(GrowStep(s)) && GrowStep(s).live == s.live
  {
    hide And, Slot, PowerOfTwo, Balance;
    var Grow(b, c, t, i, nb) := s.owner;
    TwiceShaped(s.Cur().size);
    if i < b {
      PutSame(nb, i, s.Cur().At(i));
      forall j | t <= j < i
        ensures nb.Put(i, s.Cur().At(i)).At(j) == s.Cur().At(j)
      {
        PutOther(nb, i, s.Cur().At(i), j);
      }
    } else {
      var n := GrowStep(s);
      assert n.Cur() == nb;
      forall k | 0 <= k < |s.live|
        ensures n.live[k] == nb.At(s.top + k)
      {
        assert nb.At(s.top + k) == s.Cur().At(s.top + k);
      }
      forall k: nat | k < |s.bufs|
        ensures n.bufs[k] == s.bufs[k]
      {
      }
    }
  }

  lemma StoreSlotKeeps(s: State)
    requires Inv(s) && s.owner.PushSlot?
    ensures Inv(PushStep(s)) && PushStep(s).live == s.live
  {
    hide And, Slot, PowerOfTwo, Balance;
    var PushSlot(b, c) := s.owner;
    var n := PushStep(s);
    PutSame(s.Cur(), b, c);
    forall k | 0 <= k < |s.live|
      ensures n.Cur().At(s.top + k) == s.live[k]
    {
      PutOther(s.Cur(), b, c, s.top + k);
    }
    forall i | i in s.thieves
      ensures ThiefOk(n, s.thieves[i])
    {
      var h := s.thieves[i];
      if h.SawBuf? && h.t == s.top && h.k == |s.bufs| - 1 {
        PutOther(s.Cur(), b, c, h.t);
      }
    }
  }

  lemma PublishKeeps(s: State)
    requires Inv(s) && s.owner.PushBottom?
    ensures Inv(PushStep(s)) && PushStep(s).live == s.live + [s.owner.c]
  {
    hide And, Slot, PowerOfTwo, Balance;
    PushSum(s.pushed, s.returned, s.live, s.owner.c);
  }

  lemma PushSum(pushed: multiset<Coro>, returned: multiset<Coro>, live: seq<Coro>, c: Coro)
    requires Balance(pushed, returned, live, multiset{})
    ensures Balance(pushed + multiset{c}, returned, live + [c], multiset{})
  {
    assert multiset(live + [c]) == multiset(live) + multiset{c};
  }

  lemma PushReadKeeps(s: State)
    requires Inv(s) && (s.owner.PushTop? || s.owner.PushBuf?)
    ensures Inv(PushStep(s)) && PushStep(s).live == s.live
  {
    hide And, Slot, PowerOfTwo, ThievesOk, Conserved, Window;
    TwiceShaped(s.Cur().size);
    ThievesKept(s, PushStep(s));
    OnlyOwnerMoved(s, PushStep(s));
    LiveSize(s);
  }

  lemma LiveSize(s: State)
    requires Inv(s)
    ensures |s.live| == Back(s) - s.top && s.Formed() && |s.live| <= s.Cur().size
  {
  }

  // A step that only moves the owner's program point, between two points of a push.
  lemma OnlyOwnerMoved(s: State, n: State)
    requires s.Formed() && n == s.(owner := n.owner)
    requires (s.owner.PushTop? || s.owner.PushBuf?) && (n.owner.PushBuf? || n.owner.Grow? || n.owner.PushSlot?)
    requires Window(s) && Conserved(s)
    ensures Window(n) && Conserved(n)
  {
    hide And, Slot, PowerOfTwo;
  }

  lemma TwiceShaped(size: nat)
    requires PowerOfTwo(size)
    ensures PowerOfTwo(2 * size) && size > 0
  {
    assert 2 * size / 2 == size;
  }

  lemma SplitLast(live: seq<Coro>)
    requires |live| > 0
    ensures multiset(live) == multiset(Front(live)) + multiset{live[|live| - 1]}
  {
    assert live == live[..|live| - 1] + [live[|live| - 1]];
  }

  lemma SplitFirst(live: seq<Coro>)
    requires |live| > 0
    ensures multiset(live) == multiset{live[0]} + multiset(Tail(live))
  {
    assert live == [live[0]] + live[1..];
  }

  // Reading top commits a pop of the newest element when it is not also the oldest;
  // pop answers "empty" only when nothing is live.
  lemma PopTopKeeps(s: State)
    requires Inv(s) && s.owner.PopTop?
    ensures var n := PopTopStep(s);
            && Inv(n)
            && (n.live == s.live || (|s.live| > 0 && n.live == Front(s.live)))
            && (n.owner.PopRestore? ==> s.live == [])
  {
    hide And, Slot, PowerOfTwo, ThievesOk, Conserved;
    ThievesKept(s, PopTopStep(s));
    PopTopConserves(s);
  }

  lemma NewestLive(s: State)
    requires s.Formed() && s.owner.PopTop? && Window(s) && s.top < s.owner.pb
    ensures |s.live| > 0 && s.live[|s.live| - 1] == s.Cur().At(s.owner.pb)
  {
    hide Buf.At, Buf.Shaped;
    assert s.live[|s.live| - 1] == s.Cur().At(s.top + (|s.live| - 1));
  }

  lemma PopTopConserves(s: State)
    requires s.Formed() && s.owner.PopTop? && Window(s) && Conserved(s)
    ensures Conserved(PopTopStep(s))
  {
    hide Buf.At, Buf.Shaped, Front, Window, Balance;
    if s.top < s.owner.pb {
      NewestLive(s);
      GiveSum(s.pushed, s.returned, s.live);
    }
  }

  lemma GiveSum(pushed: multiset<Coro>, returned: multiset<Coro>, live: seq<Coro>)
    requires |live| > 0 && Balance(pushed, returned, live, multiset{})
    ensures Balance(pushed, returned, Front(live), multiset{live[|live| - 1]})
  {
    SplitLast(live);
  }

  lemma PopSlotKeeps(s: State)
    requires Inv(s) && s.owner.PopSlot?
    ensures Inv(PopSlotStep(s)) && PopSlotStep(s).live == s.live
  {
    hide And, Slot, PowerOfTwo, ThievesOk, Conserved;
    ThievesKept(s, PopSlotStep(s));
    PopSlotConserves(s);
    assert |s.live| > 0 ==> s.live[0] == s.Cur().At(s.top + 0);
  }

  lemma PopSlotConserves(s: State)
    requires s.Formed() && s.owner.PopSlot? && OwnerOk(s) && Conserved(s)
    ensures Conserved(PopSlotStep(s))
  {
    hide And, Slot, PowerOfTwo;
  }

  lemma PopCasKeeps(s: State)
    requires Inv(s) && s.owner.PopCas?
    ensures var n := PopCasStep(s);
            Inv(n) && (n.live == s.live || (|s.live| > 0 && n.live == Tail(s.live)))
  {
    hide And, Slot, PowerOfTwo, ThievesOk, Conserved, Buf.Shaped;
    ThievesKept(s, PopCasStep(s));
    PopCasConserves(s);
  }

  lemma PopCasConserves(s: State)
    requires s.Formed() && s.owner.PopCas? && Window(s) && OwnerOk(s) && Conserved(s)
    ensures Conserved(PopCasStep(s))
  {
    hide And, Slot, PowerOfTwo, Buf.Shaped, Tail, Balance;
    if s.top == s.owner.t { WinSum(s.pushed, s.returned, s.live); }
  }

  lemma WinSum(pushed: multiset<Coro>, returned: multiset<Coro>, live: seq<Coro>)
    requires |live| > 0 && Balance(pushed, returned, live, multiset{})
    ensures Balance(pushed, returned, Tail(live), multiset{live[0]})
  {
    SplitFirst(live);
  }

  lemma PopRestoreKeeps(s: State)
    requires Inv(s) && s.owner.PopRestore?
    ensures Inv(PopRestoreStep(s)) && PopRestoreStep(s).live == s.live
  {
    hide And, Slot, PowerOfTwo, ThievesOk, Conserved, Buf.Shaped;
    ThievesKept(s, PopRestoreStep(s));
    PopRestoreConserves(s);
  }

  lemma PopRestoreConserves(s: State)
    requires s.Formed() && s.owner.PopRestore? && Conserved(s)
    ensures Conserved(PopRestoreStep(s))
  {
    hide And, Slot, PowerOfTwo, Buf.Shaped, Buf.At, Balance;
    var PopRestore(_, r) := s.owner;
    if r.Some? { HandOverSum(s.pushed, s.returned, s.live, r.value); }
  }

  lemma HandOverSum(pushed: multiset<Coro>, returned: multiset<Coro>, live: seq<Coro>, c: Coro)
    requires Balance(pushed, returned, live, multiset{c})
    ensures Balance(pushed, returned + multiset{c}, live, multiset{})
  {
  }

  lemma PopStartKeeps(s: State)
    requires Inv(s) && (s.owner.PopBuf? || s.owner.PopStore?)
    ensures Inv(OwnerStep(s)) && OwnerStep(s).live == s.live
  {
    hide And, Slot, PowerOfTwo, ThievesOk, Balance;
    ThievesKept(s, OwnerStep(s));
  }

  // ----- a thief's steps -----

  // A thief takes the oldest element exactly when nobody has taken it since the thief read
  // top.
  lemma TakeKeeps(s: State, id: nat)
    requires Inv(s) && id in s.thieves && s.thieves[id].SawSlot?
    ensures var n := TakeStep(s, id);
            && Inv(n) && n.thieves == s.thieves[id := Away]
            && (if s.top != s.thieves[id].t then n.live == s.live && n.returned == s.returned && n.top == s.top
                else |s.live| > 0 && n.live == s.live[1..] && n.returned == s.returned + multiset{s.live[0]})
  {
    hide And, Slot, PowerOfTwo, ThievesOk, Conserved, Window, OwnerOk;
    var n := TakeStep(s, id);
    ThiefAt(s, id);
    OtherThieves(s, n, id);
    TakeWindow(s, id);
    TakeConserves(s, id);
  }

  lemma ThiefAt(s: State, id: nat)
    requires s.Formed() && ThievesOk(s) && id in s.thieves
    ensures ThiefOk(s, s.thieves[id])
  {
  }

  lemma TakeWindow(s: State, id: nat)
    requires s.Formed() && Window(s) && OwnerOk(s)
    requires id in s.thieves && s.thieves[id].SawSlot? && ThiefOk(s, s.thieves[id])
    ensures var n := TakeStep(s, id); n.Formed() && Window(n) && OwnerOk(n)
  {
    hide And, Slot, PowerOfTwo;
    var n := TakeStep(s, id);
    if s.top == s.thieves[id].t {
      assert forall i :: 0 <= i < |n.live| ==> n.live[i] == s.live[i + 1];
    }
  }

  lemma TakeConserves(s: State, id: nat)
    requires s.Formed() && Conserved(s) && id in s.thieves && s.thieves[id].SawSlot? && ThiefOk(s, s.thieves[id])
    ensures var n := TakeStep(s, id); n.Formed() && Conserved(n)
  {
    hide And, Slot, PowerOfTwo, InFlight, Tail, Balance;
    SameInFlight(s, TakeStep(s, id));
    if s.top == s.thieves[id].t { TakeSum(s.pushed, s.returned, s.live, InFlight(s)); }
  }

  lemma SameInFlight(s: State, n: State)
    requires s.Formed() && n.bufs == s.bufs && n.owner == s.owner
    ensures n.Formed() && InFlight(n) == InFlight(s)
  {
    hide And, Slot, PowerOfTwo;
  }

  lemma TakeSum(pushed: multiset<Coro>, returned: multiset<Coro>, live: seq<Coro>, flight: multiset<Coro>)
    requires |live| > 0 && Balance(pushed, returned, live, flight)
    ensures Balance(pushed, returned + multiset{live[0]}, Tail(live), flight)
  {
    SplitFirst(live);
  }

  // Before that it changes nothing, and it gives up only on reading a bottom that is not
  // above the top it read.
  lemma LookKeeps(s: State, id: nat)
    requires Inv(s) && id in s.thieves && !s.thieves[id].SawSlot?
    ensures Inv(ThiefStep(s, id)) && ThiefStep(s, id) == s.(thieves := ThiefStep(s, id).thieves)
    ensures id in ThiefStep(s, id).thieves
    ensures ThiefStep(s, id).thieves[id].Away? <==> s.thieves[id].SawTop? && s.bottom <= s.thieves[id].t
  {
    hide And, Slot, PowerOfTwo, ThievesOk, Conserved;
    var n := ThiefStep(s, id);
    ThiefAt(s, id);
    ThiefLooks(s, id);
    OtherThieves(s, n, id);
    assert Conserved(n) by { SameConserved(s, n); }
  }

  lemma SameConserved(s: State, n: State)
    requires s.Formed() && Conserved(s) && n == s.(thieves := n.thieves)
    ensures Conserved(n)
  {
  }

  lemma ThiefLooks(s: State, id: nat)
    requires s.Formed() && Window(s) && OwnerOk(s)
    requires id in s.thieves && !s.thieves[id].SawSlot? && ThiefOk(s, s.thieves[id])
    ensures var n := ThiefStep(s, id); n.Formed() && ThiefOk(n, n.thieves[id])
  {
    hide And, Slot, PowerOfTwo;
    assert |s.live| > 0 ==> s.live[0] == s.Cur().At(s.top + 0);
  }

  lemma OtherThieves(s: State, n: State, id: nat)
    requires s.Formed() && n.Formed() && ThievesOk(s) && KeepsOldest(s, n)
    requires id in s.thieves && id in n.thieves && n.thieves == s.thieves[id := n.thieves[id]]
    requires ThiefOk(n, n.thieves[id])
    ensures ThievesOk(n)
  {
    hide And, Slot, PowerOfTwo, ThiefOk, KeepsOldest;
    forall i | i in n.thieves
      ensures ThiefOk(n, n.thieves[i])
    {
      if i != id { ThiefKept(s, n, s.thieves[i]); }
    }
  }

  // ----- calls that nobody disturbs -----

  // n accesses of the owner, and n of one thief.
  ghost function OwnerRuns(s: State, n: nat): State
    decreases n
  {
    if n == 0 || !CanMove(s) then s else OwnerRuns(OwnerStep(s), n - 1)
  }

  ghost function ThiefRuns(s: State, id: nat, n: nat): State
    decreases n
  {
    if n == 0 || !CanMove(s) || id !in s.thieves then s else ThiefRuns(ThiefStep(s, id), id, n - 1)
  }

  ghost predicate Pushing(o: Owner, c: Coro) {
    match o
    case PushTop(_, d) => d == c
    case PushBuf(_, d, _) => d == c
    case Grow(_, d, _, _, _) => d == c
    case PushSlot(_, d) => d == c
    case PushBottom(_, d) => d == c
    case _ => false
  }

  ghost function Stage(o: Owner): nat {
    match o
    case PushTop(_, _) => 5
    case PushBuf(_, _, _) => 4
    case Grow(_, _, _, _, _) => 3
    case PushSlot(_, _) => 2
    case _ => 1
  }

  ghost function ToCopy(o: Owner): nat { if o.Grow? && o.i <= o.b then o.b - o.i else 0 }

  // One access of a push: the last one appends the element, the others bring it nearer.
  lemma PushAdvances(s: State, c: Coro)
    requires Inv(s) && Pushing(s.owner, c)
    ensures var n := OwnerStep(s);
            && Inv(n) && n.thieves == s.thieves && n.returned == s.returned && n.top == s.top
            && (if s.owner.PushBottom? then
                  n.owner == Idle && n.live == s.live + [c] && n.pushed == s.pushed + multiset{c}
                else
                  && Pushing(n.owner, c) && n.live == s.live && n.pushed == s.pushed
                  && (Stage(n.owner) < Stage(s.owner)
                      || (Stage(n.owner) == Stage(s.owner) && ToCopy(n.owner) < ToCopy(s.owner))))
  {
    hide And, Slot, PowerOfTwo, Window, ThievesOk, Conserved;
    match s.owner
    case Grow(_, _, _, _, _) => GrowKeeps(s);
    case PushTop(_, _) => PushReadKeeps(s);
    case PushBuf(_, _, _) => PushReadKeeps(s);
    case PushSlot(_, _) => StoreSlotKeeps(s);
    case _ => PublishKeeps(s);
  }

  lemma {:induction false} PushEnds(s: State, c: Coro) returns (n: nat)
    requires Inv(s) && Pushing(s.owner, c)
    ensures var t := OwnerRuns(s, n);
            && Inv(t) && t.owner == Idle && t.live == s.live + [c] && t.pushed == s.pushed + multiset{c}
            && t.returned == s.returned && t.thieves == s.thieves
    decreases Stage(s.owner), ToCopy(s.owner)
  {
    hide Inv, OwnerStep, Pushing, Stage, ToCopy;
    PushAdvances(s, c);
    Movable(s);
    if s.owner.PushBottom? {
      n := 1;
      assert OwnerRuns(OwnerStep(s), 0) == OwnerStep(s);
    } else {
      n := PushEnds(OwnerStep(s), c);
      n := n + 1;
    }
  }

  lemma Movable(s: State)
    requires Inv(s)
    ensures CanMove(s)
  {
    hide And, Slot, PowerOfTwo;
  }

  // A push that runs alone appends its element, whatever thieves are halfway through theirs.
  lemma PushAlone(s: State, c: Coro) returns (n: nat)
    requires Inv(s) && s.owner == Idle
    ensures CanMove(s)
    ensures var t := OwnerRuns(Next(s, StartPush(c)), n);
            && Inv(t) && t.owner == Idle && t.live == s.live + [c] && t.pushed == s.pushed + multiset{c}
            && t.returned == s.returned && t.thieves == s.thieves
  {
    hide And, Slot, PowerOfTwo, Window, ThievesOk, Conserved, OwnerRuns;
    Movable(s);
    StartKeeps(s, StartPush(c));
    n := PushEnds(Next(s, StartPush(c)), c);
  }

  // A pop that runs alone returns the newest element, or nothing from an empty deque.
  lemma PopAlone(s: State) returns (n: nat)
    requires Inv(s) && s.owner == Idle
    ensures CanMove(s)
    ensures var t := OwnerRuns(Next(s, StartPop), n);
            && Inv(t) && t.owner == Idle && t.pushed == s.pushed && t.thieves == s.thieves
            && if |s.live| == 0 then t.live == [] && t.returned == s.returned
               else
                 && t.live == s.live[..|s.live| - 1]
                 && t.returned == s.returned + multiset{s.live[|s.live| - 1]}
  {
    hide And, Slot, PowerOfTwo, ThievesOk, Conserved;
    Movable(s);
    StartKeeps(s, StartPop);
    var s1 := Next(s, StartPop);
    Movable(s1);
    PopStartKeeps(s1);
    var s2 := OwnerStep(s1);
    Movable(s2);
    PopStartKeeps(s2);
    var s3 := OwnerStep(s2);
    var m := PopFromTop(s3);
    n := m + 2;
    assert OwnerRuns(s2, m + 1) == OwnerRuns(s3, m);
    assert OwnerRuns(s1, m + 2) == OwnerRuns(s2, m + 1);
  }

  lemma PopFromTop(s: State) returns (n: nat)
    requires Inv(s) && s.owner.PopTop?
    ensures var t := OwnerRuns(s, n);
            && Inv(t) && t.owner == Idle && t.pushed == s.pushed && t.thieves == s.thieves
            && if |s.live| == 0 then t.live == [] && t.returned == s.returned
               else
                 && t.live == s.live[..|s.live| - 1]
                 && t.returned == s.returned + multiset{s.live[|s.live| - 1]}
  {
    hide And, Slot, PowerOfTwo, ThievesOk, Conserved;
    Movable(s);
    PopTopKeeps(s);
    var s1 := OwnerStep(s);
    Movable(s1);
    if s1.owner.PopRestore? {
      PopRestoreKeeps(s1);
      n := 2;
      assert OwnerRuns(OwnerStep(s1), 0) == OwnerStep(s1);
      assert OwnerRuns(s1, 1) == OwnerStep(s1);
    } else {
      PopSlotKeeps(s1);
      var s2 := OwnerStep(s1);
      Movable(s2);
      if s2.owner == Idle {
        NewestLive(s);
        n := 2;
        assert OwnerRuns(s2, 0) == s2;
        assert OwnerRuns(s1, 1) == s2;
      } else {
        var m := PopLast(s2);
        n := m + 2;
        assert OwnerRuns(s1, m + 1) == OwnerRuns(s2, m);
      }
    }
  }

  // The last element, with nobody else after it.
  lemma PopLast(s: State) returns (n: nat)
    requires Inv(s) && s.owner.PopCas? && s.top == s.owner.t
    ensures |s.live| == 1
    ensures var t := OwnerRuns(s, n);
            && Inv(t) && t.owner == Idle && t.pushed == s.pushed && t.thieves == s.thieves
            && t.live == [] && t.returned == s.returned + multiset{s.live[0]}
  {
    hide And, Slot, PowerOfTwo, ThievesOk, Conserved;
    Movable(s);
    PopCasKeeps(s);
    var s1 := OwnerStep(s);
    Movable(s1);
    PopRestoreKeeps(s1);
    n := 2;
    assert OwnerRuns(OwnerStep(s1), 0) == OwnerStep(s1);
    assert OwnerRuns(s1, 1) == OwnerStep(s1);
  }

  // A steal that runs alone takes the oldest element exactly when bottom is above top,
  // which it is whenever the owner is idle and the deque is not empty.
  lemma StealAlone(s: State, id: nat) returns (n: nat)
    requires Inv(s) && id in s.thieves && s.thieves[id] == Away
    ensures var t := ThiefRuns(s, id, n);
            && Inv(t) && t.owner == s.owner && t.pushed == s.pushed && t.thieves == s.thieves
            && if s.top >= s.bottom then t.live == s.live && t.returned == s.returned
               else |s.live| > 0 && t.live == s.live[1..] && t.returned == s.returned + multiset{s.live[0]}
    ensures s.owner == Idle ==> (s.top < s.bottom <==> |s.live| > 0)
  {
    hide And, Slot, PowerOfTwo, ThievesOk, Conserved;
    Movable(s);
    LookKeeps(s, id);
    var s1 := ThiefStep(s, id);
    Movable(s1);
    LookKeeps(s1, id);
    var s2 := ThiefStep(s1, id);
    if s.top >= s.bottom {
      n := 2;
      assert ThiefRuns(s2, id, 0) == s2;
      assert ThiefRuns(s1, id, 1) == s2;
      assert s2.thieves == s.thieves;
    } else {
      var m := StealOn(s2, id);
      n := m + 2;
      assert ThiefRuns(s1, id, m + 1) == ThiefRuns(s2, id, m);
      assert s2.thieves[id := Away] == s.thieves;
    }
  }

  lemma StealOn(s: State, id: nat) returns (n: nat)
    requires Inv(s) && id in s.thieves && s.thieves[id] == SawBottom(s.top)
    ensures |s.live| > 0
    ensures var t := ThiefRuns(s, id, n);
            && Inv(t) && t.owner == s.owner && t.pushed == s.pushed && t.thieves == s.thieves[id := Away]
            && t.live == s.live[1..] && t.returned == s.returned + multiset{s.live[0]}
  {
    hide And, Slot, PowerOfTwo, ThievesOk, Conserved;
    Movable(s);
    LookKeeps(s, id);
    var s1 := ThiefStep(s, id);
    Movable(s1);
    LookKeeps(s1, id);
    var s2 := ThiefStep(s1, id);
    Movable(s2);
    TakeKeeps(s2, id);
    n := 3;
    var s3 := ThiefStep(s2, id);
    assert ThiefRuns(s3, id, 0) == s3;
    assert ThiefRuns(s2, id, 1) == s3;
    assert ThiefRuns(s1, id, 2) == s3;
    assert s3.thieves == s.thieves[id := Away];
  }

  // ----- every run -----

  // The abstract effect of a step on the content, oldest first: nothing, append at the
  // back, take the oldest, or (the owner alone) take the newest.
  ghost predicate DequeStep(s: State, n: State, owner: bool) {
    || (n.live == s.live && n.pushed == s.pushed)
    || (owner && exists c :: n.live == s.live + [c] && n.pushed == s.pushed + multiset{c})
    || (|s.live| > 0 && n.live == Tail(s.live) && n.pushed == s.pushed)
    || (owner && |s.live| > 0 && n.live == Front(s.live) && n.pushed == s.pushed)
  }

  lemma OwnerKeeps(s: State)
    requires Inv(s)
    ensures Inv(OwnerStep(s)) && DequeStep(s, OwnerStep(s), true)
  {
    hide And, Slot, PowerOfTwo, Inv, Window, ThievesOk, Conserved;
    match s.owner
    case Grow(_, _, _, _, _) => GrowKeeps(s);
    case PushTop(_, _) => PushReadKeeps(s);
    case PushBuf(_, _, _) => PushReadKeeps(s);
    case PushSlot(_, _) => StoreSlotKeeps(s);
    case PushBottom(_, _) => PublishKeeps(s);
    case PopBuf(_) => PopStartKeeps(s);
    case PopStore(_) => PopStartKeeps(s);
    case PopTop(_) => PopTopKeeps(s);
    case PopSlot(_, _) => PopSlotKeeps(s);
    case PopCas(_, _, _) => PopCasKeeps(s);
    case PopRestore(_, _) => PopRestoreKeeps(s);
    case Idle =>
  }

  lemma StepKeeps(s: State, l: Label)
    requires Inv(s)
    ensures Inv(Next(s, l)) && DequeStep(s, Next(s, l), !l.Steal?)
  {
    hide And, Slot, PowerOfTwo, Window, OwnerOk, ThievesOk, Conserved, OwnerStep, ThiefStep;
    match l
    case Continue => OwnerKeeps(s);
    case Steal(id) =>
      if id in s.thieves { StealKeeps(s, id); }
    case _ => StartKeeps(s, l);
  }

  lemma StealKeeps(s: State, id: nat)
    requires Inv(s) && id in s.thieves
    ensures Inv(ThiefStep(s, id)) && DequeStep(s, ThiefStep(s, id), false)
  {
    hide And, Slot, PowerOfTwo, Inv, Window, OwnerOk, ThievesOk, Conserved;
    if s.thieves[id].SawSlot? { TakeKeeps(s, id); } else { LookKeeps(s, id); }
  }

  ghost predicate CanMove(s: State) { s.Formed() && (s.owner.Grow? ==> s.owner.nb.Shaped()) }

  ghost predicate Moves(s: State, l: Label, n: State) { CanMove(s) && n == Next(s, l) }

  // The states run[0], run[1], ... that the labels ls lead through.
  ghost predicate Run(run: seq<State>, ls: seq<Label>) {
    && |run| == |ls| + 1 && Init(run[0])
    && forall i :: 0 <= i < |ls| ==> Moves(run[i], ls[i], run[i + 1])
  }

  lemma {:induction false} RunInv(run: seq<State>, ls: seq<Label>, k: nat)
    requires Run(run, ls) && k < |run|
    ensures Inv(run[k])
  {
    hide Init, Next, Window, OwnerOk, ThievesOk, Conserved, State.Formed;
    if k == 0 {
      InitInv(run[0]);
    } else {
      RunInv(run, ls, k - 1);
      StepKeeps(run[k - 1], ls[k - 1]);
      assert Moves(run[k - 1], ls[k - 1], run[k - 1 + 1]);
    }
  }

  // In every interleaving of one owner and any number of thieves, what was pushed is
  // exactly what was returned plus the live window of the current buffer, oldest first,
  // plus at most the one element the owner is about to return; and every step acts on the
  // live window as one operation of a deque, or not at all.
  lemma NothingLostNothingDoubled(run: seq<State>, ls: seq<Label>, k: nat)
    requires Run(run, ls) && k < |run|
    ensures var r := run[k];
            && CanMove(r)
            && r.pushed == r.returned + multiset(r.live) + InFlight(r)
            && |r.live| == Back(r) - r.top
            && (forall i :: 0 <= i < |r.live| ==> r.live[i] == r.Cur().At(r.top + i))
            && (r.owner == Idle ==> |r.live| == r.bottom - r.top && r.pushed == r.returned + multiset(r.live))
    ensures k < |ls| ==> DequeStep(run[k], run[k + 1], !ls[k].Steal?)
  {
    hide And, Slot, PowerOfTwo, Init, Next, DequeStep;
    RunInv(run, ls, k);
    if k < |ls| {
      StepKeeps(run[k], ls[k]);
      assert Moves(run[k], ls[k], run[k + 1]);
    }
  }
}
