// Bounded channels (runtime/channel.c): one locked attempt of send, receive, try-receive and
// close on the ring buffer, refining a plain queue, and the system of senders and receivers
// built from such attempts.
module Channels {
  import opened Bits
  import opened Options
  import opened Capacities

  type Id = nat

  lemma FitsWord()
    ensures 64 <= Pow(63) < Pow(64)
  {
    hide Pow;
    assert Pow(6) == 64 by { PowSix(); }
    PowGrows(6, 63);
    PowStep(63);
  }

  lemma PowSix()
    ensures Pow(6) == 64
  {
  }

  // The capacity jinn_chan_create settles on: zero asks for 64, and next_pow2 has the last word.
  function Granted(requested: nat): nat { NextPow2(if requested == 0 then 64 else requested) }

  // Every request up to 2^63 gets a power of two at least as large; any larger one gets 0.
  lemma GrantedMeaning(requested: nat)
    requires requested < Pow(64)
    ensures requested <= Pow(63) <==> Granted(requested) > 0
    ensures requested <= Pow(63) ==> PowerOfTwo(Granted(requested)) && Granted(requested) >= requested
    ensures 0 < requested <= Pow(63) ==>
              forall p: nat :: PowerOfTwo(p) && p >= requested ==> Granted(requested) <= p
    ensures requested == 0 ==> Granted(requested) == 64
  {
    hide PowerOfTwo, Pow, NextPow2;
    FitsWord();
    RoundsUp(if requested == 0 then 64 else requested);
    if requested == 0 { SixtyFour(); }
    if requested <= 1 { SmallRequests(); }
    if 0 < requested <= Pow(63) {
      forall p: nat | PowerOfTwo(p) && p >= requested ensures Granted(requested) <= p {
        if p < Granted(requested) { PowersApart(p, Granted(requested)); }
      }
    }
  }

  lemma SixtyFour()
    ensures PowerOfTwo(64) && NextPow2(64) == 64
  {
    hide Pow, NextPow2;
    FitsWord();
    RoundsUp(64);
    assert PowerOfTwo(64) by { assert PowerOfTwo(4) && PowerOfTwo(16); }
    if NextPow2(64) > 64 { PowersApart(64, NextPow2(64)); }
  }

  // Of two powers of two the larger is at least twice the smaller.
  lemma {:induction false} PowersApart(p: nat, r: nat)
    requires PowerOfTwo(p) && PowerOfTwo(r) && p < r
    ensures 2 * p <= r
  {
    if p > 1 { PowersApart(p / 2, r / 2); }
  }

  // A channel as a queue of items with two queues of parked coroutines, oldest first.
  datatype Chan<T> = Chan(capacity: nat, items: seq<T>, sendq: seq<Id>, recvq: seq<Id>, closed: bool)

  datatype SendResult = Sent(woken: Option<Id>) | Parked | Refused | Busy

  datatype RecvResult<T> = Got(item: T, woken: Option<Id>) | Waiting | Ended | Spin

  function First(q: seq<Id>): Option<Id> { if |q| == 0 then None else Some(q[0]) }

  function Rest(q: seq<Id>): seq<Id> { if |q| == 0 then [] else q[1..] }

  // One locked attempt of a sender; `coro` tells a coroutine from a plain thread, which
  // spins instead of parking.
  function SendAttempt<T>(c: Chan<T>, self: Id, coro: bool, x: T): (Chan<T>, SendResult) {
    if c.closed then (c, Refused)
    else if |c.items| < c.capacity then
      (c.(items := c.items + [x], recvq := Rest(c.recvq)), Sent(First(c.recvq)))
    else if !coro then (c, Busy)
    else (c.(sendq := c.sendq + [self]), Parked)
  }

  // One locked attempt of a receiver; without `park` it is a try-receive.
  function RecvAttempt<T>(c: Chan<T>, self: Id, park: bool): (Chan<T>, RecvResult<T>) {
    if |c.items| > 0 then
      (c.(items := c.items[1..], sendq := Rest(c.sendq)), Got(c.items[0], First(c.sendq)))
    else if c.closed then (c, Ended)
    else if !park then (c, Spin)
    else (c.(recvq := c.recvq + [self]), Waiting)
  }

  // The drain under the lock when a channel closes: everyone parked, receivers first.
  function Drain<T>(c: Chan<T>): (Chan<T>, seq<Id>) {
    (c.(sendq := [], recvq := []), c.recvq + c.sendq)
  }

  class Channel<T(0)> {
    const capacity: nat
    const buffer: array<T>
    var head: nat
    var tail: nat
    var closed: bool
    var sendq: seq<Id>
    var recvq: seq<Id>

    ghost predicate Valid()
      reads this
    {
      (capacity > 0 ==> PowerOfTwo(capacity)) && buffer.Length == capacity && head <= tail <= head + capacity
    }

    // The item at a position of the stream, through the mask.
    ghost function Item(i: nat): T
      requires Valid() && capacity > 0
      reads this, buffer
    {
      SlotRange(i, capacity);
      buffer[Slot(i, capacity)]
    }

    ghost function Items(): (s: seq<T>)
      requires Valid()
      reads this, buffer
      ensures |s| == tail - head && forall i :: 0 <= i < |s| ==> s[i] == Item(head + i)
    {
      seq(tail - head, i requires 0 <= i < tail - head reads this, buffer requires Valid() => Item(head + i))
    }

    ghost function Abs(): Chan<T>
      requires Valid()
      reads this, buffer
    {
      Chan(capacity, Items(), sendq, recvq, closed)
    }

    // jinn_chan_create, for any request a machine word can hold.
    constructor (requested: nat)
      requires requested < Pow(64)
      ensures Valid() && fresh(buffer) && Abs() == Chan(Granted(requested), [], [], [], false)
      ensures requested <= Pow(63) <==> capacity > 0
      ensures capacity > 0 ==> capacity >= (if requested == 0 then 64 else requested)
    {
      hide PowerOfTwo, Pow, NextPow2;
      FitsWord();
      GrantedMeaning(if requested == 0 then 64 else requested);
      capacity := Granted(requested);
      buffer := new T[Granted(requested)];
      head, tail, closed, sendq, recvq := 0, 0, false, [], [];
    }

    // waitq_pop_wakeable without select nodes
    static method Pop(q: seq<Id>) returns (first: Option<Id>, rest: seq<Id>)
      ensures first == First(q) && rest == Rest(q)
    {
      if |q| == 0 { return None, []; }
      return Some(q[0]), q[1..];
    }

    // The locked part of one round of jinn_chan_send.
    method Send(self: Id, coro: bool, x: T) returns (r: SendResult)
      requires Valid()
      modifies this, buffer
      ensures Valid() && var a := SendAttempt(old(Abs()), self, coro, x); Abs() == a.0 && r == a.1
      ensures r.Refused? <==> old(closed)
      ensures r.Sent? <==> !old(closed) && old(tail - head) < capacity
      ensures r.Parked? ==> coro && sendq == old(sendq) + [self]
      ensures r.Busy? ==> !coro
      ensures Items() == if r.Sent? then old(Items()) + [x] else old(Items())
      ensures r.Sent? ==>
                && r.woken == (if old(recvq) == [] then None else Some(old(recvq)[0]))
                && recvq == (if old(recvq) == [] then [] else old(recvq)[1..])
    {
      hide PowerOfTwo, Slot;
      if closed { return Refused; }
      if tail - head < capacity {
        var idx := Slot(tail, capacity);
        SlotRange(tail, capacity);
        ghost var before := Items();
        OthersElsewhere(tail);
        buffer[idx] := x;
        tail := tail + 1;
        assert Items() == before + [x];
        var waiter, rest := Pop(recvq);
        recvq := rest;
        return Sent(waiter);
      }
      if !coro { return Busy; }
      sendq := sendq + [self];
      assert Items() == old(Items());
      return Parked;
    }

    // The locked part of one round of jinn_chan_recv, or with `park` off of
    // jinn_chan_try_recv.
    method Recv(self: Id, park: bool) returns (r: RecvResult<T>)
      requires Valid()
      modifies this`head, this`sendq, this`recvq
      ensures Valid() && var a := RecvAttempt(old(Abs()), self, park); Abs() == a.0 && r == a.1
      ensures r.Got? <==> old(head) < old(tail)
      ensures r.Ended? <==> old(head) == old(tail) && closed
      ensures r.Spin? ==> !park
      ensures r.Waiting? ==> park && recvq == old(recvq) + [self]
      ensures r.Got? ==>
                && old(Items()) == [r.item] + Items()
                && r.woken == (if old(sendq) == [] then None else Some(old(sendq)[0]))
                && sendq == (if old(sendq) == [] then [] else old(sendq)[1..])
      ensures !r.Got? ==> Items() == old(Items())
    {
      hide PowerOfTwo, Slot;
      if head < tail {
        var idx := Slot(head, capacity);
        SlotRange(head, capacity);
        var item := buffer[idx];
        ghost var before := Items();
        head := head + 1;
        assert Items() == before[1..];
        var waiter, rest := Pop(sendq);
        sendq := rest;
        return Got(item, waiter);
      }
      if closed { return Ended; }
      if !park { return Spin; }
      recvq := recvq + [self];
      assert Items() == old(Items());
      return Waiting;
    }

    // jinn_chan_close: mark, then wake everyone, each receiver before any sender.
    method Close() returns (woken: seq<Id>)
      requires Valid()
      modifies this`closed, this`sendq, this`recvq
      ensures Valid() && var a := Drain(old(Abs()).(closed := true)); Abs() == a.0 && woken == a.1
      ensures closed && woken == old(recvq) + old(sendq) && recvq == [] && sendq == [] && Items() == old(Items())
    {
      closed := true;
      woken := [];
      while |recvq| + |sendq| > 0
        invariant Valid() && closed && head == old(head) && tail == old(tail)
        invariant woken + recvq + sendq == old(recvq) + old(sendq)
      {
        var c, rest := Pop(recvq);
        recvq := rest;
        if c.None? {
          c, rest := Pop(sendq);
          sendq := rest;
        }
        woken := woken + [c.value];
      }
      assert Items() == old(Items());
    }

    // Storing at the tail overwrites no item still in the window.
    lemma OthersElsewhere(t: nat)
      requires Valid() && t == tail < head + capacity
      ensures forall i :: head <= i < t ==> Slot(i, capacity) != Slot(t, capacity)
    {
      hide PowerOfTwo, Slot;
      forall i | head <= i < t ensures Slot(i, capacity) != Slot(t, capacity) {
        SlotDistinct(i, t, capacity);
      }
    }
  }
}

// Any number of coroutines and threads sending and receiving on one channel: each step is
// one locked attempt, and a woken coroutine runs its loop again at any later time.
module Traffic {
  import opened Capacities
  import opened Channels
  import opened Options

  datatype Phase<T> =
    | Out
    | Sending(item: T) | SendParked(item: T) | SendWoken(item: T)
    | Receiving | RecvParked | RecvWoken

  // What was accepted and what was delivered, in order; `drained` once close has emptied
  // the wait queues.
  datatype State<T> = State(
    chan: Chan<T>, phase: map<Id, Phase<T>>, sent: seq<T>, delivered: seq<T>, drained: bool)

  ghost function WokenSenders<T>(phase: map<Id, Phase<T>>): set<Id> {
    set id | id in phase && phase[id].SendWoken?
  }

  ghost function WokenReceivers<T>(phase: map<Id, Phase<T>>): set<Id> {
    set id | id in phase && phase[id].RecvWoken?
  }

  function Wake<T>(phase: map<Id, Phase<T>>, id: Id): map<Id, Phase<T>> {
    if id !in phase then phase
    else match phase[id]
      case SendParked(x) => phase[id := SendWoken(x)]
      case RecvParked => phase[id := RecvWoken]
      case _ => phase
  }

  function WakeOne<T>(phase: map<Id, Phase<T>>, id: Option<Id>): map<Id, Phase<T>> {
    if id.None? then phase else Wake(phase, id.value)
  }

  function WakeAll<T>(phase: map<Id, Phase<T>>, ids: seq<Id>): map<Id, Phase<T>> {
    if |ids| == 0 then phase else Wake(WakeAll(phase, ids[..|ids| - 1]), ids[|ids| - 1])
  }

  ghost predicate Begin<T>(s: State<T>, t: State<T>, id: Id, p: Phase<T>) {
    && id in s.phase && s.phase[id].Out? && (p.Sending? || p.Receiving?)
    && t == s.(phase := s.phase[id := p])
  }

  // One locked round of jinn_chan_send.
  ghost predicate SendStep<T>(s: State<T>, t: State<T>, id: Id, coro: bool) {
    && id in s.phase && (s.phase[id].Sending? || s.phase[id].SendWoken?)
    && (s.phase[id].SendWoken? ==> coro)
    && var x := s.phase[id].item;
       var (c, r) := SendAttempt(s.chan, id, coro, x);
       match r
       case Sent(woken) =>
         t == s.(chan := c, sent := s.sent + [x], phase := WakeOne(s.phase[id := Out], woken))
       case Refused => t == s.(chan := c, phase := s.phase[id := Out])
       case Busy => t == s.(chan := c)
       case Parked => t == s.(chan := c, phase := s.phase[id := SendParked(x)])
  }

  // One locked round of jinn_chan_recv, or jinn_chan_try_recv with `park` off.
  ghost predicate RecvStep<T>(s: State<T>, t: State<T>, id: Id, park: bool) {
    && id in s.phase && (s.phase[id].Receiving? || s.phase[id].RecvWoken?)
    && (s.phase[id].RecvWoken? ==> park)
    && var (c, r) := RecvAttempt(s.chan, id, park);
       match r
       case Got(x, woken) =>
         t == s.(chan := c, delivered := s.delivered + [x], phase := WakeOne(s.phase[id := Out], woken))
       case Ended => t == s.(chan := c, phase := s.phase[id := Out])
       case Spin => t == s.(chan := c, phase := t.phase) && (t.phase == s.phase || t.phase == s.phase[id := Out])
       case Waiting => t == s.(chan := c, phase := s.phase[id := RecvParked])
  }

  // jinn_chan_close: the flag first, the drain under the lock later.
  ghost predicate CloseFlag<T>(s: State<T>, t: State<T>) {
    t == s.(chan := s.chan.(closed := true))
  }

  ghost predicate CloseDrain<T>(s: State<T>, t: State<T>) {
    && s.chan.closed
    && var (c, woken) := Drain(s.chan);
       t == s.(chan := c, phase := WakeAll(s.phase, woken), drained := true)
  }

  ghost predicate Step<T(!new)>(s: State<T>, t: State<T>) {
    || (exists id, p :: Begin(s, t, id, p))
    || (exists id, coro :: SendStep(s, t, id, coro))
    || (exists id, park :: RecvStep(s, t, id, park))
    || CloseFlag(s, t) || CloseDrain(s, t)
  }

  ghost predicate Init<T>(s: State<T>) {
    && s.chan.items == [] && s.chan.sendq == [] && s.chan.recvq == [] && !s.chan.closed
    && s.sent == [] && s.delivered == [] && !s.drained
    && forall id :: id in s.phase ==> s.phase[id].Out?
  }

  ghost predicate Run<T(!new)>(run: seq<State<T>>) {
    && |run| > 0 && Init(run[0])
    && forall i :: 0 <= i < |run| - 1 ==> Step(run[i], run[i + 1])
  }

  // ----- the invariant -----

  ghost predicate NoDup(q: seq<Id>) {
    forall i, j :: 0 <= i < j < |q| ==> q[i] != q[j]
  }

  // The wait queues list exactly the parked coroutines, each once.
  ghost predicate Queued<T>(s: State<T>) {
    && NoDup(s.chan.sendq) && NoDup(s.chan.recvq)
    && (forall id :: id in s.chan.sendq <==> id in s.phase && s.phase[id].SendParked?)
    && (forall id :: id in s.chan.recvq <==> id in s.phase && s.phase[id].RecvParked?)
  }

  ghost predicate Inv<T>(s: State<T>) {
    && |s.chan.items| <= s.chan.capacity
    && s.sent == s.delivered + s.chan.items
    && Queued(s)
    && (s.drained ==> s.chan.closed && s.chan.sendq == [] && s.chan.recvq == [])
    && (!s.chan.closed && s.chan.sendq != [] ==>
          s.chan.capacity - |s.chan.items| <= |WokenSenders(s.phase)|)
    && (!s.chan.closed && s.chan.recvq != [] ==> |s.chan.items| <= |WokenReceivers(s.phase)|)
  }

  function One(b: bool): nat { if b then 1 else 0 }

  // How changing one coroutine's phase changes the numbers of woken senders and receivers.
  lemma Rephased<T>(phase: map<Id, Phase<T>>, id: Id, p: Phase<T>)
    requires id in phase
    ensures |WokenSenders(phase[id := p])|
              == |WokenSenders(phase)| - One(phase[id].SendWoken?) + One(p.SendWoken?)
    ensures |WokenReceivers(phase[id := p])|
              == |WokenReceivers(phase)| - One(phase[id].RecvWoken?) + One(p.RecvWoken?)
  {
    WokenSets(phase, id, p);
    hide WokenSenders, WokenReceivers;
    Sizes(WokenSenders(phase), id);
    Sizes(WokenReceivers(phase), id);
  }

  lemma WokenSets<T>(phase: map<Id, Phase<T>>, id: Id, p: Phase<T>)
    requires id in phase
    ensures var q := phase[id := p];
            && WokenSenders(q) == (if p.SendWoken? then WokenSenders(phase) + {id} else WokenSenders(phase) - {id})
            && WokenReceivers(q)
               == (if p.RecvWoken? then WokenReceivers(phase) + {id} else WokenReceivers(phase) - {id})
            && (phase[id].SendWoken? <==> id in WokenSenders(phase))
            && (phase[id].RecvWoken? <==> id in WokenReceivers(phase))
  {
  }

  lemma Sizes(s: set<Id>, id: Id)
    ensures |s + {id}| == |s| + One(id !in s) && |s - {id}| == |s| - One(id in s)
  {
    if id in s {
      assert s + {id} == s;
      assert s == (s - {id}) + {id};
    } else {
      assert s - {id} == s;
    }
  }

  lemma BeginKeeps<T>(s: State<T>, t: State<T>, id: Id, p: Phase<T>)
    requires Inv(s) && Begin(s, t, id, p)
    ensures Inv(t)
  {
    Rephased(s.phase, id, p);
  }

  // The oldest of a queue is woken, or nobody if it is empty.
  lemma WakeFirst<T>(q: seq<Id>, phase: map<Id, Phase<T>>, woken: Phase<T>)
    requires NoDup(q) && (|q| > 0 ==> q[0] in phase && Wake(phase, q[0]) == phase[q[0] := woken])
    ensures WakeOne(phase, First(q)) == if |q| > 0 then phase[q[0] := woken] else phase
    ensures NoDup(Rest(q)) && forall id :: id in Rest(q) <==> id in q && id != q[0]
  {
    if |q| > 0 { Popped(q); }
  }

  // A success leaves the caller out and wakes at most the head of the other queue.
  lemma SuccessQueued<T>(s: State<T>, t: State<T>, id: Id, sent: bool)
    requires Queued(s) && id in s.phase && !s.phase[id].SendParked? && !s.phase[id].RecvParked?
    requires sent ==> t.chan.sendq == s.chan.sendq && t.chan.recvq == Rest(s.chan.recvq)
                      && t.phase == WakeOne(s.phase[id := Out], First(s.chan.recvq))
    requires !sent ==> t.chan.recvq == s.chan.recvq && t.chan.sendq == Rest(s.chan.sendq)
                       && t.phase == WakeOne(s.phase[id := Out], First(s.chan.sendq))
    ensures Queued(t)
  {
    var phase := s.phase[id := Out];
    if sent {
      WakeFirst(s.chan.recvq, phase, RecvWoken);
    } else if |s.chan.sendq| > 0 {
      assert s.chan.sendq[0] in s.chan.sendq;
      WakeFirst(s.chan.sendq, phase, SendWoken(phase[s.chan.sendq[0]].item));
    }
  }

  // How a success changes the number of woken senders and receivers.
  lemma SuccessCounts<T>(s: State<T>, id: Id, q: seq<Id>, sent: bool)
    requires Queued(s) && id in s.phase && !s.phase[id].SendParked? && !s.phase[id].RecvParked?
    requires q == if sent then s.chan.recvq else s.chan.sendq
    ensures var phase := WakeOne(s.phase[id := Out], First(q));
            var senders, receivers := |WokenSenders(s.phase)|, |WokenReceivers(s.phase)|;
            && |WokenSenders(phase)|
               == senders - One(s.phase[id].SendWoken?) + One(!sent && |q| > 0)
            && |WokenReceivers(phase)|
               == receivers - One(s.phase[id].RecvWoken?) + One(sent && |q| > 0)
  {
    hide WokenSenders, WokenReceivers;
    Rephased(s.phase, id, Out);
    if |q| > 0 {
      assert q[0] in q;
      var phase := s.phase[id := Out];
      Rephased(phase, q[0], if sent then RecvWoken else SendWoken(phase[q[0]].item));
    }
  }

  lemma SendKeeps<T>(s: State<T>, t: State<T>, id: Id, coro: bool)
    requires Inv(s) && SendStep(s, t, id, coro)
    ensures Inv(t)
  {
    hide WokenSenders, WokenReceivers, WakeOne, Queued;
    Unparked(s, id);
    var x := s.phase[id].item;
    var r := SendAttempt(s.chan, id, coro, x).1;
    match r
    case Sent(woken) =>
      SuccessQueued(s, t, id, true);
      SuccessCounts(s, id, s.chan.recvq, true);
      Associated(s.delivered, s.chan.items, x);
    case Refused =>
      LeaveQueued(s, t, id);
      Rephased(s.phase, id, Out);
    case Busy =>
    case Parked =>
      Rephased(s.phase, id, SendParked(x));
      ParkQueued(s, t, id);
  }

  lemma Unparked<T>(s: State<T>, id: Id)
    requires id in s.phase
    requires s.phase[id].Sending? || s.phase[id].SendWoken? || s.phase[id].Receiving? || s.phase[id].RecvWoken?
    ensures !s.phase[id].SendParked? && !s.phase[id].RecvParked?
  {
  }

  lemma ParkQueued<T>(s: State<T>, t: State<T>, id: Id)
    requires Queued(s) && id in s.phase && !s.phase[id].SendParked? && !s.phase[id].RecvParked?
    requires id in t.phase && t.phase == s.phase[id := t.phase[id]]
    requires t.phase[id].SendParked? || t.phase[id].RecvParked?
    requires t.chan.sendq == if t.phase[id].SendParked? then s.chan.sendq + [id] else s.chan.sendq
    requires t.chan.recvq == if t.phase[id].RecvParked? then s.chan.recvq + [id] else s.chan.recvq
    ensures Queued(t)
  {
    Pushed(s.chan.sendq, id);
    Pushed(s.chan.recvq, id);
  }

  lemma LeaveQueued<T>(s: State<T>, t: State<T>, id: Id)
    requires Queued(s) && id in s.phase && !s.phase[id].SendParked? && !s.phase[id].RecvParked?
    requires t.chan.sendq == s.chan.sendq && t.chan.recvq == s.chan.recvq && t.phase == s.phase[id := Out]
    ensures Queued(t)
  {
  }

  lemma Associated<T>(a: seq<T>, b: seq<T>, x: T)
    ensures a + b + [x] == a + (b + [x])
  {
  }

  lemma Popped(q: seq<Id>)
    requires |q| > 0 && NoDup(q)
    ensures NoDup(q[1..]) && forall id :: id in q[1..] <==> id in q && id != q[0]
  {
    assert q == [q[0]] + q[1..];
  }

  lemma Pushed(q: seq<Id>, id: Id)
    requires NoDup(q) && id !in q
    ensures NoDup(q + [id]) && forall k :: k in q + [id] <==> k in q || k == id
  {
  }

  lemma RecvKeeps<T>(s: State<T>, t: State<T>, id: Id, park: bool)
    requires Inv(s) && RecvStep(s, t, id, park)
    ensures Inv(t)
  {
    hide WokenSenders, WokenReceivers, WakeOne, Queued;
    Unparked(s, id);
    var r := RecvAttempt(s.chan, id, park).1;
    match r
    case Got(x, woken) =>
      SuccessQueued(s, t, id, false);
      SuccessCounts(s, id, s.chan.sendq, false);
      assert s.delivered + s.chan.items == s.delivered + [x] + s.chan.items[1..];
    case Ended =>
      LeaveQueued(s, t, id);
      Rephased(s.phase, id, Out);
    case Spin =>
      if t.phase != s.phase { LeaveQueued(s, t, id); }
      Rephased(s.phase, id, Out);
    case Waiting =>
      Rephased(s.phase, id, RecvParked);
      ParkQueued(s, t, id);
  }

  // Waking a list of parked coroutines leaves exactly the others parked.
  lemma {:induction false} WokenAll<T>(phase: map<Id, Phase<T>>, ids: seq<Id>, id: Id)
    ensures id in WakeAll(phase, ids) <==> id in phase
    ensures id in phase ==>
              var p, q := phase[id], WakeAll(phase, ids)[id];
              && (q.SendParked? <==> p.SendParked? && id !in ids)
              && (q.RecvParked? <==> p.RecvParked? && id !in ids)
    decreases |ids|
  {
    if |ids| > 0 {
      var n := |ids| - 1;
      WokenAll(phase, ids[..n], id);
      WokenAll(phase, ids[..n], ids[n]);
      assert ids == ids[..n] + [ids[n]];
    }
  }

  lemma DrainKeeps<T>(s: State<T>, t: State<T>)
    requires Inv(s) && CloseDrain(s, t)
    ensures Inv(t)
  {
    var all := s.chan.recvq + s.chan.sendq;
    forall id ensures !(id in t.phase && t.phase[id].SendParked?) && !(id in t.phase && t.phase[id].RecvParked?) {
      WokenAll(s.phase, all, id);
    }
  }

  lemma StepKeeps<T(!new)>(s: State<T>, t: State<T>)
    requires Inv(s) && Step(s, t)
    ensures Inv(t)
  {
    hide Inv, Begin, SendStep, RecvStep, CloseDrain;
    if id, p :| Begin(s, t, id, p) { BeginKeeps(s, t, id, p); }
    else if id, coro :| SendStep(s, t, id, coro) { SendKeeps(s, t, id, coro); }
    else if id, park :| RecvStep(s, t, id, park) { RecvKeeps(s, t, id, park); }
    else if CloseDrain(s, t) { DrainKeeps(s, t); }
    else { FlagKeeps(s, t); }
  }

  lemma FlagKeeps<T>(s: State<T>, t: State<T>)
    requires Inv(s) && CloseFlag(s, t)
    ensures Inv(t)
  {
  }

  lemma {:induction false} RunInv<T(!new)>(run: seq<State<T>>, n: nat)
    requires Run(run) && n < |run|
    ensures Inv(run[n])
  {
    hide Inv, Step;
    if n == 0 {
      StartInv(run[0]);
    } else {
      RunInv(run, n - 1);
      assert Step(run[n - 1], run[n - 1 + 1]);
      StepKeeps(run[n - 1], run[n]);
    }
  }

  lemma StartInv<T>(s: State<T>)
    requires Init(s)
    ensures Inv(s)
  {
  }

  // ----- the theorems -----

  // Items come out in the order they were accepted, none lost or doubled, never more than
  // the capacity in between.
  lemma FirstInFirstOut<T(!new)>(run: seq<State<T>>, n: nat)
    requires Run(run) && n < |run|
    ensures run[n].sent == run[n].delivered + run[n].chan.items
    ensures |run[n].sent| - |run[n].delivered| <= run[n].chan.capacity
  {
    RunInv(run, n);
  }

  // A receive that finds anything takes the oldest item, closed or not; one that goes out
  // without an item found nothing accepted and undelivered, and if it was a blocking one,
  // the channel closed. It parks only on an empty open channel.
  lemma ReceiveTakesNext<T(!new)>(run: seq<State<T>>, n: nat, id: Id, park: bool)
    requires Run(run) && n + 1 < |run| && RecvStep(run[n], run[n + 1], id, park)
    ensures var s, t := run[n], run[n + 1];
            && |s.delivered| <= |s.sent| && t.sent == s.sent
            && (|s.delivered| < |s.sent| ==>
                  t.delivered == s.delivered + [s.sent[|s.delivered|]] && id in t.phase && t.phase[id].Out?)
            && (s.delivered == s.sent ==> t.delivered == s.delivered)
            && (s.delivered == s.sent && id in t.phase && t.phase[id].Out? && park ==> s.chan.closed)
            && (id in t.phase && t.phase[id].RecvParked? ==> s.delivered == s.sent && !s.chan.closed && park)
  {
    hide WokenSenders, WokenReceivers;
    RunInv(run, n);
  }

  // A send is accepted exactly when the channel is open and has room; a refused one found it
  // closed, a parked one found it open and full.
  lemma SendAcceptedIffRoom<T(!new)>(run: seq<State<T>>, n: nat, id: Id, coro: bool)
    requires Run(run) && n + 1 < |run| && SendStep(run[n], run[n + 1], id, coro)
    ensures var s, t := run[n], run[n + 1];
            && t.delivered == s.delivered
            && (t.sent == s.sent || t.sent == s.sent + [s.phase[id].item])
            && (t.sent != s.sent <==> !s.chan.closed && |s.sent| - |s.delivered| < s.chan.capacity)
            && (t.sent != s.sent ==> id in t.phase && t.phase[id].Out?)
            && (t.sent == s.sent && id in t.phase && t.phase[id].Out? ==> s.chan.closed)
            && (id in t.phase && t.phase[id].SendParked? ==>
                  !s.chan.closed && |s.sent| - |s.delivered| == s.chan.capacity && coro)
  {
    hide WokenSenders, WokenReceivers;
    RunInv(run, n);
  }

  // A closed channel stays closed and accepts nothing more.
  lemma {:induction false} ClosedAcceptsNothing<T(!new)>(run: seq<State<T>>, m: nat, n: nat)
    requires Run(run) && m <= n < |run| && run[m].chan.closed
    ensures run[n].chan.closed && run[n].sent == run[m].sent
    decreases n - m
  {
    hide Step;
    if m < n {
      ClosedAcceptsNothing(run, m, n - 1);
      assert Step(run[n - 1], run[n - 1 + 1]);
      StepWhenClosed(run[n - 1], run[n]);
    }
  }

  lemma StepWhenClosed<T(!new)>(s: State<T>, t: State<T>)
    requires Step(s, t) && s.chan.closed
    ensures t.chan.closed && t.sent == s.sent
  {
    hide WakeOne, WakeAll;
  }

  // While a sender is parked on an open channel, every free slot is claimed by a woken
  // sender that has not run again yet; dually for receivers and items.
  lemma NoLostWakeup<T(!new)>(run: seq<State<T>>, n: nat)
    requires Run(run) && n < |run| && !run[n].chan.closed
    ensures var s := run[n];
            && ((exists id :: id in s.phase && s.phase[id].SendParked?) ==>
                  s.chan.capacity - |s.chan.items| <= |WokenSenders(s.phase)|)
            && ((exists id :: id in s.phase && s.phase[id].RecvParked?) ==>
                  |s.chan.items| <= |WokenReceivers(s.phase)|)
  {
    hide WokenSenders, WokenReceivers;
    RunInv(run, n);
  }

  // A parked sender and a parked receiver on an open channel, with nobody on the way.
  ghost predicate Stuck<T>(s: State<T>) {
    && !s.chan.closed
    && (exists a :: a in s.phase && s.phase[a].SendParked?)
    && (exists b :: b in s.phase && s.phase[b].RecvParked?)
    && WokenSenders(s.phase) == {} && WokenReceivers(s.phase) == {}
  }

  // With room for at least one item a sender and a receiver never get stuck together.
  lemma RoomPreventsStuck<T(!new)>(run: seq<State<T>>, n: nat)
    requires Run(run) && n < |run| && run[0].chan.capacity > 0
    ensures !Stuck(run[n])
  {
    hide WokenSenders, WokenReceivers;
    RunInv(run, n);
    CapacityFixed(run, n);
    if !run[n].chan.closed { NoLostWakeup(run, n); }
  }

  lemma StepWithinCapacity<T(!new)>(s: State<T>, t: State<T>)
    requires Step(s, t)
    ensures t.chan.capacity == s.chan.capacity
    ensures s.chan.capacity == |s.chan.items| == 0 ==>
              t.chan.items == [] && t.sent == s.sent && t.delivered == s.delivered
  {
    hide WakeOne, WakeAll;
  }

  lemma {:induction false} CapacityFixed<T(!new)>(run: seq<State<T>>, n: nat)
    requires Run(run) && n < |run|
    ensures run[n].chan.capacity == run[0].chan.capacity
  {
    hide Step;
    if n > 0 {
      CapacityFixed(run, n - 1);
      assert Step(run[n - 1], run[n - 1 + 1]);
      StepWithinCapacity(run[n - 1], run[n]);
    }
  }

  // Without room nothing is ever accepted or delivered: every send parks or spins, and so
  // does every receive until the channel closes.
  lemma {:induction false} NoRoomNothingPasses<T(!new)>(run: seq<State<T>>, n: nat)
    requires Run(run) && n < |run| && run[0].chan.capacity == 0
    ensures run[n].sent == [] && run[n].delivered == [] && run[n].chan.items == []
  {
    hide Step;
    if n > 0 {
      NoRoomNothingPasses(run, n - 1);
      CapacityFixed(run, n - 1);
      assert Step(run[n - 1], run[n - 1 + 1]);
      StepWithinCapacity(run[n - 1], run[n]);
    }
  }

  // One coroutine sends, another receives, and both park for good.
  lemma StuckWithoutRoom<T(!new)>(x: T) returns (run: seq<State<T>>)
    ensures Run(run) && run[0].chan.capacity == 0 && Stuck(run[|run| - 1])
  {
    var c := Chan(0, [], [], [], false);
    var s0: State<T> := State(c, map[0 := Out, 1 := Out], [], [], false);
    var s1 := s0.(phase := s0.phase[0 := Sending(x)]);
    var s2 := s1.(chan := c.(sendq := [0]), phase := s1.phase[0 := SendParked(x)]);
    var s3 := s2.(phase := s2.phase[1 := Receiving]);
    var s4 := s3.(chan := c.(sendq := [0], recvq := [1]), phase := s3.phase[1 := RecvParked]);
    assert Begin(s0, s1, 0, Sending(x)) && SendStep(s1, s2, 0, true);
    assert Begin(s2, s3, 1, Receiving) && RecvStep(s3, s4, 1, true);
    assert s4.phase[0].SendParked? && s4.phase[1].RecvParked?;
    run := [s0, s1, s2, s3, s4];
  }

  // So a sender and a receiver are never both stuck, exactly for the requests that
  // jinn_chan_create answers with any capacity at all.
  lemma NeverBothStuck<T(!new)>(requested: nat, x: T)
    requires requested < Pow(64)
    ensures requested <= Pow(63) <==>
              forall run: seq<State<T>>, n: nat ::
                Run(run) && n < |run| && run[0].chan.capacity == Granted(requested) ==> !Stuck(run[n])
  {
    hide Run, Stuck, Granted, Pow;
    GrantedMeaning(requested);
    if requested <= Pow(63) {
      forall run: seq<State<T>>, n: nat | Run(run) && n < |run| && run[0].chan.capacity == Granted(requested)
        ensures !Stuck(run[n])
      {
        RoomPreventsStuck(run, n);
      }
    } else {
      var run := StuckWithoutRoom(x);
      assert Run(run) && Stuck(run[|run| - 1]);
    }
  }

  // A capacity of -1 arrives as 2^64 - 1 and gives a channel on which both get stuck.
  lemma StuckAtMinusOne<T(!new)>(x: T) returns (run: seq<State<T>>)
    ensures Run(run) && run[0].chan.capacity == Granted(Pow(64) - 1)
    ensures Stuck(run[|run| - 1])
  {
    hide Run, Stuck, Granted, Pow;
    FitsWord();
    Pow64();
    GrantedMeaning(Pow(64) - 1);
    run := StuckWithoutRoom(x);
  }

  lemma Pow64()
    ensures Pow(63) < Pow(64) - 1
  {
    hide Pow;
    PowStep(63);
    FitsWord();
  }

  // Once close has drained the queues nobody is or ever gets parked.
  lemma ClosedLeavesNobody<T(!new)>(run: seq<State<T>>, n: nat)
    requires Run(run) && n < |run| && run[n].drained
    ensures forall id :: id in run[n].phase ==> !run[n].phase[id].SendParked? && !run[n].phase[id].RecvParked?
  {
    RunInv(run, n);
  }
}
