// The writer gate and the per-store write locks of runtime/durable.c: compare-and-swap
// ownership with depth counts, each shared access one step, any number of threads.
module WriterGate {
  import opened Options

  type Id = nat
  type Path = seq<char>

  const SLOTS := 64

  // One entry of the store lock table.
  datatype Slot = Slot(used: bool, path: Path, owner: Option<Id>, depth: nat)

  // Why the gate is being entered: directly, or on the way to a store's slot.
  datatype Why = Direct | ForStore(path: Path)

  datatype Pc =
    | Out
    | EnterCas(why: Why) | EnterSet(why: Why)
    | FindSlot(path: Path) | SlotCas(i: nat, path: Path) | SlotSet(i: nat, path: Path)
    | SlotClear(i: nat) | LeaveDec | LeaveClear
    | Failed

  // `direct` counts a thread's own enters that it has not left yet, `held` has every path as
  // often as the thread's calls have locked it and not yet unlocked it.
  datatype Thread = Thread(pc: Pc, direct: nat, held: multiset<Path>)

  datatype State = State(owner: Option<Id>, depth: nat, slots: seq<Slot>, threads: map<Id, Thread>)

  // The used slot with the path, else the first unused one, else the table's length.
  function IndexOf(slots: seq<Slot>, path: Path): (i: nat)
    ensures i <= |slots| && (i < |slots| ==> slots[i].used && slots[i].path == path)
    ensures forall k :: 0 <= k < i ==> !(slots[k].used && slots[k].path == path)
  {
    if |slots| == 0 || (slots[0].used && slots[0].path == path) then 0 else 1 + IndexOf(slots[1..], path)
  }

  function FirstFree(slots: seq<Slot>): (i: nat)
    ensures i <= |slots| && (i < |slots| ==> !slots[i].used)
    ensures forall k :: 0 <= k < i ==> slots[k].used
  {
    if |slots| == 0 || !slots[0].used then 0 else 1 + FirstFree(slots[1..])
  }

  // store_lock_slot: the table afterwards and the slot's index, or nothing when it is full.
  function SlotFor(slots: seq<Slot>, path: Path): (r: (seq<Slot>, Option<nat>))
    ensures |r.0| == |slots| && (r.1.Some? ==> r.1.value < |slots|)
  {
    var i, free := IndexOf(slots, path), FirstFree(slots);
    if i < |slots| then (slots, Some(i))
    else if free < |slots| then (slots[free := Slot(true, path, None, 0)], Some(free))
    else (slots, None)
  }

  // ----- the steps -----

  function Set(s: State, t: Id, th: Thread): State { s.(threads := s.threads[t := th]) }

  ghost predicate At(s: State, t: Id, pc: Pc) { t in s.threads && s.threads[t].pc == pc }

  // jinn_store_writer_enter, for itself or as the first part of jinn_store_wlock: the owner
  // only counts, anyone else goes on to compete.
  ghost predicate Enter(s: State, u: State, t: Id, why: Why) {
    && At(s, t, Out)
    && var th := s.threads[t];
       if s.owner == Some(t) then
         u == Set(s, t, if why.Direct? then th.(direct := th.direct + 1) else th.(pc := FindSlot(why.path))).(
                depth := s.depth + 1)
       else u == Set(s, t, th.(pc := EnterCas(why)))
  }

  ghost predicate Cas(s: State, u: State, t: Id) {
    && t in s.threads && s.threads[t].pc.EnterCas?
    && if s.owner == None then
         u == Set(s, t, s.threads[t].(pc := EnterSet(s.threads[t].pc.why))).(owner := Some(t))
       else u == s
  }

  ghost predicate SetDepth(s: State, u: State, t: Id) {
    && t in s.threads && s.threads[t].pc.EnterSet?
    && var th := s.threads[t];
       u == Set(s, t, match th.pc.why
                      case Direct => th.(pc := Out, direct := th.direct + 1)
                      case ForStore(p) => th.(pc := FindSlot(p))).(depth := 1)
  }

  ghost predicate Find(s: State, u: State, t: Id) {
    && t in s.threads && s.threads[t].pc.FindSlot?
    && var th := s.threads[t];
       var (slots, i) := SlotFor(s.slots, th.pc.path);
       && i.Some?
       && if slots[i.value].owner == Some(t) then
            u == Set(s, t, th.(pc := Out, held := th.held + multiset{th.pc.path})).(
              slots := slots[i.value := slots[i.value].(depth := slots[i.value].depth + 1)])
          else u == Set(s, t, th.(pc := SlotCas(i.value, th.pc.path))).(slots := slots)
  }

  ghost predicate CasSlot(s: State, u: State, t: Id) {
    && t in s.threads && s.threads[t].pc.SlotCas? && s.threads[t].pc.i < |s.slots|
    && var i := s.threads[t].pc.i;
       if s.slots[i].owner == None then
         u == Set(s, t, s.threads[t].(pc := SlotSet(i, s.threads[t].pc.path))).(
                slots := s.slots[i := s.slots[i].(owner := Some(t))])
       else u == s
  }

  ghost predicate SetSlot(s: State, u: State, t: Id) {
    && t in s.threads && s.threads[t].pc.SlotSet? && s.threads[t].pc.i < |s.slots|
    && var th := s.threads[t];
       u == Set(s, t, th.(pc := Out, held := th.held + multiset{th.pc.path})).(
              slots := s.slots[th.pc.i := s.slots[th.pc.i].(depth := 1)])
  }

  // jinn_store_wunlock: by anyone but the slot's owner it does nothing.
  ghost predicate Unlock(s: State, u: State, t: Id, path: Path) {
    && At(s, t, Out)
    && var (slots, i) := SlotFor(s.slots, path);
       && i.Some?
       && var slot := slots[i.value];
          if slot.owner != Some(t) then u == s.(slots := slots)
          else
            var left: nat := if slot.depth > 0 then slot.depth - 1 else 0;
            var th := s.threads[t];
            u == Set(s, t, th.(pc := if left == 0 then SlotClear(i.value) else LeaveDec,
                               held := th.held - multiset{path})).(
                   slots := slots[i.value := slot.(depth := left)])
  }

  ghost predicate ClearSlot(s: State, u: State, t: Id) {
    && t in s.threads && s.threads[t].pc.SlotClear? && s.threads[t].pc.i < |s.slots|
    && var i := s.threads[t].pc.i;
       u == Set(s, t, s.threads[t].(pc := LeaveDec)).(slots := s.slots[i := s.slots[i].(owner := None)])
  }

  // jinn_store_writer_leave; called directly only to match an enter.
  ghost predicate Leave(s: State, u: State, t: Id) {
    && At(s, t, Out) && s.threads[t].direct > 0
    && u == Set(s, t, s.threads[t].(pc := LeaveDec, direct := s.threads[t].direct - 1))
  }

  // The decrement stops the process unless the caller owns the gate at a positive depth.
  ghost predicate Dec(s: State, u: State, t: Id) {
    && At(s, t, LeaveDec)
    && if s.owner != Some(t) || s.depth == 0 then u == Set(s, t, s.threads[t].(pc := Failed))
       else u == Set(s, t, s.threads[t].(pc := if s.depth == 1 then LeaveClear else Out)).(depth := s.depth - 1)
  }

  ghost predicate Clear(s: State, u: State, t: Id) {
    && At(s, t, LeaveClear)
    && u == Set(s, t, s.threads[t].(pc := Out)).(owner := None)
  }

  ghost predicate NewThread(s: State, u: State, t: Id) {
    t !in s.threads && u == Set(s, t, Thread(Out, 0, multiset{}))
  }

  ghost predicate ThreadStep(s: State, u: State, t: Id) {
    || (exists why :: Enter(s, u, t, why))
    || Cas(s, u, t) || SetDepth(s, u, t) || Find(s, u, t) || CasSlot(s, u, t) || SetSlot(s, u, t)
    || (exists path :: Unlock(s, u, t, path))
    || ClearSlot(s, u, t) || Leave(s, u, t) || Dec(s, u, t) || Clear(s, u, t) || NewThread(s, u, t)
  }

  ghost predicate Step(s: State, u: State) { exists t :: ThreadStep(s, u, t) }

  ghost predicate Init(s: State) {
    && s.owner == None && s.depth == 0 && s.threads == map[] && |s.slots| == SLOTS
    && forall i :: 0 <= i < |s.slots| ==> s.slots[i] == Slot(false, [], None, 0)
  }

  ghost predicate Run(run: seq<State>) {
    && |run| > 0 && Init(run[0])
    && forall i :: 0 <= i < |run| - 1 ==> Step(run[i], run[i + 1])
  }

  // ----- the invariant -----

  function Sum(slots: seq<Slot>): nat {
    if |slots| == 0 then 0 else slots[0].depth + Sum(slots[1..])
  }

  // A gate level taken but not yet, or no longer, booked to the caller or a slot.
  function Pending(pc: Pc): nat {
    match pc
    case FindSlot(_) => 1
    case SlotCas(_, _) => 1
    case SlotSet(_, _) => 1
    case SlotClear(_) => 1
    case LeaveDec => 1
    case _ => 0
  }

  ghost predicate Owning(s: State, t: Id) {
    && t in s.threads && !s.threads[t].pc.EnterCas? && !s.threads[t].pc.Failed?
    && (s.threads[t].pc.EnterSet? ==> s.depth == 0 && s.threads[t].direct == 0 && Sum(s.slots) == 0)
    && s.depth == s.threads[t].direct + Sum(s.slots) + Pending(s.threads[t].pc)
    && (s.threads[t].pc.EnterSet? || s.threads[t].pc.LeaveClear? || s.depth > 0)
    && (s.threads[t].pc.LeaveClear? ==> s.depth == 0)
    && (s.threads[t].pc.SlotCas? ==>
          var SlotCas(i, p) := s.threads[t].pc;
          i < |s.slots| && s.slots[i].owner == None && s.slots[i].used && s.slots[i].path == p)
    && (s.threads[t].pc.SlotSet? ==>
          var SlotSet(i, p) := s.threads[t].pc;
          i < |s.slots| && s.slots[i].owner == Some(t) && s.slots[i].depth == 0 && s.slots[i].path == p)
    && (s.threads[t].pc.SlotClear? ==>
          var i := s.threads[t].pc.i; i < |s.slots| && s.slots[i].owner == Some(t) && s.slots[i].depth == 0)
  }

  // The slot whose owner word and depth are between two steps.
  ghost predicate Between(s: State, i: nat) {
    && s.owner.Some? && s.owner.value in s.threads
    && var pc := s.threads[s.owner.value].pc;
       (pc.SlotSet? && pc.i == i) || (pc.SlotClear? && pc.i == i)
  }

  ghost predicate Inv(s: State) {
    && (s.owner.None? ==> s.depth == 0 && Sum(s.slots) == 0)
    && (s.owner.Some? ==> Owning(s, s.owner.value))
    && (forall t :: t in s.threads && s.owner != Some(t) ==>
          s.threads[t].direct == 0 && (s.threads[t].pc.Out? || s.threads[t].pc.EnterCas?))
    && (forall i :: 0 <= i < |s.slots| ==>
          && (s.slots[i].owner.Some? ==> s.slots[i].owner == s.owner && s.slots[i].used)
          && (s.slots[i].owner.Some? <==> s.slots[i].depth > 0 || Between(s, i)))
  }

  lemma {:induction false} SumUpdate(slots: seq<Slot>, i: nat, slot: Slot)
    requires i < |slots|
    ensures Sum(slots[i := slot]) == Sum(slots) - slots[i].depth + slot.depth
  {
    if i > 0 {
      assert slots[i := slot][1..] == slots[1..][i - 1 := slot];
      SumUpdate(slots[1..], i - 1, slot);
    } else {
      assert slots[0 := slot][1..] == slots[1..];
    }
  }

  lemma {:induction false} SumZero(slots: seq<Slot>, i: nat)
    requires i < |slots| && Sum(slots) == 0
    ensures slots[i].depth == 0
  {
    if i > 0 { SumZero(slots[1..], i - 1); }
  }

  // Giving a path an unused slot disturbs nobody.
  lemma FoundSlot(s: State, path: Path)
    requires Inv(s)
    ensures var (slots, i) := SlotFor(s.slots, path);
            && Inv(s.(slots := slots)) && Sum(slots) == Sum(s.slots)
            && (i.Some? ==> slots[i.value].used && slots[i.value].path == path)
            && (forall k :: 0 <= k < |slots| ==>
                  slots[k].owner == s.slots[k].owner && slots[k].depth == s.slots[k].depth)
  {
    var i, free := IndexOf(s.slots, path), FirstFree(s.slots);
    if i == |s.slots| && free < |s.slots| {
      assert s.slots[free].owner == None;
      SumUpdate(s.slots, free, Slot(true, path, None, 0));
    }
  }

  lemma EnterKeeps(s: State, u: State, t: Id, why: Why)
    requires Inv(s) && Enter(s, u, t, why)
    ensures Inv(u)
  {
  }

  lemma CasKeeps(s: State, u: State, t: Id)
    requires Inv(s) && Cas(s, u, t)
    ensures Inv(u)
  {
  }

  lemma SetDepthKeeps(s: State, u: State, t: Id)
    requires Inv(s) && SetDepth(s, u, t)
    ensures Inv(u)
  {
  }

  lemma FindKeeps(s: State, u: State, t: Id)
    requires Inv(s) && Find(s, u, t)
    ensures Inv(u)
  {
    FoundSlot(s, s.threads[t].pc.path);
    var (slots, i) := SlotFor(s.slots, s.threads[t].pc.path);
    SumUpdate(slots, i.value, slots[i.value].(depth := slots[i.value].depth + 1));
  }

  lemma CasSlotKeeps(s: State, u: State, t: Id)
    requires Inv(s) && CasSlot(s, u, t)
    ensures Inv(u)
  {
    var i := s.threads[t].pc.i;
    SumUpdate(s.slots, i, s.slots[i].(owner := Some(t)));
  }

  lemma SetSlotKeeps(s: State, u: State, t: Id)
    requires Inv(s) && SetSlot(s, u, t)
    ensures Inv(u)
  {
    var i := s.threads[t].pc.i;
    SumUpdate(s.slots, i, s.slots[i].(depth := 1));
  }

  lemma UnlockKeeps(s: State, u: State, t: Id, path: Path)
    requires Inv(s) && Unlock(s, u, t, path)
    ensures Inv(u)
  {
    FoundSlot(s, path);
    var (slots, i) := SlotFor(s.slots, path);
    var slot := slots[i.value];
    SumUpdate(slots, i.value, slot.(depth := if slot.depth > 0 then slot.depth - 1 else 0));
  }

  lemma ClearSlotKeeps(s: State, u: State, t: Id)
    requires Inv(s) && ClearSlot(s, u, t)
    ensures Inv(u)
  {
    var i := s.threads[t].pc.i;
    SumUpdate(s.slots, i, s.slots[i].(owner := None));
  }

  lemma LeaveKeeps(s: State, u: State, t: Id)
    requires Inv(s) && Leave(s, u, t)
    ensures Inv(u)
  {
  }

  lemma DecKeeps(s: State, u: State, t: Id)
    requires Inv(s) && Dec(s, u, t)
    ensures Inv(u)
  {
  }

  lemma ClearKeeps(s: State, u: State, t: Id)
    requires Inv(s) && Clear(s, u, t)
    ensures Inv(u)
  {
    forall i | 0 <= i < |s.slots| ensures s.slots[i].depth == 0 {
      SumZero(s.slots, i);
    }
  }

  lemma NewThreadKeeps(s: State, u: State, t: Id)
    requires Inv(s) && NewThread(s, u, t)
    ensures Inv(u)
  {
  }

  lemma StepKeeps(s: State, u: State, t: Id)
    requires Inv(s) && ThreadStep(s, u, t)
    ensures Inv(u)
  {
    hide Inv, Enter, Cas, SetDepth, Find, CasSlot, SetSlot, Unlock, ClearSlot, Leave, Dec, Clear, NewThread;
    if why :| Enter(s, u, t, why) { EnterKeeps(s, u, t, why); }
    else if Cas(s, u, t) { CasKeeps(s, u, t); }
    else if SetDepth(s, u, t) { SetDepthKeeps(s, u, t); }
    else if Find(s, u, t) { FindKeeps(s, u, t); }
    else if CasSlot(s, u, t) { CasSlotKeeps(s, u, t); }
    else if SetSlot(s, u, t) { SetSlotKeeps(s, u, t); }
    else if path :| Unlock(s, u, t, path) { UnlockKeeps(s, u, t, path); }
    else if ClearSlot(s, u, t) { ClearSlotKeeps(s, u, t); }
    else if Leave(s, u, t) { LeaveKeeps(s, u, t); }
    else if Dec(s, u, t) { DecKeeps(s, u, t); }
    else if Clear(s, u, t) { ClearKeeps(s, u, t); }
    else { NewThreadKeeps(s, u, t); }
  }

  lemma {:induction false} EmptyTable(slots: seq<Slot>)
    requires forall i :: 0 <= i < |slots| ==> slots[i].depth == 0
    ensures Sum(slots) == 0
  {
    if |slots| > 0 { EmptyTable(slots[1..]); }
  }

  lemma {:induction false} RunInv(run: seq<State>, n: nat)
    requires Run(run) && n < |run|
    ensures Inv(run[n])
  {
    hide ThreadStep;
    if n == 0 {
      EmptyTable(run[0].slots);
    } else {
      RunInv(run, n - 1);
      assert Step(run[n - 1], run[n - 1 + 1]);
      var t :| ThreadStep(run[n - 1], run[n], t);
      StepKeeps(run[n - 1], run[n], t);
    }
  }

  // ----- what the depths stand for -----

  // A path never has two slots.
  ghost predicate Apart(slots: seq<Slot>) {
    forall i, j :: 0 <= i < j < |slots| && slots[i].used && slots[j].used ==> slots[i].path != slots[j].path
  }

  ghost predicate HasSlot(slots: seq<Slot>, p: Path) {
    exists i :: 0 <= i < |slots| && slots[i].used && slots[i].path == p
  }

  // The depths are exactly the locks in held.
  ghost predicate Booked(slots: seq<Slot>, held: multiset<Path>) {
    && (forall i :: 0 <= i < |slots| ==> slots[i].depth == if slots[i].used then held[slots[i].path] else 0)
    && (forall p :: p in held ==> HasSlot(slots, p))
    && |held| == Sum(slots)
  }

  ghost predicate Account(s: State) {
    && Apart(s.slots)
    && (s.owner.None? ==> Booked(s.slots, multiset{}))
    && (s.owner.Some? ==> s.owner.value in s.threads && Booked(s.slots, s.threads[s.owner.value].held))
    && (forall t :: t in s.threads && s.owner != Some(t) ==> s.threads[t].held == multiset{})
  }

  // Looking a path up gives it a slot of its own and books nothing.
  lemma FoundApart(slots: seq<Slot>, held: multiset<Path>, path: Path)
    requires Apart(slots) && Booked(slots, held)
    ensures var (r, i) := SlotFor(slots, path);
            && Apart(r) && Booked(r, held)
            && (i.Some? ==> r[i.value].used && r[i.value].path == path)
  {
    var i, free := IndexOf(slots, path), FirstFree(slots);
    if i == |slots| && free < |slots| {
      var r := slots[free := Slot(true, path, None, 0)];
      SumUpdate(slots, free, Slot(true, path, None, 0));
      assert path !in held;
      forall p | p in held ensures HasSlot(r, p) {
        var k :| 0 <= k < |slots| && slots[k].used && slots[k].path == p;
        assert r[k] == slots[k];
      }
    }
  }

  // One more lock of slot i's path, and one less.
  lemma BookedMore(slots: seq<Slot>, held: multiset<Path>, i: nat, slot: Slot)
    requires Apart(slots) && Booked(slots, held) && i < |slots| && slots[i].used
    requires slot.used && slot.path == slots[i].path && slot.depth == slots[i].depth + 1
    ensures Apart(slots[i := slot]) && Booked(slots[i := slot], held + multiset{slots[i].path})
  {
    SumUpdate(slots, i, slot);
    SameNames(slots, i, slot);
    assert slots[i := slot][i] == slot;
    hide Sum;
    assert HasSlot(slots[i := slot], slots[i].path);
    hide HasSlot;
  }

  lemma BookedLess(slots: seq<Slot>, held: multiset<Path>, i: nat, slot: Slot)
    requires Apart(slots) && Booked(slots, held) && i < |slots| && slots[i].used && slots[i].depth > 0
    requires slot.used && slot.path == slots[i].path && slot.depth == slots[i].depth - 1
    ensures Apart(slots[i := slot]) && Booked(slots[i := slot], held - multiset{slots[i].path})
  {
    hide HasSlot, Sum;
    SumUpdate(slots, i, slot);
    SameNames(slots, i, slot);
    assert held == held - multiset{slots[i].path} + multiset{slots[i].path};
  }

  lemma SameNames(slots: seq<Slot>, i: nat, slot: Slot)
    requires Apart(slots) && i < |slots| && slot.used == slots[i].used && slot.path == slots[i].path
    ensures Apart(slots[i := slot]) && forall p :: HasSlot(slots, p) ==> HasSlot(slots[i := slot], p)
  {
    var r := slots[i := slot];
    forall p | HasSlot(slots, p) ensures HasSlot(r, p) {
      var k :| 0 <= k < |slots| && slots[k].used && slots[k].path == p;
      assert r[k].used && r[k].path == p;
    }
  }

  // A change of an owner word only.
  lemma BookedOwner(slots: seq<Slot>, held: multiset<Path>, i: nat, owner: Option<Id>)
    requires Apart(slots) && Booked(slots, held) && i < |slots|
    ensures Apart(slots[i := slots[i].(owner := owner)]) && Booked(slots[i := slots[i].(owner := owner)], held)
  {
    hide HasSlot, Sum;
    SumUpdate(slots, i, slots[i].(owner := owner));
    SameNames(slots, i, slots[i].(owner := owner));
  }

  // The account after a step of thread t that books and releases nothing.
  lemma AccountSame(s: State, u: State, t: Id)
    requires Inv(s) && Account(s) && u.slots == s.slots && u.owner == s.owner
    requires t in u.threads && u.threads == s.threads[t := u.threads[t]]
    requires u.threads[t].held == if t in s.threads then s.threads[t].held else multiset{}
    ensures Account(u)
  {
    hide Apart, Booked;
  }

  lemma AccountGate(s: State, u: State, t: Id)
    requires Inv(s) && Inv(u) && Account(s) && (Cas(s, u, t) || Clear(s, u, t))
    ensures Account(u)
  {
    hide Apart, Booked;
    if Clear(s, u, t) {
      EmptyHeld(s.slots, s.threads[t].held);
    }
  }

  lemma EmptyHeld(slots: seq<Slot>, held: multiset<Path>)
    requires Booked(slots, held) && Sum(slots) == 0
    ensures held == multiset{}
  {
  }

  lemma AccountFind(s: State, u: State, t: Id)
    requires Inv(s) && Account(s) && Find(s, u, t)
    ensures Account(u)
  {
    hide Apart, Booked, SlotFor;
    var held, path := s.threads[t].held, s.threads[t].pc.path;
    FoundSlot(s, path);
    FoundApart(s.slots, held, path);
    var (slots, i) := SlotFor(s.slots, path);
    BookedMore(slots, held, i.value, slots[i.value].(depth := slots[i.value].depth + 1));
  }

  lemma AccountSlot(s: State, u: State, t: Id)
    requires Inv(s) && Account(s) && (CasSlot(s, u, t) || SetSlot(s, u, t) || ClearSlot(s, u, t))
    ensures Account(u)
  {
    hide Apart, Booked;
    var i, held := s.threads[t].pc.i, s.threads[t].held;
    if SetSlot(s, u, t) {
      BookedMore(s.slots, held, i, s.slots[i].(depth := 1));
    } else {
      BookedOwner(s.slots, held, i, u.slots[i].owner);
    }
  }

  lemma AccountUnlock(s: State, u: State, t: Id, path: Path)
    requires Inv(s) && Account(s) && Unlock(s, u, t, path)
    ensures Account(u)
  {
    hide Apart, Booked, SlotFor;
    FoundSlot(s, path);
    var (slots, i) := SlotFor(s.slots, path);
    FoundApart(s.slots, if s.owner.Some? then s.threads[s.owner.value].held else multiset{}, path);
    if slots[i.value].owner == Some(t) {
      var held := s.threads[t].held;
      BookedLess(slots, held, i.value, slots[i.value].(depth := slots[i.value].depth - 1));
    }
  }

  lemma AccountKeeps(s: State, u: State, t: Id)
    requires Inv(s) && Account(s) && ThreadStep(s, u, t)
    ensures Account(u)
  {
    StepKeeps(s, u, t);
    hide Inv, Account, Find, CasSlot, SetSlot, Unlock, ClearSlot, Cas, Clear, Enter, SetDepth, Leave, Dec, NewThread;
    if Find(s, u, t) { AccountFind(s, u, t); }
    else if CasSlot(s, u, t) || SetSlot(s, u, t) || ClearSlot(s, u, t) { AccountSlot(s, u, t); }
    else if path :| Unlock(s, u, t, path) { AccountUnlock(s, u, t, path); }
    else if Cas(s, u, t) || Clear(s, u, t) { AccountGate(s, u, t); }
    else { AccountElse(s, u, t); }
  }

  lemma AccountElse(s: State, u: State, t: Id)
    requires Inv(s) && Account(s)
    requires (exists why :: Enter(s, u, t, why)) || SetDepth(s, u, t) || Leave(s, u, t) || Dec(s, u, t)
             || NewThread(s, u, t)
    ensures Account(u)
  {
    hide Inv, Account;
    AccountSame(s, u, t);
  }

  lemma {:induction false} RunAccount(run: seq<State>, n: nat)
    requires Run(run) && n < |run|
    ensures Inv(run[n]) && Account(run[n])
  {
    hide ThreadStep, Inv;
    RunInv(run, n);
    if n == 0 {
      EmptyTable(run[0].slots);
    } else {
      hide Account;
      RunAccount(run, n - 1);
      assert Step(run[n - 1], run[n - 1 + 1]);
      var t :| ThreadStep(run[n - 1], run[n], t);
      AccountKeeps(run[n - 1], run[n], t);
    }
  }

  // ----- the theorems -----

  // At every moment the thread that holds locks is the owner of the gate, a path has at most
  // one slot, and a slot's depth is the number of times the owner has locked its path: a path
  // is locked exactly when its slot is owned at a positive depth.
  lemma DepthsAreLocks(run: seq<State>, n: nat, t: Id, path: Path)
    requires Run(run) && n < |run| && t in run[n].threads
    ensures var s, held := run[n], run[n].threads[t].held;
            && (held != multiset{} ==> s.owner == Some(t))
            && (path in held ==> exists i :: 0 <= i < |s.slots| && s.slots[i].used && s.slots[i].path == path)
            && (forall i :: 0 <= i < |s.slots| && s.slots[i].used && s.slots[i].path == path && s.owner == Some(t) ==>
                  && s.slots[i].depth == held[path]
                  && (path in held ==> s.slots[i].owner == Some(t)))
            && (forall i, j :: 0 <= i < j < |s.slots| && s.slots[i].used && s.slots[j].used ==>
                  s.slots[i].path != s.slots[j].path)
  {
    RunAccount(run, n);
    var s := run[n];
    assert forall i :: 0 <= i < |s.slots| && s.slots[i].depth > 0 ==> s.slots[i].owner == s.owner;
  }

  // An unlock takes back one lock of its path, and changes no lock of anyone if the caller
  // holds none.
  lemma UnlockTakesOne(run: seq<State>, n: nat, t: Id, path: Path)
    requires Run(run) && n + 1 < |run| && Unlock(run[n], run[n + 1], t, path)
    ensures run[n + 1].threads[t].held == run[n].threads[t].held - multiset{path}
    ensures path !in run[n].threads[t].held ==> run[n + 1].threads == run[n].threads
  {
    hide Run, SlotFor, Inv, Account;
    RunAccount(run, n);
    UnlockGuard(run[n], t, path);
  }

  // Between calls a slot is the thread's exactly when the thread has its path locked.
  lemma UnlockGuard(s: State, t: Id, path: Path)
    requires Inv(s) && Account(s) && At(s, t, Out)
    ensures var (slots, i) := SlotFor(s.slots, path);
            i.Some? ==> (slots[i.value].owner == Some(t) <==> path in s.threads[t].held)
  {
    hide SlotFor, Apart, Sum;
    FoundSlot(s, path);
    FoundApart(s.slots, if s.owner.Some? then s.threads[s.owner.value].held else multiset{}, path);
    var (slots, i) := SlotFor(s.slots, path);
    if i.Some? {
      assert slots[i.value].owner == s.slots[i.value].owner && slots[i.value].depth == s.slots[i.value].depth;
    }
  }

  // Every owned store slot belongs to the owner of the gate.
  lemma SlotsBelongToGateOwner(run: seq<State>, n: nat, i: nat)
    requires Run(run) && n < |run| && i < |run[n].slots| && run[n].slots[i].owner.Some?
    ensures run[n].slots[i].owner == run[n].owner
  {
    RunInv(run, n);
  }

  // Between calls of its owner the gate's depth is the owner's direct enters plus the depths
  // of all slots, and whoever does not own the gate holds nothing.
  lemma DepthAdded(run: seq<State>, n: nat, t: Id)
    requires Run(run) && n < |run| && At(run[n], t, Out)
    ensures run[n].owner == Some(t) ==> run[n].depth == run[n].threads[t].direct + Sum(run[n].slots) > 0
    ensures run[n].owner != Some(t) ==>
              run[n].threads[t].direct == 0 && forall i :: 0 <= i < |run[n].slots| ==> run[n].slots[i].owner != Some(t)
  {
    RunInv(run, n);
  }

  // The loop on a store slot never waits: its first compare-and-swap succeeds.
  lemma SlotNeverWaits(run: seq<State>, n: nat, t: Id)
    requires Run(run) && n < |run| && t in run[n].threads && run[n].threads[t].pc.SlotCas?
    ensures run[n].owner == Some(t)
    ensures run[n].threads[t].pc.i < |run[n].slots| && run[n].slots[run[n].threads[t].pc.i].owner == None
  {
    RunInv(run, n);
  }

  // A leave that matches an enter, or ends an unlock, finds its caller owning the gate at a
  // positive depth, so its check never stops the process.
  lemma LeaveNeverFails(run: seq<State>, n: nat, t: Id)
    requires Run(run) && n < |run| && t in run[n].threads
    ensures run[n].threads[t].pc == LeaveDec ==> run[n].owner == Some(t) && run[n].depth > 0
    ensures run[n].threads[t].pc != Failed
  {
    RunInv(run, n);
  }

  // A thread that has left and unlocked as often as it entered and locked does not own the
  // gate any more.
  lemma FinishedFreesGate(run: seq<State>, n: nat, t: Id)
    requires Run(run) && n < |run| && At(run[n], t, Out) && run[n].threads[t].direct == 0
    requires forall i :: 0 <= i < |run[n].slots| && run[n].slots[i].owner == Some(t) ==> run[n].slots[i].depth == 0
    ensures run[n].owner != Some(t)
  {
    RunInv(run, n);
    var s := run[n];
    if s.owner == Some(t) {
      forall i | 0 <= i < |s.slots| ensures s.slots[i].depth == 0 {
      }
      EmptyTable(s.slots);
    }
  }

  // Two threads are never both past the competition for the gate.
  lemma OneWriter(run: seq<State>, n: nat, a: Id, b: Id)
    requires Run(run) && n < |run| && a in run[n].threads && b in run[n].threads && a != b
    ensures run[n].threads[a].pc.Out? || run[n].threads[a].pc.EnterCas?
            || run[n].threads[b].pc.Out? || run[n].threads[b].pc.EnterCas?
    ensures run[n].threads[a].direct == 0 || run[n].threads[b].direct == 0
  {
    RunInv(run, n);
  }

  // ----- calls that nobody disturbs -----

  // The states t alone leads through.
  ghost predicate Alone(trail: seq<State>, t: Id) {
    |trail| > 0 && forall i :: 0 <= i < |trail| - 1 ==> ThreadStep(trail[i], trail[i + 1], t)
  }

  lemma Longer(trail: seq<State>, t: Id, u: State)
    requires Alone(trail, t) && ThreadStep(trail[|trail| - 1], u, t)
    ensures Alone(trail + [u], t)
  {
    hide ThreadStep;
    var more := trail + [u];
    forall i | 0 <= i < |more| - 1 ensures ThreadStep(more[i], more[i + 1], t) {
      if i < |trail| - 1 { assert ThreadStep(trail[i], trail[i + 1], t); }
    }
  }

  // Past the gate, which is free or the thread's own.
  lemma EnterAlone(s: State, t: Id, path: Path) returns (trail: seq<State>)
    requires Inv(s) && At(s, t, Out) && (s.owner == None || s.owner == Some(t))
    ensures Alone(trail, t) && trail[0] == s
    ensures var u := trail[|trail| - 1];
            && Inv(u) && u.owner == Some(t) && u.slots == s.slots
            && u.threads == s.threads[t := s.threads[t].(pc := FindSlot(path))]
  {
    hide Inv;
    trail := [s];
    var th := s.threads[t];
    if s.owner == Some(t) {
      var a := Set(s, t, th.(pc := FindSlot(path))).(depth := s.depth + 1);
      assert Enter(s, a, t, ForStore(path));
      EnterKeeps(s, a, t, ForStore(path));
      Longer(trail, t, a);
      trail := trail + [a];
    } else {
      var a := Set(s, t, th.(pc := EnterCas(ForStore(path))));
      assert Enter(s, a, t, ForStore(path));
      EnterKeeps(s, a, t, ForStore(path));
      Longer(trail, t, a);
      var b := Set(a, t, th.(pc := EnterSet(ForStore(path)))).(owner := Some(t));
      assert Cas(a, b, t);
      CasKeeps(a, b, t);
      Longer(trail + [a], t, b);
      var c := Set(b, t, th.(pc := FindSlot(path))).(depth := 1);
      assert SetDepth(b, c, t);
      SetDepthKeeps(b, c, t);
      Longer(trail + [a] + [b], t, c);
      trail := trail + [a] + [b] + [c];
    }
  }

  // From the search for the slot to the lock.
  lemma FindAlone(trail: seq<State>, t: Id, path: Path) returns (more: seq<State>)
    requires Alone(trail, t)
    requires var s := trail[|trail| - 1];
             Inv(s) && At(s, t, FindSlot(path)) && s.owner == Some(t) && SlotFor(s.slots, path).1.Some?
    ensures Alone(more, t) && more[0] == trail[0]
    ensures var (s, u) := (trail[|trail| - 1], more[|more| - 1]);
            && u.owner == Some(t)
            && var th := s.threads[t];
               u.threads == s.threads[t := th.(pc := Out, held := th.held + multiset{path})]
  {
    hide Inv, SlotFor;
    var s := trail[|trail| - 1];
    var th := s.threads[t];
    var (slots, i) := SlotFor(s.slots, path);
    SlotFree(s, t, path);
    var done := th.(pc := Out, held := th.held + multiset{path});
    if slots[i.value].owner == Some(t) {
      var a := Set(s, t, done).(slots := slots[i.value := slots[i.value].(depth := slots[i.value].depth + 1)]);
      assert Find(s, a, t);
      Longer(trail, t, a);
      more := trail + [a];
    } else {
      var a := Set(s, t, th.(pc := SlotCas(i.value, path))).(slots := slots);
      assert Find(s, a, t);
      Longer(trail, t, a);
      var mine := slots[i.value := slots[i.value].(owner := Some(t))];
      var b := Set(a, t, th.(pc := SlotSet(i.value, path))).(slots := mine);
      assert CasSlot(a, b, t);
      Longer(trail + [a], t, b);
      var c := Set(b, t, done).(slots := mine[i.value := mine[i.value].(depth := 1)]);
      assert SetSlot(b, c, t);
      Longer(trail + [a] + [b], t, c);
      more := trail + [a] + [b] + [c];
    }
  }

  lemma SlotFree(s: State, t: Id, path: Path)
    requires Inv(s) && s.owner == Some(t) && SlotFor(s.slots, path).1.Some?
    ensures var (slots, i) := SlotFor(s.slots, path); slots[i.value].owner == None || slots[i.value].owner == Some(t)
  {
    hide SlotFor;
    FoundSlot(s, path);
  }

  // A path gets a slot exactly when it has one or one is unused.
  lemma SlotForMeaning(slots: seq<Slot>, path: Path)
    ensures SlotFor(slots, path).1.Some? <==> HasSlot(slots, path) || exists i :: 0 <= i < |slots| && !slots[i].used
  {
    var i, free := IndexOf(slots, path), FirstFree(slots);
    if k :| 0 <= k < |slots| && slots[k].used && slots[k].path == path { assert i <= k; }
    if k :| 0 <= k < |slots| && !slots[k].used { assert free <= k; }
  }

  // Left alone at a gate that is free or its own, a thread gets every lock whose path has a
  // slot or can be given one: it then owns the gate and has the path locked once more.
  lemma LockAlone(run: seq<State>, n: nat, t: Id, path: Path) returns (trail: seq<State>)
    requires Run(run) && n < |run| && At(run[n], t, Out) && (run[n].owner == None || run[n].owner == Some(t))
    requires HasSlot(run[n].slots, path) || exists i :: 0 <= i < |run[n].slots| && !run[n].slots[i].used
    ensures Alone(trail, t) && trail[0] == run[n]
    ensures var (s, u) := (run[n], trail[|trail| - 1]);
            && u.owner == Some(t)
            && u.threads == s.threads[t := s.threads[t].(held := s.threads[t].held + multiset{path})]
  {
    hide Run, Inv, SlotFor, HasSlot;
    RunInv(run, n);
    SlotForMeaning(run[n].slots, path);
    trail := EnterAlone(run[n], t, path);
    trail := FindAlone(trail, t, path);
  }

  // The lock table itself and the two search loops over it.
  class LockTable {
    const slots: array<Slot>

    constructor ()
      ensures fresh(slots) && slots.Length == SLOTS
      ensures forall i :: 0 <= i < SLOTS ==> slots[i] == Slot(false, [], None, 0)
    {
      slots := new Slot[SLOTS](_ => Slot(false, [], None, 0));
    }

    method Find(path: Path) returns (index: Option<nat>)
      modifies slots
      ensures (slots[..], index) == SlotFor(old(slots[..]), path)
    {
      var i := 0;
      while i < slots.Length
        invariant i <= slots.Length && slots[..] == old(slots[..])
        invariant forall k :: 0 <= k < i ==> !(slots[k].used && slots[k].path == path)
      {
        if slots[i].used && slots[i].path == path {
          IndexIs(slots[..], path, i);
          return Some(i);
        }
        i := i + 1;
      }
      IndexIs(slots[..], path, i);
      i := 0;
      while i < slots.Length
        invariant i <= slots.Length && slots[..] == old(slots[..])
        invariant forall k :: 0 <= k < i ==> slots[k].used
      {
        if !slots[i].used {
          FreeIs(slots[..], i);
          slots[i] := Slot(true, path, None, 0);
          assert slots[..] == old(slots[..])[i := Slot(true, path, None, 0)];
          return Some(i);
        }
        i := i + 1;
      }
      FreeIs(slots[..], i);
      return None;
    }
  }

  lemma IndexIs(slots: seq<Slot>, path: Path, i: nat)
    requires i <= |slots| && (i < |slots| ==> slots[i].used && slots[i].path == path)
    requires forall k :: 0 <= k < i ==> !(slots[k].used && slots[k].path == path)
    ensures IndexOf(slots, path) == i
  {
  }

  lemma FreeIs(slots: seq<Slot>, i: nat)
    requires i <= |slots| && (i < |slots| ==> !slots[i].used) && forall k :: 0 <= k < i ==> slots[k].used
    ensures FirstFree(slots) == i
  {
  }
}
