/**
 The pool of request slots. First the pool as the original writes it; then the pool under
 concurrency: acquire and available exclude each other by a mutex but look at one slot at a time,
 while slots are given back without the mutex, at any moment, when their last reference goes.
 */
module RequestSlotPools {
  import opened Common

  function FirstFree(inUse: seq<bool>): (r: Option<nat>)
    ensures r.Some? ==> r.value < |inUse| && !inUse[r.value] && forall j :: 0 <= j < r.value ==> inUse[j]
    ensures r.None? ==> forall j :: 0 <= j < |inUse| ==> inUse[j]
  {
    if inUse == [] then None
    else if !inUse[0] then Some(0)
    else match FirstFree(inUse[1..]) case Some(i) => Some(i + 1) case None => None
  }

  function CountFree(inUse: seq<bool>): (n: nat)
    ensures n <= |inUse|
  {
    if inUse == [] then 0 else CountFree(inUse[..|inUse| - 1]) + (if inUse[|inUse| - 1] then 0 else 1)
  }

  // ---------------------------------------------------------------- the pool as written

  class RequestSlot {
    const id: nat
    var inUse: bool
    var imageBytes: seq<int>
    var inputTensor: seq<real>
    var resultJson: string

    constructor (id: nat)
      ensures this.id == id && !inUse && imageBytes == [] && inputTensor == [] && resultJson == ""
    {
      this.id := id;
      inUse, imageBytes, inputTensor, resultJson := false, [], [], "";
    }

    method Reset()
      modifies this
      ensures inUse == old(inUse) && imageBytes == [] && inputTensor == [] && resultJson == ""
    {
      imageBytes, inputTensor, resultJson := [], [], "";
    }
  }

  class RequestSlotPool {
    var slots: seq<RequestSlot>

    ghost predicate Valid()
      reads this
    {
      forall i, j :: 0 <= i < j < |slots| ==> slots[i] != slots[j]
    }

    ghost function InUse(): (r: seq<bool>)
      reads this, slots
      ensures |r| == |slots|
    {
      seq(|slots|, i requires 0 <= i < |slots| reads this, slots => slots[i].inUse)
    }

    constructor (capacity: nat)
      ensures Valid() && |slots| == capacity && fresh(slots) && CountFree(InUse()) == capacity
      ensures forall i :: 0 <= i < capacity ==> slots[i].id == i
    {
      slots := [];
      new;
      while |slots| < capacity
        invariant Valid() && |slots| <= capacity && fresh(slots)
        invariant forall i :: 0 <= i < |slots| ==> slots[i].id == i && !slots[i].inUse
      {
        var s := new RequestSlot(|slots|);
        slots := slots + [s];
      }
      AllFree(InUse());
    }

    /** The first free slot, emptied and marked; null exactly when none is free. */
    method Acquire() returns (slot: RequestSlot?)
      requires Valid()
      modifies slots
      ensures slots == old(slots)
      ensures match FirstFree(old(InUse()))
        case None => slot == null && InUse() == old(InUse())
        case Some(i) =>
          && slot == slots[i] && InUse() == old(InUse())[i := true]
          && slot.imageBytes == [] && slot.inputTensor == [] && slot.resultJson == ""
      ensures forall s | s in slots && s != slot :: unchanged(s)
    {
      slot := null;
      ghost var flags := InUse();
      var i := 0;
      while i < |slots|
        invariant 0 <= i <= |slots| && forall j :: 0 <= j < i ==> flags[j]
        invariant forall s | s in slots :: unchanged(s)
      {
        if !slots[i].inUse {
          assert !flags[i] && FirstFree(flags) == Some(i);
          slots[i].inUse := true;
          slots[i].Reset();
          slot := slots[i];
          assert InUse() == old(InUse())[i := true];
          return;
        }
        i := i + 1;
      }
      assert InUse() == old(InUse());
    }

    method Available() returns (n: nat)
      requires Valid()
      ensures n == CountFree(InUse())
    {
      n := 0;
      var i := 0;
      while i < |slots|
        invariant 0 <= i <= |slots| && n == CountFree(InUse()[..i])
      {
        assert InUse()[..i + 1][..i] == InUse()[..i];
        if !slots[i].inUse { n := n + 1; }
        i := i + 1;
      }
      assert InUse()[..i] == InUse();
    }

    method Release(slot: RequestSlot)
      requires Valid() && slot in slots
      modifies slot
      ensures slots == old(slots) && !slot.inUse
      ensures forall i :: 0 <= i < |slots| && slots[i] != slot ==> InUse()[i] == old(InUse())[i]
      ensures slot.imageBytes == old(slot.imageBytes) && slot.resultJson == old(slot.resultJson)
    {
      slot.inUse := false;
    }
  }

  lemma {:induction false} AllFree(inUse: seq<bool>)
    requires forall i :: 0 <= i < |inUse| ==> !inUse[i]
    ensures CountFree(inUse) == |inUse|
    decreases |inUse|
  {
    if inUse != [] { AllFree(inUse[..|inUse| - 1]); }
  }

  // ---------------------------------------------------------------- the pool under concurrency

  /** What a handed-out reference-counted pointer is doing: in use, on its way back, given back. */
  datatype Phase = Live(refs: nat) | Returning | Returned

  datatype Lease = Lease(slot: nat, phase: Phase)

  /** The holder of the mutex, with the flags as they were when it got it. */
  datatype Scanner = Idle | Acquiring(at: nat, start: seq<bool>) | Counting(at: nat, n: nat, start: seq<bool>)

  /** What calls returned: nothing free, or a count together with the flags at both ends of the call. */
  datatype Answer = Exhausted(start: seq<bool>) | Counted(n: nat, start: seq<bool>, end: seq<bool>)

  datatype Pool = Pool(inUse: seq<bool>, leases: seq<Lease>, scanner: Scanner, answers: seq<Answer>)

  datatype Event = BeginAcquire | BeginCount | Look | Copy(lease: nat) | Drop(lease: nat) | GiveBack(lease: nat)

  predicate Can(p: Pool, e: Event) {
    match e
    case BeginAcquire => p.scanner.Idle?
    case BeginCount => p.scanner.Idle?
    case Look => !p.scanner.Idle?
    case Copy(l) => l < |p.leases| && p.leases[l].phase.Live?
    case Drop(l) => l < |p.leases| && p.leases[l].phase.Live?
    case GiveBack(l) => l < |p.leases| && p.leases[l].phase.Returning? && p.leases[l].slot < |p.inUse|
  }

  function SetPhase(p: Pool, l: nat, phase: Phase): Pool
    requires l < |p.leases|
  {
    p.(leases := p.leases[l := p.leases[l].(phase := phase)])
  }

  /** The scanner looks at the next slot, or finds that there is none left. */
  function LookOnce(p: Pool): Pool
    requires !p.scanner.Idle?
  {
    match p.scanner
    case Acquiring(at, start) =>
      if at >= |p.inUse| then p.(scanner := Idle, answers := p.answers + [Exhausted(start)])
      else if p.inUse[at] then p.(scanner := Acquiring(at + 1, start))
      else p.(inUse := p.inUse[at := true], leases := p.leases + [Lease(at, Live(1))], scanner := Idle)
    case Counting(at, n, start) =>
      if at >= |p.inUse| then p.(scanner := Idle, answers := p.answers + [Counted(n, start, p.inUse)])
      else p.(scanner := Counting(at + 1, if p.inUse[at] then n else n + 1, start))
  }

  function Next(p: Pool, e: Event): Pool
    requires Can(p, e)
  {
    match e
    case BeginAcquire => p.(scanner := Acquiring(0, p.inUse))
    case BeginCount => p.(scanner := Counting(0, 0, p.inUse))
    case Look => LookOnce(p)
    case Copy(l) => SetPhase(p, l, Live(p.leases[l].phase.refs + 1))
    case Drop(l) => SetPhase(p, l, if p.leases[l].phase.refs > 1 then Live(p.leases[l].phase.refs - 1) else Returning)
    case GiveBack(l) => SetPhase(p, l, Returned).(inUse := p.inUse[p.leases[l].slot := false])
  }

  function Fresh(capacity: nat): Pool { Pool(seq(capacity, _ => false), [], Idle, []) }

  ghost predicate StepTo(p: Pool, e: Event, q: Pool) { Can(p, e) && q == Next(p, e) }

  ghost predicate Reachable(p: Pool, capacity: nat, events: seq<Event>)
    decreases |events|
  {
    if events == [] then p == Fresh(capacity)
    else
      var earlier, last := events[..|events| - 1], events[|events| - 1];
      exists q :: Reachable(q, capacity, earlier) && StepTo(q, last, p)
  }

  predicate Held(l: Lease) { !l.phase.Returned? }

  function CountHeld(leases: seq<Lease>): nat {
    if leases == [] then 0 else CountHeld(leases[..|leases| - 1]) + (if Held(leases[|leases| - 1]) then 1 else 0)
  }

  /** No slot is behind two leases at once. */
  ghost predicate Exclusive(p: Pool) {
    forall i, j :: 0 <= i < j < |p.leases| && Held(p.leases[i]) && Held(p.leases[j]) ==> p.leases[i].slot != p.leases[j].slot
  }

  /** A flag is set exactly while a lease on its slot is out. */
  ghost predicate FlagsTrue(p: Pool) {
    && (forall l :: 0 <= l < |p.leases| && Held(p.leases[l]) ==> p.leases[l].slot < |p.inUse| && p.inUse[p.leases[l].slot])
    && (forall s :: 0 <= s < |p.inUse| && p.inUse[s] ==> exists l :: 0 <= l < |p.leases| && Held(p.leases[l]) && p.leases[l].slot == s)
  }

  /** While the mutex is held flags only fall; what was passed over was in use when the scan began. */
  ghost predicate ScanSound(p: Pool) {
    match p.scanner
    case Idle => true
    case Acquiring(at, start) =>
      && Fallen(start, p.inUse) && at <= |start| && forall j :: 0 <= j < at ==> start[j]
    case Counting(at, n, start) =>
      && Fallen(start, p.inUse) && at <= |start| && CountFree(start[..at]) <= n <= CountFree(p.inUse[..at])
  }

  ghost predicate Fallen(start: seq<bool>, later: seq<bool>) {
    |start| == |later| && forall j :: 0 <= j < |start| && later[j] ==> start[j]
  }

  ghost predicate AnswerSound(a: Answer) {
    match a
    case Exhausted(start) => CountFree(start) == 0
    case Counted(n, start, end) => CountFree(start) <= n <= CountFree(end)
  }

  ghost predicate Sound(p: Pool, capacity: nat) {
    && |p.inUse| == capacity && CountFree(p.inUse) + CountHeld(p.leases) == capacity
    && Exclusive(p) && FlagsTrue(p) && ScanSound(p)
    && forall a :: 0 <= a < |p.answers| ==> AnswerSound(p.answers[a])
  }

  // ---------------------------------------------------------------- counting

  lemma {:induction false} CountFlip(inUse: seq<bool>, s: nat, b: bool)
    requires s < |inUse|
    ensures CountFree(inUse[s := b]) == CountFree(inUse) + (if inUse[s] then 1 else 0) - (if b then 1 else 0)
    decreases |inUse|
  {
    var n := |inUse| - 1;
    if s < n {
      CountFlip(inUse[..n], s, b);
      assert inUse[s := b][..n] == inUse[..n][s := b];
    } else {
      assert inUse[s := b][..n] == inUse[..n];
    }
  }

  lemma {:induction false} HeldUpdate(leases: seq<Lease>, l: nat, lease: Lease)
    requires l < |leases|
    ensures CountHeld(leases[l := lease]) ==
            CountHeld(leases) + (if Held(lease) then 1 else 0) - (if Held(leases[l]) then 1 else 0)
    decreases |leases|
  {
    var n := |leases| - 1;
    if l < n {
      HeldUpdate(leases[..n], l, lease);
      assert leases[l := lease][..n] == leases[..n][l := lease];
    } else {
      assert leases[l := lease][..n] == leases[..n];
    }
  }

  lemma {:induction false} FallenCount(start: seq<bool>, later: seq<bool>)
    requires Fallen(start, later)
    ensures CountFree(start) <= CountFree(later)
    decreases |start|
  {
    if start != [] { FallenCount(start[..|start| - 1], later[..|later| - 1]); }
  }

  lemma {:induction false} NoneFree(inUse: seq<bool>)
    requires forall j :: 0 <= j < |inUse| ==> inUse[j]
    ensures CountFree(inUse) == 0
    decreases |inUse|
  {
    if inUse != [] { NoneFree(inUse[..|inUse| - 1]); }
  }

  // ---------------------------------------------------------------- steps

  lemma AcquiringSound(p: Pool, capacity: nat)
    requires Sound(p, capacity) && p.scanner.Acquiring?
    ensures Sound(LookOnce(p), capacity)
  {
    var at, start := p.scanner.at, p.scanner.start;
    if at >= |p.inUse| {
      NoneFree(start);
    } else if !p.inUse[at] {
      Handing(p, at, capacity);
    }
  }

  lemma CountNext(s: seq<bool>, at: nat)
    requires at < |s|
    ensures CountFree(s[..at + 1]) == CountFree(s[..at]) + (if s[at] then 0 else 1)
  {
    var t := s[..at + 1];
    assert t[..at] == s[..at] && t[at] == s[at];
  }

  lemma CountedSound(p: Pool, capacity: nat)
    requires Sound(p, capacity) && p.scanner.Counting? && p.scanner.at >= |p.inUse|
    ensures Sound(LookOnce(p), capacity)
  {
    var start := p.scanner.start;
    assert start[..p.scanner.at] == start && p.inUse[..p.scanner.at] == p.inUse;
    assert AnswerSound(Counted(p.scanner.n, start, p.inUse));
  }

  lemma CountingSound(p: Pool, capacity: nat)
    requires Sound(p, capacity) && p.scanner.Counting?
    ensures Sound(LookOnce(p), capacity)
  {
    if p.scanner.at >= |p.inUse| {
      CountedSound(p, capacity);
    } else {
      CountNext(p.scanner.start, p.scanner.at);
      CountNext(p.inUse, p.scanner.at);
      assert ScanSound(LookOnce(p));
    }
  }

  /** A free slot is behind no lease that is still out, so a new lease on it stays exclusive. */
  lemma Handing(p: Pool, at: nat, capacity: nat)
    requires Sound(p, capacity) && at < |p.inUse| && !p.inUse[at]
    ensures Sound(p.(inUse := p.inUse[at := true], leases := p.leases + [Lease(at, Live(1))], scanner := Idle), capacity)
  {
    var leases := p.leases + [Lease(at, Live(1))];
    CountFlip(p.inUse, at, true);
    assert leases[..|leases| - 1] == p.leases;
    HandingFlags(p, p.(inUse := p.inUse[at := true], leases := leases, scanner := Idle), at);
  }

  lemma HandingFlags(p: Pool, q: Pool, at: nat)
    requires Exclusive(p) && FlagsTrue(p) && at < |p.inUse| && !p.inUse[at]
    requires q.inUse == p.inUse[at := true] && q.leases == p.leases + [Lease(at, Live(1))]
    ensures Exclusive(q) && FlagsTrue(q)
  {
    assert forall l :: 0 <= l < |p.leases| ==> q.leases[l] == p.leases[l];
    assert q.leases[|p.leases|].slot == at;
    forall s | 0 <= s < |q.inUse| && s != at && q.inUse[s]
      ensures exists l :: 0 <= l < |q.leases| && Held(q.leases[l]) && q.leases[l].slot == s
    {
      var l :| 0 <= l < |p.leases| && Held(p.leases[l]) && p.leases[l].slot == s;
      assert q.leases[l] == p.leases[l];
    }
  }

  lemma PhaseSound(p: Pool, l: nat, phase: Phase, capacity: nat)
    requires Sound(p, capacity) && l < |p.leases| && Held(p.leases[l]) && !phase.Returned?
    ensures Sound(SetPhase(p, l, phase), capacity)
  {
    var q := SetPhase(p, l, phase);
    HeldUpdate(p.leases, l, q.leases[l]);
    assert forall k :: 0 <= k < |p.leases| ==> q.leases[k].slot == p.leases[k].slot && Held(q.leases[k]) == Held(p.leases[k]);
    forall s | 0 <= s < |q.inUse| && q.inUse[s]
      ensures exists k :: 0 <= k < |q.leases| && Held(q.leases[k]) && q.leases[k].slot == s
    {
      var k :| 0 <= k < |p.leases| && Held(p.leases[k]) && p.leases[k].slot == s;
      assert Held(q.leases[k]) && q.leases[k].slot == s;
    }
  }

  lemma GiveBackSound(p: Pool, l: nat, capacity: nat)
    requires Sound(p, capacity) && l < |p.leases| && Held(p.leases[l])
    ensures Sound(SetPhase(p, l, Returned).(inUse := p.inUse[p.leases[l].slot := false]), capacity)
  {
    var q := SetPhase(p, l, Returned).(inUse := p.inUse[p.leases[l].slot := false]);
    HeldUpdate(p.leases, l, q.leases[l]);
    CountFlip(p.inUse, p.leases[l].slot, false);
    GiveBackFlags(p, q, l);
    GiveBackScan(p, q, l);
  }

  lemma GiveBackFlags(p: Pool, q: Pool, l: nat)
    requires Exclusive(p) && FlagsTrue(p) && l < |p.leases| && Held(p.leases[l])
    requires q.leases == p.leases[l := p.leases[l].(phase := Returned)] && q.inUse == p.inUse[p.leases[l].slot := false]
    ensures Exclusive(q) && FlagsTrue(q)
  {
    forall s | 0 <= s < |q.inUse| && q.inUse[s]
      ensures exists k :: 0 <= k < |q.leases| && Held(q.leases[k]) && q.leases[k].slot == s
    {
      var k :| 0 <= k < |p.leases| && Held(p.leases[k]) && p.leases[k].slot == s;
      assert k != l && q.leases[k] == p.leases[k];
    }
  }

  lemma GiveBackScan(p: Pool, q: Pool, l: nat)
    requires ScanSound(p) && l < |p.leases| && p.leases[l].slot < |p.inUse|
    requires q.scanner == p.scanner && q.inUse == p.inUse[p.leases[l].slot := false]
    ensures ScanSound(q)
  {
    if p.scanner.Counting? {
      FallenCount(p.inUse[..p.scanner.at], q.inUse[..p.scanner.at]);
    }
  }

  lemma ReferenceSound(p: Pool, e: Event, capacity: nat)
    requires Sound(p, capacity) && Can(p, e) && (e.Copy? || e.Drop?)
    ensures Sound(Next(p, e), capacity)
  {
    PhaseSound(p, e.lease, Next(p, e).leases[e.lease].phase, capacity);
  }

  lemma StepSound(p: Pool, e: Event, capacity: nat)
    requires Sound(p, capacity) && Can(p, e)
    ensures Sound(Next(p, e), capacity)
  {
    match e {
      case BeginAcquire =>
      case BeginCount => assert p.inUse[..0] == [];
      case Look => if p.scanner.Acquiring? { AcquiringSound(p, capacity); } else { CountingSound(p, capacity); }
      case Copy(l) => ReferenceSound(p, e, capacity);
      case Drop(l) => ReferenceSound(p, e, capacity);
      case GiveBack(l) => GiveBackSound(p, l, capacity);
    }
  }

  /**
   Over every interleaving: no slot is ever behind two live leases, free slots and leases still out
   add up to the capacity, an acquire that failed began with every slot in use, and a count lies
   between the number of free slots at its beginning and at its end.
   */
  lemma {:induction false} EveryPoolRun(p: Pool, capacity: nat, events: seq<Event>)
    requires Reachable(p, capacity, events)
    ensures Sound(p, capacity)
    decreases |events|
  {
    if events == [] {
      AllFree(p.inUse);
    } else {
      var last := events[|events| - 1];
      var q :| Reachable(q, capacity, events[..|events| - 1]) && StepTo(q, last, p);
      EveryPoolRun(q, capacity, events[..|events| - 1]);
      StepSound(q, last, capacity);
    }
  }

  /** The slot is behind a pointer somebody holds. */
  ghost predicate Lent(p: Pool, s: nat) {
    exists l :: 0 <= l < |p.leases| && p.leases[l].phase.Live? && p.leases[l].slot == s
  }

  lemma ComesFromFree(p: Pool, e: Event, capacity: nat, s: nat)
    requires Sound(p, capacity) && Can(p, e) && !Lent(p, s) && Lent(Next(p, e), s)
    ensures e.Look? && s < capacity && !p.inUse[s]
  {
    var q := Next(p, e);
    var l :| 0 <= l < |q.leases| && q.leases[l].phase.Live? && q.leases[l].slot == s;
    assert forall k :: 0 <= k < |p.leases| ==> q.leases[k].slot == p.leases[k].slot;
  }

  lemma LeavesByDrop(p: Pool, e: Event, s: nat)
    requires Can(p, e) && Lent(p, s) && !Lent(Next(p, e), s)
    ensures e.Drop? && p.leases[e.lease].slot == s && p.leases[e.lease].phase.refs <= 1
  {
    var q := Next(p, e);
    var l :| 0 <= l < |p.leases| && p.leases[l].phase.Live? && p.leases[l].slot == s;
    assert q.leases[l].slot == s;
    assert !q.leases[l].phase.Live?;
  }

  /**
   The discipline a user of the pool relies on: a slot comes into someone's hands only while it is in
   nobody's, and leaves them only when the last reference goes.
   */
  lemma LendingDiscipline(p: Pool, e: Event, capacity: nat, s: nat)
    requires Sound(p, capacity) && Can(p, e)
    ensures !Lent(p, s) && Lent(Next(p, e), s) ==> e.Look? && s < capacity && !p.inUse[s]
    ensures Lent(p, s) && !Lent(Next(p, e), s) ==>
              e.Drop? && p.leases[e.lease].slot == s && p.leases[e.lease].phase.refs <= 1
  {
    if !Lent(p, s) && Lent(Next(p, e), s) { ComesFromFree(p, e, capacity, s); }
    if Lent(p, s) && !Lent(Next(p, e), s) { LeavesByDrop(p, e, s); }
  }

  /** A failed acquire need not mean that no slot is free when it returns: one given back behind the scan is missed. */
  lemma SlotGivenBackBehindTheScanIsMissed(p: Pool, l: nat, capacity: nat)
    requires Sound(p, capacity) && p.scanner.Acquiring? && p.scanner.at == |p.inUse| && Can(p, GiveBack(l))
    ensures var q := Next(Next(p, GiveBack(l)), Look);
            q.answers == p.answers + [Exhausted(p.scanner.start)] && CountFree(q.inUse) > 0
  {
    CountFlip(p.inUse, p.leases[l].slot, false);
    assert p.inUse[p.leases[l].slot];
  }
}
