/** Evictions settle: with at most 25 subscribers, and any number of publishers, all further traffic
    evicts everyone at most once. */
module Eviction {
  import opened Ring
  import opened Delivery
  import opened World

  /** Receives, polls, sends and resets: no new subscribers and no publisher restart. */
  predicate Steady(op: Op) {
    op.OpReceive? || op.OpReady? || op.OpSend? || op.OpReset?
  }

  /** The operation has to register the handle again and finds all slots taken. */
  predicate Evicts(w: World, op: Op)
    requires Shaped(w.q) && op.h < |w.handles|
  {
    && (op.OpReceive? || op.OpReady?)
    && !Owns(w.q, w.handles[op.h])
    && w.q.mem.numReaders + 1 > NUM_READERS
  }

  ghost function Evictions(w: World, ops: seq<Op>): nat
    requires WorldOk(w) && LegalRun(w, ops)
    decreases |ops|
  {
    if ops == [] then 0
    else
      StepKeeps(w, ops[0]);
      (if Evicts(w, ops[0]) then 1 else 0) + Evictions(Step(w, ops[0]), ops[1..])
  }

  /** Every registered slot belongs to one of the handles: there are no left-overs of processes
      that are gone. */
  ghost predicate Clean(w: World)
    requires Shaped(w.q)
  {
    forall s :: 0 <= s < w.q.mem.numReaders ==> HasOwner(w, s)
  }

  predicate OwnerOf(w: World, h: nat, s: nat)
    requires Shaped(w.q)
  {
    h < |w.handles| && Owns(w.q, w.handles[h]) && w.handles[h].id == s
  }

  ghost predicate HasOwner(w: World, s: nat)
    requires Shaped(w.q)
  {
    exists h: nat :: OwnerOf(w, h, s)
  }

  /** The handles that have subscribed. A publisher's handle never claims a slot. */
  ghost function Subscribers(w: World): set<nat> {
    set h: nat | h < |w.handles| && w.handles[h].id >= 0
  }

  // ---- counting ----------------------------------------------------------------------------------

  /** The handles that own one of the first n slots. */
  ghost function Owners(w: World, n: nat): set<nat>
    requires Shaped(w.q)
  {
    set h: nat | h < |w.handles| && Owns(w.q, w.handles[h]) && w.handles[h].id < n
  }

  lemma {:induction false} OwnersAtLeast(w: World, n: nat)
    requires Shaped(w.q) && Clean(w) && n <= w.q.mem.numReaders
    ensures n <= |Owners(w, n)|
  {
    if n != 0 {
      OwnersAtLeast(w, n - 1);
      assert HasOwner(w, n - 1);
      var h: nat :| OwnerOf(w, h, n - 1);
      assert h in Owners(w, n) && h !in Owners(w, n - 1);
      SmallerSet(Owners(w, n - 1) + {h}, Owners(w, n));
    }
  }

  lemma {:induction false} SmallerSet(a: set<nat>, b: set<nat>)
    requires a <= b
    ensures |a| <= |b|
  {
    if x :| x in a {
      SmallerSet(a - {x}, b - {x});
    }
  }

  /** With no left-over slots and at most 25 subscribers, one without a slot finds one free. */
  lemma CleanHasRoom(w: World, h: nat)
    requires Shaped(w.q) && Clean(w) && |Subscribers(w)| <= NUM_READERS
    requires h in Subscribers(w) && !Owns(w.q, w.handles[h])
    ensures w.q.mem.numReaders < NUM_READERS
  {
    var n := w.q.mem.numReaders;
    OwnersAtLeast(w, n);
    var all := Owners(w, n) + {h};
    assert h !in Owners(w, n);
    SmallerSet(all, Subscribers(w));
  }

  // ---- one step ------------------------------------------------------------------------------------

  /** Refreshing a handle that owns a slot changes no uid. */
  lemma RefreshOwned(q: Queue, h: Handle, uid: nat)
    requires Shaped(q) && HandleOk(h) && Owns(q, h)
    ensures Refresh(q, h, uid).1 == h
    ensures SameUids(q, Refresh(q, h, uid).0)
  {
  }

  ghost predicate SameUids(q: Queue, q': Queue) {
    && Shaped(q) && Shaped(q')
    && q'.mem.numReaders == q.mem.numReaders
    && forall s :: 0 <= s < NUM_READERS ==> q'.mem.readers[s].uid == q.mem.readers[s].uid
  }

  /** Registering takes the next slot; when there is room nobody else is affected. */
  lemma RefreshRegisters(q: Queue, h: Handle, uid: nat)
    requires Shaped(q) && HandleOk(h) && !Owns(q, h) && q.mem.numReaders <= NUM_READERS
    ensures var (q', h') := Refresh(q, h, uid);
            && Owns(q', h') && h'.readUid == uid
            && (q.mem.numReaders == NUM_READERS ==> h'.id == 0 && q'.mem.numReaders == 1)
            && (q.mem.numReaders < NUM_READERS ==>
                  && h'.id == q.mem.numReaders && q'.mem.numReaders == q.mem.numReaders + 1
                  && forall s :: 0 <= s < NUM_READERS && s != h'.id ==>
                       q'.mem.readers[s].uid == q.mem.readers[s].uid)
  {
  }

  /** What a step does to the slots' uids and to the handles is decided by the refresh alone. */
  lemma StepIsRefresh(w: World, op: Op)
    requires WorldOk(w) && Legal(w, op) && (op.OpReceive? || op.OpReady?)
    ensures WorldOk(Step(w, op))
    ensures var (q1, h1) := Refresh(w.q, w.handles[op.h], op.uid);
            SameUids(q1, Step(w, op).q) && Step(w, op).handles == w.handles[op.h := h1]
  {
    hide Intact, CurrentLap, PreviousLap, ReaderOk, Subsequence, Refresh;
    StepKeeps(w, op);
    RefreshKeeps(w.q, w.handles[op.h], op.uid);
  }

  /** Steady operations make no new subscribers. */
  lemma SameSubscribers(w: World, op: Op)
    requires WorldOk(w) && Legal(w, op) && Steady(op)
    ensures Subscribers(Step(w, op)) == Subscribers(w)
  {
    hide Intact, CurrentLap, PreviousLap, ReaderOk, Subsequence, Step, Refresh;
    if op.OpSend? || op.OpReset? {
      OtherSteps(w, op);
    } else {
      StepIsRefresh(w, op);
      RefreshKeeps(w.q, w.handles[op.h], op.uid);
      assert forall h :: 0 <= h < |w.handles| && h != op.h ==>
        Step(w, op).handles[h] == w.handles[h];
    }
  }

  lemma OtherSteps(w: World, op: Op)
    requires WorldOk(w) && Legal(w, op) && (op.OpSend? || op.OpReset?)
    ensures WorldOk(Step(w, op))
    ensures SameUids(w.q, Step(w, op).q) && Step(w, op).handles == w.handles
  {
    hide Intact, CurrentLap, PreviousLap, ReaderOk, Subsequence;
    StepKeeps(w, op);
  }

  /** What is counted is what happens: an operation evicts exactly when it lowers the reader count; one
      that does not leaves every owner its slot, whatever slots are left over. */
  lemma EvictsExactly(w: World, op: Op)
    requires WorldOk(w) && Legal(w, op) && Steady(op)
    ensures WorldOk(Step(w, op)) && |Step(w, op).handles| == |w.handles|
    ensures Evicts(w, op) <==> Step(w, op).q.mem.numReaders < w.q.mem.numReaders
    ensures !Evicts(w, op) ==>
              forall h :: 0 <= h < |w.handles| && Owns(w.q, w.handles[h]) ==>
                Step(w, op).handles[h] == w.handles[h] && Owns(Step(w, op).q, w.handles[h])
  {
    hide Intact, CurrentLap, PreviousLap, ReaderOk, Subsequence, Step, Refresh;
    StepKeeps(w, op);
    if op.OpSend? || op.OpReset? {
      OtherSteps(w, op);
    } else {
      StepIsRefresh(w, op);
      if Owns(w.q, w.handles[op.h]) {
        RefreshOwned(w.q, w.handles[op.h], op.uid);
      } else {
        RefreshRegisters(w.q, w.handles[op.h], op.uid);
      }
    }
  }

  /** Once clean, the world stays clean and every handle keeps the slot it has. */
  lemma CleanStep(w: World, op: Op)
    requires WorldOk(w) && Legal(w, op) && Steady(op) && Clean(w)
    requires |Subscribers(w)| <= NUM_READERS
    ensures WorldOk(Step(w, op)) && |Step(w, op).handles| == |w.handles|
    ensures Clean(Step(w, op)) && !Evicts(w, op)
    ensures forall h :: 0 <= h < |w.handles| && Owns(w.q, w.handles[h]) ==>
              Step(w, op).handles[h] == w.handles[h] && Owns(Step(w, op).q, w.handles[h])
  {
    hide Intact, CurrentLap, PreviousLap, ReaderOk, Subsequence, Step, Refresh;
    StepKeeps(w, op);
    var w' := Step(w, op);
    if op.OpSend? || op.OpReset? {
      OtherSteps(w, op);
      Transfer(w, w');
    } else if Owns(w.q, w.handles[op.h]) {
      StepIsRefresh(w, op);
      RefreshOwned(w.q, w.handles[op.h], op.uid);
      Transfer(w, w');
    } else {
      CleanHasRoom(w, op.h);
      StepIsRefresh(w, op);
      RefreshRegisters(w.q, w.handles[op.h], op.uid);
      var n := w.q.mem.numReaders;
      assert OwnerOf(w', op.h, n);
      forall s | 0 <= s < n ensures HasOwner(w', s) {
        assert HasOwner(w, s);
        var h: nat :| OwnerOf(w, h, s);
        assert OwnerOf(w', h, s);
      }
    }
  }

  lemma Transfer(w: World, w': World)
    requires SameUids(w.q, w'.q) && w'.handles == w.handles && Clean(w)
    ensures Clean(w')
  {
    forall s | 0 <= s < w'.q.mem.numReaders ensures HasOwner(w', s) {
      assert HasOwner(w, s);
      var h: nat :| OwnerOf(w, h, s);
      assert OwnerOf(w', h, s);
    }
  }

  /** Evicting everyone leaves exactly one slot, owned by the handle that asked. */
  lemma EvictionCleans(w: World, op: Op)
    requires WorldOk(w) && Legal(w, op) && Evicts(w, op)
    ensures WorldOk(Step(w, op)) && Clean(Step(w, op))
  {
    hide Intact, CurrentLap, PreviousLap, ReaderOk, Subsequence, Step, Refresh;
    StepIsRefresh(w, op);
    RefreshRegisters(w.q, w.handles[op.h], op.uid);
    assert OwnerOf(Step(w, op), op.h, 0);
  }

  // ---- runs ------------------------------------------------------------------------------------------

  /** From a clean world no run evicts, and every handle keeps the slot it claims. */
  lemma {:induction false} CleanRun(w: World, ops: seq<Op>)
    requires WorldOk(w) && LegalRun(w, ops) && |Subscribers(w)| <= NUM_READERS && Clean(w)
    requires forall i :: 0 <= i < |ops| ==> Steady(ops[i])
    ensures Evictions(w, ops) == 0
    ensures WorldOk(Run(w, ops)) && |Run(w, ops).handles| == |w.handles|
    ensures forall h :: 0 <= h < |w.handles| && Owns(w.q, w.handles[h]) ==>
              Run(w, ops).handles[h] == w.handles[h] && Owns(Run(w, ops).q, w.handles[h])
    decreases |ops|
  {
    hide Step, Owns, Evicts, Steady, Clean, HandlesOk, Subsequence, Subscribers;
    hide Intact, CurrentLap, PreviousLap, ReaderOk;
    if ops != [] {
      StepKeeps(w, ops[0]);
      CleanStep(w, ops[0]);
      SameSubscribers(w, ops[0]);
      CleanRun(Step(w, ops[0]), ops[1..]);
    }
  }

  /** With at most 25 subscribers, no new ones and no publisher restart, any run contains at most
      one evict-all, whatever slots were left over from earlier processes. */
  lemma {:induction false} EvictionSettles(w: World, ops: seq<Op>)
    requires WorldOk(w) && LegalRun(w, ops) && |Subscribers(w)| <= NUM_READERS
    requires forall i :: 0 <= i < |ops| ==> Steady(ops[i])
    ensures Evictions(w, ops) <= 1
    decreases |ops|
  {
    hide Step, Owns, Evicts, Steady, Clean, HandlesOk, Subsequence, Subscribers;
    hide Intact, CurrentLap, PreviousLap, ReaderOk;
    if ops != [] {
      StepKeeps(w, ops[0]);
      SameSubscribers(w, ops[0]);
      if Evicts(w, ops[0]) {
        EvictionCleans(w, ops[0]);
        CleanRun(Step(w, ops[0]), ops[1..]);
      } else {
        EvictionSettles(Step(w, ops[0]), ops[1..]);
      }
    }
  }
}
