/** When all readers count as updated, exactly. */
module Updated {
  import opened Machine
  import opened Ring
  import opened RingInvariant
  import opened Delivery
  import opened World
  import opened Gaps
  import opened Lag

  /** The slot has everything, and its cycle counter does not lag. */
  predicate CaughtUp(q: Queue, s: nat, lag: nat)
    requires Shaped(q) && s < NUM_READERS
  {
    q.hist.next[s] == |q.hist.log| && lag == 0
  }

  /** All readers are updated exactly when there is one and every valid one has delivered the whole log
      and has not lost messages since its last reset; invalidated ones do not matter. */
  lemma UpdatedIffCaughtUp(q: Queue, lags: seq<nat>)
    requires Quiet(q) && LagsOk(q, lags)
    ensures q.mem.numReaders <= |q.mem.readers|
    ensures AllReadersUpdated(q.mem) <==>
              && 1 <= q.mem.numReaders
              && forall s :: 0 <= s < NUM_READERS && Live(q, s) ==> CaughtUp(q, s, lags[s])
  {
    hide Intact, CurrentLap, PreviousLap, Positioned, MembersOk;
    MembersBound(q);
    forall s | 0 <= s < NUM_READERS && Live(q, s)
      ensures CaughtUp(q, s, lags[s]) <==>
                q.mem.readers[s].cycle == q.mem.cycle && q.mem.readers[s].offset == q.mem.offset
    {
      LevelIffCaughtUp(q, s, lags[s]);
    }
  }

  lemma MembersBound(q: Queue)
    requires Quiet(q)
    ensures q.mem.numReaders <= NUM_READERS == |q.mem.readers|
  {
  }

  lemma LevelIffCaughtUp(q: Queue, s: nat, lag: nat)
    requires Quiet(q) && Lags(q, s, lag)
    ensures CaughtUp(q, s, lag) <==>
              q.mem.readers[s].cycle == q.mem.cycle && q.mem.readers[s].offset == q.mem.offset
  {
    hide Intact, CurrentLap, PreviousLap;
    LivePositioned(q, s);
    if Unread(q, s) {
      UnreadHasNext(q, s);
    }
  }

  /** The same in every reachable state, with the losses counted along the run. */
  lemma UpdatedExactly(w0: World, ops: seq<Op>)
    requires Initial(w0) && WorldOk(w0) && LegalRun(w0, ops)
    ensures var w, lags := Run(w0, ops), RunLags(w0, ops, NoLags());
            && Shaped(w.q) && w.q.mem.numReaders <= |w.q.mem.readers|
            && (AllReadersUpdated(w.q.mem) <==>
                  && 1 <= w.q.mem.numReaders
                  && forall s :: 0 <= s < NUM_READERS && Live(w.q, s) ==> CaughtUp(w.q, s, lags[s]))
  {
    hide Intact, CurrentLap, PreviousLap, ReaderOk, Positioned, Subsequence, Run, RunLags, LegalRun;
    hide AllReadersUpdated, CaughtUp, Lags, HandlesOk, MembersOk;
    InitialLags(w0);
    RunKeepsLags(w0, ops, NoLags());
    UpdatedIffCaughtUp(Run(w0, ops).q, RunLags(w0, ops, NoLags()));
  }

  /** The first subscriber of an unused segment has nothing to catch up with. */
  lemma UpdatedAfterSubscribing(w: World, h: nat, uid: nat)
    requires Initial(w) && WorldOk(w) && Legal(w, OpSubscribe(h, uid))
    ensures AllReadersUpdated(Step(w, OpSubscribe(h, uid)).q.mem)
  {
    hide Intact, CurrentLap, PreviousLap, ReaderOk, Positioned, Subsequence;
  }

  /** A send that leaves at least one reader valid ends it: that reader has the message to receive. */
  lemma NotUpdatedAfterSend(q: Queue, lags: seq<nat>, m: Message, s: nat)
    requires Quiet(q) && LagsOk(q, lags) && Sendable(q.mem, m)
    requires Shaped(Send(q, m)) && Live(Send(q, m), s)
    ensures Send(q, m).mem.numReaders <= |Send(q, m).mem.readers|
    ensures !AllReadersUpdated(Send(q, m).mem)
  {
    hide Intact, CurrentLap, PreviousLap, Positioned, MembersOk;
    var q' := Send(q, m);
    SendKeeps(q, m);
    SendLeavesDead(q, m, s);
    SendLags(q, m, s, lags[s]);
    SendForward(q, m);
    SendDeliversLater(q, m, s);
    MembersBound(q');
    LevelIffCaughtUp(q', s, lags[s] + if Loses(q, m, s) then 1 else 0);
  }

  lemma SendDeliversLater(q: Queue, m: Message, s: nat)
    requires Quiet(q) && Sendable(q.mem, m) && Live(q, s)
    ensures Send(q, m).hist.next[s] <= |q.hist.log|
  {
    hide Intact, CurrentLap, PreviousLap;
    LivePositioned(q, s);
    SendSkipsExactly(q, m, s);
  }

  // ---- draining ------------------------------------------------------------------------------------------

  /** The first n slots, as far as they are valid, are drained one after the other. */
  function DrainSlots(q: Queue, n: nat): (r: Queue)
    requires Shaped(q) && n <= NUM_READERS
    ensures Shaped(r)
  {
    if n == 0 then q
    else
      var q1 := DrainSlots(q, n - 1);
      if Live(q1, n - 1) then (DrainShaped(q1, n - 1); Drain(q1, n - 1).q) else q1
  }

  lemma DrainShaped(q: Queue, s: nat)
    requires Shaped(q) && s < NUM_READERS
    ensures Shaped(Drain(q, s).q)
    decreases |q.hist.log| - q.hist.next[s]
  {
    var k := q.hist.next[s];
    if Unread(q, s) && k < |q.hist.log| {
      DrainShaped(Advance(q, s, k), s);
    }
  }

  /** Draining a valid slot that has not lost messages brings it level with the writer and leaves the
      other slots alone. */
  lemma DrainCatchesUp(q: Queue, s: nat, lags: seq<nat>)
    requires Quiet(q) && LagsOk(q, lags) && Live(q, s) && !FalselyEmpty(q, s)
    ensures var q' := Drain(q, s).q;
            && Quiet(q') && LagsOk(q', lags)
            && q'.mem == q.mem.(readers := q'.mem.readers) && q'.hist.log == q.hist.log
            && q'.hist.next[s] == |q.hist.log| && Live(q', s)
            && forall j :: 0 <= j < NUM_READERS && j != s ==>
                 q'.mem.readers[j] == q.mem.readers[j] && q'.hist.next[j] == q.hist.next[j]
  {
    hide Intact, CurrentLap, PreviousLap, ReaderOk, Positioned;
    LivePositioned(q, s);
    if Unread(q, s) {
      var k := |q.hist.log| - 1;
      DrainIsSuffix(q, s);
      UnreadHasNext(q, s);
      AdvanceKeeps(q, s, k);
      AdvanceAwayFromZero(q, s, k);
      AdvanceLags(q, s, k, lags[s]);
    }
  }

  lemma QuietShaped(q: Queue)
    requires Quiet(q)
    ensures Shaped(q)
  {
  }

  /** The first n slots have caught up, the others are as they were. */
  predicate DrainedTo(q: Queue, q': Queue, n: nat) {
    && Shaped(q) && Shaped(q')
    && q'.mem == q.mem.(readers := q'.mem.readers) && q'.hist.log == q.hist.log
    && (forall s :: 0 <= s < NUM_READERS ==> (Live(q', s) <==> Live(q, s)))
    && (forall s :: 0 <= s < n && s < NUM_READERS && Live(q', s) ==>
          q'.hist.next[s] == |q.hist.log|)
    && (forall s :: n <= s < NUM_READERS ==>
          q'.mem.readers[s] == q.mem.readers[s] && q'.hist.next[s] == q.hist.next[s])
  }

  lemma DrainNextSlot(q: Queue, q1: Queue, n: nat, lags: seq<nat>)
    requires DrainedTo(q, q1, n) && n < NUM_READERS
    requires Quiet(q1) && LagsOk(q1, lags) && Live(q1, n) && !FalselyEmpty(q, n)
    ensures var q2 := Drain(q1, n).q;
            Quiet(q2) && LagsOk(q2, lags) && DrainedTo(q, q2, n + 1)
  {
    hide Quiet, Drain, LagsOk;
    DrainCatchesUp(q1, n, lags);
    QuietShaped(Drain(q1, n).q);
  }

  lemma {:induction false} DrainSlotsCatchUp(q: Queue, n: nat, lags: seq<nat>)
    requires Quiet(q) && LagsOk(q, lags) && n <= NUM_READERS
    requires forall s :: 0 <= s < NUM_READERS && Live(q, s) ==> !FalselyEmpty(q, s)
    ensures var q' := DrainSlots(q, n);
            Quiet(q') && LagsOk(q', lags) && DrainedTo(q, q', n)
    decreases n
  {
    QuietShaped(q);
    hide Quiet, Drain, LagsOk, FalselyEmpty;
    if n != 0 {
      DrainSlotsCatchUp(q, n - 1, lags);
      var q1 := DrainSlots(q, n - 1);
      if Live(q1, n - 1) {
        DrainNextSlot(q, q1, n - 1, lags);
      }
    }
  }

  /** Once every valid reader that has not lost messages since its reset has drained the queue, all
      readers are updated - unless one of them is told "empty" wrongly. */
  lemma UpdatedAfterDraining(q: Queue, lags: seq<nat>)
    requires Quiet(q) && LagsOk(q, lags) && 1 <= q.mem.numReaders
    requires forall s :: 0 <= s < NUM_READERS && Live(q, s) ==> lags[s] == 0 && !FalselyEmpty(q, s)
    ensures var q' := DrainSlots(q, NUM_READERS);
            q'.mem.numReaders <= |q'.mem.readers| && AllReadersUpdated(q'.mem)
  {
    hide Quiet, Lags, AllReadersUpdated, DrainSlots;
    DrainSlotsCatchUp(q, NUM_READERS, lags);
    UpdatedIffCaughtUp(DrainSlots(q, NUM_READERS), lags);
  }
}
