/** A bound on the backlog that guarantees lossless delivery. */
module Backlog {
  import opened Machine
  import opened Ring
  import opened Delivery
  import opened World
  import opened Gaps

  /** The aligned bytes of the messages from index k on. */
  function UnreadBytes(log: seq<Message>, k: nat): (r: nat)
    decreases |log| - k
  {
    if k < |log| then Total(log[k]) + UnreadBytes(log, k + 1) else 0
  }

  /** The slot is live and its cycle tells the truth: the writer's on the current lap, one less on
      the previous lap. A reset establishes it. */
  predicate InSync(q: Queue, s: nat)
    requires Shaped(q)
  {
    && Live(q, s)
    && q.mem.readers[s].cycle + (if q.mem.readers[s].offset <= q.mem.offset then 0 else 1) ==
         q.mem.cycle
  }

  /** With messages of at most M bytes, header and padding included, the writer turned back at
      most M + 8 bytes before the end: the tail a lap can waste. */
  predicate TagHigh(q: Queue, M: nat) {
    q.hist.tag.Some? ==> |q.mem.data| <= q.hist.tag.value + M + WORD
  }

  // ---- where the unread bytes are ------------------------------------------------------------

  lemma {:induction false} CurrentBytes(q: Queue, k: nat)
    requires LayoutOk(q) && q.hist.mid <= k <= |q.hist.log|
    ensures UnreadBytes(q.hist.log, k) ==
            q.mem.offset - (if k < |q.hist.log| then q.hist.off[k] else q.mem.offset)
    decreases |q.hist.log| - k
  {
    hide Intact, PreviousLap;
    if k < |q.hist.log| {
      assert End(q.hist, k) <= q.mem.offset;
      CurrentBytes(q, k + 1);
    }
  }

  lemma {:induction false} PreviousBytes(q: Queue, k: nat)
    requires LayoutOk(q) && q.hist.base <= k <= q.hist.mid && q.hist.tag.Some?
    ensures UnreadBytes(q.hist.log, k) ==
            q.hist.tag.value - (if k < q.hist.mid then q.hist.off[k] else q.hist.tag.value)
            + q.mem.offset
    decreases q.hist.mid - k
  {
    hide Intact;
    if k < q.hist.mid {
      assert End(q.hist, k) <= q.hist.tag.value;
      PreviousBytes(q, k + 1);
    } else {
      CurrentBytes(q, k);
    }
  }

  /** For a reader in sync the backlog is the distance to the write offset, around the tag if the
      reader is still on the previous lap. */
  lemma BacklogIsDistance(q: Queue, s: nat)
    requires Quiet(q) && InSync(q, s)
    ensures q.mem.readers[s].offset <= q.mem.offset ==>
              UnreadBytes(q.hist.log, q.hist.next[s]) == q.mem.offset - q.mem.readers[s].offset
    ensures q.mem.readers[s].offset > q.mem.offset ==>
              && q.hist.tag.Some? && q.mem.readers[s].offset <= q.hist.tag.value
              && UnreadBytes(q.hist.log, q.hist.next[s]) ==
                 q.hist.tag.value - q.mem.readers[s].offset + q.mem.offset
  {
    hide Intact, CurrentLap;
    LivePositioned(q, s);
    var r, k := q.mem.readers[s].offset, q.hist.next[s];
    if r < q.mem.offset {
      CurrentBytes(q, k);
    } else if r > q.mem.offset {
      assert k < q.hist.mid ==> r < End(q.hist, k);
      PreviousBytes(q, k);
    }
  }

  // ---- one step --------------------------------------------------------------------------------

  /** A reader in sync is told "empty" exactly when nothing is unread. */
  lemma NeverFalselyEmpty(q: Queue, s: nat)
    requires Quiet(q) && InSync(q, s)
    ensures Unread(q, s) <==> q.hist.next[s] < |q.hist.log|
  {
    LivePositioned(q, s);
    if Unread(q, s) {
      UnreadHasNext(q, s);
    }
  }

  /** The backlog from message k on leaves room for the message m, for the largest tail a wrap can
      waste, and one byte more. */
  predicate Bounded(q: Queue, m: Message, k: nat, M: nat) {
    Total(m) <= M && UnreadBytes(q.hist.log, k) + Total(m) + M + WORD < |q.mem.data|
  }

  lemma SendTagHigh(q: Queue, m: Message, M: nat)
    requires Quiet(q) && Sendable(q.mem, m) && TagHigh(q, M) && Total(m) <= M
    ensures TagHigh(Send(q, m), M)
  {
  }

  /** Within the bound a send neither invalidates the reader nor lets it fall a lap behind. */
  lemma SendKeepsSync(q: Queue, m: Message, s: nat, M: nat)
    requires Quiet(q) && Sendable(q.mem, m) && InSync(q, s) && TagHigh(q, M)
    requires Bounded(q, m, q.hist.next[s], M)
    ensures InSync(Send(q, m), s) && !Skips(q.mem, m, s)
    ensures Send(q, m).mem.readers[s] == q.mem.readers[s]
  {
    hide Intact, CurrentLap, PreviousLap, UnreadBytes, ReaderOk;
    BacklogIsDistance(q, s);
    if Wraps(q.mem, m) {
      ThreeFit(q.mem, m);
    }
  }

  lemma AdvanceKeepsSync(q: Queue, s: nat)
    requires Quiet(q) && InSync(q, s) && Unread(q, s)
    ensures q.hist.next[s] < |q.hist.log| && InSync(Advance(q, s, q.hist.next[s]), s)
  {
    hide Intact;
    LivePositioned(q, s);
    UnreadHasNext(q, s);
    var k := q.hist.next[s];
    assert q.hist.mid <= k ==> End(q.hist, k) <= q.mem.offset;
    assert q.hist.base <= k < q.hist.mid ==> q.hist.off[k] < End(q.hist, k);
  }

  // ---- runs --------------------------------------------------------------------------------------

  /** A send stays within the bound, and any other operation leaves the slot alone. */
  predicate Calm(w: World, op: Op, h: nat, M: nat)
    requires Shaped(w.q) && op.h < |w.handles| && h < |w.handles|
  {
    if op.OpSend? then
      w.handles[op.h].writeUid == w.q.mem.writeUid ==> Bounded(w.q, op.m, Seen(w, h), M)
    else
      Undisturbed(w, op, h)
  }

  ghost predicate Synced(w: World, h: nat, M: nat)
    requires Shaped(w.q)
  {
    Holds(w, h) && InSync(w.q, w.handles[h].id) && TagHigh(w.q, M) && !w.handles[h].conflate
  }

  lemma CalmStep(w: World, op: Op, h: nat, M: nat)
    requires WorldOk(w) && Legal(w, op) && DistinctUids(w)
    requires Synced(w, h, M) && Calm(w, op, h, M)
    ensures WorldOk(Step(w, op))
    ensures Undisturbed(w, op, h) && Synced(Step(w, op), h, M)
  {
    hide Intact, CurrentLap, PreviousLap, ReaderOk, Positioned, Subsequence, ReceiveStep, Receive;
    hide Send, Refresh, UnreadBytes, Clears, Skips;
    var hd := w.handles[h];
    StepKeeps(w, op);
    match op
    case OpReceive(j, uid) =>
      ReceiveDelivers(w, j, uid);
      if j == h {
        ReceiveIsNext(w.q, hd, uid);
        if Unread(w.q, hd.id) {
          AdvanceKeepsSync(w.q, hd.id);
        }
      } else {
        ReceiveLeavesSlot(w.q, hd, w.handles[j], uid);
      }
    case OpReady(j, uid) =>
      if j == h {
        RefreshKeeps(w.q, hd, uid);
      } else {
        RefreshLeavesSlot(w.q, hd, w.handles[j], uid);
      }
    case OpSend(j, m) =>
      if w.handles[j].writeUid == w.q.mem.writeUid {
        SendKeepsSync(w.q, m, hd.id, M);
        SendTagHigh(w.q, m, M);
        SendClearsExactly(w.q, m, hd.id);
      }
    case OpReset(j) =>
    case OpSubscribe(j, uid) => SubscribeLeavesSlot(w.q, uid, hd.id);
  }

  ghost predicate CalmRun(w: World, ops: seq<Op>, h: nat, M: nat)
    requires WorldOk(w) && LegalRun(w, ops)
    decreases |ops|
  {
    ops != [] ==>
      && h < |w.handles| && Calm(w, ops[0], h, M)
      && (StepKeeps(w, ops[0]); CalmRun(Step(w, ops[0]), ops[1..], h, M))
  }

  lemma {:induction false} CalmRunUndisturbed(w: World, ops: seq<Op>, h: nat, M: nat)
    requires WorldOk(w) && LegalRun(w, ops) && DistinctUids(w)
    requires Synced(w, h, M) && CalmRun(w, ops, h, M)
    ensures UndisturbedRun(w, ops, h)
    ensures WorldOk(Run(w, ops)) && Synced(Run(w, ops), h, M)
    decreases |ops|
  {
    hide Step, Legal, Undisturbed, Calm, Synced, DistinctUids, WorldOk;
    if ops != [] {
      StepKeeps(w, ops[0]);
      StepDistinct(w, ops[0]);
      CalmStep(w, ops[0], h, M);
      CalmRunUndisturbed(Step(w, ops[0]), ops[1..], h, M);
    }
  }

  /** Lossless delivery. Let every message take at most M bytes, and let the unread bytes U of a
      reader in sync satisfy U + t + M + 8 < size before every send of t bytes. Then over any run
      of sends, receives, polls, new subscribers and resets of other slots in which nobody is
      evicted, the reader is never invalidated, is never told "empty" while something is unread, and
      receives every message exactly once, in order. */
  lemma LosslessWithinBound(w: World, ops: seq<Op>, h: nat, M: nat)
    requires WorldOk(w) && LegalRun(w, ops) && DistinctUids(w)
    requires Synced(w, h, M) && CalmRun(w, ops, h, M)
    ensures var w' := Run(w, ops);
            && WorldOk(w') && Holds(w', h) && w'.handles[h] == w.handles[h]
            && (Unread(w'.q, w'.handles[h].id) <==> Seen(w', h) < |w'.q.hist.log|)
            && Seen(w, h) <= Seen(w', h) <= |w'.q.hist.log|
            && w'.got[h] == w.got[h] + Entries(w'.q.hist.log, Seen(w, h), Seen(w', h))
  {
    hide Intact, CurrentLap, PreviousLap, ReaderOk, Run, LegalRun, CalmRun, Subsequence;
    CalmRunUndisturbed(w, ops, h, M);
    NoGaps(w, ops, h);
    NeverFalselyEmpty(Run(w, ops).q, w.handles[h].id);
  }

  /** A slot that was just reset is in sync. */
  lemma ResetIsInSync(q: Queue, s: nat)
    requires Inv(q) && s < q.mem.numReaders
    ensures InSync(Reset(q, s), s) && Reset(q, s).hist.next[s] == |q.hist.log|
  {
  }

  /** Messages of at most M bytes never let the writer turn back early. */
  lemma StepTagHigh(w: World, op: Op, M: nat)
    requires WorldOk(w) && Legal(w, op) && TagHigh(w.q, M)
    requires op.OpSend? ==> Total(op.m) <= M
    ensures TagHigh(Step(w, op).q, M)
  {
    hide Intact, CurrentLap, PreviousLap, ReaderOk, Subsequence, Send;
    if op.OpSend? {
      SendTagHigh(w.q, op.m, M);
    }
  }

  lemma {:induction false} RunTagHigh(w: World, ops: seq<Op>, M: nat)
    requires WorldOk(w) && LegalRun(w, ops) && TagHigh(w.q, M) && DistinctUids(w)
    requires forall i :: 0 <= i < |ops| && ops[i].OpSend? ==> Total(ops[i].m) <= M
    ensures TagHigh(Run(w, ops).q, M) && DistinctUids(Run(w, ops))
    decreases |ops|
  {
    hide WorldOk, Legal, Step, TagHigh, DistinctUids;
    if ops != [] {
      StepKeeps(w, ops[0]);
      StepTagHigh(w, ops[0], M);
      StepDistinct(w, ops[0]);
      RunTagHigh(Step(w, ops[0]), ops[1..], M);
    }
  }

  /** The same from the start: whatever happened before with messages of at most M bytes, a reader
      that is reset and from then on kept within the bound receives every message sent after the
      reset, exactly once and in order. */
  lemma LosslessFromReset(w0: World, before: seq<Op>, h: nat, after: seq<Op>, M: nat)
    requires Initial(w0) && WorldOk(w0) && LegalRun(w0, before)
    requires forall i :: 0 <= i < |before| && before[i].OpSend? ==> Total(before[i].m) <= M
    requires WorldOk(Run(w0, before)) && Holds(Run(w0, before), h)
    requires !Run(w0, before).handles[h].conflate && Legal(Run(w0, before), OpReset(h))
    requires var w := Step(Run(w0, before), OpReset(h));
             WorldOk(w) && LegalRun(w, after) && CalmRun(w, after, h, M)
    ensures var w1 := Run(w0, before);
            var w' := Run(Step(w1, OpReset(h)), after);
            && WorldOk(w') && Holds(w', h) && h < |w1.got|
            && |w1.q.hist.log| <= Seen(w', h) <= |w'.q.hist.log|
            && (Unread(w'.q, w'.handles[h].id) <==> Seen(w', h) < |w'.q.hist.log|)
            && w'.got[h] ==
               w1.got[h] + Entries(w'.q.hist.log, |w1.q.hist.log|, Seen(w', h))
  {
    hide Intact, CurrentLap, PreviousLap, ReaderOk, Run, LegalRun, CalmRun, Subsequence, Legal;
    var w1 := Run(w0, before);
    InitialDistinct(w0);
    InitialTagHigh(w0, M);
    RunTagHigh(w0, before, M);
    ResetSynced(w1, h, M);
    LosslessWithinBound(Step(w1, OpReset(h)), after, h, M);
  }

  lemma InitialTagHigh(w: World, M: nat)
    requires Initial(w)
    ensures TagHigh(w.q, M)
  {
  }

  lemma ResetSynced(w: World, h: nat, M: nat)
    requires WorldOk(w) && Holds(w, h) && Legal(w, OpReset(h)) && TagHigh(w.q, M)
    requires !w.handles[h].conflate && DistinctUids(w)
    ensures var w' := Step(w, OpReset(h));
            && WorldOk(w') && Synced(w', h, M) && DistinctUids(w') && w'.got == w.got
            && h < |w'.handles| && Seen(w', h) == |w.q.hist.log|
  {
    hide Intact, CurrentLap, PreviousLap, ReaderOk, Subsequence;
    StepKeeps(w, OpReset(h));
    StepDistinct(w, OpReset(h));
    ResetIsInSync(w.q, w.handles[h].id);
  }
}
