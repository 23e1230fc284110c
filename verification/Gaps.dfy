/** When a reader misses messages, exactly. */
module Gaps {
  import opened Machine
  import opened Ring
  import opened Delivery
  import opened World

  // ---- the one silent way to lose messages ---------------------------------------------------

  /** A wrapping send while the slot's offset equals the write offset although its cycle is older:
      the strict comparison of the first loop spares it. */
  predicate Skips(mem: Shm, m: Message, s: nat)
    requires s < |mem.readers|
  {
    && Wraps(mem, m)
    && mem.readers[s].offset == mem.offset
    && mem.readers[s].cycle != mem.cycle
  }

  /** The slot is skipped while something is unread. */
  predicate Loses(q: Queue, m: Message, s: nat)
    requires Shaped(q) && s < NUM_READERS
  {
    Skips(q.mem, m, s) && q.hist.next[s] < |q.hist.log|
  }

  /** A send makes a live slot lose unread messages without telling it exactly when it skips and
      something was unread; then everything unread is lost. */
  lemma SendSkipsExactly(q: Queue, m: Message, s: nat)
    requires Quiet(q) && Sendable(q.mem, m) && Live(q, s)
    ensures Send(q, m).hist.next[s] != q.hist.next[s] <==> Loses(q, m, s)
    ensures Skips(q.mem, m, s) ==>
              Send(q, m).hist.next[s] == |q.hist.log| && Live(Send(q, m), s)
  {
    hide Intact, CurrentLap, PreviousLap;
    LivePositioned(q, s);
    if Wraps(q.mem, m) {
      ThreeFit(q.mem, m);
    }
  }

  /** The tests of the two loops, on the state before the send: the send clears the slot's flag. */
  predicate Clears(mem: Shm, m: Message, s: nat)
    requires s < |mem.readers|
  {
    var rd := mem.readers[s];
    if Wraps(mem, m) then
      || (rd.offset > mem.offset && rd.cycle != mem.cycle)
      || (rd.offset < Total(m) && rd.cycle != mem.cycle + 1)
    else
      mem.offset <= rd.offset < mem.offset + Total(m) && rd.cycle != mem.cycle
  }

  /** A send leaves a live slot's pointer alone and invalidates it exactly when one of the loops'
      tests applies. */
  lemma SendClearsExactly(q: Queue, m: Message, s: nat)
    requires Quiet(q) && Sendable(q.mem, m) && Live(q, s)
    ensures var q' := Send(q, m);
            && Shaped(q') && q'.mem.numReaders == q.mem.numReaders
            && q'.mem.readers[s] == q.mem.readers[s].(valid := !Clears(q.mem, m, s))
  {
    hide Intact, CurrentLap, PreviousLap, ReaderOk;
  }

  // ---- gap freedom over runs -----------------------------------------------------------------

  /** No two connected handles carry the same identifier. */
  ghost predicate DistinctUids(w: World) {
    forall i, j :: 0 <= i < j < |w.handles| && w.handles[i].id >= 0 && w.handles[j].id >= 0 ==>
      w.handles[i].readUid != w.handles[j].readUid
  }

  lemma InitialDistinct(w: World)
    requires Initial(w)
    ensures DistinctUids(w)
  {
  }

  lemma StepDistinct(w: World, op: Op)
    requires WorldOk(w) && Legal(w, op) && DistinctUids(w)
    ensures DistinctUids(Step(w, op))
  {
    hide Quiet, Subsequence;
    assert forall h :: 0 <= h < |w.handles| && h != op.h ==>
      Step(w, op).handles[h] == w.handles[h];
    assert Step(w, op).handles[op.h].readUid == w.handles[op.h].readUid
        || FreshUid(w, Step(w, op).handles[op.h].readUid);
  }

  /** Handle h owns its slot and the slot is valid. */
  ghost predicate Holds(w: World, h: nat)
    requires Shaped(w.q)
  {
    h < |w.handles| && Owns(w.q, w.handles[h]) && Live(w.q, w.handles[h].id)
  }

  /** The handle keeps its slot or finds a free one: nobody is evicted. */
  predicate HasRoom(q: Queue, hd: Handle)
    requires Shaped(q)
  {
    Owns(q, hd) || q.mem.numReaders < NUM_READERS
  }

  /** The operation leaves h its slot, its flag and its position, judged on the state before it: no
      test of a send applies to the slot, nobody has to be evicted, no reset of the slot and no new
      publisher. */
  predicate Undisturbed(w: World, op: Op, h: nat)
    requires Shaped(w.q) && op.h < |w.handles| && h < |w.handles|
  {
    match op
    case OpSend(j, m) =>
      w.handles[j].writeUid == w.q.mem.writeUid && 0 <= w.handles[h].id < NUM_READERS ==>
        !Clears(w.q.mem, m, w.handles[h].id) && !Loses(w.q, m, w.handles[h].id)
    case OpReceive(j, uid) => HasRoom(w.q, w.handles[j])
    case OpReady(j, uid) => HasRoom(w.q, w.handles[j])
    case OpReset(j) => w.handles[j].id != w.handles[h].id
    case OpSubscribe(j, uid) => j != h && w.q.mem.numReaders < NUM_READERS
    case OpPublish(j, uid) => false
  }

  ghost predicate UndisturbedRun(w: World, ops: seq<Op>, h: nat)
    requires WorldOk(w) && LegalRun(w, ops)
    decreases |ops|
  {
    ops != [] ==>
      && h < |w.handles| && Undisturbed(w, ops[0], h)
      && (StepKeeps(w, ops[0]); UndisturbedRun(Step(w, ops[0]), ops[1..], h))
  }

  /** The log entries lo, lo + 1, ... up to hi, as a receiver gets them. */
  function Entries(log: seq<Message>, lo: nat, hi: nat): (r: seq<Delivered>)
    requires lo <= hi <= |log|
  {
    seq(hi - lo, i requires 0 <= i < hi - lo => Delivered(lo + i, log[lo + i]))
  }

  /** The writer's part is as it was, and so is slot s. */
  predicate LeavesSlot(q: Queue, q': Queue, s: nat) {
    && Shaped(q) && Shaped(q') && s < NUM_READERS
    && q'.mem.data == q.mem.data && q'.mem.cycle == q.mem.cycle && q'.mem.offset == q.mem.offset
    && q'.mem.writeUid == q.mem.writeUid && q'.hist.tag == q.hist.tag
    && q.mem.numReaders <= q'.mem.numReaders <= NUM_READERS
    && q'.mem.readers[s] == q.mem.readers[s] && q'.hist.next[s] == q.hist.next[s]
  }

  lemma SubscribeLeavesSlot(q: Queue, uid: nat, s: nat)
    requires Quiet(q) && s < q.mem.numReaders < NUM_READERS
    ensures LeavesSlot(q, Subscribe(q, uid).0, s) && Subscribe(q, uid).1 != s
  {
    hide Intact, CurrentLap, PreviousLap, ReaderOk;
  }

  lemma RefreshLeavesSlot(q: Queue, hd: Handle, other: Handle, uid: nat)
    requires Quiet(q) && HandleOk(other) && HasRoom(q, other)
    requires Owns(q, hd) && Live(q, hd.id) && hd.readUid != other.readUid
    ensures LeavesSlot(q, Refresh(q, other, uid).0, hd.id)
    ensures Refresh(q, other, uid).1.id != hd.id
  {
    hide Intact, CurrentLap, PreviousLap, ReaderOk, Subscribe;
    if !Owns(q, other) {
      SubscribeLeavesSlot(q, uid, hd.id);
    }
  }

  lemma ReceiveLeavesSlot(q: Queue, hd: Handle, other: Handle, uid: nat)
    requires Quiet(q) && HandleOk(other) && HasRoom(q, other)
    requires Owns(q, hd) && Live(q, hd.id) && hd.readUid != other.readUid
    ensures LeavesSlot(q, Receive(q, other, uid).q, hd.id)
  {
    hide Intact, CurrentLap, PreviousLap, ReaderOk, Refresh;
    RefreshLeavesSlot(q, hd, other, uid);
  }

  /** An undisturbed operation either delivers exactly the next message to h, or leaves both what h
      has received and its position alone. */
  lemma UndisturbedStep(w: World, op: Op, h: nat)
    requires WorldOk(w) && Legal(w, op) && DistinctUids(w)
    requires Holds(w, h) && Undisturbed(w, op, h) && !w.handles[h].conflate
    ensures WorldOk(Step(w, op)) && |Step(w, op).handles| == |w.handles|
    ensures Holds(Step(w, op), h) && Step(w, op).handles[h] == w.handles[h]
    ensures var w', k := Step(w, op), Seen(w, h);
            || (w'.got[h] == w.got[h] && Seen(w', h) == k)
            || (k < |w.q.hist.log| && w'.got[h] == w.got[h] + [Delivered(k, w.q.hist.log[k])]
                && Seen(w', h) == k + 1 && op.OpReceive? && op.h == h)
  {
    hide Intact, CurrentLap, PreviousLap, ReaderOk, Positioned, Subsequence, ReceiveStep, Receive;
    hide Send, Refresh, Subscribe, Clears, Loses;
    StepKeeps(w, op);
    var hd := w.handles[h];
    match op
    case OpReceive(j, uid) =>
      ReceiveDelivers(w, j, uid);
      if j == h {
        ReceiveIsNext(w.q, hd, uid);
      } else {
        ReceiveLeavesSlot(w.q, hd, w.handles[j], uid);
      }
    case OpReady(j, uid) =>
      if j == h {
        RefreshKeeps(w.q, hd, uid);
      } else {
        RefreshLeavesSlot(w.q, hd, w.handles[j], uid);
      }
    case OpSend(j, m) =>
      if w.handles[j].writeUid == w.q.mem.writeUid {
        SendClearsExactly(w.q, m, hd.id);
        SendSkipsExactly(w.q, m, hd.id);
      }
    case OpReset(j) =>
    case OpSubscribe(j, uid) => SubscribeLeavesSlot(w.q, uid, hd.id);
  }

  lemma EntriesJoin(log: seq<Message>, log': seq<Message>, a: nat, b: nat, c: nat)
    requires a <= b <= c <= |log'| && b <= |log| && log <= log'
    ensures Entries(log, a, b) + Entries(log', b, c) == Entries(log', a, c)
  {
  }

  /** Without a disturbance there are no gaps: over any run whose operations leave the slot alone,
      judged one by one on the state they find, the handle keeps its slot and flag and receives the
      log from its position on, one entry after the other with none missing and none repeated. */
  lemma {:induction false} NoGaps(w: World, ops: seq<Op>, h: nat)
    requires WorldOk(w) && LegalRun(w, ops) && DistinctUids(w) && Holds(w, h)
    requires UndisturbedRun(w, ops, h) && !w.handles[h].conflate
    ensures var w' := Run(w, ops);
            && WorldOk(w') && Holds(w', h) && w'.handles[h] == w.handles[h]
            && Seen(w, h) <= Seen(w', h) <= |w'.q.hist.log|
            && w'.got[h] == w.got[h] + Entries(w'.q.hist.log, Seen(w, h), Seen(w', h))
    decreases |ops|
  {
    hide Intact, CurrentLap, PreviousLap, ReaderOk, Step, Subsequence, Legal, Owns, Undisturbed;
    RunKeeps(w, ops);
    SeenWithinLog(w, h);
    if ops != [] {
      var w1 := Step(w, ops[0]);
      StepKeeps(w, ops[0]);
      StepDistinct(w, ops[0]);
      UndisturbedStep(w, ops[0], h);
      NoGaps(w1, ops[1..], h);
      SeenWithinLog(w1, h);
      RunKeeps(w1, ops[1..]);
      var log' := Run(w, ops).q.hist.log;
      EntriesJoin(w1.q.hist.log, log', Seen(w, h), Seen(w1, h), Seen(Run(w, ops), h));
      assert w1.got[h] == w.got[h] + Entries(w1.q.hist.log, Seen(w, h), Seen(w1, h));
    }
  }

  lemma SeenWithinLog(w: World, h: nat)
    requires WorldOk(w) && h < |w.handles|
    ensures Seen(w, h) <= |w.q.hist.log|
  {
    hide Intact, CurrentLap, PreviousLap, ReaderOk, Subsequence;
    if 0 <= w.handles[h].id < NUM_READERS {
      NextWithinLog(w.q, w.handles[h].id);
    }
  }
}
