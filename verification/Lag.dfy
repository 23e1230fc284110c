/** When "empty" is wrong, exactly: how many laps a slot's cycle counter is behind the truth. */
module Lag {
  import opened Machine
  import opened Ring
  import opened RingInvariant
  import opened Delivery
  import opened World
  import opened Gaps

  /** The slot has the rest of an older lap to read: it stands beyond the write offset, or on it with
      something unread. */
  predicate OnOlderLap(q: Queue, s: nat)
    requires Shaped(q) && s < NUM_READERS
  {
    || q.mem.readers[s].offset > q.mem.offset
    || (q.mem.readers[s].offset == q.mem.offset && q.hist.next[s] < |q.hist.log|)
  }

  /** The slot is live and its cycle counter is `lag` behind the lap it really reads. */
  predicate Lags(q: Queue, s: nat, lag: nat)
    requires Shaped(q)
  {
    && Live(q, s)
    && q.mem.readers[s].cycle + lag + (if OnOlderLap(q, s) then 1 else 0) == q.mem.cycle
  }

  /** The answer "empty" would be wrong. */
  predicate FalselyEmpty(q: Queue, s: nat)
    requires Shaped(q) && s < NUM_READERS
  {
    !Unread(q, s) && q.hist.next[s] < |q.hist.log|
  }

  // ---- one operation -----------------------------------------------------------------------------

  /** The pointers and the lag decide both questions: "empty" is wrong exactly when the offsets are
      equal and the cycle, corrected by the lag, is not the writer's; and a send silently loses
      messages exactly when in addition it wraps. */
  lemma LagDecides(q: Queue, m: Message, s: nat, lag: nat)
    requires Quiet(q) && Lags(q, s, lag)
    ensures var rd, mem := q.mem.readers[s], q.mem;
            && (FalselyEmpty(q, s) <==> rd.offset == mem.offset && rd.cycle + lag != mem.cycle)
            && (Loses(q, m, s) <==>
                  Wraps(mem, m) && rd.offset == mem.offset && rd.cycle + lag != mem.cycle)
  {
  }

  lemma ResetLags(q: Queue, s: nat)
    requires Inv(q) && s < q.mem.numReaders
    ensures Lags(Reset(q, s), s, 0)
  {
  }

  /** Moving along the log keeps the lag: the counter follows every tag that is passed. */
  lemma AdvanceLags(q: Queue, s: nat, k: nat, lag: nat)
    requires Quiet(q) && Lags(q, s, lag) && Unread(q, s) && q.hist.next[s] <= k < |q.hist.log|
    ensures Lags(Advance(q, s, k), s, lag)
  {
    hide Intact;
    LivePositioned(q, s);
    UnreadAfterAdvance(q, s, k);
    assert q.hist.mid <= k ==> End(q.hist, k) <= q.mem.offset;
    assert q.hist.base <= k < q.hist.mid ==> q.hist.off[k] < End(q.hist, k);
  }

  /** A send that leaves the slot valid makes it lag by one more exactly when it loses messages. */
  lemma SendLags(q: Queue, m: Message, s: nat, lag: nat)
    requires Quiet(q) && Sendable(q.mem, m) && Lags(q, s, lag) && Live(Send(q, m), s)
    ensures Lags(Send(q, m), s, lag + if Loses(q, m, s) then 1 else 0)
  {
    hide Intact, CurrentLap, PreviousLap;
    LivePositioned(q, s);
    if Wraps(q.mem, m) {
      ThreeFit(q.mem, m);
    }
  }

  // ---- runs ----------------------------------------------------------------------------------------

  /** For every slot the number of sends that lost messages for it since it was last reset. */
  ghost function LagsAfter(w: World, op: Op, lags: seq<nat>): (r: seq<nat>)
    requires WorldOk(w) && Legal(w, op) && |lags| == NUM_READERS
    ensures |r| == NUM_READERS
  {
    var hd := w.handles[op.h];
    match op
    case OpSend(h, m) =>
      if hd.writeUid != w.q.mem.writeUid then lags
      else seq(NUM_READERS, s requires 0 <= s < NUM_READERS && Shaped(w.q) =>
             lags[s] + if Loses(w.q, m, s) then 1 else 0)
    case OpReceive(h, uid) => LagsRefreshed(w.q, hd, uid, lags)
    case OpReady(h, uid) => LagsRefreshed(w.q, hd, uid, lags)
    case OpReset(h) => lags[hd.id := 0]
    case OpSubscribe(h, uid) => lags[Subscribe(w.q, uid).1 := 0]
    case OpPublish(h, uid) => lags
  }

  /** Registering again and revalidating reset the slot. */
  function LagsRefreshed(q: Queue, h: Handle, uid: nat, lags: seq<nat>): (r: seq<nat>)
    requires Shaped(q) && 0 <= h.id < NUM_READERS == |lags|
    ensures |r| == NUM_READERS
  {
    if Owns(q, h) && q.mem.readers[h.id].valid then lags
    else lags[Refresh(q, h, uid).1.id := 0]
  }

  ghost predicate LagsOk(q: Queue, lags: seq<nat>) {
    && Shaped(q) && |lags| == NUM_READERS
    && forall s :: 0 <= s < NUM_READERS && Live(q, s) ==> Lags(q, s, lags[s])
  }

  /** Slot s is live only if it was, and then as it was. */
  predicate KeepsSlot(q: Queue, q': Queue, s: nat) {
    && Shaped(q) && Shaped(q') && s < NUM_READERS
    && q'.mem.cycle == q.mem.cycle && q'.mem.offset == q.mem.offset
    && q'.hist.log == q.hist.log
    && (Live(q', s) ==> Live(q, s) && q'.mem.readers[s] == q.mem.readers[s]
                        && q'.hist.next[s] == q.hist.next[s])
  }

  lemma SubscribeKeepsOthers(q: Queue, uid: nat, s: nat)
    requires Quiet(q) && s < NUM_READERS && s != Subscribe(q, uid).1
    ensures KeepsSlot(q, Subscribe(q, uid).0, s)
  {
    hide Intact, CurrentLap, PreviousLap, ReaderOk;
  }

  lemma SubscribeLags(q: Queue, uid: nat, lags: seq<nat>)
    requires Quiet(q) && uid != 0 && LagsOk(q, lags)
    ensures Subscribe(q, uid).1 < NUM_READERS
    ensures LagsOk(Subscribe(q, uid).0, lags[Subscribe(q, uid).1 := 0])
  {
    hide Intact, CurrentLap, PreviousLap, ReaderOk;
    SubscribeKeeps(q, uid);
    var (q', t) := Subscribe(q, uid);
    forall s | 0 <= s < NUM_READERS && Live(q', s) ensures Lags(q', s, lags[t := 0][s]) {
      if s != t {
        SubscribeKeepsOthers(q, uid, s);
      }
    }
  }

  lemma RefreshLags(q: Queue, h: Handle, uid: nat, lags: seq<nat>)
    requires Quiet(q) && HandleOk(h) && uid != 0 && LagsOk(q, lags)
    ensures LagsOk(Refresh(q, h, uid).0, LagsRefreshed(q, h, uid, lags))
  {
    hide Intact, CurrentLap, PreviousLap, ReaderOk, Subscribe;
    if !Owns(q, h) {
      SubscribeLags(q, uid, lags);
    } else if !q.mem.readers[h.id].valid {
      ResetLags(q, h.id);
    }
  }

  lemma ReceiveLags(q: Queue, h: Handle, uid: nat, lags: seq<nat>)
    requires Quiet(q) && HandleOk(h) && uid != 0 && LagsOk(q, lags)
    ensures LagsOk(Receive(q, h, uid).q, LagsRefreshed(q, h, uid, lags))
  {
    hide Intact, CurrentLap, PreviousLap, ReaderOk, Positioned, Refresh;
    RefreshLags(q, h, uid, lags);
    RefreshKeeps(q, h, uid);
    var (q1, h1) := Refresh(q, h, uid);
    var lags1 := LagsRefreshed(q, h, uid, lags);
    if Unread(q1, h1.id) {
      UnreadHasNext(q1, h1.id);
      AdvanceLags(q1, h1.id, Pick(q1, h1), lags1[h1.id]);
    }
  }

  /** Every operation keeps count of the lags. */
  lemma StepLags(w: World, op: Op, lags: seq<nat>)
    requires WorldOk(w) && Legal(w, op) && LagsOk(w.q, lags)
    ensures WorldOk(Step(w, op)) && LagsOk(Step(w, op).q, LagsAfter(w, op, lags))
  {
    hide Intact, CurrentLap, PreviousLap, ReaderOk, Positioned, Subsequence;
    hide Send, Refresh, Subscribe, Receive, LagsRefreshed, Loses;
    StepKeeps(w, op);
    match op
    case OpReceive(h, uid) => ReceiveLags(w.q, w.handles[h], uid, lags);
    case OpReady(h, uid) => RefreshLags(w.q, w.handles[h], uid, lags);
    case OpSend(h, m) =>
      if w.handles[h].writeUid == w.q.mem.writeUid {
        forall s | 0 <= s < NUM_READERS && Live(Send(w.q, m), s)
          ensures Lags(Send(w.q, m), s, LagsAfter(w, op, lags)[s])
        {
          SendLeavesDead(w.q, m, s);
          SendLags(w.q, m, s, lags[s]);
        }
      }
    case OpReset(h) =>
      if w.handles[h].id < w.q.mem.numReaders {
        ResetLags(w.q, w.handles[h].id);
      }
    case OpSubscribe(h, uid) => SubscribeLags(w.q, uid, lags);
    case OpPublish(h, uid) =>
  }

  lemma SendLeavesDead(q: Queue, m: Message, s: nat)
    requires Quiet(q) && Sendable(q.mem, m) && Shaped(Send(q, m)) && Live(Send(q, m), s)
    ensures Live(q, s)
  {
    hide Intact, CurrentLap, PreviousLap, ReaderOk;
  }

  ghost function RunLags(w: World, ops: seq<Op>, lags: seq<nat>): (r: seq<nat>)
    requires WorldOk(w) && LegalRun(w, ops) && |lags| == NUM_READERS
    ensures |r| == NUM_READERS
    decreases |ops|
  {
    if ops == [] then lags
    else
      StepKeeps(w, ops[0]);
      RunLags(Step(w, ops[0]), ops[1..], LagsAfter(w, ops[0], lags))
  }

  lemma {:induction false} RunKeepsLags(w: World, ops: seq<Op>, lags: seq<nat>)
    requires WorldOk(w) && LegalRun(w, ops) && LagsOk(w.q, lags)
    ensures WorldOk(Run(w, ops)) && LagsOk(Run(w, ops).q, RunLags(w, ops, lags))
    decreases |ops|
  {
    hide WorldOk, Legal, Step, LagsOk, LagsAfter;
    assert |lags| == NUM_READERS by { hide Lags; LagsLength(w.q, lags); }
    if ops != [] {
      StepLags(w, ops[0], lags);
      RunKeepsLags(Step(w, ops[0]), ops[1..], LagsAfter(w, ops[0], lags));
    }
  }

  lemma LagsLength(q: Queue, lags: seq<nat>)
    requires LagsOk(q, lags)
    ensures |lags| == NUM_READERS
  {
  }

  /** At the start no slot is live, and no slot has lost anything. */
  function NoLags(): (r: seq<nat>)
    ensures |r| == NUM_READERS
  {
    seq(NUM_READERS, _ => 0)
  }

  lemma InitialLags(w: World)
    requires Initial(w)
    ensures LagsOk(w.q, NoLags())
  {
  }

  /** A receive of handle h would say "empty" although something is unread. */
  predicate ToldWrongly(w: World, h: nat, uid: nat)
    requires Shaped(w.q) && h < |w.handles| && 0 <= w.handles[h].id < NUM_READERS
  {
    Receive(w.q, w.handles[h], uid).index == None && Seen(w, h) < |w.q.hist.log|
  }

  lemma ToldWronglyIsFalselyEmpty(w: World, h: nat, uid: nat)
    requires Quiet(w.q) && Holds(w, h)
    ensures ToldWrongly(w, h, uid) <==> FalselyEmpty(w.q, w.handles[h].id)
  {
    hide Intact, CurrentLap, PreviousLap, ReaderOk, Positioned;
    var s := w.handles[h].id;
    if Unread(w.q, s) {
      UnreadHasNext(w.q, s);
    }
  }

  /** In every reachable state and for every handle with a valid slot: "empty" is wrong exactly when
      the offsets are equal and the slot's cycle, plus the number of sends that have lost messages
      for it since its last reset, is not the writer's; and exactly then the next send, if it wraps,
      loses messages without clearing the flag. */
  lemma EmptyIsWrongExactly(w0: World, ops: seq<Op>, h: nat, uid: nat, m: Message)
    requires Initial(w0) && WorldOk(w0) && LegalRun(w0, ops)
    requires WorldOk(Run(w0, ops)) && Holds(Run(w0, ops), h)
    requires Sendable(Run(w0, ops).q.mem, m)
    ensures var w, lags := Run(w0, ops), RunLags(w0, ops, NoLags());
            var s := w.handles[h].id;
            var wrong := w.q.mem.readers[s].offset == w.q.mem.offset
                         && w.q.mem.readers[s].cycle + lags[s] != w.q.mem.cycle;
            && Quiet(w.q)
            && (ToldWrongly(w, h, uid) <==> wrong)
            && (Send(w.q, m).hist.next[s] != w.q.hist.next[s] <==> Wraps(w.q.mem, m) && wrong)
  {
    hide Intact, CurrentLap, PreviousLap, ReaderOk, Positioned, Subsequence, Run, RunLags, LegalRun;
    hide Receive, Send, Loses, FalselyEmpty, HandlesOk;
    var w, lags := Run(w0, ops), RunLags(w0, ops, NoLags());
    InitialLags(w0);
    RunKeepsLags(w0, ops, NoLags());
    LagDecides(w.q, m, w.handles[h].id, lags[w.handles[h].id]);
    ToldWronglyIsFalselyEmpty(w, h, uid);
    SendSkipsExactly(w.q, m, w.handles[h].id);
  }

  // ---- readers that have not been skipped ------------------------------------------------------------

  /** No send finds slot s on its write offset with another cycle and wraps. */
  predicate Unskipped(w: World, op: Op, s: nat)
    requires Shaped(w.q) && op.h < |w.handles| && s < NUM_READERS
  {
    op.OpSend? && w.handles[op.h].writeUid == w.q.mem.writeUid ==> !Skips(w.q.mem, op.m, s)
  }

  lemma UnskippedStep(w: World, op: Op, lags: seq<nat>, s: nat)
    requires WorldOk(w) && Legal(w, op) && |lags| == NUM_READERS
    requires s < NUM_READERS && Unskipped(w, op, s) && lags[s] == 0
    ensures LagsAfter(w, op, lags)[s] == 0
  {
    hide Intact, CurrentLap, PreviousLap, ReaderOk, Subsequence, Refresh, Subscribe, Skips;
  }

  ghost predicate UnskippedRun(w: World, ops: seq<Op>, s: nat)
    requires WorldOk(w) && LegalRun(w, ops) && s < NUM_READERS
    decreases |ops|
  {
    ops != [] ==>
      && Unskipped(w, ops[0], s)
      && (StepKeeps(w, ops[0]); UnskippedRun(Step(w, ops[0]), ops[1..], s))
  }

  lemma {:induction false} UnskippedDoesNotLag(w: World, ops: seq<Op>, lags: seq<nat>, s: nat)
    requires WorldOk(w) && LegalRun(w, ops) && s < NUM_READERS && UnskippedRun(w, ops, s)
    requires |lags| == NUM_READERS && lags[s] == 0
    ensures RunLags(w, ops, lags)[s] == 0
    decreases |ops|
  {
    if ops != [] {
      hide Step, WorldOk, Legal, Unskipped, LagsAfter;
      StepKeeps(w, ops[0]);
      UnskippedStep(w, ops[0], lags, s);
      UnskippedDoesNotLag(Step(w, ops[0]), ops[1..], LagsAfter(w, ops[0], lags), s);
    }
  }

  /** A handle that was reset and has not been skipped since is told "empty" wrongly exactly when the
      offsets are equal and the cycles differ; whatever else happened before and after. */
  lemma EmptyIsWrongIffCyclesDiffer(w0: World, before: seq<Op>, h: nat, after: seq<Op>, uid: nat)
    requires Initial(w0) && WorldOk(w0) && LegalRun(w0, before)
    requires WorldOk(Run(w0, before)) && Legal(Run(w0, before), OpReset(h))
    requires var w1 := Run(w0, before);
             var w := Step(w1, OpReset(h));
             && WorldOk(w) && LegalRun(w, after) && UnskippedRun(w, after, w1.handles[h].id)
             && WorldOk(Run(w, after)) && Holds(Run(w, after), h)
             && Run(w, after).handles[h].id == w1.handles[h].id
    ensures var w' := Run(Step(Run(w0, before), OpReset(h)), after);
            var rd := w'.q.mem.readers[w'.handles[h].id];
            ToldWrongly(w', h, uid) <==>
              rd.offset == w'.q.mem.offset && rd.cycle != w'.q.mem.cycle
  {
    hide Intact, CurrentLap, PreviousLap, ReaderOk, Positioned, Subsequence, Run, RunLags, LegalRun;
    hide Receive, Send, FalselyEmpty, HandlesOk, UnskippedRun, ToldWrongly;
    var w1 := Run(w0, before);
    var s := w1.handles[h].id;
    InitialLags(w0);
    RunKeepsLags(w0, before, NoLags());
    var lags := LagsAfter(w1, OpReset(h), RunLags(w0, before, NoLags()));
    StepLags(w1, OpReset(h), RunLags(w0, before, NoLags()));
    var w := Step(w1, OpReset(h));
    RunKeepsLags(w, after, lags);
    UnskippedDoesNotLag(w, after, lags, s);
    LagDecides(Run(w, after).q, [], s, 0);
    ToldWronglyIsFalselyEmpty(Run(w, after), h, uid);
  }
}
