/** Whole runs: any number of handles sending, receiving, polling, resetting, subscribing and taking
    over as publisher, one operation at a time. */
module World {
  import opened Machine
  import opened Buffer
  import opened Ring
  import opened RingInvariant
  import opened Delivery

  /** `got[h]` is everything handle h has received, in order. */
  datatype World = World(q: Queue, handles: seq<Handle>, got: seq<seq<Delivered>>)

  datatype Op =
    | OpSend(h: nat, m: Message)
    | OpReceive(h: nat, uid: nat)
    | OpReady(h: nat, uid: nat)
    | OpReset(h: nat)
    | OpSubscribe(h: nat, uid: nat)
    | OpPublish(h: nat, uid: nat)

  /** A segment that nobody has used, and handles that have not subscribed. */
  ghost predicate Initial(w: World) {
    && Shaped(w.q)
    && w.q.mem.cycle == w.q.mem.offset == w.q.mem.numReaders == 0
    && w.q.hist.log == [] && w.q.hist.tag == None
    && (forall s :: 0 <= s < NUM_READERS ==>
          w.q.mem.readers[s] == Reader(0, 0, false, 0) && w.q.hist.next[s] == 0)
    && |w.got| == |w.handles|
    && forall h :: 0 <= h < |w.handles| ==> w.handles[h].id == -1 && w.got[h] == []
  }

  /** Identifiers are drawn at random: assumed non-zero and different from those in use. */
  predicate FreshUid(w: World, uid: nat) {
    uid != 0 && forall h :: 0 <= h < |w.handles| ==> w.handles[h].readUid != uid
  }

  /** What the source demands of its callers. */
  predicate Legal(w: World, op: Op) {
    && op.h < |w.handles|
    && match op
       case OpSend(h, m) => Sendable(w.q.mem, m)
       case OpReceive(h, uid) => 0 <= w.handles[h].id && FreshUid(w, uid)
       case OpReady(h, uid) => 0 <= w.handles[h].id && FreshUid(w, uid)
       case OpReset(h) => 0 <= w.handles[h].id
       case OpSubscribe(h, uid) => FreshUid(w, uid)
       case OpPublish(h, uid) => true
  }

  /** How far the log may have been delivered to handle h: to its slot's position. */
  function Seen(w: World, h: nat): nat
    requires Shaped(w.q) && h < |w.handles|
  {
    if 0 <= w.handles[h].id < NUM_READERS then w.q.hist.next[w.handles[h].id]
    else |w.q.hist.log|
  }

  ghost predicate HandlesOk(w: World) {
    && |w.got| == |w.handles|
    && forall h :: 0 <= h < |w.handles| ==> w.handles[h].id == -1 || HandleOk(w.handles[h])
  }

  ghost predicate WorldOk(w: World) {
    && Quiet(w.q)
    && HandlesOk(w)
    && forall h :: 0 <= h < |w.handles| ==> Subsequence(w.got[h], w.q.hist.log, Seen(w, h))
  }

  /** The bytes a copy out of the buffer finds at offset b: as many as the header says. */
  function CopyOut(d: seq<byte>, b: nat): seq<byte> {
    if b + WORD <= |d| && 0 <= Header(d, b) && b + WORD + Header(d, b) <= |d|
    then d[b + WORD..b + WORD + Header(d, b)] else []
  }

  function ReceiveStep(w: World, h: nat, uid: nat): World
    requires Shaped(w.q) && |w.got| == |w.handles|
    requires h < |w.handles| && 0 <= w.handles[h].id < NUM_READERS
  {
    var r := Receive(w.q, w.handles[h], uid);
    World(r.q, w.handles[h := r.h],
          if r.index.Some? && r.index.value < |w.q.hist.off|
          then w.got[h := w.got[h] + [Delivered(r.index.value,
                                      CopyOut(w.q.mem.data, w.q.hist.off[r.index.value]))]]
          else w.got)
  }

  ghost function Step(w: World, op: Op): World
    requires WorldOk(w) && Legal(w, op)
  {
    var hd := w.handles[op.h];
    match op
    case OpSend(h, m) =>
      if hd.writeUid != w.q.mem.writeUid then w else w.(q := Send(w.q, m))
    case OpReceive(h, uid) => ReceiveStep(w, h, uid)
    case OpReady(h, uid) =>
      var r := Ready(w.q, hd, uid);
      w.(q := r.q, handles := w.handles[h := r.h])
    case OpReset(h) => w.(q := Reset(w.q, hd.id))
    case OpSubscribe(h, uid) =>
      var (q, s) := Subscribe(w.q, uid);
      w.(q := q, handles := w.handles[h := hd.(id := s, readUid := uid)])
    case OpPublish(h, uid) =>
      w.(q := NewPublisher(w.q, uid), handles := w.handles[h := hd.(writeUid := uid)])
  }

  lemma InitialOk(w: World)
    requires Initial(w)
    ensures WorldOk(w)
  {
    assert LayoutOk(w.q);
    forall s | 0 <= s < NUM_READERS ensures ReaderOk(w.q, s) {
      assert w.q.mem.readers[s] == Reader(0, 0, false, 0);
    }
  }

  lemma KeepAll(w: World, w': World)
    requires WorldOk(w) && Quiet(w'.q) && HandlesOk(w') && |w'.handles| == |w.handles|
    requires w.q.hist.log <= w'.q.hist.log
    requires forall h :: 0 <= h < |w.handles| ==> Seen(w, h) <= Seen(w', h)
    requires w'.got == w.got
    ensures WorldOk(w')
  {
    hide Intact, CurrentLap, PreviousLap, ReaderOk, Subsequence;
    forall h | 0 <= h < |w.handles| ensures Subsequence(w'.got[h], w'.q.hist.log, Seen(w', h)) {
      StillSubsequence(w.got[h], w.q.hist.log, w'.q.hist.log, Seen(w, h), Seen(w', h));
    }
  }

  // ---- one operation ---------------------------------------------------------------------------

  /** Slot positions never move back. */
  ghost predicate Forward(q: Queue, q': Queue) {
    && Shaped(q) && Shaped(q') && q.hist.log <= q'.hist.log
    && forall s :: 0 <= s < NUM_READERS ==> q.hist.next[s] <= q'.hist.next[s]
  }

  lemma NextWithinLog(q: Queue, s: nat)
    requires Inv(q) && s < NUM_READERS
    ensures q.hist.next[s] <= |q.hist.log|
  {
    hide Intact, CurrentLap, PreviousLap, Positioned;
    assert ReaderOk(q, s);
  }

  lemma SendForward(q: Queue, m: Message)
    requires Quiet(q) && Sendable(q.mem, m)
    ensures Send(q, m).hist.log == q.hist.log + [m] && Forward(q, Send(q, m))
  {
    hide Intact, CurrentLap, PreviousLap, Positioned;
    forall s | 0 <= s < NUM_READERS ensures q.hist.next[s] <= Send(q, m).hist.next[s] {
      assert ReaderOk(q, s);
    }
  }

  lemma SubscribeForward(q: Queue, uid: nat)
    requires Inv(q)
    ensures Forward(q, Subscribe(q, uid).0)
  {
    hide Intact, CurrentLap, PreviousLap, Positioned;
    var (q', s) := Subscribe(q, uid);
    assert ReaderOk(q, s);
  }

  lemma RefreshForward(q: Queue, h: Handle, uid: nat)
    requires Quiet(q) && HandleOk(h)
    ensures Forward(q, Refresh(q, h, uid).0)
    ensures var (q', h') := Refresh(q, h, uid); h' == h || q'.hist.next[h'.id] == |q.hist.log|
    ensures Refresh(q, h, uid).0.hist.log == q.hist.log
    ensures Refresh(q, h, uid).0.hist.off == q.hist.off
    ensures Refresh(q, h, uid).0.mem.data == q.mem.data
  {
    hide Intact, CurrentLap, PreviousLap, Positioned;
    SubscribeForward(q, uid);
    assert ReaderOk(q, h.id);
  }

  /** What a receive copies out of the buffer is the message of that index, byte for byte. */
  lemma CopyIsMessage(q: Queue, k: nat)
    requires LayoutOk(q) && q.hist.base <= k < |q.hist.log|
    ensures CopyOut(q.mem.data, q.hist.off[k]) == q.hist.log[k]
  {
    hide CurrentLap, PreviousLap;
    assert MsgAt(q.mem.data, q.hist.off[k], q.hist.log[k]);
    WordReadsBack(q.mem.data, q.hist.off[k], |q.hist.log[k]|);
  }

  /** What a receive of handle h does to the world. */
  lemma ReceiveDelivers(w: World, h: nat, uid: nat)
    requires WorldOk(w) && Legal(w, OpReceive(h, uid))
    ensures var w', r := ReceiveStep(w, h, uid), Receive(w.q, w.handles[h], uid);
            && Quiet(w'.q) && HandlesOk(w') && Forward(w.q, w'.q) && w'.q.hist.log == w.q.hist.log
            && w'.q == r.q && w'.handles == w.handles[h := r.h]
            && Seen(w, h) <= Seen(w', h)
            && (r.index == None ==> w'.got == w.got)
            && (r.index.Some? ==>
                  && Seen(w, h) <= r.index.value < |w.q.hist.log|
                  && Seen(w', h) == r.index.value + 1
                  && w'.got == w.got[h := w.got[h] + [Delivered(r.index.value,
                                                                w.q.hist.log[r.index.value])]])
  {
    hide Intact, CurrentLap, PreviousLap, ReaderOk, Positioned, Subsequence, CopyOut;
    var hd := w.handles[h];
    ReceiveKeeps(w.q, hd, uid);
    RefreshForward(w.q, hd, uid);
    NextWithinLog(w.q, hd.id);
    var (q1, h1) := Refresh(w.q, hd, uid);
    RefreshKeeps(w.q, hd, uid);
    var r := Receive(w.q, hd, uid);
    if r.index.Some? {
      UnreadHasNext(q1, h1.id);
      CopyIsMessage(q1, r.index.value);
    }
  }

  lemma ReceiveStepKeeps(w: World, h: nat, uid: nat)
    requires WorldOk(w) && Legal(w, OpReceive(h, uid))
    ensures WorldOk(ReceiveStep(w, h, uid))
  {
    hide Intact, CurrentLap, PreviousLap, ReaderOk, Positioned, Subsequence, CopyOut, ReceiveStep;
    var w', r := ReceiveStep(w, h, uid), Receive(w.q, w.handles[h], uid);
    ReceiveDelivers(w, h, uid);
    forall j | 0 <= j < |w.handles| ensures Subsequence(w'.got[j], w'.q.hist.log, Seen(w', j)) {
      if j == h && r.index.Some? {
        Extend(w.got[h], w.q.hist.log, Seen(w, h),
               Delivered(r.index.value, w.q.hist.log[r.index.value]));
      } else {
        StillSubsequence(w.got[j], w.q.hist.log, w'.q.hist.log, Seen(w, j), Seen(w', j));
      }
    }
  }

  lemma SendStepKeeps(w: World, h: nat, m: Message)
    requires WorldOk(w) && Legal(w, OpSend(h, m))
    ensures WorldOk(Step(w, OpSend(h, m)))
    ensures w.q.hist.log <= Step(w, OpSend(h, m)).q.hist.log
  {
    hide Intact, CurrentLap, PreviousLap, ReaderOk, Subsequence, MembersOk;
    SendKeeps(w.q, m);
    SendForward(w.q, m);
    hide Send;
    KeepAll(w, Step(w, OpSend(h, m)));
  }

  lemma ReadyStepKeeps(w: World, h: nat, uid: nat)
    requires WorldOk(w) && Legal(w, OpReady(h, uid))
    ensures WorldOk(Step(w, OpReady(h, uid)))
    ensures Step(w, OpReady(h, uid)).q.hist.log == w.q.hist.log
  {
    hide Intact, CurrentLap, PreviousLap, ReaderOk, Subsequence, MembersOk;
    RefreshKeeps(w.q, w.handles[h], uid);
    RefreshForward(w.q, w.handles[h], uid);
    NextWithinLog(w.q, w.handles[h].id);
    hide Refresh;
    KeepAll(w, Step(w, OpReady(h, uid)));
  }

  lemma ResetStepKeeps(w: World, h: nat)
    requires WorldOk(w) && Legal(w, OpReset(h))
    ensures WorldOk(Step(w, OpReset(h)))
    ensures Step(w, OpReset(h)).q.hist.log == w.q.hist.log
  {
    hide Intact, CurrentLap, PreviousLap, ReaderOk, Subsequence, MembersOk;
    assert HandleOk(w.handles[h]);
    ResetKeeps(w.q, w.handles[h].id);
    NextWithinLog(w.q, w.handles[h].id);
    KeepAll(w, Step(w, OpReset(h)));
  }

  lemma SubscribeStepKeeps(w: World, h: nat, uid: nat)
    requires WorldOk(w) && Legal(w, OpSubscribe(h, uid))
    ensures WorldOk(Step(w, OpSubscribe(h, uid)))
    ensures Step(w, OpSubscribe(h, uid)).q.hist.log == w.q.hist.log
  {
    hide Intact, CurrentLap, PreviousLap, ReaderOk, Subsequence, MembersOk;
    SubscribeKeeps(w.q, uid);
    SubscribeForward(w.q, uid);
    var w' := Step(w, OpSubscribe(h, uid));
    assert Seen(w', h) == |w.q.hist.log|;
    if w.handles[h].id != -1 {
      NextWithinLog(w.q, w.handles[h].id);
    }
    hide Subscribe;
    KeepAll(w, w');
  }

  lemma PublishStepKeeps(w: World, h: nat, uid: nat)
    requires WorldOk(w) && Legal(w, OpPublish(h, uid))
    ensures WorldOk(Step(w, OpPublish(h, uid)))
    ensures Step(w, OpPublish(h, uid)).q.hist.log == w.q.hist.log
  {
    hide Intact, CurrentLap, PreviousLap, ReaderOk, Subsequence, MembersOk;
    NewPublisherKeeps(w.q, uid);
    KeepAll(w, Step(w, OpPublish(h, uid)));
  }

  /** Every operation keeps the world invariant. */
  lemma StepKeeps(w: World, op: Op)
    requires WorldOk(w) && Legal(w, op)
    ensures WorldOk(Step(w, op))
    ensures w.q.hist.log <= Step(w, op).q.hist.log
    ensures |Step(w, op).handles| == |w.handles|
  {
    match op
    case OpReceive(h, uid) =>
      hide WorldOk, ReceiveStep;
      ReceiveDelivers(w, h, uid);
      ReceiveStepKeeps(w, h, uid);
    case OpSend(h, m) => SendStepKeeps(w, h, m); hide WorldOk, Send;
    case OpReady(h, uid) => ReadyStepKeeps(w, h, uid); hide WorldOk, Refresh;
    case OpReset(h) => ResetStepKeeps(w, h); hide WorldOk, Reset;
    case OpSubscribe(h, uid) => SubscribeStepKeeps(w, h, uid); hide WorldOk, Subscribe;
    case OpPublish(h, uid) => PublishStepKeeps(w, h, uid); hide WorldOk, NewPublisher;
  }

  // ---- runs ------------------------------------------------------------------------------------

  ghost predicate LegalRun(w: World, ops: seq<Op>)
    requires WorldOk(w)
    decreases |ops|
  {
    ops != [] ==>
      Legal(w, ops[0]) && (StepKeeps(w, ops[0]); LegalRun(Step(w, ops[0]), ops[1..]))
  }

  ghost function Run(w: World, ops: seq<Op>): World
    requires WorldOk(w) && LegalRun(w, ops)
    decreases |ops|
  {
    if ops == [] then w else StepKeeps(w, ops[0]); Run(Step(w, ops[0]), ops[1..])
  }

  lemma {:induction false} RunKeeps(w: World, ops: seq<Op>)
    requires WorldOk(w) && LegalRun(w, ops)
    ensures WorldOk(Run(w, ops))
    ensures w.q.hist.log <= Run(w, ops).q.hist.log && |Run(w, ops).handles| == |w.handles|
    decreases |ops|
  {
    hide WorldOk, Legal, Step;
    if ops != [] {
      StepKeeps(w, ops[0]);
      RunKeeps(Step(w, ops[0]), ops[1..]);
    }
  }

  /** The queue refines an append-only log with one position per reader: after any run from an
      unused segment - sends by any handle, receives, polls, resets, subscriptions with or without
      evictions, publisher replacements - what each handle has received is a strictly
      index-increasing selection from the log of sent messages, byte for byte, and the invariant
      holds. */
  lemma RunsRefineLog(w: World, ops: seq<Op>)
    requires Initial(w) && WorldOk(w) && LegalRun(w, ops)
    ensures var w' := Run(w, ops);
            && Quiet(w'.q)
            && |w'.got| == |w.got|
            && forall h :: 0 <= h < |w'.got| ==>
                 Subsequence(w'.got[h], w'.q.hist.log, |w'.q.hist.log|)
  {
    RunKeeps(w, ops);
    hide Intact, CurrentLap, PreviousLap, Positioned, Subsequence, LegalRun, Run;
    var w' := Run(w, ops);
    forall h | 0 <= h < |w'.got| ensures Subsequence(w'.got[h], w'.q.hist.log, |w'.q.hist.log|) {
      assert HandlesOk(w');
      assert w'.handles[h].id != -1 ==> ReaderOk(w'.q, w'.handles[h].id);
      StillSubsequence(w'.got[h], w'.q.hist.log, w'.q.hist.log, Seen(w', h), |w'.q.hist.log|);
    }
  }

  /** Membership is safe in every reachable state: the reader count is at most 25 and the slot of
      any handle that may read without registering again lies below it, so the writer's two
      invalidation loops cover every reader that can read. */
  lemma MembershipSafe(w: World, ops: seq<Op>, h: nat)
    requires Initial(w) && WorldOk(w) && LegalRun(w, ops) && h < |w.handles|
    ensures var w' := Run(w, ops);
            && Shaped(w'.q) && h < |w'.handles|
            && w'.q.mem.numReaders <= NUM_READERS
            && (Owns(w'.q, w'.handles[h]) ==> w'.handles[h].id < w'.q.mem.numReaders)
  {
    RunKeeps(w, ops);
    hide Intact, CurrentLap, PreviousLap, ReaderOk, Subsequence, LegalRun, Run;
    assert HandlesOk(Run(w, ops));
  }

  /** The write offset is aligned and leaves room for the next tag, and every offset fits its 32
      bits. */
  predicate OffsetsFaithful(q: Queue, s: nat) {
    var mem := q.mem;
    && mem.offset % 8 == 0 && Trunc32(mem.offset) == mem.offset
    && (mem.offset == 0 || mem.offset + WORD < |mem.data|)
    && s < |mem.readers| && mem.readers[s].cycle <= mem.cycle
    && Trunc32(mem.readers[s].offset) == mem.readers[s].offset
    && (mem.readers[s].offset == 0 || mem.readers[s].offset + WORD <= |mem.data|)
  }

  lemma QuietIsFaithful(q: Queue, s: nat)
    requires Quiet(q) && s < NUM_READERS
    ensures OffsetsFaithful(q, s)
  {
    hide Intact, CurrentLap, PreviousLap, Positioned;
    assert ReaderOk(q, s);
  }

  /** The arithmetic stays faithful in every reachable state: the write offset is 8-aligned and
      leaves room for the next tag, no slot is ahead of the writer's cycle, and packing or truncating
      an offset loses nothing. */
  lemma ArithmeticFaithful(w: World, ops: seq<Op>, s: nat)
    requires Initial(w) && WorldOk(w) && LegalRun(w, ops) && s < NUM_READERS
    ensures OffsetsFaithful(Run(w, ops).q, s)
  {
    RunKeeps(w, ops);
    hide Inv, HandlesOk, Subsequence, LegalRun, Run, OffsetsFaithful;
    QuietIsFaithful(Run(w, ops).q, s);
  }
}
