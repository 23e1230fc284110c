/** The two views of the queue meet: an interleaving may start in any state the operations reach, and
    a send that nobody interrupts does to the segment exactly what the atomic send does. */
module StepLink {
  import opened Machine
  import opened Buffer
  import R = Ring
  import D = Delivery
  import opened Steps
  import opened StepInvariant
  import opened StepProofs

  // ---- starting from the atomic layer ----------------------------------------------------------

  /** All readers about to receive. A reader level with the writer waits for the next message. */
  function Start(q: R.Queue, conflate: seq<bool>): System
    requires R.Shaped(q) && q.mem.numReaders <= R.NUM_READERS && |conflate| == q.mem.numReaders
  {
    System(q.mem, q.hist.log, q.hist.mid,
           seq(q.mem.numReaders, i requires 0 <= i < q.mem.numReaders =>
             Proc(CheckFlag, conflate[i],
                  if q.mem.readers[i].offset == q.mem.offset then |q.hist.log| else q.hist.next[i],
                  [], 0)),
           Idle)
  }

  lemma {:induction false} CurrentLapReaches(q: R.Queue, k: nat)
    requires R.LayoutOk(q) && q.hist.mid <= k < |q.hist.log|
    ensures Reach(q.mem.data, q.mem.offset, q.hist.log, q.hist.off[k], k)
    decreases |q.hist.log| - k
  {
    hide MsgAt, R.PreviousLap;
    assert q.hist.off[k] < R.End(q.hist, k) <= q.mem.offset;
    assert MsgAt(q.mem.data, q.hist.off[k], q.hist.log[k]);
    if k + 1 < |q.hist.log| {
      CurrentLapReaches(q, k + 1);
    }
  }

  lemma {:induction false} PreviousLapTails(q: R.Queue, k: nat, exact: bool)
    requires R.LayoutOk(q) && q.hist.base <= k <= q.hist.mid && q.hist.tag.Some?
    ensures Tail(q.mem.data, q.hist.log, q.hist.mid,
                 if k < q.hist.mid then q.hist.off[k] else q.hist.tag.value, k, exact)
    decreases q.hist.mid - k
  {
    hide MsgAt, TagAt, R.CurrentLap;
    if k < q.hist.mid {
      assert R.End(q.hist, k) <= q.hist.tag.value;
      assert MsgAt(q.mem.data, q.hist.off[k], q.hist.log[k]);
      PreviousLapTails(q, k + 1, exact);
    }
    TagInside(q);
  }

  lemma TagInside(q: R.Queue)
    requires R.LayoutOk(q) && q.hist.tag.Some?
    ensures q.hist.tag.value + WORD <= |q.mem.data|
  {
  }

  /** Every quiescent state of the atomic layer satisfies the interleaved invariant, so the absence
      of torn reads holds from every such state on. */
  lemma StartOk(q: R.Queue, conflate: seq<bool>)
    requires R.Quiet(q) && |conflate| == q.mem.numReaders
    ensures Inv(Start(q, conflate))
  {
    hide Reach, Tail, R.Intact, R.CurrentLap, R.PreviousLap, R.Positioned;
    var s := Start(q, conflate);
    StartMemory(q);
    forall i | 0 <= i < |s.procs|
      ensures ReaderOk(s, Loose(Floor(s, i)), s.mem.readers[i], s.procs[i])
    {
      assert R.ReaderOk(q, i);
      if q.mem.readers[i].valid {
        StartStanding(q, i, false);
      }
    }
  }

  lemma StartMemory(q: R.Queue)
    requires R.Quiet(q)
    ensures Reach(q.mem.data, q.mem.offset, q.hist.log, 0, q.hist.mid)
  {
    hide Reach, R.Intact, R.PreviousLap;
    if q.hist.mid < |q.hist.log| {
      CurrentLapReaches(q, q.hist.mid);
    } else {
      ReachHere(q.mem.data, q.mem.offset, q.hist.log);
    }
  }

  lemma ReachHere(d: seq<byte>, w: nat, log: seq<Message>)
    ensures Reach(d, w, log, w, |log|)
  {
  }

  lemma StartStanding(q: R.Queue, i: nat, exact: bool)
    requires R.Quiet(q) && D.Live(q, i)
    ensures var rd := q.mem.readers[i];
            var k := if rd.offset == q.mem.offset then |q.hist.log| else q.hist.next[i];
            || Reach(q.mem.data, q.mem.offset, q.hist.log, rd.offset, k)
            || (q.mem.offset <= rd.offset && rd.cycle < q.mem.cycle
                && Tail(q.mem.data, q.hist.log, q.hist.mid, rd.offset, k, exact))
  {
    hide Reach, Tail, R.Intact;
    D.LivePositioned(q, i);
    var r, k := q.mem.readers[i].offset, q.hist.next[i];
    if r < q.mem.offset {
      CurrentLapReaches(q, k);
    } else if r == q.mem.offset {
      ReachHere(q.mem.data, r, q.hist.log);
    } else {
      PreviousLapTails(q, k, exact);
    }
  }

  /** No torn reads, from any state the operations can leave the queue in, as long as the second
      loop misses no reset - as when the writer begins no lap between a reset's load of the write
      pointer and its store. */
  lemma NoTornReadsFromAnyQuietState(q: R.Queue, conflate: seq<bool>, actions: seq<Action>, i: nat)
    requires R.Quiet(q) && |conflate| == q.mem.numReaders && i < q.mem.numReaders
    requires Interleaving(Start(q, conflate), actions)
    requires ResetsSeen(Start(q, conflate), actions) || NoLapInReset(Start(q, conflate), actions)
    ensures var e := After(Start(q, conflate), actions);
            i < |e.procs| && D.Subsequence(e.procs[i].got, e.log, |e.log|)
  {
    StartOk(q, conflate);
    hide Inv, R.Intact, R.CurrentLap, R.PreviousLap, R.ReaderOk;
    hide Interleaving, After, ResetsSeen, NoLapInReset, D.Subsequence, Safe;
    if NoLapInReset(Start(q, conflate), actions) {
      NoLapSeesResets(Start(q, conflate), actions);
    }
    NoTornReads(Start(q, conflate), actions, i);
  }

  // ---- a send that runs alone --------------------------------------------------------------------

  /** The writer's accesses still to come, as a measure. */
  function Ahead(s: System): (int, int) {
    var n := s.mem.numReaders;
    match s.writer
    case Idle => (0, 0)
    case Publish(_) => (1, 0)
    case CopyIn(m, k) => (2, |m| - k)
    case WriteHeader(_) => (3, 0)
    case LoadWithin(_, i) => (4, 2 * (n - i) + 1)
    case DropWithin(_, i) => (4, 2 * (n - i))
    case Bump(_) => (5, 0)
    case LoadBeyond(_, i) => (6, 2 * (n - i) + 1)
    case DropBeyond(_, i) => (6, 2 * (n - i))
    case WriteTag(_) => (7, 0)
  }

  /** The writer moves until the send is over, and nobody else does. */
  ghost function Finish(s: System): System
    requires WriterInv(s)
    decreases Ahead(s).0, Ahead(s).1
  {
    if s.writer.Idle? then s else WriterSafe(s); WriterAdvances(s); Finish(WriterStep(s))
  }

  lemma WriterAdvances(s: System)
    requires WriterInv(s) && !s.writer.Idle? && Safe(s, WriterMoves)
    ensures var a, b := Ahead(s), Ahead(WriterStep(s));
            b.0 < a.0 || (b.0 == a.0 && 0 <= a.1 && b.1 < a.1)
  {
    hide Reach, StoreHeader, WordAt;
  }

  lemma FinishStep(s: System)
    requires WriterInv(s) && !s.writer.Idle?
    ensures Safe(s, WriterMoves) && WriterInv(WriterStep(s)) && Finish(s) == Finish(WriterStep(s))
  {
    hide WriterInv, WriterStep, Safe;
    WriterSafe(s);
    WriterAdvances(s);
  }

  /** The first loop from slot i on. */
  function BeyondFrom(mem: R.Shm, i: nat): (r: seq<R.Reader>)
    ensures |r| == |mem.readers|
  {
    seq(|mem.readers|, j requires 0 <= j < |mem.readers| =>
      var rd := mem.readers[j];
      if i <= j < mem.numReaders && rd.offset > mem.offset && rd.cycle != mem.cycle
      then rd.(valid := false) else rd)
  }

  function AfterBeyond(s: System, m: Message, i: nat): System {
    s.(mem := s.mem.(readers := BeyondFrom(s.mem, i)), writer := Bump(m))
  }

  lemma {:induction false} FinishBeyond(s: System, m: Message, i: nat)
    requires WriterInv(s) && s.writer == LoadBeyond(m, i)
    ensures WriterInv(AfterBeyond(s, m, i)) && Finish(s) == Finish(AfterBeyond(s, m, i))
    decreases s.mem.numReaders - i
  {
    hide WriterInv, Finish;
    MemoryShaped(s);
    FinishStep(s);
    var e := WriterStep(s);
    if s.mem.numReaders <= i {
      assert BeyondFrom(s.mem, i) == s.mem.readers;
    } else if e.writer.DropBeyond? {
      FinishStep(e);
      var e2 := WriterStep(e);
      FinishBeyond(e2, m, i + 1);
      assert BeyondFrom(e2.mem, i + 1) == BeyondFrom(s.mem, i);
    } else {
      FinishBeyond(e, m, i + 1);
      assert BeyondFrom(e.mem, i + 1) == BeyondFrom(s.mem, i);
    }
  }

  /** The second loop from slot i on. */
  function WithinFrom(mem: R.Shm, end: nat, i: nat): (r: seq<R.Reader>)
    ensures |r| == |mem.readers|
  {
    seq(|mem.readers|, j requires 0 <= j < |mem.readers| =>
      var rd := mem.readers[j];
      if i <= j < mem.numReaders && mem.offset <= rd.offset < end && rd.cycle != mem.cycle
      then rd.(valid := false) else rd)
  }

  function AfterWithin(s: System, m: Message, i: nat): System {
    s.(mem := s.mem.(readers := WithinFrom(s.mem, s.mem.offset + Total(m), i)),
       writer := WriteHeader(m))
  }

  lemma {:induction false} FinishWithin(s: System, m: Message, i: nat)
    requires WriterInv(s) && s.writer == LoadWithin(m, i)
    ensures WriterInv(AfterWithin(s, m, i)) && Finish(s) == Finish(AfterWithin(s, m, i))
    decreases s.mem.numReaders - i
  {
    hide WriterInv, Finish, Total;
    MemoryShaped(s);
    FinishStep(s);
    var e, end := WriterStep(s), s.mem.offset + Total(m);
    if s.mem.numReaders <= i {
      assert WithinFrom(s.mem, end, i) == s.mem.readers;
    } else if e.writer.DropWithin? {
      FinishStep(e);
      var e2 := WriterStep(e);
      FinishWithin(e2, m, i + 1);
      assert WithinFrom(e2.mem, end, i + 1) == WithinFrom(s.mem, end, i);
    } else {
      FinishWithin(e, m, i + 1);
      assert WithinFrom(e.mem, end, i + 1) == WithinFrom(s.mem, end, i);
    }
  }

  function AfterCopy(s: System, m: Message, k: nat): System
    requires k <= |m| && s.mem.offset + WORD + |m| <= |s.mem.data|
  {
    s.(mem := s.mem.(data := WriteAt(s.mem.data, s.mem.offset + WORD + k, m[k..])),
       writer := Publish(m))
  }

  lemma {:induction false} FinishCopy(s: System, m: Message, k: nat)
    requires WriterInv(s) && s.writer == CopyIn(m, k)
    ensures k <= |m| && s.mem.offset + WORD + |m| <= |s.mem.data|
    ensures WriterInv(AfterCopy(s, m, k)) && Finish(s) == Finish(AfterCopy(s, m, k))
    decreases |m| - k
  {
    hide WriterInv, Finish;
    FinishStep(s);
    var e := WriterStep(s);
    if k < |m| {
      FinishCopy(e, m, k + 1);
      assert AfterCopy(e, m, k + 1).mem.data == AfterCopy(s, m, k).mem.data;
    } else {
      assert WriteAt(s.mem.data, s.mem.offset + WORD + k, m[k..]) == s.mem.data;
    }
  }

  /** From the second loop on, an uninterrupted send has the effect of the atomic Put. */
  lemma FinishPut(s: System, m: Message)
    requires WriterInv(s) && s.writer == LoadWithin(m, 0)
    ensures s.mem.offset + Total(m) <= |s.mem.data|
    ensures Finish(s) == s.(mem := R.PutMem(s.mem, m), log := s.log + [m], writer := Idle)
  {
    hide WriterInv, Finish, Total;
    RoomHere(s, m);
    FinishWithin(s, m, 0);
    var s1 := AfterWithin(s, m, 0);
    FinishStep(s1);
    var s2 := WriterStep(s1);
    FinishCopy(s2, m, 0);
    var s3 := AfterCopy(s2, m, 0);
    assert m[0..] == m;
    FinishStep(s3);
    assert R.DropWithin(s.mem, s.mem.offset + Total(m)) == s1.mem.readers;
    assert s3.mem.data == StoreMessage(s.mem.data, s.mem.offset, m);
    FinishIdle(WriterStep(s3));
  }

  lemma RoomHere(s: System, m: Message)
    requires WriterInv(s) && s.writer == LoadWithin(m, 0)
    ensures s.mem.offset + Total(m) + WORD < |s.mem.data|
  {
  }

  lemma FinishIdle(s: System)
    requires WriterInv(s) && s.writer.Idle?
    ensures Finish(s) == s
  {
  }

  /** An uninterrupted send, access by access, is the atomic send. */
  lemma SoloSendIsAtomicSend(s: System, m: Message)
    requires WriterInv(s) && Enabled(s, BeginSend(m))
    ensures WriterInv(Begin(s, m))
    ensures R.Wraps(s.mem, m) ==>
              && s.mem.offset + WORD <= |s.mem.data| && Total(m) <= |s.mem.data|
              && Finish(Begin(s, m)) ==
                 s.(mem := R.PutMem(R.WrapMem(s.mem), m), log := s.log + [m], mid := |s.log|)
    ensures !R.Wraps(s.mem, m) ==>
              && s.mem.offset + Total(m) <= |s.mem.data|
              && Finish(Begin(s, m)) == s.(mem := R.PutMem(s.mem, m), log := s.log + [m])
  {
    hide WriterInv, Finish, Total;
    BeginMemory(s, m);
    if R.Wraps(s.mem, m) {
      var s0 := Begin(s, m);
      FinishStep(s0);
      FinishBeyond(WriterStep(s0), m, 0);
      var s1 := AfterBeyond(WriterStep(s0), m, 0);
      FinishStep(s1);
      FinishPut(WriterStep(s1), m);
      assert R.DropBeyond(s.mem) == s1.mem.readers;
    } else {
      FinishPut(Begin(s, m), m);
    }
  }
}
