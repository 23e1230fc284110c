/** No gaps between interleaved receives: a reader whose flag the writer leaves alone, and which no
    tag skips, delivers one message after the other. */
module StepGaps {
  import opened Machine
  import opened Buffer
  import opened Delivery
  import R = Ring
  import G = Gaps
  import opened Steps
  import opened StepInvariant
  import opened StepProofs
  import opened StepLink

  // ---- a reader that has missed nothing --------------------------------------------------------------

  /** Where a reader that misses nothing may stand on the older lap: above the tag while a lap begins,
      nowhere once the first loop has passed it, otherwise as any reader. */
  function Bound(s: System, i: nat): Older {
    var w, size := s.mem.offset, |s.mem.data|;
    Older(match s.writer
          case LoadBeyond(m, j) => if i < j then size else w + WORD
          case DropBeyond(m, j) => if i < j then size else w + WORD
          case Bump(m) => size
          case _ => Floor(s, i),
          true)
  }

  /** Reader i is valid, not in a reset, and misses nothing: from its place every message up to the
      write offset can still be reached, one after the other. */
  ghost predicate Complete(s: System, i: nat) {
    && i < |s.procs| && i < |s.mem.readers|
    && s.mem.readers[i].valid
    && !s.procs[i].phase.ResetFlag? && !s.procs[i].phase.ResetLoad? && !s.procs[i].phase.ResetStore?
    && ReaderOk(s, Bound(s, i), s.mem.readers[i], s.procs[i])
  }

  /** The access does not clear reader i's flag, and it is not a tag stored where the reader stands,
      with another cycle and something still to read. */
  predicate Spares(s: System, a: Action, i: nat)
    requires i < |s.procs| && i < |s.mem.readers|
  {
    a.WriterMoves? ==>
      match s.writer
      case DropBeyond(m, j) => j != i
      case DropWithin(m, j) => j != i
      case WriteTag(m) =>
        !(s.mem.readers[i].offset == s.mem.offset && s.mem.readers[i].cycle != s.mem.cycle
          && s.procs[i].next < |s.log|)
      case _ => true
  }

  // ---- the writer --------------------------------------------------------------------------------------

  /** At the write offset with the same cycle, or with everything read, nothing of an older lap is
      left. */
  lemma AboveTheTag(s: System, i: nat)
    requires WriterInv(s) && Complete(s, i) && s.writer.WriteTag? && Spares(s, WriterMoves, i)
    ensures ReaderOk(s, Older(s.mem.offset + WORD, true), s.mem.readers[i], s.procs[i])
  {
    hide Reach, PayloadAt, Subsequence, TagAt, MsgAt;
    var rd, p := s.mem.readers[i], s.procs[i];
    TagAwayFromZero(s);
    OlderIsUnread(s, rd.offset, p.next);
  }

  lemma OlderIsUnread(s: System, r: nat, k: nat)
    requires MemoryOk(s) && 0 < s.mem.offset
    ensures s.mid < |s.log|
    ensures Tail(s.mem.data, s.log, s.mid, r, k, true) ==> k < |s.log|
  {
  }

  lemma TagAwayFromZero(s: System)
    requires WriterInv(s) && s.writer.WriteTag?
    ensures 0 < s.mem.offset
  {
  }

  /** Once the first loop has passed a slot and spared it, its reader is not on an older lap. */
  lemma PastFirstLoop(s: System, rd: R.Reader, p: Proc)
    requires ReaderOk(s, Older(s.mem.offset + WORD, true), rd, p)
    requires rd.valid && !(rd.offset > s.mem.offset && rd.cycle != s.mem.cycle)
    requires !p.phase.ResetStore?
    ensures ReaderOk(s, Older(|s.mem.data|, true), rd, p)
  {
    hide Reach, Tail, PayloadAt, Subsequence;
  }

  lemma TagCompletes(s: System, i: nat)
    requires WriterInv(s) && Complete(s, i) && s.writer.WriteTag? && Spares(s, WriterMoves, i)
    ensures Safe(s, WriterMoves) && Complete(WriterStep(s), i)
  {
    AboveTheTag(s, i);
    hide Reach, ReaderOk, StoreHeader, WordAt;
    TagStored(s, WriterStep(s), Older(s.mem.offset + WORD, true), s.mem.readers[i], s.procs[i]);
  }

  lemma BeyondCompletes(s: System, i: nat)
    requires WriterInv(s) && Complete(s, i) && Spares(s, WriterMoves, i)
    requires s.writer.LoadBeyond? || s.writer.DropBeyond?
    ensures Safe(s, WriterMoves) && Complete(WriterStep(s), i)
  {
    hide Reach, ReaderOk, TagAt;
    var e := WriterStep(s);
    SameView(s, e, Bound(s, i), s.mem.readers[i], s.procs[i]);
    if s.writer.LoadBeyond? && s.writer.i == i && e.writer.LoadBeyond? {
      PastFirstLoop(e, s.mem.readers[i], s.procs[i]);
    }
  }

  lemma BumpCompletes(s: System, i: nat)
    requires WriterInv(s) && Complete(s, i) && s.writer.Bump?
    ensures Safe(s, WriterMoves) && Complete(WriterStep(s), i)
  {
    hide Reach, ReaderOk, TagAt;
    BumpedExactly(s, WriterStep(s), s.mem.readers[i], s.procs[i]);
  }

  lemma WithinCompletes(s: System, i: nat)
    requires WriterInv(s) && Complete(s, i) && Spares(s, WriterMoves, i)
    requires s.writer.LoadWithin? || s.writer.DropWithin?
    ensures Safe(s, WriterMoves) && Complete(WriterStep(s), i)
  {
    hide Reach, ReaderOk;
    var e := WriterStep(s);
    SameView(s, e, Bound(s, i), s.mem.readers[i], s.procs[i]);
    if s.writer.LoadWithin? && s.writer.i == i && e.writer.LoadWithin? {
      FloorRaised(e, s.writer.m, true, s.mem.readers[i], s.procs[i]);
    }
  }

  lemma AreaCompletes(s: System, i: nat)
    requires WriterInv(s) && Complete(s, i) && (s.writer.WriteHeader? || s.writer.CopyIn?)
    ensures Safe(s, WriterMoves) && Complete(WriterStep(s), i)
  {
    hide Reach, ReaderOk, StoreHeader, WordAt;
    if s.writer.WriteHeader? {
      HeaderStored(s.mem.data, s.mem.offset, |s.writer.m|);
    }
    AreaWritten(s, WriterStep(s), Bound(s, i), s.mem.readers[i], s.procs[i]);
  }

  lemma PublishCompletes(s: System, i: nat)
    requires WriterInv(s) && Complete(s, i) && s.writer.Publish?
    ensures Safe(s, WriterMoves) && Complete(WriterStep(s), i)
  {
    hide Reach, ReaderOk, MsgAt;
    Published(s, WriterStep(s), s.writer.m, Bound(s, i), s.mem.readers[i], s.procs[i]);
  }

  lemma WriterCompletes(s: System, i: nat)
    requires WriterInv(s) && Complete(s, i) && Spares(s, WriterMoves, i)
    ensures Safe(s, WriterMoves) && WriterInv(WriterStep(s)) && Complete(WriterStep(s), i)
  {
    WriterSafe(s);
    hide WriterInv, Complete, Spares, Safe;
    match s.writer
    case Idle =>
    case WriteTag(_) => TagCompletes(s, i);
    case LoadBeyond(_, _) => BeyondCompletes(s, i);
    case DropBeyond(_, _) => BeyondCompletes(s, i);
    case Bump(_) => BumpCompletes(s, i);
    case LoadWithin(_, _) => WithinCompletes(s, i);
    case DropWithin(_, _) => WithinCompletes(s, i);
    case WriteHeader(_) => AreaCompletes(s, i);
    case CopyIn(_, _) => AreaCompletes(s, i);
    case Publish(_) => PublishCompletes(s, i);
  }

  lemma BeginCompletes(s: System, m: Message, i: nat)
    requires WriterInv(s) && Complete(s, i) && Enabled(s, BeginSend(m))
    ensures WriterInv(Begin(s, m)) && Complete(Begin(s, m), i)
  {
    BeginMemory(s, m);
    hide Reach, ReaderOk;
    SameView(s, Begin(s, m), Bound(s, i), s.mem.readers[i], s.procs[i]);
  }

  // ---- the readers -------------------------------------------------------------------------------------

  /** The index of the next message reader i delivers: the one in its hands, or the next one. */
  function Upcoming(p: Proc): nat {
    if p.phase.CheckCopy? then p.phase.index else p.next
  }

  /** Reader i either delivers nothing and keeps its place, or delivers exactly the next message. */
  predicate Delivers(log: seq<Message>, p: Proc, p': Proc) {
    || (p'.got == p.got && Upcoming(p') == Upcoming(p))
    || (Upcoming(p) < |log| && p'.got == p.got + [Delivered(Upcoming(p), log[Upcoming(p)])]
        && Upcoming(p') == Upcoming(p) + 1)
  }

  lemma SelfDelivers(s: System, i: nat)
    requires WriterInv(s) && Complete(s, i) && !s.procs[i].conflate && Safe(s, ReaderMoves(i))
    ensures var e := ReaderStep(s, i); i < |e.procs| && Delivers(s.log, s.procs[i], e.procs[i])
  {
    hide Reach, Tail, PayloadAt, Subsequence, Align, WriterInv;
  }

  lemma SelfCompletes(s: System, i: nat)
    requires WriterInv(s) && Complete(s, i) && Safe(s, ReaderMoves(i))
    ensures Complete(ReaderStep(s, i), i)
  {
    ReaderSelf(s, Bound(s, i), i);
    ReaderTouchesItself(s, i);
    hide ReaderOk, Align;
    assert Bound(ReaderStep(s, i), i) == Bound(s, i);
  }

  lemma ReaderMemory(s: System, j: nat)
    requires WriterInv(s) && Safe(s, ReaderMoves(j))
    ensures WriterInv(ReaderStep(s, j))
  {
    hide Reach, ReaderStep, TagAt, WordAt, MsgAt;
    ReaderTouchesItself(s, j);
  }

  lemma OtherCompletes(s: System, i: nat, j: nat)
    requires WriterInv(s) && Complete(s, i) && Safe(s, ReaderMoves(j)) && i != j
    ensures i < |s.procs| == |ReaderStep(s, j).procs| && ReaderStep(s, j).procs[i] == s.procs[i]
    ensures Complete(ReaderStep(s, j), i)
  {
    hide ReaderOk, ReaderStep;
    ReaderTouchesItself(s, j);
    SameView(s, ReaderStep(s, j), Bound(s, i), s.mem.readers[i], s.procs[i]);
  }

  // ---- interleavings -----------------------------------------------------------------------------------

  /** An access of anyone that spares reader i keeps it complete and lets it deliver only what comes
      next. What the other readers are doing does not matter. */
  lemma SparedStep(s: System, a: Action, i: nat)
    requires WriterInv(s) && Complete(s, i) && !s.procs[i].conflate
    requires Enabled(s, a) && Safe(s, a) && Spares(s, a, i)
    ensures var e := Do(s, a);
            && WriterInv(e) && Complete(e, i) && s.log <= e.log && i < |s.procs|
            && e.procs[i].conflate == s.procs[i].conflate
            && Delivers(s.log, s.procs[i], e.procs[i])
  {
    hide WriterInv, ReaderOk, Align;
    match a
    case BeginSend(m) => BeginCompletes(s, m, i);
    case WriterMoves => WriterCompletes(s, i);
    case ReaderMoves(j) =>
      ReaderMemory(s, j);
      ReaderTouchesItself(s, j);
      if j == i {
        SelfDelivers(s, i);
        SelfCompletes(s, i);
      } else {
        hide ReaderStep;
        OtherCompletes(s, i, j);
      }
  }

  /** Every access of the run spares reader i. */
  predicate SparedRun(s: System, actions: seq<Action>, i: nat)
    decreases |actions|
  {
    actions != [] && Safe(s, actions[0]) ==>
      && i < |s.procs| && i < |s.mem.readers| && Spares(s, actions[0], i)
      && SparedRun(Do(s, actions[0]), actions[1..], i)
  }

  /** No gaps. In every interleaving in which the writer clears no flag of reader i and stores no tag
      where it stands unread with another cycle, the reader delivers the log from its place on, byte
      for byte, one entry after the other with none missing and none repeated. */
  lemma {:induction false} NoGapsInterleaved(s: System, actions: seq<Action>, i: nat)
    requires WriterInv(s) && Complete(s, i) && !s.procs[i].conflate
    requires Interleaving(s, actions) && SparedRun(s, actions, i)
    ensures var e := After(s, actions);
            && i < |s.procs| && i < |e.procs| && s.log <= e.log
            && WriterInv(e) && Complete(e, i)
            && Upcoming(s.procs[i]) <= Upcoming(e.procs[i]) <= |e.log|
            && e.procs[i].got ==
               s.procs[i].got + G.Entries(e.log, Upcoming(s.procs[i]), Upcoming(e.procs[i]))
    decreases |actions|
  {
    UpcomingWithinLog(s, i);
    hide WriterInv, Complete, Do, Safe, Enabled, Spares, Delivers;
    if actions != [] && Safe(s, actions[0]) {
      var s1 := Do(s, actions[0]);
      SparedStep(s, actions[0], i);
      NoGapsInterleaved(s1, actions[1..], i);
      var e := After(s, actions);
      JoinDeliveries(s.log, s1.log, e.log, s.procs[i], s1.procs[i], e.procs[i]);
    }
  }

  lemma UpcomingWithinLog(s: System, i: nat)
    requires Complete(s, i)
    ensures i < |s.procs| && Upcoming(s.procs[i]) <= |s.log|
  {
  }

  lemma JoinDeliveries(log: seq<Message>, log1: seq<Message>, log2: seq<Message>,
                       p: Proc, p1: Proc, p2: Proc)
    requires Delivers(log, p, p1) && log <= log1 <= log2
    requires Upcoming(p) <= |log| && Upcoming(p1) <= Upcoming(p2) <= |log2|
    requires p2.got == p1.got + G.Entries(log2, Upcoming(p1), Upcoming(p2))
    ensures Upcoming(p) <= Upcoming(p2)
    ensures p2.got == p.got + G.Entries(log2, Upcoming(p), Upcoming(p2))
  {
    var a, b, c := Upcoming(p), Upcoming(p1), Upcoming(p2);
    if b == a + 1 {
      assert log[a] == log2[a];
      assert G.Entries(log2, a, c) == [Delivered(a, log2[a])] + G.Entries(log2, b, c);
    }
  }

  /** A valid reader of any state the operations can leave is complete; one that stands on the write
      offset counts as having read everything. */
  lemma StartComplete(q: R.Queue, conflate: seq<bool>, i: nat)
    requires R.Quiet(q) && |conflate| == q.mem.numReaders && Live(q, i)
    ensures WriterInv(Start(q, conflate)) && Complete(Start(q, conflate), i)
  {
    StartOk(q, conflate);
    hide Reach, Tail, R.Intact, R.CurrentLap, R.PreviousLap, R.Positioned;
    assert R.ReaderOk(q, i);
    StartStanding(q, i, true);
  }
}
