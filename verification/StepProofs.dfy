/** Every access, by anyone, keeps the invariant; so no interleaving tears a message. */
module StepProofs {
  import opened Machine
  import opened Buffer
  import opened Delivery
  import R = Ring
  import opened Steps
  import opened StepInvariant

  // ---- the writer's accesses --------------------------------------------------------------------

  /** A reader sees the data, the write pointer and the history, not the other slots nor what the
      writer is about to do. */
  lemma SameView(s: System, e: System, lo: Older, rd: R.Reader, p: Proc)
    requires ReaderOk(s, lo, rd, p)
    requires e.mem.data == s.mem.data && e.mem.offset == s.mem.offset
    requires e.mem.cycle == s.mem.cycle && e.log == s.log && e.mid == s.mid
    ensures ReaderOk(e, lo, rd, p)
  {
    hide Reach, Tail, PayloadAt, Subsequence;
  }

  /** A slot that is not in the area, or has reached the writer's cycle, is past the area, unless its
      reset has loaded a pointer into the area. */
  lemma FloorRaised(s: System, m: Message, exact: bool, rd: R.Reader, p: Proc)
    requires ReaderOk(s, Older(s.mem.offset, exact), rd, p)
    requires rd.valid ==> !InArea(s.mem, m, rd.offset, rd.cycle)
    requires rd.valid && p.phase.ResetStore? ==> !InArea(s.mem, m, p.phase.w, p.phase.cycle)
    ensures ReaderOk(s, Older(s.mem.offset + Total(m), exact), rd, p)
  {
    hide Reach, Tail, PayloadAt, Subsequence;
  }

  lemma FlagCleared(s: System, lo: Older, lo': Older, rd: R.Reader, p: Proc)
    requires ReaderOk(s, lo, rd, p)
    ensures ReaderOk(s, lo', rd.(valid := false), p)
  {
    hide FlagOk, Subsequence;
  }

  // What the writer's access does to the readers.

  lemma TagReaders(s: System)
    requires Inv(s) && s.writer.WriteTag?
    ensures Safe(s, WriterMoves) && ReadersOk(WriterStep(s))
  {
    hide Reach, ReaderOk, StoreHeader, WordAt;
    var e := WriterStep(s);
    forall i | 0 <= i < |s.procs|
      ensures ReaderOk(e, Loose(Floor(e, i)), e.mem.readers[i], e.procs[i])
    {
      TagStored(s, e, Loose(s.mem.offset), s.mem.readers[i], s.procs[i]);
    }
  }

  lemma BeyondReaders(s: System)
    requires Inv(s) && (s.writer.LoadBeyond? || s.writer.DropBeyond?)
    ensures Safe(s, WriterMoves) && ReadersOk(WriterStep(s))
  {
    hide Reach, ReaderOk, TagAt;
    var e := WriterStep(s);
    forall i | 0 <= i < |s.procs|
      ensures ReaderOk(e, Loose(Floor(e, i)), e.mem.readers[i], e.procs[i])
    {
      SameView(s, e, Loose(s.mem.offset), s.mem.readers[i], s.procs[i]);
      FlagCleared(e, Loose(s.mem.offset), Loose(s.mem.offset), s.mem.readers[i], s.procs[i]);
    }
  }

  lemma BumpReaders(s: System)
    requires Inv(s) && s.writer.Bump?
    ensures Safe(s, WriterMoves) && ReadersOk(WriterStep(s))
  {
    hide ReaderOk, TagAt, Reach;
    var e := WriterStep(s);
    forall i | 0 <= i < |s.procs|
      ensures ReaderOk(e, Loose(Floor(e, i)), e.mem.readers[i], e.procs[i])
    {
      Bumped(s, e, s.mem.readers[i], s.procs[i]);
    }
  }

  lemma WithinReaders(s: System)
    requires Inv(s) && (s.writer.LoadWithin? || s.writer.DropWithin?) && !Missed(s)
    ensures Safe(s, WriterMoves) && ReadersOk(WriterStep(s))
  {
    hide Reach, ReaderOk;
    var e := WriterStep(s);
    forall i | 0 <= i < |s.procs|
      ensures ReaderOk(e, Loose(Floor(e, i)), e.mem.readers[i], e.procs[i])
    {
      SameView(s, e, Loose(Floor(s, i)), s.mem.readers[i], s.procs[i]);
      if i == s.writer.i {
        if s.writer.DropWithin? {
          FlagCleared(e, Loose(Floor(s, i)), Loose(Floor(e, i)), s.mem.readers[i], s.procs[i]);
        } else if e.writer.LoadWithin? {
          FloorRaised(e, s.writer.m, false, s.mem.readers[i], s.procs[i]);
        }
      }
    }
  }

  lemma AreaReaders(s: System)
    requires Inv(s) && (s.writer.WriteHeader? || s.writer.CopyIn?)
    ensures Safe(s, WriterMoves) && ReadersOk(WriterStep(s))
  {
    hide ReaderOk, StoreHeader, WordAt, Reach;
    var e, end := WriterStep(s), s.mem.offset + Total(s.writer.m);
    if s.writer.WriteHeader? {
      HeaderStored(s.mem.data, s.mem.offset, |s.writer.m|);
    }
    forall i | 0 <= i < |s.procs|
      ensures ReaderOk(e, Loose(Floor(e, i)), e.mem.readers[i], e.procs[i])
    {
      AreaWritten(s, e, Loose(end), s.mem.readers[i], s.procs[i]);
    }
  }

  lemma PublishReaders(s: System)
    requires Inv(s) && s.writer.Publish?
    ensures Safe(s, WriterMoves) && ReadersOk(WriterStep(s))
  {
    hide ReaderOk, Reach, MsgAt;
    var m, e := s.writer.m, WriterStep(s);
    forall i | 0 <= i < |s.procs|
      ensures ReaderOk(e, Loose(Floor(e, i)), e.mem.readers[i], e.procs[i])
    {
      Published(s, e, m, Loose(Floor(s, i)), s.mem.readers[i], s.procs[i]);
    }
  }

  // What it does to the memory, whatever the readers are doing.

  lemma TagMemory(s: System)
    requires WriterInv(s) && s.writer.WriteTag?
    ensures Safe(s, WriterMoves) && WriterInv(WriterStep(s))
  {
    hide Reach, StoreHeader, WordAt;
    var e := WriterStep(s);
    HeaderStored(s.mem.data, s.mem.offset, -1);
    ReachFrame(s.mem.data, e.mem.data, s.mem.offset, s.log, 0, s.mid);
  }

  lemma HeaderMemory(s: System)
    requires WriterInv(s) && s.writer.WriteHeader?
    ensures Safe(s, WriterMoves) && WriterInv(WriterStep(s))
  {
    hide Reach, StoreHeader, WordAt;
    var e := WriterStep(s);
    HeaderStored(s.mem.data, s.mem.offset, |s.writer.m|);
    ReachFrame(s.mem.data, e.mem.data, s.mem.offset, s.log, 0, s.mid);
  }

  lemma CopyInMemory(s: System)
    requires WriterInv(s) && s.writer.CopyIn?
    ensures Safe(s, WriterMoves) && WriterInv(WriterStep(s))
  {
    hide Reach;
    var m, k, w, e := s.writer.m, s.writer.k, s.mem.offset, WriterStep(s);
    ReachFrame(s.mem.data, e.mem.data, w, s.log, 0, s.mid);
    WordFrame(s.mem.data, e.mem.data, w, |m|);
    if k < |m| {
      assert e.mem.data[w + WORD..w + WORD + k + 1] == m[..k + 1];
    } else {
      assert m[..k] == m;
    }
  }

  lemma PublishMemory(s: System)
    requires WriterInv(s) && s.writer.Publish?
    ensures Safe(s, WriterMoves) && WriterInv(WriterStep(s))
  {
    hide Reach, MsgAt;
    ReachPublished(s.mem.data, s.mem.offset, s.log, s.writer.m, 0, s.mid);
  }

  lemma LoopMemory(s: System)
    requires WriterInv(s)
    requires var f := s.writer;
             f.Idle? || f.LoadBeyond? || f.DropBeyond? || f.Bump? || f.LoadWithin? || f.DropWithin?
    ensures Safe(s, WriterMoves) && WriterInv(WriterStep(s))
  {
    hide TagAt;
  }

  /** The writer's accesses are safe and keep the memory in order whatever the readers are doing. */
  lemma WriterSafe(s: System)
    requires WriterInv(s)
    ensures Safe(s, WriterMoves) && WriterInv(WriterStep(s))
  {
    hide WriterInv, Safe;
    match s.writer
    case WriteTag(_) => TagMemory(s);
    case WriteHeader(_) => HeaderMemory(s);
    case CopyIn(_, _) => CopyInMemory(s);
    case Publish(_) => PublishMemory(s);
    case _ => LoopMemory(s);
  }

  /** They keep what is true of every reader too, unless the second loop misses a reset. */
  lemma WriterKeeps(s: System)
    requires Inv(s) && !Missed(s)
    ensures Safe(s, WriterMoves) && Inv(WriterStep(s))
  {
    WriterSafe(s);
    hide WriterInv, Missed;
    match s.writer
    case Idle =>
    case WriteTag(_) => TagReaders(s);
    case LoadBeyond(_, _) => BeyondReaders(s);
    case DropBeyond(_, _) => BeyondReaders(s);
    case Bump(_) => BumpReaders(s);
    case LoadWithin(_, _) => WithinReaders(s);
    case DropWithin(_, _) => WithinReaders(s);
    case WriteHeader(_) => AreaReaders(s);
    case CopyIn(_, _) => AreaReaders(s);
    case Publish(_) => PublishReaders(s);
  }

  lemma BeginKeeps(s: System, m: Message)
    requires Inv(s) && Enabled(s, BeginSend(m))
    ensures Inv(Begin(s, m))
  {
    hide Reach, ReaderOk;
    var e := Begin(s, m);
    forall i | 0 <= i < |s.procs|
      ensures ReaderOk(e, Loose(Floor(e, i)), e.mem.readers[i], e.procs[i])
    {
      SameView(s, e, Loose(s.mem.offset), s.mem.readers[i], s.procs[i]);
    }
  }

  lemma MemoryShaped(s: System)
    requires WriterInv(s)
    ensures Shaped(s)
  {
  }

  lemma BeginMemory(s: System, m: Message)
    requires WriterInv(s) && Enabled(s, BeginSend(m))
    ensures WriterInv(Begin(s, m))
  {
    hide Reach;
  }

  // ---- a reader's accesses -----------------------------------------------------------------------

  /** A reader in flight loads -1 or the size of its next message. */
  lemma HeaderLoads(s: System, lo: Older, rd: R.Reader, p: Proc)
    requires MemoryOk(s) && rd.offset + WORD <= |s.mem.data|
    requires InFlight(s, lo, rd.offset, rd.cycle, p.next)
    ensures Loaded(s, lo, rd, p, Header(s.mem.data, rd.offset))
  {
    hide Header, EncodeInt64;
    var d, r, k := s.mem.data, rd.offset, p.next;
    if TagAt(d, r) {
      WordReadsBack(d, r, -1);
    }
    if k < |s.log| && MsgAt(d, r, s.log[k]) {
      WordReadsBack(d, r, |s.log[k]|);
      var e := r + Total(s.log[k]);
      if Reach(d, s.mem.offset, s.log, e, k + 1) {
        ReachEnds(d, s.mem.offset, s.log, e, k + 1);
      }
      if Tail(d, s.log, s.mid, e, k + 1, lo.exact) {
        TailEnds(d, s.log, s.mid, e, k + 1, lo.exact);
      }
    }
  }

  /** The effect of a reader's access on itself, while it only moves through the loop's tests. */
  lemma TestKeeps(s: System, lo: Older, i: nat)
    requires MemoryOk(s) && i < |s.procs| && ReaderOk(s, lo, s.mem.readers[i], s.procs[i])
    requires var f := s.procs[i].phase;
             f.CheckFlag? || f.ResetFlag? || f.ResetLoad? || f.ResetStore? || f.LoadPointers?
    ensures Safe(s, ReaderMoves(i))
    ensures var e := ReaderStep(s, i); ReaderOk(e, lo, e.mem.readers[i], e.procs[i])
  {
    hide Tail, PayloadAt, Subsequence, Header;
    var p, n := s.procs[i], |s.log|;
    assert Reach(s.mem.data, s.mem.offset, s.log, s.mem.offset, n);
    StillSubsequence(p.got, s.log, s.log, p.next, if p.phase.ResetStore? then p.phase.k else n);
  }

  lemma HeaderKeeps(s: System, lo: Older, i: nat)
    requires MemoryOk(s) && i < |s.procs| && ReaderOk(s, lo, s.mem.readers[i], s.procs[i])
    requires s.procs[i].phase.LoadHeader? || s.procs[i].phase.CheckHeader?
    ensures Safe(s, ReaderMoves(i))
    ensures var e := ReaderStep(s, i); ReaderOk(e, lo, e.mem.readers[i], e.procs[i])
  {
    hide Reach, Tail, PayloadAt, Subsequence, Header;
    var rd, p := s.mem.readers[i], s.procs[i];
    if p.phase.LoadHeader? && rd.valid {
      HeaderLoads(s, lo, rd, p);
    }
  }

  lemma ActKeeps(s: System, lo: Older, i: nat)
    requires MemoryOk(s) && i < |s.procs| && ReaderOk(s, lo, s.mem.readers[i], s.procs[i])
    requires s.procs[i].phase.Act?
    ensures Safe(s, ReaderMoves(i))
    ensures var e := ReaderStep(s, i); ReaderOk(e, lo, e.mem.readers[i], e.procs[i])
  {
    hide Reach, Tail, PayloadAt, Subsequence, Header, Align;
    var rd, p := s.mem.readers[i], s.procs[i];
    if p.phase.size == -1 {
      StillSubsequence(p.got, s.log, s.log, p.next, if p.next <= s.mid then s.mid else p.next);
    } else {
      EndFormulasAgree(rd.offset, s.log[p.next]);
      StillSubsequence(p.got, s.log, s.log, p.next, p.next + 1);
    }
  }

  lemma CopyKeeps(s: System, lo: Older, i: nat)
    requires MemoryOk(s) && i < |s.procs| && ReaderOk(s, lo, s.mem.readers[i], s.procs[i])
    requires s.procs[i].phase.Copy?
    ensures Safe(s, ReaderMoves(i))
    ensures var e := ReaderStep(s, i); ReaderOk(e, lo, e.mem.readers[i], e.procs[i])
  {
    hide Reach, Tail, Subsequence, Header;
    var rd, p := s.mem.readers[i], s.procs[i];
    var m, j := s.log[p.next], |p.phase.buf|;
    if rd.valid && j < p.phase.len {
      assert s.mem.data[rd.offset + WORD..rd.offset + WORD + |m|][j] == m[j];
      assert m[..j] + [m[j]] == m[..j + 1];
    }
  }

  lemma DeliverKeeps(s: System, lo: Older, i: nat)
    requires MemoryOk(s) && i < |s.procs| && ReaderOk(s, lo, s.mem.readers[i], s.procs[i])
    requires s.procs[i].phase.StorePointer? || s.procs[i].phase.CheckCopy?
    ensures Safe(s, ReaderMoves(i))
    ensures var e := ReaderStep(s, i); ReaderOk(e, lo, e.mem.readers[i], e.procs[i])
  {
    hide Reach, Tail, PayloadAt, Subsequence, Header, Align;
    var rd, p := s.mem.readers[i], s.procs[i];
    if p.phase.StorePointer? {
      EndFormulasAgree(rd.offset, s.log[p.next]);
    } else {
      var k := p.phase.index;
      StillSubsequence(p.got, s.log, s.log, k, p.next);
      if rd.valid {
        Extend(p.got, s.log, k, Delivered(k, p.phase.buf));
      }
    }
  }

  lemma ReaderSelf(s: System, lo: Older, i: nat)
    requires MemoryOk(s) && i < |s.procs| && ReaderOk(s, lo, s.mem.readers[i], s.procs[i])
    ensures Safe(s, ReaderMoves(i))
    ensures var e := ReaderStep(s, i); ReaderOk(e, lo, e.mem.readers[i], e.procs[i])
  {
    hide MemoryOk, ReaderOk, Safe, ReaderStep;
    match s.procs[i].phase
    case CheckFlag => TestKeeps(s, lo, i);
    case ResetFlag => TestKeeps(s, lo, i);
    case ResetLoad => TestKeeps(s, lo, i);
    case ResetStore(_, _, _) => TestKeeps(s, lo, i);
    case LoadPointers => TestKeeps(s, lo, i);
    case LoadHeader(_) => HeaderKeeps(s, lo, i);
    case CheckHeader(_, _) => HeaderKeeps(s, lo, i);
    case Act(_, _) => ActKeeps(s, lo, i);
    case Copy(_, _) => CopyKeeps(s, lo, i);
    case StorePointer(_, _) => DeliverKeeps(s, lo, i);
    case CheckCopy(_, _) => DeliverKeeps(s, lo, i);
  }

  /** A reader stores only into its own slot. */
  lemma ReaderTouchesItself(s: System, i: nat)
    requires Safe(s, ReaderMoves(i))
    ensures var e := ReaderStep(s, i);
            && Shaped(e) && |e.procs| == |s.procs| && e.writer == s.writer
            && e.mem == s.mem.(readers := e.mem.readers) && |e.mem.readers| == |s.mem.readers|
            && e.log == s.log && e.mid == s.mid
            && forall j :: 0 <= j < |s.procs| && j != i ==>
                 e.mem.readers[j] == s.mem.readers[j] && e.procs[j] == s.procs[j]
  {
    hide Header, Align;
  }

  lemma ReaderKeeps(s: System, i: nat)
    requires Inv(s) && i < |s.procs|
    ensures Safe(s, ReaderMoves(i)) && Inv(ReaderStep(s, i))
  {
    hide Reach, ReaderOk, ReaderCanStep, ReaderStep, TagAt, WordAt, MsgAt;
    ReaderSelf(s, Loose(Floor(s, i)), i);
    ReaderTouchesItself(s, i);
    var e := ReaderStep(s, i);
    forall j | 0 <= j < |s.procs|
      ensures ReaderOk(e, Loose(Floor(e, j)), e.mem.readers[j], e.procs[j])
    {
      if j != i {
        SameView(s, e, Loose(Floor(s, j)), s.mem.readers[j], s.procs[j]);
      }
    }
  }

  // ---- interleavings -------------------------------------------------------------------------------

  /** Every access is safe and keeps the invariant, unless the second loop misses a reset. */
  lemma DoKeeps(s: System, a: Action)
    requires Inv(s) && Enabled(s, a) && !(a.WriterMoves? && Missed(s))
    ensures Safe(s, a) && Inv(Do(s, a))
    ensures |Do(s, a).procs| == |s.procs| && s.log <= Do(s, a).log
  {
    InvShaped(s);
    hide Inv, WriterCanStep, ReaderCanStep, Missed;
    match a
    case BeginSend(m) => BeginKeeps(s, m);
    case WriterMoves => WriterKeeps(s);
    case ReaderMoves(i) => ReaderKeeps(s, i); ReaderTouchesItself(s, i); hide ReaderStep;
  }

  lemma InvShaped(s: System)
    requires Inv(s)
    ensures Shaped(s)
  {
  }

  lemma {:induction false} AfterKeeps(s: System, actions: seq<Action>)
    requires Inv(s) && Interleaving(s, actions) && ResetsSeen(s, actions)
    ensures Inv(After(s, actions)) && |After(s, actions).procs| == |s.procs|
    ensures s.log <= After(s, actions).log
    decreases |actions|
  {
    InvShaped(s);
    hide Inv, Do, Enabled, Missed;
    if actions != [] {
      DoKeeps(s, actions[0]);
      AfterKeeps(Do(s, actions[0]), actions[1..]);
    }
  }

  /** No torn reads. In every interleaving of the accesses of sends and receives - tags, flags,
      pointers and single payload bytes - in which no pointer that a reset has loaded is overrun
      unseen before the reset stores it, whatever a receive delivers after its final check is, byte
      for byte, one message that was sent, and each reader's deliveries are strictly ordered by
      index. In every state reached, no access can leave the buffer and the source's assertions on
      the size hold, even for a reader whose flag is being cleared. */
  lemma NoTornReads(s: System, actions: seq<Action>, i: nat)
    requires Inv(s) && Interleaving(s, actions) && ResetsSeen(s, actions) && i < |s.procs|
    ensures var e := After(s, actions);
            && i < |e.procs|
            && Subsequence(e.procs[i].got, e.log, |e.log|)
            && Safe(e, ReaderMoves(i)) && Safe(e, WriterMoves)
  {
    hide Interleaving, After, Safe, Subsequence, ResetsSeen, WriterInv;
    AfterKeeps(s, actions);
    var e := After(s, actions);
    ReaderKeeps(e, i);
    WriterSafe(e);
    GotInLog(e, i);
  }

  lemma GotInLog(e: System, i: nat)
    requires Inv(e) && i < |e.procs|
    ensures Subsequence(e.procs[i].got, e.log, |e.log|)
  {
    hide Reach, FlagOk, Subsequence, TagAt, WordAt, MsgAt;
    var p := e.procs[i];
    assert ReaderOk(e, Loose(Floor(e, i)), e.mem.readers[i], p);
    StillSubsequence(p.got, e.log, e.log, if p.phase.CheckCopy? then p.phase.index else p.next,
                     |e.log|);
  }

  // ---- resets ----------------------------------------------------------------------------------------

  /** Every pointer that a reset has loaded and not yet stored is of the writer's lap. */
  predicate Fresh(s: System) {
    forall i :: 0 <= i < |s.procs| && s.procs[i].phase.ResetStore? ==>
      s.procs[i].phase.cycle == s.mem.cycle
  }

  /** The writer is about to begin a lap while a reset is half done. */
  predicate LapInReset(s: System) {
    s.writer.Bump? && exists i :: 0 <= i < |s.procs| && s.procs[i].phase.ResetStore?
  }

  /** The writer never begins a lap between a reset's load and its store. */
  predicate NoLapInReset(s: System, actions: seq<Action>)
    decreases |actions|
  {
    actions != [] ==>
      && !(actions[0].WriterMoves? && LapInReset(s))
      && (Safe(s, actions[0]) ==> NoLapInReset(Do(s, actions[0]), actions[1..]))
  }

  lemma FreshStep(s: System, a: Action)
    requires Safe(s, a) && Fresh(s) && !(a.WriterMoves? && LapInReset(s))
    ensures Fresh(Do(s, a))
  {
    hide Header, Align;
  }

  /** A lap that begins before the load or after the store misses no reset. */
  lemma {:induction false} NoLapSeesResets(s: System, actions: seq<Action>)
    requires Fresh(s) && NoLapInReset(s, actions)
    ensures ResetsSeen(s, actions)
    decreases |actions|
  {
    hide Do, Safe;
    if actions != [] && Safe(s, actions[0]) {
      FreshStep(s, actions[0]);
      NoLapSeesResets(Do(s, actions[0]), actions[1..]);
    }
  }

  /** Slot i is valid, holds a pointer its reader will use, and this pointer lies inside the area of a
      message in the making, which the second loop was to protect. */
  predicate Exposed(s: System, i: nat) {
    && i < |s.procs| && i < |s.mem.readers|
    && s.mem.readers[i].valid && s.procs[i].phase.CheckFlag?
    && s.mem.offset < s.mem.readers[i].offset < Floor(s, i)
    && s.mem.readers[i].cycle != s.mem.cycle
  }

  lemma NeverExposed(s: System, i: nat)
    requires Inv(s)
    ensures !Exposed(s, i)
  {
    hide Tail, TagAt, WordAt, MsgAt, Subsequence;
    assert i < |s.procs| ==> ReaderOk(s, Loose(Floor(s, i)), s.mem.readers[i], s.procs[i]);
  }

  /** The condition on resets is exact: when the second loop passes a slot that is in the middle of a
      reset, and the reset then stores its pointer inside the area, the slot is exposed if and only if
      the loop missed it. */
  lemma ExposedIffMissed(s: System, m: Message, i: nat)
    requires Inv(s) && s.writer == LoadWithin(m, i) && i < |s.procs|
    requires s.procs[i].phase.ResetStore? && s.mem.offset < s.procs[i].phase.w
    ensures var actions := [WriterMoves, ReaderMoves(i)];
            && Interleaving(s, actions)
            && (Exposed(After(s, actions), i) <==> Missed(s))
  {
    hide Reach, Tail, ReaderOk, TagAt;
    WriterSafe(s);
    var s1 := WriterStep(s);
    var s2 := ReaderStep(s1, i);
    var last := [ReaderMoves(i)];
    assert last[1..] == [] && Interleaving(s2, []) && After(s2, []) == s2;
    assert Interleaving(s1, last) && After(s1, last) == s2;
    assert [WriterMoves, ReaderMoves(i)][1..] == last;
  }
}
