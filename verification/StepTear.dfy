/** The one gap in the protocol: a writer that completes a lap between the two halves of a reset can
    make a receive return bytes that were never sent as a message. */
module StepTear {
  import opened Machine
  import opened Buffer
  import opened Delivery
  import R = Ring
  import opened Steps
  import opened StepInvariant
  import opened StepProofs
  import opened StepLink

  // ---- building an interleaving ------------------------------------------------------------------

  /** The actions are enabled and safe one after the other, and lead from s to e. */
  predicate Goes(s: System, actions: seq<Action>, e: System)
    decreases |actions|
  {
    if actions == [] then e == s
    else
      && Enabled(s, actions[0]) && Safe(s, actions[0])
      && Goes(Do(s, actions[0]), actions[1..], e)
  }

  lemma {:induction false} GoesAfter(s: System, actions: seq<Action>, e: System)
    requires Goes(s, actions, e)
    ensures Interleaving(s, actions) && After(s, actions) == e
    decreases |actions|
  {
    if actions != [] {
      hide Enabled, Safe, Do;
      GoesAfter(Do(s, actions[0]), actions[1..], e);
    }
  }

  lemma {:induction false} GoesOn(s: System, a: seq<Action>, e: System, b: seq<Action>, f: System)
    requires Goes(s, a, e) && Goes(e, b, f)
    ensures Goes(s, a + b, f)
    decreases |a|
  {
    hide Enabled, Safe, Do;
    if a == [] {
      assert a + b == b;
    } else {
      assert (a + b)[0] == a[0] && (a + b)[1..] == a[1..] + b;
      GoesOn(Do(s, a[0]), a[1..], e, b, f);
    }
  }

  lemma OneMove(s: System, a: Action)
    requires Enabled(s, a) && Safe(s, a)
    ensures Goes(s, [a], Do(s, a))
  {
    hide Enabled, Safe, Do;
    assert [a][1..] == [];
  }

  /** The writer alone can finish what it has begun. */
  lemma {:induction false} FinishGoes(s: System) returns (actions: seq<Action>)
    requires WriterInv(s)
    ensures Goes(s, actions, Finish(s))
    decreases Ahead(s).0, Ahead(s).1
  {
    hide WriterInv, WriterStep, Goes;
    if s.writer.Idle? {
      FinishIdle(s);
      actions := [];
      GoesNowhere(s);
    } else {
      FinishStep(s);
      WriterAdvances(s);
      OneMove(s, WriterMoves);
      var rest := FinishGoes(WriterStep(s));
      GoesOn(s, [WriterMoves], WriterStep(s), rest, Finish(s));
      actions := [WriterMoves] + rest;
    }
  }

  lemma GoesNowhere(s: System)
    ensures Goes(s, [], s)
  {
  }

  /** What an uninterrupted send leaves behind. */
  function Sent(s: System, m: Message): System
    requires s.mem.offset + WORD <= |s.mem.data|
    requires (if R.Wraps(s.mem, m) then 0 else s.mem.offset) + Total(m) <= |s.mem.data|
  {
    if R.Wraps(s.mem, m)
    then s.(mem := R.PutMem(R.WrapMem(s.mem), m), log := s.log + [m], mid := |s.log|)
    else s.(mem := R.PutMem(s.mem, m), log := s.log + [m])
  }

  /** Prolongs an interleaving by a send. */
  lemma ThenSend(s0: System, before: seq<Action>, s: System, m: Message)
    returns (actions: seq<Action>, e: System)
    requires Goes(s0, before, s) && WriterInv(s) && Enabled(s, BeginSend(m))
    requires s.mem.offset + WORD <= |s.mem.data|
    requires (if R.Wraps(s.mem, m) then 0 else s.mem.offset) + Total(m) <= |s.mem.data|
    ensures Goes(s0, actions, e) && e == Sent(s, m) && WriterInv(e)
  {
    hide WriterInv, Goes, Total, Finish, R.PutMem, R.WrapMem;
    MemoryShaped(s);
    SoloSendIsAtomicSend(s, m);
    FinishKeeps(Begin(s, m));
    var sending := FinishGoes(Begin(s, m));
    OneMove(s, BeginSend(m));
    e := Finish(Begin(s, m));
    GoesOn(s, [BeginSend(m)], Begin(s, m), sending, e);
    actions := before + ([BeginSend(m)] + sending);
    GoesOn(s0, before, s, [BeginSend(m)] + sending, e);
  }

  lemma {:induction false} FinishKeeps(s: System)
    requires WriterInv(s)
    ensures WriterInv(Finish(s))
    decreases Ahead(s).0, Ahead(s).1
  {
    hide WriterInv, WriterStep;
    if s.writer.Idle? {
      FinishIdle(s);
    } else {
      FinishStep(s);
      WriterAdvances(s);
      FinishKeeps(WriterStep(s));
    }
  }

  /** Prolongs an interleaving by one access of the reader. */
  lemma ThenMove(s0: System, before: seq<Action>, s: System)
    returns (actions: seq<Action>, e: System)
    requires Goes(s0, before, s) && WriterInv(s) && Safe(s, ReaderMoves(0))
    ensures Goes(s0, actions, e) && e == ReaderStep(s, 0) && WriterInv(e)
  {
    hide Goes, ReaderStep, Reach, WordAt, MsgAt;
    ReaderTouchesItself(s, 0);
    e := ReaderStep(s, 0);
    OneMove(s, ReaderMoves(0));
    actions := before + [ReaderMoves(0)];
    GoesOn(s0, before, s, [ReaderMoves(0)], e);
  }

  // ---- the scene -----------------------------------------------------------------------------------

  const SIZE: nat := 72
  const SHORT: Message := [0]
  const LONG: Message := seq(9, _ => 0)
  const SEVENS: Message := seq(9, _ => 7)
  const ONES: Message := seq(9, _ => 1)

  /** An unused segment and one subscriber whose slot has not been reset yet. */
  function Opening(): System {
    System(R.Shm(seq(SIZE, _ => 0), 0, 0, 0, 1,
                 seq(R.NUM_READERS, s => R.Reader(0, 0, false, if s == 0 then 1 else 0))),
           [], 0, [Proc(CheckFlag, false, 0, [], 0)], Idle)
  }

  lemma OpeningOk()
    ensures Inv(Opening())
  {
  }

  /** What matters of a state between sends: the write pointer, the subscriber's slot and the
      subscriber. */
  ghost predicate Shows(s: System, cycle: nat, offset: nat, rd: R.Reader, p: Proc) {
    && WriterInv(s) && s.writer == Idle && |s.mem.data| == SIZE
    && s.mem.cycle == cycle && s.mem.offset == offset
    && s.mem.numReaders == 1 && |s.procs| == 1 && |s.mem.readers| == R.NUM_READERS
    && s.mem.readers[0] == rd && s.procs[0] == p
  }

  /** A message of 1 byte takes 16, one of 9 bytes takes 24. */
  lemma SceneSend(s0: System, before: seq<Action>, s: System, m: Message, c: nat, w: nat,
                  rd: R.Reader, p: Proc)
    returns (actions: seq<Action>, e: System)
    requires Goes(s0, before, s) && Shows(s, c, w, rd, p) && (|m| == 1 || |m| == 9)
    requires w <= 48
    ensures Goes(s0, actions, e)
    ensures var t := if |m| == 1 then 16 else 24;
            if SIZE - w - t - 8 > 0
            then Shows(e, c, w + t, rd.(valid := rd.valid && !(w <= rd.offset < w + t && rd.cycle != c)), p)
            else Shows(e, c + 1, t, rd.(valid := rd.valid && !(rd.offset > w && rd.cycle != c)
                                                && !(rd.offset < t && rd.cycle != c + 1)), p)
    ensures e.log == s.log + [m]
    ensures var d, t := s.mem.data, if |m| == 1 then 16 else 24;
            e.mem.data == if SIZE - w - t - 8 > 0 then StoreMessage(d, w, m)
                          else StoreMessage(StoreHeader(d, w, -1), 0, m)
  {
    hide Goes, Reach, WordAt, MsgAt, StoreHeader, StoreMessage, WriterOk;
    actions, e := ThenSend(s0, before, s, m);
  }

  /** The first half of a reset: the flag is set and the write pointer is loaded. */
  lemma HalfReset(s0: System, before: seq<Action>, s: System, c: nat, w: nat, rd: R.Reader, p: Proc)
    returns (actions: seq<Action>, e: System)
    requires Goes(s0, before, s) && Shows(s, c, w, rd, p) && !rd.valid && p.phase == CheckFlag
    ensures Goes(s0, actions, e) && e.log == s.log && e.mem.data == s.mem.data
    ensures Shows(e, c, w, rd.(valid := true), p.(phase := ResetStore(c, w, |s.log|)))
  {
    hide Goes, WriterInv;
    MemoryShaped(s);
    var s1, s2;
    actions, s1 := ThenMove(s0, before, s);
    actions, s2 := ThenMove(s0, actions, s1);
    actions, e := ThenMove(s0, actions, s2);
  }

  /** The second half. */
  lemma StoreReset(s0: System, before: seq<Action>, s: System, c: nat, w: nat, rd: R.Reader, p: Proc)
    returns (actions: seq<Action>, e: System)
    requires Goes(s0, before, s) && Shows(s, c, w, rd, p) && p.phase.ResetStore?
    ensures Goes(s0, actions, e) && e.log == s.log && e.mem.data == s.mem.data
    ensures Shows(e, c, w, rd.(cycle := p.phase.cycle, offset := p.phase.w),
                  p.(phase := CheckFlag, next := p.phase.k))
  {
    hide Goes, WriterInv;
    MemoryShaped(s);
    actions, e := ThenMove(s0, before, s);
  }

  /** The subscriber resets its slot at the end of the first lap; it is then invalidated at offset 40,
      and the next lap ends beyond that. */
  lemma Prepare() returns (actions: seq<Action>, s: System)
    ensures Goes(Opening(), actions, s)
    ensures Shows(s, 2, 16, R.Reader(0, 40, false, 1), Proc(CheckFlag, false, 2, [], 0))
    ensures s.log == [SHORT, LONG, LONG, LONG, SHORT]
  {
    hide Goes, WriterInv, StoreMessage, StoreHeader;
    var s0, rd, p := Opening(), R.Reader(0, 0, false, 1), Proc(CheckFlag, false, 0, [], 0);
    OpeningOk();
    GoesNowhere(s0);
    assert Shows(s0, 0, 0, rd, p);
    var s1, s2, s3, s4, s5, s6;
    actions, s1 := SceneSend(s0, [], s0, SHORT, 0, 0, rd, p);
    actions, s2 := SceneSend(s0, actions, s1, LONG, 0, 16, rd, p);
    actions, s3 := HalfReset(s0, actions, s2, 0, 40, rd, p);
    actions, s4 := StoreReset(s0, actions, s3, 0, 40, rd.(valid := true),
                              p.(phase := ResetStore(0, 40, 2)));
    rd, p := R.Reader(0, 40, true, 1), Proc(CheckFlag, false, 2, [], 0);
    actions, s5 := SceneSend(s0, actions, s4, LONG, 0, 40, rd, p);
    actions, s6 := SceneSend(s0, actions, s5, LONG, 1, 24, rd, p);
    actions, s := SceneSend(s0, actions, s6, SHORT, 1, 48, rd.(valid := false), p);
  }

  // ---- the tear ------------------------------------------------------------------------------------

  lemma SmallWord(v: nat)
    requires v < 256
    ensures EncodeInt64(v) == [v, 0, 0, 0, 0, 0, 0, 0]
  {
    forall k | 1 <= k < 8 ensures Digit(v, k) == 0 {
      ZeroDigit(k - 1);
    }
  }

  lemma {:induction false} ZeroDigit(k: nat)
    ensures Digit(0, k) == 0
  {
    if k != 0 {
      ZeroDigit(k - 1);
    }
  }

  /** The message of ones, stored from offset 0, ends one byte into the header of the message of sevens
      at offset 16: that header now reads 1. */
  lemma Overlap(d: seq<byte>)
    requires |d| == SIZE
    ensures var e := StoreMessage(StoreHeader(StoreMessage(d, 16, SEVENS), 40, -1), 0, ONES);
            Header(e, 16) == 1 && e[24] == 7
  {
    hide EncodeInt64;
    var d1 := StoreMessage(d, 16, SEVENS);
    var d2 := StoreHeader(d1, 40, -1);
    var e := StoreMessage(d2, 0, ONES);
    MessageStored(d, 16, SEVENS);
    SmallWord(9);
    SmallWord(1);
    assert d1[16..24] == EncodeInt64(9);
    assert e[16..24] == [1] + d1[17..24];
    assert d1[17..24] == d1[16..24][1..];
    assert e[16..24] == EncodeInt64(1);
    WordReadsBack(e, 16, 1);
    assert d1[24..33][0] == SEVENS[0];
  }

  /** A receive that goes on from the stale offset 16: its header reads 1 and the flag stays set. */
  lemma Misread(s0: System, before: seq<Action>, s: System, rd: R.Reader, p: Proc)
    returns (actions: seq<Action>, e: System)
    requires Goes(s0, before, s) && Shows(s, 3, 24, rd, p)
    requires rd.valid && rd.offset == 16 && p.phase == CheckFlag && !p.conflate
    requires Header(s.mem.data, 16) == 1 && s.mem.data[24] == 7
    ensures Goes(s0, actions, e) && e.log == s.log && |e.procs| == 1
    ensures e.procs[0].got == p.got + [Delivered(p.next, [7])]
  {
    hide Goes, WriterInv, Header;
    MemoryShaped(s);
    var s1, s2, s3, s4, s5, s6, s7, s8;
    actions, s1 := ThenMove(s0, before, s);
    actions, s2 := ThenMove(s0, actions, s1);
    actions, s3 := ThenMove(s0, actions, s2);
    actions, s4 := ThenMove(s0, actions, s3);
    actions, s5 := ThenMove(s0, actions, s4);
    assert s5.procs[0].phase == Copy(1, []);
    actions, s6 := ThenMove(s0, actions, s5);
    assert s6.procs[0].phase == Copy(1, [7]);
    actions, s7 := ThenMove(s0, actions, s6);
    actions, s8 := ThenMove(s0, actions, s7);
    actions, e := ThenMove(s0, actions, s8);
  }

  /** Between the two halves of its reset the writer sends two messages and completes a lap. The slot
      still holds offset 40, where the tag is stored, so neither loop touches its flag, and the second
      message covers offset 16, which the reset then stores. The receive delivers a byte of the one
      message under a header made of both: bytes that were never sent, with the flag set all along.
      By NoTornReads this needs a reset that the second loop missed. */
  lemma TornRead() returns (actions: seq<Action>)
    ensures Inv(Opening()) && Interleaving(Opening(), actions)
    ensures var e := After(Opening(), actions);
            && |e.procs| == 1 && |e.procs[0].got| == 1
            && (forall k :: 0 <= k < |e.log| ==> e.procs[0].got[0].bytes != e.log[k])
            && !Subsequence(e.procs[0].got, e.log, |e.log|)
    ensures !ResetsSeen(Opening(), actions)
  {
    hide Goes, WriterInv, Inv, Interleaving, After, ResetsSeen, Header, StoreMessage, StoreHeader;
    OpeningOk();
    var s0, p := Opening(), Proc(CheckFlag, false, 2, [], 0);
    var s, s1, s2, s3, s4, e;
    actions, s := Prepare();
    actions, s1 := HalfReset(s0, actions, s, 2, 16, R.Reader(0, 40, false, 1), p);
    var rd, half := R.Reader(0, 40, true, 1), p.(phase := ResetStore(2, 16, 5));
    actions, s2 := SceneSend(s0, actions, s1, SEVENS, 2, 16, rd, half);
    actions, s3 := SceneSend(s0, actions, s2, ONES, 2, 40, rd, half);
    Overlap(s1.mem.data);
    actions, s4 := StoreReset(s0, actions, s3, 3, 24, rd, half);
    actions, e := Misread(s0, actions, s4, R.Reader(2, 16, true, 1), p.(next := 5));
    GoesAfter(s0, actions, e);
    assert e.procs[0].got[0] == Delivered(5, [7]);
    assert e.log == [SHORT, LONG, LONG, LONG, SHORT, SEVENS, ONES];
    if ResetsSeen(s0, actions) {
      NoTornReads(s0, actions, 0);
      assert false;
    }
  }
}
