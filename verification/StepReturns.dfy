/** What a receive has seen by the time it returns: it has found its flag true, and if it found the
    flag false before, it has given up everything sent until then. */
module StepReturns {
  import opened Machine
  import opened Buffer
  import R = Ring
  import opened Steps
  import opened StepInvariant
  import opened StepProofs
  import opened StepTear

  /** The accesses that load the flag. */
  predicate Looks(f: Phase) {
    f.CheckFlag? || f.CheckHeader? || f.CheckCopy?
  }

  /** What a reader's loads of its flag have found so far: the last one, and how many messages had been
      sent when it was last found false. */
  datatype Findings = Findings(valid: bool, sent: nat)

  function Noted(s: System, a: Action, i: nat, f: Findings): Findings {
    if a == ReaderMoves(i) && i < |s.procs| && i < |s.mem.readers| && Looks(s.procs[i].phase) then
      if s.mem.readers[i].valid then f.(valid := true) else Findings(false, |s.log|)
    else f
  }

  /** The findings of reader i after the actions. */
  function Found(s: System, actions: seq<Action>, i: nat, f: Findings): Findings
    decreases |actions|
  {
    if actions == [] || !Safe(s, actions[0]) then f
    else Found(Do(s, actions[0]), actions[1..], i, Noted(s, actions[0], i, f))
  }

  /** Past its first look a receive has found the flag true, and outside a reset it stands behind
      everything that had been sent when it last found it false. */
  predicate Informed(s: System, i: nat, f: Findings)
    requires i < |s.procs|
  {
    var p := s.procs[i];
    && f.sent <= |s.log|
    && match p.phase
       case CheckFlag => f.sent <= p.next
       case ResetFlag => true
       case ResetLoad => true
       case ResetStore(c, w, k) => f.sent <= k
       case CheckCopy(k, buf) => f.valid && f.sent <= k < p.next
       case _ => f.valid && f.sent <= p.next
  }

  /** What an access may do to the count of finished receives and to the deliveries of reader i. */
  predicate ReturnsInformed(s: System, a: Action, e: System, i: nat, f: Findings)
    requires i < |s.procs| == |e.procs| && i < |s.mem.readers|
  {
    var p, p' := s.procs[i], e.procs[i];
    // a receive returns only when the last look at the flag, this access included, found it true
    && p.calls <= p'.calls <= p.calls + 1
    && (p.calls < p'.calls ==> a == ReaderMoves(i) && Noted(s, a, i, f).valid && f.sent <= p'.next)
    // it delivers only when this very access finds the flag true, and nothing sent before the last
    // time it was found false
    && (if p'.got == p.got then true
        else p.calls < p'.calls && s.mem.readers[i].valid
             && |p'.got| == |p.got| + 1 && p'.got[..|p.got|] == p.got
             && f.sent <= p'.got[|p.got|].index)
  }

  lemma InformedStep(s: System, a: Action, i: nat, f: Findings)
    requires Safe(s, a) && i < |s.procs| && Informed(s, i, f)
    ensures var e := Do(s, a);
            && i < |e.procs| == |s.procs| && i < |s.mem.readers|
            && Informed(e, i, Noted(s, a, i, f))
            && ReturnsInformed(s, a, e, i, f)
  {
    hide Align;
    if a == ReaderMoves(i) {
      InformedReader(s, i, f);
    } else if a.ReaderMoves? {
      ReaderTouchesItself(s, a.i);
      hide ReaderStep;
    }
  }

  lemma InformedReader(s: System, i: nat, f: Findings)
    requires Safe(s, ReaderMoves(i)) && Informed(s, i, f)
    ensures var a, e := ReaderMoves(i), ReaderStep(s, i);
            && |e.procs| == |s.procs| && i < |s.mem.readers|
            && Informed(e, i, Noted(s, a, i, f))
            && ReturnsInformed(s, a, e, i, f)
  {
    hide Align;
  }

  lemma {:induction false} InformedRun(s: System, actions: seq<Action>, i: nat, f: Findings)
    requires i < |s.procs| && Informed(s, i, f)
    ensures i < |After(s, actions).procs|
    ensures Informed(After(s, actions), i, Found(s, actions, i, f))
    decreases |actions|
  {
    hide Safe, Do, Informed, Noted;
    if actions != [] && Safe(s, actions[0]) {
      InformedStep(s, actions[0], i, f);
      InformedRun(Do(s, actions[0]), actions[1..], i, Noted(s, actions[0], i, f));
    }
  }

  /** A receive that was invalidated resets before it returns. In every interleaving, whatever access
      comes next: a receive of reader i returns only if its last look at the flag found it true; it
      delivers only if this access itself finds it true; and in both cases the slot has left behind
      everything that had been sent when the flag was last found false. */
  lemma ReceiveReturns(s: System, actions: seq<Action>, a: Action, i: nat, f: Findings)
    requires i < |s.procs| && s.procs[i].phase == CheckFlag && f.sent == 0
    requires Safe(After(s, actions), a)
    ensures var e, g := After(s, actions), Found(s, actions, i, f);
            && i < |e.procs| == |Do(e, a).procs| && i < |e.mem.readers|
            && ReturnsInformed(e, a, Do(e, a), i, g)
  {
    hide Safe, Do, After, Found, Noted, ReturnsInformed;
    InformedRun(s, actions, i, f);
    InformedStep(After(s, actions), a, i, Found(s, actions, i, f));
  }

  // ---- nothing more can be said of an empty return -------------------------------------------------

  /** Prolongs an interleaving by any access. */
  lemma ThenDo(s0: System, before: seq<Action>, s: System, a: Action)
    returns (actions: seq<Action>, e: System)
    requires Goes(s0, before, s) && Enabled(s, a) && Safe(s, a)
    ensures Goes(s0, actions, e) && e == Do(s, a)
  {
    hide Goes, Do, Safe, Enabled;
    e := Do(s, a);
    OneMove(s, a);
    actions := before + [a];
    GoesOn(s0, before, s, [a], e);
  }

  /** A receive that returns empty does not look at its flag again after comparing the offsets, so it
      may return while the flag is already false: a writer that finds the reader one lap behind clears
      the flag between the two accesses. */
  lemma EmptyReturnMayBeInvalid() returns (actions: seq<Action>)
    ensures Interleaving(Opening(), actions)
    ensures var e := After(Opening(), actions);
            && Safe(e, ReaderMoves(0)) && |e.procs| == 1 && 1 <= |e.mem.readers|
            && !e.mem.readers[0].valid
            && Do(e, ReaderMoves(0)).procs[0].calls == e.procs[0].calls + 1
  {
    hide Goes, Interleaving, After, StoreMessage, StoreHeader, WriterInv;
    var s0, rd, p := Opening(), R.Reader(0, 0, false, 1), Proc(CheckFlag, false, 0, [], 0);
    OpeningOk();
    GoesNowhere(s0);
    assert Shows(s0, 0, 0, rd, p);
    var s1, s2, s3, s4, s5, s6, s7, s8, e;
    actions, s1 := SceneSend(s0, [], s0, LONG, 0, 0, rd, p);
    actions, s2 := HalfReset(s0, actions, s1, 0, 24, rd, p);
    actions, s3 := StoreReset(s0, actions, s2, 0, 24, rd.(valid := true),
                              p.(phase := ResetStore(0, 24, 1)));
    rd, p := R.Reader(0, 24, true, 1), Proc(CheckFlag, false, 1, [], 0);
    actions, s4 := SceneSend(s0, actions, s3, SHORT, 0, 24, rd, p);
    actions, s5 := SceneSend(s0, actions, s4, LONG, 0, 40, rd, p);
    assert Shows(s5, 1, 24, rd, p);
    MemoryShaped(s5);
    actions, s6 := ThenDo(s0, actions, s5, ReaderMoves(0));
    actions, s7 := ThenDo(s0, actions, s6, BeginSend(SHORT));
    actions, s8 := ThenDo(s0, actions, s7, WriterMoves);
    assert s8.writer == DropWithin(SHORT, 0);
    actions, e := ThenDo(s0, actions, s8, WriterMoves);
    GoesAfter(s0, actions, e);
  }
}
