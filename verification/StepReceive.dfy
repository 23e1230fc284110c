/** A receive that nobody interrupts, access by access, is the atomic receive. */
module StepReceive {
  import opened Machine
  import opened Buffer
  import R = Ring
  import opened D = Delivery
  import L = ReceiveLoop
  import opened Steps
  import opened StepInvariant
  import opened StepProofs
  import RI = RingInvariant

  /** n accesses of reader i and of nobody else. */
  ghost function Alone(s: System, i: nat, n: nat): (e: System)
    requires Inv(s) && i < |s.procs|
    ensures Inv(e) && i < |e.procs|
    decreases n
  {
    if n == 0 then s
    else ReaderKeeps(s, i); ReaderTouchesItself(s, i); Alone(ReaderStep(s, i), i, n - 1)
  }

  lemma {:induction false} AloneAdds(s: System, i: nat, a: nat, b: nat)
    requires Inv(s) && i < |s.procs|
    ensures Alone(s, i, a + b) == Alone(Alone(s, i, a), i, b)
    decreases a
  {
    hide Inv, ReaderStep;
    if a != 0 {
      ReaderKeeps(s, i);
      ReaderTouchesItself(s, i);
      AloneAdds(ReaderStep(s, i), i, a - 1, b);
    }
  }

  lemma AloneOnce(s: System, i: nat)
    requires Inv(s) && i < |s.procs|
    ensures Safe(s, ReaderMoves(i)) && Alone(s, i, 1) == ReaderStep(s, i)
  {
    hide Inv, ReaderStep, Safe;
    ReaderKeeps(s, i);
    ReaderTouchesItself(s, i);
  }

  /** Reader i is at the top of the retry loop of a receive by handle h on queue q, and the writer is
      idle. */
  ghost predicate Stands(s: System, q: R.Queue, h: R.Handle) {
    && Inv(s) && s.writer == Idle && R.Quiet(q)
    && s.mem == q.mem && s.log == q.hist.log && s.mid == q.hist.mid
    && HandleOk(h) && h.id < |s.procs| && R.Owns(q, h)
    && s.procs[h.id].phase == CheckFlag && s.procs[h.id].conflate == h.conflate
    && (R.Unread(q, h.id) && Live(q, h.id) ==> s.procs[h.id].next == q.hist.next[h.id])
  }

  lemma StandsLive(s: System, q: R.Queue, h: R.Handle)
    requires Stands(s, q, h)
    ensures R.Shaped(q) && Shaped(s) && h.id < q.mem.numReaders <= R.NUM_READERS
  {
  }

  // ---- the turns ---------------------------------------------------------------------------------

  /** The flag is true and the offsets differ. */
  lemma SoloLooks(s: System, q: R.Queue, h: R.Handle)
    requires Stands(s, q, h) && R.Shaped(q) && Live(q, h.id) && R.Unread(q, h.id)
    ensures Alone(s, h.id, 2) ==
            WithProc(s, h.id, s.procs[h.id].(phase := LoadHeader(q.mem.offset)))
  {
    hide Alone, Inv, R.Quiet;
    var i := h.id;
    StandsLive(s, q, h);
    AloneOnce(s, i);
    AloneAdds(s, i, 1, 1);
    AloneOnce(ReaderStep(s, i), i);
    assert Alone(s, i, 2).procs == s.procs[i := s.procs[i].(phase := LoadHeader(q.mem.offset))];
  }

  /** The header is loaded and the flag is still true. */
  lemma SoloHeader(s: System, i: nat, w: nat)
    requires Inv(s) && Shaped(s) && i < |s.procs| && s.procs[i].phase == LoadHeader(w)
    requires s.mem.readers[i].valid && s.mem.readers[i].offset + WORD <= |s.mem.data|
    ensures Alone(s, i, 2) ==
            WithProc(s, i, s.procs[i].(phase :=
              Act(w, Header(s.mem.data, s.mem.readers[i].offset))))
  {
    hide Alone, Inv, Header;
    AloneOnce(s, i);
    AloneAdds(s, i, 1, 1);
    AloneOnce(ReaderStep(s, i), i);
    assert Alone(s, i, 2).procs ==
      s.procs[i := s.procs[i].(phase := Act(w, Header(s.mem.data, s.mem.readers[i].offset)))];
  }

  /** The tests of a turn up to the decision: flag, pointers, header, flag. */
  lemma SoloTests(s: System, q: R.Queue, h: R.Handle)
    requires Stands(s, q, h) && R.Shaped(q) && Live(q, h.id) && R.Unread(q, h.id)
    ensures q.mem.readers[h.id].offset + WORD <= |q.mem.data|
    ensures Alone(s, h.id, 4) ==
            WithProc(s, h.id, s.procs[h.id].(phase :=
              Act(q.mem.offset, Header(q.mem.data, q.mem.readers[h.id].offset))))
  {
    hide Alone, Inv, Header, R.Quiet, ReaderStep;
    var i := h.id;
    StandsLive(s, q, h);
    QuietTrusted(q, i);
    SoloLooks(s, q, h);
    AloneAdds(s, i, 2, 2);
    InvShaped(Alone(s, i, 2));
    SoloHeader(Alone(s, i, 2), i, q.mem.offset);
    assert Alone(s, i, 4).procs ==
      s.procs[i := s.procs[i].(phase := Act(q.mem.offset,
                                            Header(q.mem.data, q.mem.readers[i].offset)))];
  }

  lemma QuietTrusted(q: R.Queue, i: nat)
    requires R.Quiet(q) && Live(q, i) && R.Unread(q, i)
    ensures q.mem.readers[i].offset + WORD <= |q.mem.data|
  {
    hide R.Quiet, Header;
    L.HeaderIsTrusted(q, i);
  }

  /** The store of a turn that does not copy: the read pointer moves and the receive goes on. */
  lemma SoloStore(s: System, q: R.Queue, h: R.Handle, q': R.Queue)
    requires Stands(s, q, h) && R.Shaped(q) && Live(q, h.id) && R.Unread(q, h.id)
    requires R.Quiet(q') && R.Owns(q', h) && q'.hist == q.hist.(next := q'.hist.next)
    requires var r, i := q.mem.readers[h.id].offset, h.id;
             && r + WORD <= |q.mem.data|
             && (if Header(q.mem.data, r) == -1
                 then q' == L.Moved(q, i, q.mem.readers[i].cycle + 1, 0, q.hist.next[i])
                      && q.hist.next[i] == q.hist.mid
                 else 0 < Header(q.mem.data, r) && h.conflate
                      && Align(r + WORD + Header(q.mem.data, r)) != q.mem.offset
                      && q' == L.Moved(q, i, q.mem.readers[i].cycle,
                                       Align(r + WORD + Header(q.mem.data, r)),
                                       q.hist.next[i] + 1))
    ensures Stands(Alone(s, h.id, 5), q', h)
    ensures Alone(s, h.id, 5).procs[h.id].calls == s.procs[h.id].calls
    ensures Alone(s, h.id, 5).procs[h.id].got == s.procs[h.id].got
  {
    hide Alone, Inv, Header, R.Quiet, Align;
    var i := h.id;
    StandsLive(s, q, h);
    SoloTests(s, q, h);
    AloneAdds(s, i, 4, 1);
    AloneOnce(Alone(s, i, 4), i);
    var e := Alone(s, i, 5);
    assert e.mem.readers == q'.mem.readers;
    assert e.mem == q'.mem;
  }

  /** The payload, byte after byte. */
  lemma {:induction false} SoloCopy(s: System, i: nat, m: Message, j: nat)
    requires Inv(s) && i < |s.procs| && j <= |m| && s.procs[i].phase == Copy(|m|, m[..j])
    requires i < |s.mem.readers| && PayloadAt(s.mem.data, s.mem.readers[i].offset, m)
    ensures Alone(s, i, |m| - j + 1) ==
            WithProc(s, i, s.procs[i].(phase := StorePointer(|m|, m)))
    decreases |m| - j
  {
    hide Alone, Inv;
    InvShaped(s);
    AloneOnce(s, i);
    var e := ReaderStep(s, i);
    if j < |m| {
      assert m[..j] + [m[j]] == m[..j + 1];
      var r := s.mem.readers[i].offset;
      assert s.mem.data[r + WORD..r + WORD + |m|][j] == m[j];
      AloneAdds(s, i, 1, |m| - j);
      SoloCopy(e, i, m, j + 1);
      assert WithProc(e, i, e.procs[i].(phase := StorePointer(|m|, m))).procs ==
             s.procs[i := s.procs[i].(phase := StorePointer(|m|, m))];
    } else {
      assert m[..j] == m;
    }
  }

  /** A turn on a message that is handed over: everything up to the store of the read pointer. */
  lemma SoloCopyOut(s: System, q: R.Queue, h: R.Handle, m: Message)
    requires Stands(s, q, h) && R.Shaped(q) && Live(q, h.id) && R.Unread(q, h.id)
    requires var r := q.mem.readers[h.id].offset;
             && MsgAt(q.mem.data, r, m) && Header(q.mem.data, r) == |m| && 0 < |m|
             && !(h.conflate && Align(r + WORD + |m|) != q.mem.offset)
    ensures Alone(s, h.id, 5 + (|m| + 1)) ==
            WithProc(s, h.id, s.procs[h.id].(phase := StorePointer(|m|, m)))
  {
    hide Alone, Inv, Header, R.Quiet, Align, WordAt, ReaderStep;
    var i := h.id;
    SoloDecides(s, q, h, m);
    var s5 := Alone(s, i, 5);
    InvShaped(s5);
    assert m[..0] == [];
    SoloCopy(s5, i, m, 0);
    AloneAdds(s, i, 5, |m| + 1);
    assert WithProc(s5, i, s5.procs[i].(phase := StorePointer(|m|, m))).procs ==
           s.procs[i := s.procs[i].(phase := StorePointer(|m|, m))];
  }

  /** The message is to be handed over: the copy starts. */
  lemma SoloDecides(s: System, q: R.Queue, h: R.Handle, m: Message)
    requires Stands(s, q, h) && R.Shaped(q) && Live(q, h.id) && R.Unread(q, h.id)
    requires var r := q.mem.readers[h.id].offset;
             && r + WORD <= |q.mem.data| && Header(q.mem.data, r) == |m| && 0 < |m|
             && !(h.conflate && Align(r + WORD + |m|) != q.mem.offset)
    ensures Alone(s, h.id, 5) == WithProc(s, h.id, s.procs[h.id].(phase := Copy(|m|, [])))
  {
    hide Alone, Inv, Header, R.Quiet, Align;
    var i := h.id;
    StandsLive(s, q, h);
    SoloTests(s, q, h);
    AloneAdds(s, i, 4, 1);
    AloneOnce(Alone(s, i, 4), i);
    assert Alone(s, i, 5).procs == s.procs[i := s.procs[i].(phase := Copy(|m|, []))];
  }

  /** The last two accesses: the store of the read pointer and the final look at the flag. */
  lemma SoloReturn(s: System, i: nat, m: Message)
    requires Inv(s) && Shaped(s) && i < |s.procs| && s.procs[i].phase == StorePointer(|m|, m)
    requires s.mem.readers[i].valid
    ensures var rd := s.mem.readers[i];
            Alone(s, i, 2).mem == s.mem.(readers := s.mem.readers[i := rd.(offset :=
              Align(rd.offset + WORD + |m|))])
    ensures Returning(s, i, 2)
    ensures Alone(s, i, 2).procs[i].got == s.procs[i].got + [Delivered(s.procs[i].next, m)]
  {
    hide Alone, Inv, Align;
    AloneOnce(s, i);
    var s1 := ReaderStep(s, i);
    AloneAdds(s, i, 1, 1);
    AloneOnce(s1, i);
  }

  /** The n-th access is the one with which the call returns. */
  ghost predicate Returning(s: System, i: nat, n: nat)
    requires Inv(s) && i < |s.procs|
  {
    && 0 < n
    && Alone(s, i, n - 1).procs[i].calls == s.procs[i].calls
    && Alone(s, i, n).procs[i].calls == s.procs[i].calls + 1
  }

  /** A call that goes on for a accesses without returning and then returns with its n-th. */
  lemma ReturningLater(s: System, i: nat, a: nat, n: nat)
    requires Inv(s) && i < |s.procs|
    requires Alone(s, i, a).procs[i].calls == s.procs[i].calls && Returning(Alone(s, i, a), i, n)
    ensures Returning(s, i, a + n) && Alone(s, i, a + n) == Alone(Alone(s, i, a), i, n)
  {
    hide Alone, Inv;
    AloneAdds(s, i, a, n);
    AloneAdds(s, i, a, n - 1);
  }

  lemma SoloEmpty(s: System, q: R.Queue, h: R.Handle)
    requires Stands(s, q, h) && R.Shaped(q) && Live(q, h.id) && !R.Unread(q, h.id)
    ensures Alone(s, h.id, 2).mem == q.mem && Returning(s, h.id, 2)
    ensures Alone(s, h.id, 2).procs[h.id].got == s.procs[h.id].got
  {
    hide Alone, Inv, R.Quiet;
    var i := h.id;
    StandsLive(s, q, h);
    AloneOnce(s, i);
    AloneAdds(s, i, 1, 1);
    AloneOnce(ReaderStep(s, i), i);
  }

  lemma SoloReset(s: System, q: R.Queue, h: R.Handle)
    requires Stands(s, q, h) && R.Shaped(q) && !Live(q, h.id)
    ensures Stands(Alone(s, h.id, 4), R.Reset(q, h.id), h)
    ensures Alone(s, h.id, 4).procs[h.id].calls == s.procs[h.id].calls
    ensures Alone(s, h.id, 4).procs[h.id].got == s.procs[h.id].got
  {
    hide Alone, Inv, R.Quiet;
    var i := h.id;
    StandsLive(s, q, h);
    AloneOnce(s, i);
    var s1 := ReaderStep(s, i);
    AloneAdds(s, i, 1, 3);
    AloneOnce(s1, i);
    var s2 := ReaderStep(s1, i);
    AloneAdds(s1, i, 1, 2);
    AloneOnce(s2, i);
    var s3 := ReaderStep(s2, i);
    AloneAdds(s2, i, 1, 1);
    AloneOnce(s3, i);
    RI.ResetStaysQuiet(q, i);
    assert ReaderStep(s3, i).mem.readers == R.Reset(q, i).mem.readers;
  }

  // ---- the call ----------------------------------------------------------------------------------

  /** What a call that returns with its n-th access has done. */
  ghost predicate Did(s: System, q: R.Queue, i: nat, n: nat, r: R.Received)
    requires Inv(s) && i < |s.procs|
  {
    var e := Alone(s, i, n);
    && Returning(s, i, n)
    && e.mem == r.q.mem
    && match r.index
       case None => e.procs[i].got == s.procs[i].got
       case Some(k) =>
         k < |q.hist.log| && e.procs[i].got == s.procs[i].got + [Delivered(k, q.hist.log[k])]
  }

  /** One receive that nobody interrupts, from any state of its slot: after some number of accesses
      it returns, with the message the atomic receive returns or with nothing if that returns
      nothing, and the segment is as the atomic receive leaves it. */
  lemma {:induction false} SoloReceiveIsAtomicReceive(s: System, q: R.Queue, h: R.Handle, uid: nat)
    returns (n: nat)
    requires Stands(s, q, h) && R.Shaped(q) && uid != 0
    ensures Did(s, q, h.id, n, R.Receive(q, h, uid))
    decreases if Live(q, h.id) then 0 else 1, L.TurnsLeft(q, h.id), 1
  {
    hide Alone, Inv, R.Quiet, Returning, R.Receive, L.TurnsLeft;
    var i := h.id;
    StandsLive(s, q, h);
    if !Live(q, i) {
      SoloReset(s, q, h);
      L.RefreshSameReceive(q, h, uid);
      var n1 := SoloReceiveIsAtomicReceive(Alone(s, i, 4), R.Reset(q, i), h, uid);
      ReturningLater(s, i, 4, n1);
      n := 4 + n1;
    } else if !R.Unread(q, i) {
      SoloEmpty(s, q, h);
      L.NothingUnread(q, h, uid);
      n := 2;
    } else {
      n := SoloUnread(s, q, h, uid);
    }
  }

  lemma {:induction false} SoloUnread(s: System, q: R.Queue, h: R.Handle, uid: nat)
    returns (n: nat)
    requires Stands(s, q, h) && R.Shaped(q) && uid != 0 && Live(q, h.id) && R.Unread(q, h.id)
    ensures Did(s, q, h.id, n, R.Receive(q, h, uid))
    decreases 0, L.TurnsLeft(q, h.id), 0
  {
    hide Alone, Inv, R.Quiet, Returning, R.Receive, Header, Align, L.OnTag, L.TurnsLeft, WordAt;
    var i, k := h.id, q.hist.next[h.id];
    StandsLive(s, q, h);
    L.HeaderIsTrusted(q, i);
    if L.OnTag(q, i) {
      L.TagTurn(q, h, uid);
      var q' := L.Moved(q, i, q.mem.readers[i].cycle + 1, 0, k);
      OnTagAtMid(q, i);
      SoloStore(s, q, h, q');
      var n1 := SoloReceiveIsAtomicReceive(Alone(s, i, 5), q', h, uid);
      ReturningLater(s, i, 5, n1);
      n := 5 + n1;
    } else {
      L.MessageTurn(q, h, uid);
      var q' := L.Moved(q, i, q.mem.readers[i].cycle, R.End(q.hist, k), k + 1);
      var m := q.hist.log[k];
      if h.conflate && R.End(q.hist, k) != q.mem.offset {
        SoloStore(s, q, h, q');
        var n1 := SoloReceiveIsAtomicReceive(Alone(s, i, 5), q', h, uid);
        ReturningLater(s, i, 5, n1);
        n := 5 + n1;
      } else {
        SoloCopyOut(s, q, h, m);
        SoloReturn(Alone(s, i, 5 + (|m| + 1)), i, m);
        ReturningLater(s, i, 5 + (|m| + 1), 2);
        n := 5 + (|m| + 1) + 2;
      }
    }
  }

  lemma OnTagAtMid(q: R.Queue, i: nat)
    requires R.Shaped(q) && i < R.NUM_READERS && L.OnTag(q, i)
    ensures q.hist.next[i] == q.hist.mid
  {
  }
}
