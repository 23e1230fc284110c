/** Every operation keeps the invariant, for all readers at once. */
module RingInvariant {
  import opened Machine
  import opened Buffer
  import opened Ring

  /** Messages of the previous lap lie in order, so everything from the first survivor on
      survives. */
  lemma {:induction false} PreviousLapOrdered(q: Queue, i: nat, j: nat)
    requires Shaped(q) && PreviousLap(q)
    requires q.hist.base <= i < j < q.hist.mid
    ensures End(q.hist, i) <= q.hist.off[j]
    decreases j - i
  {
    if i + 1 < j {
      PreviousLapOrdered(q, i + 1, j);
    }
  }

  lemma WrapIntact(q: Queue)
    requires LayoutOk(q) && q.mem.offset + WORD <= |q.mem.data|
    ensures Intact(Wrap(q)) && TagAt(Wrap(q).mem.data, q.mem.offset)
  {
    var h, w, q' := q.hist, q.mem.offset, Wrap(q);
    HeaderStored(q.mem.data, w, -1);
    forall i | h.mid <= i < |h.log|
      ensures MsgAt(q'.mem.data, h.off[i], h.log[i])
    {
      assert End(h, i) <= w;
      MsgFrame(q.mem.data, q'.mem.data, h.off[i], h.log[i]);
    }
  }

  lemma WrapLaps(q: Queue)
    requires LayoutOk(q) && q.mem.offset + WORD <= |q.mem.data|
    ensures CurrentLap(Wrap(q)) && PreviousLap(Wrap(q))
  {
    var h, w, q' := q.hist, q.mem.offset, Wrap(q);
    WrapIntact(q);
    forall i | h.mid <= i < |h.log|
      ensures End(q'.hist, i) == (if i + 1 < |h.log| then h.off[i + 1] else w) <= w
    {
      assert End(q'.hist, i) == End(h, i);
    }
  }

  lemma WrapReader(q: Queue, s: nat)
    requires LayoutOk(q) && q.mem.offset + WORD <= |q.mem.data|
    requires s < NUM_READERS && ReaderOk(q, s)
    ensures ReaderOk(Wrap(q), s)
  {
  }

  lemma WrapKeeps(q: Queue)
    requires Inv(q) && q.mem.offset + WORD <= |q.mem.data|
    ensures Inv(Wrap(q))
  {
    WrapIntact(q);
    WrapLaps(q);
    forall s | 0 <= s < NUM_READERS ensures ReaderOk(Wrap(q), s) {
      WrapReader(q, s);
    }
  }

  /** The messages that stay in the log's intact part lie outside the area that is written. */
  lemma OutsideArea(q: Queue, end: nat, i: nat)
    requires LayoutOk(q)
    requires FirstAtOrAbove(q.hist.off, q.hist.base, q.hist.mid, end) <= i < |q.hist.log|
    ensures End(q.hist, i) <= q.mem.offset || end <= q.hist.off[i]
  {
    hide Intact;
    var base := FirstAtOrAbove(q.hist.off, q.hist.base, q.hist.mid, end);
    if base < i < q.hist.mid {
      PreviousLapOrdered(q, base, i);
    }
  }

  lemma PutIntact(q: Queue, m: Message)
    requires LayoutOk(q) && 0 < |m| && q.mem.offset + Total(m) + WORD < |q.mem.data|
    ensures Shaped(Put(q, m)) && Intact(Put(q, m))
  {
    hide CurrentLap, PreviousLap, FirstAtOrAbove, EncodeInt64, StoreMessage;
    var h, w, q' := q.hist, q.mem.offset, Put(q, m);
    MessageStored(q.mem.data, w, m);
    forall i | q'.hist.base <= i < |h.log|
      ensures MsgAt(q'.mem.data, h.off[i], h.log[i])
    {
      OutsideArea(q, w + Total(m), i);
      MsgFrame(q.mem.data, q'.mem.data, h.off[i], h.log[i]);
    }
  }

  lemma PutCurrentLap(q: Queue, m: Message)
    requires LayoutOk(q) && 0 < |m| && q.mem.offset + Total(m) + WORD < |q.mem.data|
    ensures Shaped(Put(q, m)) && CurrentLap(Put(q, m))
  {
    var h, q' := q.hist, Put(q, m);
    assert forall i :: 0 <= i < |h.log| ==> End(q'.hist, i) == End(h, i);
  }

  lemma PutPreviousLap(q: Queue, m: Message)
    requires LayoutOk(q) && 0 < |m| && q.mem.offset + Total(m) + WORD < |q.mem.data|
    ensures Shaped(Put(q, m)) && PreviousLap(Put(q, m))
  {
    hide Intact, CurrentLap, StoreMessage, DropWithin, EncodeInt64, Total;
    var h, end, q' := q.hist, q.mem.offset + Total(m), Put(q, m);
    if h.tag.Some? && q'.hist.base < h.mid {
      assert h.off[q'.hist.base] < End(h, q'.hist.base) <= h.tag.value;
    }
    if q'.hist.tag.Some? {
      MessageStored(q.mem.data, q.mem.offset, m);
      WordFrame(q.mem.data, q'.mem.data, h.tag.value, -1);
      forall i | q'.hist.base <= i < h.mid
        ensures End(q'.hist, i) == End(h, i) && end <= h.off[i]
      {
        if q'.hist.base < i {
          PreviousLapOrdered(q, q'.hist.base, i);
        }
      }
    }
  }

  lemma PutReader(q: Queue, m: Message, s: nat)
    requires LayoutOk(q) && 0 < |m| && q.mem.offset + Total(m) + WORD < |q.mem.data|
    requires s < NUM_READERS && ReaderOk(q, s)
    ensures Shaped(Put(q, m)) && ReaderOk(Put(q, m), s)
  {
  }

  lemma PutReaders(q: Queue, m: Message)
    requires Inv(q) && 0 < |m| && q.mem.offset + Total(m) + WORD < |q.mem.data|
    ensures Shaped(Put(q, m)) && forall s :: 0 <= s < NUM_READERS ==> ReaderOk(Put(q, m), s)
  {
    forall s | 0 <= s < NUM_READERS ensures Shaped(Put(q, m)) && ReaderOk(Put(q, m), s) {
      PutReader(q, m, s);
    }
  }

  lemma PutMembers(q: Queue, m: Message)
    requires Inv(q) && q.mem.offset + Total(m) <= |q.mem.data|
    ensures MembersOk(Put(q, m).mem)
  {
    forall s | 0 <= s < NUM_READERS
      ensures Put(q, m).mem.readers[s].uid == q.mem.readers[s].uid
    {
    }
  }

  lemma PutKeeps(q: Queue, m: Message)
    requires Inv(q) && 0 < |m| && q.mem.offset + Total(m) + WORD < |q.mem.data|
    ensures Quiet(Put(q, m))
  {
    hide Intact, CurrentLap, PreviousLap, ReaderOk, MembersOk;
    hide PutHist, FirstAtOrAbove, StoreMessage, DropWithin, Total;
    PutIntact(q, m);
    PutCurrentLap(q, m);
    PutPreviousLap(q, m);
    PutReaders(q, m);
    PutMembers(q, m);
  }

  /** Turning back makes room: the message and the next tag fit at offset 0, because three of the
      message fit in the queue. */
  lemma RoomAfterWrap(mem: Shm, m: Message)
    requires WriterOk(mem) && Sendable(mem, m)
    ensures mem.offset + WORD <= |mem.data| && Total(m) + WORD < |mem.data|
    ensures !Wraps(mem, m) ==> mem.offset + Total(m) + WORD < |mem.data|
  {
    var t := Total(m);
    assert 16 <= t && 3 * t <= |mem.data|;
  }

  lemma WrapTurnsBack(q: Queue)
    requires Shaped(q) && q.mem.offset + WORD <= |q.mem.data|
    ensures Wrap(q).mem.offset == 0 && |Wrap(q).mem.data| == |q.mem.data|
  {
  }

  /** A send keeps the invariant for every reader, whether or not it wraps, and leaves the write
      offset away from 0. */
  lemma SendKeeps(q: Queue, m: Message)
    requires Quiet(q) && Sendable(q.mem, m)
    ensures Quiet(Send(q, m))
  {
    hide Intact, CurrentLap, PreviousLap, ReaderOk, MembersOk, Wrap, Put, Total;
    RoomAfterWrap(q.mem, m);
    if Wraps(q.mem, m) {
      WrapTurnsBack(q);
      WrapKeeps(q);
      PutKeeps(Wrap(q), m);
    } else {
      PutKeeps(q, m);
    }
  }

  // ---- operations of a reader --------------------------------------------------------------

  /** The same data, write pointer and log, whatever the slots hold. */
  predicate SameLayout(q: Queue, q': Queue) {
    && Shaped(q) && Shaped(q')
    && q'.mem.data == q.mem.data && q'.mem.offset == q.mem.offset
    && q'.hist == q.hist.(next := q'.hist.next)
  }

  lemma SamePacked(h: Hist, h': Hist, lo: nat, hi: nat, from: nat, upto: nat)
    requires h' == h.(next := h'.next) && hi <= |h.log| == |h.off|
    requires Packed(h, lo, hi, from, upto)
    ensures Packed(h', lo, hi, from, upto)
  {
    forall i | lo <= i < hi
      ensures from <= h'.off[i]
      ensures End(h', i) == (if i + 1 < hi then h'.off[i + 1] else upto)
      ensures End(h', i) <= upto
    {
      assert End(h', i) == End(h, i);
    }
  }

  lemma SameIntact(q: Queue, q': Queue)
    requires SameLayout(q, q') && Intact(q)
    ensures Intact(q')
  {
    hide MsgAt;
  }

  /** The layout concerns the data, the write pointer and the log, not the reader slots. */
  lemma LayoutIgnoresReaders(q: Queue, q': Queue)
    requires LayoutOk(q) && SameLayout(q, q')
    ensures LayoutOk(q')
  {
    hide Intact, Packed, TagAt;
    var h := q.hist;
    SameIntact(q, q');
    SamePacked(h, q'.hist, h.mid, |h.log|, 0, q.mem.offset);
    if h.tag.Some? {
      SamePacked(h, q'.hist, h.base, h.mid, q.mem.offset, h.tag.value);
    }
  }

  /** What is true of a slot stays true while another slot changes or readers are only dropped. */
  lemma OthersOk(q: Queue, q': Queue, s: nat)
    requires Inv(q) && Shaped(q')
    requires q'.mem.offset == q.mem.offset && q'.mem.cycle == q.mem.cycle
    requires q'.mem.data == q.mem.data
    requires q'.hist == q.hist.(next := q'.hist.next)
    requires forall j :: 0 <= j < NUM_READERS && j != s ==>
               && q'.hist.next[j] == q.hist.next[j]
               && q'.mem.readers[j].cycle == q.mem.readers[j].cycle
               && q'.mem.readers[j].offset == q.mem.readers[j].offset
               && (j < q'.mem.numReaders && q'.mem.readers[j].valid ==>
                     j < q.mem.numReaders && q.mem.readers[j].valid)
    ensures forall j :: 0 <= j < NUM_READERS && j != s ==> ReaderOk(q', j)
  {
    hide Intact, CurrentLap, PreviousLap;
    forall j | 0 <= j < NUM_READERS && j != s ensures ReaderOk(q', j) {
      assert ReaderOk(q, j);
    }
  }

  lemma ResetKeeps(q: Queue, s: nat)
    requires Inv(q) && s < NUM_READERS
    ensures Inv(Reset(q, s))
    ensures Positioned(Reset(q, s), s) && !Unread(Reset(q, s), s)
  {
    LayoutIgnoresReaders(q, Reset(q, s));
    OthersOk(q, Reset(q, s), s);
  }

  /** Every intact message ends at an aligned offset inside the buffer, with room for a header. */
  lemma EndInside(q: Queue, k: nat)
    requires LayoutOk(q) && q.hist.base <= k < |q.hist.log|
    ensures End(q.hist, k) % 8 == 0 && End(q.hist, k) + WORD <= |q.mem.data|
  {
    hide MsgAt, EncodeInt64;
    assert q.hist.off[k] % 8 == 0;
    assert End(q.hist, k) <= if k < q.hist.mid then q.hist.tag.value else q.mem.offset;
  }

  lemma ResetStaysQuiet(q: Queue, s: nat)
    requires Quiet(q) && s < NUM_READERS
    ensures Quiet(Reset(q, s))
  {
    ResetKeeps(q, s);
    hide Intact, CurrentLap, PreviousLap, ReaderOk;
    assert Reset(q, s).mem.offset == q.mem.offset;
  }

  lemma EndsLater(q: Queue, k: nat)
    requires Shaped(q) && k < |q.hist.log|
    ensures q.hist.off[k] < End(q.hist, k)
  {
  }

  lemma AdvancePosition(q: Queue, s: nat, k: nat)
    requires LayoutOk(q) && s < NUM_READERS && ReaderOk(q, s) && Positioned(q, s) && Unread(q, s)
    requires q.hist.next[s] <= k < |q.hist.log|
    ensures ReaderOk(Advance(q, s, k), s) && Positioned(Advance(q, s, k), s)
  {
    hide Intact, TagAt, Total;
    EndInside(q, k);
    EndsLater(q, k);
    if q.hist.mid <= k && k + 1 < |q.hist.log| {
      assert End(q.hist, k + 1) <= q.mem.offset;
    }
  }

  /** Moving a reader forward along the log, past message k, keeps the invariant. */
  lemma AdvanceKeeps(q: Queue, s: nat, k: nat)
    requires Inv(q) && s < NUM_READERS && Positioned(q, s) && Unread(q, s)
    requires q.hist.next[s] <= k < |q.hist.log|
    ensures Inv(Advance(q, s, k)) && Positioned(Advance(q, s, k), s)
  {
    var q' := Advance(q, s, k);
    LayoutIgnoresReaders(q, q');
    AdvancePosition(q, s, k);
    OthersOk(q, q', s);
  }

  // ---- membership ----------------------------------------------------------------------------

  lemma EvictAllKeeps(q: Queue)
    requires Inv(q)
    ensures Inv(EvictAll(q))
  {
    LayoutIgnoresReaders(q, EvictAll(q));
    OthersOk(q, EvictAll(q), NUM_READERS);
  }

  lemma NewPublisherKeeps(q: Queue, uid: nat)
    requires Quiet(q)
    ensures Quiet(NewPublisher(q, uid))
  {
    LayoutIgnoresReaders(q, NewPublisher(q, uid));
    OthersOk(q, NewPublisher(q, uid), NUM_READERS);
  }

  lemma RegisteredKeeps(q: Queue, uid: nat)
    requires Inv(q) && uid != 0 && q.mem.numReaders < NUM_READERS
    ensures Inv(Registered(q, uid))
  {
    var s, q1 := q.mem.numReaders, Registered(q, uid);
    LayoutIgnoresReaders(q, q1);
    OthersOk(q, q1, s);
    assert ReaderOk(q, s);
  }

  /** Registering keeps the invariant even when it has to evict everyone; the new slot lies below
      the reader count, is valid, and has nothing unread. */
  lemma SubscribeKeeps(q: Queue, uid: nat)
    requires Inv(q) && uid != 0
    ensures var (q', s) := Subscribe(q, uid);
            && Inv(q') && s < q'.mem.numReaders && q'.mem.readers[s].uid == uid
            && q'.mem.readers[s].valid && !Unread(q', s)
            && (Quiet(q) ==> Quiet(q'))
  {
    hide Intact, CurrentLap, PreviousLap, ReaderOk;
    EvictAllKeeps(q);
    var q1 := if q.mem.numReaders + 1 > NUM_READERS then EvictAll(q) else q;
    RegisteredKeeps(q1, uid);
    ResetKeeps(Registered(q1, uid), q1.mem.numReaders);
  }
}
