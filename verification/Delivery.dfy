/** What a receive delivers: in terms of the log, of the bytes in the buffer, and of the other
    ways to read the queue (draining, conflating, polling). */
module Delivery {
  import opened Machine
  import opened Buffer
  import opened Ring
  import opened RingInvariant

  /** A slot the writer has not invalidated and whose position is trusted. */
  predicate Live(q: Queue, s: nat)
    requires Shaped(q)
  {
    s < q.mem.numReaders <= NUM_READERS && q.mem.readers[s].valid
  }

  /** The uids of connected handles are never zero, which marks a free slot. */
  predicate HandleOk(h: Handle) {
    0 <= h.id < NUM_READERS && h.readUid != 0
  }

  lemma LivePositioned(q: Queue, s: nat)
    requires Inv(q) && Live(q, s)
    ensures Positioned(q, s) && q.hist.next[s] <= |q.hist.log|
  {
    hide Intact, CurrentLap, PreviousLap, Positioned;
    assert ReaderOk(q, s);
  }

  /** A live slot whose offset differs from the write offset has a message to deliver, and that
      message is intact. */
  lemma UnreadHasNext(q: Queue, s: nat)
    requires Quiet(q) && Live(q, s) && Unread(q, s)
    ensures q.hist.base <= q.hist.next[s] < |q.hist.log|
  {
    LivePositioned(q, s);
  }

  /** After the refresh the handle owns a live slot, whatever state it was in before: evicted,
      invalidated or up to date. */
  lemma RefreshKeeps(q: Queue, h: Handle, uid: nat)
    requires Quiet(q) && HandleOk(h) && uid != 0
    ensures var (q', h') := Refresh(q, h, uid);
            Quiet(q') && HandleOk(h') && Owns(q', h') && Live(q', h'.id)
    ensures Owns(q, h) && Live(q, h.id) ==> Refresh(q, h, uid) == (q, h)
    ensures !(Owns(q, h) && Live(q, h.id)) ==>
              var (q', h') := Refresh(q, h, uid); !Unread(q', h'.id)
  {
    hide Intact, CurrentLap, PreviousLap, ReaderOk, Positioned;
    if !Owns(q, h) {
      SubscribeKeeps(q, uid);
    } else if !q.mem.readers[h.id].valid {
      ResetKeeps(q, h.id);
    }
  }

  // ---- what a receiver has got ------------------------------------------------------------

  /** One message as a receiver got it: its index in the log and the bytes found in the buffer. */
  datatype Delivered = Delivered(index: nat, bytes: seq<byte>)

  /** Ordered by index and, for every entry, the bytes are those of the message sent. */
  predicate Subsequence(got: seq<Delivered>, log: seq<Message>, bound: nat) {
    && (forall i, j :: 0 <= i < j < |got| ==> got[i].index < got[j].index)
    && forall i :: 0 <= i < |got| ==>
         got[i].index < bound && got[i].index < |log| && got[i].bytes == log[got[i].index]
  }

  /** Slot positions only ever move forward along a log that only ever grows, so what was received
      before stays in order and unchanged. */
  lemma StillSubsequence(got: seq<Delivered>, log: seq<Message>, log': seq<Message>, b: nat, b': nat)
    requires Subsequence(got, log, b) && log <= log' && b <= b'
    ensures Subsequence(got, log', b')
  {
    forall i | 0 <= i < |got| ensures got[i].bytes == log'[got[i].index] {
      assert log'[..|log|] == log;
    }
  }

  lemma Extend(got: seq<Delivered>, log: seq<Message>, b: nat, d: Delivered)
    requires Subsequence(got, log, b) && b <= d.index < |log| && d.bytes == log[d.index]
    ensures Subsequence(got + [d], log, d.index + 1)
  {
  }

  // ---- one receive ---------------------------------------------------------------------------

  /** A receive keeps the invariant, and what it hands over is an index not below the slot's
      position; the slot then stands behind that index. */
  lemma ReceiveKeeps(q: Queue, h: Handle, uid: nat)
    requires Quiet(q) && HandleOk(h) && uid != 0
    ensures var r, (q1, h1) := Receive(q, h, uid), Refresh(q, h, uid);
            && Quiet(r.q) && HandleOk(r.h) && r.h == h1 && r.q.hist.log == q.hist.log
            && Owns(r.q, r.h) && Live(r.q, r.h.id)
            && (r.index.Some? <==> Unread(q1, h1.id))
            && (r.index.Some? ==>
                  && q1.hist.next[h1.id] <= r.index.value < |q.hist.log|
                  && r.q.hist.next[h1.id] == r.index.value + 1)
  {
    hide Intact, CurrentLap, PreviousLap, ReaderOk, Positioned;
    RefreshKeeps(q, h, uid);
    var (q1, h1) := Refresh(q, h, uid);
    LivePositioned(q1, h1.id);
    if Unread(q1, h1.id) {
      UnreadHasNext(q1, h1.id);
      AdvanceKeeps(q1, h1.id, Pick(q1, h1));
      AdvanceAwayFromZero(q1, h1.id, Pick(q1, h1));
    }
  }

  lemma AdvanceAwayFromZero(q: Queue, s: nat, k: nat)
    requires Quiet(q) && s < NUM_READERS && k < |q.hist.log|
    ensures Inv(Advance(q, s, k)) ==> Quiet(Advance(q, s, k))
  {
    hide Intact, CurrentLap, PreviousLap, ReaderOk;
    assert Advance(q, s, k).mem.offset == q.mem.offset;
  }

  /** Without conflation a live handle receives exactly the next unread message. */
  lemma ReceiveIsNext(q: Queue, h: Handle, uid: nat)
    requires Quiet(q) && HandleOk(h) && Owns(q, h) && Live(q, h.id) && !h.conflate
    ensures Unread(q, h.id) ==>
              && q.hist.next[h.id] < |q.hist.log|
              && Receive(q, h, uid) == Received(Advance(q, h.id, q.hist.next[h.id]), h,
                                                Some(q.hist.next[h.id]))
    ensures !Unread(q, h.id) ==> Receive(q, h, uid) == Received(q, h, None)
  {
    if Unread(q, h.id) {
      UnreadHasNext(q, h.id);
    }
  }

  // ---- polling ---------------------------------------------------------------------------------

  /** Polling says yes exactly when a receive on the same handle would return a message - also from
      an evicted handle, an invalidated slot or a slot on a tag - and it does not change what that
      receive does. */
  lemma ReadyAgreesWithReceive(q: Queue, h: Handle, uid: nat, uid2: nat)
    requires Quiet(q) && HandleOk(h) && uid != 0
    ensures Ready(q, h, uid).ready <==> Receive(q, h, uid).index.Some?
    ensures Quiet(Ready(q, h, uid).q) && HandleOk(Ready(q, h, uid).h)
    ensures Receive(Ready(q, h, uid).q, Ready(q, h, uid).h, uid2) == Receive(q, h, uid)
  {
    hide Intact, CurrentLap, PreviousLap, ReaderOk, Positioned;
    RefreshKeeps(q, h, uid);
    ReceiveKeeps(q, h, uid);
  }

  // ---- what "empty" means ------------------------------------------------------------------------

  /** A live handle is told "empty" exactly when the two offsets are equal. If the cycles are equal
      too, nothing is unread. If they differ the answer may be wrong, but the next send that does
      not wrap invalidates the slot, so the reader cannot go on unaware. */
  lemma MeaningOfEmpty(q: Queue, h: Handle, uid: nat, m: Message)
    requires Quiet(q) && HandleOk(h) && Owns(q, h) && Live(q, h.id)
    requires Sendable(q.mem, m)
    ensures Receive(q, h, uid).index == None <==> !Unread(q, h.id)
    ensures !Unread(q, h.id) && q.mem.readers[h.id].cycle == q.mem.cycle ==>
              q.hist.next[h.id] == |q.hist.log|
    ensures !Unread(q, h.id) && q.mem.readers[h.id].cycle != q.mem.cycle && !Wraps(q.mem, m) ==>
              !Send(q, m).mem.readers[h.id].valid
  {
    LivePositioned(q, h.id);
    if Unread(q, h.id) {
      UnreadHasNext(q, h.id);
    }
  }

  // ---- draining ------------------------------------------------------------------------------------

  datatype Drained = Drained(q: Queue, indices: seq<nat>)

  /** Receiving one by one until nothing is returned. The measure is the number of unread
      messages; the tag does not enter into it. */
  function Drain(q: Queue, s: nat): Drained
    requires Shaped(q) && s < NUM_READERS
    decreases |q.hist.log| - q.hist.next[s]
  {
    var k := q.hist.next[s];
    if Unread(q, s) && k < |q.hist.log| then
      var rest := Drain(Advance(q, s, k), s);
      Drained(rest.q, [k] + rest.indices)
    else
      Drained(q, [])
  }

  /** The same by receives of handle h: a conflating one returns the newest message only. */
  function DrainBy(q: Queue, h: Handle): Drained
    requires Shaped(q) && 0 <= h.id < NUM_READERS
  {
    if h.conflate && Unread(q, h.id) && q.hist.log != [] then
      Drained(Drain(q, h.id).q, [|q.hist.log| - 1])
    else if h.conflate then
      Drained(q, [])
    else
      Drain(q, h.id)
  }

  function Range(lo: nat, hi: nat): (r: seq<nat>)
    requires lo <= hi
    ensures |r| == hi - lo && forall i :: 0 <= i < |r| ==> r[i] == lo + i
  {
    seq(hi - lo, i => lo + i)
  }

  /** Two moves along the log are one: the tag in between counts once. */
  lemma AdvanceTwice(q: Queue, s: nat, j: nat, k: nat)
    requires Quiet(q) && Live(q, s) && Unread(q, s)
    requires q.hist.next[s] <= j < k < |q.hist.log|
    ensures Advance(Advance(q, s, j), s, k) == Advance(q, s, k)
  {
    LivePositioned(q, s);
    assert q.hist.mid <= j ==> End(q.hist, j) <= q.mem.offset;
    var a, b := Advance(Advance(q, s, j), s, k), Advance(q, s, k);
    assert End(Advance(q, s, j).hist, k) == End(q.hist, k);
    assert a.mem.readers == b.mem.readers;
    assert a.hist.next == b.hist.next;
  }

  /** A slot that has passed message k still has something unread unless k is the newest. */
  lemma UnreadAfterAdvance(q: Queue, s: nat, k: nat)
    requires Quiet(q) && Live(q, s) && Unread(q, s) && q.hist.next[s] <= k < |q.hist.log|
    ensures Unread(Advance(q, s, k), s) <==> k + 1 < |q.hist.log|
  {
    LivePositioned(q, s);
    if q.hist.mid <= k && k + 1 < |q.hist.log| {
      assert End(q.hist, k) < End(q.hist, k + 1) <= q.mem.offset;
    } else if k < q.hist.mid {
      assert q.mem.offset <= q.hist.off[k] < End(q.hist, k);
    }
  }

  /** Draining a live slot returns exactly the log from the slot's position on, in order, and then
      stops with the slot level with the writer. */
  lemma {:induction false} DrainIsSuffix(q: Queue, s: nat)
    requires Quiet(q) && Live(q, s) && Unread(q, s)
    ensures q.hist.next[s] < |q.hist.log|
    ensures Drain(q, s).indices == Range(q.hist.next[s], |q.hist.log|)
    ensures Drain(q, s).q == Advance(q, s, |q.hist.log| - 1)
    ensures !Unread(Drain(q, s).q, s)
    decreases |q.hist.log| - q.hist.next[s]
  {
    hide Intact, CurrentLap, PreviousLap, Positioned;
    var k, n := q.hist.next[s], |q.hist.log|;
    LivePositioned(q, s);
    UnreadHasNext(q, s);
    UnreadAfterAdvance(q, s, k);
    AdvanceKeeps(q, s, k);
    AdvanceAwayFromZero(q, s, k);
    if k + 1 < n {
      DrainIsSuffix(Advance(q, s, k), s);
      AdvanceTwice(q, s, k, n - 1);
      UnreadAfterAdvance(q, s, n - 1);
      assert Range(k, n) == [k] + Range(k + 1, n);
    }
  }

  lemma UnreadOnlyIfBehind(q: Queue, s: nat)
    requires Quiet(q) && Live(q, s)
    ensures Unread(q, s) ==> q.hist.next[s] < |q.hist.log|
  {
    hide Intact, CurrentLap, PreviousLap, ReaderOk, Positioned;
    if Unread(q, s) {
      UnreadHasNext(q, s);
    }
  }

  /** The messages at the given indices of the log. */
  function Messages(log: seq<Message>, indices: seq<nat>): (r: seq<Message>)
    ensures |r| == |indices|
  {
    seq(|indices|, i requires 0 <= i < |indices| =>
      if indices[i] < |log| then log[indices[i]] else [])
  }

  lemma MessagesOfRange(log: seq<Message>, lo: nat)
    requires lo <= |log|
    ensures Messages(log, Range(lo, |log|)) == log[lo..]
  {
  }

  /** A conflating receive returns the newest message, which is the last one draining would have
      returned, and leaves the queue - read pointer and cycle included - as draining would; after
      it nothing is left. */
  lemma ConflateIsLastOfDrain(q: Queue, h: Handle, uid: nat)
    requires Quiet(q) && HandleOk(h) && Owns(q, h) && Live(q, h.id) && Unread(q, h.id)
    requires h.conflate
    ensures var r, d := Receive(q, h, uid), Drain(q, h.id);
            && d.indices != [] && r.index == Some(d.indices[|d.indices| - 1])
            && r.index == Some(|q.hist.log| - 1)
            && r.q == d.q
            && Receive(r.q, r.h, uid).index == None
  {
    hide Intact, CurrentLap, PreviousLap, ReaderOk, Positioned, Drain;
    UnreadHasNext(q, h.id);
    DrainIsSuffix(q, h.id);
    var q1 := Advance(q, h.id, |q.hist.log| - 1);
    assert Receive(q, h, uid) == Received(q1, h, Some(|q.hist.log| - 1));
    assert Owns(q1, h) && Live(q1, h.id);
  }

  /** One receive is one round of draining, conflating or not, whatever the state of the handle. */
  lemma ReceiveIsDrainRound(q: Queue, h: Handle, uid: nat)
    requires Quiet(q) && HandleOk(h) && uid != 0
    ensures var r, (q1, h1) := Receive(q, h, uid), Refresh(q, h, uid);
            && Quiet(r.q) && HandleOk(r.h) && r.h == h1
            && r.q.hist.log == q.hist.log
            && Refresh(r.q, r.h, uid) == (r.q, r.h)
            && match r.index
               case None => DrainBy(q1, h1) == Drained(r.q, [])
               case Some(k) =>
                 && k < |q.hist.log|
                 && DrainBy(q1, h1) == Drained(DrainBy(r.q, h1).q, [k] + DrainBy(r.q, h1).indices)
  {
    hide Intact, CurrentLap, PreviousLap, ReaderOk, Positioned;
    RefreshKeeps(q, h, uid);
    ReceiveKeeps(q, h, uid);
    RefreshKeeps(Receive(q, h, uid).q, Receive(q, h, uid).h, uid);
    var (q1, h1) := Refresh(q, h, uid);
    UnreadOnlyIfBehind(q1, h1.id);
    if h1.conflate && Unread(q1, h1.id) {
      hide Drain;
      DrainIsSuffix(q1, h1.id);
    }
  }

  // ---- the bytes ---------------------------------------------------------------------------------

  /** Reading the buffer by its headers alone, from offset b: a header of -1 leads to offset 0, a
      size leads to the next header, the write offset ends the walk. None when the walk meets
      anything else, or a second tag. */
  function Walk(d: seq<byte>, w: nat, b: nat, tags: nat): Option<seq<Message>>
    decreases tags, |d| - b
  {
    if b == w then Some([])
    else if |d| < b + WORD then None
    else
      var size := Header(d, b);
      if size == -1 && 0 < tags then Walk(d, w, 0, tags - 1)
      else if 0 < size && b + WORD + size <= |d| then
        match Walk(d, w, Align(b + WORD + size), tags)
        case None => None
        case Some(rest) => Some([d[b + WORD..b + WORD + size]] + rest)
      else None
  }

  lemma WalkMessage(q: Queue, k: nat, tags: nat)
    requires LayoutOk(q) && q.hist.base <= k < |q.hist.log| && q.hist.off[k] != q.mem.offset
    requires Walk(q.mem.data, q.mem.offset, End(q.hist, k), tags) == Some(q.hist.log[k + 1..])
    ensures Walk(q.mem.data, q.mem.offset, q.hist.off[k], tags) == Some(q.hist.log[k..])
  {
    hide EncodeInt64, Header, CurrentLap, PreviousLap;
    var d, b, m := q.mem.data, q.hist.off[k], q.hist.log[k];
    assert MsgAt(d, b, m);
    WordReadsBack(d, b, |m|);
    EndFormulasAgree(b, m);
    assert [m] + q.hist.log[k + 1..] == q.hist.log[k..];
  }

  lemma {:induction false} WalkCurrentLap(q: Queue, k: nat, tags: nat)
    requires LayoutOk(q) && q.hist.mid <= k < |q.hist.log|
    ensures Walk(q.mem.data, q.mem.offset, q.hist.off[k], tags) == Some(q.hist.log[k..])
    decreases |q.hist.log| - k
  {
    hide MsgAt;
    assert q.hist.off[k] < End(q.hist, k) <= q.mem.offset;
    if k + 1 < |q.hist.log| {
      WalkCurrentLap(q, k + 1, tags);
    } else {
      assert q.hist.log[k + 1..] == [];
    }
    WalkMessage(q, k, tags);
  }

  lemma WalkTag(q: Queue)
    requires Quiet(q) && q.hist.tag.Some? && q.hist.tag.value != q.mem.offset
    ensures Walk(q.mem.data, q.mem.offset, q.hist.tag.value, 1) == Some(q.hist.log[q.hist.mid..])
  {
    var t := q.hist.tag.value;
    WordReadsBack(q.mem.data, t, -1);
    assert q.hist.mid < |q.hist.log|;
    WalkCurrentLap(q, q.hist.mid, 0);
  }

  lemma {:induction false} WalkPreviousLap(q: Queue, k: nat)
    requires Quiet(q) && q.hist.base <= k < q.hist.mid && q.mem.offset < q.hist.off[k]
    ensures Walk(q.mem.data, q.mem.offset, q.hist.off[k], 1) == Some(q.hist.log[k..])
    decreases |q.hist.log| - k
  {
    hide Walk, MsgAt;
    assert q.hist.off[k] < End(q.hist, k);
    if k + 1 < q.hist.mid {
      WalkPreviousLap(q, k + 1);
    } else {
      WalkTag(q);
    }
    WalkMessage(q, k, 1);
  }

  /** The layout, stated on the bytes: from the offset of any live reader with something to read,
      following the headers through at most one tag reaches the write offset, and the payloads met
      on the way are exactly the messages of the log from the reader's position on. */
  lemma WalkIsUnreadLog(q: Queue, s: nat)
    requires Quiet(q) && Live(q, s) && Unread(q, s)
    ensures q.hist.next[s] < |q.hist.log|
    ensures Walk(q.mem.data, q.mem.offset, q.mem.readers[s].offset, 1) ==
            Some(q.hist.log[q.hist.next[s]..])
  {
    hide Walk, Intact;
    LivePositioned(q, s);
    UnreadHasNext(q, s);
    var r, k := q.mem.readers[s].offset, q.hist.next[s];
    if r < q.mem.offset {
      WalkCurrentLap(q, k, 1);
    } else if q.hist.tag == Some(r) && k == q.hist.mid {
      WalkTag(q);
    } else {
      WalkPreviousLap(q, k);
    }
  }

  /** The intact messages below the write offset are exactly those of the current lap. */
  lemma BelowIsCurrentLap(q: Queue, i: nat)
    requires LayoutOk(q) && q.hist.base <= i < |q.hist.log|
    ensures q.hist.off[i] < q.mem.offset <==> q.hist.mid <= i
  {
    assert q.hist.off[i] < End(q.hist, i);
  }

  /** Every intact message below the write offset is newer than every intact one at or above it,
      so following the tag to offset 0 never goes back in time. */
  lemma AgeOrdering(q: Queue, i: nat, j: nat)
    requires LayoutOk(q)
    requires q.hist.base <= i < |q.hist.log| && q.hist.base <= j < |q.hist.log|
    requires q.hist.off[i] < q.mem.offset <= q.hist.off[j]
    ensures j < i
  {
    BelowIsCurrentLap(q, i);
    BelowIsCurrentLap(q, j);
  }

  // ---- synchronised delivery -----------------------------------------------------------------------

  /** When all readers are updated, no owner of a slot has anything to receive. */
  lemma UpdatedMeansNothingToReceive(q: Queue, h: Handle, uid: nat)
    requires Quiet(q) && AllReadersUpdated(q.mem) && HandleOk(h) && Owns(q, h) && uid != 0
    ensures Receive(q, h, uid).index == None
  {
    hide Intact, CurrentLap, PreviousLap, ReaderOk, Positioned;
    ReceiveKeeps(q, h, uid);
    RefreshKeeps(q, h, uid);
  }

  /** A wrapping send ends strictly below the tag it leaves behind: this is where three messages
      have to fit. */
  lemma ThreeFit(mem: Shm, m: Message)
    requires Sendable(mem, m) && Wraps(mem, m)
    ensures Total(m) < mem.offset
  {
  }

  /** A reader level with the writer, cycle included, survives the next send and then has exactly
      that message to read, wherever the writer had to put it. */
  lemma LevelReaderSurvives(q: Queue, m: Message, s: nat)
    requires Quiet(q) && Sendable(q.mem, m) && Live(q, s)
    requires q.mem.readers[s].offset == q.mem.offset && q.mem.readers[s].cycle == q.mem.cycle
    ensures Live(Send(q, m), s) && Unread(Send(q, m), s)
    ensures Send(q, m).hist.next[s] == |q.hist.log|
    ensures Send(q, m).mem.readers[s] == q.mem.readers[s]
  {
    hide Intact, CurrentLap, PreviousLap;
    LivePositioned(q, s);
    if Wraps(q.mem, m) {
      ThreeFit(q.mem, m);
    }
  }

  /** One send after all readers were updated: every reader that was valid receives exactly that
      message, wrap or no wrap, and then nothing. */
  lemma SynchronisedDelivery(q: Queue, m: Message, h: Handle, uid: nat)
    requires Quiet(q) && AllReadersUpdated(q.mem) && Sendable(q.mem, m)
    requires HandleOk(h) && Owns(q, h) && Live(q, h.id) && uid != 0
    ensures var r := Receive(Send(q, m), h, uid);
            && r.index == Some(|q.hist.log|) && r.q.hist.log[|q.hist.log|] == m
            && Receive(r.q, r.h, uid).index == None
  {
    hide Intact, CurrentLap, PreviousLap, ReaderOk, Positioned;
    var q1 := Send(q, m);
    SendKeeps(q, m);
    LevelReaderSurvives(q, m, h.id);
    assert q1.hist.log == q.hist.log + [m];
    UnreadHasNext(q1, h.id);
    UnreadAfterAdvance(q1, h.id, |q.hist.log|);
    assert Owns(q1, h);
  }
}
