/** The turns of the retry loop of a receive: each one leaves what the receive will do in the end
    unchanged and brings it closer. */
module ReceiveLoop {
  import opened Machine
  import opened Buffer
  import opened Ring
  import opened RingInvariant
  import opened Delivery

  predicate OnTag(q: Queue, s: nat)
    requires Shaped(q) && s < NUM_READERS
  {
    q.hist.tag == Some(q.mem.readers[s].offset) && q.hist.next[s] == q.hist.mid
  }

  /** The slot follows the tag to offset 0, into the next cycle. */
  function CrossTag(q: Queue, s: nat): Queue
    requires Shaped(q) && s < NUM_READERS
  {
    var rd := q.mem.readers[s];
    q.(mem := q.mem.(readers := q.mem.readers[s := rd.(cycle := rd.cycle + 1, offset := 0)]))
  }

  /** A store to the slot's read pointer, with the index the slot then has to deliver next. */
  function Moved(q: Queue, s: nat, cycle: nat, offset: nat, next: nat): Queue
    requires Shaped(q) && s < NUM_READERS
  {
    Queue(q.mem.(readers := q.mem.readers[s := q.mem.readers[s].(cycle := cycle, offset := offset)]),
          q.hist.(next := q.hist.next[s := next]))
  }

  /** Every header a receive reads from a live slot with something unread is -1, on the tag, or the
      size of the message it delivers next: positive and smaller than the queue. */
  lemma HeaderIsTrusted(q: Queue, s: nat)
    requires Quiet(q) && Live(q, s) && Unread(q, s)
    ensures var r, k, d := q.mem.readers[s].offset, q.hist.next[s], q.mem.data;
            && q.hist.base <= k < |q.hist.log| && r + WORD <= |d|
            && (OnTag(q, s) ==> Header(d, r) == -1 && q.mem.readers[s].cycle < q.mem.cycle)
            && (!OnTag(q, s) ==>
                  && q.hist.off[k] == r && Header(d, r) == |q.hist.log[k]|
                  && 0 < Header(d, r) < |d| && MsgAt(d, r, q.hist.log[k])
                  && Align(r + WORD + Header(d, r)) == End(q.hist, k) <= |d|
                  && (k >= q.hist.mid ==> r < q.mem.offset))
  {
    hide EncodeInt64, Header, Trunc64;
    LivePositioned(q, s);
    UnreadHasNext(q, s);
    var r, k, d := q.mem.readers[s].offset, q.hist.next[s], q.mem.data;
    if OnTag(q, s) {
      WordReadsBack(d, r, -1);
      assert q.hist.mid < |q.hist.log| && q.hist.off[q.hist.mid] == 0;
      assert q.mem.offset <= r;
    } else {
      assert MsgAt(d, q.hist.off[k], q.hist.log[k]);
      WordReadsBack(d, r, |q.hist.log[k]|);
      EndFormulasAgree(r, q.hist.log[k]);
      assert End(q.hist, k) <= if k < q.hist.mid then q.hist.tag.value else q.mem.offset;
    }
  }

  lemma CrossTagKeeps(q: Queue, s: nat)
    requires Quiet(q) && Live(q, s) && Unread(q, s) && OnTag(q, s)
    ensures Quiet(CrossTag(q, s)) && Unread(CrossTag(q, s), s)
    ensures Live(CrossTag(q, s), s)
  {
    LivePositioned(q, s);
    LayoutIgnoresReaders(q, CrossTag(q, s));
    OthersOk(q, CrossTag(q, s), s);
    hide Intact, PreviousLap;
    assert q.hist.mid < |q.hist.log| && q.hist.off[q.hist.mid] == 0;
    assert ReaderOk(q, s);
  }

  /** Following the tag does not change what the receive delivers or where it ends. */
  lemma CrossTagSameReceive(q: Queue, h: Handle, uid: nat)
    requires Quiet(q) && HandleOk(h) && Owns(q, h) && Live(q, h.id)
    requires Unread(q, h.id) && OnTag(q, h.id)
    ensures Owns(CrossTag(q, h.id), h)
    ensures Receive(CrossTag(q, h.id), h, uid) == Receive(q, h, uid)
  {
    var s, q' := h.id, CrossTag(q, h.id);
    CrossTagKeeps(q, s);
    LivePositioned(q, s);
    UnreadHasNext(q, s);
    hide Intact, CurrentLap;
    assert q.mem.offset < q.mem.readers[s].offset;
    var k := Pick(q, h);
    assert Pick(q', h) == k && q.hist.mid <= k;
    assert Advance(q', s, k).mem.readers == Advance(q, s, k).mem.readers;
  }

  /** A conflating receive that steps over a message which is not the newest ends as before. */
  lemma StepOverSameReceive(q: Queue, h: Handle, uid: nat)
    requires Quiet(q) && HandleOk(h) && Owns(q, h) && Live(q, h.id) && Unread(q, h.id)
    requires h.conflate && q.hist.next[h.id] + 1 < |q.hist.log|
    ensures var q' := Advance(q, h.id, q.hist.next[h.id]);
            && Quiet(q') && Owns(q', h) && Live(q', h.id) && Unread(q', h.id)
            && Receive(q', h, uid) == Receive(q, h, uid)
  {
    hide Intact, CurrentLap, PreviousLap, ReaderOk;
    var s, k := h.id, q.hist.next[h.id];
    LivePositioned(q, s);
    AdvanceKeeps(q, s, k);
    AdvanceAwayFromZero(q, s, k);
    UnreadAfterAdvance(q, s, k);
    AdvanceTwice(q, s, k, |q.hist.log| - 1);
  }

  /** Registering again or revalidating is what the refresh does, and it is not done twice. */
  lemma RefreshSameReceive(q: Queue, h: Handle, uid: nat)
    requires Quiet(q) && HandleOk(h) && uid != 0
    ensures var (q', h') := Refresh(q, h, uid);
            && Receive(q', h', uid) == Receive(q, h, uid)
            && Ready(q', h', uid) == Ready(q, h, uid)
            && Refresh(q', h', uid) == (q', h')
  {
    hide Intact, CurrentLap, PreviousLap, ReaderOk;
    RefreshKeeps(q, h, uid);
    RefreshKeeps(Refresh(q, h, uid).0, Refresh(q, h, uid).1, uid);
  }

  lemma NothingUnread(q: Queue, h: Handle, uid: nat)
    requires Shaped(q) && HandleOk(h) && Owns(q, h) && Live(q, h.id) && !Unread(q, h.id)
    ensures Receive(q, h, uid) == Received(q, h, None)
  {
  }

  /** The number of turns left: one per unread message and one for the tag. */
  function TurnsLeft(q: Queue, s: nat): nat {
    if Shaped(q) && s < NUM_READERS && q.hist.next[s] <= |q.hist.log| then
      2 * (|q.hist.log| - q.hist.next[s])
      + (if q.mem.readers[s].offset > q.mem.offset then 1 else 0)
    else 0
  }

  /** A turn on the tag stores cycle + 1 and offset 0; one turn less is left. */
  lemma TagTurn(q: Queue, h: Handle, uid: nat)
    requires Quiet(q) && HandleOk(h) && Owns(q, h) && Live(q, h.id)
    requires Unread(q, h.id) && OnTag(q, h.id)
    ensures var q' := Moved(q, h.id, q.mem.readers[h.id].cycle + 1, 0, q.hist.next[h.id]);
            && Quiet(q') && Owns(q', h) && Live(q', h.id)
            && Receive(q', h, uid) == Receive(q, h, uid)
            && q.hist.next[h.id] <= |q.hist.log|
            && TurnsLeft(q', h.id) < TurnsLeft(q, h.id)
  {
    hide Intact, CurrentLap, ReaderOk, Receive;
    assert Moved(q, h.id, q.mem.readers[h.id].cycle + 1, 0, q.hist.next[h.id]) == CrossTag(q, h.id);
    CrossTagKeeps(q, h.id);
    CrossTagSameReceive(q, h, uid);
    LivePositioned(q, h.id);
    assert q.mem.offset < q.mem.readers[h.id].offset;
  }

  /** A turn on a message stores the message's end in the same cycle. It is the last turn unless the
      receive conflates and the end is not the write offset; then one turn less is left. */
  lemma MessageTurn(q: Queue, h: Handle, uid: nat)
    requires Quiet(q) && HandleOk(h) && Owns(q, h) && Live(q, h.id)
    requires Unread(q, h.id) && !OnTag(q, h.id)
    ensures q.hist.next[h.id] < |q.hist.log|
    ensures var k := q.hist.next[h.id];
            var q' := Moved(q, h.id, q.mem.readers[h.id].cycle, End(q.hist, k), k + 1);
            && Quiet(q') && Owns(q', h) && Live(q', h.id) && q'.hist.log == q.hist.log
            && (if h.conflate && End(q.hist, k) != q.mem.offset
                then Receive(q', h, uid) == Receive(q, h, uid)
                     && TurnsLeft(q', h.id) < TurnsLeft(q, h.id)
                else Receive(q, h, uid) == Received(q', h, Some(k)))
  {
    hide Intact, CurrentLap, PreviousLap, ReaderOk, Header;
    var s, k := h.id, q.hist.next[h.id];
    LivePositioned(q, s);
    HeaderIsTrusted(q, s);
    assert Moved(q, s, q.mem.readers[s].cycle, End(q.hist, k), k + 1) == Advance(q, s, k);
    AdvanceKeeps(q, s, k);
    AdvanceAwayFromZero(q, s, k);
    UnreadAfterAdvance(q, s, k);
    if h.conflate && End(q.hist, k) != q.mem.offset {
      StepOverSameReceive(q, h, uid);
    }
  }

  /** The same in the terms of the code: size is the header that was loaded, the end is computed from
      it, and the bytes behind the header are the message. */
  lemma TakeTurn(q: Queue, h: Handle, uid: nat)
    requires Quiet(q) && HandleOk(h) && Owns(q, h) && Live(q, h.id)
    requires Unread(q, h.id) && !OnTag(q, h.id)
    requires q.mem.readers[h.id].offset + WORD <= |q.mem.data|
    ensures var rd, k, d := q.mem.readers[h.id], q.hist.next[h.id], q.mem.data;
            var size := Header(d, rd.offset);
            && 0 < size < |d| && rd.offset + WORD + size <= |d|
            && k < |q.hist.log| && d[rd.offset + WORD..rd.offset + WORD + size] == q.hist.log[k]
            && var p := Align(rd.offset + WORD + size);
            && Trunc32(p) == p
            && var q' := Moved(q, h.id, rd.cycle, p, k + 1);
            && Quiet(q') && Owns(q', h) && Live(q', h.id) && q'.hist.log == q.hist.log
            && (if h.conflate && p != q.mem.offset
                then Receive(q', h, uid) == Receive(q, h, uid)
                     && TurnsLeft(q', h.id) < TurnsLeft(q, h.id)
                else Receive(q, h, uid) == Received(q', h, Some(k)))
  {
    hide Quiet, Receive, TurnsLeft, OnTag, Header, Align, Moved, WordAt, Unread, Live;
    HeaderIsTrusted(q, h.id);
    MessageTurn(q, h, uid);
    QuietSize(q);
  }

  lemma QuietSize(q: Queue)
    requires Quiet(q)
    ensures Shaped(q) && |q.mem.data| < TWO32
  {
  }
}
