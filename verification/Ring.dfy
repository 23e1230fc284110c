/** The queue as a value: what the shared segment holds, the history it stands for, and the effect
    of each operation when it runs alone. The methods of SharedQueue are proved against these
    functions; the properties are proved about them. */
module Ring {
  import opened Machine
  import opened Buffer

  const NUM_READERS: nat := 25

  /** One reader slot of the segment header. */
  datatype Reader = Reader(cycle: nat, offset: nat, valid: bool, uid: nat)

  /** The shared segment; the packed 64-bit pointers appear as their two halves. */
  datatype Shm = Shm(data: seq<byte>, cycle: nat, offset: nat, writeUid: nat,
                     numReaders: nat, readers: seq<Reader>)

  /** What the segment stands for. `log` is every message ever sent and `off[i]` the offset where
      message i was put. The messages still intact are log[base..]: log[mid..] is the current lap,
      from offset 0 up to the write offset, and log[base..mid] is what is left of the previous lap,
      from the write offset up to its wrap-around tag. `next[s]` is the index of the message that
      slot s has to deliver next. */
  datatype Hist = Hist(log: seq<Message>, off: seq<nat>, base: nat, mid: nat, tag: Option<nat>,
                       next: seq<nat>)

  datatype Queue = Queue(mem: Shm, hist: Hist)

  /** The process-local part of a connection. `id` is -1 until the handle subscribes. */
  datatype Handle = Handle(id: int, readUid: nat, writeUid: nat, conflate: bool)

  // ---- invariant ---------------------------------------------------------------------------

  predicate Shaped(q: Queue) {
    && |q.mem.readers| == |q.hist.next| == NUM_READERS
    && |q.hist.off| == |q.hist.log|
    && q.hist.base <= q.hist.mid <= |q.hist.log|
    && |q.mem.data| < TWO32 - 1
  }

  /** Where message i ends. */
  function End(h: Hist, i: nat): nat
    requires i < |h.log| == |h.off|
  {
    h.off[i] + Total(h.log[i])
  }

  /** The write offset is aligned and leaves room for the next tag. */
  predicate WriterOk(mem: Shm) {
    mem.offset % 8 == 0 && (mem.offset == 0 || mem.offset + WORD < |mem.data|)
  }

  ghost predicate Intact(q: Queue)
    requires Shaped(q)
  {
    forall i :: q.hist.base <= i < |q.hist.log| ==>
      && q.hist.off[i] % 8 == 0
      && 0 < |q.hist.log[i]|
      && MsgAt(q.mem.data, q.hist.off[i], q.hist.log[i])
  }

  /** Messages lo to hi follow one another without gaps: none starts below `from` and the last
      one ends at `upto`. */
  ghost predicate Packed(h: Hist, lo: nat, hi: nat, from: nat, upto: nat)
    requires hi <= |h.log| == |h.off|
  {
    forall i {:trigger End(h, i)} :: lo <= i < hi ==>
      && from <= h.off[i]
      && End(h, i) == (if i + 1 < hi then h.off[i + 1] else upto)
      && End(h, i) <= upto
  }

  /** The current lap is packed from offset 0 to the write offset. */
  ghost predicate CurrentLap(q: Queue)
    requires Shaped(q)
  {
    var h, n := q.hist, |q.hist.log|;
    && (if h.mid == n then q.mem.offset == 0 else h.off[h.mid] == 0)
    && Packed(h, h.mid, n, 0, q.mem.offset)
  }

  /** The rest of the previous lap is packed from the write offset or above, and ends in the tag. */
  ghost predicate PreviousLap(q: Queue)
    requires Shaped(q)
  {
    var h := q.hist;
    match h.tag
    case None => h.base == h.mid
    case Some(t) =>
      && q.mem.offset <= t && t % 8 == 0 && TagAt(q.mem.data, t)
      && Packed(h, h.base, h.mid, q.mem.offset, t)
  }

  /** A valid reader stands on the write offset, on the tag, or on the message it delivers next. */
  predicate Positioned(q: Queue, s: nat)
    requires Shaped(q) && s < NUM_READERS
  {
    var rd, k, h := q.mem.readers[s], q.hist.next[s], q.hist;
    if rd.offset < q.mem.offset then
      h.mid <= k < |h.log| && h.off[k] == rd.offset
    else if rd.offset == q.mem.offset then
      rd.cycle == q.mem.cycle ==> k == |h.log|
    else
      && rd.cycle < q.mem.cycle
      && ((h.tag == Some(rd.offset) && k == h.mid)
          || (h.base <= k < h.mid && h.off[k] == rd.offset))
  }

  /** No slot is ever ahead of the writer's cycle or points outside the buffer; a valid one is
      positioned. */
  predicate ReaderOk(q: Queue, s: nat)
    requires Shaped(q) && s < NUM_READERS
  {
    && q.mem.readers[s].cycle <= q.mem.cycle
    && q.mem.readers[s].offset % 8 == 0
    && (q.mem.readers[s].offset == 0 || q.mem.readers[s].offset + WORD <= |q.mem.data|)
    && q.hist.next[s] <= |q.hist.log|
    && (s < q.mem.numReaders && q.mem.readers[s].valid ==> Positioned(q, s))
  }

  /** Exactly the slots below numReaders are owned; an owner's uid is never zero. */
  predicate MembersOk(mem: Shm) {
    && mem.numReaders <= NUM_READERS == |mem.readers|
    && forall s :: 0 <= s < NUM_READERS ==> (mem.readers[s].uid != 0 <==> s < mem.numReaders)
  }

  ghost predicate LayoutOk(q: Queue) {
    Shaped(q) && WriterOk(q.mem) && Intact(q) && CurrentLap(q) && PreviousLap(q)
  }

  /** Holds between any two atomic sections of the writer. */
  ghost predicate Inv(q: Queue) {
    && LayoutOk(q)
    && MembersOk(q.mem)
    && forall s :: 0 <= s < NUM_READERS ==> ReaderOk(q, s)
  }

  /** Holds between operations: the write offset is 0 only before the first message. */
  ghost predicate Quiet(q: Queue) {
    Inv(q) && (q.mem.offset == 0 ==> q.hist.log == [] && q.hist.tag == None)
  }

  // ---- sending -------------------------------------------------------------------------------

  /** What the source demands of a message: non-empty, and at least three of it must fit. */
  predicate Sendable(mem: Shm, m: Message) {
    0 < |m| && 3 * Total(m) <= |mem.data|
  }

  predicate Wraps(mem: Shm, m: Message) {
    |mem.data| - mem.offset - Total(m) - WORD <= 0
  }

  /** Clears the flag of every registered reader that is in the part of the buffer beyond the
      write offset and has not reached the current cycle. */
  function DropBeyond(mem: Shm): (r: seq<Reader>)
    ensures |r| == |mem.readers|
  {
    seq(|mem.readers|, s requires 0 <= s < |mem.readers| =>
      var rd := mem.readers[s];
      if s < mem.numReaders && rd.offset > mem.offset && rd.cycle != mem.cycle
      then rd.(valid := false) else rd)
  }

  /** Clears the flag of every registered reader standing in the area about to be written. */
  function DropWithin(mem: Shm, end: nat): (r: seq<Reader>)
    ensures |r| == |mem.readers|
  {
    seq(|mem.readers|, s requires 0 <= s < |mem.readers| =>
      var rd := mem.readers[s];
      if s < mem.numReaders && mem.offset <= rd.offset < end && rd.cycle != mem.cycle
      then rd.(valid := false) else rd)
  }

  function WrapMem(mem: Shm): Shm
    requires mem.offset + WORD <= |mem.data|
  {
    mem.(data := StoreHeader(mem.data, mem.offset, -1), readers := DropBeyond(mem),
         cycle := mem.cycle + 1, offset := 0)
  }

  /** The current lap becomes the previous one. A reader standing on the write offset now stands on
      the tag, so whatever it had left unread of the lap before is skipped. */
  function WrapHist(q: Queue): Hist
    requires Shaped(q)
  {
    var n := |q.hist.log|;
    q.hist.(base := q.hist.mid, mid := n, tag := Some(q.mem.offset),
            next := seq(NUM_READERS, s requires 0 <= s < NUM_READERS =>
              if q.mem.readers[s].offset == q.mem.offset then n else q.hist.next[s]))
  }

  function Wrap(q: Queue): Queue
    requires Shaped(q) && q.mem.offset + WORD <= |q.mem.data|
  {
    Queue(WrapMem(q.mem), WrapHist(q))
  }

  /** The first message of [lo, hi) that lies at or above end. */
  function FirstAtOrAbove(off: seq<nat>, lo: nat, hi: nat, end: nat): (r: nat)
    requires lo <= hi <= |off|
    ensures lo <= r <= hi
    ensures forall i :: lo <= i < r ==> off[i] < end
    ensures r < hi ==> end <= off[r]
    decreases hi - lo
  {
    if lo < hi && off[lo] < end then FirstAtOrAbove(off, lo + 1, hi, end) else lo
  }

  function PutMem(mem: Shm, m: Message): Shm
    requires mem.offset + Total(m) <= |mem.data|
  {
    var end := mem.offset + Total(m);
    mem.(data := StoreMessage(mem.data, mem.offset, m), readers := DropWithin(mem, end),
         offset := end)
  }

  /** The message joins the log; what it overwrites of the previous lap is no longer intact. */
  function PutHist(q: Queue, m: Message): Hist
    requires Shaped(q)
  {
    var h, end := q.hist, q.mem.offset + Total(m);
    h.(log := h.log + [m], off := h.off + [q.mem.offset],
       base := FirstAtOrAbove(h.off, h.base, h.mid, end),
       tag := if h.tag.Some? && end <= h.tag.value then h.tag else None)
  }

  function Put(q: Queue, m: Message): Queue
    requires Shaped(q) && q.mem.offset + Total(m) <= |q.mem.data|
  {
    Queue(PutMem(q.mem, m), PutHist(q, m))
  }

  /** A send by the active publisher. */
  function Send(q: Queue, m: Message): Queue
    requires Shaped(q) && WriterOk(q.mem) && Sendable(q.mem, m)
  {
    Put(if Wraps(q.mem, m) then Wrap(q) else q, m)
  }

  // ---- reading -------------------------------------------------------------------------------

  /** Makes the slot valid and moves it to the write pointer: nothing is unread any more. */
  function Reset(q: Queue, s: nat): Queue
    requires Shaped(q) && s < NUM_READERS
  {
    var rd := q.mem.readers[s].(valid := true, cycle := q.mem.cycle, offset := q.mem.offset);
    Queue(q.mem.(readers := q.mem.readers[s := rd]),
          q.hist.(next := q.hist.next[s := |q.hist.log|]))
  }

  /** Slot s moves past message k, into the next cycle if the tag lies in between. */
  function Advance(q: Queue, s: nat, k: nat): Queue
    requires Shaped(q) && s < NUM_READERS && k < |q.hist.log|
  {
    var rd := q.mem.readers[s];
    var crossed := rd.offset > q.mem.offset && q.hist.mid <= k;
    var rd' := rd.(offset := End(q.hist, k), cycle := if crossed then rd.cycle + 1 else rd.cycle);
    Queue(q.mem.(readers := q.mem.readers[s := rd']), q.hist.(next := q.hist.next[s := k + 1]))
  }

  // ---- membership ------------------------------------------------------------------------------

  function Vacate(readers: seq<Reader>): (r: seq<Reader>)
    ensures |r| == |readers|
  {
    seq(|readers|, s requires 0 <= s < |readers| => readers[s].(valid := false, uid := 0))
  }

  function EvictAll(q: Queue): Queue {
    q.(mem := q.mem.(numReaders := 0, readers := Vacate(q.mem.readers)))
  }

  /** The state between taking a slot and resetting it. */
  function Registered(q: Queue, uid: nat): Queue
    requires Shaped(q) && q.mem.numReaders < NUM_READERS
  {
    var s := q.mem.numReaders;
    q.(mem := q.mem.(numReaders := s + 1, readers := q.mem.readers[s := Reader(0, 0, false, uid)]))
  }

  /** The next free slot, after evicting everyone when all are taken. */
  function Subscribe(q: Queue, uid: nat): (Queue, nat)
    requires Shaped(q)
  {
    var q1 := if q.mem.numReaders + 1 > NUM_READERS then EvictAll(q) else q;
    (Reset(Registered(q1, uid), q1.mem.numReaders), q1.mem.numReaders)
  }

  /** A new publisher starts with no readers but keeps the write pointer and the data. */
  function NewPublisher(q: Queue, uid: nat): Queue {
    q.(mem := q.mem.(writeUid := uid, numReaders := 0, readers := Vacate(q.mem.readers)))
  }

  // ---- receiving ---------------------------------------------------------------------------------

  predicate Owns(q: Queue, h: Handle)
    requires Shaped(q)
  {
    0 <= h.id < NUM_READERS && q.mem.readers[h.id].uid == h.readUid
  }

  /** What receiving and polling do first: register again after an eviction, revalidate an
      invalidated slot. `uid` is the identifier drawn in case of a registration. */
  function Refresh(q: Queue, h: Handle, uid: nat): (r: (Queue, Handle))
    requires Shaped(q) && 0 <= h.id < NUM_READERS
    ensures Shaped(r.0) && 0 <= r.1.id < NUM_READERS && r.0.hist.log == q.hist.log
    ensures r.1.conflate == h.conflate
  {
    if !Owns(q, h) then
      var (q1, s) := Subscribe(q, uid);
      (q1, h.(id := s, readUid := uid))
    else if !q.mem.readers[h.id].valid then
      (Reset(q, h.id), h)
    else
      (q, h)
  }

  predicate Unread(q: Queue, s: nat)
    requires Shaped(q) && s < NUM_READERS
  {
    q.mem.readers[s].offset != q.mem.offset
  }

  /** The message a receive hands over: the next unread one, or the newest when conflating. */
  function Pick(q: Queue, h: Handle): nat
    requires Shaped(q) && 0 <= h.id < NUM_READERS
  {
    if h.conflate && q.hist.log != [] then |q.hist.log| - 1 else q.hist.next[h.id]
  }

  datatype Received = Received(q: Queue, h: Handle, index: Option<nat>)

  /** A receive in terms of the log: refresh the slot, then hand over one message if the slot's
      offset differs from the write offset. (The bound on the index only makes the function total;
      it holds whenever the offsets differ.) */
  function Receive(q: Queue, h: Handle, uid: nat): Received
    requires Shaped(q) && 0 <= h.id < NUM_READERS
  {
    var (q1, h1) := Refresh(q, h, uid);
    if Unread(q1, h1.id) && Pick(q1, h1) < |q1.hist.log| then
      Received(Advance(q1, h1.id, Pick(q1, h1)), h1, Some(Pick(q1, h1)))
    else
      Received(q1, h1, None)
  }

  datatype Polled = Polled(q: Queue, h: Handle, ready: bool)

  function Ready(q: Queue, h: Handle, uid: nat): Polled
    requires Shaped(q) && 0 <= h.id < NUM_READERS
  {
    var (q1, h1) := Refresh(q, h, uid);
    Polled(q1, h1, Unread(q1, h1.id))
  }

  /** True when there is a reader and no valid one differs from the write pointer. */
  predicate AllReadersUpdated(mem: Shm)
    requires mem.numReaders <= |mem.readers|
  {
    && 0 < mem.numReaders
    && forall s :: 0 <= s < mem.numReaders && mem.readers[s].valid ==>
         mem.readers[s].cycle == mem.cycle && mem.readers[s].offset == mem.offset
  }
}
