/** The queue as the program has it: a shared segment updated in place, and a connection object per
    handle whose methods carry the loops. Each method is proved against the functions of Ring. */
module SharedQueue {
  import opened Machine
  import opened Buffer
  import opened Ring
  import opened RingInvariant
  import opened Delivery
  import opened ReceiveLoop

  /** The memory-mapped segment: header words and data area. `hist` is the history they stand
      for. */
  class Segment {
    const data: array<byte>
    var numReaders: u64
    var writePointer: u64
    var writeUid: u64
    const readPointers: array<u64>
    const readValids: array<bool>
    const readUids: array<u64>
    ghost var hist: Hist

    ghost predicate Shape() {
      && data.Length < TWO32 - 1
      && readPointers.Length == readValids.Length == readUids.Length == NUM_READERS
      && readPointers != readUids
      && data as object !in {readPointers, readUids, readValids}
      && readValids as object !in {readPointers, readUids}
    }

    ghost function Repr(): set<object> {
      {this, data, readPointers, readValids, readUids}
    }

    function Slot(s: nat): Reader
      requires s < readPointers.Length && s < readValids.Length && s < readUids.Length
      reads readPointers, readValids, readUids
    {
      Reader(Cycle(readPointers[s]), Offset(readPointers[s]), readValids[s], readUids[s])
    }

    /** What the segment holds. */
    ghost function Mem(): (m: Shm)
      requires Shape()
      reads Repr()
      ensures m.data == data[..] && m.writeUid == writeUid && m.numReaders == numReaders
      ensures m.cycle == Cycle(writePointer) && m.offset == Offset(writePointer)
      ensures |m.readers| == NUM_READERS
      ensures forall s :: 0 <= s < NUM_READERS ==> m.readers[s] == Slot(s)
    {
      Shm(data[..], Cycle(writePointer), Offset(writePointer), writeUid, numReaders,
          seq(NUM_READERS, s requires 0 <= s < NUM_READERS && Shape() reads Repr() => Slot(s)))
    }

    ghost function View(): Queue
      requires Shape()
      reads Repr()
    {
      Queue(Mem(), hist)
    }

    ghost predicate Valid()
      reads Repr()
    {
      Shape() && Quiet(View())
    }

    // ---- stores into the data area ---------------------------------------------------------

    method StoreBytes(b: nat, s: seq<byte>)
      requires Shape() && b + |s| <= data.Length
      modifies data
      ensures data[..] == WriteAt(old(data[..]), b, s)
    {
      forall k | 0 <= k < |s| {
        data[b + k] := s[k];
      }
      assert data[..] == WriteAt(old(data[..]), b, s);
    }

    function LoadHeader(b: nat): (size: int)
      requires b + WORD <= data.Length
      reads data
      ensures size == Header(data[..], b)
    {
      assert data[b..b + WORD] == data[..][b..b + WORD];
      DecodeInt64(data[b..b + WORD])
    }

    // ---- the writer's two loops --------------------------------------------------------------

    /** Invalidates the readers beyond the write pointer that have not reached its cycle. */
    method InvalidateBeyond(numReaders: u64, writePointer: u32, writeCycles: u32)
      requires Shape() && numReaders <= NUM_READERS
      modifies readValids
      ensures forall s :: 0 <= s < NUM_READERS ==>
                readValids[s] == (old(readValids[s]) &&
                  !(s < numReaders && Offset(readPointers[s]) > writePointer
                    && Cycle(readPointers[s]) != writeCycles))
    {
      var i := 0;
      while i < numReaders
        invariant 0 <= i <= numReaders
        invariant forall s :: 0 <= s < i ==>
                    readValids[s] == (old(readValids[s]) &&
                      !(Offset(readPointers[s]) > writePointer
                        && Cycle(readPointers[s]) != writeCycles))
        invariant forall s :: i <= s < NUM_READERS ==> readValids[s] == old(readValids[s])
      {
        var readCycles, readPointer := Cycle(readPointers[i]), Offset(readPointers[i]);
        if readPointer > writePointer && readCycles != writeCycles {
          readValids[i] := false;
        }
        i := i + 1;
      }
    }

    /** Invalidates the readers standing in the area that will be written. */
    method InvalidateWithin(numReaders: u64, start: nat, end: nat, writeCycles: u32)
      requires Shape() && numReaders <= NUM_READERS
      modifies readValids
      ensures forall s :: 0 <= s < NUM_READERS ==>
                readValids[s] == (old(readValids[s]) &&
                  !(s < numReaders && start <= Offset(readPointers[s]) < end
                    && Cycle(readPointers[s]) != writeCycles))
    {
      var i := 0;
      while i < numReaders
        invariant 0 <= i <= numReaders
        invariant forall s :: 0 <= s < i ==>
                    readValids[s] == (old(readValids[s]) &&
                      !(start <= Offset(readPointers[s]) < end
                        && Cycle(readPointers[s]) != writeCycles))
        invariant forall s :: i <= s < NUM_READERS ==> readValids[s] == old(readValids[s])
      {
        var readCycles, readPointer := Cycle(readPointers[i]), Offset(readPointers[i]);
        if start <= readPointer < end && readCycles != writeCycles {
          readValids[i] := false;
        }
        i := i + 1;
      }
    }

    /** The tag, the first loop and the cycle bump. The packed pointer holds a 32-bit cycle. */
    method WrapAround(numReaders: u64, writePointer: u32, writeCycles: u32)
      requires Shape() && Shaped(View()) && numReaders == this.numReaders <= NUM_READERS
      requires writePointer == Offset(this.writePointer) && writeCycles == Cycle(this.writePointer)
      requires writePointer + WORD <= data.Length && writeCycles + 1 < TWO32
      modifies Repr()
      ensures Shape() && View() == Wrap(old(View()))
      ensures this.writePointer == Pack(writeCycles + 1, 0)
    {
      ghost var q := View();
      StoreBytes(writePointer, EncodeInt64(-1));
      InvalidateBeyond(numReaders, writePointer, writeCycles);
      this.writePointer := Pack(writeCycles + 1, 0);
      hist := WrapHist(q);
      assert Mem().readers == DropBeyond(q.mem);
    }

    /** The second loop, the size word, the payload and the publication. */
    method Append(msg: Message, numReaders: u64, writePointer: u32, writeCycles: u32)
      requires Shape() && Shaped(View()) && numReaders == this.numReaders <= NUM_READERS
      requires writePointer == Offset(this.writePointer) && writeCycles == Cycle(this.writePointer)
      requires writePointer % 8 == 0 && writePointer + Total(msg) <= data.Length
      modifies Repr()
      ensures Shape() && View() == Put(old(View()), msg)
    {
      hide WriteAt, EncodeInt64, FirstAtOrAbove, Align;
      ghost var q := View();
      var start := writePointer;
      var end := Align(start + WORD + |msg|);
      EndFormulasAgree(start, msg);
      InvalidateWithin(numReaders, start, end, writeCycles);
      StoreBytes(start, EncodeInt64(|msg|));
      StoreBytes(start + WORD, msg);
      var newPointer: u32 := Trunc32(Align(writePointer + |msg| + WORD));
      this.writePointer := Pack(writeCycles, newPointer);
      hist := PutHist(q, msg);
      assert Mem().readers == DropWithin(q.mem, end);
    }

    /** Clears every slot, as an eviction and a new publisher do. */
    method VacateAll()
      requires Shape()
      modifies readValids, readUids
      ensures Mem() == old(Mem()).(readers := Vacate(old(Mem()).readers))
    {
      var i := 0;
      while i < NUM_READERS
        invariant 0 <= i <= NUM_READERS
        invariant forall s :: 0 <= s < i ==> !readValids[s] && readUids[s] == 0
        invariant forall s :: i <= s < NUM_READERS ==>
                    readValids[s] == old(readValids[s]) && readUids[s] == old(readUids[s])
      {
        readValids[i] := false;
        readUids[i] := 0;
        i := i + 1;
      }
      assert Mem().readers == Vacate(old(Mem()).readers);
    }
  }

  /** A process's connection to the segment. */
  class Connection {
    const seg: Segment
    var readerId: int
    var readUidLocal: u64
    var writeUidLocal: u64
    var readConflate: bool

    constructor (seg: Segment)
      ensures this.seg == seg && readerId == -1 && !readConflate
    {
      this.seg := seg;
      readerId, readUidLocal, writeUidLocal, readConflate := -1, 0, 0, false;
    }

    ghost function Local(): Handle
      reads this
    {
      Handle(readerId, readUidLocal, writeUidLocal, readConflate)
    }

    // ---- publishing ------------------------------------------------------------------------

    method InitPublisher(uid: u64)
      requires seg.Valid()
      modifies this, seg, seg.readValids, seg.readUids
      ensures seg.Valid() && seg.View() == NewPublisher(old(seg.View()), uid)
      ensures Local() == old(Local()).(writeUid := uid)
    {
      hide Quiet;
      ghost var q := seg.View();
      seg.writeUid := uid;
      seg.numReaders := 0;
      seg.VacateAll();
      writeUidLocal := uid;
      assert seg.View() == NewPublisher(q, uid);
      NewPublisherKeeps(q, uid);
    }

    /** Turns back to offset 0 when the message and the next tag do not fit behind the write
        pointer; returns the local copies of the write pointer and its cycle. */
    method MakeRoom(msg: Message, numReaders: u64) returns (writePointer: u32, writeCycles: u32)
      requires seg.Shape() && Shaped(seg.View()) && WriterOk(seg.Mem())
      requires Sendable(seg.Mem(), msg) && seg.Mem().cycle + 1 < TWO32
      requires numReaders == seg.numReaders <= NUM_READERS
      modifies seg.Repr()
      ensures seg.Shape()
      ensures seg.View() == if Wraps(old(seg.Mem()), msg) then Wrap(old(seg.View()))
                            else old(seg.View())
      ensures writePointer == Offset(seg.writePointer) && writeCycles == Cycle(seg.writePointer)
    {
      hide Wrap, Segment.Mem;
      var totalMsgSize: u64 := Align(|msg| + WORD);
      assert 3 * totalMsgSize <= seg.data.Length;
      writeCycles, writePointer := Cycle(seg.writePointer), Offset(seg.writePointer);
      if RemainingSpace(seg.data.Length, writePointer, totalMsgSize) <= 0 {
        seg.WrapAround(numReaders, writePointer, writeCycles);
        writePointer := 0;
        writeCycles := writeCycles + 1;
      }
    }

    /** Sends one message, unless another publisher has taken over. Fewer than 2^32 laps are
        assumed, since the cycle counter has 32 bits. */
    method Send(msg: Message) returns (rc: int)
      requires seg.Valid() && Sendable(seg.Mem(), msg)
      requires seg.Mem().cycle + 1 < TWO32
      modifies seg.Repr()
      ensures seg.Valid()
      ensures old(seg.writeUid) != writeUidLocal ==> rc == -1 && seg.View() == old(seg.View())
      ensures old(seg.writeUid) == writeUidLocal ==>
                rc == |msg| && seg.View() == Ring.Send(old(seg.View()), msg)
    {
      hide Quiet, Put, Segment.Mem;
      if writeUidLocal != seg.writeUid {
        return -1;
      }
      QuietParts(seg.View());
      SendKeeps(seg.View(), msg);
      var numReaders := seg.numReaders;
      var writePointer, writeCycles := MakeRoom(msg, numReaders);
      seg.Append(msg, numReaders, writePointer, writeCycles);
      rc := |msg|;
    }

    method AllReadersUpdated() returns (updated: bool)
      requires seg.Valid()
      ensures updated <==> Ring.AllReadersUpdated(seg.Mem())
    {
      QuietParts(seg.View());
      var numReaders := seg.numReaders;
      var i := 0;
      while i < numReaders
        invariant 0 <= i <= numReaders
        invariant forall s :: 0 <= s < i && seg.Mem().readers[s].valid ==>
                    && seg.Mem().readers[s].cycle == seg.Mem().cycle
                    && seg.Mem().readers[s].offset == seg.Mem().offset
      {
        PackUnpack(seg.writePointer, seg.readPointers[i]);
        assert seg.Mem().readers[i] == seg.Slot(i);
        if seg.readValids[i] && seg.writePointer != seg.readPointers[i] {
          return false;
        }
        i := i + 1;
      }
      updated := numReaders > 0;
    }

    // ---- subscribing -----------------------------------------------------------------------

    /** Sets the flag, then moves the read pointer to the write pointer. */
    method ResetReader()
      requires seg.Valid() && 0 <= readerId < NUM_READERS
      modifies seg`hist, seg.readValids, seg.readPointers
      ensures seg.Valid() && seg.View() == Reset(old(seg.View()), readerId)
    {
      hide Quiet;
      ghost var q := seg.View();
      QuietParts(q);
      var id := readerId;
      seg.readValids[id] := true;
      seg.readPointers[id] := seg.writePointer;
      seg.hist := Reset(q, id).hist;
      assert seg.Mem().readers == Reset(q, id).mem.readers;
      ResetStaysQuiet(q, id);
    }

    /** What follows a successful compare-and-swap: claim the slot, not yet valid. */
    method ClaimSlot(curNumReaders: u64, uid: u64)
      requires seg.Shape() && Shaped(seg.View()) && seg.numReaders == curNumReaders < NUM_READERS
      modifies this, seg, seg.readPointers, seg.readValids, seg.readUids
      ensures seg.View() == Registered(old(seg.View()), uid)
      ensures Local() == old(Local()).(id := curNumReaders, readUid := uid)
    {
      ghost var q := seg.View();
      seg.numReaders := curNumReaders + 1;
      readerId := curNumReaders;
      readUidLocal := uid;
      seg.readValids[curNumReaders] := false;
      seg.readPointers[curNumReaders] := 0;
      seg.readUids[curNumReaders] := uid;
      assert seg.Mem().readers == Registered(q, uid).mem.readers;
    }

    /** Takes the next slot with a compare-and-swap on the reader count, after evicting everyone
        when there is none left. */
    method InitSubscriber(uid: u64)
      requires seg.Valid() && uid != 0
      modifies this, seg, seg.readPointers, seg.readValids, seg.readUids
      ensures seg.Valid()
      ensures var (q, s) := Subscribe(old(seg.View()), uid);
              && seg.View() == q
              && Local() == old(Local()).(id := s, readUid := uid)
    {
      hide Quiet;
      ghost var q := seg.View();
      QuietParts(q);
      ghost var q1 := if q.mem.numReaders + 1 > NUM_READERS then EvictAll(q) else q;
      EvictAllQuiet(q);
      while true
        invariant seg.Valid()
        invariant seg.View() == q || seg.View() == q1
        invariant Local() == old(Local())
        invariant q.mem.numReaders <= NUM_READERS && Shaped(q)
        decreases seg.numReaders
      {
        var curNumReaders := seg.numReaders;
        var newNumReaders := curNumReaders + 1;
        if newNumReaders > NUM_READERS {
          seg.numReaders := 0;
          seg.VacateAll();
          assert seg.View() == q1;
          continue;
        }
        assert seg.View() == q1;
        if seg.numReaders == curNumReaders {
          QuietParts(q1);
          ClaimSlot(curNumReaders, uid);
          break;
        }
      }
      RegisteredQuiet(q1, uid);
      ResetReader();
    }

    // ---- receiving -------------------------------------------------------------------------

    /** The turns of the retry loop still to come before the slot is registered and valid. */
    ghost function Repairs(): nat
      requires seg.Shape()
      reads this, seg.Repr()
    {
      if !(0 <= readerId < NUM_READERS) || seg.readUids[readerId] != readUidLocal then 2
      else if !seg.readValids[readerId] then 1
      else 0
    }

    ghost predicate Connected()
      reads this
    {
      0 <= readerId < NUM_READERS && readUidLocal != 0
    }

    /** The head of the retry loop: registers again after an eviction, revalidates an invalidated
        slot; `again` when the loop has to start over. `uid` is the identifier drawn in case of a
        registration. */
    method Repair(uid: u64) returns (again: bool)
      requires seg.Valid() && Connected() && uid != 0
      modifies this, seg, seg.readPointers, seg.readValids, seg.readUids
      ensures seg.Valid() && Connected()
      ensures var (q, h) := Refresh(old(seg.View()), old(Local()), uid);
              seg.View() == q && Local() == h
      ensures Owns(seg.View(), Local()) && Live(seg.View(), Local().id)
      ensures !again ==> seg.View() == old(seg.View()) && Local() == old(Local())
      ensures again ==> Repairs() < old(Repairs())
      ensures Repairs() == 0
    {
      hide Quiet;
      ghost var q := seg.View();
      QuietParts(q);
      RefreshKeeps(q, Local(), uid);
      var id := readerId;
      if readUidLocal != seg.readUids[id] {
        InitSubscriber(uid);
        again := true;
      } else if !seg.readValids[id] {
        ResetReader();
        again := true;
      } else {
        again := false;
      }
      assert seg.Mem().readers[readerId] == seg.Slot(readerId);
    }

    /** 1 when a message is waiting. */
    method Ready(uid: u64) returns (ready: bool)
      requires seg.Valid() && Connected() && uid != 0
      modifies this, seg, seg.readPointers, seg.readValids, seg.readUids
      ensures seg.Valid() && Connected()
      ensures Ring.Ready(old(seg.View()), old(Local()), uid) == Polled(seg.View(), Local(), ready)
    {
      hide Quiet, Refresh;
      ghost var q0, h0 := seg.View(), Local();
      QuietParts(q0);
      var again := Repair(uid);
      RefreshSameReceive(q0, h0, uid);
      while again
        invariant seg.Valid() && Connected()
        invariant (seg.View(), Local()) == Refresh(q0, h0, uid)
        invariant Refresh(seg.View(), Local(), uid) == Refresh(q0, h0, uid)
        decreases again, Repairs()
      {
        again := Repair(uid);
      }
      var readPointer, writePointer := Offset(seg.readPointers[readerId]), Offset(seg.writePointer);
      assert seg.Mem().readers[readerId] == seg.Slot(readerId);
      ready := readPointer != writePointer;
    }

    /** Stores the own read pointer; the history follows with the index given. */
    method StoreReadPointer(cycle: u32, offset: u32, ghost next: nat)
      requires seg.Shape() && Shaped(seg.View()) && 0 <= readerId < NUM_READERS
      modifies seg`hist, seg.readPointers
      ensures seg.View() == Moved(old(seg.View()), readerId, cycle, offset, next)
    {
      ghost var q := seg.View();
      seg.readPointers[readerId] := Pack(cycle, offset);
      seg.hist := seg.hist.(next := seg.hist.next[readerId := next]);
      assert seg.Mem().readers == Moved(q, readerId, cycle, offset, next).mem.readers;
    }

    ghost function Turns(): nat
      requires seg.Shape()
      reads this, seg.Repr()
    {
      if Repairs() == 0 then TurnsLeft(seg.View(), readerId) else 0
    }

    /** What a receive returns, as a code and a buffer. */
    ghost predicate Returns(index: Option<nat>, rc: int, msg: seq<byte>)
      requires seg.Shape()
      reads seg.Repr()
    {
      match index
      case None => rc == 0 && msg == []
      case Some(k) => k < |seg.View().hist.log| && msg == seg.View().hist.log[k] && rc == |msg| > 0
    }

    /** The part of a turn that has found a size: steps over the message when conflating and not at
        the newest, else copies it out and moves behind it. */
    method Take(readCycles: u32, readPointer: u32, writePointer: u32, size: int, ghost uid: u64)
      returns (done: bool, msg: seq<byte>)
      requires seg.Valid() && Connected()
      requires Owns(seg.View(), Local()) && Live(seg.View(), readerId)
      requires readCycles == seg.Slot(readerId).cycle && readPointer == seg.Slot(readerId).offset
      requires writePointer == Offset(seg.writePointer) != readPointer
      requires !OnTag(seg.View(), readerId)
      requires readPointer + WORD <= seg.data.Length && size == seg.LoadHeader(readPointer)
      modifies seg`hist, seg.readPointers
      ensures seg.Valid() && Owns(seg.View(), Local()) && Live(seg.View(), readerId)
      ensures !done ==>
                && Ring.Receive(seg.View(), Local(), uid) ==
                   old(Ring.Receive(seg.View(), Local(), uid))
                && Turns() < old(Turns())
      ensures done ==>
                var r := old(Ring.Receive(seg.View(), Local(), uid));
                seg.View() == r.q && Local() == r.h && Returns(r.index, |msg|, msg)
    {
      hide Quiet, Ring.Receive, OnTag, TurnsLeft, Align, Header, Moved, Segment.Mem;
      hide MsgAt, Total, Trunc32;
      ghost var q, h := seg.View(), Local();
      QuietParts(q);
      TakeTurn(q, h, uid);
      assert 0 < size < seg.data.Length;
      var newReadPointer := Trunc32(Align(readPointer + WORD + size));
      done := !(readConflate && newReadPointer != writePointer);
      msg := [];
      if done {
        msg := seg.data[readPointer + WORD..readPointer + WORD + size];
        assert msg == seg.data[..][readPointer + WORD..readPointer + WORD + size];
      }
      StoreReadPointer(readCycles, newReadPointer, q.hist.next[readerId] + 1);
    }

    /** The rest of one turn of the retry loop, from the load of the pointers on. The two re-checks
        of the flag, after the header and after the copy, can only fire when a writer interferes;
        they are steps of the interleaved model. */
    method Turn(ghost uid: u64) returns (done: bool, rc: int, msg: seq<byte>)
      requires seg.Valid() && Connected()
      requires Owns(seg.View(), Local()) && Live(seg.View(), readerId)
      modifies seg`hist, seg.readPointers
      ensures seg.Valid() && Owns(seg.View(), Local()) && Live(seg.View(), readerId)
      ensures !done ==>
                && Ring.Receive(seg.View(), Local(), uid) ==
                   old(Ring.Receive(seg.View(), Local(), uid))
                && Turns() < old(Turns())
      ensures done ==>
                var r := old(Ring.Receive(seg.View(), Local(), uid));
                seg.View() == r.q && Local() == r.h && Returns(r.index, rc, msg)
    {
      hide Quiet, Ring.Receive, OnTag, TurnsLeft, Header, Moved, Segment.Mem;
      ghost var q, h := seg.View(), Local();
      QuietParts(q);
      var id := readerId;
      var readCycles, readPointer := Cycle(seg.readPointers[id]), Offset(seg.readPointers[id]);
      var writePointer := Offset(seg.writePointer);
      if readPointer == writePointer {
        NothingUnread(q, h, uid);
        return true, 0, [];
      }
      HeaderIsTrusted(q, id);
      var size := seg.LoadHeader(readPointer);
      if size == -1 {
        TagTurn(q, h, uid);
        StoreReadPointer(readCycles + 1, 0, q.hist.next[id]);
        return false, 0, [];
      }
      done, msg := Take(readCycles, readPointer, writePointer, size, uid);
      rc := |msg|;
    }

    /** Receives one message; nothing is returned when the read and write offsets are equal. */
    method Receive(uid: u64) returns (rc: int, msg: seq<byte>)
      requires seg.Valid() && Connected() && uid != 0
      modifies this, seg, seg.readPointers, seg.readValids, seg.readUids
      ensures seg.Valid() && Connected()
      ensures var r := Ring.Receive(old(seg.View()), old(Local()), uid);
              seg.View() == r.q && Local() == r.h && Returns(r.index, rc, msg)
    {
      hide Quiet, Refresh, Ring.Receive, TurnsLeft;
      QuietParts(seg.View());
      ghost var goal := Ring.Receive(seg.View(), Local(), uid);
      rc, msg := 0, [];
      var done := false;
      while !done
        invariant seg.Valid() && Connected() && Shaped(seg.View())
        invariant !done ==> Ring.Receive(seg.View(), Local(), uid) == goal
        invariant done ==>
                    seg.View() == goal.q && Local() == goal.h && Returns(goal.index, rc, msg)
        decreases !done, Repairs(), Turns()
      {
        RefreshSameReceive(seg.View(), Local(), uid);
        var again := Repair(uid);
        if !again {
          done, rc, msg := Turn(uid);
        }
        QuietParts(seg.View());
      }
    }
  }

  /** The socket a subscriber uses; here with non-blocking receives. */
  class SubSocket {
    const q: Connection

    constructor (q: Connection)
      ensures this.q == q
    {
      this.q := q;
    }

    /** A message, or nothing when the return code is not positive. */
    method Receive(uid: u64) returns (r: Option<seq<byte>>)
      requires q.seg.Valid() && q.Connected() && uid != 0
      modifies q, q.seg, q.seg.readPointers, q.seg.readValids, q.seg.readUids
      ensures q.seg.Valid() && q.Connected()
      ensures var rc := Ring.Receive(old(q.seg.View()), old(q.Local()), uid);
              && q.seg.View() == rc.q && q.Local() == rc.h
              && match rc.index
                 case None => r == None
                 case Some(k) => k < |rc.q.hist.log| && r == Some(rc.q.hist.log[k])
    {
      hide Quiet, Ring.Receive;
      var rc, msg := q.Receive(uid);
      r := if rc > 0 then Some(msg) else None;
    }
  }

  /** Receives until nothing is left: every unread message, in order, or only the newest one from a
      conflating socket. */
  method DrainSockRaw(sock: SubSocket, uid: u64) returns (ret: seq<seq<byte>>)
    requires sock.q.seg.Valid() && sock.q.Connected() && uid != 0
    modifies sock.q, sock.q.seg, sock.q.seg.readPointers, sock.q.seg.readValids,
      sock.q.seg.readUids
    ensures sock.q.seg.Valid() && sock.q.Connected()
    ensures var (q, h) := Refresh(old(sock.q.seg.View()), old(sock.q.Local()), uid);
            && sock.q.seg.View() == DrainBy(q, h).q && sock.q.Local() == h
            && (Unread(q, h.id) ==>
                  && q.hist.next[h.id] < |q.hist.log|
                  && ret == q.hist.log[if h.conflate then |q.hist.log| - 1 else q.hist.next[h.id]..])
            && (!Unread(q, h.id) ==> ret == [])
  {
    hide Quiet, Ring.Receive, Refresh, DrainBy, Segment.Mem;
    ret := [];
    QuietParts(sock.q.seg.View());
    ghost var q0, h0 := sock.q.seg.View(), sock.q.Local();
    ghost var log := q0.hist.log;
    ghost var (q1, h1) := Refresh(q0, h0, uid);
    ghost var all := DrainBy(q1, h1);
    ghost var got: seq<nat> := [];
    ghost var rest := all;
    DrainFromRefreshed(q0, h0, uid);
    while true
      invariant sock.q.seg.Valid() && sock.q.Connected() && Shaped(sock.q.seg.View())
      invariant sock.q.seg.View().hist.log == log
      invariant Refresh(sock.q.seg.View(), sock.q.Local(), uid).1 == h1
      invariant DrainBy(Refresh(sock.q.seg.View(), sock.q.Local(), uid).0, h1) == rest
      invariant all == Drained(rest.q, got + rest.indices)
      invariant ret == Messages(log, got)
      decreases |rest.indices|
    {
      ReceiveIsDrainRound(sock.q.seg.View(), sock.q.Local(), uid);
      var dat := sock.Receive(uid);
      QuietParts(sock.q.seg.View());
      if dat == None {
        break;
      }
      ret := ret + [dat.value];
      ghost var k := rest.indices[0];
      rest := DrainBy(sock.q.seg.View(), h1);
      got := got + [k];
    }
    assert got + [] == got;
  }

  /** What draining returns after the refresh, message by message. */
  lemma DrainFromRefreshed(q: Queue, h: Handle, uid: nat)
    requires Quiet(q) && HandleOk(h) && uid != 0
    ensures var (q1, h1) := Refresh(q, h, uid);
            && q1.hist.log == q.hist.log
            && (Unread(q1, h1.id) ==>
                  && q1.hist.next[h1.id] < |q.hist.log|
                  && Messages(q.hist.log, DrainBy(q1, h1).indices) ==
                     q.hist.log[if h1.conflate then |q.hist.log| - 1 else q1.hist.next[h1.id]..])
            && (!Unread(q1, h1.id) ==> DrainBy(q1, h1).indices == [])
  {
    hide Intact, CurrentLap, PreviousLap, ReaderOk, Positioned;
    RefreshKeeps(q, h, uid);
    var (q1, h1) := Refresh(q, h, uid);
    if Unread(q1, h1.id) {
      DrainIsSuffix(q1, h1.id);
      MessagesOfRange(q.hist.log, q1.hist.next[h1.id]);
    }
  }

  lemma RegisteredQuiet(q: Queue, uid: nat)
    requires Quiet(q) && uid != 0 && q.mem.numReaders < NUM_READERS
    ensures Quiet(Registered(q, uid))
  {
    RegisteredKeeps(q, uid);
  }

  lemma EvictAllQuiet(q: Queue)
    requires Quiet(q)
    ensures Quiet(EvictAll(q))
  {
    EvictAllKeeps(q);
    hide Inv;
    assert EvictAll(q).mem.offset == q.mem.offset;
  }

  lemma QuietParts(q: Queue)
    requires Quiet(q)
    ensures Shaped(q) && WriterOk(q.mem) && q.mem.numReaders <= NUM_READERS
  {
  }
}
