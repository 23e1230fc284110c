/** One send and any number of receives interleaved load by load and store by store, the payloads
    byte by byte, under sequential consistency. Membership is fixed: nobody subscribes, evicts or
    takes over as publisher meanwhile. */
module Steps {
  import opened Machine
  import opened Buffer
  import opened Ring
  import opened Delivery

  /** Where a receive stands: each constructor names the access it makes next. */
  datatype Phase =
    | CheckFlag                                  // load the flag at the top of the loop
    | ResetFlag                                  // reset: store the flag
    | ResetLoad                                  // reset: load the write pointer
    | ResetStore(cycle: nat, w: nat, k: nat)     // reset: store it in the read pointer; k messages
                                                 // were in the log when it was loaded
    | LoadPointers                               // load the own read pointer and the write pointer
    | LoadHeader(w: nat)                         // load the size word
    | CheckHeader(w: nat, size: int)             // load the flag again
    | Act(w: nat, size: int)                     // store the read pointer, or start to copy
    | Copy(len: nat, buf: seq<byte>)             // load the next payload byte
    | StorePointer(len: nat, buf: seq<byte>)     // store the read pointer
    | CheckCopy(index: nat, buf: seq<byte>)      // load the flag a last time

  /** The private state of a reader. `next` is a lower bound for the index it delivers next, `got`
      what it has received and `calls` the number of receives that have returned. */
  datatype Proc = Proc(phase: Phase, conflate: bool, next: nat, got: seq<Delivered>, calls: nat)

  /** Where the send stands. The loops' local variable i is part of the state. */
  datatype Writer =
    | Idle
    | WriteTag(m: Message)
    | LoadBeyond(m: Message, i: nat)             // first loop: load read pointer i
    | DropBeyond(m: Message, i: nat)             // first loop: clear flag i
    | Bump(m: Message)                           // store the write pointer: next cycle, offset 0
    | LoadWithin(m: Message, i: nat)             // second loop: load read pointer i
    | DropWithin(m: Message, i: nat)             // second loop: clear flag i
    | WriteHeader(m: Message)
    | CopyIn(m: Message, k: nat)                 // store payload byte k
    | Publish(m: Message)                        // store the write pointer

  /** Slot i of the segment belongs to procs[i]. `log` holds the published messages and `mid` is the
      index of the first one of the current lap. */
  datatype System = System(mem: Shm, log: seq<Message>, mid: nat, procs: seq<Proc>, writer: Writer)

  predicate Shaped(s: System) {
    |s.procs| == s.mem.numReaders <= |s.mem.readers|
  }

  // ---- the writer ------------------------------------------------------------------------------

  /** The writer takes on a message. */
  function Begin(s: System, m: Message): System {
    s.(writer := if Wraps(s.mem, m) then WriteTag(m) else LoadWithin(m, 0))
  }

  function ClearFlag(mem: Shm, i: nat): Shm
    requires i < |mem.readers|
  {
    mem.(readers := mem.readers[i := mem.readers[i].(valid := false)])
  }

  /** What the writer's phase promises, as far as its next access needs it. */
  predicate WriterCanStep(s: System) {
    var size, w := |s.mem.data|, s.mem.offset;
    match s.writer
    case WriteTag(m) => w + WORD <= size
    case DropBeyond(m, i) => i < |s.mem.readers|
    case DropWithin(m, i) => i < |s.mem.readers|
    case WriteHeader(m) => w + WORD <= size
    case CopyIn(m, k) => k <= |m| && w + WORD + |m| <= size
    case _ => true
  }

  /** Offset r, held with cycle c, lies in the area the second loop protects. */
  predicate InArea(mem: Shm, m: Message, r: nat, c: nat) {
    mem.offset <= r < mem.offset + Total(m) && c != mem.cycle
  }

  function WriterStep(s: System): System
    requires Shaped(s) && WriterCanStep(s)
  {
    var w, c, n := s.mem.offset, s.mem.cycle, s.mem.numReaders;
    match s.writer
    case Idle => s
    case WriteTag(m) =>
      s.(mem := s.mem.(data := StoreHeader(s.mem.data, w, -1)), writer := LoadBeyond(m, 0))
    case LoadBeyond(m, i) =>
      if n <= i then s.(writer := Bump(m))
      else if s.mem.readers[i].offset > w && s.mem.readers[i].cycle != c
      then s.(writer := DropBeyond(m, i))
      else s.(writer := LoadBeyond(m, i + 1))
    case DropBeyond(m, i) =>
      s.(mem := ClearFlag(s.mem, i), writer := LoadBeyond(m, i + 1))
    case Bump(m) =>
      s.(mem := s.mem.(cycle := c + 1, offset := 0), mid := |s.log|, writer := LoadWithin(m, 0))
    case LoadWithin(m, i) =>
      if n <= i then s.(writer := WriteHeader(m))
      else if InArea(s.mem, m, s.mem.readers[i].offset, s.mem.readers[i].cycle)
      then s.(writer := DropWithin(m, i))
      else s.(writer := LoadWithin(m, i + 1))
    case DropWithin(m, i) =>
      s.(mem := ClearFlag(s.mem, i), writer := LoadWithin(m, i + 1))
    case WriteHeader(m) =>
      s.(mem := s.mem.(data := StoreHeader(s.mem.data, w, |m|)), writer := CopyIn(m, 0))
    case CopyIn(m, k) =>
      if k == |m| then s.(writer := Publish(m))
      else s.(mem := s.mem.(data := s.mem.data[w + WORD + k := m[k]]), writer := CopyIn(m, k + 1))
    case Publish(m) =>
      s.(mem := s.mem.(offset := w + Total(m)), log := s.log + [m], writer := Idle)
  }

  // ---- a reader ----------------------------------------------------------------------------------

  /** Bounds every access of a reader has to respect. */
  predicate ReaderCanStep(s: System, i: nat)
    requires Shaped(s) && i < |s.procs|
  {
    var r, size := s.mem.readers[i].offset, |s.mem.data|;
    match s.procs[i].phase
    case LoadHeader(w) => r + WORD <= size
    case Act(w, h) => h == -1 || (0 < h < size && r + WORD + h <= size)
    case Copy(h, buf) => |buf| <= h && r + WORD + h <= size
    case _ => true
  }

  function WithProc(s: System, i: nat, p: Proc): System
    requires i < |s.procs|
  {
    s.(procs := s.procs[i := p])
  }

  function StoreSlot(s: System, i: nat, rd: Reader): System
    requires i < |s.mem.readers|
  {
    s.(mem := s.mem.(readers := s.mem.readers[i := rd]))
  }

  /** One access of reader i. A pointer and its cycle are one 64-bit word. A receive that finds
      nothing, or has delivered, starts again. */
  function ReaderStep(s: System, i: nat): System
    requires Shaped(s) && i < |s.procs| && ReaderCanStep(s, i)
  {
    var rd, p := s.mem.readers[i], s.procs[i];
    match p.phase
    case CheckFlag =>
      WithProc(s, i, p.(phase := if rd.valid then LoadPointers else ResetFlag))
    case ResetFlag =>
      WithProc(StoreSlot(s, i, rd.(valid := true)), i, p.(phase := ResetLoad))
    case ResetLoad =>
      WithProc(s, i, p.(phase := ResetStore(s.mem.cycle, s.mem.offset, |s.log|)))
    case ResetStore(c, w, k) =>
      WithProc(StoreSlot(s, i, rd.(cycle := c, offset := w)), i,
               p.(phase := CheckFlag, next := k))
    case LoadPointers =>
      WithProc(s, i, if rd.offset == s.mem.offset
                     then p.(phase := CheckFlag, calls := p.calls + 1)
                     else p.(phase := LoadHeader(s.mem.offset)))
    case LoadHeader(w) =>
      WithProc(s, i, p.(phase := CheckHeader(w, Header(s.mem.data, rd.offset))))
    case CheckHeader(w, h) =>
      WithProc(s, i, p.(phase := if rd.valid then Act(w, h) else ResetFlag))
    case Act(w, h) =>
      if h == -1 then
        WithProc(StoreSlot(s, i, rd.(cycle := rd.cycle + 1, offset := 0)), i,
                 p.(phase := CheckFlag, next := if p.next <= s.mid then s.mid else p.next))
      else if p.conflate && Align(rd.offset + WORD + h) != w then
        WithProc(StoreSlot(s, i, rd.(offset := Align(rd.offset + WORD + h))), i,
                 p.(phase := CheckFlag, next := p.next + 1))
      else
        WithProc(s, i, p.(phase := Copy(h, [])))
    case Copy(h, buf) =>
      WithProc(s, i, p.(phase :=
        if |buf| < h then Copy(h, buf + [s.mem.data[rd.offset + WORD + |buf|]])
        else StorePointer(h, buf)))
    case StorePointer(h, buf) =>
      WithProc(StoreSlot(s, i, rd.(offset := Align(rd.offset + WORD + h))), i,
               p.(phase := CheckCopy(p.next, buf), next := p.next + 1))
    case CheckCopy(k, buf) =>
      WithProc(s, i, if rd.valid
                     then p.(phase := CheckFlag, got := p.got + [Delivered(k, buf)],
                             calls := p.calls + 1)
                     else p.(phase := ResetFlag))
  }

  // ---- interleavings --------------------------------------------------------------------------------

  datatype Action =
    | BeginSend(m: Message)
    | WriterMoves
    | ReaderMoves(i: nat)

  /** A send begins only when the previous one is over, and only with a message the source accepts;
      everybody else may move at any time. */
  predicate Enabled(s: System, a: Action) {
    match a
    case BeginSend(m) => s.writer == Idle && Sendable(s.mem, m)
    case WriterMoves => true
    case ReaderMoves(i) => i < |s.procs|
  }

  /** The access stays inside the buffer, and the source's assertions on the size hold. */
  predicate Safe(s: System, a: Action) {
    && Shaped(s)
    && match a
       case BeginSend(m) => true
       case WriterMoves => WriterCanStep(s)
       case ReaderMoves(i) => i < |s.procs| && ReaderCanStep(s, i)
  }

  function Do(s: System, a: Action): System
    requires Safe(s, a)
  {
    match a
    case BeginSend(m) => Begin(s, m)
    case WriterMoves => WriterStep(s)
    case ReaderMoves(i) => ReaderStep(s, i)
  }

  /** Each action is enabled when its turn comes. */
  predicate Interleaving(s: System, actions: seq<Action>)
    decreases |actions|
  {
    actions != [] ==>
      && Enabled(s, actions[0])
      && (Safe(s, actions[0]) ==> Interleaving(Do(s, actions[0]), actions[1..]))
  }

  /** The state the actions lead to; an access that is not safe ends the program. */
  function After(s: System, actions: seq<Action>): System
    decreases |actions|
  {
    if actions == [] || !Safe(s, actions[0]) then s
    else After(Do(s, actions[0]), actions[1..])
  }

  // ---- the gap in a reset ------------------------------------------------------------------------

  /** The second loop is about to spare slot i although the pointer that the slot's reset has loaded,
      and not yet stored, lies in the area about to be written. */
  predicate Missed(s: System) {
    match s.writer
    case LoadWithin(m, i) =>
      && i < |s.procs| && i < |s.mem.readers|
      && s.procs[i].phase.ResetStore?
      && InArea(s.mem, m, s.procs[i].phase.w, s.procs[i].phase.cycle)
      && s.mem.readers[i].valid
      && !InArea(s.mem, m, s.mem.readers[i].offset, s.mem.readers[i].cycle)
    case _ => false
  }

  /** No access of the writer misses a reset in this way. */
  predicate ResetsSeen(s: System, actions: seq<Action>)
    decreases |actions|
  {
    actions != [] ==>
      && !(actions[0].WriterMoves? && Missed(s))
      && (Safe(s, actions[0]) ==> ResetsSeen(Do(s, actions[0]), actions[1..]))
  }
}
