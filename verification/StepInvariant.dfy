/** What every access keeps, in every interleaving. */
module StepInvariant {
  import opened Machine
  import opened Buffer
  import opened Delivery
  import R = Ring
  import opened Steps

  // ---- chains of intact messages -------------------------------------------------------------

  /** From offset b the messages log[k], log[k + 1], ... lie one after the other up to the write
      offset w, where the log ends. */
  ghost predicate Reach(d: seq<byte>, w: nat, log: seq<Message>, b: nat, k: nat)
    decreases w - b
  {
    if b < w then
      k < |log| && 0 < |log[k]| && MsgAt(d, b, log[k]) && Reach(d, w, log, b + Total(log[k]), k + 1)
    else
      b == w && k == |log|
  }

  /** From offset b the messages log[k], log[k + 1], ... lie one after the other up to a tag, all
      older than message mid; if exact, none is missing between them and message mid. */
  ghost predicate Tail(d: seq<byte>, log: seq<Message>, mid: nat, b: nat, k: nat, exact: bool)
    decreases |d| - b
  {
    && b + WORD <= |d|
    && k <= mid <= |log|
    && ((TagAt(d, b) && (exact ==> k == mid))
        || (k < mid && 0 < |log[k]| && MsgAt(d, b, log[k])
            && Tail(d, log, mid, b + Total(log[k]), k + 1, exact)))
  }

  lemma {:induction false} ReachFrame(d: seq<byte>, e: seq<byte>, w: nat, log: seq<Message>,
                                      b: nat, k: nat)
    requires Reach(d, w, log, b, k) && Same(d, e, b, w)
    ensures Reach(e, w, log, b, k)
    decreases w - b
  {
    if b < w {
      ReachEnds(d, w, log, b + Total(log[k]), k + 1);
      MsgFrame(d, e, b, log[k]);
      ReachFrame(d, e, w, log, b + Total(log[k]), k + 1);
    }
  }

  lemma ReachEnds(d: seq<byte>, w: nat, log: seq<Message>, b: nat, k: nat)
    requires Reach(d, w, log, b, k)
    ensures b <= w && k <= |log|
  {
  }

  lemma TailEnds(d: seq<byte>, log: seq<Message>, mid: nat, b: nat, k: nat, exact: bool)
    requires Tail(d, log, mid, b, k, exact)
    ensures b + WORD <= |d| && k <= mid <= |log|
  {
  }

  lemma {:induction false} TailFrame(d: seq<byte>, e: seq<byte>, log: seq<Message>, mid: nat,
                                     b: nat, k: nat, exact: bool)
    requires Tail(d, log, mid, b, k, exact) && Same(d, e, b, |d|)
    ensures Tail(e, log, mid, b, k, exact)
    decreases |d| - b
  {
    if TagAt(d, b) && (exact ==> k == mid) {
      WordFrame(d, e, b, -1);
    } else {
      MsgFrame(d, e, b, log[k]);
      TailFrame(d, e, log, mid, b + Total(log[k]), k + 1, exact);
    }
  }

  /** Publishing the message at the write offset prolongs every chain that reaches it. */
  lemma {:induction false} ReachPublished(d: seq<byte>, w: nat, log: seq<Message>, m: Message,
                                          b: nat, k: nat)
    requires Reach(d, w, log, b, k) && MsgAt(d, w, m) && 0 < |m|
    ensures Reach(d, w + Total(m), log + [m], b, k)
    decreases w - b
  {
    if b < w {
      ReachPublished(d, w, log, m, b + Total(log[k]), k + 1);
    } else {
      assert Reach(d, w + Total(m), log + [m], w + Total(m), |log| + 1);
    }
  }

  lemma {:induction false} TailPublished(d: seq<byte>, log: seq<Message>, m: Message, mid: nat,
                                         b: nat, k: nat, exact: bool)
    requires Tail(d, log, mid, b, k, exact)
    ensures Tail(d, log + [m], mid, b, k, exact)
    decreases |d| - b
  {
    if !(TagAt(d, b) && (exact ==> k == mid)) {
      TailPublished(d, log, m, mid, b + Total(log[k]), k + 1, exact);
    }
  }

  /** When the writer turns back, the current lap, now ending in a tag, becomes an older one. */
  lemma {:induction false} ReachBecomesTail(d: seq<byte>, w: nat, log: seq<Message>, b: nat, k: nat,
                                            exact: bool)
    requires Reach(d, w, log, b, k) && TagAt(d, w)
    ensures Tail(d, log, |log|, b, k, exact)
    decreases w - b
  {
    if b < w {
      ReachEnds(d, w, log, b + Total(log[k]), k + 1);
      ReachBecomesTail(d, w, log, b + Total(log[k]), k + 1, exact);
    }
  }

  lemma {:induction false} TailGrowsOlder(d: seq<byte>, log: seq<Message>, mid: nat, b: nat, k: nat)
    requires Tail(d, log, mid, b, k, false)
    ensures Tail(d, log, |log|, b, k, false)
    decreases |d| - b
  {
    if !TagAt(d, b) {
      TailGrowsOlder(d, log, mid, b + Total(log[k]), k + 1);
    }
  }

  /** A tag stored at w leaves every older chain above w as it was; one at w itself now ends there. */
  lemma TailTagged(d: seq<byte>, w: nat, log: seq<Message>, mid: nat, b: nat, k: nat, exact: bool)
    requires Tail(d, log, mid, b, k, exact) && b % 8 == w % 8 == 0 && w + WORD <= |d|
    requires w < b || (w == b && !exact)
    ensures Tail(StoreHeader(d, w, -1), log, mid, b, k, exact)
  {
    HeaderStored(d, w, -1);
    if w < b {
      TailFrame(d, StoreHeader(d, w, -1), log, mid, b, k, exact);
    }
  }

  // ---- what is true of a reader ----------------------------------------------------------------

  /** How a reader may stand on an older lap: at or above the floor; if exact, with no message missing
      between this lap and the current one. */
  datatype Older = Older(floor: nat, exact: bool)

  function Loose(floor: nat): Older {
    Older(floor, false)
  }

  /** Offset r, held with cycle c, is a place to go on reading from message k on: on the current
      lap, or on an older one as lo allows. */
  ghost predicate Standing(s: System, lo: Older, r: nat, c: nat, k: nat) {
    || Reach(s.mem.data, s.mem.offset, s.log, r, k)
    || (lo.floor <= r && c < s.mem.cycle && Tail(s.mem.data, s.log, s.mid, r, k, lo.exact))
  }

  /** As above, and a header is there: the reader does not wait for the writer. */
  ghost predicate InFlight(s: System, lo: Older, r: nat, c: nat, k: nat) {
    || (r < s.mem.offset && Reach(s.mem.data, s.mem.offset, s.log, r, k))
    || (lo.floor <= r && c < s.mem.cycle && Tail(s.mem.data, s.log, s.mid, r, k, lo.exact))
  }

  /** h is the size of message p.next, which lies inside the buffer. True whatever the flag says. */
  predicate Chosen(s: System, rd: R.Reader, p: Proc, h: int) {
    && 0 < h && p.next < |s.log| && h == |s.log[p.next]|
    && rd.offset + Total(s.log[p.next]) + WORD <= |s.mem.data|
  }

  /** A size word h that was loaded from a place in flight. The header itself may have become a tag
      since, but the payload and the place behind it are intact. */
  ghost predicate Loaded(s: System, lo: Older, rd: R.Reader, p: Proc, h: int) {
    if h == -1 then
      rd.cycle < s.mem.cycle && p.next <= s.mid
      && (lo.exact ==> p.next == s.mid && lo.floor <= rd.offset)
    else
      && Chosen(s, rd, p, h)
      && PayloadAt(s.mem.data, rd.offset, s.log[p.next])
      && var e := rd.offset + Total(s.log[p.next]);
         || Reach(s.mem.data, s.mem.offset, s.log, e, p.next + 1)
         || (lo.floor <= rd.offset && rd.cycle < s.mem.cycle
             && Tail(s.mem.data, s.log, s.mid, e, p.next + 1, lo.exact))
  }

  /** What holds whatever the flag says: nothing is ever read outside the buffer. */
  predicate LocalOk(s: System, rd: R.Reader, p: Proc) {
    && rd.cycle <= s.mem.cycle && rd.offset % 8 == 0
    && (rd.offset == 0 || rd.offset + WORD <= |s.mem.data|)
    && p.next <= |s.log|
    && match p.phase
       case ResetStore(c, w, k) =>
         && c <= s.mem.cycle && w % 8 == 0 && (w == 0 || w + WORD <= |s.mem.data|)
         && p.next <= k <= |s.log|
       case LoadHeader(w) => rd.offset + WORD <= |s.mem.data|
       case Act(w, h) => if h == -1 then rd.cycle < s.mem.cycle else Chosen(s, rd, p, h)
       case Copy(h, buf) => Chosen(s, rd, p, h) && |buf| <= h
       case StorePointer(h, buf) => Chosen(s, rd, p, h) && |buf| == h
       case CheckCopy(k, buf) => k < |s.log| && p.next == k + 1
       case _ => true
  }

  /** What holds as long as the flag is true. */
  ghost predicate FlagOk(s: System, lo: Older, rd: R.Reader, p: Proc)
    requires LocalOk(s, rd, p)
  {
    match p.phase
    case CheckFlag => Standing(s, lo, rd.offset, rd.cycle, p.next)
    case ResetStore(c, w, k) => Standing(s, lo, w, c, k)
    case LoadPointers => Standing(s, lo, rd.offset, rd.cycle, p.next)
    case LoadHeader(w) => InFlight(s, lo, rd.offset, rd.cycle, p.next)
    case CheckHeader(w, h) => Loaded(s, lo, rd, p, h)
    case Act(w, h) => Loaded(s, lo, rd, p, h)
    case Copy(h, buf) => Loaded(s, lo, rd, p, h) && buf == s.log[p.next][..|buf|]
    case StorePointer(h, buf) => Loaded(s, lo, rd, p, h) && buf == s.log[p.next]
    case CheckCopy(k, buf) =>
      Standing(s, lo, rd.offset, rd.cycle, p.next) && buf == s.log[k]
    case _ => true
  }

  /** Where the reader goes on, and with which message: in a reset, the pointer it has loaded. */
  function Place(rd: R.Reader, p: Proc): (nat, nat) {
    if p.phase.ResetStore? then (p.phase.w, p.phase.k) else (rd.offset, p.next)
  }

  /** The deliveries so far are below what comes next. */
  predicate GotOk(s: System, p: Proc) {
    Subsequence(p.got, s.log, if p.phase.CheckCopy? then p.phase.index else p.next)
  }

  ghost predicate ReaderOk(s: System, lo: Older, rd: R.Reader, p: Proc) {
    LocalOk(s, rd, p) && GotOk(s, p) && (rd.valid ==> FlagOk(s, lo, rd, p))
  }

  // ---- the invariant -----------------------------------------------------------------------------

  /** Readers on an older lap must not be below this: past the area being written once the second
      loop has looked at them, at or past the write offset otherwise. */
  function Floor(s: System, i: nat): nat {
    match s.writer
    case LoadWithin(m, j) => s.mem.offset + (if i < j then Total(m) else 0)
    case DropWithin(m, j) => s.mem.offset + (if i < j then Total(m) else 0)
    case WriteHeader(m) => s.mem.offset + Total(m)
    case CopyIn(m, k) => s.mem.offset + Total(m)
    case Publish(m) => s.mem.offset + Total(m)
    case _ => s.mem.offset
  }

  predicate Room(s: System, m: Message) {
    0 < |m| && s.mem.offset + Total(m) + WORD < |s.mem.data|
  }

  ghost predicate WriterOk(s: System) {
    var d, w, n := s.mem.data, s.mem.offset, s.mem.numReaders;
    match s.writer
    case Idle => true
    case WriteTag(m) => R.Sendable(s.mem, m) && R.Wraps(s.mem, m) && w + WORD <= |d|
    case LoadBeyond(m, i) => R.Sendable(s.mem, m) && TagAt(d, w)
    case DropBeyond(m, i) => R.Sendable(s.mem, m) && TagAt(d, w) && i < n
    case Bump(m) => R.Sendable(s.mem, m) && TagAt(d, w)
    case LoadWithin(m, i) => Room(s, m)
    case DropWithin(m, i) => Room(s, m) && i < n
    case WriteHeader(m) => Room(s, m)
    case CopyIn(m, k) =>
      Room(s, m) && WordAt(d, w, |m|) && k <= |m| && d[w + WORD..w + WORD + k] == m[..k]
    case Publish(m) => Room(s, m) && MsgAt(d, w, m)
  }

  ghost predicate MemoryOk(s: System) {
    && Shaped(s) && |s.mem.data| < TWO32 - 1
    && s.mem.offset % 8 == 0 && (s.mem.offset == 0 || s.mem.offset + WORD < |s.mem.data|)
    && s.mid <= |s.log| && Reach(s.mem.data, s.mem.offset, s.log, 0, s.mid)
  }

  ghost predicate ReadersOk(s: System)
    requires Shaped(s)
  {
    forall i :: 0 <= i < |s.procs| ==> ReaderOk(s, Loose(Floor(s, i)), s.mem.readers[i], s.procs[i])
  }

  /** The part that does not concern the readers. */
  ghost predicate WriterInv(s: System) {
    MemoryOk(s) && WriterOk(s)
  }

  ghost predicate Inv(s: System) {
    WriterInv(s) && ReadersOk(s)
  }

  // ---- accesses of the writer: effect on one reader ------------------------------------------------

  /** The tag is stored. A reader that stands on it with messages unread loses the way to them, so it
      must not claim to be exact. */
  lemma TagStored(s: System, e: System, lo: Older, rd: R.Reader, p: Proc)
    requires MemoryOk(s) && ReaderOk(s, lo, rd, p) && s.mem.offset + WORD <= |s.mem.data|
    requires s.mem.offset + (if lo.exact then WORD else 0) <= lo.floor
    requires e == s.(mem := s.mem.(data := StoreHeader(s.mem.data, s.mem.offset, -1)),
                     writer := e.writer)
    ensures ReaderOk(e, lo, rd, p)
  {
    hide Reach, Tail, StoreHeader, WordAt, Subsequence, PayloadAt, Total;
    var d, w, r, k := s.mem.data, s.mem.offset, Place(rd, p).0, Place(rd, p).1;
    HeaderStored(d, w, -1);
    if rd.valid {
      if Reach(d, w, s.log, r, k) {
        ReachFrame(d, e.mem.data, w, s.log, r, k);
      }
      if lo.floor <= r && Tail(d, s.log, s.mid, r, k, lo.exact) {
        TailTagged(d, w, s.log, s.mid, r, k, lo.exact);
      }
      if k < |s.log| && !p.phase.ResetStore? {
        var b, m := r + Total(s.log[k]), s.log[k];
        if Reach(d, w, s.log, b, k + 1) {
          ReachEnds(d, w, s.log, b, k + 1);
          ReachFrame(d, e.mem.data, w, s.log, b, k + 1);
          if PayloadAt(d, r, m) { PayloadFrame(d, e.mem.data, r, m); }
        }
        if lo.floor <= r && Tail(d, s.log, s.mid, b, k + 1, lo.exact) {
          TailTagged(d, w, s.log, s.mid, b, k + 1, lo.exact);
          if PayloadAt(d, r, m) { PayloadFrame(d, e.mem.data, r, m); }
        }
      }
    }
  }

  /** The writer turns back: the readers of the current lap are now on an older one. */
  lemma Bumped(s: System, e: System, rd: R.Reader, p: Proc)
    requires MemoryOk(s) && ReaderOk(s, Loose(s.mem.offset), rd, p)
    requires TagAt(s.mem.data, s.mem.offset)
    requires e == s.(mem := s.mem.(cycle := s.mem.cycle + 1, offset := 0), mid := |s.log|,
                     writer := e.writer)
    ensures ReaderOk(e, Loose(0), rd, p)
  {
    hide Reach, Tail, TagAt, Subsequence, PayloadAt;
    var d, w, r, k := s.mem.data, s.mem.offset, Place(rd, p).0, Place(rd, p).1;
    if rd.valid {
      if Reach(d, w, s.log, r, k) {
        ReachBecomesTail(d, w, s.log, r, k, false);
      }
      if Tail(d, s.log, s.mid, r, k, false) {
        TailGrowsOlder(d, s.log, s.mid, r, k);
      }
      if k < |s.log| && !p.phase.ResetStore? {
        var b := r + Total(s.log[k]);
        if Reach(d, w, s.log, b, k + 1) {
          ReachBecomesTail(d, w, s.log, b, k + 1, false);
        }
        if Tail(d, s.log, s.mid, b, k + 1, false) {
          TailGrowsOlder(d, s.log, s.mid, b, k + 1);
        }
      }
    }
  }

  /** If none of them is on a lap older than that, they miss nothing. */
  lemma BumpedExactly(s: System, e: System, rd: R.Reader, p: Proc)
    requires MemoryOk(s) && ReaderOk(s, Older(|s.mem.data|, true), rd, p)
    requires TagAt(s.mem.data, s.mem.offset)
    requires e == s.(mem := s.mem.(cycle := s.mem.cycle + 1, offset := 0), mid := |s.log|,
                     writer := e.writer)
    ensures ReaderOk(e, Older(0, true), rd, p)
  {
    assert WORD <= |s.mem.data|;
    hide Standing, InFlight, Loaded, MemoryOk, TagAt, Subsequence;
    if rd.valid {
      match p.phase
      case ResetStore(c, w, k) => BumpedStanding(s, e, w, c, k);
      case CheckHeader(w, h) => BumpedLoaded(s, e, rd, p, h);
      case Act(w, h) => BumpedLoaded(s, e, rd, p, h);
      case Copy(h, buf) => BumpedLoaded(s, e, rd, p, h);
      case StorePointer(h, buf) => BumpedLoaded(s, e, rd, p, h);
      case _ => BumpedStanding(s, e, rd.offset, rd.cycle, p.next);
    }
  }

  lemma BumpedStanding(s: System, e: System, r: nat, c: nat, k: nat)
    requires MemoryOk(s) && TagAt(s.mem.data, s.mem.offset)
    requires e == s.(mem := s.mem.(cycle := s.mem.cycle + 1, offset := 0), mid := |s.log|,
                     writer := e.writer)
    requires c <= s.mem.cycle && r < |s.mem.data|
    ensures Standing(s, Older(|s.mem.data|, true), r, c, k) ==> Standing(e, Older(0, true), r, c, k)
    ensures InFlight(s, Older(|s.mem.data|, true), r, c, k) ==> InFlight(e, Older(0, true), r, c, k)
  {
    hide Reach, Tail, TagAt;
    if Reach(s.mem.data, s.mem.offset, s.log, r, k) {
      ReachBecomesTail(s.mem.data, s.mem.offset, s.log, r, k, true);
    }
  }

  lemma BumpedLoaded(s: System, e: System, rd: R.Reader, p: Proc, h: int)
    requires MemoryOk(s) && TagAt(s.mem.data, s.mem.offset)
    requires e == s.(mem := s.mem.(cycle := s.mem.cycle + 1, offset := 0), mid := |s.log|,
                     writer := e.writer)
    requires rd.cycle <= s.mem.cycle && rd.offset < |s.mem.data|
    requires Loaded(s, Older(|s.mem.data|, true), rd, p, h)
    ensures Loaded(e, Older(0, true), rd, p, h)
  {
    hide Reach, Tail, TagAt, PayloadAt, Total;
    var b := rd.offset + Total(s.log[p.next]);
    ReachBecomesTail(s.mem.data, s.mem.offset, s.log, b, p.next + 1, true);
  }

  /** Bytes are stored in the area between the write offset and the floor that the readers have been
      cleared from. */
  lemma AreaWritten(s: System, e: System, lo: Older, rd: R.Reader, p: Proc)
    requires MemoryOk(s) && ReaderOk(s, lo, rd, p)
    requires e == s.(mem := s.mem.(data := e.mem.data), writer := e.writer)
    requires Same(s.mem.data, e.mem.data, 0, s.mem.offset)
    requires Same(s.mem.data, e.mem.data, lo.floor, |s.mem.data|)
    ensures ReaderOk(e, lo, rd, p)
  {
    hide Standing, InFlight, Loaded, MemoryOk, Subsequence;
    if rd.valid {
      match p.phase
      case ResetStore(c, w, k) => AreaStanding(s, e, lo, w, c, k);
      case CheckHeader(w, h) => AreaLoaded(s, e, lo, rd, p, h);
      case Act(w, h) => AreaLoaded(s, e, lo, rd, p, h);
      case Copy(h, buf) => AreaLoaded(s, e, lo, rd, p, h);
      case StorePointer(h, buf) => AreaLoaded(s, e, lo, rd, p, h);
      case _ => AreaStanding(s, e, lo, rd.offset, rd.cycle, p.next);
    }
  }

  lemma AreaStanding(s: System, e: System, lo: Older, r: nat, c: nat, k: nat)
    requires e == s.(mem := s.mem.(data := e.mem.data), writer := e.writer)
    requires Same(s.mem.data, e.mem.data, 0, s.mem.offset)
    requires Same(s.mem.data, e.mem.data, lo.floor, |s.mem.data|)
    ensures Standing(s, lo, r, c, k) ==> Standing(e, lo, r, c, k)
    ensures InFlight(s, lo, r, c, k) ==> InFlight(e, lo, r, c, k)
  {
    hide Reach, Tail;
    var d, w := s.mem.data, s.mem.offset;
    if Reach(d, w, s.log, r, k) {
      ReachFrame(d, e.mem.data, w, s.log, r, k);
    }
    if lo.floor <= r && Tail(d, s.log, s.mid, r, k, lo.exact) {
      TailFrame(d, e.mem.data, s.log, s.mid, r, k, lo.exact);
    }
  }

  lemma AreaLoaded(s: System, e: System, lo: Older, rd: R.Reader, p: Proc, h: int)
    requires e == s.(mem := s.mem.(data := e.mem.data), writer := e.writer)
    requires Same(s.mem.data, e.mem.data, 0, s.mem.offset)
    requires Same(s.mem.data, e.mem.data, lo.floor, |s.mem.data|)
    requires Loaded(s, lo, rd, p, h)
    ensures Loaded(e, lo, rd, p, h)
  {
    hide Reach, Tail, PayloadAt;
    if h != -1 {
      var d, w, m := s.mem.data, s.mem.offset, s.log[p.next];
      var b := rd.offset + Total(m);
      if Reach(d, w, s.log, b, p.next + 1) {
        ReachEnds(d, w, s.log, b, p.next + 1);
        ReachFrame(d, e.mem.data, w, s.log, b, p.next + 1);
      } else {
        TailFrame(d, e.mem.data, s.log, s.mid, b, p.next + 1, lo.exact);
      }
      PayloadFrame(d, e.mem.data, rd.offset, m);
    }
  }

  /** The message is published. */
  lemma Published(s: System, e: System, m: Message, lo: Older, rd: R.Reader, p: Proc)
    requires MemoryOk(s) && ReaderOk(s, lo, rd, p)
    requires MsgAt(s.mem.data, s.mem.offset, m) && 0 < |m|
    requires e == s.(mem := s.mem.(offset := s.mem.offset + Total(m)), log := s.log + [m],
                     writer := e.writer)
    ensures ReaderOk(e, lo, rd, p)
  {
    hide Reach, Tail, MsgAt, PayloadAt, Subsequence, FlagOk;
    var k := if p.phase.CheckCopy? then p.phase.index else p.next;
    StillSubsequence(p.got, s.log, e.log, k, k);
    if rd.valid {
      PublishedFlag(s, e, m, lo, rd, p);
    }
  }

  lemma PublishedFlag(s: System, e: System, m: Message, lo: Older, rd: R.Reader, p: Proc)
    requires MemoryOk(s) && LocalOk(s, rd, p) && FlagOk(s, lo, rd, p)
    requires MsgAt(s.mem.data, s.mem.offset, m) && 0 < |m|
    requires e == s.(mem := s.mem.(offset := s.mem.offset + Total(m)), log := s.log + [m],
                     writer := e.writer)
    ensures LocalOk(e, rd, p) && FlagOk(e, lo, rd, p)
  {
    hide Standing, InFlight, Loaded, MemoryOk, MsgAt, Total;
    match p.phase
    case ResetStore(c, w, k) => PublishedStanding(s, e, m, lo, w, c, k);
    case CheckHeader(w, h) => PublishedLoaded(s, e, m, lo, rd, p, h);
    case Act(w, h) => PublishedLoaded(s, e, m, lo, rd, p, h);
    case Copy(h, buf) => PublishedLoaded(s, e, m, lo, rd, p, h);
    case StorePointer(h, buf) => PublishedLoaded(s, e, m, lo, rd, p, h);
    case _ => PublishedStanding(s, e, m, lo, rd.offset, rd.cycle, p.next);
  }

  lemma PublishedStanding(s: System, e: System, m: Message, lo: Older, r: nat, c: nat, k: nat)
    requires MemoryOk(s) && MsgAt(s.mem.data, s.mem.offset, m) && 0 < |m|
    requires e == s.(mem := s.mem.(offset := s.mem.offset + Total(m)), log := s.log + [m],
                     writer := e.writer)
    ensures Standing(s, lo, r, c, k) ==> Standing(e, lo, r, c, k)
    ensures InFlight(s, lo, r, c, k) ==> InFlight(e, lo, r, c, k)
  {
    hide Reach, Tail, MsgAt, Total;
    var d, w := s.mem.data, s.mem.offset;
    if Reach(d, w, s.log, r, k) {
      ReachPublished(d, w, s.log, m, r, k);
    }
    if Tail(d, s.log, s.mid, r, k, lo.exact) {
      TailPublished(d, s.log, m, s.mid, r, k, lo.exact);
    }
  }

  lemma PublishedLoaded(s: System, e: System, m: Message, lo: Older, rd: R.Reader, p: Proc, h: int)
    requires MemoryOk(s) && MsgAt(s.mem.data, s.mem.offset, m) && 0 < |m|
    requires e == s.(mem := s.mem.(offset := s.mem.offset + Total(m)), log := s.log + [m],
                     writer := e.writer)
    requires Loaded(s, lo, rd, p, h)
    ensures Loaded(e, lo, rd, p, h)
  {
    hide Reach, Tail, MsgAt, PayloadAt, Total, MemoryOk;
    if h != -1 {
      var b := rd.offset + Total(s.log[p.next]);
      assert e.log[p.next] == s.log[p.next];
      if Reach(s.mem.data, s.mem.offset, s.log, b, p.next + 1) {
        ReachPublished(s.mem.data, s.mem.offset, s.log, m, b, p.next + 1);
      } else {
        TailPublished(s.mem.data, s.log, m, s.mid, b, p.next + 1, lo.exact);
      }
    }
  }
}
