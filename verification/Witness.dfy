/** Three things one might expect of the queue and cannot have: that "empty" means nothing is unread,
    that messages are only missed through a reset, and that the segment at least shows which is the
    case. Two runs of a 64-byte queue refute them. */
module Witness {
  import opened Machine
  import opened Buffer
  import opened Ring
  import opened Delivery
  import opened World
  import opened Gaps
  import opened Lag

  const SIZE: nat := 64
  const ONE: Message := [1]

  /** One publisher, handle 0, and one subscriber, handle 1, on an unused segment. */
  function Beginning(): World {
    World(Queue(Shm(seq(SIZE, _ => 0), 0, 0, 0, 0, seq(NUM_READERS, _ => Reader(0, 0, false, 0))),
                Hist([], [], 0, 0, None, seq(NUM_READERS, _ => 0))),
          [Handle(-1, 0, 0, false), Handle(-1, 0, 0, false)],
          [[], []])
  }

  // ---- the writer: three messages of one byte fill a lap -------------------------------------------

  function OffsetAt(n: nat): (r: nat)
    ensures r <= 48
  {
    if n == 0 then 0 else 16 * ((n - 1) % 3 + 1)
  }

  function CycleAt(n: nat): nat {
    if n == 0 then 0 else (n - 1) / 3
  }

  function DataAt(n: nat): (d: seq<byte>)
    ensures |d| == SIZE
  {
    if n == 0 then seq(SIZE, _ => 0)
    else
      var d, w := DataAt(n - 1), OffsetAt(n - 1);
      if w == 48 then StoreMessage(StoreHeader(d, w, -1), 0, ONE) else StoreMessage(d, w, ONE)
  }

  /** The segment after n sends, with the subscriber's slot as given. */
  function MemAt(n: nat, reader: Reader): Shm {
    Shm(DataAt(n), CycleAt(n), OffsetAt(n), 0, 1,
        seq(NUM_READERS, s => if s == 0 then reader else Reader(0, 0, false, 0)))
  }

  // ---- stories ---------------------------------------------------------------------------------------

  /** What the publisher and the subscriber do, one after the other. */
  datatype Story = Over | Sending(rest: Story) | Receiving(rest: Story)

  const SEND := OpSend(0, ONE)
  const RECEIVE := OpReceive(1, 2)

  function Ops(story: Story): seq<Op> {
    match story
    case Over => []
    case Sending(rest) => [SEND] + Ops(rest)
    case Receiving(rest) => [RECEIVE] + Ops(rest)
  }

  /** The number of sends, the subscriber's slot and the index it delivers next. */
  datatype Track = Track(sent: nat, reader: Reader, next: nat)

  ghost predicate Tracks(w: World, t: Track) {
    && WorldOk(w)
    && w.q.mem == MemAt(t.sent, t.reader) && w.q.hist.next[0] == t.next
    && w.handles == [Handle(-1, 0, 0, false), Handle(0, 1, 0, false)]
    && t.reader.valid && t.reader.uid == 1
    && |w.q.hist.log| == t.sent && forall i :: 0 <= i < t.sent ==> w.q.hist.log[i] == ONE
  }

  /** A send that does not invalidate the subscriber; at offset 48 it wraps. */
  function Sent(t: Track): Option<Track> {
    var r, c, w := t.reader.offset, t.reader.cycle, OffsetAt(t.sent);
    if w == 48 then
      if (r > w && c != CycleAt(t.sent)) || (r < 16 && c != CycleAt(t.sent) + 1) then None
      else Some(Track(t.sent + 1, t.reader, if r == w && c != CycleAt(t.sent) then t.sent else t.next))
    else if w <= r < w + 16 && c != CycleAt(t.sent) then None
    else Some(t.(sent := t.sent + 1))
  }

  /** A receive on the current lap, or from the tag at offset 48. */
  function Got(t: Track): Option<Track> {
    var rd := t.reader;
    if rd.offset < OffsetAt(t.sent) then
      Some(t.(reader := rd.(offset := rd.offset + 16), next := t.next + 1))
    else if OffsetAt(t.sent) < rd.offset == 48 then
      Some(t.(reader := rd.(cycle := rd.cycle + 1, offset := 16), next := t.next + 1))
    else None
  }

  function Told(t: Track, story: Story): Option<Track>
    decreases story
  {
    match story
    case Over => Some(t)
    case Sending(rest) => var t' := Sent(t); if t' == None then None else Told(t'.value, rest)
    case Receiving(rest) => var t' := Got(t); if t' == None then None else Told(t'.value, rest)
  }

  lemma TracksSend(w: World, t: Track)
    requires Tracks(w, t) && Sent(t).Some?
    ensures Legal(w, SEND) && Tracks(Step(w, SEND), Sent(t).value)
  {
    hide Intact, CurrentLap, PreviousLap, ReaderOk, Subsequence, MembersOk;
    hide StoreHeader, StoreMessage;
    assert Total(ONE) == 16;
    StepKeeps(w, SEND);
    SendForward(w.q, ONE);
    SendClearsExactly(w.q, ONE, 0);
    SendSkipsExactly(w.q, ONE, 0);
    var q' := Step(w, SEND).q;
    assert q'.mem.readers == MemAt(t.sent + 1, t.reader).readers;
  }

  /** Where the subscriber stands after its next message. */
  lemma GotPlace(w: World, t: Track)
    requires Tracks(w, t) && Got(t).Some?
    ensures t.next < t.sent && Unread(w.q, 0)
    ensures Advance(w.q, 0, t.next).mem.readers[0] == Got(t).value.reader
  {
    hide WorldOk, Subsequence, MembersOk, DataAt, ReaderOk, MsgAt;
    assert Total(ONE) == 16;
    WorldQuiet(w);
    LivePositioned(w.q, 0);
    UnreadHasNext(w.q, 0);
    assert End(w.q.hist, t.next) == w.q.hist.off[t.next] + 16;
  }

  lemma WorldQuiet(w: World)
    requires WorldOk(w)
    ensures Quiet(w.q)
  {
  }

  lemma TracksReceive(w: World, t: Track)
    requires Tracks(w, t) && Got(t).Some?
    ensures Legal(w, RECEIVE) && Tracks(Step(w, RECEIVE), Got(t).value)
  {
    hide Intact, CurrentLap, PreviousLap, ReaderOk, Positioned, Subsequence, MembersOk, DataAt;
    GotPlace(w, t);
    StepKeeps(w, RECEIVE);
    ReceiveIsNext(w.q, w.handles[1], 2);
    ReceiveDelivers(w, 1, 2);
    var q' := Step(w, RECEIVE).q;
    assert q'.mem.readers == MemAt(t.sent, Got(t).value.reader).readers;
  }

  lemma {:induction false} TracksStory(w: World, t: Track, story: Story)
    requires Tracks(w, t) && Told(t, story).Some?
    ensures LegalRun(w, Ops(story)) && Tracks(Run(w, Ops(story)), Told(t, story).value)
    decreases story
  {
    hide Step, Legal, Sent, Got;
    if story != Over {
      var op := if story.Sending? then SEND else RECEIVE;
      var t' := (if story.Sending? then Sent(t) else Got(t)).value;
      if story.Sending? {
        TracksSend(w, t);
      } else {
        TracksReceive(w, t);
      }
      StepKeeps(w, op);
      TracksStory(Step(w, op), t', story.rest);
      assert Ops(story)[1..] == Ops(story.rest);
    }
  }

  // ---- the two runs ----------------------------------------------------------------------------------

  /** Three messages sent and received, then three more sent: the writer is one lap ahead. */
  function OneLapBehind(rest: Story): Story {
    Sending(Sending(Sending(Receiving(Receiving(Receiving(Sending(Sending(Sending(rest)))))))))
  }

  /** Going on, the writer skips the subscriber, which then reads everything there is. */
  const SKIPPED: Story :=
    OneLapBehind(Sending(Sending(Receiving(Sending(Receiving(Receiving(Over)))))))

  /** The subscriber keeps up for two laps and then falls one lap behind. */
  const BEHIND: Story :=
    Sending(Sending(Sending(Receiving(Receiving(Receiving(
      Sending(Receiving(Sending(Receiving(Sending(Receiving(
        Sending(Sending(Sending(Over)))))))))))))))

  /** The subscriber's slot stays valid throughout. */
  function At(sent: nat, cycle: nat, offset: nat, next: nat): Track {
    Track(sent, Reader(cycle, offset, true, 1), next)
  }

  /** One turn of a story, from t to t'. */
  lemma Turn(t: Track, t': Track, s: Story) returns (rest: Story)
    requires s != Over && (if s.Sending? then Sent(t) else Got(t)) == Some(t')
    ensures rest == s.rest && Told(t, s) == Told(t', rest)
  {
    rest := s.rest;
  }

  lemma OneLapBehindTold(rest: Story)
    ensures Told(START, OneLapBehind(rest)) == Told(At(6, 0, 48, 3), rest)
  {
    hide Told;
    var s := OneLapBehind(rest);
    s := Turn(At(0, 0, 0, 0), At(1, 0, 0, 0), s);
    s := Turn(At(1, 0, 0, 0), At(2, 0, 0, 0), s);
    s := Turn(At(2, 0, 0, 0), At(3, 0, 0, 0), s);
    s := Turn(At(3, 0, 0, 0), At(3, 0, 16, 1), s);
    s := Turn(At(3, 0, 16, 1), At(3, 0, 32, 2), s);
    s := Turn(At(3, 0, 32, 2), At(3, 0, 48, 3), s);
    s := Turn(At(3, 0, 48, 3), At(4, 0, 48, 3), s);
    s := Turn(At(4, 0, 48, 3), At(5, 0, 48, 3), s);
    s := Turn(At(5, 0, 48, 3), At(6, 0, 48, 3), s);
  }

  lemma SkippedTold()
    ensures Told(START, SKIPPED) == Some(At(9, 1, 48, 9))
  {
    var s := Sending(Sending(Receiving(Sending(Receiving(Receiving(Over))))));
    OneLapBehindTold(s);
    assert Told(At(9, 1, 48, 9), Over) == Some(At(9, 1, 48, 9));
    hide Told;
    s := Turn(At(6, 0, 48, 3), At(7, 0, 48, 6), s);
    s := Turn(At(7, 0, 48, 6), At(8, 0, 48, 6), s);
    s := Turn(At(8, 0, 48, 6), At(8, 1, 16, 7), s);
    s := Turn(At(8, 1, 16, 7), At(9, 1, 16, 7), s);
    s := Turn(At(9, 1, 16, 7), At(9, 1, 32, 8), s);
    s := Turn(At(9, 1, 32, 8), At(9, 1, 48, 9), s);
  }

  lemma BehindTold()
    ensures Told(START, BEHIND) == Some(At(9, 1, 48, 6))
  {
    assert Told(At(9, 1, 48, 6), Over) == Some(At(9, 1, 48, 6));
    hide Told;
    var s := BEHIND;
    s := Turn(At(0, 0, 0, 0), At(1, 0, 0, 0), s);
    s := Turn(At(1, 0, 0, 0), At(2, 0, 0, 0), s);
    s := Turn(At(2, 0, 0, 0), At(3, 0, 0, 0), s);
    s := Turn(At(3, 0, 0, 0), At(3, 0, 16, 1), s);
    s := Turn(At(3, 0, 16, 1), At(3, 0, 32, 2), s);
    s := Turn(At(3, 0, 32, 2), At(3, 0, 48, 3), s);
    s := Turn(At(3, 0, 48, 3), At(4, 0, 48, 3), s);
    s := Turn(At(4, 0, 48, 3), At(4, 1, 16, 4), s);
    s := Turn(At(4, 1, 16, 4), At(5, 1, 16, 4), s);
    s := Turn(At(5, 1, 16, 4), At(5, 1, 32, 5), s);
    s := Turn(At(5, 1, 32, 5), At(6, 1, 32, 5), s);
    s := Turn(At(6, 1, 32, 5), At(6, 1, 48, 6), s);
    s := Turn(At(6, 1, 48, 6), At(7, 1, 48, 6), s);
    s := Turn(At(7, 1, 48, 6), At(8, 1, 48, 6), s);
    s := Turn(At(8, 1, 48, 6), At(9, 1, 48, 6), s);
  }

  const START: Track := At(0, 0, 0, 0)

  lemma TracksStart()
    ensures Initial(Beginning()) && WorldOk(Beginning())
    ensures Legal(Beginning(), OpSubscribe(1, 1))
    ensures Tracks(Step(Beginning(), OpSubscribe(1, 1)), START)
  {
    hide Intact, CurrentLap, PreviousLap, ReaderOk, Subsequence, MembersOk;
    var w := Beginning();
    InitialOk(w);
    StepKeeps(w, OpSubscribe(1, 1));
    assert Step(w, OpSubscribe(1, 1)).q.mem.readers == MemAt(0, START.reader).readers;
  }

  ghost function Plot(story: Story): seq<Op> {
    [OpSubscribe(1, 1)] + Ops(story)
  }

  /** Every story that can be told is a legal run from the beginning. */
  lemma Tell(story: Story)
    requires Told(START, story).Some?
    ensures Initial(Beginning()) && WorldOk(Beginning()) && LegalRun(Beginning(), Plot(story))
    ensures Tracks(Run(Beginning(), Plot(story)), Told(START, story).value)
  {
    hide Step, Legal, WorldOk;
    TracksStart();
    var w := Beginning();
    StepKeeps(w, OpSubscribe(1, 1));
    TracksStory(Step(w, OpSubscribe(1, 1)), START, story);
    assert Plot(story)[1..] == Ops(story);
  }

  lemma ToldTruth(w: World, t: Track)
    requires Tracks(w, t) && t.reader.offset == OffsetAt(t.sent) && t.next <= t.sent
    ensures Shaped(w.q) && Holds(w, 1) && Seen(w, 1) == t.next
    ensures ToldWrongly(w, 1, 2) <==> t.next < t.sent
  {
    hide WorldOk, Receive, DataAt, Intact, CurrentLap, PreviousLap, ReaderOk;
    WorldQuiet(w);
    ToldWronglyIsFalselyEmpty(w, 1, 2);
  }

  /** The subscriber, three messages behind and exactly one lap, is told "empty"; and one more send
      loses the three messages without clearing its flag. */
  lemma FalseEmptyAndSilentGap()
    ensures var w0, ops := Beginning(), Plot(OneLapBehind(Over));
            && Initial(w0) && WorldOk(w0) && LegalRun(w0, ops)
            && var w := Run(w0, ops);
               && WorldOk(w) && Holds(w, 1) && ToldWrongly(w, 1, 2)
               && Seen(w, 1) == 3 && |w.q.hist.log| == 6
               && Legal(w, SEND)
               && var w' := Step(w, SEND); WorldOk(w') && Holds(w', 1) && Seen(w', 1) == 6
  {
    hide Legal, WorldOk, Step, Run, LegalRun, Receive, DataAt, Quiet;
    OneLapBehindTold(Over);
    assert Told(At(6, 0, 48, 3), Over) == Some(At(6, 0, 48, 3));
    Tell(OneLapBehind(Over));
    var w := Run(Beginning(), Plot(OneLapBehind(Over)));
    ToldTruth(w, At(6, 0, 48, 3));
    TracksSend(w, At(6, 0, 48, 3));
  }

  /** After both stories the shared segment is the same, byte for byte, and so are the handles and the
      log. In one run the subscriber has received everything, in the other it is told "empty" with
      three messages unread. Nothing a process can look at tells the two apart. */
  lemma SegmentDoesNotTell()
    ensures var w0 := Beginning();
            && Initial(w0) && WorldOk(w0)
            && LegalRun(w0, Plot(SKIPPED)) && LegalRun(w0, Plot(BEHIND))
            && var a, b := Run(w0, Plot(SKIPPED)), Run(w0, Plot(BEHIND));
               && WorldOk(a) && WorldOk(b) && Holds(a, 1) && Holds(b, 1)
               && a.q.mem == b.q.mem && a.handles == b.handles && a.q.hist.log == b.q.hist.log
               && Seen(a, 1) == |a.q.hist.log| && !ToldWrongly(a, 1, 2)
               && Seen(b, 1) == |b.q.hist.log| - 3 && ToldWrongly(b, 1, 2)
  {
    hide Legal, WorldOk, Step, Run, LegalRun, Told, Receive, DataAt, Quiet;
    SkippedTold();
    BehindTold();
    Tell(SKIPPED);
    Tell(BEHIND);
    ToldTruth(Run(Beginning(), Plot(SKIPPED)), At(9, 1, 48, 9));
    ToldTruth(Run(Beginning(), Plot(BEHIND)), At(9, 1, 48, 6));
  }
}
