/** Who may send, who owns a slot, and what leaves the data alone. */
module Membership {
  import opened Ring
  import opened Delivery
  import opened World
  import opened Eviction

  // ---- only sends write ------------------------------------------------------------------------------

  /** Sends are the only operations that touch the data, the write pointer or the log, and a publisher
      taking over the only one that changes who may send. */
  lemma OnlySendsWrite(w: World, op: Op)
    requires WorldOk(w) && Legal(w, op) && !op.OpSend?
    ensures var q, q' := w.q, Step(w, op).q;
            && q'.mem.data == q.mem.data
            && q'.mem.cycle == q.mem.cycle && q'.mem.offset == q.mem.offset
            && q'.hist.log == q.hist.log && q'.hist.off == q.hist.off
            && (!op.OpPublish? ==> q'.mem.writeUid == q.mem.writeUid)
  {
    hide Intact, CurrentLap, PreviousLap, ReaderOk, Positioned, Subsequence;
  }

  // ---- publishers ------------------------------------------------------------------------------------

  /** Handle h is the one whose sends are accepted. */
  ghost predicate Publishes(w: World, h: nat) {
    && h < |w.handles|
    && forall j :: 0 <= j < |w.handles| ==> (w.handles[j].writeUid == w.q.mem.writeUid <==> j == h)
  }

  /** The sends of one handle are accepted and those of all others ignored. */
  ghost predicate OnlySender(w: World, h: nat)
    requires WorldOk(w)
  {
    forall j, m {:trigger OpSend(j, m)} :: Legal(w, OpSend(j, m)) ==>
      var w' := Step(w, OpSend(j, m));
      if j == h then w'.q.hist.log == w.q.hist.log + [m] && w'.handles == w.handles && w'.got == w.got
      else w' == w
  }

  lemma PublishesIsOnlySender(w: World, h: nat)
    requires WorldOk(w) && Publishes(w, h)
    ensures OnlySender(w, h)
  {
    hide Intact, CurrentLap, PreviousLap, ReaderOk, Positioned, Subsequence, Send;
    forall j, m {:trigger OpSend(j, m)} | Legal(w, OpSend(j, m))
      ensures var w' := Step(w, OpSend(j, m));
              if j == h then w'.q.hist.log == w.q.hist.log + [m] && w'.handles == w.handles
                             && w'.got == w.got
              else w' == w
    {
      SendForward(w.q, m);
    }
  }

  /** Nothing but another publisher ends this, no eviction in particular. */
  lemma StillPublishes(w: World, op: Op, h: nat)
    requires WorldOk(w) && Legal(w, op) && Publishes(w, h) && !op.OpPublish?
    ensures Publishes(Step(w, op), h)
  {
    hide Intact, CurrentLap, PreviousLap, ReaderOk, Positioned, Subsequence;
    if !op.OpSend? {
      OnlySendsWrite(w, op);
    }
    assert forall j :: 0 <= j < |w.handles| ==>
      Step(w, op).handles[j].writeUid == w.handles[j].writeUid;
  }

  lemma {:induction false} RunPublishes(w: World, ops: seq<Op>, h: nat)
    requires WorldOk(w) && LegalRun(w, ops) && Publishes(w, h)
    requires forall i :: 0 <= i < |ops| ==> !ops[i].OpPublish?
    ensures Publishes(Run(w, ops), h)
    decreases |ops|
  {
    hide WorldOk, Legal, Step, Publishes;
    if ops != [] {
      StepKeeps(w, ops[0]);
      StillPublishes(w, ops[0], h);
      RunPublishes(Step(w, ops[0]), ops[1..], h);
    }
  }

  lemma PublisherTakesOver(w: World, h: nat, uid: nat)
    requires WorldOk(w) && Legal(w, OpPublish(h, uid))
    requires forall j :: 0 <= j < |w.handles| && j != h ==> w.handles[j].writeUid != uid
    ensures Publishes(Step(w, OpPublish(h, uid)), h)
  {
    hide Intact, CurrentLap, PreviousLap, ReaderOk, Positioned, Subsequence;
  }

  /** There is one publisher at a time. From the moment a handle takes over, with an identifier that no
      other handle carries, until another does: every legal send of this handle appends exactly its
      message to the log, and a send of any other handle changes nothing at all. */
  lemma OnePublisher(w: World, h: nat, uid: nat, ops: seq<Op>)
    requires WorldOk(w) && Legal(w, OpPublish(h, uid))
    requires forall j :: 0 <= j < |w.handles| && j != h ==> w.handles[j].writeUid != uid
    requires WorldOk(Step(w, OpPublish(h, uid))) && LegalRun(Step(w, OpPublish(h, uid)), ops)
    requires forall i :: 0 <= i < |ops| ==> !ops[i].OpPublish?
    ensures var w' := Run(Step(w, OpPublish(h, uid)), ops);
            WorldOk(w') && OnlySender(w', h)
  {
    hide WorldOk, Step, Legal, Publishes, OnlySender;
    var w1 := Step(w, OpPublish(h, uid));
    PublisherTakesOver(w, h, uid);
    RunPublishes(w1, ops, h);
    RunKeeps(w1, ops);
    PublishesIsOnlySender(Run(w1, ops), h);
  }

  // ---- vacant slots ------------------------------------------------------------------------------------

  /** A new publisher starts without readers: no slot is valid any more and no handle owns one. */
  lemma PublishVacates(w: World, h: nat, uid: nat)
    requires WorldOk(w) && Legal(w, OpPublish(h, uid))
    ensures var w' := Step(w, OpPublish(h, uid));
            && Shaped(w'.q) && w'.q.mem.numReaders == 0
            && (forall s :: 0 <= s < NUM_READERS ==> !w'.q.mem.readers[s].valid)
            && (forall j :: 0 <= j < |w'.handles| ==> !Owns(w'.q, w'.handles[j]))
  {
    hide Intact, CurrentLap, PreviousLap, ReaderOk, Positioned, Subsequence;
  }

  /** Slot s is the only valid one and handle h the only owner, of that slot. */
  ghost predicate OnlyOwner(w: World, h: nat) {
    && Shaped(w.q) && h < |w.handles| && Owns(w.q, w.handles[h])
    && w.q.mem.numReaders == 1
    && (forall s :: 0 <= s < NUM_READERS ==> (w.q.mem.readers[s].valid <==> s == w.handles[h].id))
    && (forall j :: 0 <= j < |w.handles| && j != h ==> !Owns(w.q, w.handles[j]))
  }

  /** A subscription that finds all slots taken leaves the newcomer alone with a slot. */
  lemma SubscribeEvicts(w: World, h: nat, uid: nat)
    requires WorldOk(w) && Legal(w, OpSubscribe(h, uid)) && w.q.mem.numReaders == NUM_READERS
    ensures OnlyOwner(Step(w, OpSubscribe(h, uid)), h)
  {
    hide Intact, CurrentLap, PreviousLap, ReaderOk, Positioned, Subsequence;
  }

  /** So does a receive or a poll that has to register again. */
  lemma ReceiveEvicts(w: World, op: Op)
    requires WorldOk(w) && Legal(w, op) && Evicts(w, op)
    ensures OnlyOwner(Step(w, op), op.h)
  {
    hide Intact, CurrentLap, PreviousLap, ReaderOk, Positioned, Subsequence;
  }

  // ---- capacity ------------------------------------------------------------------------------------------

  /** Different handles, not among those given, subscribe one after the other. */
  predicate Newcomers(hs: seq<nat>, ops: seq<Op>) {
    && (forall i :: 0 <= i < |ops| ==> ops[i].OpSubscribe? && ops[i].h !in hs)
    && forall i, j :: 0 <= i < j < |ops| ==> ops[i].h != ops[j].h
  }

  /** The handles hs own one valid slot each, in their order, and there are no other readers. */
  ghost predicate Seated(w: World, hs: seq<nat>) {
    && Shaped(w.q) && w.q.mem.numReaders == |hs| <= NUM_READERS
    && forall i :: 0 <= i < |hs| ==>
         && hs[i] < |w.handles| && w.handles[hs[i]].id == i
         && Owns(w.q, w.handles[hs[i]]) && w.q.mem.readers[i].valid
  }

  lemma SeatNext(w: World, hs: seq<nat>, h: nat, uid: nat)
    requires WorldOk(w) && Legal(w, OpSubscribe(h, uid)) && Seated(w, hs) && h !in hs
    requires |hs| < NUM_READERS
    ensures Seated(Step(w, OpSubscribe(h, uid)), hs + [h])
  {
    hide Intact, CurrentLap, PreviousLap, ReaderOk, Positioned, Subsequence;
  }

  lemma {:induction false} SeatAll(w: World, hs: seq<nat>, ops: seq<Op>) returns (all: seq<nat>)
    requires WorldOk(w) && LegalRun(w, ops) && Seated(w, hs) && Newcomers(hs, ops)
    requires |hs| + |ops| <= NUM_READERS
    ensures |all| == |hs| + |ops| && all[..|hs|] == hs
    ensures forall i :: 0 <= i < |ops| ==> all[|hs| + i] == ops[i].h
    ensures Seated(Run(w, ops), all)
    decreases |ops|
  {
    hide WorldOk, Legal, Step, Seated;
    all := hs;
    if ops != [] {
      StepKeeps(w, ops[0]);
      SeatNext(w, hs, ops[0].h, ops[0].uid);
      all := SeatAll(Step(w, ops[0]), hs + [ops[0].h], ops[1..]);
      assert all[..|hs|] == all[..|hs| + 1][..|hs|];
      forall i | 0 <= i < |ops| ensures all[|hs| + i] == ops[i].h {
        if i != 0 {
          assert all[|hs| + 1 + (i - 1)] == ops[1..][i - 1].h;
        } else {
          assert all[..|hs| + 1][|hs|] == ops[0].h;
        }
      }
    }
  }

  /** 25 subscribers fit: each of 25 different handles that subscribe on an unused segment then owns a
      valid slot of its own. */
  lemma TwentyFiveFit(w: World, ops: seq<Op>)
    requires Initial(w) && WorldOk(w) && LegalRun(w, ops) && Newcomers([], ops) && |ops| == 25
    ensures var w' := Run(w, ops);
            && Shaped(w'.q) && w'.q.mem.numReaders == 25
            && forall i :: 0 <= i < 25 ==>
                 && ops[i].h < |w'.handles| && w'.handles[ops[i].h].id == i
                 && Owns(w'.q, w'.handles[ops[i].h]) && w'.q.mem.readers[i].valid
  {
    hide WorldOk, LegalRun, Run, Legal, Step, Owns;
    var none: seq<nat> := [];
    var all := SeatAll(w, none, ops);
    forall i | 0 <= i < 25 ensures all[i] == ops[i].h {
      assert all[|none| + i] == ops[i].h;
    }
  }

  /** One more and everyone else is out: the 26th is alone with a slot. */
  lemma TwentySixthEvicts(w: World, ops: seq<Op>, h: nat, uid: nat)
    requires Initial(w) && WorldOk(w) && LegalRun(w, ops) && Newcomers([], ops) && |ops| == 25
    requires WorldOk(Run(w, ops)) && Legal(Run(w, ops), OpSubscribe(h, uid))
    ensures OnlyOwner(Step(Run(w, ops), OpSubscribe(h, uid)), h)
  {
    hide WorldOk, LegalRun, Run, Step, Legal, OnlyOwner;
    TwentyFiveFit(w, ops);
    SubscribeEvicts(Run(w, ops), h, uid);
  }
}
