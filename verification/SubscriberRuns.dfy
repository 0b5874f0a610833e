/** What holds in every run of the fan-out: how updates are numbered, which of them are older than
    the snapshot, and what the clients end up with. */
module SubscriberRuns {
  import opened Wrappers
  import opened Int64
  import opened Levels
  import opened LadderSpec
  import opened BookSpec
  import opened Conservation
  import opened Replica
  import opened ClientLog
  import opened Subscribers

  /** `trace` is a run: it starts in an initial state and each state follows by an enabled step. */
  ghost predicate IsRun(ps: Params, trace: seq<State>, steps: seq<Step>)
    requires ps.c.tick > 0
  {
    && |trace| == |steps| + 1 && Initial(ps, trace[0])
    && forall i :: 0 <= i < |steps| ==> Enabled(ps, trace[i], steps[i]) && trace[i + 1] == Next(ps, trace[i], steps[i])
  }

  lemma RunExtends(ps: Params, trace: seq<State>, steps: seq<Step>, st: Step)
    requires ps.c.tick > 0 && IsRun(ps, trace, steps) && Enabled(ps, trace[|steps|], st)
    ensures IsRun(ps, trace + [Next(ps, trace[|steps|], st)], steps + [st])
  {
    var trace', steps' := trace + [Next(ps, trace[|steps|], st)], steps + [st];
    forall i | 0 <= i < |steps'|
      ensures Enabled(ps, trace'[i], steps'[i]) && trace'[i + 1] == Next(ps, trace'[i], steps'[i])
    {
      if i < |steps| {
        assert trace'[i] == trace[i] && trace'[i + 1] == trace[i + 1] && steps'[i] == steps[i];
      }
    }
  }

  /** A run with one more step. */
  lemma Then(ps: Params, before: seq<State>, did: seq<Step>, st: Step) returns (trace: seq<State>, steps: seq<Step>)
    requires ps.c.tick > 0 && IsRun(ps, before, did) && Enabled(ps, before[|did|], st)
    ensures IsRun(ps, trace, steps) && steps == did + [st]
    ensures trace == before + [Next(ps, before[|did|], st)]
  {
    RunExtends(ps, before, did, st);
    trace, steps := before + [Next(ps, before[|did|], st)], did + [st];
  }

  lemma ThenTwice(ps: Params, before: seq<State>, did: seq<Step>, a: Step, b: Step)
    returns (trace: seq<State>, steps: seq<Step>)
    requires ps.c.tick > 0 && IsRun(ps, before, did) && Enabled(ps, before[|did|], a)
    requires Enabled(ps, Next(ps, before[|did|], a), b)
    ensures IsRun(ps, trace, steps) && steps == did + [a, b]
    ensures trace == before + [Next(ps, before[|did|], a), Next(ps, Next(ps, before[|did|], a), b)]
  {
    trace, steps := Then(ps, before, did, a);
    trace, steps := Then(ps, trace, steps, b);
  }

  lemma {:induction false} RunKeepsInv(ps: Params, trace: seq<State>, steps: seq<Step>, n: nat)
    requires ps.c.Valid() && IsRun(ps, trace, steps) && n < |trace|
    ensures Inv(ps, trace[n])
  {
    if n == 0 {
      InitialInv(ps, trace[0]);
    } else {
      RunKeepsInv(ps, trace, steps, n - 1);
      StepKeepsInv(ps, trace[n - 1], steps[n - 1]);
    }
  }

  // ---------------------------------------------------------------- numbers

  /** All that a client ever got and that is newer than its snapshot came after the lock section. */
  lemma FreshSince(s: State, id: ClientId)
    requires IsKnown(s, id) && LogOk(s, id)
    ensures Fresh(Updates(s.logs[id]), s.subs[id].snapSeq) == Fresh(Sent(s, id), s.subs[id].snapSeq)
  {
    var sub, log := s.subs[id], s.logs[id];
    assert log == log[..sub.start] + log[sub.start..];
    UpdatesConcat(log[..sub.start], log[sub.start..]);
    FreshConcat(Updates(log[..sub.start]), Sent(s, id), sub.snapSeq);
    NothingFresh(Updates(log[..sub.start]), sub.snapSeq);
  }

  lemma DeliveredIsContiguous(s: State, id: ClientId)
    requires StreamOk(s) && IsKnown(s, id) && DeliveryOk(s, id)
    ensures var sub := s.subs[id];
            var got := Fresh(Sent(s, id), sub.snapSeq);
            && (forall i :: 0 <= i < |got| ==>
                  got[i].seqNo == sub.snapSeq + 1 + i && (got[i].bids != [] || got[i].asks != []))
            && (id in s.open && id in s.subscribed ==> sub.snapSeq + |got| + |Due(s, id)| == |s.history|)
  {
    var sub := s.subs[id];
    var got, since := Fresh(Sent(s, id), sub.snapSeq), s.history[sub.snapSeq..];
    forall i | 0 <= i < |got|
      ensures got[i].seqNo == sub.snapSeq + 1 + i && (got[i].bids != [] || got[i].asks != [])
    {
      assert got[i] == since[i] && since[i] == s.history[sub.snapSeq + i];
    }
    if id in s.open && id in s.subscribed {
      assert |got + Due(s, id)| == |since|;
    }
  }

  /** In every run and for every subscription, the updates on the socket with a later stamp than the
      snapshot say something and carry the numbers `snapSeq + 1`, `snapSeq + 2`, ... without gap or repetition; while
      the subscription lasts none is missing but the one in flight. */
  lemma ContiguousDelivery(ps: Params, trace: seq<State>, steps: seq<Step>, n: nat, id: ClientId)
    requires ps.c.Valid() && IsRun(ps, trace, steps) && n < |trace| && id in trace[n].subs
    ensures id in trace[n].logs
    ensures var s := trace[n];
            var n := s.subs[id].snapSeq;
            var got := Fresh(Updates(s.logs[id]), n);
            && (forall i :: 0 <= i < |got| ==> got[i].seqNo == n + 1 + i && (got[i].bids != [] || got[i].asks != []))
            && (id in s.open && id in s.subscribed ==> n + |got| + |Due(s, id)| == |s.history|)
  {
    RunKeepsInv(ps, trace, steps, n);
    assert ClientOk(ps, trace[n], id);
    FreshSince(trace[n], id);
    DeliveredIsContiguous(trace[n], id);
  }

  // ---------------------------------------------------------------- updates older than the snapshot

  /** Step `m` is the subscription that `id` has after `n` steps. */
  predicate IsLatest(steps: seq<Step>, m: nat, n: nat, id: ClientId) {
    m < n <= |steps| && steps[m] == Subscribe(id) && forall j :: m < j < n ==> steps[j] != Subscribe(id)
  }

  lemma OtherStepKeeps(ps: Params, s: State, st: Step, id: ClientId)
    requires ps.c.tick > 0 && Enabled(ps, s, st) && st != Subscribe(id) && id in s.subs
    ensures id in Next(ps, s, st).subs && Next(ps, s, st).subs[id].midFlight == s.subs[id].midFlight
  {
  }

  lemma {:induction false} MidFlightIsAwaits(ps: Params, trace: seq<State>, steps: seq<Step>, m: nat, n: nat, id: ClientId)
    requires ps.c.tick > 0 && IsRun(ps, trace, steps) && IsLatest(steps, m, n, id)
    ensures id in trace[n].subs && trace[n].subs[id].midFlight == Awaits(trace[m], id)
  {
    if n == m + 1 {
      assert trace[n] == Next(ps, trace[m], steps[m]);
    } else {
      MidFlightIsAwaits(ps, trace, steps, m, n - 1, id);
      OtherStepKeeps(ps, trace[n - 1], steps[n - 1], id);
    }
  }

  /** "Every update sent after the subscription's lock section is newer than its snapshot": in every
      run this is false of a subscription exactly when an update was still to be sent to the client
      as it subscribed, and it has got something since. That update then comes first, with the
      snapshot's own number, and it alone is not newer. */
  lemma StaleExactly(ps: Params, trace: seq<State>, steps: seq<Step>, m: nat, n: nat, id: ClientId)
    requires ps.c.Valid() && IsRun(ps, trace, steps) && IsLatest(steps, m, n, id)
    ensures IsKnown(trace[n], id)
    ensures var s := trace[n];
            var sent, snapSeq := Sent(s, id), s.subs[id].snapSeq;
            && (sent != Fresh(sent, snapSeq) <==> Awaits(trace[m], id) && sent != [])
            && (sent != Fresh(sent, snapSeq) ==> sent[0].seqNo == snapSeq && sent[1..] == Fresh(sent, snapSeq))
  {
    RunKeepsInv(ps, trace, steps, n);
    MidFlightIsAwaits(ps, trace, steps, m, n, id);
    assert ClientOk(ps, trace[n], id);
  }

  // ---------------------------------------------------------------- who gets nothing any more

  /** A client that is not subscribed comes to wait for nothing, and gets at most what it waits for. */
  lemma UnsubscribedStep(ps: Params, s: State, st: Step, id: ClientId)
    requires ps.c.tick > 0 && Enabled(ps, s, st) && st != Subscribe(id) && id in s.logs && id !in s.subscribed
    ensures var s' := Next(ps, s, st);
            && id in s'.logs && id !in s'.subscribed
            && (Awaits(s', id) ==> Awaits(s, id) && s'.flight.value.update == s.flight.value.update
                                   && Updates(s'.logs[id]) == Updates(s.logs[id]))
            && (Updates(s'.logs[id]) == Updates(s.logs[id])
                || (Awaits(s, id) && Updates(s'.logs[id]) == Updates(s.logs[id]) + [s.flight.value.update]))
  {
    match st
    case Send(_) => LogAppend(s.logs[id], UpdateMsg(s.flight.value.update));
    case SendSnapshot(x) => LogAppend(s.logs[id], SnapshotMsg(s.subs[x].snapSeq, s.subs[x].base));
    case _ =>
  }

  /** After an unsubscription and until the next subscription a client gets no update but the one that
      was on its way to it as it unsubscribed. */
  lemma {:induction false} NothingAfterUnsubscribe(ps: Params, trace: seq<State>, steps: seq<Step>, m: nat, n: nat, id: ClientId)
    requires ps.c.tick > 0 && IsRun(ps, trace, steps) && m < n <= |steps| && steps[m] == Unsubscribe(id)
    requires forall j :: m < j < n ==> steps[j] != Subscribe(id)
    ensures id in trace[m].logs && id in trace[n].logs && id !in trace[n].subscribed
    ensures var before, after := Updates(trace[m].logs[id]), Updates(trace[n].logs[id]);
            && (after == before || (Awaits(trace[m], id) && after == before + [trace[m].flight.value.update]))
            && (Awaits(trace[n], id) ==> Awaits(trace[m], id) && after == before
                                         && trace[n].flight.value.update == trace[m].flight.value.update)
  {
    if n == m + 1 {
      assert trace[n] == Next(ps, trace[m], steps[m]);
    } else {
      NothingAfterUnsubscribe(ps, trace, steps, m, n - 1, id);
      UnsubscribedStep(ps, trace[n - 1], steps[n - 1], id);
    }
  }

  lemma ClosedStep(ps: Params, s: State, st: Step, id: ClientId)
    requires ps.c.tick > 0 && Enabled(ps, s, st) && id in s.logs && (id !in s.open || st == Close(id) || st == Overflow(id))
    ensures var s' := Next(ps, s, st); id in s'.logs && id !in s'.open && s'.logs[id] == s.logs[id]
  {
  }

  /** Once its socket is closed, by either side, a client gets nothing at all. */
  lemma {:induction false} NothingAfterClose(ps: Params, trace: seq<State>, steps: seq<Step>, m: nat, n: nat, id: ClientId)
    requires ps.c.tick > 0 && IsRun(ps, trace, steps) && m < n <= |steps| && id in trace[m].logs
    requires steps[m] == Close(id) || steps[m] == Overflow(id)
    ensures id in trace[n].logs && id !in trace[n].open && trace[n].logs[id] == trace[m].logs[id]
  {
    if n == m + 1 {
      ClosedStep(ps, trace[m], steps[m], id);
    } else {
      NothingAfterClose(ps, trace, steps, m, n - 1, id);
      ClosedStep(ps, trace[n - 1], steps[n - 1], id);
    }
  }

  // ---------------------------------------------------------------- clients

  /** Nothing is on its way to a subscriber: no batch to broadcast, no update and no snapshot to send. */
  predicate IsQuiescent(s: State, id: ClientId) {
    && id in s.open && id in s.subscribed && id in s.subs
    && s.pending.None? && !Awaits(s, id) && s.subs[id].snapSent
  }

  /** In every run, at every quiescent point, a live subscriber that holds early updates back has
      every level of the server's book with its quantity, and has the server's book if no window
      moved. */
  lemma SubscribersConverge(ps: Params, trace: seq<State>, steps: seq<Step>, n: nat, id: ClientId)
    requires ps.c.Valid() && IsRun(ps, trace, steps) && n < |trace| && IsQuiescent(trace[n], id)
    ensures id in trace[n].logs && LatestSnapshot(trace[n].logs[id]).Some?
    ensures var s := trace[n];
            && AgreesWith(Listen(s.logs[id]).book, s.book)
            && (!s.subs[id].moved ==> Equals(Listen(s.logs[id]).book, s.book))
  {
    RunKeepsInv(ps, trace, steps, n);
    var s := trace[n];
    assert ClientOk(ps, s, id);
    var sub := s.subs[id];
    var got := Fresh(Sent(s, id), sub.snapSeq);
    assert got + Due(s, id) == got;
    assert got == s.history[sub.snapSeq..];
    FreshSince(s, id);
    ListenIsReplay(s.logs[id]);
  }

  lemma AgreesBySide(m: Sides, b: Book)
    ensures AgreesWith(m, b) <==>
            forall isBid, p :: p in b.Side(isBid).levels ==> p in m.Side(isBid) && m.Side(isBid)[p] == b.Side(isBid).levels[p]
  {
    assert AgreesWith(m, b) <==>
           Agrees(m.Side(true), b.Side(true).levels) && Agrees(m.Side(false), b.Side(false).levels);
  }

  /** A client that holds nothing back is right exactly when at each price that it missed the
      snapshot has the book's level already. */
  lemma UnheldConvergesIff(ps: Params, trace: seq<State>, steps: seq<Step>, n: nat, id: ClientId)
    requires ps.c.Valid() && IsRun(ps, trace, steps) && n < |trace| && IsQuiescent(trace[n], id)
    ensures id in trace[n].logs && LatestSnapshot(trace[n].logs[id]).Some?
    ensures var b, log := trace[n].book, trace[n].logs[id];
            var base := LatestSnapshot(log).value.sides;
            AgreesWith(ListenUnheld(log).book, b) <==>
            forall isBid, p :: p in b.Side(isBid).levels && IsMissed(log, isBid, p) ==>
              p in base.Side(isBid) && base.Side(isBid)[p] == b.Side(isBid).levels[p]
  {
    SubscribersConverge(ps, trace, steps, n, id);
    var b, log := trace[n].book, trace[n].logs[id];
    var base := LatestSnapshot(log).value.sides;
    AgreesBySide(Listen(log).book, b);
    AgreesBySide(ListenUnheld(log).book, b);
    forall isBid, p | p in b.Side(isBid).levels
      ensures (p in ListenUnheld(log).book.Side(isBid)
               && ListenUnheld(log).book.Side(isBid)[p] == b.Side(isBid).levels[p]) <==>
              (IsMissed(log, isBid, p) ==>
                p in base.Side(isBid) && base.Side(isBid)[p] == b.Side(isBid).levels[p])
    {
      UnheldExactly(log, isBid, p);
    }
  }

  // ---------------------------------------------------------------- a whole broadcast

  /** All that waits for the update in flight has been dealt with: who is in `backlog` is closed, the
      others have got it. */
  ghost function AllSent(s: State, backlog: set<ClientId>): State
    requires s.flight.Some?
  {
    var u, w := s.flight.value.update, s.flight.value.waiting;
    s.(flight := Some(Flight(u, {})), open := s.open - w * backlog,
       logs := map id | id in s.logs ::
         if id in w && id !in backlog && id in s.open then s.logs[id] + [UpdateMsg(u)] else s.logs[id])
  }

  function SendOrClose(id: ClientId, backlog: set<ClientId>): Step {
    if id in backlog then Overflow(id) else Send(id)
  }

  lemma OneSent(ps: Params, s: State, backlog: set<ClientId>, id: ClientId)
    requires ps.c.tick > 0 && Awaits(s, id)
    ensures AllSent(Next(ps, s, SendOrClose(id, backlog)), backlog) == AllSent(s, backlog)
  {
    var s', w := Next(ps, s, SendOrClose(id, backlog)), s.flight.value.waiting;
    assert s'.flight.value.waiting == w - {id};
    assert s'.open - (w - {id}) * backlog == s.open - w * backlog;
    SameMap(AllSent(s', backlog).logs, AllSent(s, backlog).logs);
  }

  lemma NoneWaits(s: State, backlog: set<ClientId>)
    requires s.flight.Some? && s.flight.value.waiting == {}
    ensures AllSent(s, backlog) == s
  {
    assert s.open - {} * backlog == s.open;
    SameMap(AllSent(s, backlog).logs, s.logs);
  }

  /** The loop over the targets, in any order. */
  lemma {:induction false} SendAll(ps: Params, before: seq<State>, did: seq<Step>, backlog: set<ClientId>)
    returns (trace: seq<State>, steps: seq<Step>)
    requires ps.c.tick > 0 && IsRun(ps, before, did) && before[|did|].flight.Some?
    ensures IsRun(ps, trace, steps) && before <= trace && did <= steps
    ensures trace[|steps|] == AllSent(before[|did|], backlog)
    decreases |before[|did|].flight.value.waiting|
  {
    var s := before[|did|];
    if s.flight.value.waiting == {} {
      NoneWaits(s, backlog);
      trace, steps := before, did;
    } else {
      var id := Pick(s.flight.value.waiting);
      OneSent(ps, s, backlog, id);
      trace, steps := Then(ps, before, did, SendOrClose(id, backlog));
      trace, steps := SendAll(ps, trace, steps, backlog);
    }
  }

  /** The erasure of closed clients, in any order. */
  lemma {:induction false} EraseAll(ps: Params, before: seq<State>, did: seq<Step>, closed: set<ClientId>)
    returns (trace: seq<State>, steps: seq<Step>)
    requires ps.c.tick > 0 && IsRun(ps, before, did) && closed !! before[|did|].open
    ensures IsRun(ps, trace, steps) && before <= trace && did <= steps
    ensures trace[|steps|] == before[|did|].(subscribed := before[|did|].subscribed - closed)
    decreases closed
  {
    var s := before[|did|];
    if closed == {} {
      assert s.subscribed - closed == s.subscribed;
      trace, steps := before, did;
    } else {
      var id := Pick(closed);
      trace, steps := Then(ps, before, did, Erase(id));
      assert s.subscribed - {id} - (closed - {id}) == s.subscribed - closed;
      trace, steps := EraseAll(ps, trace, steps, closed - {id});
    }
  }

  /** What `broadcastUpdate` makes of a state: a batch without broadcast is forgotten; any other gets
      the next number and goes to all targets, except that those with too much still unsent are
      closed and no longer subscribed. */
  ghost function Broadcasted(ps: Params, s: State, targets: set<ClientId>, backlog: set<ClientId>): State
    requires s.pending.Some?
  {
    var u := Message(ps, s.pending.value, |s.history| + 1);
    if IsEmpty(u) then s.(pending := None)
    else
      var t := s.(pending := None, history := s.history + [u], flight := Some(Flight(u, targets)));
      AllSent(t, backlog).(flight := None, subscribed := s.subscribed - targets * backlog)
  }

  /** ... so each target with an open socket gets the update once, unless it is closed instead; closed
      targets are neither open nor subscribed any more, and the next batch can come. */
  lemma BroadcastedTo(ps: Params, s: State, targets: set<ClientId>, backlog: set<ClientId>)
    requires s.pending.Some? && !IsEmpty(Message(ps, s.pending.value, |s.history| + 1))
    ensures var s', u := Broadcasted(ps, s, targets, backlog), Message(ps, s.pending.value, |s.history| + 1);
            && s'.history == s.history + [u] && s'.pending.None? && s'.flight.None? && s'.book == s.book
            && s'.logs.Keys == s.logs.Keys
            && (forall id :: id in s.logs && id in targets - backlog && id in s.open ==>
                  s'.logs[id] == s.logs[id] + [UpdateMsg(u)])
            && (forall id :: id in s.logs && !(id in targets - backlog && id in s.open) ==> s'.logs[id] == s.logs[id])
            && (forall id :: id in s'.open <==> id in s.open && !(id in targets && id in backlog))
            && (forall id :: id in s'.subscribed <==> id in s.subscribed && !(id in targets && id in backlog))
  {
  }

  /** A whole broadcast is a run of protocol steps. */
  lemma BroadcastRuns(ps: Params, before: seq<State>, did: seq<Step>, targets: set<ClientId>, backlog: set<ClientId>)
    returns (trace: seq<State>, steps: seq<Step>)
    requires ps.c.tick > 0 && IsRun(ps, before, did) && Enabled(ps, before[|did|], Collect(targets))
    ensures IsRun(ps, trace, steps) && before <= trace && did <= steps
    ensures trace[|steps|] == Broadcasted(ps, before[|did|], targets, backlog)
  {
    trace, steps := Then(ps, before, did, Collect(targets));
    if !IsEmpty(Message(ps, before[|did|].pending.value, |before[|did|].history| + 1)) {
      trace, steps := SendAll(ps, trace, steps, backlog);
      trace, steps := EraseAll(ps, trace, steps, targets * backlog);
      trace, steps := Then(ps, trace, steps, Finish);
    }
  }

  // ---------------------------------------------------------------- two runs

  /** A book with no levels, in step with the exchange. */
  const BLANK := Book(EMPTY, EMPTY, 0, true)

  /** The one update of both runs: a bid where there was nothing. */
  function FirstBid(p: int, q: int): BookUpdate { BookUpdate(1, [Level(p, q)], []) }

  lemma FirstBidIsBroadcast(ps: Params, p: int, q: int)
    requires ps.c.Valid() && ps.c.PriceOk(p) && 0 < q <= MAX
    ensures var es := [Edit(true, p, q)];
            && EditsOk(ps.c, es)
            && Message(ps, Pending(BLANK, es), 1) == FirstBid(p, q)
            && ApplyAll(ps.c, BLANK, es).bids.levels == map[p := q] && !BatchMoves(ps.c, BLANK, es)
  {
    var es := [Edit(true, p, q)];
    assert es[..0] == [];
    assert ApplyAll(ps.c, BLANK, es[..0]) == BLANK && AllDeltas(ps, Genuine, BLANK, es[..0]) == [];
    assert AllDeltas(ps, Genuine, BLANK, es) == [] + EditDeltas(ps, Genuine, BLANK, es[0]);
    ChangeBroadcasts(ps, true, EMPTY, p, q, true);
    ChangeBroadcasts(ps, true, EMPTY, p, q, false);
    assert ApplyAll(ps.c, BLANK, es) == Apply(ps.c, BLANK, es[0]);
  }

  /** A client subscribes to the blank book, and has its snapshot or not yet. */
  lemma BlankSubscription(ps: Params, id: ClientId, hasSnapshot: bool) returns (trace: seq<State>, steps: seq<Step>)
    requires ps.c.Valid()
    ensures IsRun(ps, trace, steps)
    ensures steps == [Connect(id), Subscribe(id)] + if hasSnapshot then [SendSnapshot(id)] else []
    ensures trace[|steps|] == State(BLANK, None, [], None, {id}, {id},
                                    map[id := Sub(0, NO_SIDES, 0, hasSnapshot, false, false)],
                                    map[id := if hasSnapshot then [SnapshotMsg(0, NO_SIDES)] else []])
  {
    var s0 := State(BLANK, None, [], None, {}, {}, map[], map[]);
    trace, steps := [s0], [];
    trace, steps := Then(ps, trace, steps, Connect(id));
    trace, steps := Then(ps, trace, steps, Subscribe(id));
    assert trace[2].subs == map[id := Sub(0, NO_SIDES, 0, false, false, false)];
    if hasSnapshot {
      trace, steps := Then(ps, trace, steps, SendSnapshot(id));
      assert trace[3].logs[id] == [SnapshotMsg(0, NO_SIDES)];
    }
  }

  /** ... and then the first bid comes and is to be broadcast to it. */
  lemma FirstBidInFlight(ps: Params, id: ClientId, p: int, q: int, hasSnapshot: bool)
    returns (trace: seq<State>, steps: seq<Step>)
    requires ps.c.Valid() && ps.c.PriceOk(p) && 0 < q <= MAX
    ensures IsRun(ps, trace, steps)
    ensures steps == [Connect(id), Subscribe(id)] + (if hasSnapshot then [SendSnapshot(id)] else [])
                     + [Batch([Edit(true, p, q)]), Collect({id})]
    ensures trace[|steps|] == State(ApplyAll(ps.c, BLANK, [Edit(true, p, q)]), None, [FirstBid(p, q)],
                                    Some(Flight(FirstBid(p, q), {id})), {id}, {id},
                                    map[id := Sub(0, NO_SIDES, 0, hasSnapshot, false, false)],
                                    map[id := if hasSnapshot then [SnapshotMsg(0, NO_SIDES)] else []])
  {
    var es := [Edit(true, p, q)];
    FirstBidIsBroadcast(ps, p, q);
    trace, steps := BlankSubscription(ps, id, hasSnapshot);
    var s := trace[|steps|];
    trace, steps := Then(ps, trace, steps, Batch(es));
    assert trace[|steps|] == ApplyBatch(ps, s, es);
    trace, steps := Then(ps, trace, steps, Collect({id}));
  }

  /** Whoever subscribes while an update is still to be sent to it gets that update afterwards, with
      the number of the new snapshot. */
  lemma ResubscribeInFlight(ps: Params, s: State, id: ClientId)
    requires ps.c.tick > 0 && StreamOk(s) && id in s.open && IsIdle(s, id) && Awaits(s, id)
    ensures Awaits(Next(ps, s, Subscribe(id)), id)
    ensures var s', u := Next(ps, Next(ps, s, Subscribe(id)), Send(id)), s.flight.value.update;
            IsKnown(s', id) && Sent(s', id) == [u] && s'.subs[id].snapSeq == u.seqNo
  {
    var s1, m := Next(ps, s, Subscribe(id)), UpdateMsg(s.flight.value.update);
    assert s1.logs == s.logs && s1.subs[id].start == |s.logs[id]| && s1.flight == s.flight;
    LogGrows(s.logs[id], |s.logs[id]|, m);
    assert s.logs[id][|s.logs[id]|..] == [];
  }

  lemma StreamOkInRun(ps: Params, trace: seq<State>, steps: seq<Step>)
    requires ps.c.Valid() && IsRun(ps, trace, steps)
    ensures StreamOk(trace[|steps|])
  {
    RunKeepsInv(ps, trace, steps, |steps|);
  }

  lemma Resubscribe(ps: Params, before: seq<State>, did: seq<Step>, id: ClientId)
    returns (trace: seq<State>, steps: seq<Step>)
    requires ps.c.Valid() && IsRun(ps, before, did)
    requires id in before[|did|].open && IsIdle(before[|did|], id) && Awaits(before[|did|], id)
    ensures IsRun(ps, trace, steps) && steps == did + [Subscribe(id), Send(id)] && trace[|did|] == before[|did|]
    ensures var s, u := trace[|steps|], before[|did|].flight.value.update;
            IsKnown(s, id) && Sent(s, id) == [u] && s.subs[id].snapSeq == u.seqNo
  {
    StreamOkInRun(ps, before, did);
    ResubscribeInFlight(ps, before[|did|], id);
    trace, steps := ThenTwice(ps, before, did, Subscribe(id), Send(id));
  }

  /** The comment at the lock section promises newer updates only. Here is a run that breaks the
      promise: the client subscribes a second time, with or without unsubscribing before, while the
      first bid is still to be sent to it. */
  lemma ResubscribeRun(ps: Params, id: ClientId, p: int, q: int, unsubscribes: bool)
    returns (trace: seq<State>, steps: seq<Step>, m: nat)
    requires ps.c.Valid() && ps.c.PriceOk(p) && 0 < q <= MAX
    ensures IsRun(ps, trace, steps)
    ensures steps == [Connect(id), Subscribe(id), SendSnapshot(id), Batch([Edit(true, p, q)]), Collect({id})]
                     + (if unsubscribes then [Unsubscribe(id)] else []) + [Subscribe(id), Send(id)]
    ensures IsLatest(steps, m, |steps|, id) && Awaits(trace[m], id)
    ensures var s := trace[|steps|];
            IsKnown(s, id) && Sent(s, id) == [FirstBid(p, q)] && s.subs[id].snapSeq == FirstBid(p, q).seqNo
  {
    trace, steps := FirstBidInFlight(ps, id, p, q, true);
    if unsubscribes {
      trace, steps := Then(ps, trace, steps, Unsubscribe(id));
    }
    m := |steps|;
    trace, steps := Resubscribe(ps, trace, steps, id);
  }

  /** A client that holds nothing back and gets the first bid before its snapshot never has it. */
  lemma EarlyUpdateRun(ps: Params, id: ClientId, p: int, q: int) returns (trace: seq<State>, steps: seq<Step>)
    requires ps.c.Valid() && ps.c.PriceOk(p) && 0 < q <= MAX
    ensures IsRun(ps, trace, steps)
    ensures steps == [Connect(id), Subscribe(id), Batch([Edit(true, p, q)]), Collect({id}), Send(id), SendSnapshot(id)]
    ensures var s := trace[|steps|];
            && IsQuiescent(s, id) && s.book.bids.levels == map[p := q]
            && s.logs == map[id := [UpdateMsg(FirstBid(p, q)), SnapshotMsg(0, NO_SIDES)]]
            && !AgreesWith(ListenUnheld(s.logs[id]).book, s.book)
  {
    trace, steps := FirstBidInFlight(ps, id, p, q, false);
    FirstBidIsBroadcast(ps, p, q);
    trace, steps := Then(ps, trace, steps, Send(id));
    trace, steps := Then(ps, trace, steps, SendSnapshot(id));
    var log := trace[|steps|].logs[id];
    assert log == [UpdateMsg(FirstBid(p, q)), SnapshotMsg(0, NO_SIDES)];
    UnheldIsReplay(log);
    assert Late(log) == [];
    assert p !in ListenUnheld(log).book.bids;
  }
}
