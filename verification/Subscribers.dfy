/** The fan-out of one stream as a transition system. The feed thread applies a batch to the book,
    then broadcasts it; each connection's thread subscribes and unsubscribes; every lock section and
    every socket operation is one step. One epoch: the book is applied throughout, with no clear,
    snapshot or replay. */
module Subscribers {
  import opened Wrappers
  import opened BookSpec
  import opened Conservation
  import opened Replica
  import opened ClientLog

  type ClientId = string

  /** A batch that is in the book and not yet broadcast. */
  datatype Pending = Pending(before: Book, es: seq<Edit>)

  /** A broadcast whose sequence number and targets are fixed; `waiting` are still to be sent to. */
  datatype Flight = Flight(update: BookUpdate, waiting: set<ClientId>)

  /** A client's latest subscription, as its lock section left it: the snapshot and its stamp, and
      how many messages the socket had got. `snapSent`: the snapshot has been sent since. `moved`: a
      window moved in a batch the snapshot does not follow. `midFlight`: it began while an update for
      an earlier subscription was still to be sent. */
  datatype Sub = Sub(snapSeq: nat, base: Sides, start: nat, snapSent: bool, moved: bool, midFlight: bool)

  /** `logs`: every message put on a client's socket since it connected. */
  datatype State = State(book: Book, pending: Option<Pending>, history: seq<BookUpdate>, flight: Option<Flight>,
                         open: set<ClientId>, subscribed: set<ClientId>, subs: map<ClientId, Sub>,
                         logs: map<ClientId, seq<Msg>>)

  datatype Step =
    | Batch(es: seq<Edit>)
    | Collect(targets: set<ClientId>)
    | Send(id: ClientId)
    | Overflow(id: ClientId)
    | Finish
    | Connect(id: ClientId)
    | Subscribe(id: ClientId)
    | SendSnapshot(id: ClientId)
    | Unsubscribe(id: ClientId)
    | Close(id: ClientId)
    | Erase(id: ClientId)

  ghost function PendingDeltas(ps: Params, p: Pending): seq<LevelDelta> {
    AllDeltas(ps, Genuine, p.before, p.es)
  }

  ghost function Message(ps: Params, p: Pending, n: nat): BookUpdate {
    BookUpdate(n, Broadcast(PendingDeltas(ps, p), true), Broadcast(PendingDeltas(ps, p), false))
  }

  predicate IsEmpty(u: BookUpdate) { u.bids == [] && u.asks == [] }

  predicate Awaits(s: State, id: ClientId) {
    s.flight.Some? && id in s.flight.value.waiting
  }

  /** The connection's thread is done with the last request: it handles one at a time. */
  predicate IsIdle(s: State, id: ClientId) {
    id in s.logs && (id in s.subs ==> s.subs[id].snapSent)
  }

  /** When a step can happen. Broadcasts of the stream are serialised: the feed thread sends one
      to all its targets before it applies the next batch. */
  ghost predicate Enabled(ps: Params, s: State, st: Step)
    requires ps.c.tick > 0
  {
    match st
    case Batch(es) => s.pending.None? && s.flight.None? && EditsOk(ps.c, es)
    case Collect(targets) => s.pending.Some? && s.subscribed * s.open <= targets <= s.subscribed
    case Send(id) => Awaits(s, id)
    case Overflow(id) => Awaits(s, id)
    case Finish => s.flight.Some? && s.flight.value.waiting == {}
    case Connect(id) => id !in s.logs
    case Subscribe(id) => IsIdle(s, id)
    case SendSnapshot(id) => id in s.subs && !s.subs[id].snapSent
    case Unsubscribe(id) => IsIdle(s, id)
    case Close(id) => true
    case Erase(id) => id !in s.open
  }

  /** A message on a socket; a closed one takes none. */
  function Delivered(s: State, id: ClientId, m: Msg): map<ClientId, seq<Msg>> {
    if id in s.open && id in s.logs then s.logs[id := s.logs[id] + [m]] else s.logs
  }

  /** The batch enters the book; every subscription notes whether a window moved. */
  ghost function ApplyBatch(ps: Params, s: State, es: seq<Edit>): State {
    var moved := BatchMoves(ps.c, s.book, es);
    s.(book := ApplyAll(ps.c, s.book, es), pending := Some(Pending(s.book, es)),
       subs := map id | id in s.subs :: s.subs[id].(moved := s.subs[id].moved || moved))
  }

  /** Snapshot and stamp are taken together, from a book that may hold a batch not yet broadcast. */
  ghost function NewSub(ps: Params, s: State, id: ClientId): Sub {
    Sub(|s.history|, Sides(s.book.bids.levels, s.book.asks.levels), if id in s.logs then |s.logs[id]| else 0, false,
        s.pending.Some? && BatchMoves(ps.c, s.pending.value.before, s.pending.value.es),
        Awaits(s, id))
  }

  ghost function Next(ps: Params, s: State, st: Step): State
    requires ps.c.tick > 0 && Enabled(ps, s, st)
  {
    match st
    case Batch(es) => ApplyBatch(ps, s, es)
    case Collect(targets) =>
      var u := Message(ps, s.pending.value, |s.history| + 1);
      if IsEmpty(u) then s.(pending := None)
      else s.(pending := None, history := s.history + [u], flight := Some(Flight(u, targets)))
    case Send(id) =>
      var f := s.flight.value;
      s.(flight := Some(f.(waiting := f.waiting - {id})), logs := Delivered(s, id, UpdateMsg(f.update)))
    case Overflow(id) =>
      s.(flight := Some(s.flight.value.(waiting := s.flight.value.waiting - {id})), open := s.open - {id})
    case Finish => s.(flight := None)
    case Connect(id) => s.(open := s.open + {id}, logs := s.logs[id := []])
    case Subscribe(id) => s.(subscribed := s.subscribed + {id}, subs := s.subs[id := NewSub(ps, s, id)])
    case SendSnapshot(id) =>
      var sub := s.subs[id];
      s.(subs := s.subs[id := sub.(snapSent := true)], logs := Delivered(s, id, SnapshotMsg(sub.snapSeq, sub.base)))
    case Unsubscribe(id) => s.(subscribed := s.subscribed - {id})
    case Close(id) => s.(open := s.open - {id})
    case Erase(id) => s.(subscribed := s.subscribed - {id})
  }

  ghost predicate Initial(ps: Params, s: State)
    requires ps.c.tick > 0
  {
    && s.book.Valid(ps) && s.book.applied
    && s == State(s.book, None, [], None, {}, {}, map[], map[])
  }

  // ---------------------------------------------------------------- copies of the book

  ghost predicate AgreesWith(m: Sides, b: Book) {
    Agrees(m.bids, b.bids.levels) && Agrees(m.asks, b.asks.levels)
  }

  predicate Equals(m: Sides, b: Book) {
    m.bids == b.bids.levels && m.asks == b.asks.levels
  }

  // ---------------------------------------------------------------- the invariant

  ghost predicate BookOk(ps: Params, s: State)
    requires ps.c.tick > 0
  {
    && s.book.Valid(ps) && s.book.applied
    && (s.pending.Some? ==>
          && s.pending.value.before.Valid(ps) && EditsOk(ps.c, s.pending.value.es)
          && s.book == ApplyAll(ps.c, s.pending.value.before, s.pending.value.es))
  }

  predicate FlightOk(s: State) {
    && (forall i :: 0 <= i < |s.history| ==>
          s.history[i].seqNo == i + 1 && (s.history[i].bids != [] || s.history[i].asks != []))
    && (s.flight.Some? ==> s.pending.None? && s.history != [] && s.flight.value.update == s.history[|s.history| - 1])
    && s.subscribed <= s.subs.Keys
    && (s.flight.Some? ==> s.flight.value.waiting <= s.subs.Keys)
  }

  /** The client has a subscription, and its stamp and start are in the past. */
  predicate IsKnown(s: State, id: ClientId) {
    && id in s.subs && s.subs[id].snapSeq <= |s.history|
    && id in s.logs && s.subs[id].start <= |s.logs[id]|
  }

  ghost predicate LogsOk(s: State) {
    && s.open <= s.logs.Keys
    && (forall id :: id in s.logs ==> Upto(Updates(s.logs[id]), |s.history|))
    && (forall id :: id in s.subs ==> IsKnown(s, id))
  }

  ghost predicate StreamOk(s: State) { FlightOk(s) && LogsOk(s) }

  /** The updates put on the socket since the latest subscription. */
  function Sent(s: State, id: ClientId): seq<BookUpdate>
    requires IsKnown(s, id)
  {
    Updates(s.logs[id][s.subs[id].start..])
  }

  /** The snapshot covers all updates put on the socket before; once sent it is the latest. */
  predicate LogOk(s: State, id: ClientId)
    requires IsKnown(s, id)
  {
    var sub, log := s.subs[id], s.logs[id];
    && Upto(Updates(log[..sub.start]), sub.snapSeq)
    && (id in s.open && sub.snapSent ==> LatestSnapshot(log) == Some(SnapshotMsg(sub.snapSeq, sub.base)))
  }

  /** The update in flight, if this subscription is still to get it. */
  ghost function Due(s: State, id: ClientId): seq<BookUpdate>
    requires id in s.subs
  {
    if Awaits(s, id) && s.flight.value.update.seqNo > s.subs[id].snapSeq then [s.flight.value.update] else []
  }

  /** What a subscription has got and is still to get is what was broadcast since its stamp: all of
      it while it lasts, the front of it once it has ended. */
  ghost predicate DeliveryOk(s: State, id: ClientId)
    requires IsKnown(s, id)
  {
    var sub := s.subs[id];
    var got, since := Fresh(Sent(s, id), sub.snapSeq), s.history[sub.snapSeq..];
    && (id in s.open && (id in s.subscribed || Due(s, id) != []) ==> got + Due(s, id) == since)
    && got <= since
  }

  /** A subscription that began in mid-flight gets the update that was in flight first, and it alone
      is older than the stamp; otherwise no update is. */
  ghost predicate StaleOk(s: State, id: ClientId)
    requires IsKnown(s, id)
  {
    var sub, sent := s.subs[id], Sent(s, id);
    var isDue := Awaits(s, id) && s.flight.value.update.seqNo <= sub.snapSeq;
    && (isDue ==> sub.midFlight && sent == [])
    && (sub.midFlight && sent == [] && id in s.open ==> isDue)
    && (sub.midFlight && sent != [] ==> sent[0].seqNo == sub.snapSeq && sent[1..] == Fresh(sent, sub.snapSeq))
    && (!sub.midFlight ==> sent == Fresh(sent, sub.snapSeq))
  }

  /** What the broadcasts since the stamp make of the snapshot. */
  ghost function Shadow(s: State, id: ClientId): Sides
    requires IsKnown(s, id)
  {
    Replay(s.subs[id].base, s.history[s.subs[id].snapSeq..])
  }

  /** ... and once more with the batch that is not yet broadcast. */
  ghost function Caught(ps: Params, s: State, id: ClientId): Sides
    requires IsKnown(s, id)
  {
    if s.pending.Some? then Receive(Shadow(s, id), Message(ps, s.pending.value, 0)) else Shadow(s, id)
  }

  ghost predicate ShadowOk(ps: Params, s: State, id: ClientId)
    requires IsKnown(s, id)
  {
    && AgreesWith(Caught(ps, s, id), s.book)
    && (!s.subs[id].moved ==> Equals(Caught(ps, s, id), s.book))
  }

  ghost predicate ClientOk(ps: Params, s: State, id: ClientId)
    requires IsKnown(s, id)
  {
    LogOk(s, id) && DeliveryOk(s, id) && StaleOk(s, id) && ShadowOk(ps, s, id)
  }

  ghost predicate Inv(ps: Params, s: State)
    requires ps.c.tick > 0
  {
    BookOk(ps, s) && StreamOk(s) && forall id :: id in s.subs ==> ClientOk(ps, s, id)
  }

  // ---------------------------------------------------------------- every step keeps it

  lemma InitialInv(ps: Params, s: State)
    requires ps.c.Valid() && Initial(ps, s)
    ensures Inv(ps, s)
  {
  }

  lemma BatchStream(ps: Params, s: State, es: seq<Edit>)
    requires ps.c.Valid() && BookOk(ps, s) && StreamOk(s) && Enabled(ps, s, Batch(es))
    ensures var s' := ApplyBatch(ps, s, es); BookOk(ps, s') && StreamOk(s') && s'.subs.Keys == s.subs.Keys
  {
    ApplyAllValid(ps, s.book, es);
    assert ApplyBatch(ps, s, es).subs.Keys == s.subs.Keys;
  }

  lemma BatchDelivery(ps: Params, s: State, es: seq<Edit>, id: ClientId)
    requires IsKnown(s, id) && LogOk(s, id) && DeliveryOk(s, id) && StaleOk(s, id)
    ensures var s' := ApplyBatch(ps, s, es);
            IsKnown(s', id) && LogOk(s', id) && DeliveryOk(s', id) && StaleOk(s', id)
  {
    assert Due(ApplyBatch(ps, s, es), id) == Due(s, id);
  }

  lemma BatchShadow(ps: Params, s: State, es: seq<Edit>, id: ClientId)
    requires ps.c.Valid() && s.book.Valid(ps) && s.pending.None? && EditsOk(ps.c, es)
    requires IsKnown(s, id) && ShadowOk(ps, s, id)
    ensures ShadowOk(ps, ApplyBatch(ps, s, es), id)
  {
    var m := Shadow(s, id);
    assert Shadow(ApplyBatch(ps, s, es), id) == m;
    BatchReplicates(ps, s.book, es, true, m.bids);
    BatchReplicates(ps, s.book, es, false, m.asks);
  }

  lemma BatchKeeps(ps: Params, s: State, es: seq<Edit>)
    requires ps.c.Valid() && Inv(ps, s) && Enabled(ps, s, Batch(es))
    ensures Inv(ps, Next(ps, s, Batch(es)))
  {
    var s' := ApplyBatch(ps, s, es);
    BatchStream(ps, s, es);
    forall id | id in s'.subs
      ensures ClientOk(ps, s', id)
    {
      assert ClientOk(ps, s, id);
      BatchShadow(ps, s, es, id);
      BatchDelivery(ps, s, es, id);
    }
  }

  lemma CollectStream(ps: Params, s: State, targets: set<ClientId>)
    requires ps.c.Valid() && BookOk(ps, s) && StreamOk(s) && Enabled(ps, s, Collect(targets))
    ensures var s' := Next(ps, s, Collect(targets)); BookOk(ps, s') && StreamOk(s') && s'.subs == s.subs
  {
    var s' := Next(ps, s, Collect(targets));
    forall id | id in s.subs
      ensures IsKnown(s', id)
    {
      assert IsKnown(s, id);
    }
    assert FlightOk(s') && LogsOk(s');
  }

  lemma SameDelivery(s: State, s': State, id: ClientId)
    requires IsKnown(s, id) && LogOk(s, id) && DeliveryOk(s, id) && StaleOk(s, id)
    requires s' == s.(book := s'.book, pending := s'.pending)
    ensures LogOk(s', id) && DeliveryOk(s', id) && StaleOk(s', id)
  {
    assert Due(s', id) == Due(s, id);
  }

  lemma LongerHistory(s: State, s': State, id: ClientId, u: BookUpdate)
    requires s.flight.None? && IsKnown(s, id) && LogOk(s, id) && DeliveryOk(s, id) && StaleOk(s, id)
    requires s'.subs == s.subs && s'.open == s.open && s'.subscribed == s.subscribed && s'.logs == s.logs
    requires s'.history == s.history + [u] && u.seqNo == |s.history| + 1
    requires s'.flight.Some? && s'.flight.value.update == u
    requires s.subscribed * s.open <= s'.flight.value.waiting <= s.subscribed
    ensures IsKnown(s', id) && LogOk(s', id) && DeliveryOk(s', id) && StaleOk(s', id)
  {
    var n := s.subs[id].snapSeq;
    var got := Fresh(Sent(s, id), n);
    assert s'.history[n..] == s.history[n..] + [u];
    assert got + [] == got;
  }

  lemma CollectDelivery(ps: Params, s: State, targets: set<ClientId>, id: ClientId)
    requires ps.c.Valid() && StreamOk(s) && Enabled(ps, s, Collect(targets))
    requires IsKnown(s, id) && LogOk(s, id) && DeliveryOk(s, id) && StaleOk(s, id)
    ensures var s' := Next(ps, s, Collect(targets));
            IsKnown(s', id) && LogOk(s', id) && DeliveryOk(s', id) && StaleOk(s', id)
  {
    var s' := Next(ps, s, Collect(targets));
    var u := Message(ps, s.pending.value, |s.history| + 1);
    if IsEmpty(u) {
      SameDelivery(s, s', id);
    } else {
      LongerHistory(s, s', id, u);
    }
  }

  lemma CollectShadow(ps: Params, s: State, targets: set<ClientId>, id: ClientId)
    requires ps.c.Valid() && StreamOk(s) && Enabled(ps, s, Collect(targets))
    requires IsKnown(s, id) && ShadowOk(ps, s, id)
    requires IsKnown(Next(ps, s, Collect(targets)), id)
    ensures ShadowOk(ps, Next(ps, s, Collect(targets)), id)
  {
    var s' := Next(ps, s, Collect(targets));
    var u, n := Message(ps, s.pending.value, |s.history| + 1), s.subs[id].snapSeq;
    if IsEmpty(u) {
      assert Caught(ps, s', id) == Caught(ps, s, id);
    } else {
      assert s'.history[n..] == s.history[n..] + [u];
      ReplayAppend(s.subs[id].base, s.history[n..], u);
    }
  }

  lemma CollectKeeps(ps: Params, s: State, targets: set<ClientId>)
    requires ps.c.Valid() && Inv(ps, s) && Enabled(ps, s, Collect(targets))
    ensures Inv(ps, Next(ps, s, Collect(targets)))
  {
    var s' := Next(ps, s, Collect(targets));
    CollectStream(ps, s, targets);
    forall id | id in s'.subs
      ensures ClientOk(ps, s', id)
    {
      assert ClientOk(ps, s, id);
      CollectDelivery(ps, s, targets, id);
      CollectShadow(ps, s, targets, id);
    }
  }

  // ---------------------------------------------------------------- steps that leave a client alone

  /** Nothing happened to the client but the loss of its socket, of its place among the
      subscribers, or of an update that its lost socket was to get; and, at most, its snapshot. */
  predicate Carries(s: State, s': State, x: ClientId) {
    && s'.book == s.book && s'.pending == s.pending && s'.history == s.history
    && IsKnown(s, x) && IsKnown(s', x) && s'.subs[x] == s.subs[x].(snapSent := s'.subs[x].snapSent)
    && Sent(s', x) == Sent(s, x)
    && (x in s'.open ==> x in s.open && (Awaits(s, x) ==> Awaits(s', x)))
    && (x in s'.subscribed ==> x in s.subscribed)
    && (Awaits(s', x) ==> Awaits(s, x) && s'.flight.value.update == s.flight.value.update)
  }

  lemma ShadowCarries(ps: Params, s: State, s': State, x: ClientId)
    requires IsKnown(s, x) && IsKnown(s', x) && ShadowOk(ps, s, x)
    requires s'.book == s.book && s'.pending == s.pending && s'.history == s.history
    requires s'.subs[x] == s.subs[x].(snapSent := s'.subs[x].snapSent)
    ensures ShadowOk(ps, s', x)
  {
    assert Caught(ps, s', x) == Caught(ps, s, x);
  }

  lemma ClientCarries(ps: Params, s: State, s': State, x: ClientId)
    requires Carries(s, s', x) && ClientOk(ps, s, x) && LogOk(s', x)
    ensures ClientOk(ps, s', x)
  {
    ShadowCarries(ps, s, s', x);
    assert x in s'.open ==> Due(s', x) == Due(s, x);
  }

  // ---------------------------------------------------------------- messages on a socket

  /** One more message in the log of a known client. */
  lemma LogGrows(log: seq<Msg>, start: nat, m: Msg)
    requires start <= |log|
    ensures (log + [m])[..start] == log[..start]
    ensures Updates((log + [m])[start..]) ==
            if m.UpdateMsg? then Updates(log[start..]) + [m.update] else Updates(log[start..])
  {
    assert (log + [m])[start..] == log[start..] + [m];
    LogAppend(log[start..], m);
  }

  lemma DeliveredUpto(s: State, id: ClientId, m: Msg)
    requires LogsOk(s) && (m.UpdateMsg? ==> m.update.seqNo <= |s.history|)
    ensures var logs := Delivered(s, id, m);
            && logs.Keys == s.logs.Keys
            && forall x :: x in logs ==> Upto(Updates(logs[x]), |s.history|) && |logs[x]| >= |s.logs[x]|
  {
    var logs := Delivered(s, id, m);
    assert logs.Keys == s.logs.Keys;
    forall x | x in logs
      ensures Upto(Updates(logs[x]), |s.history|) && |logs[x]| >= |s.logs[x]|
    {
      assert Upto(Updates(s.logs[x]), |s.history|);
      LogAppend(s.logs[x], m);
    }
  }

  lemma SendStream(ps: Params, s: State, id: ClientId)
    requires ps.c.Valid() && BookOk(ps, s) && StreamOk(s) && Enabled(ps, s, Send(id))
    ensures var s' := Next(ps, s, Send(id)); BookOk(ps, s') && StreamOk(s') && s'.subs == s.subs
  {
    var s' := Next(ps, s, Send(id));
    DeliveredUpto(s, id, UpdateMsg(s.flight.value.update));
    assert FlightOk(s') && LogsOk(s');
  }

  /** The client gets the update in flight. */
  predicate Gets(s: State, s': State, id: ClientId) {
    && s'.history == s.history && s'.subs == s.subs && s'.open == s.open && s'.subscribed == s.subscribed
    && IsKnown(s, id) && IsKnown(s', id) && id in s.open
    && Awaits(s, id) && !Awaits(s', id) && Sent(s', id) == Sent(s, id) + [s.flight.value.update]
  }

  lemma SendGets(ps: Params, s: State, id: ClientId)
    requires ps.c.tick > 0 && Enabled(ps, s, Send(id)) && IsKnown(s, id) && id in s.open && LogOk(s, id)
    ensures Gets(s, Next(ps, s, Send(id)), id) && LogOk(Next(ps, s, Send(id)), id)
  {
    var m := UpdateMsg(s.flight.value.update);
    LogGrows(s.logs[id], s.subs[id].start, m);
    LogAppend(s.logs[id], m);
  }

  lemma GetsDelivered(s: State, s': State, id: ClientId)
    requires Gets(s, s', id) && DeliveryOk(s, id)
    ensures DeliveryOk(s', id)
  {
    var sub, u := s.subs[id], s.flight.value.update;
    FreshAppend(Sent(s, id), u, sub.snapSeq);
    assert Fresh(Sent(s', id), sub.snapSeq) == Fresh(Sent(s, id), sub.snapSeq) + Due(s, id);
    assert Due(s', id) == [];
  }

  lemma GetsStale(s: State, s': State, id: ClientId)
    requires Gets(s, s', id) && FlightOk(s) && StaleOk(s, id)
    ensures StaleOk(s', id)
  {
    var sub, sent, u := s.subs[id], Sent(s, id), s.flight.value.update;
    FreshAppend(sent, u, sub.snapSeq);
    if sent == [] {
      assert [] + [u] == [u] && [u][1..] == [];
    } else {
      assert (sent + [u])[1..] == sent[1..] + [u];
    }
  }

  lemma SendOwn(ps: Params, s: State, id: ClientId)
    requires ps.c.Valid() && StreamOk(s) && Enabled(ps, s, Send(id)) && IsKnown(s, id)
    requires id in s.open && ClientOk(ps, s, id) && IsKnown(Next(ps, s, Send(id)), id)
    ensures ClientOk(ps, Next(ps, s, Send(id)), id)
  {
    var s' := Next(ps, s, Send(id));
    SendGets(ps, s, id);
    GetsDelivered(s, s', id);
    GetsStale(s, s', id);
    ShadowCarries(ps, s, s', id);
  }

  lemma SendOther(ps: Params, s: State, id: ClientId, x: ClientId)
    requires ps.c.tick > 0 && Enabled(ps, s, Send(id)) && IsKnown(s, x) && LogOk(s, x) && (x != id || id !in s.open)
    ensures Carries(s, Next(ps, s, Send(id)), x) && LogOk(Next(ps, s, Send(id)), x)
  {
  }

  lemma SendKeeps(ps: Params, s: State, id: ClientId)
    requires ps.c.Valid() && Inv(ps, s) && Enabled(ps, s, Send(id))
    ensures Inv(ps, Next(ps, s, Send(id)))
  {
    SendStream(ps, s, id);
    forall x | x in s.subs
      ensures ClientOk(ps, Next(ps, s, Send(id)), x)
    {
      assert ClientOk(ps, s, x);
      if x == id && id in s.open {
        SendOwn(ps, s, id);
      } else {
        SendOther(ps, s, id, x);
        ClientCarries(ps, s, Next(ps, s, Send(id)), x);
      }
    }
  }

  lemma SendSnapshotStream(ps: Params, s: State, id: ClientId)
    requires ps.c.Valid() && BookOk(ps, s) && StreamOk(s) && Enabled(ps, s, SendSnapshot(id)) && IsKnown(s, id)
    ensures var s' := Next(ps, s, SendSnapshot(id)); BookOk(ps, s') && StreamOk(s') && s'.subs.Keys == s.subs.Keys
  {
    DeliveredUpto(s, id, SnapshotMsg(s.subs[id].snapSeq, s.subs[id].base));
  }

  lemma SendSnapshotCarries(ps: Params, s: State, id: ClientId, x: ClientId)
    requires ps.c.tick > 0 && Enabled(ps, s, SendSnapshot(id)) && IsKnown(s, id) && IsKnown(s, x) && LogOk(s, x)
    ensures Carries(s, Next(ps, s, SendSnapshot(id)), x) && LogOk(Next(ps, s, SendSnapshot(id)), x)
  {
    var sub := s.subs[id];
    LogGrows(s.logs[id], sub.start, SnapshotMsg(sub.snapSeq, sub.base));
    LogAppend(s.logs[id], SnapshotMsg(sub.snapSeq, sub.base));
  }

  lemma SendSnapshotKeeps(ps: Params, s: State, id: ClientId)
    requires ps.c.Valid() && Inv(ps, s) && Enabled(ps, s, SendSnapshot(id))
    ensures Inv(ps, Next(ps, s, SendSnapshot(id)))
  {
    assert IsKnown(s, id);
    SendSnapshotStream(ps, s, id);
    forall x | x in s.subs
      ensures ClientOk(ps, Next(ps, s, SendSnapshot(id)), x)
    {
      assert ClientOk(ps, s, x);
      SendSnapshotCarries(ps, s, id, x);
      ClientCarries(ps, s, Next(ps, s, SendSnapshot(id)), x);
    }
  }

  // ---------------------------------------------------------------- subscriptions

  lemma SubscribeStream(ps: Params, s: State, id: ClientId)
    requires ps.c.Valid() && BookOk(ps, s) && StreamOk(s) && Enabled(ps, s, Subscribe(id))
    ensures var s' := Next(ps, s, Subscribe(id));
            BookOk(ps, s') && StreamOk(s') && s'.subs.Keys == s.subs.Keys + {id}
  {
  }

  lemma SubscribeCarries(ps: Params, s: State, id: ClientId, x: ClientId)
    requires ps.c.tick > 0 && Enabled(ps, s, Subscribe(id)) && IsKnown(s, x) && LogOk(s, x) && x != id
    ensures Carries(s, Next(ps, s, Subscribe(id)), x) && LogOk(Next(ps, s, Subscribe(id)), x)
  {
  }

  /** A snapshot that already holds the pending batch is not disturbed by its broadcast. */
  lemma AgainSide(ps: Params, s: State, isBid: bool)
    requires ps.c.Valid() && BookOk(ps, s) && s.pending.Some?
    ensures var p, book := s.pending.value, s.book.Side(isBid).levels;
            var v := Broadcast(PendingDeltas(ps, p), isBid);
            && Agrees(Overwrite(book, v), book)
            && (!BatchMoves(ps.c, p.before, p.es) ==> Overwrite(book, v) == book)
  {
    var p, book := s.pending.value, s.book.Side(isBid).levels;
    var v, m := Broadcast(PendingDeltas(ps, p), isBid), p.before.Side(isBid).levels;
    BatchReplicates(ps, p.before, p.es, isBid, m);
    OverwriteAgain(m, book, book, v);
    if !BatchMoves(ps.c, p.before, p.es) {
      OverwriteAgainExact(m, book, v);
    }
  }

  lemma NewSubOk(ps: Params, s: State, id: ClientId)
    requires ps.c.Valid() && BookOk(ps, s) && StreamOk(s) && Enabled(ps, s, Subscribe(id))
    requires IsKnown(Next(ps, s, Subscribe(id)), id)
    ensures ClientOk(ps, Next(ps, s, Subscribe(id)), id)
  {
    var s', log := Next(ps, s, Subscribe(id)), s.logs[id];
    assert s'.history[|s.history|..] == [];
    assert log[..|log|] == log && log[|log|..] == [];
    if s.pending.Some? {
      AgainSide(ps, s, true);
      AgainSide(ps, s, false);
    }
  }

  lemma SubscribeKeeps(ps: Params, s: State, id: ClientId)
    requires ps.c.Valid() && Inv(ps, s) && Enabled(ps, s, Subscribe(id))
    ensures Inv(ps, Next(ps, s, Subscribe(id)))
  {
    SubscribeStream(ps, s, id);
    forall x | x in Next(ps, s, Subscribe(id)).subs
      ensures ClientOk(ps, Next(ps, s, Subscribe(id)), x)
    {
      if x == id {
        NewSubOk(ps, s, id);
      } else {
        assert ClientOk(ps, s, x);
        SubscribeCarries(ps, s, id, x);
        ClientCarries(ps, s, Next(ps, s, Subscribe(id)), x);
      }
    }
  }

  // ---------------------------------------------------------------- all other steps

  /** Steps that leave the book, the stream and all logs but a new one alone. */
  predicate IsQuiet(st: Step) {
    !st.Batch? && !st.Collect? && !st.Send? && !st.Subscribe? && !st.SendSnapshot?
  }

  lemma QuietStream(ps: Params, s: State, st: Step)
    requires ps.c.Valid() && BookOk(ps, s) && StreamOk(s) && Enabled(ps, s, st) && IsQuiet(st)
    ensures var s' := Next(ps, s, st); BookOk(ps, s') && StreamOk(s') && s'.subs == s.subs
  {
  }

  lemma QuietCarries(ps: Params, s: State, st: Step, x: ClientId)
    requires ps.c.tick > 0 && Enabled(ps, s, st) && IsQuiet(st) && IsKnown(s, x) && LogOk(s, x)
    ensures Carries(s, Next(ps, s, st), x) && LogOk(Next(ps, s, st), x)
  {
  }

  lemma QuietKeeps(ps: Params, s: State, st: Step)
    requires ps.c.Valid() && Inv(ps, s) && Enabled(ps, s, st) && IsQuiet(st)
    ensures Inv(ps, Next(ps, s, st))
  {
    QuietStream(ps, s, st);
    forall x | x in s.subs
      ensures ClientOk(ps, Next(ps, s, st), x)
    {
      assert ClientOk(ps, s, x);
      QuietCarries(ps, s, st, x);
      ClientCarries(ps, s, Next(ps, s, st), x);
    }
  }

  lemma StepKeepsInv(ps: Params, s: State, st: Step)
    requires ps.c.Valid() && Inv(ps, s) && Enabled(ps, s, st)
    ensures Inv(ps, Next(ps, s, st))
  {
    match st
    case Batch(es) => BatchKeeps(ps, s, es);
    case Collect(targets) => CollectKeeps(ps, s, targets);
    case Send(id) => SendKeeps(ps, s, id);
    case Subscribe(id) => SubscribeKeeps(ps, s, id);
    case SendSnapshot(id) => SendSnapshotKeeps(ps, s, id);
    case Overflow(_) => QuietKeeps(ps, s, st);
    case Finish => QuietKeeps(ps, s, st);
    case Connect(_) => QuietKeeps(ps, s, st);
    case Unsubscribe(_) => QuietKeeps(ps, s, st);
    case Close(_) => QuietKeeps(ps, s, st);
    case Erase(_) => QuietKeeps(ps, s, st);
  }
}
