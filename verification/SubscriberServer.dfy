/** The lock sections of src/subscriber_server.hpp, on the server's own state: the clients with the
    streams each is subscribed to, and one counter per stream. `Subscribers` says what follows from
    them when they interleave. */
module SubscriberServer {
  import opened Wrappers
  import opened Levels
  import opened BookSpec
  import opened Replica
  import Conservation
  import OrderBook
  import StreamName
  import Subscribers
  import SubscriberRuns

  type ClientId = string
  type Key = string

  /** `live`: the socket can still be locked. An entry made by a subscription alone has none. */
  datatype ClientState = ClientState(live: bool, streams: set<Key>)

  function SeqOf(m: map<Key, nat>, key: Key): nat { if key in m then m[key] else 0 }

  /** The clients a broadcast of `key` goes to. */
  function Targets(clients: map<ClientId, ClientState>, key: Key): set<ClientId> {
    set id | id in clients && key in clients[id].streams && clients[id].live
  }

  function Registered(clients: map<ClientId, ClientState>, id: ClientId, keys: set<Key>): map<ClientId, ClientState> {
    var was := if id in clients then clients[id] else ClientState(false, {});
    if keys == {} then clients else clients[id := was.(streams := was.streams + keys)]
  }

  function Deregistered(clients: map<ClientId, ClientState>, id: ClientId, keys: set<Key>): map<ClientId, ClientState> {
    if id in clients then clients[id := clients[id].(streams := clients[id].streams - keys)] else clients
  }

  /** The keys of the streams named in a request; other texts name none. */
  function KeysOf(texts: seq<string>): set<Key> {
    set text | text in texts && StreamName.ParseStream(text).Some? :: StreamName.Key(StreamName.ParseStream(text).value)
  }

  /** What a request is answered with. */
  datatype Reply =
    | BadStream(text: string)
    | Snapshot(stream: StreamName.Stream, seqNo: nat, bids: seq<Level>, asks: seq<Level>)

  /** All levels of the stream's book, best first, with the number of the stream. */
  ghost function QuoteOf(stream: StreamName.Stream, seqMap: map<Key, nat>, b: Option<Book>): seq<Reply> {
    if b.None? || !b.value.applied then []
    else
      var bids, asks := b.value.bids.levels, b.value.asks.levels;
      [Snapshot(stream, SeqOf(seqMap, StreamName.Key(stream)), Top(true, bids, |bids|), Top(false, asks, |asks|))]
  }

  /** An error for a text that names no stream, a snapshot for a stream with a book that has one. */
  ghost function ReplyTo(text: string, seqMap: map<Key, nat>, b: Option<Book>): seq<Reply> {
    match StreamName.ParseStream(text)
    case None => [BadStream(text)]
    case Some(stream) => QuoteOf(stream, seqMap, b)
  }

  function BookOfText(text: string, books: map<Key, Book>): Option<Book> {
    match StreamName.ParseStream(text)
    case None => None
    case Some(stream) => if StreamName.Key(stream) in books then Some(books[StreamName.Key(stream)]) else None
  }

  ghost function Replies(texts: seq<string>, seqMap: map<Key, nat>, books: map<Key, Book>): seq<Reply> {
    if texts == [] then []
    else
      var text := texts[|texts| - 1];
      Replies(texts[..|texts| - 1], seqMap, books) + ReplyTo(text, seqMap, BookOfText(text, books))
  }

  // ---------------------------------------------------------------- the server as the protocol sees it

  /** The server's state, looked at for one stream, is a state of the protocol: the counter is the
      number of broadcasts, the subscribers are the clients with the stream, and open sockets have
      live entries. */
  ghost predicate Shows(clients: map<ClientId, ClientState>, seqMap: map<Key, nat>, key: Key, s: Subscribers.State) {
    && SeqOf(seqMap, key) == |s.history|
    && (forall id :: id in s.subscribed <==> id in clients && key in clients[id].streams)
    && (forall id :: id in s.open ==> id in clients && clients[id].live)
  }

  /** A server without clients and broadcasts shows the protocol's initial states. */
  lemma StartShows(ps: Params, key: Key, s: Subscribers.State)
    requires ps.c.tick > 0 && Subscribers.Initial(ps, s)
    ensures Shows(map[], map[], key, s)
  {
  }

  /** The targets of a broadcast are targets that the protocol allows, under the next number. */
  lemma BroadcastIsCollect(ps: Params, clients: map<ClientId, ClientState>, seqMap: map<Key, nat>, key: Key,
                           s: Subscribers.State)
    requires ps.c.tick > 0 && Shows(clients, seqMap, key, s) && s.pending.Some?
    requires !Subscribers.IsEmpty(Subscribers.Message(ps, s.pending.value, |s.history| + 1))
    ensures var st := Subscribers.Collect(Targets(clients, key));
            && Subscribers.Enabled(ps, s, st)
            && Shows(clients, seqMap[key := SeqOf(seqMap, key) + 1], key, Subscribers.Next(ps, s, st))
  {
  }

  /** `BroadcastUpdate` as a whole is a run of protocol steps: from a state that the server shows, to
      the state with the batch broadcast, which the server shows afterwards. */
  lemma BroadcastIsRun(ps: Params, clients: map<ClientId, ClientState>, seqMap: map<Key, nat>, key: Key,
                       before: seq<Subscribers.State>, did: seq<Subscribers.Step>, backlog: set<ClientId>)
    returns (trace: seq<Subscribers.State>, steps: seq<Subscribers.Step>)
    requires ps.c.tick > 0 && SubscriberRuns.IsRun(ps, before, did)
    requires Shows(clients, seqMap, key, before[|did|]) && before[|did|].pending.Some?
    ensures SubscriberRuns.IsRun(ps, trace, steps) && before <= trace && did <= steps
    ensures var s, targets := before[|did|], Targets(clients, key);
            && trace[|steps|] == SubscriberRuns.Broadcasted(ps, s, targets, backlog)
            && var sent := !Subscribers.IsEmpty(Subscribers.Message(ps, s.pending.value, |s.history| + 1));
            Shows(if sent then clients - targets * backlog else clients,
                  if sent then seqMap[key := SeqOf(seqMap, key) + 1] else seqMap, key, trace[|steps|])
  {
    trace, steps := SubscriberRuns.BroadcastRuns(ps, before, did, Targets(clients, key), backlog);
  }

  /** Connecting and forgetting a closed client are the protocol's steps. */
  lemma ConnectionsShow(ps: Params, clients: map<ClientId, ClientState>, seqMap: map<Key, nat>, key: Key,
                        s: Subscribers.State, id: ClientId)
    requires ps.c.tick > 0 && Shows(clients, seqMap, key, s) && Subscribers.StreamOk(s)
    ensures Subscribers.Enabled(ps, s, Subscribers.Connect(id)) ==>
              Shows(clients[id := ClientState(true, {})], seqMap, key, Subscribers.Next(ps, s, Subscribers.Connect(id)))
    ensures id !in s.open ==> Shows(clients - {id}, seqMap, key, Subscribers.Next(ps, s, Subscribers.Erase(id)))
  {
    assert id in s.subs ==> Subscribers.IsKnown(s, id);
  }

  /** So are subscribing and unsubscribing. */
  lemma SubscriptionsShow(ps: Params, clients: map<ClientId, ClientState>, seqMap: map<Key, nat>, key: Key,
                          s: Subscribers.State, id: ClientId)
    requires ps.c.tick > 0 && Shows(clients, seqMap, key, s) && Subscribers.IsIdle(s, id)
    ensures Shows(Registered(clients, id, {key}), seqMap, key, Subscribers.Next(ps, s, Subscribers.Subscribe(id)))
    ensures Shows(Deregistered(clients, id, {key}), seqMap, key, Subscribers.Next(ps, s, Subscribers.Unsubscribe(id)))
  {
  }

  /** What is done for another stream does not show. */
  lemma OtherStreamsDoNotShow(clients: map<ClientId, ClientState>, seqMap: map<Key, nat>, key: Key,
                              s: Subscribers.State, id: ClientId, other: Key)
    requires Shows(clients, seqMap, key, s) && other != key
    ensures Shows(Registered(clients, id, {other}), seqMap, key, s)
    ensures Shows(Deregistered(clients, id, {other}), seqMap, key, s)
    ensures Shows(clients, seqMap[other := SeqOf(seqMap, other) + 1], key, s)
  {
  }

  // ---------------------------------------------------------------- what requests do

  /** Some text is the name of a stream with this key. */
  predicate Names(texts: seq<string>, key: Key) {
    exists text :: text in texts && StreamName.ParseStream(text).Some? && text == key + ".book"
  }

  lemma KeysAreNamed(texts: seq<string>, key: Key)
    ensures key in KeysOf(texts) <==> Names(texts, key)
  {
    forall text | text in texts && StreamName.ParseStream(text).Some?
      ensures StreamName.Key(StreamName.ParseStream(text).value) == key <==> text == key + ".book"
    {
      StreamName.AcceptedIsKeyAndSuffix(text);
      var k := StreamName.Key(StreamName.ParseStream(text).value);
      assert text[..|k|] == k;
      assert text == key + ".book" ==> |key| == |k| && text[..|key|] == key;
    }
  }

  predicate Has(clients: map<ClientId, ClientState>, id: ClientId, key: Key) {
    id in clients && key in clients[id].streams
  }

  /** A subscription adds exactly the streams named, an unsubscription takes exactly those away; both
      for this client only, and neither opens or closes a socket. */
  lemma RequestsExactly(clients: map<ClientId, ClientState>, id: ClientId, texts: seq<string>, x: ClientId, key: Key)
    ensures var m, n := Registered(clients, id, KeysOf(texts)), Deregistered(clients, id, KeysOf(texts));
            && (Has(m, x, key) <==> Has(clients, x, key) || (x == id && Names(texts, key)))
            && (Has(n, x, key) <==> Has(clients, x, key) && !(x == id && Names(texts, key)))
            && (x in n <==> x in clients) && (x in clients ==> x in m && m[x].live == n[x].live == clients[x].live)
            && (x in m && x !in clients ==> !m[x].live)
  {
    KeysAreNamed(texts, key);
  }

  /** So an unsubscribed client is no target of a broadcast. */
  lemma UnsubscribedIsNoTarget(clients: map<ClientId, ClientState>, id: ClientId, texts: seq<string>, key: Key)
    requires Names(texts, key)
    ensures Targets(Deregistered(clients, id, KeysOf(texts)), key) == Targets(clients, key) - {id}
  {
    KeysAreNamed(texts, key);
  }

  /** Texts are answered one after the other. */
  lemma {:induction false} RepliesInOrder(a: seq<string>, b: seq<string>, seqMap: map<Key, nat>, books: map<Key, Book>)
    ensures Replies(a + b, seqMap, books) == Replies(a, seqMap, books) + Replies(b, seqMap, books)
  {
    if b == [] {
      assert a + b == a;
    } else {
      assert (a + b)[..|a + b| - 1] == a + b[..|b| - 1];
      var n := |b| - 1;
      RepliesInOrder(a, b[..n], seqMap, books);
      Conservation.Associative(Replies(a, seqMap, books), Replies(b[..n], seqMap, books),
                               ReplyTo(b[n], seqMap, BookOfText(b[n], books)));
    }
  }

  /** The best levels, as many as there are, are all of them. */
  lemma TopLists(isBid: bool, m: map<int, int>)
    ensures Lists(isBid, m, Top(isBid, m, |m|))
  {
    TopIsTop(isBid, m, |m| + 1);
    TopLength(isBid, m, |m| + 1);
    ListsIsTop(isBid, m, Top(isBid, m, |m| + 1));
  }

  /** The answer to one text: an error when it names no stream; nothing for a stream without a book,
      or whose book has no snapshot; else the snapshot of the new subscription of the protocol, with
      its stamp, and each side listed in full, best first. */
  lemma RepliesAsSubscribed(ps: Params, clients: map<ClientId, ClientState>, seqMap: map<Key, nat>, key: Key,
                            books: map<Key, Book>, s: Subscribers.State, id: ClientId, text: string)
    requires Shows(clients, seqMap, key, s)
    ensures (forall k :: !Names([text], k)) ==> Replies([text], seqMap, books) == [BadStream(text)]
    ensures Names([text], key) && (key !in books || !books[key].applied) ==> Replies([text], seqMap, books) == []
    ensures Names([text], key) && key in books && books[key] == s.book && s.book.applied ==>
              var sub, replies := Subscribers.NewSub(ps, s, id), Replies([text], seqMap, books);
              && |replies| == 1 && replies[0].Snapshot?
              && replies[0].stream.exchange + "." + replies[0].stream.symbol == key
              && replies[0].seqNo == sub.snapSeq
              && Lists(true, sub.base.bids, replies[0].bids) && Lists(false, sub.base.asks, replies[0].asks)
  {
    assert [text][..0] == [] && Replies([text][..0], seqMap, books) == [];
    assert Replies([text], seqMap, books) == ReplyTo(text, seqMap, BookOfText(text, books));
    var parsed := StreamName.ParseStream(text);
    if parsed.None? {
      assert forall k :: !Names([text], k);
    } else {
      StreamName.AcceptedIsKeyAndSuffix(text);
      assert text in [text];
      assert Names([text], StreamName.Key(parsed.value));
      KeysAreNamed([text], key);
      TopLists(true, s.book.bids.levels);
      TopLists(false, s.book.asks.levels);
    }
  }

  // ---------------------------------------------------------------- methods

  /** The genuine deltas, split by side in order. */
  method SplitDeltas(ds: seq<LevelDelta>) returns (bids: seq<Level>, asks: seq<Level>)
    ensures bids == Broadcast(ds, true) && asks == Broadcast(ds, false)
  {
    bids, asks := [], [];
    for i := 0 to |ds|
      invariant bids == Broadcast(ds[..i], true) && asks == Broadcast(ds[..i], false)
    {
      var d := ds[i];
      assert ds[..i + 1][..i] == ds[..i];
      if d.kind != Genuine {
        continue;
      }
      if d.isBid {
        bids := bids + [Level(d.price, d.newQty)];
      } else {
        asks := asks + [Level(d.price, d.newQty)];
      }
    }
    assert ds[..|ds|] == ds;
  }

  class SubscriberServer {
    var clients: map<ClientId, ClientState>
    var seqMap: map<Key, nat>
    var disconnects: nat

    constructor ()
      ensures clients == map[] && seqMap == map[] && disconnects == 0
    {
      clients, seqMap, disconnects := map[], map[], 0;
    }

    method OnConnect(id: ClientId)
      modifies this`clients
      ensures clients == old(clients)[id := ClientState(true, {})]
    {
      clients := clients[id := ClientState(true, {})];
    }

    method OnClose(id: ClientId)
      modifies this`clients
      ensures clients == old(clients) - {id}
    {
      clients := clients - {id};
    }

    /** Some client, in the map's own order. */
    static method PickOne(ids: set<ClientId>) returns (id: ClientId)
      requires ids != {}
      ensures id in ids
    {
      ghost var some := Pick(ids);
      id :| id in ids;
    }

    /** The lock section of a broadcast: the next number and the targets, fixed together. */
    method NextBroadcast(key: Key) returns (seqNo: nat, targets: set<ClientId>)
      modifies this`seqMap
      ensures seqNo == SeqOf(old(seqMap), key) + 1 && seqMap == old(seqMap)[key := seqNo]
      ensures forall id :: id in targets <==> id in clients && key in clients[id].streams && clients[id].live
      ensures targets == Targets(clients, key)
    {
      seqNo := SeqOf(seqMap, key) + 1;
      seqMap := seqMap[key := seqNo];
      targets := {};
      var rest := clients.Keys;
      while rest != {}
        invariant rest <= clients.Keys && seqMap == old(seqMap)[key := seqNo]
        invariant targets == set id | id in Targets(clients, key) && id !in rest
        decreases |rest|
      {
        var id := PickOne(rest);
        rest := rest - {id};
        if key in clients[id].streams && clients[id].live {
          targets := targets + {id};
        }
      }
    }

    /** `broadcastUpdate` without interference: nothing for a batch without genuine deltas;
        otherwise one numbered message to every target, except that clients with too much still
        unsent (`backlog`) are closed and removed instead. */
    method BroadcastUpdate(key: Key, ds: seq<LevelDelta>, backlog: set<ClientId>)
      returns (sent: bool, seqNo: nat, bids: seq<Level>, asks: seq<Level>, sentTo: set<ClientId>)
      modifies this
      ensures bids == Broadcast(ds, true) && asks == Broadcast(ds, false) && (sent <==> bids != [] || asks != [])
      ensures !sent ==> clients == old(clients) && seqMap == old(seqMap) && sentTo == {}
      ensures sent ==> seqNo == SeqOf(old(seqMap), key) + 1 && seqMap == old(seqMap)[key := seqNo]
      ensures sent ==> sentTo == Targets(old(clients), key) - backlog
      ensures sent ==> clients == old(clients) - (Targets(old(clients), key) * backlog)
      ensures sent ==> disconnects == old(disconnects) + |Targets(old(clients), key) * backlog|
    {
      bids, asks := SplitDeltas(ds);
      sent, seqNo, sentTo := bids != [] || asks != [], 0, {};
      if !sent {
        return;
      }
      var targets: set<ClientId>;
      seqNo, targets := NextBroadcast(key);
      sentTo := targets - backlog;
      var closed := targets * backlog;
      if closed != {} {
        clients := clients - closed;
        disconnects := disconnects + |closed|;
      }
    }

    static twostate lemma BookStays(b: OrderBook.OrderBook)
      requires unchanged(b, b.bidLadder, b.askLadder) && unchanged(old(b.bidLadder.qtys), old(b.askLadder.qtys))
      requires old(b.Valid())
      ensures b.Valid() && b.Abs() == old(b.Abs())
    {
    }

    static lemma RepliesMore(texts: seq<string>, i: nat, seqMap: map<Key, nat>, books: map<Key, Book>)
      requires i < |texts|
      ensures Replies(texts[..i + 1], seqMap, books) ==
              Replies(texts[..i], seqMap, books) + ReplyTo(texts[i], seqMap, BookOfText(texts[i], books))
    {
      assert texts[..i + 1][..i] == texts[..i];
    }

    static function BookOf(text: string, books: map<Key, OrderBook.OrderBook>): OrderBook.OrderBook? {
      match StreamName.ParseStream(text)
      case None => null
      case Some(stream) => if StreamName.Key(stream) in books then books[StreamName.Key(stream)] else null
    }

    /** The snapshot of a book and its stamp; nothing without a book or before its own snapshot. */
    method Quote(stream: StreamName.Stream, book: OrderBook.OrderBook?) returns (reply: seq<Reply>)
      requires book != null ==> book.Valid()
      ensures reply == QuoteOf(stream, seqMap, if book == null then None else Some(book.Abs()))
    {
      if book == null {
        return [];
      }
      var applied, asks, bids := book.GetSnapshot();
      if !applied {
        return [];
      }
      ListsIsTop(true, book.Abs().bids.levels, bids);
      ListsIsTop(false, book.Abs().asks.levels, asks);
      return [Snapshot(stream, SeqOf(seqMap, StreamName.Key(stream)), bids, asks)];
    }

    static lemma KeysOfOne(text: string)
      ensures var parsed := StreamName.ParseStream(text);
              KeysOf([text]) == if parsed.None? then {} else {StreamName.Key(parsed.value)}
    {
      assert text in [text];
    }

    /** One text of a request. The snapshot, its stamp and the registration belong to one lock
        section; the reply is sent after it. */
    method Subscribe(id: ClientId, text: string, book: OrderBook.OrderBook?) returns (reply: seq<Reply>)
      requires book != null ==> book.Valid()
      modifies this`clients
      ensures reply == ReplyTo(text, seqMap, if book == null then None else Some(old(book.Abs())))
      ensures clients == Registered(old(clients), id, KeysOf([text]))
      ensures id !in old(clients) ==> forall key :: id !in Targets(clients, key)
    {
      KeysOfOne(text);
      var parsed := StreamName.ParseStream(text);
      if parsed.None? {
        return [BadStream(text)];
      }
      var key := StreamName.Key(parsed.value);
      reply := Quote(parsed.value, book);
      var was := if id in clients then clients[id] else ClientState(false, {});
      clients := clients[id := was.(streams := was.streams + {key})];
    }

    static ghost function Quoted(books: map<Key, OrderBook.OrderBook>): map<Key, Book>
      reads books.Values, set b <- books.Values :: b.bidLadder, set b <- books.Values :: b.askLadder
    {
      map k | k in books :: books[k].Abs()
    }

    static lemma KeysOfMore(texts: seq<string>, i: nat)
      requires i < |texts|
      ensures KeysOf(texts[..i + 1]) == KeysOf(texts[..i]) + KeysOf([texts[i]])
    {
      assert texts[..i + 1] == texts[..i] + [texts[i]];
    }

    static lemma RegisterMore(m: map<ClientId, ClientState>, id: ClientId, ks: set<Key>, more: set<Key>)
      ensures Registered(Registered(m, id, ks), id, more) == Registered(m, id, ks + more)
    {
      var was := if id in m then m[id] else ClientState(false, {});
      assert was.streams + ks + more == was.streams + (ks + more);
      assert ks == {} ==> ks + more == more;
      assert more == {} ==> ks + more == ks;
    }

    static lemma RegisterText(m: map<ClientId, ClientState>, id: ClientId, texts: seq<string>, i: nat)
      requires i < |texts|
      ensures Registered(Registered(m, id, KeysOf(texts[..i])), id, KeysOf([texts[i]])) ==
              Registered(m, id, KeysOf(texts[..i + 1]))
    {
      KeysOfMore(texts, i);
      RegisterMore(m, id, KeysOf(texts[..i]), KeysOf([texts[i]]));
    }

    /** `handleSubscribe` without interference: every text is answered in turn, and every stream
        named is registered. */
    method HandleSubscribe(id: ClientId, texts: seq<string>, books: map<Key, OrderBook.OrderBook>)
      returns (replies: seq<Reply>)
      requires forall k :: k in books ==> books[k].Valid()
      modifies this`clients
      ensures replies == Replies(texts, seqMap, old(Quoted(books)))
      ensures clients == Registered(old(clients), id, KeysOf(texts))
    {
      replies := [];
      ghost var before, quoted, numbers := clients, Quoted(books), seqMap;
      forall k | k in books
        ensures k in quoted && quoted[k] == books[k].Abs()
      {
      }
      for i := 0 to |texts|
        invariant seqMap == numbers && replies == Replies(texts[..i], numbers, quoted)
        invariant clients == Registered(before, id, KeysOf(texts[..i]))
      {
        RepliesMore(texts, i, numbers, quoted);
        RegisterText(before, id, texts, i);
        var book := BookOf(texts[i], books);
        if book != null {
          BookStays(book);
        }
        assert BookOfText(texts[i], quoted) == if book == null then None else Some(book.Abs());
        var reply := Subscribe(id, texts[i], book);
        replies := replies + reply;
      }
      assert texts[..|texts|] == texts;
    }

    static lemma DeregisterMore(m: map<ClientId, ClientState>, id: ClientId, ks: set<Key>, more: set<Key>)
      ensures Deregistered(Deregistered(m, id, ks), id, more) == Deregistered(m, id, ks + more)
    {
      if id in m {
        assert m[id].streams - ks - more == m[id].streams - (ks + more);
      }
    }

    static lemma DeregisterNone(m: map<ClientId, ClientState>, id: ClientId)
      ensures Deregistered(m, id, {}) == m
    {
      if id in m {
        assert m[id].streams - {} == m[id].streams;
      }
    }

    /** Unknown clients and texts that name no stream are ignored. */
    method HandleUnsubscribe(id: ClientId, texts: seq<string>)
      modifies this`clients
      ensures clients == Deregistered(old(clients), id, KeysOf(texts))
    {
      if id !in clients {
        return;
      }
      ghost var before := clients;
      DeregisterNone(before, id);
      assert KeysOf(texts[..0]) == {};
      for i := 0 to |texts|
        invariant id in clients && clients == Deregistered(before, id, KeysOf(texts[..i]))
      {
        KeysOfMore(texts, i);
        KeysOfOne(texts[i]);
        DeregisterMore(before, id, KeysOf(texts[..i]), KeysOf([texts[i]]));
        DeregisterNone(clients, id);
        var parsed := StreamName.ParseStream(texts[i]);
        if parsed.Some? {
          clients := clients[id := clients[id].(streams := clients[id].streams - {StreamName.Key(parsed.value)})];
        }
      }
      assert texts[..|texts|] == texts;
    }
  }
}
