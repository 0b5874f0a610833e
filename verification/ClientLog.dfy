/** What a client of one stream gets on its socket, and the book it makes of that. */
module ClientLog {
  import opened Wrappers
  import opened Levels
  import opened Replica

  datatype BookUpdate = BookUpdate(seqNo: nat, bids: seq<Level>, asks: seq<Level>) {
    function Side(isBid: bool): seq<Level> { if isBid then bids else asks }
  }

  datatype Sides = Sides(bids: map<int, int>, asks: map<int, int>) {
    function Side(isBid: bool): map<int, int> { if isBid then bids else asks }
  }

  /** One message on the socket. */
  datatype Msg = SnapshotMsg(seqNo: nat, sides: Sides) | UpdateMsg(update: BookUpdate)

  const NO_SIDES := Sides(map[], map[])

  /** The updates among the messages. */
  function Updates(log: seq<Msg>): seq<BookUpdate> {
    if log == [] then []
    else Updates(log[..|log| - 1]) + if log[|log| - 1].UpdateMsg? then [log[|log| - 1].update] else []
  }

  /** Where the latest snapshot ends: the number of messages up to it, 0 when there is none. */
  function SnapshotEnd(log: seq<Msg>): (k: nat)
    ensures k <= |log| && (k > 0 ==> log[k - 1].SnapshotMsg?) && forall i :: k <= i < |log| ==> log[i].UpdateMsg?
  {
    if log == [] then 0
    else if log[|log| - 1].SnapshotMsg? then |log|
    else SnapshotEnd(log[..|log| - 1])
  }

  function LatestSnapshot(log: seq<Msg>): Option<Msg> {
    if SnapshotEnd(log) > 0 then Some(log[SnapshotEnd(log) - 1]) else None
  }

  /** The updates stamped later than `n`. */
  function Fresh(us: seq<BookUpdate>, n: nat): seq<BookUpdate> {
    if us == [] then []
    else Fresh(us[..|us| - 1], n) + if us[|us| - 1].seqNo > n then [us[|us| - 1]] else []
  }

  function Receive(m: Sides, u: BookUpdate): Sides {
    Sides(Overwrite(m.bids, u.bids), Overwrite(m.asks, u.asks))
  }

  function Replay(m: Sides, us: seq<BookUpdate>): Sides {
    if us == [] then m else Receive(Replay(m, us[..|us| - 1]), us[|us| - 1])
  }

  // ---------------------------------------------------------------- the client

  /** `held`: the updates received so far, for a snapshot that may still come; `stamp`: the number
      of the latest snapshot. */
  datatype Client = Client(held: seq<BookUpdate>, stamp: Option<nat>, book: Sides)

  /** One message. A snapshot starts the book over and is followed by the held updates that are
      newer; an update that is newer than the snapshot overwrites, any other is only held. */
  function Hear(c: Client, m: Msg): Client {
    match m
    case SnapshotMsg(n, sides) => Client(c.held, Some(n), Replay(sides, Fresh(c.held, n)))
    case UpdateMsg(u) =>
      Client(c.held + [u], c.stamp,
             if c.stamp.Some? && u.seqNo > c.stamp.value then Receive(c.book, u) else c.book)
  }

  const NEWCOMER := Client([], None, NO_SIDES)

  /** A client that holds updates back until their snapshot comes. */
  function Listen(log: seq<Msg>): Client {
    if log == [] then NEWCOMER else Hear(Listen(log[..|log| - 1]), log[|log| - 1])
  }

  /** A client that holds nothing: what comes before a snapshot is gone with it. */
  function ListenUnheld(log: seq<Msg>): Client {
    if log == [] then NEWCOMER else Hear(ListenUnheld(log[..|log| - 1]).(held := []), log[|log| - 1])
  }

  // ---------------------------------------------------------------- appending

  lemma FreshAppend(us: seq<BookUpdate>, u: BookUpdate, n: nat)
    ensures Fresh(us + [u], n) == if u.seqNo > n then Fresh(us, n) + [u] else Fresh(us, n)
  {
    assert (us + [u])[..|us|] == us;
  }

  lemma ReplayAppend(m: Sides, us: seq<BookUpdate>, u: BookUpdate)
    ensures Replay(m, us + [u]) == Receive(Replay(m, us), u)
  {
    assert (us + [u])[..|us|] == us;
  }

  lemma LogAppend(log: seq<Msg>, m: Msg)
    ensures Updates(log + [m]) == if m.UpdateMsg? then Updates(log) + [m.update] else Updates(log)
    ensures LatestSnapshot(log + [m]) == if m.SnapshotMsg? then Some(m) else LatestSnapshot(log)
  {
    assert (log + [m])[..|log|] == log;
  }

  lemma {:induction false} UpdatesConcat(a: seq<Msg>, b: seq<Msg>)
    ensures Updates(a + b) == Updates(a) + Updates(b)
  {
    if b == [] {
      assert a + b == a;
    } else {
      var n := |b| - 1;
      assert a + b == a + b[..n] + [b[n]] && b == b[..n] + [b[n]];
      LogAppend(a + b[..n], b[n]);
      UpdatesConcat(a, b[..n]);
    }
  }

  lemma {:induction false} FreshConcat(a: seq<BookUpdate>, b: seq<BookUpdate>, n: nat)
    ensures Fresh(a + b, n) == Fresh(a, n) + Fresh(b, n)
  {
    if b == [] {
      assert a + b == a;
    } else {
      var k := |b| - 1;
      assert a + b == a + b[..k] + [b[k]] && b == b[..k] + [b[k]];
      FreshAppend(a + b[..k], b[k], n);
      FreshConcat(a, b[..k], n);
    }
  }

  lemma {:induction false} ReplayConcat(m: Sides, a: seq<BookUpdate>, b: seq<BookUpdate>)
    ensures Replay(m, a + b) == Replay(Replay(m, a), b)
  {
    if b == [] {
      assert a + b == a;
    } else {
      var k := |b| - 1;
      assert a + b == a + b[..k] + [b[k]];
      ReplayAppend(m, a + b[..k], b[k]);
      ReplayConcat(m, a, b[..k]);
    }
  }

  /** All numbers are at most `n`. */
  predicate Upto(us: seq<BookUpdate>, n: nat) {
    forall i :: 0 <= i < |us| ==> us[i].seqNo <= n
  }

  lemma {:induction false} NothingFresh(us: seq<BookUpdate>, n: nat)
    requires Upto(us, n)
    ensures Fresh(us, n) == []
  {
    if us == [] {
    } else {
      NothingFresh(us[..|us| - 1], n);
    }
  }

  // ---------------------------------------------------------------- what the clients end up with

  /** Holding back makes the order of arrival immaterial: the book is the latest snapshot with all
      updates that are newer, whether they came before it or after it. */
  lemma {:induction false} ListenIsReplay(log: seq<Msg>)
    ensures Listen(log).held == Updates(log)
    ensures match LatestSnapshot(log)
            case None => Listen(log).stamp == None
            case Some(s) => && Listen(log).stamp == Some(s.seqNo)
                            && Listen(log).book == Replay(s.sides, Fresh(Updates(log), s.seqNo))
  {
    if log == [] {
    } else {
      var n := |log| - 1;
      var m, before := log[n], LatestSnapshot(log[..n]);
      ListenIsReplay(log[..n]);
      assert log == log[..n] + [m];
      LogAppend(log[..n], m);
      if m.UpdateMsg? && before.Some? {
        FreshAppend(Updates(log[..n]), m.update, before.value.seqNo);
        ReplayAppend(before.value.sides, Fresh(Updates(log[..n]), before.value.seqNo), m.update);
      }
    }
  }

  /** The updates that came after the latest snapshot. */
  function Late(log: seq<Msg>): seq<BookUpdate> {
    Updates(log[SnapshotEnd(log)..])
  }

  lemma LateAppend(log: seq<Msg>, m: Msg)
    ensures Late(log + [m]) == if m.SnapshotMsg? then [] else Late(log) + [m.update]
  {
    var k := SnapshotEnd(log);
    assert (log + [m])[..|log|] == log;
    if m.UpdateMsg? {
      assert (log + [m])[k..] == log[k..] + [m];
      LogAppend(log[k..], m);
    }
  }

  /** Without holding back, only what comes after the snapshot is in the book. */
  lemma {:induction false} UnheldIsReplay(log: seq<Msg>)
    ensures match LatestSnapshot(log)
            case None => ListenUnheld(log).stamp == None
            case Some(s) => && ListenUnheld(log).stamp == Some(s.seqNo)
                            && ListenUnheld(log).book == Replay(s.sides, Fresh(Late(log), s.seqNo))
  {
    if log == [] {
    } else {
      var n := |log| - 1;
      var m := log[n];
      UnheldIsReplay(log[..n]);
      LateAppend(log[..n], m);
      assert log == log[..n] + [m];
      LogAppend(log[..n], m);
      if m.SnapshotMsg? {
        assert Replay(m.sides, Fresh([], m.seqNo)) == m.sides;
      } else if LatestSnapshot(log).Some? {
        var s := LatestSnapshot(log).value;
        FreshAppend(Late(log[..n]), m.update, s.seqNo);
        ReplayAppend(s.sides, Fresh(Late(log[..n]), s.seqNo), m.update);
      }
    }
  }

  /** All entries of one side, in order. */
  function Entries(us: seq<BookUpdate>, isBid: bool): seq<Level> {
    if us == [] then [] else Entries(us[..|us| - 1], isBid) + us[|us| - 1].Side(isBid)
  }

  lemma {:induction false} ReplayIsOverwrite(m: Sides, us: seq<BookUpdate>, isBid: bool)
    ensures Replay(m, us).Side(isBid) == Overwrite(m.Side(isBid), Entries(us, isBid))
  {
    if us == [] {
    } else {
      var n := |us| - 1;
      ReplayIsOverwrite(m, us[..n], isBid);
      OverwriteAppend(m.Side(isBid), Entries(us[..n], isBid), us[n].Side(isBid));
    }
  }

  /** Listed by a newer update that came before the snapshot, and by none after it. */
  predicate IsMissed(log: seq<Msg>, isBid: bool, p: int)
    requires LatestSnapshot(log).Some?
  {
    var k, n := SnapshotEnd(log), LatestSnapshot(log).value.seqNo;
    && InView(Entries(Fresh(Updates(log[..k]), n), isBid), p)
    && !InView(Entries(Fresh(Late(log), n), isBid), p)
  }

  /** Leaving out `early` shows only at prices that it lists and `late` does not. */
  lemma SkippedShows(base: map<int, int>, early: seq<Level>, late: seq<Level>, p: int)
    ensures SameAt(Overwrite(base, late),
                   if InView(early, p) && !InView(late, p) then base else Overwrite(Overwrite(base, early), late), p)
  {
    var mid := Overwrite(base, early);
    OverwriteForgets(base, mid, late, p);
    OverwriteForgets(mid, base, late, p);
    OverwriteForgets(base, base, early, p);
  }

  lemma FreshInTwo(log: seq<Msg>, n: nat)
    ensures Fresh(Updates(log), n) == Fresh(Updates(log[..SnapshotEnd(log)]), n) + Fresh(Late(log), n)
  {
    var k := SnapshotEnd(log);
    assert log == log[..k] + log[k..];
    UpdatesConcat(log[..k], log[k..]);
    FreshConcat(Updates(log[..k]), Late(log), n);
  }

  lemma ReplayInTwo(m: Sides, a: seq<BookUpdate>, b: seq<BookUpdate>, isBid: bool)
    ensures Replay(m, a + b).Side(isBid) == Overwrite(Overwrite(m.Side(isBid), Entries(a, isBid)), Entries(b, isBid))
  {
    ReplayConcat(m, a, b);
    ReplayIsOverwrite(m, a, isBid);
    ReplayIsOverwrite(Replay(m, a), b, isBid);
  }

  /** The book of the holding client, with the updates split by when they came. */
  lemma ListenInTwo(log: seq<Msg>, isBid: bool)
    requires LatestSnapshot(log).Some?
    ensures var k, s := SnapshotEnd(log), LatestSnapshot(log).value;
            var early := Entries(Fresh(Updates(log[..k]), s.seqNo), isBid);
            Listen(log).book.Side(isBid) ==
            Overwrite(Overwrite(s.sides.Side(isBid), early), Entries(Fresh(Late(log), s.seqNo), isBid))
  {
    var k, s := SnapshotEnd(log), LatestSnapshot(log).value;
    ListenIsReplay(log);
    FreshInTwo(log, s.seqNo);
    ReplayInTwo(s.sides, Fresh(Updates(log[..k]), s.seqNo), Fresh(Late(log), s.seqNo), isBid);
  }

  /** A client that holds nothing has the right quantity at every price but the missed ones, and
      there it has what the snapshot says. */
  lemma UnheldExactly(log: seq<Msg>, isBid: bool, p: int)
    requires LatestSnapshot(log).Some?
    ensures var base := LatestSnapshot(log).value.sides;
            SameAt(ListenUnheld(log).book.Side(isBid),
                   (if IsMissed(log, isBid, p) then base else Listen(log).book).Side(isBid), p)
  {
    var k, s := SnapshotEnd(log), LatestSnapshot(log).value;
    var early, late := Fresh(Updates(log[..k]), s.seqNo), Fresh(Late(log), s.seqNo);
    ListenInTwo(log, isBid);
    UnheldIsReplay(log);
    ReplayIsOverwrite(s.sides, late, isBid);
    SkippedShows(s.sides.Side(isBid), Entries(early, isBid), Entries(late, isBid), p);
  }
}
