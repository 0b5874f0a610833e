/** A subscriber's copy of the book: a snapshot, then absolute quantities. */
module Replica {
  import opened Int64
  import opened Levels
  import opened LadderSpec
  import opened BookSpec
  import opened Conservation

  /** A side as a client keeps it: each `[price, qty]` pair overwrites, 0 removes. */
  function Overwrite(m: map<int, int>, v: seq<Level>): map<int, int> {
    if v == [] then m else Put(Overwrite(m, v[..|v| - 1]), v[|v| - 1].price, v[|v| - 1].qty)
  }

  /** What `broadcastUpdate` puts in a message: the genuine deltas of one side, in order. */
  function Broadcast(ds: seq<LevelDelta>, isBid: bool): seq<Level> {
    if ds == [] then []
    else
      var d := ds[|ds| - 1];
      Broadcast(ds[..|ds| - 1], isBid)
      + if d.kind == Genuine && d.isBid == isBid then [Level(d.price, d.newQty)] else []
  }

  /** The copy has every level of the book, with its quantity; it may have more. */
  ghost predicate Agrees(m: map<int, int>, book: map<int, int>) {
    forall p :: p in book ==> p in m && m[p] == book[p]
  }

  /** The same at one price: both have no level there, or both the same one. */
  predicate SameAt(m: map<int, int>, n: map<int, int>, p: int) {
    Get(m, p) == Get(n, p) && (p in m <==> p in n)
  }

  // ---------------------------------------------------------------- overwriting

  lemma {:induction false} OverwriteAppend(m: map<int, int>, v: seq<Level>, w: seq<Level>)
    ensures Overwrite(m, v + w) == Overwrite(Overwrite(m, v), w)
  {
    if w == [] {
      assert v + w == v;
    } else {
      assert (v + w)[..|v + w| - 1] == v + w[..|w| - 1];
      OverwriteAppend(m, v, w[..|w| - 1]);
    }
  }

  lemma PutAt(m: map<int, int>, p: int, q: int, x: int)
    ensures x == p ==> Get(Put(m, p, q), x) == q && (x in Put(m, p, q) <==> q != 0)
    ensures x != p ==> SameAt(Put(m, p, q), m, x)
  {
  }

  /** The result at a listed price does not depend on the start; an unlisted price keeps its own. */
  lemma {:induction false} OverwriteForgets(m: map<int, int>, n: map<int, int>, v: seq<Level>, p: int)
    ensures InView(v, p) ==> SameAt(Overwrite(m, v), Overwrite(n, v), p)
    ensures !InView(v, p) ==> SameAt(Overwrite(m, v), m, p)
  {
    if v == [] {
    } else {
      var k := |v| - 1;
      OverwriteForgets(m, n, v[..k], p);
      OfiView.InViewAppend(v[..k], v[k], p);
      assert v[..k] + [v[k]] == v;
      PutAt(Overwrite(m, v[..k]), v[k].price, v[k].qty, p);
      PutAt(Overwrite(n, v[..k]), v[k].price, v[k].qty, p);
    }
  }

  /** Receiving a batch a second time changes nothing, as far as the book is concerned. */
  lemma OverwriteAgain(earlier: map<int, int>, m: map<int, int>, book: map<int, int>, v: seq<Level>)
    requires Agrees(Overwrite(earlier, v), book) && Agrees(m, book)
    ensures Agrees(Overwrite(m, v), book)
  {
    forall p | p in book
      ensures p in Overwrite(m, v) && Overwrite(m, v)[p] == book[p]
    {
      OverwriteForgets(m, earlier, v, p);
    }
  }

  lemma SameMap<K, V>(m: map<K, V>, n: map<K, V>)
    requires forall k :: k in m <==> k in n
    requires forall k :: k in m ==> m[k] == n[k]
    ensures m == n
  {
  }

  lemma OverwriteAgainExact(earlier: map<int, int>, book: map<int, int>, v: seq<Level>)
    requires Overwrite(earlier, v) == book
    ensures Overwrite(book, v) == book
  {
    var m := Overwrite(book, v);
    forall p
      ensures p in m <==> p in book
    {
      OverwriteForgets(book, earlier, v, p);
    }
    forall p | p in m
      ensures m[p] == book[p]
    {
      OverwriteForgets(book, earlier, v, p);
      assert Get(m, p) == Get(book, p);
    }
    SameMap(m, book);
  }

  // ---------------------------------------------------------------- what a batch broadcasts

  lemma {:induction false} BroadcastAppend(a: seq<LevelDelta>, b: seq<LevelDelta>, isBid: bool)
    ensures Broadcast(a + b, isBid) == Broadcast(a, isBid) + Broadcast(b, isBid)
  {
    if b == [] {
      assert a + b == a;
    } else {
      assert (a + b)[..|a + b| - 1] == a + b[..|b| - 1];
      BroadcastAppend(a, b[..|b| - 1], isBid);
    }
  }

  lemma {:induction false} NothingGenuine(ds: seq<LevelDelta>, isBid: bool)
    requires forall i :: 0 <= i < |ds| ==> ds[i].kind != Genuine || ds[i].isBid != isBid
    ensures Broadcast(ds, isBid) == []
  {
    if ds == [] {
    } else {
      NothingGenuine(ds[..|ds| - 1], isBid);
    }
  }

  /** A change broadcasts its own level on its own side, unless it is dropped or leaves the
      quantity alone; never what it moved in or out of the view. */
  lemma ChangeBroadcasts(ps: Params, isBid: bool, l: Ladder, p: int, q: int, side: bool)
    ensures Broadcast(Deltas(ps, isBid, Genuine, l, p, q), side) ==
            if side == isBid && !IsDropped(ps.c, isBid, l, p) && q != Get(l.levels, p) then [Level(p, q)] else []
  {
    var ds := Deltas(ps, isBid, Genuine, l, p, q);
    if ds != [] {
      var head := ds[0];
      assert ds == [head] + ds[1..];
      BroadcastAppend([head], ds[1..], side);
      NothingGenuine(ds[1..], side);
      assert [head][..0] == [];
    }
  }

  lemma ChangeReplicates(ps: Params, isBid: bool, l: Ladder, p: int, q: int, m: map<int, int>)
    requires ps.c.Valid() && l.Valid(ps.c) && ps.c.PriceOk(p) && 0 <= q <= MAX
    ensures var v := Broadcast(Deltas(ps, isBid, Genuine, l, p, q), isBid);
            var l' := Change(ps.c, isBid, l, p, q);
            && (Agrees(m, l.levels) ==> Agrees(Overwrite(m, v), l'.levels))
            && (m == l.levels && !Moves(ps.c, isBid, l, p) ==> Overwrite(m, v) == l'.levels)
  {
    ChangeBroadcasts(ps, isBid, l, p, q, isBid);
    var l' := Change(ps.c, isBid, l, p, q);
    if !IsDropped(ps.c, isBid, l, p) && q != Get(l.levels, p) {
      var v := [Level(p, q)];
      assert v[..0] == [] && Overwrite(m, v) == Put(m, p, q);
    } else if !IsDropped(ps.c, isBid, l, p) {
      assert Put(l.levels, p, q) == l.levels;
    }
  }

  /** A copy that has the levels of the book still has them after the batch; a copy that equals
      the book still equals it if no window moved. */
  lemma {:induction false} BatchReplicates(ps: Params, b: Book, es: seq<Edit>, isBid: bool, m: map<int, int>)
    requires ps.c.Valid() && b.Valid(ps) && EditsOk(ps.c, es)
    ensures var v := Broadcast(AllDeltas(ps, Genuine, b, es), isBid);
            var b' := ApplyAll(ps.c, b, es);
            && (Agrees(m, b.Side(isBid).levels) ==> Agrees(Overwrite(m, v), b'.Side(isBid).levels))
            && (m == b.Side(isBid).levels && !BatchMoves(ps.c, b, es) ==> Overwrite(m, v) == b'.Side(isBid).levels)
  {
    if es == [] {
    } else {
      var n := |es| - 1;
      var a, e := ApplyAll(ps.c, b, es[..n]), es[n];
      var v := Broadcast(AllDeltas(ps, Genuine, b, es[..n]), isBid);
      var w := Broadcast(EditDeltas(ps, Genuine, a, e), isBid);
      BatchReplicates(ps, b, es[..n], isBid, m);
      ApplyAllValid(ps, b, es[..n]);
      assert EditOk(ps.c, e);
      BroadcastAppend(AllDeltas(ps, Genuine, b, es[..n]), EditDeltas(ps, Genuine, a, e), isBid);
      OverwriteAppend(m, v, w);
      if e.isBid == isBid {
        ChangeReplicates(ps, isBid, a.Side(isBid), e.price, e.qty, Overwrite(m, v));
      } else {
        ChangeBroadcasts(ps, e.isBid, a.Side(e.isBid), e.price, e.qty, isBid);
      }
    }
  }
}
