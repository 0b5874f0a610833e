/** The book against the exchange it mirrors. The exchange is a ledger that gives, for every
    sequence number, the quantity at every price of either side. */
module History {
  import opened Int64
  import opened Wrappers
  import opened Levels
  import opened LadderSpec
  import opened BookSpec
  import opened Conservation

  /** `h(id, isBid, price)`: the quantity after update `id`, 0 when there is no level. */
  type Ledger = (int, bool, int) -> int

  function Listed(d: Diff, isBid: bool): seq<Level> {
    if isBid then d.bids else d.asks
  }

  predicate Quotes(h: Ledger, id: int, isBid: bool, v: seq<Level>) {
    forall i :: 0 <= i < |v| ==> v[i].qty == h(id, isBid, v[i].price)
  }

  predicate ChangedAt(h: Ledger, isBid: bool, p: int, id: int) {
    h(id, isBid, p) != h(id - 1, isBid, p)
  }

  /** A diff `[first, last]` carries the quantity at `last` of every price changed in it. */
  ghost predicate FaithfulDiff(h: Ledger, d: Diff) {
    && Quotes(h, d.last, false, d.asks) && Quotes(h, d.last, true, d.bids)
    && forall isBid, p, id :: d.first <= id <= d.last && ChangedAt(h, isBid, p, id) ==> InView(Listed(d, isBid), p)
  }

  predicate FaithfulDepth(h: Ledger, s: Depth) {
    Quotes(h, s.id, false, s.asks) && Quotes(h, s.id, true, s.bids)
  }

  /** A snapshot that lists every level there is. */
  ghost predicate FullDepth(c: Config, h: Ledger, s: Depth)
    requires c.tick > 0
  {
    && (forall p :: c.PriceOk(p) && h(s.id, false, p) != 0 ==> InView(s.asks, p))
    && (forall p :: c.PriceOk(p) && h(s.id, true, p) != 0 ==> InView(s.bids, p))
  }

  /** Every level held is the exchange's level at the book's sequence number. */
  ghost predicate Sound(h: Ledger, b: Book) {
    forall isBid, p :: p in b.Side(isBid).levels ==> b.Side(isBid).levels[p] == h(b.lastId, isBid, p)
  }

  // ---------------------------------------------------------------- where levels come from

  predicate Edited(es: seq<Edit>, isBid: bool, p: int) {
    exists i :: 0 <= i < |es| && es[i].isBid == isBid && es[i].price == p
  }

  ghost predicate EditsQuote(h: Ledger, id: int, es: seq<Edit>) {
    forall i :: 0 <= i < |es| ==> es[i].qty == h(id, es[i].isBid, es[i].price)
  }

  /** Dropping a change and moving the window only take levels away. */
  lemma ChangeLevels(c: Config, isBid: bool, l: Ladder, p: int, q: int, x: int)
    requires c.Valid() && l.Valid(c) && c.PriceOk(p) && 0 <= q <= MAX
    requires x in Change(c, isBid, l, p, q).levels
    ensures var m := Change(c, isBid, l, p, q).levels;
            if x == p then m[x] == q else x in l.levels && m[x] == l.levels[x]
  {
  }

  lemma EditedAppend(es: seq<Edit>, isBid: bool, x: int)
    requires es != []
    ensures var n := |es| - 1;
            Edited(es, isBid, x) <==> Edited(es[..n], isBid, x) || (es[n].isBid == isBid && es[n].price == x)
  {
    var n := |es| - 1;
    if i :| 0 <= i < n && es[..n][i].isBid == isBid && es[..n][i].price == x {
      assert es[i] == es[..n][i];
    }
    if i :| 0 <= i < |es| && es[i].isBid == isBid && es[i].price == x {
      assert i < n ==> es[..n][i] == es[i];
    }
  }

  /** The quantity that the last edit of a price gives it. */
  function LastEdit(es: seq<Edit>, isBid: bool, x: int): Option<int> {
    if es == [] then None
    else if es[|es| - 1].isBid == isBid && es[|es| - 1].price == x then Some(es[|es| - 1].qty)
    else LastEdit(es[..|es| - 1], isBid, x)
  }

  /** What a batch leaves at a price: the quantity of the last edit where it has one, the old one
      elsewhere. */
  lemma {:induction false} BatchLevels(ps: Params, b: Book, es: seq<Edit>, isBid: bool, x: int)
    requires ps.c.Valid() && b.Valid(ps) && EditsOk(ps.c, es)
    requires x in ApplyAll(ps.c, b, es).Side(isBid).levels
    ensures var q := ApplyAll(ps.c, b, es).Side(isBid).levels[x];
            match LastEdit(es, isBid, x)
            case Some(last) => q == last
            case None => x in b.Side(isBid).levels && q == b.Side(isBid).levels[x]
  {
    if es == [] {
    } else {
      var n := |es| - 1;
      var a, e := ApplyAll(ps.c, b, es[..n]), es[n];
      ApplyAllValid(ps, b, es[..n]);
      assert EditOk(ps.c, e);
      if e.isBid == isBid {
        ChangeLevels(ps.c, isBid, a.Side(isBid), e.price, e.qty, x);
      }
      if e.isBid != isBid || e.price != x {
        BatchLevels(ps, b, es[..n], isBid, x);
      }
    }
  }

  /** Of edits that quote the exchange it does not matter which is the last. */
  lemma {:induction false} LastEditQuotes(h: Ledger, id: int, es: seq<Edit>, isBid: bool, x: int)
    requires EditsQuote(h, id, es)
    ensures LastEdit(es, isBid, x) == if Edited(es, isBid, x) then Some(h(id, isBid, x)) else None
  {
    if es == [] {
    } else {
      EditedAppend(es, isBid, x);
      LastEditQuotes(h, id, es[..|es| - 1], isBid, x);
    }
  }

  /** The last quantity listed for a price. */
  function LastListed(v: seq<Level>, p: int): Option<int> {
    if v == [] then None
    else if v[|v| - 1].price == p then Some(v[|v| - 1].qty)
    else LastListed(v[..|v| - 1], p)
  }

  lemma {:induction false} LastOfSide(es: seq<Edit>, side: bool, v: seq<Level>, isBid: bool, x: int)
    ensures LastEdit(es + Edits(side, v), isBid, x) ==
            if side == isBid && LastListed(v, x).Some? then LastListed(v, x) else LastEdit(es, isBid, x)
  {
    if v == [] {
      assert es + Edits(side, v) == es;
    } else {
      var n := |v| - 1;
      var all := es + Edits(side, v);
      assert all[..|all| - 1] == es + Edits(side, v[..n]);
      LastOfSide(es, side, v[..n], isBid, x);
    }
  }

  /** What an applied update leaves at a price: the last quantity its side lists for it, or the old
      one when it lists none. */
  lemma UpdateLevels(ps: Params, b: Book, d: Diff, isBid: bool, x: int)
    requires ps.c.Valid() && b.Valid(ps) && DiffOk(ps.c, d) && b.lastId < d.last && d.first <= b.lastId + 1
    requires x in Update(ps.c, b, d).Side(isBid).levels
    ensures var q := Update(ps.c, b, d).Side(isBid).levels[x];
            match LastListed(Listed(d, isBid), x)
            case Some(last) => q == last
            case None => x in b.Side(isBid).levels && q == b.Side(isBid).levels[x]
  {
    BatchLevels(ps, b, d.Batch(), isBid, x);
    assert [] + Edits(false, d.asks) == Edits(false, d.asks);
    LastOfSide([], false, d.asks, isBid, x);
    LastOfSide(Edits(false, d.asks), true, d.bids, isBid, x);
  }

  /** The batch of a diff quotes what the diff quotes, and edits what it lists. */
  lemma BatchOfDiff(c: Config, h: Ledger, d: Diff)
    requires c.tick > 0 && DiffOk(c, d) && FaithfulDiff(h, d)
    ensures EditsOk(c, d.Batch()) && EditsQuote(h, d.last, d.Batch())
    ensures forall isBid, p :: Edited(d.Batch(), isBid, p) <==> InView(Listed(d, isBid), p)
  {
    var es, a := d.Batch(), |d.asks|;
    forall isBid, p
      ensures Edited(es, isBid, p) <==> InView(Listed(d, isBid), p)
    {
      if i :| 0 <= i < |Listed(d, isBid)| && Listed(d, isBid)[i].price == p {
        assert es[if isBid then a + i else i] == Edit(isBid, Listed(d, isBid)[i].price, Listed(d, isBid)[i].qty);
      }
      if i :| 0 <= i < |es| && es[i].isBid == isBid && es[i].price == p {
        assert Listed(d, isBid)[if isBid then i - a else i].price == p;
      }
    }
  }

  /** What no diff mentions has not changed. */
  lemma {:induction false} Unchanged(h: Ledger, d: Diff, isBid: bool, p: int, id: int)
    requires FaithfulDiff(h, d) && !InView(Listed(d, isBid), p)
    requires d.first - 1 <= id <= d.last
    ensures h(id, isBid, p) == h(d.last, isBid, p)
    decreases d.last - id
  {
    if id == d.last {
    } else {
      assert !ChangedAt(h, isBid, p, id + 1);
      Unchanged(h, d, isBid, p, id + 1);
    }
  }

  // ---------------------------------------------------------------- soundness

  lemma UpdateSound(ps: Params, h: Ledger, b: Book, d: Diff)
    requires ps.c.Valid() && b.Valid(ps) && DiffOk(ps.c, d) && FaithfulDiff(h, d) && Sound(h, b)
    ensures Sound(h, Update(ps.c, b, d))
  {
    if !IsStale(b, d) && !IsGap(b, d) {
      BatchOfDiff(ps.c, h, d);
      var b' := Update(ps.c, b, d);
      forall isBid, p | p in b'.Side(isBid).levels
        ensures b'.Side(isBid).levels[p] == h(b'.lastId, isBid, p)
      {
        BatchLevels(ps, b, d.Batch(), isBid, p);
        LastEditQuotes(h, d.last, d.Batch(), isBid, p);
        if !InView(Listed(d, isBid), p) {
          Unchanged(h, d, isBid, p, b.lastId);
        }
      }
    }
  }

  lemma {:induction false} LoadQuotes(c: Config, v: seq<Level>, p: int)
    requires p in Load(c, v).levels
    ensures exists i :: 0 <= i < |v| && v[i] == Level(p, Load(c, v).levels[p])
  {
    if v == [] {
    } else {
      var n := |v| - 1;
      var l := Load(c, v[..n]);
      if Load(c, v) == l || p != v[n].price {
        LoadQuotes(c, v[..n], p);
        var i :| 0 <= i < n && v[..n][i] == Level(p, l.levels[p]);
        assert v[i] == v[..n][i];
      } else {
        assert v[n] == Level(p, Load(c, v).levels[p]);
      }
    }
  }

  lemma LastPositive(v: seq<Level>, p: int)
    requires v != []
    ensures var n := |v| - 1;
            LastListed(Positive(v), p) == if v[n].qty > 0 && v[n].price == p then Some(v[n].qty) else LastListed(Positive(v[..n]), p)
  {
    var n := |v| - 1;
    if v[n].qty > 0 {
      assert Positive(v)[..|Positive(v)| - 1] == Positive(v[..n]);
    } else {
      assert Positive(v) == Positive(v[..n]);
    }
  }

  /** Of several levels with a price the last with a quantity is loaded. */
  lemma {:induction false} LoadLevels(c: Config, v: seq<Level>, p: int)
    requires c.Valid() && LevelsOk(c, v) && p in Load(c, v).levels
    ensures LastListed(Positive(v), p) == Some(Load(c, v).levels[p])
  {
    if v == [] {
    } else {
      var n := |v| - 1;
      var l, x := Load(c, v[..n]), v[n];
      LoadValid(c, v[..n]);
      LastPositive(v, p);
      if p in l.levels {
        LoadLevels(c, v[..n], p);
      }
    }
  }

  lemma SnapshotSound(ps: Params, h: Ledger, s: Depth)
    requires FaithfulDepth(h, s)
    ensures Sound(h, Snapshot(ps.c, s))
  {
    var b := Snapshot(ps.c, s);
    forall isBid, p | p in b.Side(isBid).levels
      ensures b.Side(isBid).levels[p] == h(s.id, isBid, p)
    {
      LoadQuotes(ps.c, if isBid then s.bids else s.asks, p);
    }
  }

  /** What can happen to a book. */
  datatype Event = Loaded(s: Depth) | Updated(d: Diff) | Wiped

  predicate EventOk(c: Config, e: Event)
    requires c.tick > 0
  {
    match e
    case Loaded(s) => DepthOk(c, s)
    case Updated(d) => DiffOk(c, d)
    case Wiped => true
  }

  ghost predicate Faithful(h: Ledger, e: Event) {
    match e
    case Loaded(s) => FaithfulDepth(h, s)
    case Updated(d) => FaithfulDiff(h, d)
    case Wiped => true
  }

  function Happen(c: Config, b: Book, e: Event): Book {
    match e
    case Loaded(s) => Snapshot(c, s)
    case Updated(d) => Update(c, b, d)
    case Wiped => CLEARED
  }

  function Run(c: Config, b: Book, evs: seq<Event>): Book {
    if evs == [] then b else Happen(c, Run(c, b, evs[..|evs| - 1]), evs[|evs| - 1])
  }

  lemma HappenSound(ps: Params, h: Ledger, b: Book, e: Event)
    requires ps.c.Valid() && b.Valid(ps) && Sound(h, b) && EventOk(ps.c, e) && Faithful(h, e)
    ensures Happen(ps.c, b, e).Valid(ps) && Sound(h, Happen(ps.c, b, e))
  {
    match e
    case Loaded(s) =>
      SnapshotValid(ps, s);
      SnapshotSound(ps, h, s);
    case Updated(d) =>
      UpdateValid(ps, b, d);
      UpdateSound(ps, h, b, d);
    case Wiped =>
  }

  /** After any sequence of snapshots, updates (stale, overlapping or gapped) and clears, also when
      a snapshot takes the sequence number back, no level held is wrong. */
  lemma {:induction false} RunSound(ps: Params, h: Ledger, evs: seq<Event>)
    requires ps.c.Valid() && forall i :: 0 <= i < |evs| ==> EventOk(ps.c, evs[i]) && Faithful(h, evs[i])
    ensures Run(ps.c, CLEARED, evs).Valid(ps) && Sound(h, Run(ps.c, CLEARED, evs))
  {
    if evs == [] {
    } else {
      var n := |evs| - 1;
      RunSound(ps, h, evs[..n]);
      HappenSound(ps, h, Run(ps.c, CLEARED, evs[..n]), evs[n]);
    }
  }

  // ---------------------------------------------------------------- completeness

  /** Beyond the window, on the side of better prices. */
  predicate Ahead(c: Config, isBid: bool, l: Ladder, p: int) {
    l.base.Some? && if isBid then p >= l.base.value + c.Size() * c.tick else p < l.base.value
  }

  /** How far a ladder is trusted: its window, or (`wide`) everything ahead of it as well. */
  datatype Trust = Narrow | Wide

  predicate Covered(c: Config, t: Trust, isBid: bool, l: Ladder, p: int) {
    l.base.None? || l.InRange(c, p) || (t.Wide? && Ahead(c, isBid, l, p))
  }

  /** The ladder says exactly what `val` says wherever it is trusted; with no window, everywhere. */
  ghost predicate Complete(c: Config, t: Trust, isBid: bool, l: Ladder, val: int -> int)
    requires c.tick > 0
  {
    forall p :: c.PriceOk(p) && Covered(c, t, isBid, l, p) ==> Get(l.levels, p) == val(p)
  }

  ghost function Quoted(h: Ledger, id: int, isBid: bool): int -> int {
    p => h(id, isBid, p)
  }

  /** The quantities half-way through a batch: new where edited, old elsewhere. */
  ghost function Midway(h: Ledger, before: int, after: int, es: seq<Edit>, isBid: bool): int -> int {
    p => if Edited(es, isBid, p) then h(after, isBid, p) else h(before, isBid, p)
  }

  // ---------------------------------------------------------------- what a book knows

  /** The prices of either side at which the ladder is known to be right, by the messages alone. */
  type Knowledge = (bool, int) -> bool

  ghost function AllCovered(c: Config, t: Trust, b: Book): Knowledge {
    (isBid, x) => Covered(c, t, isBid, b.Side(isBid), x)
  }

  /** A batch makes known what it edits; what is no longer covered is no longer known. */
  ghost function BatchKnown(c: Config, t: Trust, b: Book, k: Knowledge, es: seq<Edit>): Knowledge {
    if es == [] then k
    else
      var n := |es| - 1;
      var e, a, known := es[n], ApplyAll(c, b, es[..n]), BatchKnown(c, t, b, k, es[..n]);
      (isBid, x) =>
        if isBid != e.isBid then known(isBid, x)
        else Covered(c, t, isBid, Apply(c, a, e).Side(isBid), x) && (x == e.price || known(isBid, x))
  }

  /** Known prices are covered and right; at any other price the ladder has no level. */
  ghost predicate Exact(c: Config, t: Trust, isBid: bool, l: Ladder, val: int -> int, k: Knowledge)
    requires c.tick > 0
  {
    forall x :: c.PriceOk(x) ==>
      if k(isBid, x) then Covered(c, t, isBid, l, x) && Get(l.levels, x) == val(x) else x !in l.levels
  }

  /** Only the values at each price matter. */
  lemma ExactAgain(c: Config, t: Trust, isBid: bool, l: Ladder, val: int -> int, val': int -> int, k: Knowledge, k': Knowledge)
    requires c.tick > 0 && Exact(c, t, isBid, l, val, k)
    requires forall x :: val'(x) == val(x) && k'(isBid, x) == k(isBid, x)
    ensures Exact(c, t, isBid, l, val', k')
  {
  }

  /** So the ladder is complete exactly when nothing is quoted at the covered prices not known. */
  lemma CompleteIff(c: Config, t: Trust, isBid: bool, l: Ladder, val: int -> int, k: Knowledge)
    requires c.Valid() && Exact(c, t, isBid, l, val, k)
    ensures Complete(c, t, isBid, l, val) <==>
            forall x :: c.PriceOk(x) && Covered(c, t, isBid, l, x) && !k(isBid, x) ==> val(x) == 0
  {
  }

  lemma DroppedIsBehind(c: Config, t: Trust, isBid: bool, l: Ladder, p: int)
    requires c.Valid() && IsDropped(c, isBid, l, p)
    ensures !Covered(c, t, isBid, l, p)
  {
    SpanParts(c);
  }

  /** A move forward leaves what it is ahead of behind, or keeps it ahead; a move back takes an
      emptied side. Either way no level is ahead of the new window. */
  lemma NothingLeftAhead(c: Config, isBid: bool, l: Ladder, p: int, x: int)
    requires c.Valid() && l.Valid(c) && c.PriceOk(p) && Moves(c, isBid, l, p) && x in l.levels
    ensures !Ahead(c, isBid, Ladder(Some(c.Centre(p)), map[]), x)
  {
    CentreOk(c, p);
    SpanParts(c);
    WindowPassed(c, isBid, l, p);
  }

  lemma ChangeExact(c: Config, t: Trust, isBid: bool, l: Ladder, val: int -> int, val': int -> int,
                    k: Knowledge, k': Knowledge, p: int, q: int)
    requires c.Valid() && l.Valid(c) && c.PriceOk(p) && 0 <= q <= MAX && Exact(c, t, isBid, l, val, k)
    requires val'(p) == q && forall x :: x != p ==> val'(x) == val(x)
    requires forall x :: k'(isBid, x) <==> Covered(c, t, isBid, Change(c, isBid, l, p, q), x) && (x == p || k(isBid, x))
    ensures Exact(c, t, isBid, Change(c, isBid, l, p, q), val', k')
  {
    var l' := Change(c, isBid, l, p, q);
    if IsDropped(c, isBid, l, p) {
      DroppedIsBehind(c, t, isBid, l, p);
    } else {
      CentreOk(c, p);
      forall x | c.PriceOk(x)
        ensures if k'(isBid, x) then Get(l'.levels, x) == val'(x) else x !in l'.levels
      {
        if x != p && x in l.levels && Moves(c, isBid, l, p) {
          NothingLeftAhead(c, isBid, l, p, x);
        }
      }
    }
  }

  /** One change, exactly: a ladder that was complete still is, unless the window moved and the
      exchange has a level at some other price that the new window covers and the old did not. */
  lemma ChangeCompleteIff(c: Config, t: Trust, isBid: bool, l: Ladder, val: int -> int, val': int -> int, p: int, q: int)
    requires c.Valid() && l.Valid(c) && c.PriceOk(p) && 0 <= q <= MAX && Complete(c, t, isBid, l, val)
    requires val'(p) == q && forall x :: x != p ==> val'(x) == val(x)
    ensures var l' := Change(c, isBid, l, p, q);
            Complete(c, t, isBid, l', val') <==>
            (Moves(c, isBid, l, p) ==>
              forall x :: c.PriceOk(x) && x != p && Covered(c, t, isBid, l', x) && !Covered(c, t, isBid, l, x) ==> val'(x) == 0)
  {
    var l' := Change(c, isBid, l, p, q);
    var k: Knowledge := (_, x) => Covered(c, t, isBid, l, x);
    var k': Knowledge := (_, x) => Covered(c, t, isBid, l', x) && (x == p || Covered(c, t, isBid, l, x));
    ChangeExact(c, t, isBid, l, val, val', k, k', p, q);
    CompleteIff(c, t, isBid, l', val', k');
    if !Moves(c, isBid, l, p) {
      CentreOk(c, p);
    }
  }

  /** The same for the window alone, with nothing but arithmetic left in the condition. */
  lemma MoveCompleteIff(c: Config, isBid: bool, l: Ladder, val: int -> int, val': int -> int, p: int, q: int)
    requires c.Valid() && l.Valid(c) && c.PriceOk(p) && 0 <= q <= MAX && Complete(c, Narrow, isBid, l, val)
    requires Moves(c, isBid, l, p) && val'(p) == q && forall x :: x != p ==> val'(x) == val(x)
    ensures Complete(c, Narrow, isBid, Change(c, isBid, l, p, q), val') <==>
            forall x :: c.PriceOk(x) && x != p && c.InWindow(c.Centre(p), x) && !l.InRange(c, x) ==> val'(x) == 0
  {
    ChangeCompleteIff(c, Narrow, isBid, l, val, val', p, q);
  }

  lemma MidwayStep(h: Ledger, before: int, id: int, es: seq<Edit>, isBid: bool)
    requires es != [] && EditsQuote(h, id, es)
    ensures var e, val := es[|es| - 1], Midway(h, before, id, es[..|es| - 1], isBid);
            forall x :: Midway(h, before, id, es, isBid)(x) == if e.isBid == isBid && x == e.price then e.qty else val(x)
  {
    forall x
      ensures Edited(es, isBid, x) <==>
              Edited(es[..|es| - 1], isBid, x) || (es[|es| - 1].isBid == isBid && es[|es| - 1].price == x)
    {
      EditedAppend(es, isBid, x);
    }
  }

  lemma NothingEdited(c: Config, t: Trust, h: Ledger, id: int, b: Book, k: Knowledge, isBid: bool)
    requires c.tick > 0 && Exact(c, t, isBid, b.Side(isBid), Quoted(h, b.lastId, isBid), k)
    ensures Exact(c, t, isBid, b.Side(isBid), Midway(h, b.lastId, id, [], isBid), k)
  {
    var val := Midway(h, b.lastId, id, [], isBid);
    forall x
      ensures val(x) == h(b.lastId, isBid, x)
    {
      assert !Edited([], isBid, x);
    }
    ExactAgain(c, t, isBid, b.Side(isBid), Quoted(h, b.lastId, isBid), val, k, k);
  }

  lemma EditExact(ps: Params, t: Trust, a: Book, e: Edit, isBid: bool, val: int -> int, val': int -> int,
                  k: Knowledge, k': Knowledge)
    requires ps.c.Valid() && a.Valid(ps) && EditOk(ps.c, e) && Exact(ps.c, t, isBid, a.Side(isBid), val, k)
    requires forall x :: val'(x) == if e.isBid == isBid && x == e.price then e.qty else val(x)
    requires var l := Apply(ps.c, a, e).Side(isBid);
             forall x :: k'(isBid, x) == if isBid != e.isBid then k(isBid, x)
                                         else Covered(ps.c, t, isBid, l, x) && (x == e.price || k(isBid, x))
    ensures Exact(ps.c, t, isBid, Apply(ps.c, a, e).Side(isBid), val', k')
  {
    if e.isBid == isBid {
      ChangeExact(ps.c, t, isBid, a.Side(isBid), val, val', k, k', e.price, e.qty);
    } else {
      ExactAgain(ps.c, t, isBid, a.Side(isBid), val, val', k, k');
    }
  }

  lemma LastKnown(c: Config, t: Trust, b: Book, k: Knowledge, es: seq<Edit>, isBid: bool)
    requires es != []
    ensures var n := |es| - 1;
            var e, known, l := es[n], BatchKnown(c, t, b, k, es[..n]), ApplyAll(c, b, es).Side(isBid);
            forall x :: BatchKnown(c, t, b, k, es)(isBid, x) ==
                        if isBid != e.isBid then known(isBid, x)
                        else Covered(c, t, isBid, l, x) && (x == e.price || known(isBid, x))
  {
  }

  lemma {:induction false} BatchExact(ps: Params, t: Trust, h: Ledger, id: int, b: Book, es: seq<Edit>, k: Knowledge, isBid: bool)
    requires ps.c.Valid() && b.Valid(ps) && EditsOk(ps.c, es) && EditsQuote(h, id, es)
    requires Exact(ps.c, t, isBid, b.Side(isBid), Quoted(h, b.lastId, isBid), k)
    ensures Exact(ps.c, t, isBid, ApplyAll(ps.c, b, es).Side(isBid), Midway(h, b.lastId, id, es, isBid),
                  BatchKnown(ps.c, t, b, k, es))
  {
    if es == [] {
      NothingEdited(ps.c, t, h, id, b, k, isBid);
    } else {
      var n := |es| - 1;
      var a, e := ApplyAll(ps.c, b, es[..n]), es[n];
      var val, val' := Midway(h, b.lastId, id, es[..n], isBid), Midway(h, b.lastId, id, es, isBid);
      BatchExact(ps, t, h, id, b, es[..n], k, isBid);
      ApplyAllValid(ps, b, es[..n]);
      assert EditOk(ps.c, e);
      MidwayStep(h, b.lastId, id, es, isBid);
      var k1, k2 := BatchKnown(ps.c, t, b, k, es[..n]), BatchKnown(ps.c, t, b, k, es);
      LastKnown(ps.c, t, b, k, es, isBid);
      EditExact(ps, t, a, e, isBid, val, val', k1, k2);
    }
  }

  ghost predicate BookComplete(ps: Params, t: Trust, h: Ledger, b: Book)
    requires ps.c.tick > 0
  {
    forall isBid :: Complete(ps.c, t, isBid, b.Side(isBid), Quoted(h, b.lastId, isBid))
  }

  ghost predicate BookExact(ps: Params, t: Trust, h: Ledger, b: Book, k: Knowledge)
    requires ps.c.tick > 0
  {
    forall isBid :: Exact(ps.c, t, isBid, b.Side(isBid), Quoted(h, b.lastId, isBid), k)
  }

  ghost function UpdateKnown(c: Config, t: Trust, b: Book, k: Knowledge, d: Diff): Knowledge {
    if IsStale(b, d) || IsGap(b, d) then k else BatchKnown(c, t, b, k, d.Batch())
  }

  lemma UpdateExact(ps: Params, t: Trust, h: Ledger, b: Book, k: Knowledge, d: Diff)
    requires ps.c.Valid() && b.Valid(ps) && DiffOk(ps.c, d) && FaithfulDiff(h, d) && BookExact(ps, t, h, b, k)
    ensures BookExact(ps, t, h, Update(ps.c, b, d), UpdateKnown(ps.c, t, b, k, d))
  {
    if !IsStale(b, d) && !IsGap(b, d) {
      BatchOfDiff(ps.c, h, d);
      forall isBid
        ensures Exact(ps.c, t, isBid, Update(ps.c, b, d).Side(isBid), Quoted(h, d.last, isBid),
                      BatchKnown(ps.c, t, b, k, d.Batch()))
      {
        BatchExact(ps, t, h, d.last, b, d.Batch(), k, isBid);
        var val, k' := Midway(h, b.lastId, d.last, d.Batch(), isBid), BatchKnown(ps.c, t, b, k, d.Batch());
        forall p
          ensures val(p) == h(d.last, isBid, p)
        {
          if !InView(Listed(d, isBid), p) {
            Unchanged(h, d, isBid, p, b.lastId);
          }
        }
        ExactAgain(ps.c, t, isBid, Update(ps.c, b, d).Side(isBid), val, Quoted(h, d.last, isBid), k', k');
      }
    }
  }

  /** What loading skips is outside the window, so it is missed only there. */
  lemma {:induction false} LoadComplete(c: Config, h: Ledger, id: int, isBid: bool, v: seq<Level>)
    requires c.Valid() && LevelsOk(c, v) && Quotes(h, id, isBid, v)
    ensures forall p :: InView(v, p) && (Load(c, v).base.None? || Load(c, v).InRange(c, p))
              ==> Get(Load(c, v).levels, p) == h(id, isBid, p)
  {
    if v == [] {
    } else {
      var n := |v| - 1;
      var x, l, l' := v[n], Load(c, v[..n]), Load(c, v);
      LoadComplete(c, h, id, isBid, v[..n]);
      LoadValid(c, v);
      LoadValid(c, v[..n]);
      forall p | InView(v, p) && (l'.base.None? || l'.InRange(c, p))
        ensures Get(l'.levels, p) == h(id, isBid, p)
      {
        assert v == v[..n] + [x];
        OfiView.InViewAppend(v[..n], x, p);
        if p in l'.levels {
          LoadQuotes(c, v, p);
        } else if p == x.price {
          assert x.qty == 0;
        }
      }
    }
  }

  ghost predicate NoLevelAhead(c: Config, isBid: bool, v: seq<Level>) {
    forall i :: 0 <= i < |v| && v[i].qty > 0 ==> !Ahead(c, isBid, Load(c, v), v[i].price)
  }

  /** No level of the snapshot lies ahead of the window it places. */
  ghost predicate NothingAhead(c: Config, s: Depth) {
    NoLevelAhead(c, true, s.bids) && NoLevelAhead(c, false, s.asks)
  }

  /** The last level of such a side is not ahead, and does not move the window the others placed. */
  lemma NextIsNotAhead(c: Config, isBid: bool, v: seq<Level>)
    requires c.Valid() && LevelsOk(c, v) && Sorted(isBid, v) && v != [] && NoLevelAhead(c, isBid, v[..|v| - 1])
    ensures var n := |v| - 1;
            && (v[n].qty > 0 ==> !Ahead(c, isBid, Load(c, v), v[n].price))
            && ((exists i :: 0 <= i < n && v[i].qty > 0) ==> Load(c, v).base == Load(c, v[..n]).base)
            && ((forall i :: 0 <= i < n ==> v[i].qty == 0) && v[n].qty > 0 ==> Load(c, v).base == Some(c.Centre(v[n].price)))
  {
    var n := |v| - 1;
    LoadValid(c, v[..n]);
    LoadValid(c, v);
    CentreOk(c, v[n].price);
    SpanParts(c);
    if i :| 0 <= i < n && v[i].qty > 0 {
      assert v[..n][i] == v[i] && Better(isBid, v[i].price, v[n].price);
    }
  }

  /** A side listed best first has nothing ahead: its first level with a quantity places the window. */
  lemma {:induction false} BestFirstHasNothingAhead(c: Config, isBid: bool, v: seq<Level>)
    requires c.Valid() && LevelsOk(c, v) && Sorted(isBid, v)
    ensures NoLevelAhead(c, isBid, v)
    ensures forall i :: 0 <= i < |v| && v[i].qty > 0 && (forall j :: 0 <= j < i ==> v[j].qty == 0) ==>
              Load(c, v).base == Some(c.Centre(v[i].price))
  {
    if v == [] {
    } else {
      var n := |v| - 1;
      BestFirstHasNothingAhead(c, isBid, v[..n]);
      NextIsNotAhead(c, isBid, v);
      assert forall i :: 0 <= i < n ==> v[..n][i] == v[i];
    }
  }

  /** One side of a full snapshot: a covered price is loaded, or listed as empty, or not listed. */
  lemma SideExact(ps: Params, t: Trust, h: Ledger, id: int, isBid: bool, v: seq<Level>)
    requires ps.c.Valid() && LevelsOk(ps.c, v) && Quotes(h, id, isBid, v)
    requires forall p :: ps.c.PriceOk(p) && h(id, isBid, p) != 0 ==> InView(v, p)
    requires t.Wide? ==> NoLevelAhead(ps.c, isBid, v)
    ensures forall p :: ps.c.PriceOk(p) ==>
              if Covered(ps.c, t, isBid, Load(ps.c, v), p) then Get(Load(ps.c, v).levels, p) == h(id, isBid, p)
              else p !in Load(ps.c, v).levels
  {
    var l := Load(ps.c, v);
    LoadComplete(ps.c, h, id, isBid, v);
    LoadValid(ps.c, v);
    forall p | ps.c.PriceOk(p) && Covered(ps.c, t, isBid, l, p)
      ensures Get(l.levels, p) == h(id, isBid, p)
    {
      if p in l.levels {
        LoadQuotes(ps.c, v, p);
      } else if i :| 0 <= i < |v| && v[i].price == p {
        assert InView(v, p) && v[i].qty == h(id, isBid, p);
      }
    }
  }

  lemma SnapshotExact(ps: Params, t: Trust, h: Ledger, s: Depth)
    requires ps.c.Valid() && DepthOk(ps.c, s) && FaithfulDepth(h, s) && FullDepth(ps.c, h, s)
    requires t.Wide? ==> NothingAhead(ps.c, s)
    ensures var b := Snapshot(ps.c, s); BookExact(ps, t, h, b, AllCovered(ps.c, t, b))
  {
    forall isBid
      ensures var l := Snapshot(ps.c, s).Side(isBid);
              Exact(ps.c, t, isBid, l, Quoted(h, s.id, isBid), AllCovered(ps.c, t, Snapshot(ps.c, s)))
    {
      SideExact(ps, t, h, s.id, isBid, if isBid then s.bids else s.asks);
    }
  }

  function RunDiffs(c: Config, b: Book, ds: seq<Diff>): Book {
    if ds == [] then b else Update(c, RunDiffs(c, b, ds[..|ds| - 1]), ds[|ds| - 1])
  }

  /** What is known after a run of updates from a book that knows all it covers. */
  ghost function RunKnown(c: Config, t: Trust, b: Book, ds: seq<Diff>): Knowledge {
    if ds == [] then AllCovered(c, t, b)
    else
      var n := |ds| - 1;
      UpdateKnown(c, t, RunDiffs(c, b, ds[..n]), RunKnown(c, t, b, ds[..n]), ds[n])
  }

  lemma {:induction false} RunExact(ps: Params, t: Trust, h: Ledger, s: Depth, ds: seq<Diff>)
    requires ps.c.Valid() && DepthOk(ps.c, s) && FaithfulDepth(h, s) && FullDepth(ps.c, h, s)
    requires t.Wide? ==> NothingAhead(ps.c, s)
    requires forall i :: 0 <= i < |ds| ==> DiffOk(ps.c, ds[i]) && FaithfulDiff(h, ds[i])
    ensures RunDiffs(ps.c, Snapshot(ps.c, s), ds).Valid(ps)
    ensures BookExact(ps, t, h, RunDiffs(ps.c, Snapshot(ps.c, s), ds), RunKnown(ps.c, t, Snapshot(ps.c, s), ds))
  {
    if ds == [] {
      SnapshotValid(ps, s);
      SnapshotExact(ps, t, h, s);
    } else {
      var n := |ds| - 1;
      RunExact(ps, t, h, s, ds[..n]);
      var a := RunDiffs(ps.c, Snapshot(ps.c, s), ds[..n]);
      UpdateValid(ps, a, ds[n]);
      UpdateExact(ps, t, h, a, RunKnown(ps.c, t, Snapshot(ps.c, s), ds[..n]), ds[n]);
    }
  }

  /** After a full snapshot and any run of faithful updates: a ladder says exactly what the exchange
      says, about every price that it covers, if and only if the exchange has no level at the prices
      that it covers and does not know. What is known can be read off the messages. */
  lemma RunCompleteIff(ps: Params, t: Trust, h: Ledger, s: Depth, ds: seq<Diff>)
    requires ps.c.Valid() && DepthOk(ps.c, s) && FaithfulDepth(h, s) && FullDepth(ps.c, h, s)
    requires t.Wide? ==> NothingAhead(ps.c, s)
    requires forall i :: 0 <= i < |ds| ==> DiffOk(ps.c, ds[i]) && FaithfulDiff(h, ds[i])
    ensures var b, known := RunDiffs(ps.c, Snapshot(ps.c, s), ds), RunKnown(ps.c, t, Snapshot(ps.c, s), ds);
            BookComplete(ps, t, h, b) <==>
            forall isBid, x :: ps.c.PriceOk(x) && Covered(ps.c, t, isBid, b.Side(isBid), x) && !known(isBid, x) ==>
              h(b.lastId, isBid, x) == 0
  {
    RunExact(ps, t, h, s, ds);
    var b, known := RunDiffs(ps.c, Snapshot(ps.c, s), ds), RunKnown(ps.c, t, Snapshot(ps.c, s), ds);
    forall isBid
      ensures Complete(ps.c, t, isBid, b.Side(isBid), Quoted(h, b.lastId, isBid)) <==>
              forall x :: ps.c.PriceOk(x) && Covered(ps.c, t, isBid, b.Side(isBid), x) && !known(isBid, x) ==>
                h(b.lastId, isBid, x) == 0
    {
      CompleteIff(ps.c, t, isBid, b.Side(isBid), Quoted(h, b.lastId, isBid), known);
    }
  }

  // ---------------------------------------------------------------- no update refused

  /** The largest sequence number among `id` and those that the updates reach. */
  function Largest(id: int, ds: seq<Diff>): int {
    if ds == [] then id
    else
      var before, last := Largest(id, ds[..|ds| - 1]), ds[|ds| - 1].last;
      if last > before then last else before
  }

  predicate Between(a: int, x: int, b: int) { a < x < b }

  /** Before every update that goes beyond what was reached, no sequence number is left out. Updates
      may overlap what was reached, as the first buffered ones do. */
  ghost predicate Contiguous(id: int, ds: seq<Diff>) {
    ds == [] ||
    var n := |ds| - 1;
    var reached := Largest(id, ds[..n]);
    Contiguous(id, ds[..n]) && (ds[n].last <= reached || !exists x :: Between(reached, x, ds[n].first))
  }

  /** After every update the book is at the largest number reached. */
  predicate KeepsUp(c: Config, b: Book, ds: seq<Diff>) {
    ds == [] || (KeepsUp(c, b, ds[..|ds| - 1]) && RunDiffs(c, b, ds).lastId == Largest(b.lastId, ds))
  }

  lemma NothingBetween(a: int, b: int)
    ensures (exists x :: Between(a, x, b)) <==> a + 1 < b
  {
    if a + 1 < b {
      assert Between(a, a + 1, b);
    }
  }

  /** A book keeps up with exactly the runs of updates that leave no number out. */
  lemma {:induction false} KeepsUpIff(c: Config, b: Book, ds: seq<Diff>)
    ensures KeepsUp(c, b, ds) <==> Contiguous(b.lastId, ds)
    ensures KeepsUp(c, b, ds) ==> RunDiffs(c, b, ds).lastId == Largest(b.lastId, ds)
  {
    if ds == [] {
    } else {
      var n := |ds| - 1;
      KeepsUpIff(c, b, ds[..n]);
      NothingBetween(Largest(b.lastId, ds[..n]), ds[n].first);
      ApplyAllKeeps(c, RunDiffs(c, b, ds[..n]), ds[n].Batch());
    }
  }

  lemma {:induction false} DiffsSound(ps: Params, h: Ledger, b: Book, ds: seq<Diff>)
    requires ps.c.Valid() && b.Valid(ps) && Sound(h, b)
    requires forall i :: 0 <= i < |ds| ==> DiffOk(ps.c, ds[i]) && FaithfulDiff(h, ds[i])
    ensures RunDiffs(ps.c, b, ds).Valid(ps) && Sound(h, RunDiffs(ps.c, b, ds))
  {
    if ds == [] {
    } else {
      var n := |ds| - 1;
      DiffsSound(ps, h, b, ds[..n]);
      UpdateValid(ps, RunDiffs(ps.c, b, ds[..n]), ds[n]);
      UpdateSound(ps, h, RunDiffs(ps.c, b, ds[..n]), ds[n]);
    }
  }

  /** A move that trust does not survive: any move for the narrow one; for the wide one only a
      move back, away from the market, which takes an emptied side. */
  predicate Breaks(c: Config, t: Trust, isBid: bool, l: Ladder, p: int) {
    Moves(c, isBid, l, p) && (t.Wide? ==> !Ahead(c, isBid, l, p))
  }

  /** Some edit of the batch makes a move that trust does not survive. */
  ghost predicate BatchBreaks(c: Config, t: Trust, b: Book, es: seq<Edit>) {
    es != [] &&
    var n := |es| - 1;
    var e, a := es[n], ApplyAll(c, b, es[..n]);
    BatchBreaks(c, t, b, es[..n]) || Breaks(c, t, e.isBid, a.Side(e.isBid), e.price)
  }

  /** Trust in the ladders survives all of `ds`. */
  ghost predicate TrustSurvives(c: Config, t: Trust, b: Book, ds: seq<Diff>) {
    ds == [] ||
    var n := |ds| - 1;
    var a := RunDiffs(c, b, ds[..n]);
    TrustSurvives(c, t, b, ds[..n]) && (IsStale(a, ds[n]) || IsGap(a, ds[n]) || !BatchBreaks(c, t, a, ds[n].Batch()))
  }

  ghost predicate KnowsAll(c: Config, t: Trust, b: Book, k: Knowledge) {
    forall isBid, x :: Covered(c, t, isBid, b.Side(isBid), x) ==> k(isBid, x)
  }

  /** Without a move that breaks trust, nothing comes to be covered but the price itself. */
  lemma StaysCovered(c: Config, t: Trust, isBid: bool, l: Ladder, p: int, q: int, x: int)
    requires c.Valid() && l.Valid(c) && c.PriceOk(p) && !Breaks(c, t, isBid, l, p)
    requires Covered(c, t, isBid, Change(c, isBid, l, p, q), x) && x != p
    ensures Covered(c, t, isBid, l, x)
  {
    CentreOk(c, p);
    SpanParts(c);
  }

  lemma {:induction false} BatchKnowsAll(ps: Params, t: Trust, b: Book, k: Knowledge, es: seq<Edit>)
    requires ps.c.Valid() && b.Valid(ps) && EditsOk(ps.c, es) && !BatchBreaks(ps.c, t, b, es) && KnowsAll(ps.c, t, b, k)
    ensures KnowsAll(ps.c, t, ApplyAll(ps.c, b, es), BatchKnown(ps.c, t, b, k, es))
  {
    if es == [] {
    } else {
      var n := |es| - 1;
      var a, e := ApplyAll(ps.c, b, es[..n]), es[n];
      BatchKnowsAll(ps, t, b, k, es[..n]);
      ApplyAllValid(ps, b, es[..n]);
      assert EditOk(ps.c, e);
      forall x | Covered(ps.c, t, e.isBid, Apply(ps.c, a, e).Side(e.isBid), x) && x != e.price
        ensures Covered(ps.c, t, e.isBid, a.Side(e.isBid), x)
      {
        StaysCovered(ps.c, t, e.isBid, a.Side(e.isBid), e.price, e.qty, x);
      }
    }
  }

  lemma {:induction false} RunKnowsAll(ps: Params, t: Trust, b: Book, ds: seq<Diff>)
    requires ps.c.Valid() && b.Valid(ps) && forall i :: 0 <= i < |ds| ==> DiffOk(ps.c, ds[i])
    requires TrustSurvives(ps.c, t, b, ds)
    ensures RunDiffs(ps.c, b, ds).Valid(ps)
    ensures KnowsAll(ps.c, t, RunDiffs(ps.c, b, ds), RunKnown(ps.c, t, b, ds))
  {
    if ds == [] {
    } else {
      var n := |ds| - 1;
      var a := RunDiffs(ps.c, b, ds[..n]);
      RunKnowsAll(ps, t, b, ds[..n]);
      UpdateValid(ps, a, ds[n]);
      if !IsStale(a, ds[n]) && !IsGap(a, ds[n]) {
        BatchKnowsAll(ps, t, a, RunKnown(ps.c, t, b, ds[..n]), ds[n].Batch());
      }
    }
  }

  /** After a full snapshot, each ladder says exactly what the exchange says about every price in
      its window, until the window first moves. If the snapshot had nothing ahead of its windows,
      this goes on, for all prices ahead as well, through every move towards the market; only a
      move back of an emptied side ends it. */
  lemma RunComplete(ps: Params, t: Trust, h: Ledger, s: Depth, ds: seq<Diff>)
    requires ps.c.Valid() && DepthOk(ps.c, s) && FaithfulDepth(h, s) && FullDepth(ps.c, h, s)
    requires t.Wide? ==> NothingAhead(ps.c, s)
    requires forall i :: 0 <= i < |ds| ==> DiffOk(ps.c, ds[i]) && FaithfulDiff(h, ds[i])
    requires TrustSurvives(ps.c, t, Snapshot(ps.c, s), ds)
    ensures RunDiffs(ps.c, Snapshot(ps.c, s), ds).Valid(ps)
    ensures BookComplete(ps, t, h, RunDiffs(ps.c, Snapshot(ps.c, s), ds))
  {
    SnapshotValid(ps, s);
    RunKnowsAll(ps, t, Snapshot(ps.c, s), ds);
    RunCompleteIff(ps, t, h, s, ds);
  }

  /** From a full snapshot, any such run of updates ends with a book that is right at the largest
      sequence number reached: every level held is the exchange's at that number, and until a window
      first moves no level in a window is missing. */
  lemma ContiguousRun(ps: Params, h: Ledger, s: Depth, ds: seq<Diff>)
    requires ps.c.Valid() && DepthOk(ps.c, s) && FaithfulDepth(h, s) && FullDepth(ps.c, h, s)
    requires forall i :: 0 <= i < |ds| ==> DiffOk(ps.c, ds[i]) && FaithfulDiff(h, ds[i])
    requires Contiguous(s.id, ds)
    ensures var b, id := RunDiffs(ps.c, Snapshot(ps.c, s), ds), Largest(s.id, ds);
            && b.lastId == id
            && (forall isBid, p :: p in b.Side(isBid).levels ==> b.Side(isBid).levels[p] == h(id, isBid, p))
            && (TrustSurvives(ps.c, Narrow, Snapshot(ps.c, s), ds) ==>
                  forall isBid, p :: ps.c.PriceOk(p) && b.Side(isBid).InRange(ps.c, p) ==>
                    Get(b.Side(isBid).levels, p) == h(id, isBid, p))
  {
    var b0 := Snapshot(ps.c, s);
    KeepsUpIff(ps.c, b0, ds);
    SnapshotValid(ps, s);
    SnapshotSound(ps, h, s);
    DiffsSound(ps, h, b0, ds);
    if TrustSurvives(ps.c, Narrow, b0, ds) {
      RunComplete(ps, Narrow, h, s, ds);
      var b, id := RunDiffs(ps.c, b0, ds), Largest(s.id, ds);
      forall isBid, p | ps.c.PriceOk(p) && b.Side(isBid).InRange(ps.c, p)
        ensures Get(b.Side(isBid).levels, p) == h(id, isBid, p)
      {
        assert Complete(ps.c, Narrow, isBid, b.Side(isBid), Quoted(h, b.lastId, isBid));
      }
    }
  }

  // ---------------------------------------------------------------- how long everything is known

  lemma MovesBackOnlyWhenEmpty(c: Config, isBid: bool, l: Ladder, p: int)
    requires c.Valid() && l.Valid(c) && c.PriceOk(p) && Breaks(c, Wide, isBid, l, p)
    ensures l.levels == map[]
  {
    CellOf(c, l.base.value, p);
    PriceAtMonotone(l.base.value, c.tick, (p - l.base.value) / c.tick, c.Size() - 1);
    PriceAtMonotone(l.base.value, c.tick, (p - l.base.value) / c.tick, c.Size());
  }

  /** A dropped price is worse than every level held on its side at that moment. */
  lemma DroppedIsWorse(c: Config, isBid: bool, l: Ladder, p: int)
    requires c.Valid() && l.Valid(c) && IsDropped(c, isBid, l, p)
    ensures l.levels != map[] && forall x :: x in l.levels ==> Better(isBid, x, p)
  {
    forall x | x in l.levels
      ensures Better(isBid, x, p)
    {
      CellOf(c, l.base.value, x);
      PriceAtMonotone(l.base.value, c.tick, (x - l.base.value) / c.tick, c.Size() - 1);
    }
  }

  /** A full snapshot listed best first, as exchanges list theirs: only a move back ends it. */
  lemma BestFirstComplete(ps: Params, h: Ledger, s: Depth, ds: seq<Diff>)
    requires ps.c.Valid() && DepthOk(ps.c, s) && FaithfulDepth(h, s) && FullDepth(ps.c, h, s)
    requires Sorted(true, s.bids) && Sorted(false, s.asks)
    requires forall i :: 0 <= i < |ds| ==> DiffOk(ps.c, ds[i]) && FaithfulDiff(h, ds[i])
    requires TrustSurvives(ps.c, Wide, Snapshot(ps.c, s), ds)
    ensures BookComplete(ps, Wide, h, RunDiffs(ps.c, Snapshot(ps.c, s), ds))
  {
    BestFirstHasNothingAhead(ps.c, true, s.bids);
    BestFirstHasNothingAhead(ps.c, false, s.asks);
    RunComplete(ps, Wide, h, s, ds);
  }

  // ---------------------------------------------------------------- a move back forgets

  /** Bid 10000 stands throughout; bid 30000 comes with update 2 and goes with 3; bid 11000 comes
      with 4. */
  function Episode(): Ledger {
    (id, isBid, p) =>
      if !isBid then 0
      else if p == 10000 then 5
      else if p == 30000 && id == 2 then 7
      else if p == 11000 && id >= 4 then 3
      else 0
  }

  function OneBid(id: int, p: int, q: int): Diff { Diff(id, id, [], [Level(p, q)]) }

  lemma EpisodeIsFaithful(d2: Diff, d3: Diff, d4: Diff)
    requires d2 == OneBid(2, 30000, 7) && d3 == OneBid(3, 30000, 0) && d4 == OneBid(4, 11000, 3)
    ensures FaithfulDiff(Episode(), d2) && FaithfulDiff(Episode(), d3) && FaithfulDiff(Episode(), d4)
  {
    assert d2.bids[0].price == 30000 && d3.bids[0].price == 30000 && d4.bids[0].price == 11000;
  }

  lemma OneBidChanges(c: Config, b: Book, d: Diff, x: Level)
    requires d == OneBid(d.last, x.price, x.qty) && !IsStale(b, d) && !IsGap(b, d)
    ensures Update(c, b, d) == b.(bids := Change(c, true, b.bids, x.price, x.qty), lastId := d.last)
  {
    var es := [Edit(true, x.price, x.qty)];
    assert d.Batch() == es;
    assert es[..|es| - 1] == [];
    assert ApplyAll(c, b, es) == Apply(c, b, es[0]);
  }

  lemma EpisodeRuns(c: Config, b: Book, d2: Diff, d3: Diff, d4: Diff)
    requires c == Config(1, 5000) && b == Book(Ladder(Some(5000), map[10000 := 5]), EMPTY, 1, true)
    requires d2 == OneBid(2, 30000, 7) && d3 == OneBid(3, 30000, 0) && d4 == OneBid(4, 11000, 3)
    ensures RunDiffs(c, b, [d2, d3, d4]).bids == Ladder(Some(6000), map[11000 := 3])
    ensures RunDiffs(c, b, [d2, d3, d4]).lastId == 4
  {
    OneBidChanges(c, b, d2, Level(30000, 7));
    var b2 := Update(c, b, d2);
    assert b2.bids == Ladder(Some(25000), map[30000 := 7]);
    OneBidChanges(c, b2, d3, Level(30000, 0));
    var b3 := Update(c, b2, d3);
    assert b3.bids == Ladder(Some(25000), map[]);
    OneBidChanges(c, b3, d4, Level(11000, 3));
    var ds := [d2, d3, d4];
    assert ds[..2] == [d2, d3] && [d2, d3][..1] == [d2] && [d2][..0] == [];
    assert RunDiffs(c, b, [d2]) == b2;
    assert RunDiffs(c, b, [d2, d3]) == b3;
  }

  lemma LoadOne(c: Config, x: Level)
    requires c.tick > 0 && x.qty > 0
    ensures Load(c, [x]) == Ladder(Some(c.Centre(x.price)), map[x.price := x.qty])
  {
    assert [x][..0] == [];
  }

  /** With the window of every order book, the bid at 10000 is left behind when the window follows
      30000, and the update at 11000 brings the window back over 10000 without bringing the level
      back: faithful messages, a sound book, and yet a price in the window that the ladder does not
      know. */
  lemma MoveBackForgets()
    ensures var c, h := Config(1, DEFAULT_HALF_RANGE), Episode();
            var s := Depth(1, [], [Level(10000, 5)]);
            var ds := [OneBid(2, 30000, 7), OneBid(3, 30000, 0), OneBid(4, 11000, 3)];
            && FaithfulDepth(h, s) && FullDepth(c, h, s) && NothingAhead(c, s)
            && (forall i :: 0 <= i < |ds| ==> FaithfulDiff(h, ds[i]))
            && var b := RunDiffs(c, Snapshot(c, s), ds);
            && b.bids == Ladder(Some(6000), map[11000 := 3]) && b.bids.InRange(c, 10000)
            && h(b.lastId, true, 10000) == 5
  {
    var c, h := Config(1, DEFAULT_HALF_RANGE), Episode();
    var s := Depth(1, [], [Level(10000, 5)]);
    var d2, d3, d4 := OneBid(2, 30000, 7), OneBid(3, 30000, 0), OneBid(4, 11000, 3);
    assert s.bids[0].price == 10000;
    LoadOne(c, Level(10000, 5));
    EpisodeIsFaithful(d2, d3, d4);
    EpisodeRuns(c, Snapshot(c, s), d2, d3, d4);
  }
}
