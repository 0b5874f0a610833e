/** What the order book does, over maps: two ladders, a sequence number, and the list of
    deltas that each change reports. The views of the best levels are not state here: they are
    recomputed from the ladders. */
module BookSpec {
  import opened Int64
  import opened Levels
  import opened LadderSpec

  datatype EventKind = Genuine | Backfill | Maintenance

  datatype LevelDelta = LevelDelta(price: int, newQty: int, deltaQty: int, isBid: bool,
                                   wasInView: bool, inOfiView: bool, kind: EventKind)

  /** One price and its new quantity, on one side. */
  datatype Edit = Edit(isBid: bool, price: int, qty: int)

  datatype Params = Params(c: Config, depth: nat)

  datatype Book = Book(bids: Ladder, asks: Ladder, lastId: int, applied: bool) {
    function Side(isBid: bool): Ladder { if isBid then bids else asks }

    function WithSide(isBid: bool, l: Ladder): Book {
      if isBid then this.(bids := l) else this.(asks := l)
    }

    ghost function View(ps: Params, isBid: bool): seq<Level> {
      Top(isBid, Side(isBid).levels, ps.depth)
    }

    ghost predicate Valid(ps: Params)
      requires ps.c.tick > 0
    {
      bids.Valid(ps.c) && asks.Valid(ps.c)
    }
  }

  const CLEARED := Book(EMPTY, EMPTY, 0, false)

  predicate EditOk(c: Config, e: Edit)
    requires c.tick > 0
  {
    c.PriceOk(e.price) && 0 <= e.qty <= MAX
  }

  // ---------------------------------------------------------------- one change

  /** A price outside the window on the far side from the market, while the side has levels. */
  predicate IsDropped(c: Config, isBid: bool, l: Ladder, p: int) {
    && l.levels != map[] && Recentres(c, l, p)
    && if isBid then p < l.base.value else p > l.base.value + (c.Size() - 1) * c.tick
  }

  predicate Moves(c: Config, isBid: bool, l: Ladder, p: int) {
    Recentres(c, l, p) && !IsDropped(c, isBid, l, p)
  }

  function Change(c: Config, isBid: bool, l: Ladder, p: int, q: int): Ladder {
    if IsDropped(c, isBid, l, p) then l else Set(c, l, p, q)
  }

  /** The level that a new entry pushes out of a full view. */
  function Evicted(k: nat, v0: seq<Level>, v1: seq<Level>, p: int): seq<Level> {
    if v0 != [] && |v0| == k && !InView(v0, p) && InView(v1, p) then v0[k - 1..] else []
  }

  /** The level that takes the place of a removed one in a full view. */
  function Replacement(k: nat, v0: seq<Level>, v1: seq<Level>, p: int): seq<Level> {
    if v1 != [] && |v1| == k && InView(v0, p) && !InView(v1, p) then v1[k - 1..] else []
  }

  function Secondary(kind: EventKind): EventKind {
    if kind == Backfill then Backfill else Maintenance
  }

  function Leaves(isBid: bool, kind: EventKind, v: seq<Level>): seq<LevelDelta> {
    seq(|v|, i requires 0 <= i < |v| => LevelDelta(v[i].price, v[i].qty, -v[i].qty, isBid, true, false, kind))
  }

  function Enters(isBid: bool, kind: EventKind, v: seq<Level>): seq<LevelDelta> {
    seq(|v|, i requires 0 <= i < |v| => LevelDelta(v[i].price, v[i].qty, v[i].qty, isBid, false, true, kind))
  }

  /** The reports of a change of `p` from `prev` to `q` that turned the view `v0` into `v1`. */
  function Report(k: nat, isBid: bool, kind: EventKind, v0: seq<Level>, v1: seq<Level>,
                  p: int, prev: int, q: int): seq<LevelDelta>
  {
    [LevelDelta(p, q, q - prev, isBid, InView(v0, p), InView(v1, p), kind)]
    + Leaves(isBid, Secondary(kind), Evicted(k, v0, v1, p))
    + Enters(isBid, Secondary(kind), Replacement(k, v0, v1, p))
  }

  /** The levels that a change is reported against: those after it when the window moved, for the
      view is then rebuilt first. */
  function Basis(c: Config, isBid: bool, l: Ladder, p: int, q: int): map<int, int> {
    if Moves(c, isBid, l, p) then Change(c, isBid, l, p, q).levels else l.levels
  }

  ghost function ViewBefore(ps: Params, isBid: bool, l: Ladder, p: int, q: int): seq<Level> {
    Top(isBid, Basis(ps.c, isBid, l, p, q), ps.depth)
  }

  /** The reports of one change: none when it is dropped or leaves the quantity alone. */
  ghost function Deltas(ps: Params, isBid: bool, kind: EventKind, l: Ladder, p: int, q: int): seq<LevelDelta> {
    if IsDropped(ps.c, isBid, l, p) || q == Get(l.levels, p) then []
    else
      var v1 := Top(isBid, Change(ps.c, isBid, l, p, q).levels, ps.depth);
      Report(ps.depth, isBid, kind, ViewBefore(ps, isBid, l, p, q), v1, p, Get(l.levels, p), q)
  }

  // ---------------------------------------------------------------- batches

  function Apply(c: Config, b: Book, e: Edit): Book {
    b.WithSide(e.isBid, Change(c, e.isBid, b.Side(e.isBid), e.price, e.qty))
  }

  function ApplyAll(c: Config, b: Book, es: seq<Edit>): Book {
    if es == [] then b else Apply(c, ApplyAll(c, b, es[..|es| - 1]), es[|es| - 1])
  }

  ghost function EditDeltas(ps: Params, kind: EventKind, b: Book, e: Edit): seq<LevelDelta> {
    Deltas(ps, e.isBid, kind, b.Side(e.isBid), e.price, e.qty)
  }

  ghost function AllDeltas(ps: Params, kind: EventKind, b: Book, es: seq<Edit>): seq<LevelDelta> {
    if es == [] then []
    else
      var n := |es| - 1;
      AllDeltas(ps, kind, b, es[..n]) + EditDeltas(ps, kind, ApplyAll(ps.c, b, es[..n]), es[n])
  }

  function Edits(isBid: bool, v: seq<Level>): seq<Edit> {
    seq(|v|, i requires 0 <= i < |v| => Edit(isBid, v[i].price, v[i].qty))
  }

  /** An incremental update `[first, last]`, already parsed. */
  datatype Diff = Diff(first: int, last: int, asks: seq<Level>, bids: seq<Level>) {
    function Batch(): seq<Edit> { Edits(false, asks) + Edits(true, bids) }
  }

  predicate IsStale(b: Book, d: Diff) { d.last <= b.lastId }

  predicate IsGap(b: Book, d: Diff) { d.last > b.lastId && d.first > b.lastId + 1 }

  /** `applyUpdate`: stale updates are ignored, a gap is refused, anything else is applied. */
  function Update(c: Config, b: Book, d: Diff): Book {
    if IsStale(b, d) || IsGap(b, d) then b
    else ApplyAll(c, b, d.Batch()).(lastId := d.last)
  }

  ghost function UpdateDeltas(ps: Params, kind: EventKind, b: Book, d: Diff): seq<LevelDelta> {
    if IsStale(b, d) || IsGap(b, d) then [] else AllDeltas(ps, kind, b, d.Batch())
  }

  /** A full depth snapshot, already parsed. */
  datatype Depth = Depth(id: int, asks: seq<Level>, bids: seq<Level>)

  /** Loads one side: the first level places the window, levels outside it are skipped. */
  function Load(c: Config, v: seq<Level>): Ladder {
    if v == [] then EMPTY
    else
      var l, x := Load(c, v[..|v| - 1]), v[|v| - 1];
      if x.qty > 0 && (l.InRange(c, x.price) || l.levels == map[]) then Set(c, l, x.price, x.qty) else l
  }

  function Snapshot(c: Config, s: Depth): Book {
    Book(Load(c, s.bids), Load(c, s.asks), s.id, true)
  }

  // ---------------------------------------------------------------- validity is kept

  lemma SetValid(c: Config, l: Ladder, p: int, q: int)
    requires c.Valid() && l.Valid(c) && c.PriceOk(p) && 0 <= q <= MAX
    ensures Set(c, l, p, q).Valid(c)
  {
    CentreOk(c, p);
  }

  lemma {:induction false} ApplyAllValid(ps: Params, b: Book, es: seq<Edit>)
    requires ps.c.Valid() && b.Valid(ps) && forall i :: 0 <= i < |es| ==> EditOk(ps.c, es[i])
    ensures ApplyAll(ps.c, b, es).Valid(ps)
    ensures ApplyAll(ps.c, b, es).applied == b.applied && ApplyAll(ps.c, b, es).lastId == b.lastId
  {
    if es == [] {
    } else {
      var n := |es| - 1;
      ApplyAllValid(ps, b, es[..n]);
      var a := ApplyAll(ps.c, b, es[..n]);
      SetValid(ps.c, a.Side(es[n].isBid), es[n].price, es[n].qty);
    }
  }

  lemma {:induction false} ApplyAllKeeps(c: Config, b: Book, es: seq<Edit>)
    ensures ApplyAll(c, b, es).applied == b.applied && ApplyAll(c, b, es).lastId == b.lastId
  {
    if es == [] {
    } else {
      ApplyAllKeeps(c, b, es[..|es| - 1]);
    }
  }

  predicate LevelsOk(c: Config, v: seq<Level>)
    requires c.tick > 0
  {
    forall i :: 0 <= i < |v| ==> c.PriceOk(v[i].price) && 0 <= v[i].qty <= MAX
  }

  predicate DiffOk(c: Config, d: Diff)
    requires c.tick > 0
  {
    LevelsOk(c, d.asks) && LevelsOk(c, d.bids) && Fits(d.first) && Fits(d.last)
  }

  predicate DepthOk(c: Config, s: Depth)
    requires c.tick > 0
  {
    LevelsOk(c, s.asks) && LevelsOk(c, s.bids) && Fits(s.id)
  }

  lemma UpdateValid(ps: Params, b: Book, d: Diff)
    requires ps.c.Valid() && b.Valid(ps) && DiffOk(ps.c, d)
    ensures Update(ps.c, b, d).Valid(ps) && Update(ps.c, b, d).applied == b.applied
  {
    if !IsStale(b, d) && !IsGap(b, d) {
      ApplyAllValid(ps, b, d.Batch());
    }
  }

  /** Loading never moves the window once it is placed. */
  lemma {:induction false} LoadValid(c: Config, v: seq<Level>)
    requires c.Valid() && LevelsOk(c, v)
    ensures Load(c, v).Valid(c)
    ensures Load(c, v).base.Some? <==> Load(c, v).levels != map[]
    ensures Load(c, v).base.Some? <==> exists i :: 0 <= i < |v| && v[i].qty > 0
    ensures v != [] && Load(c, v[..|v| - 1]).base.Some? ==> Load(c, v).base == Load(c, v[..|v| - 1]).base
  {
    if v == [] {
    } else {
      var n := |v| - 1;
      var x, l := v[n], Load(c, v[..n]);
      LoadValid(c, v[..n]);
      CentreOk(c, x.price);
      if i :| 0 <= i < n && v[i].qty > 0 {
        assert v[..n][i].qty > 0;
      }
      if x.qty > 0 {
        assert x.price in Put(l.levels, x.price, x.qty);
      }
    }
  }

  lemma SnapshotValid(ps: Params, s: Depth)
    requires ps.c.Valid() && DepthOk(ps.c, s)
    ensures Snapshot(ps.c, s).Valid(ps)
  {
    LoadValid(ps.c, s.asks);
    LoadValid(ps.c, s.bids);
  }

  function Positive(v: seq<Level>): seq<Level> {
    if v == [] then []
    else Positive(v[..|v| - 1]) + if v[|v| - 1].qty > 0 then [v[|v| - 1]] else []
  }

  /** Dropping empty levels while parsing and skipping them while loading are the same. */
  lemma {:induction false} LoadPositive(c: Config, v: seq<Level>)
    ensures Load(c, Positive(v)) == Load(c, v)
  {
    if v == [] {
    } else {
      var n := |v| - 1;
      LoadPositive(c, v[..n]);
      if v[n].qty > 0 {
        assert Positive(v)[..|Positive(v)| - 1] == Positive(v[..n]);
      } else {
        assert Positive(v) == Positive(v[..n]);
      }
    }
  }

  lemma {:induction false} PositiveOk(c: Config, v: seq<Level>)
    requires c.tick > 0 && LevelsOk(c, v)
    ensures LevelsOk(c, Positive(v)) && forall i :: 0 <= i < |Positive(v)| ==> Positive(v)[i].qty > 0
  {
    if v == [] {
    } else {
      PositiveOk(c, v[..|v| - 1]);
    }
  }

  /** One more edit of a side, after the edits `es` and the first `i` of the side. */
  lemma ApplyOneMore(ps: Params, kind: EventKind, b: Book, es: seq<Edit>, isBid: bool, v: seq<Level>, i: nat)
    requires i < |v|
    ensures var done, next := es + Edits(isBid, v)[..i], es + Edits(isBid, v)[..i + 1];
            var e := Edit(isBid, v[i].price, v[i].qty);
            && ApplyAll(ps.c, b, next) == Apply(ps.c, ApplyAll(ps.c, b, done), e)
            && AllDeltas(ps, kind, b, next) ==
               AllDeltas(ps, kind, b, done) + EditDeltas(ps, kind, ApplyAll(ps.c, b, done), e)
  {
    var done, next := es + Edits(isBid, v)[..i], es + Edits(isBid, v)[..i + 1];
    assert next == done + [Edit(isBid, v[i].price, v[i].qty)];
    assert next[..|next| - 1] == done;
  }
}
