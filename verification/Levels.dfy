/** Sorted lists of price levels, and the best `k` levels of one side of a book. */
module Levels {

  datatype Level = Level(price: int, qty: int)

  /** Bids are better when higher, asks when lower. */
  predicate Better(isBid: bool, p: int, q: int) {
    if isBid then p > q else p < q
  }

  predicate InView(v: seq<Level>, p: int) {
    exists i :: 0 <= i < |v| && v[i].price == p
  }

  predicate Sorted(isBid: bool, v: seq<Level>) {
    forall i, j :: 0 <= i < j < |v| ==> Better(isBid, v[i].price, v[j].price)
  }

  predicate Holds(m: map<int, int>, v: seq<Level>) {
    forall i :: 0 <= i < |v| ==> v[i].price in m && m[v[i].price] == v[i].qty
  }

  /** `p` is worse than every level of `v`. */
  predicate Worse(isBid: bool, v: seq<Level>, p: int) {
    forall i :: 0 <= i < |v| ==> Better(isBid, v[i].price, p)
  }

  /** `v` lists the best `k` levels of `m`, best first: a level is left out only when the list is
      full of better ones. */
  ghost predicate IsTop(isBid: bool, m: map<int, int>, k: nat, v: seq<Level>) {
    && |v| <= k && Sorted(isBid, v) && Holds(m, v)
    && forall p :: p in m && !InView(v, p) ==> |v| == k && Worse(isBid, v, p)
  }

  ghost function Pick<T>(s: set<T>): (x: T)
    requires s != {}
    ensures x in s
  {
    var x :| x in s;
    x
  }

  ghost function Best(isBid: bool, prices: set<int>): (p: int)
    requires prices != {}
    ensures p in prices && forall q :: q in prices && q != p ==> Better(isBid, p, q)
    decreases |prices|
  {
    var x := Pick(prices);
    var rest := prices - {x};
    assert forall q :: q in prices ==> q == x || q in rest;
    if rest == {} then x
    else
      var y := Best(isBid, rest);
      if Better(isBid, x, y) then x else y
  }

  /** The best `k` levels, by repeatedly taking the best one. */
  ghost function Top(isBid: bool, m: map<int, int>, k: nat): seq<Level> {
    if k == 0 || m == map[] then []
    else
      var p := Best(isBid, m.Keys);
      [Level(p, m[p])] + Top(isBid, m - {p}, k - 1)
  }

  function Total(v: seq<Level>): int {
    if v == [] then 0 else v[0].qty + Total(v[1..])
  }

  lemma InViewCons(l: Level, v: seq<Level>, p: int)
    ensures InView([l] + v, p) <==> l.price == p || InView(v, p)
  {
    if i :| 0 <= i < |v| && v[i].price == p {
      assert ([l] + v)[i + 1].price == p;
    }
    assert ([l] + v)[0] == l;
  }

  lemma {:induction false} TopIsTop(isBid: bool, m: map<int, int>, k: nat)
    ensures IsTop(isBid, m, k, Top(isBid, m, k))
  {
    if k == 0 || m == map[] {
    } else {
      var p := Best(isBid, m.Keys);
      var v, rest := Top(isBid, m, k), Top(isBid, m - {p}, k - 1);
      TopIsTop(isBid, m - {p}, k - 1);
      assert v == [v[0]] + rest && v[0].price == p;
      forall q | q in m && !InView(v, q)
        ensures |v| == k && Worse(isBid, v, q)
      {
        InViewCons(v[0], rest, q);
      }
    }
  }

  lemma TopFromParts(isBid: bool, m: map<int, int>, k: nat, v: seq<Level>)
    requires k > 0 && m != map[] && v != []
    requires var p := Best(isBid, m.Keys); v[0] == Level(p, m[p]) && v[1..] == Top(isBid, m - {p}, k - 1)
    ensures v == Top(isBid, m, k)
  {
    assert v == [v[0]] + v[1..];
  }

  lemma FirstHeld(m: map<int, int>, v: seq<Level>)
    requires Holds(m, v) && v != []
    ensures v[0].price in m
  {
  }

  lemma NothingToList(m: map<int, int>, k: nat, v: seq<Level>)
    requires Holds(m, v) && |v| <= k && (k == 0 || m == map[])
    ensures v == []
  {
    if v != [] {
      FirstHeld(m, v);
    }
  }

  lemma TailIsTop(isBid: bool, m: map<int, int>, k: nat, v: seq<Level>, p: int)
    requires IsTop(isBid, m, k, v) && v != [] && p == v[0].price
    ensures IsTop(isBid, m - {p}, k - 1, v[1..])
  {
    var rest := v[1..];
    assert v == [v[0]] + rest;
    forall q | q in m - {p} && !InView(rest, q)
      ensures |rest| == k - 1 && Worse(isBid, rest, q)
    {
      InViewCons(v[0], rest, q);
      assert forall i :: 0 <= i < |rest| ==> rest[i] == v[i + 1];
    }
    forall i | 0 <= i < |rest|
      ensures rest[i].price in m - {p} && (m - {p})[rest[i].price] == rest[i].qty
    {
      assert rest[i] == v[i + 1] && Better(isBid, p, v[i + 1].price);
    }
  }

  lemma BestIsFirst(isBid: bool, m: map<int, int>, k: nat, v: seq<Level>)
    requires IsTop(isBid, m, k, v) && k > 0 && m != map[]
    ensures v != [] && v[0] == Level(Best(isBid, m.Keys), m[Best(isBid, m.Keys)])
  {
    var p := Best(isBid, m.Keys);
    assert v != [];
    var q := v[0].price;
    assert q in m;
    assert !InView(v, p) ==> Better(isBid, q, p);
    if i :| 0 <= i < |v| && v[i].price == p {
      assert i > 0 ==> Better(isBid, q, p);
    }
  }

  /** There is only one such list. */
  lemma {:induction false} TopIsUnique(isBid: bool, m: map<int, int>, k: nat, v: seq<Level>)
    requires IsTop(isBid, m, k, v)
    ensures v == Top(isBid, m, k)
  {
    if k > 0 && m != map[] {
      BestIsFirst(isBid, m, k, v);
      var p := Best(isBid, m.Keys);
      TailIsTop(isBid, m, k, v, p);
      TopIsUnique(isBid, m - {p}, k - 1, v[1..]);
      TopFromParts(isBid, m, k, v);
    } else {
      NothingToList(m, k, v);
    }
  }

  /** The list is as long as it can be. */
  lemma {:induction false} TopLength(isBid: bool, m: map<int, int>, k: nat)
    ensures |Top(isBid, m, k)| == if |m| < k then |m| else k
  {
    if k == 0 || m == map[] {
    } else {
      var p := Best(isBid, m.Keys);
      assert m == (m - {p})[p := m[p]];
      TopLength(isBid, m - {p}, k - 1);
    }
  }

  /** `v` lists all of `m`, best first. */
  ghost predicate Lists(isBid: bool, m: map<int, int>, v: seq<Level>) {
    Sorted(isBid, v) && Holds(m, v) && forall p :: p in m ==> InView(v, p)
  }

  /** A full listing is the best `k` levels for every `k` it fits in, and is as long as the map. */
  lemma ListsIsTop(isBid: bool, m: map<int, int>, v: seq<Level>)
    requires Lists(isBid, m, v)
    ensures |v| == |m| && v == Top(isBid, m, |m|)
    ensures forall k: nat :: k >= |m| ==> v == Top(isBid, m, k)
  {
    TopIsUnique(isBid, m, |v| + |m|, v);
    TopLength(isBid, m, |v| + |m|);
    forall k: nat | k >= |m|
      ensures v == Top(isBid, m, k)
    {
      TopIsUnique(isBid, m, k, v);
    }
  }

  /** The best `k` levels are the front of the full listing. */
  lemma TopIsPrefix(isBid: bool, m: map<int, int>, v: seq<Level>, k: nat)
    requires Lists(isBid, m, v)
    ensures Top(isBid, m, k) == v[..if |v| < k then |v| else k]
  {
    var w := v[..if |v| < k then |v| else k];
    assert forall i :: 0 <= i < |w| ==> w[i] == v[i] && InView(w, v[i].price);
    forall p | p in m && !InView(w, p)
      ensures |w| == k && Worse(isBid, w, p)
    {
      var i :| 0 <= i < |v| && v[i].price == p;
      assert i >= |w|;
    }
    TopIsUnique(isBid, m, k, w);
  }

  function Reversed(v: seq<Level>): seq<Level> {
    seq(|v|, i requires 0 <= i < |v| => v[|v| - 1 - i])
  }

  /** Turning an ascending listing around gives the descending one. */
  lemma ReversedLists(m: map<int, int>, v: seq<Level>)
    requires Lists(false, m, v)
    ensures Lists(true, m, Reversed(v))
  {
    var w := Reversed(v);
    forall p | p in m
      ensures InView(w, p)
    {
      var i :| 0 <= i < |v| && v[i].price == p;
      assert w[|v| - 1 - i] == v[i];
    }
  }

  /** `r` is the best price of `m`, or 0 when there is none. */
  ghost predicate IsBestOf(isBid: bool, m: map<int, int>, r: int) {
    || (r == 0 && m == map[])
    || (r in m && forall q :: q in m && q != r ==> Better(isBid, r, q))
  }

  /** `r` is the best price of `m` strictly worse than `p`, or 0 when there is none. */
  ghost predicate IsNextAfter(isBid: bool, m: map<int, int>, p: int, r: int) {
    || (r == 0 && forall q :: q in m ==> !Better(isBid, p, q))
    || (r in m && Better(isBid, p, r) &&
        forall q :: q in m && q != r && Better(isBid, p, q) ==> Better(isBid, r, q))
  }

  lemma {:induction false} TotalAppend(v: seq<Level>, w: seq<Level>)
    ensures Total(v + w) == Total(v) + Total(w)
  {
    if v == [] {
      assert v + w == w;
    } else {
      assert (v + w)[1..] == v[1..] + w;
      TotalAppend(v[1..], w);
    }
  }

  lemma TotalOne(l: Level)
    ensures Total([l]) == l.qty
  {
    assert Total([l]) == l.qty + Total([l][1..]);
  }
}
