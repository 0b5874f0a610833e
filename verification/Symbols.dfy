/** One symbol of the exchange adapter, as the WebSocket thread, the resync worker and the start
    routine act on it: its book, its buffer of early messages, and its `liveReady` flag. */
module Symbols {
  import opened Wrappers
  import opened LadderSpec
  import opened BookSpec
  import opened History

  const MAX_BUFFERED := 5000

  /** The last four fields are bookkeeping for the proofs. `handled`: the messages taken from the
      socket since the book was last cleared; `snap`: the snapshot the book was last loaded from;
      `clean`: since the last clear no message was lost to a full buffer or a failed replay, and no
      snapshot replaced another; `gaveUp`: the worker has used up its attempts since. */
  datatype Sym = Sym(book: Book, live: bool, buffer: seq<Diff>,
                     handled: seq<Diff>, snap: Option<Depth>, clean: bool, gaveUp: bool)

  /** What the WebSocket thread is doing with this symbol. `InReconnect(lag)`: books are cleared
      after a reconnect, and this one's flag is still to be lowered (`lag`). */
  datatype Role =
    | Away | InSlow | InApply | InRefused | InCleared | InUnlived | InUnbuffered
    | InReconnect(lag: bool)

  // ---------------------------------------------------------------- local steps

  /** A message while no snapshot is applied is kept, if there is room. */
  function Buffered(x: Sym, d: Diff): Sym {
    if |x.buffer| < MAX_BUFFERED then x.(buffer := x.buffer + [d], handled := x.handled + [d])
    else x.(clean := false)
  }

  function Live(x: Sym): Sym { x.(live := true) }

  function NotLive(x: Sym): Sym { x.(live := false) }

  /** A live message that is stale or in sequence. */
  function Applied(c: Config, x: Sym, d: Diff): Sym {
    x.(book := Update(c, x.book, d), handled := x.handled + [d])
  }

  /** `book.clear()` after a refused message; a replay under way makes the symbol unclean. */
  function ClearedBook(x: Sym, pos: int): Sym {
    x.(book := CLEARED, handled := [], snap := None, clean := pos == -1, gaveUp := false)
  }

  function ClearedBuffer(x: Sym): Sym { x.(buffer := []) }

  /** Book and buffer cleared together, under the buffer's lock. */
  function Reconnected(x: Sym): Sym {
    Sym(CLEARED, x.live, [], [], None, true, false)
  }

  function Reloaded(c: Config, x: Sym, s: Depth): Sym {
    x.(book := Snapshot(c, s), snap := Some(s), clean := x.clean && !x.book.applied, gaveUp := false)
  }

  function Replayed(c: Config, x: Sym, pos: nat): Sym
    requires pos < |x.buffer|
  {
    x.(book := Update(c, x.book, x.buffer[pos]))
  }

  function ReplayRefused(x: Sym): Sym { x.(buffer := [], clean := false) }

  function ReplayDone(x: Sym): Sym { x.(buffer := [], live := true) }

  function GivenUp(x: Sym): Sym { x.(gaveUp := x.gaveUp || !x.book.applied) }

  // ---------------------------------------------------------------- the invariant

  /** No message of the sequence was refused. */
  predicate NoGap(c: Config, b: Book, ds: seq<Diff>) {
    ds == [] || (NoGap(c, b, ds[..|ds| - 1]) && !IsGap(RunDiffs(c, b, ds[..|ds| - 1]), ds[|ds| - 1]))
  }

  /** The book is the snapshot with the first `n` messages applied in order, none refused. */
  predicate Mirrors(c: Config, x: Sym, n: nat)
    requires x.snap.Some? && n <= |x.handled|
  {
    var b := Snapshot(c, x.snap.value);
    x.book == RunDiffs(c, b, x.handled[..n]) && NoGap(c, b, x.handled[..n])
  }

  predicate Lags(r: Role) { r.InCleared? || (r.InReconnect? && r.lag) }

  /** When messages can be waiting in the buffer. `pos` is how far a replay has come, -1 when
      there is none. */
  predicate BufferOk(x: Sym, pos: int, r: Role) {
    && -1 <= pos <= |x.buffer|
    && (pos == -1 && (x.book.applied || x.live || r.InApply? || r.InRefused?) ==> x.buffer == [])
    && (pos >= 0 && !r.InCleared? && !r.InUnlived? ==> x.book.applied)
    && (r.InSlow? && x.live ==> x.book.applied)
  }

  /** The hand-off from snapshot to live messages. Before the snapshot every message is in the
      buffer; during the replay the book mirrors the part replayed; after it, all messages. */
  predicate HandOffOk(c: Config, x: Sym, pos: int, r: Role) {
    && (!x.book.applied ==> pos == -1 && x.snap.None? && x.book == CLEARED && x.buffer == x.handled
                            && (x.live ==> Lags(r)))
    && (x.book.applied ==> x.snap.Some?)
    && (x.book.applied && pos >= 0 ==> x.buffer == x.handled && pos <= |x.handled| && Mirrors(c, x, pos)
                                       && (x.live ==> Lags(r)))
    && (x.book.applied && pos == -1 ==> Mirrors(c, x, |x.handled|))
    && (r.InCleared? || r.InUnlived? || r.InUnbuffered? ==> x.handled == [])
    && (r.InApply? || r.InRefused? ==> x.book.applied && pos == -1)
  }

  predicate SymOk(c: Config, x: Sym, pos: int, r: Role) {
    BufferOk(x, pos, r) && (x.clean ==> HandOffOk(c, x, pos, r))
  }

  // ---------------------------------------------------------------- every local step keeps it

  lemma UpdateKeeps(c: Config, b: Book, d: Diff)
    ensures Update(c, b, d).applied == b.applied
  {
    ApplyAllKeeps(c, b, d.Batch());
  }

  lemma MirrorsOneMore(c: Config, b: Book, ds: seq<Diff>, d: Diff)
    ensures RunDiffs(c, b, ds + [d]) == Update(c, RunDiffs(c, b, ds), d)
    ensures NoGap(c, b, ds + [d]) <==> NoGap(c, b, ds) && !IsGap(RunDiffs(c, b, ds), d)
  {
    assert (ds + [d])[..|ds|] == ds;
  }

  lemma ReceiveKeeps(c: Config, x: Sym, pos: int)
    requires SymOk(c, x, pos, Away)
    ensures SymOk(c, x, pos, if x.live then InApply else InSlow)
  {
  }

  lemma BufferKeeps(c: Config, x: Sym, d: Diff)
    requires SymOk(c, x, -1, InSlow) && !x.book.applied
    ensures SymOk(c, Buffered(x, d), -1, Away)
  {
  }

  lemma GoLiveKeeps(c: Config, x: Sym)
    requires SymOk(c, x, -1, InSlow) && x.book.applied
    ensures SymOk(c, Live(x), -1, InApply)
  {
  }

  lemma ApplyKeeps(c: Config, x: Sym, pos: int, d: Diff)
    requires SymOk(c, x, pos, InApply) && !IsGap(x.book, d)
    ensures SymOk(c, Applied(c, x, d), pos, Away)
  {
    UpdateKeeps(c, x.book, d);
    if x.clean {
      MirrorsOneMore(c, Snapshot(c, x.snap.value), x.handled, d);
      assert x.handled[..|x.handled|] == x.handled;
      assert (x.handled + [d])[..|x.handled| + 1] == x.handled + [d];
    }
  }

  lemma RefuseKeeps(c: Config, x: Sym, pos: int)
    requires SymOk(c, x, pos, InApply)
    ensures SymOk(c, x, pos, InRefused)
  {
  }

  lemma ClearBookKeeps(c: Config, x: Sym, pos: int)
    requires SymOk(c, x, pos, InRefused)
    ensures SymOk(c, ClearedBook(x, pos), pos, InCleared)
  {
  }

  lemma NotLiveKeeps(c: Config, x: Sym, pos: int, r: Role)
    requires SymOk(c, x, pos, r) && (r.InCleared? || r.InReconnect?)
    ensures r.InCleared? ==> SymOk(c, NotLive(x), pos, InUnlived)
    ensures r.InReconnect? ==> forall lag :: SymOk(c, NotLive(x), pos, InReconnect(lag))
  {
  }

  lemma ClearBufferKeeps(c: Config, x: Sym)
    requires SymOk(c, x, -1, InUnlived)
    ensures SymOk(c, ClearedBuffer(x), -1, InUnbuffered)
  {
  }

  lemma PushKeeps(c: Config, x: Sym, pos: int, r: Role)
    requires SymOk(c, x, pos, r) && (r.InUnbuffered? || r == InReconnect(false))
    ensures SymOk(c, x, pos, Away)
  {
  }

  lemma ReconnectKeeps(c: Config, x: Sym)
    ensures SymOk(c, Reconnected(x), -1, InReconnect(true))
  {
  }

  lemma LoadKeeps(c: Config, x: Sym, s: Depth, r: Role)
    requires SymOk(c, x, -1, r)
    ensures SymOk(c, Reloaded(c, x, s), 0, r)
  {
    assert x.handled[..0] == [];
  }

  lemma ReplayKeeps(c: Config, x: Sym, pos: nat, r: Role)
    requires SymOk(c, x, pos, r) && pos < |x.buffer|
    ensures if IsGap(x.book, x.buffer[pos]) then SymOk(c, ReplayRefused(x), -1, r)
            else SymOk(c, Replayed(c, x, pos), pos + 1, r)
  {
    UpdateKeeps(c, x.book, x.buffer[pos]);
    if x.clean {
      MirrorsOneMore(c, Snapshot(c, x.snap.value), x.handled[..pos], x.handled[pos]);
      assert x.handled[..pos + 1] == x.handled[..pos] + [x.handled[pos]];
    }
  }

  lemma ReplayEndKeeps(c: Config, x: Sym, r: Role)
    requires SymOk(c, x, |x.buffer|, r)
    ensures SymOk(c, ReplayDone(x), -1, r)
  {
  }

  lemma GiveUpKeeps(c: Config, x: Sym, pos: int, r: Role)
    requires SymOk(c, x, pos, r)
    ensures SymOk(c, GivenUp(x), pos, r)
  {
  }
}
