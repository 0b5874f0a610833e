/** What holds in every reachable state of the adapter. */
module FeedRuns {
  import opened BookSpec
  import opened History
  import opened Symbols
  import opened Feed

  ghost predicate IsRun(e: Env, trace: seq<Sys>, steps: seq<Step>) {
    && |trace| == |steps| + 1 && Initial(e, trace[0])
    && forall i :: 0 <= i < |steps| ==> Enabled(e, trace[i], steps[i]) && trace[i + 1] == Next(e, trace[i], steps[i])
  }

  lemma {:induction false} RunKeepsInv(e: Env, trace: seq<Sys>, steps: seq<Step>, n: nat)
    requires IsRun(e, trace, steps) && n < |trace|
    ensures Inv(e, trace[n])
  {
    if n == 0 {
      InitialInv(e, trace[0]);
    } else {
      RunKeepsInv(e, trace, steps, n - 1);
      StepKeepsInv(e, trace[n - 1], steps[n - 1]);
    }
  }

  predicate LosesMessages(s: Sys, st: Step, a: Symbol)
    requires a in s.syms
  {
    var x := s.syms[a];
    match st
    case TakeSlow => s.ws.Slow? && s.ws.sym == a && !x.book.applied && |x.buffer| >= MAX_BUFFERED
    case ReplayOne(w) =>
      var f := FetcherOf(s, w);
      f.Replaying? && f.sym == a && f.pos < |x.buffer| && IsGap(x.book, x.buffer[f.pos])
    case LoadDepth(w, _) =>
      var f := FetcherOf(s, w);
      f.Fetching? && f.sym == a && x.book.applied
    case _ => false
  }

  lemma CleanSteps(e: Env, s: Sys, st: Step, a: Symbol)
    requires Enabled(e, s, st) && a in s.syms && a in Next(e, s, st).syms
    requires st.ClearBook? && s.ws.sym == a ==> ReplayPos(s, a) == -1
    requires s.syms[a].clean && !Next(e, s, st).syms[a].clean
    ensures LosesMessages(s, st, a)
  {
  }

  /** A live message is refused on a clean symbol only when no replay is under way. */
  lemma RefusedIsNotReplayed(e: Env, s: Sys)
    requires Inv(e, s) && s.ws.Refused? && s.ws.sym in s.syms && s.syms[s.ws.sym].clean
    ensures ReplayPos(s, s.ws.sym) == -1
  {
    assert SymOk(e.c, s.syms[s.ws.sym], ReplayPos(s, s.ws.sym), RoleOf(s.ws, s.ws.sym));
  }

  /** What a clean symbol can lose that by: a message met a full buffer, a replayed message was
      refused, or a second snapshot came for a book that had one. Neither a gap in the live messages
      nor a reconnect is among them. */
  lemma LosesCleanOnlyBy(e: Env, s: Sys, st: Step, a: Symbol)
    requires Inv(e, s) && Enabled(e, s, st) && a in s.syms && a in Next(e, s, st).syms
    requires s.syms[a].clean && !Next(e, s, st).syms[a].clean
    ensures LosesMessages(s, st, a)
  {
    if st.ClearBook? && s.ws.sym == a {
      RefusedIsNotReplayed(e, s);
    }
    CleanSteps(e, s, st, a);
  }

  // ---------------------------------------------------------------- soundness of all books

  type Ledgers = Symbol -> Ledger

  ghost predicate DiffFits(ps: Params, h: Ledger, d: Diff)
    requires ps.c.tick > 0
  {
    DiffOk(ps.c, d) && FaithfulDiff(h, d)
  }

  /** The exchange sends well-formed and faithful messages and snapshots. */
  ghost predicate EnvFaithful(ps: Params, hs: Ledgers, s: Sys, st: Step)
    requires ps.c.tick > 0
  {
    match st
    case Receive(a, d) => DiffFits(ps, hs(a), d)
    case LoadDepth(w, depth) =>
      FetcherOf(s, w).Fetching? ==> DepthOk(ps.c, depth) && FaithfulDepth(hs(FetcherOf(s, w).sym), depth)
    case _ => true
  }

  ghost predicate SymSound(ps: Params, h: Ledger, x: Sym)
    requires ps.c.tick > 0
  {
    && x.book.Valid(ps) && Sound(h, x.book)
    && forall i :: 0 <= i < |x.buffer| ==> DiffFits(ps, h, x.buffer[i])
  }

  ghost predicate FeedSound(ps: Params, hs: Ledgers, s: Sys)
    requires ps.c.tick > 0
  {
    && (forall a :: a in s.syms ==> SymSound(ps, hs(a), s.syms[a]))
    && (s.ws.Slow? || s.ws.Apply? ==> DiffFits(ps, hs(s.ws.sym), s.ws.d))
  }

  lemma UpdateKeepsSound(ps: Params, h: Ledger, b: Book, d: Diff)
    requires ps.c.Valid() && b.Valid(ps) && Sound(h, b) && DiffFits(ps, h, d)
    ensures Update(ps.c, b, d).Valid(ps) && Sound(h, Update(ps.c, b, d))
  {
    UpdateValid(ps, b, d);
    UpdateSound(ps, h, b, d);
  }

  lemma SnapshotKeepsSound(ps: Params, h: Ledger, depth: Depth)
    requires ps.c.Valid() && DepthOk(ps.c, depth) && FaithfulDepth(h, depth)
    ensures Snapshot(ps.c, depth).Valid(ps) && Sound(h, Snapshot(ps.c, depth))
  {
    SnapshotValid(ps, depth);
    SnapshotSound(ps, h, depth);
  }

  lemma ApplyKeepsSound(e: Env, ps: Params, hs: Ledgers, s: Sys)
    requires ps.c.Valid() && e.c == ps.c && FeedSound(ps, hs, s) && Enabled(e, s, ApplyLive)
    ensures FeedSound(ps, hs, Next(e, s, ApplyLive))
  {
    UpdateKeepsSound(ps, hs(s.ws.sym), s.syms[s.ws.sym].book, s.ws.d);
  }

  /** One record changed and stays sound, and nothing new is in the WebSocket thread's hands. */
  lemma OneKeepsSound(ps: Params, hs: Ledgers, s: Sys, s': Sys, b: Symbol)
    requires ps.c.tick > 0 && FeedSound(ps, hs, s) && b in s.syms && s'.syms.Keys == s.syms.Keys
    requires forall a :: a in s.syms && a != b ==> s'.syms[a] == s.syms[a]
    requires SymSound(ps, hs(b), s'.syms[b])
    requires s'.ws.Slow? || s'.ws.Apply? ==>
               (s.ws.Slow? || s.ws.Apply?) && s'.ws.sym == s.ws.sym && s'.ws.d == s.ws.d
    ensures FeedSound(ps, hs, s')
  {
  }

  lemma SlowKeepsSound(e: Env, ps: Params, hs: Ledgers, s: Sys)
    requires ps.c.Valid() && FeedSound(ps, hs, s) && Enabled(e, s, TakeSlow)
    ensures FeedSound(ps, hs, Next(e, s, TakeSlow))
  {
    var s' := Next(e, s, TakeSlow);
    assert SymSound(ps, hs(s.ws.sym), s.syms[s.ws.sym]);
    assert SymSound(ps, hs(s.ws.sym), s'.syms[s.ws.sym]);
    OneKeepsSound(ps, hs, s, s', s.ws.sym);
  }

  lemma ClearKeepsSound(e: Env, ps: Params, hs: Ledgers, s: Sys, st: Step)
    requires ps.c.Valid() && FeedSound(ps, hs, s) && Enabled(e, s, st) && (st.ClearBook? || st.ClearBuffer?)
    ensures FeedSound(ps, hs, Next(e, s, st))
  {
    assert SymSound(ps, hs(s.ws.sym), s.syms[s.ws.sym]);
    OneKeepsSound(ps, hs, s, Next(e, s, st), s.ws.sym);
  }

  lemma ReconnectKeepsSound(e: Env, ps: Params, hs: Ledgers, s: Sys)
    requires ps.c.Valid() && FeedSound(ps, hs, s) && Enabled(e, s, Step.Reconnected)
    ensures FeedSound(ps, hs, Next(e, s, Step.Reconnected))
  {
  }

  lemma FlagKeepsSound(e: Env, ps: Params, hs: Ledgers, s: Sys, st: Step)
    requires ps.c.Valid() && FeedSound(ps, hs, s) && Enabled(e, s, st) && EnvFaithful(ps, hs, s, st)
    requires st.Receive? || st.LowerFlag? || st.QueueResync? || st.ReconnectLower? || st.ReconnectQueue?
    ensures FeedSound(ps, hs, Next(e, s, st))
  {
  }

  lemma RetryKeepsSound(e: Env, ps: Params, hs: Ledgers, s: Sys, w: Who, a: Symbol, attempt: nat)
    requires ps.c.Valid() && FeedSound(ps, hs, s) && a in s.syms
    ensures FeedSound(ps, hs, Retry(e, s, w, a, attempt)) && FeedSound(ps, hs, Begin(e, s, w, a))
  {
  }

  lemma LoadKeepsSound(e: Env, ps: Params, hs: Ledgers, s: Sys, w: Who, depth: Depth)
    requires ps.c.Valid() && e.c == ps.c && FeedSound(ps, hs, s)
    requires Enabled(e, s, LoadDepth(w, depth)) && EnvFaithful(ps, hs, s, LoadDepth(w, depth))
    ensures FeedSound(ps, hs, Next(e, s, LoadDepth(w, depth)))
  {
    SnapshotKeepsSound(ps, hs(FetcherOf(s, w).sym), depth);
  }

  lemma ReplayKeepsSound(e: Env, ps: Params, hs: Ledgers, s: Sys, w: Who)
    requires ps.c.Valid() && e.c == ps.c && FeedSound(ps, hs, s) && Enabled(e, s, ReplayOne(w))
    ensures FeedSound(ps, hs, Next(e, s, ReplayOne(w)))
  {
    var f := FetcherOf(s, w);
    var x := s.syms[f.sym];
    UpdateKeepsSound(ps, hs(f.sym), x.book, x.buffer[f.pos]);
    if IsGap(x.book, x.buffer[f.pos]) {
      RetryKeepsSound(e, ps, hs, With(s, f.sym, ReplayRefused(x)), w, f.sym, f.attempt);
    }
  }

  lemma ReplayEndKeepsSound(e: Env, ps: Params, hs: Ledgers, s: Sys, w: Who)
    requires ps.c.Valid() && FeedSound(ps, hs, s) && Enabled(e, s, ReplayEnds(w))
    ensures FeedSound(ps, hs, Next(e, s, ReplayEnds(w)))
  {
  }

  lemma StepKeepsSound(e: Env, ps: Params, hs: Ledgers, s: Sys, st: Step)
    requires ps.c.Valid() && e.c == ps.c && FeedSound(ps, hs, s) && Enabled(e, s, st) && EnvFaithful(ps, hs, s, st)
    ensures FeedSound(ps, hs, Next(e, s, st))
  {
    match st
    case ApplyLive => ApplyKeepsSound(e, ps, hs, s);
    case TakeSlow => SlowKeepsSound(e, ps, hs, s);
    case ClearBook => ClearKeepsSound(e, ps, hs, s, st);
    case ClearBuffer => ClearKeepsSound(e, ps, hs, s, st);
    case Reconnected => ReconnectKeepsSound(e, ps, hs, s);
    case Pop => RetryKeepsSound(e, ps, hs, s.(queue := s.queue[1..]), Worker, s.queue[0], 0);
    case StartNext => RetryKeepsSound(e, ps, hs, s, Start, s.starter.todo[0], 0);
    case FetchFails(w) => RetryKeepsSound(e, ps, hs, s, w, FetcherOf(s, w).sym, FetcherOf(s, w).attempt);
    case LoadDepth(w, depth) => LoadKeepsSound(e, ps, hs, s, w, depth);
    case ReplayOne(w) => ReplayKeepsSound(e, ps, hs, s, w);
    case ReplayEnds(w) => ReplayEndKeepsSound(e, ps, hs, s, w);
    case _ => FlagKeepsSound(e, ps, hs, s, st);
  }

  /** In every interleaving and for every symbol, clean or not: whatever order clears, snapshots,
      replays and live messages come in, every level held is the exchange's level at the book's
      sequence number. */
  lemma {:induction false} BooksAlwaysSound(e: Env, ps: Params, hs: Ledgers, trace: seq<Sys>, steps: seq<Step>, n: nat)
    requires ps.c.Valid() && e.c == ps.c && IsRun(e, trace, steps) && n < |trace|
    requires forall i :: 0 <= i < |steps| ==> EnvFaithful(ps, hs, trace[i], steps[i])
    ensures FeedSound(ps, hs, trace[n])
  {
    if n == 0 {
    } else {
      BooksAlwaysSound(e, ps, hs, trace, steps, n - 1);
      StepKeepsSound(e, ps, hs, trace[n - 1], steps[n - 1]);
    }
  }
}
