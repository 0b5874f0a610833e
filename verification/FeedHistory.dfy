/** The adapter's runs told by their steps alone: which messages were taken from the socket, which
    snapshot was loaded, which attempts failed, which resyncs were asked for. What the bookkeeping
    fields of `Symbols` say is proved to be just that. */
module FeedHistory {
  import opened Wrappers
  import opened LadderSpec
  import opened BookSpec
  import opened History
  import opened Symbols
  import opened Feed
  import opened FeedRuns

  // ---------------------------------------------------------------- messages taken

  /** The symbol of the latest message, which is the one the WebSocket thread works on. */
  function Current(steps: seq<Step>): Option<Symbol> {
    if steps == [] then None
    else if steps[|steps| - 1].Receive? then Some(steps[|steps| - 1].sym)
    else Current(steps[..|steps| - 1])
  }

  /** The messages of `a` taken from the socket since its book was last cleared, in order: by a gap
      in its live messages, by a reconnect, or at the start. */
  function Taken(steps: seq<Step>, a: Symbol): seq<Diff> {
    if steps == [] then []
    else
      var front, st := steps[..|steps| - 1], steps[|steps| - 1];
      match st
      case Receive(b, d) => if b == a then Taken(front, a) + [d] else Taken(front, a)
      case ClearBook => if Current(front) == Some(a) then [] else Taken(front, a)
      case Reconnected => []
      case _ => Taken(front, a)
  }

  /** The WebSocket thread still has the latest message of `a` in its hands. */
  predicate InHand(ws: Ws, a: Symbol) {
    (ws.Slow? || ws.Apply? || ws.Refused?) && ws.sym == a
  }

  /** The messages taken and dealt with. */
  function DealtWith(ws: Ws, taken: seq<Diff>, a: Symbol): seq<Diff> {
    if InHand(ws, a) && taken != [] then taken[..|taken| - 1] else taken
  }

  /** A step that clears the book of `a`. */
  predicate Clears(s: Sys, st: Step, a: Symbol) {
    (st.ClearBook? && s.ws.Refused? && s.ws.sym == a) || st.Reconnected?
  }

  /** The snapshot loaded for `a` since its book was last cleared, the latest if there are several. */
  function LoadedFor(trace: seq<Sys>, steps: seq<Step>, n: nat, a: Symbol): Option<Depth>
    requires n <= |steps| && |steps| < |trace|
  {
    if n == 0 then None
    else
      var s, st := trace[n - 1], steps[n - 1];
      if Clears(s, st, a) then None
      else if st.LoadDepth? && FetcherOf(s, st.who).Fetching? && FetcherOf(s, st.who).sym == a then Some(st.s)
      else LoadedFor(trace, steps, n - 1, a)
  }

  /** Since the book of `a` was last cleared no message met a full buffer, no replayed message was
      refused, and no snapshot came for a book that had one; and when it was cleared there was no
      replay to be cut short. */
  ghost predicate LostNothing(trace: seq<Sys>, steps: seq<Step>, n: nat, a: Symbol)
    requires n <= |steps| && |steps| < |trace|
  {
    n == 0 ||
    var s, st := trace[n - 1], steps[n - 1];
    if st.Reconnected? then true
    else if Clears(s, st, a) then ReplayPos(s, a) == -1
    else LostNothing(trace, steps, n - 1, a) && !(a in s.syms && LosesMessages(s, st, a))
  }

  /** What the bookkeeping of `a` says after the steps that took `taken`. */
  predicate Handles(s: Sys, a: Symbol, taken: seq<Diff>)
    requires a in s.syms
  {
    && (InHand(s.ws, a) ==> taken != [])
    && ((s.ws.Slow? || s.ws.Apply?) && s.ws.sym == a ==> taken[|taken| - 1] == s.ws.d)
    && (s.ws.Unlived? || s.ws.ClearedOne? ==> s.ws.sym == a ==> taken == [])
    && (s.syms[a].clean ==> s.syms[a].handled == DealtWith(s.ws, taken, a))
  }

  function TakenNext(s: Sys, st: Step, a: Symbol, taken: seq<Diff>): seq<Diff> {
    if st.Receive? && st.sym == a then taken + [st.d]
    else if Clears(s, st, a) then []
    else taken
  }

  lemma KeysStay(e: Env, s: Sys, st: Step)
    requires Inv(e, s) && Enabled(e, s, st)
    ensures Next(e, s, st).syms.Keys == s.syms.Keys
  {
    if IsWsStep(st) {
      WsKeepsThreads(e, s, st);
    } else {
      FetchKeepsThreads(e, s, st);
    }
  }

  lemma WsStepHandles(e: Env, s: Sys, st: Step, a: Symbol, taken: seq<Diff>)
    requires Enabled(e, s, st) && IsWsStep(st) && a in s.syms && a in Next(e, s, st).syms && Handles(s, a, taken)
    ensures Handles(Next(e, s, st), a, TakenNext(s, st, a, taken))
  {
  }

  lemma FetchStepHandles(e: Env, s: Sys, st: Step, a: Symbol, taken: seq<Diff>)
    requires Enabled(e, s, st) && !IsWsStep(st) && a in s.syms && a in Next(e, s, st).syms && Handles(s, a, taken)
    ensures Handles(Next(e, s, st), a, taken)
  {
  }

  /** The snapshot and the clean mark of a symbol change as the histories do. */
  ghost predicate MarksFollow(s: Sys, s': Sys, st: Step, a: Symbol)
    requires a in s.syms && a in s'.syms
  {
    var x, x' := s.syms[a], s'.syms[a];
    && x'.snap == (if Clears(s, st, a) then None
                   else if st.LoadDepth? && FetcherOf(s, st.who).Fetching? && FetcherOf(s, st.who).sym == a then Some(st.s)
                   else x.snap)
    && (x'.clean <==> if st.Reconnected? then true else if Clears(s, st, a) then ReplayPos(s, a) == -1
                      else x.clean && !LosesMessages(s, st, a))
  }

  lemma WsStepMarks(e: Env, s: Sys, st: Step, a: Symbol)
    requires Enabled(e, s, st) && IsWsStep(st) && a in s.syms && a in Next(e, s, st).syms
    ensures MarksFollow(s, Next(e, s, st), st, a)
  {
  }

  lemma FetchStepMarks(e: Env, s: Sys, st: Step, a: Symbol)
    requires Enabled(e, s, st) && !IsWsStep(st) && a in s.syms && a in Next(e, s, st).syms
    ensures MarksFollow(s, Next(e, s, st), st, a)
  {
  }

  /** One step of any thread. */
  lemma StepFollows(e: Env, s: Sys, st: Step, a: Symbol, taken: seq<Diff>)
    requires Inv(e, s) && Enabled(e, s, st) && a in s.syms && Handles(s, a, taken)
    ensures a in Next(e, s, st).syms && Handles(Next(e, s, st), a, TakenNext(s, st, a, taken))
    ensures MarksFollow(s, Next(e, s, st), st, a)
    ensures st.ClearBook? ==> s.ws.Refused?
  {
    KeysStay(e, s, st);
    if IsWsStep(st) {
      WsStepHandles(e, s, st, a, taken);
      WsStepMarks(e, s, st, a);
    } else {
      FetchStepHandles(e, s, st, a, taken);
      FetchStepMarks(e, s, st, a);
    }
  }

  lemma WsSymStep(e: Env, s: Sys, st: Step)
    requires Enabled(e, s, st)
    ensures var ws := Next(e, s, st).ws;
            !ws.Idle? && !ws.Reconnect? ==> if st.Receive? then ws.sym == st.sym else !s.ws.Idle? && !s.ws.Reconnect? && ws.sym == s.ws.sym
  {
  }

  lemma {:induction false} CurrentIsWsSym(e: Env, trace: seq<Sys>, steps: seq<Step>, n: nat)
    requires IsRun(e, trace, steps) && n <= |steps|
    ensures var ws := trace[n].ws; !ws.Idle? && !ws.Reconnect? ==> Current(steps[..n]) == Some(ws.sym)
  {
    if n == 0 {
    } else {
      CurrentIsWsSym(e, trace, steps, n - 1);
      WsSymStep(e, trace[n - 1], steps[n - 1]);
      assert steps[..n][..n - 1] == steps[..n - 1];
    }
  }

  lemma KnownInRun(e: Env, trace: seq<Sys>, steps: seq<Step>, n: nat, a: Symbol)
    requires IsRun(e, trace, steps) && n <= |steps| && a in e.all
    ensures a in trace[n].syms && Inv(e, trace[n])
    ensures n < |steps| ==> Enabled(e, trace[n], steps[n]) && trace[n + 1] == Next(e, trace[n], steps[n])
  {
    RunKeepsInv(e, trace, steps, n);
  }

  lemma StepInRun(e: Env, trace: seq<Sys>, steps: seq<Step>, n: nat, a: Symbol)
    requires IsRun(e, trace, steps) && n < |steps| && a in e.all
    ensures a in trace[n].syms && a in trace[n + 1].syms
    ensures Enabled(e, trace[n], steps[n]) && trace[n + 1] == Next(e, trace[n], steps[n])
  {
    KnownInRun(e, trace, steps, n, a);
    KnownInRun(e, trace, steps, n + 1, a);
  }

  lemma AtStart(e: Env, trace: seq<Sys>, steps: seq<Step>, a: Symbol)
    requires IsRun(e, trace, steps) && a in e.all
    ensures a in trace[0].syms && Handles(trace[0], a, []) && trace[0].syms[a].snap.None? && trace[0].syms[a].clean
  {
  }

  lemma TakenStep(steps: seq<Step>, n: nat, s: Sys, st: Step, a: Symbol)
    requires 0 < n <= |steps| && st == steps[n - 1]
    requires st.ClearBook? ==> s.ws.Refused? && Current(steps[..n - 1]) == Some(s.ws.sym)
    ensures Taken(steps[..n], a) == TakenNext(s, st, a, Taken(steps[..n - 1], a))
  {
    assert steps[..n][..n - 1] == steps[..n - 1];
  }

  /** In every run and for every symbol the bookkeeping fields say what the histories say. */
  lemma {:induction false} BookkeepingIsHistory(e: Env, trace: seq<Sys>, steps: seq<Step>, n: nat, a: Symbol)
    requires IsRun(e, trace, steps) && n <= |steps| && a in e.all
    ensures a in trace[n].syms && Handles(trace[n], a, Taken(steps[..n], a))
    ensures trace[n].syms[a].snap == LoadedFor(trace, steps, n, a)
    ensures trace[n].syms[a].clean <==> LostNothing(trace, steps, n, a)
  {
    if n == 0 {
      AtStart(e, trace, steps, a);
    } else {
      BookkeepingIsHistory(e, trace, steps, n - 1, a);
      KnownInRun(e, trace, steps, n - 1, a);
      CurrentIsWsSym(e, trace, steps, n - 1);
      StepFollows(e, trace[n - 1], steps[n - 1], a, Taken(steps[..n - 1], a));
      TakenStep(steps, n, trace[n - 1], steps[n - 1], a);
    }
  }

  // ---------------------------------------------------------------- the hand-off

  /** A sequence of which no message is refused is one that leaves no sequence number out. */
  lemma {:induction false} NoGapIff(c: Config, b: Book, ds: seq<Diff>)
    ensures NoGap(c, b, ds) <==> Contiguous(b.lastId, ds)
  {
    if ds == [] {
    } else {
      var n := |ds| - 1;
      NoGapIff(c, b, ds[..n]);
      KeepsUpIff(c, b, ds[..n]);
      NothingBetween(Largest(b.lastId, ds[..n]), ds[n].first);
    }
  }

  lemma CleanHandsOff(e: Env, s: Sys, a: Symbol)
    requires Inv(e, s) && a in s.syms && s.syms[a].clean
    ensures var x, pos := s.syms[a], ReplayPos(s, a);
            match x.snap
            case None => x.book == CLEARED && x.buffer == x.handled
            case Some(depth) =>
              var b := Snapshot(e.c, depth);
              if pos == -1 then x.buffer == [] && x.book == RunDiffs(e.c, b, x.handled) && NoGap(e.c, b, x.handled)
              else x.buffer == x.handled && 0 <= pos <= |x.handled| && x.book == RunDiffs(e.c, b, x.handled[..pos])
  {
    var x := s.syms[a];
    assert SymOk(e.c, x, ReplayPos(s, a), RoleOf(s.ws, a));
    assert x.handled[..|x.handled|] == x.handled;
  }

  /** In every interleaving, for a symbol that lost nothing since its book was last cleared: before
      the snapshot the buffer holds exactly the messages taken since, in arrival order; while the
      buffer is replayed the book is the snapshot with the first of them; afterwards it is the
      snapshot with all of them, in arrival order, and none of them left a sequence number out. */
  lemma HandOff(e: Env, trace: seq<Sys>, steps: seq<Step>, n: nat, a: Symbol)
    requires IsRun(e, trace, steps) && n <= |steps| && a in e.all && LostNothing(trace, steps, n, a)
    ensures a in trace[n].syms
    ensures var s := trace[n];
            var x, pos, since := s.syms[a], ReplayPos(s, a), DealtWith(s.ws, Taken(steps[..n], a), a);
            match LoadedFor(trace, steps, n, a)
            case None => x.book == CLEARED && x.buffer == since
            case Some(depth) =>
              var b := Snapshot(e.c, depth);
              if pos == -1 then x.buffer == [] && x.book == RunDiffs(e.c, b, since) && Contiguous(depth.id, since)
              else x.buffer == since && 0 <= pos <= |since| && x.book == RunDiffs(e.c, b, since[..pos])
  {
    BookkeepingIsHistory(e, trace, steps, n, a);
    KnownInRun(e, trace, steps, n, a);
    CleanHandsOff(e, trace[n], a);
    if LoadedFor(trace, steps, n, a).Some? {
      NoGapIff(e.c, Snapshot(e.c, trace[n].syms[a].snap.value), trace[n].syms[a].handled);
    }
  }

  /** Of the messages that come before the snapshot the first 5000 are kept: one is lost exactly when
      it is not among them. */
  lemma EarlyMessageLostIff(e: Env, trace: seq<Sys>, steps: seq<Step>, n: nat, a: Symbol)
    requires IsRun(e, trace, steps) && n < |steps| && a in e.all && LostNothing(trace, steps, n, a)
    requires steps[n] == TakeSlow && InHand(trace[n].ws, a) && LoadedFor(trace, steps, n, a).None?
    ensures LostNothing(trace, steps, n + 1, a) <==> |Taken(steps[..n], a)| <= 5000
  {
    HandOff(e, trace, steps, n, a);
    BookkeepingIsHistory(e, trace, steps, n, a);
    KnownInRun(e, trace, steps, n, a);
  }

  /** When the book of `a` was last cleared no replay of it was cut short. */
  predicate ClearedCleanly(trace: seq<Sys>, steps: seq<Step>, n: nat, a: Symbol)
    requires n <= |steps| && |steps| < |trace|
  {
    n == 0 ||
    var s, st := trace[n - 1], steps[n - 1];
    if st.Reconnected? then true
    else if Clears(s, st, a) then ReplayPos(s, a) == -1
    else ClearedCleanly(trace, steps, n - 1, a)
  }

  function FirstOf(ds: seq<Diff>, k: nat): seq<Diff> { if |ds| <= k then ds else ds[..k] }

  /** Without a snapshot no message goes past the buffer, and it holds the first ones. */
  predicate EarlyOk(s: Sys, a: Symbol, taken: seq<Diff>)
    requires a in s.syms
  {
    var x, r := s.syms[a], RoleOf(s.ws, a);
    x.snap.None? ==>
      && !x.book.applied && ReplayPos(s, a) == -1 && (x.live ==> Lags(r)) && !r.InApply? && !r.InRefused?
      && x.buffer == FirstOf(DealtWith(s.ws, taken, a), 5000)
  }

  lemma ReconnectEarly(e: Env, s: Sys, st: Step, a: Symbol, taken: seq<Diff>)
    requires Enabled(e, s, st) && a in s.syms && a in Next(e, s, st).syms && a in e.all
    requires st.Reconnected? || st.ReconnectLower? || st.ReconnectQueue?
    requires !st.Reconnected? ==> EarlyOk(s, a, taken)
    ensures EarlyOk(Next(e, s, st), a, TakenNext(s, st, a, taken))
  {
    if st.Reconnected? {
      NoReplayWhenFree(s, a);
    } else if st.ReconnectLower? {
      assert a in s.ws.todo <==> a == s.ws.todo[0] || a in s.ws.todo[1..];
    }
  }

  lemma ApplyEarly(e: Env, s: Sys, a: Symbol, taken: seq<Diff>)
    requires Enabled(e, s, ApplyLive) && a in s.syms && EarlyOk(s, a, taken)
    ensures EarlyOk(Next(e, s, ApplyLive), a, taken)
  {
  }

  lemma WsStepEarly(e: Env, s: Sys, st: Step, a: Symbol, taken: seq<Diff>)
    requires !st.ApplyLive? && !st.Reconnected? && !st.ReconnectLower? && !st.ReconnectQueue?
    requires Enabled(e, s, st) && IsWsStep(st) && a in s.syms && a in Next(e, s, st).syms
    requires Handles(s, a, taken) && (s.ws.Refused? && s.ws.sym == a && ReplayPos(s, a) == -1 ==> s.syms[a].buffer == [])
    requires if Clears(s, st, a) then ReplayPos(s, a) == -1 else EarlyOk(s, a, taken)
    ensures EarlyOk(Next(e, s, st), a, TakenNext(s, st, a, taken))
  {
  }

  lemma FetchStepEarly(e: Env, s: Sys, st: Step, a: Symbol, taken: seq<Diff>)
    requires Enabled(e, s, st) && !IsWsStep(st) && !st.ReplayOne? && a in s.syms && a in Next(e, s, st).syms
    requires EarlyOk(s, a, taken) && (s.worker.Replaying? ==> !s.starter.f.Replaying?)
    ensures EarlyOk(Next(e, s, st), a, taken)
  {
  }

  lemma ReplayOneEarly(e: Env, s: Sys, w: Who, a: Symbol, taken: seq<Diff>)
    requires Enabled(e, s, ReplayOne(w)) && a in s.syms && a in Next(e, s, ReplayOne(w)).syms
    requires EarlyOk(s, a, taken) && (s.worker.Replaying? ==> !s.starter.f.Replaying?)
    ensures EarlyOk(Next(e, s, ReplayOne(w)), a, taken)
  {
  }

  lemma RefusedIsEmpty(e: Env, s: Sys, a: Symbol)
    requires Inv(e, s) && a in s.syms
    ensures s.ws.Refused? && s.ws.sym == a && ReplayPos(s, a) == -1 ==> s.syms[a].buffer == []
    ensures s.worker.Replaying? ==> !s.starter.f.Replaying?
  {
    assert SymOk(e.c, s.syms[a], ReplayPos(s, a), RoleOf(s.ws, a));
  }

  lemma EarlyStep(e: Env, trace: seq<Sys>, steps: seq<Step>, n: nat, a: Symbol)
    requires IsRun(e, trace, steps) && n < |steps| && a in e.all && a in trace[n].syms
    requires Handles(trace[n], a, Taken(steps[..n], a)) && ClearedCleanly(trace, steps, n + 1, a)
    requires !Clears(trace[n], steps[n], a) ==> EarlyOk(trace[n], a, Taken(steps[..n], a))
    ensures a in trace[n + 1].syms && EarlyOk(trace[n + 1], a, Taken(steps[..n + 1], a))
  {
    var s, st, taken := trace[n], steps[n], Taken(steps[..n], a);
    StepInRun(e, trace, steps, n, a);
    CurrentIsWsSym(e, trace, steps, n);
    TakenStep(steps, n + 1, s, st, a);
    KnownInRun(e, trace, steps, n, a);
    RefusedIsEmpty(e, s, a);
    if st.Reconnected? || st.ReconnectLower? || st.ReconnectQueue? {
      ReconnectEarly(e, s, st, a, taken);
    } else if st.ApplyLive? {
      ApplyEarly(e, s, a, taken);
    } else if IsWsStep(st) {
      WsStepEarly(e, s, st, a, taken);
    } else if st.ReplayOne? {
      ReplayOneEarly(e, s, st.who, a, taken);
    } else {
      FetchStepEarly(e, s, st, a, taken);
    }
  }

  lemma {:induction false} EarlyInRun(e: Env, trace: seq<Sys>, steps: seq<Step>, n: nat, a: Symbol)
    requires IsRun(e, trace, steps) && n <= |steps| && a in e.all && ClearedCleanly(trace, steps, n, a)
    ensures a in trace[n].syms && EarlyOk(trace[n], a, Taken(steps[..n], a))
  {
    if n == 0 {
      AtStart(e, trace, steps, a);
    } else {
      if !Clears(trace[n - 1], steps[n - 1], a) {
        EarlyInRun(e, trace, steps, n - 1, a);
      }
      BookkeepingIsHistory(e, trace, steps, n - 1, a);
      EarlyStep(e, trace, steps, n - 1, a);
    }
  }

  /** Of the messages taken before the snapshot the buffer holds the first 5000, in arrival order;
      later ones are not kept. */
  lemma BufferIsFirst5000(e: Env, trace: seq<Sys>, steps: seq<Step>, n: nat, a: Symbol)
    requires IsRun(e, trace, steps) && n <= |steps| && a in e.all
    requires ClearedCleanly(trace, steps, n, a) && LoadedFor(trace, steps, n, a).None?
    ensures a in trace[n].syms && !trace[n].syms[a].book.applied
    ensures trace[n].syms[a].buffer == FirstOf(DealtWith(trace[n].ws, Taken(steps[..n], a), a), 5000)
  {
    EarlyInRun(e, trace, steps, n, a);
    BookkeepingIsHistory(e, trace, steps, n, a);
  }

  // ---------------------------------------------------------------- the fast path

  /** A step that lowers the flag of `a`. */
  predicate Lowers(s: Sys, st: Step, a: Symbol) {
    (st.LowerFlag? && s.ws.ClearedOne? && s.ws.sym == a)
    || (st.ReconnectLower? && s.ws.Reconnect? && s.ws.todo != [] && s.ws.todo[0] == a)
  }

  lemma StaysLive(e: Env, s: Sys, st: Step, a: Symbol)
    requires Enabled(e, s, st) && a in s.syms && a in Next(e, s, st).syms && s.syms[a].live && !Lowers(s, st, a)
    ensures Next(e, s, st).syms[a].live
  {
  }

  /** A step that raises it: a replay is finished, or a message finds the snapshot in. */
  predicate Raises(s: Sys, st: Step, a: Symbol) {
    || (st.ReplayEnds? && FetcherOf(s, st.who).Replaying? && FetcherOf(s, st.who).sym == a)
    || (st.TakeSlow? && s.ws.Slow? && s.ws.sym == a && a in s.syms && s.syms[a].book.applied)
  }

  lemma FlagIsRaised(e: Env, s: Sys, st: Step, a: Symbol)
    requires Enabled(e, s, st) && Raises(s, st, a) && a in Next(e, s, st).syms
    ensures Next(e, s, st).syms[a].live
  {
  }

  predicate LiveAt(trace: seq<Sys>, n: nat, a: Symbol) {
    n < |trace| && a in trace[n].syms && trace[n].syms[a].live
  }

  lemma StaysLiveOneStep(e: Env, trace: seq<Sys>, steps: seq<Step>, n: nat, a: Symbol)
    requires IsRun(e, trace, steps) && n < |steps| && a in e.all && LiveAt(trace, n, a)
    requires !Lowers(trace[n], steps[n], a)
    ensures LiveAt(trace, n + 1, a)
  {
    StepInRun(e, trace, steps, n, a);
    StaysLive(e, trace[n], steps[n], a);
  }

  lemma {:induction false} StaysLiveInRun(e: Env, trace: seq<Sys>, steps: seq<Step>, m: nat, n: nat, a: Symbol)
    requires IsRun(e, trace, steps) && m <= n <= |steps| && a in e.all && LiveAt(trace, m, a)
    requires forall j {:trigger Lowers(trace[j], steps[j], a)} :: m <= j < n ==> !Lowers(trace[j], steps[j], a)
    ensures LiveAt(trace, n, a)
  {
    if n == m {
    } else {
      StaysLiveInRun(e, trace, steps, m, n - 1, a);
      StaysLiveOneStep(e, trace, steps, n - 1, a);
    }
  }

  lemma LiveIsFast(e: Env, s: Sys, a: Symbol, d: Diff)
    requires Enabled(e, s, Receive(a, d)) && s.syms[a].live
    ensures Next(e, s, Receive(a, d)).ws == Apply(a, d)
  {
  }

  /** From a finished replay on, or from the first message that finds the snapshot in, every message
      of the symbol goes straight to the book, past the buffer's lock, until the flag is lowered. */
  lemma FastUntilLowered(e: Env, trace: seq<Sys>, steps: seq<Step>, m: nat, n: nat, a: Symbol, d: Diff)
    requires IsRun(e, trace, steps) && m < n < |steps| && a in e.all && steps[n] == Receive(a, d)
    requires Raises(trace[m], steps[m], a)
    requires forall j {:trigger Lowers(trace[j], steps[j], a)} :: m < j < n ==> !Lowers(trace[j], steps[j], a)
    ensures trace[n + 1].ws == Apply(a, d)
  {
    StepInRun(e, trace, steps, m, a);
    FlagIsRaised(e, trace[m], steps[m], a);
    StaysLiveInRun(e, trace, steps, m + 1, n, a);
    StepInRun(e, trace, steps, n, a);
    LiveIsFast(e, trace[n], a, d);
  }

  // ---------------------------------------------------------------- attempts

  /** A replay meets a message that leaves a sequence number out. */
  predicate Refuses(s: Sys, w: Who) {
    var f := FetcherOf(s, w);
    && f.Replaying? && f.sym in s.syms && f.pos < |s.syms[f.sym].buffer|
    && var b, d := s.syms[f.sym].book, s.syms[f.sym].buffer[f.pos];
    d.last > b.lastId && d.first > b.lastId + 1
  }

  /** An attempt of `w` fails: no snapshot, or a refused message in its replay. */
  predicate Fails(s: Sys, st: Step, w: Who) {
    st == FetchFails(w) || (st == ReplayOne(w) && Refuses(s, w))
  }

  /** `w` takes a new symbol. */
  predicate Takes(st: Step, w: Who) {
    if w == Worker then st.Pop? else st.StartNext?
  }

  /** How many attempts of `w` failed since it took its symbol. */
  function Failures(trace: seq<Sys>, steps: seq<Step>, n: nat, w: Who): nat
    requires n <= |steps| && |steps| < |trace|
  {
    if n == 0 || Takes(steps[n - 1], w) then 0
    else Failures(trace, steps, n - 1, w) + if Fails(trace[n - 1], steps[n - 1], w) then 1 else 0
  }

  /** The attempt under way comes after the failed ones. */
  predicate Counts(f: Fetcher, failures: nat) {
    !f.Free? ==> f.attempt == failures + 1
  }

  /** The symbol that `w` takes next. */
  function JobOf(s: Sys, w: Who): Symbol {
    if w == Worker then (if s.queue != [] then s.queue[0] else "")
    else if s.starter.todo != [] then s.starter.todo[0] else ""
  }

  /** A step as the attempts of `w` see it. */
  predicate CountsOn(e: Env, s: Sys, s': Sys, st: Step, w: Who, failures: nat) {
    var f, f' := FetcherOf(s, w), FetcherOf(s', w);
    var failures' := if Takes(st, w) then 0 else if Fails(s, st, w) then failures + 1 else failures;
    && Counts(f', failures')
    && (Takes(st, w) ==> if e.retries == 0 then f' == Free else f' == Fetching(JobOf(s, w), 1))
    && (Fails(s, st, w) ==> !f.Free? && failures' <= e.retries)
    && (Fails(s, st, w) ==> if failures' == e.retries then f' == Free else f' == Fetching(f.sym, failures' + 1))
    && (!Takes(st, w) && !Fails(s, st, w) && !f.Free? && f'.Free? ==> st == ReplayEnds(w))
    && (!Takes(st, w) && f.Free? ==> f'.Free?)
  }

  lemma WsStepCounts(e: Env, s: Sys, st: Step, w: Who, failures: nat)
    requires Enabled(e, s, st) && IsWsStep(st) && Counts(FetcherOf(s, w), failures)
    ensures CountsOn(e, s, Next(e, s, st), st, w, failures)
  {
  }

  lemma FetchStepCounts(e: Env, s: Sys, st: Step, w: Who, failures: nat)
    requires Enabled(e, s, st) && !IsWsStep(st) && !st.ReplayOne?
    requires Counts(FetcherOf(s, w), failures) && FetcherOk(e, s, FetcherOf(s, w))
    ensures CountsOn(e, s, Next(e, s, st), st, w, failures)
  {
  }

  lemma ReplayOneCounts(e: Env, s: Sys, w: Who, other: Who, failures: nat)
    requires Enabled(e, s, ReplayOne(other)) && Counts(FetcherOf(s, w), failures) && FetcherOk(e, s, FetcherOf(s, w))
    ensures CountsOn(e, s, Next(e, s, ReplayOne(other)), ReplayOne(other), w, failures)
  {
  }

  lemma StepCounts(e: Env, s: Sys, st: Step, w: Who, failures: nat)
    requires Enabled(e, s, st) && Counts(FetcherOf(s, w), failures) && FetcherOk(e, s, FetcherOf(s, w))
    ensures CountsOn(e, s, Next(e, s, st), st, w, failures)
  {
    if IsWsStep(st) {
      WsStepCounts(e, s, st, w, failures);
    } else if st.ReplayOne? {
      ReplayOneCounts(e, s, w, st.who, failures);
    } else {
      FetchStepCounts(e, s, st, w, failures);
    }
  }

  lemma FetcherInRun(e: Env, trace: seq<Sys>, steps: seq<Step>, n: nat, w: Who)
    requires IsRun(e, trace, steps) && n < |steps|
    ensures FetcherOk(e, trace[n], FetcherOf(trace[n], w))
    ensures Enabled(e, trace[n], steps[n]) && trace[n + 1] == Next(e, trace[n], steps[n])
  {
    RunKeepsInv(e, trace, steps, n);
  }

  lemma {:induction false} AttemptsCount(e: Env, trace: seq<Sys>, steps: seq<Step>, n: nat, w: Who)
    requires IsRun(e, trace, steps) && n <= |steps|
    ensures Counts(FetcherOf(trace[n], w), Failures(trace, steps, n, w))
  {
    if n == 0 {
    } else {
      AttemptsCount(e, trace, steps, n - 1, w);
      FetcherInRun(e, trace, steps, n - 1, w);
      StepCounts(e, trace[n - 1], steps[n - 1], w, Failures(trace, steps, n - 1, w));
    }
  }

  /** In every run, for the resync worker as for the start routine: a failed attempt is followed by
      the next one on the same symbol until as many have failed as are allowed, and then, and only
      then, the symbol is abandoned; otherwise a thread lets go of its symbol only with success. */
  lemma AttemptsExactly(e: Env, trace: seq<Sys>, steps: seq<Step>, n: nat, w: Who)
    requires IsRun(e, trace, steps) && n < |steps|
    ensures var f, f', failed := FetcherOf(trace[n], w), FetcherOf(trace[n + 1], w), Failures(trace, steps, n + 1, w);
            && (Takes(steps[n], w) ==> if e.retries == 0 then f' == Free else f' == Fetching(JobOf(trace[n], w), 1))
            && (Fails(trace[n], steps[n], w) ==> !f.Free? && failed <= e.retries)
            && (Fails(trace[n], steps[n], w) ==> if failed == e.retries then f' == Free else f' == Fetching(f.sym, failed + 1))
            && (!Takes(steps[n], w) && !f.Free? && f'.Free? ==> steps[n] == ReplayEnds(w) || failed == e.retries)
  {
    AttemptsCount(e, trace, steps, n, w);
    FetcherInRun(e, trace, steps, n, w);
    StepCounts(e, trace[n], steps[n], w, Failures(trace, steps, n, w));
  }

  /** Step `m` abandons a symbol: all the attempts allowed on it have failed, and `w` is free. */
  predicate Abandons(e: Env, trace: seq<Sys>, steps: seq<Step>, m: nat, w: Who)
    requires m < |steps| && |steps| < |trace|
  {
    && (Takes(steps[m], w) || Fails(trace[m], steps[m], w))
    && FetcherOf(trace[m + 1], w).Free? && Failures(trace, steps, m + 1, w) == e.retries
  }

  /** The symbol that `w` works on at step `m`. */
  function JobAt(trace: seq<Sys>, steps: seq<Step>, m: nat, w: Who): Symbol
    requires m < |steps| && |steps| < |trace|
  {
    if Takes(steps[m], w) || FetcherOf(trace[m], w).Free? then JobOf(trace[m], w) else FetcherOf(trace[m], w).sym
  }

  // ---------------------------------------------------------------- giving up

  /** A step that begins anew with `a`: its book is cleared or loaded. */
  predicate Renews(s: Sys, st: Step, a: Symbol) {
    Clears(s, st, a) || (st.LoadDepth? && FetcherOf(s, st.who).Fetching? && FetcherOf(s, st.who).sym == a)
  }

  lemma GaveUpStep(e: Env, s: Sys, st: Step, a: Symbol)
    requires Enabled(e, s, st) && a in s.syms && a in Next(e, s, st).syms && Next(e, s, st).syms[a].gaveUp
    ensures !Renews(s, st, a)
    ensures s.syms[a].gaveUp
            || (Next(e, s, st).worker.Free? && ((st.Pop? && JobOf(s, Worker) == a)
                                                || (Fails(s, st, Worker) && s.worker.sym == a)))
  {
  }

  /** The worker abandoned `a` at step `m`, and nothing began anew with it before step `n`. */
  predicate DeadSince(e: Env, trace: seq<Sys>, steps: seq<Step>, m: nat, n: nat, a: Symbol)
    requires n <= |steps| && |steps| < |trace|
  {
    && m < n && Abandons(e, trace, steps, m, Worker) && JobAt(trace, steps, m, Worker) == a
    && forall j {:trigger Renews(trace[j], steps[j], a)} :: m <= j < n ==> !Renews(trace[j], steps[j], a)
  }

  lemma {:induction false} GaveUpMeansDead(e: Env, trace: seq<Sys>, steps: seq<Step>, n: nat, a: Symbol) returns (m: nat)
    requires IsRun(e, trace, steps) && n <= |steps| && a in e.all && a in trace[n].syms && trace[n].syms[a].gaveUp
    ensures DeadSince(e, trace, steps, m, n, a)
  {
    if n == 0 {
      AtStart(e, trace, steps, a);
      assert false;
    } else {
      StepInRun(e, trace, steps, n - 1, a);
      GaveUpStep(e, trace[n - 1], steps[n - 1], a);
      if trace[n - 1].syms[a].gaveUp {
        m := GaveUpMeansDead(e, trace, steps, n - 1, a);
      } else {
        m := n - 1;
        AttemptsExactly(e, trace, steps, m, Worker);
      }
    }
  }

  /** The start routine has loaded every symbol and reported success. */
  predicate Started(s: Sys) {
    s.starter.todo == [] && s.starter.ok
  }

  /** After a successful start, in every interleaving: a symbol whose book has no snapshot is in the
      queue, or with the worker and an attempt to go, or on its way from the WebSocket thread to the
      queue, or all the attempts allowed on it have failed since the worker took it, and nothing has
      begun anew with it. */
  lemma ResyncNeverLost(e: Env, trace: seq<Sys>, steps: seq<Step>, n: nat, a: Symbol)
    requires IsRun(e, trace, steps) && n <= |steps| && a in e.all && a in trace[n].syms
    requires Started(trace[n]) && !trace[n].syms[a].book.applied
    ensures var s := trace[n];
            || a in s.queue
            || (s.worker.Fetching? && s.worker.sym == a && Failures(trace, steps, n, Worker) < e.retries)
            || WsOwes(s, a)
            || exists m :: DeadSince(e, trace, steps, m, n, a)
  {
    KnownInRun(e, trace, steps, n, a);
    AttemptsCount(e, trace, steps, n, Worker);
    assert Owed(trace[n], a);
    if trace[n].syms[a].gaveUp {
      var m := GaveUpMeansDead(e, trace, steps, n, a);
    }
  }

  /** A thread that takes a symbol, or fails, and then is free has abandoned it. */
  lemma AbandonsIff(e: Env, trace: seq<Sys>, steps: seq<Step>, m: nat, w: Who)
    requires IsRun(e, trace, steps) && m < |steps|
    ensures Abandons(e, trace, steps, m, w) <==>
            FetcherOf(trace[m + 1], w).Free? && (Takes(steps[m], w) || Fails(trace[m], steps[m], w))
  {
    AttemptsExactly(e, trace, steps, m, w);
  }

  lemma ReportStep(e: Env, s: Sys, st: Step)
    requires Enabled(e, s, st)
    ensures var s' := Next(e, s, st);
            s'.starter.ok <==> s.starter.ok && !(s'.starter.f.Free? && (st.StartNext? || Fails(s, st, Start)))
  {
  }

  /** The start routine reports success exactly when it has abandoned no symbol. */
  lemma {:induction false} StartReport(e: Env, trace: seq<Sys>, steps: seq<Step>, n: nat)
    requires IsRun(e, trace, steps) && n <= |steps|
    ensures trace[n].starter.ok <==> forall m :: 0 <= m < n ==> !Abandons(e, trace, steps, m, Start)
  {
    if n == 0 {
    } else {
      StartReport(e, trace, steps, n - 1);
      AbandonsIff(e, trace, steps, n - 1, Start);
      FetcherInRun(e, trace, steps, n - 1, Start);
      ReportStep(e, trace[n - 1], steps[n - 1]);
    }
  }

  // ---------------------------------------------------------------- the queue

  /** All resyncs ever asked for, in order. */
  function Requests(e: Env, trace: seq<Sys>, steps: seq<Step>, n: nat): seq<Symbol>
    requires n <= |steps| && |steps| < |trace|
  {
    if n == 0 then trace[0].queue
    else
      var s, st, before := trace[n - 1], steps[n - 1], Requests(e, trace, steps, n - 1);
      if st.QueueResync? && s.ws.Unbuffered? then before + [s.ws.sym]
      else if st.ReconnectQueue? then before + e.all
      else before
  }

  function Pops(steps: seq<Step>, n: nat): nat
    requires n <= |steps|
  {
    if n == 0 then 0 else Pops(steps, n - 1) + if steps[n - 1].Pop? then 1 else 0
  }

  predicate QueueFollows(e: Env, s: Sys, s': Sys, st: Step) {
    && s'.queue == (if st.QueueResync? && s.ws.Unbuffered? then s.queue + [s.ws.sym]
                    else if st.ReconnectQueue? then s.queue + e.all
                    else if st.Pop? then Rest(s.queue)
                    else s.queue)
    && (st.Pop? ==> s.queue != [])
  }

  lemma QueueStep(e: Env, s: Sys, st: Step)
    requires Enabled(e, s, st)
    ensures QueueFollows(e, s, Next(e, s, st), st)
  {
  }

  lemma QueueInRun(e: Env, trace: seq<Sys>, steps: seq<Step>, n: nat)
    requires IsRun(e, trace, steps) && n < |steps|
    ensures QueueFollows(e, trace[n], trace[n + 1], steps[n])
  {
    FetcherInRun(e, trace, steps, n, Worker);
    QueueStep(e, trace[n], steps[n]);
  }

  lemma Fifo<T>(all: seq<T>, k: nat, more: seq<T>)
    requires k <= |all|
    ensures (all + more)[k..] == all[k..] + more
    ensures k < |all| ==> all[k..][1..] == all[k + 1..]
  {
  }

  lemma {:induction false} QueueIsRest(e: Env, trace: seq<Sys>, steps: seq<Step>, n: nat)
    requires IsRun(e, trace, steps) && n <= |steps|
    ensures Pops(steps, n) <= |Requests(e, trace, steps, n)|
    ensures trace[n].queue == Requests(e, trace, steps, n)[Pops(steps, n)..]
  {
    if n == 0 {
    } else {
      var all, k := Requests(e, trace, steps, n - 1), Pops(steps, n - 1);
      QueueIsRest(e, trace, steps, n - 1);
      QueueInRun(e, trace, steps, n - 1);
      Fifo(all, k, Requests(e, trace, steps, n)[|all|..]);
    }
  }

  /** The worker serves the requests in the order they were made, each once: what is queued are all
      requests but the first ones, as many as it has taken, and it takes the first of the rest. */
  lemma QueueIsFifo(e: Env, trace: seq<Sys>, steps: seq<Step>, n: nat)
    requires IsRun(e, trace, steps) && n <= |steps|
    ensures var all, k := Requests(e, trace, steps, n), Pops(steps, n);
            && k <= |all| && trace[n].queue == all[k..]
            && (n < |steps| && steps[n].Pop? ==> k < |all| && JobAt(trace, steps, n, Worker) == all[k])
  {
    QueueIsRest(e, trace, steps, n);
    if n < |steps| {
      QueueInRun(e, trace, steps, n);
    }
  }
}
