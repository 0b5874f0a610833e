/** The Binance adapter as a transition system: the WebSocket thread, the resync worker and the
    start routine, interleaved. Each step is one lock section or one atomic access; `bufferMutex`
    is held by whoever is replaying. */
module Feed {
  import opened Wrappers
  import opened LadderSpec
  import opened BookSpec
  import opened Symbols

  type Symbol = string

  /** The WebSocket thread's place in its message handler. */
  datatype Ws =
    | Idle
    | Slow(sym: Symbol, d: Diff)       // read liveReady == false, has not taken the lock
    | Apply(sym: Symbol, d: Diff)      // about to apply a live message
    | Refused(sym: Symbol)             // the message showed a gap
    | ClearedOne(sym: Symbol)          // book cleared
    | Unlived(sym: Symbol)             // liveReady lowered
    | Unbuffered(sym: Symbol)          // buffer cleared, about to queue the resync
    | Reconnect(todo: seq<Symbol>)     // all books cleared, flags in `todo` still to be lowered

  /** A thread that fetches snapshots. */
  datatype Fetcher = Free | Fetching(sym: Symbol, attempt: nat) | Replaying(sym: Symbol, attempt: nat, pos: nat)

  /** The start routine: symbols still to be loaded, and whether all so far succeeded. */
  datatype Starter = Starter(todo: seq<Symbol>, f: Fetcher, ok: bool)

  datatype Sys = Sys(syms: map<Symbol, Sym>, queue: seq<Symbol>, ws: Ws, worker: Fetcher, starter: Starter)

  datatype Env = Env(c: Config, retries: nat, all: seq<Symbol>)

  datatype Who = Worker | Start

  datatype Step =
    | Receive(sym: Symbol, d: Diff)
    | TakeSlow
    | ApplyLive
    | ClearBook
    | LowerFlag
    | ClearBuffer
    | QueueResync
    | Reconnected
    | ReconnectLower
    | ReconnectQueue
    | Pop
    | StartNext
    | FetchFails(who: Who)
    | LoadDepth(who: Who, s: Depth)
    | ReplayOne(who: Who)
    | ReplayEnds(who: Who)

  function FetcherOf(s: Sys, w: Who): Fetcher { if w == Worker then s.worker else s.starter.f }

  function WithFetcher(s: Sys, w: Who, f: Fetcher): Sys {
    if w == Worker then s.(worker := f) else s.(starter := s.starter.(f := f))
  }

  predicate LockFree(s: Sys) { !s.worker.Replaying? && !s.starter.f.Replaying? }

  /** How far a replay of the symbol has come; -1 when there is none. */
  function ReplayPos(s: Sys, a: Symbol): int {
    if s.worker.Replaying? && s.worker.sym == a then s.worker.pos
    else if s.starter.f.Replaying? && s.starter.f.sym == a then s.starter.f.pos
    else -1
  }

  function RoleOf(ws: Ws, a: Symbol): Role {
    match ws
    case Idle => Away
    case Slow(x, _) => if x == a then InSlow else Away
    case Apply(x, _) => if x == a then InApply else Away
    case Refused(x) => if x == a then InRefused else Away
    case ClearedOne(x) => if x == a then InCleared else Away
    case Unlived(x) => if x == a then InUnlived else Away
    case Unbuffered(x) => if x == a then InUnbuffered else Away
    case Reconnect(todo) => InReconnect(a in todo)
  }

  // ---------------------------------------------------------------- steps

  predicate Enabled(e: Env, s: Sys, st: Step) {
    match st
    case Receive(a, _) => s.ws.Idle? && a in s.syms
    case TakeSlow => s.ws.Slow? && LockFree(s) && s.ws.sym in s.syms
    case ApplyLive => s.ws.Apply? && s.ws.sym in s.syms
    case ClearBook => s.ws.Refused? && s.ws.sym in s.syms
    case LowerFlag => s.ws.ClearedOne? && s.ws.sym in s.syms
    case ClearBuffer => s.ws.Unlived? && LockFree(s) && s.ws.sym in s.syms
    case QueueResync => s.ws.Unbuffered?
    case Reconnected => s.ws.Idle? && LockFree(s)
    case ReconnectLower => s.ws.Reconnect? && s.ws.todo != [] && s.ws.todo[0] in s.syms
    case ReconnectQueue => s.ws.Reconnect? && s.ws.todo == []
    case Pop => s.worker.Free? && s.queue != [] && s.queue[0] in s.syms
    case StartNext => s.starter.f.Free? && s.starter.todo != [] && s.starter.todo[0] in s.syms
    case FetchFails(w) => FetcherOf(s, w).Fetching? && FetcherOf(s, w).sym in s.syms
    case LoadDepth(w, _) => FetcherOf(s, w).Fetching? && LockFree(s) && FetcherOf(s, w).sym in s.syms
    case ReplayOne(w) =>
      var f := FetcherOf(s, w);
      f.Replaying? && f.sym in s.syms && f.pos < |s.syms[f.sym].buffer|
    case ReplayEnds(w) =>
      var f := FetcherOf(s, w);
      f.Replaying? && f.sym in s.syms && f.pos == |s.syms[f.sym].buffer|
  }

  /** One thing happens to one symbol. */
  function With(s: Sys, a: Symbol, x: Sym): Sys { s.(syms := s.syms[a := x]) }

  function Rest(todo: seq<Symbol>): seq<Symbol> { if todo == [] then [] else todo[1..] }

  function Abandon(s: Sys, w: Who, a: Symbol): Sys
    requires a in s.syms
  {
    match w
    case Worker => With(s, a, GivenUp(s.syms[a])).(worker := Free)
    case Start => s.(starter := Starter(Rest(s.starter.todo), Free, false))
  }

  /** A new job: the first attempt, or none at all when no attempts are allowed. */
  function Begin(e: Env, s: Sys, w: Who, a: Symbol): Sys
    requires a in s.syms
  {
    if e.retries >= 1 then WithFetcher(s, w, Fetching(a, 1)) else Abandon(s, w, a)
  }

  /** An attempt failed: the next one, or giving up. */
  function Retry(e: Env, s: Sys, w: Who, a: Symbol, attempt: nat): Sys
    requires a in s.syms
  {
    if attempt < e.retries then WithFetcher(s, w, Fetching(a, attempt + 1)) else Abandon(s, w, a)
  }

  function Succeed(s: Sys, w: Who): Sys {
    match w
    case Worker => s.(worker := Free)
    case Start => s.(starter := Starter(Rest(s.starter.todo), Free, s.starter.ok))
  }

  function Next(e: Env, s: Sys, st: Step): Sys
    requires Enabled(e, s, st)
  {
    match st
    case Receive(a, d) => s.(ws := if s.syms[a].live then Apply(a, d) else Slow(a, d))
    case TakeSlow =>
      var a, d, x := s.ws.sym, s.ws.d, s.syms[s.ws.sym];
      if !x.book.applied then With(s, a, Buffered(x, d)).(ws := Idle)
      else With(s, a, Live(x)).(ws := Apply(a, d))
    case ApplyLive =>
      var a, d, x := s.ws.sym, s.ws.d, s.syms[s.ws.sym];
      if IsGap(x.book, d) then s.(ws := Refused(a))
      else With(s, a, Applied(e.c, x, d)).(ws := Idle)
    case ClearBook =>
      With(s, s.ws.sym, ClearedBook(s.syms[s.ws.sym], ReplayPos(s, s.ws.sym))).(ws := ClearedOne(s.ws.sym))
    case LowerFlag => With(s, s.ws.sym, NotLive(s.syms[s.ws.sym])).(ws := Unlived(s.ws.sym))
    case ClearBuffer => With(s, s.ws.sym, ClearedBuffer(s.syms[s.ws.sym])).(ws := Unbuffered(s.ws.sym))
    case QueueResync => s.(queue := s.queue + [s.ws.sym], ws := Idle)
    case Reconnected =>
      s.(syms := map a | a in s.syms :: Symbols.Reconnected(s.syms[a]), ws := Reconnect(e.all))
    case ReconnectLower =>
      With(s, s.ws.todo[0], NotLive(s.syms[s.ws.todo[0]])).(ws := Reconnect(s.ws.todo[1..]))
    case ReconnectQueue => s.(queue := s.queue + e.all, ws := Idle)
    case Pop => Begin(e, s.(queue := s.queue[1..]), Worker, s.queue[0])
    case StartNext => Begin(e, s, Start, s.starter.todo[0])
    case FetchFails(w) => Retry(e, s, w, FetcherOf(s, w).sym, FetcherOf(s, w).attempt)
    case LoadDepth(w, depth) =>
      var f := FetcherOf(s, w);
      WithFetcher(With(s, f.sym, Reloaded(e.c, s.syms[f.sym], depth)), w, Replaying(f.sym, f.attempt, 0))
    case ReplayOne(w) =>
      var f := FetcherOf(s, w);
      var x := s.syms[f.sym];
      if IsGap(x.book, x.buffer[f.pos]) then Retry(e, With(s, f.sym, ReplayRefused(x)), w, f.sym, f.attempt)
      else WithFetcher(With(s, f.sym, Replayed(e.c, x, f.pos)), w, f.(pos := f.pos + 1))
    case ReplayEnds(w) =>
      var f := FetcherOf(s, w);
      Succeed(With(s, f.sym, ReplayDone(s.syms[f.sym])), w)
  }

  /** `start`: books cleared, flags down, buffers empty; earlier requests may still be queued. */
  ghost predicate Initial(e: Env, s: Sys) {
    && (forall a :: a in e.all <==> a in s.syms)
    && (forall a :: a in s.queue ==> a in s.syms)
    && (forall a :: a in s.syms ==> s.syms[a] == Sym(CLEARED, false, [], [], None, true, false))
    && s.ws == Idle && s.worker == Free && s.starter == Starter(e.all, Free, true)
  }

  // ---------------------------------------------------------------- who owes a resync

  /** Names the threads mention are known, attempts are within bounds, the start routine works on
      the first symbol of its list, and only one thread holds the buffer lock. */
  predicate FetcherOk(e: Env, s: Sys, f: Fetcher) {
    !f.Free? ==> f.sym in s.syms && 1 <= f.attempt <= e.retries
  }

  ghost predicate ThreadsOk(e: Env, s: Sys) {
    && (forall a :: a in e.all <==> a in s.syms)
    && (forall a :: a in s.queue ==> a in s.syms)
    && (forall a :: a in s.starter.todo ==> a in s.syms)
    && FetcherOk(e, s, s.worker) && FetcherOk(e, s, s.starter.f)
    && (!s.starter.f.Free? ==> s.starter.todo != [] && s.starter.f.sym == s.starter.todo[0])
    && !(s.worker.Replaying? && s.starter.f.Replaying?)
    && (s.ws.Reconnect? ==> forall a :: a in s.ws.todo ==> a in s.syms)
    && (!s.ws.Idle? && !s.ws.Reconnect? ==> s.ws.sym in s.syms)
  }

  /** The WebSocket thread is between clearing the book and queueing the resync. */
  predicate WsOwes(s: Sys, a: Symbol) {
    var r := RoleOf(s.ws, a);
    r.InCleared? || r.InUnlived? || r.InUnbuffered? || r.InReconnect?
  }

  /** The start routine has not come to the symbol, or is fetching it. */
  predicate StarterOwes(s: Sys, a: Symbol) {
    a in Rest(s.starter.todo) || (s.starter.todo != [] && s.starter.todo[0] == a && !s.starter.f.Replaying?)
  }

  /** A symbol without a snapshot is somebody's duty, or has been given up. */
  predicate Owed(s: Sys, a: Symbol)
    requires a in s.syms
  {
    || s.syms[a].book.applied || s.syms[a].gaveUp
    || a in s.queue || (s.worker.Fetching? && s.worker.sym == a) || WsOwes(s, a)
    || StarterOwes(s, a) || !s.starter.ok
  }

  ghost predicate Inv(e: Env, s: Sys) {
    && ThreadsOk(e, s)
    && (forall a :: a in s.syms ==> SymOk(e.c, s.syms[a], ReplayPos(s, a), RoleOf(s.ws, a)))
    && (forall a :: a in s.syms ==> Owed(s, a))
  }

  lemma InitialInv(e: Env, s: Sys)
    requires Initial(e, s)
    ensures Inv(e, s)
  {
  }

  // ---------------------------------------------------------------- every step keeps it

  predicate SymsOk(e: Env, s: Sys) {
    forall a :: a in s.syms ==> SymOk(e.c, s.syms[a], ReplayPos(s, a), RoleOf(s.ws, a))
  }

  /** The step of one symbol, and no change for the others. */
  lemma OthersKeep(e: Env, s: Sys, s': Sys, b: Symbol)
    requires SymsOk(e, s) && s'.syms.Keys == s.syms.Keys && b in s.syms
    requires forall a :: a in s.syms && a != b ==>
               s'.syms[a] == s.syms[a] && ReplayPos(s', a) == ReplayPos(s, a) && RoleOf(s'.ws, a) == RoleOf(s.ws, a)
    requires SymOk(e.c, s'.syms[b], ReplayPos(s', b), RoleOf(s'.ws, b))
    ensures SymsOk(e, s')
  {
  }

  lemma NoReplayWhenFree(s: Sys, a: Symbol)
    requires LockFree(s)
    ensures ReplayPos(s, a) == -1
  {
  }

  lemma ReceiveSyms(e: Env, s: Sys, a: Symbol, d: Diff)
    requires Inv(e, s) && Enabled(e, s, Receive(a, d))
    ensures SymsOk(e, Next(e, s, Receive(a, d)))
  {
    var s' := Next(e, s, Receive(a, d));
    ReceiveKeeps(e.c, s.syms[a], ReplayPos(s, a));
    OthersKeep(e, s, s', a);
  }

  lemma TakeSlowSyms(e: Env, s: Sys)
    requires Inv(e, s) && Enabled(e, s, TakeSlow)
    ensures SymsOk(e, Next(e, s, TakeSlow))
  {
    var s' := Next(e, s, TakeSlow);
    var x := s.syms[s.ws.sym];
    NoReplayWhenFree(s, s.ws.sym);
    if x.book.applied {
      GoLiveKeeps(e.c, x);
    } else {
      BufferKeeps(e.c, x, s.ws.d);
    }
    OthersKeep(e, s, s', s.ws.sym);
  }

  lemma ApplyLiveSyms(e: Env, s: Sys)
    requires Inv(e, s) && Enabled(e, s, ApplyLive)
    ensures SymsOk(e, Next(e, s, ApplyLive))
  {
    var s' := Next(e, s, ApplyLive);
    var x, pos := s.syms[s.ws.sym], ReplayPos(s, s.ws.sym);
    if IsGap(x.book, s.ws.d) {
      RefuseKeeps(e.c, x, pos);
    } else {
      ApplyKeeps(e.c, x, pos, s.ws.d);
    }
    OthersKeep(e, s, s', s.ws.sym);
  }

  lemma ClearBookSyms(e: Env, s: Sys)
    requires Inv(e, s) && Enabled(e, s, ClearBook)
    ensures SymsOk(e, Next(e, s, ClearBook))
  {
    var s' := Next(e, s, ClearBook);
    ClearBookKeeps(e.c, s.syms[s.ws.sym], ReplayPos(s, s.ws.sym));
    OthersKeep(e, s, s', s.ws.sym);
  }

  lemma LowerFlagSyms(e: Env, s: Sys)
    requires Inv(e, s) && Enabled(e, s, LowerFlag)
    ensures SymsOk(e, Next(e, s, LowerFlag))
  {
    var s' := Next(e, s, LowerFlag);
    NotLiveKeeps(e.c, s.syms[s.ws.sym], ReplayPos(s, s.ws.sym), InCleared);
    OthersKeep(e, s, s', s.ws.sym);
  }

  lemma ClearBufferSyms(e: Env, s: Sys)
    requires Inv(e, s) && Enabled(e, s, ClearBuffer)
    ensures SymsOk(e, Next(e, s, ClearBuffer))
  {
    var s' := Next(e, s, ClearBuffer);
    NoReplayWhenFree(s, s.ws.sym);
    ClearBufferKeeps(e.c, s.syms[s.ws.sym]);
    OthersKeep(e, s, s', s.ws.sym);
  }

  lemma QueueResyncSyms(e: Env, s: Sys)
    requires Inv(e, s) && Enabled(e, s, QueueResync)
    ensures SymsOk(e, Next(e, s, QueueResync))
  {
    var s' := Next(e, s, QueueResync);
    PushKeeps(e.c, s.syms[s.ws.sym], ReplayPos(s, s.ws.sym), InUnbuffered);
    OthersKeep(e, s, s', s.ws.sym);
  }

  lemma ReconnectStepSyms(e: Env, s: Sys, st: Step)
    requires Inv(e, s) && Enabled(e, s, st)
    requires st.Reconnected? || st.ReconnectLower? || st.ReconnectQueue?
    ensures SymsOk(e, Next(e, s, st))
  {
    var s' := Next(e, s, st);
    forall a | a in s'.syms
      ensures SymOk(e.c, s'.syms[a], ReplayPos(s', a), RoleOf(s'.ws, a))
    {
      var x, pos := s.syms[a], ReplayPos(s, a);
      match st {
        case Reconnected =>
          NoReplayWhenFree(s, a);
          ReconnectKeeps(e.c, x);
        case ReconnectLower =>
          if a == s.ws.todo[0] {
            NotLiveKeeps(e.c, x, pos, RoleOf(s.ws, a));
          } else {
            assert a in s.ws.todo <==> a in s.ws.todo[1..];
          }
        case ReconnectQueue => PushKeeps(e.c, x, pos, RoleOf(s.ws, a));
      }
    }
  }

  /** Giving up or trying again: no replay either way. */
  lemma RetrySyms(e: Env, s: Sys, w: Who, a: Symbol, attempt: nat)
    requires SymsOk(e, WithFetcher(s, w, Free)) && a in s.syms
    ensures SymsOk(e, Retry(e, s, w, a, attempt))
  {
    var s0 := WithFetcher(s, w, Free);
    var s' := Retry(e, s, w, a, attempt);
    assert forall b :: ReplayPos(s', b) == ReplayPos(s0, b);
    GiveUpKeeps(e.c, s.syms[a], ReplayPos(s0, a), RoleOf(s.ws, a));
    OthersKeep(e, s0, s', a);
  }

  lemma PopSyms(e: Env, s: Sys)
    requires Inv(e, s) && Enabled(e, s, Pop)
    ensures SymsOk(e, Next(e, s, Pop))
  {
    var s' := Next(e, s, Pop);
    GiveUpKeeps(e.c, s.syms[s.queue[0]], ReplayPos(s, s.queue[0]), RoleOf(s.ws, s.queue[0]));
    OthersKeep(e, s, s', s.queue[0]);
  }

  lemma StartNextSyms(e: Env, s: Sys)
    requires Inv(e, s) && Enabled(e, s, StartNext)
    ensures SymsOk(e, Next(e, s, StartNext))
  {
    var s' := Next(e, s, StartNext);
    OthersKeep(e, s, s', s.starter.todo[0]);
  }

  lemma FetchFailsSyms(e: Env, s: Sys, w: Who)
    requires Inv(e, s) && Enabled(e, s, FetchFails(w))
    ensures SymsOk(e, Next(e, s, FetchFails(w)))
  {
    var s' := Next(e, s, FetchFails(w));
    var f := FetcherOf(s, w);
    RetrySyms(e, s, w, f.sym, f.attempt);
  }

  lemma LoadDepthSyms(e: Env, s: Sys, w: Who, depth: Depth)
    requires Inv(e, s) && Enabled(e, s, LoadDepth(w, depth))
    ensures SymsOk(e, Next(e, s, LoadDepth(w, depth)))
  {
    var s' := Next(e, s, LoadDepth(w, depth));
    var f := FetcherOf(s, w);
    NoReplayWhenFree(s, f.sym);
    LoadKeeps(e.c, s.syms[f.sym], depth, RoleOf(s.ws, f.sym));
    OthersKeep(e, s, s', f.sym);
  }

  lemma ReplayRefusedSyms(e: Env, s: Sys, w: Who)
    requires ThreadsOk(e, s) && SymsOk(e, s) && FetcherOf(s, w).Replaying? && FetcherOf(s, w).sym in s.syms
    requires var f := FetcherOf(s, w); SymOk(e.c, ReplayRefused(s.syms[f.sym]), -1, RoleOf(s.ws, f.sym))
    ensures var f := FetcherOf(s, w);
            SymsOk(e, Retry(e, With(s, f.sym, ReplayRefused(s.syms[f.sym])), w, f.sym, f.attempt))
  {
    var f := FetcherOf(s, w);
    var s1 := With(s, f.sym, ReplayRefused(s.syms[f.sym]));
    OthersKeep(e, s, WithFetcher(s1, w, Free), f.sym);
    RetrySyms(e, s1, w, f.sym, f.attempt);
  }

  lemma ReplayOneSyms(e: Env, s: Sys, w: Who)
    requires Inv(e, s) && Enabled(e, s, ReplayOne(w))
    ensures SymsOk(e, Next(e, s, ReplayOne(w)))
  {
    var f := FetcherOf(s, w);
    var x := s.syms[f.sym];
    ReplayKeeps(e.c, x, f.pos, RoleOf(s.ws, f.sym));
    if IsGap(x.book, x.buffer[f.pos]) {
      ReplayRefusedSyms(e, s, w);
    } else {
      OthersKeep(e, s, Next(e, s, ReplayOne(w)), f.sym);
    }
  }

  lemma ReplayEndsSyms(e: Env, s: Sys, w: Who)
    requires Inv(e, s) && Enabled(e, s, ReplayEnds(w))
    ensures SymsOk(e, Next(e, s, ReplayEnds(w)))
  {
    var s' := Next(e, s, ReplayEnds(w));
    var f := FetcherOf(s, w);
    ReplayEndKeeps(e.c, s.syms[f.sym], RoleOf(s.ws, f.sym));
    OthersKeep(e, s, s', f.sym);
  }

  lemma StepKeepsSyms(e: Env, s: Sys, st: Step)
    requires Inv(e, s) && Enabled(e, s, st)
    ensures SymsOk(e, Next(e, s, st))
  {
    match st
    case Receive(a, d) => ReceiveSyms(e, s, a, d);
    case TakeSlow => TakeSlowSyms(e, s);
    case ApplyLive => ApplyLiveSyms(e, s);
    case ClearBook => ClearBookSyms(e, s);
    case LowerFlag => LowerFlagSyms(e, s);
    case ClearBuffer => ClearBufferSyms(e, s);
    case QueueResync => QueueResyncSyms(e, s);
    case Reconnected => ReconnectStepSyms(e, s, st);
    case ReconnectLower => ReconnectStepSyms(e, s, st);
    case ReconnectQueue => ReconnectStepSyms(e, s, st);
    case Pop => PopSyms(e, s);
    case StartNext => StartNextSyms(e, s);
    case FetchFails(w) => FetchFailsSyms(e, s, w);
    case LoadDepth(w, depth) => LoadDepthSyms(e, s, w, depth);
    case ReplayOne(w) => ReplayOneSyms(e, s, w);
    case ReplayEnds(w) => ReplayEndsSyms(e, s, w);
  }

  predicate IsWsStep(st: Step) {
    st.Receive? || st.TakeSlow? || st.ApplyLive? || st.ClearBook? || st.LowerFlag? || st.ClearBuffer?
    || st.QueueResync? || st.Reconnected? || st.ReconnectLower? || st.ReconnectQueue?
  }

  lemma WsKeepsThreads(e: Env, s: Sys, st: Step)
    requires ThreadsOk(e, s) && Enabled(e, s, st) && IsWsStep(st)
    ensures ThreadsOk(e, Next(e, s, st)) && Next(e, s, st).syms.Keys == s.syms.Keys
  {
    assert Next(e, s, st).syms.Keys == s.syms.Keys;
  }

  /** A replay goes one message further, begins, or ends. */
  lemma ReplayKeepsThreads(e: Env, s: Sys, st: Step)
    requires ThreadsOk(e, s) && Enabled(e, s, st) && (st.LoadDepth? || st.ReplayEnds?)
    ensures ThreadsOk(e, Next(e, s, st)) && Next(e, s, st).syms.Keys == s.syms.Keys
  {
    assert forall b :: b in Rest(s.starter.todo) ==> b in s.starter.todo;
    assert Next(e, s, st).syms.Keys == s.syms.Keys;
  }

  lemma AbandonKeepsThreads(e: Env, s: Sys, w: Who, a: Symbol)
    requires ThreadsOk(e, WithFetcher(s, w, Free)) && a in s.syms
    ensures ThreadsOk(e, Abandon(s, w, a)) && Abandon(s, w, a).syms.Keys == s.syms.Keys
  {
    assert forall b :: b in Rest(s.starter.todo) ==> b in s.starter.todo;
  }

  lemma RetryKeepsThreads(e: Env, s: Sys, w: Who, a: Symbol, attempt: nat)
    requires ThreadsOk(e, WithFetcher(s, w, Free)) && a in s.syms
    requires w == Start ==> s.starter.todo != [] && s.starter.todo[0] == a
    ensures ThreadsOk(e, Retry(e, s, w, a, attempt)) && Retry(e, s, w, a, attempt).syms.Keys == s.syms.Keys
    ensures ThreadsOk(e, Begin(e, s, w, a)) && Begin(e, s, w, a).syms.Keys == s.syms.Keys
  {
    AbandonKeepsThreads(e, s, w, a);
  }

  lemma ReplayOneKeepsThreads(e: Env, s: Sys, w: Who)
    requires ThreadsOk(e, s) && Enabled(e, s, ReplayOne(w))
    ensures ThreadsOk(e, Next(e, s, ReplayOne(w))) && Next(e, s, ReplayOne(w)).syms.Keys == s.syms.Keys
  {
    var f := FetcherOf(s, w);
    var x := s.syms[f.sym];
    if IsGap(x.book, x.buffer[f.pos]) {
      RetryKeepsThreads(e, With(s, f.sym, ReplayRefused(x)), w, f.sym, f.attempt);
    } else {
      assert Next(e, s, ReplayOne(w)).syms.Keys == s.syms.Keys;
    }
  }

  lemma FetchKeepsThreads(e: Env, s: Sys, st: Step)
    requires ThreadsOk(e, s) && Enabled(e, s, st) && !IsWsStep(st)
    ensures ThreadsOk(e, Next(e, s, st)) && Next(e, s, st).syms.Keys == s.syms.Keys
  {
    match st
    case Pop => RetryKeepsThreads(e, s.(queue := s.queue[1..]), Worker, s.queue[0], 0);
    case StartNext => RetryKeepsThreads(e, s, Start, s.starter.todo[0], 0);
    case FetchFails(w) => RetryKeepsThreads(e, s, w, FetcherOf(s, w).sym, FetcherOf(s, w).attempt);
    case ReplayOne(w) => ReplayOneKeepsThreads(e, s, w);
    case LoadDepth(_, _) => ReplayKeepsThreads(e, s, st);
    case ReplayEnds(_) => ReplayKeepsThreads(e, s, st);
    case _ =>
  }

  lemma ApplyKeepsOwed(e: Env, s: Sys, a: Symbol)
    requires a in s.syms && Owed(s, a) && Enabled(e, s, ApplyLive)
    ensures a in Next(e, s, ApplyLive).syms && Owed(Next(e, s, ApplyLive), a)
  {
    UpdateKeeps(e.c, s.syms[s.ws.sym].book, s.ws.d);
  }

  lemma WsKeepsOwed(e: Env, s: Sys, st: Step, a: Symbol)
    requires ThreadsOk(e, s) && a in s.syms && Owed(s, a) && Enabled(e, s, st)
    requires st.Receive? || st.TakeSlow? || st.ClearBook? || st.LowerFlag? || st.ClearBuffer? || st.QueueResync?
    requires a in Next(e, s, st).syms
    ensures Owed(Next(e, s, st), a)
  {
  }

  lemma ReconnectKeepsOwed(e: Env, s: Sys, st: Step, a: Symbol)
    requires ThreadsOk(e, s) && a in s.syms && Owed(s, a) && Enabled(e, s, st)
    requires st.Reconnected? || st.ReconnectLower? || st.ReconnectQueue?
    requires a in Next(e, s, st).syms
    ensures Owed(Next(e, s, st), a)
  {
  }

  lemma TakingKeepsOwed(e: Env, s: Sys, st: Step, a: Symbol)
    requires ThreadsOk(e, s) && a in s.syms && Owed(s, a)
    requires Enabled(e, s, st) && (st.Pop? || st.StartNext?)
    requires a in Next(e, s, st).syms
    ensures Owed(Next(e, s, st), a)
  {
  }

  lemma FetchFailsKeepsOwed(e: Env, s: Sys, w: Who, a: Symbol)
    requires ThreadsOk(e, s) && a in s.syms && Owed(s, a) && Enabled(e, s, FetchFails(w))
    requires ReplayPos(s, a) >= 0 ==> s.syms[a].book.applied || WsOwes(s, a)
    ensures a in Next(e, s, FetchFails(w)).syms && Owed(Next(e, s, FetchFails(w)), a)
  {
  }

  lemma LoadDepthKeepsOwed(e: Env, s: Sys, w: Who, d: Depth, a: Symbol)
    requires ThreadsOk(e, s) && a in s.syms && Owed(s, a) && Enabled(e, s, LoadDepth(w, d))
    requires ReplayPos(s, a) >= 0 ==> s.syms[a].book.applied || WsOwes(s, a)
    ensures a in Next(e, s, LoadDepth(w, d)).syms && Owed(Next(e, s, LoadDepth(w, d)), a)
  {
  }

  lemma ReplayOneKeepsOwed(e: Env, s: Sys, w: Who, a: Symbol)
    requires ThreadsOk(e, s) && a in s.syms && Owed(s, a) && Enabled(e, s, ReplayOne(w))
    requires ReplayPos(s, a) >= 0 ==> s.syms[a].book.applied || WsOwes(s, a)
    ensures a in Next(e, s, ReplayOne(w)).syms && Owed(Next(e, s, ReplayOne(w)), a)
  {
    var f := FetcherOf(s, w);
    UpdateKeeps(e.c, s.syms[f.sym].book, s.syms[f.sym].buffer[f.pos]);
  }

  lemma ReplayEndsKeepsOwed(e: Env, s: Sys, w: Who, a: Symbol)
    requires ThreadsOk(e, s) && a in s.syms && Owed(s, a) && Enabled(e, s, ReplayEnds(w))
    requires ReplayPos(s, a) >= 0 ==> s.syms[a].book.applied || WsOwes(s, a)
    ensures a in Next(e, s, ReplayEnds(w)).syms && Owed(Next(e, s, ReplayEnds(w)), a)
  {
  }

  /** A symbol being replayed has its snapshot, or the WebSocket thread has just cleared it. */
  lemma ReplayedIsOwed(e: Env, s: Sys, a: Symbol)
    requires Inv(e, s) && a in s.syms && ReplayPos(s, a) >= 0
    ensures s.syms[a].book.applied || WsOwes(s, a)
  {
  }

  lemma StepKeepsInv(e: Env, s: Sys, st: Step)
    requires Inv(e, s) && Enabled(e, s, st)
    ensures Inv(e, Next(e, s, st))
  {
    StepKeepsSyms(e, s, st);
    if IsWsStep(st) {
      WsKeepsThreads(e, s, st);
    } else {
      FetchKeepsThreads(e, s, st);
    }
    forall a | a in s.syms
      ensures Owed(Next(e, s, st), a)
    {
      if st.ApplyLive? {
        ApplyKeepsOwed(e, s, a);
      } else if st.Reconnected? || st.ReconnectLower? || st.ReconnectQueue? {
        ReconnectKeepsOwed(e, s, st, a);
      } else if IsWsStep(st) {
        WsKeepsOwed(e, s, st, a);
      } else if st.Pop? || st.StartNext? {
        TakingKeepsOwed(e, s, st, a);
      } else {
        if ReplayPos(s, a) >= 0 {
          ReplayedIsOwed(e, s, a);
        }
        match st {
          case FetchFails(w) => FetchFailsKeepsOwed(e, s, w, a);
          case LoadDepth(w, d) => LoadDepthKeepsOwed(e, s, w, d, a);
          case ReplayOne(w) => ReplayOneKeepsOwed(e, s, w, a);
          case ReplayEnds(w) => ReplayEndsKeepsOwed(e, s, w, a);
        }
      }
    }
  }
}
