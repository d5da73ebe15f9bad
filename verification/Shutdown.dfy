/** The life of the console server, from `Serve` to its end: `Serve`, `Shutdown`,
    `handleShutdown` and `handleInterrupt` of `api/custom-server.go`, as a system of atomic
    steps. Any number of callers may shut down, any number of interrupts may arrive. */
module Shutdown {
  import opened Counting

  /** How many HTTP servers there are; for each listener, in the order in which they are
      started, the server that it belongs to; and how many listeners are running when the
      certificates are loaded, if they are. */
  datatype Config = Config(servers: nat, owner: seq<nat>, tlsFrom: nat, usesTLS: bool)

  ghost predicate ValidConfig(c: Config) {
    forall j :: 0 <= j < |c.owner| ==> c.owner[j] < c.servers
  }

  /** Where the goroutine stands that shuts one server down: it ends with a send. */
  datatype Sender = NotSpawned | Spawned | Closing | Sending(ok: bool) | Finished(ok: bool)

  /** Where `handleShutdown` stands. `success` is its variable of that name. */
  datatype Handler =
    | NotStarted
    | AwaitClose
    | BeforeHook
    | Spawning(k: nat)
    | Receiving(k: nat, success: bool)
    | Leaving(success: bool)
    | Ended(success: bool)

  /** Where `Serve` stands: `k` listeners started, waiting on the wait group, returned
      without or with an error. */
  datatype Serve = Setup(k: nat) | Waiting | Returned | Failed

  /** Where the loop over the interrupts stands: about to call `Shutdown`, or between its
      compare-and-swap and its close. */
  datatype LoopPhase = Idle | Calling | ClosingChannel

  /** What can be observed from outside. */
  datatype Mark =
    | ChannelClosed
    | PreHook
    | Began(i: nat)
    | Succeeded(i: nat)
    | PostHook
    | HandlerDone
    | ListenerEnded(j: nat)
    | ServeReturned

  /** `closers` counts the callers of `Shutdown` that have won the compare-and-swap and not
      yet closed the channel, `closes` counts the closes; `listeners[j]` says whether
      listener `j` runs. */
  datatype State = State(
    shuttingDown: bool, closers: nat, closes: nat,
    interrupted: bool, loop: LoopPhase,
    serve: Serve, wg: int, listeners: seq<bool>,
    handler: Handler, senders: seq<Sender>,
    exited: bool, log: seq<Mark>)

  function Init(c: Config): State {
    State(false, 0, 0, false, Idle, Setup(0), 0, [], NotStarted, seq(c.servers, _ => NotSpawned), false, [])
  }

  datatype Event =
    | CallShutdown
    | Close
    | Signal
    | LoopSwap
    | LoopClose
    | StartListener
    | SetupFails
    | StartHandler
    | WaitReturns
    | Wake
    | RunPreHook
    | SpawnNext
    | StartReceiving
    | Receive(i: nat)
    | SkipReceive
    | LeaveLoop
    | HandlerReturns
    | BeginShutdown(i: nat)
    | EndShutdown(i: nat, ok: bool)
    | EndListener(j: nat)
    | ProcessExits

  predicate Enabled(c: Config, s: State, e: Event) {
    !s.exited &&
    match e
    case CallShutdown => true
    case Close => s.closers > 0
    case Signal => s.loop.Idle?
    case LoopSwap => s.loop.Calling?
    case LoopClose => s.loop.ClosingChannel?
    case StartListener => s.serve.Setup? && s.serve.k < |c.owner|
    case SetupFails => s.serve.Setup? && (s.serve.k == 0 || (c.usesTLS && s.serve.k == c.tlsFrom))
    case StartHandler => s.serve.Setup? && s.serve.k >= |c.owner|
    case WaitReturns => s.serve.Waiting? && s.wg == 0
    case Wake => s.handler.AwaitClose? && s.closes > 0
    case RunPreHook => s.handler.BeforeHook?
    case SpawnNext => s.handler.Spawning? && s.handler.k < |s.senders|
    case StartReceiving => s.handler.Spawning? && s.handler.k >= |s.senders|
    case Receive(i) =>
      s.handler.Receiving? && s.handler.success && s.handler.k < |s.senders| && i < |s.senders| && s.senders[i].Sending?
    case SkipReceive => s.handler.Receiving? && !s.handler.success && s.handler.k < |s.senders|
    case LeaveLoop => s.handler.Receiving? && s.handler.k >= |s.senders|
    case HandlerReturns => s.handler.Leaving?
    case BeginShutdown(i) => i < |s.senders| && s.senders[i].Spawned?
    case EndShutdown(i, _) => i < |s.senders| && s.senders[i].Closing?
    case EndListener(j) =>
      j < |s.listeners| && j < |c.owner| && s.listeners[j] && c.owner[j] < |s.senders| &&
      HasBegun(s.senders[c.owner[j]])
    case ProcessExits => true
  }

  /** The server's `Shutdown` has been called, so its listeners stop being served. */
  predicate HasBegun(x: Sender) {
    x.Closing? || x.Sending? || x.Finished?
  }

  predicate HasSucceeded(x: Sender) {
    (x.Sending? || x.Finished?) && x.ok
  }

  /** What an event adds to the log. */
  function Adds(s: State, e: Event): seq<Mark> {
    match e
    case Close => [ChannelClosed]
    case LoopClose => [ChannelClosed]
    case WaitReturns => [ServeReturned]
    case RunPreHook => [PreHook]
    case LeaveLoop => if s.handler.Receiving? && s.handler.success then [PostHook] else []
    case HandlerReturns => [HandlerDone]
    case BeginShutdown(i) => [Began(i)]
    case EndShutdown(i, ok) => if ok then [Succeeded(i)] else []
    case EndListener(j) => [ListenerEnded(j)]
    case _ => []
  }

  function DoControl(c: Config, s: State, e: Event): State
    requires Enabled(c, s, e)
  {
    match e
    case CallShutdown => if s.shuttingDown then s else s.(shuttingDown := true, closers := s.closers + 1)
    case Close => s.(closers := s.closers - 1, closes := s.closes + 1)
    case Signal => if s.interrupted then s else s.(interrupted := true, loop := Calling)
    case LoopSwap =>
      if s.shuttingDown then s.(loop := Idle) else s.(shuttingDown := true, loop := ClosingChannel)
    case LoopClose => s.(loop := Idle, closes := s.closes + 1)
    case StartListener => s.(wg := s.wg + 1, listeners := s.listeners + [true], serve := Setup(s.serve.k + 1))
    case SetupFails => s.(serve := Failed)
    case StartHandler => s.(wg := s.wg + 1, handler := AwaitClose, serve := Waiting)
    case WaitReturns => s.(serve := Returned)
    case Wake => s.(handler := BeforeHook)
    case RunPreHook => s.(handler := Spawning(0))
    case SpawnNext => s.(senders := s.senders[s.handler.k := Spawned], handler := Spawning(s.handler.k + 1))
    case StartReceiving => s.(handler := Receiving(0, true))
    case Receive(i) =>
      s.(senders := s.senders[i := Finished(s.senders[i].ok)], handler := Receiving(s.handler.k + 1, s.senders[i].ok))
    case SkipReceive => s.(handler := Receiving(s.handler.k + 1, false))
    case LeaveLoop => s.(handler := Leaving(s.handler.success))
    case HandlerReturns => s.(handler := Ended(s.handler.success), wg := s.wg - 1)
    case BeginShutdown(i) => s.(senders := s.senders[i := Closing])
    case EndShutdown(i, ok) => s.(senders := s.senders[i := Sending(ok)])
    case EndListener(j) => s.(listeners := s.listeners[j := false], wg := s.wg - 1)
    case ProcessExits => s.(exited := true)
  }

  function Do(c: Config, s: State, e: Event): State
    requires Enabled(c, s, e)
  {
    DoControl(c, s, e).(log := s.log + Adds(s, e))
  }

  ghost predicate IsRun(c: Config, states: seq<State>, events: seq<Event>) {
    && |states| == |events| + 1
    && states[0] == Init(c)
    && forall k :: 0 <= k < |events| ==>
         Enabled(c, states[k], events[k]) && states[k + 1] == Do(c, states[k], events[k])
  }

  // ---------- counting ----------

  function Running(b: bool): nat {
    if b then 1 else 0
  }

  function Unreceived(x: Sender): nat {
    if x.Finished? then 0 else 1
  }

  function SenderRank(x: Sender): nat {
    match x case NotSpawned => 3 case Spawned => 3 case Closing => 2 case Sending(_) => 1 case Finished(_) => 0
  }

  // ---------- the invariant ----------

  /** The channel is closed at most once, by whoever won the compare-and-swap. */
  ghost predicate CloseValid(s: State) {
    && s.closers + s.closes + (if s.loop.ClosingChannel? then 1 else 0) == (if s.shuttingDown then 1 else 0)
    && (!s.loop.Idle? ==> s.interrupted)
  }

  /** The wait group counts the live listener loops and the handler. */
  ghost predicate CountValid(c: Config, s: State) {
    && s.wg == Total(s.listeners, Running) +
               (if s.handler.NotStarted? || s.handler.Ended? then 0 else 1)
    && |s.listeners| <= |c.owner|
    && (s.serve.Setup? ==> s.serve.k == |s.listeners|)
    && (s.serve.Waiting? || s.serve.Returned? ==> |s.listeners| == |c.owner|)
    && (s.serve.Returned? ==> s.wg == 0)
    && (s.handler.NotStarted? <==> s.serve.Setup? || s.serve.Failed?)
  }

  /** The goroutines that shut the servers down, as far as the handler has got. */
  ghost predicate HandlerValid(c: Config, s: State) {
    && |s.senders| == c.servers
    && (!s.handler.NotStarted? && !s.handler.AwaitClose? ==> s.closes > 0)
    && match s.handler
       case NotStarted => AllSpawned(s.senders, 0)
       case AwaitClose => AllSpawned(s.senders, 0)
       case BeforeHook => AllSpawned(s.senders, 0)
       case Spawning(k) => AllSpawned(s.senders, k)
       case Receiving(k, success) =>
         && k <= |s.senders| && AllSpawned(s.senders, |s.senders|)
         && (if success then AllGood(s.senders) && Total(s.senders, Unreceived) == |s.senders| - k
             else OneBad(s.senders))
       case Leaving(success) => AllSpawned(s.senders, |s.senders|) && Decided(s.senders, success)
       case Ended(success) => AllSpawned(s.senders, |s.senders|) && Decided(s.senders, success)
  }

  /** Exactly the first `k` goroutines have been spawned, and while there are more to come
      no send has been received. */
  ghost predicate AllSpawned(senders: seq<Sender>, k: nat) {
    && k <= |senders|
    && (forall i :: 0 <= i < |senders| ==> (senders[i].NotSpawned? <==> i >= k))
  }

  /** Every success that was received is one. */
  ghost predicate AllGood(senders: seq<Sender>) {
    forall i :: 0 <= i < |senders| && senders[i].Finished? ==> senders[i].ok
  }

  ghost predicate OneBad(senders: seq<Sender>) {
    exists i :: 0 <= i < |senders| && senders[i].Finished? && !senders[i].ok
  }

  ghost predicate Decided(senders: seq<Sender>, success: bool) {
    if success then forall i :: 0 <= i < |senders| ==> senders[i] == Finished(true) else OneBad(senders)
  }

  ghost predicate NoneReceived(s: State) {
    (s.handler.NotStarted? || s.handler.AwaitClose? || s.handler.BeforeHook? || s.handler.Spawning?) ==>
      forall i :: 0 <= i < |s.senders| ==> !s.senders[i].Finished?
  }

  /** A listener ends only after the shutdown of its server has begun. */
  ghost predicate ListenersValid(c: Config, s: State) {
    forall j :: 0 <= j < |s.listeners| && j < |c.owner| && c.owner[j] < |s.senders| && !s.listeners[j] ==>
      HasBegun(s.senders[c.owner[j]])
  }

  /** The handler has got past its first hook. */
  ghost predicate PastPreHook(s: State) {
    s.handler.Spawning? || s.handler.Receiving? || s.handler.Leaving? || s.handler.Ended?
  }

  /** What the log says has happened. */
  ghost predicate Happened(s: State, m: Mark) {
    match m
    case ChannelClosed => s.closes > 0
    case PreHook => PastPreHook(s)
    case Began(i) => i < |s.senders| && HasBegun(s.senders[i])
    case Succeeded(i) => i < |s.senders| && HasSucceeded(s.senders[i])
    case PostHook => (s.handler.Leaving? || s.handler.Ended?) && s.handler.success
    case HandlerDone => s.handler.Ended?
    case ListenerEnded(j) => j < |s.listeners| && !s.listeners[j]
    case ServeReturned => s.serve.Returned?
  }

  ghost predicate LogTells(s: State) {
    forall m :: m in s.log <==> Happened(s, m)
  }

  /** What must have happened before a mark, and what must not. */
  ghost predicate MayFollow(c: Config, past: seq<Mark>, m: Mark) {
    && m !in past
    && match m
       case ChannelClosed => true
       case PreHook => ChannelClosed in past
       case Began(i) => i < c.servers && PreHook in past
       case Succeeded(i) => Began(i) in past
       case PostHook => (forall i: nat :: i < c.servers ==> Succeeded(i) in past) && HandlerDone !in past
       case HandlerDone => PreHook in past
       case ListenerEnded(j) => j < |c.owner| && Began(c.owner[j]) in past
       case ServeReturned => HandlerDone in past && forall j: nat :: j < |c.owner| ==> ListenerEnded(j) in past
  }

  /** Every mark stands in a place where it may stand; so none stands there twice. */
  ghost predicate Ordered(c: Config, log: seq<Mark>) {
    forall p :: 0 <= p < |log| ==> MayFollow(c, log[..p], log[p])
  }

  ghost predicate Valid(c: Config, s: State) {
    && CloseValid(s) && CountValid(c, s) && HandlerValid(c, s) && NoneReceived(s)
    && ListenersValid(c, s) && LogTells(s) && Ordered(c, s.log)
  }

  // ---------- every step keeps the invariant ----------

  lemma InitValid(c: Config)
    ensures Valid(c, Init(c))
  {
  }

  lemma CloseKeeps(c: Config, s: State, e: Event)
    requires CloseValid(s) && Enabled(c, s, e)
    ensures CloseValid(Do(c, s, e))
  {
  }

  lemma CountKeeps(c: Config, s: State, e: Event)
    requires CountValid(c, s) && Enabled(c, s, e)
    ensures CountValid(c, Do(c, s, e))
  {
    match e
    case StartListener => TotalOfAppend(s.listeners, Running, true);
    case EndListener(j) => TotalOfUpdate(s.listeners, Running, j, false);
    case _ =>
  }

  lemma SpawnKeeps(c: Config, s: State, e: Event)
    requires HandlerValid(c, s) && CloseValid(s) && CountValid(c, s) && NoneReceived(s) && Enabled(c, s, e)
    requires !e.Receive? && !e.LeaveLoop? && !e.BeginShutdown? && !e.EndShutdown? && !e.StartReceiving?
    ensures HandlerValid(c, Do(c, s, e)) && NoneReceived(Do(c, s, e))
  {
  }

  lemma StartReceivingKeeps(c: Config, s: State)
    requires HandlerValid(c, s) && NoneReceived(s) && Enabled(c, s, StartReceiving)
    ensures HandlerValid(c, Do(c, s, StartReceiving)) && NoneReceived(Do(c, s, StartReceiving))
  {
    AllUnreceived(s.senders);
  }

  lemma {:induction false} AllUnreceived(senders: seq<Sender>)
    requires forall i :: 0 <= i < |senders| ==> !senders[i].Finished?
    ensures Total(senders, Unreceived) == |senders|
  {
    if senders != [] {
      AllUnreceived(senders[..|senders| - 1]);
    }
  }

  /** A goroutine that does not finish changes nothing for the handler. */
  lemma SenderKeeps(c: Config, s: State, e: Event, i: nat, x: Sender)
    requires HandlerValid(c, s) && NoneReceived(s) && i < |s.senders| && Enabled(c, s, e)
    requires (e == BeginShutdown(i) && x == Closing) || (e.EndShutdown? && e.i == i && x == Sending(e.ok))
    ensures HandlerValid(c, Do(c, s, e)) && NoneReceived(Do(c, s, e))
  {
    var t := Do(c, s, e);
    assert PastPreHook(s) && t.handler == s.handler && t.senders == s.senders[i := x];
    TotalOfUpdate(s.senders, Unreceived, i, x);
    assert forall j :: 0 <= j < |s.senders| ==> (t.senders[j].NotSpawned? <==> s.senders[j].NotSpawned?);
    if OneBad(s.senders) {
      var j :| 0 <= j < |s.senders| && s.senders[j].Finished? && !s.senders[j].ok;
      assert t.senders[j] == s.senders[j];
    }
  }

  lemma ReceiveKeeps(c: Config, s: State, i: nat)
    requires HandlerValid(c, s) && Enabled(c, s, Receive(i))
    ensures HandlerValid(c, Do(c, s, Receive(i)))
  {
    var ok := s.senders[i].ok;
    TotalOfUpdate(s.senders, Unreceived, i, Finished(ok));
    assert s.senders[i := Finished(ok)][i] == Finished(ok);
  }

  lemma LeaveLoopKeeps(c: Config, s: State)
    requires HandlerValid(c, s) && Enabled(c, s, LeaveLoop)
    ensures HandlerValid(c, Do(c, s, LeaveLoop))
  {
    SomeWeight(s.senders, Unreceived);
  }

  lemma HandlerKeeps(c: Config, s: State, e: Event)
    requires HandlerValid(c, s) && CloseValid(s) && CountValid(c, s) && NoneReceived(s) && Enabled(c, s, e)
    ensures HandlerValid(c, Do(c, s, e)) && NoneReceived(Do(c, s, e))
  {
    match e
    case Receive(i) => ReceiveKeeps(c, s, i);
    case LeaveLoop => LeaveLoopKeeps(c, s);
    case StartReceiving => StartReceivingKeeps(c, s);
    case BeginShutdown(i) => SenderKeeps(c, s, e, i, Closing);
    case EndShutdown(i, ok) => SenderKeeps(c, s, e, i, Sending(ok));
    case _ => SpawnKeeps(c, s, e);
  }

  lemma ListenersKeep(c: Config, s: State, e: Event)
    requires ListenersValid(c, s) && HandlerValid(c, s) && Enabled(c, s, e)
    ensures ListenersValid(c, Do(c, s, e))
  {
  }

  lemma LogKeeps(c: Config, s: State, e: Event)
    requires CloseValid(s) && CountValid(c, s) && HandlerValid(c, s) && LogTells(s) && Enabled(c, s, e)
    ensures LogTells(Do(c, s, e))
  {
    var t := Do(c, s, e);
    forall m ensures m in t.log <==> Happened(t, m) {
      assert m in t.log <==> m in s.log || m in Adds(s, e);
      HappenedStep(c, s, e, m);
    }
  }

  lemma HappenedStep(c: Config, s: State, e: Event, m: Mark)
    requires CloseValid(s) && CountValid(c, s) && HandlerValid(c, s) && Enabled(c, s, e)
    ensures Happened(Do(c, s, e), m) <==> Happened(s, m) || m in Adds(s, e)
  {
    match m
    case Began(i) => BeganStep(c, s, e, i);
    case Succeeded(i) => SucceededStep(c, s, e, i);
    case ListenerEnded(j) => ListenerEndedStep(c, s, e, j);
    case ChannelClosed => EndsStep(c, s, e);
    case ServeReturned => EndsStep(c, s, e);
    case PreHook => PreHookStep(c, s, e);
    case PostHook => PostHookStep(c, s, e);
    case HandlerDone => HandlerDoneStep(c, s, e);
  }

  lemma BeganStep(c: Config, s: State, e: Event, i: nat)
    requires HandlerValid(c, s) && Enabled(c, s, e)
    ensures Happened(Do(c, s, e), Began(i)) <==> Happened(s, Began(i)) || e == BeginShutdown(i)
  {
  }

  lemma SucceededStep(c: Config, s: State, e: Event, i: nat)
    requires HandlerValid(c, s) && Enabled(c, s, e)
    ensures Happened(Do(c, s, e), Succeeded(i)) <==> Happened(s, Succeeded(i)) || e == EndShutdown(i, true)
  {
  }

  lemma ListenerEndedStep(c: Config, s: State, e: Event, j: nat)
    requires Enabled(c, s, e)
    ensures Happened(Do(c, s, e), ListenerEnded(j)) <==> Happened(s, ListenerEnded(j)) || e == EndListener(j)
  {
  }

  lemma EndsStep(c: Config, s: State, e: Event)
    requires CountValid(c, s) && Enabled(c, s, e)
    ensures Happened(Do(c, s, e), ChannelClosed) <==> Happened(s, ChannelClosed) || e.Close? || e.LoopClose?
    ensures Happened(Do(c, s, e), ServeReturned) <==> Happened(s, ServeReturned) || e.WaitReturns?
  {
  }

  lemma PreHookStep(c: Config, s: State, e: Event)
    requires CountValid(c, s) && Enabled(c, s, e)
    ensures Happened(Do(c, s, e), PreHook) <==> Happened(s, PreHook) || e.RunPreHook?
  {
  }

  lemma PostHookStep(c: Config, s: State, e: Event)
    requires CountValid(c, s) && Enabled(c, s, e)
    ensures Happened(Do(c, s, e), PostHook) <==> Happened(s, PostHook) || (e.LeaveLoop? && s.handler.success)
  {
  }

  lemma HandlerDoneStep(c: Config, s: State, e: Event)
    requires CountValid(c, s) && Enabled(c, s, e)
    ensures Happened(Do(c, s, e), HandlerDone) <==> Happened(s, HandlerDone) || e.HandlerReturns?
  {
  }

  lemma PostHookMayFollow(c: Config, s: State)
    requires Valid(c, s) && Enabled(c, s, LeaveLoop) && s.handler.success
    ensures MayFollow(c, s.log, PostHook)
  {
    LeaveLoopKeeps(c, s);
    assert !Happened(s, PostHook) && !Happened(s, HandlerDone);
    forall i: nat | i < c.servers ensures Succeeded(i) in s.log {
      assert s.senders[i] == Finished(true);
      assert Happened(s, Succeeded(i));
    }
  }

  lemma ReturnMayFollow(c: Config, s: State)
    requires Valid(c, s) && Enabled(c, s, WaitReturns)
    ensures MayFollow(c, s.log, ServeReturned)
  {
    SomeWeight(s.listeners, Running);
    assert Happened(s, HandlerDone) && !Happened(s, ServeReturned);
    forall j: nat | j < |c.owner| ensures ListenerEnded(j) in s.log {
      assert Happened(s, ListenerEnded(j));
    }
  }

  lemma ShutdownMayFollow(c: Config, s: State, i: nat)
    requires Valid(c, s)
    ensures Enabled(c, s, BeginShutdown(i)) ==> MayFollow(c, s.log, Began(i))
    ensures Enabled(c, s, EndShutdown(i, true)) ==> MayFollow(c, s.log, Succeeded(i))
  {
    assert PreHook in s.log <==> Happened(s, PreHook);
    assert Began(i) in s.log <==> Happened(s, Began(i));
    assert Succeeded(i) in s.log <==> Happened(s, Succeeded(i));
  }

  lemma ListenerMayFollow(c: Config, s: State, j: nat)
    requires Valid(c, s) && Enabled(c, s, EndListener(j))
    ensures MayFollow(c, s.log, ListenerEnded(j))
  {
    assert Happened(s, Began(c.owner[j])) && !Happened(s, ListenerEnded(j));
  }

  lemma HandlerMayFollow(c: Config, s: State)
    requires Valid(c, s)
    ensures Enabled(c, s, Close) || Enabled(c, s, LoopClose) ==> MayFollow(c, s.log, ChannelClosed)
    ensures Enabled(c, s, RunPreHook) ==> MayFollow(c, s.log, PreHook)
    ensures Enabled(c, s, HandlerReturns) ==> MayFollow(c, s.log, HandlerDone)
  {
    assert ChannelClosed in s.log <==> Happened(s, ChannelClosed);
    assert PreHook in s.log <==> Happened(s, PreHook);
    assert HandlerDone in s.log <==> Happened(s, HandlerDone);
  }

  lemma MarkMayFollow(c: Config, s: State, e: Event)
    requires ValidConfig(c) && Valid(c, s) && Enabled(c, s, e)
    ensures forall m :: m in Adds(s, e) ==> MayFollow(c, s.log, m)
  {
    match e
    case LeaveLoop =>
      if s.handler.success {
        PostHookMayFollow(c, s);
      }
    case WaitReturns => ReturnMayFollow(c, s);
    case BeginShutdown(i) => ShutdownMayFollow(c, s, i);
    case EndShutdown(i, _) => ShutdownMayFollow(c, s, i);
    case EndListener(j) => ListenerMayFollow(c, s, j);
    case _ => HandlerMayFollow(c, s);
  }

  lemma OrderedAppend(c: Config, log: seq<Mark>, m: Mark)
    requires Ordered(c, log) && MayFollow(c, log, m)
    ensures Ordered(c, log + [m])
  {
    forall p | 0 <= p < |log| + 1 ensures MayFollow(c, (log + [m])[..p], (log + [m])[p]) {
      assert (log + [m])[..p] == log[..p];
      assert log[..|log|] == log;
    }
  }

  lemma StepValid(c: Config, s: State, e: Event)
    requires ValidConfig(c) && Valid(c, s) && Enabled(c, s, e)
    ensures Valid(c, Do(c, s, e))
  {
    CloseKeeps(c, s, e);
    CountKeeps(c, s, e);
    HandlerKeeps(c, s, e);
    ListenersKeep(c, s, e);
    LogKeeps(c, s, e);
    MarkMayFollow(c, s, e);
    if Adds(s, e) == [] {
      assert s.log + Adds(s, e) == s.log;
    } else {
      assert Adds(s, e) == [Adds(s, e)[0]];
      OrderedAppend(c, s.log, Adds(s, e)[0]);
    }
  }

  // ---------- progress ----------

  function LoopRank(s: State): nat {
    if !s.interrupted then 3 else match s.loop case Idle => 0 case Calling => 2 case ClosingChannel => 1
  }

  function ServeRank(c: Config, s: State): nat {
    match s.serve
    case Setup(k) => if k <= |c.owner| then 2 * (|c.owner| - k) + 3 else 0
    case Waiting => 1
    case Returned => 0
    case Failed => 0
  }

  function HandlerRank(s: State): nat {
    var n := |s.senders|;
    match s.handler
    case NotStarted => 2 * n + 8
    case AwaitClose => 2 * n + 7
    case BeforeHook => 2 * n + 6
    case Spawning(k) => if k <= n then (n - k) + n + 5 else 0
    case Receiving(k, _) => if k <= n then n - k + 3 else 0
    case Leaving(_) => 2
    case Ended(_) => 0
  }

  /** Steps still to come, at most; those of the goroutines that shut servers down apart. */
  function RestRank(c: Config, s: State): nat {
    (if s.shuttingDown then 0 else 2) + s.closers + LoopRank(s) + ServeRank(c, s) + HandlerRank(s)
    + Total(s.listeners, Running) + (if s.exited then 0 else 1)
  }

  function StateRank(c: Config, s: State): nat {
    RestRank(c, s) + Total(s.senders, SenderRank)
  }

  /** A step that changes anything brings the end nearer; only repeated calls and repeated
      interrupts change nothing. */
  lemma StepRank(c: Config, s: State, e: Event)
    requires CloseValid(s) && CountValid(c, s) && HandlerValid(c, s) && Enabled(c, s, e)
    ensures (Do(c, s, e) == s && (e.CallShutdown? || e.Signal?)) || StateRank(c, Do(c, s, e)) < StateRank(c, s)
  {
    match e
    case CallShutdown => SwapStepRank(c, s, e);
    case Signal => SwapStepRank(c, s, e);
    case LoopSwap => SwapStepRank(c, s, e);
    case Close => CloseStepRank(c, s, e);
    case LoopClose => CloseStepRank(c, s, e);
    case ProcessExits => CloseStepRank(c, s, e);
    case StartListener => ListenerStepRank(c, s, e);
    case EndListener(_) => ListenerStepRank(c, s, e);
    case SpawnNext => LoopStepRank(c, s, e);
    case Receive(_) => LoopStepRank(c, s, e);
    case BeginShutdown(i) => BeginStepRank(c, s, i);
    case EndShutdown(i, ok) => EndStepRank(c, s, i, ok);
    case _ => HandlerStepRank(c, s, e);
  }

  lemma SwapStepRank(c: Config, s: State, e: Event)
    requires CloseValid(s) && Enabled(c, s, e) && (e.CallShutdown? || e.Signal? || e.LoopSwap?)
    ensures (Do(c, s, e) == s && (e.CallShutdown? || e.Signal?)) || StateRank(c, Do(c, s, e)) < StateRank(c, s)
  {
    assert s.log + [] == s.log;
  }

  lemma CloseStepRank(c: Config, s: State, e: Event)
    requires CloseValid(s) && Enabled(c, s, e) && (e.Close? || e.LoopClose? || e.ProcessExits?)
    ensures StateRank(c, Do(c, s, e)) < StateRank(c, s)
  {
  }

  lemma ListenerStepRank(c: Config, s: State, e: Event)
    requires CountValid(c, s) && Enabled(c, s, e) && (e.StartListener? || e.EndListener?)
    ensures StateRank(c, Do(c, s, e)) < StateRank(c, s)
  {
    match e
    case StartListener => TotalOfAppend(s.listeners, Running, true);
    case EndListener(j) => TotalOfUpdate(s.listeners, Running, j, false);
  }

  lemma LoopStepRank(c: Config, s: State, e: Event)
    requires HandlerValid(c, s) && Enabled(c, s, e) && (e.SpawnNext? || e.Receive?)
    ensures StateRank(c, Do(c, s, e)) < StateRank(c, s)
  {
    match e
    case SpawnNext => TotalOfUpdate(s.senders, SenderRank, s.handler.k, Spawned);
    case Receive(i) => TotalOfUpdate(s.senders, SenderRank, i, Finished(s.senders[i].ok));
  }

  lemma SameRest(c: Config, s: State, senders: seq<Sender>, log: seq<Mark>)
    requires |senders| == |s.senders|
    ensures RestRank(c, s.(senders := senders, log := log)) == RestRank(c, s)
  {
  }

  lemma BeginStepRank(c: Config, s: State, i: nat)
    requires Enabled(c, s, BeginShutdown(i))
    ensures StateRank(c, Do(c, s, BeginShutdown(i))) < StateRank(c, s)
  {
    var t := Do(c, s, BeginShutdown(i));
    SameRest(c, s, t.senders, t.log);
    TotalOfUpdate(s.senders, SenderRank, i, Closing);
  }

  lemma EndStepRank(c: Config, s: State, i: nat, ok: bool)
    requires Enabled(c, s, EndShutdown(i, ok))
    ensures StateRank(c, Do(c, s, EndShutdown(i, ok))) < StateRank(c, s)
  {
    var t := Do(c, s, EndShutdown(i, ok));
    SameRest(c, s, t.senders, t.log);
    TotalOfUpdate(s.senders, SenderRank, i, Sending(ok));
  }

  lemma HandlerStepRank(c: Config, s: State, e: Event)
    requires CountValid(c, s) && HandlerValid(c, s) && Enabled(c, s, e)
    requires e.SetupFails? || e.StartHandler? || e.WaitReturns? || e.Wake? || e.RunPreHook? || e.StartReceiving? ||
      e.SkipReceive? || e.LeaveLoop? || e.HandlerReturns?
    ensures StateRank(c, Do(c, s, e)) < StateRank(c, s)
  {
  }

  /** The steps of the program itself, which need no outside help. */
  predicate IsOwn(e: Event) {
    !e.CallShutdown? && !e.Signal? && !e.ProcessExits? && !e.SetupFails?
  }

  /** The receive loop never waits for a send that cannot come: while it waits, some
      goroutine either sends now, or can get on with its shutdown. */
  lemma ReceiveNotStuck(c: Config, s: State) returns (e: Event)
    requires Valid(c, s) && !s.exited
    requires s.handler.Receiving? && s.handler.success && s.handler.k < |s.senders|
    ensures Enabled(c, s, e) && (e.Receive? || e.BeginShutdown? || e.EndShutdown?)
  {
    SomeWeight(s.senders, Unreceived);
    var i: nat :| i < |s.senders| && Unreceived(s.senders[i]) != 0;
    e := if s.senders[i].Spawned? then BeginShutdown(i) else if s.senders[i].Closing? then EndShutdown(i, true) else Receive(i);
  }

  lemma ListenersNotStuck(c: Config, s: State) returns (e: Event)
    requires ValidConfig(c) && Valid(c, s) && !s.exited && s.serve.Waiting? && s.handler.Ended? && s.wg != 0
    ensures Enabled(c, s, e) && (e.BeginShutdown? || e.EndListener?)
  {
    SomeWeight(s.listeners, Running);
    var j :| 0 <= j < |s.listeners| && Running(s.listeners[j]) != 0;
    var i := c.owner[j];
    assert !s.senders[i].NotSpawned?;
    e := if s.senders[i].Spawned? then BeginShutdown(i) else EndListener(j);
  }

  /** Once someone has shut the server down, `Serve` cannot hang: until it returns, the
      program always has a step of its own to take. */
  lemma NotStuck(c: Config, s: State) returns (e: Event)
    requires ValidConfig(c) && Valid(c, s) && !s.exited && s.shuttingDown && (s.serve.Setup? || s.serve.Waiting?)
    ensures Enabled(c, s, e) && IsOwn(e)
  {
    if s.serve.Setup? {
      e := if s.serve.k < |c.owner| then StartListener else StartHandler;
    } else if s.closers > 0 {
      e := Close;
    } else if s.loop.ClosingChannel? {
      e := LoopClose;
    } else {
      match s.handler
      case AwaitClose => e := Wake;
      case BeforeHook => e := RunPreHook;
      case Spawning(k) => e := if k < |s.senders| then SpawnNext else StartReceiving;
      case Receiving(k, success) =>
        if k >= |s.senders| {
          e := LeaveLoop;
        } else if success {
          e := ReceiveNotStuck(c, s);
        } else {
          e := SkipReceive;
        }
      case Leaving(_) => e := HandlerReturns;
      case Ended(_) =>
        if s.wg == 0 {
          e := WaitReturns;
        } else {
          e := ListenersNotStuck(c, s);
        }
    }
  }

  // ---------- whole runs ----------

  lemma {:induction false} RunValid(c: Config, states: seq<State>, events: seq<Event>, k: nat)
    requires ValidConfig(c) && IsRun(c, states, events) && k < |states|
    ensures Valid(c, states[k])
  {
    if k == 0 {
      InitValid(c);
    } else {
      RunValid(c, states, events, k - 1);
      StepValid(c, states[k - 1], events[k - 1]);
    }
  }

  /** Steps of a run that are not repeated calls or repeated interrupts. */
  ghost function Effective(c: Config, states: seq<State>, k: nat): nat
    requires k < |states|
  {
    if k == 0 then 0 else Effective(c, states, k - 1) + if states[k] == states[k - 1] then 0 else 1
  }

  lemma InitRank(c: Config)
    ensures StateRank(c, Init(c)) == 5 * c.servers + 2 * |c.owner| + 17
  {
    TotalOfCopies(c.servers, NotSpawned, SenderRank);
  }

  /** Every run ends: but for repetitions it has a bounded number of steps, however many
      callers and interrupts there are. */
  lemma {:induction false} RunBounded(c: Config, states: seq<State>, events: seq<Event>, k: nat)
    requires ValidConfig(c) && IsRun(c, states, events) && k < |states|
    ensures StateRank(c, states[k]) + Effective(c, states, k) <= 5 * c.servers + 2 * |c.owner| + 17
  {
    if k == 0 {
      InitRank(c);
    } else {
      RunBounded(c, states, events, k - 1);
      RunValid(c, states, events, k - 1);
      StepRank(c, states[k - 1], events[k - 1]);
    }
  }

  ghost predicate AtMostOnce(log: seq<Mark>, m: Mark) {
    forall p, q :: 0 <= p < q < |log| ==> !(log[p] == m && log[q] == m)
  }

  lemma OrderedOnce(c: Config, log: seq<Mark>, m: Mark)
    requires Ordered(c, log)
    ensures AtMostOnce(log, m)
  {
    forall p, q | 0 <= p < q < |log| ensures log[p] != log[q] {
      assert MayFollow(c, log[..q], log[q]);
      assert log[..q][p] == log[p];
    }
  }

  /** A mark before position `q` of the log. */
  ghost predicate Earlier(log: seq<Mark>, m: Mark, q: nat) {
    exists p :: 0 <= p < q && p < |log| && log[p] == m
  }

  lemma InPrefix(log: seq<Mark>, m: Mark, q: nat)
    requires q <= |log|
    ensures m in log[..q] <==> Earlier(log, m, q)
  {
    assert forall p :: 0 <= p < q ==> log[..q][p] == log[p];
  }

  /** The promises of the shutdown protocol, over all runs: the channel is closed at most
      once; the pre-shutdown hook comes before the `Shutdown` of every server; the
      `ServerShutdown` hook runs at most once, and only after every server's shutdown has
      succeeded; the handler's `wg.Done` comes after it. */
  lemma HooksInOrder(c: Config, states: seq<State>, events: seq<Event>, q: nat)
    requires ValidConfig(c) && IsRun(c, states, events)
    requires q < |states[|events|].log|
    ensures var log := states[|events|].log;
      && AtMostOnce(log, ChannelClosed) && AtMostOnce(log, PreHook) && AtMostOnce(log, PostHook)
      && (log[q] == PreHook ==> Earlier(log, ChannelClosed, q))
      && (log[q].Began? ==> Earlier(log, PreHook, q))
      && (log[q] == PostHook ==> forall i: nat :: i < c.servers ==> Earlier(log, Succeeded(i), q))
      && (log[q] == HandlerDone ==> forall p :: q < p < |log| ==> log[p] != PostHook)
  {
    var log := states[|events|].log;
    RunValid(c, states, events, |events|);
    OrderedOnce(c, log, ChannelClosed);
    OrderedOnce(c, log, PreHook);
    OrderedOnce(c, log, PostHook);
    assert MayFollow(c, log[..q], log[q]);
    InPrefix(log, ChannelClosed, q);
    InPrefix(log, PreHook, q);
    forall i: nat | i < c.servers ensures Succeeded(i) in log[..q] <==> Earlier(log, Succeeded(i), q) {
      InPrefix(log, Succeeded(i), q);
    }
    forall p | q < p < |log| ensures log[p] == PostHook ==> log[q] != HandlerDone {
      assert MayFollow(c, log[..p], log[p]);
      assert log[..p][q] == log[q];
    }
  }

  /** When the handler has ended, the `ServerShutdown` hook has run exactly if every
      server's shutdown was received as a success; otherwise one of them failed. */
  lemma PostHookIff(c: Config, states: seq<State>, events: seq<Event>)
    requires ValidConfig(c) && IsRun(c, states, events) && states[|events|].handler.Ended?
    ensures var s := states[|events|];
      |s.senders| == c.servers &&
      (PostHook in s.log <==> forall i :: 0 <= i < c.servers ==> s.senders[i] == Finished(true)) &&
      (PostHook !in s.log <==> exists i :: 0 <= i < c.servers && s.senders[i] == Finished(false))
  {
    var s := states[|events|];
    RunValid(c, states, events, |events|);
    assert PostHook in s.log <==> Happened(s, PostHook);
  }

  /** The wait group never goes negative; and when `Serve` has returned without an error,
      `Shutdown` was called, the channel closed, every listener loop and the handler have
      finished. */
  lemma ServeReturns(c: Config, states: seq<State>, events: seq<Event>, k: nat)
    requires ValidConfig(c) && IsRun(c, states, events) && k < |states|
    ensures var s := states[k];
      && s.wg == Total(s.listeners, Running) + (if s.handler.NotStarted? || s.handler.Ended? then 0 else 1) >= 0
      && s.closes <= 1
      && (s.serve.Returned? ==>
            && s.shuttingDown && s.closes == 1 && s.handler.Ended? && |s.listeners| == |c.owner|
            && forall j :: 0 <= j < |s.listeners| ==> !s.listeners[j])
  {
    RunValid(c, states, events, k);
    SomeWeight(states[k].listeners, Running);
  }

  /** The program has no step of its own. */
  ghost predicate IsQuiet(c: Config, s: State) {
    forall e :: IsOwn(e) ==> !Enabled(c, s, e)
  }

  /** A run after a call of `Shutdown` that the program cannot continue by itself is one in
      which `Serve` has returned. As runs are bounded, every run gets there that is left
      to run, unless the set-up fails or the process exits. */
  lemma QuietMeansReturned(c: Config, states: seq<State>, events: seq<Event>)
    requires ValidConfig(c) && IsRun(c, states, events)
    requires var s := states[|events|]; s.shuttingDown && !s.exited && !s.serve.Failed?
    requires IsQuiet(c, states[|events|])
    ensures states[|events|].serve.Returned?
  {
    var s := states[|events|];
    RunValid(c, states, events, |events|);
    if !s.serve.Returned? {
      var e := NotStuck(c, s);
      assert false;
    }
  }

  /** A `Serve` that fails while it sets up leaves the listeners that it has started
      running: no server is ever shut down, whoever calls `Shutdown`. */
  lemma FailedServeLeavesListeners(c: Config, states: seq<State>, events: seq<Event>)
    requires ValidConfig(c) && IsRun(c, states, events) && states[|events|].serve.Failed?
    ensures var s := states[|events|];
      s.wg == |s.listeners| && PreHook !in s.log && forall j :: 0 <= j < |s.listeners| ==> s.listeners[j]
  {
    var s := states[|events|];
    RunValid(c, states, events, |events|);
    assert !Happened(s, PreHook);
    assert forall j :: 0 <= j < |s.listeners| ==> c.owner[j] < |s.senders| && !HasBegun(s.senders[c.owner[j]]);
    AllRunning(s.listeners);
  }

  lemma {:induction false} AllRunning(listeners: seq<bool>)
    requires forall j :: 0 <= j < |listeners| ==> listeners[j]
    ensures Total(listeners, Running) == |listeners|
  {
    if listeners != [] {
      AllRunning(listeners[..|listeners| - 1]);
    }
  }

  /** A failed shutdown has been received. */
  ghost predicate IsFailing(s: State) {
    (s.handler.Receiving? || s.handler.Leaving? || s.handler.Ended?) && !s.handler.success
  }

  lemma StillFailing(c: Config, s: State, e: Event)
    requires HandlerValid(c, s) && CountValid(c, s) && Enabled(c, s, e) && IsFailing(s)
    ensures IsFailing(Do(c, s, e)) && |Do(c, s, e).senders| == |s.senders|
    ensures forall i :: 0 <= i < |s.senders| ==> (Do(c, s, e).senders[i].Finished? <==> s.senders[i].Finished?)
  {
  }

  /** After the first failure nothing is received any more: the goroutines whose send was
      not yet received stay blocked for ever. */
  lemma {:induction false} FailureStopsReceiving(c: Config, states: seq<State>, events: seq<Event>, k: nat, l: nat)
    requires ValidConfig(c) && IsRun(c, states, events) && k <= l < |states| && IsFailing(states[k])
    ensures IsFailing(states[l]) && |states[l].senders| == |states[k].senders|
    ensures forall i :: 0 <= i < |states[k].senders| ==>
      (states[l].senders[i].Finished? <==> states[k].senders[i].Finished?)
  {
    if k < l {
      FailureStopsReceiving(c, states, events, k, l - 1);
      RunValid(c, states, events, l - 1);
      StillFailing(c, states[l - 1], events[l - 1]);
    }
  }

  // ---------- which sends are received ----------

  /** `outcomes[i]` is whether server `i` shuts down without an error. */
  ghost predicate Answers(outcomes: seq<bool>, e: Event) {
    e.EndShutdown? && e.i < |outcomes| ==> e.ok == outcomes[e.i]
  }

  ghost predicate Reaches(c: Config, outcomes: seq<bool>, states: seq<State>, events: seq<Event>, s: State) {
    && IsRun(c, states, events) && states[|events|] == s
    && forall k :: 0 <= k < |events| ==> Answers(outcomes, events[k])
  }

  ghost predicate Reachable(c: Config, outcomes: seq<bool>, s: State) {
    exists states, events :: Reaches(c, outcomes, states, events, s)
  }

  /** `Serve` has returned, and every goroutine has returned or is blocked for ever. */
  ghost predicate IsComplete(c: Config, s: State) {
    s.serve.Returned? && !s.exited && IsQuiet(c, s)
  }

  ghost predicate AllReceived(s: State) {
    forall i :: 0 <= i < |s.senders| ==> s.senders[i].Finished?
  }

  lemma ReachInit(c: Config, outcomes: seq<bool>)
    ensures Reachable(c, outcomes, Init(c))
  {
    assert Reaches(c, outcomes, [Init(c)], [], Init(c));
  }

  lemma ReachStep(c: Config, outcomes: seq<bool>, s: State, e: Event)
    requires Reachable(c, outcomes, s) && Enabled(c, s, e) && Answers(outcomes, e)
    ensures Reachable(c, outcomes, Do(c, s, e))
  {
    var states, events :| Reaches(c, outcomes, states, events, s);
    assert Reaches(c, outcomes, states + [Do(c, s, e)], events + [e], Do(c, s, e));
  }

  lemma ReachValid(c: Config, outcomes: seq<bool>, s: State)
    requires ValidConfig(c) && Reachable(c, outcomes, s)
    ensures Valid(c, s)
  {
    var states, events :| Reaches(c, outcomes, states, events, s);
    RunValid(c, states, events, |events|);
  }

  ghost predicate AsAnswered(outcomes: seq<bool>, s: State) {
    forall i :: 0 <= i < |s.senders| && i < |outcomes| && (s.senders[i].Sending? || s.senders[i].Finished?) ==>
      s.senders[i].ok == outcomes[i]
  }

  lemma AnsweredStep(c: Config, outcomes: seq<bool>, s: State, e: Event)
    requires AsAnswered(outcomes, s) && Enabled(c, s, e) && Answers(outcomes, e)
    ensures AsAnswered(outcomes, Do(c, s, e))
  {
  }

  lemma {:induction false} RunAnswered(c: Config, outcomes: seq<bool>, states: seq<State>, events: seq<Event>, s: State, k: nat)
    requires Reaches(c, outcomes, states, events, s) && k < |states|
    ensures AsAnswered(outcomes, states[k])
  {
    if k > 0 {
      RunAnswered(c, outcomes, states, events, s, k - 1);
      AnsweredStep(c, outcomes, states[k - 1], events[k - 1]);
    }
  }

  /** With no failure, or at most one server, every send is received. */
  lemma AllAreReceived(c: Config, outcomes: seq<bool>, s: State)
    requires ValidConfig(c) && |outcomes| == c.servers && Reachable(c, outcomes, s) && s.handler.Ended?
    requires c.servers <= 1 || forall i :: 0 <= i < |outcomes| ==> outcomes[i]
    ensures AllReceived(s)
  {
    ReachValid(c, outcomes, s);
    var states, events :| Reaches(c, outcomes, states, events, s);
    RunAnswered(c, outcomes, states, events, s, |events|);
    if !s.handler.success {
      var i :| 0 <= i < |s.senders| && s.senders[i].Finished? && !s.senders[i].ok;
      assert !outcomes[i];
    }
  }

  /** `Shutdown` was called, and `k` listeners were started since. */
  function StartedListeners(c: Config, k: nat): State {
    State(true, 0, 1, false, Idle, Setup(k), k, seq(k, _ => true), NotStarted, seq(c.servers, _ => NotSpawned), false,
          [ChannelClosed])
  }

  lemma {:induction false} ReachListeners(c: Config, outcomes: seq<bool>, k: nat)
    requires k <= |c.owner|
    ensures Reachable(c, outcomes, StartedListeners(c, k))
  {
    if k == 0 {
      var s := Do(c, Init(c), CallShutdown);
      ReachInit(c, outcomes);
      ReachStep(c, outcomes, Init(c), CallShutdown);
      ReachStep(c, outcomes, s, Close);
      assert Do(c, s, Close) == StartedListeners(c, 0);
    } else {
      var s := StartedListeners(c, k - 1);
      ReachListeners(c, outcomes, k - 1);
      ReachStep(c, outcomes, s, StartListener);
      assert seq(k - 1, _ => true) + [true] == seq(k, _ => true);
      assert Do(c, s, StartListener) == StartedListeners(c, k);
    }
  }

  /** All listeners run, and the handler has started to shut down the first `k` servers. */
  function SpawnedShutdowns(c: Config, k: nat): State {
    State(true, 0, 1, false, Idle, Waiting, |c.owner| + 1, seq(|c.owner|, _ => true), Spawning(k),
          seq(c.servers, j => if j < k then Spawned else NotSpawned), false, [ChannelClosed, PreHook])
  }

  lemma {:induction false} ReachShutdowns(c: Config, outcomes: seq<bool>, k: nat)
    requires k <= c.servers
    ensures Reachable(c, outcomes, SpawnedShutdowns(c, k))
  {
    if k == 0 {
      var s := StartedListeners(c, |c.owner|);
      var s1 := Do(c, s, StartHandler);
      var s2 := Do(c, s1, Wake);
      ReachListeners(c, outcomes, |c.owner|);
      ReachStep(c, outcomes, s, StartHandler);
      ReachStep(c, outcomes, s1, Wake);
      ReachStep(c, outcomes, s2, RunPreHook);
      assert Do(c, s2, RunPreHook) == SpawnedShutdowns(c, 0);
    } else {
      var s := SpawnedShutdowns(c, k - 1);
      ReachShutdowns(c, outcomes, k - 1);
      ReachStep(c, outcomes, s, SpawnNext);
      assert Do(c, s, SpawnNext).senders == SpawnedShutdowns(c, k).senders;
      assert Do(c, s, SpawnNext) == SpawnedShutdowns(c, k);
    }
  }

  /** All shutdowns were started, and the goroutine of server `i` is `x`. */
  function OneAhead(c: Config, i: nat, x: Sender): State
    requires i < c.servers
  {
    var s := SpawnedShutdowns(c, c.servers);
    s.(handler := Receiving(0, true), senders := s.senders[i := x],
       log := [ChannelClosed, PreHook] + if HasBegun(x) then [Began(i)] else [])
  }

  /** Server `i` fails, and its goroutine is the first to be ready to send. */
  lemma ReachSending(c: Config, outcomes: seq<bool>, i: nat)
    requires |outcomes| == c.servers && i < c.servers && !outcomes[i]
    ensures Reachable(c, outcomes, OneAhead(c, i, Sending(false)))
  {
    var s0, s1, s2 := SpawnedShutdowns(c, c.servers), OneAhead(c, i, Spawned), OneAhead(c, i, Closing);
    ReachShutdowns(c, outcomes, c.servers);
    ReachStep(c, outcomes, s0, StartReceiving);
    assert Do(c, s0, StartReceiving) == s1;
    ReachStep(c, outcomes, s1, BeginShutdown(i));
    assert Do(c, s1, BeginShutdown(i)) == s2;
    ReachStep(c, outcomes, s2, EndShutdown(i, false));
    assert Do(c, s2, EndShutdown(i, false)) == OneAhead(c, i, Sending(false));
  }

  lemma ReachFailure(c: Config, outcomes: seq<bool>, i: nat) returns (s: State)
    requires |outcomes| == c.servers && i < c.servers && !outcomes[i]
    ensures Reachable(c, outcomes, s) && !s.exited && s.shuttingDown && s.serve.Waiting? && IsFailing(s)
    ensures |s.senders| == c.servers && forall j :: 0 <= j < c.servers ==> (s.senders[j].Finished? <==> j == i)
  {
    var before := OneAhead(c, i, Sending(false));
    ReachSending(c, outcomes, i);
    ReachStep(c, outcomes, before, Receive(i));
    s := Do(c, before, Receive(i));
  }

  lemma OwnKeeps(c: Config, s: State, e: Event)
    requires Enabled(c, s, e) && IsOwn(e) && s.shuttingDown && (s.serve.Waiting? || s.serve.Returned?)
    ensures var t := Do(c, s, e); !t.exited && t.shuttingDown && (t.serve.Waiting? || t.serve.Returned?)
  {
  }

  /** Left to itself the program goes on until it is quiet, and `Serve` has returned. */
  lemma {:induction false} RunToEnd(c: Config, outcomes: seq<bool>, s: State) returns (t: State)
    requires ValidConfig(c) && Reachable(c, outcomes, s) && IsFailing(s)
    requires !s.exited && s.shuttingDown && (s.serve.Waiting? || s.serve.Returned?)
    ensures Reachable(c, outcomes, t) && IsComplete(c, t) && |t.senders| == |s.senders|
    ensures forall i :: 0 <= i < |s.senders| ==> (t.senders[i].Finished? <==> s.senders[i].Finished?)
    decreases StateRank(c, s)
  {
    ReachValid(c, outcomes, s);
    if IsQuiet(c, s) {
      if s.serve.Waiting? {
        var e := NotStuck(c, s);
      }
      t := s;
    } else {
      var any :| IsOwn(any) && Enabled(c, s, any);
      var e := if any.EndShutdown? && any.i < |outcomes| then EndShutdown(any.i, outcomes[any.i]) else any;
      StepRank(c, s, e);
      OwnKeeps(c, s, e);
      StillFailing(c, s, e);
      ReachStep(c, outcomes, s, e);
      t := RunToEnd(c, outcomes, Do(c, s, e));
    }
  }

  /** A failure and a second server: some run leaves a goroutine blocked in its send. */
  lemma LeavesBlocked(c: Config, outcomes: seq<bool>, i: nat) returns (s: State, j: nat)
    requires ValidConfig(c) && |outcomes| == c.servers >= 2 && i < c.servers && !outcomes[i]
    ensures Reachable(c, outcomes, s) && IsComplete(c, s) && j < |s.senders| && s.senders[j].Sending?
  {
    var first := ReachFailure(c, outcomes, i);
    s := RunToEnd(c, outcomes, first);
    ReachValid(c, outcomes, s);
    j := if i == 0 then 1 else 0;
    QuietSender(c, s, j);
  }

  /** A goroutine that nothing can wake is blocked in its send, or has returned. */
  lemma QuietSender(c: Config, s: State, j: nat)
    requires IsComplete(c, s) && CountValid(c, s) && HandlerValid(c, s) && j < |s.senders|
    ensures s.senders[j].Sending? || s.senders[j].Finished?
  {
    SomeWeight(s.listeners, Running);
    assert !s.senders[j].NotSpawned?;
    assert !Enabled(c, s, BeginShutdown(j)) && !Enabled(c, s, EndShutdown(j, true));
  }

  /** Every send is received in every complete run exactly when no shutdown fails or there
      is at most one server. */
  lemma AllReceivedIff(c: Config, outcomes: seq<bool>)
    requires ValidConfig(c) && |outcomes| == c.servers
    ensures (forall s :: Reachable(c, outcomes, s) && IsComplete(c, s) ==> AllReceived(s)) <==>
            c.servers <= 1 || forall i :: 0 <= i < |outcomes| ==> outcomes[i]
  {
    if c.servers <= 1 || forall i :: 0 <= i < |outcomes| ==> outcomes[i] {
      forall s | Reachable(c, outcomes, s) && IsComplete(c, s) ensures AllReceived(s) {
        ReachValid(c, outcomes, s);
        SomeWeight(s.listeners, Running);
        AllAreReceived(c, outcomes, s);
      }
    } else {
      var i: nat :| i < |outcomes| && !outcomes[i];
      var s, j := LeavesBlocked(c, outcomes, i);
      assert !AllReceived(s);
    }
  }

  // ---------- when a failed set-up leaves listeners running ----------

  /** `Serve` has returned an error, and a listener runs. */
  ghost predicate LeavesListener(s: State) {
    s.serve.Failed? && exists j :: 0 <= j < |s.listeners| && s.listeners[j]
  }

  /** `Serve` fails before it starts a listener, or at its certificates. */
  ghost predicate FailsInPlace(c: Config, s: State) {
    s.serve.Failed? ==> |s.listeners| == 0 || (c.usesTLS && |s.listeners| == c.tlsFrom)
  }

  lemma {:induction false} RunFailsInPlace(c: Config, states: seq<State>, events: seq<Event>, k: nat)
    requires ValidConfig(c) && IsRun(c, states, events) && k < |states|
    ensures FailsInPlace(c, states[k])
  {
    if k > 0 {
      RunFailsInPlace(c, states, events, k - 1);
      RunValid(c, states, events, k - 1);
      StepFailsInPlace(c, states[k - 1], events[k - 1]);
    }
  }

  lemma StepFailsInPlace(c: Config, s: State, e: Event)
    requires FailsInPlace(c, s) && CountValid(c, s) && Enabled(c, s, e)
    ensures FailsInPlace(c, Do(c, s, e))
  {
  }

  /** `k` listeners are up, and nobody has called `Shutdown`. */
  function Listening(c: Config, k: nat): State {
    Init(c).(serve := Setup(k), wg := k, listeners := seq(k, _ => true))
  }

  lemma {:induction false} ReachListening(c: Config, outcomes: seq<bool>, k: nat)
    requires k <= |c.owner|
    ensures Reachable(c, outcomes, Listening(c, k))
  {
    if k == 0 {
      ReachInit(c, outcomes);
      assert Listening(c, 0) == Init(c);
    } else {
      var s := Listening(c, k - 1);
      ReachListening(c, outcomes, k - 1);
      ReachStep(c, outcomes, s, StartListener);
      assert seq(k - 1, _ => true) + [true] == seq(k, _ => true);
      assert Do(c, s, StartListener) == Listening(c, k);
    }
  }

  /** Some run of `Serve` fails and leaves a listener running exactly when the certificates
      are loaded after the first listener was started. */
  lemma LeavesListenerIff(c: Config, outcomes: seq<bool>)
    requires ValidConfig(c)
    ensures (exists s :: Reachable(c, outcomes, s) && LeavesListener(s)) <==> c.usesTLS && 0 < c.tlsFrom <= |c.owner|
  {
    if s :| Reachable(c, outcomes, s) && LeavesListener(s) {
      ReachValid(c, outcomes, s);
      var states, events :| Reaches(c, outcomes, states, events, s);
      RunFailsInPlace(c, states, events, |events|);
    }
    if c.usesTLS && 0 < c.tlsFrom <= |c.owner| {
      var s := Listening(c, c.tlsFrom);
      ReachListening(c, outcomes, c.tlsFrom);
      ReachStep(c, outcomes, s, SetupFails);
      var t := Do(c, s, SetupFails);
      assert t.listeners[0];
      assert LeavesListener(t);
    }
  }

  // ---------- the methods, one at a time ----------

  /** The fields that `Shutdown` and the interrupt loop share. */
  class Server {
    var shuttingDown: bool
    var interrupted: bool
    /** How often the channel was closed; a second close would panic. */
    var closes: nat

    ghost predicate Valid()
      reads this
    {
      closes == if shuttingDown then 1 else 0
    }

    constructor ()
      ensures Valid() && !shuttingDown && !interrupted
    {
      shuttingDown, interrupted, closes := false, false, 0;
    }

    method Shutdown()
      requires Valid()
      modifies this`shuttingDown, this`closes
      ensures Valid() && shuttingDown && closes == 1
    {
      if !shuttingDown {
        shuttingDown := true;
        closes := closes + 1;
      }
    }

    /** The loop over the interrupts; only the first one shuts the server down. */
    method HandleInterrupt(signals: nat) returns (calls: nat)
      requires Valid()
      modifies this
      ensures Valid() && interrupted == (old(interrupted) || signals > 0)
      ensures calls == if signals > 0 && !old(interrupted) then 1 else 0
      ensures shuttingDown == (old(shuttingDown) || calls == 1)
    {
      calls := 0;
      for i := 0 to signals
        invariant Valid() && interrupted == (old(interrupted) || i > 0)
        invariant calls == if i > 0 && !old(interrupted) then 1 else 0
        invariant shuttingDown == (old(shuttingDown) || calls == 1)
      {
        if interrupted {
          continue;
        }
        interrupted := true;
        calls := calls + 1;
        Shutdown();
      }
    }
  }

  /** The receive loop, over the results in the order in which they are sent: it stops
      receiving at the first failure. */
  method AwaitServers(results: seq<bool>) returns (success: bool, received: nat)
    ensures success <==> forall i :: 0 <= i < |results| ==> results[i]
    ensures received <= |results| && forall i :: 0 <= i < received ==> results[i] == (success || i < received - 1)
    ensures success ==> received == |results|
    ensures !success ==> received > 0
  {
    success, received := true, 0;
    for k := 0 to |results|
      invariant received <= k && (success ==> received == k) && (!success ==> received > 0)
      invariant forall i :: 0 <= i < received ==> results[i] == (success || i < received - 1)
    {
      if success {
        success := results[received];
        received := received + 1;
      }
    }
    assert !success ==> !results[received - 1];
  }
}
