/** The fan-outs of a dashboard widget: `getWidgetDetails` of `api/admin_info.go`. First
    one goroutine per label, all sending on one unbuffered channel to a loop that gives
    up after a time; then one goroutine per target, each with a slot of its own. */
module Widget {
  import opened Counting
  import opened Wrappers
  import opened QueryMacros

  // ---------- the label loop ----------

  /** A label goroutine: waiting for Prometheus, blocked in its send, or returned. */
  datatype LabelWorker = Fetching | Sending(values: seq<string>) | Returned

  /** One result that the loop received: the goroutine's place and what it sent. */
  datatype Arrival = Arrival(index: nat, values: seq<string>)

  datatype LabelState = LabelState(
    workers: seq<LabelWorker>,
    labelMap: Labels,
    received: seq<Arrival>,
    over: bool,
    timedOut: bool)

  datatype LabelEvent = FetchFails(i: nat) | FetchOk(i: nat, values: seq<string>) | Receive(i: nat) | Timeout

  function LabelStart(n: nat): LabelState {
    LabelState(seq(n, _ => Fetching), map[], [], false, false)
  }

  predicate LabelEnabled(names: seq<string>, s: LabelState, e: LabelEvent) {
    match e
    case FetchFails(i) => i < |s.workers| && s.workers[i].Fetching?
    case FetchOk(i, _) => i < |s.workers| && s.workers[i].Fetching?
    case Receive(i) => !s.over && i < |s.workers| && i < |names| && s.workers[i].Sending?
    case Timeout => !s.over
  }

  function LabelDo(names: seq<string>, s: LabelState, e: LabelEvent): LabelState
    requires LabelEnabled(names, s, e)
  {
    match e
    case FetchFails(i) => s.(workers := s.workers[i := Returned])
    case FetchOk(i, values) => s.(workers := s.workers[i := Sending(values)])
    case Receive(i) =>
      var labelMap := s.labelMap[names[i] := s.workers[i].values];
      s.(workers := s.workers[i := Returned],
         labelMap := labelMap,
         received := s.received + [Arrival(i, s.workers[i].values)],
         over := |labelMap| >= |names|)
    case Timeout => s.(over := true, timedOut := true)
  }

  ghost predicate IsLabelRun(names: seq<string>, states: seq<LabelState>, events: seq<LabelEvent>) {
    && |states| == |events| + 1
    && states[0] == LabelStart(|names|)
    && forall k :: 0 <= k < |events| ==>
         LabelEnabled(names, states[k], events[k]) && states[k + 1] == LabelDo(names, states[k], events[k])
  }

  function Steps(w: LabelWorker): nat {
    match w case Fetching => 2 case Sending(_) => 1 case Returned => 0
  }

  /** A goroutine that has not returned. */
  function Alive(w: LabelWorker): nat {
    if w.Returned? then 0 else 1
  }

  /** The label map that a list of arrivals stands for. */
  ghost function MapOf(names: seq<string>, received: seq<Arrival>): Labels {
    if received == [] then map[]
    else
      var last := received[|received| - 1];
      var m := MapOf(names, received[..|received| - 1]);
      if last.index < |names| then m[names[last.index] := last.values] else m
  }

  ghost predicate LabelValid(names: seq<string>, s: LabelState) {
    && |s.workers| == |names|
    && s.labelMap == MapOf(names, s.received)
    && |s.labelMap| <= |s.received|
    && |s.received| + Total(s.workers, Alive) <= |names|
    && (forall j :: 0 <= j < |s.received| ==> s.received[j].index < |names| && s.workers[s.received[j].index].Returned?)
    && (forall j, k :: 0 <= j < k < |s.received| ==> s.received[j].index != s.received[k].index)
    && (s.timedOut ==> s.over)
    && (s.over && !s.timedOut ==> |s.labelMap| >= |names|)
  }

  /** Steps left, the end of the loop counting as one. */
  ghost function LabelRank(s: LabelState): nat {
    Total(s.workers, Steps) + if s.over then 0 else 1
  }

  lemma CountsOfUpdate(workers: seq<LabelWorker>, i: nat, w: LabelWorker)
    requires i < |workers|
    ensures Total(workers[i := w], Steps) == Total(workers, Steps) - Steps(workers[i]) + Steps(w)
    ensures Total(workers[i := w], Alive) == Total(workers, Alive) - Alive(workers[i]) + Alive(w)
  {
    TotalOfUpdate(workers, Steps, i, w);
    TotalOfUpdate(workers, Alive, i, w);
  }

  lemma ReceiveStep(names: seq<string>, s: LabelState, i: nat)
    requires LabelValid(names, s) && LabelEnabled(names, s, Receive(i))
    ensures LabelValid(names, LabelDo(names, s, Receive(i)))
    ensures LabelRank(LabelDo(names, s, Receive(i))) < LabelRank(s)
  {
    CountsOfUpdate(s.workers, i, Returned);
    var t := LabelDo(names, s, Receive(i));
    assert t.received[..|s.received|] == s.received;
  }

  lemma LabelStep(names: seq<string>, s: LabelState, e: LabelEvent)
    requires LabelValid(names, s) && LabelEnabled(names, s, e)
    ensures LabelValid(names, LabelDo(names, s, e))
    ensures LabelRank(LabelDo(names, s, e)) < LabelRank(s)
  {
    match e
    case FetchFails(i) => CountsOfUpdate(s.workers, i, Returned);
    case FetchOk(i, values) => CountsOfUpdate(s.workers, i, Sending(values));
    case Receive(i) => ReceiveStep(names, s, i);
    case Timeout =>
  }

  /** Along every run the map holds exactly what was received, no goroutine is received
      from twice, and there are at most as many receives as labels; and no run has more
      than two steps a label and one more. */
  lemma {:induction false} LabelRun(names: seq<string>, states: seq<LabelState>, events: seq<LabelEvent>, k: nat)
    requires IsLabelRun(names, states, events) && k < |states|
    ensures LabelValid(names, states[k])
    ensures |states[k].received| <= |names|
    ensures LabelRank(states[k]) + k <= 2 * |names| + 1
  {
    TotalOfCopies(|names|, Fetching, Steps);
    TotalOfCopies(|names|, Fetching, Alive);
    if k > 0 {
      LabelRun(names, states, events, k - 1);
      LabelStep(names, states[k - 1], events[k - 1]);
    }
  }

  /** A loop that ended without the timer has received from every label goroutine, and
      the label names were all different. */
  lemma LabelLoopComplete(names: seq<string>, states: seq<LabelState>, events: seq<LabelEvent>)
    requires IsLabelRun(names, states, events)
    requires var s := states[|events|]; s.over && !s.timedOut
    ensures var s := states[|events|];
      && |s.received| == |names|
      && s.labelMap.Keys == (set n | n in names)
      && forall i, j :: 0 <= i < j < |names| ==> names[i] != names[j]
  {
    var s := states[|events|];
    LabelRun(names, states, events, |events|);
    KeysAreNames(names, s.received);
    DistinctNames(names);
    var all := set n | n in names;
    if s.labelMap.Keys != all {
      ProperSubsetSmaller(s.labelMap.Keys, all);
    }
  }

  lemma {:induction false} KeysAreNames(names: seq<string>, received: seq<Arrival>)
    ensures forall n :: n in MapOf(names, received) ==> n in names
  {
    if received != [] {
      KeysAreNames(names, received[..|received| - 1]);
    }
  }

  lemma ProperSubsetSmaller(a: set<string>, b: set<string>)
    requires a < b
    ensures |a| < |b|
  {
    var x :| x in b && x !in a;
    SubsetSize(a, b - {x});
  }

  lemma {:induction false} SubsetSize(a: set<string>, b: set<string>)
    requires a <= b
    ensures |a| <= |b|
  {
    if a != {} {
      var x :| x in a;
      SubsetSize(a - {x}, b - {x});
    }
  }

  /** A list has at most as many different elements as places, and as many only when all
      are different. */
  lemma {:induction false} DistinctNames(names: seq<string>)
    ensures |set n | n in names| <= |names|
    ensures |set n | n in names| == |names| ==> forall i, j :: 0 <= i < j < |names| ==> names[i] != names[j]
  {
    if names != [] {
      var front, last := names[..|names| - 1], names[|names| - 1];
      DistinctNames(front);
      assert names == front + [last];
      assert (set n | n in names) == (set n | n in front) + {last};
    }
  }

  // ---------- label goroutines that stay behind ----------

  /** `answers[i]` is what Prometheus answers for label `i`, if it does. */
  ghost predicate LabelAnswers(answers: seq<Option<seq<string>>>, e: LabelEvent) {
    match e
    case FetchFails(i) => i < |answers| ==> answers[i] == None
    case FetchOk(i, values) => i < |answers| ==> answers[i] == Some(values)
    case _ => true
  }

  ghost predicate LabelReaches(names: seq<string>, answers: seq<Option<seq<string>>>,
                               states: seq<LabelState>, events: seq<LabelEvent>, s: LabelState)
  {
    && IsLabelRun(names, states, events) && states[|events|] == s
    && forall k :: 0 <= k < |events| ==> LabelAnswers(answers, events[k])
  }

  ghost predicate LabelReachable(names: seq<string>, answers: seq<Option<seq<string>>>, s: LabelState) {
    exists states, events :: LabelReaches(names, answers, states, events, s)
  }

  /** The loop is over, and goroutine `i` is in its send: nobody will ever receive it. */
  predicate IsBlocked(s: LabelState, i: nat) {
    s.over && i < |s.workers| && s.workers[i].Sending?
  }

  lemma StaysBlocked(names: seq<string>, s: LabelState, e: LabelEvent, i: nat)
    requires IsBlocked(s, i) && LabelEnabled(names, s, e)
    ensures IsBlocked(LabelDo(names, s, e), i)
  {
  }

  lemma {:induction false} BlockedForEver(names: seq<string>, states: seq<LabelState>, events: seq<LabelEvent>,
                                          k: nat, l: nat, i: nat)
    requires IsLabelRun(names, states, events) && k <= l < |states| && IsBlocked(states[k], i)
    ensures IsBlocked(states[l], i)
  {
    if k < l {
      BlockedForEver(names, states, events, k, l - 1, i);
      StaysBlocked(names, states[l - 1], events[l - 1], i);
    }
  }

  /** What is being sent was answered. */
  lemma {:induction false} SendsAnswer(names: seq<string>, answers: seq<Option<seq<string>>>,
                                       states: seq<LabelState>, events: seq<LabelEvent>, s: LabelState, k: nat, i: nat)
    requires LabelReaches(names, answers, states, events, s) && k < |states| && i < |names| == |answers|
    ensures |states[k].workers| == |names|
    ensures states[k].workers[i].Sending? ==> answers[i] == Some(states[k].workers[i].values)
  {
    if k > 0 {
      SendsAnswer(names, answers, states, events, s, k - 1, i);
      assert LabelAnswers(answers, events[k - 1]);
    }
  }

  /** Goroutine `i` can stay blocked for ever exactly when Prometheus answers it. */
  lemma LateLabelIff(names: seq<string>, answers: seq<Option<seq<string>>>, i: nat)
    requires i < |names| == |answers|
    ensures (exists s :: LabelReachable(names, answers, s) && IsBlocked(s, i)) <==> answers[i].Some?
  {
    if s :| LabelReachable(names, answers, s) && IsBlocked(s, i) {
      var states, events :| LabelReaches(names, answers, states, events, s);
      SendsAnswer(names, answers, states, events, s, |events|, i);
    }
    if answers[i].Some? {
      var late := FetchOk(i, answers[i].value);
      var s0 := LabelStart(|names|);
      var s1 := LabelDo(names, s0, Timeout);
      var s2 := LabelDo(names, s1, late);
      assert LabelReaches(names, answers, [s0, s1, s2], [Timeout, late], s2);
      assert LabelReachable(names, answers, s2) && IsBlocked(s2, i);
    }
  }

  /** A loop that ended without the timer leaves nobody behind. */
  lemma NoneBehind(names: seq<string>, states: seq<LabelState>, events: seq<LabelEvent>)
    requires IsLabelRun(names, states, events)
    requires var s := states[|events|]; s.over && !s.timedOut
    ensures var s := states[|events|]; forall i :: 0 <= i < |s.workers| ==> s.workers[i].Returned?
  {
    var s := states[|events|];
    LabelRun(names, states, events, |events|);
    LabelLoopComplete(names, states, events);
    SomeWeight(s.workers, Alive);
    assert forall i :: 0 <= i < |s.workers| ==> Alive(s.workers[i]) == 0;
  }

  /** The scheduler, Prometheus and the clock choose freely. */
  method NextLabelEvent(names: seq<string>, s: LabelState) returns (e: LabelEvent)
    requires |s.workers| == |names| && !s.over
    ensures LabelEnabled(names, s, e)
  {
    var fetching := set i: nat | i < |s.workers| && s.workers[i].Fetching?;
    var sending := set i: nat | i < |s.workers| && s.workers[i].Sending?;
    if
    case true => e := Timeout;
    case sending != {} =>
      var i :| i in sending;
      e := Receive(i);
    case fetching != {} =>
      var i :| i in fetching;
      var values: Option<seq<string>> := *;
      e := if values.Some? then FetchOk(i, values.value) else FetchFails(i);
  }

  /** The loop that waits for the labels. It always ends; its map holds for each label
      what was received for it last, and without the timer running out every label. */
  method WaitForLabels(names: seq<string>)
    returns (labelMap: Labels, timedOut: bool, ghost states: seq<LabelState>, ghost events: seq<LabelEvent>)
    ensures IsLabelRun(names, states, events) && states[|events|].over
    ensures labelMap == states[|events|].labelMap == MapOf(names, states[|events|].received)
    ensures timedOut == states[|events|].timedOut
    ensures !timedOut ==> labelMap.Keys == set n | n in names
  {
    var s := LabelStart(|names|);
    states, events := [s], [];
    LabelRun(names, states, events, 0);
    while !s.over
      invariant IsLabelRun(names, states, events) && s == states[|events|]
      invariant LabelValid(names, s)
      decreases LabelRank(s)
    {
      var e := NextLabelEvent(names, s);
      LabelStep(names, s, e);
      s := LabelDo(names, s, e);
      states, events := states + [s], events + [e];
    }
    if !s.timedOut {
      LabelLoopComplete(names, states, events);
    }
    labelMap, timedOut := s.labelMap, s.timedOut;
  }

  // ---------- the targets ----------

  /** A target goroutine: not started, at work, on its way to the deferred `wg.Done`, or
      done. */
  datatype TargetWorker = Waiting | Working | Returning | Done

  /** `R` stands for `models.ResultTarget`; `counter` is the wait group. */
  datatype TargetState<R> = TargetState(
    workers: seq<TargetWorker>,
    slots: seq<Option<R>>,
    spawned: nat,
    counter: int)

  datatype TargetEvent = Spawn | Fetch(i: nat) | Finish(i: nat)

  function TargetStart<R>(n: nat): TargetState<R> {
    TargetState(seq(n, _ => Waiting), seq(n, _ => None), 0, 0)
  }

  predicate TargetEnabled<R>(s: TargetState<R>, e: TargetEvent) {
    match e
    case Spawn => s.spawned < |s.workers|
    case Fetch(i) => i < |s.workers| && i < |s.slots| && s.workers[i].Working?
    case Finish(i) => i < |s.workers| && s.workers[i].Returning?
  }

  /** `outcomes[i]` is what target `i` gets from Prometheus; on a failure the goroutine
      returns without writing its slot. */
  function TargetDo<R>(outcomes: seq<Option<R>>, s: TargetState<R>, e: TargetEvent): TargetState<R>
    requires TargetEnabled(s, e) && |outcomes| == |s.workers|
  {
    match e
    case Spawn => s.(workers := s.workers[s.spawned := Working], spawned := s.spawned + 1, counter := s.counter + 1)
    case Fetch(i) =>
      var slots := if outcomes[i].None? then s.slots else s.slots[i := outcomes[i]];
      s.(workers := s.workers[i := Returning], slots := slots)
    case Finish(i) => s.(workers := s.workers[i := Done], counter := s.counter - 1)
  }

  /** `wg.Wait` lets the caller go on. */
  predicate WaitOver<R>(s: TargetState<R>) {
    s.spawned == |s.workers| && s.counter == 0
  }

  ghost predicate IsTargetRun<R>(outcomes: seq<Option<R>>, states: seq<TargetState<R>>, events: seq<TargetEvent>) {
    && |states| == |events| + 1
    && states[0] == TargetStart(|outcomes|)
    && forall k :: 0 <= k < |events| ==>
         && TargetEnabled(states[k], events[k])
         && |states[k].workers| == |outcomes|
         && states[k + 1] == TargetDo(outcomes, states[k], events[k])
  }

  predicate IsLive(w: TargetWorker) {
    w.Working? || w.Returning?
  }

  function Live(w: TargetWorker): nat {
    if IsLive(w) then 1 else 0
  }

  function StepsLeft(w: TargetWorker): nat {
    match w case Waiting => 3 case Working => 2 case Returning => 1 case Done => 0
  }

  lemma TargetCounts(workers: seq<TargetWorker>, i: nat, w: TargetWorker)
    requires i < |workers|
    ensures Total(workers[i := w], Live) == Total(workers, Live) - Live(workers[i]) + Live(w)
    ensures Total(workers[i := w], StepsLeft) == Total(workers, StepsLeft) - StepsLeft(workers[i]) + StepsLeft(w)
  {
    TotalOfUpdate(workers, Live, i, w);
    TotalOfUpdate(workers, StepsLeft, i, w);
  }

  /** The wait group counts the live goroutines, and a slot is filled just when its own
      goroutine has written it, with its own outcome. */
  ghost predicate TargetValid<R>(outcomes: seq<Option<R>>, s: TargetState<R>) {
    && |s.workers| == |s.slots| == |outcomes| && s.spawned <= |outcomes|
    && s.counter == Total(s.workers, Live)
    && (forall i :: 0 <= i < |outcomes| ==> (s.workers[i].Waiting? <==> i >= s.spawned))
    && (forall i :: 0 <= i < |outcomes| ==> s.slots[i] == if s.workers[i].Returning? || s.workers[i].Done? then outcomes[i] else None)
  }

  lemma TargetStep<R>(outcomes: seq<Option<R>>, s: TargetState<R>, e: TargetEvent)
    requires TargetValid(outcomes, s) && TargetEnabled(s, e)
    ensures TargetValid(outcomes, TargetDo(outcomes, s, e))
    ensures Total(TargetDo(outcomes, s, e).workers, StepsLeft) < Total(s.workers, StepsLeft)
  {
    match e
    case Spawn => TargetCounts(s.workers, s.spawned, Working);
    case Fetch(i) => TargetCounts(s.workers, i, Returning);
    case Finish(i) => TargetCounts(s.workers, i, Done);
  }

  lemma {:induction false} TargetRun<R>(outcomes: seq<Option<R>>, states: seq<TargetState<R>>, events: seq<TargetEvent>, k: nat)
    requires IsTargetRun(outcomes, states, events) && k < |states|
    ensures TargetValid(outcomes, states[k])
  {
    if k == 0 {
      TotalOfCopies(|outcomes|, Waiting, Live);
    } else {
      TargetRun(outcomes, states, events, k - 1);
      TargetStep(outcomes, states[k - 1], events[k - 1]);
    }
  }

  /** The filled slots, in the order of the targets. */
  function Filled<R>(slots: seq<Option<R>>): seq<R> {
    if slots == [] then []
    else
      var last := slots[|slots| - 1];
      Filled(slots[..|slots| - 1]) + if last.Some? then [last.value] else []
  }

  /** However the goroutines were scheduled, when the wait is over the widget's result is
      the list of successful outcomes in the order of its targets; before that the
      caller is never let go. */
  lemma TargetsInOrder<R>(outcomes: seq<Option<R>>, states: seq<TargetState<R>>, events: seq<TargetEvent>)
    requires IsTargetRun(outcomes, states, events)
    ensures |states[|events|].workers| == |outcomes|
    ensures WaitOver(states[|events|]) <==> forall i :: 0 <= i < |outcomes| ==> states[|events|].workers[i].Done?
    ensures WaitOver(states[|events|]) ==> Filled(states[|events|].slots) == Filled(outcomes)
  {
    var s := states[|events|];
    TargetRun(outcomes, states, events, |events|);
    assert s.spawned < |outcomes| ==> s.workers[s.spawned].Waiting?;
    SomeWeight(s.workers, Live);
    if WaitOver(s) {
      assert forall i :: 0 <= i < |outcomes| ==> Live(s.workers[i]) == 0;
      assert s.slots == outcomes;
    }
  }

  /** Until the wait is over some goroutine can start or end. */
  lemma TargetNotStuck<R>(outcomes: seq<Option<R>>, s: TargetState<R>)
    requires TargetValid(outcomes, s) && !WaitOver(s)
    ensures s.spawned < |s.workers| || exists i :: 0 <= i < |s.workers| && IsLive(s.workers[i])
  {
    SomeWeight(s.workers, Live);
    if s.spawned == |s.workers| {
      var i :| 0 <= i < |s.workers| && Live(s.workers[i]) != 0;
    }
  }

  /** The scheduler chooses freely. */
  method NextTargetEvent<R>(ghost outcomes: seq<Option<R>>, s: TargetState<R>) returns (e: TargetEvent)
    requires TargetValid(outcomes, s) && !WaitOver(s)
    ensures TargetEnabled(s, e)
  {
    TargetNotStuck(outcomes, s);
    var live := set i: nat | i < |s.workers| && IsLive(s.workers[i]);
    if i :| 0 <= i < |s.workers| && IsLive(s.workers[i]) {
      assert i in live;
    }
    if
    case s.spawned < |s.workers| => e := Spawn;
    case live != {} =>
      var i: nat :| i in live;
      e := if s.workers[i].Working? then Fetch(i) else Finish(i);
  }

  /** The loop that collects the slots. */
  method Collect<R>(slots: seq<Option<R>>) returns (targets: seq<R>)
    ensures targets == Filled(slots)
  {
    targets := [];
    for i := 0 to |slots|
      invariant targets == Filled(slots[..i])
    {
      assert slots[..i + 1][..i] == slots[..i];
      if slots[i].Some? {
        targets := targets + [slots[i].value];
      }
    }
    assert slots[..|slots|] == slots;
  }

  /** One complete run of the target goroutines and the loop that collects the slots. */
  method RunTargets<R>(outcomes: seq<Option<R>>) returns (targets: seq<R>)
    ensures targets == Filled(outcomes)
  {
    var s := TargetStart(|outcomes|);
    ghost var states, events := [s], [];
    TotalOfCopies(|outcomes|, Waiting, Live);
    while !WaitOver(s)
      invariant IsTargetRun(outcomes, states, events) && s == states[|events|]
      invariant TargetValid(outcomes, s)
      decreases Total(s.workers, StepsLeft)
    {
      var e := NextTargetEvent(outcomes, s);
      TargetStep(outcomes, s, e);
      s := TargetDo(outcomes, s, e);
      states, events := states + [s], events + [e];
    }
    TargetsInOrder(outcomes, states, events);
    targets := Collect(s.slots);
  }

  /** What Prometheus answers to each target's expanded expression. */
  function Answers<R>(exprs: seq<string>, labels: Labels, selector: string, fetch: (nat, string) -> Option<R>): seq<Option<R>> {
    seq(|exprs|, i requires 0 <= i < |exprs| => fetch(i, Expand(exprs[i], labels, selector)))
  }

  /** The targets of a widget. Each asks for its own expanded expression; `fetch` is what
      Prometheus answers. */
  method FetchTargets<R>(exprs: seq<string>, labels: Labels, selector: string, fetch: (nat, string) -> Option<R>)
    returns (targets: seq<R>)
    ensures targets == Filled(Answers(exprs, labels, selector, fetch))
  {
    var outcomes: seq<Option<R>> := [];
    for i := 0 to |exprs|
      invariant |outcomes| == i && forall j :: 0 <= j < i ==> outcomes[j] == fetch(j, Expand(exprs[j], labels, selector))
    {
      var queryExpr := ExpandQuery(exprs[i], labels, selector);
      outcomes := outcomes + [fetch(i, queryExpr)];
    }
    targets := RunTargets(outcomes);
    assert outcomes == Answers(exprs, labels, selector, fetch);
  }

  /** `Metric`, as far as it is used here. */
  datatype Metric = Metric(id: int, exprs: seq<string>)

  predicate IsFirst(widgets: seq<Metric>, id: int, i: nat) {
    i < |widgets| && widgets[i].id == id && forall j :: 0 <= j < i ==> widgets[j].id != id
  }

  /** The whole answer: the labels that came in time, then the targets of the first widget
      with the wanted id. There is an answer exactly when Prometheus can be reached and
      there is such a widget. */
  method GetWidgetDetails<R>(reachable: bool, names: seq<string>, widgets: seq<Metric>, widgetID: int,
                             selector: string, fetch: (nat, string) -> Option<R>)
    returns (r: Result<seq<R>>, ghost labelMap: Labels, ghost states: seq<LabelState>, ghost events: seq<LabelEvent>)
    ensures reachable ==>
      && IsLabelRun(names, states, events) && states[|events|].over
      && labelMap == MapOf(names, states[|events|].received)
      && (!states[|events|].timedOut ==> labelMap.Keys == set n | n in names)
    ensures r.Ok? <==> reachable && exists i: nat :: IsFirst(widgets, widgetID, i)
    ensures r.Ok? ==> forall i: nat :: IsFirst(widgets, widgetID, i) ==>
      r.value == Filled(Answers(widgets[i].exprs, labelMap, selector, fetch))
  {
    labelMap, states, events := map[], [], [];
    if !reachable {
      return Error("prometheus URL is unreachable"), labelMap, states, events;
    }
    var known, late;
    known, late, states, events := WaitForLabels(names);
    labelMap := known;
    for i := 0 to |widgets|
      invariant forall j :: 0 <= j < i ==> widgets[j].id != widgetID
    {
      if widgets[i].id != widgetID {
        continue;
      }
      assert IsFirst(widgets, widgetID, i);
      var targets := FetchTargets(widgets[i].exprs, known, selector, fetch);
      return Ok(targets), labelMap, states, events;
    }
    return Error("Widget not found"), labelMap, states, events;
  }
}
