/** Parallel membership updates: every goroutine makes at most one membership request,
    and the requests meet the server in any order. */
module GroupFanOut {
  import opened Wrappers
  import opened Iam
  import opened FanOut

  /** What one goroutine has to do. */
  datatype Job = NoCall | Call(request: MemberRequest)

  /** A worker's result is the error of its call, if any. */
  datatype State = State(members: Memberships, control: Control<Option<string>>)

  /** One atomic step: of the caller, or of worker `i`, whose call the server accepts
      or rejects. */
  datatype Event =
    | StartNext
    | SkipCall(i: nat)
    | Accept(i: nat)
    | Reject(i: nat, message: string)
    | ReceiveNext

  function Init(jobs: seq<Job>, m: Memberships): State {
    State(m, Start(|jobs|))
  }

  predicate Enabled(jobs: seq<Job>, s: State, e: Event) {
    match e
    case StartNext => CanSpawn(s.control)
    case SkipCall(i) => i < |jobs| && jobs[i].NoCall? && IsBusy(s.control, i)
    case Accept(i) => i < |jobs| && jobs[i].Call? && IsBusy(s.control, i)
    case Reject(i, _) => i < |jobs| && jobs[i].Call? && IsBusy(s.control, i)
    case ReceiveNext => CanReceive(s.control)
  }

  function Do(jobs: seq<Job>, s: State, e: Event): State
    requires Enabled(jobs, s, e)
  {
    match e
    case StartNext => s.(control := Spawn(s.control))
    case SkipCall(i) => s.(control := Offer(s.control, i, None))
    case Accept(i) => State(Apply(s.members, jobs[i].request), Offer(s.control, i, None))
    case Reject(i, message) => s.(control := Offer(s.control, i, Some(message)))
    case ReceiveNext => s.(control := Receive(s.control))
  }

  /** A run of any length under any scheduler, with calls failing at will. */
  ghost predicate IsRun(jobs: seq<Job>, m: Memberships, states: seq<State>, events: seq<Event>) {
    && |states| == |events| + 1
    && states[0] == Init(jobs, m)
    && forall k :: 0 <= k < |events| ==>
         Enabled(jobs, states[k], events[k]) && states[k + 1] == Do(jobs, states[k], events[k])
  }

  /** The workers that have ended without an error. */
  ghost function Succeeded(s: State): set<nat> {
    set i: nat | i < |s.control.workers| && ResultOf(s.control, i) == Some(None)
  }

  /** The reference: the first `n` jobs one after another, keeping only those in `done`. */
  ghost function Sequential(jobs: seq<Job>, done: set<nat>, m: Memberships, n: nat): Memberships
    requires n <= |jobs|
  {
    if n == 0 then m
    else
      var before := Sequential(jobs, done, m, n - 1);
      if n - 1 in done && jobs[n - 1].Call? then Apply(before, jobs[n - 1].request) else before
  }

  ghost predicate AllIndependent(jobs: seq<Job>) {
    forall i, j :: 0 <= i < j < |jobs| && jobs[i].Call? && jobs[j].Call? ==>
      Independent(jobs[i].request, jobs[j].request)
  }

  ghost predicate Valid(jobs: seq<Job>, m: Memberships, s: State) {
    && FanOut.Inv(s.control)
    && |s.control.workers| == |jobs|
    && (forall i: nat :: i < |jobs| && jobs[i].NoCall? && ResultOf(s.control, i).Some? ==>
          ResultOf(s.control, i).value == None)
    && s.members == Sequential(jobs, Succeeded(s), m, |jobs|)
  }

  lemma SequentialOfNone(jobs: seq<Job>, m: Memberships, n: nat)
    requires n <= |jobs|
    ensures Sequential(jobs, {}, m, n) == m
  {
  }

  /** Doing job `i` last is as good as doing it in its turn. */
  lemma {:induction false} SequentialInsert(jobs: seq<Job>, done: set<nat>, m: Memberships, i: nat, n: nat)
    requires AllIndependent(jobs)
    requires i < n <= |jobs| && i !in done && jobs[i].Call?
    ensures Sequential(jobs, done + {i}, m, n) == Apply(Sequential(jobs, done, m, n), jobs[i].request)
  {
    if i == n - 1 {
      SequentialBelow(jobs, done, m, i, n - 1);
    } else {
      SequentialInsert(jobs, done, m, i, n - 1);
      if n - 1 in done && jobs[n - 1].Call? {
        ApplyCommutes(Sequential(jobs, done, m, n - 1), jobs[i].request, jobs[n - 1].request);
      }
    }
  }

  lemma SequentialBelow(jobs: seq<Job>, done: set<nat>, m: Memberships, i: nat, n: nat)
    requires n <= i < |jobs|
    ensures Sequential(jobs, done + {i}, m, n) == Sequential(jobs, done, m, n)
  {
  }

  lemma {:induction false} SequentialSkip(jobs: seq<Job>, done: set<nat>, m: Memberships, i: nat, n: nat)
    requires i < |jobs| && n <= |jobs| && jobs[i].NoCall?
    ensures Sequential(jobs, done + {i}, m, n) == Sequential(jobs, done, m, n)
  {
    if n > 0 {
      SequentialSkip(jobs, done, m, i, n - 1);
    }
  }

  lemma InitValid(jobs: seq<Job>, m: Memberships)
    ensures Valid(jobs, m, Init(jobs, m))
  {
    StartInv<Option<string>>(|jobs|);
    var s := Init(jobs, m);
    assert Succeeded(s) == {};
    SequentialOfNone(jobs, m, |jobs|);
  }

  /** Every step keeps the invariant and brings the end nearer. */
  lemma StepValid(jobs: seq<Job>, m: Memberships, s: State, e: Event)
    requires AllIndependent(jobs) && Valid(jobs, m, s) && Enabled(jobs, s, e)
    ensures Valid(jobs, m, Do(jobs, s, e))
    ensures Rank(Do(jobs, s, e).control.workers) < Rank(s.control.workers)
  {
    var t := Do(jobs, s, e);
    match e
    case StartNext =>
      SpawnStep(s.control);
      assert Succeeded(t) == Succeeded(s);
    case SkipCall(i) =>
      OfferStep(s.control, i, None);
      assert Succeeded(t) == Succeeded(s) + {i};
      SequentialSkip(jobs, Succeeded(s), m, i, |jobs|);
    case Accept(i) =>
      OfferStep(s.control, i, None);
      assert Succeeded(t) == Succeeded(s) + {i};
      SequentialInsert(jobs, Succeeded(s), m, i, |jobs|);
    case Reject(i, message) =>
      OfferStep(s.control, i, Some(message));
      assert Succeeded(t) == Succeeded(s);
    case ReceiveNext =>
      ReceiveStep(s.control);
      assert Succeeded(t) == Succeeded(s);
  }

  /** At every moment of every run the server holds what the accepted jobs would give
      when done one by one in list order; and no run has more than three steps a job. */
  lemma {:induction false} RunIsSequential(jobs: seq<Job>, m: Memberships, states: seq<State>, events: seq<Event>, k: nat)
    requires AllIndependent(jobs) && IsRun(jobs, m, states, events) && k < |states|
    ensures Valid(jobs, m, states[k])
    ensures states[k].members == Sequential(jobs, Succeeded(states[k]), m, |jobs|)
    ensures Rank(states[k].control.workers) + k <= 3 * |jobs|
  {
    if k == 0 {
      InitValid(jobs, m);
      RankOfStart<Option<string>>(|jobs|);
    } else {
      RunIsSequential(jobs, m, states, events, k - 1);
      StepValid(jobs, m, states[k - 1], events[k - 1]);
    }
  }

  /** No reachable state is stuck: until the caller has all results, some step is
      possible, whatever the calls return. */
  lemma RunNeverStuck(jobs: seq<Job>, m: Memberships, states: seq<State>, events: seq<Event>)
    requires AllIndependent(jobs) && IsRun(jobs, m, states, events)
    requires !Finished(states[|events|].control)
    ensures exists e :: Enabled(jobs, states[|events|], e)
  {
    var s := states[|events|];
    RunIsSequential(jobs, m, states, events, |events|);
    NeverStuck(s.control);
    var i := |s.control.received|;
    if CanSpawn(s.control) {
      assert Enabled(jobs, s, StartNext);
    } else if CanReceive(s.control) {
      assert Enabled(jobs, s, ReceiveNext);
    } else {
      assert Enabled(jobs, s, if jobs[i].Call? then Accept(i) else SkipCall(i));
    }
  }

  /** Confluence: two complete runs in which the same calls succeeded leave the server
      in the same state, however differently they were scheduled. */
  lemma Confluence(jobs: seq<Job>, m: Memberships, states: seq<State>, events: seq<Event>,
                   states': seq<State>, events': seq<Event>)
    requires AllIndependent(jobs) && IsRun(jobs, m, states, events) && IsRun(jobs, m, states', events')
    requires var s, s' := states[|events|], states'[|events'|];
      Finished(s.control) && Finished(s'.control) && |s.control.received| == |s'.control.received| &&
      forall i :: 0 <= i < |s.control.received| ==> (s.control.received[i] == None <==> s'.control.received[i] == None)
    ensures states[|events|].members == states'[|events'|].members
  {
    var s, s' := states[|events|], states'[|events'|];
    RunIsSequential(jobs, m, states, events, |events|);
    RunIsSequential(jobs, m, states', events', |events'|);
    assert Succeeded(s) == Succeeded(s');
  }

  /** The scheduler and the server choose the next step freely. */
  method NextEvent(jobs: seq<Job>, ghost m: Memberships, s: State) returns (e: Event)
    requires Valid(jobs, m, s) && !Finished(s.control)
    ensures Enabled(jobs, s, e)
  {
    NeverStuck(s.control);
    var busy := set i: nat | i < |s.control.workers| && IsBusy(s.control, i);
    assert IsBusy(s.control, |s.control.received|) ==> |s.control.received| in busy;
    if
    case CanSpawn(s.control) => e := StartNext;
    case CanReceive(s.control) => e := ReceiveNext;
    case busy != {} =>
      var i :| i in busy;
      var accepted: bool := *;
      var message: string := *;
      e := if jobs[i].NoCall? then SkipCall(i) else if accepted then Accept(i) else Reject(i, message);
  }

  /** One complete run. */
  method RunAll(jobs: seq<Job>, m: Memberships) returns (s: State, ghost states: seq<State>, ghost events: seq<Event>)
    requires AllIndependent(jobs)
    ensures IsRun(jobs, m, states, events) && s == states[|events|]
    ensures Finished(s.control) && Valid(jobs, m, s)
  {
    s := Init(jobs, m);
    states, events := [s], [];
    InitValid(jobs, m);
    while !Finished(s.control)
      invariant IsRun(jobs, m, states, events) && s == states[|events|]
      invariant Valid(jobs, m, s)
      decreases Rank(s.control.workers)
    {
      var e := NextEvent(jobs, m, s);
      StepValid(jobs, m, s, e);
      s := Do(jobs, s, e);
      states, events := states + [s], events + [e];
    }
  }
}
