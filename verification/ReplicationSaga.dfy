/** Replication of many buckets at once: `setMultiBucketReplication` of
    `api/admin_remote_buckets.go`. One goroutine per bucket creates a remote target, then a
    replication rule that names it, and deletes the target again when it cannot make the rule. */
module ReplicationSaga {
  import opened Wrappers
  import opened Counting
  import opened FanOut
  import opened Machine
  import opened ReplicationRules
  import opened RuleRemoval

  datatype Relation = Relation(origin: string, destination: string)

  datatype RemoteBucketResult = RemoteBucketResult(origin: string, target: string, error: string)

  /** What the server stores for each bucket. */
  type Backend = map<string, Stored>

  function StoredOf(m: Backend, bucket: string): Stored {
    if bucket in m then m[bucket] else Stored([], {})
  }

  // ---------- one worker ----------

  datatype Phase = AddingTarget | Reading | Setting | Compensating | Ended

  /** The variables of one goroutine, with what it has done: `arn` is empty until it has a
      target, `rule` is the rule it has stored, `undone` says that its delete succeeded. */
  datatype Local = Local(phase: Phase, arn: string, read: bool, cfg: seq<Rule>, rule: Option<Rule>,
                         undone: bool, message: string)

  /** What one call of the goroutine does, and how it ends. */
  datatype Action =
    | AddTarget(arn: string)
    | AddTargetFails(message: string)
    | Read
    | ReadFails
    | ConnectFails(message: string)
    | SetRule(id: string)
    | SetRuleFails(message: string)
    | Compensate
    | CompensateFails

  function Fresh(): Local {
    Local(AddingTarget, "", false, [], None, false, "")
  }

  /** New targets have names of their own, that no rule uses, and errors have a text. */
  predicate CanAct(b: Stored, l: Local, a: Action) {
    match a
    case AddTarget(arn) => l.phase.AddingTarget? && arn != "" && arn !in b.targets && !Names(b.rules, arn)
    case AddTargetFails(message) => l.phase.AddingTarget? && message != ""
    case Read => l.phase.Reading?
    case ReadFails => l.phase.Reading?
    case ConnectFails(message) => l.phase.Setting? && message != ""
    case SetRule(_) => l.phase.Setting?
    case SetRuleFails(message) => l.phase.Setting? && message != ""
    case Compensate => l.phase.Compensating?
    case CompensateFails => l.phase.Compensating?
  }

  /** The effect of a call on the bucket. A rule is stored together with the configuration
      that was read, and with no other when the reading failed. */
  function ActBucket(b: Stored, l: Local, a: Action, priority: int32): Stored {
    match a
    case AddTarget(arn) => b.(targets := b.targets + {arn})
    case SetRule(id) => b.(rules := l.cfg + [Rule(id, Chosen(l.cfg, priority), l.arn)])
    case Compensate => b.(targets := b.targets - {l.arn})
    case _ => b
  }

  function ActLocal(b: Stored, l: Local, a: Action, priority: int32): Local {
    match a
    case AddTarget(arn) => l.(phase := Reading, arn := arn)
    case AddTargetFails(message) => l.(phase := Compensating, message := message)
    case Read => l.(phase := Setting, read := true, cfg := b.rules)
    case ReadFails => l.(phase := Setting)
    case ConnectFails(message) => l.(phase := Compensating, message := message)
    case SetRule(id) => l.(phase := Ended, rule := Some(Rule(id, Chosen(l.cfg, priority), l.arn)))
    case SetRuleFails(message) => l.(phase := Compensating, message := message)
    case Compensate => l.(phase := Ended, undone := true)
    case CompensateFails => l.(phase := Ended)
  }

  /** The targets with a name. */
  function WithoutEmpty(targets: set<string>): set<string> {
    targets - {""}
  }

  /** The delete after a failed creation names the empty target. */
  function TargetsAccounted(targets: set<string>, l: Local): set<string> {
    if l.arn == "" then (if l.undone then WithoutEmpty(targets) else targets)
    else if l.undone then targets else targets + {l.arn}
  }

  /** The bucket is what it was at first, changed by what the worker has to show for. */
  ghost predicate Accounts(start: Stored, b: Stored, l: Local) {
    && b.targets == TargetsAccounted(start.targets, l)
    && b.rules == (if l.rule.Some? then (if l.read then start.rules else []) + [l.rule.value] else start.rules)
  }

  /** What a worker's variables say about each other. */
  ghost predicate LocalShape(l: Local) {
    && (l.phase.AddingTarget? ==> l == Fresh())
    && (l.phase.Reading? || l.phase.Setting? ==> l.arn != "" && l.rule == None && !l.undone && l.message == "")
    && (l.phase.Compensating? ==> l.rule == None && !l.undone && l.message != "")
    && (l.message == "" && l.phase.Ended? <==> l.rule.Some?)
    && (l.rule.Some? ==> l.arn != "" && !l.undone && l.rule.value.destination == l.arn)
  }

  /** What they say about the bucket as it was at first. */
  ghost predicate LocalValid(start: Stored, l: Local, priority: int32) {
    && LocalShape(l)
    && (l.arn != "" ==> l.arn !in start.targets && !Names(start.rules, l.arn))
    && (l.phase.Reading? ==> !l.read && l.cfg == [])
    && (l.phase.Setting? ==> l.cfg == if l.read then start.rules else [])
    && (l.rule.Some? ==> l.rule.value.priority == Chosen(if l.read then start.rules else [], priority))
  }

  lemma ActKeepsShape(b: Stored, l: Local, a: Action, priority: int32)
    requires LocalShape(l) && CanAct(b, l, a)
    ensures LocalShape(ActLocal(b, l, a, priority))
  {
  }

  /** Each call keeps the account. */
  lemma ActKeeps(start: Stored, b: Stored, l: Local, a: Action, priority: int32)
    requires LocalValid(start, l, priority) && Accounts(start, b, l) && CanAct(b, l, a)
    ensures LocalValid(start, ActLocal(b, l, a, priority), priority)
    ensures Accounts(start, ActBucket(b, l, a, priority), ActLocal(b, l, a, priority))
  {
  }

  function PhaseRank(p: Phase): nat {
    match p case AddingTarget => 4 case Reading => 3 case Setting => 2 case Compensating => 1 case Ended => 0
  }

  // ---------- all workers ----------

  datatype State = State(backend: Backend, locals: seq<Local>, control: Control<RemoteBucketResult>)

  datatype Event = StartNext | Act(i: nat, action: Action) | ReceiveNext

  function Init(relations: seq<Relation>, m: Backend): State {
    State(m, seq(|relations|, _ => Fresh()), Start(|relations|))
  }

  predicate Enabled(relations: seq<Relation>, s: State, e: Event) {
    match e
    case StartNext => CanSpawn(s.control)
    case Act(i, a) =>
      i < |relations| && i < |s.locals| && IsBusy(s.control, i) &&
      CanAct(StoredOf(s.backend, relations[i].origin), s.locals[i], a)
    case ReceiveNext => CanReceive(s.control)
  }

  function ResultFor(relation: Relation, l: Local): RemoteBucketResult {
    RemoteBucketResult(relation.origin, relation.destination, l.message)
  }

  /** A worker whose work has ended reaches its send. */
  function Do(relations: seq<Relation>, priority: int32, s: State, e: Event): State
    requires Enabled(relations, s, e)
  {
    match e
    case StartNext => s.(control := Spawn(s.control))
    case ReceiveNext => s.(control := Receive(s.control))
    case Act(i, a) =>
      var bucket := relations[i].origin;
      var b, l := StoredOf(s.backend, bucket), s.locals[i];
      var l' := ActLocal(b, l, a, priority);
      State(s.backend[bucket := ActBucket(b, l, a, priority)],
            s.locals[i := l'],
            if l'.phase.Ended? then Offer(s.control, i, ResultFor(relations[i], l')) else s.control)
  }

  ghost predicate IsRun(relations: seq<Relation>, priority: int32, m: Backend, states: seq<State>, events: seq<Event>) {
    && |states| == |events| + 1
    && states[0] == Init(relations, m)
    && forall k :: 0 <= k < |events| ==>
         Enabled(relations, states[k], events[k]) && states[k + 1] == Do(relations, priority, states[k], events[k])
  }

  ghost predicate DistinctOrigins(relations: seq<Relation>) {
    forall i, j :: 0 <= i < j < |relations| ==> relations[i].origin != relations[j].origin
  }

  /** The worker and its result, whatever the others do to the bucket. */
  ghost predicate WorkerSound(relations: seq<Relation>, s: State, i: nat)
    requires i < |relations| == |s.locals|
  {
    && LocalShape(s.locals[i])
    && ResultOf(s.control, i) == if s.locals[i].phase.Ended? then Some(ResultFor(relations[i], s.locals[i])) else None
  }

  ghost predicate IsOther(relations: seq<Relation>, bucket: string) {
    forall i :: 0 <= i < |relations| ==> relations[i].origin != bucket
  }

  ghost predicate Untouched(relations: seq<Relation>, m: Backend, s: State) {
    forall bucket :: IsOther(relations, bucket) ==> StoredOf(s.backend, bucket) == StoredOf(m, bucket)
  }

  /** What holds in every run, also when relations share an origin. */
  ghost predicate Sound(relations: seq<Relation>, m: Backend, s: State) {
    && FanOut.Inv(s.control) && |s.control.workers| == |relations| == |s.locals|
    && (forall i: nat :: i < |relations| ==> WorkerSound(relations, s, i))
    && Untouched(relations, m, s)
  }

  /** The worker and its bucket. */
  ghost predicate WorkerValid(relations: seq<Relation>, priority: int32, m: Backend, s: State, i: nat)
    requires i < |relations| == |s.locals|
  {
    var bucket, l := relations[i].origin, s.locals[i];
    LocalValid(StoredOf(m, bucket), l, priority) && Accounts(StoredOf(m, bucket), StoredOf(s.backend, bucket), l)
  }

  ghost predicate Valid(relations: seq<Relation>, priority: int32, m: Backend, s: State) {
    && Sound(relations, m, s)
    && (forall i: nat :: i < |relations| ==> WorkerValid(relations, priority, m, s, i))
  }

  function LocalRank(l: Local): nat {
    PhaseRank(l.phase)
  }

  /** Steps still to come, at most. */
  ghost function StateRank(s: State): nat {
    Rank(s.control.workers) + Total(s.locals, LocalRank)
  }

  lemma InitValid(relations: seq<Relation>, priority: int32, m: Backend)
    ensures Valid(relations, priority, m, Init(relations, m))
  {
    StartInv<RemoteBucketResult>(|relations|);
    var s := Init(relations, m);
    forall i: nat | i < |relations| ensures WorkerSound(relations, s, i) && WorkerValid(relations, priority, m, s, i) {
      assert s.locals[i] == Fresh();
    }
  }

  lemma ActControl(relations: seq<Relation>, priority: int32, s: State, i: nat, a: Action)
    requires FanOut.Inv(s.control) && Enabled(relations, s, Act(i, a))
    ensures FanOut.Inv(Do(relations, priority, s, Act(i, a)).control)
    ensures StateRank(Do(relations, priority, s, Act(i, a))) < StateRank(s)
  {
    var l' := ActLocal(StoredOf(s.backend, relations[i].origin), s.locals[i], a, priority);
    TotalOfUpdate(s.locals, LocalRank, i, l');
    if l'.phase.Ended? {
      OfferStep(s.control, i, ResultFor(relations[i], l'));
    }
  }

  lemma ActWorker(relations: seq<Relation>, priority: int32, m: Backend, s: State, i: nat, a: Action, j: nat)
    requires Sound(relations, m, s) && Enabled(relations, s, Act(i, a)) && j < |relations|
    ensures WorkerSound(relations, Do(relations, priority, s, Act(i, a)), j)
  {
    assert WorkerSound(relations, s, i) && WorkerSound(relations, s, j);
    ActKeepsShape(StoredOf(s.backend, relations[i].origin), s.locals[i], a, priority);
  }

  lemma ActUntouched(relations: seq<Relation>, priority: int32, m: Backend, s: State, i: nat, a: Action)
    requires Untouched(relations, m, s) && Enabled(relations, s, Act(i, a))
    ensures Untouched(relations, m, Do(relations, priority, s, Act(i, a)))
  {
    var t := Do(relations, priority, s, Act(i, a));
    assert forall bucket :: bucket != relations[i].origin ==> StoredOf(t.backend, bucket) == StoredOf(s.backend, bucket);
  }

  lemma StepSound(relations: seq<Relation>, priority: int32, m: Backend, s: State, e: Event)
    requires Sound(relations, m, s) && Enabled(relations, s, e)
    ensures Sound(relations, m, Do(relations, priority, s, e))
    ensures StateRank(Do(relations, priority, s, e)) < StateRank(s)
  {
    var t := Do(relations, priority, s, e);
    match e
    case StartNext =>
      SpawnStep(s.control);
      forall j: nat | j < |relations| ensures WorkerSound(relations, t, j) {
        assert WorkerSound(relations, s, j);
      }
    case ReceiveNext =>
      ReceiveStep(s.control);
      forall j: nat | j < |relations| ensures WorkerSound(relations, t, j) {
        assert WorkerSound(relations, s, j);
      }
    case Act(i, a) =>
      ActControl(relations, priority, s, i, a);
      ActUntouched(relations, priority, m, s, i, a);
      forall j: nat | j < |relations| ensures WorkerSound(relations, t, j) {
        ActWorker(relations, priority, m, s, i, a, j);
      }
  }

  /** A call leaves the other workers' buckets alone. */
  lemma ActOthers(relations: seq<Relation>, priority: int32, m: Backend, s: State, i: nat, a: Action, j: nat)
    requires DistinctOrigins(relations) && Valid(relations, priority, m, s)
    requires Enabled(relations, s, Act(i, a)) && j < |relations| && j != i
    ensures WorkerValid(relations, priority, m, Do(relations, priority, s, Act(i, a)), j)
  {
    assert WorkerValid(relations, priority, m, s, j);
    assert relations[j].origin != relations[i].origin;
  }

  lemma ActOwn(relations: seq<Relation>, priority: int32, m: Backend, s: State, i: nat, a: Action)
    requires Valid(relations, priority, m, s) && Enabled(relations, s, Act(i, a))
    ensures WorkerValid(relations, priority, m, Do(relations, priority, s, Act(i, a)), i)
  {
    var bucket := relations[i].origin;
    assert WorkerValid(relations, priority, m, s, i);
    ActKeeps(StoredOf(m, bucket), StoredOf(s.backend, bucket), s.locals[i], a, priority);
  }

  lemma StepValid(relations: seq<Relation>, priority: int32, m: Backend, s: State, e: Event)
    requires DistinctOrigins(relations) && Valid(relations, priority, m, s) && Enabled(relations, s, e)
    ensures Valid(relations, priority, m, Do(relations, priority, s, e))
  {
    var t := Do(relations, priority, s, e);
    StepSound(relations, priority, m, s, e);
    forall j: nat | j < |relations| ensures WorkerValid(relations, priority, m, t, j) {
      assert WorkerValid(relations, priority, m, s, j);
      match e
      case Act(i, a) =>
        if j == i {
          ActOwn(relations, priority, m, s, i, a);
        } else {
          ActOthers(relations, priority, m, s, i, a, j);
        }
      case _ =>
    }
  }

  /** No run has more than seven steps a bucket, and at every moment each worker's
      variables, its result and the buckets of no relation are as they should. */
  lemma {:induction false} RunSound(relations: seq<Relation>, priority: int32, m: Backend,
                                    states: seq<State>, events: seq<Event>, k: nat)
    requires IsRun(relations, priority, m, states, events) && k < |states|
    ensures Sound(relations, m, states[k])
    ensures StateRank(states[k]) + k <= 7 * |relations|
  {
    if k == 0 {
      InitValid(relations, priority, m);
      RankOfStart<RemoteBucketResult>(|relations|);
      TotalOfCopies(|relations|, Fresh(), LocalRank);
    } else {
      RunSound(relations, priority, m, states, events, k - 1);
      StepSound(relations, priority, m, states[k - 1], events[k - 1]);
    }
  }

  /** With distinct origins each bucket is at every moment what its worker accounts for. */
  lemma {:induction false} RunValid(relations: seq<Relation>, priority: int32, m: Backend,
                                    states: seq<State>, events: seq<Event>, k: nat)
    requires DistinctOrigins(relations) && IsRun(relations, priority, m, states, events) && k < |states|
    ensures Valid(relations, priority, m, states[k])
  {
    if k == 0 {
      InitValid(relations, priority, m);
    } else {
      RunValid(relations, priority, m, states, events, k - 1);
      StepValid(relations, priority, m, states[k - 1], events[k - 1]);
    }
  }

  /** A call that a busy worker can make now. */
  function SomeAction(l: Local): Action {
    match l.phase
    case Reading => Read
    case Setting => SetRule("id")
    case Compensating => Compensate
    case _ => AddTargetFails("error")
  }

  /** No run deadlocks: until all results have been received, some step is possible. */
  lemma RunNeverStuck(relations: seq<Relation>, priority: int32, m: Backend, states: seq<State>, events: seq<Event>)
    requires IsRun(relations, priority, m, states, events)
    requires !Finished(states[|events|].control)
    ensures exists e :: Enabled(relations, states[|events|], e)
  {
    var s := states[|events|];
    RunSound(relations, priority, m, states, events, |events|);
    NeverStuck(s.control);
    var i := |s.control.received|;
    if CanSpawn(s.control) {
      assert Enabled(relations, s, StartNext);
    } else if CanReceive(s.control) {
      assert Enabled(relations, s, ReceiveNext);
    } else {
      assert WorkerSound(relations, s, i);
      assert Enabled(relations, s, Act(i, SomeAction(s.locals[i])));
    }
  }

  // ---------- what a complete run has done ----------

  /** The worker's bucket has a target that no rule names, and that the worker has made. */
  ghost predicate LeavesOrphan(relations: seq<Relation>, m: Backend, s: State, i: nat)
    requires i < |relations|
  {
    var before, after := StoredOf(m, relations[i].origin), StoredOf(s.backend, relations[i].origin);
    exists t :: t in after.targets && t !in before.targets && !Names(after.rules, t)
  }

  lemma OrphanIff(start: Stored, b: Stored, l: Local, priority: int32)
    requires LocalValid(start, l, priority) && Accounts(start, b, l) && l.phase.Ended?
    ensures (exists t :: t in b.targets && t !in start.targets && !Names(b.rules, t)) <==>
            l.arn != "" && l.rule == None && !l.undone
  {
    if l.rule.Some? {
      assert l.rule.value in b.rules;
      assert Names(b.rules, l.arn);
    } else if l.arn != "" && !l.undone {
      assert l.arn in b.targets && l.arn !in start.targets;
      assert !Names(b.rules, l.arn);
    }
  }

  /** Whatever the origins are: the i-th result is for the i-th relation, and its error is
      empty exactly when both the target and the rule were created. */
  lemma RunAnswers(relations: seq<Relation>, priority: int32, m: Backend, states: seq<State>, events: seq<Event>, i: nat)
    requires IsRun(relations, priority, m, states, events) && i < |relations|
    requires Finished(states[|events|].control)
    ensures var s := states[|events|];
      var r, l := s.control.received, s.locals;
      && |r| == |relations| == |l|
      && r[i].origin == relations[i].origin && r[i].target == relations[i].destination
      && (r[i].error == "" <==> l[i].arn != "" && l[i].rule.Some?)
      && r[i].error == l[i].message && l[i].phase.Ended?
  {
    var s := states[|events|];
    RunSound(relations, priority, m, states, events, |events|);
    AllReturned(s.control);
    assert WorkerSound(relations, s, i);
  }

  /** With distinct origins, a success has added the target and the rule that names it; a
      failure has changed no rule, and has left a target over exactly when the target had
      been created and its delete failed. */
  lemma RunResults(relations: seq<Relation>, priority: int32, m: Backend, states: seq<State>, events: seq<Event>, i: nat)
    requires DistinctOrigins(relations) && IsRun(relations, priority, m, states, events) && i < |relations|
    requires Finished(states[|events|].control)
    ensures var s := states[|events|];
      var r, l := s.control.received, s.locals;
      var before, after := StoredOf(m, relations[i].origin), StoredOf(s.backend, relations[i].origin);
      && |r| == |relations| == |l|
      && (r[i].error == "" ==>
            && l[i].rule.Some?
            && after.targets == before.targets + {l[i].arn} && l[i].arn !in before.targets
            && after.rules == (if l[i].read then before.rules else []) + [l[i].rule.value]
            && l[i].rule.value.destination == l[i].arn)
      && (r[i].error != "" ==> after.rules == before.rules)
      && (r[i].error != "" && (l[i].arn == "" || l[i].undone) ==>
            after.targets == if l[i].arn == "" && l[i].undone then WithoutEmpty(before.targets) else before.targets)
      && (LeavesOrphan(relations, m, s, i) <==> l[i].arn != "" && r[i].error != "" && !l[i].undone)
  {
    var s := states[|events|];
    RunAnswers(relations, priority, m, states, events, i);
    RunValid(relations, priority, m, states, events, |events|);
    assert WorkerValid(relations, priority, m, s, i);
    var bucket := relations[i].origin;
    OrphanIff(StoredOf(m, bucket), StoredOf(s.backend, bucket), s.locals[i], priority);
  }

  /** A bucket keeps the rules that it had unless the reading of its configuration failed
      and the new rule was stored all the same: then they are overwritten. */
  lemma OldRulesKeptIff(relations: seq<Relation>, priority: int32, m: Backend, states: seq<State>, events: seq<Event>, i: nat)
    requires DistinctOrigins(relations) && IsRun(relations, priority, m, states, events) && i < |relations|
    requires Finished(states[|events|].control)
    ensures var s := states[|events|];
      |s.locals| == |relations| &&
      (StoredOf(m, relations[i].origin).rules <= StoredOf(s.backend, relations[i].origin).rules <==>
         s.locals[i].read || s.locals[i].rule == None || StoredOf(m, relations[i].origin).rules == [])
  {
    var s := states[|events|];
    RunValid(relations, priority, m, states, events, |events|);
    assert WorkerValid(relations, priority, m, s, i);
    var before, l := StoredOf(m, relations[i].origin), s.locals[i];
    if l.rule.Some? && before.rules != [] {
      assert before.rules[0] in before.rules;
      assert before.rules[0].destination != l.arn;
      assert before.rules[0] != l.rule.value;
    }
  }

  /** A name longer than all others, so none of them. */
  lemma {:induction false} NewName(names: set<string>) returns (n: string)
    ensures n != "" && forall x :: x in names ==> |x| < |n|
  {
    if names == {} {
      n := "a";
    } else {
      var x :| x in names;
      var m := NewName(names - {x});
      n := if |x| < |m| then m else x + "a";
    }
  }

  /** The state of a call with one relation. */
  function One(m: Backend, l: Local, w: Worker<RemoteBucketResult>, received: seq<RemoteBucketResult>): State {
    State(m, [l], Control([w], if w.Unspawned? then 0 else 1, received))
  }

  lemma OneStarts(relation: Relation, priority: int32, m: Backend)
    ensures Init([relation], m) == One(m, Fresh(), Unspawned, [])
    ensures Enabled([relation], One(m, Fresh(), Unspawned, []), StartNext)
    ensures Do([relation], priority, One(m, Fresh(), Unspawned, []), StartNext) == One(m, Fresh(), Busy, [])
  {
    var start: seq<Worker<RemoteBucketResult>> := [Unspawned];
    assert start[0 := Busy] == [Busy];
  }

  lemma OneActs(relation: Relation, priority: int32, m: Backend, l: Local, a: Action)
    requires CanAct(StoredOf(m, relation.origin), l, a)
    ensures Enabled([relation], One(m, l, Busy, []), Act(0, a))
    ensures var b := StoredOf(m, relation.origin);
      var l' := ActLocal(b, l, a, priority);
      Do([relation], priority, One(m, l, Busy, []), Act(0, a)) ==
      One(m[relation.origin := ActBucket(b, l, a, priority)], l',
          if l'.phase.Ended? then Sending(ResultFor(relation, l')) else Busy, [])
  {
    var l' := ActLocal(StoredOf(m, relation.origin), l, a, priority);
    assert [l][0 := l'] == [l'];
    assert [Busy][0 := Sending(ResultFor(relation, l'))] == [Sending(ResultFor(relation, l'))];
  }

  lemma OneReceives(relation: Relation, priority: int32, m: Backend, l: Local, r: RemoteBucketResult)
    ensures Enabled([relation], One(m, l, Sending(r), []), ReceiveNext)
    ensures Do([relation], priority, One(m, l, Sending(r), []), ReceiveNext) == One(m, l, Returned, [r])
  {
    assert [Sending(r)][0 := Returned] == [Returned] && [] + [r] == [r];
  }

  /** The worker makes the target, cannot read the configuration, and stores its rule all
      the same. Such a run exists for every bucket, whatever its rules are; at its end
      they are all gone, and the call reports a success. */
  lemma OldRulesLost(relation: Relation, priority: int32, m: Backend) returns (states: seq<State>, events: seq<Event>)
    ensures IsRun([relation], priority, m, states, events) && Finished(states[|events|].control)
    ensures var s := states[|events|];
      && s.control.received == [RemoteBucketResult(relation.origin, relation.destination, "")]
      && |StoredOf(s.backend, relation.origin).rules| == 1
      && forall r :: r in StoredOf(m, relation.origin).rules ==> r !in StoredOf(s.backend, relation.origin).rules
  {
    var bucket, b0 := relation.origin, StoredOf(m, relation.origin);
    var arn := NewArn(b0);
    var a1, a2, a3 := AddTarget(arn), ReadFails, SetRule("new");
    var l0 := Fresh();
    var l1, b1 := ActLocal(b0, l0, a1, priority), ActBucket(b0, l0, a1, priority);
    var l2, b2 := ActLocal(b1, l1, a2, priority), ActBucket(b1, l1, a2, priority);
    var l3, b3 := ActLocal(b2, l2, a3, priority), ActBucket(b2, l2, a3, priority);
    var m1 := m[bucket := b1];
    var m2 := m1[bucket := b2];
    var m3 := m2[bucket := b3];
    var r := ResultFor(relation, l3);
    OneStarts(relation, priority, m);
    OneActs(relation, priority, m, l0, a1);
    OneActs(relation, priority, m1, l1, a2);
    OneActs(relation, priority, m2, l2, a3);
    OneReceives(relation, priority, m3, l3, r);
    states := [One(m, l0, Unspawned, []), One(m, l0, Busy, []), One(m1, l1, Busy, []), One(m2, l2, Busy, []),
               One(m3, l3, Sending(r), []), One(m3, l3, Returned, [r])];
    events := [StartNext, Act(0, a1), Act(0, a2), Act(0, a3), ReceiveNext];
  }

  lemma NewArn(b: Stored) returns (arn: string)
    ensures arn != "" && arn !in b.targets && !Names(b.rules, arn)
  {
    var named := set r | r in b.rules :: r.destination;
    arn := NewName(b.targets + named);
    assert forall r :: r in b.rules ==> r.destination in named;
  }

  /** Buckets that no relation names are not touched by any run. */
  lemma OthersUntouched(relations: seq<Relation>, priority: int32, m: Backend, states: seq<State>, events: seq<Event>,
                        k: nat, bucket: string)
    requires IsRun(relations, priority, m, states, events) && k < |states| && IsOther(relations, bucket)
    ensures StoredOf(states[k].backend, bucket) == StoredOf(m, bucket)
  {
    RunSound(relations, priority, m, states, events, k);
  }

  // ---------- the call ----------

  /** The scheduler and the server choose the next step freely. */
  method NextEvent(relations: seq<Relation>, ghost m: Backend, s: State) returns (e: Event)
    requires Sound(relations, m, s) && !Finished(s.control)
    ensures Enabled(relations, s, e)
  {
    NeverStuck(s.control);
    var busy := set i: nat | i < |s.control.workers| && IsBusy(s.control, i);
    assert IsBusy(s.control, |s.control.received|) ==> |s.control.received| in busy;
    if
    case CanSpawn(s.control) => e := StartNext;
    case CanReceive(s.control) => e := ReceiveNext;
    case busy != {} =>
      var i :| i in busy;
      assert WorkerSound(relations, s, i);
      var a: Action := *;
      if CanAct(StoredOf(s.backend, relations[i].origin), s.locals[i], a) {
        e := Act(i, a);
      } else {
        e := Act(i, SomeAction(s.locals[i]));
      }
  }

  method SetMultiBucketReplication(relations: seq<Relation>, priority: int32, m: Backend)
    returns (resultsList: seq<RemoteBucketResult>, backend: Backend, ghost states: seq<State>, ghost events: seq<Event>)
    ensures IsRun(relations, priority, m, states, events) && Finished(states[|events|].control)
    ensures resultsList == states[|events|].control.received && backend == states[|events|].backend
    ensures |resultsList| == |relations|
  {
    var s := Init(relations, m);
    states, events := [s], [];
    InitValid(relations, priority, m);
    while !Finished(s.control)
      invariant IsRun(relations, priority, m, states, events) && s == states[|events|]
      invariant Sound(relations, m, s)
      decreases StateRank(s)
    {
      var e := NextEvent(relations, m, s);
      StepSound(relations, priority, m, s, e);
      s := Do(relations, priority, s, e);
      states, events := states + [s], events + [e];
    }
    resultsList, backend := s.control.received, s.backend;
  }
}
