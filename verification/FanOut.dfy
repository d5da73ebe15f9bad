/** The fan-out that the console uses for parallel updates: one goroutine per item,
    each with an unbuffered result channel of its own, and a caller that starts all of
    them and then receives from the channels in order. Only the control is here; what
    a busy worker does to the server is up to the module that uses it. */
module FanOut {
  import opened Counting
  import opened Wrappers

  /** A goroutine: not started, at work, blocked in its one send, or returned with its
      channel closed. */
  datatype Worker<R> = Unspawned | Busy | Sending(result: R) | Returned

  /** The caller has started the first `spawned` workers and received `received`. */
  datatype Control<R> = Control(workers: seq<Worker<R>>, spawned: nat, received: seq<R>)

  function Start<R>(n: nat): Control<R> {
    Control(seq(n, _ => Unspawned), 0, [])
  }

  /** What every reachable control state satisfies. */
  ghost predicate Inv<R>(c: Control<R>) {
    && |c.received| <= c.spawned <= |c.workers|
    && (c.received != [] ==> c.spawned == |c.workers|)
    && (forall j :: 0 <= j < |c.received| ==> c.workers[j].Returned?)
    && (forall j :: |c.received| <= j < c.spawned ==> c.workers[j].Busy? || c.workers[j].Sending?)
    && (forall j :: c.spawned <= j < |c.workers| ==> c.workers[j].Unspawned?)
  }

  predicate Finished<R>(c: Control<R>) {
    |c.received| == |c.workers|
  }

  /** The loop that starts the goroutines. */
  predicate CanSpawn<R>(c: Control<R>) {
    c.spawned < |c.workers|
  }

  function Spawn<R>(c: Control<R>): Control<R>
    requires CanSpawn(c)
  {
    c.(workers := c.workers[c.spawned := Busy], spawned := c.spawned + 1)
  }

  predicate IsBusy<R>(c: Control<R>, i: nat) {
    i < |c.workers| && c.workers[i].Busy?
  }

  /** A worker reaches its send and blocks there. */
  function Offer<R>(c: Control<R>, i: nat, r: R): Control<R>
    requires IsBusy(c, i)
  {
    c.(workers := c.workers[i := Sending(r)])
  }

  /** The rendezvous on the channel the caller waits on. */
  predicate CanReceive<R>(c: Control<R>) {
    && c.spawned == |c.workers|
    && |c.received| < |c.workers|
    && c.workers[|c.received|].Sending?
  }

  function Receive<R>(c: Control<R>): Control<R>
    requires CanReceive(c)
  {
    var i := |c.received|;
    c.(workers := c.workers[i := Returned], received := c.received + [c.workers[i].result])
  }

  /** What worker `i` sent or is about to send. */
  function ResultOf<R>(c: Control<R>, i: nat): Option<R> {
    if i < |c.received| then Some(c.received[i])
    else if i < |c.workers| && c.workers[i].Sending? then Some(c.workers[i].result)
    else None
  }

  function Weight<R>(w: Worker<R>): nat {
    match w case Unspawned => 3 case Busy => 2 case Sending(_) => 1 case Returned => 0
  }

  /** Control steps still to come. */
  function Rank<R>(workers: seq<Worker<R>>): nat {
    Total(workers, (w: Worker<R>) => Weight(w))
  }

  lemma RankOfUpdate<R>(workers: seq<Worker<R>>, i: nat, w: Worker<R>)
    requires i < |workers|
    ensures Rank(workers[i := w]) == Rank(workers) - Weight(workers[i]) + Weight(w)
  {
    TotalOfUpdate(workers, (w: Worker<R>) => Weight(w), i, w);
  }

  lemma RankOfStart<R>(n: nat)
    ensures Rank(Start<R>(n).workers) == 3 * n
  {
    TotalOfCopies(n, Unspawned, (w: Worker<R>) => Weight(w));
  }

  lemma StartInv<R>(n: nat)
    ensures Inv(Start<R>(n))
    ensures forall i :: ResultOf(Start<R>(n), i) == None && !IsBusy(Start<R>(n), i)
  {
  }

  /** Starting a worker gives it no result and takes none from the others. */
  lemma SpawnStep<R>(c: Control<R>)
    requires Inv(c) && CanSpawn(c)
    ensures Inv(Spawn(c))
    ensures forall i :: ResultOf(Spawn(c), i) == ResultOf(c, i)
    ensures forall i :: IsBusy(Spawn(c), i) <==> IsBusy(c, i) || i == c.spawned
    ensures Rank(Spawn(c).workers) < Rank(c.workers)
  {
    RankOfUpdate(c.workers, c.spawned, Busy);
  }

  lemma OfferStep<R>(c: Control<R>, i: nat, r: R)
    requires Inv(c) && IsBusy(c, i)
    ensures Inv(Offer(c, i, r))
    ensures forall j :: ResultOf(Offer(c, i, r), j) == if j == i then Some(r) else ResultOf(c, j)
    ensures forall j :: IsBusy(Offer(c, i, r), j) <==> IsBusy(c, j) && j != i
    ensures Rank(Offer(c, i, r).workers) < Rank(c.workers)
  {
    RankOfUpdate(c.workers, i, Sending(r));
  }

  /** A receive moves a result from the sender to the caller and alters none. */
  lemma ReceiveStep<R>(c: Control<R>)
    requires Inv(c) && CanReceive(c)
    ensures Inv(Receive(c))
    ensures forall i :: ResultOf(Receive(c), i) == ResultOf(c, i)
    ensures forall i :: IsBusy(Receive(c), i) <==> IsBusy(c, i)
    ensures Rank(Receive(c).workers) < Rank(c.workers)
  {
    RankOfUpdate(c.workers, |c.received|, Returned);
  }

  /** No deadlock: until the caller has every result, either it can start a worker,
      or it can receive, or the worker it waits for is still at work. */
  lemma NeverStuck<R>(c: Control<R>)
    requires Inv(c) && !Finished(c)
    ensures CanSpawn(c) || CanReceive(c) || IsBusy(c, |c.received|)
  {
  }

  /** When the caller is done, every send has been received and every goroutine has
      returned, and `received` holds the results in the order of the items. */
  lemma AllReturned<R>(c: Control<R>)
    requires Inv(c) && Finished(c)
    ensures forall i :: 0 <= i < |c.workers| ==> c.workers[i].Returned? && ResultOf(c, i) == Some(c.received[i])
  {
  }
}
