/** Background jobs of one type: producers append to a queue under a lock, and a worker thread
    processes the first job without the lock and then removes it.  Every interleaving of their
    steps is covered. */
module BackgroundJobs {
  type Job = int

  datatype Holder = Nobody | TheWorker | AProducer(p: nat)

  /** Where a producer is in `bioCreateBackgroundJob`. */
  datatype Producer =
    | Outside
    | Wants(job: Job)
    | Inside(job: Job)
    | Queued
    | Counted

  /** Where the worker is in `bioProcessBackgroundJobs`. */
  datatype Worker =
    | Waiting
    | AtLoop
    | Working(job: Job)
    | Done(job: Job)
    | Deleting(job: Job)
    | Discounting

  /** The queue, the pending counter and the lock; then, as history, the jobs in the order they were queued
      and in the order they were finished. */
  datatype State = State(queue: seq<Job>, pending: int, lock: Holder, worker: Worker, producers: map<nat, Producer>,
                         submitted: seq<Job>, finished: seq<Job>)

  datatype Step =
    | Call(p: nat, job: Job)
    | Lock(p: nat)
    | Queue(p: nat)
    | Count(p: nat)
    | Unlock(p: nat)
    | WorkerLocks
    | WorkerWaits
    | WorkerTakes
    | WorkerFinishes
    | WorkerRelocks
    | WorkerDeletes
    | WorkerDiscounts

  predicate Is(s: State, p: nat, at: Producer) {
    p in s.producers && s.producers[p] == at
  }

  predicate Enabled(s: State, st: Step) {
    match st
    case Call(p, _) => Is(s, p, Outside)
    case Lock(p) => p in s.producers && s.producers[p].Wants? && s.lock == Nobody
    case Queue(p) => p in s.producers && s.producers[p].Inside?
    case Count(p) => Is(s, p, Queued)
    case Unlock(p) => Is(s, p, Counted)
    case WorkerLocks => s.worker == Waiting && s.lock == Nobody
    case WorkerWaits => s.worker == AtLoop && s.queue == []
    case WorkerTakes => s.worker == AtLoop && s.queue != []
    case WorkerFinishes => s.worker.Working?
    case WorkerRelocks => s.worker.Done? && s.lock == Nobody
    case WorkerDeletes => s.worker.Deleting? && s.queue != []
    case WorkerDiscounts => s.worker == Discounting
  }

  function Next(s: State, st: Step): State
    requires Enabled(s, st)
  {
    match st
    case Call(p, job) => s.(producers := s.producers[p := Wants(job)])
    case Lock(p) => s.(producers := s.producers[p := Inside(s.producers[p].job)], lock := AProducer(p))
    case Queue(p) =>
      var job := s.producers[p].job;
      s.(producers := s.producers[p := Queued], queue := s.queue + [job], submitted := s.submitted + [job])
    case Count(p) => s.(producers := s.producers[p := Counted], pending := s.pending + 1)
    case Unlock(p) => s.(producers := s.producers[p := Outside], lock := Nobody)
    case WorkerLocks => s.(worker := AtLoop, lock := TheWorker)
    case WorkerWaits => s.(worker := Waiting, lock := Nobody)
    case WorkerTakes => s.(worker := Working(s.queue[0]), lock := Nobody)
    case WorkerFinishes => s.(worker := Done(s.worker.job), finished := s.finished + [s.worker.job])
    case WorkerRelocks => s.(worker := Deleting(s.worker.job), lock := TheWorker)
    case WorkerDeletes => s.(worker := Discounting, queue := s.queue[1..])
    case WorkerDiscounts => s.(worker := AtLoop, pending := s.pending - 1)
  }

  // ---------------------------------------------------------------- the invariant

  predicate HoldsLock(x: Producer) {
    x.Inside? || x.Queued? || x.Counted?
  }

  /** The lock is held by whoever is in the locked part. */
  predicate LockOk(s: State) {
    && (forall p :: p in s.producers ==> (HoldsLock(s.producers[p]) <==> s.lock == AProducer(p)))
    && (s.lock.AProducer? ==> s.lock.p in s.producers)
    && (s.lock == TheWorker <==> s.worker.AtLoop? || s.worker.Deleting? || s.worker.Discounting?)
  }

  /** The counter lags behind the queue only inside a locked part. */
  predicate CountOk(s: State) {
    s.pending == |s.queue|
                 - (if s.lock.AProducer? && Is(s, s.lock.p, Queued) then 1 else 0)
                 + (if s.worker == Discounting then 1 else 0)
  }

  /** The queued jobs that have not been processed. */
  function Unfinished(s: State): seq<Job> {
    if (s.worker.Done? || s.worker.Deleting?) && s.queue != [] then s.queue[1..] else s.queue
  }

  /** Finished jobs, then unfinished ones, are the submitted jobs in order; the worker's job is the first queued. */
  predicate OrderOk(s: State) {
    && s.finished + Unfinished(s) == s.submitted
    && (s.worker.Working? || s.worker.Done? || s.worker.Deleting? ==> s.queue != [] && s.queue[0] == s.worker.job)
  }

  predicate Inv(s: State) {
    LockOk(s) && CountOk(s) && OrderOk(s)
  }

  lemma StepKeepsLock(s: State, st: Step)
    requires LockOk(s) && Enabled(s, st)
    ensures LockOk(Next(s, st))
  {
  }

  lemma StepKeepsCount(s: State, st: Step)
    requires LockOk(s) && CountOk(s) && Enabled(s, st)
    ensures CountOk(Next(s, st))
  {
  }

  lemma StepKeepsOrder(s: State, st: Step)
    requires LockOk(s) && OrderOk(s) && Enabled(s, st)
    ensures OrderOk(Next(s, st))
  {
    var t := Next(s, st);
    match st
    case Queue(p) =>
      assert Unfinished(t) == Unfinished(s) + [s.producers[p].job];
    case WorkerFinishes =>
      assert s.queue == [s.queue[0]] + s.queue[1..];
    case _ =>
  }

  predicate Runs(s: State, sts: seq<Step>)
    decreases |sts|
  {
    sts == [] || (Enabled(s, sts[0]) && Runs(Next(s, sts[0]), sts[1..]))
  }

  function Final(s: State, sts: seq<Step>): State
    requires Runs(s, sts)
    decreases |sts|
  {
    if sts == [] then s else Final(Next(s, sts[0]), sts[1..])
  }

  /** No job has been submitted, and nobody holds the lock. */
  predicate Initial(s: State) {
    && s.queue == [] && s.pending == 0 && s.lock == Nobody && s.worker == Waiting
    && s.submitted == [] && s.finished == []
    && (forall p :: p in s.producers ==> s.producers[p].Outside?)
  }

  lemma {:induction false} RunKeepsInv(s: State, sts: seq<Step>)
    requires Inv(s) && Runs(s, sts)
    ensures Inv(Final(s, sts))
    decreases |sts|
  {
    hide LockOk, CountOk, OrderOk, Enabled, Next;
    if sts != [] {
      StepKeepsLock(s, sts[0]);
      StepKeepsCount(s, sts[0]);
      StepKeepsOrder(s, sts[0]);
      RunKeepsInv(Next(s, sts[0]), sts[1..]);
    }
  }

  /** Background jobs, over every interleaving: the finished jobs followed by the unfinished ones are the
      submitted jobs in order, so each job is processed once and in turn; whenever the lock is free the
      counter is the queue's length; and a counter of 0 then means that every submitted job is finished. */
  lemma JobsRunInOrder(s: State, sts: seq<Step>)
    requires Initial(s) && Runs(s, sts)
    ensures var t := Final(s, sts);
      && t.finished + Unfinished(t) == t.submitted
      && t.finished <= t.submitted
      && (t.lock == Nobody ==> t.pending == |t.queue|)
      && (t.lock == Nobody && t.pending == 0 ==> t.finished == t.submitted)
  {
    RunKeepsInv(s, sts);
  }

  // ---------------------------------------------------------------- the worker catches up

  predicate OfWorker(st: Step) {
    st.WorkerLocks? || st.WorkerWaits? || st.WorkerTakes? || st.WorkerFinishes? || st.WorkerRelocks?
    || st.WorkerDeletes? || st.WorkerDiscounts?
  }

  /** The worker's next step. */
  function WorkerStep(s: State): Step {
    match s.worker
    case Waiting => WorkerLocks
    case AtLoop => if s.queue == [] then WorkerWaits else WorkerTakes
    case Working(_) => WorkerFinishes
    case Done(_) => WorkerRelocks
    case Deleting(_) => WorkerDeletes
    case Discounting => WorkerDiscounts
  }

  /** How many steps the worker is from having nothing to do, at most. */
  function Left(s: State): int {
    6 * |s.queue| + (match s.worker
                     case Waiting => if s.queue == [] then 0 else 3
                     case AtLoop => 1
                     case Working(_) => 0
                     case Done(_) => -1
                     case Deleting(_) => -2
                     case Discounting => 2)
  }

  lemma WorkerMovesOn(s: State)
    requires Inv(s) && !s.lock.AProducer? && !(s.worker == Waiting && s.queue == [])
    ensures Enabled(s, WorkerStep(s)) && OfWorker(WorkerStep(s))
    ensures var t := Next(s, WorkerStep(s));
      Inv(t) && !t.lock.AProducer? && t.submitted == s.submitted && 0 <= Left(t) < Left(s)
  {
    hide CountOk;
    StepKeepsLock(s, WorkerStep(s));
    StepKeepsCount(s, WorkerStep(s));
    StepKeepsOrder(s, WorkerStep(s));
  }

  /** Whenever no producer holds the lock, the worker left to itself finishes every submitted job and waits. */
  lemma {:induction false} WorkerCatchesUp(s: State) returns (sts: seq<Step>)
    requires Inv(s) && !s.lock.AProducer?
    ensures Runs(s, sts) && forall i :: 0 <= i < |sts| ==> OfWorker(sts[i])
    ensures var t := Final(s, sts);
      && t.queue == [] && t.pending == 0 && t.worker == Waiting && t.lock == Nobody
      && t.submitted == s.submitted && t.finished == s.submitted
    decreases Left(s)
  {
    if s.worker == Waiting && s.queue == [] {
      sts := [];
    } else {
      hide Inv, Left;
      WorkerMovesOn(s);
      var st := WorkerStep(s);
      var rest := WorkerCatchesUp(Next(s, st));
      sts := [st] + rest;
      assert sts[0] == st && sts[1..] == rest;
    }
  }
}
