/** The locked parts of the background-job code, over the linked list they use. */
module BioQueue {
  import opened AdList
  import opened BackgroundJobs

  class BioQueue {
    const jobs: List<Job>
    var pending: nat

    ghost predicate Valid()
      reads this, jobs, jobs.nodes
    {
      jobs.Valid() && pending == |jobs.nodes|
    }

    /** One type's share of `bioInit`. */
    constructor ()
      ensures Valid() && jobs.Contents() == [] && pending == 0 && fresh(jobs)
    {
      jobs := new List<Job>();
      pending := 0;
    }

    /** `bioCreateBackgroundJob`, between lock and unlock. */
    method CreateBackgroundJob(job: Job)
      requires Valid()
      modifies this, jobs, jobs.nodes
      ensures Valid() && jobs.Contents() == old(jobs.Contents()) + [job] && pending == old(pending) + 1
    {
      var _ := jobs.AddNodeTail(job);
      pending := pending + 1;
    }

    /** The worker's look at the first job, which stays in the queue while it is processed. */
    method First() returns (ln: ListNode?<Job>)
      requires Valid()
      ensures if jobs.nodes == [] then ln == null else ln == jobs.nodes[0] && ln.value == jobs.Contents()[0]
    {
      if jobs.len == 0 { return null; }
      ln := jobs.head;
    }

    /** The worker removes the job it has processed; jobs queued meanwhile are behind it. */
    method Remove(ln: ListNode<Job>)
      requires Valid() && jobs.nodes != [] && ln == jobs.nodes[0]
      modifies this, jobs, jobs.nodes
      ensures Valid() && jobs.Contents() == old(jobs.Contents())[1..] && pending == old(pending) - 1
    {
      jobs.DelNode(ln, 0);
      pending := pending - 1;
      assert old(jobs.Contents())[..0] == [];
    }

    /** `bioPendingJobsOfType`. */
    method PendingJobs() returns (n: nat)
      requires Valid()
      ensures n == |jobs.Contents()|
    {
      n := pending;
    }
  }

  // ---------------------------------------------------------------- the locked part is atomic

  /** The step is one of producer `p`. */
  predicate StepOf(st: Step, p: nat) {
    (st.Call? || st.Lock? || st.Queue? || st.Count? || st.Unlock?) && st.p == p
  }

  predicate NoneOf(sts: seq<Step>, p: nat) {
    forall i :: 0 <= i < |sts| ==> !StepOf(sts[i], p)
  }

  /** Same queue, counter, lock and history of submissions, and producer `p` where it was. */
  predicate SameFor(s: State, t: State, p: nat) {
    && t.queue == s.queue && t.pending == s.pending && t.lock == s.lock && t.submitted == s.submitted
    && p in s.producers && p in t.producers && t.producers[p] == s.producers[p]
  }

  /** While producer `p` holds the lock, whatever the other threads do leaves the queue alone. */
  lemma {:induction false} OthersWait(s: State, sts: seq<Step>, p: nat)
    requires Inv(s) && s.lock == AProducer(p) && Runs(s, sts) && NoneOf(sts, p)
    ensures SameFor(s, Final(s, sts), p) && Inv(Final(s, sts))
    decreases |sts|
  {
    hide CountOk, OrderOk;
    if sts != [] {
      StepKeepsLock(s, sts[0]);
      StepKeepsCount(s, sts[0]);
      StepKeepsOrder(s, sts[0]);
      assert !StepOf(sts[0], p);
      assert SameFor(s, Next(s, sts[0]), p);
      OthersWait(Next(s, sts[0]), sts[1..], p);
    }
  }

  lemma {:induction false} RunSplit(s: State, a: seq<Step>, b: seq<Step>)
    requires Runs(s, a + b)
    ensures Runs(s, a) && Runs(Final(s, a), b) && Final(s, a + b) == Final(Final(s, a), b)
    decreases |a|
  {
    hide Enabled, Next;
    if a == [] {
      assert a + b == b;
    } else {
      assert (a + b)[0] == a[0] && (a + b)[1..] == a[1..] + b;
      RunSplit(Next(s, a[0]), a[1..], b);
    }
  }

  /** One step of `p` followed by steps of other threads, while `p` holds the lock. */
  lemma StepThenOthers(s: State, st: Step, others: seq<Step>, rest: seq<Step>, p: nat)
    requires Inv(s) && Runs(s, [st] + others + rest) && NoneOf(others, p)
    requires Enabled(s, st) ==> Next(s, st).lock == AProducer(p)
    ensures Enabled(s, st) && Runs(Next(s, st), others)
    ensures var t := Final(Next(s, st), others);
      && Runs(t, rest) && Inv(t) && SameFor(Next(s, st), t, p)
      && Final(s, [st] + others + rest) == Final(t, rest)
  {
    hide Enabled, Next, CountOk, OrderOk, LockOk;
    var run := [st] + others + rest;
    assert run[0] == st && run[1..] == others + rest;
    StepKeepsLock(s, st);
    StepKeepsCount(s, st);
    StepKeepsOrder(s, st);
    RunSplit(Next(s, st), others, rest);
    OthersWait(Next(s, st), others, p);
  }

  /** However the other threads' steps are interleaved with those of a producer between its lock and its
      unlock, the producer's locked part does to the queue and the counter what the method does. */
  lemma SubmitIsAtomic(s: State, p: nat, job: Job, a: seq<Step>, b: seq<Step>, c: seq<Step>)
    requires Inv(s) && Is(s, p, Wants(job)) && NoneOf(a, p) && NoneOf(b, p) && NoneOf(c, p)
    requires Runs(s, [Lock(p)] + a + ([Queue(p)] + b + ([Count(p)] + c + [Unlock(p)])))
    ensures var t := Final(s, [Lock(p)] + a + ([Queue(p)] + b + ([Count(p)] + c + [Unlock(p)])));
      && t.queue == s.queue + [job] && t.submitted == s.submitted + [job]
      && t.pending == s.pending + 1 && t.lock == Nobody && Is(t, p, Outside)
  {
    hide CountOk, OrderOk, LockOk;
    var last := [Unlock(p)];
    StepThenOthers(s, Lock(p), a, [Queue(p)] + b + ([Count(p)] + c + last), p);
    var x := Final(Next(s, Lock(p)), a);
    StepThenOthers(x, Queue(p), b, [Count(p)] + c + last, p);
    var y := Final(Next(x, Queue(p)), b);
    StepThenOthers(y, Count(p), c, last, p);
    var z := Final(Next(y, Count(p)), c);
    assert last[1..] == [] && Final(z, last) == Next(z, Unlock(p));
  }
}
