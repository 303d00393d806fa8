/** What every interleaving of the thread pool keeps. */
module ThreadPoolSafety {
  import opened Sequences
  import opened ThreadPool

  // The counter of popped tasks.

  lemma {:induction false} ActiveUpdate(ws: seq<Worker>, i: nat, w: Worker)
    requires i < |ws|
    ensures Active(ws[i := w]) == Active(ws) - Weight(ws[i]) + Weight(w)
  {
    if i == 0 {
      assert ws[0 := w][1..] == ws[1..];
    } else {
      assert ws[i := w][1..] == ws[1..][i - 1 := w];
      ActiveUpdate(ws[1..], i - 1, w);
    }
  }

  lemma {:induction false} ActiveIdle(ws: seq<Worker>)
    ensures Active(ws) <= |ws|
    ensures Active(ws) == 0 <==> forall i :: 0 <= i < |ws| ==> Weight(ws[i]) == 0
  {
    if ws != [] {
      ActiveIdle(ws[1..]);
      assert forall i :: 0 < i < |ws| ==> ws[i] == ws[1..][i - 1];
    }
  }

  lemma {:induction false} ActiveSpawn(ws: seq<Worker>)
    ensures Active(ws + [AtTop]) == Active(ws)
  {
    if ws == [] {
      assert ws + [AtTop] == [AtTop];
    } else {
      assert (ws + [AtTop])[1..] == ws[1..] + [AtTop];
      ActiveSpawn(ws[1..]);
    }
  }

  lemma WrapShift(x: int, d: int)
    ensures Wrap(Wrap(x) + d) == Wrap(x + d)
  {
    assert x == WORD * (x / WORD) + Wrap(x);
    WrapMultiple(Wrap(x) + d, x / WORD);
  }

  lemma WrapMultiple(x: int, k: int)
    ensures Wrap(x + WORD * k) == Wrap(x)
  {
  }

  // Mutual exclusion.

  ghost predicate LockInv(s: Pool) {
    && (forall i :: 0 <= i < |s.workers| ==> (WorkerHolds(s.workers[i]) <==> s.lock == HeldByWorker(i)))
    && (s.lock.HeldByWorker? ==> s.lock.index < |s.workers|)
    && (OwnerHolds(s.owner) <==> s.lock.HeldByOwner?)
  }

  lemma LockKeptByWorker(s: Pool, i: nat)
    requires LockInv(s) && Enabled(s, WorkerStep(i))
    ensures LockInv(StepWorker(s, i))
  {
  }

  lemma LockKeptByOwner(s: Pool)
    requires LockInv(s) && GenerationInv(s) && OwnerCanStep(s)
    ensures LockInv(StepOwner(s))
  {
  }

  lemma LockKept(s: Pool, a: Action)
    requires LockInv(s) && GenerationInv(s) && Enabled(s, a)
    ensures LockInv(Apply(s, a))
  {
    match a
    case WorkerStep(i) => LockKeptByWorker(s, i);
    case OwnerStep => LockKeptByOwner(s);
    case _ =>
  }

  // Workers of one generation only: `running` rises only while no worker thread exists.

  predicate Winding(o: Owner) {
    o.Joining? || o.Rebuilding? || o.RestorePaused? || o.Creating? || o.Gone?
  }

  predicate InsideWait(o: Owner) {
    o.LockForWait? || OwnerHolds(o) || o.Sleeping?
  }

  ghost predicate GenerationInv(s: Pool) {
    && |s.workers| <= THREADS_MAX
    && (s.waiting <==> InsideWait(s.owner))
    && (s.running <==> !Winding(s.owner))
    && (s.owner.Joining? ==> forall j :: 0 <= j < s.owner.index && j < |s.workers| ==> s.workers[j].Exited?)
    && (s.owner.Rebuilding? || s.owner.Gone? ==> forall j :: 0 <= j < |s.workers| ==> s.workers[j].Exited?)
    && (s.owner.RestorePaused? || s.owner.Creating? ==> s.workers == [])
    && CarriedCount(s.owner) <= THREADS_MAX
  }

  /** The thread count the owner carries towards the next generation, if any. */
  function CarriedCount(o: Owner): nat {
    match o
    case SavePaused(n) => n
    case RestorePaused(n, _) => n
    case Creating(n) => n
    case Spawning(n) => n
    case Idle | Gone => 0
    case _ => if o.purpose.Reset? then o.purpose.count else 0
  }

  lemma GenerationKeptByOwner(s: Pool)
    requires GenerationInv(s) && OwnerCanStep(s)
    ensures GenerationInv(StepOwner(s))
  {
  }

  lemma GenerationKept(s: Pool, a: Action)
    requires GenerationInv(s) && Enabled(s, a)
    ensures GenerationInv(Apply(s, a))
  {
    match a
    case OwnerStep => GenerationKeptByOwner(s);
    case _ =>
  }

  // No worker pops an empty queue.

  predicate NeedsTask(s: Pool, w: Worker) {
    (w.Past? && s.running) || w.Cleared? || w.Popping?
  }

  ghost predicate PopInv(s: Pool) {
    && !s.fault
    && |s.queue| <= QUEUE_MAX
    && forall i :: 0 <= i < |s.workers| && NeedsTask(s, s.workers[i]) ==> s.queue != []
  }

  lemma PopKeptByWorker(s: Pool, i: nat)
    requires LockInv(s) && PopInv(s) && Enabled(s, WorkerStep(i))
    ensures PopInv(StepWorker(s, i))
  {
  }

  lemma PopKept(s: Pool, a: Action)
    requires LockInv(s) && GenerationInv(s) && PopInv(s) && Enabled(s, a)
    ensures PopInv(Apply(s, a))
  {
    match a
    case WorkerStep(i) => PopKeptByWorker(s, i);
    case _ =>
  }

  // The ledger of the task counter.

  ghost predicate LedgerInv(s: Pool) {
    s.total == Wrap(|s.queue| + Active(s.workers) - |s.uncounted|)
  }

  lemma LedgerKeptByWorker(s: Pool, i: nat)
    requires PopInv(s) && LedgerInv(s) && Enabled(s, WorkerStep(i))
    ensures LedgerInv(StepWorker(s, i))
  {
    ActiveUpdate(s.workers, i, StepWorker(s, i).workers[i]);
    match s.workers[i]
    case Decrementing => WrapShift(|s.queue| + Active(s.workers) - |s.uncounted|, -1);
    case _ =>
  }

  lemma LedgerKeptByEnqueue(s: Pool, t: Task)
    requires LedgerInv(s) && FifoInv(s) && Enabled(s, Enqueue(t))
    ensures LedgerInv(Apply(s, Enqueue(t)))
  {
    hide Active, Wrap;
    assert t !in s.uncounted;
    assert |s.uncounted + {t}| == |s.uncounted| + 1;
  }

  lemma LedgerKeptByCount(s: Pool, t: Task)
    requires LedgerInv(s) && Enabled(s, Count(t))
    ensures LedgerInv(Apply(s, Count(t)))
  {
    hide Active, Wrap;
    assert |s.uncounted - {t}| == |s.uncounted| - 1;
    WrapShift(|s.queue| + Active(s.workers) - |s.uncounted|, 1);
  }

  lemma LedgerKeptByOwner(s: Pool)
    requires LedgerInv(s) && GenerationInv(s)
    ensures LedgerInv(StepOwner(s))
  {
    ActiveSpawn(s.workers);
    ActiveIdle(s.workers);
  }

  lemma LedgerKept(s: Pool, a: Action)
    requires GenerationInv(s) && PopInv(s) && HistoryInv(s) && LedgerInv(s) && Enabled(s, a)
    ensures LedgerInv(Apply(s, a))
  {
    match a
    case Enqueue(t) => LedgerKeptByEnqueue(s, t);
    case Count(t) => LedgerKeptByCount(s, t);
    case WorkerStep(i) => LedgerKeptByWorker(s, i);
    case OwnerStep => LedgerKeptByOwner(s);
    case _ =>
  }

  // First in, first out, exactly once.

  ghost predicate IsExecuting(ws: seq<Worker>, t: Task) {
    exists i :: 0 <= i < |ws| && ws[i] == Executing(t)
  }

  /** Enqueued tasks are the started ones followed by the queue; nothing is started or finished twice. */
  ghost predicate FifoInv(s: Pool) {
    && s.enqueued == s.started + s.queue
    && NoDuplicates(s.enqueued)
    && NoDuplicates(s.finished)
    && forall t :: t in s.uncounted ==> t in s.enqueued
  }

  /** Finished tasks were started; an unfinished started task is in the hands of exactly one worker. */
  ghost predicate OwnershipInv(s: Pool) {
    && (forall t :: t in s.finished ==> t in s.started)
    && (forall t :: t in s.started ==> t in s.finished || IsExecuting(s.workers, t))
    && (forall i :: 0 <= i < |s.workers| && s.workers[i].Executing? ==>
          s.workers[i].task in s.started && s.workers[i].task !in s.finished)
    && (forall i, j :: 0 <= i < j < |s.workers| && s.workers[i].Executing? && s.workers[j].Executing? ==>
          s.workers[i].task != s.workers[j].task)
  }

  ghost predicate HistoryInv(s: Pool) { FifoInv(s) && OwnershipInv(s) }

  lemma FifoKept(s: Pool, a: Action)
    requires PopInv(s) && HistoryInv(s) && Enabled(s, a)
    ensures FifoInv(Apply(s, a))
  {
    match a
    case WorkerStep(i) => FifoKeptByWorker(s, i);
    case OwnerStep => FifoKeptByOwner(s);
    case _ =>
  }

  lemma FifoKeptByWorker(s: Pool, i: nat)
    requires PopInv(s) && HistoryInv(s) && Enabled(s, WorkerStep(i))
    ensures FifoInv(StepWorker(s, i))
  {
    match s.workers[i]
    case Executing(t) => AppendDistinct(s.finished, t);
    case Popping => FrontMoves(s.started, s.queue);
    case _ =>
  }

  lemma FrontMoves(started: seq<Task>, queue: seq<Task>)
    requires queue != []
    ensures started + queue == started + [queue[0]] + queue[1..]
  {
  }

  lemma FifoKeptByOwner(s: Pool)
    requires FifoInv(s)
    ensures FifoInv(StepOwner(s))
  {
  }

  lemma OwnershipKept(s: Pool, a: Action)
    requires GenerationInv(s) && PopInv(s) && HistoryInv(s) && Enabled(s, a)
    ensures OwnershipInv(Apply(s, a))
  {
    match a
    case WorkerStep(i) => OwnershipKeptByWorker(s, i);
    case OwnerStep => OwnershipKeptByOwner(s);
    case _ =>
  }

  lemma OwnershipKeptByOwner(s: Pool)
    requires GenerationInv(s) && OwnershipInv(s)
    ensures OwnershipInv(StepOwner(s))
  {
    var s' := StepOwner(s);
    assert s'.started == s.started && s'.finished == s.finished;
    forall t | t in s.started && t !in s.finished ensures IsExecuting(s'.workers, t) {
      var k :| 0 <= k < |s.workers| && s.workers[k] == Executing(t);
      assert s'.workers[k] == Executing(t);
    }
  }

  lemma OwnershipKeptByWorker(s: Pool, i: nat)
    requires PopInv(s) && HistoryInv(s) && Enabled(s, WorkerStep(i))
    ensures OwnershipInv(StepWorker(s, i))
  {
    var s' := StepWorker(s, i);
    OthersKeepTheirTask(s.workers, i, s'.workers[i]);
    if s.workers[i].Popping? {
      assert s.enqueued[|s.started|] == s.queue[0];
      forall u | u in s.started ensures u != s.queue[0] {
        var k :| 0 <= k < |s.started| && s.started[k] == u;
        assert s.enqueued[k] == u;
      }
      assert s'.workers[i] == Executing(s.queue[0]);
    }
  }

  lemma OthersKeepTheirTask(ws: seq<Worker>, i: nat, w: Worker)
    requires i < |ws|
    ensures forall t :: IsExecuting(ws, t) && ws[i] != Executing(t) ==> IsExecuting(ws[i := w], t)
  {
    forall t | IsExecuting(ws, t) && ws[i] != Executing(t) ensures IsExecuting(ws[i := w], t) {
      var k :| 0 <= k < |ws| && ws[k] == Executing(t);
      assert ws[i := w][k] == Executing(t);
    }
  }

  // What the owner knows while it evaluates its wait predicate.

  ghost predicate EvalInv(s: Pool) {
    match s.owner
    case SawPaused(_, expected, sawPaused) => expected == if sawPaused then |s.queue| else 0
    case SawTotal(_, total, inFlight) => total == Wrap(|s.queue| + Active(s.workers) - inFlight)
    case Satisfied(_, sawPaused, inFlight) =>
      Wrap(|s.queue| + Active(s.workers) - inFlight) == if sawPaused then |s.queue| else 0
    case _ => true
  }

  lemma EvalKeptByOwner(s: Pool)
    requires LedgerInv(s) && EvalInv(s) && OwnerCanStep(s)
    ensures EvalInv(StepOwner(s))
  {
  }

  lemma EvalKept(s: Pool, a: Action)
    requires LockInv(s) && PopInv(s) && LedgerInv(s) && EvalInv(s) && Enabled(s, a)
    ensures EvalInv(Apply(s, a))
  {
    match a
    case WorkerStep(i) =>
      ActiveUpdate(s.workers, i, StepWorker(s, i).workers[i]);
    case OwnerStep => EvalKeptByOwner(s);
    case _ =>
  }

  ghost predicate Inv(s: Pool) {
    LockInv(s) && GenerationInv(s) && PopInv(s) && HistoryInv(s) && LedgerInv(s) && EvalInv(s)
  }

  lemma InvKept(s: Pool, a: Action)
    requires Inv(s) && Enabled(s, a)
    ensures Inv(Apply(s, a))
  {
    LockKept(s, a);
    GenerationKept(s, a);
    PopKept(s, a);
    FifoKept(s, a);
    OwnershipKept(s, a);
    LedgerKept(s, a);
    EvalKept(s, a);
  }

  lemma {:induction false} InvRun(s: Pool, actions: seq<Action>)
    requires Inv(s) && Legal(s, actions)
    ensures Inv(Exec(s, actions))
    decreases |actions|
  {
    if actions != [] {
      InvKept(s, actions[0]);
      InvRun(Apply(s, actions[0]), actions[1..]);
    }
  }
}
