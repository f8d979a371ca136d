// Runs of the job system: workers of app/jobs/worker.py claiming, waiting, beating, finishing
// and dying in any interleaving over the table of app/jobs/queue.py.
module JobRuns {
  import opened Common
  import opened JobQueue

  // A coroutine that has claimed a job. It first waits for a permit of its kind; only then does it
  // run the handler and send heartbeats.
  datatype Executor = Executor(job: JobId, kind: string, worker: string, handling: bool, lastBeat: int)

  datatype System = System(db: Db, now: int, live: map<nat, Executor>, tickets: nat)

  datatype Step =
    | Enqueue(id: JobId, kind: string, documentId: Option<string>, draftId: Option<string>,
              dedupKey: Option<string>, maxAttempts: int)
    | Claim(id: JobId, worker: string)
    | StartHandler(ticket: nat)
    | Beat(ticket: nat)
    | Finish(ticket: nat)
    | Fail(ticket: nat, retryable: bool)
    | CancelOwn(ticket: nat)
    | Crash(ticket: nat)
    | CancelDocument(cancelledDocument: string)
    | CancelDraft(cancelledDraft: string, order: seq<JobId>)
    | Reclaim
    | Tick(seconds: nat)

  function Permits(kind: string): nat {
    if kind == "ocr" then 2
    else if kind == "embedding" then 4
    else if kind == "draft_generation" then 2
    else if kind == "few_shot_index" then 4
    else 2
  }

  function Handling(live: map<nat, Executor>, worker: string, kind: string): set<nat> {
    set k | k in live && live[k].handling && live[k].worker == worker && live[k].kind == kind
  }

  ghost predicate Enabled(s: System, step: Step) {
    match step
    case Enqueue(id, _, _, _, _, _) => id !in s.db.jobs
    case Claim(id, _) => id in s.db.jobs && Claimable(s.db.jobs[id])
    case StartHandler(k) =>
      k in s.live && !s.live[k].handling
      && |Handling(s.live, s.live[k].worker, s.live[k].kind)| < Permits(s.live[k].kind)
    case Beat(k) => k in s.live && s.live[k].handling
    case Finish(k) => k in s.live && s.live[k].handling
    case Fail(k, _) => k in s.live && s.live[k].handling
    case CancelOwn(k) => k in s.live && s.live[k].handling
    case Crash(k) => k in s.live
    case CancelDocument(_) => true
    case CancelDraft(draftId, order) => ListsPendingOf(s.db.jobs, draftId, order)
    case Reclaim => true
    case Tick(_) => true
  }

  function Next(s: System, step: Step): System {
    match step
    case Enqueue(id, kind, documentId, draftId, dedupKey, maxAttempts) =>
      s.(db := Enqueued(s.db, id, NewJob(kind, documentId, draftId, dedupKey, maxAttempts, s.now)))
    case Claim(id, worker) =>
      if id !in s.db.jobs then s
      else s.(db := Claimed(s.db, id, worker, s.now),
              live := s.live[s.tickets := Executor(id, s.db.jobs[id].kind, worker, false, s.now)],
              tickets := s.tickets + 1)
    case StartHandler(k) =>
      if k in s.live then s.(live := s.live[k := s.live[k].(handling := true)]) else s
    case Beat(k) =>
      if k in s.live then
        s.(db := Beaten(s.db, s.live[k].job, s.live[k].worker, s.now),
           live := s.live[k := s.live[k].(lastBeat := s.now)])
      else s
    case Finish(k) =>
      if k in s.live then s.(db := CompletedDb(s.db, s.live[k].job), live := s.live - {k}) else s
    case Fail(k, retryable) =>
      if k in s.live then s.(db := FailedDb(s.db, s.live[k].job, retryable), live := s.live - {k}) else s
    case CancelOwn(k) =>
      if k in s.live then s.(db := CancelledDb(s.db, s.live[k].job), live := s.live - {k}) else s
    case Crash(k) => s.(live := s.live - {k})
    case CancelDocument(documentId) => s.(db := DocumentCancelDb(s.db, documentId))
    case CancelDraft(draftId, order) => s.(db := DraftCancelDb(s.db, draftId, order))
    case Reclaim => s.(db := ReclaimedDb(s.db, s.now))
    case Tick(seconds) => s.(now := s.now + seconds)
  }

  ghost predicate IsRun(ss: seq<System>, steps: seq<Step>) {
    && |ss| == |steps| + 1
    && forall k :: 0 <= k < |steps| ==> Enabled(ss[k], steps[k]) && ss[k + 1] == Next(ss[k], steps[k])
  }

  const START := System(Db(map[], []), 0, map[], 0)

  // ----- One executor per job -----

  // The row of every live executor's job is running, is owned by it and shows its last beat,
  // and no two live executors have the same job.
  ghost predicate Exclusive(s: System) {
    && (forall k :: k in s.live ==> k < s.tickets && Owns(s.db.jobs, s.live[k]))
    && (forall k, l :: k in s.live && l in s.live && k != l ==> s.live[k].job != s.live[l].job)
  }

  predicate Owns(jobs: map<JobId, Job>, e: Executor) {
    && e.job in jobs && jobs[e.job].status.Running?
    && jobs[e.job].workerId == Some(e.worker) && jobs[e.job].heartbeatAt == Some(e.lastBeat)
  }

  // Claiming counts as a beat, so the wait for a permit is covered too.
  ghost predicate LeaseHeld(s: System) {
    forall k :: k in s.live ==> s.now - s.live[k].lastBeat <= STALE_TIMEOUT
  }

  ghost predicate LeaseKept(ss: seq<System>, steps: seq<Step>) {
    |ss| == |steps| + 1 && forall k :: 0 <= k < |steps| && steps[k].Reclaim? ==> LeaseHeld(ss[k])
  }

  // A statement that leaves the rows of live executors owned keeps everything, whoever else it touches.
  lemma RowsKeepExclusive(s: System, r: System)
    requires Exclusive(s) && s.tickets <= r.tickets && r.live.Keys <= s.live.Keys
    requires forall k :: k in r.live ==> r.live[k].job == s.live[k].job && Owns(r.db.jobs, r.live[k])
    ensures Exclusive(r)
  {
  }

  lemma ClaimKeepsExclusive(s: System, id: JobId, worker: string)
    requires Exclusive(s) && Enabled(s, Claim(id, worker))
    ensures Exclusive(Next(s, Claim(id, worker)))
  {
    var r := Next(s, Claim(id, worker));
    forall k | k in s.live ensures r.live[k] == s.live[k] && s.live[k].job != id && Owns(r.db.jobs, r.live[k]) {
      assert Owns(s.db.jobs, s.live[k]);
    }
  }

  lemma LeaveKeepsExclusive(s: System, step: Step)
    requires Exclusive(s) && Enabled(s, step)
    requires step.Finish? || step.Fail? || step.CancelOwn? || step.Crash?
    ensures Exclusive(Next(s, step))
  {
    var r := Next(s, step);
    forall k | k in r.live ensures r.live[k].job == s.live[k].job && Owns(r.db.jobs, r.live[k]) {
      assert Owns(s.db.jobs, s.live[k]) && s.live[k].job != s.live[step.ticket].job;
    }
    RowsKeepExclusive(s, r);
  }

  lemma StepKeepsExclusive(s: System, step: Step)
    requires Exclusive(s) && Enabled(s, step) && (step.Reclaim? ==> LeaseHeld(s))
    ensures Exclusive(Next(s, step))
  {
    if step.Claim? {
      ClaimKeepsExclusive(s, step.id, step.worker);
    } else if step.Finish? || step.Fail? || step.CancelOwn? || step.Crash? {
      LeaveKeepsExclusive(s, step);
    } else {
      var r := Next(s, step);
      forall k | k in r.live ensures r.live[k].job == s.live[k].job && Owns(r.db.jobs, r.live[k]) {
        assert Owns(s.db.jobs, s.live[k]);
      }
      RowsKeepExclusive(s, r);
    }
  }

  // At any interleaving of workers, crashes and reclaims, a job row has at most one live
  // executor, and that executor is the row's worker.
  lemma {:induction false} ExclusiveInEveryState(ss: seq<System>, steps: seq<Step>, k: nat)
    requires IsRun(ss, steps) && LeaseKept(ss, steps) && k < |ss| && Exclusive(ss[0])
    ensures Exclusive(ss[k])
    decreases k
  {
    if k > 0 {
      ExclusiveInEveryState(ss, steps, k - 1);
      StepKeepsExclusive(ss[k - 1], steps[k - 1]);
    }
  }

  // The lease is exactly what a reclaim needs: it breaks ownership as soon as one live executor is late.
  lemma ReclaimSafeIff(s: System)
    requires Exclusive(s)
    ensures Exclusive(Next(s, Reclaim)) <==> LeaseHeld(s)
  {
    if LeaseHeld(s) {
      StepKeepsExclusive(s, Reclaim);
    } else {
      var k :| k in s.live && s.now - s.live[k].lastBeat > STALE_TIMEOUT;
      assert Owns(s.db.jobs, s.live[k]);
      assert !Owns(Next(s, Reclaim).db.jobs, s.live[k]);
      assert Next(s, Reclaim).live[k] == s.live[k];
    }
  }

  // ----- Terminal rows stay as they are -----

  lemma StepKeepsTerminal(s: System, step: Step, id: JobId)
    requires Exclusive(s) && Enabled(s, step) && id in s.db.jobs && Terminal(s.db.jobs[id].status)
    ensures id in Next(s, step).db.jobs && Next(s, step).db.jobs[id] == s.db.jobs[id]
  {
    if (step.Finish? || step.Fail? || step.CancelOwn? || step.Beat?) {
      assert Owns(s.db.jobs, s.live[step.ticket]);
    }
  }

  lemma {:induction false} TerminalNeverLeft(ss: seq<System>, steps: seq<Step>, i: nat, k: nat, id: JobId)
    requires IsRun(ss, steps) && LeaseKept(ss, steps) && Exclusive(ss[0]) && i <= k < |ss|
    requires id in ss[i].db.jobs && Terminal(ss[i].db.jobs[id].status)
    ensures id in ss[k].db.jobs && ss[k].db.jobs[id].status == ss[i].db.jobs[id].status
    decreases k - i
  {
    if i < k {
      TerminalNeverLeft(ss, steps, i, k - 1, id);
      ExclusiveInEveryState(ss, steps, k - 1);
      StepKeepsTerminal(ss[k - 1], steps[k - 1], id);
    }
  }

  // ----- Attempts: these hold on every run, with or without the lease -----

  function Claims(steps: seq<Step>, id: JobId, k: nat): nat
    requires k <= |steps|
  {
    if k == 0 then 0 else Claims(steps, id, k - 1) + if steps[k - 1].Claim? && steps[k - 1].id == id then 1 else 0
  }

  predicate ReclaimsNow(s: System, step: Step, id: JobId) {
    step.Reclaim? && id in s.db.jobs && Stuck(s.db.jobs[id], s.now)
  }

  function Reclaims(ss: seq<System>, steps: seq<Step>, id: JobId, k: nat): nat
    requires k <= |steps| < |ss|
  {
    if k == 0 then 0 else Reclaims(ss, steps, id, k - 1) + if ReclaimsNow(ss[k - 1], steps[k - 1], id) then 1 else 0
  }

  function Allowance(job: Job): int {
    if job.maxAttempts < 1 then 1 else job.maxAttempts
  }

  lemma StepAttempts(s: System, step: Step, id: JobId)
    requires Enabled(s, step) && id in Next(s, step).db.jobs
    ensures var job := Next(s, step).db.jobs[id];
            if id !in s.db.jobs then job.attempts == 0 && job.status.Pending? && !(step.Claim? && step.id == id)
            else
              var was := s.db.jobs[id];
              && job.attempts == was.attempts + (if step.Claim? && step.id == id then 1 else 0)
              && job.maxAttempts == was.maxAttempts
              && (job.status.Pending? ==>
                    was.status.Pending? || ReclaimsNow(s, step, id) || was.attempts < was.maxAttempts)
              && (step.Claim? && step.id == id ==> was.status.Pending? && !was.cancelRequested)
  {
  }

  // attempts counts the claims, and exceeds the allowed number only by the reclaims.
  lemma {:induction false} AttemptsCountClaims(ss: seq<System>, steps: seq<Step>, k: nat, id: JobId)
    requires IsRun(ss, steps) && ss[0].db.jobs == map[] && k < |ss|
    ensures id !in ss[k].db.jobs ==> Claims(steps, id, k) == 0
    ensures id in ss[k].db.jobs ==>
      var job := ss[k].db.jobs[id];
      && job.attempts == Claims(steps, id, k)
      && job.attempts <= Allowance(job) + Reclaims(ss, steps, id, k)
      && (job.status.Pending? ==> job.attempts < Allowance(job) + Reclaims(ss, steps, id, k))
    decreases k
  {
    if k > 0 {
      AttemptsCountClaims(ss, steps, k - 1, id);
      if id in ss[k].db.jobs { StepAttempts(ss[k - 1], steps[k - 1], id); }
      else { RowsStay(ss[k - 1], steps[k - 1], id); }
    }
  }

  lemma RowsStay(s: System, step: Step, id: JobId)
    requires Enabled(s, step)
    ensures id in s.db.jobs ==> id in Next(s, step).db.jobs
    ensures step.Claim? && step.id == id ==> id in Next(s, step).db.jobs
  {
  }

  // ----- Cancellation requests -----

  lemma StepKeepsCancel(s: System, step: Step, id: JobId)
    requires Enabled(s, step) && id in s.db.jobs && s.db.jobs[id].cancelRequested
    ensures id in Next(s, step).db.jobs && Frozen(s.db.jobs[id], Next(s, step).db.jobs[id])
  {
  }

  // Once a cancellation is requested the job is never claimed again: attempts is frozen, and a
  // job that is not running, even after a reclaim or a retryable failure, never enters running.
  lemma {:induction false} CancelFreezes(ss: seq<System>, steps: seq<Step>, i: nat, k: nat, id: JobId)
    requires IsRun(ss, steps) && i <= k < |ss|
    requires id in ss[i].db.jobs && ss[i].db.jobs[id].cancelRequested
    ensures id in ss[k].db.jobs && Frozen(ss[i].db.jobs[id], ss[k].db.jobs[id])
    ensures forall j :: i <= j < k && steps[j].Claim? ==> steps[j].id != id
    decreases k - i
  {
    if i < k {
      CancelFreezes(ss, steps, i, k - 1, id);
      CancelNext(ss, steps, k, id);
    }
  }

  // Still flagged, with the same attempts and kind, and running only if it was.
  predicate Frozen(was: Job, job: Job) {
    && job.cancelRequested && job.attempts == was.attempts && job.kind == was.kind
    && (job.status.Running? ==> was.status.Running?)
  }

  lemma {:induction false} CancelNext(ss: seq<System>, steps: seq<Step>, k: nat, id: JobId)
    requires IsRun(ss, steps) && 0 < k < |ss| && id in ss[k - 1].db.jobs && ss[k - 1].db.jobs[id].cancelRequested
    ensures id in ss[k].db.jobs && Frozen(ss[k - 1].db.jobs[id], ss[k].db.jobs[id])
    ensures steps[k - 1].Claim? ==> steps[k - 1].id != id
  {
    assert Enabled(ss[k - 1], steps[k - 1]) && ss[k - 1 + 1] == Next(ss[k - 1], steps[k - 1]);
    StepKeepsCancel(ss[k - 1], steps[k - 1], id);
  }

  lemma StepStrands(s: System, step: Step, id: JobId)
    requires Exclusive(s) && Enabled(s, step) && id in s.db.jobs
    requires s.db.jobs[id].cancelRequested && s.db.jobs[id].status.Pending? && s.db.jobs[id].kind != DRAFT_GENERATION
    ensures id in Next(s, step).db.jobs && Next(s, step).db.jobs[id].status.Pending?
  {
    if step.Finish? || step.Fail? || step.CancelOwn? || step.Beat? {
      assert Owns(s.db.jobs, s.live[step.ticket]);
    }
  }

  // The price: a flagged job that is back in pending stays there for ever, unless it is a draft
  // job and its draft is cancelled. No worker claims it and no reclaim clears it.
  lemma {:induction false} CancelledPendingIsStranded(ss: seq<System>, steps: seq<Step>, i: nat, k: nat, id: JobId)
    requires IsRun(ss, steps) && LeaseKept(ss, steps) && Exclusive(ss[0]) && i <= k < |ss|
    requires id in ss[i].db.jobs && ss[i].db.jobs[id].cancelRequested && ss[i].db.jobs[id].status.Pending?
    requires ss[i].db.jobs[id].kind != DRAFT_GENERATION
    ensures id in ss[k].db.jobs && ss[k].db.jobs[id].status.Pending?
    decreases k - i
  {
    if i < k {
      CancelledPendingIsStranded(ss, steps, i, k - 1, id);
      CancelFreezes(ss, steps, i, k - 1, id);
      ExclusiveInEveryState(ss, steps, k - 1);
      StepStrands(ss[k - 1], steps[k - 1], id);
    }
  }

  // ----- Permits, deduplication and history, on every run -----

  // ----- Failures -----

  // The jobs of live executors are in the table.
  lemma {:induction false} LiveJobsAreRows(ss: seq<System>, steps: seq<Step>, k: nat)
    requires IsRun(ss, steps) && ss[0].live == map[] && k < |ss|
    ensures forall t :: t in ss[k].live ==> ss[k].live[t].job in ss[k].db.jobs
    decreases k
  {
    if k > 0 {
      LiveJobsAreRows(ss, steps, k - 1);
      RowsRemain(ss[k - 1], steps[k - 1]);
    }
  }

  lemma RowsRemain(s: System, step: Step)
    requires Enabled(s, step) && forall t :: t in s.live ==> s.live[t].job in s.db.jobs
    ensures forall t :: t in Next(s, step).live ==> Next(s, step).live[t].job in Next(s, step).db.jobs
  {
    forall id | id in s.db.jobs ensures id in Next(s, step).db.jobs { RowsStay(s, step, id); }
  }

  ghost predicate FailsAt(ss: seq<System>, steps: seq<Step>, i: nat, id: JobId, retryable: bool)
    requires i < |steps| < |ss|
  {
    steps[i].Fail? && steps[i].retryable == retryable && steps[i].ticket in ss[i].live
    && ss[i].live[steps[i].ticket].job == id
  }

  // A failure puts a job back to pending if and only if it may be retried and the job was claimed less
  // often than it may be attempted; otherwise the job is failed. Either way the history says so.
  lemma FailureIff(ss: seq<System>, steps: seq<Step>, i: nat, id: JobId, retryable: bool)
    requires IsRun(ss, steps) && ss[0] == START && i < |steps| && FailsAt(ss, steps, i, id, retryable)
    ensures id in ss[i].db.jobs && id in ss[i + 1].db.jobs
    ensures var job := ss[i + 1].db.jobs[id];
            && (job.status == Pending <==> retryable && Claims(steps, id, i) < job.maxAttempts)
            && (job.status == Pending || job.status == Failed)
            && ss[i + 1].db.history == ss[i].db.history + [Entry(id, job.kind, job.status, job.workerId)]
  {
    LiveJobsAreRows(ss, steps, i);
    AttemptsCountClaims(ss, steps, i, id);
    assert ss[i + 1] == Next(ss[i], steps[i]);
  }

  // A job that failed for good, by an error that is not retryable or in its last attempt, is failed in
  // every later state, and no worker claims it again.
  lemma FailedForGood(ss: seq<System>, steps: seq<Step>, i: nat, id: JobId, retryable: bool, k: nat)
    requires IsRun(ss, steps) && LeaseKept(ss, steps) && ss[0] == START
    requires i < k < |ss| && FailsAt(ss, steps, i, id, retryable) && id in ss[i].db.jobs
    requires retryable ==> Claims(steps, id, i) >= ss[i].db.jobs[id].maxAttempts
    ensures id in ss[k].db.jobs && ss[k].db.jobs[id].status == Failed
    ensures forall j :: i < j < |steps| && steps[j].Claim? ==> steps[j].id != id
  {
    FailureIff(ss, steps, i, id, retryable);
    assert ss[i + 1] == Next(ss[i], steps[i]);
    TerminalNeverLeft(ss, steps, i + 1, k, id);
    NeverClaimedAgain(ss, steps, i + 1, id);
  }

  lemma NeverClaimedAgain(ss: seq<System>, steps: seq<Step>, i: nat, id: JobId)
    requires IsRun(ss, steps) && LeaseKept(ss, steps) && Exclusive(ss[0]) && i < |ss|
    requires id in ss[i].db.jobs && (Terminal(ss[i].db.jobs[id].status) || ss[i].db.jobs[id].cancelRequested)
    ensures forall j :: i <= j < |steps| && steps[j].Claim? ==> steps[j].id != id
  {
    forall j | i <= j < |steps| && steps[j].Claim? ensures steps[j].id != id {
      assert Enabled(ss[j], steps[j]);
      if Terminal(ss[i].db.jobs[id].status) {
        TerminalNeverLeft(ss, steps, i, j, id);
      } else {
        CancelFreezes(ss, steps, i, j, id);
      }
    }
  }

  // ----- Who may change a row -----

  // Whatever the leases, a terminal row is only ever changed by a second executor of its job that
  // finishes or fails.
  lemma TerminalIsLeftBy(s: System, step: Step, id: JobId)
    requires Enabled(s, step) && id in s.db.jobs && Terminal(s.db.jobs[id].status)
    ensures id in Next(s, step).db.jobs
    ensures Next(s, step).db.jobs[id] != s.db.jobs[id] ==>
            (step.Finish? || step.Fail?) && s.live[step.ticket].job == id
  {
  }

  // A handler that finishes leaves its job completed, whatever the row was; one that notices a cancellation
  // leaves it cancelled unless it had ended already. Either way the job loses its executor.
  lemma EndsAs(ss: seq<System>, steps: seq<Step>, i: nat, t: nat)
    requires IsRun(ss, steps) && ss[0] == START && i < |steps| && (steps[i] == Finish(t) || steps[i] == CancelOwn(t))
    ensures t in ss[i].live && t !in ss[i + 1].live
    ensures var id := ss[i].live[t].job;
            && id in ss[i].db.jobs && id in ss[i + 1].db.jobs
            && var was, job := ss[i].db.jobs[id], ss[i + 1].db.jobs[id];
               job.status == if steps[i].Finish? then Completed
                             else if was.status == Pending || was.status == Running then Cancelled
                             else was.status
  {
    LiveJobsAreRows(ss, steps, i);
    assert Enabled(ss[i], steps[i]) && ss[i + 1] == Next(ss[i], steps[i]);
  }

  // A heartbeat is set by a claim, by a beat of the worker that the running row names, and by nothing else;
  // a reclaim clears it.
  lemma HeartbeatIs(s: System, step: Step, id: JobId)
    requires Enabled(s, step) && id in s.db.jobs
    ensures id in Next(s, step).db.jobs
    ensures var was, job := s.db.jobs[id], Next(s, step).db.jobs[id];
            job.heartbeatAt ==
              if step.Claim? && step.id == id then Some(s.now)
              else if step.Beat? && s.live[step.ticket].job == id && was.status == Running
                   && was.workerId == Some(s.live[step.ticket].worker) then Some(s.now)
              else if ReclaimsNow(s, step, id) then None
              else was.heartbeatAt
  {
  }

  // After a cancellation of a document none of its jobs is ever claimed again; other jobs are left alone.
  lemma DocumentIsCancelled(ss: seq<System>, steps: seq<Step>, i: nat, id: JobId, documentId: string)
    requires IsRun(ss, steps) && LeaseKept(ss, steps) && Exclusive(ss[0])
    requires i < |steps| && steps[i] == CancelDocument(documentId) && id in ss[i].db.jobs
    ensures id in ss[i + 1].db.jobs
    ensures ss[i].db.jobs[id].documentId == Some(documentId) ==>
      forall j :: i < j < |steps| && steps[j].Claim? ==> steps[j].id != id
    ensures ss[i].db.jobs[id].documentId != Some(documentId) ==> ss[i + 1].db.jobs[id] == ss[i].db.jobs[id]
  {
    assert ss[i + 1] == Next(ss[i], steps[i]);
    if ss[i].db.jobs[id].documentId == Some(documentId) { NeverClaimedAgain(ss, steps, i + 1, id); }
  }

  // After a cancellation of a draft none of its generation jobs is pending or ever claimed again; other
  // jobs are left alone.
  lemma DraftIsCancelled(ss: seq<System>, steps: seq<Step>, i: nat, id: JobId)
    requires IsRun(ss, steps) && LeaseKept(ss, steps) && Exclusive(ss[0])
    requires i < |steps| && steps[i].CancelDraft? && id in ss[i].db.jobs
    ensures id in ss[i + 1].db.jobs
    ensures var was, job := ss[i].db.jobs[id], ss[i + 1].db.jobs[id];
            if was.draftId == Some(steps[i].cancelledDraft) && was.kind == "draft_generation" then
              && !job.status.Pending? && (was.status.Pending? ==> job.status.Cancelled?)
              && forall j :: i < j < |steps| && steps[j].Claim? ==> steps[j].id != id
            else job == was
  {
    assert ss[i + 1] == Next(ss[i], steps[i]);
    var was := ss[i].db.jobs[id];
    if was.draftId == Some(steps[i].cancelledDraft) && was.kind == "draft_generation" {
      NeverClaimedAgain(ss, steps, i + 1, id);
    }
  }

  // When a worker dies its job comes back with the first reclaim more than two minutes after its last
  // beat, and with no earlier one: open to any worker, with the attempts it had.
  lemma CrashedComesBackIff(s: System, t: nat, seconds: nat)
    requires Exclusive(s) && t in s.live
    ensures var e := s.live[t];
            var r := Next(Next(Next(s, Crash(t)), Tick(seconds)), Reclaim);
            && e.job in r.db.jobs
            && (r.db.jobs[e.job].status == Pending <==> s.now + seconds - e.lastBeat > 120)
            && (r.db.jobs[e.job].status == Pending ==>
                  && r.db.jobs[e.job].workerId == None && r.db.jobs[e.job].heartbeatAt == None
                  && r.db.jobs[e.job].pickedUpAt == None
                  && r.db.jobs[e.job].attempts == s.db.jobs[e.job].attempts
                  && (!s.db.jobs[e.job].cancelRequested ==> Enabled(r, Claim(e.job, e.worker))))
  {
    assert Owns(s.db.jobs, s.live[t]);
  }

  ghost predicate WithinPermits(s: System) {
    && (forall k :: k in s.live ==> k < s.tickets)
    && forall worker, kind :: |Handling(s.live, worker, kind)| <= Permits(kind)
  }

  lemma FewerHandlers(live: map<nat, Executor>, live': map<nat, Executor>, worker: string, kind: string)
    requires Handling(live', worker, kind) <= Handling(live, worker, kind)
    ensures |Handling(live', worker, kind)| <= |Handling(live, worker, kind)|
  {
    var a, b := Handling(live', worker, kind), Handling(live, worker, kind);
    assert b == a + (b - a);
  }

  lemma StepKeepsPermits(s: System, step: Step)
    requires WithinPermits(s) && Enabled(s, step)
    ensures WithinPermits(Next(s, step))
  {
    var r := Next(s, step);
    forall worker, kind ensures |Handling(r.live, worker, kind)| <= Permits(kind) {
      if step.StartHandler? && worker == s.live[step.ticket].worker && kind == s.live[step.ticket].kind {
        assert Handling(r.live, worker, kind) == Handling(s.live, worker, kind) + {step.ticket};
      } else {
        FewerHandlers(s.live, r.live, worker, kind);
      }
    }
  }

  ghost predicate DedupUnique(jobs: map<JobId, Job>) {
    forall i, j :: i in jobs && j in jobs && i != j && jobs[i].dedupKey.Some? ==> jobs[i].dedupKey != jobs[j].dedupKey
  }

  ghost predicate Recorded(db: Db) {
    forall id :: id in db.jobs && Terminal(db.jobs[id].status) ==>
      exists h :: 0 <= h < |db.history| && Tells(db.history[h], id, db.jobs[id])
  }

  // The entry is about the row as it is; the one of a draft cancellation names no worker.
  predicate Tells(e: Entry, id: JobId, job: Job) {
    && e.jobId == id && e.status == job.status && e.kind == job.kind
    && (e.workerId == job.workerId || (e.workerId == None && job.status == Cancelled))
  }

  lemma StepKeepsDedup(s: System, step: Step)
    requires DedupUnique(s.db.jobs) && Enabled(s, step)
    ensures DedupUnique(Next(s, step).db.jobs)
  {
    if !step.Enqueue? {
      forall id | id in Next(s, step).db.jobs
        ensures id in s.db.jobs && Next(s, step).db.jobs[id].dedupKey == s.db.jobs[id].dedupKey
      {
      }
    }
  }

  lemma StepKeepsRecorded(s: System, step: Step)
    requires Recorded(s.db) && Enabled(s, step)
    ensures Recorded(Next(s, step).db)
  {
    var r := Next(s, step);
    forall id | id in r.db.jobs && Terminal(r.db.jobs[id].status)
      ensures exists h :: 0 <= h < |r.db.history| && Tells(r.db.history[h], id, r.db.jobs[id])
    {
      StepRecords(s, step, id);
    }
  }

  lemma StillRecorded(s: System, step: Step, id: JobId)
    requires Recorded(s.db) && Enabled(s, step) && id in s.db.jobs && id in Next(s, step).db.jobs
    requires Terminal(s.db.jobs[id].status) && s.db.jobs[id].status == Next(s, step).db.jobs[id].status
    ensures var r := Next(s, step).db; exists h :: 0 <= h < |r.history| && Tells(r.history[h], id, r.jobs[id])
  {
    var r := Next(s, step).db;
    var h :| 0 <= h < |s.db.history| && Tells(s.db.history[h], id, s.db.jobs[id]);
    assert r.history[h] == s.db.history[h] && Tells(r.history[h], id, r.jobs[id]);
  }

  // A terminal row either was that before, or the step wrote the entry.
  lemma StepRecords(s: System, step: Step, id: JobId)
    requires Recorded(s.db) && Enabled(s, step)
    requires id in Next(s, step).db.jobs && Terminal(Next(s, step).db.jobs[id].status)
    ensures var r := Next(s, step).db; exists h :: 0 <= h < |r.history| && Tells(r.history[h], id, r.jobs[id])
  {
    var r := Next(s, step).db;
    if id in s.db.jobs && s.db.jobs[id].status == r.jobs[id].status {
      StillRecorded(s, step, id);
    } else if step.CancelDraft? {
      assert id in step.order;
      var n :| 0 <= n < |step.order| && step.order[n] == id;
      assert r.history[|s.db.history| + n] == Entry(id, DRAFT_GENERATION, Cancelled, None);
    } else {
      assert Tells(r.history[|r.history| - 1], id, r.jobs[id]);
    }
  }

  // In every state of every run from the empty table: a worker runs at most the permitted number
  // of handlers of a kind, no two rows share a deduplication key, and every terminal status is in
  // the history.
  lemma {:induction false} TableInvariants(ss: seq<System>, steps: seq<Step>, k: nat)
    requires IsRun(ss, steps) && ss[0] == START && k < |ss|
    ensures WithinPermits(ss[k]) && DedupUnique(ss[k].db.jobs) && Recorded(ss[k].db)
    ensures forall worker, kind ::
      |Handling(ss[k].live, worker, kind)| <= if kind == "embedding" || kind == "few_shot_index" then 4 else 2
    decreases k
  {
    if k == 0 {
      forall worker, kind ensures |Handling(START.live, worker, kind)| <= Permits(kind) {
        assert Handling(START.live, worker, kind) == {};
      }
    } else {
      TableInvariants(ss, steps, k - 1);
      StepKeepsPermits(ss[k - 1], steps[k - 1]);
      StepKeepsDedup(ss[k - 1], steps[k - 1]);
      StepKeepsRecorded(ss[k - 1], steps[k - 1]);
    }
  }

  // ----- Putting runs together -----

  ghost predicate Moves(s: System, step: Step, r: System) {
    Enabled(s, step) && r == Next(s, step)
  }

  // A run of the given steps from one state to another.
  ghost predicate Leads(ss: seq<System>, steps: seq<Step>, from: System, to: System) {
    IsRun(ss, steps) && ss[0] == from && ss[|ss| - 1] == to
  }

  lemma OneStep(s: System, step: Step, r: System) returns (ss: seq<System>)
    requires Moves(s, step, r)
    ensures Leads(ss, [step], s, r) && ss == [s, r]
  {
    ss := [s, r];
  }

  lemma Joined(ss: seq<System>, steps: seq<Step>, tt: seq<System>, more: seq<Step>, 
               from: System, mid: System, to: System)
    returns (all: seq<System>)
    requires Leads(ss, steps, from, mid) && Leads(tt, more, mid, to)
    ensures Leads(all, steps + more, from, to)
    ensures forall k :: 0 <= k < |ss| ==> all[k] == ss[k]
    ensures forall k :: |steps| <= k < |all| ==> all[k] == tt[k - |steps|]
  {
    all := ss + tt[1..];
    var both := steps + more;
    forall k | 0 <= k < |both| ensures Enabled(all[k], both[k]) && all[k + 1] == Next(all[k], both[k]) {
      if k < |steps| {
        assert all[k] == ss[k] && all[k + 1] == ss[k + 1] && both[k] == steps[k];
      } else {
        var j := k - |steps|;
        assert all[k] == tt[j] && all[k + 1] == tt[j + 1] && both[k] == more[j];
      }
    }
  }

  lemma TwoSteps(s: System, a: Step, t: System, b: Step, u: System) returns (ss: seq<System>)
    requires Moves(s, a, t) && Moves(t, b, u)
    ensures Leads(ss, [a, b], s, u) && |ss| == 3 && ss[1] == t
  {
    var one := OneStep(s, a, t);
    var two := OneStep(t, b, u);
    ss := Joined(one, [a], two, [b], s, t, u);
    assert [a] + [b] == [a, b];
  }

  lemma ThreeSteps(s: System, a: Step, t: System, b: Step, u: System, c: Step, v: System) returns (ss: seq<System>)
    requires Moves(s, a, t) && Moves(t, b, u) && Moves(u, c, v)
    ensures Leads(ss, [a, b, c], s, v) && |ss| == 4 && ss[1] == t && ss[2] == u
  {
    var two := TwoSteps(s, a, t, b, u);
    var one := OneStep(u, c, v);
    ss := Joined(two, [a, b], one, [c], s, u, v);
    assert [a, b] + [c] == [a, b, c];
  }

  // ----- Without the lease -----

  function WaitingJob(): Job {
    NewJob("layout", None, None, None, 3, 0)
  }

  function LayoutJob(worker: string, beat: int, attempts: nat): Job {
    WaitingJob().(
      status := Running, attempts := attempts,
      workerId := Some(worker), pickedUpAt := Some(beat), heartbeatAt := Some(beat))
  }

  function OnLayout(job: JobId, worker: string, handling: bool, beat: int): Executor {
    Executor(job, "layout", worker, handling, beat)
  }

  const QUEUED := System(Db(map[0 := WaitingJob(), 1 := WaitingJob(), 2 := WaitingJob()], []), 0, map[], 0)

  const CLAIMED := System(
    Db(map[0 := LayoutJob("w", 0, 1), 1 := LayoutJob("w", 0, 1), 2 := LayoutJob("w", 0, 1)], []), 0,
    map[0 := OnLayout(0, "w", false, 0), 1 := OnLayout(1, "w", false, 0), 2 := OnLayout(2, "w", false, 0)], 3)

  // One worker has used both layout permits; a third claimed job waits and cannot beat.
  const CROWDED := CLAIMED.(
    live := map[0 := OnLayout(0, "w", true, 0), 1 := OnLayout(1, "w", true, 0), 2 := OnLayout(2, "w", false, 0)])

  function AddLayout(id: JobId): Step {
    Enqueue(id, "layout", None, None, None, 3)
  }

  lemma Enqueuing() returns (ss: seq<System>)
    ensures Leads(ss, [AddLayout(0), AddLayout(1), AddLayout(2)], START, QUEUED)
  {
    var s1 := START.(db := Db(map[0 := WaitingJob()], []));
    var s2 := START.(db := Db(map[0 := WaitingJob(), 1 := WaitingJob()], []));
    ss := ThreeSteps(START, AddLayout(0), s1, AddLayout(1), s2, AddLayout(2), QUEUED);
  }

  lemma Claiming() returns (ss: seq<System>)
    ensures Leads(ss, [Claim(0, "w"), Claim(1, "w"), Claim(2, "w")], QUEUED, CLAIMED)
  {
    var s1 := System(Db(map[0 := LayoutJob("w", 0, 1), 1 := WaitingJob(), 2 := WaitingJob()], []), 0,
                     map[0 := OnLayout(0, "w", false, 0)], 1);
    var s2 := System(Db(map[0 := LayoutJob("w", 0, 1), 1 := LayoutJob("w", 0, 1), 2 := WaitingJob()], []), 0,
                     map[0 := OnLayout(0, "w", false, 0), 1 := OnLayout(1, "w", false, 0)], 2);
    ss := ThreeSteps(QUEUED, Claim(0, "w"), s1, Claim(1, "w"), s2, Claim(2, "w"), CLAIMED);
  }

  lemma Starting() returns (ss: seq<System>)
    ensures Leads(ss, [StartHandler(0), StartHandler(1)], CLAIMED, CROWDED)
  {
    var s1 := CLAIMED.(
      live := map[0 := OnLayout(0, "w", true, 0), 1 := OnLayout(1, "w", false, 0), 2 := OnLayout(2, "w", false, 0)]);
    assert Handling(CLAIMED.live, "w", "layout") == {};
    assert Handling(s1.live, "w", "layout") == {0};
    ss := TwoSteps(CLAIMED, StartHandler(0), s1, StartHandler(1), CROWDED);
  }

  const CROWDING: seq<Step> :=
    [AddLayout(0), AddLayout(1), AddLayout(2)] + [Claim(0, "w"), Claim(1, "w"), Claim(2, "w")]
    + [StartHandler(0), StartHandler(1)]

  // Eight steps from the start lead to a crowded worker.
  lemma CrowdedIsReached() returns (ss: seq<System>)
    ensures Leads(ss, CROWDING, START, CROWDED)
  {
    var a := Enqueuing();
    var b := Claiming();
    var c := Starting();
    var ab := Joined(a, [AddLayout(0), AddLayout(1), AddLayout(2)], b,
        [Claim(0, "w"), Claim(1, "w"), Claim(2, "w")], START, QUEUED, CLAIMED);
    ss := Joined(ab, [AddLayout(0), AddLayout(1), AddLayout(2)] + [Claim(0, "w"), Claim(1, "w"), Claim(2, "w")],
                 c, [StartHandler(0), StartHandler(1)], START, CLAIMED, CROWDED);
  }

  lemma BothPermitsTaken(s: System)
    requires s.live.Keys == {0, 1, 2} && s.live[0].handling && s.live[1].handling && !s.live[2].handling
    requires forall k :: k in s.live ==> s.live[k].kind == "layout" && s.live[k].worker == "w"
    ensures !Enabled(s, StartHandler(2))
  {
    assert Handling(s.live, "w", "layout") == {0, 1};
  }

  // The row and the executor of the third job, and what the two handlers look like, while time passes.
  ghost predicate Waiting(s: System, now: int, beat0: int, beat1: int) {
    && s.now == now && s.tickets == 3
    && s.live == map[0 := OnLayout(0, "w", true, beat0), 1 := OnLayout(1, "w", true, beat1),
                     2 := OnLayout(2, "w", false, 0)]
    && s.db.jobs.Keys == {0, 1, 2}
    && s.db.jobs[2] == LayoutJob("w", 0, 1)
  }

  lemma NoPermitWhileWaiting(s: System, now: int, beat0: int, beat1: int)
    requires Waiting(s, now, beat0, beat1)
    ensures !Enabled(s, StartHandler(2))
  {
    BothPermitsTaken(s);
  }

  lemma TimePasses(s0: System, now: int, seconds: nat, beat: int) returns (s1: System)
    requires Waiting(s0, now, beat, beat)
    ensures Moves(s0, Tick(seconds), s1) && Waiting(s1, now + seconds, beat, beat)
  {
    s1 := Next(s0, Tick(seconds));
  }

  lemma BothBeat(s1: System) returns (s2: System, s3: System)
    requires Waiting(s1, 100, 0, 0)
    ensures Moves(s1, Beat(0), s2) && Moves(s2, Beat(1), s3)
    ensures Waiting(s2, 100, 100, 0) && Waiting(s3, 100, 100, 100)
  {
    s2 := Next(s1, Beat(0));
    s3 := Next(s2, Beat(1));
  }

  const WAITING: seq<Step> := [Tick(100), Beat(0), Beat(1)] + [Tick(21)]

  // The two handlers beat in time; the waiting executor has no permit in any of these states.
  lemma BeatsInTime(s0: System) returns (ss: seq<System>, s4: System)
    requires Waiting(s0, 0, 0, 0)
    ensures Leads(ss, WAITING, s0, s4) && Waiting(s4, 121, 100, 100)
    ensures forall k :: 0 <= k < |ss| ==> !Enabled(ss[k], StartHandler(2))
  {
    var s1 := TimePasses(s0, 0, 100, 0);
    var s2, s3 := BothBeat(s1);
    s4 := TimePasses(s3, 100, 21, 100);
    var three := ThreeSteps(s0, Tick(100), s1, Beat(0), s2, Beat(1), s3);
    var one := OneStep(s3, Tick(21), s4);
    ss := Joined(three, [Tick(100), Beat(0), Beat(1)], one, [Tick(21)], s0, s3, s4);
    NoPermitWhileWaiting(s0, 0, 0, 0);
    NoPermitWhileWaiting(s1, 100, 0, 0);
    NoPermitWhileWaiting(s2, 100, 100, 0);
    NoPermitWhileWaiting(s3, 100, 100, 100);
    NoPermitWhileWaiting(s4, 121, 100, 100);
    assert ss[4] == one[1] && ss[3] == three[3] && ss[2] == three[2] && ss[1] == three[1];
  }

  // Two executors of one row, the first of them still waiting for its permit.
  ghost predicate Doubled(s: System) {
    && s.tickets == 4
    && s.live == map[0 := OnLayout(0, "w", true, 100), 1 := OnLayout(1, "w", true, 100),
                     2 := OnLayout(2, "w", false, 0), 3 := OnLayout(2, "v", false, 121)]
    && s.db.jobs.Keys == {0, 1, 2}
    && s.db.jobs[2] == LayoutJob("v", 121, 2)
  }

  const TAKING: seq<Step> := [Reclaim, Claim(2, "v")]

  lemma ReclaimedWhileWaiting(s3: System) returns (ss: seq<System>, s5: System)
    requires Waiting(s3, 121, 100, 100)
    ensures Leads(ss, TAKING, s3, s5) && Doubled(s5)
  {
    var s4 := Next(s3, Reclaim);
    assert Stuck(s3.db.jobs[2], 121);
    s5 := Next(s4, Claim(2, "v"));
    assert s5.live[2] == s3.live[2];
    ss := TwoSteps(s3, Reclaim, s4, Claim(2, "v"), s5);
  }

  // From an empty table: although both handlers beat in time and the waiting executor did nothing wrong
  // (no permit is free in any state before the reclaim), its job is reclaimed and claimed again, and
  // two live executors share one row.
  lemma WaitingLosesTheLease() returns (ss: seq<System>, s: System)
    ensures Leads(ss, CROWDING + WAITING + TAKING, START, s)
    ensures forall k :: 8 <= k < 13 ==> !Enabled(ss[k], StartHandler(2))
    ensures Doubled(s) && s.live[2].job == s.live[3].job
  {
    var a := CrowdedIsReached();
    var b, s3 := BeatsInTime(CROWDED);
    var c, s5 := ReclaimedWhileWaiting(s3);
    var ab := Joined(a, CROWDING, b, WAITING, START, CROWDED, s3);
    ss := Joined(ab, CROWDING + WAITING, c, TAKING, START, s3, s5);
    s := s5;
    assert |CROWDING| == 8;
    forall k | 8 <= k < 13 ensures !Enabled(ss[k], StartHandler(2)) { assert ss[k] == ab[k] == b[k - 8]; }
  }

  // With two executors on one row even a completed job is left: the second one fails and re-queues it.
  lemma LostLeaseLeavesCompleted(s: System, id: JobId, k: nat, l: nat)
    requires k in s.live && l in s.live && k != l && s.live[k].handling && s.live[l].handling
    requires s.live[k].job == s.live[l].job == id && id in s.db.jobs
        && s.db.jobs[id].attempts < s.db.jobs[id].maxAttempts
    ensures Enabled(s, Finish(k)) && Enabled(Next(s, Finish(k)), Fail(l, true))
    ensures Next(s, Finish(k)).db.jobs[id].status == Completed
    ensures Next(Next(s, Finish(k)), Fail(l, true)).db.jobs[id].status == Pending
  {
  }

  const BOTH_START: seq<Step> := [Finish(0), StartHandler(2), StartHandler(3)]

  // A permit comes free, and both executors of the row start their handlers.
  lemma BothStart(s5: System) returns (ss: seq<System>, s8: System)
    requires Doubled(s5)
    ensures Leads(ss, BOTH_START, s5, s8)
    ensures 2 in s8.live && 3 in s8.live && s8.live[2].handling && s8.live[3].handling
    ensures s8.live[2].job == s8.live[3].job == 2 && 2 in s8.db.jobs && s8.db.jobs[2] == LayoutJob("v", 121, 2)
  {
    var s6 := Next(s5, Finish(0));
    assert Handling(s6.live, "w", "layout") == {1};
    var s7 := Next(s6, StartHandler(2));
    assert Handling(s7.live, "v", "layout") == {};
    s8 := Next(s7, StartHandler(3));
    ss := ThreeSteps(s5, Finish(0), s6, StartHandler(2), s7, StartHandler(3), s8);
  }

  const UNDOING: seq<Step> := [Finish(2), Fail(3, true)]

  // The run goes on: both executors of the row run, one completes the job, and the other takes it back
  // to pending.
  lemma CompletedIsLeft() returns (ss: seq<System>)
    ensures IsRun(ss, CROWDING + WAITING + TAKING + BOTH_START + UNDOING) && |ss| == 20 && ss[0] == START
    ensures 2 in ss[18].db.jobs && ss[18].db.jobs[2].status == Completed
    ensures 2 in ss[19].db.jobs && ss[19].db.jobs[2].status == Pending
  {
    var a, s5 := WaitingLosesTheLease();
    var b, s8 := BothStart(s5);
    LostLeaseLeavesCompleted(s8, 2, 2, 3);
    var s9 := Next(s8, Finish(2));
    var s10 := Next(s9, Fail(3, true));
    var c := TwoSteps(s8, Finish(2), s9, Fail(3, true), s10);
    var ab := Joined(a, CROWDING + WAITING + TAKING, b, BOTH_START, START, s5, s8);
    ss := Joined(ab, CROWDING + WAITING + TAKING + BOTH_START, c, UNDOING, START, s8, s10);
    assert |CROWDING + WAITING + TAKING + BOTH_START| == 17;
    assert ss[18] == c[1] && ss[19] == c[2];
  }
}
