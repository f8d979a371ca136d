// The job table of app/jobs/queue.py: each method is one atomic UPDATE of the rows, and the
// history table records what left the queue.
module JobQueue {
  import opened Common

  // Row ids are UUIDs in the table; only their identity matters here.
  type JobId = nat

  datatype Status = Pending | Running | Completed | Failed | Cancelled

  predicate Terminal(s: Status) {
    s.Completed? || s.Failed? || s.Cancelled?
  }

  datatype Job = Job(
    kind: string, documentId: Option<string>, draftId: Option<string>,
    status: Status, attempts: nat, maxAttempts: int,
    workerId: Option<string>, pickedUpAt: Option<int>, heartbeatAt: Option<int>,
    cancelRequested: bool, dedupKey: Option<string>, createdAt: int)

  datatype Entry = Entry(jobId: JobId, kind: string, status: Status, workerId: Option<string>)

  datatype Db = Db(jobs: map<JobId, Job>, history: seq<Entry>)

  const STALE_TIMEOUT := 120
  const DRAFT_GENERATION := "draft_generation"

  // ----- What each statement does to the rows -----

  predicate HasDedup(jobs: map<JobId, Job>, key: Option<string>) {
    key.Some? && exists id :: id in jobs && jobs[id].dedupKey == key
  }

  function NewJob(kind: string, documentId: Option<string>, draftId: Option<string>, dedupKey: Option<string>,
                  maxAttempts: int, now: int): Job {
    Job(kind, documentId, draftId, Pending, 0, maxAttempts, None, None, None, false, dedupKey, now)
  }

  function Enqueued(db: Db, id: JobId, job: Job): Db {
    if HasDedup(db.jobs, job.dedupKey) then db else db.(jobs := db.jobs[id := job])
  }

  predicate Claimable(job: Job) {
    job.status.Pending? && !job.cancelRequested
  }

  predicate Takeable(job: Job, id: JobId, allowedKinds: seq<string>, locked: set<JobId>) {
    id !in locked && Claimable(job) && job.kind in allowedKinds
  }

  function Claimed(db: Db, id: JobId, worker: string, now: int): Db
    requires id in db.jobs
  {
    var job := db.jobs[id];
    db.(jobs := db.jobs[id := job.(
      status := Running, pickedUpAt := Some(now), heartbeatAt := Some(now),
      workerId := Some(worker), attempts := job.attempts + 1)])
  }

  function Beaten(db: Db, id: JobId, worker: string, now: int): Db {
    if id in db.jobs && db.jobs[id].workerId == Some(worker) && db.jobs[id].status.Running?
    then db.(jobs := db.jobs[id := db.jobs[id].(heartbeatAt := Some(now))]) else db
  }

  function WithStatus(db: Db, id: JobId, status: Status): Db
    requires id in db.jobs
  {
    var job := db.jobs[id];
    Db(db.jobs[id := job.(status := status)], db.history + [Entry(id, job.kind, status, job.workerId)])
  }

  // No check of owner or status.
  function CompletedDb(db: Db, id: JobId): Db {
    if id in db.jobs then WithStatus(db, id, Completed) else db
  }

  // No check of owner or status either.
  function FailedDb(db: Db, id: JobId, retryable: bool): Db {
    if id !in db.jobs then db
    else if retryable && db.jobs[id].attempts < db.jobs[id].maxAttempts then WithStatus(db, id, Pending)
    else WithStatus(db, id, Failed)
  }

  function CancelledDb(db: Db, id: JobId): Db {
    if id in db.jobs && (db.jobs[id].status.Pending? || db.jobs[id].status.Running?)
    then WithStatus(db, id, Cancelled) else db
  }

  predicate FlaggedByDocument(job: Job, documentId: string) {
    job.documentId == Some(documentId) && (job.status.Pending? || job.status.Running?) && !job.cancelRequested
  }

  function DocumentCancelDb(db: Db, documentId: string): Db {
    db.(jobs := map id | id in db.jobs ::
      if FlaggedByDocument(db.jobs[id], documentId) then db.jobs[id].(cancelRequested := true) else db.jobs[id])
  }

  predicate OfDraft(job: Job, draftId: string, status: Status) {
    job.draftId == Some(draftId) && job.kind == DRAFT_GENERATION && job.status == status
  }

  function AfterDraftCancel(job: Job, draftId: string): Job {
    if OfDraft(job, draftId, Pending) then job.(status := Cancelled)
    else if OfDraft(job, draftId, Running) then job.(cancelRequested := true)
    else job
  }

  // order lists the pending draft jobs, as the first UPDATE returned them.
  ghost predicate ListsPendingOf(jobs: map<JobId, Job>, draftId: string, order: seq<JobId>) {
    && (forall id :: id in order <==> id in jobs && OfDraft(jobs[id], draftId, Pending))
    && forall i, j :: 0 <= i < j < |order| ==> order[i] != order[j]
  }

  function CancelEntries(order: seq<JobId>): seq<Entry> {
    seq(|order|, k requires 0 <= k < |order| => Entry(order[k], DRAFT_GENERATION, Cancelled, None))
  }

  function DraftCancelDb(db: Db, draftId: string, order: seq<JobId>): Db {
    Db(map id | id in db.jobs :: AfterDraftCancel(db.jobs[id], draftId), db.history + CancelEntries(order))
  }

  predicate Stuck(job: Job, now: int) {
    job.status.Running? && job.heartbeatAt.Some? && job.heartbeatAt.value < now - STALE_TIMEOUT
  }

  function Requeued(job: Job): Job {
    job.(status := Pending, pickedUpAt := None, heartbeatAt := None, workerId := None)
  }

  function ReclaimedDb(db: Db, now: int): Db {
    db.(jobs := map id | id in db.jobs :: if Stuck(db.jobs[id], now) then Requeued(db.jobs[id]) else db.jobs[id])
  }

  // ----- The queue object -----

  class Queue {
    var jobs: map<JobId, Job>
    var history: seq<Entry>

    function State(): Db
      reads this
    {
      Db(jobs, history)
    }

    constructor ()
      ensures State() == Db(map[], [])
    {
      jobs := map[];
      history := [];
    }

    // Returns the id under which a row is found afterwards, if any: a conflict on the empty key
    // inserts nothing and looks up nothing.
    method Enqueue(jobId: JobId, kind: string, documentId: Option<string>, draftId: Option<string>,
                   dedupKey: Option<string>, maxAttempts: int, now: int) returns (r: Option<JobId>)
      requires jobId !in jobs
      modifies this
      ensures State() == Enqueued(old(State()), jobId, NewJob(kind, documentId, draftId, dedupKey, maxAttempts, now))
      ensures !old(HasDedup(jobs, dedupKey)) ==>
        && r == Some(jobId) && jobs.Keys == old(jobs).Keys + {jobId} && Claimable(jobs[jobId])
        && jobs[jobId].kind == kind && jobs[jobId].documentId == documentId && jobs[jobId].draftId == draftId
        && jobs[jobId].attempts == 0 && jobs[jobId].maxAttempts == maxAttempts
        && jobs[jobId].dedupKey == dedupKey && jobs[jobId].createdAt == now
      ensures old(HasDedup(jobs, dedupKey)) ==>
        if dedupKey == Some("") then r == None else r.Some? && r.value in jobs && jobs[r.value].dedupKey == dedupKey
    {
      if HasDedup(jobs, dedupKey) {
        if dedupKey == Some("") { return None; }
        var id :| id in jobs && jobs[id].dedupKey == dedupKey;
        return Some(id);
      }
      jobs := jobs[jobId := NewJob(kind, documentId, draftId, dedupKey, maxAttempts, now)];
      return Some(jobId);
    }

    // Claims the oldest open job of an allowed kind that no other transaction holds.
    method ClaimOne(allowedKinds: seq<string>, workerId: string, locked: set<JobId>, now: int)
      returns (r: Option<JobId>)
      modifies this
      ensures r == None ==> State() == old(State())
      ensures r == None ==> forall id :: id in jobs && id !in locked && Claimable(jobs[id]) ==>
          jobs[id].kind !in allowedKinds
      ensures r.Some? ==>
        && r.value in old(jobs) && r.value !in locked
        && Claimable(old(jobs)[r.value]) && old(jobs)[r.value].kind in allowedKinds
        && State() == Claimed(old(State()), r.value, workerId, now)
        && jobs[r.value].status == Running && jobs[r.value].workerId == Some(workerId)
        && jobs[r.value].pickedUpAt == jobs[r.value].heartbeatAt == Some(now)
        && jobs[r.value].attempts == old(jobs)[r.value].attempts + 1
        && forall id :: id in old(jobs) && Takeable(old(jobs)[id], id, allowedKinds, locked) ==>
             old(jobs)[r.value].createdAt <= old(jobs)[id].createdAt
    {
      if allowedKinds == [] { return None; }
      r := None;
      var rest := jobs.Keys;
      while rest != {}
        invariant rest <= jobs.Keys
        invariant r.Some? ==>
          && r.value in jobs && r.value !in locked && Claimable(jobs[r.value]) && jobs[r.value].kind in allowedKinds
        invariant forall id :: id in jobs.Keys - rest && Takeable(jobs[id], id, allowedKinds, locked) ==>
          r.Some? && jobs[r.value].createdAt <= jobs[id].createdAt
        decreases rest
      {
        var id :| id in rest;
        rest := rest - {id};
        if id !in locked && Claimable(jobs[id]) && jobs[id].kind in allowedKinds
           && (r == None || jobs[id].createdAt < jobs[r.value].createdAt) {
          r := Some(id);
        }
      }
      if r.Some? {
        var job := jobs[r.value];
        jobs := jobs[r.value := job.(
          status := Running, pickedUpAt := Some(now), heartbeatAt := Some(now),
          workerId := Some(workerId), attempts := job.attempts + 1)];
      }
    }

    method Heartbeat(jobId: JobId, workerId: string, now: int)
      modifies this
      ensures State() == Beaten(old(State()), jobId, workerId, now)
    {
      if jobId in jobs && jobs[jobId].workerId == Some(workerId) && jobs[jobId].status.Running? {
        jobs := jobs[jobId := jobs[jobId].(heartbeatAt := Some(now))];
      }
    }

    method Complete(jobId: JobId)
      modifies this
      ensures State() == CompletedDb(old(State()), jobId)
    {
      if jobId in jobs {
        history := history + [Entry(jobId, jobs[jobId].kind, Completed, jobs[jobId].workerId)];
        jobs := jobs[jobId := jobs[jobId].(status := Completed)];
      }
    }

    method Fail(jobId: JobId, retryable: bool)
      modifies this
      ensures State() == FailedDb(old(State()), jobId, retryable)
      ensures jobId in old(jobs) ==>
        && jobs[jobId].status ==
           (if retryable && old(jobs)[jobId].attempts < old(jobs)[jobId].maxAttempts then Pending else Failed)
        && jobs == old(jobs)[jobId := old(jobs)[jobId].(status := jobs[jobId].status)]
    {
      if jobId in jobs {
        var job := jobs[jobId];
        var status := if retryable then (if job.attempts >= job.maxAttempts then Failed else Pending) else Failed;
        jobs := jobs[jobId := job.(status := status)];
        history := history + [Entry(jobId, job.kind, status, job.workerId)];
      }
    }

    method RequestCancelForDocument(documentId: string) returns (ids: set<JobId>)
      modifies this
      ensures State() == DocumentCancelDb(old(State()), documentId)
      ensures ids == set id | id in old(jobs) && FlaggedByDocument(old(jobs)[id], documentId)
    {
      ids := set id | id in jobs && FlaggedByDocument(jobs[id], documentId);
      jobs := map id | id in jobs :: if id in ids then jobs[id].(cancelRequested := true) else jobs[id];
    }

    // One history row for every job the draft cancellation took out of the queue.
    method WriteCancelHistory(ids: set<JobId>) returns (order: seq<JobId>)
      modifies this`history
      ensures forall id :: id in order <==> id in ids
      ensures forall i, j :: 0 <= i < j < |order| ==> order[i] != order[j]
      ensures history == old(history) + CancelEntries(order)
    {
      order := [];
      var open := ids;
      while open != {}
        invariant open <= ids && forall id :: id in order <==> id in ids && id !in open
        invariant forall i, j :: 0 <= i < j < |order| ==> order[i] != order[j]
        invariant history == old(history) + CancelEntries(order)
        decreases open
      {
        var id :| id in open;
        open := open - {id};
        order := order + [id];
        history := history + [Entry(id, DRAFT_GENERATION, Cancelled, None)];
      }
    }

    // Pending jobs are cancelled first; then running ones are flagged.
    method RequestCancelForDraft(draftId: string) returns (cancelled: seq<JobId>, flagged: set<JobId>)
      modifies this
      ensures ListsPendingOf(old(jobs), draftId, cancelled)
      ensures State() == DraftCancelDb(old(State()), draftId, cancelled)
      ensures flagged == set id | id in old(jobs) && OfDraft(old(jobs)[id], draftId, Running)
          && !old(jobs)[id].cancelRequested
    {
      var open := set id | id in jobs && OfDraft(jobs[id], draftId, Pending);
      jobs := map id | id in jobs :: if id in open then jobs[id].(status := Cancelled) else jobs[id];
      cancelled := WriteCancelHistory(open);
      flagged := set id | id in jobs && OfDraft(jobs[id], draftId, Running) && !jobs[id].cancelRequested;
      jobs := map id | id in jobs :: if id in flagged then jobs[id].(cancelRequested := true) else jobs[id];
    }

    method Cancel(jobId: JobId)
      modifies this
      ensures State() == CancelledDb(old(State()), jobId)
    {
      if jobId in jobs && (jobs[jobId].status.Pending? || jobs[jobId].status.Running?) {
        history := history + [Entry(jobId, jobs[jobId].kind, Cancelled, jobs[jobId].workerId)];
        jobs := jobs[jobId := jobs[jobId].(status := Cancelled)];
      }
    }

    method ReclaimStuck(now: int) returns (count: nat)
      modifies this
      ensures State() == ReclaimedDb(old(State()), now)
      ensures count == |set id | id in old(jobs) && Stuck(old(jobs)[id], now)|
    {
      var stuck := set id | id in jobs && Stuck(jobs[id], now);
      jobs := map id | id in jobs :: if id in stuck then Requeued(jobs[id]) else jobs[id];
      count := |stuck|;
    }
  }
}
