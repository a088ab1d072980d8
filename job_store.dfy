/**
 * The in-memory job table of src/utils/jobStore.ts: a `Map` from hash to job record
 * (src/types/db.ts), with add, get, update and age-based cleanup. Times are integer
 * milliseconds, passed in where the source reads the clock.
 */
module Jobs {
  import opened Wrappers

  datatype JobType = Imagine | Upscale | Variation

  datatype JobStatus = Sent | Waiting | Progress | Done | Error

  /** `Job`; `created_at` and `updated_at` as milliseconds. */
  datatype Job = Job(
    hash: string,
    prompt: string,
    jobType: JobType,
    status: JobStatus,
    progress: int,
    resultUrl: Option<string>,
    createdAt: int,
    updatedAt: int,
    parentHash: Option<string>,
    errorReason: Option<string>)

  /** `Partial<Job>`: the fields the caller supplies. */
  datatype JobUpdate = JobUpdate(
    hash: Option<string>,
    prompt: Option<string>,
    jobType: Option<JobType>,
    status: Option<JobStatus>,
    progress: Option<int>,
    resultUrl: Option<string>,
    createdAt: Option<int>,
    updatedAt: Option<int>,
    parentHash: Option<string>,
    errorReason: Option<string>)

  const MsPerHour: int := 1000 * 60 * 60

  /** The default `maxAgeHours` of `cleanup`. */
  const DefaultMaxAgeHours: int := 24

  /** The record `addJob` stores. */
  function NewJob(hash: string, prompt: string, jobType: JobType, now: int): Job {
    Job(hash, prompt, jobType, Sent, 0, None, now, now, None, None)
  }

  /** `{ ...job, ...updates, updated_at: now }` */
  function Merge(job: Job, u: JobUpdate, now: int): Job {
    Job(u.hash.GetOr(job.hash), u.prompt.GetOr(job.prompt), u.jobType.GetOr(job.jobType), u.status.GetOr(job.status),
        u.progress.GetOr(job.progress),
        if u.resultUrl.Some? then u.resultUrl else job.resultUrl,
        u.createdAt.GetOr(job.createdAt), now,
        if u.parentHash.Some? then u.parentHash else job.parentHash,
        if u.errorReason.Some? then u.errorReason else job.errorReason)
  }

  /** The test of `cleanup`, `ageHours > maxAgeHours`, on whole milliseconds. */
  predicate Stale(job: Job, now: int, maxAgeHours: int) {
    now - job.updatedAt > maxAgeHours * MsPerHour
  }

  /** The table with every stale entry deleted. */
  function Swept(jobs: map<string, Job>, now: int, maxAgeHours: int): map<string, Job> {
    map k | k in jobs && !Stale(jobs[k], now, maxAgeHours) :: jobs[k]
  }

  class JobStore {
    var jobs: map<string, Job>

    constructor()
      ensures jobs == map[]
    {
      jobs := map[];
    }

    /** `addJob`: stores a fresh record under `hash`, replacing any other. */
    method AddJob(hash: string, prompt: string, jobType: JobType, now: int) returns (job: Job)
      modifies this
      ensures job == NewJob(hash, prompt, jobType, now)
      ensures jobs == old(jobs)[hash := job]
    {
      job := NewJob(hash, prompt, jobType, now);
      jobs := jobs[hash := job];
    }

    /** `getJob` */
    method GetJob(hash: string) returns (job: Option<Job>)
      ensures hash in jobs ==> job == Some(jobs[hash])
      ensures hash !in jobs ==> job == None
    {
      if hash in jobs {
        job := Some(jobs[hash]);
      } else {
        job := None;
      }
    }

    /** `updateJob`: merges into the stored record, or adds a new one from the supplied prompt and
      * type when there is none under `hash`. */
    method UpdateJob(hash: string, updates: JobUpdate, now: int) returns (job: Job)
      modifies this
      ensures hash !in old(jobs) ==> job == NewJob(hash, updates.prompt.GetOr(""), updates.jobType.GetOr(Imagine), now)
      ensures hash in old(jobs) ==> job == Merge(old(jobs)[hash], updates, now)
      ensures jobs == old(jobs)[hash := job]
    {
      if hash !in jobs {
        job := AddJob(hash, updates.prompt.GetOr(""), updates.jobType.GetOr(Imagine), now);
        return;
      }
      job := Merge(jobs[hash], updates, now);
      jobs := jobs[hash := job];
    }

    /** `cleanup`: visits every entry once and deletes it when it is stale. */
    method Cleanup(now: int, maxAgeHours: int := DefaultMaxAgeHours)
      modifies this
      ensures jobs == Swept(old(jobs), now, maxAgeHours)
    {
      ghost var original := jobs;
      var pending := jobs.Keys;
      while pending != {}
        invariant pending <= original.Keys
        invariant jobs == map k | k in original && (k in pending || !Stale(original[k], now, maxAgeHours)) :: original[k]
        decreases |pending|
      {
        var hash :| hash in pending;
        if Stale(jobs[hash], now, maxAgeHours) {
          jobs := jobs - {hash};
        }
        pending := pending - {hash};
      }
    }
  }

  // ---------------------------------------------------------------------------
  // Properties

  /** The whole-millisecond test is the source's comparison of fractional hours. */
  lemma StaleIsAgeInHours(job: Job, now: int, maxAgeHours: int)
    ensures Stale(job, now, maxAgeHours) <==> (now - job.updatedAt) as real / (MsPerHour as real) > maxAgeHours as real
  {
    var age := (now - job.updatedAt) as real;
    assert age / (MsPerHour as real) * (MsPerHour as real) == age;
  }

  /** Cleanup deletes exactly the stale entries and leaves the others as they were. */
  lemma SweptKeepsFresh(jobs: map<string, Job>, now: int, maxAgeHours: int)
    ensures forall k :: k in Swept(jobs, now, maxAgeHours) <==> k in jobs && !Stale(jobs[k], now, maxAgeHours)
    ensures forall k :: k in Swept(jobs, now, maxAgeHours) ==> Swept(jobs, now, maxAgeHours)[k] == jobs[k]
  {
  }

  /** After cleanup no entry is older than `maxAgeHours`, and none was added. */
  lemma SweptAgeBound(jobs: map<string, Job>, now: int, maxAgeHours: int)
    ensures forall k :: k in Swept(jobs, now, maxAgeHours) ==>
      now - Swept(jobs, now, maxAgeHours)[k].updatedAt <= maxAgeHours * MsPerHour
    ensures Swept(jobs, now, maxAgeHours).Keys <= jobs.Keys
  {
  }

  /** A second cleanup at the same instant deletes nothing. */
  lemma SweptIdempotent(jobs: map<string, Job>, now: int, maxAgeHours: int)
    ensures Swept(Swept(jobs, now, maxAgeHours), now, maxAgeHours) == Swept(jobs, now, maxAgeHours)
  {
  }

  /** An update restamps the record and changes exactly the supplied fields; it may even change
    * the `hash` field, which then no longer matches the key it is stored under. */
  lemma MergeReplacesSupplied(job: Job, u: JobUpdate, now: int)
    ensures var j := Merge(job, u, now);
      && j.updatedAt == now
      && j.hash == (if u.hash.Some? then u.hash.value else job.hash)
      && j.prompt == (if u.prompt.Some? then u.prompt.value else job.prompt)
      && j.jobType == (if u.jobType.Some? then u.jobType.value else job.jobType)
      && j.status == (if u.status.Some? then u.status.value else job.status)
      && j.progress == (if u.progress.Some? then u.progress.value else job.progress)
      && j.createdAt == (if u.createdAt.Some? then u.createdAt.value else job.createdAt)
      && j.resultUrl == (if u.resultUrl.Some? then u.resultUrl else job.resultUrl)
      && j.parentHash == (if u.parentHash.Some? then u.parentHash else job.parentHash)
      && j.errorReason == (if u.errorReason.Some? then u.errorReason else job.errorReason)
  {
  }

  /** An update that supplies nothing only restamps the record. */
  lemma EmptyUpdateRestamps(job: Job, now: int)
    ensures Merge(job, JobUpdate(None, None, None, None, None, None, None, None, None, None), now) == job.(updatedAt := now)
  {
  }
}
