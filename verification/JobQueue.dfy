/** The durable jobs of one evaluation run: at most one live job of each kind, claimed under a lease. */
module JobQueue {
  import opened Wrappers
  import opened Evidence
  import opened RunDomain

  datatype JobKind = TimeoutJob | IdleJob | FinalizeJob | EvaluateJob

  datatype JobStatus = Pending | Running(leaseUntil: Time) | JobDone | JobFailed

  datatype Job = Job(kind: JobKind, status: JobStatus, attempts: nat, availableAt: Time)

  predicate Live(job: Job) {
    job.status.Pending? || job.status.Running?
  }

  predicate LiveAt(queue: seq<Job>, kind: JobKind, id: nat) {
    id < |queue| && queue[id].kind == kind && Live(queue[id])
  }

  function FindLive(queue: seq<Job>, kind: JobKind): (id: Option<nat>)
    ensures id.Some? ==> LiveAt(queue, kind, id.value)
    ensures id.None? ==> forall i | 0 <= i < |queue| :: !LiveAt(queue, kind, i)
    decreases |queue|
  {
    if queue == [] then None
    else
      var last := |queue| - 1;
      if LiveAt(queue, kind, last) then Some(last)
      else
        assert forall i | 0 <= i < last :: queue[..last][i] == queue[i];
        assert FindLive(queue[..last], kind).None? ==> forall i | 0 <= i < last :: !LiveAt(queue[..last], kind, i);
        assert forall i | 0 <= i < last && LiveAt(queue, kind, i) :: LiveAt(queue[..last], kind, i);
        FindLive(queue[..last], kind)
  }

  ghost predicate OneLivePerKind(queue: seq<Job>) {
    forall i, j, kind | LiveAt(queue, kind, i) && LiveAt(queue, kind, j) :: i == j
  }

  /** Adds a job, or postpones the live job of that kind; a job is never made available earlier. */
  function Enqueue(queue: seq<Job>, kind: JobKind, availableAt: Time): seq<Job> {
    match FindLive(queue, kind)
    case None => queue + [Job(kind, Pending, 0, availableAt)]
    case Some(id) => queue[id := queue[id].(availableAt := Max(queue[id].availableAt, availableAt))]
  }

  // ---------------------------------------------------------------- claiming

  predicate Due(job: Job, now: Time) {
    match job.status
    case Pending => job.availableAt <= now
    case Running(leaseUntil) => leaseUntil <= now
    case _ => false
  }

  /** A due job that no other due job precedes; ties are broken arbitrarily. */
  predicate EarliestDue(queue: seq<Job>, id: nat, now: Time) {
    && id < |queue|
    && Due(queue[id], now)
    && forall other | 0 <= other < |queue| && Due(queue[other], now) :: queue[id].availableAt <= queue[other].availableAt
  }

  function ClaimJob(queue: seq<Job>, id: nat, now: Time, leaseSeconds: nat): seq<Job>
    requires id < |queue|
  {
    queue[id := queue[id].(
      status := Running(now + Clamp(leaseSeconds, 1, 3_600)), attempts := queue[id].attempts + 1)]
  }

  // ---------------------------------------------------------------- recording, guarded by the attempt number

  predicate Holds(queue: seq<Job>, id: nat, attempt: nat) {
    id < |queue| && queue[id].status.Running? && queue[id].attempts == attempt
  }

  function FinishJob(queue: seq<Job>, id: nat, attempt: nat): seq<Job> {
    if Holds(queue, id, attempt) then queue[id := queue[id].(status := JobDone)] else queue
  }

  function FailJob(queue: seq<Job>, id: nat, attempt: nat, retryAt: Time, final: bool): seq<Job> {
    if Holds(queue, id, attempt)
    then queue[id := queue[id].(status := if final then JobFailed else Pending, availableAt := retryAt)]
    else queue
  }

  function RescheduleJob(queue: seq<Job>, id: nat, attempt: nat, availableAt: Time): seq<Job> {
    if Holds(queue, id, attempt)
    then queue[id := queue[id].(
           status := Pending, availableAt := availableAt, attempts := if attempt == 0 then 0 else attempt - 1)]
    else queue
  }

  /** Some due job is earliest whenever some job is due. */
  lemma {:induction false} EarliestDueExists(queue: seq<Job>, now: Time, candidate: nat)
    requires candidate < |queue| && Due(queue[candidate], now)
    ensures exists id :: EarliestDue(queue, id, now)
    decreases Earlier(queue, now, candidate)
  {
    if !EarliestDue(queue, candidate, now) {
      var other :| 0 <= other < |queue| && Due(queue[other], now) && queue[other].availableAt < queue[candidate].availableAt;
      assert other in Earlier(queue, now, candidate);
      assert Earlier(queue, now, other) <= Earlier(queue, now, candidate);
      EarliestDueExists(queue, now, other);
    }
  }

  ghost function Earlier(queue: seq<Job>, now: Time, candidate: nat): set<nat>
    requires candidate < |queue|
  {
    set id: nat | id < |queue| && Due(queue[id], now) && queue[id].availableAt < queue[candidate].availableAt
  }
}
