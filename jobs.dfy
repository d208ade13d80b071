/**
 * The job board: the public listing with its filter and pagination, and the
 * handlers that change the `jobs` and `job_interests` collections in place.
 * Each job's `applicants_count` is meant to equal the number of interests shown
 * in it; `JobBoard.Consistent` states that, and every handler that succeeds
 * keeps it.
 */
module Jobs {

  import opened Wrappers
  import opened Tables
  import opened ObjectIds
  import opened Engagement
  import Paging
  import Validator
  import AuthMiddleware

  datatype Job = Job(
    id: ObjectId,
    title: string,
    company: string,
    location: string,
    jobType: string,
    experienceRequired: string,
    salaryRange: string,
    description: string,
    requirements: seq<string>,
    postedBy: ObjectId,
    applicantsCount: int,
    isActive: bool,
    expiresAt: Option<int>,
    createdAt: int,
    updatedAt: int)

  /** The body of a job posting; a zero `expires_at` is `None`. */
  datatype JobRequest = JobRequest(
    title: string,
    company: string,
    location: string,
    jobType: string,
    experienceRequired: string,
    salaryRange: string,
    description: string,
    requirements: seq<string>,
    expiresAt: Option<int>)

  /** The body of a job update: "" leaves a text field alone, `None` a list or a time. */
  datatype JobUpdate = JobUpdate(
    title: string,
    company: string,
    location: string,
    jobType: string,
    experienceRequired: string,
    salaryRange: string,
    description: string,
    requirements: Option<seq<string>>,
    expiresAt: Option<int>)

  /**
   * Store steps that can fail.  `FindInterest` is the read of the duplicate check,
   * whose failure the handler takes for "no interest yet"; the others are writes
   * whose failure the handlers report.
   */
  datatype Step =
    | FindInterest | InsertJob | InsertInterest | IncrementApplicants
    | DeleteInterest | DecrementApplicants | SoftDelete | UpdateDocument

  // ---------------------------------------------------------------------------
  // Listing

  /** The query string of `GET /jobs`; `page` and `limit` as `strconv.Atoi` read them. */
  datatype JobQuery = JobQuery(page: int, limit: int, jobType: string, postedBy: string)

  /**
   * The listing filter: active, with no expiry or one after `now`, of the requested
   * type if one is given, and by the requested poster if that parses as an
   * ObjectID (an unparsable `posted_by` is ignored).
   */
  predicate Listed(j: Job, q: JobQuery, now: int)
  {
    && j.isActive
    && (j.expiresAt.None? || j.expiresAt.value > now)
    && (q.jobType == "" || j.jobType == q.jobType)
    && (q.postedBy == "" || FromHex(q.postedBy).None? || j.postedBy == FromHex(q.postedBy).value)
  }

  function ListedFilter(q: JobQuery, now: int): Job -> bool
  {
    (j: Job) => Listed(j, q, now)
  }

  /** The sort key of `created_at` descending: newest first. */
  function Newest(j: Job): int
  {
    -j.createdAt
  }

  /**
   * `GetJobs`: the clamped page of listed jobs, newest first, with the number of
   * listed jobs as `total`.  An expired or deleted job is never listed.
   */
  function GetJobs(jobs: seq<Job>, q: JobQuery, now: int): (r: Paging.Listing<Job>)
    ensures r.total == CountWhere(jobs, ListedFilter(q, now))
    ensures 1 <= r.page && (q.page >= 1 ==> r.page == q.page)
    ensures 1 <= r.limit <= Paging.MaxLimit && |r.items| <= r.limit
    ensures r.totalPages == Paging.TotalPages(r.total, r.limit)
    ensures var w := Paging.Clamp(q.page, q.limit, Paging.DefaultLimit);
            r.page == w.page && r.limit == w.limit &&
            r.items == Paging.Slice(Paging.Ordered(jobs, ListedFilter(q, now), Newest), Paging.Skip(w), w.limit)
    ensures forall i :: 0 <= i < |r.items| ==> r.items[i] in jobs && Listed(r.items[i], q, now)
    ensures forall i, k :: 0 <= i < k < |r.items| ==> r.items[i].createdAt >= r.items[k].createdAt
  {
    var w := Paging.Clamp(q.page, q.limit, Paging.DefaultLimit);
    Paging.ListedDocuments(jobs, ListedFilter(q, now), Newest, w);
    Paging.List(jobs, ListedFilter(q, now), Newest, w)
  }

  // ---------------------------------------------------------------------------
  // Documents

  predicate JobIdsUnique(jobs: seq<Job>)
  {
    forall i, k :: 0 <= i < k < |jobs| ==> jobs[i].id != jobs[k].id
  }

  function WithJobId(id: ObjectId): Job -> bool
  {
    (j: Job) => j.id == id
  }

  /** The job a new posting creates: sanitised text, no applicants, active. */
  function NewJob(req: JobRequest, id: ObjectId, poster: ObjectId, now: int): (j: Job)
    ensures j.id == id && j.postedBy == poster && j.applicantsCount == 0 && j.isActive
    ensures j.createdAt == now && j.updatedAt == now && j.expiresAt == req.expiresAt
    ensures j.jobType == req.jobType && j.requirements == req.requirements
    ensures j.title == Validator.SanitizeString(req.title) && j.company == Validator.SanitizeString(req.company)
    ensures j.location == Validator.SanitizeString(req.location)
    ensures j.experienceRequired == Validator.SanitizeString(req.experienceRequired)
    ensures j.salaryRange == Validator.SanitizeString(req.salaryRange)
    ensures j.description == Validator.SanitizeString(req.description)
    ensures Validator.NoMarkup(j.title) && Validator.NoMarkup(j.company) && Validator.NoMarkup(j.description)
  {
    Job(id, Validator.SanitizeString(req.title), Validator.SanitizeString(req.company),
        Validator.SanitizeString(req.location), req.jobType,
        Validator.SanitizeString(req.experienceRequired), Validator.SanitizeString(req.salaryRange),
        Validator.SanitizeString(req.description), req.requirements, poster, 0, true,
        req.expiresAt, now, now)
  }

  /** The `$set` of an update: `updated_at` and the fields the request fills in. */
  function Revise(j: Job, u: JobUpdate, now: int): (r: Job)
    ensures r.id == j.id && r.postedBy == j.postedBy && r.applicantsCount == j.applicantsCount
    ensures r.isActive == j.isActive && r.createdAt == j.createdAt && r.updatedAt == now
    ensures Validator.TextSet(j.title, u.title, r.title) && Validator.TextSet(j.company, u.company, r.company)
    ensures Validator.TextSet(j.location, u.location, r.location) && Validator.TextSet(j.description, u.description, r.description)
    ensures Validator.TextSet(j.experienceRequired, u.experienceRequired, r.experienceRequired)
    ensures Validator.TextSet(j.salaryRange, u.salaryRange, r.salaryRange)
    ensures r.jobType == (if u.jobType == "" then j.jobType else u.jobType)
    ensures r.requirements == (if u.requirements.None? then j.requirements else u.requirements.value)
    ensures r.expiresAt == (if u.expiresAt.None? then j.expiresAt else u.expiresAt)
  {
    j.(title := Validator.SetText(j.title, u.title),
       company := Validator.SetText(j.company, u.company),
       location := Validator.SetText(j.location, u.location),
       jobType := if u.jobType == "" then j.jobType else u.jobType,
       experienceRequired := Validator.SetText(j.experienceRequired, u.experienceRequired),
       salaryRange := Validator.SetText(j.salaryRange, u.salaryRange),
       description := Validator.SetText(j.description, u.description),
       requirements := if u.requirements.None? then j.requirements else u.requirements.value,
       expiresAt := if u.expiresAt.None? then j.expiresAt else u.expiresAt,
       updatedAt := now)
  }

  const NoChanges: JobUpdate := JobUpdate("", "", "", "", "", "", "", None, None)

  /** An update that fills in nothing only moves `updated_at`. */
  lemma {:induction false} EmptyUpdateOnlyTouches(j: Job, now: int)
    ensures Revise(j, NoChanges, now) == j.(updatedAt := now)
  {
  }

  /** Repeating an update is the same as applying it once (a `$set` is idempotent). */
  lemma {:induction false} ReviseIdempotent(j: Job, u: JobUpdate, t1: int, t2: int)
    ensures Revise(Revise(j, u, t1), u, t2) == Revise(j, u, t2)
  {
  }

  /** The filter of `UpdateJob`'s ownership check. */
  function OwnedActive(id: ObjectId, caller: ObjectId): Job -> bool
  {
    (j: Job) => j.id == id && j.postedBy == caller && j.isActive
  }

  /** The filter of `DeleteJob`: any active job for an admin, only the caller's own otherwise. */
  function Deletable(id: ObjectId, caller: ObjectId, role: AuthMiddleware.Role): Job -> bool
  {
    (j: Job) => j.id == id && j.isActive && (role == AuthMiddleware.Admin || j.postedBy == caller)
  }

  /** The `$inc` of `applicants_count` on the first job with that ID, if any. */
  function Bump(jobs: seq<Job>, id: ObjectId, delta: int): (r: seq<Job>)
    ensures |r| == |jobs|
    ensures FirstWhere(jobs, WithJobId(id)).None? ==> r == jobs
    ensures forall i :: 0 <= i < |jobs| ==>
              r[i] == jobs[i].(applicantsCount := r[i].applicantsCount)
    ensures forall i :: 0 <= i < |jobs| && jobs[i].id != id ==> r[i] == jobs[i]
  {
    match FirstWhere(jobs, WithJobId(id))
    case None => jobs
    case Some(k) => jobs[k := jobs[k].(applicantsCount := jobs[k].applicantsCount + delta)]
  }

  /** With unique IDs, `Bump` moves exactly the counter of the job with that ID, by `delta`. */
  lemma {:induction false} BumpCounts(jobs: seq<Job>, id: ObjectId, delta: int, i: nat)
    requires JobIdsUnique(jobs) && i < |jobs|
    ensures Bump(jobs, id, delta)[i].applicantsCount ==
            jobs[i].applicantsCount + (if jobs[i].id == id then delta else 0)
  {
  }

  // ---------------------------------------------------------------------------
  // The collections

  class JobBoard {
    var jobs: seq<Job>
    var interests: seq<Mark>

    /** Job IDs and interest IDs are unique. */
    predicate Valid()
      reads this
    {
      JobIdsUnique(jobs) && IdsUnique(interests)
    }

    /** A user has shown interest in a job at most once. */
    predicate OnePerPair()
      reads this
    {
      PairsUnique(interests)
    }

    /** Every job's `applicants_count` is the number of interests shown in it. */
    predicate Consistent()
      reads this
    {
      Valid() && forall k :: 0 <= k < |jobs| ==> jobs[k].applicantsCount == MarksOn(interests, jobs[k].id)
    }

    constructor ()
      ensures Consistent() && OnePerPair() && jobs == [] && interests == []
    {
      jobs, interests := [], [];
    }

    /** `CreateJob`: a valid posting is stored as a new active job with no applicants. */
    method CreateJob(req: Checked<JobRequest>, poster: ObjectId, id: ObjectId, now: int, fails: set<Step>)
      returns (reply: Reply)
      requires Valid()
      requires forall i :: 0 <= i < |jobs| ==> jobs[i].id != id
      modifies this`jobs
      ensures Valid() && (old(Consistent()) && MarksOn(old(interests), id) == 0 ==> Consistent())
      ensures jobs != old(jobs) && MarksOn(old(interests), id) != 0 ==> !Consistent()
      ensures req.Invalid? ==> reply == Reply(400, req.message) && jobs == old(jobs)
      ensures req.Parsed? && InsertJob in fails ==> reply == Reply(500, "Failed to create job") && jobs == old(jobs)
      ensures req.Parsed? && InsertJob !in fails ==>
                reply == Reply(201, "Job created successfully") && jobs == old(jobs) + [NewJob(req.value, id, poster, now)]
    {
      if req.Invalid? {
        return Reply(400, req.message);
      }
      if InsertJob in fails {
        return Reply(500, "Failed to create job");
      }
      var job := NewJob(req.value, id, poster, now);
      jobs := jobs + [job];
      assert jobs[|jobs| - 1] == job;
      reply := Reply(201, "Job created successfully");
    }

    /**
     * `ShowInterest`: an interest the duplicate check finds is refused with 409;
     * otherwise one interest is inserted and the job's counter rises by one.  When
     * the check's read fails the insert goes ahead, so a second interest of the same
     * user in the same job can be stored.  If the counter update fails the interest
     * stays, and the count is then one short.
     */
    method ShowInterest(jobHex: string, user: ObjectId, markId: ObjectId, now: int, fails: set<Step>)
      returns (reply: Reply)
      requires Valid()
      requires forall i :: 0 <= i < |interests| ==> interests[i].id != markId
      modifies this
      ensures Valid()
      ensures FromHex(jobHex).None? ==>
                reply == Reply(400, "Invalid job ID") && jobs == old(jobs) && interests == old(interests)
      ensures FromHex(jobHex).Some? ==>
                var job := FromHex(jobHex).value;
                var mark := Mark(markId, job, user, now);
                if FindInterest !in fails && FirstWhere(old(interests), PairFilter(job, user)).Some? then
                  reply == Reply(409, "Already showed interest in this job") &&
                  jobs == old(jobs) && interests == old(interests)
                else if InsertInterest in fails then
                  reply == Reply(500, "Failed to show interest") && jobs == old(jobs) && interests == old(interests)
                else if IncrementApplicants in fails then
                  reply == Reply(500, "Failed to update applicants count") && jobs == old(jobs) &&
                  interests == old(interests) + [mark]
                else
                  reply == Reply(200, "Interest shown successfully") &&
                  interests == old(interests) + [mark] && jobs == Bump(old(jobs), job, 1)
      ensures old(Consistent()) && reply.status == 200 ==> Consistent()
      ensures old(OnePerPair()) && FindInterest !in fails ==> OnePerPair()
    {
      var parsed := FromHex(jobHex);
      if parsed.None? {
        return Reply(400, "Invalid job ID");
      }
      var job := parsed.value;
      if FindInterest !in fails && FirstWhere(interests, PairFilter(job, user)).Some? {
        return Reply(409, "Already showed interest in this job");
      }
      if InsertInterest in fails {
        return Reply(500, "Failed to show interest");
      }
      var mark := Mark(markId, job, user, now);
      AddKeepsUnique(interests, mark);
      ghost var before := interests;
      interests := interests + [mark];
      if IncrementApplicants in fails {
        return Reply(500, "Failed to update applicants count");
      }
      ghost var consistent := old(Consistent());
      jobs := Bump(jobs, job, 1);
      if consistent {
        forall k | 0 <= k < |jobs|
          ensures jobs[k].applicantsCount == MarksOn(interests, jobs[k].id)
        {
          BumpCounts(old(jobs), job, 1, k);
          AddCounts(before, mark, old(jobs)[k].id);
        }
      }
      reply := Reply(200, "Interest shown successfully");
    }

    /**
     * `RemoveInterest`: with no interest of this user in this job the answer is 404
     * and nothing changes; otherwise the interest is deleted and the counter falls
     * by one.
     */
    method RemoveInterest(jobHex: string, user: ObjectId, fails: set<Step>)
      returns (reply: Reply)
      requires Valid()
      modifies this
      ensures Valid()
      ensures FromHex(jobHex).None? ==>
                reply == Reply(400, "Invalid job ID") && jobs == old(jobs) && interests == old(interests)
      ensures FromHex(jobHex).Some? ==>
                var job := FromHex(jobHex).value;
                var found := FirstWhere(old(interests), PairFilter(job, user));
                if found.None? || DeleteInterest in fails then
                  reply == Reply(404, "Interest not found") && jobs == old(jobs) && interests == old(interests)
                else
                  interests == old(interests)[..found.value] + old(interests)[found.value + 1..] &&
                  if DecrementApplicants in fails then
                    reply == Reply(500, "Failed to update applicants count") && jobs == old(jobs)
                  else
                    reply == Reply(200, "Interest removed successfully") && jobs == Bump(old(jobs), job, -1)
      ensures old(OnePerPair()) ==> OnePerPair()
      ensures old(OnePerPair()) && reply.status == 200 ==>
                FirstWhere(interests, PairFilter(FromHex(jobHex).value, user)).None?
      ensures old(Consistent()) && reply.status == 200 ==> Consistent()
    {
      var parsed := FromHex(jobHex);
      if parsed.None? {
        return Reply(400, "Invalid job ID");
      }
      var job := parsed.value;
      var found := FirstWhere(interests, PairFilter(job, user));
      if found.None? || DeleteInterest in fails {
        return Reply(404, "Interest not found");
      }
      var k := found.value;
      if PairsUnique(interests) {
        RemovedPairIsGone(interests, job, user);
      }
      reply := Withdraw(k, job, fails);
    }

    /** Deletes interest `k`, shown in `job`, then takes one off that job's counter. */
    method Withdraw(k: nat, job: ObjectId, fails: set<Step>) returns (reply: Reply)
      requires Valid() && k < |interests| && interests[k].targetId == job
      modifies this
      ensures Valid()
      ensures interests == old(interests)[..k] + old(interests)[k + 1..]
      ensures DecrementApplicants in fails ==>
                reply == Reply(500, "Failed to update applicants count") && jobs == old(jobs)
      ensures DecrementApplicants !in fails ==>
                reply == Reply(200, "Interest removed successfully") && jobs == Bump(old(jobs), job, -1)
      ensures old(OnePerPair()) ==> OnePerPair()
      ensures old(Consistent()) && reply.status == 200 ==> Consistent()
    {
      RemoveKeepsUnique(interests, k);
      ghost var before := interests;
      interests := interests[..k] + interests[k + 1..];
      if DecrementApplicants in fails {
        return Reply(500, "Failed to update applicants count");
      }
      ghost var consistent := old(Consistent());
      jobs := Bump(jobs, job, -1);
      if consistent {
        forall i | 0 <= i < |jobs|
          ensures jobs[i].applicantsCount == MarksOn(interests, jobs[i].id)
        {
          BumpCounts(old(jobs), job, -1, i);
          RemoveCounts(before, k, old(jobs)[i].id);
        }
      }
      reply := Reply(200, "Interest removed successfully");
    }

    /**
     * `DeleteJob`: a soft delete of the first active job with that ID, which for a
     * caller who is not an admin must also be the caller's own.  A request that
     * matches nothing still answers 200 and changes nothing.
     */
    method DeleteJob(jobHex: string, caller: ObjectId, role: AuthMiddleware.Role, now: int, fails: set<Step>)
      returns (reply: Reply)
      modifies this`jobs
      ensures |jobs| == |old(jobs)|
      ensures forall i :: 0 <= i < |jobs| ==>
                jobs[i] == old(jobs)[i] || jobs[i] == old(jobs)[i].(isActive := false, updatedAt := now)
      ensures role != AuthMiddleware.Admin ==>
                forall i :: 0 <= i < |jobs| && old(jobs)[i].postedBy != caller ==> jobs[i] == old(jobs)[i]
      ensures FromHex(jobHex).None? ==> reply == Reply(400, "Invalid job ID") && jobs == old(jobs)
      ensures FromHex(jobHex).Some? && SoftDelete in fails ==>
                reply == Reply(404, "Job not found or access denied") && jobs == old(jobs)
      ensures FromHex(jobHex).Some? && SoftDelete !in fails ==>
                var found := FirstWhere(old(jobs), Deletable(FromHex(jobHex).value, caller, role));
                reply == Reply(200, "Job deleted successfully") &&
                (found.None? ==> jobs == old(jobs)) &&
                (found.Some? ==> jobs == old(jobs)[found.value := old(jobs)[found.value].(isActive := false, updatedAt := now)])
      ensures old(Consistent()) ==> Consistent()
    {
      var parsed := FromHex(jobHex);
      if parsed.None? {
        return Reply(400, "Invalid job ID");
      }
      if SoftDelete in fails {
        return Reply(404, "Job not found or access denied");
      }
      var found := FirstWhere(jobs, Deletable(parsed.value, caller, role));
      if found.Some? {
        var k := found.value;
        jobs := jobs[k := jobs[k].(isActive := false, updatedAt := now)];
      }
      reply := Reply(200, "Job deleted successfully");
    }

    /**
     * `UpdateJob`: only the poster may update an active job; the update sets
     * `updated_at` and the fields the request fills in, and nothing else.
     */
    method UpdateJob(jobHex: string, caller: ObjectId, req: Checked<JobUpdate>, now: int, fails: set<Step>)
      returns (reply: Reply)
      requires Valid()
      modifies this`jobs
      ensures Valid() && (old(Consistent()) ==> Consistent())
      ensures FromHex(jobHex).None? ==> reply == Reply(400, "Invalid job ID") && jobs == old(jobs)
      ensures FromHex(jobHex).Some? && req.Invalid? ==> reply == Reply(400, req.message) && jobs == old(jobs)
      ensures FromHex(jobHex).Some? && req.Parsed? &&
              FirstWhere(old(jobs), OwnedActive(FromHex(jobHex).value, caller)).None? ==>
                reply == Reply(404, "Job not found or access denied") && jobs == old(jobs)
      ensures FromHex(jobHex).Some? && req.Parsed? &&
              FirstWhere(old(jobs), OwnedActive(FromHex(jobHex).value, caller)).Some? ==>
                var k := FirstWhere(old(jobs), OwnedActive(FromHex(jobHex).value, caller)).value;
                if UpdateDocument in fails then
                  reply == Reply(500, "Failed to update job") && jobs == old(jobs)
                else
                  reply == Reply(200, "Job updated successfully") &&
                  jobs == old(jobs)[k := Revise(old(jobs)[k], req.value, now)]
    {
      var parsed := FromHex(jobHex);
      if parsed.None? {
        return Reply(400, "Invalid job ID");
      }
      if req.Invalid? {
        return Reply(400, req.message);
      }
      var owned := FirstWhere(jobs, OwnedActive(parsed.value, caller));
      if owned.None? {
        return Reply(404, "Job not found or access denied");
      }
      assert FirstWhere(jobs, WithJobId(parsed.value)) == owned;
      reply := FindAndRevise(parsed.value, req.value, now, fails);
    }

    /**
     * `FindOneAndUpdate` on `{_id: id}`: the first job with that ID gets the update;
     * with none, or when the store fails, the answer is 500.
     */
    method FindAndRevise(id: ObjectId, u: JobUpdate, now: int, fails: set<Step>) returns (reply: Reply)
      requires Valid()
      modifies this`jobs
      ensures Valid() && (old(Consistent()) ==> Consistent())
      ensures Revised(old(jobs), jobs, id, u, now, fails, reply)
    {
      var found := FirstWhere(jobs, WithJobId(id));
      if found.None? || UpdateDocument in fails {
        return Reply(500, "Failed to update job");
      }
      var k := found.value;
      jobs := jobs[k := Revise(jobs[k], u, now)];
      reply := Reply(200, "Job updated successfully");
    }
  }

  /** The outcome of `FindAndRevise`: the first job with that ID revised and 200, or nothing changed and 500. */
  ghost predicate Revised(before: seq<Job>, after: seq<Job>, id: ObjectId, u: JobUpdate, now: int,
                          fails: set<Step>, reply: Reply)
  {
    var found := FirstWhere(before, WithJobId(id));
    if found.None? || UpdateDocument in fails then
      reply == Reply(500, "Failed to update job") && after == before
    else
      reply == Reply(200, "Job updated successfully") &&
      after == before[found.value := Revise(before[found.value], u, now)]
  }
}
