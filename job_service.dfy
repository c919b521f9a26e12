/** SavedJobService: a user's saved jobs behind a read-through cache. A
    miss reads the saved jobs, asks the job search which of them are still
    open or recently closed, and lists only those; writes forget the user's
    cache entry. */
module JobService {
  import opened Seqs
  import opened CacheKeys
  import opened SavedErrors
  import opened JobRepository

  /** What the service asks of the repository, the job search and the
      cache, in order. */
  datatype JobEvent =
    | Find(idNo: int)
    | Search(jobNos: seq<int>)
    | Insert(idNo: int, jobs: seq<JobRequest>)
    | Delete(idNo: int, jobNos: seq<int>)
    | Put(key: string)
    | Forget(key: string)

  // ---------------------------------------------------------------------
  // validJobFilter

  /** validJobFilter as written: PHP's `+` on the two lists is a union of
      their keys, so an off-job survives only at an index the on-job list
      does not reach. */
  function ValidJobNosAsWritten(onJobNos: seq<int>, offJobNos: seq<int>): (r: seq<int>)
    ensures |r| == if |offJobNos| > |onJobNos| then |offJobNos| else |onJobNos|
    ensures forall i :: 0 <= i < |r| ==> r[i] == if i < |onJobNos| then onJobNos[i] else offJobNos[i]
  {
    if |offJobNos| > |onJobNos| then onJobNos + offJobNos[|onJobNos|..] else onJobNos
  }

  /** validJobFilter as its documentation describes it: the open jobs
      together with the closed ones. */
  function ValidJobNos(onJobNos: seq<int>, offJobNos: seq<int>): (r: seq<int>)
    ensures forall j :: j in r <==> j in onJobNos || j in offJobNos
  {
    onJobNos + offJobNos
  }

  /** Whenever the job search reports at least as many open jobs as closed
      ones, the written filter drops every closed job that is not also open. */
  lemma AsWrittenDropsClosedJobs(onJobNos: seq<int>, offJobNos: seq<int>, j: int)
    requires |offJobNos| <= |onJobNos|
    requires j in offJobNos && j !in onJobNos
    ensures j !in ValidJobNosAsWritten(onJobNos, offJobNos)
    ensures j in ValidJobNos(onJobNos, offJobNos)
  {
  }

  /** One open job and one closed job: the written filter keeps only the
      open one, the intended filter keeps both. */
  lemma AsWrittenCounterexample()
    ensures ValidJobNosAsWritten([101], [202]) == [101]
    ensures ValidJobNos([101], [202]) == [101, 202]
  {
  }

  /** Whatever the written filter keeps, the intended one keeps too. */
  lemma AsWrittenWithinIntended(onJobNos: seq<int>, offJobNos: seq<int>)
    ensures forall j :: j in ValidJobNosAsWritten(onJobNos, offJobNos) ==> j in ValidJobNos(onJobNos, offJobNos)
  {
    var r := ValidJobNosAsWritten(onJobNos, offJobNos);
    forall j | j in r
      ensures j in onJobNos || j in offJobNos
    {
      var i :| 0 <= i < |r| && r[i] == j;
      if i < |onJobNos| {
        assert onJobNos[i] == j;
      } else {
        assert offJobNos[i] == j;
      }
    }
  }

  // ---------------------------------------------------------------------
  // list, on values

  function JobNoOf(s: SavedJob): int { s.jobNo }

  /** array_column($savedJobs, 'jobno') */
  function JobNos(saved: seq<SavedJob>): (r: seq<int>)
    ensures |r| == |saved|
    ensures forall i :: 0 <= i < |saved| ==> r[i] == saved[i].jobNo
  {
    Map(saved, JobNoOf)
  }

  lemma JobNosMembership(saved: seq<SavedJob>, j: int)
    ensures j in JobNos(saved) <==> exists s :: s in saved && s.jobNo == j
  {
    var nos := JobNos(saved);
    if j in nos {
      var i :| 0 <= i < |nos| && nos[i] == j;
      assert saved[i] in saved;
    }
  }

  function HasValidJobNo(validJobNos: seq<int>): SavedJob -> bool
  {
    (s: SavedJob) => s.jobNo in validJobNos
  }

  /** The entries list keeps: the saved jobs whose jobno is valid, in the
      repository's order. */
  function Displayed(saved: seq<SavedJob>, validJobNos: seq<int>): (r: seq<SavedJob>)
    ensures |r| <= |saved|
    ensures forall s :: s in r <==> s in saved && s.jobNo in validJobNos
  {
    FilterMembershipAll(saved, HasValidJobNo(validJobNos));
    Filter(saved, HasValidJobNo(validJobNos))
  }

  /** list's foreach: copies each saved job whose jobno is valid. */
  method BuildSavedList(savedJobs: seq<SavedJob>, validJobNos: seq<int>) returns (savedList: seq<SavedJob>)
    ensures savedList == Displayed(savedJobs, validJobNos)
  {
    savedList := [];
    var i := 0;
    while i < |savedJobs|
      invariant 0 <= i <= |savedJobs|
      invariant savedList == Displayed(savedJobs[..i], validJobNos)
    {
      var savedJob := savedJobs[i];
      FilterAppend(savedJobs[..i], [savedJob], HasValidJobNo(validJobNos));
      assert savedJobs[..i + 1] == savedJobs[..i] + [savedJob];
      if savedJob.jobNo in validJobNos {
        savedList := savedList + [SavedJob(savedJob.jobNo, savedJob.inputDate)];
      }
      i := i + 1;
    }
    assert savedJobs[..i] == savedJobs;
  }

  /** What a miss lists: the user's saved jobs, newest first, that the job
      search reports as open or closed. */
  function ListFor(rows: seq<JobRow>, idNo: int, onJobs: seq<int> -> seq<int>, offJobs: seq<int> -> seq<int>): (r: seq<SavedJob>)
    ensures |r| <= |FindByIdNo(rows, idNo)|
  {
    var saved := FindByIdNo(rows, idNo);
    var jobNos := JobNos(saved);
    Displayed(saved, ValidJobNos(onJobs(jobNos), offJobs(jobNos)))
  }

  /** What list answers: the cached entry on a hit, ListFor on a miss. */
  function CachedJobList(cache: map<string, seq<SavedJob>>, rows: seq<JobRow>, idNo: int,
                         onJobs: seq<int> -> seq<int>, offJobs: seq<int> -> seq<int>): seq<SavedJob>
  {
    var key := JobListCacheKey(idNo);
    if key in cache then cache[key] else ListFor(rows, idNo, onJobs, offJobs)
  }

  /** The cache after list: a miss with a non-empty answer stores it. */
  function JobCacheAfterList(cache: map<string, seq<SavedJob>>, rows: seq<JobRow>, idNo: int,
                             onJobs: seq<int> -> seq<int>, offJobs: seq<int> -> seq<int>): map<string, seq<SavedJob>>
  {
    var key := JobListCacheKey(idNo);
    var found := ListFor(rows, idNo, onJobs, offJobs);
    if key !in cache && found != [] then cache[key := found] else cache
  }

  /** What list asks for: nothing on a hit; on a miss the query, the job
      search, then the store if the answer is non-empty. */
  ghost function JobListEvents(cache: map<string, seq<SavedJob>>, rows: seq<JobRow>, idNo: int,
                               onJobs: seq<int> -> seq<int>, offJobs: seq<int> -> seq<int>): seq<JobEvent>
  {
    var key := JobListCacheKey(idNo);
    if key in cache then []
    else
      var lookup := [Find(idNo), Search(JobNos(FindByIdNo(rows, idNo)))];
      if ListFor(rows, idNo, onJobs, offJobs) != [] then lookup + [Put(key)] else lookup
  }

  /** Every cached list equals what a miss would list now. */
  ghost predicate JobCoherentWith(cache: map<string, seq<SavedJob>>, rows: seq<JobRow>,
                                  onJobs: seq<int> -> seq<int>, offJobs: seq<int> -> seq<int>)
  {
    forall idNo: int :: JobListCacheKey(idNo) in cache ==>
      cache[JobListCacheKey(idNo)] == ListFor(rows, idNo, onJobs, offJobs)
  }

  /** batchCreate's array_filter: the requested jobs whose jobno is not
      listed, in request order. */
  function JobNotIn(jobNos: seq<int>): JobRequest -> bool
  {
    (j: JobRequest) => j.jobNo !in jobNos
  }

  function NewJobs(jobs: seq<JobRequest>, savedJobNos: seq<int>): (r: seq<JobRequest>)
    ensures |r| <= |jobs|
    ensures forall j :: j in r <==> j in jobs && j.jobNo !in savedJobNos
  {
    FilterMembershipAll(jobs, JobNotIn(savedJobNos));
    Filter(jobs, JobNotIn(savedJobNos))
  }

  // ---------------------------------------------------------------------
  // The service

  class SavedJobService {
    const repository: NsBuffetRepository
    /** The job search's two lookups: which of the given jobnos are open,
        and which are closed. */
    const onJobs: seq<int> -> seq<int>
    const offJobs: seq<int> -> seq<int>
    var cache: map<string, seq<SavedJob>>
    ghost var trace: seq<JobEvent>

    constructor (repository: NsBuffetRepository, onJobs: seq<int> -> seq<int>, offJobs: seq<int> -> seq<int>,
                 cache: map<string, seq<SavedJob>>)
      ensures this.repository == repository && this.onJobs == onJobs && this.offJobs == offJobs
      ensures this.cache == cache && trace == []
    {
      this.repository := repository;
      this.onJobs := onJobs;
      this.offJobs := offJobs;
      this.cache := cache;
      trace := [];
    }

    ghost predicate Coherent()
      reads this, repository
    {
      JobCoherentWith(cache, repository.rows, onJobs, offJobs)
    }

    /** list: a hit answers from the cache and touches nothing else; a miss
        lists the saved jobs the job search still knows and stores a
        non-empty answer. */
    method List(idNo: int) returns (savedList: seq<SavedJob>)
      modifies this
      ensures savedList == CachedJobList(old(cache), repository.rows, idNo, onJobs, offJobs)
      ensures cache == JobCacheAfterList(old(cache), repository.rows, idNo, onJobs, offJobs)
      ensures trace == old(trace) + JobListEvents(old(cache), repository.rows, idNo, onJobs, offJobs)
    {
      var cacheKey := JobListCacheKey(idNo);
      if cacheKey in cache {
        savedList := cache[cacheKey];
        return;
      }
      var savedJobs := FindByIdNo(repository.rows, idNo);
      var savedJobNos := JobNos(savedJobs);
      var validJobNos := ValidJobNos(onJobs(savedJobNos), offJobs(savedJobNos));
      savedList := BuildSavedList(savedJobs, validJobNos);
      if savedList != [] {
        cache := cache[cacheKey := savedList];
        trace := trace + ([Find(idNo), Search(savedJobNos)] + [Put(cacheKey)]);
      } else {
        trace := trace + [Find(idNo), Search(savedJobNos)];
      }
    }

    /** batchCreate: throws 37001 when the listed jobs plus the raw request
        exceed the limit; otherwise inserts the requested jobs whose jobno is
        not listed and forgets the user's key. From a coherent cache every
        requested job is saved after a call that returns. */
    method BatchCreate(idNo: int, jobs: seq<JobRequest>, now: int) returns (result: Outcome<int>)
      modifies this, repository
      ensures
        var listedJobs := CachedJobList(old(cache), old(repository.rows), idNo, onJobs, offJobs);
        var listed := JobCacheAfterList(old(cache), old(repository.rows), idNo, onJobs, offJobs);
        var listing := old(trace) + JobListEvents(old(cache), old(repository.rows), idNo, onJobs, offJobs);
        var valid := NewJobs(jobs, JobNos(listedJobs));
        if ExceedsLimit(|listedJobs|, |jobs|) then
          && result == Thrown(ExceedLimitException(MSG_SAVE_JOB_EXCEED_LIMIT_ERROR, CODE_SAVE_JOB_EXCEED_LIMIT_ERROR))
          && repository.rows == old(repository.rows) && cache == listed && trace == listing
        else if valid == [] then
          && result == Returned(0)
          && repository.rows == old(repository.rows) && cache == listed && trace == listing
        else
          && result == Returned(|valid|)
          && repository.rows == old(repository.rows) + NewRows(idNo, valid, now)
          && cache == listed - {JobListCacheKey(idNo)}
          && trace == listing + [Insert(idNo, valid), Forget(JobListCacheKey(idNo))]
      ensures old(Coherent()) ==> Coherent()
      ensures old(Coherent()) && result.Returned? ==>
        forall j :: j in jobs ==> exists s :: s in FindByIdNo(repository.rows, idNo) && s.jobNo == j.jobNo
    {
      if Coherent() {
        BatchCreateKeepsJobCoherence(cache, repository.rows, idNo, jobs, now, onJobs, offJobs);
      }
      var savedJobNos := List(idNo);
      var jobNos := JobNos(savedJobNos);
      if ExceedsLimit(|jobNos|, |jobs|) {
        result := Thrown(ExceedLimitException(MSG_SAVE_JOB_EXCEED_LIMIT_ERROR, CODE_SAVE_JOB_EXCEED_LIMIT_ERROR));
        return;
      }
      var validJobs := NewJobs(jobs, jobNos);
      if validJobs == [] {
        result := Returned(0);
        return;
      }
      var recordCount := repository.InsertMany(idNo, validJobs, now);
      var key := JobListCacheKey(idNo);
      cache := cache - {key};
      trace := trace + [Insert(idNo, validJobs), Forget(key)];
      result := Returned(recordCount);
    }

    /** batchDelete: deletes the user's rows whose jobno is requested and
        forgets the user's key iff that removed a row. Afterwards no
        requested job is saved and every other saved job still is. */
    method BatchDelete(idNo: int, jobNos: seq<int>) returns (result: int)
      modifies this, repository
      ensures result == MatchCount(old(repository.rows), idNo, jobNos)
      ensures repository.rows == DeleteRows(old(repository.rows), idNo, jobNos)
      ensures cache == if result > 0 then old(cache) - {JobListCacheKey(idNo)} else old(cache)
      ensures trace == old(trace) + (if result > 0 then [Delete(idNo, jobNos), Forget(JobListCacheKey(idNo))] else [Delete(idNo, jobNos)])
      ensures old(Coherent()) ==> Coherent()
      ensures forall s :: (s in FindByIdNo(repository.rows, idNo)
                           <==> s in old(FindByIdNo(repository.rows, idNo)) && s.jobNo !in jobNos)
    {
      DeleteMakesEffect(repository.rows, idNo, jobNos);
      if Coherent() {
        DeleteKeepsJobCoherence(cache, repository.rows, idNo, jobNos, onJobs, offJobs);
      }
      var recordCount := repository.DeleteMany(idNo, jobNos);
      if recordCount > 0 {
        var key := JobListCacheKey(idNo);
        cache := cache - {key};
        trace := trace + [Delete(idNo, jobNos), Forget(key)];
      } else {
        trace := trace + [Delete(idNo, jobNos)];
      }
      result := recordCount;
    }
  }

  // ---------------------------------------------------------------------
  // What list answers

  /** A job is listed iff the user saved it and the job search reports it
      open or closed; a deleted job is never listed. */
  lemma ListForMembership(rows: seq<JobRow>, idNo: int, onJobs: seq<int> -> seq<int>, offJobs: seq<int> -> seq<int>, s: SavedJob)
    ensures
      var jobNos := JobNos(FindByIdNo(rows, idNo));
      (s in ListFor(rows, idNo, onJobs, offJobs)
       <==> s in FindByIdNo(rows, idNo) && (s.jobNo in onJobs(jobNos) || s.jobNo in offJobs(jobNos)))
  {
  }

  /** The listed jobs are ordered newest first, like the repository's. */
  lemma ListForOrdered(rows: seq<JobRow>, idNo: int, onJobs: seq<int> -> seq<int>, offJobs: seq<int> -> seq<int>)
    ensures SortedDesc(ListFor(rows, idNo, onJobs, offJobs), SavedDate)
  {
    var saved := FindByIdNo(rows, idNo);
    var jobNos := JobNos(saved);
    FindByIdNoOrdered(rows, idNo);
    SortedFilter(saved, SavedDate, HasValidJobNo(ValidJobNos(onJobs(jobNos), offJobs(jobNos))));
  }

  // ---------------------------------------------------------------------
  // The cache stays coherent

  /** From a coherent cache list answers ListFor and leaves the cache
      coherent. */
  lemma JobListAnswersRepository(cache: map<string, seq<SavedJob>>, rows: seq<JobRow>, idNo: int,
                                 onJobs: seq<int> -> seq<int>, offJobs: seq<int> -> seq<int>)
    requires JobCoherentWith(cache, rows, onJobs, offJobs)
    ensures CachedJobList(cache, rows, idNo, onJobs, offJobs) == ListFor(rows, idNo, onJobs, offJobs)
    ensures JobCoherentWith(JobCacheAfterList(cache, rows, idNo, onJobs, offJobs), rows, onJobs, offJobs)
  {
    var after := JobCacheAfterList(cache, rows, idNo, onJobs, offJobs);
    forall id: int | JobListCacheKey(id) in after
      ensures after[JobListCacheKey(id)] == ListFor(rows, id, onJobs, offJobs)
    {
      JobListCacheKeyInjective(id, idNo);
    }
  }

  /** An insert followed by forgetting the user's key keeps a coherent cache
      coherent. */
  lemma InsertKeepsJobCoherence(cache: map<string, seq<SavedJob>>, rows: seq<JobRow>, idNo: int, jobs: seq<JobRequest>, now: int,
                                onJobs: seq<int> -> seq<int>, offJobs: seq<int> -> seq<int>)
    requires JobCoherentWith(cache, rows, onJobs, offJobs)
    ensures JobCoherentWith(cache - {JobListCacheKey(idNo)}, rows + NewRows(idNo, jobs, now), onJobs, offJobs)
  {
    var kept := cache - {JobListCacheKey(idNo)};
    forall id: int | JobListCacheKey(id) in kept
      ensures kept[JobListCacheKey(id)] == ListFor(rows + NewRows(idNo, jobs, now), id, onJobs, offJobs)
    {
      InsertKeepsOtherUsers(rows, idNo, jobs, now, id);
    }
  }

  /** batchDelete keeps a coherent cache coherent: a delete that removes a
      row is followed by forgetting the user's key, and one that removes
      nothing leaves the table as it was. */
  lemma DeleteKeepsJobCoherence(cache: map<string, seq<SavedJob>>, rows: seq<JobRow>, idNo: int, jobNos: seq<int>,
                                onJobs: seq<int> -> seq<int>, offJobs: seq<int> -> seq<int>)
    requires JobCoherentWith(cache, rows, onJobs, offJobs)
    ensures JobCoherentWith(cache - {JobListCacheKey(idNo)}, DeleteRows(rows, idNo, jobNos), onJobs, offJobs)
    ensures MatchCount(rows, idNo, jobNos) == 0 ==> DeleteRows(rows, idNo, jobNos) == rows
  {
    var kept := cache - {JobListCacheKey(idNo)};
    forall id: int | JobListCacheKey(id) in kept
      ensures kept[JobListCacheKey(id)] == ListFor(DeleteRows(rows, idNo, jobNos), id, onJobs, offJobs)
    {
      DeleteKeepsOtherUsers(rows, idNo, jobNos, id);
    }
    if MatchCount(rows, idNo, jobNos) == 0 {
      DeleteNothing(rows, idNo, jobNos);
    }
  }

  /** After deleting, a saved job remains iff it was saved and its jobno was
      not requested. */
  lemma DeleteMakesEffect(rows: seq<JobRow>, idNo: int, jobNos: seq<int>)
    ensures forall s :: (s in FindByIdNo(DeleteRows(rows, idNo, jobNos), idNo)
                         <==> s in FindByIdNo(rows, idNo) && s.jobNo !in jobNos)
  {
    forall s: SavedJob
      ensures s in FindByIdNo(DeleteRows(rows, idNo, jobNos), idNo)
        <==> s in FindByIdNo(rows, idNo) && s.jobNo !in jobNos
    {
      DeleteEffect(rows, idNo, jobNos, s);
    }
  }

  /** From a coherent cache, batchCreate reads what a miss would list; when
      it inserts, forgetting the user's key keeps the cache coherent; and
      when it returns, every requested job is saved. */
  lemma BatchCreateKeepsJobCoherence(cache: map<string, seq<SavedJob>>, rows: seq<JobRow>, idNo: int, jobs: seq<JobRequest>, now: int,
                                     onJobs: seq<int> -> seq<int>, offJobs: seq<int> -> seq<int>)
    requires JobCoherentWith(cache, rows, onJobs, offJobs)
    ensures
      var listedJobs := CachedJobList(cache, rows, idNo, onJobs, offJobs);
      var listed := JobCacheAfterList(cache, rows, idNo, onJobs, offJobs);
      var valid := NewJobs(jobs, JobNos(listedJobs));
      var after := rows + NewRows(idNo, valid, now);
      && JobCoherentWith(listed, rows, onJobs, offJobs)
      && JobCoherentWith(listed - {JobListCacheKey(idNo)}, after, onJobs, offJobs)
      && (valid == [] ==> forall j :: j in jobs ==> exists s :: s in FindByIdNo(rows, idNo) && s.jobNo == j.jobNo)
      && forall j :: j in jobs ==> exists s :: s in FindByIdNo(after, idNo) && s.jobNo == j.jobNo
  {
    JobListAnswersRepository(cache, rows, idNo, onJobs, offJobs);
    var listedJobs := ListFor(rows, idNo, onJobs, offJobs);
    var listed := JobCacheAfterList(cache, rows, idNo, onJobs, offJobs);
    var valid := NewJobs(jobs, JobNos(listedJobs));
    var after := rows + NewRows(idNo, valid, now);
    InsertKeepsJobCoherence(listed, rows, idNo, valid, now, onJobs, offJobs);
    forall j | j in jobs
      ensures valid == [] ==> exists s :: s in FindByIdNo(rows, idNo) && s.jobNo == j.jobNo
      ensures exists s :: s in FindByIdNo(after, idNo) && s.jobNo == j.jobNo
    {
      if j.jobNo in JobNos(listedJobs) {
        JobNosMembership(listedJobs, j.jobNo);
        var s :| s in listedJobs && s.jobNo == j.jobNo;
        InsertGrowsView(rows, idNo, valid, now, s);
      } else {
        var s := SavedJob(j.jobNo, now);
        assert j in valid;
        InsertGrowsView(rows, idNo, valid, now, s);
      }
    }
  }

  // ---------------------------------------------------------------------
  // Behaviour the code has as written

  /** batchCreate's filter drops only jobs already listed: every occurrence
      of an unlisted job reaches insertMany, so a job repeated inside one
      batch is saved once per repetition. */
  lemma {:induction false} RepeatedJobsAllInserted(jobs: seq<JobRequest>, savedJobNos: seq<int>, j: JobRequest)
    requires j.jobNo !in savedJobNos
    ensures multiset(NewJobs(jobs, savedJobNos))[j] == multiset(jobs)[j]
  {
    if jobs != [] {
      RepeatedJobsAllInserted(jobs[1..], savedJobNos, j);
      assert jobs == [jobs[0]] + jobs[1..];
      FilterCons(jobs[0], jobs[1..], JobNotIn(savedJobNos));
    }
  }

  /** A job search that knows none of the given jobnos. */
  function NoneKnown(jobNos: seq<int>): seq<int> { [] }

  /** The limit counts the listed jobs, not the saved rows: when the job
      search no longer knows any of a user's saved jobs, nothing is listed
      and batchCreate's limit test sees only the request, however many rows
      the user has saved. */
  lemma LimitCountsOnlyListedJobs(rows: seq<JobRow>, idNo: int, jobs: seq<JobRequest>)
    ensures ListFor(rows, idNo, NoneKnown, NoneKnown) == []
    ensures ExceedsLimit(|ListFor(rows, idNo, NoneKnown, NoneKnown)|, |jobs|) <==> |jobs| > TOTAL_LIMIT
  {
    var saved := FindByIdNo(rows, idNo);
    var valid := ValidJobNos(NoneKnown(JobNos(saved)), NoneKnown(JobNos(saved)));
    assert forall j :: j !in valid;
    FilterNoneKept(saved, HasValidJobNo(valid));
    assert Displayed(saved, valid) == ListFor(rows, idNo, NoneKnown, NoneKnown);
  }
}
