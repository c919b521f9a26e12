/** NsBuffetRepository: the table of saved jobs (nsbuffet2) and the three
    queries the job service runs on it. Its insert and delete have the same
    shape as InterestCompanyRepository's, so several lemmas below repeat the
    company ones over job rows. */
module JobRepository {
  import opened Seqs

  /** One row of nsbuffet2, restricted to the columns the core reads or
      writes. `inputDate` is the insertion time as a number. */
  datatype JobRow = JobRow(idNo: int, jobNo: int, custNo: int, inputDate: int)

  /** A saved job as findByIdNo hands it to the service and as the service
      lists it: the job number and when it was saved. */
  datatype SavedJob = SavedJob(jobNo: int, inputDate: int)

  /** One element of the `$jobs` argument of insertMany and batchCreate. */
  datatype JobRequest = JobRequest(jobNo: int, custNo: int)

  function RowDate(r: JobRow): int { r.inputDate }
  function SavedDate(s: SavedJob): int { s.inputDate }
  function ToSavedJob(r: JobRow): SavedJob { SavedJob(r.jobNo, r.inputDate) }

  /** WHERE id_no = idNo */
  function Owner(idNo: int): JobRow -> bool
  {
    (r: JobRow) => r.idNo == idNo
  }

  /** The rows a delete with the same WHERE clause leaves in place. */
  function Unmatched(idNo: int, jobNos: seq<int>): JobRow -> bool
  {
    (r: JobRow) => !(r.idNo == idNo && r.jobNo in jobNos)
  }

  /** WHERE id_no = idNo AND jobno IN jobNos */
  function Matching(idNo: int, jobNos: seq<int>): JobRow -> bool
  {
    (r: JobRow) => r.idNo == idNo && r.jobNo in jobNos
  }

  /** The row insertMany writes for one requested job. */
  function NewRow(idNo: int, now: int): JobRequest -> JobRow
  {
    (j: JobRequest) => JobRow(idNo, j.jobNo, j.custNo, now)
  }

  function OwnedBy(rows: seq<JobRow>, idNo: int): seq<JobRow>
  {
    Filter(rows, Owner(idNo))
  }

  /** findByIdNo: the user's saved jobs, newest first. */
  function FindByIdNo(rows: seq<JobRow>, idNo: int): (r: seq<SavedJob>)
    ensures |r| == |OwnedBy(rows, idNo)|
  {
    Map(SortDesc(OwnedBy(rows, idNo), RowDate), ToSavedJob)
  }

  /** The rows insertMany writes: one per requested job, in input order. */
  function NewRows(idNo: int, jobs: seq<JobRequest>, now: int): (r: seq<JobRow>)
    ensures |r| == |jobs|
    ensures forall i :: 0 <= i < |jobs| ==> r[i] == JobRow(idNo, jobs[i].jobNo, jobs[i].custNo, now)
  {
    Map(jobs, NewRow(idNo, now))
  }

  function DeleteRows(rows: seq<JobRow>, idNo: int, jobNos: seq<int>): seq<JobRow>
  {
    Filter(rows, Unmatched(idNo, jobNos))
  }

  function MatchCount(rows: seq<JobRow>, idNo: int, jobNos: seq<int>): nat
  {
    |Filter(rows, Matching(idNo, jobNos))|
  }

  /** The loop of insertMany that builds the rows to insert. */
  method BuildRows(idNo: int, jobs: seq<JobRequest>, now: int) returns (data: seq<JobRow>)
    ensures |data| == |jobs|
    ensures forall i :: 0 <= i < |jobs| ==> data[i] == JobRow(idNo, jobs[i].jobNo, jobs[i].custNo, now)
  {
    data := [];
    for i := 0 to |jobs|
      invariant |data| == i
      invariant forall k :: 0 <= k < i ==> data[k] == JobRow(idNo, jobs[k].jobNo, jobs[k].custNo, now)
    {
      data := data + [JobRow(idNo, jobs[i].jobNo, jobs[i].custNo, now)];
    }
  }

  /** The table itself; each method is one statement against it. */
  class NsBuffetRepository {
    var rows: seq<JobRow>

    constructor (rows: seq<JobRow>)
      ensures this.rows == rows
    {
      this.rows := rows;
    }

    /** Adds one row per requested job and answers with the number of jobs
        given, not a count reported by the database. */
    method InsertMany(idNo: int, jobs: seq<JobRequest>, now: int) returns (count: int)
      modifies this
      ensures rows == old(rows) + NewRows(idNo, jobs, now)
      ensures count == |jobs|
    {
      var data := BuildRows(idNo, jobs, now);
      rows := rows + data;
      count := |jobs|;
    }

    /** Removes the user's rows whose jobno is listed; answers with the number
        of rows removed. */
    method DeleteMany(idNo: int, jobNos: seq<int>) returns (count: int)
      modifies this
      ensures rows == DeleteRows(old(rows), idNo, jobNos)
      ensures count == MatchCount(old(rows), idNo, jobNos)
    {
      count := MatchCount(rows, idNo, jobNos);
      rows := DeleteRows(rows, idNo, jobNos);
    }
  }

  // ---------------------------------------------------------------------
  // What findByIdNo answers

  /** The answer is ordered by input_date, newest first. */
  lemma FindByIdNoOrdered(rows: seq<JobRow>, idNo: int)
    ensures SortedDesc(FindByIdNo(rows, idNo), SavedDate)
    ensures multiset(FindByIdNo(rows, idNo)) == multiset(Map(OwnedBy(rows, idNo), ToSavedJob))
  {
    var owned := OwnedBy(rows, idNo);
    SortMapCommute(owned, RowDate, ToSavedJob, SavedDate);
    SortIsSorted(Map(owned, ToSavedJob), SavedDate);
    SortPermutes(Map(owned, ToSavedJob), SavedDate);
  }

  /** A saved job is in the answer iff a row of the user records it. */
  lemma FindByIdNoMembership(rows: seq<JobRow>, idNo: int, s: SavedJob)
    ensures s in FindByIdNo(rows, idNo)
        <==> exists r :: r in rows && r.idNo == idNo && ToSavedJob(r) == s
  {
    var owned := OwnedBy(rows, idNo);
    var sorted := SortDesc(owned, RowDate);
    var found := FindByIdNo(rows, idNo);
    if s in found {
      var i :| 0 <= i < |found| && found[i] == s;
      var r := sorted[i];
      SortedMembership(owned, RowDate, r);
      FilterMembership(rows, Owner(idNo), r);
    }
    if r :| r in rows && r.idNo == idNo && ToSavedJob(r) == s {
      FilterMembership(rows, Owner(idNo), r);
      SortedMembership(owned, RowDate, r);
      MapMembership(sorted, ToSavedJob, r);
    }
  }

  /** A job number is saved for the user iff a row of the user carries it. */
  lemma SavedJobNoMembership(rows: seq<JobRow>, idNo: int, jobNo: int)
    ensures (exists s :: s in FindByIdNo(rows, idNo) && s.jobNo == jobNo)
        <==> exists r :: r in rows && r.idNo == idNo && r.jobNo == jobNo
  {
    if s :| s in FindByIdNo(rows, idNo) && s.jobNo == jobNo {
      FindByIdNoMembership(rows, idNo, s);
    }
    if r :| r in rows && r.idNo == idNo && r.jobNo == jobNo {
      FindByIdNoMembership(rows, idNo, ToSavedJob(r));
    }
  }

  // ---------------------------------------------------------------------
  // insertMany

  lemma InsertOwned(rows: seq<JobRow>, idNo: int, jobs: seq<JobRequest>, now: int, other: int)
    ensures OwnedBy(rows + NewRows(idNo, jobs, now), other)
         == OwnedBy(rows, other) + (if other == idNo then NewRows(idNo, jobs, now) else [])
  {
    var added := NewRows(idNo, jobs, now);
    FilterAppend(rows, added, Owner(other));
    if other == idNo {
      FilterAllKept(added, Owner(other));
    } else {
      FilterNoneKept(added, Owner(other));
    }
  }

  /** An insert for one user leaves every other user's saved jobs as they were. */
  lemma InsertKeepsOtherUsers(rows: seq<JobRow>, idNo: int, jobs: seq<JobRequest>, now: int, other: int)
    requires other != idNo
    ensures FindByIdNo(rows + NewRows(idNo, jobs, now), other) == FindByIdNo(rows, other)
  {
    InsertOwned(rows, idNo, jobs, now, other);
    assert OwnedBy(rows, other) + [] == OwnedBy(rows, other);
  }

  /** After an insert the user has one more saved entry per requested job, and
      the new entries are exactly the requested job numbers stamped `now`. */
  lemma InsertGrowsView(rows: seq<JobRow>, idNo: int, jobs: seq<JobRequest>, now: int, s: SavedJob)
    ensures |FindByIdNo(rows + NewRows(idNo, jobs, now), idNo)| == |FindByIdNo(rows, idNo)| + |jobs|
    ensures s in FindByIdNo(rows + NewRows(idNo, jobs, now), idNo)
        <==> s in FindByIdNo(rows, idNo) || (s.inputDate == now && exists j :: j in jobs && j.jobNo == s.jobNo)
  {
    var added := NewRows(idNo, jobs, now);
    InsertOwned(rows, idNo, jobs, now, idNo);
    FindByIdNoMembership(rows + added, idNo, s);
    FindByIdNoMembership(rows, idNo, s);
    if j :| j in jobs && j.jobNo == s.jobNo {
      var i :| 0 <= i < |jobs| && jobs[i] == j;
      assert added[i] in rows + added;
    }
    if r :| r in added && ToSavedJob(r) == s {
      var i :| 0 <= i < |added| && added[i] == r;
      assert jobs[i] in jobs;
    }
  }

  /** A requested job as the service reads it back: its jobno, stamped `now`. */
  function Stamped(now: int): JobRequest -> SavedJob
  {
    (j: JobRequest) => SavedJob(j.jobNo, now)
  }

  /** Saving a batch for a user with nothing saved, in a table that may hold
      other users' rows, and reading it back gives the requested job numbers
      in input order, all stamped `now`. The order follows from the model's
      one timestamp per batch and its table order for ties. */
  lemma InsertThenFind(rows: seq<JobRow>, idNo: int, jobs: seq<JobRequest>, now: int)
    requires OwnedBy(rows, idNo) == []
    ensures FindByIdNo(rows + NewRows(idNo, jobs, now), idNo) == Map(jobs, Stamped(now))
  {
    var added := NewRows(idNo, jobs, now);
    InsertOwned(rows, idNo, jobs, now, idNo);
    assert OwnedBy(rows + added, idNo) == added;
    assert SortedDesc(added, RowDate);
    SortSorted(added, RowDate);
    MapCompose(jobs, NewRow(idNo, now), ToSavedJob, Stamped(now));
  }

  // ---------------------------------------------------------------------
  // deleteMany

  /** The number deleteMany reports is the number of rows it removed. */
  lemma DeleteCount(rows: seq<JobRow>, idNo: int, jobNos: seq<int>)
    ensures |rows| - |DeleteRows(rows, idNo, jobNos)| == MatchCount(rows, idNo, jobNos)
  {
    FilterComplement(rows, Matching(idNo, jobNos), Unmatched(idNo, jobNos));
  }

  /** A delete that matches nothing leaves the table as it was. */
  lemma DeleteNothing(rows: seq<JobRow>, idNo: int, jobNos: seq<int>)
    requires MatchCount(rows, idNo, jobNos) == 0
    ensures DeleteRows(rows, idNo, jobNos) == rows
  {
    DeleteCount(rows, idNo, jobNos);
    FilterKeepsLength(rows, Unmatched(idNo, jobNos));
  }

  /** A delete for one user leaves every other user's saved jobs as they were. */
  lemma DeleteKeepsOtherUsers(rows: seq<JobRow>, idNo: int, jobNos: seq<int>, other: int)
    requires other != idNo
    ensures FindByIdNo(DeleteRows(rows, idNo, jobNos), other) == FindByIdNo(rows, other)
  {
    FilterSubsumed(rows, Unmatched(idNo, jobNos), Owner(other));
  }

  /** After a delete no listed job number is saved for the user, and every
      other saved entry of the user is still there. */
  lemma DeleteEffect(rows: seq<JobRow>, idNo: int, jobNos: seq<int>, s: SavedJob)
    ensures s.jobNo in jobNos ==> s !in FindByIdNo(DeleteRows(rows, idNo, jobNos), idNo)
    ensures s.jobNo !in jobNos ==>
      (s in FindByIdNo(DeleteRows(rows, idNo, jobNos), idNo) <==> s in FindByIdNo(rows, idNo))
  {
    var after := DeleteRows(rows, idNo, jobNos);
    FindByIdNoMembership(after, idNo, s);
    FindByIdNoMembership(rows, idNo, s);
    forall r: JobRow | r.idNo == idNo && ToSavedJob(r) == s
      ensures r in after <==> r in rows && s.jobNo !in jobNos
    {
      FilterMembership(rows, Unmatched(idNo, jobNos), r);
    }
  }
}
