/** InterestCompanyRepository: the table of saved companies (interest_company)
    and the four queries the company service runs on it. The table is a
    sequence of rows; the query builder's WHERE, ORDER BY and pluck become
    Filter, SortDesc and Map over it. */
module CompanyRepository {
  import opened Seqs

  /** findByIdNo's flag: every saved company, or only the subscribed ones. */
  const FLAG_LIST_ALL: int := 0
  const FLAG_LIST_SUBSCRIBED: int := 1
  /** updateNotify's value: unsubscribe or subscribe. */
  const ACTION_UNSUBSCRIBE: int := 0
  const ACTION_SUBSCRIBE: int := 1
  /** `notify` of a row that insertMany adds. The insert leaves the column to
      the table's default, which is taken to be 0 (not subscribed). */
  const DEFAULT_NOTIFY: int := 0

  /** One row of interest_company, restricted to the columns the core reads
      or writes. `inputDate` is the insertion time as a number. */
  datatype CompanyRow = CompanyRow(idNo: int, custNo: int, notify: int, inputDate: int)

  /** What the all-companies view depends on: a row without its `notify`. */
  datatype Listing = Listing(custNo: int, inputDate: int)

  function InputDate(r: CompanyRow): int { r.inputDate }
  function CustNo(r: CompanyRow): int { r.custNo }
  function ToListing(r: CompanyRow): Listing { Listing(r.custNo, r.inputDate) }
  function ListingDate(l: Listing): int { l.inputDate }
  function ListingCustNo(l: Listing): int { l.custNo }
  predicate Subscribed(r: CompanyRow) { r.notify == 1 }

  /** WHERE id_no = idNo */
  function Owner(idNo: int): CompanyRow -> bool
  {
    (r: CompanyRow) => r.idNo == idNo
  }

  /** WHERE id_no = idNo AND custno IN custNos */
  function Matching(idNo: int, custNos: seq<int>): CompanyRow -> bool
  {
    (r: CompanyRow) => r.idNo == idNo && r.custNo in custNos
  }

  /** The rows that a delete with the same WHERE clause leaves in place. */
  function Unmatched(idNo: int, custNos: seq<int>): CompanyRow -> bool
  {
    (r: CompanyRow) => !(r.idNo == idNo && r.custNo in custNos)
  }

  /** SET notify = notify on the rows that match, every other row as it was. */
  function SetNotifyOn(idNo: int, custNos: seq<int>, notify: int): CompanyRow -> CompanyRow
  {
    (r: CompanyRow) => if r.idNo == idNo && r.custNo in custNos then r.(notify := notify) else r
  }

  function OwnedBy(rows: seq<CompanyRow>, idNo: int): seq<CompanyRow>
  {
    Filter(rows, Owner(idNo))
  }

  /** The rows findByIdNo selects: the user's rows, and with the flag equal
      to FLAG_LIST_SUBSCRIBED (a strict comparison) only those with notify = 1. */
  function Selected(rows: seq<CompanyRow>, idNo: int, subscriptionFlag: int): seq<CompanyRow>
  {
    if subscriptionFlag == FLAG_LIST_SUBSCRIBED then Filter(OwnedBy(rows, idNo), Subscribed)
    else OwnedBy(rows, idNo)
  }

  /** The selected rows ordered by input_date, newest first. */
  function ListedRows(rows: seq<CompanyRow>, idNo: int, subscriptionFlag: int): seq<CompanyRow>
  {
    SortDesc(Selected(rows, idNo, subscriptionFlag), InputDate)
  }

  /** findByIdNo: the custno of every selected row, newest first. */
  function FindByIdNo(rows: seq<CompanyRow>, idNo: int, subscriptionFlag: int): (r: seq<int>)
    ensures |r| == |Selected(rows, idNo, subscriptionFlag)|
  {
    Map(ListedRows(rows, idNo, subscriptionFlag), CustNo)
  }

  /** The rows insertMany writes: one per custno, in input order. */
  function NewRows(idNo: int, custNos: seq<int>, now: int): (r: seq<CompanyRow>)
    ensures |r| == |custNos|
    ensures forall i :: 0 <= i < |custNos| ==> r[i] == CompanyRow(idNo, custNos[i], DEFAULT_NOTIFY, now)
  {
    Map(custNos, (c: int) => CompanyRow(idNo, c, DEFAULT_NOTIFY, now))
  }

  function DeleteRows(rows: seq<CompanyRow>, idNo: int, custNos: seq<int>): seq<CompanyRow>
  {
    Filter(rows, Unmatched(idNo, custNos))
  }

  function MatchCount(rows: seq<CompanyRow>, idNo: int, custNos: seq<int>): nat
  {
    |Filter(rows, Matching(idNo, custNos))|
  }

  function SetNotify(rows: seq<CompanyRow>, idNo: int, custNos: seq<int>, notify: int): seq<CompanyRow>
  {
    Map(rows, SetNotifyOn(idNo, custNos, notify))
  }

  /** The loop of insertMany that builds the rows to insert. */
  method BuildRows(idNo: int, custNos: seq<int>, now: int) returns (data: seq<CompanyRow>)
    ensures |data| == |custNos|
    ensures forall i :: 0 <= i < |custNos| ==> data[i] == CompanyRow(idNo, custNos[i], DEFAULT_NOTIFY, now)
  {
    data := [];
    for i := 0 to |custNos|
      invariant |data| == i
      invariant forall k :: 0 <= k < i ==> data[k] == CompanyRow(idNo, custNos[k], DEFAULT_NOTIFY, now)
    {
      data := data + [CompanyRow(idNo, custNos[i], DEFAULT_NOTIFY, now)];
    }
  }

  /** The table itself; each method is one statement against it. */
  class InterestCompanyRepository {
    var rows: seq<CompanyRow>

    constructor (rows: seq<CompanyRow>)
      ensures this.rows == rows
    {
      this.rows := rows;
    }

    /** Adds one row per custno and answers with the number of custnos given,
        not a count reported by the database. */
    method InsertMany(idNo: int, custNos: seq<int>, now: int) returns (count: int)
      modifies this
      ensures rows == old(rows) + NewRows(idNo, custNos, now)
      ensures count == |custNos|
    {
      var data := BuildRows(idNo, custNos, now);
      rows := rows + data;
      count := |custNos|;
    }

    /** Removes the user's rows whose custno is listed; answers with the
        number of rows removed. */
    method DeleteMany(idNo: int, custNos: seq<int>) returns (count: int)
      modifies this
      ensures rows == DeleteRows(old(rows), idNo, custNos)
      ensures count == MatchCount(old(rows), idNo, custNos)
    {
      count := MatchCount(rows, idNo, custNos);
      rows := DeleteRows(rows, idNo, custNos);
    }

    /** Sets `notify` on the user's rows whose custno is listed; answers with
        the number of rows matched. */
    method UpdateNotify(idNo: int, custNos: seq<int>, notify: int) returns (count: int)
      modifies this
      ensures rows == SetNotify(old(rows), idNo, custNos, notify)
      ensures count == MatchCount(old(rows), idNo, custNos)
    {
      count := MatchCount(rows, idNo, custNos);
      rows := SetNotify(rows, idNo, custNos, notify);
    }
  }

  // ---------------------------------------------------------------------
  // What findByIdNo answers

  /** The answer lists a permutation of the selected rows, ordered by
      input_date with the newest first. */
  lemma FindByIdNoOrdered(rows: seq<CompanyRow>, idNo: int, subscriptionFlag: int)
    ensures var listed := ListedRows(rows, idNo, subscriptionFlag);
      && SortedDesc(listed, InputDate)
      && multiset(listed) == multiset(Selected(rows, idNo, subscriptionFlag))
      && |FindByIdNo(rows, idNo, subscriptionFlag)| == |listed|
      && forall i :: 0 <= i < |listed| ==> FindByIdNo(rows, idNo, subscriptionFlag)[i] == listed[i].custNo
  {
    SortIsSorted(Selected(rows, idNo, subscriptionFlag), InputDate);
    SortPermutes(Selected(rows, idNo, subscriptionFlag), InputDate);
  }

  lemma SelectedMembership(rows: seq<CompanyRow>, idNo: int, subscriptionFlag: int, r: CompanyRow)
    ensures r in Selected(rows, idNo, subscriptionFlag)
        <==> r in rows && r.idNo == idNo && (subscriptionFlag == FLAG_LIST_SUBSCRIBED ==> r.notify == 1)
  {
    FilterMembership(rows, Owner(idNo), r);
    if subscriptionFlag == FLAG_LIST_SUBSCRIBED {
      FilterMembership(OwnedBy(rows, idNo), Subscribed, r);
    }
  }

  /** A custno is in the answer iff some row of the user carries it (and, for
      the subscribed view, has notify = 1). */
  lemma FindByIdNoMembership(rows: seq<CompanyRow>, idNo: int, subscriptionFlag: int, c: int)
    ensures c in FindByIdNo(rows, idNo, subscriptionFlag)
        <==> exists r :: r in rows && r.idNo == idNo && r.custNo == c
                         && (subscriptionFlag == FLAG_LIST_SUBSCRIBED ==> r.notify == 1)
  {
    var listed := ListedRows(rows, idNo, subscriptionFlag);
    var found := FindByIdNo(rows, idNo, subscriptionFlag);
    if c in found {
      var i :| 0 <= i < |found| && found[i] == c;
      var r := listed[i];
      SortedMembership(Selected(rows, idNo, subscriptionFlag), InputDate, r);
      SelectedMembership(rows, idNo, subscriptionFlag, r);
    }
    if exists r :: r in rows && r.idNo == idNo && r.custNo == c
                   && (subscriptionFlag == FLAG_LIST_SUBSCRIBED ==> r.notify == 1) {
      var r :| r in rows && r.idNo == idNo && r.custNo == c
               && (subscriptionFlag == FLAG_LIST_SUBSCRIBED ==> r.notify == 1);
      SelectedMembership(rows, idNo, subscriptionFlag, r);
      SortedMembership(Selected(rows, idNo, subscriptionFlag), InputDate, r);
      MapMembership(listed, CustNo, r);
    }
  }

  /** The subscribed view is the all-companies view with the unsubscribed
      rows left out, in the same order: a subsequence of it. */
  lemma SubscribedViewIsSubsequence(rows: seq<CompanyRow>, idNo: int)
    ensures FindByIdNo(rows, idNo, FLAG_LIST_SUBSCRIBED)
         == Map(Filter(ListedRows(rows, idNo, FLAG_LIST_ALL), Subscribed), CustNo)
  {
    SortFilterCommute(OwnedBy(rows, idNo), InputDate, Subscribed);
  }

  // ---------------------------------------------------------------------
  // insertMany

  lemma InsertOwned(rows: seq<CompanyRow>, idNo: int, custNos: seq<int>, now: int, other: int)
    ensures OwnedBy(rows + NewRows(idNo, custNos, now), other)
         == OwnedBy(rows, other) + (if other == idNo then NewRows(idNo, custNos, now) else [])
  {
    var added := NewRows(idNo, custNos, now);
    FilterAppend(rows, added, Owner(other));
    if other == idNo {
      FilterAllKept(added, Owner(other));
    } else {
      FilterNoneKept(added, Owner(other));
    }
  }

  /** Inserted rows are not subscribed, so an insert leaves every subscribed
      view as it was. */
  lemma InsertKeepsSubscribedViews(rows: seq<CompanyRow>, idNo: int, custNos: seq<int>, now: int, other: int)
    ensures FindByIdNo(rows + NewRows(idNo, custNos, now), other, FLAG_LIST_SUBSCRIBED)
         == FindByIdNo(rows, other, FLAG_LIST_SUBSCRIBED)
  {
    var added := NewRows(idNo, custNos, now);
    var extra := if other == idNo then added else [];
    InsertOwned(rows, idNo, custNos, now, other);
    FilterAppend(OwnedBy(rows, other), extra, Subscribed);
    FilterNoneKept(extra, Subscribed);
    assert Filter(OwnedBy(rows, other), Subscribed) + [] == Filter(OwnedBy(rows, other), Subscribed);
  }

  /** An insert for one user leaves every view of every other user as it was. */
  lemma InsertKeepsOtherUsers(rows: seq<CompanyRow>, idNo: int, custNos: seq<int>, now: int, other: int, subscriptionFlag: int)
    requires other != idNo
    ensures FindByIdNo(rows + NewRows(idNo, custNos, now), other, subscriptionFlag)
         == FindByIdNo(rows, other, subscriptionFlag)
  {
    InsertOwned(rows, idNo, custNos, now, other);
    assert OwnedBy(rows, other) + [] == OwnedBy(rows, other);
  }

  /** After an insert the user's all-companies view has one more entry per
      inserted custno, and holds exactly the old entries and the new ones. */
  lemma InsertGrowsSavedView(rows: seq<CompanyRow>, idNo: int, custNos: seq<int>, now: int, c: int)
    ensures |FindByIdNo(rows + NewRows(idNo, custNos, now), idNo, FLAG_LIST_ALL)|
         == |FindByIdNo(rows, idNo, FLAG_LIST_ALL)| + |custNos|
    ensures c in FindByIdNo(rows + NewRows(idNo, custNos, now), idNo, FLAG_LIST_ALL)
        <==> c in FindByIdNo(rows, idNo, FLAG_LIST_ALL) || c in custNos
  {
    var added := NewRows(idNo, custNos, now);
    InsertOwned(rows, idNo, custNos, now, idNo);
    FindByIdNoMembership(rows + added, idNo, FLAG_LIST_ALL, c);
    FindByIdNoMembership(rows, idNo, FLAG_LIST_ALL, c);
    if c in custNos {
      var i :| 0 <= i < |custNos| && custNos[i] == c;
      assert added[i] in rows + added;
    }
    if r :| r in added && r.custNo == c {
      var i :| 0 <= i < |added| && added[i] == r;
      assert custNos[i] == c;
    }
  }

  // ---------------------------------------------------------------------
  // deleteMany

  /** The number deleteMany reports is the number of rows it removed. */
  lemma DeleteCount(rows: seq<CompanyRow>, idNo: int, custNos: seq<int>)
    ensures |rows| - |DeleteRows(rows, idNo, custNos)| == MatchCount(rows, idNo, custNos)
  {
    FilterComplement(rows, Matching(idNo, custNos), Unmatched(idNo, custNos));
  }

  /** A delete that matches nothing leaves the table as it was. */
  lemma DeleteNothing(rows: seq<CompanyRow>, idNo: int, custNos: seq<int>)
    requires MatchCount(rows, idNo, custNos) == 0
    ensures DeleteRows(rows, idNo, custNos) == rows
  {
    DeleteCount(rows, idNo, custNos);
    FilterKeepsLength(rows, Unmatched(idNo, custNos));
  }

  /** A row survives a delete iff it does not match it. */
  lemma DeleteRowsMembership(rows: seq<CompanyRow>, idNo: int, custNos: seq<int>, r: CompanyRow)
    ensures r in DeleteRows(rows, idNo, custNos) <==> r in rows && !(r.idNo == idNo && r.custNo in custNos)
  {
    FilterMembership(rows, Unmatched(idNo, custNos), r);
  }

  /** A delete for one user leaves every view of every other user as it was. */
  lemma DeleteKeepsOtherUsers(rows: seq<CompanyRow>, idNo: int, custNos: seq<int>, other: int, subscriptionFlag: int)
    requires other != idNo
    ensures FindByIdNo(DeleteRows(rows, idNo, custNos), other, subscriptionFlag)
         == FindByIdNo(rows, other, subscriptionFlag)
  {
    FilterSubsumed(rows, Unmatched(idNo, custNos), Owner(other));
  }

  /** After a delete none of the listed custnos is saved any more, and every
      other custno of the user is saved iff it was before. */
  lemma DeleteEffect(rows: seq<CompanyRow>, idNo: int, custNos: seq<int>, c: int)
    ensures c in custNos ==> c !in FindByIdNo(DeleteRows(rows, idNo, custNos), idNo, FLAG_LIST_ALL)
    ensures c !in custNos ==>
      (c in FindByIdNo(DeleteRows(rows, idNo, custNos), idNo, FLAG_LIST_ALL)
       <==> c in FindByIdNo(rows, idNo, FLAG_LIST_ALL))
  {
    var after := DeleteRows(rows, idNo, custNos);
    FindByIdNoMembership(after, idNo, FLAG_LIST_ALL, c);
    FindByIdNoMembership(rows, idNo, FLAG_LIST_ALL, c);
    forall r: CompanyRow | r.idNo == idNo && r.custNo == c
      ensures r in after <==> r in rows && c !in custNos
    {
      DeleteRowsMembership(rows, idNo, custNos, r);
    }
  }

  /** Deleting a listed custno that is saved removes at least one row. */
  lemma DeleteSavedMatches(rows: seq<CompanyRow>, idNo: int, custNos: seq<int>, c: int)
    requires c in custNos && c in FindByIdNo(rows, idNo, FLAG_LIST_ALL)
    ensures MatchCount(rows, idNo, custNos) > 0
  {
    FindByIdNoMembership(rows, idNo, FLAG_LIST_ALL, c);
    var r :| r in rows && r.idNo == idNo && r.custNo == c;
    FilterMembership(rows, Matching(idNo, custNos), r);
  }

  // ---------------------------------------------------------------------
  // updateNotify

  lemma {:induction false} UpdateOwned(rows: seq<CompanyRow>, idNo: int, custNos: seq<int>, notify: int, other: int)
    ensures other != idNo ==> OwnedBy(SetNotify(rows, idNo, custNos, notify), other) == OwnedBy(rows, other)
    ensures Map(OwnedBy(SetNotify(rows, idNo, custNos, notify), other), ToListing)
         == Map(OwnedBy(rows, other), ToListing)
  {
    if rows != [] {
      var f := SetNotifyOn(idNo, custNos, notify);
      var updated := SetNotify(rows, idNo, custNos, notify);
      UpdateOwned(rows[1..], idNo, custNos, notify, other);
      assert updated == [f(rows[0])] + SetNotify(rows[1..], idNo, custNos, notify);
      assert rows == [rows[0]] + rows[1..];
      FilterCons(f(rows[0]), SetNotify(rows[1..], idNo, custNos, notify), Owner(other));
      FilterCons(rows[0], rows[1..], Owner(other));
      var tailAfter := OwnedBy(SetNotify(rows[1..], idNo, custNos, notify), other);
      var tailBefore := OwnedBy(rows[1..], other);
      if rows[0].idNo == other {
        MapAppend([f(rows[0])], tailAfter, ToListing);
        MapAppend([rows[0]], tailBefore, ToListing);
      }
    }
  }

  /** updateNotify changes no entry and no order of any all-companies view. */
  lemma UpdateKeepsSavedViews(rows: seq<CompanyRow>, idNo: int, custNos: seq<int>, notify: int, other: int)
    ensures FindByIdNo(SetNotify(rows, idNo, custNos, notify), other, FLAG_LIST_ALL)
         == FindByIdNo(rows, other, FLAG_LIST_ALL)
  {
    var after := OwnedBy(SetNotify(rows, idNo, custNos, notify), other);
    var before := OwnedBy(rows, other);
    UpdateOwned(rows, idNo, custNos, notify, other);
    SortMapCommute(after, InputDate, ToListing, ListingDate);
    SortMapCommute(before, InputDate, ToListing, ListingDate);
    MapCompose(SortDesc(after, InputDate), ToListing, ListingCustNo, CustNo);
    MapCompose(SortDesc(before, InputDate), ToListing, ListingCustNo, CustNo);
  }

  /** An update for one user leaves every view of every other user as it was. */
  lemma UpdateKeepsOtherUsers(rows: seq<CompanyRow>, idNo: int, custNos: seq<int>, notify: int, other: int, subscriptionFlag: int)
    requires other != idNo
    ensures FindByIdNo(SetNotify(rows, idNo, custNos, notify), other, subscriptionFlag)
         == FindByIdNo(rows, other, subscriptionFlag)
  {
    UpdateOwned(rows, idNo, custNos, notify, other);
  }

  /** The user's subscribed row for `c` after an update comes from a row of
      the user for `c` before it, which was subscribed unless `c` was listed. */
  lemma UpdatedSubscribedRow(rows: seq<CompanyRow>, idNo: int, custNos: seq<int>, notify: int, c: int)
    requires c in FindByIdNo(SetNotify(rows, idNo, custNos, notify), idNo, FLAG_LIST_SUBSCRIBED)
    ensures c in custNos ==> notify == 1 && c in FindByIdNo(rows, idNo, FLAG_LIST_ALL)
    ensures c !in custNos ==> c in FindByIdNo(rows, idNo, FLAG_LIST_SUBSCRIBED)
  {
    var after := SetNotify(rows, idNo, custNos, notify);
    FindByIdNoMembership(after, idNo, FLAG_LIST_SUBSCRIBED, c);
    var r :| r in after && r.idNo == idNo && r.custNo == c && r.notify == 1;
    var i :| 0 <= i < |after| && after[i] == r;
    var s := rows[i];
    assert s in rows && s.idNo == idNo && s.custNo == c;
    FindByIdNoMembership(rows, idNo, FLAG_LIST_ALL, c);
    if c !in custNos {
      assert s.notify == 1;
      FindByIdNoMembership(rows, idNo, FLAG_LIST_SUBSCRIBED, c);
    }
  }

  /** A row of the user for `c` that the update sets to, or leaves at,
      notify = 1 puts `c` in the subscribed view afterwards. */
  lemma UpdatedRowSubscribed(rows: seq<CompanyRow>, idNo: int, custNos: seq<int>, notify: int, s: CompanyRow)
    requires s in rows && s.idNo == idNo
    requires if s.custNo in custNos then notify == 1 else s.notify == 1
    ensures s.custNo in FindByIdNo(SetNotify(rows, idNo, custNos, notify), idNo, FLAG_LIST_SUBSCRIBED)
  {
    var f := SetNotifyOn(idNo, custNos, notify);
    MapMembership(rows, f, s);
    assert f(s).notify == 1 && f(s).idNo == idNo && f(s).custNo == s.custNo;
    FindByIdNoMembership(SetNotify(rows, idNo, custNos, notify), idNo, FLAG_LIST_SUBSCRIBED, s.custNo);
  }

  /** After updateNotify(idNo, custNos, 1) every listed custno that was saved
      is subscribed; after updateNotify(idNo, custNos, 0) none is; a custno
      that is not listed keeps its subscription state. */
  lemma UpdateEffect(rows: seq<CompanyRow>, idNo: int, custNos: seq<int>, notify: int, c: int)
    ensures c in custNos ==>
      (c in FindByIdNo(SetNotify(rows, idNo, custNos, notify), idNo, FLAG_LIST_SUBSCRIBED)
       <==> notify == 1 && c in FindByIdNo(rows, idNo, FLAG_LIST_ALL))
    ensures c !in custNos ==>
      (c in FindByIdNo(SetNotify(rows, idNo, custNos, notify), idNo, FLAG_LIST_SUBSCRIBED)
       <==> c in FindByIdNo(rows, idNo, FLAG_LIST_SUBSCRIBED))
  {
    if c in FindByIdNo(SetNotify(rows, idNo, custNos, notify), idNo, FLAG_LIST_SUBSCRIBED) {
      UpdatedSubscribedRow(rows, idNo, custNos, notify, c);
    }
    if c in custNos && notify == 1 && c in FindByIdNo(rows, idNo, FLAG_LIST_ALL) {
      FindByIdNoMembership(rows, idNo, FLAG_LIST_ALL, c);
      var s :| s in rows && s.idNo == idNo && s.custNo == c;
      UpdatedRowSubscribed(rows, idNo, custNos, notify, s);
    }
    if c !in custNos && c in FindByIdNo(rows, idNo, FLAG_LIST_SUBSCRIBED) {
      FindByIdNoMembership(rows, idNo, FLAG_LIST_SUBSCRIBED, c);
      var s :| s in rows && s.idNo == idNo && s.custNo == c && s.notify == 1;
      UpdatedRowSubscribed(rows, idNo, custNos, notify, s);
    }
  }
}
