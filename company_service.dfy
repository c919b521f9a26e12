/** SavedCompanyService: a user's saved companies behind a read-through
    cache. The service holds the repository and the cache; every operation
    reads the saved list through `list`, decides which custnos to act on, and
    then writes the table and forgets the cache entries the write made
    stale. */
module CompanyService {
  import opened Seqs
  import opened CacheKeys
  import opened SavedErrors
  import opened CompanyRepository

  /** What the service asks of the repository and the cache, in order. */
  datatype CompanyEvent =
    | Find(idNo: int, subscriptionFlag: int)
    | Insert(idNo: int, custNos: seq<int>)
    | Delete(idNo: int, custNos: seq<int>)
    | Update(idNo: int, custNos: seq<int>, notify: int)
    | Put(key: string)
    | Forget(key: string)

  // ---------------------------------------------------------------------
  // list, on values

  /** What list answers: the cached entry on a hit, the repository's answer
      on a miss. */
  function CachedList(cache: map<string, seq<int>>, rows: seq<CompanyRow>, idNo: int, subscriptionFlag: int): seq<int>
  {
    var key := CompanyListCacheKey(idNo, subscriptionFlag);
    if key in cache then cache[key] else FindByIdNo(rows, idNo, subscriptionFlag)
  }

  /** The cache after list: a miss with a non-empty answer stores it. */
  function CacheAfterList(cache: map<string, seq<int>>, rows: seq<CompanyRow>, idNo: int, subscriptionFlag: int): map<string, seq<int>>
  {
    var key := CompanyListCacheKey(idNo, subscriptionFlag);
    var found := FindByIdNo(rows, idNo, subscriptionFlag);
    if key !in cache && found != [] then cache[key := found] else cache
  }

  /** What list asks for: nothing on a hit; the query, then the store if the
      answer is non-empty, on a miss. */
  ghost function ListEvents(cache: map<string, seq<int>>, rows: seq<CompanyRow>, idNo: int, subscriptionFlag: int): seq<CompanyEvent>
  {
    var key := CompanyListCacheKey(idNo, subscriptionFlag);
    if key in cache then []
    else [Find(idNo, subscriptionFlag)] + (if FindByIdNo(rows, idNo, subscriptionFlag) != [] then [Put(key)] else [])
  }

  /** Every cached list equals what the repository answers for its key: the
      all-companies key holds the FLAG_LIST_ALL answer and the subscribed key
      the FLAG_LIST_SUBSCRIBED answer. */
  ghost predicate CoherentWith(cache: map<string, seq<int>>, rows: seq<CompanyRow>)
  {
    && (forall idNo: int :: SavedCompanyListKey(idNo) in cache ==>
          cache[SavedCompanyListKey(idNo)] == FindByIdNo(rows, idNo, FLAG_LIST_ALL))
    && (forall idNo: int :: SubscribedCompanyListKey(idNo) in cache ==>
          cache[SubscribedCompanyListKey(idNo)] == FindByIdNo(rows, idNo, FLAG_LIST_SUBSCRIBED))
  }

  // ---------------------------------------------------------------------
  // Which custnos each batch operation acts on

  function NotIn(list: seq<int>): int -> bool
  {
    (c: int) => c !in list
  }

  function In(list: seq<int>): int -> bool
  {
    (c: int) => c in list
  }

  function SavedNotSubscribed(saved: seq<int>, subscribed: seq<int>): int -> bool
  {
    (c: int) => c in saved && c !in subscribed
  }

  /** batchCreate's array_filter: the requested custnos that are not saved,
      in request order. */
  function NewCustNos(custNos: seq<int>, saved: seq<int>): (r: seq<int>)
    ensures |r| <= |custNos|
    ensures forall c :: c in r <==> c in custNos && c !in saved
  {
    FilterMembershipAll(custNos, NotIn(saved));
    Filter(custNos, NotIn(saved))
  }

  /** batchDelete's array_intersect: the saved custnos that are requested, in
      saved-list order. */
  function SavedAndRequested(saved: seq<int>, custNos: seq<int>): (r: seq<int>)
    ensures |r| <= |saved|
    ensures forall c :: c in r <==> c in saved && c in custNos
  {
    FilterMembershipAll(saved, In(custNos));
    Filter(saved, In(custNos))
  }

  /** batchSubscribe's array_filter: the requested custnos that are saved and
      not yet subscribed, in request order. */
  function SubscribeTargets(custNos: seq<int>, saved: seq<int>, subscribed: seq<int>): (r: seq<int>)
    ensures |r| <= |custNos|
    ensures forall c :: c in r <==> c in custNos && c in saved && c !in subscribed
  {
    FilterMembershipAll(custNos, SavedNotSubscribed(saved, subscribed));
    Filter(custNos, SavedNotSubscribed(saved, subscribed))
  }

  /** batchUnsubscribe's array_filter: the requested custnos that are
      subscribed, in request order. */
  function UnsubscribeTargets(custNos: seq<int>, subscribed: seq<int>): (r: seq<int>)
    ensures |r| <= |custNos|
    ensures forall c :: c in r <==> c in custNos && c in subscribed
  {
    FilterMembershipAll(custNos, In(subscribed));
    Filter(custNos, In(subscribed))
  }

  // ---------------------------------------------------------------------
  // The service

  class SavedCompanyService {
    const repository: InterestCompanyRepository
    var cache: map<string, seq<int>>
    ghost var trace: seq<CompanyEvent>

    constructor (repository: InterestCompanyRepository, cache: map<string, seq<int>>)
      ensures this.repository == repository && this.cache == cache && trace == []
    {
      this.repository := repository;
      this.cache := cache;
      trace := [];
    }

    ghost predicate Coherent()
      reads this, repository
    {
      CoherentWith(cache, repository.rows)
    }

    /** list: a hit answers from the cache and touches nothing else; a miss
        queries the repository and stores a non-empty answer. */
    method List(idNo: int, subscriptionFlag: int) returns (custNos: seq<int>)
      modifies this
      ensures repository.rows == old(repository.rows)
      ensures custNos == CachedList(old(cache), repository.rows, idNo, subscriptionFlag)
      ensures cache == CacheAfterList(old(cache), repository.rows, idNo, subscriptionFlag)
      ensures trace == old(trace) + ListEvents(old(cache), repository.rows, idNo, subscriptionFlag)
    {
      var key := CompanyListCacheKey(idNo, subscriptionFlag);
      if key in cache {
        custNos := cache[key];
      } else {
        custNos := FindByIdNo(repository.rows, idNo, subscriptionFlag);
        trace := trace + [Find(idNo, subscriptionFlag)];
        if custNos != [] {
          cache := cache[key := custNos];
          trace := trace + [Put(key)];
        }
      }
    }

    /** batchCreate: throws 37101 when the saved list plus the raw request
        exceed the limit; otherwise inserts the requested custnos that are
        not saved and forgets only the all-companies key. From a coherent
        cache no call that returns leaves more than TOTAL_LIMIT companies
        saved. */
    method BatchCreate(idNo: int, custNos: seq<int>, now: int) returns (result: Outcome<int>)
      modifies this, repository
      ensures
        var saved := CachedList(old(cache), old(repository.rows), idNo, FLAG_LIST_ALL);
        var listed := CacheAfterList(old(cache), old(repository.rows), idNo, FLAG_LIST_ALL);
        var listing := old(trace) + ListEvents(old(cache), old(repository.rows), idNo, FLAG_LIST_ALL);
        var valid := NewCustNos(custNos, saved);
        if ExceedsLimit(|saved|, |custNos|) then
          && result == Thrown(ExceedLimitException(MSG_SAVE_COMPANY_EXCEED_LIMIT_ERROR, CODE_SAVE_COMPANY_EXCEED_LIMIT_ERROR))
          && repository.rows == old(repository.rows) && cache == listed && trace == listing
        else if valid == [] then
          && result == Returned(0)
          && repository.rows == old(repository.rows) && cache == listed && trace == listing
        else
          && result == Returned(|valid|)
          && repository.rows == old(repository.rows) + NewRows(idNo, valid, now)
          && cache == listed - {SavedCompanyListKey(idNo)}
          && trace == listing + [Insert(idNo, valid), Forget(SavedCompanyListKey(idNo))]
      ensures old(Coherent()) ==> Coherent()
      ensures old(Coherent()) && result.Returned? ==>
        |FindByIdNo(repository.rows, idNo, FLAG_LIST_ALL)| <= TOTAL_LIMIT
    {
      if Coherent() {
        BatchCreateKeepsCoherent(cache, repository.rows, idNo, custNos, now);
      }
      var saved := List(idNo, FLAG_LIST_ALL);
      if ExceedsLimit(|saved|, |custNos|) {
        result := Thrown(ExceedLimitException(MSG_SAVE_COMPANY_EXCEED_LIMIT_ERROR, CODE_SAVE_COMPANY_EXCEED_LIMIT_ERROR));
        return;
      }
      var valid := NewCustNos(custNos, saved);
      if valid == [] {
        result := Returned(0);
        return;
      }
      var count := repository.InsertMany(idNo, valid, now);
      var key := CompanyListCacheKey(idNo, FLAG_LIST_ALL);
      cache := cache - {key};
      trace := trace + [Insert(idNo, valid), Forget(key)];
      result := Returned(count);
    }

    /** batchDelete: deletes the saved custnos that are requested; when that
        removes rows it forgets the all-companies key and then the subscribed
        key. From a coherent cache, afterwards no requested custno is saved
        and every other one is saved iff it was before. */
    method BatchDelete(idNo: int, custNos: seq<int>) returns (result: int)
      modifies this, repository
      ensures
        var saved := CachedList(old(cache), old(repository.rows), idNo, FLAG_LIST_ALL);
        var listed := CacheAfterList(old(cache), old(repository.rows), idNo, FLAG_LIST_ALL);
        var listing := old(trace) + ListEvents(old(cache), old(repository.rows), idNo, FLAG_LIST_ALL);
        var valid := SavedAndRequested(saved, custNos);
        var removed := MatchCount(old(repository.rows), idNo, valid);
        if valid == [] then
          && result == 0
          && repository.rows == old(repository.rows) && cache == listed && trace == listing
        else
          && result == removed
          && repository.rows == DeleteRows(old(repository.rows), idNo, valid)
          && cache == (if removed > 0 then listed - {SavedCompanyListKey(idNo), SubscribedCompanyListKey(idNo)} else listed)
          && trace == listing + ([Delete(idNo, valid)]
                     + (if removed > 0 then [Forget(SavedCompanyListKey(idNo)), Forget(SubscribedCompanyListKey(idNo))] else []))
      ensures old(Coherent()) ==> Coherent()
      ensures old(Coherent()) ==> forall c ::
        c in FindByIdNo(repository.rows, idNo, FLAG_LIST_ALL)
        <==> c in old(FindByIdNo(repository.rows, idNo, FLAG_LIST_ALL)) && c !in custNos
    {
      if Coherent() {
        BatchDeleteKeepsCoherent(cache, repository.rows, idNo, custNos);
      }
      var saved := List(idNo, FLAG_LIST_ALL);
      var valid := SavedAndRequested(saved, custNos);
      if |valid| == 0 {
        result := 0;
        return;
      }
      result := repository.DeleteMany(idNo, valid);
      if result > 0 {
        var allKey := CompanyListCacheKey(idNo, FLAG_LIST_ALL);
        var subscribedKey := CompanyListCacheKey(idNo, FLAG_LIST_SUBSCRIBED);
        cache := cache - {allKey, subscribedKey};
        trace := trace + ([Delete(idNo, valid)] + [Forget(allKey), Forget(subscribedKey)]);
      } else {
        trace := trace + [Delete(idNo, valid)];
      }
    }

    /** batchSubscribe: sets notify = 1 on the requested custnos that are
        saved and not subscribed, and forgets only the subscribed key. From a
        coherent cache, afterwards every requested saved custno is subscribed
        and every custno not requested keeps its subscription state. */
    method BatchSubscribe(idNo: int, custNos: seq<int>) returns (result: int)
      modifies this, repository
      ensures
        var saved := CachedList(old(cache), old(repository.rows), idNo, FLAG_LIST_ALL);
        var cache1 := CacheAfterList(old(cache), old(repository.rows), idNo, FLAG_LIST_ALL);
        var subscribed := CachedList(cache1, old(repository.rows), idNo, FLAG_LIST_SUBSCRIBED);
        var listed := CacheAfterList(cache1, old(repository.rows), idNo, FLAG_LIST_SUBSCRIBED);
        var listing := old(trace) + ListEvents(old(cache), old(repository.rows), idNo, FLAG_LIST_ALL)
                       + ListEvents(cache1, old(repository.rows), idNo, FLAG_LIST_SUBSCRIBED);
        var valid := SubscribeTargets(custNos, saved, subscribed);
        if valid == [] then
          && result == 0
          && repository.rows == old(repository.rows) && cache == listed && trace == listing
        else
          && result == MatchCount(old(repository.rows), idNo, valid)
          && repository.rows == SetNotify(old(repository.rows), idNo, valid, ACTION_SUBSCRIBE)
          && cache == listed - {SubscribedCompanyListKey(idNo)}
          && trace == listing + [Update(idNo, valid, ACTION_SUBSCRIBE), Forget(SubscribedCompanyListKey(idNo))]
      ensures old(Coherent()) ==> Coherent()
      ensures old(Coherent()) ==> forall c ::
        c in FindByIdNo(repository.rows, idNo, FLAG_LIST_SUBSCRIBED)
        <==> if c in custNos then c in old(FindByIdNo(repository.rows, idNo, FLAG_LIST_ALL))
             else c in old(FindByIdNo(repository.rows, idNo, FLAG_LIST_SUBSCRIBED))
    {
      if Coherent() {
        BatchSubscribeKeepsCoherent(cache, repository.rows, idNo, custNos);
      }
      var saved := List(idNo, FLAG_LIST_ALL);
      var subscribed := List(idNo, FLAG_LIST_SUBSCRIBED);
      var valid := SubscribeTargets(custNos, saved, subscribed);
      if valid != [] {
        result := repository.UpdateNotify(idNo, valid, ACTION_SUBSCRIBE);
        var key := CompanyListCacheKey(idNo, FLAG_LIST_SUBSCRIBED);
        cache := cache - {key};
        trace := trace + [Update(idNo, valid, ACTION_SUBSCRIBE), Forget(key)];
      } else {
        result := 0;
      }
    }

    /** batchUnsubscribe: sets notify = 0 on the requested custnos that are
        subscribed, and forgets only the subscribed key. From a coherent
        cache, afterwards no requested custno is subscribed and every custno
        not requested keeps its subscription state. */
    method BatchUnsubscribe(idNo: int, custNos: seq<int>) returns (result: int)
      modifies this, repository
      ensures
        var subscribed := CachedList(old(cache), old(repository.rows), idNo, FLAG_LIST_SUBSCRIBED);
        var listed := CacheAfterList(old(cache), old(repository.rows), idNo, FLAG_LIST_SUBSCRIBED);
        var listing := old(trace) + ListEvents(old(cache), old(repository.rows), idNo, FLAG_LIST_SUBSCRIBED);
        var valid := UnsubscribeTargets(custNos, subscribed);
        if valid == [] then
          && result == 0
          && repository.rows == old(repository.rows) && cache == listed && trace == listing
        else
          && result == MatchCount(old(repository.rows), idNo, valid)
          && repository.rows == SetNotify(old(repository.rows), idNo, valid, ACTION_UNSUBSCRIBE)
          && cache == listed - {SubscribedCompanyListKey(idNo)}
          && trace == listing + [Update(idNo, valid, ACTION_UNSUBSCRIBE), Forget(SubscribedCompanyListKey(idNo))]
      ensures old(Coherent()) ==> Coherent()
      ensures old(Coherent()) ==> forall c ::
        c in FindByIdNo(repository.rows, idNo, FLAG_LIST_SUBSCRIBED)
        <==> c !in custNos && c in old(FindByIdNo(repository.rows, idNo, FLAG_LIST_SUBSCRIBED))
    {
      if Coherent() {
        BatchUnsubscribeKeepsCoherent(cache, repository.rows, idNo, custNos);
      }
      var subscribed := List(idNo, FLAG_LIST_SUBSCRIBED);
      var valid := UnsubscribeTargets(custNos, subscribed);
      if valid != [] {
        result := repository.UpdateNotify(idNo, valid, ACTION_UNSUBSCRIBE);
        var key := CompanyListCacheKey(idNo, FLAG_LIST_SUBSCRIBED);
        cache := cache - {key};
        trace := trace + [Update(idNo, valid, ACTION_UNSUBSCRIBE), Forget(key)];
      } else {
        result := 0;
      }
    }
  }

  // ---------------------------------------------------------------------
  // Cache coherence

  /** From a coherent cache, list with flag 0 or 1 answers what the
      repository answers, and what it stores keeps the cache coherent. */
  lemma ListAnswersRepository(cache: map<string, seq<int>>, rows: seq<CompanyRow>, idNo: int, subscriptionFlag: int)
    requires CoherentWith(cache, rows)
    requires subscriptionFlag == FLAG_LIST_ALL || subscriptionFlag == FLAG_LIST_SUBSCRIBED
    ensures CachedList(cache, rows, idNo, subscriptionFlag) == FindByIdNo(rows, idNo, subscriptionFlag)
    ensures CoherentWith(CacheAfterList(cache, rows, idNo, subscriptionFlag), rows)
  {
    var after := CacheAfterList(cache, rows, idNo, subscriptionFlag);
    forall id: int | SavedCompanyListKey(id) in after
      ensures after[SavedCompanyListKey(id)] == FindByIdNo(rows, id, FLAG_LIST_ALL)
    {
      CompanyListCacheKeyInjective(id, FLAG_LIST_ALL, idNo, subscriptionFlag);
    }
    forall id: int | SubscribedCompanyListKey(id) in after
      ensures after[SubscribedCompanyListKey(id)] == FindByIdNo(rows, id, FLAG_LIST_SUBSCRIBED)
    {
      CompanyListCacheKeyInjective(id, FLAG_LIST_SUBSCRIBED, idNo, subscriptionFlag);
    }
  }

  /** An insert followed by forgetting the user's all-companies key keeps a
      coherent cache coherent: inserted rows are not subscribed, so the
      subscribed views have not changed. */
  lemma InsertKeepsCoherent(cache: map<string, seq<int>>, rows: seq<CompanyRow>, idNo: int, custNos: seq<int>, now: int)
    requires CoherentWith(cache, rows)
    ensures CoherentWith(cache - {SavedCompanyListKey(idNo)}, rows + NewRows(idNo, custNos, now))
  {
    var after := rows + NewRows(idNo, custNos, now);
    forall id: int | SavedCompanyListKey(id) in cache - {SavedCompanyListKey(idNo)}
      ensures cache[SavedCompanyListKey(id)] == FindByIdNo(after, id, FLAG_LIST_ALL)
    {
      InsertKeepsOtherUsers(rows, idNo, custNos, now, id, FLAG_LIST_ALL);
    }
    forall id: int | SubscribedCompanyListKey(id) in cache - {SavedCompanyListKey(idNo)}
      ensures cache[SubscribedCompanyListKey(id)] == FindByIdNo(after, id, FLAG_LIST_SUBSCRIBED)
    {
      InsertKeepsSubscribedViews(rows, idNo, custNos, now, id);
    }
  }

  /** A delete followed by forgetting both of the user's keys keeps a
      coherent cache coherent. */
  lemma DeleteKeepsCoherent(cache: map<string, seq<int>>, rows: seq<CompanyRow>, idNo: int, custNos: seq<int>)
    requires CoherentWith(cache, rows)
    ensures CoherentWith(cache - {SavedCompanyListKey(idNo), SubscribedCompanyListKey(idNo)}, DeleteRows(rows, idNo, custNos))
  {
    var kept := cache - {SavedCompanyListKey(idNo), SubscribedCompanyListKey(idNo)};
    var after := DeleteRows(rows, idNo, custNos);
    forall id: int | SavedCompanyListKey(id) in kept
      ensures kept[SavedCompanyListKey(id)] == FindByIdNo(after, id, FLAG_LIST_ALL)
    {
      CompanyListCacheKeyInjective(id, FLAG_LIST_ALL, idNo, FLAG_LIST_ALL);
      DeleteKeepsOtherUsers(rows, idNo, custNos, id, FLAG_LIST_ALL);
    }
    forall id: int | SubscribedCompanyListKey(id) in kept
      ensures kept[SubscribedCompanyListKey(id)] == FindByIdNo(after, id, FLAG_LIST_SUBSCRIBED)
    {
      CompanyListCacheKeyInjective(id, FLAG_LIST_SUBSCRIBED, idNo, FLAG_LIST_SUBSCRIBED);
      DeleteKeepsOtherUsers(rows, idNo, custNos, id, FLAG_LIST_SUBSCRIBED);
    }
  }

  /** A notify update followed by forgetting the user's subscribed key keeps a
      coherent cache coherent: no all-companies view depends on notify. */
  lemma UpdateKeepsCoherent(cache: map<string, seq<int>>, rows: seq<CompanyRow>, idNo: int, custNos: seq<int>, notify: int)
    requires CoherentWith(cache, rows)
    ensures CoherentWith(cache - {SubscribedCompanyListKey(idNo)}, SetNotify(rows, idNo, custNos, notify))
  {
    var kept := cache - {SubscribedCompanyListKey(idNo)};
    var after := SetNotify(rows, idNo, custNos, notify);
    forall id: int | SavedCompanyListKey(id) in kept
      ensures kept[SavedCompanyListKey(id)] == FindByIdNo(after, id, FLAG_LIST_ALL)
    {
      UpdateKeepsSavedViews(rows, idNo, custNos, notify, id);
    }
    forall id: int | SubscribedCompanyListKey(id) in kept
      ensures kept[SubscribedCompanyListKey(id)] == FindByIdNo(after, id, FLAG_LIST_SUBSCRIBED)
    {
      UpdateKeepsOtherUsers(rows, idNo, custNos, notify, id, FLAG_LIST_SUBSCRIBED);
    }
  }

  // ---------------------------------------------------------------------
  // What the batch operations achieve, given the repository's lists

  /** From a coherent cache, batchCreate reads the repository's saved list;
      when the limit test passes, its writes keep the cache coherent and
      leave at most TOTAL_LIMIT companies saved. */
  lemma BatchCreateKeepsCoherent(cache: map<string, seq<int>>, rows: seq<CompanyRow>, idNo: int, custNos: seq<int>, now: int)
    requires CoherentWith(cache, rows)
    ensures
      var saved := CachedList(cache, rows, idNo, FLAG_LIST_ALL);
      var listed := CacheAfterList(cache, rows, idNo, FLAG_LIST_ALL);
      var valid := NewCustNos(custNos, saved);
      var after := rows + NewRows(idNo, valid, now);
      && saved == FindByIdNo(rows, idNo, FLAG_LIST_ALL)
      && CoherentWith(listed, rows)
      && (!ExceedsLimit(|saved|, |custNos|) ==>
            && |FindByIdNo(rows, idNo, FLAG_LIST_ALL)| <= TOTAL_LIMIT
            && CoherentWith(listed - {SavedCompanyListKey(idNo)}, after)
            && |FindByIdNo(after, idNo, FLAG_LIST_ALL)| <= TOTAL_LIMIT)
  {
    ListAnswersRepository(cache, rows, idNo, FLAG_LIST_ALL);
    var listed := CacheAfterList(cache, rows, idNo, FLAG_LIST_ALL);
    var valid := NewCustNos(custNos, FindByIdNo(rows, idNo, FLAG_LIST_ALL));
    InsertKeepsCoherent(listed, rows, idNo, valid, now);
    InsertGrowsSavedView(rows, idNo, valid, now, 0);
  }

  /** From a coherent cache, batchDelete's writes keep the cache coherent and
      leave saved exactly the custnos that were saved and not requested. */
  lemma BatchDeleteKeepsCoherent(cache: map<string, seq<int>>, rows: seq<CompanyRow>, idNo: int, custNos: seq<int>)
    requires CoherentWith(cache, rows)
    ensures
      var saved := CachedList(cache, rows, idNo, FLAG_LIST_ALL);
      var listed := CacheAfterList(cache, rows, idNo, FLAG_LIST_ALL);
      var valid := SavedAndRequested(saved, custNos);
      var after := DeleteRows(rows, idNo, valid);
      && CoherentWith(listed, rows)
      && (MatchCount(rows, idNo, valid) == 0 ==> after == rows)
      && CoherentWith(listed - {SavedCompanyListKey(idNo), SubscribedCompanyListKey(idNo)}, after)
      && (valid == [] ==> forall c :: c in FindByIdNo(rows, idNo, FLAG_LIST_ALL) ==> c !in custNos)
      && forall c :: c in FindByIdNo(after, idNo, FLAG_LIST_ALL)
           <==> c in FindByIdNo(rows, idNo, FLAG_LIST_ALL) && c !in custNos
  {
    ListAnswersRepository(cache, rows, idNo, FLAG_LIST_ALL);
    var listed := CacheAfterList(cache, rows, idNo, FLAG_LIST_ALL);
    var valid := SavedAndRequested(FindByIdNo(rows, idNo, FLAG_LIST_ALL), custNos);
    if MatchCount(rows, idNo, valid) == 0 {
      DeleteNothing(rows, idNo, valid);
    }
    DeleteKeepsCoherent(listed, rows, idNo, valid);
    DeleteRequestedEffect(rows, idNo, custNos);
  }

  /** From a coherent cache, batchUnsubscribe's writes keep the cache coherent
      and leave subscribed exactly the custnos that were subscribed and not
      requested. */
  lemma BatchUnsubscribeKeepsCoherent(cache: map<string, seq<int>>, rows: seq<CompanyRow>, idNo: int, custNos: seq<int>)
    requires CoherentWith(cache, rows)
    ensures
      var subscribed := CachedList(cache, rows, idNo, FLAG_LIST_SUBSCRIBED);
      var listed := CacheAfterList(cache, rows, idNo, FLAG_LIST_SUBSCRIBED);
      var valid := UnsubscribeTargets(custNos, subscribed);
      var after := if valid == [] then rows else SetNotify(rows, idNo, valid, ACTION_UNSUBSCRIBE);
      && CoherentWith(if valid == [] then listed else listed - {SubscribedCompanyListKey(idNo)}, after)
      && forall c :: c in FindByIdNo(after, idNo, FLAG_LIST_SUBSCRIBED)
           <==> c !in custNos && c in FindByIdNo(rows, idNo, FLAG_LIST_SUBSCRIBED)
  {
    ListAnswersRepository(cache, rows, idNo, FLAG_LIST_SUBSCRIBED);
    var listed := CacheAfterList(cache, rows, idNo, FLAG_LIST_SUBSCRIBED);
    var valid := UnsubscribeTargets(custNos, FindByIdNo(rows, idNo, FLAG_LIST_SUBSCRIBED));
    if valid != [] {
      UpdateKeepsCoherent(listed, rows, idNo, valid, ACTION_UNSUBSCRIBE);
    }
    UnsubscribeRequestedEffect(rows, idNo, custNos);
  }

  /** From a coherent cache, batchSubscribe's writes keep the cache coherent
      and leave subscribed every requested custno that is saved, and every
      other custno as it was. */
  lemma BatchSubscribeKeepsCoherent(cache: map<string, seq<int>>, rows: seq<CompanyRow>, idNo: int, custNos: seq<int>)
    requires CoherentWith(cache, rows)
    ensures
      var saved := CachedList(cache, rows, idNo, FLAG_LIST_ALL);
      var cache1 := CacheAfterList(cache, rows, idNo, FLAG_LIST_ALL);
      var subscribed := CachedList(cache1, rows, idNo, FLAG_LIST_SUBSCRIBED);
      var listed := CacheAfterList(cache1, rows, idNo, FLAG_LIST_SUBSCRIBED);
      var valid := SubscribeTargets(custNos, saved, subscribed);
      var after := if valid == [] then rows else SetNotify(rows, idNo, valid, ACTION_SUBSCRIBE);
      && CoherentWith(if valid == [] then listed else listed - {SubscribedCompanyListKey(idNo)}, after)
      && forall c :: c in FindByIdNo(after, idNo, FLAG_LIST_SUBSCRIBED)
           <==> if c in custNos then c in FindByIdNo(rows, idNo, FLAG_LIST_ALL)
                else c in FindByIdNo(rows, idNo, FLAG_LIST_SUBSCRIBED)
  {
    ListAnswersRepository(cache, rows, idNo, FLAG_LIST_ALL);
    var cache1 := CacheAfterList(cache, rows, idNo, FLAG_LIST_ALL);
    ListAnswersRepository(cache1, rows, idNo, FLAG_LIST_SUBSCRIBED);
    var listed := CacheAfterList(cache1, rows, idNo, FLAG_LIST_SUBSCRIBED);
    var valid := SubscribeTargets(custNos, FindByIdNo(rows, idNo, FLAG_LIST_ALL), FindByIdNo(rows, idNo, FLAG_LIST_SUBSCRIBED));
    if valid != [] {
      UpdateKeepsCoherent(listed, rows, idNo, valid, ACTION_SUBSCRIBE);
    }
    SubscribeRequestedEffect(rows, idNo, custNos);
  }

  /** Deleting the saved custnos that are requested leaves saved exactly the
      custnos that were saved and not requested. */
  lemma DeleteRequestedEffect(rows: seq<CompanyRow>, idNo: int, custNos: seq<int>)
    ensures var valid := SavedAndRequested(FindByIdNo(rows, idNo, FLAG_LIST_ALL), custNos);
      && (valid == [] ==> forall c :: c in FindByIdNo(rows, idNo, FLAG_LIST_ALL) ==> c !in custNos)
      && forall c :: c in FindByIdNo(DeleteRows(rows, idNo, valid), idNo, FLAG_LIST_ALL)
           <==> c in FindByIdNo(rows, idNo, FLAG_LIST_ALL) && c !in custNos
  {
    var saved := FindByIdNo(rows, idNo, FLAG_LIST_ALL);
    var valid := SavedAndRequested(saved, custNos);
    forall c
      ensures c in FindByIdNo(DeleteRows(rows, idNo, valid), idNo, FLAG_LIST_ALL)
          <==> c in saved && c !in custNos
    {
      DeleteEffect(rows, idNo, valid, c);
    }
  }

  /** Subscribing the requested custnos that are saved and not subscribed
      leaves subscribed every requested custno that is saved, and every other
      custno as it was. */
  lemma SubscribeRequestedEffect(rows: seq<CompanyRow>, idNo: int, custNos: seq<int>)
    ensures
      var saved := FindByIdNo(rows, idNo, FLAG_LIST_ALL);
      var subscribed := FindByIdNo(rows, idNo, FLAG_LIST_SUBSCRIBED);
      var valid := SubscribeTargets(custNos, saved, subscribed);
      var after := if valid == [] then rows else SetNotify(rows, idNo, valid, ACTION_SUBSCRIBE);
      forall c :: c in FindByIdNo(after, idNo, FLAG_LIST_SUBSCRIBED)
        <==> if c in custNos then c in saved else c in subscribed
  {
    var saved := FindByIdNo(rows, idNo, FLAG_LIST_ALL);
    var subscribed := FindByIdNo(rows, idNo, FLAG_LIST_SUBSCRIBED);
    var valid := SubscribeTargets(custNos, saved, subscribed);
    var after := if valid == [] then rows else SetNotify(rows, idNo, valid, ACTION_SUBSCRIBE);
    forall c
      ensures c in FindByIdNo(after, idNo, FLAG_LIST_SUBSCRIBED)
          <==> if c in custNos then c in saved else c in subscribed
    {
      SubscribedWithinSaved(rows, idNo, c);
      if valid != [] {
        UpdateEffect(rows, idNo, valid, ACTION_SUBSCRIBE, c);
      }
    }
  }

  /** Unsubscribing the requested custnos that are subscribed leaves
      subscribed exactly the custnos that were subscribed and not requested. */
  lemma UnsubscribeRequestedEffect(rows: seq<CompanyRow>, idNo: int, custNos: seq<int>)
    ensures
      var subscribed := FindByIdNo(rows, idNo, FLAG_LIST_SUBSCRIBED);
      var valid := UnsubscribeTargets(custNos, subscribed);
      var after := if valid == [] then rows else SetNotify(rows, idNo, valid, ACTION_UNSUBSCRIBE);
      forall c :: c in FindByIdNo(after, idNo, FLAG_LIST_SUBSCRIBED)
        <==> c !in custNos && c in subscribed
  {
    var subscribed := FindByIdNo(rows, idNo, FLAG_LIST_SUBSCRIBED);
    var valid := UnsubscribeTargets(custNos, subscribed);
    var after := if valid == [] then rows else SetNotify(rows, idNo, valid, ACTION_UNSUBSCRIBE);
    forall c
      ensures c in FindByIdNo(after, idNo, FLAG_LIST_SUBSCRIBED) <==> c !in custNos && c in subscribed
    {
      if valid != [] {
        UpdateEffect(rows, idNo, valid, ACTION_UNSUBSCRIBE, c);
        SubscribedWithinSaved(rows, idNo, c);
      }
    }
  }

  /** A subscribed custno is a saved custno. */
  lemma SubscribedWithinSaved(rows: seq<CompanyRow>, idNo: int, c: int)
    ensures c in FindByIdNo(rows, idNo, FLAG_LIST_SUBSCRIBED) ==> c in FindByIdNo(rows, idNo, FLAG_LIST_ALL)
  {
    FindByIdNoMembership(rows, idNo, FLAG_LIST_SUBSCRIBED, c);
    FindByIdNoMembership(rows, idNo, FLAG_LIST_ALL, c);
  }

  // ---------------------------------------------------------------------
  // Behaviour the code has as written

  /** getListCacheKey tests the flag for truthiness while findByIdNo compares
      it strictly with 1: list with flag 2 stores the all-companies answer
      under the subscribed key, and a coherent cache stops being coherent. */
  lemma FlagTwoStoresSavedListUnderSubscribedKey()
    ensures var rows := [CompanyRow(1, 7, DEFAULT_NOTIFY, 0)];
      && CoherentWith(map[], rows)
      && CachedList(map[], rows, 1, 2) == [7]
      && FindByIdNo(rows, 1, FLAG_LIST_SUBSCRIBED) == []
      && CacheAfterList(map[], rows, 1, 2)[SubscribedCompanyListKey(1)] == [7]
      && !CoherentWith(CacheAfterList(map[], rows, 1, 2), rows)
  {
    var rows := [CompanyRow(1, 7, DEFAULT_NOTIFY, 0)];
    assert OwnedBy(rows, 1) == rows;
    assert Filter(rows, Subscribed) == [];
    assert SortDesc(rows, InputDate) == rows;
    assert FindByIdNo(rows, 1, 2) == [7];
    assert FindByIdNo(rows, 1, FLAG_LIST_SUBSCRIBED) == [];
  }

  /** batchCreate's filter drops only custnos already saved: every occurrence
      of an unsaved custno reaches insertMany, so a custno repeated inside
      one batch is inserted once per repetition. */
  lemma {:induction false} RepeatedCustNosAllInserted(custNos: seq<int>, saved: seq<int>, c: int)
    requires c !in saved
    ensures multiset(NewCustNos(custNos, saved))[c] == multiset(custNos)[c]
  {
    if custNos != [] {
      RepeatedCustNosAllInserted(custNos[1..], saved, c);
      assert custNos == [custNos[0]] + custNos[1..];
      FilterCons(custNos[0], custNos[1..], NotIn(saved));
    }
  }

  /** The limit is tested against the raw request before already-saved
      custnos are dropped: a user with TOTAL_LIMIT saved companies who asks to
      save one of them again gets the limit error although nothing would be
      inserted. */
  lemma LimitCountsAlreadySaved()
    ensures var saved := seq(TOTAL_LIMIT, (i: int) => i);
      && ExceedsLimit(|saved|, 1)
      && NewCustNos([0], saved) == []
  {
    var saved := seq(TOTAL_LIMIT, (i: int) => i);
    assert saved[0] == 0;
    var r := NewCustNos([0], saved);
    assert forall c :: c !in r;
  }
}
