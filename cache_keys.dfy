/** Cache keys of the two services. Each key is a fixed prefix followed by
    the user's id_no written in decimal, as PHP's string concatenation
    `PREFIX . $idNo` renders an int. */
module CacheKeys {

  /** SavedCompanyService::LIST_CACHE_KEY, the view of all saved companies. */
  const SAVED_COMPANY_LIST_PREFIX: string := "saved_company_list_"
  /** SavedCompanyService::SUBSCRIBED_LIST_CACHE_KEY, the subscribed view. */
  const SUBSCRIBED_COMPANY_LIST_PREFIX: string := "subscribed_company_list_"
  /** SavedJobService::LIST_CACHE_KEY. */
  const SAVED_JOB_LIST_PREFIX: string := "saved_job_list_0927_"

  function DigitChar(d: int): (c: char)
    requires 0 <= d < 10
    ensures '0' <= c <= '9'
  {
    (48 + d) as char
  }

  predicate IsDigit(c: char)
  {
    '0' <= c <= '9'
  }

  /** Decimal digits of `n`, most significant first, without leading zeros. */
  function NatToString(n: nat): (s: string)
    ensures |s| >= 1
    ensures forall i :: 0 <= i < |s| ==> IsDigit(s[i])
    ensures n >= 10 ==> |s| >= 2
    ensures n >= 1 ==> s[0] != '0'
  {
    if n < 10 then [DigitChar(n)] else NatToString(n / 10) + [DigitChar(n % 10)]
  }

  /** The number a string of decimal digits denotes, read most significant
      digit first: the reference reading of NatToString's output. */
  function DecimalValue(s: string): int
    decreases |s|
  {
    if |s| == 0 then 0 else DecimalValue(s[..|s| - 1]) * 10 + (s[|s| - 1] as int - '0' as int)
  }

  /** NatToString writes `n` in decimal: reading its digits back gives `n`. */
  lemma {:induction false} NatToStringDecimal(n: nat)
    ensures DecimalValue(NatToString(n)) == n
    decreases n
  {
    if n >= 10 {
      var s := NatToString(n);
      assert s[..|s| - 1] == NatToString(n / 10);
      NatToStringDecimal(n / 10);
    }
  }

  /** PHP's rendering of an integer: an optional minus sign, then the
      digits of its magnitude in decimal. */
  function IntToString(i: int): (s: string)
    ensures |s| >= 1
    ensures (s[0] == '-') <==> i < 0
    ensures i >= 0 ==> DecimalValue(s) == i
    ensures i < 0 ==> |s| >= 2 && DecimalValue(s[1..]) == -i
    ensures forall k :: (if i < 0 then 1 else 0) <= k < |s| ==> IsDigit(s[k])
  {
    if i < 0 then
      NatToStringDecimal(-i);
      assert ("-" + NatToString(-i))[1..] == NatToString(-i);
      "-" + NatToString(-i)
    else
      NatToStringDecimal(i);
      NatToString(i)
  }

  lemma {:induction false} NatToStringInjective(a: nat, b: nat)
    requires NatToString(a) == NatToString(b)
    ensures a == b
    decreases a
  {
    var s := NatToString(a);
    if a < 10 && b < 10 {
      assert DigitChar(a) == s[0] == DigitChar(b);
    } else if a >= 10 && b >= 10 {
      var n := |s| - 1;
      assert s == NatToString(a / 10) + [DigitChar(a % 10)];
      assert s == NatToString(b / 10) + [DigitChar(b % 10)];
      assert DigitChar(a % 10) == s[n] == DigitChar(b % 10);
      assert NatToString(a / 10) == s[..n] == NatToString(b / 10);
      NatToStringInjective(a / 10, b / 10);
    }
  }

  /** Different ids never render to the same text. */
  lemma IntToStringInjective(a: int, b: int)
    requires IntToString(a) == IntToString(b)
    ensures a == b
  {
    if a < 0 {
      assert IntToString(a)[1..] == NatToString(-a);
      assert IntToString(b)[1..] == NatToString(-b);
      NatToStringInjective(-a, -b);
    } else {
      NatToStringInjective(a, b);
    }
  }

  lemma PrefixedInjective(p: string, a: int, b: int)
    requires p + IntToString(a) == p + IntToString(b)
    ensures a == b
  {
    assert IntToString(a) == (p + IntToString(a))[|p|..];
    assert IntToString(b) == (p + IntToString(b))[|p|..];
    IntToStringInjective(a, b);
  }

  function SavedCompanyListKey(idNo: int): string
  {
    SAVED_COMPANY_LIST_PREFIX + IntToString(idNo)
  }

  function SubscribedCompanyListKey(idNo: int): string
  {
    SUBSCRIBED_COMPANY_LIST_PREFIX + IntToString(idNo)
  }

  /** SavedCompanyService::getListCacheKey: PHP's truthiness test on the flag
      picks the subscribed view for every non-zero flag. */
  function CompanyListCacheKey(idNo: int, subscriptionFlag: int): (k: string)
    ensures k == SubscribedCompanyListKey(idNo) <==> subscriptionFlag != 0
    ensures k == SavedCompanyListKey(idNo) <==> subscriptionFlag == 0
  {
    assert SavedCompanyListKey(idNo)[1] != SubscribedCompanyListKey(idNo)[1];
    if subscriptionFlag != 0 then SubscribedCompanyListKey(idNo) else SavedCompanyListKey(idNo)
  }

  /** SavedJobService::getListCacheKey: the prefix, then the id in decimal
      (a minus sign first when the id is negative). */
  function JobListCacheKey(idNo: int): (k: string)
    ensures |k| > |SAVED_JOB_LIST_PREFIX|
    ensures k[..|SAVED_JOB_LIST_PREFIX|] == SAVED_JOB_LIST_PREFIX
    ensures k[|SAVED_JOB_LIST_PREFIX|..] == IntToString(idNo)
    ensures idNo >= 0 ==> DecimalValue(k[|SAVED_JOB_LIST_PREFIX|..]) == idNo
    ensures idNo < 0 ==> k[|SAVED_JOB_LIST_PREFIX|] == '-'
                         && DecimalValue(k[|SAVED_JOB_LIST_PREFIX| + 1..]) == -idNo
  {
    var k := SAVED_JOB_LIST_PREFIX + IntToString(idNo);
    assert idNo < 0 ==> k[|SAVED_JOB_LIST_PREFIX| + 1..] == IntToString(idNo)[1..];
    k
  }

  /** A worked key: user 1070 and user -5. */
  lemma JobListCacheKeyExamples()
    ensures JobListCacheKey(1070) == "saved_job_list_0927_1070"
    ensures JobListCacheKey(-5) == "saved_job_list_0927_-5"
  {
    assert NatToString(1070) == NatToString(107) + ['0'];
    assert NatToString(107) == NatToString(10) + ['7'];
    assert NatToString(10) == NatToString(1) + ['0'];
  }

  /** Two company keys are equal exactly when they are for the same user and
      both flags are zero or both are non-zero: the two views never share a
      key, and no two users share one. */
  lemma CompanyListCacheKeyInjective(a: int, flagA: int, b: int, flagB: int)
    ensures CompanyListCacheKey(a, flagA) == CompanyListCacheKey(b, flagB)
        <==> a == b && (flagA == 0 <==> flagB == 0)
  {
    var ka, kb := CompanyListCacheKey(a, flagA), CompanyListCacheKey(b, flagB);
    if (flagA == 0) != (flagB == 0) {
      assert ka[1] != kb[1];
    } else if ka == kb {
      if flagA == 0 {
        PrefixedInjective(SAVED_COMPANY_LIST_PREFIX, a, b);
      } else {
        PrefixedInjective(SUBSCRIBED_COMPANY_LIST_PREFIX, a, b);
      }
    }
  }

  lemma JobListCacheKeyInjective(a: int, b: int)
    ensures JobListCacheKey(a) == JobListCacheKey(b) <==> a == b
  {
    if JobListCacheKey(a) == JobListCacheKey(b) {
      PrefixedInjective(SAVED_JOB_LIST_PREFIX, a, b);
    }
  }

  /** The job key family and the company key families are disjoint, so the
      two services never overwrite each other's entries in a shared cache. */
  lemma JobAndCompanyKeysDisjoint(a: int, b: int, flag: int)
    ensures JobListCacheKey(a) != CompanyListCacheKey(b, flag)
  {
    var kj, kc := JobListCacheKey(a), CompanyListCacheKey(b, flag);
    if flag == 0 {
      assert kj[6] != kc[6];
    } else {
      assert kj[1] != kc[1];
    }
  }
}
