/** The audit-log read path: the controller's page and limit clamps over
    JavaScript's `parseInt`, the service's skip/take window, and the
    repository's tenant filter, newest-first order and slice; plus
    `createAuditLog`. */
module AuditLogs {
  import opened Common
  import opened JsStrings

  // ---------------------------------------------------------------------
  // parseInt(string) with no radix (section 19.2.5 of ECMA-262)
  // ---------------------------------------------------------------------

  /** The value of a digit character in radices up to 36; 36 for anything else. */
  function DigitValue(c: char): (v: nat)
    ensures v <= 36
  {
    if '0' <= c <= '9' then (c as int - '0' as int)
    else if 'a' <= c <= 'z' then (c as int - 'a' as int) + 10
    else if 'A' <= c <= 'Z' then (c as int - 'A' as int) + 10
    else 36
  }

  predicate IsRadixDigit(c: char, radix: nat) {
    DigitValue(c) < radix
  }

  /** The length of the longest prefix of `s` made of digits of `radix`. */
  function DigitRun(s: string, radix: nat): (n: nat)
    ensures n <= |s|
    ensures forall k :: 0 <= k < n ==> IsRadixDigit(s[k], radix)
    ensures n < |s| ==> !IsRadixDigit(s[n], radix)
  {
    if s == [] || !IsRadixDigit(s[0], radix) then 0 else 1 + DigitRun(s[1..], radix)
  }

  /** The number the digits of `s` denote in `radix`, most significant first. */
  function DigitsValue(s: string, radix: nat): nat {
    if s == [] then 0 else DigitsValue(s[..|s| - 1], radix) * radix + DigitValue(s[|s| - 1])
  }

  /** `parseInt(s)`: leading whitespace skipped, one optional sign, a `0x`
      or `0X` prefix switching to radix 16, then the longest run of digits;
      `None` is NaN, returned when that run is empty. Negative zero is 0. */
  function ParseInt(s: string): Option<int> {
    ParseSigned(TrimStart(s))
  }

  function ParseSigned(t: string): Option<int> {
    if t != [] && t[0] == '-' then Negate(ParseUnsigned(t[1..]))
    else if t != [] && t[0] == '+' then ParseUnsigned(t[1..])
    else ParseUnsigned(t)
  }

  function Negate(v: Option<nat>): Option<int> {
    match v
    case None => None
    case Some(n) => Some(0 - n)
  }

  function ParseUnsigned(u: string): Option<nat> {
    if |u| >= 2 && u[0] == '0' && (u[1] == 'x' || u[1] == 'X') then ParseDigits(u[2..], 16)
    else ParseDigits(u, 10)
  }

  function ParseDigits(d: string, radix: nat): Option<nat> {
    var n := DigitRun(d, radix);
    if n == 0 then None else Some(DigitsValue(d[..n], radix))
  }

  function DecimalDigit(d: nat): char
    requires d < 10
  {
    ('0' as int + d) as char
  }

  /** The decimal text of a natural number, as `String(n)` writes it. */
  function DecimalText(n: nat): (s: string)
    ensures s != [] && forall k :: 0 <= k < |s| ==> '0' <= s[k] <= '9'
    decreases n
  {
    if n < 10 then [DecimalDigit(n)] else DecimalText(n / 10) + [DecimalDigit(n % 10)]
  }

  lemma {:induction false} DecimalTextValue(n: nat)
    ensures DigitsValue(DecimalText(n), 10) == n
    decreases n
  {
    var s := DecimalText(n);
    if n >= 10 {
      DecimalTextValue(n / 10);
      assert s[..|s| - 1] == DecimalText(n / 10);
    }
  }

  /** A decimal digit is neither whitespace nor a sign. */
  lemma DigitNotBlank(c: char)
    requires '0' <= c <= '9'
    ensures !IsJsWhitespace(c) && c != '-' && c != '+'
  {
  }

  /** With no leading whitespace or sign, `parseInt` reads the text unsigned. */
  lemma ParseIntNoSign(t: string)
    requires t != [] && !IsJsWhitespace(t[0]) && t[0] != '-' && t[0] != '+'
    ensures ParseInt(t) == ParseUnsigned(t)
  {
    TrimStartKeeps(t);
  }

  /** A leading minus negates what follows it. */
  lemma ParseIntMinus(t: string)
    requires t != [] && t[0] == '-'
    ensures ParseInt(t) == Negate(ParseUnsigned(t[1..]))
  {
    assert !IsJsWhitespace(t[0]);
    TrimStartKeeps(t);
  }

  /** A text that starts with a decimal digit not followed by `x` or `X` is read in radix 10. */
  lemma ParseIntDecimalStart(t: string)
    requires t != [] && '0' <= t[0] <= '9'
    requires |t| >= 2 ==> t[1] != 'x' && t[1] != 'X'
    ensures ParseInt(t) == ParseDigits(t, 10)
  {
    DigitNotBlank(t[0]);
    ParseIntNoSign(t);
  }

  /** Decimal digits followed by a non-digit are read as exactly those digits. */
  lemma ParseDigitsOfRun(s: string, rest: string)
    requires s != [] && forall k :: 0 <= k < |s| ==> '0' <= s[k] <= '9'
    requires rest == [] || !IsRadixDigit(rest[0], 10)
    ensures ParseDigits(s + rest, 10) == Some(DigitsValue(s, 10))
  {
    assert forall k :: 0 <= k < |s| ==> IsRadixDigit(s[k], 10);
    DigitRunOf(s, rest, 10);
    assert (s + rest)[..|s|] == s;
  }

  /** A text whose first character is a decimal digit and which holds no
      `x` or `X` parses as its leading run of decimal digits. */
  lemma ParseIntOfDigits(s: string, rest: string)
    requires s != [] && forall k :: 0 <= k < |s| ==> '0' <= s[k] <= '9'
    requires rest == [] || !IsRadixDigit(rest[0], 10)
    requires |s| == 1 ==> rest == [] || (rest[0] != 'x' && rest[0] != 'X')
    ensures ParseInt(s + rest) == Some(DigitsValue(s, 10))
  {
    var t := s + rest;
    assert t != [] && '0' <= t[0] <= '9' by {
      assert t[0] == s[0];
    }
    assert |t| >= 2 ==> t[1] != 'x' && t[1] != 'X' by {
      if |s| >= 2 {
        assert t[1] == s[1];
      } else if |t| >= 2 {
        assert t[1] == rest[0];
      }
    }
    ParseIntDecimalStart(t);
    ParseDigitsOfRun(s, rest);
  }

  lemma {:induction false} DigitRunOf(s: string, rest: string, radix: nat)
    requires forall k :: 0 <= k < |s| ==> IsRadixDigit(s[k], radix)
    requires rest == [] || !IsRadixDigit(rest[0], radix)
    ensures DigitRun(s + rest, radix) == |s|
  {
    if s != [] {
      assert (s + rest)[1..] == s[1..] + rest;
      DigitRunOf(s[1..], rest, radix);
    } else {
      assert s + rest == rest;
    }
  }

  /** `parseInt` reads back what `String` writes: the round trip on naturals. */
  lemma ParseIntOfDecimal(n: nat)
    ensures ParseInt(DecimalText(n)) == Some(n)
  {
    DecimalTextValue(n);
    ParseIntOfDigits(DecimalText(n), []);
    assert DecimalText(n) + [] == DecimalText(n);
  }

  /** Trailing text after the digits is ignored: `parseInt("20abc")` is 20. */
  lemma ParseIntIgnoresTrailing(n: nat, rest: string)
    requires rest != [] && !IsRadixDigit(rest[0], 10) && rest[0] != 'x' && rest[0] != 'X'
    ensures ParseInt(DecimalText(n) + rest) == Some(n)
  {
    DecimalTextValue(n);
    ParseIntOfDigits(DecimalText(n), rest);
  }

  /** What `parseInt` reads digits from: the text after leading whitespace
      and one optional sign. */
  function AfterSign(s: string): (u: string)
    ensures |u| <= |s|
  {
    var t := TrimStart(s);
    if t != [] && (t[0] == '-' || t[0] == '+') then t[1..] else t
  }

  /** Any text whose first character after the whitespace and the optional
      sign is not a decimal digit (or that has none) is NaN: the empty text,
      a bare sign, words, and so on. */
  lemma ParseIntNaN(s: string)
    requires AfterSign(s) == [] || !('0' <= AfterSign(s)[0] <= '9')
    ensures ParseInt(s) == None
  {
    var u := AfterSign(s);
    assert ParseSigned(TrimStart(s)) == Negate(ParseUnsigned(u)) || ParseSigned(TrimStart(s)) == ParseUnsigned(u);
    assert ParseUnsigned(u) == ParseDigits(u, 10);
    assert DigitRun(u, 10) == 0 by {
      if u != [] {
        assert !IsRadixDigit(u[0], 10);
      }
    }
  }

  /** A minus before a decimal digit negates the number that follows. */
  lemma ParseIntMinusDigits(d: string, n: nat)
    requires d != [] && '0' <= d[0] <= '9'
    requires ParseInt(d) == Some(n)
    ensures ParseInt("-" + d) == Some(0 - n)
  {
    var s := "-" + d;
    assert s != [] && s[0] == '-' && s[1..] == d;
    ParseIntMinus(s);
    DigitNotBlank(d[0]);
    ParseIntNoSign(d);
  }

  /** A negative page such as "-3" parses to a negative number. */
  lemma ParseIntNegative(n: nat)
    ensures ParseInt("-" + DecimalText(n)) == Some(0 - n)
  {
    var d := DecimalText(n);
    assert d != [] && '0' <= d[0] <= '9';
    ParseIntOfDecimal(n);
    ParseIntMinusDigits(d, n);
  }

  // ---------------------------------------------------------------------
  // AuditLogController
  // ---------------------------------------------------------------------

  function Max(a: int, b: int): int { if a >= b then a else b }

  function Min(a: int, b: int): int { if a <= b then a else b }

  /** `parseInt(x) || d`: NaN and zero are falsy and give the default. */
  function OrDefault(v: Option<int>, d: int): int {
    if v.None? || v.value == 0 then d else v.value
  }

  /** `parseInt` of a query value: the raw text when present, otherwise the
      parameter's numeric default, which `parseInt` turns back into text. */
  function ParseQueryValue(q: Option<string>, default: nat): Option<int> {
    match q
    case None => ParseInt(DecimalText(default))
    case Some(s) => ParseInt(s)
  }

  /** `Math.max(1, parseInt(page) || 1)`. */
  function PageNumber(page: Option<string>): (r: int)
    ensures r >= 1
  {
    Max(1, OrDefault(ParseQueryValue(page, 1), 1))
  }

  /** `Math.min(100, Math.max(1, parseInt(limit) || 50))`. */
  function LimitNumber(limit: Option<string>): (r: int)
    ensures 1 <= r <= 100
  {
    Min(100, Max(1, OrDefault(ParseQueryValue(limit, 50), 50)))
  }

  /** The page: absent, NaN or 0 give 1, a negative value gives 1, and a
      positive one is kept. */
  lemma PageNumberCases(page: Option<string>)
    ensures page.None? ==> PageNumber(page) == 1
    ensures page.Some? && (ParseInt(page.value).None? || ParseInt(page.value).value <= 0) ==> PageNumber(page) == 1
    ensures page.Some? && ParseInt(page.value).Some? && ParseInt(page.value).value >= 1 ==>
      PageNumber(page) == ParseInt(page.value).value
  {
    ParseIntOfDecimal(1);
  }

  /** The limit: absent, NaN or 0 give 50, a negative value gives 1, a value
      above 100 gives 100, and one in 1..100 is kept. */
  lemma LimitNumberCases(limit: Option<string>)
    ensures limit.None? ==> LimitNumber(limit) == 50
    ensures limit.Some? && (ParseInt(limit.value).None? || ParseInt(limit.value) == Some(0)) ==> LimitNumber(limit) == 50
    ensures limit.Some? && ParseInt(limit.value).Some? && ParseInt(limit.value).value < 0 ==> LimitNumber(limit) == 1
    ensures limit.Some? && ParseInt(limit.value).Some? && ParseInt(limit.value).value > 100 ==> LimitNumber(limit) == 100
    ensures limit.Some? && ParseInt(limit.value).Some? && 1 <= ParseInt(limit.value).value <= 100 ==>
      LimitNumber(limit) == ParseInt(limit.value).value
  {
    ParseIntOfDecimal(50);
  }

  /** What `getAllByTenantId` asks of the service. */
  datatype TenantLogQuery = TenantLogQuery(tenantId: string, page: int, limit: int)

  function QueryParam(query: map<string, string>, key: string): Option<string> {
    if key in query then Some(query[key]) else None
  }

  /** The handler as written: it reads the query keys `"page "` and `"limit "`,
      each with a trailing space. */
  function TenantQueryAsWritten(tenantId: string, query: map<string, string>): (r: TenantLogQuery)
    ensures r.tenantId == tenantId && r.page >= 1 && 1 <= r.limit <= 100
  {
    TenantLogQuery(tenantId, PageNumber(QueryParam(query, "page ")), LimitNumber(QueryParam(query, "limit ")))
  }

  /** The handler reading the keys `page` and `limit`, as evidently intended. */
  function TenantQueryFixed(tenantId: string, query: map<string, string>): (r: TenantLogQuery)
    ensures r.tenantId == tenantId && r.page >= 1 && 1 <= r.limit <= 100
  {
    TenantLogQuery(tenantId, PageNumber(QueryParam(query, "page")), LimitNumber(QueryParam(query, "limit")))
  }

  /** The input that shows it: `?page=3&limit=10` is ignored as written, so the
      first page of 50 is served; read with the intended keys it is page 3 of 10. */
  lemma QueryKeysIgnored(tenantId: string)
    ensures var query := map["page" := DecimalText(3), "limit" := DecimalText(10)];
      && TenantQueryAsWritten(tenantId, query) == TenantLogQuery(tenantId, 1, 50)
      && TenantQueryFixed(tenantId, query) == TenantLogQuery(tenantId, 3, 10)
  {
    var query := map["page" := DecimalText(3), "limit" := DecimalText(10)];
    assert QueryParam(query, "page ") == None;
    assert QueryParam(query, "limit ") == None;
    assert QueryParam(query, "page") == Some(DecimalText(3));
    assert QueryParam(query, "limit") == Some(DecimalText(10));
    PageNumberCases(None);
    LimitNumberCases(None);
    ParseIntOfDecimal(3);
    ParseIntOfDecimal(10);
    PageNumberCases(Some(DecimalText(3)));
    LimitNumberCases(Some(DecimalText(10)));
  }

  /** With the intended keys, every in-range page and limit the client sends
      arrives as sent. */
  lemma QueryKeysFixedRead(tenantId: string, page: nat, limit: nat)
    requires page >= 1 && 1 <= limit <= 100
    ensures TenantQueryFixed(tenantId, map["page" := DecimalText(page), "limit" := DecimalText(limit)])
            == TenantLogQuery(tenantId, page, limit)
  {
    ParseIntOfDecimal(page);
    ParseIntOfDecimal(limit);
  }

  // ---------------------------------------------------------------------
  // AuditLogRepository queries
  // ---------------------------------------------------------------------

  datatype AuditLog = AuditLog(
    id: string, tenantId: string, userId: string, action: string,
    entityType: string, entityId: string, changes: string, timestamp: int)

  /** `where: { tenantId }`, in store order. */
  function ForTenant(logs: seq<AuditLog>, tenantId: string): (r: seq<AuditLog>)
    ensures forall x :: x in r <==> x in logs && x.tenantId == tenantId
    ensures multiset(r) <= multiset(logs)
  {
    if logs == [] then []
    else
      var rest := ForTenant(logs[1..], tenantId);
      assert logs == [logs[0]] + logs[1..];
      if logs[0].tenantId == tenantId then [logs[0]] + rest else rest
  }

  /** `findAllByUserId`: exactly the logs of that user; no order is promised
      and none is imposed, so they come in store order. */
  function FindAllByUserId(logs: seq<AuditLog>, userId: string): (r: seq<AuditLog>)
    ensures forall x :: x in r <==> x in logs && x.userId == userId
    ensures |r| <= |logs|
  {
    if logs == [] then []
    else if logs[0].userId == userId then [logs[0]] + FindAllByUserId(logs[1..], userId)
    else FindAllByUserId(logs[1..], userId)
  }

  /** `orderBy: { timestamp: 'desc' }`: newest first. */
  ghost predicate NewestFirst(s: seq<AuditLog>) {
    forall i, j :: 0 <= i < j < |s| ==> s[i].timestamp >= s[j].timestamp
  }

  function InsertByTimestamp(x: AuditLog, s: seq<AuditLog>): (r: seq<AuditLog>)
    ensures multiset(r) == multiset(s) + multiset{x}
    ensures |r| == |s| + 1
  {
    if s == [] || s[0].timestamp <= x.timestamp then [x] + s
    else
      assert s == [s[0]] + s[1..];
      [s[0]] + InsertByTimestamp(x, s[1..])
  }

  /** The order the database returns; ties keep store order. */
  function SortNewestFirst(s: seq<AuditLog>): (r: seq<AuditLog>)
    ensures multiset(r) == multiset(s)
    ensures |r| == |s|
  {
    if s == [] then []
    else
      assert s == [s[0]] + s[1..];
      InsertByTimestamp(s[0], SortNewestFirst(s[1..]))
  }

  /** Inserting below a bound every entry already respects keeps them all below it. */
  lemma {:induction false} InsertBounded(x: AuditLog, t: seq<AuditLog>, bound: int)
    requires x.timestamp <= bound
    requires forall k :: 0 <= k < |t| ==> t[k].timestamp <= bound
    ensures forall k :: 0 <= k < |InsertByTimestamp(x, t)| ==> InsertByTimestamp(x, t)[k].timestamp <= bound
  {
    if t != [] && t[0].timestamp > x.timestamp {
      InsertBounded(x, t[1..], bound);
      assert InsertByTimestamp(x, t) == [t[0]] + InsertByTimestamp(x, t[1..]);
    }
  }

  lemma {:induction false} InsertKeepsNewestFirst(x: AuditLog, s: seq<AuditLog>)
    requires NewestFirst(s)
    ensures NewestFirst(InsertByTimestamp(x, s))
    ensures InsertByTimestamp(x, s) != [] &&
      (InsertByTimestamp(x, s)[0] == x || (s != [] && InsertByTimestamp(x, s)[0] == s[0]))
  {
    if s == [] || s[0].timestamp <= x.timestamp {
    } else {
      var tail := s[1..];
      assert NewestFirst(tail) by {
        forall i, j | 0 <= i < j < |tail| ensures tail[i].timestamp >= tail[j].timestamp {
          assert tail[i] == s[i + 1] && tail[j] == s[j + 1];
        }
      }
      InsertKeepsNewestFirst(x, tail);
      assert forall k :: 0 <= k < |tail| ==> tail[k].timestamp <= s[0].timestamp by {
        forall k | 0 <= k < |tail| ensures tail[k].timestamp <= s[0].timestamp {
          assert tail[k] == s[k + 1];
        }
      }
      var rt := InsertByTimestamp(x, tail);
      InsertBounded(x, tail, s[0].timestamp);
      var r := InsertByTimestamp(x, s);
      assert r == [s[0]] + rt;
      forall i, j | 0 <= i < j < |r| ensures r[i].timestamp >= r[j].timestamp {
        if i == 0 {
          assert r[j] == rt[j - 1];
        } else {
          assert r[i] == rt[i - 1] && r[j] == rt[j - 1];
        }
      }
    }
  }

  /** The sorted logs are newest first and a permutation of the input. */
  lemma {:induction false} SortNewestFirstSorted(s: seq<AuditLog>)
    ensures NewestFirst(SortNewestFirst(s))
    ensures multiset(SortNewestFirst(s)) == multiset(s)
  {
    if s != [] {
      SortNewestFirstSorted(s[1..]);
      InsertKeepsNewestFirst(s[0], SortNewestFirst(s[1..]));
    }
  }

  /** `skip` entries dropped, at most `take` kept. */
  function Window(s: seq<AuditLog>, skip: nat, take: nat): (r: seq<AuditLog>)
    ensures |r| <= take
    ensures skip >= |s| ==> r == []
  {
    var lo := if skip <= |s| then skip else |s|;
    var hi := if skip + take <= |s| then skip + take else |s|;
    s[lo..hi]
  }

  /** `findAllByTenantId(tenantId, skip, take)`. */
  function FindAllByTenantId(logs: seq<AuditLog>, tenantId: string, skip: nat, take: nat): (r: seq<AuditLog>)
  {
    Window(SortNewestFirst(ForTenant(logs, tenantId)), skip, take)
  }

  /** A window keeps only entries of the sequence, in their order. */
  lemma {:induction false} WindowFacts(s: seq<AuditLog>, skip: nat, take: nat)
    ensures forall x :: x in Window(s, skip, take) ==> x in s
    ensures NewestFirst(s) ==> NewestFirst(Window(s, skip, take))
    ensures skip == 0 && take >= |s| ==> Window(s, skip, take) == s
  {
    var lo := if skip <= |s| then skip else |s|;
    var hi := if skip + take <= |s| then skip + take else |s|;
    var r := Window(s, skip, take);
    assert r == s[lo..hi];
    if NewestFirst(s) {
      forall i, j | 0 <= i < j < |r| ensures r[i].timestamp >= r[j].timestamp {
        assert r[i] == s[lo + i] && r[j] == s[lo + j];
      }
    }
  }

  /** Only that tenant's logs, newest first, at most `take` of them; and
      all of them for a window that starts at 0 and is wide enough. */
  lemma FindAllByTenantIdFacts(logs: seq<AuditLog>, tenantId: string, skip: nat, take: nat)
    ensures var r := FindAllByTenantId(logs, tenantId, skip, take);
      && |r| <= take
      && (forall x :: x in r ==> x in logs && x.tenantId == tenantId)
      && NewestFirst(r)
      && (skip == 0 && take >= |ForTenant(logs, tenantId)| ==>
            multiset(r) == multiset(ForTenant(logs, tenantId)))
  {
    var own := ForTenant(logs, tenantId);
    var sorted := SortNewestFirst(own);
    SortNewestFirstSorted(own);
    WindowFacts(sorted, skip, take);
    var r := FindAllByTenantId(logs, tenantId, skip, take);
    forall x | x in r ensures x in logs && x.tenantId == tenantId {
      assert x in sorted;
      assert x in multiset(sorted);
      assert x in multiset(own);
      assert x in own;
    }
  }

  /** The repository's default window is the 50 newest. */
  lemma DefaultWindow(logs: seq<AuditLog>, tenantId: string)
    ensures var sorted := SortNewestFirst(ForTenant(logs, tenantId));
      FindAllByTenantId(logs, tenantId, 0, 50) == sorted[..if |sorted| <= 50 then |sorted| else 50]
  {
  }

  // ---------------------------------------------------------------------
  // AuditLogService
  // ---------------------------------------------------------------------

  /** `skip = (page - 1) * limit`. */
  function Skip(page: int, limit: int): int {
    (page - 1) * limit
  }

  /** Page 1 starts at 0, a page of at least 1 never starts before 0, and
      each page starts where the previous one ends. */
  lemma SkipFacts(page: int, limit: int)
    ensures Skip(1, limit) == 0
    ensures page >= 1 && limit >= 0 ==> Skip(page, limit) >= 0
    ensures Skip(page + 1, limit) == Skip(page, limit) + limit
  {
  }

  /** `getAllByTenantId(tenantId, page, limit)` for a page the controller can
      produce. */
  function GetAllByTenantId(logs: seq<AuditLog>, q: TenantLogQuery): (r: seq<AuditLog>)
    requires q.page >= 1 && q.limit >= 0
    ensures |r| <= q.limit
  {
    SkipFacts(q.page, q.limit);
    FindAllByTenantId(logs, q.tenantId, Skip(q.page, q.limit) as nat, q.limit as nat)
  }

  lemma WindowsAdjacent(s: seq<AuditLog>, a: nat, limit: nat)
    ensures Window(s, a, limit) + Window(s, a + limit, limit) == Window(s, a, 2 * limit)
  {
    var n := |s|;
    var lo := if a <= n then a else n;
    var mid := if a + limit <= n then a + limit else n;
    var hi := if a + 2 * limit <= n then a + 2 * limit else n;
    assert Window(s, a, limit) == s[lo..mid];
    assert Window(s, a + limit, limit) == s[mid..hi];
    assert Window(s, a, 2 * limit) == s[lo..hi];
    assert s[lo..mid] + s[mid..hi] == s[lo..hi];
  }

  /** Consecutive pages are contiguous and disjoint: together they are the
      window of twice the limit starting at the first. */
  lemma PagesAreContiguous(logs: seq<AuditLog>, tenantId: string, page: int, limit: int)
    requires page >= 1 && limit >= 0
    ensures Skip(page, limit) >= 0
    ensures GetAllByTenantId(logs, TenantLogQuery(tenantId, page, limit))
            + GetAllByTenantId(logs, TenantLogQuery(tenantId, page + 1, limit))
            == Window(SortNewestFirst(ForTenant(logs, tenantId)), Skip(page, limit) as nat, 2 * limit)
  {
    NextPageSkip(page, limit);
    var a: nat, l: nat := Skip(page, limit), limit;
    var sorted := SortNewestFirst(ForTenant(logs, tenantId));
    GetAllWindow(logs, TenantLogQuery(tenantId, page, limit), a);
    GetAllWindow(logs, TenantLogQuery(tenantId, page + 1, limit), a + l);
    WindowsAdjacent(sorted, a, l);
  }

  /** The skip of a page and of the one after it. */
  lemma NextPageSkip(page: int, limit: int)
    requires page >= 1 && limit >= 0
    ensures Skip(page, limit) >= 0 && Skip(page + 1, limit) == Skip(page, limit) + limit
  {
    SkipFacts(page, limit);
  }

  /** A page is the window at its skip. */
  lemma GetAllWindow(logs: seq<AuditLog>, q: TenantLogQuery, skip: nat)
    requires q.page >= 1 && q.limit >= 0 && skip == Skip(q.page, q.limit)
    ensures GetAllByTenantId(logs, q) == Window(SortNewestFirst(ForTenant(logs, q.tenantId)), skip, q.limit as nat)
  {
  }

  /** The route as written, for a request with ordinary `page`/`limit` keys:
      always the 50 newest logs of the tenant. */
  lemma RouteServesFirstPage(logs: seq<AuditLog>, tenantId: string, query: map<string, string>)
    requires "page " !in query && "limit " !in query
    ensures GetAllByTenantId(logs, TenantQueryAsWritten(tenantId, query)) == FindAllByTenantId(logs, tenantId, 0, 50)
  {
    PageNumberCases(None);
    LimitNumberCases(None);
  }

  /** `getAllByUserId`: the path's user id, passed straight through. */
  function GetAllByUserId(logs: seq<AuditLog>, userId: string): (r: seq<AuditLog>)
    ensures forall x :: x in r <==> x in logs && x.userId == userId
  {
    FindAllByUserId(logs, userId)
  }

  // ---------------------------------------------------------------------
  // AuditLogRepository.createAuditLog
  // ---------------------------------------------------------------------

  /** The fields the caller supplies; the id and the timestamp are the database's. */
  datatype NewAuditLog = NewAuditLog(
    tenantId: string, userId: string, action: string,
    entityType: string, entityId: string, changes: string)

  function CreatedLog(data: NewAuditLog, id: string, timestamp: int): AuditLog {
    AuditLog(id, data.tenantId, data.userId, data.action, data.entityType, data.entityId, data.changes, timestamp)
  }

  class AuditLogRepository {
    var logs: seq<AuditLog>

    constructor ()
      ensures logs == []
    {
      logs := [];
    }

    /** `createAuditLog`: one record appended with the given fields, or, when
        the store refuses the write (`storeFails`), InternalServerError and no
        change. */
    method CreateAuditLog(data: NewAuditLog, id: string, timestamp: int, storeFails: bool) returns (r: Result<AuditLog>)
      modifies this
      ensures storeFails ==> r == Err(InternalServerError("Error creating audit log")) && logs == old(logs)
      ensures !storeFails ==> r == Ok(CreatedLog(data, id, timestamp)) && logs == old(logs) + [r.value]
    {
      if storeFails {
        r := Err(InternalServerError("Error creating audit log"));
      } else {
        var log := CreatedLog(data, id, timestamp);
        logs := logs + [log];
        r := Ok(log);
      }
    }
  }
}
