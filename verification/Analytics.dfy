/** The analytics tables of backend/db/duckdb_manager.py and the roll-up jobs of
    backend/scheduler.py, as the meaning of their SQL statements. Times are microseconds. */
module Analytics {
  import opened Numbers
  import opened Text
  import opened Wrappers

  const MINUTE: nat := 60 * 1000000
  const HOUR: nat := 3600 * 1000000

  // 2000-01-03, from which time_bucket counts intervals of days or less.
  const BUCKET_ORIGIN: int := 946857600 * 1000000

  datatype Row = Row(ts: int, host: string, ip: string, verb: Option<string>, path: Option<string>,
                     status: Option<int>, statusClass: Option<string>, country: Option<string>,
                     responseBytes: Option<int>, requestBytes: Option<int>)

  // ---- filters ----

  // An empty string is an absent filter.
  datatype RequestFilter = RequestFilter(host: string, ip: string, verb: string, statusClass: string, path: string, country: string)

  datatype Condition =
    | Between(from: int, to: int)
    | HostIs(host: string)
    | IpIs(ip: string)
    | VerbIs(verb: string)
    | StatusClassIs(statusClass: string)
    | PathLike(pattern: string)
    | CountryIs(country: string)

  function UpperChar(c: char): char {
    if 'a' <= c <= 'z' then c - 'a' + 'A' else c
  }

  function Upper(s: string): string {
    seq(|s|, i requires 0 <= i < |s| => UpperChar(s[i]))
  }

  // SQL's LIKE: % stands for any text, _ for any one character.
  predicate Like(pattern: string, s: string)
    decreases |pattern| + |s|
  {
    if pattern == "" then s == ""
    else if pattern[0] == '%' then Like(pattern[1..], s) || (s != "" && Like(pattern, s[1..]))
    else s != "" && (pattern[0] == '_' || pattern[0] == s[0]) && Like(pattern[1..], s[1..])
  }

  // A comparison with NULL is not true.
  predicate Holds(c: Condition, r: Row) {
    match c
    case Between(from, to) => from <= r.ts <= to
    case HostIs(host) => r.host == host
    case IpIs(ip) => r.ip == ip
    case VerbIs(verb) => r.verb == Some(verb)
    case StatusClassIs(statusClass) => r.statusClass == Some(statusClass)
    case PathLike(pattern) => r.path.Some? && Like(pattern, r.path.value)
    case CountryIs(country) => r.country == Some(country)
  }

  predicate AllHold(conditions: seq<Condition>, r: Row) {
    forall i | 0 <= i < |conditions| :: Holds(conditions[i], r)
  }

  predicate Where(from: int, to: int, f: Option<RequestFilter>, r: Row) {
    && from <= r.ts <= to
    && (f.Some? ==>
          && (f.value.host != "" ==> r.host == f.value.host)
          && (f.value.ip != "" ==> r.ip == f.value.ip)
          && (f.value.verb != "" ==> r.verb == Some(Upper(f.value.verb)))
          && (f.value.statusClass != "" ==> r.statusClass == Some(f.value.statusClass))
          && (f.value.path != "" ==> r.path.Some? && Like("%" + f.value.path + "%", r.path.value))
          && (f.value.country != "" ==> r.country == Some(Upper(f.value.country))))
  }

  lemma Appended(conditions: seq<Condition>, c: Condition)
    ensures forall r :: AllHold(conditions + [c], r) <==> AllHold(conditions, r) && Holds(c, r)
  {
    var all := conditions + [c];
    assert all[|conditions|] == c && forall i | 0 <= i < |conditions| :: all[i] == conditions[i];
  }

  /** The condition list grows one filter at a time and ends up meaning exactly the filter. */
  method BuildWhere(from: int, to: int, f: Option<RequestFilter>) returns (conditions: seq<Condition>)
    ensures forall r :: AllHold(conditions, r) <==> Where(from, to, f, r)
  {
    hide Like, Upper, AllHold;
    conditions := [];
    Appended([], Between(from, to));
    assert forall r :: AllHold([], r) by {
      NothingAsked();
    }
    conditions := conditions + [Between(from, to)];
    if f.Some? {
      var g := f.value;
      Appended(conditions, HostIs(g.host));
      if g.host != "" { conditions := conditions + [HostIs(g.host)]; }
      Appended(conditions, IpIs(g.ip));
      if g.ip != "" { conditions := conditions + [IpIs(g.ip)]; }
      Appended(conditions, VerbIs(Upper(g.verb)));
      if g.verb != "" { conditions := conditions + [VerbIs(Upper(g.verb))]; }
      Appended(conditions, StatusClassIs(g.statusClass));
      if g.statusClass != "" { conditions := conditions + [StatusClassIs(g.statusClass)]; }
      Appended(conditions, PathLike("%" + g.path + "%"));
      if g.path != "" { conditions := conditions + [PathLike("%" + g.path + "%")]; }
      Appended(conditions, CountryIs(Upper(g.country)));
      if g.country != "" { conditions := conditions + [CountryIs(Upper(g.country))]; }
    }
  }

  lemma NothingAsked()
    ensures forall r :: AllHold([], r)
  {
  }

  // ---- the path filter ----

  predicate Plain(p: string) {
    '%' !in p && '_' !in p
  }

  lemma {:induction false} PrefixLike(p: string, s: string)
    requires Plain(p)
    ensures Like(p + "%", s) <==> OccursAt(s, p, 0)
    decreases |p| + |s|
  {
    if p == "" {
      assert p + "%" == "%";
      AnyLike(s);
    } else {
      assert (p + "%")[1..] == p[1..] + "%";
      if s != "" {
        PrefixLike(p[1..], s[1..]);
        if OccursAt(s, p, 0) {
          assert s[1..][0..|p| - 1] == s[0..|p|][1..];
        }
        if s[0] == p[0] && OccursAt(s[1..], p[1..], 0) {
          assert s[0..|p|] == [s[0]] + s[1..][0..|p| - 1];
          assert p == [p[0]] + p[1..];
        }
      }
    }
  }

  lemma {:induction false} AnyLike(s: string)
    ensures Like("%", s)
  {
    assert "%"[1..] == "";
    if s != "" {
      AnyLike(s[1..]);
    }
  }

  lemma {:induction false} ContainsSteps(s: string, p: string)
    requires s != ""
    ensures Contains(s, p) <==> OccursAt(s, p, 0) || Contains(s[1..], p)
  {
    if Contains(s, p) && !OccursAt(s, p, 0) {
      var i :| 0 <= i <= |s| && OccursAt(s, p, i);
      assert s[1..][i - 1..i - 1 + |p|] == s[i..i + |p|];
      assert OccursAt(s[1..], p, i - 1);
    }
    if Contains(s[1..], p) {
      var i :| 0 <= i <= |s[1..]| && OccursAt(s[1..], p, i);
      assert s[i + 1..i + 1 + |p|] == s[1..][i..i + |p|];
      assert OccursAt(s, p, i + 1);
    }
  }

  lemma {:induction false} InfixLike(p: string, s: string)
    requires Plain(p)
    ensures Like("%" + p + "%", s) <==> Contains(s, p)
  {
    assert ("%" + p + "%")[1..] == p + "%";
    PrefixLike(p, s);
    if s != "" {
      InfixLike(p, s[1..]);
      ContainsSteps(s, p);
    } else {
      assert Contains(s, p) <==> OccursAt(s, p, 0);
    }
  }

  // A text that a pattern with wildcards matches although it does not contain it.
  function Stand(p: string): string {
    if p == "" then ""
    else if p[0] == '%' then Stand(p[1..])
    else [if p[0] == '_' then 'x' else p[0]] + Stand(p[1..])
  }

  lemma {:induction false} StandMatches(p: string)
    ensures Like(p + "%", Stand(p))
    ensures |Stand(p)| <= |p| && '_' !in Stand(p) && ('%' in p ==> |Stand(p)| < |p|)
  {
    if p == "" {
      AnyLike("");
      assert p + "%" == "%";
    } else {
      StandMatches(p[1..]);
      assert (p + "%")[1..] == p[1..] + "%";
      assert p == [p[0]] + p[1..];
      if p[0] != '%' {
        assert Stand(p)[1..] == Stand(p[1..]);
      }
    }
  }

  lemma TooShort(s: string, p: string)
    requires |s| <= |p| && s != p
    ensures !Contains(s, p)
  {
    assert s[0..|s|] == s;
  }

  /** The server's path filter means "contains", as the page's does, if and only if the filter
      text has no percent sign and no underscore. */
  lemma PathFilterIsContainsIff(p: string)
    ensures (forall s :: Like("%" + p + "%", s) <==> Contains(s, p)) <==> Plain(p)
  {
    if Plain(p) {
      forall s
        ensures Like("%" + p + "%", s) <==> Contains(s, p)
      {
        InfixLike(p, s);
      }
    } else {
      StandMatches(p);
      var s := Stand(p);
      assert ("%" + p + "%")[1..] == p + "%";
      assert Like("%" + p + "%", s);
      TooShort(s, p);
    }
  }

  // ---- totals ----

  datatype Totals = Totals(requests: int, c2: int, c3: int, c4: int, c5: int, bytesOut: int, bytesIn: int)

  const ZERO := Totals(0, 0, 0, 0, 0, 0, 0)

  function Plus(a: Totals, b: Totals): Totals {
    Totals(a.requests + b.requests, a.c2 + b.c2, a.c3 + b.c3, a.c4 + b.c4, a.c5 + b.c5,
           a.bytesOut + b.bytesOut, a.bytesIn + b.bytesIn)
  }

  predicate In2xx(r: Row) { r.status.Some? && 200 <= r.status.value < 300 }
  predicate In3xx(r: Row) { r.status.Some? && 300 <= r.status.value < 400 }
  predicate In4xx(r: Row) { r.status.Some? && 400 <= r.status.value < 500 }
  predicate In5xx(r: Row) { r.status.Some? && r.status.value >= 500 }
  predicate Failing(r: Row) { r.status.Some? && r.status.value >= 400 }

  function One(cond: bool): int {
    if cond then 1 else 0
  }

  // What one row adds to each sum.
  function Of(r: Row): Totals {
    Totals(1, One(In2xx(r)), One(In3xx(r)), One(In4xx(r)), One(In5xx(r)), OrZero(r.responseBytes), OrZero(r.requestBytes))
  }

  // SUM(CASE ... THEN 1 ELSE 0 END) and SUM(COALESCE(...)) over the rows.
  function Total(rows: seq<Row>): Totals {
    if rows == [] then ZERO
    else Plus(Total(rows[..|rows| - 1]), Of(rows[|rows| - 1]))
  }

  function Select(rows: seq<Row>, p: Row -> bool): seq<Row> {
    if rows == [] then []
    else Select(rows[..|rows| - 1], p) + (if p(rows[|rows| - 1]) then [rows[|rows| - 1]] else [])
  }

  function Ips(rows: seq<Row>): set<string> {
    set i | 0 <= i < |rows| :: rows[i].ip
  }

  // ---- the queries ----

  datatype Overview = Overview(requests: nat, uniqueIps: nat, bytesOut: int, bytesIn: int, errorRate: real,
                               c2: nat, c3: nat, c4: nat, c5: nat)

  function SumOf(rows: seq<Row>, f: Row -> int): int {
    if rows == [] then 0 else SumOf(rows[..|rows| - 1], f) + f(rows[|rows| - 1])
  }

  function ResponseBytes(r: Row): int { OrZero(r.responseBytes) }
  function RequestBytes(r: Row): int { OrZero(r.requestBytes) }

  // COUNT(CASE ...) counts the rows where the case is not NULL.
  function OverviewOf(rows: seq<Row>): Overview {
    Overview(|rows|, |Ips(rows)|, SumOf(rows, ResponseBytes), SumOf(rows, RequestBytes),
             if rows == [] then 0.0 else |Select(rows, Failing)| as real / |rows| as real,
             |Select(rows, In2xx)|, |Select(rows, In3xx)|, |Select(rows, In4xx)|, |Select(rows, In5xx)|)
  }

  datatype Bucket = Bucket(start: int, totals: Totals, uniqueIps: nat)

  function BucketOf(ts: int, width: nat): int
    requires width > 0
  {
    (ts - BUCKET_ORIGIN) / width * width + BUCKET_ORIGIN
  }

  function InsertKey(k: int, keys: seq<int>): seq<int> {
    if keys == [] || k < keys[0] then [k] + keys
    else if k == keys[0] then keys
    else [keys[0]] + InsertKey(k, keys[1..])
  }

  // The distinct keys, in ascending order: GROUP BY b ORDER BY b.
  function Keys(rows: seq<Row>, key: Row -> int): seq<int> {
    if rows == [] then [] else InsertKey(key(rows[|rows| - 1]), Keys(rows[..|rows| - 1], key))
  }

  function Group(rows: seq<Row>, key: Row -> int, k: int): seq<Row> {
    Select(rows, r => key(r) == k)
  }

  function Buckets(rows: seq<Row>, key: Row -> int, keys: seq<int>): seq<Bucket> {
    if keys == [] then []
    else [Bucket(keys[0], Total(Group(rows, key, keys[0])), |Ips(Group(rows, key, keys[0]))|)] + Buckets(rows, key, keys[1..])
  }

  function ByBucket(width: nat): Row -> int
    requires width > 0
  {
    (r: Row) => BucketOf(r.ts, width)
  }

  function Selected(rows: seq<Row>, from: int, to: int, f: Option<RequestFilter>): seq<Row> {
    Select(rows, r => Where(from, to, f, r))
  }

  function QueryOverview(rows: seq<Row>, from: int, to: int, f: Option<RequestFilter>): Overview {
    OverviewOf(Selected(rows, from, to, f))
  }

  function QueryTimeseries(rows: seq<Row>, from: int, to: int, width: nat, f: Option<RequestFilter>): seq<Bucket>
    requires width > 0
  {
    var selected := Selected(rows, from, to, f);
    Buckets(selected, ByBucket(width), Keys(selected, ByBucket(width)))
  }

  function SumBuckets(buckets: seq<Bucket>): Totals {
    if buckets == [] then ZERO else Plus(buckets[0].totals, SumBuckets(buckets[1..]))
  }

  function SumIps(buckets: seq<Bucket>): nat {
    if buckets == [] then 0 else buckets[0].uniqueIps + SumIps(buckets[1..])
  }

  // ---- grouping partitions ----

  lemma {:induction false} InsertKeyHas(k: int, keys: seq<int>)
    ensures forall x :: x in InsertKey(k, keys) <==> x == k || x in keys
  {
    if keys == [] || k <= keys[0] {
    } else {
      InsertKeyHas(k, keys[1..]);
      assert keys == [keys[0]] + keys[1..];
    }
  }

  lemma {:induction false} InsertKeyKeeps(k: int, keys: seq<int>)
    requires StrictlyAscending(keys)
    ensures StrictlyAscending(InsertKey(k, keys))
    ensures forall x :: x in InsertKey(k, keys) <==> x == k || x in keys
  {
    InsertKeyHas(k, keys);
    if keys == [] || k <= keys[0] {
    } else {
      var rest := InsertKey(k, keys[1..]);
      InsertKeyKeeps(k, keys[1..]);
      hide InsertKey;
      forall i | 0 <= i < |rest|
        ensures keys[0] < rest[i]
      {
        assert rest[i] in rest;
      }
    }
  }

  lemma {:induction false} KeysKeep(rows: seq<Row>, key: Row -> int)
    ensures StrictlyAscending(Keys(rows, key))
    ensures forall i | 0 <= i < |rows| :: key(rows[i]) in Keys(rows, key)
  {
    if rows == [] {
    } else {
      hide StrictlyAscending, InsertKey;
      var init, last := rows[..|rows| - 1], key(rows[|rows| - 1]);
      KeysKeep(init, key);
      InsertKeyKeeps(last, Keys(init, key));
      forall i | 0 <= i < |rows|
        ensures key(rows[i]) in InsertKey(last, Keys(init, key))
      {
        assert i < |init| ==> init[i] == rows[i];
      }
    }
  }

  function Others(rows: seq<Row>, key: Row -> int, k: int): seq<Row> {
    Select(rows, r => key(r) != k)
  }

  lemma TotalAppend(rows: seq<Row>, r: Row)
    ensures Total(rows + [r]) == Plus(Total(rows), Of(r))
  {
    assert (rows + [r])[..|rows|] == rows;
  }

  lemma IpsAppend(rows: seq<Row>, r: Row)
    ensures Ips(rows + [r]) == Ips(rows) + {r.ip}
  {
    var all := rows + [r];
    assert all[|rows|] == r && forall i | 0 <= i < |rows| :: all[i] == rows[i];
    forall ip | ip in Ips(rows)
      ensures ip in Ips(all)
    {
      var i :| 0 <= i < |rows| && rows[i].ip == ip;
      assert all[i].ip == ip;
    }
  }

  lemma GroupAppend(rows: seq<Row>, r: Row, key: Row -> int, k: int)
    ensures Group(rows + [r], key, k) == if key(r) == k then Group(rows, key, k) + [r] else Group(rows, key, k)
    ensures Others(rows + [r], key, k) == if key(r) == k then Others(rows, key, k) else Others(rows, key, k) + [r]
  {
    assert (rows + [r])[..|rows|] == rows;
  }

  lemma {:induction false} TotalSplits(rows: seq<Row>, key: Row -> int, k: int)
    ensures Total(rows) == Plus(Total(Group(rows, key, k)), Total(Others(rows, key, k)))
    ensures Ips(rows) == Ips(Group(rows, key, k)) + Ips(Others(rows, key, k))
  {
    hide *;
    if rows == [] {
      NothingSplits(rows, key, k);
    } else {
      var init, r := rows[..|rows| - 1], rows[|rows| - 1];
      TotalSplits(init, key, k);
      var group, others := Group(init, key, k), Others(init, key, k);
      assert rows == init + [r];
      GroupAppend(init, r, key, k);
      TotalAppend(init, r);
      IpsAppend(init, r);
      if key(r) == k {
        TotalAppend(group, r);
        IpsAppend(group, r);
      } else {
        TotalAppend(others, r);
        IpsAppend(others, r);
      }
      OneJoins(Total(group), Total(others), Of(r), Ips(group), Ips(others), {r.ip});
    }
  }

  lemma NothingSplits(rows: seq<Row>, key: Row -> int, k: int)
    requires rows == []
    ensures Total(rows) == Plus(Total(Group(rows, key, k)), Total(Others(rows, key, k)))
    ensures Ips(rows) == Ips(Group(rows, key, k)) + Ips(Others(rows, key, k))
  {
    assert Group(rows, key, k) == rows && Others(rows, key, k) == rows && Total(rows) == ZERO && Ips(rows) == {};
    hide Total, Ips, Group, Others;
  }

  lemma OneJoins(a: Totals, b: Totals, c: Totals, x: set<string>, y: set<string>, z: set<string>)
    ensures Plus(Plus(a, b), c) == Plus(Plus(a, c), b) == Plus(a, Plus(b, c))
    ensures (x + y) + z == (x + z) + y == x + (y + z)
  {
  }

  lemma {:induction false} SelectKeeps(rows: seq<Row>, p: Row -> bool)
    ensures forall i | 0 <= i < |Select(rows, p)| :: Select(rows, p)[i] in rows && p(Select(rows, p)[i])
  {
    if rows == [] {
    } else {
      SelectKeeps(rows[..|rows| - 1], p);
    }
  }

  lemma {:induction false} SelectTwice(rows: seq<Row>, p: Row -> bool, q: Row -> bool, both: Row -> bool)
    requires forall r :: both(r) <==> p(r) && q(r)
    ensures Select(Select(rows, p), q) == Select(rows, both)
  {
    if rows == [] {
    } else {
      var init, r := rows[..|rows| - 1], rows[|rows| - 1];
      SelectTwice(init, p, q, both);
      if p(r) {
        assert (Select(init, p) + [r])[..|Select(init, p)|] == Select(init, p);
      } else {
        assert Select(rows, p) == Select(init, p);
      }
    }
  }

  lemma GroupOfOthers(rows: seq<Row>, key: Row -> int, k: int, other: int)
    requires k != other
    ensures Group(Others(rows, key, k), key, other) == Group(rows, key, other)
  {
    SelectTwice(rows, r => key(r) != k, r => key(r) == other, r => key(r) == other);
  }

  lemma {:induction false} SameBuckets(rows: seq<Row>, key: Row -> int, k: int, keys: seq<int>)
    requires k !in keys
    ensures Buckets(Others(rows, key, k), key, keys) == Buckets(rows, key, keys)
  {
    if keys == [] {
    } else {
      GroupOfOthers(rows, key, k, keys[0]);
      SameBuckets(rows, key, k, keys[1..]);
    }
  }

  /** Over any distinct keys that cover the rows, the groups' totals add up to the whole, and
      the groups' address counts bound the whole's from above and, one by one, from below. */
  lemma {:induction false} GroupsPartition(rows: seq<Row>, key: Row -> int, keys: seq<int>)
    requires forall i, j | 0 <= i < j < |keys| :: keys[i] != keys[j]
    requires forall i | 0 <= i < |rows| :: key(rows[i]) in keys
    ensures SumBuckets(Buckets(rows, key, keys)) == Total(rows)
    ensures |Ips(rows)| <= SumIps(Buckets(rows, key, keys))
    decreases |keys|
  {
    if keys == [] {
      assert rows == [];
    } else {
      var k, rest := keys[0], Others(rows, key, keys[0]);
      SelectKeeps(rows, r => key(r) != k);
      forall i | 0 <= i < |rest|
        ensures key(rest[i]) in keys[1..]
      {
        assert keys == [k] + keys[1..];
      }
      GroupsPartition(rest, key, keys[1..]);
      SameBuckets(rows, key, k, keys[1..]);
      TotalSplits(rows, key, k);
      UnionBound(Ips(Group(rows, key, k)), Ips(rest));
    }
  }

  lemma UnionBound<T>(a: set<T>, b: set<T>)
    ensures |a + b| <= |a| + |b|
  {
    assert a + b == a + (b - a) && |b - a| <= |b| by {
      Subset(b - a, b);
    }
  }

  lemma {:induction false} BucketsAt(rows: seq<Row>, key: Row -> int, keys: seq<int>, i: nat)
    requires i < |keys|
    ensures |Buckets(rows, key, keys)| == |keys|
    ensures Buckets(rows, key, keys)[i] ==
            Bucket(keys[i], Total(Group(rows, key, keys[i])), |Ips(Group(rows, key, keys[i]))|)
  {
    hide Total, Ips, Group;
    if i > 0 {
      BucketsAt(rows, key, keys[1..], i - 1);
    } else if |keys| > 1 {
      BucketsAt(rows, key, keys[1..], 0);
    }
  }

  lemma {:induction false} TotalIsCounts(rows: seq<Row>)
    ensures Total(rows) == Totals(|rows|, |Select(rows, In2xx)|, |Select(rows, In3xx)|, |Select(rows, In4xx)|, |Select(rows, In5xx)|,
                                  SumOf(rows, ResponseBytes), SumOf(rows, RequestBytes))
    ensures |Select(rows, Failing)| == |Select(rows, In4xx)| + |Select(rows, In5xx)|
  {
    if rows == [] {
    } else {
      TotalIsCounts(rows[..|rows| - 1]);
    }
  }

  /** Grouping conserves totals: for any table, range, filter and bucket width, the buckets of the
      time series add up to the overview in every additive column. Overview addresses lie between
      each bucket's count and the sum of the counts, and the buckets come in ascending order. */
  lemma TimeseriesConserves(rows: seq<Row>, from: int, to: int, width: nat, f: Option<RequestFilter>)
    requires width > 0
    ensures var series, overview := QueryTimeseries(rows, from, to, width, f), QueryOverview(rows, from, to, f);
            && SumBuckets(series) ==
               Totals(overview.requests, overview.c2, overview.c3, overview.c4, overview.c5, overview.bytesOut, overview.bytesIn)
            && overview.uniqueIps <= SumIps(series)
            && (forall i | 0 <= i < |series| :: series[i].uniqueIps <= overview.uniqueIps)
            && (forall i, j | 0 <= i < j < |series| :: series[i].start < series[j].start)
  {
    var selected, key := Selected(rows, from, to, f), ByBucket(width);
    var keys := Keys(selected, key);
    KeysKeep(selected, key);
    GroupsPartition(selected, key, keys);
    TotalIsCounts(selected);
    forall i | 0 <= i < |keys|
      ensures |Ips(Group(selected, key, keys[i]))| <= |Ips(selected)|
    {
      TotalSplits(selected, key, keys[i]);
      Subset(Ips(Group(selected, key, keys[i])), Ips(selected));
    }
    var series := Buckets(selected, key, keys);
    forall i | 0 <= i < |keys|
      ensures |series| == |keys| && series[i].start == keys[i] && series[i].uniqueIps == |Ips(Group(selected, key, keys[i]))|
    {
      BucketsAt(selected, key, keys, i);
    }
    if keys == [] {
      assert series == [];
    }
  }

  /** The overview's error rate, taken over all statuses from 400 up, is the share of its 4xx and
      5xx counts; its four classes leave out rows without a status or below 200. */
  lemma OverviewErrorRate(rows: seq<Row>, from: int, to: int, f: Option<RequestFilter>)
    ensures var o := QueryOverview(rows, from, to, f);
            && (o.requests > 0 ==> o.errorRate == (o.c4 + o.c5) as real / o.requests as real)
            && o.c2 + o.c3 + o.c4 + o.c5 <= o.requests
  {
    var selected := Selected(rows, from, to, f);
    TotalIsCounts(selected);
    ClassesDisjoint(selected);
  }

  lemma {:induction false} ClassesDisjoint(rows: seq<Row>)
    ensures |Select(rows, In2xx)| + |Select(rows, In3xx)| + |Select(rows, In4xx)| + |Select(rows, In5xx)| <= |rows|
  {
    if rows == [] {
    } else {
      ClassesDisjoint(rows[..|rows| - 1]);
    }
  }

  // The row falls in the range and agrees with each filter that was sent.
  predicate Meets(from: int, to: int, f: Option<RequestFilter>, r: Row) {
    !(r.ts < from || to < r.ts) &&
    match f
    case None => true
    case Some(RequestFilter(host, ip, verb, statusClass, path, country)) =>
      && (host == "" || host == r.host)
      && (ip == "" || ip == r.ip)
      && (verb == "" || Some(Upper(verb)) == r.verb)
      && (statusClass == "" || Some(statusClass) == r.statusClass)
      && (path == "" || (r.path.Some? && Like("%" + path + "%", r.path.value)))
      && (country == "" || Some(Upper(country)) == r.country)
  }

  // One more request, seen from the counters.
  predicate CountsOne(a: Overview, b: Overview, r: Row, known: bool) {
    var status := if r.status.Some? then r.status.value else 0;
    && b.requests == a.requests + 1
    && b.uniqueIps == a.uniqueIps + (if known then 0 else 1)
    && b.bytesOut == a.bytesOut + (if r.responseBytes.Some? then r.responseBytes.value else 0)
    && b.bytesIn == a.bytesIn + (if r.requestBytes.Some? then r.requestBytes.value else 0)
    && b.c2 == a.c2 + (if 200 <= status <= 299 then 1 else 0)
    && b.c3 == a.c3 + (if 300 <= status <= 399 then 1 else 0)
    && b.c4 == a.c4 + (if 400 <= status <= 499 then 1 else 0)
    && b.c5 == a.c5 + (if 500 <= status then 1 else 0)
    && b.errorRate * b.requests as real == a.errorRate * a.requests as real + (if 400 <= status then 1.0 else 0.0)
  }

  lemma SelectAppend(rows: seq<Row>, r: Row, p: Row -> bool)
    ensures Select(rows + [r], p) == if p(r) then Select(rows, p) + [r] else Select(rows, p)
  {
    assert (rows + [r])[..|rows|] == rows;
  }

  lemma SumAppend(rows: seq<Row>, r: Row, f: Row -> int)
    ensures SumOf(rows + [r], f) == SumOf(rows, f) + f(r)
  {
    assert (rows + [r])[..|rows|] == rows;
  }

  lemma OneMore(rows: seq<Row>, r: Row)
    ensures CountsOne(OverviewOf(rows), OverviewOf(rows + [r]), r, r.ip in Ips(rows))
  {
    hide Select, SumOf, Ips;
    SelectAppend(rows, r, In2xx);
    SelectAppend(rows, r, In3xx);
    SelectAppend(rows, r, In4xx);
    SelectAppend(rows, r, In5xx);
    SelectAppend(rows, r, Failing);
    SumAppend(rows, r, ResponseBytes);
    SumAppend(rows, r, RequestBytes);
    IpsAppend(rows, r);
    if rows == [] {
      assert Select([], Failing) == [] by {
        NothingSelected(Failing);
      }
    }
  }

  lemma NothingSelected(p: Row -> bool)
    ensures Select([], p) == []
  {
  }

  // The server's upper case, on the letters of method names and country codes.
  lemma UpperAt(s: string, i: nat)
    requires i < |s|
    ensures |Upper(s)| == |s| && Upper(s)[i] as int == s[i] as int - (if 97 <= s[i] as int <= 122 then 32 else 0)
  {
  }

  lemma WhereMeets(from: int, to: int, f: Option<RequestFilter>, r: Row)
    ensures Where(from, to, f, r) <==> Meets(from, to, f, r)
  {
    hide Like, Upper;
  }

  lemma {:induction false} SelectHas(rows: seq<Row>, p: Row -> bool)
    ensures forall r :: r in Select(rows, p) <==> r in rows && p(r)
  {
    if rows != [] {
      var init, last := rows[..|rows| - 1], rows[|rows| - 1];
      SelectHas(init, p);
      assert rows == init + [last];
    }
  }

  /** The overview request by request: no requests leave every column zero, a request outside the
      range and filters changes nothing, and any other adds to each column what it should. */
  lemma OverviewExact(rows: seq<Row>, r: Row, from: int, to: int, f: Option<RequestFilter>)
    ensures QueryOverview([], from, to, f) == Overview(0, 0, 0, 0, 0.0, 0, 0, 0, 0)
    ensures var a, b := QueryOverview(rows, from, to, f), QueryOverview(rows + [r], from, to, f);
            if Meets(from, to, f, r)
            then CountsOne(a, b, r, exists seen | seen in rows :: Meets(from, to, f, seen) && seen.ip == r.ip)
            else b == a
  {
    EmptyOverview(from, to, f);
    hide Meets, Where, OverviewOf, CountsOne, Ips, Select;
    WhereMeets(from, to, f, r);
    SelectAppend(rows, r, x => Where(from, to, f, x));
    var selected := Selected(rows, from, to, f);
    OneMore(selected, r);
    assert r.ip in Ips(selected) <==> exists seen | seen in rows :: Meets(from, to, f, seen) && seen.ip == r.ip by {
      SelectHas(rows, x => Where(from, to, f, x));
      IpsHas(selected, r.ip);
      forall seen: Row {
        WhereMeets(from, to, f, seen);
      }
    }
  }

  lemma IpsHas(rows: seq<Row>, ip: string)
    ensures ip in Ips(rows) <==> exists r | r in rows :: r.ip == ip
  {
    if r :| r in rows && r.ip == ip {
      var i :| 0 <= i < |rows| && rows[i] == r;
    }
  }

  lemma EmptyOverview(from: int, to: int, f: Option<RequestFilter>)
    ensures QueryOverview([], from, to, f) == Overview(0, 0, 0, 0, 0.0, 0, 0, 0, 0)
  {
    assert Ips([]) == {};
  }

  // ---- what a bucket holds ----

  lemma BucketIs(ts: int, width: nat, start: int)
    requires width > 0
    ensures BucketOf(ts, width) == start <==> (start - 946857600000000) % width == 0 && start <= ts < start + width
  {
    var d := ts - 946857600000000;
    DivMod(d, width);
    if (start - 946857600000000) % width == 0 && start <= ts < start + width {
      DivMod(start - 946857600000000, width);
      OneMultiple(d / width, (start - 946857600000000) / width, width, d);
    }
    MultipleMod(d / width, width);
  }

  lemma DivMod(d: int, width: nat)
    requires width > 0
    ensures d == d / width * width + d % width && 0 <= d % width < width
  {
  }

  lemma OneMultiple(a: int, b: int, width: nat, d: int)
    requires a * width <= d < a * width + width && b * width <= d < b * width + width
    ensures a == b
  {
    if a < b {
      NextMultiple(a, b, width);
    } else if b < a {
      NextMultiple(b, a, width);
    }
  }

  lemma NextMultiple(a: int, b: int, width: nat)
    requires a < b
    ensures a * width + width <= b * width
  {
    assert (b - a - 1) * width >= 0;
  }

  lemma MultipleMod(a: int, width: nat)
    requires width > 0
    ensures a * width % width == 0
  {
    DivMod(a * width, width);
    OneMultiple(a, a * width / width, width, a * width);
  }

  function Later(a: int, b: int): int { if a < b then b else a }
  function Earlier(a: int, b: int): int { if b < a then b else a }

  // The bucket says of its own window what the overview says of it.
  predicate SaysOverview(b: Bucket, o: Overview) {
    && b.totals == Totals(o.requests, o.c2, o.c3, o.c4, o.c5, o.bytesOut, o.bytesIn)
    && b.uniqueIps == o.uniqueIps
  }

  lemma GroupIsWindow(rows: seq<Row>, from: int, to: int, width: nat, f: Option<RequestFilter>, start: int)
    requires width > 0 && (start - 946857600000000) % width == 0
    ensures Group(Selected(rows, from, to, f), ByBucket(width), start) ==
            Selected(rows, Later(from, start), Earlier(to, start + width - 1), f)
  {
    var p, q := (r: Row) => Where(from, to, f, r), (r: Row) => ByBucket(width)(r) == start;
    var both := (r: Row) => Where(Later(from, start), Earlier(to, start + width - 1), f, r);
    forall r: Row
      ensures both(r) <==> p(r) && q(r)
    {
      NarrowWhere(from, to, width, f, start, r);
    }
    SelectTwice(rows, p, q, both);
  }

  lemma NarrowWhere(from: int, to: int, width: nat, f: Option<RequestFilter>, start: int, r: Row)
    requires width > 0 && (start - 946857600000000) % width == 0
    ensures Where(Later(from, start), Earlier(to, start + width - 1), f, r) <==>
            Where(from, to, f, r) && ByBucket(width)(r) == start
  {
    hide BucketOf, Like, Upper;
    BucketIs(r.ts, width, start);
  }

  lemma {:induction false} KeysAreKeys(rows: seq<Row>, key: Row -> int, k: int)
    requires k in Keys(rows, key)
    ensures exists r | r in rows :: key(r) == k
  {
    if rows != [] {
      var init, last := rows[..|rows| - 1], rows[|rows| - 1];
      InsertKeyHas(key(last), Keys(init, key));
      assert rows == init + [last];
      if key(last) != k {
        KeysAreKeys(init, key, k);
      }
    }
  }

  /** The time series bucket by bucket: each starts a whole number of widths from 2000-01-03, holds
      at least one request, and says exactly what the overview says of its own window; and every
      request in range and filters lies in some bucket. */
  lemma TimeseriesExact(rows: seq<Row>, from: int, to: int, width: nat, f: Option<RequestFilter>)
    requires width > 0
    ensures var series := QueryTimeseries(rows, from, to, width, f);
            && (forall i | 0 <= i < |series| ::
                  var o := QueryOverview(rows, Later(from, series[i].start), Earlier(to, series[i].start + width - 1), f);
                  && (series[i].start - 946857600000000) % width == 0
                  && o.requests > 0 && SaysOverview(series[i], o))
            && (forall r | r in rows && Meets(from, to, f, r) ::
                  exists i | 0 <= i < |series| :: series[i].start <= r.ts < series[i].start + width)
  {
    hide Meets, Where, BucketOf, OverviewOf, Select, Keys, Group, Total, Ips, StrictlyAscending;
    var series, selected, key := QueryTimeseries(rows, from, to, width, f), Selected(rows, from, to, f), ByBucket(width);
    var keys := Keys(selected, key);
    SelectHas(rows, r => Where(from, to, f, r));
    forall i | 0 <= i < |series|
      ensures (series[i].start - 946857600000000) % width == 0
      ensures var o := QueryOverview(rows, Later(from, series[i].start), Earlier(to, series[i].start + width - 1), f);
              o.requests > 0 && SaysOverview(series[i], o)
    {
      BucketExact(rows, from, to, width, f, i);
    }
    forall r | r in rows && Meets(from, to, f, r)
      ensures exists i | 0 <= i < |series| :: series[i].start <= r.ts < series[i].start + width
    {
      WhereMeets(from, to, f, r);
      var j :| 0 <= j < |selected| && selected[j] == r;
      KeysKeep(selected, key);
      var i :| 0 <= i < |keys| && keys[i] == key(r);
      BucketsAt(selected, key, keys, i);
      BucketIs(r.ts, width, keys[i]);
      assert series[i].start == keys[i];
    }
  }

  lemma BucketsCount(rows: seq<Row>, key: Row -> int, keys: seq<int>)
    ensures |Buckets(rows, key, keys)| == |keys|
  {
    hide Total, Ips, Group;
    if keys != [] {
      BucketsAt(rows, key, keys, 0);
    }
  }

  lemma BucketExact(rows: seq<Row>, from: int, to: int, width: nat, f: Option<RequestFilter>, i: nat)
    requires width > 0 && i < |QueryTimeseries(rows, from, to, width, f)|
    ensures var b := QueryTimeseries(rows, from, to, width, f)[i];
            var o := QueryOverview(rows, Later(from, b.start), Earlier(to, b.start + width - 1), f);
            && (b.start - 946857600000000) % width == 0
            && o.requests > 0 && SaysOverview(b, o)
  {
    hide Where, BucketOf, Keys, Buckets, Group, Select, Total, Ips, SumOf, StrictlyAscending;
    var selected, key := Selected(rows, from, to, f), ByBucket(width);
    var keys := Keys(selected, key);
    BucketsCount(selected, key, keys);
    BucketsAt(selected, key, keys, i);
    KeysAreKeys(selected, key, keys[i]);
    var r :| r in selected && key(r) == keys[i];
    BucketIs(r.ts, width, keys[i]);
    GroupIsWindow(rows, from, to, width, f, keys[i]);
    var group := Group(selected, key, keys[i]);
    TotalIsCounts(group);
    assert r in group by {
      GroupHas(selected, key, keys[i], r);
    }
  }

  lemma GroupHas(rows: seq<Row>, key: Row -> int, k: int, r: Row)
    requires r in rows && key(r) == k
    ensures r in Group(rows, key, k)
  {
    SelectHas(rows, x => key(x) == k);
  }

  // ---- the roll-up jobs ----

  datatype Stats = Stats(totals: Totals, uniqueIps: nat)

  // The key of a statistics table: the start of the period, and the host.
  type StatsTable = map<(int, string), Stats>

  datatype Db = Db(requests: seq<Row>, minutely: StatsTable, hourly: StatsTable)

  const EMPTY := Db([], map[], map[])

  function Trunc(ts: int, unit: nat): int
    requires unit > 0
  {
    ts / unit * unit
  }

  predicate InPeriod(r: Row, unit: nat, start: int, host: string) {
    start <= r.ts < start + unit && r.host == host
  }

  // The rows of one period and host.
  function PeriodRows(rows: seq<Row>, unit: nat, start: int, host: string): seq<Row> {
    Select(rows, r => InPeriod(r, unit, start, host))
  }

  // INSERT OR REPLACE ... GROUP BY the truncated time and the host, over the period that has just
  // ended; `only` is the optional host condition.
  function Upsert(table: StatsTable, rows: seq<Row>, unit: nat, now: int, only: Option<string>): StatsTable
    requires unit > 0
  {
    var start := Trunc(now, unit) - unit;
    var hosts := set i | 0 <= i < |rows| && start <= rows[i].ts < start + unit && Wanted(only, rows[i].host) :: rows[i].host;
    table + map key: (int, string) | key in (set h | h in hosts :: (start, h)) ::
              Stats(Total(PeriodRows(rows, unit, start, key.1)), |Ips(PeriodRows(rows, unit, start, key.1))|)
  }

  // `if host`: None and the empty string both mean every host.
  predicate Wanted(only: Option<string>, host: string) {
    only.Some? && only.value != "" ==> host == only.value
  }

  datatype Event = Insert(row: Row) | Minutely(now: int, only: Option<string>) | Hourly(now: int)

  function Step(db: Db, e: Event): Db {
    match e
    case Insert(row) => db.(requests := db.requests + [row])
    case Minutely(now, only) => db.(minutely := Upsert(db.minutely, db.requests, MINUTE, now, only))
    case Hourly(now) => db.(hourly := Upsert(db.hourly, db.requests, HOUR, now, None))
  }

  function Run(trace: seq<Event>): Db {
    if trace == [] then EMPTY else Step(Run(trace[..|trace| - 1]), trace[|trace| - 1])
  }

  // What a statistics table says of a period and host; no row means nothing was counted.
  function Lookup(table: StatsTable, start: int, host: string): Totals {
    if (start, host) in table then table[(start, host)].totals else ZERO
  }

  // The period that starts here is the last whole one before now.
  predicate EndedLast(start: int, unit: nat, now: int)
    requires unit > 0
  {
    start % unit == 0 && start + unit <= now < start + unit + unit
  }

  lemma EndedLastIff(start: int, unit: nat, now: int)
    requires unit > 0
    ensures Trunc(now, unit) - unit == start <==> EndedLast(start, unit, now)
  {
    DivMod(now, unit);
    if EndedLast(start, unit, now) {
      DivMod(start, unit);
      OneMultiple(now / unit, start / unit + 1, unit, now);
    }
    MultipleMod(now / unit - 1, unit);
  }

  lemma WantedIff(only: Option<string>, host: string)
    ensures Wanted(only, host) <==> only in {None, Some(""), Some(host)}
  {
  }

  // The job for this period and host has run since the last insert into it, if there was any.
  predicate Settled(trace: seq<Event>, unit: nat, start: int, host: string) {
    trace == [] ||
    var init := trace[..|trace| - 1];
    match trace[|trace| - 1]
    case Insert(row) => !InPeriod(row, unit, start, host) && Settled(init, unit, start, host)
    case Minutely(now, only) =>
      (unit == 60000000 && EndedLast(start, 60000000, now) && only in {None, Some(""), Some(host)}) || Settled(init, unit, start, host)
    case Hourly(now) =>
      (unit == 3600000000 && EndedLast(start, 3600000000, now)) || Settled(init, unit, start, host)
  }

  // A table against the requests: what a row says is never more than is there, and exactly that
  // if and only if the period is settled.
  ghost predicate Accurate(table: StatsTable, rows: seq<Row>, unit: nat, start: int, host: string, settled: bool) {
    && Vouched(Lookup(table, start, host), Total(PeriodRows(rows, unit, start, host)), settled)
    && ((start, host) in table ==> PeriodRows(rows, unit, start, host) != [])
  }

  lemma PeriodAppend(rows: seq<Row>, r: Row, unit: nat, start: int, host: string)
    ensures PeriodRows(rows + [r], unit, start, host) ==
            if InPeriod(r, unit, start, host) then PeriodRows(rows, unit, start, host) + [r] else PeriodRows(rows, unit, start, host)
  {
    assert (rows + [r])[..|rows|] == rows;
  }

  lemma InsertAccurate(table: StatsTable, rows: seq<Row>, r: Row, unit: nat, start: int, host: string, settled: bool)
    requires Accurate(table, rows, unit, start, host, settled)
    ensures Accurate(table, rows + [r], unit, start, host, settled && !InPeriod(r, unit, start, host))
  {
    hide Total, PeriodRows, InPeriod;
    PeriodAppend(rows, r, unit, start, host);
    TotalAppend(PeriodRows(rows, unit, start, host), r);
  }

  lemma {:induction false} NoRows(rows: seq<Row>, unit: nat, start: int, host: string)
    ensures PeriodRows(rows, unit, start, host) == [] <==> forall i | 0 <= i < |rows| :: !InPeriod(rows[i], unit, start, host)
  {
    if rows == [] {
    } else {
      NoRows(rows[..|rows| - 1], unit, start, host);
    }
  }

  lemma UpsertAccurate(table: StatsTable, rows: seq<Row>, unit: nat, now: int, only: Option<string>,
                       start: int, host: string, settled: bool)
    requires unit > 0 && Accurate(table, rows, unit, start, host, settled)
    ensures Accurate(Upsert(table, rows, unit, now, only), rows, unit, start, host,
                     settled || (EndedLast(start, unit, now) && only in {None, Some(""), Some(host)}))
  {
    hide Total, PeriodRows, Trunc, Wanted, Ips, EndedLast;
    NoRows(rows, unit, start, host);
    EndedLastIff(start, unit, now);
    WantedIff(only, host);
    var after := Upsert(table, rows, unit, now, only);
    if Trunc(now, unit) - unit == start && Wanted(only, host) {
      if i :| 0 <= i < |rows| && InPeriod(rows[i], unit, start, host) {
        assert Wanted(only, rows[i].host);
        assert (start, host) in after;
      } else {
        assert (start, host) !in after;
        assert Total([]) == ZERO by {
          NoTotal();
        }
      }
    } else {
      assert (start, host) in after <==> (start, host) in table;
    }
  }

  lemma NoTotal()
    ensures Total([]) == ZERO
  {
  }

  lemma {:induction false} TablesOverRuns(trace: seq<Event>, start: int, host: string)
    ensures Accurate(Run(trace).minutely, Run(trace).requests, MINUTE, start, host, Settled(trace, MINUTE, start, host))
    ensures Accurate(Run(trace).hourly, Run(trace).requests, HOUR, start, host, Settled(trace, HOUR, start, host))
  {
    if trace == [] {
    } else {
      hide Accurate, Upsert, Trunc, InPeriod, Wanted;
      var init := trace[..|trace| - 1];
      TablesOverRuns(init, start, host);
      var db := Run(init);
      match trace[|trace| - 1]
      case Insert(row) =>
        InsertAccurate(db.minutely, db.requests, row, MINUTE, start, host, Settled(init, MINUTE, start, host));
        InsertAccurate(db.hourly, db.requests, row, HOUR, start, host, Settled(init, HOUR, start, host));
      case Minutely(now, only) =>
        UpsertAccurate(db.minutely, db.requests, MINUTE, now, only, start, host, Settled(init, MINUTE, start, host));
      case Hourly(now) =>
        UpsertAccurate(db.hourly, db.requests, HOUR, now, None, start, host, Settled(init, HOUR, start, host));
    }
  }

  function Minutes(n: nat): nat {
    n * 60000000
  }

  // The sum of the minute rows of the first n minutes from `start`.
  function SumMinutes(table: StatsTable, start: int, host: string, n: nat): Totals {
    if n == 0 then ZERO
    else Plus(SumMinutes(table, start, host, n - 1), Lookup(table, start + Minutes(n - 1), host))
  }

  lemma {:induction false} PeriodsJoin(rows: seq<Row>, start: int, host: string, a: nat, b: nat)
    ensures Total(PeriodRows(rows, a + b, start, host)) ==
            Plus(Total(PeriodRows(rows, a, start, host)), Total(PeriodRows(rows, b, start + a, host)))
  {
    hide *;
    if rows == [] {
      EmptyPeriod(a + b, start, host);
      EmptyPeriod(a, start, host);
      EmptyPeriod(b, start + a, host);
      ZeroIsNeutral();
    } else {
      var init, r := rows[..|rows| - 1], rows[|rows| - 1];
      PeriodsJoin(init, start, host, a, b);
      assert rows == init + [r];
      TotalPeriodAppend(init, r, a + b, start, host);
      TotalPeriodAppend(init, r, a, start, host);
      TotalPeriodAppend(init, r, b, start + a, host);
      OneOfTwo(Total(PeriodRows(init, a, start, host)), Total(PeriodRows(init, b, start + a, host)), r, start, host, a, b);
    }
  }

  lemma OneOfTwo(x: Totals, y: Totals, r: Row, start: int, host: string, a: nat, b: nat)
    ensures Plus(Plus(x, y), if InPeriod(r, a + b, start, host) then Of(r) else ZERO) ==
            Plus(Plus(x, if InPeriod(r, a, start, host) then Of(r) else ZERO),
                 Plus(y, if InPeriod(r, b, start + a, host) then Of(r) else ZERO))
  {
  }

  lemma EmptyPeriod(unit: nat, start: int, host: string)
    ensures Total(PeriodRows([], unit, start, host)) == ZERO
  {
  }

  lemma ZeroIsNeutral()
    ensures Plus(ZERO, ZERO) == ZERO
  {
  }

  lemma TotalPeriodAppend(rows: seq<Row>, r: Row, unit: nat, start: int, host: string)
    ensures Total(PeriodRows(rows + [r], unit, start, host)) ==
            Plus(Total(PeriodRows(rows, unit, start, host)), if InPeriod(r, unit, start, host) then Of(r) else ZERO)
  {
    hide Total, Of, PeriodRows, InPeriod;
    PeriodAppend(rows, r, unit, start, host);
    TotalAppend(PeriodRows(rows, unit, start, host), r);
  }

  predicate AllSettled(trace: seq<Event>, start: int, host: string, n: nat) {
    forall i | 0 <= i < n :: Settled(trace, MINUTE, start + Minutes(i), host)
  }

  // What is said is never more than what is there, and all of it exactly when `settled`.
  predicate Vouched(said: Totals, actual: Totals, settled: bool) {
    (settled ==> said == actual) && said.requests <= actual.requests && (!settled ==> said.requests < actual.requests)
  }

  lemma VouchedPlus(a: Totals, a': Totals, b: Totals, b': Totals, s: bool, t: bool)
    requires Vouched(a, a', s) && Vouched(b, b', t)
    ensures Vouched(Plus(a, b), Plus(a', b'), s && t)
  {
  }

  lemma {:induction false} MinutesAddUp(trace: seq<Event>, start: int, host: string, n: nat)
    ensures Vouched(SumMinutes(Run(trace).minutely, start, host, n),
                    Total(PeriodRows(Run(trace).requests, Minutes(n), start, host)), AllSettled(trace, start, host, n))
  {
    hide *;
    if n == 0 {
      NothingInNoTime(trace, start, host);
    } else {
      var db, last := Run(trace), start + Minutes(n - 1);
      MinutesAddUp(trace, start, host, n - 1);
      MinuteAccurate(trace, last, host);
      PeriodsJoin(db.requests, start, host, Minutes(n - 1), MINUTE);
      SumStep(db.minutely, start, host, n);
      AllSettledStep(trace, start, host, n);
      VouchedPlus(SumMinutes(db.minutely, start, host, n - 1), Total(PeriodRows(db.requests, Minutes(n - 1), start, host)),
                  Lookup(db.minutely, last, host), Total(PeriodRows(db.requests, MINUTE, last, host)),
                  AllSettled(trace, start, host, n - 1), Settled(trace, MINUTE, last, host));
    }
  }

  lemma SumStep(table: StatsTable, start: int, host: string, n: nat)
    requires n > 0
    ensures SumMinutes(table, start, host, n) ==
            Plus(SumMinutes(table, start, host, n - 1), Lookup(table, start + Minutes(n - 1), host))
    ensures Minutes(n - 1) + MINUTE == Minutes(n)
  {
  }

  lemma AllSettledStep(trace: seq<Event>, start: int, host: string, n: nat)
    requires n > 0
    ensures AllSettled(trace, start, host, n) <==>
            AllSettled(trace, start, host, n - 1) && Settled(trace, MINUTE, start + Minutes(n - 1), host)
  {
    hide Settled;
  }

  lemma NothingInNoTime(trace: seq<Event>, start: int, host: string)
    ensures Vouched(SumMinutes(Run(trace).minutely, start, host, 0),
                    Total(PeriodRows(Run(trace).requests, Minutes(0), start, host)), AllSettled(trace, start, host, 0))
  {
    hide Run, Settled;
    NoRows(Run(trace).requests, Minutes(0), start, host);
  }

  lemma MinuteAccurate(trace: seq<Event>, start: int, host: string)
    ensures Vouched(Lookup(Run(trace).minutely, start, host), Total(PeriodRows(Run(trace).requests, MINUTE, start, host)),
                    Settled(trace, MINUTE, start, host))
  {
    hide Settled, Run;
    TablesOverRuns(trace, start, host);
  }

  /** Roll-up agreement: once the hour's row is settled, the host's sixty minute rows add up to it
      in every additive column if and only if each of those minutes was aggregated after its last
      insert for that host. */
  lemma RollUpAgreesIff(trace: seq<Event>, start: int, host: string)
    requires Settled(trace, HOUR, start, host)
    ensures SumMinutes(Run(trace).minutely, start, host, 60) == Lookup(Run(trace).hourly, start, host) <==>
            AllSettled(trace, start, host, 60)
  {
    hide *;
    TablesOverRuns(trace, start, host);
    MinutesAddUp(trace, start, host, 60);
    SixtyMinutes();
    HourSaid(Run(trace).hourly, Run(trace).requests, start, host);
    VouchedMeans(SumMinutes(Run(trace).minutely, start, host, 60), Total(PeriodRows(Run(trace).requests, HOUR, start, host)),
                 AllSettled(trace, start, host, 60));
  }

  // ---- unique addresses of the roll-up ----

  function LookupIps(table: StatsTable, start: int, host: string): nat {
    if (start, host) in table then table[(start, host)].uniqueIps else 0
  }

  function SumMinuteIps(table: StatsTable, start: int, host: string, n: nat): nat {
    if n == 0 then 0 else SumMinuteIps(table, start, host, n - 1) + LookupIps(table, start + Minutes(n - 1), host)
  }

  // A table never counts an address that is not there, and counts all of them once settled.
  predicate IpsAccurate(table: StatsTable, rows: seq<Row>, unit: nat, start: int, host: string, settled: bool) {
    && LookupIps(table, start, host) <= |Ips(PeriodRows(rows, unit, start, host))|
    && (settled ==> LookupIps(table, start, host) == |Ips(PeriodRows(rows, unit, start, host))|)
  }

  lemma InsertKeepsIps(table: StatsTable, rows: seq<Row>, r: Row, unit: nat, start: int, host: string, settled: bool)
    requires IpsAccurate(table, rows, unit, start, host, settled)
    ensures IpsAccurate(table, rows + [r], unit, start, host, settled && !InPeriod(r, unit, start, host))
  {
    hide PeriodRows, InPeriod, Ips, LookupIps;
    PeriodAppend(rows, r, unit, start, host);
    IpsAppend(PeriodRows(rows, unit, start, host), r);
    Subset(Ips(PeriodRows(rows, unit, start, host)), Ips(PeriodRows(rows, unit, start, host)) + {r.ip});
  }

  lemma UpsertKeepsIps(table: StatsTable, rows: seq<Row>, unit: nat, now: int, only: Option<string>,
                       start: int, host: string, settled: bool)
    requires unit > 0 && IpsAccurate(table, rows, unit, start, host, settled)
    requires (start, host) in table ==> PeriodRows(rows, unit, start, host) != []
    ensures IpsAccurate(Upsert(table, rows, unit, now, only), rows, unit, start, host,
                        settled || (EndedLast(start, unit, now) && only in {None, Some(""), Some(host)}))
  {
    hide Upsert, Total, PeriodRows, Trunc, Wanted, EndedLast;
    UpsertAt(table, rows, unit, now, only, start, host);
    EndedLastIff(start, unit, now);
    WantedIff(only, host);
    if PeriodRows(rows, unit, start, host) == [] {
      assert Ips([]) == {};
    }
  }

  lemma {:induction false} IpsOverRuns(trace: seq<Event>, start: int, host: string)
    ensures IpsAccurate(Run(trace).minutely, Run(trace).requests, MINUTE, start, host, Settled(trace, MINUTE, start, host))
    ensures IpsAccurate(Run(trace).hourly, Run(trace).requests, HOUR, start, host, Settled(trace, HOUR, start, host))
  {
    if trace == [] {
      assert Ips([]) == {};
    } else {
      hide IpsAccurate, Upsert, Trunc, InPeriod, Wanted, Vouched, Total, PeriodRows;
      var init := trace[..|trace| - 1];
      IpsOverRuns(init, start, host);
      TablesOverRuns(init, start, host);
      var db := Run(init);
      match trace[|trace| - 1]
      case Insert(row) =>
        InsertKeepsIps(db.minutely, db.requests, row, MINUTE, start, host, Settled(init, MINUTE, start, host));
        InsertKeepsIps(db.hourly, db.requests, row, HOUR, start, host, Settled(init, HOUR, start, host));
      case Minutely(now, only) =>
        UpsertKeepsIps(db.minutely, db.requests, MINUTE, now, only, start, host, Settled(init, MINUTE, start, host));
      case Hourly(now) =>
        UpsertKeepsIps(db.hourly, db.requests, HOUR, now, None, start, host, Settled(init, HOUR, start, host));
    }
  }

  // The addresses of a longer period are those of its two parts.
  lemma {:induction false} IpsJoin(rows: seq<Row>, start: int, host: string, a: nat, b: nat)
    ensures Ips(PeriodRows(rows, a + b, start, host)) ==
            Ips(PeriodRows(rows, a, start, host)) + Ips(PeriodRows(rows, b, start + a, host))
  {
    if rows == [] {
    } else {
      var init, r := rows[..|rows| - 1], rows[|rows| - 1];
      IpsJoin(init, start, host, a, b);
      assert rows == init + [r];
      hide Ips, PeriodRows;
      PeriodAppend(init, r, a + b, start, host);
      PeriodAppend(init, r, a, start, host);
      PeriodAppend(init, r, b, start + a, host);
      IpsAppend(PeriodRows(init, a + b, start, host), r);
      IpsAppend(PeriodRows(init, a, start, host), r);
      IpsAppend(PeriodRows(init, b, start + a, host), r);
    }
  }

  lemma {:induction false} MinuteIpsBound(trace: seq<Event>, start: int, host: string, n: nat)
    ensures AllSettled(trace, start, host, n) ==>
              |Ips(PeriodRows(Run(trace).requests, Minutes(n), start, host))| <= SumMinuteIps(Run(trace).minutely, start, host, n)
  {
    hide *;
    var db := Run(trace);
    if n == 0 {
      NoIpsInNoTime(db.requests, start, host);
    } else {
      var last := start + Minutes(n - 1);
      MinuteIpsBound(trace, start, host, n - 1);
      IpsOverRuns(trace, last, host);
      IpsJoin(db.requests, start, host, Minutes(n - 1), MINUTE);
      UnionBound(Ips(PeriodRows(db.requests, Minutes(n - 1), start, host)), Ips(PeriodRows(db.requests, MINUTE, last, host)));
      IpsSumStep(db.minutely, db.requests, start, host, n, Settled(trace, MINUTE, last, host));
      SumStep(db.minutely, start, host, n);
      AllSettledStep(trace, start, host, n);
    }
  }

  lemma IpsSumStep(table: StatsTable, rows: seq<Row>, start: int, host: string, n: nat, settled: bool)
    requires n > 0 && IpsAccurate(table, rows, MINUTE, start + Minutes(n - 1), host, settled)
    ensures settled ==>
              SumMinuteIps(table, start, host, n) ==
              SumMinuteIps(table, start, host, n - 1) + |Ips(PeriodRows(rows, MINUTE, start + Minutes(n - 1), host))|
  {
    hide Ips, PeriodRows;
  }

  lemma NoIpsInNoTime(rows: seq<Row>, start: int, host: string)
    ensures |Ips(PeriodRows(rows, Minutes(0), start, host))| == 0
  {
    NoRows(rows, Minutes(0), start, host);
    assert Ips([]) == {};
  }

  lemma MinuteWithinHour(rows: seq<Row>, start: int, host: string, i: nat)
    requires i < 60
    ensures Ips(PeriodRows(rows, MINUTE, start + Minutes(i), host)) <= Ips(PeriodRows(rows, HOUR, start, host))
  {
    hide Ips, PeriodRows;
    var a, rest := Minutes(i), Minutes(59 - i);
    assert a + MINUTE + rest == HOUR;
    IpsJoin(rows, start, host, a, MINUTE);
    IpsJoin(rows, start, host, a + MINUTE, rest);
  }

  /** Unique addresses do not add up but are bounded: a settled hour counts at least as many as any of
      its minute rows, and, once every minute is settled too, at most their sum. */
  lemma RollUpIpsBounds(trace: seq<Event>, start: int, host: string)
    requires Settled(trace, HOUR, start, host)
    ensures forall i | 0 <= i < 60 ::
              LookupIps(Run(trace).minutely, start + Minutes(i), host) <= LookupIps(Run(trace).hourly, start, host)
    ensures AllSettled(trace, start, host, 60) ==>
              LookupIps(Run(trace).hourly, start, host) <= SumMinuteIps(Run(trace).minutely, start, host, 60)
  {
    hide Run, Settled, AllSettled, PeriodRows, Ips, LookupIps;
    var db := Run(trace);
    IpsOverRuns(trace, start, host);
    forall i | 0 <= i < 60
      ensures LookupIps(db.minutely, start + Minutes(i), host) <= LookupIps(db.hourly, start, host)
    {
      IpsOverRuns(trace, start + Minutes(i), host);
      MinuteWithinHour(db.requests, start, host, i);
      Subset(Ips(PeriodRows(db.requests, MINUTE, start + Minutes(i), host)), Ips(PeriodRows(db.requests, HOUR, start, host)));
    }
    MinuteIpsBound(trace, start, host, 60);
    SixtyMinutes();
  }

  lemma {:induction false} SelectSame(rows: seq<Row>, p: Row -> bool, q: Row -> bool)
    requires forall r :: p(r) <==> q(r)
    ensures Select(rows, p) == Select(rows, q)
  {
    if rows != [] {
      SelectSame(rows[..|rows| - 1], p, q);
    }
  }

  function HostOnly(host: string): Option<RequestFilter> {
    Some(RequestFilter(host, "", "", "", "", ""))
  }

  lemma PeriodIsSelected(rows: seq<Row>, unit: nat, start: int, host: string)
    requires host != ""
    ensures PeriodRows(rows, unit, start, host) == Selected(rows, start, start + unit - 1, HostOnly(host))
  {
    hide Like, Upper;
    SelectSame(rows, r => InPeriod(r, unit, start, host), r => Where(start, start + unit - 1, HostOnly(host), r));
  }

  /** A statistics row says what the overview of that host and period says, in every additive column,
      if and only if the period is settled; settled rows agree with it on the addresses too. */
  lemma StatsRowIsOverviewIff(trace: seq<Event>, unit: nat, start: int, host: string)
    requires unit in {60000000, 3600000000} && host != ""
    ensures var table := if unit == 60000000 then Run(trace).minutely else Run(trace).hourly;
            var o := QueryOverview(Run(trace).requests, start, start + unit - 1, HostOnly(host));
            && (Lookup(table, start, host) == Totals(o.requests, o.c2, o.c3, o.c4, o.c5, o.bytesOut, o.bytesIn) <==>
                  Settled(trace, unit, start, host))
            && (Settled(trace, unit, start, host) ==> LookupIps(table, start, host) == o.uniqueIps)
  {
    hide Run, Settled, PeriodRows, Ips, Lookup, LookupIps, Select, SumOf, HostOnly, Total;
    TablesOverRuns(trace, start, host);
    IpsOverRuns(trace, start, host);
    PeriodIsSelected(Run(trace).requests, unit, start, host);
    TotalIsCounts(PeriodRows(Run(trace).requests, unit, start, host));
  }

  lemma SixtyMinutes()
    ensures Minutes(60) == HOUR
  {
  }

  lemma HourSaid(table: StatsTable, rows: seq<Row>, start: int, host: string)
    requires Accurate(table, rows, HOUR, start, host, true)
    ensures Lookup(table, start, host) == Total(PeriodRows(rows, HOUR, start, host))
  {
  }

  lemma VouchedMeans(said: Totals, actual: Totals, settled: bool)
    requires Vouched(said, actual, settled)
    ensures said == actual <==> settled
  {
  }

  // Two runs of one job that look at the same period.
  predicate SameJob(e: Event, e': Event) {
    match (e, e')
    case (Minutely(now, only), Minutely(now', only')) => Trunc(now, MINUTE) == Trunc(now', MINUTE) && only == only'
    case (Hourly(now), Hourly(now')) => Trunc(now, HOUR) == Trunc(now', HOUR)
    case _ => false
  }

  /** Running either job again within the same minute or hour changes nothing. */
  lemma JobsIdempotent(db: Db, e: Event, e': Event)
    requires SameJob(e, e')
    ensures Step(Step(db, e), e') == Step(db, e)
  {
    hide Upsert, Trunc;
    match e
    case Minutely(now, only) => UpsertTwice(db.minutely, db.requests, MINUTE, now, e'.now, only);
    case Hourly(now) => UpsertTwice(db.hourly, db.requests, HOUR, now, e'.now, None);
  }

  lemma UpsertTwice(table: StatsTable, rows: seq<Row>, unit: nat, now: int, now': int, only: Option<string>)
    requires unit > 0 && Trunc(now, unit) == Trunc(now', unit)
    ensures Upsert(Upsert(table, rows, unit, now, only), rows, unit, now', only) == Upsert(table, rows, unit, now, only)
  {
    hide Upsert, Total, PeriodRows, Trunc, Wanted, Ips;
    var once := Upsert(table, rows, unit, now, only);
    var twice := Upsert(once, rows, unit, now', only);
    forall at: int, host: string
      ensures (at, host) in twice <==> (at, host) in once
      ensures (at, host) in once ==> twice[(at, host)] == once[(at, host)]
    {
      UpsertAt(table, rows, unit, now, only, at, host);
      UpsertAt(once, rows, unit, now', only, at, host);
    }
    SameTable(twice, once);
  }

  // ---- what a job replaces ----

  /** One run of a job, said of each row: the wanted hosts with requests in the period just ended
      have exactly their statistics there, and every other row is as it was. */
  ghost predicate Replaces(table: StatsTable, table': StatsTable, rows: seq<Row>, unit: nat, now: int, only: Option<string>)
    requires unit > 0
  {
    var start := Trunc(now, unit) - unit;
    && (forall host | Wanted(only, host) && PeriodRows(rows, unit, start, host) != [] ::
          (start, host) in table' &&
          table'[(start, host)] == Stats(Total(PeriodRows(rows, unit, start, host)), |Ips(PeriodRows(rows, unit, start, host))|))
    && (forall at, host | at != start || !Wanted(only, host) || PeriodRows(rows, unit, start, host) == [] ::
          && ((at, host) in table' <==> (at, host) in table)
          && ((at, host) in table ==> table'[(at, host)] == table[(at, host)]))
  }

  lemma UpsertAt(table: StatsTable, rows: seq<Row>, unit: nat, now: int, only: Option<string>, start: int, host: string)
    requires unit > 0
    ensures var after := Upsert(table, rows, unit, now, only);
            if start == Trunc(now, unit) - unit && Wanted(only, host) && PeriodRows(rows, unit, start, host) != []
            then
              && (start, host) in after
              && after[(start, host)] == Stats(Total(PeriodRows(rows, unit, start, host)), |Ips(PeriodRows(rows, unit, start, host))|)
            else
              && ((start, host) in after <==> (start, host) in table)
              && ((start, host) in table ==> after[(start, host)] == table[(start, host)])
  {
    hide Total, Ips, PeriodRows, Trunc, Wanted;
    NoRows(rows, unit, start, host);
    if i :| 0 <= i < |rows| && InPeriod(rows[i], unit, start, host) {
      assert rows[i].host == host;
    }
  }

  lemma UpsertReplaces(table: StatsTable, rows: seq<Row>, unit: nat, now: int, only: Option<string>)
    requires unit > 0
    ensures Replaces(table, Upsert(table, rows, unit, now, only), rows, unit, now, only)
  {
    hide Upsert, Total, Ips, PeriodRows, Trunc, Wanted;
    forall at: int, host: string {
      UpsertAt(table, rows, unit, now, only, at, host);
    }
  }

  lemma ReplacesAt(table: StatsTable, a: StatsTable, b: StatsTable, rows: seq<Row>, unit: nat, now: int, only: Option<string>,
                   at: int, host: string)
    requires unit > 0 && Replaces(table, a, rows, unit, now, only) && Replaces(table, b, rows, unit, now, only)
    ensures (at, host) in a <==> (at, host) in b
    ensures (at, host) in a ==> a[(at, host)] == b[(at, host)]
  {
    hide Total, Ips, PeriodRows, Trunc, Wanted;
    var start := Trunc(now, unit) - unit;
    if at == start && Wanted(only, host) && PeriodRows(rows, unit, start, host) != [] {
      assert (start, host) in a && (start, host) in b;
    }
  }

  /** That says the whole new table. */
  lemma ReplacesIff(table: StatsTable, table': StatsTable, rows: seq<Row>, unit: nat, now: int, only: Option<string>)
    requires unit > 0
    ensures Replaces(table, table', rows, unit, now, only) <==> table' == Upsert(table, rows, unit, now, only)
  {
    hide Upsert, Replaces;
    UpsertReplaces(table, rows, unit, now, only);
    var after := Upsert(table, rows, unit, now, only);
    if Replaces(table, table', rows, unit, now, only) {
      forall at: int, host: string {
        ReplacesAt(table, table', after, rows, unit, now, only, at, host);
      }
      SameTable(table', after);
    }
  }

  lemma SameTable(a: StatsTable, b: StatsTable)
    requires forall at, host :: (at, host) in a <==> (at, host) in b
    requires forall at, host | (at, host) in a :: a[(at, host)] == b[(at, host)]
    ensures a == b
  {
    forall key: (int, string)
      ensures (key in a <==> key in b) && (key in a ==> a[key] == b[key])
    {
      var (at, host) := key;
      assert key == (at, host);
    }
  }

  // ---- where the sums differ: a request stored after its minute was aggregated ----

  function LateRow(ts: int): Row {
    Row(ts, "h", "203.0.113.9", None, None, None, None, None, None, None)
  }

  /** Both requests are of the first minute; the second arrives after that minute's job. */
  lemma LateRequestIsMissed()
    ensures var trace := [Insert(LateRow(0)), Minutely(60000000, None), Insert(LateRow(30000000)), Hourly(3600000000)];
            && Settled(trace, HOUR, 0, "h")
            && SumMinutes(Run(trace).minutely, 0, "h", 60) != Lookup(Run(trace).hourly, 0, "h")
  {
    var t1 := [Insert(LateRow(0)), Minutely(60000000, None)];
    var t2 := t1 + [Insert(LateRow(30000000))];
    var trace := t2 + [Hourly(3600000000)];
    assert trace == [Insert(LateRow(0)), Minutely(60000000, None), Insert(LateRow(30000000)), Hourly(3600000000)];
    assert trace[..|trace| - 1] == t2;
    assert InPeriod(LateRow(30000000), MINUTE, 0, "h");
    assert !Settled(t2, MINUTE, 0, "h");
    assert Trunc(3600000000, HOUR) == HOUR;
    assert !Settled(trace, MINUTE, 0, "h") && Settled(trace, HOUR, 0, "h");
    hide *;
    FirstMinuteUnsettled(trace);
    RollUpAgreesIff(trace, 0, "h");
  }

  lemma FirstMinuteUnsettled(trace: seq<Event>)
    requires !Settled(trace, MINUTE, 0, "h")
    ensures !AllSettled(trace, 0, "h", 60)
  {
    hide Settled;
    assert 0 + Minutes(0) == 0;
  }

  // ---- the database ----

  class Warehouse {
    var requests: seq<Row>
    var minutely: StatsTable
    var hourly: StatsTable

    ghost function Current(): Db
      reads this
    {
      Db(requests, minutely, hourly)
    }

    constructor ()
      ensures Current() == EMPTY
    {
      requests, minutely, hourly := [], map[], map[];
    }

    method InsertRequest(row: Row)
      modifies this
      ensures Current() == Step(old(Current()), Insert(row))
    {
      requests := requests + [row];
    }

    method AggregateMinutely(now: int, only: Option<string>)
      modifies this
      ensures requests == old(requests) && hourly == old(hourly)
      ensures Replaces(old(minutely), minutely, requests, MINUTE, now, only)
    {
      UpsertReplaces(minutely, requests, MINUTE, now, only);
      minutely := Upsert(minutely, requests, MINUTE, now, only);
    }

    method RunHourly(now: int)
      modifies this
      ensures requests == old(requests) && minutely == old(minutely)
      ensures Replaces(old(hourly), hourly, requests, HOUR, now, None)
    {
      UpsertReplaces(hourly, requests, HOUR, now, None);
      hourly := Upsert(hourly, requests, HOUR, now, None);
    }

    /** One insert or one job changes the database as the transition system steps. */
    method Deliver(e: Event)
      modifies this
      ensures Current() == Step(old(Current()), e)
    {
      hide Upsert, Replaces;
      match e
      case Insert(row) => InsertRequest(row);
      case Minutely(now, only) =>
        ghost var before := minutely;
        AggregateMinutely(now, only);
        ReplacesIff(before, minutely, requests, MINUTE, now, only);
      case Hourly(now) =>
        ghost var before := hourly;
        RunHourly(now);
        ReplacesIff(before, hourly, requests, HOUR, now, None);
    }
  }
}
