/** The time range of a dashboard query, from the browser (frontend/src/lib/date-range.ts and
    buildParams of frontend/src/lib/api.ts) to the server (backend/api/dependencies.py).
    Instants are microseconds from 0001-01-01T00:00:00 UTC, offsets whole minutes east. */
module DateParam {
  import opened Calendar
  import opened FormEncoding
  import opened IsoTime
  import opened Text
  import opened Wrappers

  datatype Preset = L15m | L1h | L6h | L24h | L7d | L30d

  datatype Mode = Relative(preset: Preset) | Custom(date: Date)

  datatype Filters = Filters(host: string, remoteIp: string, verb: string, statusClass: string, path: string, country: string)

  datatype TimeRange = TimeRange(from: int, to: int, bucket: string, granularity: string)

  // ---- the browser ----

  function Name(preset: Preset): string {
    match preset
    case L15m => "l15m"
    case L1h => "l1h"
    case L6h => "l6h"
    case L24h => "l24h"
    case L7d => "l7d"
    case L30d => "l30d"
  }

  function Decimal(n: nat): string {
    if n < 10 then [Digit(n)] else Decimal(n / 10) + [Digit(n % 10)]
  }

  // padStart(2, "0")
  function Two(n: nat): string {
    var s := Decimal(n);
    if |s| == 1 then "0" + s else s
  }

  // The Date constructor reads years 0 to 99 as 1900 to 1999.
  function Midnight(date: Date): Date {
    if 0 <= date.y <= 99 then Date(1900 + date.y, date.m, date.d) else date
  }

  function Abs(n: int): nat {
    if n < 0 then -n else n
  }

  function Sign(offset: int): string {
    if offset >= 0 then "+" else "-"
  }

  function DayPart(y: string, m: string, d: string): string {
    y + "-" + m + "-" + d
  }

  function ZonePart(sign: string, east: string, rest: string): string {
    sign + east + ":" + rest
  }

  function Spelled(y: string, m: string, d: string, sign: string, east: string, rest: string): string {
    DayPart(y, m, d) + "T00:00:00" + ZonePart(sign, east, rest)
  }

  function DayText(date: Date, offset: int): string
    requires Valid(date)
  {
    Spelled(Decimal(date.y), Two(date.m), Two(date.d), Sign(offset), Two(Abs(offset) / 60), Two(Abs(offset) % 60))
  }

  function ModeToApiParam(mode: Mode, offset: int): string
    requires mode.Custom? ==> Valid(mode.date)
  {
    match mode
    case Relative(preset) => "period=" + Name(preset)
    case Custom(date) => "date=" + DayText(Midnight(date), offset)
  }

  // The first two pieces between equals signs.
  function KeyAndValue(text: string): (string, string) {
    var i := Find(text, '=');
    (UpTo(text, '='), if i == -1 then "" else UpTo(text[i + 1..], '='))
  }

  function PutGiven(ps: Params, key: string, value: string): Params {
    if value == "" then ps else Put(ps, key, value)
  }

  function Filtered(ps: Params, f: Filters): Params {
    PutGiven(PutGiven(PutGiven(PutGiven(PutGiven(PutGiven(ps,
      "host", f.host), "remote_ip", f.remoteIp), "method", f.verb), "status_class", f.statusClass), "path", f.path),
      "country_code", f.country)
  }

  function Extended(ps: Params, extra: Params): Params {
    if extra == [] then ps
    else
      var last := extra[|extra| - 1];
      Put(Extended(ps, extra[..|extra| - 1]), last.0, last.1)
  }

  function QueryParams(mode: Mode, offset: int, filters: Option<Filters>, extra: Params): Params
    requires mode.Custom? ==> Valid(mode.date)
  {
    var first := [KeyAndValue(ModeToApiParam(mode, offset))];
    Extended(if filters.Some? then Filtered(first, filters.value) else first, extra)
  }

  // Every text is one of bytes once encoded in UTF-8.
  predicate Writable(filters: Option<Filters>, extra: Params) {
    && AllBytes(extra)
    && (filters.Some? ==>
          var f := filters.value;
          && Bytes(f.host) && Bytes(f.remoteIp) && Bytes(f.verb)
          && Bytes(f.statusClass) && Bytes(f.path) && Bytes(f.country))
  }

  // Bytes without an equals sign.
  predicate Safe(s: string) {
    Bytes(s) && '=' !in s
  }

  lemma SafeAppend(s: string, t: string)
    requires Safe(s) && Safe(t)
    ensures Safe(s + t)
  {
  }

  lemma {:induction false} DecimalIsSafe(n: nat)
    ensures Decimal(n) != "" && Safe(Decimal(n))
  {
    if n < 10 {
    } else {
      DecimalIsSafe(n / 10);
      SafeAppend(Decimal(n / 10), [Digit(n % 10)]);
    }
  }

  lemma TwoIsSafe(n: nat)
    ensures Safe(Two(n))
  {
    DecimalIsSafe(n);
    SafeAppend("0", Decimal(n));
  }

  lemma ThreeAreSafe(s: string, sep: string, t: string)
    requires Safe(s) && Safe(sep) && Safe(t)
    ensures Safe(s + sep + t)
  {
    hide Safe;
    SafeAppend(s, sep);
    SafeAppend(s + sep, t);
  }

  lemma DayTextIsSafe(date: Date, offset: int)
    requires Valid(date)
    ensures Safe(DayText(date, offset))
  {
    var y, m, d, sign, h, n := Decimal(date.y), Two(date.m), Two(date.d), Sign(offset), Two(Abs(offset) / 60), Two(Abs(offset) % 60);
    DecimalIsSafe(date.y);
    TwoIsSafe(date.m);
    TwoIsSafe(date.d);
    TwoIsSafe(Abs(offset) / 60);
    TwoIsSafe(Abs(offset) % 60);
    SeparatorsAreSafe(offset);
    hide *;
    ThreeAreSafe(y, "-", m);
    ThreeAreSafe(y + "-" + m, "-", d);
    SafeAppend(sign, h);
    ThreeAreSafe(sign + h, ":", n);
    ThreeAreSafe(y + "-" + m + "-" + d, "T00:00:00", sign + h + ":" + n);
    DayTextParts(date, offset);
  }

  lemma SeparatorsAreSafe(offset: int)
    ensures Safe("-") && Safe("T00:00:00") && Safe(Sign(offset)) && Safe(":")
  {
  }

  lemma DayTextParts(date: Date, offset: int)
    requires Valid(date)
    ensures DayText(date, offset) ==
            Decimal(date.y) + "-" + Two(date.m) + "-" + Two(date.d) + "T00:00:00" +
            (Sign(offset) + Two(Abs(offset) / 60) + ":" + Two(Abs(offset) % 60))
  {
    hide Decimal, Two, Sign;
  }

  lemma MidnightIsValid(date: Date)
    requires Valid(date)
    ensures Valid(Midnight(date))
  {
  }

  lemma SplitParam(key: string, value: string)
    requires Safe(key) && Safe(value)
    ensures KeyAndValue(key + "=" + value) == (key, value)
  {
    FindAt(key, '=', value);
    assert "=" == ['='];
    assert (key + "=" + value)[|key| + 1..] == value;
  }

  function Key(mode: Mode): string {
    if mode.Relative? then "period" else "date"
  }

  function Value(mode: Mode, offset: int): string
    requires mode.Custom? ==> Valid(mode.date)
  {
    match mode
    case Relative(preset) => Name(preset)
    case Custom(date) => DayText(Midnight(date), offset)
  }

  lemma PresetPair(preset: Preset)
    ensures KeyAndValue("period=" + Name(preset)) == ("period", Name(preset)) && Safe("period") && Safe(Name(preset))
  {
    assert Safe("period") && Safe(Name(preset));
    hide KeyAndValue, Safe, Name;
    SplitParam("period", Name(preset));
    assert "period=" + Name(preset) == "period" + "=" + Name(preset);
  }

  lemma DayPair(text: string)
    requires Safe(text)
    ensures KeyAndValue("date=" + text) == ("date", text) && Safe("date")
  {
    assert Safe("date");
    hide KeyAndValue, Safe;
    SplitParam("date", text);
    assert "date=" + text == "date" + "=" + text;
  }

  lemma FirstPair(mode: Mode, offset: int)
    requires mode.Custom? ==> Valid(mode.date)
    ensures KeyAndValue(ModeToApiParam(mode, offset)) == (Key(mode), Value(mode, offset))
    ensures Safe(Key(mode)) && Safe(Value(mode, offset))
  {
    hide KeyAndValue, Safe, DayText, Name;
    match mode
    case Relative(preset) => PresetPair(preset);
    case Custom(date) =>
      DayTextIsSafe(Midnight(date), offset);
      DayPair(DayText(Midnight(date), offset));
  }

  lemma GivenKeepsBytes(ps: Params, key: string, value: string)
    requires AllBytes(ps) && Bytes(key) && Bytes(value)
    ensures AllBytes(PutGiven(ps, key, value))
  {
    PutKeepsBytes(ps, key, value);
  }

  lemma FilteredIsBytes(ps: Params, f: Filters)
    requires AllBytes(ps) && Writable(Some(f), [])
    ensures AllBytes(Filtered(ps, f))
  {
    hide PutGiven, AllBytes;
    GivenKeepsBytes(ps, "host", f.host);
    var ps1 := PutGiven(ps, "host", f.host);
    GivenKeepsBytes(ps1, "remote_ip", f.remoteIp);
    var ps2 := PutGiven(ps1, "remote_ip", f.remoteIp);
    GivenKeepsBytes(ps2, "method", f.verb);
    var ps3 := PutGiven(ps2, "method", f.verb);
    GivenKeepsBytes(ps3, "status_class", f.statusClass);
    var ps4 := PutGiven(ps3, "status_class", f.statusClass);
    GivenKeepsBytes(ps4, "path", f.path);
    GivenKeepsBytes(PutGiven(ps4, "path", f.path), "country_code", f.country);
  }

  lemma {:induction false} ExtendedIsBytes(ps: Params, extra: Params)
    requires AllBytes(ps) && AllBytes(extra)
    ensures AllBytes(Extended(ps, extra))
  {
    if extra == [] {
    } else {
      ExtendedIsBytes(ps, extra[..|extra| - 1]);
      var last := extra[|extra| - 1];
      PutKeepsBytes(Extended(ps, extra[..|extra| - 1]), last.0, last.1);
    }
  }

  lemma QueryIsBytes(mode: Mode, offset: int, filters: Option<Filters>, extra: Params)
    requires (mode.Custom? ==> Valid(mode.date)) && Writable(filters, extra)
    ensures AllBytes(QueryParams(mode, offset, filters, extra))
  {
    FirstPair(mode, offset);
    hide ModeToApiParam, KeyAndValue, Key, Value;
    var first := [KeyAndValue(ModeToApiParam(mode, offset))];
    if filters.Some? {
      FilteredIsBytes(first, filters.value);
    }
    ExtendedIsBytes(if filters.Some? then Filtered(first, filters.value) else first, extra);
  }

  function QueryText(mode: Mode, offset: int, filters: Option<Filters>, extra: Params): string
    requires (mode.Custom? ==> Valid(mode.date)) && Writable(filters, extra)
  {
    QueryIsBytes(mode, offset, filters, extra);
    "?" + Serialize(QueryParams(mode, offset, filters, extra))
  }

  lemma QueryTextIs(mode: Mode, offset: int, filters: Option<Filters>, extra: Params)
    requires (mode.Custom? ==> Valid(mode.date)) && Writable(filters, extra)
    ensures AllBytes(QueryParams(mode, offset, filters, extra))
    ensures QueryText(mode, offset, filters, extra) == "?" + Serialize(QueryParams(mode, offset, filters, extra))
  {
    hide QueryParams, Serialize;
    QueryIsBytes(mode, offset, filters, extra);
  }

  method BuildParams(mode: Mode, offset: int, filters: Option<Filters>, extra: Params) returns (query: string)
    requires mode.Custom? ==> Valid(mode.date)
    requires Writable(filters, extra)
    ensures query == QueryText(mode, offset, filters, extra)
  {
    var (key, value) := KeyAndValue(ModeToApiParam(mode, offset));
    var p: Params := Put([], key, value);
    hide Put, Serialize, KeyAndValue, ModeToApiParam, QueryText, Writable, AllBytes, Extended;
    if filters.Some? {
      var f := filters.value;
      if f.host != "" { p := Put(p, "host", f.host); }
      if f.remoteIp != "" { p := Put(p, "remote_ip", f.remoteIp); }
      if f.verb != "" { p := Put(p, "method", f.verb); }
      if f.statusClass != "" { p := Put(p, "status_class", f.statusClass); }
      if f.path != "" { p := Put(p, "path", f.path); }
      if f.country != "" { p := Put(p, "country_code", f.country); }
    }
    ghost var filtered := p;
    assert QueryParams(mode, offset, filters, extra) == Extended(filtered, extra);
    hide Filtered, QueryParams;
    ExtendedStart(p);
    for k := 0 to |extra|
      invariant p == Extended(filtered, extra[..k])
    {
      ExtendedStep(filtered, extra, k);
      p := Put(p, extra[k].0, extra[k].1);
    }
    assert extra[..|extra|] == extra;
    QueryTextIs(mode, offset, filters, extra);
    return "?" + Serialize(p);
  }

  lemma ExtendedStart(ps: Params)
    ensures Extended(ps, []) == ps
  {
  }

  lemma ExtendedStep(ps: Params, extra: Params, k: nat)
    requires k < |extra|
    ensures Extended(ps, extra[..k + 1]) == Put(Extended(ps, extra[..k]), extra[k].0, extra[k].1)
  {
    assert extra[..k + 1][..k] == extra[..k];
  }

  // ---- the server ----

  datatype Local = Local(date: Date, second: nat, offset: int)

  function DigitValue(c: char): Option<nat> {
    if '0' <= c <= '9' then Some((c - '0') as nat) else None
  }

  function Number(s: string): Option<nat> {
    if s == "" then Some(0)
    else
      var high, low := Number(s[..|s| - 1]), DigitValue(s[|s| - 1]);
      if high.Some? && low.Some? then Some(10 * high.value + low.value) else None
  }

  predicate Shaped(s: string) {
    && |s| == 25 && s[4] == '-' && s[7] == '-' && s[13] == ':' && s[16] == ':' && s[22] == ':'
    && (s[19] == '+' || s[19] == '-')
  }

  // datetime.fromisoformat on texts of the form YYYY-MM-DDTHH:MM:SS+HH:MM, the separator being any
  // character; the browser's texts of another length are of no form it accepts.
  function FromIso(s: string): Option<Local> {
    if !Shaped(s) then None
    else
      var y, m, d := Number(s[..4]), Number(s[5..7]), Number(s[8..10]);
      var hour, minute, second := Number(s[11..13]), Number(s[14..16]), Number(s[17..19]);
      var east, rest := Number(s[20..22]), Number(s[23..]);
      if y.None? || m.None? || d.None? || hour.None? || minute.None? || second.None? || east.None? || rest.None? then None
      else
        var date, offset := Date(y.value, m.value, d.value), 60 * east.value + rest.value;
        if !Valid(date) || hour.value > 23 || minute.value > 59 || second.value > 59 || offset >= 1440 then None
        else
          Some(Local(date, 3600 * hour.value + 60 * minute.value + second.value, if s[19] == '-' then -offset else offset))
  }

  // The day from the parsed instant on, unless an end of it is beyond the years 1 to 9999.
  function DayRange(text: string): Option<TimeRange> {
    var local := FromIso(text);
    if local.None? || !Valid(local.value.date) then None
    else
      var from := 86400000000 * DayNumber(local.value.date) + 1000000 * local.value.second - 60000000 * local.value.offset;
      if 0 <= from && from + 86400000000 < MAX_INSTANT
      then Some(TimeRange(from, from + 86400000000, "1 hour", "hour"))
      else None
  }

  function Minutes(n: int): int {
    60000000 * n
  }

  function Lookback(period: string, now: int): TimeRange {
    if period == "l15m" then TimeRange(now - Minutes(15), now, "1 minute", "minute")
    else if period == "l1h" then TimeRange(now - Minutes(60), now, "1 minute", "minute")
    else if period == "l6h" then TimeRange(now - Minutes(360), now, "15 minutes", "15min")
    else if period == "l7d" then TimeRange(now - Minutes(10080), now, "8 hours", "8hour")
    else if period == "l30d" then TimeRange(now - Minutes(43200), now, "1 day", "day")
    else TimeRange(now - Minutes(1440), now, "1 hour", "hour")
  }

  function ResolveTimeRange(period: Option<string>, date: Option<string>, now: int): TimeRange {
    var day := if date.Some? && date.value != "" then DayRange(date.value) else None;
    if day.Some? then day.value
    else Lookback(if period.Some? && period.value != "" then period.value else "l24h", now)
  }

  // What the server makes of the query the browser sends.
  function Resolved(mode: Mode, offset: int, filters: Option<Filters>, extra: Params, now: int): TimeRange
    requires mode.Custom? ==> Valid(mode.date)
    requires Writable(filters, extra)
  {
    var sent := Parse(QueryText(mode, offset, filters, extra)[1..]);
    ResolveTimeRange(Get(sent, "period"), Get(sent, "date"), now)
  }

  // ---- what the query carries ----

  predicate Untimed(extra: Params) {
    forall i | 0 <= i < |extra| :: extra[i].0 != "period" && extra[i].0 != "date"
  }

  lemma {:induction false} ExtendedGet(ps: Params, extra: Params, key: string)
    requires forall i | 0 <= i < |extra| :: extra[i].0 != key
    ensures Get(Extended(ps, extra), key) == Get(ps, key)
  {
    if extra == [] {
    } else {
      ExtendedGet(ps, extra[..|extra| - 1], key);
      var last := extra[|extra| - 1];
      GetPut(Extended(ps, extra[..|extra| - 1]), last.0, last.1, key);
    }
  }

  lemma GivenGet(ps: Params, other: string, value: string, key: string)
    ensures Get(PutGiven(ps, other, value), key) == if key == other && value != "" then Some(value) else Get(ps, key)
  {
    GetPut(ps, other, value, key);
  }

  // The value the wire name stands for; empty under any other name.
  function Sent(f: Filters, key: string): string {
    match key
    case "country_code" => f.country
    case "host" => f.host
    case "method" => f.verb
    case "path" => f.path
    case "remote_ip" => f.remoteIp
    case "status_class" => f.statusClass
    case _ => ""
  }

  lemma FilteredGet(ps: Params, f: Filters, key: string)
    ensures Get(Filtered(ps, f), key) == if Sent(f, key) == "" then Get(ps, key) else Some(Sent(f, key))
  {
    hide PutGiven, Get;
    GivenGet(ps, "host", f.host, key);
    var ps1 := PutGiven(ps, "host", f.host);
    GivenGet(ps1, "remote_ip", f.remoteIp, key);
    var ps2 := PutGiven(ps1, "remote_ip", f.remoteIp);
    GivenGet(ps2, "method", f.verb, key);
    var ps3 := PutGiven(ps2, "method", f.verb);
    GivenGet(ps3, "status_class", f.statusClass, key);
    var ps4 := PutGiven(ps3, "status_class", f.statusClass);
    GivenGet(ps4, "path", f.path, key);
    GivenGet(PutGiven(ps4, "path", f.path), "country_code", f.country, key);
  }

  const FILTER_NAMES := {"host", "remote_ip", "method", "status_class", "path", "country_code"}

  // The server's filter parameters; an empty one counts as absent.
  function GetFilters(ps: Params): Filters {
    Filters(OrEmpty(Get(ps, "host")), OrEmpty(Get(ps, "remote_ip")), OrEmpty(Get(ps, "method")),
            OrEmpty(Get(ps, "status_class")), OrEmpty(Get(ps, "path")), OrEmpty(Get(ps, "country_code")))
  }

  lemma QueryFilterGet(mode: Mode, offset: int, filters: Option<Filters>, extra: Params, key: string)
    requires (mode.Custom? ==> Valid(mode.date)) && key in FILTER_NAMES
    requires forall i | 0 <= i < |extra| :: extra[i].0 != key
    ensures Get(QueryParams(mode, offset, filters, extra), key) ==
            if filters.None? || Sent(filters.value, key) == "" then None else Some(Sent(filters.value, key))
  {
    FirstIsTime(mode, offset);
    hide KeyAndValue, ModeToApiParam, Filtered, Get, Extended, Sent, FILTER_NAMES;
    var first := [KeyAndValue(ModeToApiParam(mode, offset))];
    OnlyPair(first[0], key);
    if filters.Some? {
      FilteredGet(first, filters.value, key);
    }
    ExtendedGet(if filters.Some? then Filtered(first, filters.value) else first, extra, key);
  }

  lemma FirstIsTime(mode: Mode, offset: int)
    requires mode.Custom? ==> Valid(mode.date)
    ensures KeyAndValue(ModeToApiParam(mode, offset)).0 !in FILTER_NAMES
  {
    FirstPair(mode, offset);
    hide KeyAndValue, ModeToApiParam, Safe, Value;
  }

  lemma OnlyPair(p: (string, string), key: string)
    requires p.0 != key
    ensures Get([p], key) == None
  {
    assert [p][1..] == [];
  }

  /** The server reads each filter under its own name exactly as the browser holds it, an empty one
      as absent; so the two filter records are equal. */
  lemma ServerReadsFilters(mode: Mode, offset: int, f: Filters, extra: Params)
    requires (mode.Custom? ==> Valid(mode.date)) && Writable(Some(f), extra)
    requires forall i | 0 <= i < |extra| :: extra[i].0 !in FILTER_NAMES
    ensures var sent := Parse(QueryText(mode, offset, Some(f), extra)[1..]);
            && (forall key | key in FILTER_NAMES ::
                  Get(sent, key) == if Sent(f, key) == "" then None else Some(Sent(f, key)))
            && GetFilters(sent) == f
  {
    hide Parse, QueryText, QueryParams, Get, Sent;
    QueryTextParses(mode, offset, Some(f), extra);
    forall key | key in FILTER_NAMES {
      QueryFilterGet(mode, offset, Some(f), extra, key);
    }
    SentNames(f);
  }

  lemma SentNames(f: Filters)
    ensures f == Filters(Sent(f, "host"), Sent(f, "remote_ip"), Sent(f, "method"), Sent(f, "status_class"), Sent(f, "path"),
                         Sent(f, "country_code"))
  {
  }

  /** Whatever filters and extra parameters go with it, the server reads the mode the browser
      sent, and nothing under the other name. */
  lemma ServerReadsMode(mode: Mode, offset: int, filters: Option<Filters>, extra: Params)
    requires (mode.Custom? ==> Valid(mode.date)) && Writable(filters, extra) && Untimed(extra)
    ensures var sent := Parse(QueryText(mode, offset, filters, extra)[1..]);
            && Get(sent, Key(mode)) == Some(Value(mode, offset))
            && Get(sent, if mode.Relative? then "date" else "period") == None
  {
    hide *;
    QueryTextParses(mode, offset, filters, extra);
    QueryGet(mode, offset, filters, extra, "period");
    QueryGet(mode, offset, filters, extra, "date");
    FirstPair(mode, offset);
    OnePair(mode, Value(mode, offset));
  }

  lemma OnePair(mode: Mode, value: string)
    ensures Get([(Key(mode), value)], Key(mode)) == Some(value)
    ensures Get([(Key(mode), value)], if mode.Relative? then "date" else "period") == None
    ensures Key(mode) == if mode.Relative? then "period" else "date"
  {
    assert [(Key(mode), value)][1..] == [];
  }

  lemma QueryTextParses(mode: Mode, offset: int, filters: Option<Filters>, extra: Params)
    requires (mode.Custom? ==> Valid(mode.date)) && Writable(filters, extra)
    ensures Parse(QueryText(mode, offset, filters, extra)[1..]) == QueryParams(mode, offset, filters, extra)
  {
    hide QueryParams, QueryText, Parse, Serialize;
    QueryTextIs(mode, offset, filters, extra);
    var text := Serialize(QueryParams(mode, offset, filters, extra));
    ParseSerialize(QueryParams(mode, offset, filters, extra));
    assert ("?" + text)[1..] == text;
  }

  lemma QueryGet(mode: Mode, offset: int, filters: Option<Filters>, extra: Params, key: string)
    requires (mode.Custom? ==> Valid(mode.date)) && Untimed(extra) && (key == "period" || key == "date")
    ensures Get(QueryParams(mode, offset, filters, extra), key) == Get([KeyAndValue(ModeToApiParam(mode, offset))], key)
  {
    hide KeyAndValue, ModeToApiParam, Filtered, Get, Extended;
    var first := [KeyAndValue(ModeToApiParam(mode, offset))];
    if filters.Some? {
      FilteredGet(first, filters.value, key);
    }
    ExtendedGet(if filters.Some? then Filtered(first, filters.value) else first, extra, key);
  }

  // ---- digits back to numbers ----

  lemma TenthBelow(n: nat, p: nat)
    requires n < 10 * p
    ensures n / 10 < p
  {
  }

  lemma {:induction false} NumberOfPad(n: nat, width: nat)
    requires n < Power10(width)
    ensures Number(Pad(n, width)) == Some(n)
  {
    if width == 0 {
    } else {
      TenthBelow(n, Power10(width - 1));
      NumberOfPad(n / 10, width - 1);
      hide Number, Power10;
      NumberAppend(Pad(n / 10, width - 1), n / 10, n % 10);
    }
  }

  lemma NumberAppend(s: string, high: nat, low: nat)
    requires Number(s) == Some(high) && low < 10
    ensures Number(s + [Digit(low)]) == Some(10 * high + low)
  {
    assert (s + [Digit(low)])[..|s|] == s;
    assert DigitValue(Digit(low)) == Some(low);
  }

  lemma {:induction false} DecimalIsPad(n: nat, width: nat)
    requires width >= 1 && n < Power10(width) && (width > 1 ==> Power10(width - 1) <= n)
    ensures Decimal(n) == Pad(n, width)
  {
    if width == 1 {
      assert Pad(n, 1) == Pad(n / 10, 0) + [Digit(n % 10)];
    } else {
      assert Power10(1) == 10;
      PowerGrows(width - 1);
      DecimalIsPad(n / 10, width - 1);
    }
  }

  lemma {:induction false} PowerGrows(width: nat)
    ensures Power10(width) >= 1 && (width >= 1 ==> Power10(width) >= 10)
  {
    if width > 0 {
      PowerGrows(width - 1);
    }
  }

  lemma {:induction false} DecimalLength(n: nat, width: nat)
    requires width >= 1
    ensures |Decimal(n)| <= width <==> n < Power10(width)
  {
    PowerGrows(width);
    if n < 10 {
    } else if width == 1 {
      DecimalIsSafe(n / 10);
      assert Power10(1) == 10;
    } else {
      DecimalLength(n / 10, width - 1);
    }
  }

  lemma TwoIsPad(n: nat)
    requires n < 100
    ensures Two(n) == Pad(n, 2)
  {
    Powers();
    assert Power10(1) == 10;
    if n < 10 {
      DecimalIsPad(n, 1);
      DecimalIsPad(0, 1);
      assert Pad(n, 2) == Pad(n / 10, 1) + [Digit(n % 10)];
    } else {
      DecimalIsPad(n, 2);
      DecimalLength(n, 1);
    }
  }

  lemma FourDigits(n: nat)
    ensures 1000 <= n <= 9999 ==> Decimal(n) == Pad(n, 4)
    ensures |Decimal(n)| == 4 <==> 1000 <= n <= 9999
  {
    Powers();
    assert Power10(3) == 1000;
    DecimalLength(n, 4);
    DecimalLength(n, 3);
    if 1000 <= n <= 9999 {
      DecimalIsPad(n, 4);
    }
  }

  // ---- the printed day, read back ----

  lemma DayPieces(y: string, m: string, d: string)
    requires |y| == 4 && |m| == 2 && |d| == 2
    ensures var s := DayPart(y, m, d);
            |s| == 10 && s[..4] == y && s[4] == '-' && s[5..7] == m && s[7] == '-' && s[8..] == d
  {
  }

  lemma ZonePieces(sign: string, east: string, rest: string)
    requires |sign| == 1 && |east| == 2 && |rest| == 2
    ensures var s := ZonePart(sign, east, rest);
            |s| == 6 && s[0] == sign[0] && s[1..3] == east && s[3] == ':' && s[4..] == rest
  {
  }

  lemma SpelledPieces(y: string, m: string, d: string, sign: string, east: string, rest: string)
    requires |y| == 4 && |m| == 2 && |d| == 2 && (sign == "+" || sign == "-") && |east| == 2 && |rest| == 2
    ensures var s := Spelled(y, m, d, sign, east, rest);
            && Shaped(s) && s[..4] == y && s[5..7] == m && s[8..10] == d && s[11..13] == "00" && s[14..16] == "00"
            && s[17..19] == "00" && s[19] == sign[0] && s[20..22] == east && s[23..] == rest
  {
    hide DayPart, ZonePart;
    DayPieces(y, m, d);
    ZonePieces(sign, east, rest);
    var s, day, zone := Spelled(y, m, d, sign, east, rest), DayPart(y, m, d), ZonePart(sign, east, rest);
    assert s[..10] == day && s[10..19] == "T00:00:00" && s[19..] == zone;
    assert s[..4] == day[..4] && s[5..7] == day[5..7] && s[8..10] == day[8..];
    assert s[11..13] == s[10..19][1..3] && s[14..16] == s[10..19][4..6] && s[17..19] == s[10..19][7..];
    assert s[20..22] == zone[1..3] && s[23..] == zone[4..];
    assert s[4] == day[4] && s[7] == day[7] && s[13] == s[10..19][3] && s[16] == s[10..19][6];
    assert s[19] == zone[0] && s[22] == zone[3];
  }

  lemma DaysAreShort(date: Date)
    requires Valid(date)
    ensures date.y >= 1 && 1 <= date.m <= 12 && 1 <= date.d <= 31
  {
  }

  lemma DayTextIs(date: Date, offset: int)
    requires Valid(date) && -1440 < offset < 1440
    ensures DayText(date, offset) ==
            Spelled(Decimal(date.y), Pad(date.m, 2), Pad(date.d, 2), Sign(offset),
                    Pad(Abs(offset) / 60, 2), Pad(Abs(offset) % 60, 2))
  {
    DaysAreShort(date);
    hide Two, Pad, Decimal;
    TwoIsPad(date.m);
    TwoIsPad(date.d);
    TwoIsPad(Abs(offset) / 60);
    TwoIsPad(Abs(offset) % 60);
  }

  lemma TwoWide(n: nat)
    requires n < 100
    ensures |Pad(n, 2)| == 2 && Number(Pad(n, 2)) == Some(n)
  {
    Powers();
    PadOrder(n, n, 2);
    NumberOfPad(n, 2);
  }

  /** The server reads the printed day back, and reads nothing if the year has not four digits. */
  lemma DayReadsBackIff(date: Date, offset: int)
    requires Valid(date) && -1440 < offset < 1440
    ensures FromIso(DayText(date, offset)) == if 1000 <= date.y <= 9999 then Some(Local(date, 0, offset)) else None
  {
    DaysAreShort(date);
    DayTextIs(date, offset);
    FourDigits(date.y);
    var h, n := Abs(offset) / 60, Abs(offset) % 60;
    TwoWide(date.m);
    TwoWide(date.d);
    TwoWide(h);
    TwoWide(n);
    if 1000 <= date.y <= 9999 {
      Powers();
      NumberOfPad(date.y, 4);
      PadOrder(date.y, date.y, 4);
      ReadsSpelled(date, offset);
    } else {
      SpelledLength(Decimal(date.y), Pad(date.m, 2), Pad(date.d, 2), Sign(offset), Pad(h, 2), Pad(n, 2));
    }
  }

  // ---- any time of day ----

  function TimePart(hour: string, minute: string, second: string): string {
    "T" + hour + ":" + minute + ":" + second
  }

  function Written(y: string, m: string, d: string, hour: string, minute: string, second: string,
                   sign: string, east: string, rest: string): string {
    DayPart(y, m, d) + TimePart(hour, minute, second) + ZonePart(sign, east, rest)
  }

  lemma TimePieces(hour: string, minute: string, second: string)
    requires |hour| == 2 && |minute| == 2 && |second| == 2
    ensures var s := TimePart(hour, minute, second);
            |s| == 9 && s[1..3] == hour && s[3] == ':' && s[4..6] == minute && s[6] == ':' && s[7..] == second
  {
  }

  lemma WrittenPieces(y: string, m: string, d: string, hour: string, minute: string, second: string,
                      sign: string, east: string, rest: string)
    requires |y| == 4 && |m| == 2 && |d| == 2 && |hour| == 2 && |minute| == 2 && |second| == 2
    requires (sign == "+" || sign == "-") && |east| == 2 && |rest| == 2
    ensures var s := Written(y, m, d, hour, minute, second, sign, east, rest);
            && Shaped(s) && s[..4] == y && s[5..7] == m && s[8..10] == d && s[11..13] == hour && s[14..16] == minute
            && s[17..19] == second && s[19] == sign[0] && s[20..22] == east && s[23..] == rest
  {
    hide DayPart, TimePart, ZonePart;
    DayPieces(y, m, d);
    TimePieces(hour, minute, second);
    ZonePieces(sign, east, rest);
    var s := Written(y, m, d, hour, minute, second, sign, east, rest);
    var day, time, zone := DayPart(y, m, d), TimePart(hour, minute, second), ZonePart(sign, east, rest);
    assert s[..10] == day && s[10..19] == time && s[19..] == zone;
    assert s[..4] == day[..4] && s[5..7] == day[5..7] && s[8..10] == day[8..];
    assert s[11..13] == time[1..3] && s[14..16] == time[4..6] && s[17..19] == time[7..];
    assert s[20..22] == zone[1..3] && s[23..] == zone[4..];
    assert s[4] == day[4] && s[7] == day[7] && s[13] == time[3] && s[16] == time[6];
    assert s[19] == zone[0] && s[22] == zone[3];
  }

  // A clock of 24 hours and an offset below 24 hours.
  predicate Timely(date: Date, hour: nat, minute: nat, second: nat, east: nat, rest: nat) {
    Valid(date) && hour < 24 && minute < 60 && second < 60 && 60 * east + rest < 1440
  }

  lemma ReadsParts(s: string, date: Date, hour: nat, minute: nat, second: nat, east: nat, rest: nat)
    requires Shaped(s)
    requires date.y >= 0 && date.m >= 0 && date.d >= 0
    requires Number(s[..4]) == Some(date.y) && Number(s[5..7]) == Some(date.m) && Number(s[8..10]) == Some(date.d)
    requires Number(s[11..13]) == Some(hour) && Number(s[14..16]) == Some(minute) && Number(s[17..19]) == Some(second)
    requires Number(s[20..22]) == Some(east) && Number(s[23..]) == Some(rest)
    ensures FromIso(s) ==
            if Timely(date, hour, minute, second, east, rest)
            then Some(Local(date, 3600 * hour + 60 * minute + second, if s[19] == '-' then -(60 * east + rest) else 60 * east + rest))
            else None
  {
    hide Number, Valid;
  }

  lemma OffsetIs(sign: string, east: nat, rest: nat)
    requires sign != ""
    ensures Offset(sign, east, rest) == if sign[0] == '-' then -(60 * east + rest) else 60 * east + rest
  {
  }

  lemma WrittenReads(date: Date, hour: nat, minute: nat, second: nat, sign: string, east: nat, rest: nat)
    requires 0 <= date.y <= 9999 && 0 <= date.m < 100 && 0 <= date.d < 100
    requires hour < 100 && minute < 100 && second < 100 && east < 100 && rest < 100 && (sign == "+" || sign == "-")
    ensures FromIso(Written(Pad(date.y, 4), Pad(date.m, 2), Pad(date.d, 2), Pad(hour, 2), Pad(minute, 2), Pad(second, 2),
                            sign, Pad(east, 2), Pad(rest, 2))) ==
            if Timely(date, hour, minute, second, east, rest)
            then Some(Local(date, 3600 * hour + 60 * minute + second, Offset(sign, east, rest)))
            else None
  {
    OffsetIs(sign, east, rest);
    hide *;
    FourWide(date.y);
    TwoWide(date.m);
    TwoWide(date.d);
    TwoWide(hour);
    TwoWide(minute);
    TwoWide(second);
    TwoWide(east);
    TwoWide(rest);
    WrittenPieces(Pad(date.y, 4), Pad(date.m, 2), Pad(date.d, 2), Pad(hour, 2), Pad(minute, 2), Pad(second, 2),
                  sign, Pad(east, 2), Pad(rest, 2));
    ReadsParts(Written(Pad(date.y, 4), Pad(date.m, 2), Pad(date.d, 2), Pad(hour, 2), Pad(minute, 2), Pad(second, 2),
                       sign, Pad(east, 2), Pad(rest, 2)), date, hour, minute, second, east, rest);
  }

  function Offset(sign: string, east: nat, rest: nat): int
    requires sign != ""
  {
    if sign[0] == '-' then -(60 * east + rest) else 60 * east + rest
  }

  // The 24 hours from a local time on, if they lie within the years 1 to 9999.
  function DayFrom(date: Date, hour: nat, minute: nat, second: nat, offset: int): Option<TimeRange>
    requires Valid(date)
  {
    var from := 86400000000 * DayNumber(date) + 60000000 * (60 * hour + minute - offset) + 1000000 * second;
    if 0 <= from && from + 86400000000 < MAX_INSTANT
    then Some(TimeRange(from, from + 86400000000, "1 hour", "hour"))
    else None
  }

  lemma RangeOfLocal(text: string, date: Date, hour: nat, minute: nat, second: nat, east: nat, rest: nat, offset: int)
    requires FromIso(text) ==
             if Timely(date, hour, minute, second, east, rest) then Some(Local(date, 3600 * hour + 60 * minute + second, offset)) else None
    ensures DayRange(text) ==
            if Timely(date, hour, minute, second, east, rest) then DayFrom(date, hour, minute, second, offset) else None
  {
    hide FromIso, DayNumber, Valid;
  }

  /** A date parameter is not bound to midnight: any text of two-digit fields after a four-digit year is read
      as the 24 hours from its instant on, if it is a time of day of the calendar and the day lies within the
      years 1 to 9999, and otherwise not at all. */
  lemma WrittenDayReads(date: Date, hour: nat, minute: nat, second: nat, sign: string, east: nat, rest: nat)
    requires 0 <= date.y <= 9999 && 0 <= date.m < 100 && 0 <= date.d < 100
    requires hour < 100 && minute < 100 && second < 100 && east < 100 && rest < 100 && (sign == "+" || sign == "-")
    ensures DayRange(Written(Pad(date.y, 4), Pad(date.m, 2), Pad(date.d, 2), Pad(hour, 2), Pad(minute, 2), Pad(second, 2),
                             sign, Pad(east, 2), Pad(rest, 2))) ==
            if Timely(date, hour, minute, second, east, rest)
            then DayFrom(date, hour, minute, second, Offset(sign, east, rest))
            else None
  {
    hide DayRange, Written, Pad, FromIso, DayFrom, Timely;
    WrittenReads(date, hour, minute, second, sign, east, rest);
    RangeOfLocal(Written(Pad(date.y, 4), Pad(date.m, 2), Pad(date.d, 2), Pad(hour, 2), Pad(minute, 2), Pad(second, 2),
                         sign, Pad(east, 2), Pad(rest, 2)),
                 date, hour, minute, second, east, rest, Offset(sign, east, rest));
  }

  lemma FourWide(n: nat)
    requires n < 10000
    ensures |Pad(n, 4)| == 4 && Number(Pad(n, 4)) == Some(n)
  {
    Powers();
    PadOrder(n, n, 4);
    NumberOfPad(n, 4);
  }

  lemma SpelledLength(y: string, m: string, d: string, sign: string, east: string, rest: string)
    ensures |Spelled(y, m, d, sign, east, rest)| == |y| + |m| + |d| + |sign| + |east| + |rest| + 12
  {
  }

  lemma ReadsMidnight(s: string, date: Date, east: nat, rest: nat)
    requires Shaped(s) && Valid(date) && 60 * east + rest < 1440
    requires Number(s[..4]) == Some(date.y) && Number(s[5..7]) == Some(date.m) && Number(s[8..10]) == Some(date.d)
    requires Number(s[11..13]) == Some(0) && Number(s[14..16]) == Some(0) && Number(s[17..19]) == Some(0)
    requires Number(s[20..22]) == Some(east) && Number(s[23..]) == Some(rest)
    ensures FromIso(s) == Some(Local(date, 0, if s[19] == '-' then -(60 * east + rest) else 60 * east + rest))
  {
    hide Number, Valid;
  }

  lemma SignIs(offset: int)
    ensures |Sign(offset)| == 1 && (Sign(offset) == "+" || Sign(offset) == "-")
    ensures Sign(offset)[0] == '-' <==> offset < 0
  {
  }

  lemma OffsetParts(offset: int)
    requires -1440 < offset < 1440
    ensures var east, rest := Abs(offset) / 60, Abs(offset) % 60;
            && east < 24 && rest < 60 && 60 * east + rest < 1440
            && offset == if offset >= 0 then 60 * east + rest else -(60 * east + rest)
  {
  }

  lemma Zeros()
    ensures Number("00") == Some(0)
  {
    assert "00"[..1] == "0" && "0"[..0] == "";
  }

  lemma ReadsSpelled(date: Date, offset: int)
    requires Valid(date) && -1440 < offset < 1440 && date.y <= 9999
    requires |Pad(date.y, 4)| == 4 && Number(Pad(date.y, 4)) == Some(date.y)
    ensures FromIso(Spelled(Pad(date.y, 4), Pad(date.m, 2), Pad(date.d, 2), Sign(offset),
                            Pad(Abs(offset) / 60, 2), Pad(Abs(offset) % 60, 2)))
            == Some(Local(date, 0, offset))
  {
    DaysAreShort(date);
    hide *;
    var h, n := Abs(offset) / 60, Abs(offset) % 60;
    var sign := Sign(offset);
    SignIs(offset);
    Zeros();
    OffsetParts(offset);
    TwoWide(date.m);
    TwoWide(date.d);
    TwoWide(h);
    TwoWide(n);
    SpelledPieces(Pad(date.y, 4), Pad(date.m, 2), Pad(date.d, 2), sign, Pad(h, 2), Pad(n, 2));
    ReadsMidnight(Spelled(Pad(date.y, 4), Pad(date.m, 2), Pad(date.d, 2), sign, Pad(h, 2), Pad(n, 2)), date, h, n);
  }

  // ---- the main result ----

  // Local midnight of the day, as an instant.
  function LocalMidnight(date: Date, offset: int): int
    requires Valid(date)
  {
    86400000000 * DayNumber(date) - 60000000 * offset
  }

  // The printed text names the day, and the day ends within the years the server has.
  predicate Expressible(date: Date, offset: int)
    requires Valid(date)
  {
    1000 <= date.y <= 9999 && LocalMidnight(date, offset) + 86400000000 < MAX_INSTANT
  }

  lemma SentRange(date: Date, offset: int, filters: Option<Filters>, extra: Params, now: int)
    requires Valid(date) && Writable(filters, extra) && Untimed(extra)
    ensures Valid(Midnight(date))
    ensures Resolved(Custom(date), offset, filters, extra, now) ==
            var day := DayRange(DayText(Midnight(date), offset));
            if day.Some? then day.value else TimeRange(now - 86400000000, now, "1 hour", "hour")
  {
    MidnightIsValid(date);
    ResolvedIs(Custom(date), offset, filters, extra, now);
    hide *;
    DayTextIsLong(Midnight(date), offset);
    ResolveDay(date, offset, now);
  }

  lemma ResolveDay(date: Date, offset: int, now: int)
    requires Valid(date) && Valid(Midnight(date)) && DayText(Midnight(date), offset) != ""
    ensures ResolveTimeRange(None, Some(Value(Custom(date), offset)), now) ==
            var day := DayRange(DayText(Midnight(date), offset));
            if day.Some? then day.value else TimeRange(now - 86400000000, now, "1 hour", "hour")
  {
    hide DayRange, DayText, Midnight, Valid;
  }

  lemma ResolvedIs(mode: Mode, offset: int, filters: Option<Filters>, extra: Params, now: int)
    requires (mode.Custom? ==> Valid(mode.date)) && Writable(filters, extra) && Untimed(extra)
    ensures Resolved(mode, offset, filters, extra, now) ==
            if mode.Relative? then ResolveTimeRange(Some(Value(mode, offset)), None, now)
            else ResolveTimeRange(None, Some(Value(mode, offset)), now)
  {
    ServerReadsMode(mode, offset, filters, extra);
    hide Parse, Get, QueryText, ResolveTimeRange, Value, Valid, Writable, Untimed;
  }

  lemma DayTextIsLong(date: Date, offset: int)
    requires Valid(date)
    ensures DayText(date, offset) != ""
  {
    DecimalIsSafe(date.y);
  }

  lemma DayRangeOf(date: Date, offset: int)
    requires Valid(date) && -1440 < offset < 1440
    ensures DayRange(DayText(date, offset)) ==
            var from := LocalMidnight(date, offset);
            if 1000 <= date.y <= 9999 && 0 <= from && from + 86400000000 < MAX_INSTANT
            then Some(TimeRange(from, from + 86400000000, "1 hour", "hour"))
            else None
  {
    hide FromIso, DayText, DayNumber, Valid;
    DayReadsBackIff(date, offset);
  }

  lemma ModernMidnights(date: Date, offset: int)
    requires Valid(date) && date.y >= 1000 && -1440 < offset < 1440
    ensures LocalMidnight(date, offset) >= 0
  {
    YearsGrow(1, date.y);
    YearsGrow(1, 2);
    WithinYear(date);
    if date.y > 2 {
      YearsGrow(2, date.y);
    }
  }

  // A year below 100 is sent as one of the twentieth century.
  lemma CenturyShift(date: Date, offset: int)
    requires Valid(date) && date.y <= 99 && -1440 < offset < 1440
    ensures var sent := Midnight(date);
            Valid(sent) && Expressible(sent, offset) && LocalMidnight(sent, offset) != LocalMidnight(date, offset)
  {
    var sent := Midnight(date);
    BeforeIffLess(date, sent);
    FourDigitYears(sent);
    BeforeIffLess(sent, Date(9999, 12, 31));
    BeforeIffLess(sent, Date(2000, 1, 1));
    BeforeIffLess(Date(2000, 1, 1), Date(2000, 1, 2));
    BeforeIffLess(Date(2000, 1, 2), Date(2000, 1, 3));
    BeforeIffLess(Date(2000, 1, 3), Date(9999, 12, 31));
    FourDigitYears(Date(9999, 12, 31));
    hide DayNumber;
  }

  /** Picking a day shows exactly that day, from local midnight on for 24 hours, if and only if
      its year has four digits and it ends by the year 9999 -- or, from the year 100 on, the
      default of the last 24 hours happens to be that day. */
  lemma DayRoundTripIff(date: Date, offset: int, filters: Option<Filters>, extra: Params, now: int)
    requires Valid(date) && -1440 < offset < 1440 && Writable(filters, extra) && Untimed(extra)
    ensures var r := Resolved(Custom(date), offset, filters, extra, now);
            var midnight := LocalMidnight(date, offset);
            (r.from == midnight && r.to == midnight + 86400000000) <==>
            Expressible(date, offset) || (date.y >= 100 && now == midnight + 86400000000)
  {
    SentRange(date, offset, filters, extra, now);
    DayRangeOf(Midnight(date), offset);
    if date.y <= 99 {
      CenturyShift(date, offset);
      ModernMidnights(Midnight(date), offset);
    } else if date.y >= 1000 {
      ModernMidnights(date, offset);
    }
    hide Resolved, DayRange, DayText, LocalMidnight;
  }

  /** A day of the years 1 to 99 comes back as the same day of the twentieth century. */
  lemma CenturyIsAdded(date: Date, offset: int, filters: Option<Filters>, extra: Params, now: int)
    requires Valid(date) && date.y <= 99 && -1440 < offset < 1440 && Writable(filters, extra) && Untimed(extra)
    ensures Valid(Date(1900 + date.y, date.m, date.d))
    ensures var r := Resolved(Custom(date), offset, filters, extra, now);
            var midnight := LocalMidnight(Date(1900 + date.y, date.m, date.d), offset);
            r.from == midnight && r.to == midnight + 86400000000
  {
    MidnightIsShifted(date);
    hide *;
    SentRange(date, offset, filters, extra, now);
    CenturyShift(date, offset);
    ShiftedRange(Midnight(date), offset);
  }

  lemma MidnightIsShifted(date: Date)
    requires Valid(date) && date.y <= 99
    ensures Midnight(date) == Date(1900 + date.y, date.m, date.d) && Valid(Midnight(date))
  {
  }

  lemma ShiftedRange(sent: Date, offset: int)
    requires Valid(sent) && Expressible(sent, offset) && -1440 < offset < 1440
    ensures var midnight := LocalMidnight(sent, offset);
            DayRange(DayText(sent, offset)) == Some(TimeRange(midnight, midnight + 86400000000, "1 hour", "hour"))
  {
    hide LocalMidnight, DayRange, DayText, Valid;
    DayRangeOf(sent, offset);
    ModernMidnights(sent, offset);
  }

  /** A day of a year below 1000 that the browser does send as such comes back as the last 24 hours. */
  lemma UnpaddedYearIsLost(date: Date, offset: int, filters: Option<Filters>, extra: Params, now: int)
    requires Valid(date) && 100 <= date.y <= 999 && -1440 < offset < 1440 && Writable(filters, extra) && Untimed(extra)
    ensures Resolved(Custom(date), offset, filters, extra, now) == TimeRange(now - 86400000000, now, "1 hour", "hour")
  {
    SentRange(date, offset, filters, extra, now);
    DayRangeOf(date, offset);
    hide Resolved, DayRange, DayText, LocalMidnight;
  }

  /** Such as 13 June 999, looked up in January 2024. */
  lemma Year999IsLost()
    ensures var day, now := Date(999, 6, 13), LocalMidnight(Date(2024, 1, 13), 0);
            var r := Resolved(Custom(day), 0, None, [], now);
            r.to == now && r.from > LocalMidnight(day, 0)
  {
    var day, today := Date(999, 6, 13), Date(2024, 1, 13);
    UnpaddedYearIsLost(day, 0, None, [], LocalMidnight(today, 0));
    BeforeIffLess(day, Date(999, 6, 14));
    BeforeIffLess(Date(999, 6, 14), today);
    hide Resolved, DayNumber;
  }

  // The pattern a period must match, or the server answers 422.
  const PERIODS := {"l15m", "l1h", "l6h", "l24h", "l7d", "l30d"}

  lemma PresetsMatch(preset: Preset)
    ensures Name(preset) in PERIODS
  {
  }

  /** A preset passes the server's pattern and shows its own span up to now. */
  lemma PresetRoundTrip(preset: Preset, offset: int, filters: Option<Filters>, extra: Params, now: int)
    requires Writable(filters, extra) && Untimed(extra)
    ensures var period := Get(Parse(QueryText(Relative(preset), offset, filters, extra)[1..]), "period");
            period.Some? && period.value in PERIODS
    ensures var r := Resolved(Relative(preset), offset, filters, extra, now);
            r.to == now && r.from == now - 60000000 * Span(preset)
  {
    ResolvedIs(Relative(preset), offset, filters, extra, now);
    ServerReadsMode(Relative(preset), offset, filters, extra);
    PresetsMatch(preset);
    LookbackSpan(preset, now);
    hide Resolved, Lookback, Name, DayRange, QueryText, Parse, Get, PERIODS;
  }

  lemma LookbackSpan(preset: Preset, now: int)
    ensures var r := Lookback(Name(preset), now); Name(preset) != "" && r.to == now && r.from == now - 60000000 * Span(preset)
  {
  }

  // In minutes, as the name says.
  function Span(preset: Preset): nat {
    match preset
    case L15m => 15
    case L1h => 60
    case L6h => 6 * 60
    case L24h => 24 * 60
    case L7d => 7 * 1440
    case L30d => 30 * 1440
  }

  // ---- what the chart makes of a range ----

  // The minutes of a bucket interval, and of the label that goes with it.
  function BucketMinutes(bucket: string): nat {
    match bucket
    case "1 minute" => 1
    case "15 minutes" => 15
    case "1 hour" => 60
    case "8 hours" => 480
    case "1 day" => 1440
    case _ => 0
  }

  function LabelMinutes(granularity: string): nat {
    match granularity
    case "minute" => 1
    case "15min" => 15
    case "hour" => 60
    case "8hour" => 480
    case "day" => 1440
    case _ => 0
  }

  // A whole number of buckets, at least 15 and at most 60, labelled for their width.
  predicate Charts(r: TimeRange) {
    && LabelMinutes(r.granularity) == BucketMinutes(r.bucket)
    && exists n | 15 <= n <= 60 :: r.to - r.from == n * Minutes(BucketMinutes(r.bucket))
  }

  lemma LookbackCharts(period: string, now: int)
    ensures Charts(Lookback(period, now))
  {
    var r := Lookback(period, now);
    var n := if period == "l15m" then 15 else if period == "l1h" then 60
             else if period == "l7d" then 21 else if period == "l30d" then 30 else 24;
    assert r.to - r.from == n * Minutes(BucketMinutes(r.bucket));
  }

  lemma DayCharts(text: string)
    ensures DayRange(text).Some? ==> Charts(DayRange(text).value)
  {
    hide FromIso, Valid, DayNumber;
    if DayRange(text).Some? {
      var r := DayRange(text).value;
      assert r.to - r.from == 24 * Minutes(BucketMinutes(r.bucket));
    }
  }

  /** Whatever period and date arrive, the range is a whole number of buckets, 15 to 60 of them,
      and the label the page formats its axis by fits the bucket. */
  lemma EveryRangeCharts(period: Option<string>, date: Option<string>, now: int)
    ensures Charts(ResolveTimeRange(period, date, now))
  {
    hide Charts, Lookback, DayRange;
    if date.Some? {
      DayCharts(date.value);
    }
    LookbackCharts(if period.Some? && period.value != "" then period.value else "l24h", now);
  }
}
