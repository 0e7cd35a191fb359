/** The UTC isoformat text that backend/db/sqlite_manager.py stores, and the text comparison
    SQLite makes of it. Instants are microseconds from 0001-01-01T00:00:00 UTC. */
module IsoTime {
  import opened Calendar

  const MAX_INSTANT := 3652059 * 86400 * 1000000

  // ---- decimal fields ----

  function Digit(n: int): char
    requires 0 <= n <= 9
  {
    '0' + n as char
  }

  // The last `width` digits, zero-padded.
  function Pad(n: nat, width: nat): string {
    if width == 0 then "" else Pad(n / 10, width - 1) + [Digit(n % 10)]
  }

  function Power10(width: nat): nat {
    if width == 0 then 1 else 10 * Power10(width - 1)
  }

  // ---- text order: the binary collation ----

  predicate TextLess(s: string, t: string) {
    t != "" && (s == "" || s[0] < t[0] || (s[0] == t[0] && TextLess(s[1..], t[1..])))
  }

  /** Two equally long texts compare as told. */
  ghost predicate Compares(s: string, t: string, less: bool, equal: bool) {
    |s| == |t| && (TextLess(s, t) <==> less) && (s == t <==> equal)
  }

  lemma {:induction false} TextLessAppend(s: string, t: string, u: string, v: string)
    requires |s| == |t|
    ensures TextLess(s + u, t + v) <==> TextLess(s, t) || (s == t && TextLess(u, v))
  {
    if s == "" {
      assert s + u == u && t + v == v;
    } else {
      TextLessAppend(s[1..], t[1..], u, v);
      assert (s + u)[1..] == s[1..] + u && (t + v)[1..] == t[1..] + v;
      assert s == [s[0]] + s[1..] && t == [t[0]] + t[1..];
    }
  }

  lemma Joined(s: string, t: string, less: bool, equal: bool, u: string, v: string, less': bool, equal': bool)
    requires Compares(s, t, less, equal) && Compares(u, v, less', equal')
    ensures Compares(s + u, t + v, less || (equal && less'), equal && equal')
  {
    TextLessAppend(s, t, u, v);
    assert s + u == t + v <==> s == t && u == v by {
      assert (s + u)[..|s|] == s && (s + u)[|s|..] == u;
      assert (t + v)[..|t|] == t && (t + v)[|t|..] == v;
    }
  }

  lemma {:induction false} NotLessThanSelf(s: string)
    ensures !TextLess(s, s)
  {
    if s != "" {
      NotLessThanSelf(s[1..]);
    }
  }

  lemma Same(s: string)
    ensures Compares(s, s, false, true)
  {
    NotLessThanSelf(s);
  }

  // Three fields with a separator between them, from the most significant to the least.
  lemma ThreeFields(s: string, t: string, less: bool, equal: bool, s': string, t': string, less': bool, equal': bool,
                    s'': string, t'': string, less'': bool, equal'': bool, sep: string)
    requires Compares(s, t, less, equal) && Compares(s', t', less', equal') && Compares(s'', t'', less'', equal'')
    ensures Compares(s + sep + s' + sep + s'', t + sep + t' + sep + t'',
                     less || (equal && (less' || (equal' && less''))), equal && equal' && equal'')
  {
    hide TextLess, Compares;
    Same(sep);
    Joined(s, t, less, equal, sep, sep, false, true);
    Joined(s + sep, t + sep, less, equal, s', t', less', equal');
    Joined(s + sep + s', t + sep + t', less || (equal && less'), equal && equal', sep, sep, false, true);
    Joined(s + sep + s' + sep, t + sep + t' + sep, less || (equal && less'), equal && equal', s'', t'', less'', equal'');
  }

  lemma {:induction false} PadOrder(a: nat, b: nat, width: nat)
    requires a < Power10(width) && b < Power10(width)
    ensures |Pad(a, width)| == width && Compares(Pad(a, width), Pad(b, width), a < b, a == b)
  {
    if width == 0 {
    } else {
      PadOrder(a / 10, b / 10, width - 1);
      var x, y := [Digit(a % 10)], [Digit(b % 10)];
      assert x[1..] == y[1..] == "";
      assert Compares(x, y, a % 10 < b % 10, a % 10 == b % 10);
      Joined(Pad(a / 10, width - 1), Pad(b / 10, width - 1), a / 10 < b / 10, a / 10 == b / 10,
             x, y, a % 10 < b % 10, a % 10 == b % 10);
    }
  }

  // ---- isoformat ----

  function DateText(date: Date): string
    requires Valid(date)
  {
    Pad(date.y, 4) + "-" + Pad(date.m, 2) + "-" + Pad(date.d, 2)
  }

  function ClockText(second: nat): string {
    Pad(second / 3600, 2) + ":" + Pad(second / 60 % 60, 2) + ":" + Pad(second % 60, 2)
  }

  // The microseconds are left out when they are zero.
  function TailText(micro: nat): string {
    (if micro == 0 then "" else "." + Pad(micro, 6)) + "+00:00"
  }

  function Iso(t: nat): string {
    DateOfNumber(t / 86400000000);
    DateText(DateOf(t / 86400000000)) + "T" + ClockText(t / 1000000 % 86400) + TailText(t % 1000000)
  }

  lemma Powers()
    ensures Power10(2) == 100 && Power10(4) == 10000 && Power10(6) == 1000000
  {
    assert Power10(3) == 1000 && Power10(5) == 100000;
  }

  lemma DateOrder(a: Date, b: Date)
    requires Valid(a) && Valid(b) && a.y <= 9999 && b.y <= 9999
    ensures Compares(DateText(a), DateText(b), Before(a, b), a == b)
  {
    Powers();
    PadOrder(a.y, b.y, 4);
    TwoDigits(a.m, b.m);
    TwoDigits(a.d, b.d);
    hide TextLess, Pad, Compares;
    ThreeFields(Pad(a.y, 4), Pad(b.y, 4), a.y < b.y, a.y == b.y, Pad(a.m, 2), Pad(b.m, 2), a.m < b.m, a.m == b.m,
                Pad(a.d, 2), Pad(b.d, 2), a.d < b.d, a.d == b.d, "-");
  }

  lemma TwoDigits(a: nat, b: nat)
    requires a < 100 && b < 100
    ensures Compares(Pad(a, 2), Pad(b, 2), a < b, a == b)
  {
    Powers();
    PadOrder(a, b, 2);
  }

  lemma ClockSplit(a: nat)
    ensures a == 3600 * (a / 3600) + 60 * (a / 60 % 60) + a % 60
  {
    var minutes := a / 60;
    assert a == 60 * minutes + a % 60;
    assert minutes == 60 * (minutes / 60) + minutes % 60;
    assert minutes / 60 == a / 3600;
  }

  lemma ClockOrder(a: nat, b: nat)
    requires a < 86400 && b < 86400
    ensures Compares(ClockText(a), ClockText(b), a < b, a == b)
  {
    hide TextLess, Pad, Compares;
    var h, h', m, m', s, s' := a / 3600, b / 3600, a / 60 % 60, b / 60 % 60, a % 60, b % 60;
    TwoDigits(h, h');
    TwoDigits(m, m');
    TwoDigits(s, s');
    ClockSplit(a);
    ClockSplit(b);
    ThreeFields(Pad(h, 2), Pad(h', 2), h < h', h == h', Pad(m, 2), Pad(m', 2), m < m', m == m',
                Pad(s, 2), Pad(s', 2), s < s', s == s', ":");
  }

  // '+' sorts before '.', so the text without microseconds comes first, as it should.
  lemma TailOrder(a: nat, b: nat)
    requires a < 1000000 && b < 1000000
    ensures TextLess(TailText(a), TailText(b)) <==> a < b
  {
    var zone := "+00:00";
    NotLessThanSelf(zone);
    if a == 0 && b == 0 {
      assert TailText(a) == zone;
    } else if a == 0 {
      assert TailText(a)[0] == '+' && TailText(b)[0] == '.';
    } else if b == 0 {
      assert TailText(b)[0] == '+' && TailText(a)[0] == '.';
    } else {
      Powers();
      PadOrder(a, b, 6);
      Same(".");
      Joined(".", ".", false, true, Pad(a, 6), Pad(b, 6), a < b, a == b);
      TextLessAppend("." + Pad(a, 6), "." + Pad(b, 6), zone, zone);
    }
  }

  /** Text order of the stored timestamps is time order, zero microseconds or not. */
  lemma IsoOrder(t: nat, u: nat)
    requires t < MAX_INSTANT && u < MAX_INSTANT
    ensures TextLess(Iso(t), Iso(u)) <==> t < u
  {
    var dt, du := t / 86400000000, u / 86400000000;
    var ct, cu := t / 1000000 % 86400, u / 1000000 % 86400;
    DateOfNumber(dt);
    DateOfNumber(du);
    FourDigitYears(DateOf(dt));
    FourDigitYears(DateOf(du));
    BeforeIffLess(DateOf(dt), DateOf(du));
    DateOrder(DateOf(dt), DateOf(du));
    ClockOrder(ct, cu);
    TailOrder(t % 1000000, u % 1000000);
    Same("T");
    hide TextLess, DateText, ClockText, TailText, DateOf, DayNumber;
    var x, y := DateText(DateOf(dt)), DateText(DateOf(du));
    Joined(x, y, dt < du, dt == du, "T", "T", false, true);
    Joined(x + "T", y + "T", dt < du, dt == du, ClockText(ct), ClockText(cu), ct < cu, ct == cu);
    TextLessAppend(x + "T" + ClockText(ct), y + "T" + ClockText(cu), TailText(t % 1000000), TailText(u % 1000000));
    InstantOrder(t, u);
  }

  lemma InstantOrder(t: nat, u: nat)
    ensures var dt, du, ct, cu := t / 86400000000, u / 86400000000, t / 1000000 % 86400, u / 1000000 % 86400;
            t < u <==> dt < du || (dt == du && (ct < cu || (ct == cu && t % 1000000 < u % 1000000)))
  {
    assert t == 86400000000 * (t / 86400000000) + 1000000 * (t / 1000000 % 86400) + t % 1000000 by {
      Split(t);
    }
    assert u == 86400000000 * (u / 86400000000) + 1000000 * (u / 1000000 % 86400) + u % 1000000 by {
      Split(u);
    }
  }

  lemma Split(t: nat)
    ensures t == 86400000000 * (t / 86400000000) + 1000000 * (t / 1000000 % 86400) + t % 1000000
  {
    var s := t / 1000000;
    assert t == 1000000 * s + t % 1000000;
    assert s == 86400 * (s / 86400) + s % 86400;
    assert s / 86400 == t / 86400000000;
  }
}
