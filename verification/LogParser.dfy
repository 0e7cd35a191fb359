/** Address and host normalisation of backend/core/log_parser.py. */
module LogParser {
  import opened Text

  predicate HasOne(s: string, c: char) {
    multiset(s)[c] == 1
  }

  function WithoutPort(s: string): string {
    if HasOne(s, ':') then s[..FindLast(s, ':')] else s
  }

  function Unbracketed(s: string): string {
    if s != "" && s[0] == '[' then s[1..] else s
  }

  // What is done once the blanks are off.
  function Settled(s: string): string {
    WithoutPort(UpTo(UpTo(Unbracketed(s), ']'), '%'))
  }

  function CleanedIp(ip: string): string {
    Settled(Strip(ip))
  }

  method CleanIp(ip: string) returns (r: string)
    ensures r == CleanedIp(ip)
  {
    if ip == "" {
      return ip;
    }
    r := Strip(ip);
    if r != "" && r[0] == '[' {
      r := r[1..];
    }
    var close := Find(r, ']');
    if close != -1 {
      r := r[..close];
    }
    var pct := Find(r, '%');
    if pct != -1 {
      r := r[..pct];
    }
    if ':' in r && multiset(r)[':'] == 1 {
      r := r[..FindLast(r, ':')];
    }
  }

  // ---- the renderings of an address ----

  datatype Rendering =
    | Bare
    | Zoned(zone: string)
    | Bracketed(rest: string)
    | BracketedZoned(zone: string, rest: string)
    | WithPort(port: string)

  function Render(a: string, form: Rendering): string {
    match form
    case Bare => a
    case Zoned(zone) => a + "%" + zone
    case Bracketed(rest) => "[" + a + "]" + rest
    case BracketedZoned(zone, rest) => "[" + (a + "%" + zone) + "]" + rest
    case WithPort(port) => a + ":" + port
  }

  predicate Address(a: string) {
    && !HasOne(a, ':') && '[' !in a && ']' !in a && '%' !in a
    && (a != "" ==> !IsSpace(a[0]) && !IsSpace(a[|a| - 1]))
  }

  // A zone ends where the bracket does; a port follows an address without colons.
  predicate Renders(a: string, form: Rendering) {
    match form
    case BracketedZoned(zone, _) => ']' !in zone
    case WithPort(port) => ':' !in a && ':' !in port
    case _ => true
  }

  // A core that begins and ends in print survives, whatever follows it.
  lemma StripKeepsCore(blank: string, core: string, tail: string)
    requires AllSpace(blank) && core != "" && !IsSpace(core[0]) && !IsSpace(core[|core| - 1])
    ensures Strip(blank + core + tail) == core + StripRight(tail)
  {
    assert blank + core + tail == blank + (core + tail);
    StripLeftKeeps(blank, core + tail);
    StripRightKeeps(core, tail);
  }

  // ---- cutting ----

  lemma CutKeeps(p: string, c: char, t: string) returns (t': string)
    requires c !in p
    ensures UpTo(p + t, c) == p + t' && t' <= t
  {
    var s := UpTo(p + t, c);
    UpToShrinks(p + t, c);
    assert forall i | 0 <= i < |p| :: (p + t)[i] == p[i] != c;
    assert |s| >= |p|;
    t' := t[..|s| - |p|];
    assert s == (p + t)[..|s|] == p + t';
  }

  lemma PortGoes(a: string, port: string)
    requires ':' !in a && ':' !in port
    ensures WithoutPort(a + ":" + port) == a
  {
    var s := a + ":" + port;
    assert s[|a|] == ':';
    assert HasOne(s, ':');
    var i := FindLast(s, ':');
    assert forall k | i < k < |s| :: s[i + 1..][k - i - 1] == s[k] != ':';
    assert s[..|a|] == a;
  }

  // ---- one rendering at a time, after stripping ----

  lemma SettleBare(a: string)
    requires Address(a)
    ensures Settled(a) == a
  {
  }

  lemma SettleZoned(a: string, t: string)
    requires Address(a)
    ensures Settled(a + "%" + t) == a
  {
    var s := a + "%" + t;
    assert s[0] == if a == "" then '%' else a[0];
    var t' := CutKeeps(a + "%", ']', t);
    FindAt(a, '%', t');
  }

  lemma SettleBracketed(a: string, inner: string, t: string)
    requires !HasOne(a, ':') && '%' !in a && ']' !in inner
    requires inner == a || exists zone :: inner == a + "%" + zone
    ensures Settled("[" + inner + "]" + t) == a
  {
    assert ("[" + inner + "]" + t)[1..] == inner + "]" + t;
    FindAt(inner, ']', t);
    if inner != a {
      var zone :| inner == a + "%" + zone;
      FindAt(a, '%', zone);
    }
  }

  lemma SettlePort(a: string, t: string)
    requires Address(a) && ':' !in a && ':' !in t
    ensures Settled(a + ":" + t) == a
  {
    var s := a + ":" + t;
    assert s[0] == if a == "" then ':' else a[0];
    var t' := CutKeeps(a + ":", ']', t);
    var t'' := CutKeeps(a + ":", '%', t');
    PortGoes(a, t'');
  }

  // ---- the main results ----

  lemma BareCleans(a: string, before: string, after: string)
    requires Address(a) && AllSpace(before) && AllSpace(after)
    ensures CleanedIp(before + a + after) == a
  {
    hide Settled, Strip;
    if a == "" {
      assert before + a + after == before + after;
      StripBlank(before + after);
    } else {
      StripKeepsCore(before, a, after);
      AllBlank(after);
      assert a + "" == a;
    }
    SettleBare(a);
  }

  // A rendering that is a core in print and a tail.
  lemma CoreCleans(core: string, tail: string, before: string, after: string)
    requires AllSpace(before) && core != "" && !IsSpace(core[0]) && !IsSpace(core[|core| - 1])
    ensures CleanedIp(before + (core + tail) + after) == Settled(core + StripRight(tail + after))
  {
    hide Settled, Strip;
    StripKeepsCore(before, core, tail + after);
    assert before + (core + tail) + after == before + core + (tail + after);
  }

  lemma ZonedCleans(a: string, zone: string, before: string, after: string)
    requires Address(a) && AllSpace(before)
    ensures CleanedIp(before + (a + "%" + zone) + after) == a
  {
    CoreCleans(a + "%", zone, before, after);
    hide Settled, CleanedIp;
    SettleZoned(a, StripRight(zone + after));
  }

  lemma BracketedCleans(a: string, inner: string, rest: string, before: string, after: string)
    requires Address(a) && AllSpace(before) && ']' !in inner
    requires inner == a || exists zone :: inner == a + "%" + zone
    ensures CleanedIp(before + ("[" + inner + "]" + rest) + after) == a
  {
    CoreCleans("[" + inner + "]", rest, before, after);
    hide Settled, CleanedIp;
    SettleBracketed(a, inner, StripRight(rest + after));
  }

  lemma PortCleans(a: string, port: string, before: string, after: string)
    requires Address(a) && ':' !in a && ':' !in port && AllSpace(before) && AllSpace(after)
    ensures CleanedIp(before + (a + ":" + port) + after) == a
  {
    CoreCleans(a + ":", port, before, after);
    StripRightIsPrefix(port + after);
    hide Settled, CleanedIp;
    SettlePort(a, StripRight(port + after));
  }

  /** Every rendering of an address, with any blanks around it, cleans to the address. */
  lemma CleanInvertsRender(a: string, form: Rendering, before: string, after: string)
    requires Address(a) && Renders(a, form) && AllSpace(before) && AllSpace(after)
    ensures CleanedIp(before + Render(a, form) + after) == a
  {
    hide CleanedIp;
    match form
    case Bare => BareCleans(a, before, after);
    case Zoned(zone) => ZonedCleans(a, zone, before, after);
    case Bracketed(rest) => BracketedCleans(a, a, rest, before, after);
    case BracketedZoned(zone, rest) => BracketedCleans(a, a + "%" + zone, rest, before, after);
    case WithPort(port) => PortCleans(a, port, before, after);
  }

  // What a cleaned text looks like.
  predicate Plain(r: string) {
    ']' !in r && '%' !in r && !HasOne(r, ':')
  }

  lemma BracketIsInverse(r: string)
    requires Plain(r)
    ensures CleanedIp("[" + r + "]") == r
  {
    var core := "[" + r + "]";
    StripKeepsCore("", core, "");
    assert "" + core + "" == core && core + "" == core;
    SettleBracketed(r, r, "");
  }

  /** The function's results are exactly the texts without a closing bracket, without a percent
      sign and with no colon or several. */
  lemma ResultsArePlain(r: string)
    ensures (exists ip :: CleanedIp(ip) == r) <==> Plain(r)
  {
    if Plain(r) {
      BracketIsInverse(r);
    }
    forall ip
      ensures Plain(CleanedIp(ip))
    {
      CleanedIsPlain(ip);
    }
  }

  lemma CleanedIsPlain(ip: string)
    ensures Plain(CleanedIp(ip))
  {
    var s := UpTo(Unbracketed(Strip(ip)), ']');
    var r := UpTo(s, '%');
    UpToShrinks(Unbracketed(Strip(ip)), ']');
    UpToShrinks(s, '%');
    if HasOne(r, ':') {
      var i := FindLast(r, ':');
      assert r == r[..i] + [':'] + r[i + 1..];
    }
  }

  lemma {:induction false} StripLeftShortens(s: string)
    ensures |StripLeft(s)| <= |s| && (s != "" && IsSpace(s[0]) ==> |StripLeft(s)| < |s|)
  {
    if s != "" && IsSpace(s[0]) {
      StripLeftShortens(s[1..]);
    }
  }

  lemma StripShortens(s: string)
    requires s != "" && (IsSpace(s[0]) || IsSpace(s[|s| - 1]))
    ensures |Strip(s)| < |s|
  {
    StripLeftShortens(s);
    StripRightIsPrefix(StripLeft(s));
    if !IsSpace(s[0]) {
      StripRightIsPrefix(s[..|s| - 1]);
    }
  }

  lemma SettlingShortens(s: string)
    ensures |Settled(s)| <= |Unbracketed(s)|
  {
    UpToShrinks(Unbracketed(s), ']');
    UpToShrinks(UpTo(Unbracketed(s), ']'), '%');
  }

  // Where the text stops for good: at the first closing bracket or percent sign.
  function Stop(s: string): (i: nat)
    ensures i <= |s| && (i < |s| ==> s[i] == ']' || s[i] == '%')
    ensures forall k | 0 <= k < i :: s[k] != ']' && s[k] != '%'
  {
    if s == "" || s[0] == ']' || s[0] == '%' then 0 else 1 + Stop(s[1..])
  }

  // Or before that at its colon, if it has only one.
  function Cut(s: string): (i: nat)
    ensures i <= |s|
  {
    var kept := s[..Stop(s)];
    if HasOne(kept, ':') then FindLast(kept, ':') else Stop(s)
  }

  lemma StopIsBothCuts(s: string)
    ensures UpTo(UpTo(s, ']'), '%') == s[..Stop(s)]
  {
    var kept, i := UpTo(s, ']'), Stop(s);
    UpToShrinks(s, ']');
    UpToShrinks(kept, '%');
    var cut := UpTo(kept, '%');
    assert cut == s[..|cut|];
    assert forall k | 0 <= k < |cut| :: s[k] == cut[k] == kept[k];
    assert |cut| < |s| ==> s[|cut|] == ']' || s[|cut|] == '%';
  }

  lemma SettledIsCut(s: string)
    ensures Settled(s) == Unbracketed(s)[..Cut(Unbracketed(s))]
  {
    StopIsBothCuts(Unbracketed(s));
  }

  lemma CleanedStableIff(ip: string)
    ensures var r := CleanedIp(ip);
            CleanedIp(r) == r <==> r == "" || (r[0] != '[' && !IsSpace(r[0]) && !IsSpace(r[|r| - 1]))
  {
    var r := CleanedIp(ip);
    CleanedIsPlain(ip);
    if r == "" {
    } else if IsSpace(r[0]) || IsSpace(r[|r| - 1]) {
      StripShortens(r);
      SettlingShortens(Strip(r));
    } else {
      StripKeepsCore("", r, "");
      assert "" + r + "" == r && r + "" == r;
      SettlingShortens(r);
    }
  }

  /** Cleaning twice is cleaning once exactly when the part that is kept, the trimmed text less one
      opening bracket up to the cut, is empty, or starts with neither a second bracket nor a blank
      and does not end in a blank. */
  lemma CleanTwiceIff(ip: string)
    ensures var u := Unbracketed(Strip(ip));
            CleanedIp(CleanedIp(ip)) == CleanedIp(ip) <==>
            Cut(u) == 0 || (u[0] != '[' && !IsSpace(u[0]) && !IsSpace(u[Cut(u) - 1]))
  {
    SettledIsCut(Strip(ip));
    CleanedStableIff(ip);
    hide Settled, Strip, Unbracketed, Cut;
  }

  // A text in print that opens with a bracket and has nothing else to cut.
  lemma BracketComesOff(s: string)
    requires s != "" && !IsSpace(s[|s| - 1]) && ']' !in s && '%' !in s && ':' !in s
    ensures CleanedIp("[" + s) == s
  {
    var t := "[" + s;
    StripKeepsCore("", t, "");
    assert "" + t + "" == t && t + "" == t;
    assert t[1..] == s;
    NothingToCut(s);
    hide Strip, UpTo, WithoutPort;
  }

  /** Two opening brackets are taken off one at a time. */
  lemma TwoBracketsCleanTwice()
    ensures CleanedIp("[" + "[a") == "[a" && CleanedIp("[" + "a") == "a" != "[a"
  {
    hide CleanedIp;
    BracketComesOff("[a");
    BracketComesOff("a");
  }

  lemma NothingToCut(s: string)
    requires ']' !in s && '%' !in s && ':' !in s
    ensures UpTo(s, ']') == s && UpTo(s, '%') == s && WithoutPort(s) == s
  {
  }

  // What comes out of a rendering stays as it is.
  lemma RenderedIsStable(a: string, form: Rendering, before: string, after: string)
    requires Address(a) && Renders(a, form) && AllSpace(before) && AllSpace(after)
    ensures var r := CleanedIp(before + Render(a, form) + after); CleanedIp(r) == r
  {
    hide CleanedIp;
    CleanInvertsRender(a, form, before, after);
    CleanedStableIff(before + Render(a, form) + after);
    assert a != "" && a[0] == '[' ==> '[' in a;
  }

  // ---- hosts ----

  function TrimDots(s: string): string {
    if s != "" && s[|s| - 1] == '.' then TrimDots(s[..|s| - 1]) else s
  }

  function LowerChar(c: char): char {
    if 'A' <= c <= 'Z' then c - 'A' + 'a' else c
  }

  function Lower(s: string): string {
    seq(|s|, i requires 0 <= i < |s| => LowerChar(s[i]))
  }

  lemma LowerAt(s: string, i: nat)
    requires i < |s|
    ensures |Lower(s)| == |s| && Lower(s)[i] as int == s[i] as int + (if 65 <= s[i] as int <= 90 then 32 else 0)
  {
  }

  function HostCore(h: string): string {
    if h != "" && h[0] == '[' then (if Find(h, ']') == -1 then h else h[1..Find(h, ']')]) else WithoutPort(h)
  }

  function CleanedHost(h: string): string {
    Lower(HostCore(TrimDots(Strip(h))))
  }

  method CleanHost(h: string) returns (r: string)
    ensures r == CleanedHost(h)
  {
    r := TrimDots(Strip(h));
    if r == "" {
      return r;
    }
    if r[0] == '[' {
      var end := Find(r, ']');
      if end != -1 {
        r := r[1..end];
      }
    } else if ':' in r && multiset(r)[':'] == 1 {
      r := r[..FindLast(r, ':')];
    }
    r := Lower(r);
  }

  datatype HostRendering = Dotted(dots: string) | DottedWithPort(dots: string, port: string) | InBrackets(rest: string)

  function RenderHost(a: string, form: HostRendering): string {
    match form
    case Dotted(dots) => a + dots
    case DottedWithPort(dots, port) => a + dots + ":" + port
    case InBrackets(rest) => "[" + a + "]" + rest
  }

  predicate HostName(a: string) {
    && a != "" && a[0] != '[' && ']' !in a && a[|a| - 1] != '.' && !HasOne(a, ':')
    && !IsSpace(a[0]) && !IsSpace(a[|a| - 1])
  }

  predicate AllDots(s: string) {
    forall i | 0 <= i < |s| :: s[i] == '.'
  }

  predicate RendersHost(a: string, form: HostRendering) {
    match form
    case Dotted(dots) => AllDots(dots)
    case DottedWithPort(dots, port) => AllDots(dots) && ':' !in a && ':' !in port
    case InBrackets(_) => true
  }

  lemma {:induction false} TrimDotsKeeps(s: string, t: string)
    requires s != "" && s[|s| - 1] != '.'
    ensures TrimDots(s + t) == s + TrimDots(t)
  {
    if t == "" {
      assert s + t == s;
    } else if t[|t| - 1] == '.' {
      assert (s + t)[..|s + t| - 1] == s + t[..|t| - 1];
      TrimDotsKeeps(s, t[..|t| - 1]);
    }
  }

  lemma {:induction false} TrimDotsIsPrefix(t: string)
    ensures TrimDots(t) <= t && (AllDots(t) ==> TrimDots(t) == "")
  {
    if t != "" && t[|t| - 1] == '.' {
      TrimDotsIsPrefix(t[..|t| - 1]);
    }
  }

  lemma DotsSurviveStrip(dots: string, after: string)
    requires AllDots(dots) && AllSpace(after)
    ensures StripRight(dots + after) == dots
  {
    AllBlank(after);
    if dots == "" {
      assert dots + after == after;
    } else {
      StripRightKeeps(dots, after);
      assert dots + "" == dots;
    }
  }

  // A core that begins and ends in print and does not end in a dot survives both trims.
  lemma TrimsKeepCore(core: string, tail: string, before: string, after: string) returns (t: string)
    requires AllSpace(before) && core != "" && !IsSpace(core[0]) && !IsSpace(core[|core| - 1]) && core[|core| - 1] != '.'
    ensures TrimDots(Strip(before + (core + tail) + after)) == core + t && t == TrimDots(StripRight(tail + after))
    ensures t <= tail + after
  {
    hide Strip;
    StripKeepsCore(before, core, tail + after);
    assert before + (core + tail) + after == before + core + (tail + after);
    TrimDotsKeeps(core, StripRight(tail + after));
    t := TrimDots(StripRight(tail + after));
    StripRightIsPrefix(tail + after);
    TrimDotsIsPrefix(StripRight(tail + after));
  }

  lemma DottedHostCleans(a: string, dots: string, before: string, after: string)
    requires HostName(a) && AllDots(dots) && AllSpace(before) && AllSpace(after)
    ensures CleanedHost(before + (a + dots) + after) == Lower(a)
  {
    var t := TrimsKeepCore(a, dots, before, after);
    DotsSurviveStrip(dots, after);
    TrimDotsIsPrefix(dots);
    assert a + "" == a;
    hide Strip, TrimDots, Lower;
  }

  lemma PortedHostCleans(a: string, dots: string, port: string, before: string, after: string)
    requires HostName(a) && AllDots(dots) && ':' !in a && ':' !in port && AllSpace(before) && AllSpace(after)
    ensures CleanedHost(before + (a + dots + ":" + port) + after) == Lower(a + dots)
  {
    var t := TrimsKeepCore(a + dots + ":", port, before, after);
    assert ':' !in port + after;
    assert ':' !in t;
    hide Strip, TrimDots, Lower;
    PortGoes(a + dots, t);
    assert (a + dots + ":" + t)[0] == a[0];
  }

  lemma BracketedHostCleans(a: string, rest: string, before: string, after: string)
    requires HostName(a) && AllSpace(before)
    ensures CleanedHost(before + ("[" + a + "]" + rest) + after) == Lower(a)
  {
    var t := TrimsKeepCore("[" + a + "]", rest, before, after);
    hide Strip, TrimDots, Lower;
    FindAt("[" + a, ']', t);
    var s := "[" + a + "]" + t;
    assert s == "[" + a + [']'] + t;
    assert s[1..|a| + 1] == a;
  }

  /** Every rendering of a host cleans to the host in lower case, save one: final dots that a port
      follows stay. */
  lemma HostCleansIff(a: string, form: HostRendering, before: string, after: string)
    requires HostName(a) && RendersHost(a, form) && AllSpace(before) && AllSpace(after)
    ensures CleanedHost(before + RenderHost(a, form) + after) == Lower(a) <==>
            !(form.DottedWithPort? && form.dots != "")
  {
    hide CleanedHost, HostName;
    match form
    case Dotted(dots) => DottedHostCleans(a, dots, before, after);
    case DottedWithPort(dots, port) =>
      PortedHostCleans(a, dots, port, before, after);
      assert |Lower(a + dots)| == |a| + |dots|;
      if dots == "" {
        assert a + dots == a;
      }
    case InBrackets(rest) => BracketedHostCleans(a, rest, before, after);
  }

  lemma OneLetterHost()
    ensures HostName("a") && AllDots(".") && ':' !in "a" && ':' !in "80" && AllSpace("")
  {
  }

  /** The final dot of a fully qualified name stays if a port follows it. */
  lemma QualifiedHostWithPort()
    ensures CleanedHost("" + ("a" + "." + ":" + "80") + "") == Lower("a" + ".") != Lower("a")
  {
    hide *;
    OneLetterHost();
    PortedHostCleans("a", ".", "80", "", "");
    LowerKeepsLength("a" + ".");
    LowerKeepsLength("a");
  }

  lemma LowerKeepsLength(s: string)
    ensures |Lower(s)| == |s|
  {
  }
}
