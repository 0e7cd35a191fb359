/** Query strings: the browser's URLSearchParams on one side, the server's parser on the other.
    Texts are bytes, that is, characters below 256. */
module FormEncoding {
  import opened Text
  import opened Wrappers

  type Params = seq<(string, string)>

  predicate Bytes(s: string) {
    forall i | 0 <= i < |s| :: s[i] < 256 as char
  }

  predicate AllBytes(ps: Params) {
    forall i | 0 <= i < |ps| :: Bytes(ps[i].0) && Bytes(ps[i].1)
  }

  // ---- a parameter list filled in place ----

  function Without(ps: Params, key: string): Params {
    if ps == [] then []
    else (if ps[0].0 == key then [] else [ps[0]]) + Without(ps[1..], key)
  }

  // URLSearchParams.set: the first pair of that name takes the value, the others go.
  function Put(ps: Params, key: string, value: string): Params {
    if ps == [] then [(key, value)]
    else if ps[0].0 == key then [(key, value)] + Without(ps[1..], key)
    else [ps[0]] + Put(ps[1..], key, value)
  }

  // What the server reads for a name: the last pair counts.
  function Get(ps: Params, key: string): Option<string> {
    if ps == [] then None
    else
      var later := Get(ps[1..], key);
      if later.Some? then later else if ps[0].0 == key then Some(ps[0].1) else None
  }

  lemma {:induction false} GetWithout(ps: Params, key: string, other: string)
    ensures Get(Without(ps, key), other) == if other == key then None else Get(ps, other)
  {
    if ps == [] {
    } else {
      GetWithout(ps[1..], key, other);
      GetCons(ps[0], Without(ps[1..], key), other);
      assert [] + Without(ps[1..], key) == Without(ps[1..], key);
    }
  }

  lemma GetCons(p: (string, string), ps: Params, key: string)
    ensures Get([p] + ps, key) == var later := Get(ps, key); if later.Some? then later else if p.0 == key then Some(p.1) else None
  {
    assert ([p] + ps)[1..] == ps;
  }

  /** A name reads as what was last put there, and every other name as before. */
  lemma {:induction false} GetPut(ps: Params, key: string, value: string, other: string)
    ensures Get(Put(ps, key, value), other) == if other == key then Some(value) else Get(ps, other)
  {
    if ps == [] {
      GetCons((key, value), [], other);
    } else if ps[0].0 == key {
      GetWithout(ps[1..], key, other);
      GetCons((key, value), Without(ps[1..], key), other);
    } else {
      GetPut(ps[1..], key, value, other);
      GetCons(ps[0], Put(ps[1..], key, value), other);
    }
  }

  lemma {:induction false} WithoutKeepsBytes(ps: Params, key: string)
    requires AllBytes(ps)
    ensures AllBytes(Without(ps, key))
  {
    if ps != [] {
      WithoutKeepsBytes(ps[1..], key);
    }
  }

  lemma {:induction false} PutKeepsBytes(ps: Params, key: string, value: string)
    requires AllBytes(ps) && Bytes(key) && Bytes(value)
    ensures AllBytes(Put(ps, key, value))
  {
    if ps == [] {
    } else if ps[0].0 == key {
      WithoutKeepsBytes(ps[1..], key);
    } else {
      PutKeepsBytes(ps[1..], key, value);
    }
  }

  // ---- one text ----

  predicate Kept(c: char) {
    'a' <= c <= 'z' || 'A' <= c <= 'Z' || '0' <= c <= '9' || c == '*' || c == '-' || c == '.' || c == '_'
  }

  function HexDigit(n: nat): (c: char)
    requires n < 16
    ensures HexValue(c) == Some(n)
  {
    if n < 10 then '0' + n as char else 'A' + (n - 10) as char
  }

  // Either case is read.
  function HexValue(c: char): (n: Option<nat>)
    ensures n.Some? ==> n.value < 16
  {
    if '0' <= c <= '9' then Some((c - '0') as nat)
    else if 'A' <= c <= 'F' then Some((c - 'A') as nat + 10)
    else if 'a' <= c <= 'f' then Some((c - 'a') as nat + 10)
    else None
  }

  function EncodeByte(c: char): string
    requires c < 256 as char
  {
    if c == ' ' then "+"
    else if Kept(c) then [c]
    else ['%', HexDigit(c as nat / 16), HexDigit(c as nat % 16)]
  }

  function Encode(s: string): string
    requires Bytes(s)
  {
    if s == "" then "" else EncodeByte(s[0]) + Encode(s[1..])
  }

  // A percent sign without two hexadecimal digits after it stands for itself.
  function Decode(s: string): string {
    if s == "" then ""
    else if s[0] == '+' then " " + Decode(s[1..])
    else if s[0] == '%' && |s| >= 3 && HexValue(s[1]).Some? && HexValue(s[2]).Some?
    then [(16 * HexValue(s[1]).value + HexValue(s[2]).value) as char] + Decode(s[3..])
    else [s[0]] + Decode(s[1..])
  }

  /** A blank becomes a plus sign; digits, letters and four marks stay; every other byte takes three
      characters. */
  lemma EncodedByteIs(c: char)
    requires c < 256 as char
    ensures var n := c as int;
            if n == 32 then EncodeByte(c) == "+"
            else if 48 <= n <= 57 || 65 <= n <= 90 || 97 <= n <= 122 || n in {42, 45, 46, 95} then EncodeByte(c) == [c]
            else |EncodeByte(c)| == 3 && EncodeByte(c)[0] == '%'
  {
  }

  /** Hexadecimal digits are read in either case, and nothing else is. */
  lemma HexValueIs(c: char)
    ensures var n := c as int;
            HexValue(c) ==
            if 48 <= n <= 57 then Some(n - 48)
            else if 65 <= n <= 70 then Some(n - 55)
            else if 97 <= n <= 102 then Some(n - 87)
            else None
  {
  }

  lemma DecodeByte(c: char, t: string)
    requires c < 256 as char
    ensures Decode(EncodeByte(c) + t) == [c] + Decode(t)
  {
    var s := EncodeByte(c) + t;
    if c == ' ' || Kept(c) {
      assert s[1..] == t;
    } else {
      assert s[3..] == t;
      assert s[1] == HexDigit(c as nat / 16) && s[2] == HexDigit(c as nat % 16);
    }
  }

  // Decoding is the inverse of encoding.
  lemma {:induction false} DecodeEncode(s: string)
    requires Bytes(s)
    ensures Decode(Encode(s)) == s
  {
    if s == "" {
    } else {
      DecodeEncode(s[1..]);
      DecodeByte(s[0], Encode(s[1..]));
    }
  }

  lemma {:induction false} EncodedIsSafe(s: string)
    requires Bytes(s)
    ensures '&' !in Encode(s) && '=' !in Encode(s)
  {
    if s == "" {
    } else {
      EncodedIsSafe(s[1..]);
      assert forall n: nat | n < 16 :: HexDigit(n) != '&' && HexDigit(n) != '=';
    }
  }

  // ---- the query string ----

  function PairText(p: (string, string)): string
    requires Bytes(p.0) && Bytes(p.1)
  {
    Encode(p.0) + "=" + Encode(p.1)
  }

  function Serialize(ps: Params): string
    requires AllBytes(ps)
  {
    if ps == [] then ""
    else PairText(ps[0]) + (if |ps| == 1 then "" else "&" + Serialize(ps[1..]))
  }

  function ParsePair(s: string): (string, string) {
    var i := Find(s, '=');
    if i == -1 then (Decode(s), "") else (Decode(s[..i]), Decode(s[i + 1..]))
  }

  lemma NameAlone(s: string)
    requires '=' !in s
    ensures ParsePair(s) == (Decode(s), "")
  {
    hide Decode;
  }

  // Empty pieces are skipped, empty values are kept.
  function ParsePiece(s: string): Params {
    if s == "" then [] else [ParsePair(s)]
  }

  function Parse(s: string): Params
    decreases |s|
  {
    var i := Find(s, '&');
    if i == -1 then ParsePiece(s) else ParsePiece(s[..i]) + Parse(s[i + 1..])
  }

  lemma PairRoundTrip(p: (string, string))
    requires Bytes(p.0) && Bytes(p.1)
    ensures ParsePiece(PairText(p)) == [p] && '&' !in PairText(p)
  {
    EncodedIsSafe(p.0);
    EncodedIsSafe(p.1);
    DecodeEncode(p.0);
    DecodeEncode(p.1);
    var k, v := Encode(p.0), Encode(p.1);
    FindAt(k, '=', v);
    assert (k + "=" + v)[..|k|] == k && (k + "=" + v)[|k| + 1..] == v;
    assert "=" == ['='];
  }

  lemma ParseCut(first: string, rest: string)
    requires '&' !in first
    ensures Parse(first + "&" + rest) == ParsePiece(first) + Parse(rest)
  {
    hide ParsePiece, Find;
    var s := first + "&" + rest;
    assert s == first + ['&'] + rest;
    FindAt(first, '&', rest);
    assert s[..|first|] == first && s[|first| + 1..] == rest;
  }

  /** The server reads back exactly the pairs the browser wrote, in order. */
  lemma {:induction false} ParseSerialize(ps: Params)
    requires AllBytes(ps)
    ensures Parse(Serialize(ps)) == ps
  {
    hide Find, Parse, ParsePiece, PairText;
    if ps == [] {
      ParseNothing();
    } else {
      var first := PairText(ps[0]);
      PairRoundTrip(ps[0]);
      assert ps == [ps[0]] + ps[1..];
      if |ps| == 1 {
        assert first + "" == first;
        ParseOne(first);
      } else {
        ParseSerialize(ps[1..]);
        ParseCut(first, Serialize(ps[1..]));
        assert first + ("&" + Serialize(ps[1..])) == first + "&" + Serialize(ps[1..]);
      }
    }
  }

  lemma ParseNothing()
    ensures Parse("") == []
  {
  }

  lemma ParseOne(s: string)
    requires '&' !in s
    ensures Parse(s) == ParsePiece(s)
  {
  }
}
