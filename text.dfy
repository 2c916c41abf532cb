/** The few Python string operations the provider relies on, written out:
    `s.split(" ", n)`, `" ".join`, `str.replace` for the two escapes it uses,
    `str.lower`, `int(...)` and `f"{i}"`. */
module Text {
  import opened Wrappers

  /** Number of occurrences of `c` in `s`. */
  function Count(s: string, c: char): nat
  {
    if s == [] then 0 else (if s[0] == c then 1 else 0) + Count(s[1..], c)
  }

  lemma {:induction false} CountAppend(a: string, b: string, c: char)
    ensures Count(a + b, c) == Count(a, c) + Count(b, c)
  {
    if a == [] {
      assert a + b == b;
    } else {
      assert (a + b)[1..] == a[1..] + b;
      CountAppend(a[1..], b, c);
    }
  }

  lemma {:induction false} CountAbsent(s: string, c: char)
    requires c !in s
    ensures Count(s, c) == 0
  {
    if s != [] {
      assert s[0] != c;
      assert forall k :: 0 <= k < |s[1..]| ==> s[1..][k] == s[k + 1];
      CountAbsent(s[1..], c);
    }
  }

  /** Index of the first space of `s`, or `|s|` when it has none. */
  function FindSpace(s: string): (i: nat)
    ensures i <= |s|
    ensures i < |s| ==> s[i] == ' '
    ensures forall j :: 0 <= j < i ==> s[j] != ' '
  {
    if s == [] then 0
    else if s[0] == ' ' then 0
    else 1 + FindSpace(s[1..])
  }

  lemma FindSpaceAt(a: string, b: string)
    requires ' ' !in a
    ensures FindSpace(a + " " + b) == |a|
  {
    var s := a + " " + b;
    var i := FindSpace(s);
    assert s[|a|] == ' ';
  }

  /** `" ".join(parts)`. */
  function Join(parts: seq<string>): string
  {
    if |parts| == 0 then ""
    else if |parts| == 1 then parts[0]
    else parts[0] + " " + Join(parts[1..])
  }

  lemma Join2(a: string, b: string)
    ensures Join([a, b]) == a + " " + b
  {
    assert [a, b][1..] == [b];
  }

  lemma Join3(a: string, b: string, c: string)
    ensures Join([a, b, c]) == a + " " + b + " " + c
  {
    assert [a, b, c][1..] == [b, c];
    assert [b, c][1..] == [c];
    assert Join([b, c]) == b + " " + c;
    assert a + " " + (b + " " + c) == a + " " + b + " " + c;
  }

  lemma Join4(a: string, b: string, c: string, d: string)
    ensures Join([a, b, c, d]) == a + " " + b + " " + c + " " + d
  {
    assert [a, b, c, d][1..] == [b, c, d];
    Join3(b, c, d);
    assert a + " " + (b + " " + c + " " + d) == a + " " + b + " " + c + " " + d;
  }

  /** Python's `s.split(" ", maxsplit)`: cut at the first `maxsplit` single
      spaces, from the left; the last part keeps every remaining space, and
      two adjacent spaces give an empty part. */
  function Split(s: string, maxsplit: nat): (parts: seq<string>)
    ensures 1 <= |parts| <= maxsplit + 1
    ensures Join(parts) == s
    ensures forall k :: 0 <= k < |parts| - 1 ==> ' ' !in parts[k]
    ensures |parts| == Min(maxsplit, Count(s, ' ')) + 1
    decreases maxsplit
  {
    var i := FindSpace(s);
    if maxsplit == 0 || i == |s| then
      SplitCountNone(s, i);
      [s]
    else
      var rest := Split(s[i + 1..], maxsplit - 1);
      assert s == s[..i] + " " + s[i + 1..];
      SplitCountAt(s, i);
      [s[..i]] + rest
  }

  lemma SplitCountNone(s: string, i: nat)
    requires i == FindSpace(s)
    ensures i == |s| ==> Count(s, ' ') == 0
  {
    if i == |s| {
      CountAbsent(s, ' ');
    }
  }

  lemma {:induction false} SplitCountAt(s: string, i: nat)
    requires i == FindSpace(s) < |s|
    ensures Count(s, ' ') == 1 + Count(s[i + 1..], ' ')
    ensures ' ' !in s[..i]
  {
    assert forall j :: 0 <= j < i ==> s[..i][j] == s[j];
    if i > 0 {
      assert s[1..][i..] == s[i + 1..];
      SplitCountAt(s[1..], i - 1);
    }
  }

  function Min(a: nat, b: nat): nat
  {
    if a <= b then a else b
  }

  /** A leading field without spaces is split off first. */
  lemma SplitCons(a: string, b: string, n: nat)
    requires ' ' !in a && n > 0
    ensures Split(a + " " + b, n) == [a] + Split(b, n - 1)
  {
    var s := a + " " + b;
    FindSpaceAt(a, b);
    assert s[..|a|] == a;
    assert s[|a| + 1..] == b;
  }

  /** Splitting the join of `n + 1` fields at `n` spaces gives the fields back,
      provided none but the last contains a space. */
  lemma {:induction false} SplitJoin(fields: seq<string>, n: nat)
    requires |fields| == n + 1
    requires forall k :: 0 <= k < n ==> ' ' !in fields[k]
    ensures Split(Join(fields), n) == fields
    decreases n
  {
    if n > 0 {
      var rest := fields[1..];
      assert Join(fields) == fields[0] + " " + Join(rest);
      SplitCons(fields[0], Join(rest), n);
      SplitJoin(rest, n - 1);
      assert fields == [fields[0]] + rest;
    }
  }

  /** `s.replace(";", "\\;")`: a backslash before every semicolon. */
  function Escape(s: string): (r: string)
    ensures |r| == |s| + Count(s, ';')
    ensures |r| > 0 ==> r[0] != ';'
    ensures ';' !in s ==> r == s
    decreases |s|
  {
    if s == [] then []
    else
      var rest := Escape(s[1..]);
      if s[0] == ';' then "\\;" + rest else [s[0]] + rest
  }

  /** `s.replace("\\;", ";")`: every backslash-semicolon pair becomes a
      semicolon, scanning from the left. */
  function Unescape(s: string): (r: string)
    ensures |r| <= |s|
    decreases |s|
  {
    if |s| >= 2 && s[0] == '\\' && s[1] == ';' then ";" + Unescape(s[2..])
    else if s == [] then []
    else [s[0]] + Unescape(s[1..])
  }

  /** Unescaping the escaped form of any string gives that string back. */
  lemma {:induction false} UnescapeEscape(s: string)
    ensures Unescape(Escape(s)) == s
    decreases |s|
  {
    if s != [] {
      var rest := Escape(s[1..]);
      UnescapeEscape(s[1..]);
      if s[0] == ';' {
        assert Escape(s) == "\\;" + rest;
        assert (Escape(s))[2..] == rest;
      } else {
        assert Escape(s) == [s[0]] + rest;
        assert (Escape(s))[1..] == rest;
        assert s == [s[0]] + s[1..];
      }
    }
  }

  /** `s.replace('"', "")`: every double quote removed. */
  function RemoveQuotes(s: string): (r: string)
    ensures '"' !in r
    ensures '"' !in s ==> r == s
    ensures |r| == |s| - Count(s, '"')
  {
    if s == [] then []
    else if s[0] == '"' then RemoveQuotes(s[1..])
    else
      assert s == [s[0]] + s[1..];
      [s[0]] + RemoveQuotes(s[1..])
  }

  predicate IsUpper(c: char)
  {
    'A' <= c <= 'Z'
  }

  function LowerChar(c: char): char
  {
    if IsUpper(c) then (c as int + 32) as char else c
  }

  /** `s.lower()` on ASCII letters. */
  function Lower(s: string): (r: string)
    ensures |r| == |s|
    ensures forall k :: 0 <= k < |r| ==> !IsUpper(r[k])
    ensures forall k :: 0 <= k < |s| ==>
      (IsUpper(s[k]) ==> r[k] as int == s[k] as int + 32) && (!IsUpper(s[k]) ==> r[k] == s[k])
    ensures (forall k :: 0 <= k < |s| ==> !IsUpper(s[k])) ==> r == s
  {
    seq(|s|, k requires 0 <= k < |s| => LowerChar(s[k]))
  }

  predicate IsDigit(c: char)
  {
    '0' <= c <= '9'
  }

  predicate AllDigits(s: string)
  {
    forall k :: 0 <= k < |s| ==> IsDigit(s[k])
  }

  function DigitChar(d: nat): (c: char)
    requires d < 10
    ensures IsDigit(c)
  {
    ('0' as int + d) as char
  }

  /** The value of a string of decimal digits, most significant first. */
  function DigitsValue(s: string): nat
    requires AllDigits(s)
  {
    if s == [] then 0
    else DigitsValue(s[..|s| - 1]) * 10 + (s[|s| - 1] as int - '0' as int)
  }

  /** The decimal spelling of `n`, as `f"{n}"` writes it. */
  function NatToString(n: nat): (r: string)
    ensures |r| > 0 && AllDigits(r)
    ensures DigitsValue(r) == n
  {
    if n < 10 then [DigitChar(n)]
    else
      var prefix := NatToString(n / 10);
      var r := prefix + [DigitChar(n % 10)];
      assert r[..|r| - 1] == prefix;
      r
  }

  /** `int(s)`: an optional sign followed by at least one ASCII digit. */
  function ParseInt(s: string): (r: Option<int>)
    ensures r.Some? ==> |s| > 0 && ' ' !in s
  {
    if |s| > 1 && (s[0] == '-' || s[0] == '+') && AllDigits(s[1..]) then
      Some(if s[0] == '-' then -(DigitsValue(s[1..]) as int) else DigitsValue(s[1..]))
    else if |s| > 0 && AllDigits(s) then
      Some(DigitsValue(s))
    else
      None
  }

  /** `f"{i}"` for an integer: its decimal spelling, with a minus sign when negative. */
  function IntToString(i: int): (r: string)
    ensures |r| > 0 && ' ' !in r && '"' !in r
    ensures ParseInt(r) == Some(i)
  {
    if i < 0 then
      var digits := NatToString(-i);
      var r := "-" + digits;
      assert r[1..] == digits;
      r
    else
      NatToString(i)
  }
}
