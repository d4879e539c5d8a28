/** The JavaScript string operations that server/index.js relies on: `String.prototype.trim`,
    `substring(0, n)`, `includes`, and the conversion of a non-negative integer Number
    to its decimal string inside a template literal. */
module JsText {

  /** ECMAScript WhiteSpace or LineTerminator: what `trim` removes. */
  predicate IsJsSpace(c: char) {
    var n := c as int;
    (0x09 <= n <= 0x0D) || n == 0x20 || n == 0xA0 || n == 0x1680 || (0x2000 <= n <= 0x200A)
    || n == 0x2028 || n == 0x2029 || n == 0x202F || n == 0x205F || n == 0x3000 || n == 0xFEFF
  }

  predicate AllJsSpace(s: string) {
    forall i :: 0 <= i < |s| ==> IsJsSpace(s[i])
  }

  /** Leading white space removed: the longest suffix of `s` that does not start with white space. */
  function TrimStart(s: string): (r: string)
    ensures |r| <= |s| && r == s[|s| - |r|..]
    ensures r == [] || !IsJsSpace(r[0])
    ensures AllJsSpace(s[..|s| - |r|])
  {
    if s == [] || !IsJsSpace(s[0]) then s
    else
      var r := TrimStart(s[1..]);
      assert s[..|s| - |r|] == [s[0]] + s[1..][..|s[1..]| - |r|];
      r
  }

  /** Trailing white space removed: the longest prefix of `s` that does not end with white space. */
  function TrimEnd(s: string): (r: string)
    ensures |r| <= |s| && r == s[..|r|]
    ensures r == [] || !IsJsSpace(r[|r| - 1])
    ensures AllJsSpace(s[|r|..])
  {
    if s == [] || !IsJsSpace(s[|s| - 1]) then s
    else
      var r := TrimEnd(s[..|s| - 1]);
      assert s[|r|..] == s[..|s| - 1][|r|..] + [s[|s| - 1]];
      r
  }

  /** `s.trim()`. */
  function Trim(s: string): string
  {
    TrimEnd(TrimStart(s))
  }

  /** Trimming text padded with white space on both sides gives the text back, as long as
      the text itself neither starts nor ends with white space. */
  lemma TrimPadded(lead: string, body: string, trail: string)
    requires AllJsSpace(lead) && AllJsSpace(trail)
    requires body != [] && !IsJsSpace(body[0]) && !IsJsSpace(body[|body| - 1])
    ensures Trim(lead + body + trail) == body
  {
    assert lead + body + trail == lead + (body + trail);
    TrimStartSpaces(lead, body + trail);
    TrimEndSpaces(body, trail);
  }

  lemma {:induction false} TrimStartSpaces(lead: string, x: string)
    requires AllJsSpace(lead)
    requires x != [] && !IsJsSpace(x[0])
    ensures TrimStart(lead + x) == x
  {
    if lead != [] {
      assert (lead + x)[1..] == lead[1..] + x;
      TrimStartSpaces(lead[1..], x);
    }
  }

  lemma {:induction false} TrimEndSpaces(x: string, trail: string)
    requires AllJsSpace(trail)
    requires x != [] && !IsJsSpace(x[|x| - 1])
    ensures TrimEnd(x + trail) == x
  {
    if trail != [] {
      var t := trail[..|trail| - 1];
      assert (x + trail)[..|x + trail| - 1] == x + t;
      TrimEndSpaces(x, t);
    } else {
      assert x + trail == x;
    }
  }

  /** `s.substring(0, n)` for a non-negative `n`. */
  function Substring0(s: string, n: nat): (r: string)
    ensures |r| == (if n < |s| then n else |s|)
    ensures r == s[..|r|]
  {
    if n < |s| then s[..n] else s
  }

  /** `s.includes(sub)`. */
  predicate Includes(s: string, sub: string)
    decreases |s|
  {
    sub <= s || (s != [] && Includes(s[1..], sub))
  }

  /** `sub` occurs in `s` starting at index `i`. */
  predicate OccursAt(s: string, sub: string, i: nat) {
    i + |sub| <= |s| && s[i..i + |sub|] == sub
  }

  /** `sub` occurring at index `i` of `s` makes `s.includes(sub)` true. */
  lemma {:induction false} IncludesAt(s: string, sub: string, i: nat)
    requires OccursAt(s, sub, i)
    ensures Includes(s, sub)
    decreases i
  {
    if i == 0 {
      assert sub <= s;
    } else {
      assert s[1..][i - 1..i - 1 + |sub|] == s[i..i + |sub|];
      IncludesAt(s[1..], sub, i - 1);
    }
  }

  /** Conversely, `s.includes(sub)` being true means `sub` occurs at some index `i` of `s`. */
  lemma {:induction false} IncludesFound(s: string, sub: string) returns (i: nat)
    requires Includes(s, sub)
    ensures OccursAt(s, sub, i)
    decreases |s|
  {
    if sub <= s {
      i := 0;
    } else {
      var j := IncludesFound(s[1..], sub);
      assert s[1..][j..j + |sub|] == s[j + 1..j + 1 + |sub|];
      i := j + 1;
    }
  }

  /** `s.includes(sub)` holds exactly when `sub` occurs at some index of `s`. */
  lemma IncludesIffOccurs(s: string, sub: string)
    ensures Includes(s, sub) <==> exists i: nat :: OccursAt(s, sub, i)
  {
    if Includes(s, sub) {
      var i := IncludesFound(s, sub);
    }
    if exists i: nat :: OccursAt(s, sub, i) {
      var i: nat :| OccursAt(s, sub, i);
      IncludesAt(s, sub, i);
    }
  }

  /** The character of decimal digit `d`. */
  function DigitChar(d: nat): (c: char)
    requires d < 10
  {
    ('0' as int + d) as char
  }

  predicate IsDigit(c: char) {
    '0' <= c <= '9'
  }

  function DigitValue(c: char): nat
    requires IsDigit(c)
  {
    (c as int - '0' as int) as nat
  }

  /** The decimal string of a non-negative integer Number, as `${n}` renders it
      (no sign, no leading zero). */
  function Decimal(n: nat): (s: string)
    ensures |s| >= 1
    ensures forall i :: 0 <= i < |s| ==> IsDigit(s[i])
    ensures s[0] == '0' ==> n == 0
  {
    if n < 10 then [DigitChar(n)] else Decimal(n / 10) + [DigitChar(n % 10)]
  }

  /** Reference reading of a string of decimal digits. */
  function DecimalValue(s: string): nat
    requires forall i :: 0 <= i < |s| ==> IsDigit(s[i])
  {
    if s == [] then 0 else DecimalValue(s[..|s| - 1]) * 10 + DigitValue(s[|s| - 1])
  }

  /** Round trip: the rendered digits read back as the number. */
  lemma {:induction false} DecimalRoundTrip(n: nat)
    ensures DecimalValue(Decimal(n)) == n
  {
    if n >= 10 {
      DecimalRoundTrip(n / 10);
      var s := Decimal(n);
      assert s[..|s| - 1] == Decimal(n / 10);
    }
  }
}
