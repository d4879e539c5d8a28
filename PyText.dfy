/** The Python string built-ins that summarize.py relies on: `str.isspace`,
    `str.strip`, `str.split()` with no separator, and `str.join`. */
module PyText {

  /** Python's `str.isspace` for a single character (bidirectional class WS, B or S,
      or general category Zs). */
  predicate IsSpace(c: char) {
    var n := c as int;
    (0x09 <= n <= 0x0D) || (0x1C <= n <= 0x20) || n == 0x85 || n == 0xA0 || n == 0x1680
    || (0x2000 <= n <= 0x200A) || n == 0x2028 || n == 0x2029 || n == 0x202F
    || n == 0x205F || n == 0x3000
  }

  /** `not s.strip()`: the string is empty or all whitespace. */
  predicate IsBlank(s: string) {
    forall i :: 0 <= i < |s| ==> IsSpace(s[i])
  }

  /** What `str.split()` can yield: a non-empty run without whitespace. */
  predicate IsWord(w: string) {
    |w| > 0 && forall i :: 0 <= i < |w| ==> !IsSpace(w[i])
  }

  predicate AllWords(ws: seq<string>) {
    forall k :: 0 <= k < |ws| ==> IsWord(ws[k])
  }

  /** Length of the longest whitespace-free prefix of `s`. */
  function WordLength(s: string): (k: nat)
    ensures k <= |s|
    ensures forall i :: 0 <= i < k ==> !IsSpace(s[i])
    ensures k < |s| ==> IsSpace(s[k])
  {
    if s == [] || IsSpace(s[0]) then 0 else 1 + WordLength(s[1..])
  }

  /** `s.split()`: the maximal whitespace-free runs of `s`, in order. */
  function Split(s: string): (words: seq<string>)
    ensures AllWords(words)
    decreases |s|
  {
    if s == [] then []
    else if IsSpace(s[0]) then Split(s[1..])
    else
      var k := WordLength(s);
      [s[..k]] + Split(s[k..])
  }

  /** `sep.join(parts)`. */
  function JoinWith(sep: string, parts: seq<string>): string
  {
    if |parts| == 0 then ""
    else if |parts| == 1 then parts[0]
    else parts[0] + sep + JoinWith(sep, parts[1..])
  }

  /** Concatenation of a list of lists. */
  function Flatten<T>(xss: seq<seq<T>>): seq<T>
  {
    if xss == [] then [] else xss[0] + Flatten(xss[1..])
  }

  /** Where `parts[k]` starts inside `JoinWith(sep, parts)`. */
  function JoinOffset(sep: string, parts: seq<string>, k: nat): nat
    requires k <= |parts|
  {
    if k == 0 then 0 else JoinOffset(sep, parts, k - 1) + |parts[k - 1]| + |sep|
  }

  /** `s.strip()` is empty exactly when `s.split()` finds no word: the empty-input guard
      and the empty-chunk-list guard of summarize.py test the same thing. */
  lemma {:induction false} BlankIffNoWords(s: string)
    ensures IsBlank(s) <==> Split(s) == []
    decreases |s|
  {
    if s != [] {
      if IsSpace(s[0]) {
        BlankIffNoWords(s[1..]);
        assert IsBlank(s) <==> IsBlank(s[1..]) by {
          if IsBlank(s[1..]) {
            forall i | 0 <= i < |s| ensures IsSpace(s[i]) {
              if i > 0 { assert s[i] == s[1..][i - 1]; }
            }
          }
          if IsBlank(s) {
            forall i | 0 <= i < |s[1..]| ensures IsSpace(s[1..][i]) {
              assert s[1..][i] == s[i + 1];
            }
          }
        }
      } else {
        assert !IsBlank(s);
      }
    }
  }

  /** A single word splits to itself. */
  lemma SplitWord(w: string)
    requires IsWord(w)
    ensures Split(w) == [w]
  {
    var k := WordLength(w);
    assert k == |w|;
    assert w[..k] == w;
    assert w[k..] == [];
  }

  /** A word followed by a space and anything else splits as that word, then the rest. */
  lemma SplitWordSpace(w: string, rest: string)
    requires IsWord(w)
    ensures Split(w + " " + rest) == [w] + Split(rest)
  {
    var s := w + " " + rest;
    var k := WordLength(s);
    forall i | 0 <= i < |w| ensures s[i] == w[i] { }
    assert s[|w|] == ' ';
    assert k == |w|;
    assert s[..k] == w;
    assert s[k..] == " " + rest;
    assert (" " + rest)[1..] == rest;
  }

  /** Word-level round trip: splitting a space-joined list of words gives the list back. */
  lemma {:induction false} SplitJoinRoundTrip(ws: seq<string>)
    requires AllWords(ws)
    ensures Split(JoinWith(" ", ws)) == ws
  {
    if |ws| == 1 {
      SplitWord(ws[0]);
    } else if |ws| > 1 {
      SplitWordSpace(ws[0], JoinWith(" ", ws[1..]));
      SplitJoinRoundTrip(ws[1..]);
      assert [ws[0]] + ws[1..] == ws;
    }
  }

  /** Order preservation of `sep.join(parts)`: each part stands, unchanged, at its
      offset, which counts all the parts before it and one separator per earlier part. */
  lemma {:induction false} JoinWithAt(sep: string, parts: seq<string>, k: nat)
    requires k < |parts|
    ensures JoinOffset(sep, parts, k) + |parts[k]| <= |JoinWith(sep, parts)|
    ensures JoinWith(sep, parts)[JoinOffset(sep, parts, k)..JoinOffset(sep, parts, k) + |parts[k]|] == parts[k]
  {
    if k == 0 {
      JoinWithFirst(sep, parts);
    } else {
      JoinWithAt(sep, parts[1..], k - 1);
      JoinWithAtLater(sep, parts, k);
    }
  }

  /** The first part opens the joined string. */
  lemma JoinWithFirst(sep: string, parts: seq<string>)
    requires |parts| > 0
    ensures |parts[0]| <= |JoinWith(sep, parts)|
    ensures JoinWith(sep, parts)[..|parts[0]|] == parts[0]
  {
    if |parts| > 1 {
      var rest := JoinWith(sep, parts[1..]);
      assert JoinWith(sep, parts) == parts[0] + (sep + rest);
      SliceLeft(parts[0], sep + rest, 0, |parts[0]|);
    }
  }

  /** Part `k > 0` stands in the joined string where it stands in the join of the later
      parts, shifted by the first part and one separator. */
  lemma JoinWithAtLater(sep: string, parts: seq<string>, k: nat)
    requires 0 < k < |parts|
    requires JoinOffset(sep, parts[1..], k - 1) + |parts[k]| <= |JoinWith(sep, parts[1..])|
    requires JoinWith(sep, parts[1..])[JoinOffset(sep, parts[1..], k - 1)..JoinOffset(sep, parts[1..], k - 1) + |parts[k]|]
      == parts[k]
    ensures JoinOffset(sep, parts, k) + |parts[k]| <= |JoinWith(sep, parts)|
    ensures JoinWith(sep, parts)[JoinOffset(sep, parts, k)..JoinOffset(sep, parts, k) + |parts[k]|] == parts[k]
  {
    var head := parts[0] + sep;
    var rest := JoinWith(sep, parts[1..]);
    var o := JoinOffset(sep, parts[1..], k - 1);
    assert JoinWith(sep, parts) == head + rest;
    JoinOffsetShift(sep, parts, k);
    SliceRight(head, rest, o, o + |parts[k]|);
  }

  /** The parts are separated by `sep`: right after part `k` (not the last) comes `sep`,
      and then part `k + 1` starts. */
  lemma {:induction false} JoinWithSeparator(sep: string, parts: seq<string>, k: nat)
    requires k + 1 < |parts|
    ensures JoinOffset(sep, parts, k + 1) <= |JoinWith(sep, parts)|
    ensures JoinWith(sep, parts)[JoinOffset(sep, parts, k) + |parts[k]|..JoinOffset(sep, parts, k + 1)] == sep
  {
    if k == 0 {
      JoinWithFirstSeparator(sep, parts);
    } else {
      JoinWithSeparator(sep, parts[1..], k - 1);
      JoinWithSeparatorLater(sep, parts, k);
    }
  }

  /** The first separator follows the first part. */
  lemma JoinWithFirstSeparator(sep: string, parts: seq<string>)
    requires |parts| > 1
    ensures JoinOffset(sep, parts, 1) <= |JoinWith(sep, parts)|
    ensures JoinWith(sep, parts)[|parts[0]|..JoinOffset(sep, parts, 1)] == sep
  {
    var head := parts[0] + sep;
    assert JoinWith(sep, parts) == head + JoinWith(sep, parts[1..]);
    assert JoinOffset(sep, parts, 1) == |head|;
    SliceLeft(head, JoinWith(sep, parts[1..]), |parts[0]|, |head|);
    assert head[|parts[0]|..] == sep;
  }

  /** The separator after part `k > 0` is where it is in the join of the later parts,
      shifted by the first part and one separator. */
  lemma JoinWithSeparatorLater(sep: string, parts: seq<string>, k: nat)
    requires 0 < k && k + 1 < |parts|
    requires JoinOffset(sep, parts[1..], k) <= |JoinWith(sep, parts[1..])|
    requires JoinWith(sep, parts[1..])[JoinOffset(sep, parts[1..], k - 1) + |parts[k]|..JoinOffset(sep, parts[1..], k)]
      == sep
    ensures JoinOffset(sep, parts, k + 1) <= |JoinWith(sep, parts)|
    ensures JoinWith(sep, parts)[JoinOffset(sep, parts, k) + |parts[k]|..JoinOffset(sep, parts, k + 1)] == sep
  {
    var head := parts[0] + sep;
    assert JoinWith(sep, parts) == head + JoinWith(sep, parts[1..]);
    JoinOffsetShift(sep, parts, k);
    JoinOffsetShift(sep, parts, k + 1);
    SliceRight(head, JoinWith(sep, parts[1..]),
      JoinOffset(sep, parts[1..], k - 1) + |parts[k]|, JoinOffset(sep, parts[1..], k));
  }

  /** A slice of `a + b` that lies inside `b`. */
  lemma SliceRight(a: string, b: string, i: nat, j: nat)
    requires i <= j <= |b|
    ensures (a + b)[|a| + i..|a| + j] == b[i..j]
  {
  }

  /** A slice of `a + b` that lies inside `a`. */
  lemma SliceLeft(a: string, b: string, i: nat, j: nat)
    requires i <= j <= |a|
    ensures (a + b)[i..j] == a[i..j]
  {
  }

  lemma {:induction false} JoinOffsetShift(sep: string, parts: seq<string>, k: nat)
    requires 1 <= k <= |parts|
    ensures JoinOffset(sep, parts, k) == |parts[0]| + |sep| + JoinOffset(sep, parts[1..], k - 1)
  {
    if k > 1 {
      JoinOffsetShift(sep, parts, k - 1);
    }
  }
}
