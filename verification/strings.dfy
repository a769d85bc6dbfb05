/**
 * The string built-ins of JavaScript that the panel code relies on, written out
 * over `seq<char>`: `trim`, ASCII case folding, `startsWith`, `endsWith`,
 * `includes`, `indexOf`, `substring`, the two `replace` calls of the verdict
 * parser, decimal printing and parsing, and the `[...new Set(xs)]` idiom.
 */
module Strings {

  /** JavaScript's WhiteSpace and LineTerminator code points: what `trim` removes and `\s` matches. */
  predicate IsSpace(c: char) {
    || c == ' ' || c == '\t' || c == '\n' || c == '\r' || c == '\U{B}' || c == '\U{C}'
    || c == '\U{A0}' || c == '\U{1680}' || ('\U{2000}' <= c <= '\U{200A}')
    || c == '\U{2028}' || c == '\U{2029}' || c == '\U{202F}' || c == '\U{205F}'
    || c == '\U{3000}' || c == '\U{FEFF}'
  }

  /** The code points at which `.` stops and a multiline `$` matches. */
  predicate IsLineTerminator(c: char) {
    c == '\n' || c == '\r' || c == '\U{2028}' || c == '\U{2029}'
  }

  predicate IsDigit(c: char) {
    '0' <= c <= '9'
  }

  predicate AllSpace(s: string) {
    forall i :: 0 <= i < |s| ==> IsSpace(s[i])
  }

  function TrimStart(s: string): (r: string)
    ensures |r| <= |s| && r == s[|s| - |r|..]
    ensures r == [] || !IsSpace(r[0])
    ensures AllSpace(s[..|s| - |r|])
  {
    if s != [] && IsSpace(s[0]) then TrimStart(s[1..]) else s
  }

  function TrimEnd(s: string): (r: string)
    ensures |r| <= |s| && r == s[..|r|]
    ensures r == [] || !IsSpace(r[|r| - 1])
    ensures AllSpace(s[|r|..])
  {
    if s != [] && IsSpace(s[|s| - 1]) then TrimEnd(s[..|s| - 1]) else s
  }

  /** `String.prototype.trim`: the text between the leading and the trailing white space. */
  function Trim(s: string): (r: string)
    ensures r == [] || (!IsSpace(r[0]) && !IsSpace(r[|r| - 1]))
    ensures r == [] <==> AllSpace(s)
    ensures |r| <= |s|
  {
    TrimEnd(TrimStart(s))
  }

  /** The trimmed text is a slice of the original with only white space outside it. */
  lemma TrimIsSlice(s: string)
    ensures exists i :: 0 <= i <= |s| - |Trim(s)| && TrimmedAt(s, Trim(s), i)
  {
    var t := TrimStart(s);
    var r := TrimEnd(t);
    assert Trim(s) == r;
    TrimmedAtStart(s, t, r);
    assert TrimmedAt(s, Trim(s), |s| - |t|);
  }

  /** `r` is the slice of `s` at `i`, and only white space lies outside it. */
  predicate TrimmedAt(s: string, r: string, i: nat) {
    i + |r| <= |s| && r == s[i..i + |r|] && AllSpace(s[..i]) && AllSpace(s[i + |r|..])
  }

  lemma TrimmedAtStart(s: string, t: string, r: string)
    requires |t| <= |s| && t == s[|s| - |t|..] && AllSpace(s[..|s| - |t|])
    requires |r| <= |t| && r == t[..|r|] && AllSpace(t[|r|..])
    ensures TrimmedAt(s, r, |s| - |t|)
  {
    var i := |s| - |t|;
    assert s[i + |r|..] == t[|r|..];
  }

  function LowerChar(c: char): char {
    if 'A' <= c <= 'Z' then (c as int + 32) as char else c
  }

  /** `toLowerCase` restricted to ASCII letters, which is all the callers compare against. */
  function ToLower(s: string): (r: string)
    ensures |r| == |s|
    ensures forall i :: 0 <= i < |s| ==> r[i] == LowerChar(s[i])
  {
    if s == [] then [] else [LowerChar(s[0])] + ToLower(s[1..])
  }

  predicate StartsWith(s: string, prefix: string) {
    |prefix| <= |s| && s[..|prefix|] == prefix
  }

  predicate EndsWith(s: string, suffix: string) {
    |suffix| <= |s| && s[|s| - |suffix|..] == suffix
  }

  /** `pattern` occurs in `s` at index `i`. */
  predicate OccursAt(s: string, pattern: string, i: nat) {
    i <= |s| && StartsWith(s[i..], pattern)
  }

  /** `String.prototype.indexOf`: the first index at which `pattern` occurs, or -1. */
  function IndexOf(s: string, pattern: string): (r: int)
    ensures -1 <= r <= |s|
    ensures r >= 0 ==> OccursAt(s, pattern, r)
    ensures r >= 0 ==> forall j :: 0 <= j < r ==> !OccursAt(s, pattern, j)
    ensures r == -1 ==> forall j :: 0 <= j <= |s| ==> !OccursAt(s, pattern, j)
    decreases |s|
  {
    if StartsWith(s, pattern) then 0
    else if s == [] then -1
    else
      var k := IndexOf(s[1..], pattern);
      assert forall j :: 0 < j <= |s| ==> OccursAt(s, pattern, j) == OccursAt(s[1..], pattern, j - 1) by {
        forall j | 0 < j <= |s| ensures OccursAt(s, pattern, j) == OccursAt(s[1..], pattern, j - 1) {
          assert s[j..] == s[1..][j - 1..];
        }
      }
      if k < 0 then -1 else k + 1
  }

  /** `String.prototype.includes`. */
  predicate Contains(s: string, pattern: string) {
    IndexOf(s, pattern) >= 0
  }

  lemma ContainsAt(s: string, pattern: string, i: nat)
    requires OccursAt(s, pattern, i)
    ensures Contains(s, pattern)
  {
  }

  lemma StartsWithAppended(a: string, b: string)
    ensures StartsWith(a + b, a)
  {
    assert (a + b)[..|a|] == a;
  }

  lemma EndsWithAppended(a: string, b: string)
    ensures EndsWith(a + b, b)
  {
    assert (a + b)[|a + b| - |b|..] == b;
  }

  /** `pattern` does not occur where the text differs from its first character. */
  lemma NotOccursAt(s: string, pattern: string, i: nat)
    requires pattern != [] && i < |s| && s[i] != pattern[0]
    ensures !OccursAt(s, pattern, i)
  {
    assert i + |pattern| <= |s| ==> s[i..][..|pattern|][0] == s[i];
  }

  /** A text that lacks one of the characters of `pattern` cannot contain it. */
  lemma NotContainsMissingChar(s: string, pattern: string, c: char)
    requires c in pattern && c !in s
    ensures !Contains(s, pattern)
  {
  }

  /** `String.prototype.substring`: both ends clamped to the text, swapped when reversed. */
  function Substring(s: string, start: int, end: int): (r: string)
    ensures |r| <= |s|
    ensures 0 <= start <= end <= |s| ==> r == s[start..end]
    ensures 0 <= end <= start <= |s| ==> r == s[end..start]
    ensures start <= 0 && 0 <= end <= |s| ==> r == s[..end]
    ensures 0 <= start <= |s| <= end ==> r == s[start..]
  {
    var a := if start < 0 then 0 else if start > |s| then |s| else start;
    var b := if end < 0 then 0 else if end > |s| then |s| else end;
    if a <= b then s[a..b] else s[b..a]
  }

  /** `replace(/c+/g, '')` for one character `c`: every occurrence removed, the rest in order. */
  function RemoveChar(s: string, c: char): (r: string)
    ensures c !in r
    ensures |r| <= |s|
    ensures forall x :: x != c ==> multiset(r)[x] == multiset(s)[x]
  {
    if s == [] then []
    else
      assert s == [s[0]] + s[1..];
      if s[0] == c then RemoveChar(s[1..], c) else [s[0]] + RemoveChar(s[1..], c)
  }

  /** Removal works piece by piece: what is kept of a joined text is what is kept of each part, in order. */
  lemma {:induction false} RemoveCharAppend(a: string, b: string, c: char)
    ensures RemoveChar(a + b, c) == RemoveChar(a, c) + RemoveChar(b, c)
  {
    if a == [] {
      assert a + b == b;
    } else {
      assert (a + b)[0] == a[0] && (a + b)[1..] == a[1..] + b;
      RemoveCharAppend(a[1..], b, c);
    }
  }

  /** A single character is dropped when it is `c` and kept otherwise. */
  lemma RemoveCharOne(x: char, c: char)
    ensures RemoveChar([x], c) == if x == c then [] else [x]
  {
    assert [x][1..] == [];
  }

  /** Removing a character the text does not hold leaves the text as it is. */
  lemma {:induction false} RemoveCharAbsent(s: string, c: char)
    requires c !in s
    ensures RemoveChar(s, c) == s
  {
    if s != [] {
      assert s[0] != c;
      assert c !in s[1..];
      RemoveCharAbsent(s[1..], c);
    }
  }

  /** A text with no white space at either end is its own trim. */
  lemma TrimUntrimmed(s: string)
    requires s != [] && !IsSpace(s[0]) && !IsSpace(s[|s| - 1])
    ensures Trim(s) == s
  {
  }

  /** The text after the run of newlines at its front. */
  function DropNewlines(s: string): (r: string)
    ensures |r| <= |s| && (r == [] || r[0] != '\n')
    ensures r == s[|s| - |r|..] && forall i :: 0 <= i < |s| - |r| ==> s[i] == '\n'
  {
    if s != [] && s[0] == '\n' then DropNewlines(s[1..]) else s
  }

  /** `replace(/\n+/g, ' ')`: each run of newlines becomes one space. */
  function CollapseNewlines(s: string): (r: string)
    ensures '\n' !in r
    ensures |r| <= |s|
    ensures '\n' !in s ==> r == s
    decreases |s|
  {
    if s == [] then []
    else if s[0] == '\n' then [' '] + CollapseNewlines(DropNewlines(s))
    else
      assert '\n' !in s ==> '\n' !in s[1..];
      [s[0]] + CollapseNewlines(s[1..])
  }

  /** `k` line feeds. */
  function Newlines(k: nat): (r: string)
    ensures |r| == k && forall i :: 0 <= i < k ==> r[i] == '\n'
  {
    if k == 0 then [] else "\n" + Newlines(k - 1)
  }

  /** A text that ends in something other than a line feed keeps its tail when the front run is dropped. */
  lemma {:induction false} DropNewlinesAppend(a: string, b: string)
    requires a != [] && a[|a| - 1] != '\n'
    ensures DropNewlines(a + b) == DropNewlines(a) + b
  {
    if a[0] == '\n' {
      assert (a + b)[1..] == a[1..] + b;
      DropNewlinesAppend(a[1..], b);
    }
  }

  /** A run of line feeds in front of text that does not start with one is dropped whole. */
  lemma {:induction false} DropNewlinesRun(k: nat, b: string)
    requires b == [] || b[0] != '\n'
    ensures DropNewlines(Newlines(k) + b) == b
  {
    if k > 0 {
      NewlinesFront(k, b);
      DropNewlinesRun(k - 1, b);
    } else {
      assert Newlines(k) + b == b;
    }
  }

  /** A run of line feeds before `b` starts with one, followed by the shorter run before `b`. */
  lemma NewlinesFront(k: nat, b: string)
    requires k > 0
    ensures var s := Newlines(k) + b; s != [] && s[0] == '\n' && s[1..] == Newlines(k - 1) + b
    ensures DropNewlines(Newlines(k) + b) == DropNewlines(Newlines(k - 1) + b)
  {
    assert (Newlines(k) + b)[1..] == Newlines(k - 1) + b;
  }

  /** No run of line feeds spans the join when the first part does not end in one. */
  lemma {:induction false} CollapseNewlinesAppend(a: string, b: string)
    requires a == [] || a[|a| - 1] != '\n'
    ensures CollapseNewlines(a + b) == CollapseNewlines(a) + CollapseNewlines(b)
    decreases |a|, 1
  {
    if a == [] {
      assert a + b == b;
    } else if a[0] == '\n' {
      CollapseAppendAtBreak(a, b);
    } else {
      CollapseAppendAtChar(a, b);
    }
  }

  lemma {:induction false} CollapseAppendAtBreak(a: string, b: string)
    requires a != [] && a[0] == '\n' && a[|a| - 1] != '\n'
    ensures CollapseNewlines(a + b) == CollapseNewlines(a) + CollapseNewlines(b)
    decreases |a|, 0
  {
    var d := DropNewlines(a);
    DropNewlinesShorter(a);
    DropNewlinesAppend(a, b);
    CollapseAtBreak(a + b);
    CollapseAtBreak(a);
    CollapseNewlinesAppend(d, b);
    JoinAround(" ", CollapseNewlines(d), CollapseNewlines(b));
  }

  /** A leading run of line feeds becomes one space. */
  lemma CollapseAtBreak(s: string)
    requires s != [] && s[0] == '\n'
    ensures CollapseNewlines(s) == " " + CollapseNewlines(DropNewlines(s))
  {
  }

  /** Dropping a leading line feed shortens the text and keeps its last character. */
  lemma DropNewlinesShorter(a: string)
    requires a != [] && a[0] == '\n' && a[|a| - 1] != '\n'
    ensures var d := DropNewlines(a); |d| < |a| && d != [] && d[|d| - 1] == a[|a| - 1]
  {
    var d := DropNewlines(a);
    assert d == DropNewlines(a[1..]);
    assert d == a[|a| - |d|..];
  }

  lemma {:induction false} CollapseAppendAtChar(a: string, b: string)
    requires a != [] && a[0] != '\n' && a[|a| - 1] != '\n'
    ensures CollapseNewlines(a + b) == CollapseNewlines(a) + CollapseNewlines(b)
    decreases |a|, 0
  {
    assert (a + b)[0] == a[0] && (a + b)[1..] == a[1..] + b;
    CollapseNewlinesAppend(a[1..], b);
  }

  /** A whole run of line feeds between two other characters becomes exactly one space. */
  lemma CollapseNewlinesRun(a: string, k: nat, b: string)
    requires k >= 1
    requires a == [] || a[|a| - 1] != '\n'
    requires b == [] || b[0] != '\n'
    ensures CollapseNewlines(a + Newlines(k) + b) == CollapseNewlines(a) + " " + CollapseNewlines(b)
  {
    var tail := Newlines(k) + b;
    JoinAround(a, Newlines(k), b);
    CollapseNewlinesAppend(a, tail);
    CollapseRunFront(k, b);
    JoinAround(CollapseNewlines(a), " ", CollapseNewlines(b));
  }

  lemma JoinAround(x: string, y: string, z: string)
    ensures x + (y + z) == x + y + z
  {
  }

  /** A run of line feeds in front of `b` collapses to one space before what `b` collapses to. */
  lemma CollapseRunFront(k: nat, b: string)
    requires k >= 1
    requires b == [] || b[0] != '\n'
    ensures CollapseNewlines(Newlines(k) + b) == " " + CollapseNewlines(b)
  {
    NewlinesFront(k, b);
    DropNewlinesRun(k, b);
  }

  function DigitChar(d: nat): char
    requires d < 10
  {
    ['0', '1', '2', '3', '4', '5', '6', '7', '8', '9'][d]
  }

  /** A number as template literals print it: decimal digits, no leading zero. */
  function ShowNat(n: nat): (r: string)
    ensures r != [] && forall i :: 0 <= i < |r| ==> IsDigit(r[i])
    ensures |r| > 1 ==> r[0] != '0'
  {
    if n < 10 then [DigitChar(n)] else ShowNat(n / 10) + [DigitChar(n % 10)]
  }

  /** The value of a run of decimal digits, as `parseInt` computes it. */
  function DigitsValue(ds: string): (v: nat)
    requires forall i :: 0 <= i < |ds| ==> IsDigit(ds[i])
  {
    if ds == [] then 0
    else
      assert IsDigit(ds[|ds| - 1]);
      DigitsValue(ds[..|ds| - 1]) * 10 + (ds[|ds| - 1] as int - '0' as int)
  }

  /** Printing a number and parsing the digits back gives the number. */
  lemma {:induction false} DigitsValueShowNat(n: nat)
    ensures DigitsValue(ShowNat(n)) == n
  {
    if n >= 10 {
      var s := ShowNat(n);
      assert s[..|s| - 1] == ShowNat(n / 10);
      DigitsValueShowNat(n / 10);
    }
  }

  /** `[...new Set(xs)]`: the distinct elements of `xs`, each at its first occurrence. */
  function Dedup(xs: seq<string>): (r: seq<string>)
    ensures forall i, j :: 0 <= i < j < |r| ==> r[i] != r[j]
    ensures forall x :: x in r <==> x in xs
    ensures |r| <= |xs|
  {
    if xs == [] then []
    else
      var init := Dedup(xs[..|xs| - 1]);
      assert forall x :: x in xs <==> x in xs[..|xs| - 1] || x == xs[|xs| - 1];
      if xs[|xs| - 1] in init then init else init + [xs[|xs| - 1]]
  }

  /** The index of the first occurrence of `x` in `xs`. */
  function FirstIndex(xs: seq<string>, x: string): (k: nat)
    requires x in xs
    ensures k < |xs| && xs[k] == x && x !in xs[..k]
  {
    if xs[0] == x then 0 else 1 + FirstIndex(xs[1..], x)
  }

  lemma FirstIndexOfPrefix(xs: seq<string>, n: nat, x: string)
    requires n <= |xs| && x in xs[..n]
    ensures FirstIndex(xs, x) == FirstIndex(xs[..n], x)
  {
    var k := FirstIndex(xs[..n], x);
    assert xs[..k] == xs[..n][..k];
    var k' := FirstIndex(xs, x);
    assert xs[..n][..k'] == xs[..k'];
  }

  /** `Dedup` keeps the distinct elements in the order of their first occurrences. */
  lemma {:induction false} DedupKeepsFirstOccurrenceOrder(xs: seq<string>)
    ensures forall i, j :: 0 <= i < j < |Dedup(xs)| ==>
      FirstIndex(xs, Dedup(xs)[i]) < FirstIndex(xs, Dedup(xs)[j])
  {
    if xs != [] {
      var n := |xs| - 1;
      var pre := xs[..n];
      var init := Dedup(pre);
      DedupKeepsFirstOccurrenceOrder(pre);
      forall y | y in init ensures FirstIndex(xs, y) == FirstIndex(pre, y) {
        FirstIndexOfPrefix(xs, n, y);
      }
      if xs[n] !in init {
        assert xs[n] !in pre;
        assert FirstIndex(xs, xs[n]) == n;
        var r := Dedup(xs);
        assert r == init + [xs[n]];
        forall i, j | 0 <= i < j < |r| ensures FirstIndex(xs, r[i]) < FirstIndex(xs, r[j]) {
          if j < |init| {
            assert r[i] == init[i] && r[j] == init[j];
          } else {
            assert r[i] == init[i];
            assert r[i] in init;
          }
        }
      }
    }
  }
}
