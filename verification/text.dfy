/** String operations the engine relies on from Rust's standard library:
    prefix and substring tests, `trim`, `lines`, `trim_start_matches`, byte
    order on names and `str::parse` for `u8` and `bool`. Strings are
    sequences of Unicode scalar values, so code-point order on them is the
    byte order of their UTF-8 encodings. */
module Text {
  import opened Base

  /** Rust's `char::is_whitespace`: the Unicode White_Space property. */
  predicate IsWhitespace(c: char) {
    ('\t' <= c <= '\r') || c == ' ' || c == '\U{0085}' || c == '\U{00A0}'
    || c == '\U{1680}' || ('\U{2000}' <= c <= '\U{200A}') || c == '\U{2028}'
    || c == '\U{2029}' || c == '\U{202F}' || c == '\U{205F}' || c == '\U{3000}'
  }

  predicate IsAsciiDigit(c: char) {
    '0' <= c <= '9'
  }

  predicate StartsWith(s: string, prefix: string) {
    |prefix| <= |s| && s[..|prefix|] == prefix
  }

  /** `needle` occurs in `s` starting at index `i`. */
  predicate OccursAt(s: string, needle: string, i: int) {
    0 <= i && i + |needle| <= |s| && s[i..i + |needle|] == needle
  }

  /** Rust's `str::contains` with a string pattern. */
  predicate Contains(s: string, needle: string) {
    exists i :: 0 <= i <= |s| && OccursAt(s, needle, i)
  }

  lemma PrefixOccurs(s: string, prefix: string)
    requires StartsWith(s, prefix)
    ensures Contains(s, prefix)
  {
    assert OccursAt(s, prefix, 0);
  }

  /** A prefix fixes the characters it covers. */
  lemma StartsWithAt(s: string, prefix: string, i: nat)
    requires StartsWith(s, prefix) && i < |prefix|
    ensures s[i] == prefix[i]
  {
    assert s[..|prefix|][i] == s[i];
  }

  // ---------------------------------------------------------------------
  // trim

  /** `str::trim_start`: drops the leading whitespace run. */
  function TrimStart(s: string): (r: string)
    ensures |r| <= |s| && r == s[|s| - |r|..]
    ensures forall i :: 0 <= i < |s| - |r| ==> IsWhitespace(s[i])
    ensures r == [] || !IsWhitespace(r[0])
  {
    if s != [] && IsWhitespace(s[0]) then TrimStart(s[1..]) else s
  }

  /** `str::trim_end`: drops the trailing whitespace run. */
  function TrimEnd(s: string): (r: string)
    ensures |r| <= |s| && r == s[..|r|]
    ensures forall i :: |r| <= i < |s| ==> IsWhitespace(s[i])
    ensures r == [] || !IsWhitespace(r[|r| - 1])
  {
    if s != [] && IsWhitespace(s[|s| - 1]) then TrimEnd(s[..|s| - 1]) else s
  }

  /** `str::trim`: the longest infix of `s` that neither starts nor ends
      with whitespace, obtained by removing only whitespace. */
  function Trim(s: string): (r: string)
    ensures |r| <= |s|
    ensures r == [] || (!IsWhitespace(r[0]) && !IsWhitespace(r[|r| - 1]))
    ensures exists k :: 0 <= k <= |s| && OccursAt(s, r, k)
                        && (forall i :: 0 <= i < k ==> IsWhitespace(s[i]))
                        && (forall i :: k + |r| <= i < |s| ==> IsWhitespace(s[i]))
  {
    var t := TrimStart(s);
    var r := TrimEnd(t);
    TrimWitness(s, t, r);
    r
  }

  lemma TrimWitness(s: string, t: string, r: string)
    requires |t| <= |s| && t == s[|s| - |t|..]
    requires forall i :: 0 <= i < |s| - |t| ==> IsWhitespace(s[i])
    requires |r| <= |t| && r == t[..|r|]
    requires forall i :: |r| <= i < |t| ==> IsWhitespace(t[i])
    ensures exists k :: 0 <= k <= |s| && OccursAt(s, r, k)
                        && (forall i :: 0 <= i < k ==> IsWhitespace(s[i]))
                        && (forall i :: k + |r| <= i < |s| ==> IsWhitespace(s[i]))
  {
    var k := |s| - |t|;
    assert s[k..k + |r|] == r;
    forall i | k + |r| <= i < |s| ensures IsWhitespace(s[i]) {
      assert s[i] == t[i - k];
    }
    assert OccursAt(s, r, k);
  }

  /** A string without leading or trailing whitespace is its own trim. */
  lemma TrimOfTrimmed(s: string)
    requires s == [] || (!IsWhitespace(s[0]) && !IsWhitespace(s[|s| - 1]))
    ensures Trim(s) == s
  {
  }

  /** `k` copies of `pat`, one after another. */
  function Repeat(pat: string, k: nat): string {
    if k == 0 then [] else pat + Repeat(pat, k - 1)
  }

  lemma RepeatUnfold(pat: string, k: nat, r: string)
    requires k > 0
    ensures Repeat(pat, k) + r == pat + (Repeat(pat, k - 1) + r)
  {
  }

  lemma RepeatStep(pat: string, k: nat, r: string)
    ensures Repeat(pat, k + 1) + r == pat + (Repeat(pat, k) + r)
  {
  }

  /** `str::trim_start_matches(pat)` for a non-empty literal pattern:
      removes whole copies of `pat` from the front for as long as the rest
      still starts with one. */
  function TrimStartMatches(s: string, pat: string): (r: string)
    requires pat != []
    ensures |r| <= |s| && r == s[|s| - |r|..]
    ensures exists k: nat :: s == Repeat(pat, k) + r
    ensures !StartsWith(r, pat)
    decreases |s|
  {
    if StartsWith(s, pat) then
      var r := TrimStartMatches(s[|pat|..], pat);
      var k: nat :| s[|pat|..] == Repeat(pat, k) + r;
      RepeatStep(pat, k, r);
      assert s == pat + s[|pat|..];
      r
    else
      assert s == Repeat(pat, 0) + s;
      s
  }

  /** The result is unique: only one split of `s` into copies of `pat`
      and a rest that does not start with `pat` exists. */
  lemma {:induction false} TrimStartMatchesUnique(s: string, pat: string, k: nat, rest: string)
    requires pat != []
    requires s == Repeat(pat, k) + rest && !StartsWith(rest, pat)
    ensures TrimStartMatches(s, pat) == rest
    decreases k
  {
    if k > 0 {
      var t := Repeat(pat, k - 1) + rest;
      assert s == pat + t by { RepeatUnfold(pat, k, rest); }
      PrefixParts(pat, t);
      TrimStartMatchesUnique(t, pat, k - 1, rest);
    } else {
      assert s == rest;
    }
  }

  /** `pat + t` starts with `pat`, and `t` is what follows it. */
  lemma PrefixParts(pat: string, t: string)
    ensures StartsWith(pat + t, pat) && (pat + t)[|pat|..] == t
  {
    assert (pat + t)[..|pat|] == pat;
  }

  // ---------------------------------------------------------------------
  // lines

  /** Index of the first `c` in `s`, or `|s|` when `c` does not occur. */
  function IndexOf(s: string, c: char): (k: nat)
    ensures k <= |s|
    ensures forall j :: 0 <= j < k ==> s[j] != c
    ensures k < |s| ==> s[k] == c
  {
    if s == [] then 0 else if s[0] == c then 0 else 1 + IndexOf(s[1..], c)
  }

  function StripCarriageReturn(line: string): string {
    if line != [] && line[|line| - 1] == '\r' then line[..|line| - 1] else line
  }

  /** Rust's `str::lines`: splits at `\n`, drops one `\r` that precedes a
      `\n`, and yields no empty line after a final `\n`. */
  function Lines(s: string): (r: seq<string>)
    ensures forall i :: 0 <= i < |r| ==> '\n' !in r[i]
    ensures |r| <= |s|
    ensures s != [] ==> r != []
    decreases |s|
  {
    if s == [] then []
    else
      var k := IndexOf(s, '\n');
      if k == |s| then [s]
      else
        assert '\n' !in s[..k] by {
          forall j | 0 <= j < k ensures s[..k][j] != '\n' { }
        }
        [StripCarriageReturn(s[..k])] + Lines(s[k + 1..])
  }

  /** Each line followed by `\n`: the inverse of `Lines`. */
  function Unlines(ls: seq<string>): (s: string)
    ensures |s| >= |ls|
  {
    if ls == [] then [] else ls[0] + "\n" + Unlines(ls[1..])
  }

  /** Each line followed by `\r\n`, as text written with Windows line
      endings. */
  function UnlinesCrlf(ls: seq<string>): (s: string)
    ensures |s| >= 2 * |ls|
  {
    if ls == [] then [] else ls[0] + "\r\n" + UnlinesCrlf(ls[1..])
  }

  /** A line that `Lines` can produce unchanged. */
  predicate PlainLine(line: string) {
    '\n' !in line && (line == [] || line[|line| - 1] != '\r')
  }

  lemma {:induction false} IndexOfAfter(a: string, c: char, b: string)
    requires c !in a
    ensures IndexOf(a + [c] + b, c) == |a|
  {
    if a != [] {
      assert (a + [c] + b)[1..] == a[1..] + [c] + b;
      IndexOfAfter(a[1..], c, b);
    }
  }

  /** Splitting text that was joined from plain lines gives the lines back. */
  lemma {:induction false} LinesOfUnlines(ls: seq<string>)
    requires forall i :: 0 <= i < |ls| ==> PlainLine(ls[i])
    ensures Lines(Unlines(ls)) == ls
  {
    if ls != [] {
      var s := Unlines(ls);
      var rest := Unlines(ls[1..]);
      assert s == ls[0] + ['\n'] + rest;
      assert PlainLine(ls[0]);
      IndexOfAfter(ls[0], '\n', rest);
      assert s[..|ls[0]|] == ls[0];
      assert s[|ls[0]| + 1..] == rest;
      LinesOfUnlines(ls[1..]);
    }
  }

  /** A last line without a final newline is kept as it is, including a
      carriage return it ends with. */
  lemma {:induction false} LinesOfUnlinesThenLast(ls: seq<string>, last: string)
    requires forall i :: 0 <= i < |ls| ==> PlainLine(ls[i])
    requires last != [] && '\n' !in last
    ensures Lines(Unlines(ls) + last) == ls + [last]
  {
    if ls == [] {
      assert Unlines(ls) + last == last;
      LinesOfSingle(last);
    } else {
      var rest := Unlines(ls[1..]) + last;
      UnlinesUnfold(ls, last);
      LinesOfCons(ls[0], rest);
      LinesOfUnlinesThenLast(ls[1..], last);
      ConsSnoc(ls, last);
    }
  }

  lemma UnlinesUnfold(ls: seq<string>, last: string)
    requires ls != []
    ensures Unlines(ls) + last == ls[0] + ['\n'] + (Unlines(ls[1..]) + last)
  {
  }

  lemma ConsSnoc<T>(xs: seq<T>, x: T)
    requires xs != []
    ensures [xs[0]] + (xs[1..] + [x]) == xs + [x]
  {
    assert xs == [xs[0]] + xs[1..];
  }

  /** Text without a newline is one line. */
  lemma LinesOfSingle(last: string)
    requires last != [] && '\n' !in last
    ensures Lines(last) == [last]
  {
    assert IndexOf(last, '\n') == |last|;
  }

  /** A plain line followed by a newline is split off the front. */
  lemma LinesOfCons(line: string, rest: string)
    requires PlainLine(line)
    ensures Lines(line + ['\n'] + rest) == [line] + Lines(rest)
  {
    var s := line + ['\n'] + rest;
    IndexOfAfter(line, '\n', rest);
    assert s[..|line|] == line;
    assert s[|line| + 1..] == rest;
  }

  /** Text with `\r\n` line endings splits into its lines with the
      endings removed; only the one carriage return before each newline
      goes, so a line may itself end in `\r`. */
  lemma {:induction false} LinesOfUnlinesCrlf(ls: seq<string>)
    requires forall i :: 0 <= i < |ls| ==> '\n' !in ls[i]
    ensures Lines(UnlinesCrlf(ls)) == ls
  {
    if ls != [] {
      var s := UnlinesCrlf(ls);
      var rest := UnlinesCrlf(ls[1..]);
      var withCr := ls[0] + ['\r'];
      assert s == withCr + ['\n'] + rest;
      assert '\n' !in withCr by {
        assert '\n' !in ls[0];
        forall j | 0 <= j < |withCr| ensures withCr[j] != '\n' {
          if j < |ls[0]| { assert withCr[j] == ls[0][j]; }
        }
      }
      IndexOfAfter(withCr, '\n', rest);
      assert s[..|withCr|] == withCr;
      assert StripCarriageReturn(withCr) == ls[0] by {
        assert withCr[..|withCr| - 1] == ls[0];
      }
      assert s[|withCr| + 1..] == rest;
      LinesOfUnlinesCrlf(ls[1..]);
    }
  }

  // ---------------------------------------------------------------------
  // byte order on names and sorting

  /** `a` sorts at or before `b`: lexicographic order on code points,
      which for UTF-8 names is the byte order `OsStr` compares by. */
  predicate LexLe(a: string, b: string)
    decreases |a|
  {
    a == [] || (b != [] && (a[0] < b[0] || (a[0] == b[0] && LexLe(a[1..], b[1..]))))
  }

  lemma LexLeReflexive(a: string)
    ensures LexLe(a, a)
    decreases |a|
  {
    if a != [] {
      LexLeReflexive(a[1..]);
    }
  }

  lemma LexLeTotal(a: string, b: string)
    ensures LexLe(a, b) || LexLe(b, a)
    decreases |a|
  {
    if a != [] && b != [] && a[0] == b[0] {
      LexLeTotal(a[1..], b[1..]);
    }
  }

  lemma LexLeTransitive(a: string, b: string, c: string)
    requires LexLe(a, b) && LexLe(b, c)
    ensures LexLe(a, c)
    decreases |a|
  {
    if a != [] && b != [] && c != [] && a[0] == b[0] == c[0] {
      LexLeTransitive(a[1..], b[1..], c[1..]);
    }
  }

  lemma LexLeAntisymmetric(a: string, b: string)
    requires LexLe(a, b) && LexLe(b, a)
    ensures a == b
    decreases |a|
  {
    if a != [] && b != [] {
      LexLeAntisymmetric(a[1..], b[1..]);
      assert a == [a[0]] + a[1..];
      assert b == [b[0]] + b[1..];
    }
  }

  predicate Sorted(xs: seq<string>) {
    forall i, j :: 0 <= i < j < |xs| ==> LexLe(xs[i], xs[j])
  }

  /** A lower bound of a sorted sequence can go in front of it. */
  lemma SortedCons(x: string, xs: seq<string>)
    requires Sorted(xs)
    requires forall k :: 0 <= k < |xs| ==> LexLe(x, xs[k])
    ensures Sorted([x] + xs)
  {
    forall i, j | 0 <= i < j < |[x] + xs| ensures LexLe(([x] + xs)[i], ([x] + xs)[j]) {
      if i > 0 { assert ([x] + xs)[i] == xs[i - 1]; }
      assert ([x] + xs)[j] == xs[j - 1];
    }
  }

  /** Every element of `ys` drawn from `xs` plus `x` is above a lower bound
      of both. */
  lemma LowerBoundOfMultiset(y: string, x: string, xs: seq<string>, ys: seq<string>)
    requires multiset(ys) == multiset(xs) + multiset{x}
    requires LexLe(y, x)
    requires forall k :: 0 <= k < |xs| ==> LexLe(y, xs[k])
    ensures forall k :: 0 <= k < |ys| ==> LexLe(y, ys[k])
  {
    forall k | 0 <= k < |ys| ensures LexLe(y, ys[k]) {
      assert ys[k] in multiset(ys);
      if ys[k] != x {
        assert ys[k] in multiset(xs);
        var j :| 0 <= j < |xs| && xs[j] == ys[k];
      }
    }
  }

  function Insert(x: string, xs: seq<string>): (r: seq<string>)
    requires Sorted(xs)
    ensures Sorted(r)
    ensures |r| == |xs| + 1
    ensures multiset(r) == multiset(xs) + multiset{x}
  {
    if xs == [] then [x]
    else if LexLe(x, xs[0]) then
      assert forall j :: 0 <= j < |xs| ==> LexLe(x, xs[j]) by {
        forall j | 0 <= j < |xs| ensures LexLe(x, xs[j]) {
          if j > 0 { LexLeTransitive(x, xs[0], xs[j]); }
        }
      }
      SortedCons(x, xs);
      [x] + xs
    else
      LexLeTotal(x, xs[0]);
      assert xs == [xs[0]] + xs[1..];
      var tail := Insert(x, xs[1..]);
      LowerBoundOfMultiset(xs[0], x, xs[1..], tail);
      SortedCons(xs[0], tail);
      [xs[0]] + tail
  }

  /** Insertion sort by `LexLe`; the stand-in for `sort_by_key` on names. */
  function Sort(xs: seq<string>): (r: seq<string>)
    ensures Sorted(r)
    ensures |r| == |xs|
    ensures multiset(r) == multiset(xs)
  {
    if xs == [] then []
    else
      assert xs == [xs[0]] + xs[1..];
      Insert(xs[0], Sort(xs[1..]))
  }

  lemma SortMembers(xs: seq<string>, m: string)
    ensures m in xs <==> m in Sort(xs)
  {
    assert m in xs <==> m in multiset(xs);
    assert m in Sort(xs) <==> m in multiset(Sort(xs));
  }

  function Reverse<T>(xs: seq<T>): (r: seq<T>)
    ensures |r| == |xs|
    ensures forall i :: 0 <= i < |xs| ==> r[i] == xs[|xs| - 1 - i]
  {
    if xs == [] then [] else Reverse(xs[1..]) + [xs[0]]
  }

  lemma ReverseMembers<T>(xs: seq<T>, m: T)
    ensures m in xs <==> m in Reverse(xs)
  {
    var r := Reverse(xs);
    if m in xs {
      var j :| 0 <= j < |xs| && xs[j] == m;
      assert r[|xs| - 1 - j] == m;
    }
    if m in r {
      var i :| 0 <= i < |r| && r[i] == m;
      assert xs[|xs| - 1 - i] == m;
    }
  }

  // ---------------------------------------------------------------------
  // str::parse

  function DigitValue(c: char): nat
    requires IsAsciiDigit(c)
  {
    c as nat - '0' as nat
  }

  predicate AllDigits(s: string) {
    forall i :: 0 <= i < |s| ==> IsAsciiDigit(s[i])
  }

  /** Value of a run of decimal digits, most significant first. */
  function DecimalValue(ds: string): nat
    requires AllDigits(ds)
  {
    if ds == [] then 0 else 10 * DecimalValue(ds[..|ds| - 1]) + DigitValue(ds[|ds| - 1])
  }

  /** Decimal rendering of `n` without leading zeros. */
  function ToDecimal(n: nat): (s: string)
    ensures s != [] && AllDigits(s)
    ensures DecimalValue(s) == n
    ensures |s| > 1 ==> s[0] != '0'
  {
    var d := ['0' + (n % 10) as char];
    if n < 10 then d
    else
      var s := ToDecimal(n / 10) + d;
      assert s[..|s| - 1] == ToDecimal(n / 10);
      s
  }

  /** `str::parse::<u8>`: an optional `+`, then one or more ASCII digits
      whose value fits in eight bits (leading zeros allowed); `-` is never
      accepted for an unsigned type. */
  function ParseU8(s: string): (r: Option<U8>)
    ensures r.Some? ==> s != [] && s != "+"
    ensures r.Some? ==> var ds := if s[0] == '+' then s[1..] else s;
                        AllDigits(ds) && DecimalValue(ds) == r.value
    ensures s != [] && s[0] == '-' ==> r.None?
    ensures var ds := if s != [] && s[0] == '+' then s[1..] else s;
            ds != [] && AllDigits(ds) && DecimalValue(ds) < 256 ==> r == Some(DecimalValue(ds))
  {
    if s == [] then None
    else
      var ds := if s[0] == '+' then s[1..] else s;
      if ds == [] || !AllDigits(ds) then None
      else
        var v := DecimalValue(ds);
        if v < 256 then Some(v) else None
  }

  /** Every `u8` printed in decimal, with or without `+`, parses back. */
  lemma ParseU8OfDecimal(n: U8)
    ensures ParseU8(ToDecimal(n)) == Some(n)
    ensures ParseU8("+" + ToDecimal(n)) == Some(n)
  {
    var s := ToDecimal(n);
    assert s[0] != '+';
    assert ("+" + s)[1..] == s;
  }

  /** `str::parse::<bool>`: exactly `true` or `false`. */
  function ParseBool(s: string): (r: Option<bool>)
    ensures r.Some? <==> s == "true" || s == "false"
    ensures r.Some? ==> s == (if r.value then "true" else "false")
  {
    if s == "true" then Some(true) else if s == "false" then Some(false) else None
  }
}
