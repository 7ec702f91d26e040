/**
 * The string operations the tools use: decimal numerals, splitting on a
 * character and joining, prefix and suffix tests, JavaScript's `trim`,
 * `split(/\s+/)` and `substring`.
 */
module Strings {

  import opened Wrappers

  predicate IsDigit(c: char) { '0' <= c <= '9' }

  predicate AllDigits(s: string) { forall i :: 0 <= i < |s| ==> IsDigit(s[i]) }

  /** A canonical decimal numeral: digits only, no leading zero (the rule of SemVer 2.0.0, section 2). */
  predicate IsNumeral(s: string) { |s| > 0 && AllDigits(s) && (s[0] == '0' ==> |s| == 1) }

  function DigitChar(d: nat): (c: char)
    requires d < 10
    ensures IsDigit(c)
  {
    ('0' as int + d) as char
  }

  function DigitValue(c: char): (d: nat)
    requires IsDigit(c)
    ensures d < 10 && DigitChar(d) == c
  {
    c as int - '0' as int
  }

  /** The decimal form of `n`, as JavaScript's template literals print a number. */
  function NatToString(n: nat): (s: string)
    ensures IsNumeral(s)
    ensures s[0] == '0' <==> n == 0
  {
    if n < 10 then [DigitChar(n)] else NatToString(n / 10) + [DigitChar(n % 10)]
  }

  /** The value of a string of digits. */
  function StringToNat(s: string): nat
    requires AllDigits(s)
  {
    if |s| == 0 then 0 else StringToNat(s[..|s| - 1]) * 10 + DigitValue(s[|s| - 1])
  }

  lemma {:induction false} StringToNatOfNatToString(n: nat)
    ensures StringToNat(NatToString(n)) == n
  {
    if n >= 10 {
      var s := NatToString(n);
      assert s[..|s| - 1] == NatToString(n / 10);
      StringToNatOfNatToString(n / 10);
    }
  }

  lemma {:induction false} StringToNatPositive(s: string)
    requires |s| > 0 && AllDigits(s) && s[0] != '0'
    ensures StringToNat(s) >= 1
  {
    if |s| > 1 {
      StringToNatPositive(s[..|s| - 1]);
    }
  }

  lemma {:induction false} NatToStringOfStringToNat(s: string)
    requires IsNumeral(s)
    ensures NatToString(StringToNat(s)) == s
  {
    if |s| > 1 {
      var init := s[..|s| - 1];
      StringToNatPositive(init);
      NatToStringOfStringToNat(init);
      var n := StringToNat(s);
      assert n / 10 == StringToNat(init) && n % 10 == DigitValue(s[|s| - 1]);
      assert s == init + [s[|s| - 1]];
    }
  }

  /** Two numerals are equal exactly when the numbers they denote are. */
  lemma NatToStringInjective(m: nat, n: nat)
    requires NatToString(m) == NatToString(n)
    ensures m == n
  {
    StringToNatOfNatToString(m);
    StringToNatOfNatToString(n);
  }

  predicate StartsWith(s: string, prefix: string) { |prefix| <= |s| && s[..|prefix|] == prefix }

  predicate EndsWith(s: string, suffix: string) { |suffix| <= |s| && s[|s| - |suffix|..] == suffix }

  /** `s.replace(/^\.\//, '')`: one leading './' removed, anything else kept. */
  function DropDotSlash(s: string): (r: string)
    ensures StartsWith(s, "./") ==> "./" + r == s
    ensures !StartsWith(s, "./") ==> r == s
  {
    if StartsWith(s, "./") then s[2..] else s
  }

  /** JavaScript's `s.substring(k)` for a non-negative start: the empty string past the end. */
  function Substring(s: string, k: nat): (r: string)
    ensures k <= |s| ==> r == s[k..]
    ensures k > |s| ==> r == ""
  {
    if k <= |s| then s[k..] else ""
  }

  /** The text before the first `c`, and the text after it when there is one. */
  function SplitOnce(s: string, c: char): (r: (string, Option<string>))
    ensures c !in r.0
    ensures r.1.None? ==> r.0 == s
    ensures r.1.Some? ==> s == r.0 + [c] + r.1.value
  {
    if s == [] then ("", None)
    else if s[0] == c then ("", Some(s[1..]))
    else
      var t := SplitOnce(s[1..], c);
      ([s[0]] + t.0, t.1)
  }

  lemma {:induction false} SplitOnceOfJoined(a: string, c: char, b: string)
    requires c !in a
    ensures SplitOnce(a + [c] + b, c) == (a, Some(b))
  {
    if a != [] {
      assert a[0] != c && c !in a[1..];
      assert (a + [c] + b)[1..] == a[1..] + [c] + b;
      SplitOnceOfJoined(a[1..], c, b);
      assert a == [a[0]] + a[1..];
    } else {
      assert a + [c] + b == [c] + b;
    }
  }

  lemma {:induction false} SplitOnceOfFree(a: string, c: char)
    requires c !in a
    ensures SplitOnce(a, c) == (a, None)
  {
    if a != [] {
      assert a[0] != c && c !in a[1..];
      SplitOnceOfFree(a[1..], c);
    }
  }

  /** JavaScript's `s.split(c)` for a one-character separator: never empty. */
  function Split(s: string, c: char): (parts: seq<string>)
    ensures |parts| > 0
    ensures forall i :: 0 <= i < |parts| ==> c !in parts[i]
    decreases |s|
  {
    if s == [] then [""]
    else if s[0] == c then [""] + Split(s[1..], c)
    else
      var rest := Split(s[1..], c);
      [[s[0]] + rest[0]] + rest[1..]
  }

  /** JavaScript's `parts.join(sep)` for a one-character separator. */
  function Join(parts: seq<string>, c: char): string
    requires |parts| > 0
  {
    if |parts| == 1 then parts[0] else parts[0] + [c] + Join(parts[1..], c)
  }

  lemma {:induction false} SplitOfFree(a: string, c: char)
    requires c !in a
    ensures Split(a, c) == [a]
  {
    if a != [] {
      assert a[0] != c && c !in a[1..];
      SplitOfFree(a[1..], c);
      assert a == [a[0]] + a[1..];
    }
  }

  lemma {:induction false} SplitOfJoined(a: string, c: char, b: string)
    requires c !in a
    ensures Split(a + [c] + b, c) == [a] + Split(b, c)
  {
    if a == [] {
      assert a + [c] + b == [c] + b;
    } else {
      assert a[0] != c && c !in a[1..];
      assert (a + [c] + b)[1..] == a[1..] + [c] + b;
      SplitOfJoined(a[1..], c, b);
      assert a == [a[0]] + a[1..];
    }
  }

  /** Splitting undoes joining when no part contains the separator. */
  lemma {:induction false} SplitJoin(parts: seq<string>, c: char)
    requires |parts| > 0
    requires forall i :: 0 <= i < |parts| ==> c !in parts[i]
    ensures Split(Join(parts, c), c) == parts
  {
    if |parts| == 1 {
      SplitOfFree(parts[0], c);
    } else {
      SplitOfJoined(parts[0], c, Join(parts[1..], c));
      SplitJoin(parts[1..], c);
    }
  }

  /** A character in none of the parts and other than the separator is not in their join. */
  lemma {:induction false} JoinFree(parts: seq<string>, c: char, d: char)
    requires |parts| > 0 && d != c
    requires forall i :: 0 <= i < |parts| ==> d !in parts[i]
    ensures d !in Join(parts, c)
  {
    if |parts| > 1 {
      JoinFree(parts[1..], c, d);
    }
  }

  /** A join begins with the first character of its first part and ends with the last character of its last part. */
  lemma {:induction false} JoinEnds(parts: seq<string>, c: char)
    requires |parts| > 0 && forall i :: 0 <= i < |parts| ==> |parts[i]| > 0
    ensures |Join(parts, c)| > 0
    ensures Join(parts, c)[0] == parts[0][0]
    ensures Join(parts, c)[|Join(parts, c)| - 1] == parts[|parts| - 1][|parts[|parts| - 1]| - 1]
  {
    if |parts| > 1 {
      JoinEnds(parts[1..], c);
    }
  }

  /** Concatenation is associative (stated once, so that proofs elsewhere need not re-derive it element by element). */
  lemma AppendAssoc<T>(a: seq<T>, b: seq<T>, c: seq<T>)
    ensures a + b + c == a + (b + c)
  {
  }

  /** Joining two non-empty lists puts one separator between their joins. */
  lemma {:induction false} JoinAppend(a: seq<string>, b: seq<string>, c: char)
    requires |a| > 0 && |b| > 0
    ensures Join(a + b, c) == Join(a, c) + [c] + Join(b, c)
  {
    if |a| == 1 {
      assert (a + b)[0] == a[0] && (a + b)[1..] == b;
    } else {
      assert (a + b)[0] == a[0] && (a + b)[1..] == a[1..] + b;
      JoinAppend(a[1..], b, c);
    }
  }

  /** Joining undoes splitting. */
  lemma {:induction false} JoinSplit(s: string, c: char)
    ensures Join(Split(s, c), c) == s
    decreases |s|
  {
    if s == [] {
    } else if s[0] == c {
      JoinSplit(s[1..], c);
      assert s == [c] + s[1..];
    } else {
      JoinSplit(s[1..], c);
      var rest := Split(s[1..], c);
      if |rest| == 1 {
        assert s == [s[0]] + rest[0];
      } else {
        assert Join(rest, c) == rest[0] + [c] + Join(rest[1..], c);
        assert s == [s[0]] + s[1..];
      }
    }
  }

  /** JavaScript's white space for `trim` and `\s`, restricted to the ASCII characters. */
  predicate IsSpace(c: char) { c == ' ' || c == '\t' || c == '\n' || c == '\r' || c == 11 as char || c == 12 as char }

  function TrimStart(s: string): (r: string)
    ensures |r| <= |s| && r == s[|s| - |r|..]
    ensures r != "" ==> !IsSpace(r[0])
  {
    if s != [] && IsSpace(s[0]) then TrimStart(s[1..]) else s
  }

  function TrimEnd(s: string): (r: string)
    ensures |r| <= |s| && r == s[..|r|]
    ensures r != "" ==> !IsSpace(r[|r| - 1])
  {
    if s != [] && IsSpace(s[|s| - 1]) then TrimEnd(s[..|s| - 1]) else s
  }

  /** JavaScript's `s.trim()`. */
  function Trim(s: string): string { TrimEnd(TrimStart(s)) }

  /** The longest prefix of `s` without white space. */
  function Word(s: string): (w: string)
    ensures |w| <= |s| && w == s[..|w|]
    ensures forall i :: 0 <= i < |w| ==> !IsSpace(w[i])
    ensures |w| < |s| ==> IsSpace(s[|w|])
  {
    if s == [] || IsSpace(s[0]) then "" else [s[0]] + Word(s[1..])
  }

  /** No white space in `s`. */
  predicate Spaceless(s: string)
  {
    forall k :: 0 <= k < |s| ==> !IsSpace(s[k])
  }

  /** JavaScript's `s.split(/\s+/)`: the pieces between maximal runs of white space. */
  function SplitSpace(s: string): (pieces: seq<string>)
    ensures |pieces| > 0
    ensures forall i :: 0 <= i < |pieces| ==> Spaceless(pieces[i])
    decreases |s|
  {
    var w := Word(s);
    var rest := s[|w|..];
    assert Spaceless(w);
    if rest == "" then [w] else [w] + SplitSpace(TrimStart(rest))
  }

  /** The characters of `s` other than white space, in order. */
  function NonSpace(s: string): string
  {
    if s == [] then "" else (if IsSpace(s[0]) then "" else [s[0]]) + NonSpace(s[1..])
  }

  function Concat(pieces: seq<string>): string
  {
    if pieces == [] then "" else pieces[0] + Concat(pieces[1..])
  }

  lemma {:induction false} NonSpaceAppend(a: string, b: string)
    ensures NonSpace(a + b) == NonSpace(a) + NonSpace(b)
  {
    if a != [] {
      assert (a + b)[0] == a[0] && (a + b)[1..] == a[1..] + b;
      NonSpaceAppend(a[1..], b);
    } else {
      assert a + b == b;
    }
  }

  lemma {:induction false} NonSpaceOfWord(w: string)
    requires forall i :: 0 <= i < |w| ==> !IsSpace(w[i])
    ensures NonSpace(w) == w
  {
    if w != [] {
      NonSpaceOfWord(w[1..]);
    }
  }

  /** Splitting on white space loses nothing but the white space. */
  lemma {:induction false} SplitSpaceKeepsText(s: string)
    ensures Concat(SplitSpace(s)) == NonSpace(s)
    decreases |s|
  {
    var w := Word(s);
    var rest := s[|w|..];
    assert s == w + rest;
    NonSpaceAppend(w, rest);
    NonSpaceOfWord(w);
    if rest != "" {
      var t := TrimStart(rest);
      TrimStartDropsSpace(rest);
      SplitSpaceKeepsText(t);
      assert SplitSpace(s) == [w] + SplitSpace(t);
      assert Concat([w] + SplitSpace(t)) == w + Concat(SplitSpace(t));
    }
  }

  /** `trim` at the front removes only white space. */
  lemma {:induction false} TrimStartDropsSpace(s: string)
    ensures NonSpace(TrimStart(s)) == NonSpace(s)
  {
    if s != [] && IsSpace(s[0]) {
      TrimStartDropsSpace(s[1..]);
    }
  }

  /** The word at the front of `a + t` is `a` when `a` has no white space and `t` starts with some or is empty. */
  lemma {:induction false} WordOfSpaceless(a: string, t: string)
    requires Spaceless(a)
    requires t == "" || IsSpace(t[0])
    ensures Word(a + t) == a
  {
    if a == [] {
      assert a + t == t;
    } else {
      assert (a + t)[0] == a[0] && (a + t)[1..] == a[1..] + t;
      WordOfSpaceless(a[1..], t);
    }
  }

  /** Trimming a run of white space in front of `b` leaves `b` when `b` does not start with white space. */
  lemma {:induction false} TrimStartOfSpaces(g: string, b: string)
    requires forall i :: 0 <= i < |g| ==> IsSpace(g[i])
    requires b == "" || !IsSpace(b[0])
    ensures TrimStart(g + b) == b
  {
    if g == [] {
      assert g + b == b;
    } else {
      assert (g + b)[0] == g[0] && (g + b)[1..] == g[1..] + b;
      TrimStartOfSpaces(g[1..], b);
    }
  }

  /** Trimming a run of white space behind `b` leaves `b` when `b` does not end with white space. */
  lemma {:induction false} TrimEndOfSpaces(b: string, g: string)
    requires forall i :: 0 <= i < |g| ==> IsSpace(g[i])
    requires b == "" || !IsSpace(b[|b| - 1])
    ensures TrimEnd(b + g) == b
  {
    if g == [] {
      assert b + g == b;
    } else {
      assert (b + g)[|b + g| - 1] == g[|g| - 1] && (b + g)[..|b + g| - 1] == b + g[..|g| - 1];
      TrimEndOfSpaces(b, g[..|g| - 1]);
    }
  }

  /** `trim` removes exactly the white space around a string that neither begins nor ends with any. */
  lemma TrimOfPadded(g: string, b: string, h: string)
    requires forall i :: 0 <= i < |g| ==> IsSpace(g[i])
    requires forall i :: 0 <= i < |h| ==> IsSpace(h[i])
    requires b != "" && !IsSpace(b[0]) && !IsSpace(b[|b| - 1])
    ensures Trim(g + b + h) == b
  {
    AppendAssoc(g, b, h);
    assert (b + h)[0] == b[0];
    TrimStartOfSpaces(g, b + h);
    TrimEndOfSpaces(b, h);
  }

  /** `trim` leaves a string alone that neither begins nor ends with white space. */
  lemma TrimOfUnspaced(s: string)
    requires s == "" || (!IsSpace(s[0]) && !IsSpace(s[|s| - 1]))
    ensures Trim(s) == s
  {
  }

  /** Two words with white space between them split into exactly those words. */
  lemma SplitSpaceOfTwoWords(a: string, gap: string, b: string)
    requires a != "" && b != "" && gap != ""
    requires Spaceless(a) && Spaceless(b)
    requires forall i :: 0 <= i < |gap| ==> IsSpace(gap[i])
    ensures SplitSpace(a + gap + b) == [a, b]
  {
    var s := a + gap + b;
    AppendAssoc(a, gap, b);
    WordOfSpaceless(a, gap + b);
    assert s[|a|..] == gap + b;
    TrimStartOfSpaces(gap, b);
    assert SplitSpace(s) == [a] + SplitSpace(b);
    SplitSpaceOfWord(b);
  }

  /** A word without white space splits into itself. */
  lemma SplitSpaceOfWord(b: string)
    requires Spaceless(b)
    ensures SplitSpace(b) == [b]
  {
    WordOfSpaceless(b, "");
    assert b + "" == b;
    assert b[|b|..] == "";
  }

  /** JavaScript's `s.repeat(n)`. */
  function Repeat(s: string, n: nat): (r: string)
    ensures |r| == n * |s|
  {
    if n == 0 then "" else s + Repeat(s, n - 1)
  }

  /** The number of occurrences of `c` in `s`. */
  function Count(s: string, c: char): nat
  {
    if s == [] then 0 else (if s[0] == c then 1 else 0) + Count(s[1..], c)
  }

  lemma {:induction false} SplitLength(s: string, c: char)
    ensures |Split(s, c)| == Count(s, c) + 1
    decreases |s|
  {
    if s != [] {
      SplitLength(s[1..], c);
    }
  }
}
