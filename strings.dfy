/**
 * The java.lang.String operations the modelled code relies on, written
 * over `seq<char>`: trim, blank tests, substring search, ASCII
 * lower-casing, literal replacement and occurrence counting.
 */
module Strings {
  import opened JavaLang

  /** Characters String.trim() removes: every code point up to U+0020. */
  predicate IsTrimSpace(c: char) {
    c <= ' '
  }

  /** The characters the regular-expression class `\s` matches. */
  predicate IsRegexSpace(c: char) {
    c == ' ' || c == '\t' || c == '\n' || c == '\U{000B}' || c == '\U{000C}' || c == '\r'
  }

  /** The characters `\d` matches (ASCII digits). */
  predicate IsDigit(c: char) {
    '0' <= c <= '9'
  }

  predicate IsAsciiLetter(c: char) {
    ('a' <= c <= 'z') || ('A' <= c <= 'Z')
  }

  /** A precomposed Hangul syllable, the range 가-힣. */
  predicate IsHangul(c: char) {
    '가' <= c <= '힣'
  }

  predicate AllDigits(s: string) {
    forall i :: 0 <= i < |s| ==> IsDigit(s[i])
  }

  /** Line terminators, which `.` in a regular expression does not match. */
  predicate IsLineTerminator(c: char) {
    c == '\n' || c == '\r' || c == '\U{0085}' || c == '\U{2028}' || c == '\U{2029}'
  }

  /** Character.toLowerCase, on the ASCII letters the keywords use. */
  function LowerChar(c: char): (r: char)
    ensures 'A' <= c <= 'Z' ==> 'a' <= r <= 'z'
    ensures !('A' <= c <= 'Z') ==> r == c
  {
    if 'A' <= c <= 'Z' then (c as int + 32) as char else c
  }

  /** String.toLowerCase restricted to ASCII letters. */
  function Lower(s: string): (r: string)
    ensures |r| == |s|
    ensures forall i :: 0 <= i < |s| ==> r[i] == LowerChar(s[i])
  {
    if s == [] then [] else [LowerChar(s[0])] + Lower(s[1..])
  }

  function TrimLeft(s: string): (r: string)
    ensures |r| <= |s| && r == s[|s| - |r|..]
    ensures r == [] || !IsTrimSpace(r[0])
    ensures forall i :: 0 <= i < |s| - |r| ==> IsTrimSpace(s[i])
  {
    if s != [] && IsTrimSpace(s[0]) then
      var r := TrimLeft(s[1..]);
      assert s[|s| - |r|..] == s[1..][|s| - 1 - |r|..];
      assert forall i :: 1 <= i < |s| - |r| ==> s[i] == s[1..][i - 1];
      r
    else s
  }

  function TrimRight(s: string): (r: string)
    ensures |r| <= |s| && r == s[..|r|]
    ensures r == [] || !IsTrimSpace(r[|r| - 1])
    ensures forall i :: |r| <= i < |s| ==> IsTrimSpace(s[i])
  {
    if s != [] && IsTrimSpace(s[|s| - 1]) then TrimRight(s[..|s| - 1]) else s
  }

  /** String.trim(): the text between the first and the last character above U+0020. */
  function Trim(s: string): (r: string)
    ensures |r| <= |s|
    ensures r == [] || (!IsTrimSpace(r[0]) && !IsTrimSpace(r[|r| - 1]))
    ensures (s == [] || (!IsTrimSpace(s[0]) && !IsTrimSpace(s[|s| - 1]))) ==> r == s
    ensures r == [] <==> forall i :: 0 <= i < |s| ==> IsTrimSpace(s[i])
    ensures exists i, j :: 0 <= i <= j <= |s| && r == s[i..j] && IsBlank(s[..i]) && IsBlank(s[j..])
  {
    var l := TrimLeft(s);
    var r := TrimRight(l);
    assert exists i, j :: 0 <= i <= j <= |s| && r == s[i..j] && IsBlank(s[..i]) && IsBlank(s[j..]) by {
      TrimmedSlice(s);
    }
    assert r != [] ==> r[0] == l[0] == s[|s| - |l|];
    r
  }

  /** Trimming cuts off only characters up to U+0020, from the two ends. */
  lemma {:induction false} TrimmedSlice(s: string)
    ensures var r := TrimRight(TrimLeft(s));
      exists i, j :: 0 <= i <= j <= |s| && r == s[i..j] && IsBlank(s[..i]) && IsBlank(s[j..])
  {
    var l := TrimLeft(s);
    var r := TrimRight(l);
    var i := |s| - |l|;
    assert l == s[i..];
    var j := i + |r|;
    forall k | 0 <= k < |r| ensures r[k] == s[i + k] {
      assert r[k] == l[k];
      assert l[k] == s[i..][k];
    }
    assert r == s[i..j];
    assert IsBlank(s[..i]) by {
      forall k | 0 <= k < i ensures IsTrimSpace(s[..i][k]) { assert s[..i][k] == s[k]; }
    }
    assert IsBlank(s[j..]) by {
      forall k | 0 <= k < |s| - j ensures IsTrimSpace(s[j..][k]) {
        assert l[|r| + k] == s[i + (|r| + k)];
        assert s[j..][k] == s[j + k];
      }
    }
  }

  /** No character up to U+0020 at either end: a text String.trim() leaves unchanged. */
  predicate IsTrimmed(s: string) {
    s == [] || (!IsTrimSpace(s[0]) && !IsTrimSpace(s[|s| - 1]))
  }

  /** Only characters String.trim() removes: `s.trim().isEmpty()` (see BlankTrimsToEmpty). */
  predicate IsBlank(s: string) {
    forall i :: 0 <= i < |s| ==> IsTrimSpace(s[i])
  }

  /** A text is blank exactly when trimming leaves nothing. */
  lemma BlankTrimsToEmpty(s: string)
    ensures IsBlank(s) <==> Trim(s) == []
  {
  }

  /** JsonUtils.isEmpty and the many `x == null || x.trim().isEmpty()` tests. */
  predicate IsNullOrBlank(s: Option<string>) {
    s.None? || IsBlank(s.value)
  }

  /** `s != null && !s.isEmpty()`. */
  function IsPresent(s: Option<string>): (b: bool)
    ensures b <==> s.Some? && |s.value| > 0
  {
    s.Some? && s.value != []
  }

  predicate OccursAt(s: string, p: string, i: int) {
    0 <= i && i + |p| <= |s| && s[i..i + |p|] == p
  }

  /** String.indexOf(p, from): an occurrence at or after `from`, or -1; `IndexFromIsFirst` shows it is the first. */
  function IndexFrom(s: string, p: string, from: nat): (r: int)
    ensures r == -1 || (from <= r && OccursAt(s, p, r))
    decreases |s| - from
  {
    if from + |p| > |s| then -1
    else if OccursAt(s, p, from) then from
    else IndexFrom(s, p, from + 1)
  }

  /** No occurrence starts between `from` and the index found, nor anywhere after `from` when none is found. */
  lemma {:induction false} IndexFromIsFirst(s: string, p: string, from: nat)
    ensures forall j :: from <= j && (IndexFrom(s, p, from) == -1 || j < IndexFrom(s, p, from)) ==> !OccursAt(s, p, j)
    decreases |s| - from
  {
    if from + |p| <= |s| && !OccursAt(s, p, from) {
      IndexFromIsFirst(s, p, from + 1);
    }
  }

  /** String.contains. */
  function Contains(s: string, p: string): (b: bool)
    ensures b <==> exists i :: OccursAt(s, p, i)
  {
    IndexFromIsFirst(s, p, 0);
    IndexFrom(s, p, 0) >= 0
  }

  /** A one-character string occurs exactly when that character does. */
  lemma ContainsChar(s: string, c: char)
    ensures Contains(s, [c]) <==> c in s
  {
    if c in s {
      var i :| 0 <= i < |s| && s[i] == c;
      assert OccursAt(s, [c], i);
    }
    if Contains(s, [c]) {
      var i :| OccursAt(s, [c], i);
      assert s[i..i + 1][0] == s[i];
    }
  }

  /** String.lastIndexOf(p, from): the last occurrence at or before `from`, or -1. */
  function LastIndexAtMost(s: string, p: string, from: int): (r: int)
    ensures r == -1 || (0 <= r <= from && OccursAt(s, p, r))
    ensures forall j :: r < j <= from ==> !OccursAt(s, p, j)
    decreases if from < 0 then 0 else from + 1
  {
    if from < 0 then -1
    else if OccursAt(s, p, from) then from
    else LastIndexAtMost(s, p, from - 1)
  }

  function StartsWith(s: string, p: string): (b: bool)
    ensures b <==> OccursAt(s, p, 0)
  {
    |p| <= |s| && s[..|p|] == p
  }

  function EndsWith(s: string, p: string): (b: bool)
    ensures b <==> OccursAt(s, p, |s| - |p|)
  {
    |p| <= |s| && s[|s| - |p|..] == p
  }

  /** Whether any of the keywords occurs in `s` (an `anyMatch(s::contains)`). */
  function ContainsAny(s: string, keywords: seq<string>): (b: bool)
    ensures b <==> exists k :: k in keywords && Contains(s, k)
  {
    if keywords == [] then false
    else Contains(s, keywords[0]) || ContainsAny(s, keywords[1..])
  }

  /** String.replace(t, rep): left to right, non-overlapping, literal. */
  function Replace(s: string, t: string, rep: string): (r: string)
    requires |t| > 0
    ensures t[0] !in s ==> r == s
    ensures |rep| <= |t| ==> |r| <= |s|
    decreases |s|
  {
    if |s| < |t| then s
    else if s[..|t|] == t then rep + Replace(s[|t|..], t, rep)
    else [s[0]] + Replace(s[1..], t, rep)
  }

  /** Text without the target's first character is copied as it is, and the scan goes on after it. */
  lemma {:induction false} ReplaceKeepsPlainPrefix(a: string, b: string, t: string, rep: string)
    requires |t| > 0 && t[0] !in a
    ensures Replace(a + b, t, rep) == a + Replace(b, t, rep)
    decreases |a|
  {
    if a == [] {
      assert a + b == b;
    } else {
      var s := a + b;
      assert s[0] == a[0] && s[1..] == a[1..] + b;
      assert a == [a[0]] + a[1..];
      ReplaceKeepsPlainPrefix(a[1..], b, t, rep);
      if |s| >= |t| {
        assert s[..|t|][0] == a[0] != t[0];
        assert s[..|t|] != t;
      }
      assert Replace(s, t, rep) == [a[0]] + Replace(a[1..] + b, t, rep);
      assert [a[0]] + (a[1..] + Replace(b, t, rep)) == a + Replace(b, t, rep);
    }
  }

  /** An occurrence of the target is replaced, what comes before it copied, and the scan goes on after it. */
  lemma ReplaceOccurrence(a: string, t: string, b: string, rep: string)
    requires |t| > 0 && t[0] !in a
    ensures Replace(a + t + b, t, rep) == a + rep + Replace(b, t, rep)
  {
    assert a + t + b == a + (t + b);
    ReplaceKeepsPlainPrefix(a, t + b, t, rep);
    assert (t + b)[..|t|] == t && (t + b)[|t|..] == b;
  }

  /** A text whose only mark (the target's first character) is its first character: replaced at the start or kept whole. */
  lemma ReplaceSingleMark(x: string, t: string, rep: string)
    requires |t| > 0 && x != [] && x[0] == t[0] && t[0] !in x[1..]
    ensures Replace(x, t, rep) == if |t| <= |x| && x[..|t|] == t then rep + x[|t|..] else x
  {
    if |t| <= |x| && x[..|t|] == t {
      assert forall ch :: ch in x[|t|..] ==> ch in x[1..];
    } else if |t| <= |x| {
      assert Replace(x[1..], t, rep) == x[1..];
      assert x == [x[0]] + x[1..];
    }
  }

  /** Every pattern of the table is a non-empty text starting with c, replaced by one no longer. */
  predicate ShrinkingFrom(table: seq<(string, string)>, c: char)
    decreases |table|
  {
    table == [] ||
    (|table[0].0| > 0 && table[0].0[0] == c && |table[0].1| <= |table[0].0| && ShrinkingFrom(table[1..], c))
  }

  /** The replacements of `table` applied one after the other, first entry first. */
  function ReplaceEach(s: string, table: seq<(string, string)>, c: char): (r: string)
    requires ShrinkingFrom(table, c)
    ensures |r| <= |s|
    ensures c !in s ==> r == s
    decreases |table|
  {
    if table == [] then s
    else ReplaceEach(Replace(s, table[0].0, table[0].1), table[1..], c)
  }

  /** An entity such as `&lt;`: the mark c, characters other than c and ';', then ';'. */
  predicate IsEntity(e: string, c: char) {
    |e| >= 2 && e[0] == c && c != ';' && e[|e| - 1] == ';'
    && forall i :: 0 < i < |e| - 1 ==> e[i] != c && e[i] != ';'
  }

  /** A table of distinct entities, each replaced by a text no longer than itself. */
  predicate EntityTable(table: seq<(string, string)>, c: char) {
    ShrinkingFrom(table, c)
    && (forall k :: 0 <= k < |table| ==> IsEntity(table[k].0, c))
    && (forall j, k :: 0 <= j < k < |table| ==> table[j].0 != table[k].0)
  }

  /** Dropping the first entry of an entity table leaves an entity table. */
  lemma EntityTableTail(table: seq<(string, string)>, c: char)
    requires EntityTable(table, c) && table != []
    ensures EntityTable(table[1..], c)
  {
    forall j | 0 <= j < |table[1..]| ensures IsEntity(table[1..][j].0, c) {
      assert table[1..][j] == table[j + 1];
    }
  }

  /** No entity starts a text that begins with a different entity. */
  lemma EntityNotPrefix(t: string, e: string, b: string, c: char)
    requires IsEntity(t, c) && IsEntity(e, c) && t != e
    ensures |t| > |e + b| || (e + b)[..|t|] != t
  {
    var x := e + b;
    if |t| <= |x| {
      if |t| < |e| {
        assert x[..|t|][|t| - 1] == e[|t| - 1] != ';';
      } else if |t| == |e| {
        assert x[..|t|] == e;
      } else {
        assert x[..|t|][|e| - 1] == e[|e| - 1] == ';';
        assert t[|e| - 1] != ';';
      }
    }
  }

  /** A text ending with the lone mark c is left alone by patterns of two or more characters. */
  lemma {:induction false} LoneMarkKept(a: string, table: seq<(string, string)>, c: char)
    requires ShrinkingFrom(table, c) && c !in a
    requires forall k :: 0 <= k < |table| ==> |table[k].0| >= 2
    ensures ReplaceEach(a + [c], table, c) == a + [c]
    decreases |table|
  {
    if table != [] {
      ReplaceKeepsPlainPrefix(a, [c], table[0].0, table[0].1);
      assert Replace([c], table[0].0, table[0].1) == [c];
      LoneMarkKept(a, table[1..], c);
    }
  }

  /**
   * Each entity of the table, between texts without the mark, decodes to
   * its replacement; a replacement that is the mark itself is only
   * claimed at the end of the text, since later entries may read it again.
   */
  lemma {:induction false} EntityDecoded(table: seq<(string, string)>, c: char, k: nat, a: string, b: string)
    requires EntityTable(table, c) && k < |table|
    requires c !in a && c !in b
    requires c !in table[k].1 || (table[k].1 == [c] && b == [])
    ensures ReplaceEach(a + table[k].0 + b, table, c) == a + table[k].1 + b
    decreases |table|
  {
    var e := table[k].0;
    var x := e + b;
    assert IsEntity(e, c);
    assert c !in x[1..] by {
      forall i | 1 <= i < |x| ensures x[i] != c {
        if i < |e| { assert x[i] == e[i]; } else { assert x[i] == b[i - |e|]; }
      }
    }
    assert a + e + b == a + x;
    var t := table[0].0;
    assert IsEntity(t, c);
    ReplaceKeepsPlainPrefix(a, x, t, table[0].1);
    ReplaceSingleMark(x, t, table[0].1);
    assert EntityTable(table[1..], c) by {
      forall j | 0 <= j < |table[1..]| ensures IsEntity(table[1..][j].0, c) {
        assert table[1..][j] == table[j + 1];
      }
    }
    if k == 0 {
      assert x[..|e|] == e && x[|e|..] == b;
      var rest := a + table[0].1 + b;
      assert Replace(a + x, t, table[0].1) == rest;
      if c in table[0].1 {
        assert forall j :: 0 <= j < |table[1..]| ==> |table[1..][j].0| >= 2;
        assert rest == a + [c];
        LoneMarkKept(a, table[1..], c);
      } else {
        assert c !in rest;
      }
    } else {
      assert table[0].0 != table[k].0;
      EntityNotPrefix(t, e, b, c);
      assert table[1..][k - 1] == table[k];
      EntityDecoded(table[1..], c, k - 1, a, b);
    }
  }

  /**
   * The number of occurrences of `p` at or after `from` found scanning
   * left to right, a match consuming its characters before the scan
   * goes on: the count of non-overlapping occurrences.
   */
  function CountFrom(s: string, p: string, from: nat): (n: nat)
    requires |p| > 0
    decreases |s| - from
  {
    if from + |p| > |s| then 0
    else if OccursAt(s, p, from) then 1 + CountFrom(s, p, from + |p|)
    else CountFrom(s, p, from + 1)
  }

  /**
   * The source's `indexOf` loops compute that count: no match left means
   * nothing to count, and the match `indexOf` finds counts once, the
   * search resuming past it.
   */
  lemma {:induction false} CountFromStep(s: string, p: string, from: nat)
    requires |p| > 0
    ensures IndexFrom(s, p, from) < 0 ==> CountFrom(s, p, from) == 0
    ensures IndexFrom(s, p, from) >= 0 ==>
      IndexFrom(s, p, from) + |p| <= |s| && CountFrom(s, p, from) == 1 + CountFrom(s, p, IndexFrom(s, p, from) + |p|)
    decreases |s| - from
  {
    if from + |p| <= |s| && !OccursAt(s, p, from) {
      CountFromStep(s, p, from + 1);
    }
  }

  function Occurrences(s: string, p: string): (n: nat)
    requires |p| > 0
    ensures n > 0 <==> Contains(s, p)
  {
    CountFromStep(s, p, 0);
    CountFrom(s, p, 0)
  }

  /** `replaceAll("[^0-9]", "")`: the digits of s, in order. */
  function KeepDigits(s: string): (r: string)
    ensures AllDigits(r) && |r| <= |s|
    ensures AllDigits(s) ==> r == s
    ensures |s| == 1 && !IsDigit(s[0]) ==> r == []
  {
    if s == [] then []
    else (if IsDigit(s[0]) then [s[0]] else []) + KeepDigits(s[1..])
  }

  /** Removing the non-digits of a concatenation removes them from each part. */
  lemma {:induction false} KeepDigitsAppend(a: string, b: string)
    ensures KeepDigits(a + b) == KeepDigits(a) + KeepDigits(b)
  {
    if a == [] {
      assert a + b == b;
    } else {
      assert (a + b)[0] == a[0];
      assert (a + b)[1..] == a[1..] + b;
      KeepDigitsAppend(a[1..], b);
      var h := if IsDigit(a[0]) then [a[0]] else [];
      assert KeepDigits(a + b) == h + (KeepDigits(a[1..]) + KeepDigits(b));
    }
  }

  /** The value of a string of ASCII digits. */
  function DigitsValue(s: string): (v: nat)
    requires AllDigits(s)
    decreases |s|
  {
    if s == [] then 0 else DigitsValue(s[..|s| - 1]) * 10 + (s[|s| - 1] as int - '0' as int)
  }

  /** The decimal digits of `n`, without leading zeros (Integer.toString). */
  function NatToString(n: nat): (s: string)
    ensures |s| > 0 && AllDigits(s)
    ensures DigitsValue(s) == n
    ensures n == 0 <==> s == "0"
    ensures s[0] != '0' || s == "0"
    decreases n
  {
    var last := ['0' + (n % 10) as char];
    if n < 10 then last else NatToString(n / 10) + last
  }

  /** Integer.toString for any int. */
  function IntToString(n: int): (s: string)
    ensures n >= 0 ==> s == NatToString(n)
    ensures n < 0 ==> s == "-" + NatToString(-n)
  {
    if n >= 0 then NatToString(n) else "-" + NatToString(-n)
  }

  /** The decimal digits of `n` left-padded with zeros to at least `width` characters. */
  function ZeroPad(n: nat, width: nat): (s: string)
    ensures |s| >= width && AllDigits(s)
    ensures EndsWith(s, NatToString(n))
    ensures |NatToString(n)| >= width ==> s == NatToString(n)
  {
    var d := NatToString(n);
    if |d| >= width then d else Zeros(width - |d|) + d
  }

  function Zeros(k: nat): (s: string)
    ensures |s| == k && AllDigits(s)
    ensures forall i :: 0 <= i < k ==> s[i] == '0'
  {
    if k == 0 then [] else ['0'] + Zeros(k - 1)
  }

  /**
   * Index of the first keyword group with a member contained in `s`, or
   * -1: the chains of `if (s.contains(..) || s.contains(..)) return ..`
   * that classify a text, written as a table.
   */
  function FirstGroupIndex<T>(rules: seq<(seq<string>, T)>, s: string): (k: int)
    ensures -1 <= k < |rules|
    ensures k >= 0 ==> ContainsAny(s, rules[k].0)
    ensures forall j :: 0 <= j < |rules| && (k == -1 || j < k) ==> !ContainsAny(s, rules[j].0)
  {
    if rules == [] then -1
    else if ContainsAny(s, rules[0].0) then 0
    else
      var k := FirstGroupIndex(rules[1..], s);
      assert forall j :: 1 <= j < |rules| ==> rules[j] == rules[1..][j - 1];
      if k == -1 then -1 else k + 1
  }

  /** Index of the first text containing one of the keywords, or -1. */
  function FirstContainingAny(texts: seq<string>, keywords: seq<string>): (k: int)
    ensures -1 <= k < |texts|
    ensures k >= 0 ==> ContainsAny(texts[k], keywords)
    ensures forall j :: 0 <= j < |texts| && (k == -1 || j < k) ==> !ContainsAny(texts[j], keywords)
  {
    if texts == [] then -1
    else if ContainsAny(texts[0], keywords) then 0
    else
      var k := FirstContainingAny(texts[1..], keywords);
      assert forall j :: 1 <= j < |texts| ==> texts[j] == texts[1..][j - 1];
      if k == -1 then -1 else k + 1
  }

  /** The value of the first matching group, or `otherwise` when no group matches. */
  function Classify<T>(rules: seq<(seq<string>, T)>, s: string, otherwise: T): (r: T)
  {
    var k := FirstGroupIndex(rules, s);
    if k == -1 then otherwise else rules[k].1
  }

  /**
   * When no rule yields the default, the default is returned exactly when
   * no group matches, and any other value is the value of the first
   * matching group.
   */
  lemma ClassifyFirstGroup<T>(rules: seq<(seq<string>, T)>, s: string, otherwise: T)
    requires forall k :: 0 <= k < |rules| ==> rules[k].1 != otherwise
    ensures Classify(rules, s, otherwise) == otherwise <==> forall j :: 0 <= j < |rules| ==> !ContainsAny(s, rules[j].0)
    ensures Classify(rules, s, otherwise) != otherwise ==>
      exists k :: (0 <= k < |rules| && rules[k].1 == Classify(rules, s, otherwise) && ContainsAny(s, rules[k].0)
                   && forall j :: 0 <= j < k ==> !ContainsAny(s, rules[j].0))
  {
    var k := FirstGroupIndex(rules, s);
    if k != -1 {
      assert rules[k].1 == Classify(rules, s, otherwise);
    }
  }

  lemma ContainsAnyOne(s: string, a: string)
    ensures ContainsAny(s, [a]) == Contains(s, a)
  {
    assert [a][1..] == [];
  }

  lemma ContainsAnyTwo(s: string, a: string, b: string)
    ensures ContainsAny(s, [a, b]) == (Contains(s, a) || Contains(s, b))
  {
    assert [a, b][1..] == [b];
    ContainsAnyOne(s, b);
  }

  lemma ClassifyStep<T>(rules: seq<(seq<string>, T)>, s: string, otherwise: T)
    requires rules != []
    ensures Classify(rules, s, otherwise)
         == if ContainsAny(s, rules[0].0) then rules[0].1 else Classify(rules[1..], s, otherwise)
  {
  }

  /** A value that no rule yields and that is not the default is never the classification. */
  lemma ClassifyAvoids<T>(rules: seq<(seq<string>, T)>, s: string, otherwise: T, x: T)
    requires otherwise != x && forall k :: 0 <= k < |rules| ==> rules[k].1 != x
    ensures Classify(rules, s, otherwise) != x
  {
  }

  /** A text without the first character of p does not contain p. */
  lemma AbsentFirstChar(s: string, p: string)
    requires |p| > 0 && p[0] !in s
    ensures !Contains(s, p)
  {
    forall i ensures !OccursAt(s, p, i) {
      if 0 <= i && i + |p| <= |s| {
        assert s[i..i + |p|][0] == s[i];
      }
    }
  }
}
