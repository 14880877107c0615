/** The few java.lang.String and java.util.regex behaviours the bot relies on,
    stated over Dafny strings (one char per Unicode code point; nothing here depends
    on the UTF-16 length of a text). */
module JavaLang {

  /** A Java reference that may be null. */
  datatype Option<+T> = None | Some(value: T)

  /** `String.valueOf(Object)` and string concatenation render null as "null". */
  function ValueOf(s: Option<string>): string
  {
    if s.Some? then s.value else "null"
  }

  predicate StartsWith(s: string, prefix: string)
  {
    |prefix| <= |s| && s[..|prefix|] == prefix
  }

  predicate EndsWith(s: string, suffix: string)
  {
    |suffix| <= |s| && s[|s| - |suffix|..] == suffix
  }

  // ---------------------------------------------------------------- trim

  /** `String.trim` strips every char at or below U+0020. */
  predicate IsTrimmable(c: char)
  {
    c <= ' '
  }

  /** Number of trimmable chars at the start of `s`. */
  function LeadingCount(s: string): (n: nat)
    ensures n <= |s|
    ensures forall k :: 0 <= k < n ==> IsTrimmable(s[k])
    ensures n < |s| ==> !IsTrimmable(s[n])
  {
    if |s| > 0 && IsTrimmable(s[0]) then 1 + LeadingCount(s[1..]) else 0
  }

  /** Number of trimmable chars at the end of `s`. */
  function TrailingCount(s: string): (n: nat)
    ensures n <= |s|
    ensures forall k :: |s| - n <= k < |s| ==> IsTrimmable(s[k])
    ensures n < |s| ==> !IsTrimmable(s[|s| - 1 - n])
  {
    if |s| > 0 && IsTrimmable(s[|s| - 1]) then 1 + TrailingCount(s[..|s| - 1]) else 0
  }

  /** `String.trim`: the longest infix that neither starts nor ends with a trimmable char. */
  function Trim(s: string): (r: string)
    ensures |r| <= |s|
    ensures r == [] || (!IsTrimmable(r[0]) && !IsTrimmable(r[|r| - 1]))
    ensures r == [] <==> forall k :: 0 <= k < |s| ==> IsTrimmable(s[k])
  {
    var lead := LeadingCount(s);
    if lead == |s| then [] else s[lead..|s| - TrailingCount(s)]
  }

  /** Trimming removes exactly the padding around a core that is not itself padded. */
  lemma TrimPadded(a: string, c: string, b: string)
    requires forall k :: 0 <= k < |a| ==> IsTrimmable(a[k])
    requires forall k :: 0 <= k < |b| ==> IsTrimmable(b[k])
    requires c != [] && !IsTrimmable(c[0]) && !IsTrimmable(c[|c| - 1])
    ensures Trim(a + c + b) == c
  {
    var s := a + c + b;
    assert s[|a|] == c[0];
    assert s[|a| + |c| - 1] == c[|c| - 1];
    assert LeadingCount(s) == |a| && TrailingCount(s) == |b|;
    assert s[|a|..|s| - |b|] == c;
  }

  // ---------------------------------------------------------------- isBlank

  /** `Character.isWhitespace`: the ASCII controls TAB..CR and FS..US, the space
      separators except the no-break ones, and the line and paragraph separators. */
  predicate IsJavaWhitespace(c: char)
  {
    ('\t' <= c <= '\r') || ('\U{1C}' <= c <= ' ') || c == '\U{1680}'
    || ('\U{2000}' <= c <= '\U{2006}') || ('\U{2008}' <= c <= '\U{200A}')
    || c == '\U{2028}' || c == '\U{2029}' || c == '\U{205F}' || c == '\U{3000}'
  }

  /** `String.isBlank`: empty or only whitespace. */
  predicate IsBlank(s: string)
  {
    forall k :: 0 <= k < |s| ==> IsJavaWhitespace(s[k])
  }

  // ---------------------------------------------------------------- regex \s+

  /** The regex class `\s` without UNICODE_CHARACTER_CLASS: [ \t\n\x0B\f\r]. */
  predicate IsRegexSpace(c: char)
  {
    ('\t' <= c <= '\r') || c == ' '
  }

  /** Drops the maximal run of `\s` chars at the start of `s` (a greedy `\s+`). */
  function DropRegexSpaces(s: string): (r: string)
    ensures |r| <= |s| && r == s[|s| - |r|..]
    ensures forall k :: 0 <= k < |s| - |r| ==> IsRegexSpace(s[k])
    ensures r == [] || !IsRegexSpace(r[0])
  {
    if |s| > 0 && IsRegexSpace(s[0]) then DropRegexSpaces(s[1..]) else s
  }

  /** Dropping a leading `\s` run stops at a text that does not start with one. */
  lemma {:induction false} DropRegexSpacesAppend(a: string, b: string)
    requires b == [] || !IsRegexSpace(b[0])
    ensures DropRegexSpaces(a + b) == DropRegexSpaces(a) + b
  {
    if a == [] {
      assert a + b == b;
    } else if IsRegexSpace(a[0]) {
      assert (a + b)[1..] == a[1..] + b;
      DropRegexSpacesAppend(a[1..], b);
    }
  }

  lemma {:induction false} SplitThree(d: string, l: nat, m: nat)
    requires l <= m <= |d|
    ensures d == d[..l] + d[l..m] + d[m..]
  {
    assert d[..l] + d[l..m] == d[..m];
  }

  lemma {:induction false} PadInFront(p: string, a: string, c: string, b: string)
    ensures p + (a + c + b) == (p + a) + c + b
  {
  }

  /** Padding in front of a text does not change its trimmed form. */
  lemma {:induction false} TrimAfterPadding(p: string, d: string)
    requires forall k :: 0 <= k < |p| ==> IsTrimmable(p[k])
    ensures Trim(p + d) == Trim(d)
  {
    var l := LeadingCount(d);
    if l == |d| {
      AllTrimmable(p, d);
    } else {
      var a, c, b := Decompose(d);
      PadInFront(p, a, c, b);
      PaddingJoin(p, a);
      TrimPadded(p + a, c, b);
    }
  }

  lemma {:induction false} AllTrimmable(p: string, d: string)
    requires forall k :: 0 <= k < |p| ==> IsTrimmable(p[k])
    requires LeadingCount(d) == |d|
    ensures Trim(p + d) == [] && Trim(d) == []
  {
    forall k | 0 <= k < |p + d|
      ensures IsTrimmable((p + d)[k])
    {
      if k >= |p| {
        assert (p + d)[k] == d[k - |p|];
      }
    }
  }

  lemma {:induction false} PaddingJoin(p: string, a: string)
    requires forall k :: 0 <= k < |p| ==> IsTrimmable(p[k])
    requires forall k :: 0 <= k < |a| ==> IsTrimmable(a[k])
    ensures forall k :: 0 <= k < |p + a| ==> IsTrimmable((p + a)[k])
  {
    forall k | 0 <= k < |p + a|
      ensures IsTrimmable((p + a)[k])
    {
      if k >= |p| {
        assert (p + a)[k] == a[k - |p|];
      }
    }
  }

  /** With a char that is not trimmable, `trim` keeps what lies between the
      leading and the trailing padding, and that core is not empty. */
  lemma {:induction false} TrimBody(d: string)
    requires LeadingCount(d) != |d|
    ensures LeadingCount(d) < |d| - TrailingCount(d)
    ensures Trim(d) == d[LeadingCount(d)..|d| - TrailingCount(d)]
  {
    var l := LeadingCount(d);
    assert !IsTrimmable(d[l]);
  }

  /** Every `\s` char is trimmable, so trimming after dropping a `\s` run is
      trimming alone. */
  lemma {:induction false} TrimDropRegexSpaces(s: string)
    ensures Trim(DropRegexSpaces(s)) == Trim(s)
  {
    var d := DropRegexSpaces(s);
    var p := s[..|s| - |d|];
    assert s == p + d;
    TrimAfterPadding(p, d);
  }

  /** A text with something left after trimming is a core that ends in a char
      above U+0020, followed by padding. */
  lemma {:induction false} RightPadding(s: string) returns (core: string, pad: string)
    requires Trim(s) != []
    ensures s == core + pad
    ensures core != [] && !IsTrimmable(core[|core| - 1])
    ensures forall k :: 0 <= k < |pad| ==> IsTrimmable(pad[k])
  {
    NotAllPadding(s);
    var a, c, b := Decompose(s);
    core, pad := a + c, b;
    assert core[|core| - 1] == c[|c| - 1];
  }

  /** Padding after a text that ends in a char above U+0020 does not change
      its trimmed form. */
  lemma {:induction false} TrimDropTrailing(core: string, pad: string)
    requires core != [] && !IsTrimmable(core[|core| - 1])
    requires forall k :: 0 <= k < |pad| ==> IsTrimmable(pad[k])
    ensures Trim(core + pad) == Trim(core)
  {
    var a, c, b := Decompose(core);
    assert b == [] by {
      assert TrailingCount(core) == 0;
    }
    TrimRepadded(core, a, c, b, pad);
  }

  lemma {:induction false} TrimRepadded(d: string, a: string, c: string, b: string, pad: string)
    requires d == a + c + b && b == []
    requires forall k :: 0 <= k < |a| ==> IsTrimmable(a[k])
    requires c != [] && !IsTrimmable(c[0]) && !IsTrimmable(c[|c| - 1])
    requires forall k :: 0 <= k < |pad| ==> IsTrimmable(pad[k])
    ensures Trim(d + pad) == c
  {
    assert d + pad == a + c + pad;
    TrimPadded(a, c, pad);
  }

  lemma {:induction false} NotAllPadding(s: string)
    requires Trim(s) != []
    ensures LeadingCount(s) != |s|
  {
  }

  /** A text that is not all padding is leading padding, a core that neither
      starts nor ends with a trimmable char, and trailing padding; `trim` keeps
      the core. */
  lemma {:induction false} Decompose(d: string) returns (a: string, c: string, b: string)
    requires LeadingCount(d) != |d|
    ensures d == a + c + b
    ensures forall k :: 0 <= k < |a| ==> IsTrimmable(a[k])
    ensures forall k :: 0 <= k < |b| ==> IsTrimmable(b[k])
    ensures c != [] && !IsTrimmable(c[0]) && !IsTrimmable(c[|c| - 1])
    ensures |b| == TrailingCount(d)
    ensures Trim(d) == c
  {
    var l := LeadingCount(d);
    var m := |d| - TrailingCount(d);
    TrimBody(d);
    a, c, b := Slices(d, l, m);
  }

  /** Cutting a text at the ends of its core. */
  lemma {:induction false} Slices(d: string, l: nat, m: nat) returns (a: string, c: string, b: string)
    requires l < m <= |d|
    requires forall k :: 0 <= k < l ==> IsTrimmable(d[k])
    requires forall k :: m <= k < |d| ==> IsTrimmable(d[k])
    requires !IsTrimmable(d[l]) && !IsTrimmable(d[m - 1])
    ensures d == a + c + b && c == d[l..m] && |b| == |d| - m
    ensures forall k :: 0 <= k < |a| ==> IsTrimmable(a[k])
    ensures forall k :: 0 <= k < |b| ==> IsTrimmable(b[k])
    ensures c != [] && !IsTrimmable(c[0]) && !IsTrimmable(c[|c| - 1])
  {
    a, c, b := d[..l], d[l..m], d[m..];
    assert c[0] == d[l] && c[|c| - 1] == d[m - 1];
    SplitThree(d, l, m);
    forall k | 0 <= k < |b|
      ensures IsTrimmable(b[k])
    {
      assert b[k] == d[m + k];
    }
  }

  /** `txt.replaceFirst(keyword + "\\s+", "")` on a text that starts with `prefix`,
      the keyword and one space: the leftmost match is at index 0, so the prefix
      and the whole whitespace run after it go. */
  function AfterKeyword(txt: string, prefix: string): (r: string)
    requires StartsWith(txt, prefix)
    ensures |r| <= |txt| - |prefix| && r == txt[|txt| - |r|..]
    ensures r == [] || !IsRegexSpace(r[0])
  {
    var s := txt[|prefix|..];
    var r := DropRegexSpaces(s);
    assert s[|s| - |r|..] == txt[|txt| - |r|..];
    r
  }

  // ---------------------------------------------------------------- replace

  /** `String.replace(target, replacement)` for a one-char target. */
  function ReplaceAll(s: string, target: char, replacement: string): string
  {
    if s == [] then []
    else (if s[0] == target then replacement else [s[0]]) + ReplaceAll(s[1..], target, replacement)
  }

  lemma {:induction false} ReplaceAllAppend(a: string, b: string, target: char, replacement: string)
    ensures ReplaceAll(a + b, target, replacement) == ReplaceAll(a, target, replacement) + ReplaceAll(b, target, replacement)
  {
    if a != [] {
      assert (a + b)[1..] == a[1..] + b;
      ReplaceAllAppend(a[1..], b, target, replacement);
    } else {
      assert a + b == b;
    }
  }

  // ---------------------------------------------------------------- toLowerCase

  /** `Character.toLowerCase` restricted to ASCII letters. */
  function LowerChar(c: char): char
  {
    if 'A' <= c <= 'Z' then (c as int + 32) as char else c
  }

  /** `String.toLowerCase`, ASCII letters only. */
  function AsciiLower(s: string): (r: string)
    ensures |r| == |s| && forall k :: 0 <= k < |s| ==> r[k] == LowerChar(s[k])
  {
    seq(|s|, k requires 0 <= k < |s| => LowerChar(s[k]))
  }

  /** `String.equalsIgnoreCase` on ASCII: same length, equal after folding each char. */
  predicate EqualsIgnoreCase(a: string, b: string)
  {
    |a| == |b| && forall k :: 0 <= k < |a| ==> LowerChar(a[k]) == LowerChar(b[k])
  }

  // ---------------------------------------------------------------- int to string

  function DigitChar(d: nat): char
    requires d < 10
  {
    ('0' as int + d) as char
  }

  predicate IsDigits(s: string)
  {
    forall k :: 0 <= k < |s| ==> '0' <= s[k] <= '9'
  }

  /** `Integer.toString` of a non-negative number: decimal, no leading zero. */
  function NatToString(n: nat): (r: string)
    ensures |r| >= 1 && IsDigits(r)
    ensures |r| > 1 ==> r[0] != '0'
  {
    if n < 10 then [DigitChar(n)] else NatToString(n / 10) + [DigitChar(n % 10)]
  }

  /** `Integer.toString` / string concatenation of an int. */
  function IntToString(i: int): string
  {
    if i < 0 then "-" + NatToString(-i) else NatToString(i)
  }

  /** The value of a decimal digit string. */
  function DigitsValue(s: string): nat
    requires IsDigits(s)
  {
    if s == [] then 0 else DigitsValue(s[..|s| - 1]) * 10 + (s[|s| - 1] as int - '0' as int)
  }

  lemma {:induction false} NatToStringRoundTrip(n: nat)
    ensures DigitsValue(NatToString(n)) == n
  {
    if n >= 10 {
      NatToStringRoundTrip(n / 10);
      var r := NatToString(n);
      assert r == NatToString(n / 10) + [DigitChar(n % 10)];
      assert r[..|r| - 1] == NatToString(n / 10);
      assert DigitsValue(r) == DigitsValue(NatToString(n / 10)) * 10 + n % 10;
    }
  }

  // ---------------------------------------------------------------- split("\\|")

  /** The pieces of `s` between consecutive '|', none dropped. */
  function PipePieces(s: string): (r: seq<string>)
    ensures |r| >= 1
    ensures forall i :: 0 <= i < |r| ==> '|' !in r[i]
  {
    if s == [] then [""]
    else
      var rest := PipePieces(s[1..]);
      if s[0] == '|' then [""] + rest else [[s[0]] + rest[0]] + rest[1..]
  }

  /** Joins pieces with '|' between them; the inverse of PipePieces. */
  function JoinPipes(pieces: seq<string>): string
    requires |pieces| >= 1
  {
    if |pieces| == 1 then pieces[0] else pieces[0] + "|" + JoinPipes(pieces[1..])
  }

  lemma {:induction false} PipePiecesJoin(s: string)
    ensures JoinPipes(PipePieces(s)) == s
  {
    if s != [] {
      PipePiecesJoin(s[1..]);
      var rest := PipePieces(s[1..]);
      if s[0] != '|' && |rest| > 1 {
        assert JoinPipes(rest) == rest[0] + "|" + JoinPipes(rest[1..]);
        assert [s[0]] + rest[0] + "|" + JoinPipes(rest[1..]) == [s[0]] + JoinPipes(rest);
        assert s == [s[0]] + s[1..];
      }
    }
  }

  lemma {:induction false} PipePiecesOfField(a: string)
    requires '|' !in a
    ensures PipePieces(a) == [a]
  {
    if a != [] {
      PipePiecesOfField(a[1..]);
      assert [a[0]] + a[1..] == a;
    }
  }

  lemma {:induction false} PipePiecesAfterField(a: string, b: string)
    requires '|' !in a
    ensures PipePieces(a + "|" + b) == [a] + PipePieces(b)
  {
    if a == [] {
      assert (a + "|" + b)[1..] == b;
    } else {
      assert (a + "|" + b)[1..] == a[1..] + "|" + b;
      PipePiecesAfterField(a[1..], b);
      assert [a[0]] + a[1..] == a;
    }
  }

  /** Splitting the joined pipe-free fields gives the fields back. */
  lemma {:induction false} JoinPipesPieces(pieces: seq<string>)
    requires |pieces| >= 1
    requires forall i :: 0 <= i < |pieces| ==> '|' !in pieces[i]
    ensures PipePieces(JoinPipes(pieces)) == pieces
  {
    if |pieces| == 1 {
      PipePiecesOfField(pieces[0]);
    } else {
      JoinPipesPieces(pieces[1..]);
      PipePiecesAfterField(pieces[0], JoinPipes(pieces[1..]));
      assert [pieces[0]] + pieces[1..] == pieces;
    }
  }

  /** The joined text starts with the first piece and ends with the last. */
  lemma {:induction false} JoinPipesEnds(pieces: seq<string>)
    requires |pieces| >= 1
    ensures StartsWith(JoinPipes(pieces), pieces[0])
    ensures EndsWith(JoinPipes(pieces), pieces[|pieces| - 1])
  {
    var j := JoinPipes(pieces);
    if |pieces| == 1 {
      assert j[..|pieces[0]|] == pieces[0];
    } else {
      var tail := JoinPipes(pieces[1..]);
      JoinPipesEnds(pieces[1..]);
      assert j == pieces[0] + "|" + tail;
      assert j[..|pieces[0]|] == pieces[0];
      assert j[|j| - |tail|..] == tail;
    }
  }

  /** Drops trailing empty strings, as `String.split` does with limit 0. */
  function DropTrailingEmpty(xs: seq<string>): (r: seq<string>)
    ensures |r| <= |xs| && r == xs[..|r|]
    ensures forall i :: |r| <= i < |xs| ==> xs[i] == ""
    ensures r == [] || r[|r| - 1] != ""
  {
    if |xs| > 0 && xs[|xs| - 1] == "" then DropTrailingEmpty(xs[..|xs| - 1]) else xs
  }

  /** `s.split("\\|")`: a text without '|' is its own only piece (even ""); otherwise
      the pieces between the bars with the trailing empty ones dropped. */
  function SplitOnPipe(s: string): seq<string>
  {
    if '|' !in s then [s] else DropTrailingEmpty(PipePieces(s))
  }
}
