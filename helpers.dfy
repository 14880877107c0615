/** The static helpers of the bot: status indicator, base-URL normalisation,
    argument splitting, map lookup, defaults, URL test and Markdown escaping. */
module Helpers {
  import opened JavaLang
  import opened Effects

  // ---------------------------------------------------------------- estadoEmoji

  const White: string := "⚪"
  const Green: string := "🟢"
  const Yellow: string := "🟡"
  const Red: string := "🔴"
  const Blue: string := "🔵"

  /** The indicator shown beside a fact's status. */
  function EstadoEmoji(estado: Option<string>): string
  {
    if estado.None? then White
    else
      var e := AsciiLower(estado.value);
      if e == "activo" then Green
      else if e == "pendiente" then Yellow
      else if e == "borrado" || e == "rechazado" then Red
      else Blue
  }

  /** For a literal with no upper-case letter, lower-casing a text gives that
      literal exactly when the text equals it ignoring case. */
  lemma LowerIsLiteral(s: string, lit: string)
    requires forall k :: 0 <= k < |lit| ==> !('A' <= lit[k] <= 'Z')
    ensures AsciiLower(s) == lit <==> EqualsIgnoreCase(s, lit)
  {
    if EqualsIgnoreCase(s, lit) {
      assert forall k :: 0 <= k < |s| ==> AsciiLower(s)[k] == LowerChar(lit[k]) == lit[k];
    }
  }

  /** The status table: total, case-insensitive, with a neutral default. */
  lemma EstadoEmojiTable(s: string)
    ensures EstadoEmoji(None) == White
    ensures EstadoEmoji(Some(s)) == Green <==> EqualsIgnoreCase(s, "activo")
    ensures EstadoEmoji(Some(s)) == Yellow <==> EqualsIgnoreCase(s, "pendiente")
    ensures EstadoEmoji(Some(s)) == Red <==> EqualsIgnoreCase(s, "borrado") || EqualsIgnoreCase(s, "rechazado")
    ensures EstadoEmoji(Some(s)) == Blue <==>
      !EqualsIgnoreCase(s, "activo") && !EqualsIgnoreCase(s, "pendiente")
      && !EqualsIgnoreCase(s, "borrado") && !EqualsIgnoreCase(s, "rechazado")
    ensures EstadoEmoji(Some(s)) != White
  {
    LowerIsLiteral(s, "activo");
    LowerIsLiteral(s, "pendiente");
    LowerIsLiteral(s, "borrado");
    LowerIsLiteral(s, "rechazado");
  }

  /** Two statuses that differ only in the case of ASCII letters get the same indicator. */
  lemma EstadoEmojiIgnoresCase(s: string, t: string)
    requires EqualsIgnoreCase(s, t)
    ensures EstadoEmoji(Some(s)) == EstadoEmoji(Some(t))
  {
    assert AsciiLower(s) == AsciiLower(t);
  }

  // ---------------------------------------------------------------- trimSlash

  /** Drops one trailing '/' from a base URL; null and other URLs pass unchanged. */
  function TrimSlash(base: Option<string>): (r: Option<string>)
    ensures base.None? <==> r.None?
    ensures base.Some? && EndsWith(base.value, "/") ==> r.value + "/" == base.value
    ensures base.Some? && !EndsWith(base.value, "/") ==> r.value == base.value
  {
    if base.Some? && EndsWith(base.value, "/") then Some(base.value[..|base.value| - 1]) else base
  }

  /** Exactly one slash goes: a URL ending in "//" keeps one. */
  lemma TrimSlashOnce(s: string)
    requires EndsWith(s, "//")
    ensures TrimSlash(Some(s)).value == s[..|s| - 1] && EndsWith(TrimSlash(Some(s)).value, "/")
  {
    assert s[|s| - 2] == '/';
    assert s[..|s| - 1][|s| - 2..] == "/";
  }

  // ---------------------------------------------------------------- splitPipe

  /** `.map(String::trim)` over the pieces. */
  function TrimAll(pieces: seq<string>): (r: seq<string>)
    ensures |r| == |pieces|
  {
    if pieces == [] then [] else [Trim(pieces[0])] + TrimAll(pieces[1..])
  }

  /** Every piece is trimmed, in order, and none is lost. */
  lemma {:induction false} TrimAllPieces(pieces: seq<string>)
    ensures |TrimAll(pieces)| == |pieces|
    ensures forall i :: 0 <= i < |pieces| ==> TrimAll(pieces)[i] == Trim(pieces[i])
  {
    if pieces != [] {
      TrimAllPieces(pieces[1..]);
      forall i | 0 <= i < |pieces|
        ensures TrimAll(pieces)[i] == Trim(pieces[i])
      {
        if i > 0 {
          assert pieces[1..][i - 1] == pieces[i];
        }
      }
    }
  }

  /** The fields of `args` separated by '|', each trimmed; fewer than `expected`
      is an IllegalArgumentException, more are kept. */
  function SplitPipe(args: string, expected: nat): (r: Result<seq<string>>)
    ensures r.Failed? <==> |SplitOnPipe(args)| < expected
    ensures r.Failed? ==> r.failure == IllegalArgument("Se esperaban " + NatToString(expected) + " campos separados por `|`")
    ensures r.Ok? ==> r.value == TrimAll(SplitOnPipe(args))
  {
    var parts := TrimAll(SplitOnPipe(args));
    if |parts| < expected then Failed(IllegalArgument("Se esperaban " + NatToString(expected) + " campos separados por `|`"))
    else Ok(parts)
  }

  /** Splitting pipe-free fields joined with '|' (the last one non-empty) gives them back. */
  lemma SplitOnPipeJoin(fields: seq<string>)
    requires 1 <= |fields|
    requires forall i :: 0 <= i < |fields| ==> '|' !in fields[i]
    requires fields[|fields| - 1] != ""
    ensures SplitOnPipe(JoinPipes(fields)) == fields
  {
    var s := JoinPipes(fields);
    if |fields| > 1 {
      assert s == fields[0] + "|" + JoinPipes(fields[1..]);
      assert s[|fields[0]|] == '|';
      JoinPipesPieces(fields);
    }
  }

  /** Fields joined with '|' come back trimmed, in order, extras included. */
  lemma SplitPipeFields(fields: seq<string>, expected: nat)
    requires 1 <= |fields| && expected <= |fields|
    requires forall i :: 0 <= i < |fields| ==> '|' !in fields[i]
    requires fields[|fields| - 1] != ""
    ensures SplitPipe(JoinPipes(fields), expected) == Ok(TrimAll(fields))
  {
    SplitOnPipeJoin(fields);
  }

  /** A text without '|' is a single field, so any command needing two fails. */
  lemma SplitPipeNeedsBar(args: string, expected: nat)
    requires '|' !in args && expected >= 2
    ensures SplitPipe(args, expected).Failed?
  {
  }

  /** Trailing empty fields vanish before the count: "a|" is one field, not two. */
  lemma SplitPipeDropsTrailingEmpty(a: string)
    requires '|' !in a
    ensures SplitOnPipe(a + "|") == (if a == "" then [] else [a])
    ensures SplitPipe(a + "|", 2).Failed?
  {
    PipePiecesAfterField(a, "");
    assert a + "|" + "" == a + "|";
    assert (a + "|")[|a|] == '|';
    assert PipePieces("") == [""];
    assert PipePieces(a + "|") == [a, ""];
    assert DropTrailingEmpty([a, ""]) == DropTrailingEmpty([a]);
    if a == "" {
      assert DropTrailingEmpty([a]) == DropTrailingEmpty([]);
    }
  }

  // ---------------------------------------------------------------- val, nullTo, looksLikeUrl

  /** `val(map, key)`: null when the map is null or has no value under the key. */
  function Val(m: Option<Obj>, key: string): (r: Option<string>)
    ensures r.Some? <==> m.Some? && key in m.value
    ensures r.Some? ==> r.value == m.value[key]
  {
    if m.Some? && key in m.value then Some(m.value[key]) else None
  }

  /** `nullTo(v, def)`: the default replaces a null or blank value. */
  function NullTo(v: Option<string>, def: string): (r: string)
    ensures r == def || (v.Some? && r == v.value)
    ensures v.Some? && !IsBlank(v.value) ==> r == v.value
    ensures v.None? || IsBlank(v.value) ==> r == def
    ensures !IsBlank(def) ==> !IsBlank(r)
  {
    if v.None? || IsBlank(v.value) then def else v.value
  }

  /** `looksLikeUrl`: an http or https URL. */
  function LooksLikeUrl(s: Option<string>): bool
  {
    s.Some? && (StartsWith(s.value, "http://") || StartsWith(s.value, "https://"))
  }

  /** Every http and https address qualifies; null, other schemes, an upper-case
      scheme and a single slash do not: the match is case-sensitive. */
  lemma LooksLikeUrlSchemes(rest: string, s: string)
    ensures LooksLikeUrl(Some("http://" + rest)) && LooksLikeUrl(Some("https://" + rest))
    ensures !LooksLikeUrl(None)
    ensures !LooksLikeUrl(Some("HTTP://" + rest)) && !LooksLikeUrl(Some("ftp://" + rest))
    ensures !LooksLikeUrl(Some("http:/x"))
    ensures LooksLikeUrl(Some(s)) ==> |s| >= 7 && s[..4] == "http"
  {
    assert ("http://" + rest)[..7] == "http://";
    assert ("https://" + rest)[..8] == "https://";
    NotSchemeAt("HTTP://" + rest, 0, 'H');
    NotSchemeAt("ftp://" + rest, 0, 'f');
    NotSchemeAt("http:/x", 6, 'x');
    if StartsWith(s, "https://") {
      assert s[..4] == s[..8][..4];
    } else if StartsWith(s, "http://") {
      assert s[..4] == s[..7][..4];
    }
  }

  /** A char that differs from both schemes at one of the first seven places. */
  lemma NotSchemeAt(t: string, i: nat, c: char)
    requires i < 7 && i < |t| && t[i] == c && c != "http://"[i] && c != "https://"[i]
    ensures !LooksLikeUrl(Some(t))
  {
    if |t| >= 7 {
      assert t[..7][i] == t[i];
    }
    if |t| >= 8 {
      assert t[..8][i] == t[i];
    }
  }

  // ---------------------------------------------------------------- safe

  /** The Markdown markers `safe` escapes. */
  predicate IsMarkup(c: char)
  {
    c == '*' || c == '_' || c == '`'
  }

  function EscapeChar(c: char): string
  {
    if IsMarkup(c) then ['\\', c] else [c]
  }

  /** Reference escaping: a backslash before each marker, everything else kept. */
  function Escape(s: string): string
  {
    if s == [] then [] else EscapeChar(s[0]) + Escape(s[1..])
  }

  /** The inverse of Escape: a backslash followed by a marker stands for the marker. */
  function Unescape(s: string): string
  {
    if s == [] then []
    else if |s| >= 2 && s[0] == '\\' && IsMarkup(s[1]) then [s[1]] + Unescape(s[2..])
    else [s[0]] + Unescape(s[1..])
  }

  function MarkupCount(s: string): nat
  {
    if s == [] then 0 else (if IsMarkup(s[0]) then 1 else 0) + MarkupCount(s[1..])
  }

  /** `safe`: null becomes "", otherwise `*`, `_` and `` ` `` are escaped, in that order. */
  function Safe(s: Option<string>): string
  {
    if s.None? then ""
    else ReplaceAll(ReplaceAll(ReplaceAll(s.value, '*', "\\*"), '_', "\\_"), '`', "\\`")
  }

  lemma {:induction false} ReplaceAbsent(s: string, target: char, replacement: string)
    requires target !in s
    ensures ReplaceAll(s, target, replacement) == s
  {
    if s != [] {
      ReplaceAbsent(s[1..], target, replacement);
      assert [s[0]] + s[1..] == s;
    }
  }

  lemma SafeChar(c: char)
    ensures Safe(Some([c])) == EscapeChar(c)
  {
    var r1 := ReplaceAll([c], '*', "\\*");
    assert ReplaceAll([c], '*', "\\*") == (if c == '*' then "\\*" else [c]) + ReplaceAll([], '*', "\\*");
    var r2 := ReplaceAll(r1, '_', "\\_");
    if c == '_' {
      assert r1 == [c];
      assert r2 == "\\_" + ReplaceAll([], '_', "\\_");
    } else {
      ReplaceAbsent(r1, '_', "\\_");
    }
    var r3 := ReplaceAll(r2, '`', "\\`");
    if c == '`' {
      assert r2 == [c];
      assert r3 == "\\`" + ReplaceAll([], '`', "\\`");
    } else {
      ReplaceAbsent(r2, '`', "\\`");
    }
  }

  /** The three chained replacements escape each marker once: the backslashes the
      first two insert are never touched again. */
  lemma {:induction false} SafeIsEscape(s: string)
    ensures Safe(None) == ""
    ensures Safe(Some(s)) == Escape(s)
  {
    if s != [] {
      SafeIsEscape(s[1..]);
      SafeChar(s[0]);
      var c, t := [s[0]], s[1..];
      assert s == c + t;
      ReplaceAllAppend(c, t, '*', "\\*");
      var a1, b1 := ReplaceAll(c, '*', "\\*"), ReplaceAll(t, '*', "\\*");
      ReplaceAllAppend(a1, b1, '_', "\\_");
      var a2, b2 := ReplaceAll(a1, '_', "\\_"), ReplaceAll(b1, '_', "\\_");
      ReplaceAllAppend(a2, b2, '`', "\\`");
    }
  }

  /** Escaping adds exactly one char per marker. */
  lemma {:induction false} EscapeLength(s: string)
    ensures |Escape(s)| == |s| + MarkupCount(s)
  {
    if s != [] {
      EscapeLength(s[1..]);
    }
  }

  lemma {:induction false} EscapeStart(s: string)
    requires s != []
    ensures Escape(s) != [] && !IsMarkup(Escape(s)[0])
  {
  }

  /** Escaping loses nothing: unescaping gives the original text back. */
  lemma {:induction false} UnescapeEscape(s: string)
    ensures Unescape(Escape(s)) == s
  {
    if s != [] {
      UnescapeEscape(s[1..]);
      var e, rest := EscapeChar(s[0]), Escape(s[1..]);
      assert Escape(s) == e + rest;
      if IsMarkup(s[0]) {
        assert (e + rest)[2..] == rest;
      } else {
        assert (e + rest)[1..] == rest;
        if s[1..] != [] {
          EscapeStart(s[1..]);
          assert (e + rest)[1] == rest[0];
        }
      }
      assert [s[0]] + s[1..] == s;
    }
  }

  /** `safe` as promised: "" for null; otherwise a backslash before each marker,
      one extra char per marker, and the text recoverable. */
  lemma SafeSpec(s: string)
    ensures Safe(None) == ""
    ensures Safe(Some(s)) == Escape(s)
    ensures |Safe(Some(s))| == |s| + MarkupCount(s)
    ensures Unescape(Safe(Some(s))) == s
  {
    SafeIsEscape(s);
    EscapeLength(s);
    UnescapeEscape(s);
  }
}
