/**
  filters.py: the two template filters, `nl2br` (escape a note for HTML
  and turn its line breaks into `<br>` tags) and `flag` (a country code as
  its flag emoji).

  A missing value is `None`; Python's "falsy" test also treats the empty
  string as missing. `markupsafe.escape` is modelled for plain strings
  (not for values that are already `Markup`), and `str.upper` for ASCII.
 */
module Filters {
  import opened Basics
  import opened Text

  // ---------------------------------------------------------------------
  // nl2br
  // ---------------------------------------------------------------------

  /** `markupsafe.escape` on one character: the five HTML-special characters become entities. */
  function EscapeChar(c: char): string
  {
    if c == '&' then "&amp;"
    else if c == '<' then "&lt;"
    else if c == '>' then "&gt;"
    else if c == '"' then "&#34;"
    else if c == '\'' then "&#39;"
    else [c]
  }

  function Escape(s: string): (e: string)
    ensures |e| >= |s|
  {
    if |s| == 0 then "" else EscapeChar(s[0]) + Escape(s[1..])
  }

  /** `str.replace('\n', '<br>\n')`. */
  function BreakLines(s: string): (b: string)
    ensures |b| >= |s|
  {
    if |s| == 0 then ""
    else (if s[0] == '\n' then "<br>\n" else [s[0]]) + BreakLines(s[1..])
  }

  /**
    `nl2br(value)` as evidently intended, with the replacement passed as
    `Markup('<br>\n')`: empty for a missing value, else escaped with a real
    `<br>` tag before every line break. It loses nothing, and every `<` in
    it opens one of those tags.
   */
  function Nl2br(value: Option<string>): (h: string)
    ensures value.None? || |value.value| == 0 ==> h == ""
    ensures value.Some? ==> Decode(h) == value.value
    ensures value.Some? ==> Count(h, IsOpenAngle) == Count(value.value, IsLineBreak)
  {
    if value.None? || |value.value| == 0 then ""
    else
      Nl2brRoundTrip(value.value);
      TagsMatchLineBreaks(value.value);
      BreakLines(Escape(value.value))
  }

  /** What one input character turns into once escaped and broken. */
  function EncodeChar(c: char): (h: string)
    ensures |h| > 0
  {
    if c == '\n' then "<br>\n" else EscapeChar(c)
  }

  predicate StartsWith(s: string, prefix: string)
  {
    |prefix| <= |s| && s[..|prefix|] == prefix
  }

  /** The inverse of `nl2br` on its own output: entities and `<br>` tags back to characters. */
  function Decode(h: string): string
    decreases |h|
  {
    if |h| == 0 then ""
    else if StartsWith(h, "<br>\n") then "\n" + Decode(h[5..])
    else if StartsWith(h, "&amp;") then "&" + Decode(h[5..])
    else if StartsWith(h, "&lt;") then "<" + Decode(h[4..])
    else if StartsWith(h, "&gt;") then ">" + Decode(h[4..])
    else if StartsWith(h, "&#34;") then "\"" + Decode(h[5..])
    else if StartsWith(h, "&#39;") then "'" + Decode(h[5..])
    else [h[0]] + Decode(h[1..])
  }

  lemma BreakLinesAppend(a: string, b: string)
    ensures BreakLines(a + b) == BreakLines(a) + BreakLines(b)
  {
    if |a| > 0 {
      assert (a + b)[1..] == a[1..] + b;
      BreakLinesAppend(a[1..], b);
    } else {
      assert a + b == b;
    }
  }

  /** Escaping then breaking lines is the same as encoding each character on its own. */
  lemma {:induction false} EncodeCharwise(s: string)
    requires |s| > 0
    ensures BreakLines(Escape(s)) == EncodeChar(s[0]) + BreakLines(Escape(s[1..]))
  {
    assert Escape(s) == EscapeChar(s[0]) + Escape(s[1..]);
    BreakLinesAppend(EscapeChar(s[0]), Escape(s[1..]));
    EscapedCharBreaks(s[0]);
  }

  /** Breaking the lines of one escaped character gives its encoding. */
  lemma EscapedCharBreaks(c: char)
    ensures BreakLines(EscapeChar(c)) == EncodeChar(c)
  {
    var e := EscapeChar(c);
    if c == '\n' {
      assert e == [c];
      assert BreakLines(e) == "<br>\n" + BreakLines(e[1..]);
    } else {
      assert forall i :: 0 <= i < |e| ==> e[i] != '\n';
      NoBreaksUnchanged(e);
    }
  }

  lemma {:induction false} NoBreaksUnchanged(s: string)
    requires forall i :: 0 <= i < |s| ==> s[i] != '\n'
    ensures BreakLines(s) == s
  {
    if |s| > 0 {
      NoBreaksUnchanged(s[1..]);
      assert s == [s[0]] + s[1..];
    }
  }

  /** A string that differs from `prefix` at position `k` does not start with it. */
  lemma DiffersAt(h: string, prefix: string, k: nat)
    requires k < |prefix| && k < |h| && h[k] != prefix[k]
    ensures !StartsWith(h, prefix)
  {
    if |prefix| <= |h| {
      assert h[..|prefix|][k] == h[k];
    }
  }

  /** Decoding reads back exactly one encoded character, whatever follows it. */
  lemma DecodeOne(c: char, rest: string)
    ensures Decode(EncodeChar(c) + rest) == [c] + Decode(rest)
  {
    var h := EncodeChar(c) + rest;
    var n := |EncodeChar(c)|;
    assert h[n..] == rest;
    assert h[..n] == EncodeChar(c);
    if c != '\n' && c != '&' && c != '<' && c != '>' && c != '"' && c != '\'' {
      assert h[0] == c;
      DiffersAt(h, "<br>\n", 0);
      DiffersAt(h, "&amp;", 0);
      DiffersAt(h, "&lt;", 0);
      DiffersAt(h, "&gt;", 0);
      DiffersAt(h, "&#34;", 0);
      DiffersAt(h, "&#39;", 0);
    } else if c == '\n' {
      assert StartsWith(h, "<br>\n");
    } else if c == '&' {
      DiffersAt(h, "<br>\n", 0);
      assert StartsWith(h, "&amp;");
    } else if c == '<' {
      DiffersAt(h, "<br>\n", 0);
      DiffersAt(h, "&amp;", 1);
      assert StartsWith(h, "&lt;");
    } else if c == '>' {
      DiffersAt(h, "<br>\n", 0);
      DiffersAt(h, "&amp;", 1);
      DiffersAt(h, "&lt;", 1);
      assert StartsWith(h, "&gt;");
    } else if c == '"' {
      DiffersAt(h, "<br>\n", 0);
      DiffersAt(h, "&amp;", 1);
      DiffersAt(h, "&lt;", 1);
      DiffersAt(h, "&gt;", 1);
      assert StartsWith(h, "&#34;");
    } else {
      DiffersAt(h, "<br>\n", 0);
      DiffersAt(h, "&amp;", 1);
      DiffersAt(h, "&lt;", 1);
      DiffersAt(h, "&gt;", 1);
      DiffersAt(h, "&#34;", 3);
      assert StartsWith(h, "&#39;");
    }
  }

  /** Escaping and breaking lines loses nothing: the result decodes back to the input. */
  lemma {:induction false} Nl2brRoundTrip(s: string)
    ensures Decode(BreakLines(Escape(s))) == s
  {
    if |s| > 0 {
      EncodeCharwise(s);
      Nl2brRoundTrip(s[1..]);
      if |s[1..]| == 0 {
        assert BreakLines(Escape(s[1..])) == "";
      }
      DecodeOne(s[0], BreakLines(Escape(s[1..])));
      assert s == [s[0]] + s[1..];
    }
  }

  predicate IsOpenAngle(c: char) { c == '<' }

  predicate IsLineBreak(c: char) { c == '\n' }

  /** Only an encoded line break holds a `<`, and exactly one. */
  lemma EncodeCharOpenAngles(c: char)
    ensures Count(EncodeChar(c), IsOpenAngle) == if c == '\n' then 1 else 0
  {
    var e := EncodeChar(c);
    if c == '\n' {
      assert e == ['<'] + "br>\n";
      CountAppend(['<'], "br>\n", IsOpenAngle);
      assert ['<'][1..] == [];
      NoOpenAngle("br>\n");
    } else {
      NoOpenAngle(e);
    }
  }

  /** Every `<` in the output opens a `<br>`: there are exactly as many as line breaks in the input. */
  lemma {:induction false} TagsMatchLineBreaks(s: string)
    ensures Count(BreakLines(Escape(s)), IsOpenAngle) == Count(s, IsLineBreak)
  {
    if |s| > 0 {
      var t := BreakLines(Escape(s[1..]));
      EncodeCharwise(s);
      TagsMatchLineBreaks(s[1..]);
      assert Count(t, IsOpenAngle) == Count(s[1..], IsLineBreak) by {
        if |s[1..]| == 0 {
          assert t == "";
        }
      }
      CountAppend(EncodeChar(s[0]), t, IsOpenAngle);
      EncodeCharOpenAngles(s[0]);
    }
  }

  lemma {:induction false} NoOpenAngle(s: string)
    requires forall i :: 0 <= i < |s| ==> s[i] != '<'
    ensures Count(s, IsOpenAngle) == 0
  {
    if |s| > 0 {
      NoOpenAngle(s[1..]);
    }
  }

  // ---------------------------------------------------------------------
  // nl2br as written
  // ---------------------------------------------------------------------

  /**
    What `Markup.replace` inserts for the `str` argument `'<br>\n'`: like
    every `Markup` method it escapes its string arguments first
    (`EscapedTagIsEscape`).
   */
  const EscapedBreak := "&lt;br&gt;\n"

  lemma EscapedTagIsEscape()
    ensures Escape("<br>\n") == EscapedBreak
  {
    assert Escape("<br>\n") == "&lt;" + Escape("br>\n");
    assert Escape("br>\n") == "b" + Escape("r>\n");
    assert Escape("r>\n") == "r" + Escape(">\n");
    assert Escape(">\n") == "&gt;" + Escape("\n");
    assert Escape("\n") == "\n" + Escape("");
  }

  /** The replace of filters.py:8 as it runs: each line break gets the escaped tag in front. */
  function BreakLinesAsWritten(s: string): (b: string)
    ensures |b| >= |s|
  {
    if |s| == 0 then ""
    else (if s[0] == '\n' then EscapedBreak else [s[0]]) + BreakLinesAsWritten(s[1..])
  }

  /**
    `nl2br(value)` as filters.py:8 stands. Its output is the escape of the
    intended output, so it holds no `<` at all: the page shows the text
    `<br>` where a line break was meant. It still loses nothing.
   */
  function Nl2brAsWritten(value: Option<string>): (h: string)
    ensures value.None? || |value.value| == 0 ==> h == ""
    ensures value.Some? ==> h == Escape(BreakLines(value.value))
    ensures Count(h, IsOpenAngle) == 0
    ensures value.Some? ==> DecodeAsWritten(h) == value.value
  {
    if value.None? || |value.value| == 0 then ""
    else
      var s := value.value;
      AsWrittenEscapesIntended(s);
      EscapeHasNoOpenAngle(BreakLines(s));
      UnescapeRoundTrip(BreakLines(s));
      UnbreakRoundTrip(s);
      BreakLinesAsWritten(Escape(s))
  }

  /** Wherever the input has a line break, the filter as written and as intended disagree. */
  lemma AsWrittenShowsTagsAsText(s: string)
    requires Count(s, IsLineBreak) > 0
    ensures Nl2brAsWritten(Some(s)) != Nl2br(Some(s))
  {
    assert |s| > 0;
  }

  /** The smallest such input: "a", a line break, "b". */
  lemma AsWrittenOnTwoLines()
    ensures Nl2brAsWritten(Some("a\nb")) == "a&lt;br&gt;\nb"
    ensures Nl2br(Some("a\nb")) == "a<br>\nb"
  {
    TwoLinesNeedNoEscape();
    TwoLinesBroken();
  }

  lemma TwoLinesNeedNoEscape()
    ensures Escape("a\nb") == "a\nb"
  {
    assert Escape("a\nb") == "a" + Escape("\nb");
    assert Escape("\nb") == "\n" + Escape("b");
    assert Escape("b") == "b" + Escape("");
  }

  lemma TwoLinesBroken()
    ensures BreakLines("a\nb") == "a<br>\nb"
    ensures BreakLinesAsWritten("a\nb") == "a&lt;br&gt;\nb"
  {
    assert BreakLinesAsWritten("a\nb") == "a" + BreakLinesAsWritten("\nb");
    assert BreakLinesAsWritten("\nb") == EscapedBreak + BreakLinesAsWritten("b");
    assert BreakLinesAsWritten("b") == "b" + BreakLinesAsWritten("");
    assert BreakLines("a\nb") == "a" + BreakLines("\nb");
    assert BreakLines("\nb") == "<br>\n" + BreakLines("b");
    assert BreakLines("b") == "b" + BreakLines("");
  }

  lemma BreakLinesAsWrittenAppend(a: string, b: string)
    ensures BreakLinesAsWritten(a + b) == BreakLinesAsWritten(a) + BreakLinesAsWritten(b)
  {
    if |a| > 0 {
      assert (a + b)[1..] == a[1..] + b;
      BreakLinesAsWrittenAppend(a[1..], b);
    } else {
      assert a + b == b;
    }
  }

  lemma EscapeAppend(a: string, b: string)
    ensures Escape(a + b) == Escape(a) + Escape(b)
  {
    if |a| > 0 {
      assert (a + b)[1..] == a[1..] + b;
      EscapeAppend(a[1..], b);
    } else {
      assert a + b == b;
    }
  }

  lemma {:induction false} NoBreaksUnchangedAsWritten(s: string)
    requires forall i :: 0 <= i < |s| ==> s[i] != '\n'
    ensures BreakLinesAsWritten(s) == s
  {
    if |s| > 0 {
      NoBreaksUnchangedAsWritten(s[1..]);
      assert s == [s[0]] + s[1..];
    }
  }

  /** One character: breaking its escape as written is escaping its intended break. */
  lemma EscapedCharBreaksAsWritten(c: char)
    ensures BreakLinesAsWritten(EscapeChar(c)) == Escape(if c == '\n' then "<br>\n" else [c])
  {
    var e := EscapeChar(c);
    if c == '\n' {
      assert e == [c];
      assert BreakLinesAsWritten(e) == EscapedBreak + BreakLinesAsWritten(e[1..]);
      EscapedTagIsEscape();
    } else {
      assert forall i :: 0 <= i < |e| ==> e[i] != '\n';
      NoBreaksUnchangedAsWritten(e);
      assert Escape([c]) == EscapeChar(c) + Escape([]);
    }
  }

  /** Replacing after escaping, with the replacement escaped too, is escaping after replacing. */
  lemma {:induction false} AsWrittenEscapesIntended(s: string)
    ensures BreakLinesAsWritten(Escape(s)) == Escape(BreakLines(s))
  {
    if |s| > 0 {
      var head := if s[0] == '\n' then "<br>\n" else [s[0]];
      assert Escape(s) == EscapeChar(s[0]) + Escape(s[1..]);
      BreakLinesAsWrittenAppend(EscapeChar(s[0]), Escape(s[1..]));
      EscapedCharBreaksAsWritten(s[0]);
      AsWrittenEscapesIntended(s[1..]);
      assert BreakLines(s) == head + BreakLines(s[1..]);
      EscapeAppend(head, BreakLines(s[1..]));
    }
  }

  /** Escaped text holds no `<`. */
  lemma {:induction false} EscapeHasNoOpenAngle(s: string)
    ensures Count(Escape(s), IsOpenAngle) == 0
  {
    if |s| > 0 {
      EscapeHasNoOpenAngle(s[1..]);
      CountAppend(EscapeChar(s[0]), Escape(s[1..]), IsOpenAngle);
      NoOpenAngle(EscapeChar(s[0]));
    }
  }

  /** The five entities back to their characters. */
  function Unescape(h: string): string
    decreases |h|
  {
    if |h| == 0 then ""
    else if StartsWith(h, "&amp;") then "&" + Unescape(h[5..])
    else if StartsWith(h, "&lt;") then "<" + Unescape(h[4..])
    else if StartsWith(h, "&gt;") then ">" + Unescape(h[4..])
    else if StartsWith(h, "&#34;") then "\"" + Unescape(h[5..])
    else if StartsWith(h, "&#39;") then "'" + Unescape(h[5..])
    else [h[0]] + Unescape(h[1..])
  }

  predicate EndsWith(s: string, suffix: string)
  {
    |suffix| <= |s| && s[|s| - |suffix|..] == suffix
  }

  /** Drops the `<br>` in front of every line break, reading from the end. */
  function UnbreakLines(h: string): string
    decreases |h|
  {
    if |h| == 0 then ""
    else if EndsWith(h, "<br>\n") then UnbreakLines(h[..|h| - 5]) + "\n"
    else UnbreakLines(h[..|h| - 1]) + [h[|h| - 1]]
  }

  /** The inverse of `nl2br` as written: entities back to characters, then the tags dropped. */
  function DecodeAsWritten(h: string): string
  {
    UnbreakLines(Unescape(h))
  }

  /** Unescaping reads back exactly one escaped character, whatever follows it. */
  lemma UnescapeOne(c: char, rest: string)
    ensures Unescape(EscapeChar(c) + rest) == [c] + Unescape(rest)
  {
    var h := EscapeChar(c) + rest;
    var n := |EscapeChar(c)|;
    assert h[n..] == rest;
    assert h[..n] == EscapeChar(c);
    if c != '&' && c != '<' && c != '>' && c != '"' && c != '\'' {
      assert h[0] == c;
      DiffersAt(h, "&amp;", 0);
      DiffersAt(h, "&lt;", 0);
      DiffersAt(h, "&gt;", 0);
      DiffersAt(h, "&#34;", 0);
      DiffersAt(h, "&#39;", 0);
    } else if c == '&' {
      assert StartsWith(h, "&amp;");
    } else if c == '<' {
      DiffersAt(h, "&amp;", 1);
      assert StartsWith(h, "&lt;");
    } else if c == '>' {
      DiffersAt(h, "&amp;", 1);
      DiffersAt(h, "&lt;", 1);
      assert StartsWith(h, "&gt;");
    } else if c == '"' {
      DiffersAt(h, "&amp;", 1);
      DiffersAt(h, "&lt;", 1);
      DiffersAt(h, "&gt;", 1);
      assert StartsWith(h, "&#34;");
    } else {
      DiffersAt(h, "&amp;", 1);
      DiffersAt(h, "&lt;", 1);
      DiffersAt(h, "&gt;", 1);
      DiffersAt(h, "&#34;", 3);
      assert StartsWith(h, "&#39;");
    }
  }

  lemma {:induction false} UnescapeRoundTrip(s: string)
    ensures Unescape(Escape(s)) == s
  {
    if |s| > 0 {
      UnescapeRoundTrip(s[1..]);
      UnescapeOne(s[0], Escape(s[1..]));
      assert s == [s[0]] + s[1..];
    }
  }

  /** Breaking lines loses nothing: each line break is the end of its own `<br>` and nothing else ends in one. */
  lemma {:induction false} UnbreakRoundTrip(s: string)
    ensures UnbreakLines(BreakLines(s)) == s
    decreases |s|
  {
    if |s| > 0 {
      var p, c := s[..|s| - 1], s[|s| - 1];
      assert s == p + [c];
      BreakLinesAppend(p, [c]);
      var tail := if c == '\n' then "<br>\n" else [c];
      assert BreakLines([c]) == tail + BreakLines([]);
      var h := BreakLines(p) + tail;
      assert BreakLines(s) == h;
      if c == '\n' {
        assert h[|h| - 5..] == tail;
        assert h[..|h| - 5] == BreakLines(p);
      } else {
        assert h[|h| - 1] == c;
        assert !EndsWith(h, "<br>\n");
        assert h[..|h| - 1] == BreakLines(p);
      }
      UnbreakRoundTrip(p);
    }
  }

  // ---------------------------------------------------------------------
  // flag
  // ---------------------------------------------------------------------

  /** `ord('🇦') - ord('A')`: the distance from a letter to its regional indicator symbol. */
  const RegionalOffset := 127397

  const MaxCodePoint := 0x10FFFF

  /**
    `chr(ord(c.upper()) + 127397)`, or `None` where `chr` raises
    `ValueError` (the sum is above U+10FFFF). The sum is never a surrogate,
    since it is at least 127397.
   */
  function FlagChar(c: char): (r: Option<char>)
    ensures r.None? <==> Upper(c) as int + RegionalOffset > MaxCodePoint
    ensures r.Some? ==> r.value as int == Upper(c) as int + RegionalOffset
  {
    var p := Upper(c) as int + RegionalOffset;
    if p > MaxCodePoint then None else Some(p as char)
  }

  function FlagText(code: string): (r: Option<string>)
    ensures r.None? <==> exists i :: 0 <= i < |code| && FlagChar(code[i]).None?
    ensures r.Some? ==> |r.value| == |code| && forall i :: 0 <= i < |code| ==> FlagChar(code[i]) == Some(r.value[i])
  {
    if |code| == 0 then Some("")
    else
      match (FlagChar(code[0]), FlagText(code[1..]))
      case (Some(f), Some(rest)) => Some([f] + rest)
      case (None, _) => None
      case (_, None) =>
        assert forall i :: 0 <= i < |code[1..]| ==> code[1..][i] == code[i + 1];
        None
  }

  /** `flag(country_code)`: empty for a missing code; `None` stands for the `ValueError` of an out-of-range character. */
  function Flag(code: Option<string>): (r: Option<string>)
    ensures code.None? ==> r == Some("")
    ensures code.Some? ==> (r.None? <==> exists i :: 0 <= i < |code.value| && Upper(code.value[i]) as int + RegionalOffset > MaxCodePoint)
    ensures r.Some? && code.Some? ==>
              && |r.value| == |code.value|
              && forall i :: 0 <= i < |code.value| ==> r.value[i] as int == Upper(code.value[i]) as int + RegionalOffset
  {
    if code.None? then Some("") else FlagText(code.value)
  }

  predicate IsRegionalIndicator(c: char) { 0x1F1E6 <= c as int <= 0x1F1FF }

  /** A code made of letters always converts, and each letter becomes one of the 26 regional indicator symbols. */
  lemma FlagOfLetters(code: string)
    requires forall i :: 0 <= i < |code| ==> IsAsciiLetter(code[i])
    ensures Flag(Some(code)).Some?
    ensures forall i :: 0 <= i < |code| ==> IsRegionalIndicator(Flag(Some(code)).value[i])
  {
  }

  /** Two codes that agree letter for letter up to case give the same flag. */
  lemma {:induction false} FlagTextUpToCase(a: string, b: string)
    requires |a| == |b|
    requires forall i :: 0 <= i < |a| ==> Upper(a[i]) == Upper(b[i])
    ensures FlagText(a) == FlagText(b)
  {
    if |a| > 0 {
      FlagTextUpToCase(a[1..], b[1..]);
      assert FlagChar(a[0]) == FlagChar(b[0]);
    }
  }

  /** The case of the code makes no difference: `flag('de') == flag('DE')`. */
  lemma FlagIgnoresCase(code: string)
    ensures Flag(Some(LowerString(code))) == Flag(Some(code))
    ensures Flag(Some(UpperString(code))) == Flag(Some(code))
  {
    FlagTextUpToCase(LowerString(code), code);
    FlagTextUpToCase(UpperString(code), code);
  }

  /** Reads a flag back as the country code it shows, in capitals. */
  function CountryCode(flag: string): (code: string)
    requires forall i :: 0 <= i < |flag| ==> IsRegionalIndicator(flag[i])
    ensures |code| == |flag|
    ensures forall i :: 0 <= i < |code| ==> IsUpper(code[i])
  {
    seq(|flag|, i requires 0 <= i < |flag| && IsRegionalIndicator(flag[i]) => (flag[i] as int - RegionalOffset) as char)
  }

  /** A letter code survives the round trip through its flag, capitalised. */
  lemma FlagRoundTrip(code: string)
    requires forall i :: 0 <= i < |code| ==> IsAsciiLetter(code[i])
    ensures Flag(Some(code)).Some?
    ensures forall i :: 0 <= i < |code| ==> IsRegionalIndicator(Flag(Some(code)).value[i])
    ensures CountryCode(Flag(Some(code)).value) == UpperString(code)
  {
    FlagOfLetters(code);
    var f := Flag(Some(code)).value;
    forall i | 0 <= i < |code|
      ensures CountryCode(f)[i] == UpperString(code)[i]
    {
      assert FlagChar(code[i]) == Some(f[i]);
    }
  }
}
