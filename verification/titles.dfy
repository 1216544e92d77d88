/**
 * Article titles: `embedded_file_name` of src/parse.rs and its older twin
 * `file_name_from_header` of src/lib.rs.
 *
 * Both read the first Markdown header (`^#+\s+(.*\S)\s*`), trim it, strip a
 * series prefix (`20 Things #` or `Monstrous Lair #`) and remove the first
 * colon. The newer one also replaces the placeholder title `Name` by the name
 * on the copyright line when there is one.
 */
module Titles {
  import opened Results
  import opened Strings

  const ThingsPrefix: string := "20 Things #"
  const LairPrefix: string := "Monstrous Lair #"
  const Placeholder: string := "Name"

  /**
   * The capture of `^#+\s+(.*\S)\s*`: after the run of `#` and the white space
   * that follows it (which may cross line ends), the rest of that line up to its
   * last non-white-space character.
   */
  function HeaderCapture(s: string): (r: Option<string>)
    ensures r.Some? ==> |s| > 0 && s[0] == '#'
    ensures r.Some? ==> && r.value != []
                        && !IsWhitespace(r.value[0])
                        && !IsWhitespace(r.value[|r.value| - 1])
                        && '\n' !in r.value
  {
    var h := Skip(s, 0, Hashes);
    if h == 0 then None
    else
      var w := Skip(s, h, Spaces);
      if w == h || w == |s| then None
      else
        var line := s[w..IndexOf(s, w, '\n')];
        assert line[0] == s[w];
        Some(TrimEnd(line))
  }

  /** A header line `marker gap title` followed by nothing or by a new line captures the trimmed title. */
  lemma {:induction false} HeaderCaptureOf(marker: string, gap: string, title: string, rest: string)
    requires |marker| > 0 && forall k :: 0 <= k < |marker| ==> marker[k] == '#'
    requires |gap| > 0 && forall k :: 0 <= k < |gap| ==> IsWhitespace(gap[k])
    requires title != [] && !IsWhitespace(title[0]) && '\n' !in title
    requires rest == [] || rest[0] == '\n'
    ensures HeaderCapture(marker + gap + title + rest) == Some(TrimEnd(title))
  {
    var s := marker + gap + title + rest;
    var h := |marker|;
    var w := h + |gap|;
    var l := w + |title|;
    assert forall k :: 0 <= k < h ==> s[k] == marker[k];
    assert forall k :: h <= k < w ==> s[k] == gap[k - h];
    assert forall k :: w <= k < l ==> s[k] == title[k - w];
    SkipTo(s, 0, h, Hashes);
    SkipTo(s, h, w, Spaces);
    IndexOfIs(s, w, l, '\n');
    assert s[w..l] == title;
  }

  /** Text that does not start with `#`, or whose `#` run is not followed by white space, has no header. */
  lemma NoHeaderCapture(s: string)
    requires s == [] || s[0] != '#' || (var h := Skip(s, 0, Hashes); h == |s| || !IsWhitespace(s[h]))
    ensures HeaderCapture(s).None?
  {
  }

  /** `THINGS_20`: a leading series prefix is dropped; the result is trimmed either way. */
  function StripSeriesPrefix(t: string): (r: string)
    ensures r == [] || (!IsWhitespace(r[0]) && !IsWhitespace(r[|r| - 1]))
    ensures !StartsWith(t, ThingsPrefix) && !StartsWith(t, LairPrefix) ==> r == Trim(t)
    ensures StartsWith(t, ThingsPrefix) ==> r == Trim(t[|ThingsPrefix|..])
    ensures !StartsWith(t, ThingsPrefix) && StartsWith(t, LairPrefix) ==> r == Trim(t[|LairPrefix|..])
  {
    if StartsWith(t, ThingsPrefix) then Trim(t[|ThingsPrefix|..])
    else if StartsWith(t, LairPrefix) then Trim(t[|LairPrefix|..])
    else Trim(t)
  }

  /**
   * `\n[^#]+#\d\d:\s*([^.]+)\.\s*©` tried at the new line at `i`: the text up to
   * the next `#` must be non-empty, the `#` is followed by two digits and a colon;
   * the capture runs from the first non-white-space character after them (or the
   * last white-space character, when a period comes at once) to the next period,
   * which must be followed, past white space, by `©`.
   */
  function CopyrightNameAt(s: string, i: nat): (r: Option<string>)
    requires i < |s| && s[i] == '\n'
    ensures r.Some? ==> r.value != [] && '.' !in r.value
  {
    var h := IndexOf(s, i + 1, '#');
    if h == i + 1 || h + 3 >= |s| then None
    else CopyrightNameAfter(s, h)
  }

  /** The rest of the copyright-line pattern, from the `#` at `h` on. */
  function CopyrightNameAfter(s: string, h: nat): (r: Option<string>)
    requires h + 3 < |s|
    ensures r.Some? ==> r.value != [] && '.' !in r.value
  {
    if !(IsDigit(s[h + 1]) && IsDigit(s[h + 2]) && s[h + 3] == ':') then None
    else
      var w := Skip(s, h + 4, Spaces);
      var d := IndexOf(s, w, '.');
      if d == |s| || (d == w && w == h + 4) then None
      else
        var start := if d > w then w else w - 1;
        var e := Skip(s, d + 1, Spaces);
        if e < |s| && s[e] == '©' then
          assert forall k :: start <= k < d ==> s[k] != '.';
          Some(s[start..d])
        else None
  }

  /** Where the leftmost match of the copyright-line pattern at or after `i` starts, or `|s|` when there is none. */
  function CopyrightLineFrom(s: string, i: nat): (j: nat)
    requires i <= |s|
    ensures i <= j <= |s|
    ensures j < |s| ==> s[j] == '\n' && CopyrightNameAt(s, j).Some?
    ensures forall k :: i <= k < j && s[k] == '\n' ==> CopyrightNameAt(s, k).None?
    decreases |s| - i
  {
    if i == |s| || (s[i] == '\n' && CopyrightNameAt(s, i).Some?) then i
    else CopyrightLineFrom(s, i + 1)
  }

  /**
   * The pattern read position by position: a new line at `i`, a non-empty run
   * without `#` up to `h`, `#`, two digits, `:`, white space up to `w`, the name
   * `s[w..d]` (no period, not starting with white space), a period at `d`, white
   * space up to `e` and `©` at `e`: then the name is what is captured.
   */
  lemma {:induction false} CopyrightNameAtOf(s: string, i: nat, h: nat, w: nat, d: nat, e: nat)
    requires i + 1 < h && h + 4 <= w < d < e < |s|
    requires s[i] == '\n' && forall k :: i + 1 <= k < h ==> s[k] != '#'
    requires s[h] == '#' && IsDigit(s[h + 1]) && IsDigit(s[h + 2]) && s[h + 3] == ':'
    requires forall k :: h + 4 <= k < w ==> IsWhitespace(s[k])
    requires !IsWhitespace(s[w]) && forall k :: w <= k < d ==> s[k] != '.'
    requires s[d] == '.' && forall k :: d + 1 <= k < e ==> IsWhitespace(s[k])
    requires s[e] == '©'
    ensures CopyrightNameAt(s, i) == Some(s[w..d])
  {
    CopyrightNameAfterOf(s, h, w, d, e);
    IndexOfIs(s, i + 1, h, '#');
    assert CopyrightNameAt(s, i) == CopyrightNameAfter(s, h);
  }

  lemma {:induction false} CopyrightNameAfterOf(s: string, h: nat, w: nat, d: nat, e: nat)
    requires h + 4 <= w < d < e < |s|
    requires IsDigit(s[h + 1]) && IsDigit(s[h + 2]) && s[h + 3] == ':'
    requires forall k :: h + 4 <= k < w ==> IsWhitespace(s[k])
    requires !IsWhitespace(s[w]) && forall k :: w <= k < d ==> s[k] != '.'
    requires s[d] == '.' && forall k :: d + 1 <= k < e ==> IsWhitespace(s[k])
    requires s[e] == '©'
    ensures CopyrightNameAfter(s, h) == Some(s[w..d])
  {
    SkipTo(s, h + 4, w, Spaces);
    IndexOfIs(s, w, d, '.');
    SkipTo(s, d + 1, e, Spaces);
  }

  /** The name captured by the leftmost match of the copyright-line pattern, if any. */
  function CopyrightLineName(s: string): (r: Option<string>)
    ensures r.None? <==> forall j :: 0 <= j < |s| && s[j] == '\n' ==> CopyrightNameAt(s, j).None?
    ensures r.Some? ==> r.value != [] && '.' !in r.value
  {
    var j := CopyrightLineFrom(s, 0);
    if j == |s| then None else CopyrightNameAt(s, j)
  }

  /** `embedded_file_name`: the title of an article, from its first header. */
  function EmbeddedFileName(s: string): (r: Result<string, Failure>)
    ensures r.Err? <==> HeaderCapture(s).None?
    ensures r.Err? ==> r.error == NotAMarkdownHeader
  {
    match HeaderCapture(s)
    case None => Err(NotAMarkdownHeader)
    case Some(capture) =>
      var t := StripSeriesPrefix(Trim(capture));
      var name := if t == Placeholder && CopyrightLineName(s).Some? then CopyrightLineName(s).value else t;
      Ok(RemoveFirstColon(name))
  }

  /** `file_name_from_header` (src/lib.rs): the same without the placeholder fallback. */
  function FileNameFromHeader(s: string): (r: Result<string, Failure>)
    ensures r.Err? <==> HeaderCapture(s).None?
    ensures r.Err? ==> r.error == NotAMarkdownHeader
  {
    match HeaderCapture(s)
    case None => Err(NotAMarkdownHeader)
    case Some(capture) => Ok(RemoveFirstColon(StripSeriesPrefix(Trim(capture))))
  }

  /**
   * The common case: for a header line `marker gap title` the name is the title,
   * trimmed, without its series prefix and without its first colon.
   */
  lemma {:induction false} EmbeddedFileNameOf(marker: string, gap: string, title: string, rest: string)
    requires |marker| > 0 && forall k :: 0 <= k < |marker| ==> marker[k] == '#'
    requires |gap| > 0 && forall k :: 0 <= k < |gap| ==> IsWhitespace(gap[k])
    requires title != [] && !IsWhitespace(title[0]) && '\n' !in title
    requires rest == [] || rest[0] == '\n'
    requires StripSeriesPrefix(Trim(title)) != Placeholder
    ensures EmbeddedFileName(marker + gap + title + rest) == Ok(RemoveFirstColon(StripSeriesPrefix(Trim(title))))
    ensures FileNameFromHeader(marker + gap + title + rest) == Ok(RemoveFirstColon(StripSeriesPrefix(Trim(title))))
  {
    HeaderCaptureOf(marker, gap, title, rest);
    TrimOfTrimmedEnd(title);
  }

  /** The capture is already trimmed at its end, so trimming it again is the same as trimming the title. */
  lemma {:induction false} TrimOfTrimmedEnd(t: string)
    requires t != [] && !IsWhitespace(t[0])
    ensures Trim(TrimEnd(t)) == Trim(t)
  {
    TrimStartNoop(t);
    var e := TrimEnd(t);
    assert e != [] by {
      assert !IsWhitespace(t[0]);
    }
    assert e[0] == t[0];
    TrimStartNoop(e);
  }

  lemma {:induction false} TrimStartNoop(t: string)
    requires t != [] && !IsWhitespace(t[0])
    ensures TrimStart(t) == t
  {
    SkipTo(t, 0, 0, Spaces);
  }

  /**
   * The two versions agree except on the placeholder title: only the newer one
   * looks for a better name on the copyright line.
   */
  lemma VersionsAgreeUnlessPlaceholder(s: string)
    requires HeaderCapture(s).Some? ==> StripSeriesPrefix(Trim(HeaderCapture(s).value)) != Placeholder
    ensures EmbeddedFileName(s) == FileNameFromHeader(s)
  {
  }

  /** The placeholder: the newer version takes the copyright-line name when there is one, the older keeps `Name`. */
  lemma {:induction false} PlaceholderFallback(s: string)
    requires HeaderCapture(s).Some? && StripSeriesPrefix(Trim(HeaderCapture(s).value)) == Placeholder
    ensures CopyrightLineName(s).Some? ==> EmbeddedFileName(s) == Ok(RemoveFirstColon(CopyrightLineName(s).value))
    ensures CopyrightLineName(s).None? ==> EmbeddedFileName(s) == Ok(Placeholder)
    ensures FileNameFromHeader(s) == Ok(Placeholder)
  {
    PlaceholderHasNoColon();
  }

  lemma {:induction false} PlaceholderHasNoColon()
    ensures RemoveFirstColon(Placeholder) == Placeholder
  {
    assert ':' !in Placeholder;
  }

  /** `embedded_file_name(" # Too Late")` fails: the header marker must come first. */
  lemma {:induction false} TooLateIsNoHeader()
    ensures EmbeddedFileName(" # Too Late").Err?
    ensures FileNameFromHeader(" # Too Late").Err?
  {
    NoHeaderCapture(" # Too Late");
  }
}
