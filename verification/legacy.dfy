/**
 * The older converter kept in src/lib.rs: `subdivide` and `parse`.
 *
 * `subdivide` splits an article like `name_copyright_body` does, but reads
 * the title from the first line only, keeps the whole prologue when there is
 * no sub-header, and uses a narrower `OGL` test. Its `parse` works on runs of
 * lines of one kind: each run is copied as it stands, a list run is framed by a
 * dice-code paragraph before it and an anchor paragraph after it, and nothing
 * is collapsed.
 */
module Legacy {
  import opened Results
  import opened Strings
  import opened Lexer
  import opened Anchors
  import opened Titles
  import opened Segmenter

  const Paragraph: string := "\n\n"
  const StartLink: string := "^START"

  /** What `subdivide` returns. */
  function Subdivide(contents: string): (r: Result<Segments, Failure>)
    ensures r.Ok? && '\n' in contents ==> var header := FileNameFromHeader(contents[..IndexOf(contents, 0, '\n')]); header.Ok? && r.value.name == header.value
  {
    var newline := IndexOf(contents, 0, '\n');
    if newline == |contents| then
      match FileNameFromHeader(contents)
      case Err(e) => Err(e)
      case Ok(name) => Ok(Segments(name, "", ""))
    else
      match FileNameFromHeader(contents[..newline])
      case Err(e) => Err(e)
      case Ok(name) =>
        var proem := SubdivideProem(contents);
        var remainder := SubdivideRemainder(contents);
        if remainder == "" then Ok(Segments(name, proem, ""))
        else
          var kept := Kept(AtStart, RustLines(proem));
          if kept == [] then Err(NoLicenceLine)
          else Ok(Segments(name, Terminated(kept), remainder))
  }

  /** `subdivide`. */
  method SubdivideMethod(contents: string) returns (r: Result<Segments, Failure>)
    ensures r == Subdivide(contents)
  {
    var newline := IndexOf(contents, 0, '\n');
    if newline == |contents| {
      var name := FileNameFromHeader(contents);
      if name.Err? {
        return Err(name.error);
      }
      return Ok(Segments(name.value, "", ""));
    }
    var header := contents[..newline];
    var obsidianFileName := FileNameFromHeader(header);
    if obsidianFileName.Err? {
      return Err(obsidianFileName.error);
    }
    var proem, remainder := SplitAfterTitle(contents, newline);
    var prologue := PrologueOf(proem, remainder);
    if prologue == [] {
      return Err(NoLicenceLine);
    }
    return Ok(Segments(obsidianFileName.value, Concat(prologue), remainder));
  }

  /** The end of `subdivide`: the whole prologue when there is no body, else its licence lines. */
  method PrologueOf(proem: string, remainder: string) returns (prologue: seq<string>)
    ensures remainder == "" ==> prologue != [] && Concat(prologue) == proem
    ensures remainder != "" ==> (prologue == [] <==> Kept(AtStart, RustLines(proem)) == [])
    ensures remainder != "" ==> Concat(prologue) == Terminated(Kept(AtStart, RustLines(proem)))
  {
    if remainder == "" {
      prologue := [proem];
      assert prologue[1..] == [];
      assert Concat(prologue) == proem + [];
    } else {
      prologue := LicenceLines(AtStart, RustLines(proem));
    }
  }

  /** The middle of `subdivide`: the prologue text and the body, cut at the first sub-header. */
  method SplitAfterTitle(contents: string, newline: nat) returns (proem: string, remainder: string)
    requires newline == IndexOf(contents, 0, '\n') < |contents|
    ensures proem == SubdivideProem(contents) && remainder == SubdivideRemainder(contents)
  {
    proem := contents[newline..];
    var sub := SubheadFrom(proem, 0);
    if sub < |proem| {
      remainder := proem[sub..];
      var proStart := if sub == 0 then 0 else 1;
      proem := proem[proStart..sub];
    } else {
      proem := proem[1..];
      remainder := "";
    }
  }

  /** Without a sub-header the whole text after the title line is the prologue, unchecked. */
  lemma {:induction false} SubdivideWithoutSubhead(contents: string)
    requires IndexOf(contents, 0, '\n') < |contents|
    requires FileNameFromHeader(contents[..IndexOf(contents, 0, '\n')]).Ok?
    requires SubheadFrom(AfterTitle(contents), 0) == |AfterTitle(contents)|
    ensures Subdivide(contents).Ok?
    ensures Subdivide(contents).value.prologue == contents[IndexOf(contents, 0, '\n') + 1..]
    ensures Subdivide(contents).value.body == ""
  {
    ProemWithoutSubhead(contents);
    SubdivideNoBody(contents);
  }

  lemma {:induction false} ProemWithoutSubhead(contents: string)
    requires IndexOf(contents, 0, '\n') < |contents|
    requires SubheadFrom(AfterTitle(contents), 0) == |AfterTitle(contents)|
    ensures SubdivideRemainder(contents) == ""
    ensures SubdivideProem(contents) == contents[IndexOf(contents, 0, '\n') + 1..]
  {
    var n := IndexOf(contents, 0, '\n');
    var rest := AfterTitle(contents);
    assert rest[1..] == contents[n + 1..];
  }

  lemma SubdivideNoBody(contents: string)
    requires IndexOf(contents, 0, '\n') < |contents|
    requires FileNameFromHeader(contents[..IndexOf(contents, 0, '\n')]).Ok?
    requires SubdivideRemainder(contents) == ""
    ensures Subdivide(contents) == Ok(Segments(FileNameFromHeader(contents[..IndexOf(contents, 0, '\n')]).value, SubdivideProem(contents), ""))
  {
  }

  /** With a sub-header the split fails exactly when no line of the prologue passes the licence test. */
  lemma SubdivideWithSubhead(contents: string)
    requires IndexOf(contents, 0, '\n') < |contents|
    requires FileNameFromHeader(contents[..IndexOf(contents, 0, '\n')]).Ok?
    requires SubheadFrom(AfterTitle(contents), 0) < |AfterTitle(contents)|
    ensures var lines := RustLines(SubdivideProem(contents));
            Subdivide(contents).Err? <==> forall k :: 0 <= k < |lines| ==> !Licensed(AtStart, lines[k])
  {
  }

  /** A successful split with a sub-header returns the same body as the newer version, starting at that sub-header. */
  lemma {:induction false} SubdivideBody(contents: string)
    requires IndexOf(contents, 0, '\n') < |contents|
    requires Subdivide(contents).Ok? && Subdivide(contents).value.body != ""
    ensures Subdivide(contents).value.body == Remainder(contents)
    ensures SubheadAt(Subdivide(contents).value.body, 0)
  {
    SubdivideKeepsRemainder(contents);
    SameRemainder(contents);
    SegmentBoundary(contents);
  }

  lemma {:induction false} SubdivideKeepsRemainder(contents: string)
    requires IndexOf(contents, 0, '\n') < |contents|
    requires Subdivide(contents).Ok?
    ensures Subdivide(contents).value.body == SubdivideRemainder(contents)
  {
    var n := IndexOf(contents, 0, '\n');
    var header := FileNameFromHeader(contents[..n]);
    assert header.Ok?;
    var remainder := SubdivideRemainder(contents);
    if remainder != "" {
      var kept := Kept(AtStart, RustLines(SubdivideProem(contents)));
      assert Subdivide(contents) == Ok(Segments(header.value, Terminated(kept), remainder));
    }
  }

  lemma SameRemainder(contents: string)
    ensures SubdivideRemainder(contents) == Remainder(contents)
  {
  }

  /** The prologue text of `subdivide`: after the title line, without its leading new line, up to the first sub-header. */
  function SubdivideProem(contents: string): string
  {
    var rest := AfterTitle(contents);
    var sub := SubheadFrom(rest, 0);
    if sub < |rest| then rest[(if sub == 0 then 0 else 1)..sub] else if rest == [] then [] else rest[1..]
  }

  /** The body `subdivide` returns: from the first sub-header on, or nothing. */
  function SubdivideRemainder(contents: string): string
  {
    var rest := AfterTitle(contents);
    var sub := SubheadFrom(rest, 0);
    if sub < |rest| then rest[sub..] else ""
  }

  /**
   * A piece of the output of `parse`: a run of lines copied from the input, or
   * a paragraph, dice code or anchor put in between runs.
   */
  datatype Piece = Literal(text: string) | Inserted(text: string)

  /** The strings `parse` pushes, in order. */
  function Plain(pieces: seq<Piece>): seq<string> {
    seq(|pieces|, k requires 0 <= k < |pieces| => pieces[k].text)
  }

  /** Pushing the texts of more pieces onto the output keeps it the text of the pieces. */
  lemma Pushed(output: seq<string>, pieces: seq<Piece>, more: seq<Piece>)
    requires output == Plain(pieces)
    ensures output + Plain(more) == Plain(pieces + more)
  {
  }

  lemma FramesPlain(name: string, link: string)
    ensures Plain(LinkPieces(link)) == [Paragraph, link, Paragraph]
    ensures Plain(DicePieces(name, link)) == [Paragraph, DiceCode(name, link), Paragraph]
  {
  }

  /** The text of the copied pieces alone: the output with every inserted piece deleted. */
  function LiteralText(pieces: seq<Piece>): string {
    if pieces == [] then []
    else (if pieces[0].Literal? then pieces[0].text else []) + LiteralText(pieces[1..])
  }

  lemma {:induction false} LiteralTextAppend(a: seq<Piece>, b: seq<Piece>)
    ensures LiteralText(a + b) == LiteralText(a) + LiteralText(b)
  {
    if a != [] {
      assert (a + b)[1..] == a[1..] + b;
      LiteralTextAppend(a[1..], b);
    } else {
      assert a + b == b;
    }
  }

  /** Inserted pieces contribute nothing to the copied text. */
  lemma {:induction false} LiteralTextOfInserted(pieces: seq<Piece>)
    requires forall k :: 0 <= k < |pieces| ==> pieces[k].Inserted?
    ensures LiteralText(pieces) == []
  {
    if pieces != [] {
      LiteralTextOfInserted(pieces[1..]);
    }
  }

  /** When nothing was inserted, the output is the copied text. */
  lemma {:induction false} AllLiteral(pieces: seq<Piece>)
    requires forall k :: 0 <= k < |pieces| ==> pieces[k].Literal?
    ensures Concat(Plain(pieces)) == LiteralText(pieces)
  {
    if pieces != [] {
      AllLiteral(pieces[1..]);
      assert Plain(pieces) == [pieces[0].text] + Plain(pieces[1..]);
      ConcatCons(pieces[0].text, Plain(pieces[1..]));
    }
  }

  /** The paragraph-wrapped fragment put before a list run: the dice code for the current anchor. */
  function DicePieces(name: string, link: string): seq<Piece> {
    [Inserted(Paragraph), Inserted(DiceCode(name, link)), Inserted(Paragraph)]
  }

  /** The paragraph-wrapped fragment put after a list run: the anchor. */
  function LinkPieces(link: string): seq<Piece> {
    [Inserted(Paragraph), Inserted(link), Inserted(Paragraph)]
  }

  /** The state of the loop of `parse`: the output so far, the run being gathered, its kind and the anchor. */
  datatype Scan = Scan(output: seq<Piece>, start: nat, end: nat, previous: LineKind, link: string)

  /** Consecutive lines: each token starts where the one before ends. */
  predicate Chained(toks: seq<Token>) {
    forall k :: 0 <= k < |toks| - 1 ==> toks[k].end == toks[k + 1].start
  }

  /** One turn of the loop: extend the run, or close it (framing a list run) and open the next. */
  function ScanStep(name: string, s: string, sc: Scan, t: Token): Scan
    requires sc.start <= sc.end <= |s| && t.start <= t.end <= |s|
  {
    if t.kind == sc.previous then sc.(end := t.end)
    else
      var after := if sc.previous == ListItem then LinkPieces(sc.link) else [];
      var before := if t.kind == ListItem then DicePieces(name, sc.link) else [];
      var link := if t.kind == Header then Slug(Text(s, t)) else sc.link;
      Scan(sc.output + [Literal(s[sc.start..sc.end])] + after + before, t.start, t.end, t.kind, link)
  }

  /** The loop state after the lines `toks`. */
  function ScanAfter(name: string, s: string, toks: seq<Token>): (sc: Scan)
    requires Lexed(s, toks) && Chained(toks)
    ensures sc.start <= sc.end <= |s|
    ensures toks == [] ==> sc.end == 0 && sc.previous == Vanilla
    ensures toks != [] ==> sc.end == toks[|toks| - 1].end && sc.previous == toks[|toks| - 1].kind
  {
    if toks == [] then Scan([], 0, 0, Vanilla, StartLink)
    else
      var init := toks[..|toks| - 1];
      assert Chained(init) by {
        forall k | 0 <= k < |init| - 1
          ensures init[k].end == init[k + 1].start
        {
          assert init[k] == toks[k] && init[k + 1] == toks[k + 1];
        }
      }
      var last := toks[|toks| - 1];
      assert WellFormed(s, last);
      ScanStep(name, s, ScanAfter(name, s, init), last)
  }

  /** The last push of `parse`: the final run, and after a list run its dice code again (not the anchor). */
  function Finish(name: string, s: string, sc: Scan): seq<Piece>
    requires sc.start <= sc.end <= |s|
  {
    sc.output + [Literal(s[sc.start..sc.end])] + (if sc.previous == ListItem then DicePieces(name, sc.link) else [])
  }

  /** The pieces `parse` of src/lib.rs outputs for a text that starts with a new line. */
  function LegacyPieces(name: string, contents: string): seq<Piece>
    requires contents == [] || contents[0] == '\n'
  {
    Finish(name, contents, ScanAfter(name, contents, Lex(contents)))
  }

  /** What `parse` of src/lib.rs returns. */
  function LegacyTransform(name: string, contents: string): (r: Result<string, Failure>)
    ensures r.Err? <==> contents != [] && contents[0] != '\n'
    ensures r.Err? ==> r.error == MustStartWithNewline
    ensures contents == [] ==> r == Ok([])
  {
    if contents == [] then Ok([])
    else if contents[0] != '\n' then Err(MustStartWithNewline)
    else Ok(Concat(Plain(LegacyPieces(name, contents))))
  }

  /** `parse` of src/lib.rs. */
  method LegacyParse(name: string, contents: string) returns (r: Result<string, Failure>)
    ensures r == LegacyTransform(name, contents)
  {
    if contents == [] {
      return Ok([]);
    }
    if contents[0] != '\n' {
      return Err(MustStartWithNewline);
    }
    var output: seq<string> := [];
    ghost var pieces: seq<Piece> := [];
    var start: nat, end: nat := 0, 0;
    var previous := Vanilla;
    var link := StartLink;
    var toks := Lex(contents);
    for i := 0 to |toks|
      invariant Chained(toks[..i])
      invariant Scan(pieces, start, end, previous, link) == ScanAfter(name, contents, toks[..i])
      invariant output == Plain(pieces)
    {
      var t := toks[i];
      ScanAfterSnoc(name, contents, toks, i);
      if t.kind == previous {
        end := t.end;
      } else {
        output, pieces, link := NextRun(name, contents, output, pieces, start, end, previous, link, t);
        start, end := t.start, t.end;
      }
      previous := t.kind;
    }
    assert toks[..|toks|] == toks;
    Pushed(output, pieces, [Literal(contents[start..end])]);
    output, pieces := output + [contents[start..end]], pieces + [Literal(contents[start..end])];
    if previous == ListItem {
      Pushed(output, pieces, DicePieces(name, link));
      FramesPlain(name, link);
      output, pieces := output + [Paragraph, DiceCode(name, link), Paragraph], pieces + DicePieces(name, link);
    } else {
      assert pieces + [] == pieces;
    }
    assert pieces == LegacyPieces(name, contents);
    assert output == Plain(LegacyPieces(name, contents));
    r := Ok(Concat(output));
  }

  /**
   * The turn of the loop of `parse` that meets a line of another kind: push
   * the run, the anchor after a list run, and the dice code before a list run;
   * a header line sets the anchor.
   */
  method NextRun(name: string, s: string, output: seq<string>, ghost pieces: seq<Piece>,
                 start: nat, end: nat, previous: LineKind, link: string, t: Token)
    returns (output': seq<string>, ghost pieces': seq<Piece>, link': string)
    requires start <= end <= |s| && t.start <= t.end <= |s| && t.kind != previous
    requires output == Plain(pieces)
    ensures ScanStep(name, s, Scan(pieces, start, end, previous, link), t) == Scan(pieces', t.start, t.end, t.kind, link')
    ensures output' == Plain(pieces')
  {
    Pushed(output, pieces, [Literal(s[start..end])]);
    output', pieces' := output + [s[start..end]], pieces + [Literal(s[start..end])];
    if previous == ListItem {
      Pushed(output', pieces', LinkPieces(link));
      FramesPlain(name, link);
      output', pieces' := output' + [Paragraph, link, Paragraph], pieces' + LinkPieces(link);
    } else {
      assert pieces' + [] == pieces';
    }
    link' := link;
    if t.kind == Header {
      link' := MakeLink(s[t.start..t.end]);
    } else if t.kind == ListItem {
      Pushed(output', pieces', DicePieces(name, link));
      FramesPlain(name, link);
      output', pieces' := output' + [Paragraph, DiceCode(name, link), Paragraph], pieces' + DicePieces(name, link);
    }
    if t.kind != ListItem {
      assert pieces' + [] == pieces';
    }
  }

  lemma {:induction false} ScanAfterSnoc(name: string, s: string, toks: seq<Token>, i: nat)
    requires Tokenizes(s, 0, toks) && i < |toks| && Chained(toks[..i])
    ensures Chained(toks[..i + 1])
    ensures WellFormed(s, toks[i])
    ensures ScanAfter(name, s, toks[..i + 1]) == ScanStep(name, s, ScanAfter(name, s, toks[..i]), toks[i])
  {
    var p := toks[..i + 1];
    assert p[..i] == toks[..i];
    forall k | 0 <= k < |p| - 1
      ensures p[k].end == p[k + 1].start
    {
      assert p[k] == toks[k] && p[k + 1] == toks[k + 1];
    }
  }

  /** The kind of the last line seen. */
  function PreviousKind(toks: seq<Token>): LineKind {
    if toks == [] then Vanilla else toks[|toks| - 1].kind
  }

  /**
   * The anchor after the lines `toks`: the slug of the FIRST line of the last
   * run of header lines (the anchor is only set when a header run is entered),
   * or `^START`.
   */
  function LegacyLink(s: string, toks: seq<Token>): string
    requires Lexed(s, toks)
  {
    if toks == [] then StartLink
    else
      var init := toks[..|toks| - 1];
      var last := toks[|toks| - 1];
      if last.kind == Header && PreviousKind(init) != Header then Slug(Text(s, last)) else LegacyLink(s, init)
  }

  /** The last run of lines of one kind. */
  function TrailingRun(toks: seq<Token>): (run: seq<Token>)
    ensures |run| <= |toks| && run == toks[|toks| - |run|..]
    ensures toks != [] ==> run != []
  {
    if toks == [] then []
    else
      var init := toks[..|toks| - 1];
      var last := toks[|toks| - 1];
      if init != [] && init[|init| - 1].kind == last.kind then TrailingRun(init) + [last] else [last]
  }

  /** Lines that start at the beginning of the text and follow each other. */
  predicate FromStart(s: string, toks: seq<Token>) {
    Lexed(s, toks) && Chained(toks) && (toks != [] ==> toks[0].start == 0)
  }

  lemma {:induction false} FromStartInit(s: string, toks: seq<Token>)
    requires FromStart(s, toks) && toks != []
    ensures FromStart(s, toks[..|toks| - 1])
    ensures toks[|toks| - 1].start == ScanAfterEnd(s, toks[..|toks| - 1])
  {
    var init := toks[..|toks| - 1];
    forall k | 0 <= k < |init| - 1
      ensures init[k].end == init[k + 1].start
    {
      assert init[k] == toks[k] && init[k + 1] == toks[k + 1];
    }
  }

  /** Where the lines `toks` end: the end of the last one, or 0. */
  function ScanAfterEnd(s: string, toks: seq<Token>): nat {
    if toks == [] then 0 else toks[|toks| - 1].end
  }

  /** How the last line moves the run: it extends the run of its own kind, or starts a new one. */
  lemma {:induction false} ScanAfterLast(name: string, s: string, toks: seq<Token>)
    requires FromStart(s, toks) && toks != []
    ensures FromStart(s, toks[..|toks| - 1])
    ensures var init, last := toks[..|toks| - 1], toks[|toks| - 1];
            var before, after := ScanAfter(name, s, init), ScanAfter(name, s, toks);
            && WellFormed(s, last)
            && last.start == before.end
            && after == ScanStep(name, s, before, last)
            && before.previous == PreviousKind(init)
  {
    FromStartInit(s, toks);
  }

  /** The anchor of the loop is the first line of the last header run. */
  lemma {:induction false} ScanLink(name: string, s: string, toks: seq<Token>)
    requires FromStart(s, toks)
    ensures ScanAfter(name, s, toks).link == LegacyLink(s, toks)
  {
    if toks != [] {
      FromStartInit(s, toks);
      ScanLink(name, s, toks[..|toks| - 1]);
    }
  }

  /** The run being gathered is exactly the text of the last run of lines of one kind. */
  lemma {:induction false} ScanRun(name: string, s: string, toks: seq<Token>)
    requires FromStart(s, toks)
    ensures Lexed(s, TrailingRun(toks))
    ensures s[ScanAfter(name, s, toks).start..ScanAfter(name, s, toks).end] == Concat(Texts(s, TrailingRun(toks)))
  {
    var run := TrailingRun(toks);
    LexedSuffix(s, toks, |toks| - |run|);
    if toks == [] {
      assert run == [];
    } else {
      var init := toks[..|toks| - 1];
      var last := toks[|toks| - 1];
      ScanAfterLast(name, s, toks);
      if init != [] && init[|init| - 1].kind == last.kind {
        ScanRun(name, s, init);
        RunExtends(s, ScanAfter(name, s, init).start, TrailingRun(init), last);
        assert run == TrailingRun(init) + [last];
      } else {
        RunStarts(s, last);
        assert run == [last];
      }
    }
  }

  /** A suffix of lexed lines is lexed. */
  lemma {:induction false} LexedSuffix(s: string, toks: seq<Token>, i: nat)
    requires Lexed(s, toks) && i <= |toks|
    ensures Lexed(s, toks[i..])
  {
    forall k | 0 <= k < |toks| - i
      ensures WellFormed(s, toks[i..][k])
    {
      assert toks[i..][k] == toks[i + k];
    }
  }

  /** Extending a run by the next line extends its text by that line. */
  lemma {:induction false} RunExtends(s: string, start: nat, run: seq<Token>, last: Token)
    requires Lexed(s, run) && WellFormed(s, last)
    requires start <= last.start && s[start..last.start] == Concat(Texts(s, run))
    ensures Lexed(s, run + [last])
    ensures s[start..last.end] == Concat(Texts(s, run + [last]))
  {
    var r := run + [last];
    assert Lexed(s, r);
    TextsSnoc(s, r);
    assert r[..|r| - 1] == run;
    ConcatAppend(Texts(s, run), [Text(s, last)]);
    ConcatOne(Text(s, last));
    SliceSplit(s, start, last.start, last.end);
  }

  /** A fresh run of one line has that line's text. */
  lemma {:induction false} RunStarts(s: string, last: Token)
    requires WellFormed(s, last)
    ensures Lexed(s, [last])
    ensures Concat(Texts(s, [last])) == s[last.start..last.end]
  {
    assert Texts(s, [last]) == [Text(s, last)];
    ConcatOne(Text(s, last));
  }

  /** Closing a run copies it into the output; what is inserted after it adds nothing to the copied text. */
  lemma {:induction false} CloseRun(output: seq<Piece>, run: string, inserted: seq<Piece>)
    requires forall k :: 0 <= k < |inserted| ==> inserted[k].Inserted?
    ensures LiteralText(output + [Literal(run)] + inserted) == LiteralText(output) + run
  {
    LiteralTextAppend(output + [Literal(run)], inserted);
    LiteralTextOfInserted(inserted);
    LiteralTextAppend(output, [Literal(run)]);
    assert LiteralText([Literal(run)]) == run;
  }

  /** The turn that starts a new run copies the run it closes. */
  lemma {:induction false} SwitchLiterals(name: string, s: string, sc: Scan, t: Token)
    requires sc.start <= sc.end == t.start <= t.end <= |s|
    requires LiteralText(sc.output) == s[..sc.start]
    requires t.kind != sc.previous
    ensures LiteralText(ScanStep(name, s, sc, t).output) == s[..t.start]
  {
    var after := if sc.previous == ListItem then LinkPieces(sc.link) else [];
    var before := if t.kind == ListItem then DicePieces(name, sc.link) else [];
    assert sc.output + [Literal(s[sc.start..sc.end])] + after + before == sc.output + [Literal(s[sc.start..sc.end])] + (after + before);
    CloseRun(sc.output, s[sc.start..sc.end], after + before);
    SliceSplit(s, 0, sc.start, sc.end);
  }

  /** Deleting the inserted pieces of the output so far gives back the text before the run being gathered. */
  lemma {:induction false} ScanLiterals(name: string, s: string, toks: seq<Token>)
    requires FromStart(s, toks)
    ensures LiteralText(ScanAfter(name, s, toks).output) == s[..ScanAfter(name, s, toks).start]
  {
    if toks != [] {
      var init, last := toks[..|toks| - 1], toks[|toks| - 1];
      ScanAfterLast(name, s, toks);
      ScanLiterals(name, s, init);
      var before := ScanAfter(name, s, init);
      if last.kind != before.previous {
        SwitchLiterals(name, s, before, last);
      }
    }
  }

  /**
   * Nothing of the input is lost or changed: deleting every inserted
   * paragraph, dice code and anchor from the output of `parse` gives back its
   * input exactly.
   */
  lemma {:induction false} LegacyKeepsInput(name: string, contents: string)
    requires contents == [] || contents[0] == '\n'
    ensures LiteralText(LegacyPieces(name, contents)) == contents
  {
    var toks := Lex(contents);
    assert FromStart(contents, toks);
    ScanLiterals(name, contents, toks);
    FinishLiterals(name, contents, ScanAfter(name, contents, toks));
  }

  /** The last push copies the last run; the dice code after it adds nothing to the copied text. */
  lemma {:induction false} FinishLiterals(name: string, s: string, sc: Scan)
    requires sc.start <= sc.end == |s|
    requires LiteralText(sc.output) == s[..sc.start]
    ensures LiteralText(Finish(name, s, sc)) == s
  {
    var dice := if sc.previous == ListItem then DicePieces(name, sc.link) else [];
    CloseRun(sc.output, s[sc.start..sc.end], dice);
    SliceSplit(s, 0, sc.start, sc.end);
    assert s[..sc.end] == s;
  }

  /** Without list lines nothing is ever inserted. */
  lemma {:induction false} ScanWithoutLists(name: string, s: string, toks: seq<Token>)
    requires FromStart(s, toks)
    requires forall k :: 0 <= k < |toks| ==> toks[k].kind != ListItem
    ensures forall k :: 0 <= k < |ScanAfter(name, s, toks).output| ==> ScanAfter(name, s, toks).output[k].Literal?
    ensures ScanAfter(name, s, toks).previous != ListItem
  {
    if toks != [] {
      ScanAfterLast(name, s, toks);
      ScanWithoutLists(name, s, toks[..|toks| - 1]);
    }
  }

  /** `parse` of src/lib.rs gives back a text without list lines unchanged. */
  lemma {:induction false} LegacyWithoutLists(name: string, contents: string)
    requires contents == [] || contents[0] == '\n'
    requires forall k :: 0 <= k < |Lex(contents)| ==> Lex(contents)[k].kind != ListItem
    ensures LegacyTransform(name, contents) == Ok(contents)
  {
    if contents != [] {
      var toks := Lex(contents);
      ScanWithoutLists(name, contents, toks);
      var pieces := LegacyPieces(name, contents);
      var sc := ScanAfter(name, contents, toks);
      assert pieces == sc.output + [Literal(contents[sc.start..sc.end])];
      AllLiteral(pieces);
      LegacyKeepsInput(name, contents);
    }
  }

  /**
   * Entering a list run: the run before it is copied as it stands, then comes
   * the dice code for the anchor in force, wrapped in paragraphs; after a list
   * run comes the anchor, wrapped in paragraphs.
   */
  lemma {:induction false} ListRunFramed(name: string, s: string, toks: seq<Token>)
    requires FromStart(s, toks) && toks != []
    requires toks[|toks| - 1].kind != PreviousKind(toks[..|toks| - 1])
    ensures var init := toks[..|toks| - 1];
            var link := LegacyLink(s, init);
            ScanAfter(name, s, toks).output ==
              ScanAfter(name, s, init).output + [Literal(Concat(Texts(s, TrailingRun(init))))]
              + (if PreviousKind(init) == ListItem then LinkPieces(link) else [])
              + (if toks[|toks| - 1].kind == ListItem then DicePieces(name, link) else [])
  {
    var init := toks[..|toks| - 1];
    ScanAfterLast(name, s, toks);
    ScanLink(name, s, init);
    ScanRun(name, s, init);
  }

  /** At the end of the input inside a list run, the dice code is put after it again, not the anchor. */
  lemma {:induction false} EndInList(name: string, contents: string)
    requires contents != [] && contents[0] == '\n'
    requires Lex(contents)[|Lex(contents)| - 1].kind == ListItem
    ensures var toks := Lex(contents);
            var sc := ScanAfter(name, contents, toks);
            LegacyPieces(name, contents) == sc.output + [Literal(Concat(Texts(contents, TrailingRun(toks))))] + DicePieces(name, LegacyLink(contents, toks))
  {
    var toks := Lex(contents);
    ScanLink(name, contents, toks);
    ScanRun(name, contents, toks);
  }
}
