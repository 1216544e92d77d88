/**
 * The Markdown transformer of src/parse.rs: `parse` and the `ParsedChapter`
 * builder it drives.
 *
 * The body of an article is lexed into lines. Ordinary lines and headers are
 * copied; a header also becomes the current anchor. A run of numbered list
 * lines is held back and replaced by a roll-trigger paragraph (the dice code
 * for the current anchor), the run rendered as a table, and a paragraph linking
 * back to the anchor. Finally runs of blank lines are collapsed.
 */
module Transformer {
  import opened Results
  import opened Strings
  import opened Lexer
  import opened Anchors
  import opened Tables
  import opened Newlines

  /** The paragraph break `push_as_paragraph` puts around its line. */
  const Pilcrow: string := "\n\n"
  /** The anchor in force before the first header. */
  const StartLink: string := "^START"

  /** The state of a `ParsedChapter` as a value: the pieces so far, the pending list lines and the anchor. */
  datatype Chapter = Chapter(parsed: seq<string>, list: seq<string>, link: string)

  /** `push_line`. */
  function PushedLine(c: Chapter, kind: LineKind, line: string): Chapter {
    match kind
    case ListItem => c.(list := c.list + [line])
    case Header => c.(parsed := c.parsed + [line], link := Slug(line))
    case Vanilla => c.(parsed := c.parsed + [line])
  }

  /** `change_kind`: open a list run with its dice code, or close one with its table and a link back. */
  function ChangedKind(name: string, c: Chapter, from: LineKind, to: LineKind): Result<Chapter, Failure> {
    if to == ListItem then Ok(c.(parsed := c.parsed + [Pilcrow, DiceCode(name, c.link), Pilcrow]))
    else if from == ListItem then
      match TableOf(c.list)
      case Err(e) => Err(e)
      case Ok(table) => Ok(Chapter(c.parsed + [table, Pilcrow, c.link, Pilcrow], [], c.link))
    else Ok(c)
  }

  /** One turn of the loop of `parse`: change kind if the kind changed, then push the line. */
  function Step(name: string, c: Chapter, previous: LineKind, kind: LineKind, line: string): Result<Chapter, Failure> {
    var changed := if previous != kind then ChangedKind(name, c, previous, kind) else Ok(c);
    match changed
    case Err(e) => Err(e)
    case Ok(c') => Ok(PushedLine(c', kind, line))
  }

  /** The kind of the last line seen: `old_kind` of `parse`. */
  function KindAfter(toks: seq<Token>): LineKind {
    if toks == [] then Vanilla else toks[|toks| - 1].kind
  }

  /** The chapter after the loop of `parse` has handled the lines `toks` of `s`. */
  function ChapterAfter(name: string, s: string, toks: seq<Token>): Result<Chapter, Failure>
    requires Lexed(s, toks)
  {
    if toks == [] then Ok(Chapter([], [], StartLink))
    else
      var init := toks[..|toks| - 1];
      var last := toks[|toks| - 1];
      match ChapterAfter(name, s, init)
      case Err(e) => Err(e)
      case Ok(c) => Step(name, c, KindAfter(init), last.kind, Text(s, last))
  }

  /** What `parse(name, contents)` returns. */
  function Transform(name: string, contents: string): (r: Result<string, Failure>)
    ensures contents == [] ==> r == Ok([])
    ensures contents != [] && contents[0] != '\n' ==> r == Err(MustStartWithNewline)
    ensures r.Ok? ==> NoTripleNewline(r.value)
  {
    if contents == [] then Ok([])
    else if contents[0] != '\n' then Err(MustStartWithNewline)
    else
      var toks := Lex(contents);
      match ChapterAfter(name, contents, toks)
      case Err(e) => Err(e)
      case Ok(c) =>
        match ChangedKind(name, c, KindAfter(toks), Vanilla)
        case Err(e) => Err(e)
        case Ok(c') => CollapseHasNoTriple(Concat(c'.parsed)); Ok(Collapse(Concat(c'.parsed)))
  }

  /** `ParsedChapter`: the output being built, the list lines held back and the current anchor. */
  class ParsedChapter {
    const name: string
    var parsed: seq<string>
    var list: seq<string>
    var link: string

    function State(): Chapter
      reads this
    {
      Chapter(parsed, list, link)
    }

    constructor(name: string, link: string)
      ensures this.name == name
      ensures parsed == [] && list == [] && this.link == link
    {
      this.name := name;
      parsed := [];
      list := [];
      this.link := link;
    }

    /** `push_line`: a list line is held back; a header becomes the anchor; every other line is output. */
    method PushLine(kind: LineKind, line: string)
      modifies this
      ensures kind == ListItem ==> list == old(list) + [line] && parsed == old(parsed) && link == old(link)
      ensures kind == Header ==> parsed == old(parsed) + [line] && list == old(list) && link == Slug(line)
      ensures kind == Vanilla ==> parsed == old(parsed) + [line] && list == old(list) && link == old(link)
    {
      match kind
      case ListItem =>
        list := list + [line];
      case Header =>
        link := MakeLink(line);
        parsed := parsed + [line];
      case Vanilla =>
        parsed := parsed + [line];
    }

    /** `change_kind`: entering a list run pushes the dice code; leaving one pushes the table and the anchor. */
    method ChangeKind(from: LineKind, to: LineKind) returns (r: Result<(), Failure>)
      modifies this
      ensures var expected := ChangedKind(name, old(State()), from, to);
              && (r.Ok? <==> expected.Ok?)
              && (r.Err? ==> r.error == expected.error)
              && (r.Ok? ==> State() == expected.value)
    {
      if to == ListItem {
        PushAsParagraph(DiceCode(name, link));
      } else if from == ListItem {
        var table := ListToTable(list);
        if table.Err? {
          return Err(table.error);
        }
        parsed := parsed + [table.value];
        list := [];
        PushAsParagraph(link);
      }
      return Ok(());
    }

    /** `push_as_paragraph`: the line between two paragraph breaks. */
    method PushAsParagraph(line: string)
      modifies this
      ensures parsed == old(parsed) + [Pilcrow, line, Pilcrow]
      ensures list == old(list) && link == old(link)
    {
      parsed := parsed + [Pilcrow];
      parsed := parsed + [line];
      parsed := parsed + [Pilcrow];
    }

    /** `Display`: the pieces joined, with no more than one blank line in a row and nothing else changed. */
    function Display(): (r: string)
      reads this
      ensures NoTripleNewline(r)
      ensures WithoutNewlines(r) == WithoutNewlines(Concat(parsed))
    {
      CollapseHasNoTriple(Concat(parsed));
      CollapseKeepsText(Concat(parsed));
      Collapse(Concat(parsed))
    }
  }

  /** `parse`: run the lexer, feed each line to the chapter, close the last run and render. */
  method Parse(name: string, contents: string) returns (r: Result<string, Failure>)
    ensures r == Transform(name, contents)
  {
    if contents == [] {
      return Ok([]);
    }
    if contents[0] != '\n' {
      return Err(MustStartWithNewline);
    }
    var chapter := new ParsedChapter(name, StartLink);
    var toks := Lex(contents);
    var fed, oldKind := FeedLines(chapter, contents, toks);
    if fed.Err? {
      TransformFails(name, contents);
      return Err(fed.error);
    }
    TransformOf(name, contents, chapter.State());
    var closed := chapter.ChangeKind(oldKind, Vanilla);
    if closed.Err? {
      return Err(closed.error);
    }
    r := Ok(chapter.Display());
  }

  /** The loop of `parse`: every line of `toks`, in order, through a fresh chapter. */
  method FeedLines(chapter: ParsedChapter, s: string, toks: seq<Token>) returns (r: Result<(), Failure>, oldKind: LineKind)
    requires Lexed(s, toks)
    requires chapter.State() == Chapter([], [], StartLink)
    modifies chapter
    ensures var expected := ChapterAfter(chapter.name, s, toks);
            && (r.Ok? <==> expected.Ok?)
            && (r.Err? ==> r.error == expected.error)
            && (r.Ok? ==> chapter.State() == expected.value && oldKind == KindAfter(toks))
  {
    oldKind := Vanilla;
    assert toks[..0] == [];
    for i := 0 to |toks|
      invariant ChapterAfter(chapter.name, s, toks[..i]) == Ok(chapter.State())
      invariant oldKind == KindAfter(toks[..i])
    {
      var t := toks[i];
      ChapterAfterSnoc(chapter.name, s, toks, i);
      assert WellFormed(s, t);
      var stepped := ParseLine(chapter, oldKind, t.kind, s[t.start..t.end]);
      if stepped.Err? {
        FailureSticks(chapter.name, s, toks, i + 1);
        return Err(stepped.error), oldKind;
      }
      oldKind := t.kind;
    }
    assert toks[..|toks|] == toks;
    return Ok(()), oldKind;
  }

  /** The body of the loop of `parse`: change kind when the kind changes, then push the line. */
  method ParseLine(chapter: ParsedChapter, oldKind: LineKind, kind: LineKind, line: string) returns (r: Result<(), Failure>)
    modifies chapter
    ensures var expected := Step(chapter.name, old(chapter.State()), oldKind, kind, line);
            && (r.Ok? <==> expected.Ok?)
            && (r.Err? ==> r.error == expected.error)
            && (r.Ok? ==> chapter.State() == expected.value)
  {
    if oldKind != kind {
      var changed := chapter.ChangeKind(oldKind, kind);
      if changed.Err? {
        return Err(changed.error);
      }
    }
    chapter.PushLine(kind, line);
    return Ok(());
  }

  lemma {:induction false} ChapterAfterSnoc(name: string, s: string, toks: seq<Token>, i: nat)
    requires Lexed(s, toks) && i < |toks|
    ensures KindAfter(toks[..i + 1]) == toks[i].kind
    ensures ChapterAfter(name, s, toks[..i]).Err? ==> ChapterAfter(name, s, toks[..i + 1]) == ChapterAfter(name, s, toks[..i])
    ensures ChapterAfter(name, s, toks[..i]).Ok? ==>
              ChapterAfter(name, s, toks[..i + 1]) == Step(name, ChapterAfter(name, s, toks[..i]).value, KindAfter(toks[..i]), toks[i].kind, Text(s, toks[i]))
  {
    assert toks[..i + 1][..i] == toks[..i];
  }

  /** The end of `parse`: the last run is closed and the pieces rendered. */
  lemma TransformOf(name: string, contents: string, c: Chapter)
    requires contents != [] && contents[0] == '\n'
    requires ChapterAfter(name, contents, Lex(contents)) == Ok(c)
    ensures ChangedKind(name, c, KindAfter(Lex(contents)), Vanilla).Err? ==>
              Transform(name, contents) == Err(ChangedKind(name, c, KindAfter(Lex(contents)), Vanilla).error)
    ensures ChangedKind(name, c, KindAfter(Lex(contents)), Vanilla).Ok? ==>
              Transform(name, contents) == Ok(Collapse(Concat(ChangedKind(name, c, KindAfter(Lex(contents)), Vanilla).value.parsed)))
  {
  }

  lemma TransformFails(name: string, contents: string)
    requires contents != [] && contents[0] == '\n'
    requires ChapterAfter(name, contents, Lex(contents)).Err?
    ensures Transform(name, contents) == Err(ChapterAfter(name, contents, Lex(contents)).error)
  {
  }

  /** Once a step fails, the chapter stays failed. */
  lemma {:induction false} FailureSticks(name: string, s: string, toks: seq<Token>, i: nat)
    requires Lexed(s, toks) && i <= |toks|
    requires ChapterAfter(name, s, toks[..i]).Err?
    ensures ChapterAfter(name, s, toks) == ChapterAfter(name, s, toks[..i])
    decreases |toks| - i
  {
    if i == |toks| {
      assert toks[..i] == toks;
    } else {
      assert toks[..i + 1][..i] == toks[..i];
      FailureSticks(name, s, toks, i + 1);
    }
  }

  /** The anchor in force after the lines `toks`: the slug of the last header among them, or `^START`. */
  function LastLink(s: string, toks: seq<Token>): string
    requires Lexed(s, toks)
  {
    if toks == [] then StartLink
    else
      var last := toks[|toks| - 1];
      if last.kind == Header then Slug(Text(s, last)) else LastLink(s, toks[..|toks| - 1])
  }

  /** The list lines at the end of `toks`: the list run still open after them. */
  function OpenRun(s: string, toks: seq<Token>): (r: seq<string>)
    requires Lexed(s, toks)
    ensures r != [] <==> KindAfter(toks) == ListItem
    ensures forall x :: x in r ==> ItemText(x).Some?
  {
    if toks == [] then []
    else
      var last := toks[|toks| - 1];
      if last.kind != ListItem then []
      else
        ListLineHasText(s, last);
        OpenRun(s, toks[..|toks| - 1]) + [Text(s, last)]
  }

  /** A list line of the lexer always has a row text: `list_to_table` cannot fail on it. */
  lemma {:induction false} ListLineHasText(s: string, t: Token)
    requires WellFormed(s, t) && t.kind == ListItem
    ensures ItemText(Text(s, t)).Some?
  {
    var line := Text(s, t);
    assert IsListLine(line);
    assert '\n' !in line[1..] by {
      forall k | 1 <= k < |line|
        ensures line[k] != '\n'
      {
        assert line[k] == s[t.start + k];
      }
    }
    ItemTextOf(line, Skip(line, 1, Digits));
  }

  /** A run of list lines always renders as a table. */
  lemma {:induction false} RunHasTable(run: seq<string>)
    requires run != [] && forall x :: x in run ==> ItemText(x).Some?
    ensures TableOf(run).Ok?
  {
    assert forall j :: 0 <= j < |run| ==> run[j] in run;
    TableErrors(run);
  }

  /**
   * What the chapter holds after any prefix of the lines: it has not failed,
   * its anchor is the last header's slug, and its pending list is exactly the
   * list run still open.
   */
  lemma {:induction false} ChapterInvariant(name: string, s: string, toks: seq<Token>)
    requires Lexed(s, toks)
    ensures ChapterAfter(name, s, toks).Ok?
    ensures ChapterAfter(name, s, toks).value.link == LastLink(s, toks)
    ensures ChapterAfter(name, s, toks).value.list == OpenRun(s, toks)
  {
    if toks != [] {
      var init := toks[..|toks| - 1];
      ChapterInvariant(name, s, init);
      var last := toks[|toks| - 1];
      if KindAfter(init) == ListItem && last.kind != ListItem {
        RunHasTable(OpenRun(s, init));
      }
    }
  }

  /** `parse` fails only on text that does not start with a new line. */
  lemma {:induction false} TransformErrors(name: string, contents: string)
    ensures Transform(name, contents).Err? <==> contents != [] && contents[0] != '\n'
  {
    if contents != [] && contents[0] == '\n' {
      var toks := Lex(contents);
      ChapterInvariant(name, contents, toks);
      var c := ChapterAfter(name, contents, toks).value;
      if KindAfter(toks) == ListItem {
        RunHasTable(c.list);
      }
    }
  }

  /**
   * A list run opens with the roll-trigger paragraph for the anchor in force:
   * the dice code names the latest header before the run.
   */
  lemma {:induction false} DiceOpensRun(name: string, s: string, toks: seq<Token>, i: nat)
    requires Lexed(s, toks) && i < |toks|
    requires toks[i].kind == ListItem && KindAfter(toks[..i]) != ListItem
    ensures ChapterAfter(name, s, toks[..i]).Ok? && ChapterAfter(name, s, toks[..i + 1]).Ok?
    ensures ChapterAfter(name, s, toks[..i + 1]).value.parsed
            == ChapterAfter(name, s, toks[..i]).value.parsed + [Pilcrow, DiceCode(name, LastLink(s, toks[..i])), Pilcrow]
  {
    ChapterInvariant(name, s, toks[..i]);
    ChapterAfterSnoc(name, s, toks, i);
  }

  /**
   * A list run that ends before a non-list line is replaced by the table of
   * exactly its lines and a paragraph linking back to the anchor, and the
   * pending list is emptied.
   */
  lemma {:induction false} TableClosesRun(name: string, s: string, toks: seq<Token>, i: nat)
    requires Lexed(s, toks) && i < |toks|
    requires toks[i].kind != ListItem && KindAfter(toks[..i]) == ListItem
    ensures TableOf(OpenRun(s, toks[..i])).Ok?
    ensures ChapterAfter(name, s, toks[..i]).Ok? && ChapterAfter(name, s, toks[..i + 1]).Ok?
    ensures ChapterAfter(name, s, toks[..i + 1]).value.parsed
            == ChapterAfter(name, s, toks[..i]).value.parsed
               + [TableOf(OpenRun(s, toks[..i])).value, Pilcrow, LastLink(s, toks[..i]), Pilcrow, Text(s, toks[i])]
    ensures ChapterAfter(name, s, toks[..i + 1]).value.list == []
  {
    ChapterInvariant(name, s, toks[..i]);
    RunHasTable(OpenRun(s, toks[..i]));
    ChapterAfterSnoc(name, s, toks, i);
  }

  /**
   * A list run that ends the input is closed by the final change back to
   * Vanilla: the table of its items, then the anchor between paragraph breaks,
   * and that is the end of the output before the collapse.
   */
  lemma {:induction false} EndInListCloses(name: string, contents: string)
    requires contents != [] && contents[0] == '\n' && KindAfter(Lex(contents)) == ListItem
    ensures var toks := Lex(contents);
            && ChapterAfter(name, contents, toks).Ok?
            && TableOf(OpenRun(contents, toks)).Ok?
            && Transform(name, contents)
               == Ok(Collapse(Concat(ChapterAfter(name, contents, toks).value.parsed
                                     + [TableOf(OpenRun(contents, toks)).value, Pilcrow, LastLink(contents, toks), Pilcrow])))
  {
    ChapterInvariant(name, contents, Lex(contents));
    RunHasTable(OpenRun(contents, Lex(contents)));
  }

  /** Without list lines every line is copied as it stands. */
  lemma {:induction false} NoListCopies(name: string, s: string, toks: seq<Token>)
    requires Lexed(s, toks)
    requires forall k :: 0 <= k < |toks| ==> toks[k].kind != ListItem
    ensures ChapterAfter(name, s, toks).Ok?
    ensures ChapterAfter(name, s, toks).value.parsed == Texts(s, toks)
    ensures ChapterAfter(name, s, toks).value.list == []
  {
    if toks != [] {
      NoListCopies(name, s, toks[..|toks| - 1]);
      TextsSnoc(s, toks);
    }
  }

  /** Text without numbered list lines only has its blank-line runs collapsed. */
  lemma {:induction false} NoListIsCollapse(name: string, contents: string)
    requires contents == [] || contents[0] == '\n'
    requires forall k :: 0 <= k < |Lex(contents)| ==> Lex(contents)[k].kind != ListItem
    ensures Transform(name, contents) == Ok(Collapse(contents))
  {
    if contents != [] {
      var toks := Lex(contents);
      NoListCopies(name, contents, toks);
      TextsCover(contents, 0, toks);
      assert contents[0..] == contents;
    }
  }

  /** ... and text that has no run of three new lines either comes back unchanged. */
  lemma {:induction false} PlainTextUnchanged(name: string, contents: string)
    requires contents == [] || contents[0] == '\n'
    requires forall k :: 0 <= k < |Lex(contents)| ==> Lex(contents)[k].kind != ListItem
    requires NoTripleNewline(contents)
    ensures Transform(name, contents) == Ok(contents)
  {
    NoListIsCollapse(name, contents);
    CollapseIdentity(contents);
  }
}
