/**
 * Splitting an article into its name, its licence lines and its body:
 * `name_copyright_body` of src/parse.rs.
 *
 * After the title line comes the prologue, which runs up to the first
 * sub-header (`\n#+\s`); of the prologue only the lines that carry a licence
 * notice are kept, each as a line of its own. The body is everything from the
 * sub-header on.
 */
module Segmenter {
  import opened Results
  import opened Strings
  import opened Titles

  /** The three parts of an article: its file name, its licence lines and its body. */
  datatype Segments = Segments(name: string, prologue: string, body: string)

  /** A match of `\n#+\s` at `p`: a new line, a run of `#`, then white space. */
  predicate SubheadAt(s: string, p: nat) {
    && p + 1 < |s|
    && s[p] == '\n'
    && s[p + 1] == '#'
    && var h := Skip(s, p + 1, Hashes);
    && h < |s|
    && IsWhitespace(s[h])
  }

  /** `SUBHEAD.find(s)` from `i` on: where the leftmost match starts, or `|s|` when there is none. */
  function SubheadFrom(s: string, i: nat): (r: nat)
    requires i <= |s|
    ensures i <= r <= |s|
    ensures r < |s| ==> SubheadAt(s, r)
    ensures forall k :: i <= k < r ==> !SubheadAt(s, k)
    decreases |s| - i
  {
    if i == |s| then i
    else if SubheadAt(s, i) then i
    else SubheadFrom(s, i + 1)
  }

  /** The first sub-header from `i` on is at `j`. */
  lemma {:induction false} SubheadFromIs(s: string, i: nat, j: nat)
    requires i <= j <= |s|
    requires forall k :: i <= k < j ==> !SubheadAt(s, k)
    requires j < |s| ==> SubheadAt(s, j)
    ensures SubheadFrom(s, i) == j
    decreases j - i
  {
    if i < j {
      SubheadFromIs(s, i + 1, j);
    }
  }

  /** Which licence test a version of the converter uses. */
  datatype LicenceRule =
    | Anywhere    // src/parse.rs: `\bOGL\b|©` anywhere in the line
    | AtStart     // src/lib.rs: `©` anywhere, or the line starts with `OGL` or `Include OGL`

  /** The word `OGL` at `p`, with a word boundary on both sides. */
  predicate OglAt(line: string, p: nat)
    requires p + 3 <= |line|
  {
    && line[p..p + 3] == "OGL"
    && (p == 0 || !IsWordChar(line[p - 1]))
    && (p + 3 == |line| || !IsWordChar(line[p + 3]))
  }

  /** `^(?:Include )?OGL\b`. */
  predicate OglLead(line: string) {
    || (|line| >= 3 && OglAt(line, 0))
    || (StartsWith(line, "Include ") && |line| >= 11 && OglAt(line, 8))
  }

  predicate Licensed(rule: LicenceRule, line: string) {
    match rule
    case Anywhere => '©' in line || exists p: nat :: 0 <= p && p + 3 <= |line| && OglAt(line, p)
    case AtStart => '©' in line || OglLead(line)
  }

  /** The lines that pass the licence test, in their original order. */
  function Kept(rule: LicenceRule, lines: seq<string>): (r: seq<string>)
    ensures |r| <= |lines|
    ensures forall k :: 0 <= k < |r| ==> Licensed(rule, r[k])
    ensures forall x :: x in r ==> x in lines
    ensures r == [] <==> forall k :: 0 <= k < |lines| ==> !Licensed(rule, lines[k])
  {
    if lines == [] then []
    else
      var last := lines[|lines| - 1];
      Kept(rule, lines[..|lines| - 1]) + (if Licensed(rule, last) then [last] else [])
  }

  /** Each line followed by a new line: the concatenation of `line, "\n"` pushes. */
  function Terminated(lines: seq<string>): string {
    if lines == [] then []
    else Terminated(lines[..|lines| - 1]) + lines[|lines| - 1] + "\n"
  }

  /** The text after the title line, from its `\n` on. */
  function AfterTitle(contents: string): string {
    contents[IndexOf(contents, 0, '\n')..]
  }

  /** The prologue: from the end of the title line to the first sub-header. */
  function Prologue(contents: string): string {
    var rest := AfterTitle(contents);
    rest[..SubheadFrom(rest, 0)]
  }

  /** The body: from the first sub-header on, or nothing when there is none. */
  function Remainder(contents: string): string {
    var rest := AfterTitle(contents);
    rest[SubheadFrom(rest, 0)..]
  }

  /** What `name_copyright_body` returns. */
  function Segment(contents: string): (r: Result<Segments, Failure>)
    ensures r.Err? <==> || HeaderCapture(contents).None?
                        || ('\n' in contents && Kept(Anywhere, RustLines(Prologue(contents))) == [])
    ensures HeaderCapture(contents).None? ==> r == Err(NotAMarkdownHeader)
    ensures r.Ok? ==> r.value.name == EmbeddedFileName(contents).value
  {
    match EmbeddedFileName(contents)
    case Err(e) => Err(e)
    case Ok(name) =>
      if IndexOf(contents, 0, '\n') == |contents| then Ok(Segments(name, "", ""))
      else
        var kept := Kept(Anywhere, RustLines(Prologue(contents)));
        if kept == [] then Err(NoLicenceLine)
        else Ok(Segments(name, Terminated(kept), Remainder(contents)))
  }

  /** `name_copyright_body`: the prologue's licence lines are collected one push at a time. */
  method NameCopyrightBody(contents: string) returns (r: Result<Segments, Failure>)
    ensures r == Segment(contents)
  {
    var fileName := EmbeddedFileName(contents);
    if fileName.Err? {
      return Err(fileName.error);
    }
    var newline := IndexOf(contents, 0, '\n');
    if newline == |contents| {
      return Ok(Segments(fileName.value, "", ""));
    }
    var rest := contents[newline..];
    var remainderStart := SubheadFrom(rest, 0);
    var prologue, remainder := rest[..remainderStart], rest[remainderStart..];
    var copyright := LicenceLines(Anywhere, RustLines(prologue));
    if copyright == [] {
      return Err(NoLicenceLine);
    }
    return Ok(Segments(fileName.value, Concat(copyright), remainder));
  }

  /** The loop of `name_copyright_body` (and of `subdivide`): each licence line is pushed, then a new line. */
  method LicenceLines(rule: LicenceRule, lines: seq<string>) returns (copyright: seq<string>)
    ensures Concat(copyright) == Terminated(Kept(rule, lines))
    ensures copyright == [] <==> Kept(rule, lines) == []
  {
    copyright := [];
    for i := 0 to |lines|
      invariant Concat(copyright) == Terminated(Kept(rule, lines[..i]))
      invariant copyright == [] <==> Kept(rule, lines[..i]) == []
    {
      var line := lines[i];
      KeptSnoc(rule, lines, i);
      if Licensed(rule, line) {
        ConcatAppend(copyright, [line, "\n"]);
        TerminatedSnoc(Kept(rule, lines[..i]), line);
        copyright := copyright + [line, "\n"];
      }
    }
    assert lines[..|lines|] == lines;
  }

  lemma {:induction false} KeptSnoc(rule: LicenceRule, lines: seq<string>, i: nat)
    requires i < |lines|
    ensures Licensed(rule, lines[i]) ==> Kept(rule, lines[..i + 1]) == Kept(rule, lines[..i]) + [lines[i]]
    ensures !Licensed(rule, lines[i]) ==> Kept(rule, lines[..i + 1]) == Kept(rule, lines[..i])
  {
    assert lines[..i + 1][..i] == lines[..i];
    assert Kept(rule, lines[..i]) + [] == Kept(rule, lines[..i]);
  }

  lemma {:induction false} TerminatedSnoc(lines: seq<string>, line: string)
    ensures Terminated(lines + [line]) == Terminated(lines) + Concat([line, "\n"])
  {
    assert (lines + [line])[..|lines|] == lines;
    assert [line, "\n"][1..] == ["\n"];
    assert Concat(["\n"]) == "\n";
    assert Concat([line, "\n"]) == line + "\n";
  }

  /** Keeping lines distributes over joining line lists: the kept lines stay in order. */
  lemma {:induction false} KeptAppend(rule: LicenceRule, a: seq<string>, b: seq<string>)
    ensures Kept(rule, a + b) == Kept(rule, a) + Kept(rule, b)
    decreases |b|
  {
    if b == [] {
      assert a + b == a;
    } else {
      var b' := b[..|b| - 1];
      assert (a + b)[..|a + b| - 1] == a + b';
      KeptAppend(rule, a, b');
    }
  }

  /** A line is kept exactly when it passes the licence test. */
  lemma {:induction false} KeptOne(rule: LicenceRule, line: string)
    ensures Kept(rule, [line]) == if Licensed(rule, line) then [line] else []
  {
    assert [line][..0] == [];
  }

  /** When every line passes, every line is kept. */
  lemma {:induction false} KeptAll(rule: LicenceRule, lines: seq<string>)
    requires forall k :: 0 <= k < |lines| ==> Licensed(rule, lines[k])
    ensures Kept(rule, lines) == lines
  {
    if lines != [] {
      KeptAll(rule, lines[..|lines| - 1]);
    }
  }

  /** The licence text has one new line per kept line, so each kept line stays a line of its own. */
  lemma {:induction false} TerminatedNewlines(lines: seq<string>)
    requires forall x :: x in lines ==> '\n' !in x
    ensures Count(Terminated(lines), '\n') == |lines|
  {
    if lines != [] {
      var init := lines[..|lines| - 1];
      var last := lines[|lines| - 1];
      assert forall x :: x in init ==> x in lines;
      TerminatedNewlines(init);
      CountAppend(Terminated(init) + last, "\n", '\n');
      CountAppend(Terminated(init), last, '\n');
      CountAbsent(last, '\n');
      assert Count("\n", '\n') == 1;
    }
  }

  /**
   * The parts fit back together: the text is the title line, the prologue and
   * the body, in that order, and the prologue starts where the title line ends.
   */
  lemma {:induction false} SegmentParts(contents: string)
    ensures contents == contents[..IndexOf(contents, 0, '\n')] + Prologue(contents) + Remainder(contents)
    ensures Prologue(contents) != [] ==> Prologue(contents)[0] == '\n'
  {
    var n := IndexOf(contents, 0, '\n');
    var rest := AfterTitle(contents);
    var p := SubheadFrom(rest, 0);
    var title, prologue, remainder := contents[..n], Prologue(contents), Remainder(contents);
    assert prologue == rest[..p] && remainder == rest[p..];
    SplitGlue(rest, p);
    SplitGlue(contents, n);
    assert title + prologue + remainder == title + (prologue + remainder);
  }

  lemma SplitGlue(s: string, i: nat)
    requires i <= |s|
    ensures s[..i] + s[i..] == s
  {
  }

  /** The prologue holds no sub-header, and the body is empty or starts with one. */
  lemma {:induction false} SegmentBoundary(contents: string)
    ensures Remainder(contents) == [] || SubheadAt(Remainder(contents), 0)
    ensures forall k :: 0 <= k < |Prologue(contents)| ==> !SubheadAt(AfterTitle(contents), k)
  {
    var rest := AfterTitle(contents);
    var p := SubheadFrom(rest, 0);
    if p < |rest| {
      SubheadShift(rest, p);
    }
  }

  /** A sub-header found at `p` is a sub-header at the start of the text from `p` on. */
  lemma {:induction false} SubheadShift(s: string, p: nat)
    requires p < |s| && SubheadAt(s, p)
    ensures SubheadAt(s[p..], 0)
  {
    var body := s[p..];
    assert body[0] == s[p] && body[1] == s[p + 1];
    var h := Skip(s, p + 1, Hashes);
    SkipTo(body, 1, h - p, Hashes);
  }

  /** A successful split keeps the licence lines, each ended by a new line, and returns the body untouched. */
  lemma {:induction false} SegmentOk(contents: string)
    requires Segment(contents).Ok? && '\n' in contents
    ensures var kept := Kept(Anywhere, RustLines(Prologue(contents)));
            && Segment(contents).value.prologue == Terminated(kept)
            && Count(Segment(contents).value.prologue, '\n') == |kept| > 0
            && Segment(contents).value.body == Remainder(contents)
  {
    var lines := RustLines(Prologue(contents));
    var kept := Kept(Anywhere, lines);
    assert forall x :: x in lines ==> '\n' !in x;
    TerminatedNewlines(kept);
  }

  /** A one-line text is only a title: nothing is kept and the body is empty. */
  lemma SegmentOneLine(contents: string)
    requires '\n' !in contents && HeaderCapture(contents).Some?
    ensures Segment(contents) == Ok(Segments(EmbeddedFileName(contents).value, "", ""))
  {
  }

  /** `a_minimal_content_suffices`: a title and a `©` line are enough. */
  lemma {:induction false} MinimalSuffices()
    ensures Segment("# H\n©").Ok?
  {
    var s := "# H\n©";
    HeaderCaptureOf("#", " ", "H", "\n©");
    MinimalPrologue();
    MinimalKept();
    assert Kept(Anywhere, RustLines(Prologue(s))) != [];
  }

  lemma {:induction false} MinimalPrologue()
    ensures Prologue("# H\n©") == "\n©"
  {
    IndexOfIs("# H\n©", 0, 3, '\n');
    assert AfterTitle("# H\n©") == "\n©";
    SubheadFromIs("\n©", 0, 2);
  }

  lemma {:induction false} MinimalKept()
    ensures Kept(Anywhere, RustLines("\n©")) != []
  {
    var lines := RustLines("\n©");
    assert lines[1] == "©" by {
      IndexOfIs("\n©", 0, 0, '\n');
      IndexOfIs("©", 0, 1, '\n');
    }
    assert Licensed(Anywhere, lines[1]);
  }
}
