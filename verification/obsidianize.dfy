/**
 * The decisions `reformat` of src/obsidianize.rs takes for each article of a
 * source: which articles are converted, what each output file is called, and
 * what is gathered for the Read Me that is written last.
 *
 * Reading the source and writing the Obsidian files are I/O: here the
 * articles arrive as (external name, text) pairs and the outputs are returned
 * as (output name, body) pairs.
 */
module Obsidianize {
  import opened Results
  import opened Strings
  import opened Segmenter
  import opened Transformer

  /** A name split by `number_and_title_from` into its leading number, if any, and the rest. */
  datatype NumberedName = NumberedName(number: Option<nat>, title: string)

  /**
   * `number_and_title_from`: `^(\d+)?[\s_]*(.*)?$` takes the leading digits,
   * skips white space and underscores, and takes the rest as the title. `.`
   * does not match a new line, so when the rest holds one there is no match
   * and the name comes back whole, without a number.
   */
  function NumberAndTitleFrom(name: string): (r: NumberedName)
    ensures |r.title| <= |name| && r.title == name[|name| - |r.title|..]
    ensures r.number.Some? ==> |name| > 0 && IsDigit(name[0]) && '\n' !in r.title
    ensures '\n' in r.title ==> r == NumberedName(None, name)
  {
    var d := Skip(name, 0, Digits);
    var t := Skip(name, d, SpacesOrUnderscores);
    if '\n' in name[t..] then NumberedName(None, name)
    else
      assert forall k :: 0 <= k < d ==> IsDigit(name[..d][k]);
      NumberedName(if d == 0 then None else Some(DigitsValue(name[..d])), name[t..])
  }

  /**
   * A name made of digits, a gap of white space and underscores, and a title
   * on one line, is split into the number of the digits (none when there are
   * none) and the title.
   */
  lemma {:induction false} NumberAndTitleOf(digits: string, gap: string, title: string)
    requires forall k :: 0 <= k < |digits| ==> IsDigit(digits[k])
    requires forall k :: 0 <= k < |gap| ==> InClass(gap[k], SpacesOrUnderscores)
    requires title != [] ==> !InClass(title[0], SpacesOrUnderscores)
    requires gap == [] && title != [] ==> !IsDigit(title[0])
    requires '\n' !in title
    ensures NumberAndTitleFrom(digits + gap + title) ==
            NumberedName(if digits == [] then None else Some(DigitsValue(digits)), title)
  {
    var name := digits + gap + title;
    var d, t := |digits|, |digits| + |gap|;
    NumberEnds(digits, gap, title);
    GapEnds(digits, gap, title);
    assert name[0..|name|] == name;
    SplitTwo(name, 0, digits + gap, title);
    SplitTwo(name, 0, digits, gap);
    assert name[..d] == digits;
    assert name[t..] == title;
    NumberAndTitleAt(name, d, t);
  }

  lemma {:induction false} NumberEnds(digits: string, gap: string, title: string)
    requires forall k :: 0 <= k < |digits| ==> IsDigit(digits[k])
    requires forall k :: 0 <= k < |gap| ==> InClass(gap[k], SpacesOrUnderscores)
    requires gap == [] && title != [] ==> !IsDigit(title[0])
    ensures Skip(digits + gap + title, 0, Digits) == |digits|
  {
    var name := digits + gap + title;
    var d := |digits|;
    assert name[0..d] == digits;
    assert d < |name| ==> name[d] == if gap != [] then gap[0] else title[0];
    SkipOver(name, 0, digits, Digits);
  }

  lemma {:induction false} GapEnds(digits: string, gap: string, title: string)
    requires forall k :: 0 <= k < |gap| ==> InClass(gap[k], SpacesOrUnderscores)
    requires title != [] ==> !InClass(title[0], SpacesOrUnderscores)
    ensures Skip(digits + gap + title, |digits|, SpacesOrUnderscores) == |digits| + |gap|
  {
    var name := digits + gap + title;
    var d, t := |digits|, |digits| + |gap|;
    assert name[d..t] == gap;
    assert t < |name| ==> name[t] == title[0];
    SkipOver(name, d, gap, SpacesOrUnderscores);
  }

  /** Where the digits and the gap end decides the split. */
  lemma NumberAndTitleAt(name: string, d: nat, t: nat)
    requires d <= |name| && Skip(name, 0, Digits) == d && Skip(name, d, SpacesOrUnderscores) == t
    requires '\n' !in name[t..]
    ensures forall k :: 0 <= k < d ==> IsDigit(name[..d][k])
    ensures NumberAndTitleFrom(name) == NumberedName(if d == 0 then None else Some(DigitsValue(name[..d])), name[t..])
  {
  }

  /** A name that does not start with a digit has no number. */
  lemma UnnumberedName(name: string)
    requires name == [] || !IsDigit(name[0])
    ensures NumberAndTitleFrom(name).number == None
  {
  }

  /** `number_and_title_from("12_stuff")` and `number_and_title_from("stuff")`. */
  lemma {:induction false} NumberAndTitleExamples()
    ensures NumberAndTitleFrom("12_stuff") == NumberedName(Some(12), "stuff")
    ensures NumberAndTitleFrom("stuff") == NumberedName(None, "stuff")
  {
    NumberAndTitleOf("12", "_", "stuff");
    assert "12" + "_" + "stuff" == "12_stuff";
    assert DigitsValue("12") == 12 by {
      assert "12"[..1] == "1";
      assert "1"[..0] == "";
    }
    NumberAndTitleOf("", "", "stuff");
    assert "" + "" + "stuff" == "stuff";
  }

  /**
   * The description of an article: for number 12 the title inside the
   * article; otherwise the longer of the external and the inner title,
   * measured in UTF-8 bytes, the inner one when they are equally long.
   */
  function Description(n: nat, external: string, content: string): (r: string)
    ensures r == external || r == content
    ensures n == 12 ==> r == content
    ensures n != 12 ==> Utf8Len(r) >= Utf8Len(external) && Utf8Len(r) >= Utf8Len(content)
    ensures n != 12 && r != content ==> Utf8Len(r) > Utf8Len(content)
  {
    if n == 12 then content
    else if Utf8Len(external) > Utf8Len(content) then external
    else content
  }

  /** `format!("{n:02}")` for a number below 100: two digits, with a leading zero below 10. */
  function TwoDigits(n: nat): (r: string)
    requires n < 100
    ensures |r| == 2 && IsDigit(r[0]) && IsDigit(r[1])
    ensures DigitsValue(r) == n
  {
    assert DigitsValue([DigitChar(n / 10)]) == n / 10 by {
      assert [DigitChar(n / 10)][..0] == [];
    }
    [DigitChar(n / 10), DigitChar(n % 10)]
  }

  /**
   * The name of the output file: below 100 the number in two digits, a space
   * and the description; from 100 on the description alone, so that such an
   * article sorts last.
   */
  function OutputName(n: nat, description: string): (r: string)
    ensures n < 100 ==> |r| == |description| + 3 && r[2] == ' ' && r[3..] == description
    ensures n < 100 ==> IsDigit(r[0]) && IsDigit(r[1]) && DigitsValue(r[..2]) == n
    ensures n >= 100 ==> r == description
  {
    if n < 100 then
      var digits := TwoDigits(n);
      assert (digits + " " + description)[..2] == digits;
      digits + " " + description
    else description
  }

  /**
   * Reading the number back: below 100, `number_and_title_from` of an output
   * name gives back the number and the description, as long as the
   * description is one line that does not start with white space or `_`.
   */
  lemma {:induction false} OutputNameRoundTrip(n: nat, description: string)
    requires n < 100
    requires description != [] ==> !InClass(description[0], SpacesOrUnderscores)
    requires '\n' !in description
    ensures NumberAndTitleFrom(OutputName(n, description)) == NumberedName(Some(n), description)
  {
    var digits := TwoDigits(n);
    NumberAndTitleOf(digits, " ", description);
    assert OutputName(n, description) == digits + " " + description;
  }

  const UrbanName: string := "71 Urban Events"
  const IdeasHeader: string := "\n## Ideas\n"

  /**
   * `^#\s+71:? Urban.*\n#ideas\s*(1.)`: `#`, white space, `71`, an optional
   * colon, ` Urban`, the rest of that line, then a line starting `#ideas`;
   * after white space there must be a `1` followed by a character other than
   * a new line. The position of that `1`, when all of this holds.
   */
  function UrbanIdeasStart(s: string): (r: Option<nat>)
    ensures r.Some? ==> r.value + 1 < |s| && s[r.value] == '1' && s[r.value + 1] != '\n'
  {
    match UrbanTitleEnd(s)
    case None => None
    case Some(i) => IdeasListStart(s, i)
  }

  /** `^#\s+71:? Urban`: where the title line goes on after ` Urban`. */
  function UrbanTitleEnd(s: string): (r: Option<nat>)
    ensures r.Some? ==> r.value <= |s|
  {
    if s == [] || s[0] != '#' then None
    else
      var w := Skip(s, 1, Spaces);
      if w == 1 || !StartsWith(s[w..], "71") then None
      else
        var c := if w + 2 < |s| && s[w + 2] == ':' then w + 3 else w + 2;
        if !StartsWith(s[c..], " Urban") then None else Some(c + 6)
  }

  /** `.*\n#ideas\s*(1.)` from `i`: the rest of the line, a line starting `#ideas`, white space, `1` and one more character. */
  function IdeasListStart(s: string, i: nat): (r: Option<nat>)
    requires i <= |s|
    ensures r.Some? ==> r.value + 1 < |s| && s[r.value] == '1' && s[r.value + 1] != '\n'
  {
    var l := IndexOf(s, i, '\n');
    if !StartsWith(s[l..], "\n#ideas") then None
    else
      var one := Skip(s, l + 7, Spaces);
      if one + 1 < |s| && s[one] == '1' && s[one + 1] != '\n' then Some(one) else None
  }

  /** `urban_idea_special_case`: the one article whose list has to be given its own header. */
  function UrbanIdeaSpecialCase(contents: string): (r: Option<(string, string)>)
    ensures r.Some? <==> UrbanIdeasStart(contents).Some?
    ensures r.Some? ==> r.value.0 == UrbanName
    ensures r.Some? ==> exists start :: 0 <= start < |contents| && r.value.1 == IdeasHeader + contents[start..] && contents[start] == '1'
  {
    match UrbanIdeasStart(contents)
    case None => None
    case Some(start) => Some((UrbanName, IdeasHeader + contents[start..]))
  }

  /** What the article text looks like when the special case applies. */
  lemma {:induction false} UrbanIdeasOf(gap: string, colon: string, line: string, gap2: string, body: string)
    requires |gap| > 0 && forall k :: 0 <= k < |gap| ==> IsWhitespace(gap[k])
    requires colon == "" || colon == ":"
    requires '\n' !in line
    requires forall k :: 0 <= k < |gap2| ==> IsWhitespace(gap2[k])
    requires |body| >= 2 && body[0] == '1' && body[1] != '\n'
    ensures UrbanIdeaSpecialCase("#" + gap + "71" + colon + " Urban" + line + "\n#ideas" + gap2 + body)
            == Some((UrbanName, IdeasHeader + body))
  {
    var rest := line + "\n#ideas" + gap2 + body;
    var s := "#" + gap + "71" + colon + " Urban" + rest;
    assert s == "#" + gap + "71" + colon + " Urban" + line + "\n#ideas" + gap2 + body;
    UrbanTitleOf(gap, colon, rest);
    var i := |s| - |rest|;
    assert s[i..] == rest;
    IdeasListOf(s, i, line, gap2, body);
    assert s[|s| - |body|..] == body;
  }

  /** A title line `#`, white space, `71`, an optional colon and ` Urban` goes on where the rest starts. */
  lemma {:induction false} UrbanTitleOf(gap: string, colon: string, rest: string)
    requires |gap| > 0 && forall k :: 0 <= k < |gap| ==> IsWhitespace(gap[k])
    requires colon == "" || colon == ":"
    ensures var s := "#" + gap + "71" + colon + " Urban" + rest;
            UrbanTitleEnd(s) == Some(|s| - |rest|)
  {
    var s := "#" + gap + "71" + colon + " Urban" + rest;
    var w := 1 + |gap|;
    var c := w + 2 + |colon|;
    assert forall k :: 1 <= k < w ==> s[k] == gap[k - 1];
    assert s[w..w + 2] == "71";
    assert s[w] == '7';
    SkipTo(s, 1, w, Spaces);
    assert c == (if w + 2 < |s| && s[w + 2] == ':' then w + 3 else w + 2);
    assert s[c..c + 6] == " Urban";
  }

  /** From `i`, the rest of a line, `\n#ideas`, white space and a list starting `1` give the list start. */
  lemma {:induction false} IdeasListOf(s: string, i: nat, line: string, gap2: string, body: string)
    requires i <= |s| && s[i..] == line + "\n#ideas" + gap2 + body
    requires '\n' !in line
    requires forall k :: 0 <= k < |gap2| ==> IsWhitespace(gap2[k])
    requires |body| >= 2 && body[0] == '1' && body[1] != '\n'
    ensures IdeasListStart(s, i) == Some(|s| - |body|)
  {
    var l := i + |line|;
    var one := l + 7 + |gap2|;
    SplitFour(s, i, line, "\n#ideas", gap2, body);
    assert s[l] == '\n' && s[one] == body[0] && s[one + 1] == body[1];
    IndexOfOver(s, i, line, '\n');
    assert s[l..][..7] == "\n#ideas";
    SkipOver(s, l + 7, gap2, Spaces);
    IdeasListAt(s, i, l, one);
  }

  lemma IdeasListAt(s: string, i: nat, l: nat, one: nat)
    requires i <= l && l + 7 <= |s| && IndexOf(s, i, '\n') == l && s[l..][..7] == "\n#ideas"
    requires Skip(s, l + 7, Spaces) == one && one + 1 < |s| && s[one] == '1' && s[one + 1] != '\n'
    ensures IdeasListStart(s, i) == Some(one)
  {
  }

  /** A text made of four parts from `i` on holds each part at its place. */
  lemma {:induction false} SplitFour(s: string, i: nat, a: string, b: string, c: string, d: string)
    requires i <= |s| && s[i..] == a + b + c + d
    ensures var j, k, l := i + |a|, i + |a| + |b|, i + |a| + |b| + |c|;
            && l + |d| == |s|
            && s[i..j] == a && s[j..k] == b && s[k..l] == c && s[l..] == d
  {
    assert s[i..i + |a + b + c| + |d|] == s[i..];
    SplitTwo(s, i, a + b + c, d);
    SplitTwo(s, i, a + b, c);
    SplitTwo(s, i, a, b);
  }

  /** Two parts side by side from `i` on: each is at its place. */
  lemma {:induction false} SplitTwo(s: string, i: nat, x: string, y: string)
    requires i + |x| + |y| <= |s| && s[i..i + |x| + |y|] == x + y
    ensures s[i..i + |x|] == x && s[i + |x|..i + |x| + |y|] == y
  {
    assert s[i..i + |x|] == s[i..i + |x| + |y|][..|x|];
    assert s[i + |x|..i + |x| + |y|] == s[i..i + |x| + |y|][|x|..];
  }

  /** Searching from `i` over a run without `c` that is followed by `c` stops right after the run. */
  lemma {:induction false} IndexOfOver(s: string, i: nat, run: string, c: char)
    requires i + |run| < |s| && s[i..i + |run|] == run && c !in run && s[i + |run|] == c
    ensures IndexOf(s, i, c) == i + |run|
  {
    assert forall k :: i <= k < i + |run| ==> s[k] == run[k - i];
    IndexOfIs(s, i, i + |run|, c);
  }

  /** The text handed on to `parse` in the special case starts with a new line, so `parse` accepts it. */
  lemma {:induction false} UrbanIdeasParse(contents: string, name: string)
    requires UrbanIdeaSpecialCase(contents).Some?
    ensures Transform(name, UrbanIdeaSpecialCase(contents).value.1).Ok?
  {
    TransformErrors(name, UrbanIdeaSpecialCase(contents).value.1);
  }

  /** A line of `s` starts at `p` (`^` under the `m` flag). */
  predicate LineStart(s: string, p: nat)
    requires p <= |s|
  {
    p == 0 || s[p - 1] == '\n'
  }

  /** A line of `s` starts at `p` with `prefix`. */
  predicate LineWith(s: string, p: nat, prefix: string) {
    p < |s| && LineStart(s, p) && StartsWith(s[p..], prefix)
  }

  /** The first line at or after `i` that starts with `prefix`, or `|s|` when there is none. */
  function LineWithFrom(s: string, i: nat, prefix: string): (p: nat)
    requires i <= |s|
    ensures i <= p <= |s|
    ensures p < |s| ==> LineWith(s, p, prefix)
    ensures forall k :: i <= k < p ==> !LineWith(s, k, prefix)
    decreases |s| - i
  {
    if i == |s| || LineWith(s, i, prefix) then i
    else LineWithFrom(s, i + 1, prefix)
  }

  const ThanksStart: string := "Thank you to"
  const LairStart: string := "Monstrous Lair"
  const ThingsStart: string := "20 Things"
  const Laironomicon: string := "Laironomicon"
  const Thingonomicon: string := "Thingonomicon"

  /** A line starting with `prefix`, which holds no new line, runs on past it to the next new line. */
  lemma {:induction false} LineOf(s: string, p: nat, prefix: string)
    requires LineWith(s, p, prefix) && '\n' !in prefix
    ensures p + |prefix| <= IndexOf(s, p, '\n')
    ensures StartsWith(s[p..IndexOf(s, p, '\n')], prefix)
  {
    var e := IndexOf(s, p, '\n');
    assert forall k :: p <= k < p + |prefix| ==> s[k] == s[p..][k - p] == prefix[k - p];
    assert s[p..e][..|prefix|] == s[p..][..|prefix|];
  }

  /** `(?m)^Thank you to.*?$`: the whole of the first line that starts `Thank you to`. */
  function ThanksLine(article: string): (r: Option<string>)
    ensures r.None? <==> forall p :: 0 <= p < |article| ==> !LineWith(article, p, ThanksStart)
    ensures r.Some? ==> StartsWith(r.value, ThanksStart) && '\n' !in r.value
  {
    var p := LineWithFrom(article, 0, ThanksStart);
    if p == |article| then None
    else
      LineOf(article, p, ThanksStart);
      Some(article[p..IndexOf(article, p, '\n')])
  }

  /** The thanks line is the first line starting `Thank you to`, up to its end. */
  lemma ThanksLineFirst(article: string, p: nat)
    requires LineWith(article, p, ThanksStart)
    requires forall k :: 0 <= k < p ==> !LineWith(article, k, ThanksStart)
    ensures ThanksLine(article) == Some(article[p..IndexOf(article, p, '\n')])
  {
  }

  /**
   * `(?m)^Monstrous Lair|^20 Things`: which collection the articles come from,
   * decided by whichever of the two starts a line first.
   */
  function NomiconOf(article: string): (r: Option<string>)
    ensures r.None? <==> forall p :: 0 <= p < |article| ==> !LineWith(article, p, LairStart) && !LineWith(article, p, ThingsStart)
    ensures r.Some? ==> r == Some(Laironomicon) || r == Some(Thingonomicon)
  {
    var lair := LineWithFrom(article, 0, LairStart);
    var things := LineWithFrom(article, 0, ThingsStart);
    if lair == |article| && things == |article| then None
    else if lair < things then Some(Laironomicon)
    else Some(Thingonomicon)
  }

  /** The first line that starts with either `Monstrous Lair` or `20 Things` names the collection. */
  lemma {:induction false} NomiconFirst(article: string, p: nat)
    requires LineWith(article, p, LairStart) || LineWith(article, p, ThingsStart)
    requires forall k :: 0 <= k < p ==> !LineWith(article, k, LairStart) && !LineWith(article, k, ThingsStart)
    ensures NomiconOf(article) == Some(if LineWith(article, p, LairStart) then Laironomicon else Thingonomicon)
  {
    var lair := LineWithFrom(article, 0, LairStart);
    var things := LineWithFrom(article, 0, ThingsStart);
    assert article[p] == article[p..][0];
    if LineWith(article, p, LairStart) {
      assert lair == p;
      assert article[p] == 'M';
      assert things != p;
    } else {
      assert things == p;
      assert article[p] == '2';
      assert lair != p;
    }
  }

  /** What `ReadmeInfo` has gathered: each field is set at most once. */
  datatype ReadmeState = ReadmeState(nomicon: Option<string>, thankYou: Option<string>, originalReadme: Option<string>)

  const NoReadmeInfo: ReadmeState := ReadmeState(None, None, None)

  /** `update_from_article` on a value: a field that is still unset is taken from the article. */
  function Updated(st: ReadmeState, article: string): ReadmeState {
    st.(thankYou := if st.thankYou.None? then ThanksLine(article) else st.thankYou,
        nomicon := if st.nomicon.None? then NomiconOf(article) else st.nomicon)
  }

  /** What the Read Me template is rendered with. */
  datatype ReadmeContext = ReadmeContext(nomicon: string, thankYou: string, originalReadme: string)

  const OriginalReadmeIntro: string := "\n\n-----\n\nHere is the original Read Me\n\n"

  /** `ReadmeInfo::context`: nothing until both the collection and the thanks are known. */
  function ContextOf(st: ReadmeState): (r: Option<ReadmeContext>)
    ensures r.Some? <==> st.nomicon.Some? && st.thankYou.Some?
    ensures r.Some? ==> r.value.nomicon == st.nomicon.value && r.value.thankYou == st.thankYou.value
    ensures r.Some? ==> (st.originalReadme.None? <==> r.value.originalReadme == [])
    ensures r.Some? && st.originalReadme.Some? ==> r.value.originalReadme == OriginalReadmeIntro + st.originalReadme.value
  {
    if st.nomicon.None? || st.thankYou.None? then None
    else
      var original := match st.originalReadme
        case Some(readme) => OriginalReadmeIntro + readme
        case None => "";
      Some(ReadmeContext(st.nomicon.value, st.thankYou.value, original))
  }

  /** `ReadmeInfo`: what the articles tell about the collection, for the Read Me written last. */
  class ReadmeInfo {
    var nomicon: Option<string>
    var thankYou: Option<string>
    var originalReadme: Option<string>

    function State(): ReadmeState
      reads this
    {
      ReadmeState(nomicon, thankYou, originalReadme)
    }

    /** `ReadmeInfo::default()`. */
    constructor()
      ensures State() == NoReadmeInfo
    {
      nomicon, thankYou, originalReadme := None, None, None;
    }

    method SaveOriginalReadme(original: string)
      modifies this
      ensures State() == old(State()).(originalReadme := Some(original))
    {
      originalReadme := Some(original);
    }

    method UpdateFromArticle(article: string)
      modifies this
      ensures State() == Updated(old(State()), article)
      ensures old(thankYou).Some? ==> thankYou == old(thankYou)
      ensures old(nomicon).Some? ==> nomicon == old(nomicon)
    {
      if thankYou.None? {
        thankYou := ThanksLine(article);
      }
      if nomicon.None? {
        nomicon := NomiconOf(article);
      }
    }
  }

  const CopySuffix: string := " copy"
  const ReadMeName: string := "00 Read Me"

  /** What `reformat` does with an article, by its external name. */
  datatype Action = SkipCopy | KeepOriginalReadme | ConvertArticle

  function ActionFor(name: string): (r: Action)
    ensures r == SkipCopy <==> EndsWith(name, CopySuffix)
    ensures r == KeepOriginalReadme <==> name == ReadMeName
  {
    if EndsWith(name, CopySuffix) then SkipCopy
    else if name == ReadMeName then KeepOriginalReadme
    else ConvertArticle
  }

  /** An article as the source hands it over: its external name (the file stem) and its text. */
  datatype Article = Article(name: string, text: string)

  /**
   * What `reformat` hands to `write_markdown` for one article: the output name
   * and the body. The file actually written is not modelled: its path is the
   * name with its extension replaced by `md`, and the file starts with a fixed
   * front matter block before the body.
   */
  datatype Output = Output(name: string, body: string)

  /** The title, licence lines and text to parse of an article: the special case, or `name_copyright_body`. */
  function ArticleParts(text: string): Result<Segments, Failure> {
    match UrbanIdeaSpecialCase(text)
    case Some(special) => Ok(Segments(special.0, "", special.1))
    case None => Segment(text)
  }

  /** One turn of the loop of `reformat` for an article that is converted. */
  function Conversion(a: Article): Result<Output, Failure> {
    match ArticleParts(a.text)
    case Err(e) => Err(e)
    case Ok(parts) =>
      var external := NumberAndTitleFrom(a.name);
      if external.number.None? then Err(UnnumberedArticle)
      else
        var n := external.number.value;
        var description := Description(n, external.title, NumberAndTitleFrom(parts.name).title);
        var outputName := OutputName(n, description);
        WithPrologue(outputName, parts.prologue, Transform(outputName, parts.body))
  }

  /** The output file `name`: the prologue followed by what `parse` returned, or the failure of `parse`. */
  function WithPrologue(name: string, prologue: string, parsed: Result<string, Failure>): (r: Result<Output, Failure>)
    ensures r.Ok? <==> parsed.Ok?
    ensures r.Err? ==> r.error == parsed.error
    ensures r.Ok? ==> r.value.name == name && r.value.body == prologue + parsed.value
  {
    match parsed
    case Err(e) => Err(e)
    case Ok(body) => Ok(Output(name, prologue + body))
  }

  /** The articles the loop of `reformat` converts, in order. */
  function ToConvert(articles: seq<Article>): (r: seq<Article>)
    ensures forall x :: x in r <==> x in articles && ActionFor(x.name) == ConvertArticle
  {
    if articles == [] then []
    else
      var last := articles[|articles| - 1];
      var before := articles[..|articles| - 1];
      assert articles == before + [last];
      ToConvert(before) + (if ActionFor(last.name) == ConvertArticle then [last] else [])
  }

  /** The outputs of converting each of `articles` in turn, stopping at the first failure. */
  function ConvertEach(articles: seq<Article>, convert: Article -> Result<Output, Failure>): Result<seq<Output>, Failure>
  {
    if articles == [] then Ok([])
    else
      var before := articles[..|articles| - 1];
      match ConvertEach(before, convert)
      case Err(e) => Err(e)
      case Ok(outputs) =>
        match convert(articles[|articles| - 1])
        case Err(e) => Err(e)
        case Ok(o) => Ok(outputs + [o])
  }

  /** Every article converts, and the outputs are their conversions in order, or the first failure is the result. */
  lemma {:induction false} ConvertEachAll(articles: seq<Article>, convert: Article -> Result<Output, Failure>)
    ensures ConvertEach(articles, convert).Ok? <==> forall k :: 0 <= k < |articles| ==> convert(articles[k]).Ok?
    ensures ConvertEach(articles, convert).Ok? ==> |ConvertEach(articles, convert).value| == |articles|
    ensures ConvertEach(articles, convert).Ok? ==>
              forall k :: 0 <= k < |articles| ==> ConvertEach(articles, convert).value[k] == convert(articles[k]).value
  {
    if articles != [] {
      var before := articles[..|articles| - 1];
      ConvertEachAll(before, convert);
      assert forall k :: 0 <= k < |before| ==> before[k] == articles[k];
    }
  }

  /** The outputs of the loop of `reformat` over `articles`. */
  function Outputs(articles: seq<Article>, convert: Article -> Result<Output, Failure>): Result<seq<Output>, Failure> {
    if articles == [] then Ok([])
    else
      var last := articles[|articles| - 1];
      match Outputs(articles[..|articles| - 1], convert)
      case Err(e) => Err(e)
      case Ok(outputs) =>
        if ActionFor(last.name) != ConvertArticle then Ok(outputs)
        else match convert(last)
          case Err(e) => Err(e)
          case Ok(o) => Ok(outputs + [o])
  }

  /** What the loop of `reformat` has gathered for the Read Me after `articles`. */
  function InfoAfter(articles: seq<Article>): ReadmeState {
    if articles == [] then NoReadmeInfo
    else
      var last := articles[|articles| - 1];
      var st := InfoAfter(articles[..|articles| - 1]);
      match ActionFor(last.name)
      case SkipCopy => st
      case KeepOriginalReadme => st.(originalReadme := Some(last.text))
      case ConvertArticle => Updated(st, last.text)
  }

  /** Some article name has no leading number. */
  predicate SomeUnnumbered(articles: seq<Article>) {
    exists k :: 0 <= k < |articles| && NumberAndTitleFrom(articles[k].name).number.None?
  }

  /** What `reformat` produces: refused without articles or with an unnumbered one, else the outputs. */
  function Reformatted(articles: seq<Article>): Result<seq<Output>, Failure> {
    if articles == [] then Err(NoArticles)
    else if SomeUnnumbered(articles) then Err(UnnumberedArticle)
    else Outputs(articles, Conversion)
  }

  /** An article whose title or licence lines cannot be read is refused with that reason. */
  lemma UnreadableArticle(a: Article)
    requires UrbanIdeaSpecialCase(a.text).None? && Segment(a.text).Err?
    ensures Conversion(a) == Err(Segment(a.text).error)
  {
  }

  /**
   * A converted article's file is named after its external number: below 100
   * the name starts with that number in two digits and a space.
   */
  lemma {:induction false} ConvertedName(a: Article)
    requires Conversion(a).Ok?
    ensures NumberAndTitleFrom(a.name).number.Some?
    ensures var n := NumberAndTitleFrom(a.name).number.value;
            n < 100 ==> StartsWith(Conversion(a).value.name, TwoDigits(n) + " ")
  {
    var parts := ArticleParts(a.text).value;
    var external := NumberAndTitleFrom(a.name);
    var n := external.number.value;
    var outputName := OutputName(n, Description(n, external.title, NumberAndTitleFrom(parts.name).title));
    assert Conversion(a).value.name == outputName;
    if n < 100 {
      assert outputName[..3] == TwoDigits(n) + " ";
    }
  }

  /** The special case always converts: it has no licence lines and its text is always accepted by `parse`. */
  lemma {:induction false} UrbanIdeasConvert(a: Article)
    requires UrbanIdeaSpecialCase(a.text).Some? && NumberAndTitleFrom(a.name).number.Some?
    ensures Conversion(a).Ok?
    ensures Transform(Conversion(a).value.name, UrbanIdeaSpecialCase(a.text).value.1).Ok?
    ensures Conversion(a).value.body == Transform(Conversion(a).value.name, UrbanIdeaSpecialCase(a.text).value.1).value
  {
    var special := UrbanIdeaSpecialCase(a.text).value;
    var external := NumberAndTitleFrom(a.name);
    var n := external.number.value;
    var outputName := OutputName(n, Description(n, external.title, NumberAndTitleFrom(special.0).title));
    UrbanIdeasParse(a.text, outputName);
  }

  /** Once `reformat` has failed on an article, it stays failed. */
  lemma {:induction false} OutputsFailureSticks(articles: seq<Article>, i: nat, convert: Article -> Result<Output, Failure>)
    requires i <= |articles| && Outputs(articles[..i], convert).Err?
    ensures Outputs(articles, convert) == Outputs(articles[..i], convert)
    decreases |articles| - i
  {
    if i < |articles| {
      assert articles[..i + 1][..i] == articles[..i];
      OutputsFailureSticks(articles, i + 1, convert);
    } else {
      assert articles[..i] == articles;
    }
  }

  /**
   * The outputs are exactly the conversions of the articles that are neither
   * copies nor the original Read Me, in order; the first failure is the result.
   */
  lemma {:induction false} OutputsAreConversions(articles: seq<Article>, convert: Article -> Result<Output, Failure>)
    ensures Outputs(articles, convert) == ConvertEach(ToConvert(articles), convert)
  {
    if articles != [] {
      var before := articles[..|articles| - 1];
      var last := articles[|articles| - 1];
      OutputsAreConversions(before, convert);
      if ActionFor(last.name) == ConvertArticle {
        var converted := ToConvert(before) + [last];
        assert ToConvert(articles) == converted;
        assert converted[..|converted| - 1] == ToConvert(before);
      } else {
        assert ToConvert(articles) == ToConvert(before);
      }
    }
  }

  /** The first value `find` gives for the texts of `articles`, read from the front. */
  function FirstFound(articles: seq<Article>, find: string -> Option<string>): Option<string> {
    if articles == [] then None
    else if find(articles[0].text).Some? then find(articles[0].text)
    else FirstFound(articles[1..], find)
  }

  lemma {:induction false} FirstFoundSnoc(articles: seq<Article>, a: Article, find: string -> Option<string>)
    ensures FirstFound(articles + [a], find) ==
            if FirstFound(articles, find).Some? then FirstFound(articles, find) else find(a.text)
  {
    if articles == [] {
      assert [a][1..] == [];
    } else {
      assert (articles + [a])[1..] == articles[1..] + [a];
      FirstFoundSnoc(articles[1..], a, find);
    }
  }

  /**
   * Set once: the thanks line is the first one found in the converted
   * articles, and the collection is the one the first article naming one
   * names; later articles never change either.
   */
  lemma {:induction false} ReadmeGathered(articles: seq<Article>)
    ensures InfoAfter(articles).thankYou == FirstFound(ToConvert(articles), ThanksLine)
    ensures InfoAfter(articles).nomicon == FirstFound(ToConvert(articles), NomiconOf)
  {
    if articles != [] {
      var before := articles[..|articles| - 1];
      var last := articles[|articles| - 1];
      ReadmeGathered(before);
      if ActionFor(last.name) == ConvertArticle {
        assert ToConvert(articles) == ToConvert(before) + [last];
        assert InfoAfter(articles) == Updated(InfoAfter(before), last.text);
        FirstFoundSnoc(ToConvert(before), last, ThanksLine);
        FirstFoundSnoc(ToConvert(before), last, NomiconOf);
      } else {
        assert ToConvert(articles) == ToConvert(before);
        assert InfoAfter(articles).thankYou == InfoAfter(before).thankYou;
        assert InfoAfter(articles).nomicon == InfoAfter(before).nomicon;
      }
    }
  }

  /** The original Read Me is kept exactly when an article is called `00 Read Me`, and it is the text of one. */
  lemma {:induction false} OriginalReadmeKept(articles: seq<Article>)
    ensures InfoAfter(articles).originalReadme.Some? <==> exists k :: 0 <= k < |articles| && articles[k].name == ReadMeName
    ensures InfoAfter(articles).originalReadme.Some? ==>
              exists k :: 0 <= k < |articles| && articles[k].name == ReadMeName && articles[k].text == InfoAfter(articles).originalReadme.value
  {
    if articles != [] {
      var before := articles[..|articles| - 1];
      OriginalReadmeKept(before);
      assert forall k :: 0 <= k < |before| ==> before[k] == articles[k];
    }
  }

  /** One converted article, as the body of the loop of `reformat` does it. */
  method Convert(a: Article) returns (r: Result<Output, Failure>)
    ensures r == Conversion(a)
  {
    var parts: Segments;
    var special := UrbanIdeaSpecialCase(a.text);
    if special.Some? {
      parts := Segments(special.value.0, "", special.value.1);
    } else {
      var segmented := NameCopyrightBody(a.text);
      if segmented.Err? {
        return Err(segmented.error);
      }
      parts := segmented.value;
    }
    var external := NumberAndTitleFrom(a.name);
    if external.number.None? {
      return Err(UnnumberedArticle);
    }
    var n := external.number.value;
    var description := Description(n, external.title, NumberAndTitleFrom(parts.name).title);
    var outputName := OutputName(n, description);
    var parsed := Parse(outputName, parts.body);
    if parsed.Err? {
      return Err(parsed.error);
    }
    r := Ok(Output(outputName, parts.prologue + parsed.value));
  }

  /**
   * `reformat`, without its I/O: refuse a source without articles or with an
   * unnumbered one; then skip copies, keep the original Read Me, and gather
   * the Read Me information from and convert every other article, in order.
   * The Read Me context is what is rendered last.
   */
  method Reformat(articles: seq<Article>) returns (r: Result<seq<Output>, Failure>, readme: Option<ReadmeContext>)
    ensures r == Reformatted(articles)
    ensures r.Ok? ==> readme == ContextOf(InfoAfter(articles))
  {
    if articles == [] {
      return Err(NoArticles), None;
    }
    if exists k :: 0 <= k < |articles| && NumberAndTitleFrom(articles[k].name).number.None? {
      return Err(UnnumberedArticle), None;
    }
    var info := new ReadmeInfo();
    var outputs: seq<Output> := [];
    for i := 0 to |articles|
      invariant Outputs(articles[..i], Conversion) == Ok(outputs)
      invariant info.State() == InfoAfter(articles[..i])
    {
      var next := ReformatOne(info, articles, i, outputs);
      if next.Err? {
        OutputsFailureSticks(articles, i + 1, Conversion);
        return Err(next.error), None;
      }
      outputs := next.value;
    }
    assert articles[..|articles|] == articles;
    return Ok(outputs), ContextOf(info.State());
  }

  /** One turn of the loop of `reformat`: the article at `i` is skipped, kept as the original Read Me, or read and converted. */
  method ReformatOne(info: ReadmeInfo, articles: seq<Article>, i: nat, outputs: seq<Output>) returns (r: Result<seq<Output>, Failure>)
    requires i < |articles|
    requires Outputs(articles[..i], Conversion) == Ok(outputs) && info.State() == InfoAfter(articles[..i])
    modifies info
    ensures r == Outputs(articles[..i + 1], Conversion)
    ensures info.State() == InfoAfter(articles[..i + 1])
  {
    var a := articles[i];
    assert articles[..i + 1][..i] == articles[..i];
    r := Ok(outputs);
    match ActionFor(a.name)
    case SkipCopy =>
    case KeepOriginalReadme =>
      info.SaveOriginalReadme(a.text);
    case ConvertArticle =>
      info.UpdateFromArticle(a.text);
      var converted := Convert(a);
      if converted.Err? {
        return Err(converted.error);
      }
      r := Ok(outputs + [converted.value]);
  }
}
