# Dread Obsidian, modelled in Dafny

The program converts the articles of a Raging Swan "nomicon" (the
Laironomicon or the Thingonomicon) into Markdown files for an Obsidian
vault. An article is plain text that starts with a Markdown title line and
carries licence lines (with `©` or `OGL`) before its first sub-header. Each
article is turned into a file whose name is the article's two-digit
number and its best description. Its licence lines form the prologue. Its
numbered lists become dice tables, each with a dice-roller code block and
an anchor link back to the header above the list. A Read Me is assembled
from what the articles say about the collection and who is thanked.

The Dafny project models the pure decisions and the in-place state
changes of that conversion:

| file | module | what it models |
|---|---|---|
| `results.dfy` | `Results` | `Option`, `Result` and the failure kinds the program reports |
| `strings.dfy` | `Strings` | the string primitives the source relies on: `trim`, `lines`, `find`, digit and white-space classes, UTF-8 length, lower-casing |
| `lexer.dfy` | `Lexer` | the `LineKind` line lexer shared by both transformers |
| `anchors.dfy` | `Anchors` | `LinkToken`, `make_link` (as a method over a token list, proved equal to a slug function) and `dice_code` |
| `titles.dfy` | `Titles` | `embedded_file_name` (src/parse.rs) and `file_name_from_header` (src/lib.rs) |
| `tables.dfy` | `Tables` | `list_to_table` |
| `newlines.dfy` | `Newlines` | the `\n\n\n+` → `\n\n` collapse done by `ParsedChapter`'s `Display` |
| `segmenter.dfy` | `Segmenter` | `name_copyright_body` |
| `transformer.dfy` | `Transformer` | `ParsedChapter` as a class, and `parse` of src/parse.rs |
| `legacy.dfy` | `Legacy` | the older `subdivide` and run-span `parse` of src/lib.rs |
| `obsidianize.dfy` | `Obsidianize` | `number_and_title_from`, `urban_idea_special_case`, the per-article decisions of `reformat`, and `ReadmeInfo` as a class |
| `source.dfy` | `Source` | `DreadReader::validated_article_names` |

Each loop of the source is a `method` with loop invariants. Each method is
proved equal to a specification function, and the properties the source
promises are proved about that function. The `parse` of src/parse.rs runs
over a `ParsedChapter` object whose `parsed`, `list` and `link` fields are
updated in place. The `ReadmeInfo` of src/obsidianize.rs is likewise a
class whose `Option` fields the methods set.

Two regular-expression details follow the code rather than its comments.
First, `COLON.replace` removes only the first colon of a file name
(src/parse.rs:65, src/lib.rs:88), although a test name says "everywhere".
Second, the licence test of `name_copyright_body` accepts a whole-word
`OGL` anywhere in a line (src/parse.rs:10). Only the older `subdivide`
requires it at the start of the line (src/lib.rs:34).

The older `parse` of src/lib.rs ends differently from the newer one. When
the input ends inside a list run, it appends the dice code a second time
(src/lib.rs:161-165), not the anchor. `Legacy.EndInList` states this as
the code does it.

## Model

| member | source | states |
|---|---|---|
| Strings.Trim | src/parse.rs:52-55 | `str::trim`: the result is the substring between the leading and the trailing white space; it neither starts nor ends with white space |
| Strings.RemoveFirstColon | src/parse.rs:65 | only the first `:` is removed: nothing changes without a colon, otherwise exactly one character goes, the first colon, and everything before it is colon-free |
| Strings.RemoveFirstColonCount | src/lib.rs:88 | removing the first colon lowers the number of colons by exactly one, so later colons stay |
| Strings.NatToStringRoundTrip | src/parse.rs:172-181 | the decimal text of a number reads back as that number |
| Lexer.Classify | src/parse.rs:105-116 | a line is a ListItem exactly when it is `\n`, digits and `.`; otherwise a Header exactly when it is `\n`, `#`s and a space; otherwise Vanilla (Logos priority) |
| Lexer.Lex | src/parse.rs:79 | the tokens are the `\n`-started lines of the text, in order and adjacent, each classified by its own text |
| Lexer.TextsCover | src/parse.rs:79-86 | the texts of the tokens glued together give back the lexed text |
| Anchors.LinkTokensFrom | src/parse.rs:186-193 | the `LinkToken` lexer gives non-empty tokens, word tokens made of word characters only, kinds alternating, the first token's kind that of the first character |
| Anchors.LinkTokensCover | src/parse.rs:186-193 | the token texts put back together are the header text |
| Anchors.NonWordTokens | src/parse.rs:186-193 | a non-word token holds no word character, so with alternation and cover every token is a maximal run |
| Anchors.MakeLink | src/parse.rs:195-211 | `make_link` equals the slug of the header: `^`, then its word runs lower-cased and joined by single hyphens |
| Anchors.TrimSeparators | src/parse.rs:204-209 | the in-place edits blank a hyphen right after `^` and drop a trailing hyphen |
| Anchors.PiecesJoinWords | src/parse.rs:198-203 | pushing each word and one hyphen per non-word run, less a trailing hyphen, gives the words joined by hyphens |
| Anchors.SlugShape | src/parse.rs:195-211 | an anchor starts with `^`; after it come only lower-case word characters and hyphens, with no hyphen first, last or doubled |
| Anchors.SlugWithoutWords | src/parse.rs:257-260 | a header without word characters (such as `""`) gives the anchor `^` |
| Anchors.DiceCode | src/parse.rs:213-215 | the dice code starts and ends with a new line and, for a name and anchor without new lines, holds exactly those two |
| Titles.HeaderCapture | src/parse.rs:44 | `^#+\s+(.*\S)\s*` captures, after the marker and white space, a non-empty single line that starts and ends with non-white space |
| Titles.HeaderCaptureOf | src/parse.rs:44-52 | marker, white space and a title line give that title less trailing white space |
| Titles.NoHeaderCapture | src/parse.rs:49-51 | text that does not start with `#`s then white space has no header |
| Titles.StripSeriesPrefix | src/parse.rs:45-56 | a leading `20 Things #` or `Monstrous Lair #` is removed and the rest is trimmed; without one, the title is only trimmed |
| Titles.CopyrightLineFrom | src/parse.rs:58-60 | the search for `\n[^#]+#\d\d:\s*([^.]+)\.\s*©` finds the leftmost line that matches |
| Titles.CopyrightNameAtOf | src/parse.rs:58-61 | a line `\n…#dd: name. ©` yields `name` |
| Titles.CopyrightLineName | src/parse.rs:58-62 | there is a name from a copyright line exactly when some line matches; the name is non-empty and free of `.` |
| Titles.EmbeddedFileName | src/parse.rs:43-66 | fails, with the "not a Markdown header" error, exactly when there is no header |
| Titles.EmbeddedFileNameOf | src/parse.rs:43-66 | a header `#… title` gives the title, trimmed, stripped of its series prefix and of its first colon |
| Titles.PlaceholderFallback | src/parse.rs:57-63 | when the title is `Name`, the name from the copyright line is used if there is one; `file_name_from_header` keeps `Name` |
| Titles.FileNameFromHeader | src/lib.rs:73-89 | fails exactly when the text is not a Markdown header |
| Titles.VersionsAgreeUnlessPlaceholder | src/lib.rs:73-89 | `file_name_from_header` and `embedded_file_name` agree unless the title is the placeholder `Name` |
| Titles.TooLateIsNoHeader | src/parse.rs:370-373 | `" # Too Late"` is refused by both versions |
| Tables.ItemText | src/parse.rs:171-176 | the text of a list item, when there is one, holds no new line |
| Tables.ItemTextOf | src/parse.rs:171-176 | an item `\n<digits>.<rest>` has the text `rest`, trimmed |
| Tables.RowsNewlines | src/parse.rs:177-182 | the rows, one per item text, are ended by exactly one new line each |
| Tables.ListToTable | src/parse.rs:170-184 | `list_to_table` equals the table: header with `d<n>` for n items, then the rows; or the error |
| Tables.TableErrors | src/parse.rs:172-176 | an empty list is refused; a list with a line that is not a list item is refused with a different error; nothing else is |
| Tables.TableLineCount | src/parse.rs:170-184 | a table of n items has n + 2 lines |
| Newlines.Collapse | src/parse.rs:127-130 | the collapse never lengthens the text; `Newlines.CollapseRun` and `Newlines.CollapseAppend` state run by run what it keeps and removes |
| Newlines.CollapseRun | src/parse.rs:127-130 | a run of n new lines that is not followed by another becomes two when n ≥ 3 and stays as it is when shorter; the rest is collapsed on its own |
| Newlines.CollapseAppend | src/parse.rs:127-130 | the collapse works piece by piece across a joint not preceded by a new line, so every run anywhere in the text is treated as `CollapseRun` says |
| Newlines.CollapseHasNoTriple | src/parse.rs:127-130 | after the collapse no three new lines follow each other |
| Newlines.CollapseIdentity | src/parse.rs:127-130 | text without three new lines in a row is left as it is |
| Newlines.CollapseIdempotent | src/parse.rs:127-130 | collapsing twice is collapsing once |
| Newlines.CollapseKeepsText | src/parse.rs:127-130 | the collapse removes only new lines |
| Newlines.CollapseLeading | src/parse.rs:127-130 | three or more leading new lines become two; fewer stay |
| Segmenter.SubheadFrom | src/parse.rs:21-24 | `SUBHEAD.find`: the leftmost `\n#+\s` at or after a position |
| Segmenter.Kept | src/parse.rs:27-35 | the kept lines are the licence lines, in order; none are kept exactly when no line qualifies |
| Segmenter.KeptAppend | src/parse.rs:29-35 | the licence filter works line by line: filtering two parts is filtering the whole |
| Segmenter.LicenceLines | src/parse.rs:27-35 | the loop pushes each licence line followed by `\n`, and pushes nothing exactly when no line qualifies |
| Segmenter.Segment | src/parse.rs:8-41 | fails exactly when there is no header, or there is a new line and no prologue line carries `©` or a whole-word `OGL`; the name is the embedded file name |
| Segmenter.NameCopyrightBody | src/parse.rs:8-41 | `name_copyright_body` equals the segmentation |
| Segmenter.SegmentParts | src/parse.rs:19-25 | title line, prologue and body put back together are the input; a non-empty prologue starts with `\n` |
| Segmenter.SegmentBoundary | src/parse.rs:21-25 | the body is empty or starts with a sub-header, and there is no sub-header before it |
| Segmenter.SegmentOk | src/parse.rs:27-40 | on success the prologue is the licence lines each followed by `\n`, one new line per kept line, and the body is the text from the first sub-header |
| Segmenter.SegmentOneLine | src/parse.rs:16-18 | input without a new line gives an empty prologue and an empty body |
| Segmenter.TerminatedNewlines | src/parse.rs:32-33 | the prologue has one new line per kept line |
| Segmenter.MinimalSuffices | src/parse.rs:221-226 | the minimal article `# H\n©` is accepted |
| Transformer.ParsedChapter.constructor | src/parse.rs:135-137 | a new chapter has the given name and anchor and nothing parsed or listed |
| Transformer.ParsedChapter.PushLine | src/parse.rs:138-151 | a list line joins the open list; a header line is kept and its slug becomes the anchor; a plain line is kept; nothing else changes |
| Transformer.ParsedChapter.ChangeKind | src/parse.rs:152-161 | entering a list adds the dice code for the current anchor between paragraph breaks; leaving one adds its table and the anchor between breaks and empties the list, or fails as the table does |
| Transformer.ParsedChapter.PushAsParagraph | src/parse.rs:162-167 | the line is added between two paragraph breaks; the list and the anchor are unchanged |
| Transformer.ParsedChapter.Display | src/parse.rs:125-131 | the display has no three new lines in a row and, new lines aside, is the parsed text; it is the collapse of the joined pieces, so `Newlines.CollapseRun` and `Newlines.CollapseAppend` say which new lines are kept |
| Transformer.Transform | src/parse.rs:68-90 | empty input gives empty output; input not starting with `\n` is refused; the output never holds three new lines in a row |
| Transformer.Parse | src/parse.rs:68-90 | `parse`, run over a `ParsedChapter`, equals the transform |
| Transformer.FeedLines | src/parse.rs:79-86 | feeding the lines in order leaves the chapter in the state the transform reaches, or fails with its error |
| Transformer.ParseLine | src/parse.rs:81-85 | one line: the kind is changed first when it differs from the previous line's, then the line is pushed; the result is one step of the transform |
| Transformer.TransformErrors | src/parse.rs:69-74 | `parse` fails exactly when the input is non-empty and does not start with `\n` |
| Transformer.ChapterAfterSnoc | src/parse.rs:79-86 | each line first changes the kind if it differs from the last one, then is pushed |
| Transformer.FailureSticks | src/parse.rs:80-82 | once a line fails, the result is that failure |
| Transformer.ChapterInvariant | src/parse.rs:76-86 | the loop never fails; the anchor is the slug of the last header line so far, or `^START`; the open list is the current run of list lines |
| Transformer.OpenRun | src/parse.rs:138-142 | the open list is non-empty exactly when the last line was a list line, and all its lines are list items |
| Transformer.DiceOpensRun | src/parse.rs:152-155 | a list run opens with the dice code for the anchor in force, between paragraph breaks |
| Transformer.TableClosesRun | src/parse.rs:156-159 | a list run closes with the table of exactly its items, then the anchor, between paragraph breaks, and the list is emptied |
| Transformer.EndInListCloses | src/parse.rs:87-89 | a list run that ends the input is closed by the final change back to Vanilla: its table, then the anchor between paragraph breaks end the output before the collapse |
| Transformer.NoListCopies | src/parse.rs:138-151 | without list lines the chapter is the input's lines, in order |
| Transformer.NoListIsCollapse | src/parse.rs:68-90 | without list lines `parse` only collapses new lines |
| Transformer.PlainTextUnchanged | src/parse.rs:286-296 | without list lines or three new lines in a row the input comes back unchanged |
| Legacy.Subdivide | src/lib.rs:31-71 | on success, with a new line in the input, the name is `file_name_from_header` of the first line |
| Legacy.SubdivideMethod | src/lib.rs:31-71 | `subdivide` equals the specification |
| Legacy.PrologueOf | src/lib.rs:54-68 | without a body the prologue is the whole text; with one it is the lines with `©` or a leading `OGL`/`Include OGL`, each followed by `\n` |
| Legacy.SplitAfterTitle | src/lib.rs:42-52 | the text after the title line splits at the first sub-header, the leading `\n` dropped |
| Legacy.SubdivideWithoutSubhead | src/lib.rs:49-57 | without a sub-header, success needs no licence line; the prologue is all of the text after the first new line and the body is empty |
| Legacy.SubdivideWithSubhead | src/lib.rs:58-67 | with a sub-header, it fails exactly when no prologue line is a licence line |
| Legacy.SubdivideBody | src/lib.rs:45-46 | a non-empty body is the text from the first sub-header |
| Legacy.LegacyTransform | src/lib.rs:116-126 | fails exactly when non-empty input does not start with `\n`; empty input gives empty output |
| Legacy.LegacyParse | src/lib.rs:116-168 | the run-span `parse` equals the specification |
| Legacy.NextRun | src/lib.rs:137-156 | a kind change emits the finished run, the anchor after a list run, and the dice code before a list run; a header run sets the anchor |
| Legacy.ScanLink | src/lib.rs:131-150 | the anchor is `^START` until a header run is entered, then the slug of that run's first line |
| Legacy.ScanRun | src/lib.rs:135-139 | the current span is exactly the text of the trailing run of same-kind lines |
| Legacy.ScanLiterals | src/lib.rs:133-159 | what is emitted, less the inserted fragments, is the input up to the current run |
| Legacy.LegacyKeepsInput | src/lib.rs:116-168 | deleting the inserted fragments from the output gives back the input |
| Legacy.LegacyWithoutLists | src/lib.rs:116-168 | input without list lines comes back unchanged |
| Legacy.ListRunFramed | src/lib.rs:138-156 | at a kind change the run is emitted verbatim, followed by the anchor after a list run and the dice code before one, between paragraph breaks |
| Legacy.EndInList | src/lib.rs:160-167 | input ending inside a list run ends with the run and a second dice code, not the anchor |
| Obsidianize.NumberAndTitleFrom | src/obsidianize.rs:102-111 | the title is a suffix of the name; a number is only found before a leading digit; a title that would hold a new line leaves the name unsplit |
| Obsidianize.NumberAndTitleOf | src/obsidianize.rs:102-111 | digits, a gap of white space and underscores, and a one-line title give the digits' value and the title |
| Obsidianize.UnnumberedName | src/obsidianize.rs:102-111 | a name not starting with a digit has no number |
| Obsidianize.NumberAndTitleExamples | src/obsidianize.rs:206-212 | `12_stuff` gives 12 and `stuff`; `stuff` gives no number and `stuff` |
| Obsidianize.Description | src/obsidianize.rs:73-81 | for number 12 the content title; otherwise the one with more UTF-8 bytes, ties to the content title |
| Obsidianize.OutputName | src/obsidianize.rs:85 | below 100 the number in two digits, a space and the description; otherwise the description alone |
| Obsidianize.OutputNameRoundTrip | src/obsidianize.rs:102-111 | splitting an output name gives back its number and description |
| Obsidianize.UrbanIdeaSpecialCase | src/obsidianize.rs:174-186 | there is a special case exactly when the pattern matches; its name is `71 Urban Events` and its text is `\n## Ideas\n` followed by the input from a `1` on; `Obsidianize.UrbanIdeasOf` pins that `1` as the one straight after the `#ideas` line and its white space |
| Obsidianize.UrbanIdeasOf | src/obsidianize.rs:192-204 | `# 71: Urban…\n#ideas` then white space before `1.` gives `71 Urban Events` and `\n## Ideas\n` followed by the list |
| Obsidianize.UrbanIdeasParse | src/obsidianize.rs:58-88 | the special case's text is always accepted by `parse` |
| Obsidianize.ThanksLine | src/obsidianize.rs:139-145 | a thanks line is found exactly when some line starts `Thank you to`; it is one line starting with those words |
| Obsidianize.ThanksLineFirst | src/obsidianize.rs:139-145 | the thanks line is the whole first line starting `Thank you to` |
| Obsidianize.NomiconOf | src/obsidianize.rs:141-150 | a collection is found exactly when some line starts `Monstrous Lair` or `20 Things`, and it is one of the two |
| Obsidianize.NomiconFirst | src/obsidianize.rs:146-150 | the first such line decides: `Monstrous Lair` gives `Laironomicon`, `20 Things` gives `Thingonomicon` |
| Obsidianize.ReadmeInfo.constructor | src/obsidianize.rs:122-127 | the information starts empty |
| Obsidianize.ReadmeInfo.SaveOriginalReadme | src/obsidianize.rs:135-137 | only the original Read Me is set |
| Obsidianize.ReadmeInfo.UpdateFromArticle | src/obsidianize.rs:138-152 | each of the thanks line and the collection is taken from the article only while unset; once set it never changes |
| Obsidianize.ContextOf | src/obsidianize.rs:161-171 | there is a context exactly when both the collection and the thanks are known; the original Read Me part is empty when none was saved, else the fixed separator and the saved text |
| Obsidianize.ActionFor | src/obsidianize.rs:46-55 | names ending ` copy` are skipped; `00 Read Me` is kept as the original Read Me; everything else is converted |
| Obsidianize.WithPrologue | src/obsidianize.rs:87-90 | the output body is the prologue followed by what `parse` returned, or `parse`'s failure |
| Obsidianize.UnreadableArticle | src/obsidianize.rs:64-66 | an article that is not the special case and cannot be segmented is refused for that reason |
| Obsidianize.ConvertedName | src/obsidianize.rs:69-85 | a converted article has a number, and below 100 its output name starts with it in two digits and a space |
| Obsidianize.UrbanIdeasConvert | src/obsidianize.rs:58-90 | a numbered special-case article converts, its body being `parse` of the special text, with an empty prologue |
| Obsidianize.Convert | src/obsidianize.rs:56-90 | one turn of the loop equals the conversion of the article |
| Obsidianize.ToConvert | src/obsidianize.rs:45-55 | the articles converted are exactly those neither skipped as copies nor kept as the Read Me |
| Obsidianize.ConvertEachAll | src/obsidianize.rs:45-93 | the conversions succeed exactly when each one does, and then come in article order, one per article |
| Obsidianize.OutputsFailureSticks | src/obsidianize.rs:64-89 | the first failing article ends `reformat` with its failure |
| Obsidianize.OutputsAreConversions | src/obsidianize.rs:45-93 | the loop's outputs are the conversions of the articles to convert, in order |
| Obsidianize.FirstFoundSnoc | src/obsidianize.rs:143-151 | a later article is consulted only while nothing has been found |
| Obsidianize.ReadmeGathered | src/obsidianize.rs:138-152 | after the loop, the thanks line and the collection are those of the first converted article that has one |
| Obsidianize.OriginalReadmeKept | src/obsidianize.rs:51-55 | an original Read Me is saved exactly when an article is named `00 Read Me`, and it is that article's text |
| Obsidianize.Reformat | src/obsidianize.rs:25-100 | `reformat` refuses an empty listing and an unnumbered name; otherwise it yields the conversions and, on success, the Read Me context gathered from the articles |
| Obsidianize.ReformatOne | src/obsidianize.rs:46-92 | one article of the loop: a copy is skipped, the original Read Me is kept, any other article updates the Read Me information and is converted; the result extends the outputs of the articles before it |
| Source.VisibleStems | src/source.rs:15-31 | every name is the stem of a listed path with a visible stem and an extension |
| Source.ValidatedArticleNames | src/source.rs:14-32 | the loop equals the specification: refused if a visible path has another extension, else the visible stems in order |
| Source.VisibleStemsAppend | src/source.rs:16-31 | names keep listing order: the names of two listings in a row are their names in a row |
| Source.PassedOver | src/source.rs:17-21 | a path without a stem, with a hidden stem or without an extension changes nothing, wherever it is listed |
| Source.ValidatedAreArticles | src/source.rs:22-29 | every name returned is the non-hidden stem of a path with the expected extension |
| Source.MixedExtensionsRefused | src/source.rs:22-28 | a listing with a `.md` file where `.txt` files are expected is refused |

## Left out

- Reading and writing files are I/O and are not modelled: `reformat_for_obsidian`, the creation and validation of the output directory in `reformat`, `write_markdown`, and the `new`, `raw_paths` and `article` of `DreadDirectory` and `DreadZipfile`. The listing is a parameter of `Source.ValidatedArticleNames`, and the articles, with their text already read, are a parameter of `Obsidianize.Reformat`. `Obsidianize.Reformat` returns the outputs instead of writing them.
- Obsidianize.Reformat: the listing is taken as given, so the check that the output directory holds only `.md` files is not modelled.
- Obsidianize.Reformat: the file written for an output is not modelled. `write_markdown` (src/obsidianize.rs:113-121) joins the output name to the directory and calls `with_extension("md")`, which replaces whatever follows the last `.` of the name. A description such as `Mr. Bones` is therefore written to `05 Mr.md`, and two names that agree up to their last `.` write the same file, the later one overwriting the earlier. The front matter written before the body (`obsidianUIMode: preview`) is left out too. `Obsidianize.Output.name` is the name before that rewriting.
- Obsidianize.Reformat: the model returns either all outputs or the first failure. The source writes each file inside the loop, so when article k fails, the files of the articles converted before it are already written. Those outputs are `Outputs` of the articles before k, the prefix `Obsidianize.OutputsFailureSticks` stops at, but `Reformat` does not return them with the error.
- Source.ValidatedArticleNames: `DreadDirectory::article` (src/source.rs:66-69) reads `stem.with_extension(extension)`, so a stem that holds a `.` is read from a different file than the one listed. Reading articles is I/O and is not modelled; the names returned are the listed stems.
- `ReadmeInfo::readme` renders a TinyTemplate template that is not part of this model. The model stops at the context it is rendered with (`Obsidianize.ContextOf`).
- The regular-expression and Logos engines are not modelled. Each pattern the program uses is written out as a scanner with the same leftmost, greedy behaviour. `\s` is the Unicode White_Space set. `\d`, `\w` and `to_lowercase` are ASCII only, so non-ASCII digits, letters and case mappings are not modelled.
- The Logos error token (`ThisCantHappen`) cannot occur with these patterns, because every line matches Vanilla. It is left out.
- Error messages and the `anyhow` context strings are not modelled. Errors are the failure kinds of `Results.Failure`.
- Obsidianize.NumberAndTitleFrom: the number is an unbounded natural. The `u32` parse in the source panics on a number above 4294967295, and that panic is not modelled.
- Anchors.MakeLink: the test example `"\n@$#$@how%^&^&%NOW-you--------COW-------"` → `^how-now-you-cow` is not proved as a literal. `Anchors.SlugShape` and `Anchors.MakeLink` state the general rule it follows.
- The location strings of the sources, and `src/main.rs` (argument parsing), are not part of this model.
