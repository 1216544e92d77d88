/**
 * The line lexer shared by both transformers (the `LineKind` Logos lexer of
 * src/parse.rs and its twin in src/lib.rs).
 *
 * Text handed to the lexer starts with `\n`; every token is one line together
 * with the `\n` that starts it, so the tokens cover the text end to end. The
 * three patterns all run to the end of the line, so they match equally long
 * and Logos' priority decides: ListItem, then Header, then Vanilla.
 */
module Lexer {
  import opened Strings

  datatype LineKind = ListItem | Header | Vanilla

  /** One lexer token: its kind and the span `[start, end)` of its line in the text. */
  datatype Token = Token(kind: LineKind, start: nat, end: nat)

  /** `\n\d+\.[^\n]*`: a newline, one or more digits, then a period. */
  predicate IsListLine(line: string) {
    && |line| >= 1
    && line[0] == '\n'
    && var d := Skip(line, 1, Digits);
    && 1 < d < |line|
    && line[d] == '.'
  }

  /** `\n#+ [^\n]*`: a newline, one or more `#`, then a space. */
  predicate IsHeaderLine(line: string) {
    && |line| >= 1
    && line[0] == '\n'
    && var h := Skip(line, 1, Hashes);
    && 1 < h < |line|
    && line[h] == ' '
  }

  function Classify(line: string): (kind: LineKind)
    ensures kind == ListItem <==> IsListLine(line)
    ensures kind == Header <==> IsHeaderLine(line)
  {
    if IsListLine(line) then ListItem
    else if IsHeaderLine(line) then Header
    else Vanilla
  }

  /** A token is one `\n`-started line of `s`, classified by its own text. */
  predicate WellFormed(s: string, t: Token) {
    && t.start < t.end <= |s|
    && s[t.start] == '\n'
    && (forall j :: t.start < j < t.end ==> s[j] != '\n')
    && t.kind == Classify(s[t.start..t.end])
  }

  /** Every token of `toks` is a classified line of `s`. */
  predicate Lexed(s: string, toks: seq<Token>) {
    forall k :: 0 <= k < |toks| ==> WellFormed(s, toks[k])
  }

  /** `toks` splits `s[i..]` into its lines, in order, with nothing left over. */
  predicate Tokenizes(s: string, i: nat, toks: seq<Token>) {
    && Lexed(s, toks)
    && (toks == [] <==> i == |s|)
    && (toks != [] ==> toks[0].start == i && toks[|toks| - 1].end == |s|)
    && (forall k :: 0 <= k < |toks| - 1 ==> toks[k].end == toks[k + 1].start)
  }

  /** The lexer run from position `i` of `s` (where a line starts) to the end. */
  function LexFrom(s: string, i: nat): (toks: seq<Token>)
    requires i <= |s|
    requires i < |s| ==> s[i] == '\n'
    ensures Tokenizes(s, i, toks)
    decreases |s| - i
  {
    if i == |s| then []
    else
      var e := IndexOf(s, i + 1, '\n');
      [Token(Classify(s[i..e]), i, e)] + LexFrom(s, e)
  }

  /** `LineKind::lexer(contents).spanned()`. */
  function Lex(s: string): (toks: seq<Token>)
    requires s == [] || s[0] == '\n'
    ensures Tokenizes(s, 0, toks)
  {
    LexFrom(s, 0)
  }

  /** The text of a token: `&contents[span]`. */
  function Text(s: string, t: Token): string
    requires t.start <= t.end <= |s|
  {
    s[t.start..t.end]
  }

  function Texts(s: string, toks: seq<Token>): (texts: seq<string>)
    requires Lexed(s, toks)
    ensures |texts| == |toks|
    ensures forall k :: 0 <= k < |toks| ==> texts[k] == Text(s, toks[k])
  {
    if toks == [] then []
    else
      assert WellFormed(s, toks[0]);
      assert forall k :: 0 <= k < |toks| - 1 ==> toks[1..][k] == toks[k + 1];
      [Text(s, toks[0])] + Texts(s, toks[1..])
  }

  lemma TokenizesTail(s: string, i: nat, toks: seq<Token>)
    requires Tokenizes(s, i, toks) && toks != []
    ensures toks[0].end <= |s| && Tokenizes(s, toks[0].end, toks[1..])
  {
  }

  /** Gluing the lines back together gives back the text they came from. */
  lemma {:induction false} TextsCover(s: string, i: nat, toks: seq<Token>)
    requires i <= |s| && Tokenizes(s, i, toks)
    ensures Concat(Texts(s, toks)) == s[i..]
    decreases |toks|
  {
    if toks != [] {
      var e := toks[0].end;
      TokenizesTail(s, i, toks);
      TextsCover(s, e, toks[1..]);
      TextsCons(s, toks);
      ConcatCons(s[i..e], Texts(s, toks[1..]));
      assert s[i..] == s[i..e] + s[e..];
    }
  }

  lemma TextsCons(s: string, toks: seq<Token>)
    requires Lexed(s, toks) && toks != []
    ensures Texts(s, toks) == [Text(s, toks[0])] + Texts(s, toks[1..])
  {
  }

  /** The texts of the lines, read from the back. */
  lemma {:induction false} TextsSnoc(s: string, toks: seq<Token>)
    requires Lexed(s, toks) && toks != []
    ensures Texts(s, toks) == Texts(s, toks[..|toks| - 1]) + [Text(s, toks[|toks| - 1])]
  {
    if |toks| > 1 {
      assert toks[1..][..|toks| - 2] == toks[..|toks| - 1][1..];
      TextsSnoc(s, toks[1..]);
    }
  }
}
