/**
 * Heading anchors and roll-trigger lines: `LinkToken`, `make_link` and
 * `dice_code` of src/parse.rs (src/lib.rs holds identical copies).
 */
module Anchors {
  import opened Strings

  /** A token of the `LinkToken` lexer: a maximal run of word, or of non-word, characters. */
  datatype LinkToken = Word(text: string) | NonWord(text: string)

  const Separator: string := "-"

  predicate AllWordChars(t: string) {
    forall j :: 0 <= j < |t| ==> IsWordChar(t[j])
  }

  /** Tokens are non-empty, Word tokens hold only word characters, and the two kinds alternate. */
  predicate Alternating(toks: seq<LinkToken>) {
    toks == [] ||
    (&& |toks[0].text| > 0
     && (toks[0].Word? ==> AllWordChars(toks[0].text))
     && (|toks| > 1 ==> toks[0].Word? != toks[1].Word?)
     && Alternating(toks[1..]))
  }

  /** `LinkToken::lexer(header)` from position `i`: maximal runs, longest match first. */
  function LinkTokensFrom(h: string, i: nat): (toks: seq<LinkToken>)
    requires i <= |h|
    ensures Alternating(toks)
    ensures toks == [] <==> i == |h|
    ensures toks != [] ==> toks[0].Word? == IsWordChar(h[i])
    decreases |h| - i
  {
    if i == |h| then []
    else if IsWordChar(h[i]) then
      var e := Skip(h, i, WordChars);
      [Word(h[i..e])] + LinkTokensFrom(h, e)
    else
      var e := Skip(h, i, NonWordChars);
      [NonWord(h[i..e])] + LinkTokensFrom(h, e)
  }

  /** The texts of the tokens, one after the other. */
  function TokenTexts(toks: seq<LinkToken>): string {
    if toks == [] then [] else toks[0].text + TokenTexts(toks[1..])
  }

  predicate NoWordChars(t: string) {
    forall j :: 0 <= j < |t| ==> !IsWordChar(t[j])
  }

  /** Where the token starting at `i` ends: the end of the run of `h[i]`'s kind. */
  function RunEnd(h: string, i: nat): (e: nat)
    requires i < |h|
    ensures i < e <= |h|
  {
    if IsWordChar(h[i]) then Skip(h, i, WordChars) else Skip(h, i, NonWordChars)
  }

  lemma LinkTokensHead(h: string, i: nat)
    requires i < |h|
    ensures var toks := LinkTokensFrom(h, i);
            && toks != [] && toks[0].text == h[i..RunEnd(h, i)]
            && toks[1..] == LinkTokensFrom(h, RunEnd(h, i))
            && (toks[0].NonWord? ==> NoWordChars(toks[0].text))
  {
  }

  /** The lexer splits the header: the token texts put back together are the text from `i` on. */
  lemma {:induction false} LinkTokensCover(h: string, i: nat)
    requires i <= |h|
    ensures TokenTexts(LinkTokensFrom(h, i)) == h[i..]
    decreases |h| - i
  {
    if i < |h| {
      var e := RunEnd(h, i);
      LinkTokensHead(h, i);
      LinkTokensCover(h, e);
      assert h[i..] == h[i..e] + h[e..];
    }
  }

  /**
   * A non-word token holds no word character. With the alternation of kinds
   * and `LinkTokensCover`, every token is a maximal run of its kind.
   */
  lemma {:induction false} NonWordTokens(h: string, i: nat)
    requires i <= |h|
    ensures forall k :: 0 <= k < |LinkTokensFrom(h, i)| && LinkTokensFrom(h, i)[k].NonWord? ==>
              NoWordChars(LinkTokensFrom(h, i)[k].text)
    decreases |h| - i
  {
    if i < |h| {
      var toks := LinkTokensFrom(h, i);
      LinkTokensHead(h, i);
      NonWordTokens(h, RunEnd(h, i));
      forall k | 0 <= k < |toks| && toks[k].NonWord?
        ensures NoWordChars(toks[k].text)
      {
        if k > 0 {
          assert toks[k] == toks[1..][k - 1];
        }
      }
    }
  }

  function LinkTokens(h: string): seq<LinkToken> {
    LinkTokensFrom(h, 0)
  }

  /** The word runs of a token sequence, in order. */
  function Words(toks: seq<LinkToken>): seq<string> {
    if toks == [] then []
    else if toks[0].Word? then [toks[0].text] + Words(toks[1..])
    else Words(toks[1..])
  }

  /** The words separated by single hyphens. */
  function JoinWords(words: seq<string>): string {
    if words == [] then []
    else if |words| == 1 then words[0]
    else words[0] + Separator + JoinWords(words[1..])
  }

  /**
   * The anchor of a header line: `^`, then the header's word runs in lower case,
   * joined by single hyphens. This is what `make_link` computes; MakeLink below
   * is the token-editing algorithm of the source, proved equal to it.
   */
  function Slug(header: string): string {
    "^" + Lower(JoinWords(Words(LinkTokens(header))))
  }

  /** What `make_link` pushes for one token. */
  function Piece(t: LinkToken): string {
    if t.Word? then t.text else Separator
  }

  function Pieces(toks: seq<LinkToken>): (ps: seq<string>)
    ensures |ps| == |toks|
    ensures forall k :: 0 <= k < |toks| ==> ps[k] == Piece(toks[k])
  {
    if toks == [] then [] else [Piece(toks[0])] + Pieces(toks[1..])
  }

  function DropTrailingSeparator(ps: seq<string>): seq<string> {
    if ps != [] && ps[|ps| - 1] == Separator then ps[..|ps| - 1] else ps
  }

  lemma {:induction false} WordIsNotSeparator(t: string)
    requires |t| > 0 && AllWordChars(t)
    ensures t != Separator
  {
    assert IsWordChar(t[0]);
  }

  /** Dropping a final hyphen from the pieces of a token run that starts with a word joins its words. */
  lemma {:induction false} PiecesJoinWords(toks: seq<LinkToken>)
    requires Alternating(toks) && toks != [] && toks[0].Word?
    ensures Concat(DropTrailingSeparator(Pieces(toks))) == JoinWords(Words(toks))
    decreases |toks|
  {
    WordIsNotSeparator(toks[0].text);
    var w := toks[0].text;
    if |toks| == 1 {
      assert Pieces(toks) == [w];
      assert DropTrailingSeparator([w]) == [w];
      assert Concat([w]) == w + Concat([]);
      assert Words(toks) == [w];
    } else {
      var tail := toks[1..];
      assert Alternating(tail) && tail[0].NonWord?;
      SkipNonWord(tail);
      var rest := tail[1..];
      assert Pieces(toks) == [w, Separator] + Pieces(rest) by {
        assert Pieces(toks) == [w] + Pieces(tail);
      }
      assert Words(toks) == [w] + Words(rest);
      if rest == [] {
        assert Pieces(toks) == [w, Separator];
        assert DropTrailingSeparator([w, Separator]) == [w];
        assert Concat([w]) == w + Concat([]);
      } else {
        assert Alternating(rest) && rest[0].Word?;
        PiecesJoinWords(rest);
        WordIsNotSeparator(rest[0].text);
        JoinStep(w, Pieces(rest), Words(rest));
      }
    }
  }

  /** One word and a hyphen in front of a run that starts with a word. */
  lemma {:induction false} JoinStep(w: string, ps: seq<string>, words: seq<string>)
    requires ps != [] && ps[0] != Separator && words != []
    requires Concat(DropTrailingSeparator(ps)) == JoinWords(words)
    ensures Concat(DropTrailingSeparator([w, Separator] + ps)) == JoinWords([w] + words)
  {
    var dropped := DropTrailingSeparator(ps);
    assert DropTrailingSeparator([w, Separator] + ps) == [w, Separator] + dropped;
    ConcatAppend([w, Separator], dropped);
    assert Concat([w, Separator]) == w + Separator + Concat([]);
    assert ([w] + words)[1..] == words;
  }

  /** `parts[1] = ""` when the piece after the `^` is a hyphen. */
  function BlankLeadingSeparator(ps: seq<string>): seq<string> {
    if |ps| >= 2 && ps[1] == Separator then ps[1 := ""] else ps
  }

  /** `make_link`: push `^`, then each word or a hyphen per non-word run, blank a leading hyphen, pop a trailing one, lower-case. */
  method MakeLink(header: string) returns (link: string)
    ensures link == Slug(header)
  {
    var toks := LinkTokens(header);
    var parts: seq<string> := ["^"];
    for i := 0 to |toks|
      invariant parts == ["^"] + Pieces(toks[..i])
    {
      PiecesSnoc(toks, i);
      parts := parts + [if toks[i].Word? then toks[i].text else Separator];
    }
    assert toks[..|toks|] == toks;
    parts := TrimSeparators(parts);
    link := Lower(Concat(parts));
    EditedPiecesGiveSlug(header, toks);
  }

  /** The two in-place edits of `make_link`: blank a hyphen right after the `^`, pop a trailing hyphen. */
  method TrimSeparators(ps: seq<string>) returns (parts: seq<string>)
    requires ps != []
    ensures parts == DropTrailingSeparator(BlankLeadingSeparator(ps))
  {
    parts := ps;
    if |parts| >= 2 && parts[1] == Separator {
      parts := parts[1 := ""];
    }
    if parts[|parts| - 1] == Separator {
      parts := parts[..|parts| - 1];
    }
  }

  lemma {:induction false} EditedPiecesGiveSlug(header: string, toks: seq<LinkToken>)
    requires toks == LinkTokens(header)
    ensures Lower(Concat(DropTrailingSeparator(BlankLeadingSeparator(["^"] + Pieces(toks))))) == Slug(header)
  {
    SlugOfPieces(toks);
    LowerAppend("^", JoinWords(Words(toks)));
    assert Lower("^") == "^";
  }

  lemma {:induction false} PiecesSnoc(toks: seq<LinkToken>, i: nat)
    requires i < |toks|
    ensures Pieces(toks[..i + 1]) == Pieces(toks[..i]) + [Piece(toks[i])]
  {
    assert |Pieces(toks[..i + 1])| == i + 1;
  }

  /** The edits of `make_link` turn the pieces into `^` followed by the words joined with hyphens. */
  lemma {:induction false} SlugOfPieces(toks: seq<LinkToken>)
    requires Alternating(toks)
    ensures Concat(DropTrailingSeparator(BlankLeadingSeparator(["^"] + Pieces(toks)))) == "^" + JoinWords(Words(toks))
  {
    if toks == [] {
      assert DropTrailingSeparator(BlankLeadingSeparator(["^"] + Pieces(toks))) == ["^"];
    } else if toks[0].Word? {
      SlugOfPiecesFromWord(toks);
    } else {
      SlugOfPiecesFromNonWord(toks);
    }
  }

  lemma {:induction false} SlugOfPiecesFromWord(toks: seq<LinkToken>)
    requires Alternating(toks) && toks != [] && toks[0].Word?
    ensures Concat(DropTrailingSeparator(BlankLeadingSeparator(["^"] + Pieces(toks)))) == "^" + JoinWords(Words(toks))
  {
    WordIsNotSeparator(toks[0].text);
    PiecesJoinWords(toks);
    var ps := Pieces(toks);
    var q := ["^"] + ps;
    assert q[1] == ps[0] != Separator;
    assert BlankLeadingSeparator(q) == q;
    assert q[|q| - 1] == ps[|ps| - 1];
    if ps[|ps| - 1] == Separator {
      assert q[..|q| - 1] == ["^"] + ps[..|ps| - 1];
    }
    assert DropTrailingSeparator(q) == ["^"] + DropTrailingSeparator(ps);
    ConcatAppend(["^"], DropTrailingSeparator(ps));
    assert Concat(["^"]) == "^";
  }

  lemma {:induction false} SlugOfPiecesFromNonWord(toks: seq<LinkToken>)
    requires Alternating(toks) && toks != [] && toks[0].NonWord?
    ensures Concat(DropTrailingSeparator(BlankLeadingSeparator(["^"] + Pieces(toks)))) == "^" + JoinWords(Words(toks))
  {
    var rest := toks[1..];
    var ps := Pieces(rest);
    SkipNonWord(toks);
    var q := ["^"] + Pieces(toks);
    assert q == ["^"] + ([Separator] + ps);
    BlankAfterCaret(ps);
    var blanked := BlankLeadingSeparator(q);
    assert blanked == ["^", ""] + ps;
    if rest == [] {
      assert blanked == ["^", ""];
      assert Concat(blanked) == "^" + Concat([""]);
    } else {
      assert Alternating(rest) && rest[0].Word?;
      PiecesJoinWords(rest);
      WordIsNotSeparator(rest[0].text);
      CaretBlankThenWords(ps);
    }
  }

  /** A leading non-word token contributes one hyphen and no word. */
  lemma SkipNonWord(toks: seq<LinkToken>)
    requires toks != [] && toks[0].NonWord?
    ensures Pieces(toks) == [Separator] + Pieces(toks[1..])
    ensures Words(toks) == Words(toks[1..])
  {
  }

  lemma {:induction false} BlankAfterCaret(ps: seq<string>)
    ensures BlankLeadingSeparator(["^"] + ([Separator] + ps)) == ["^", ""] + ps
  {
    var q := ["^"] + ([Separator] + ps);
    assert q[1] == Separator;
    assert q[1 := ""] == ["^", ""] + ps;
  }

  lemma {:induction false} CaretBlankThenWords(ps: seq<string>)
    requires ps != [] && ps[0] != Separator
    ensures Concat(DropTrailingSeparator(["^", ""] + ps)) == "^" + Concat(DropTrailingSeparator(ps))
  {
    assert DropTrailingSeparator(["^", ""] + ps) == ["^", ""] + DropTrailingSeparator(ps);
    ConcatAppend(["^", ""], DropTrailingSeparator(ps));
    assert Concat(["^", ""]) == "^" + Concat([""]);
  }

  /** The shape of a joined slug: word characters and hyphens, starting and ending with a word character, no two hyphens in a row. */
  predicate HyphenJoined(s: string) {
    && (forall k :: 0 <= k < |s| ==> IsWordChar(s[k]) || s[k] == '-')
    && (s != [] ==> IsWordChar(s[0]) && IsWordChar(s[|s| - 1]))
    && (forall k :: 0 <= k < |s| - 1 ==> s[k] == '-' ==> IsWordChar(s[k + 1]))
  }

  /** Every word run is a non-empty string of word characters. */
  lemma {:induction false} WordsAreWords(toks: seq<LinkToken>)
    requires Alternating(toks)
    ensures forall k :: 0 <= k < |Words(toks)| ==> |Words(toks)[k]| > 0 && AllWordChars(Words(toks)[k])
    decreases |toks|
  {
    if toks != [] {
      WordsAreWords(toks[1..]);
    }
  }

  lemma {:induction false} JoinWordsShape(words: seq<string>)
    requires forall k :: 0 <= k < |words| ==> |words[k]| > 0 && AllWordChars(words[k])
    ensures HyphenJoined(JoinWords(words))
    ensures words != [] ==> |JoinWords(words)| > 0
    decreases |words|
  {
    if |words| > 1 {
      var w := words[0];
      JoinWordsShape(words[1..]);
      var rest := JoinWords(words[1..]);
      var r := w + Separator + rest;
      assert r == JoinWords(words);
      forall k | 0 <= k < |r| - 1
        ensures r[k] == '-' ==> IsWordChar(r[k + 1])
      {
        if k < |w| {
          assert r[k] == w[k];
        } else if k > |w| {
          assert r[k] == rest[k - |w| - 1];
        }
      }
      assert forall k :: 0 <= k < |r| ==> IsWordChar(r[k]) || r[k] == '-' by {
        forall k | 0 <= k < |r|
          ensures IsWordChar(r[k]) || r[k] == '-'
        {
          if k < |w| {
            assert r[k] == w[k];
          } else if k > |w| {
            assert r[k] == rest[k - |w| - 1];
          }
        }
      }
      assert r[|r| - 1] == rest[|rest| - 1];
    }
  }

  lemma {:induction false} LowerKeepsShape(s: string)
    requires HyphenJoined(s)
    ensures HyphenJoined(Lower(s))
    ensures forall k :: 0 <= k < |s| ==> (Lower(s)[k] == '-' <==> s[k] == '-')
  {
    var r := Lower(s);
    forall k | 0 <= k < |s|
      ensures (IsWordChar(s[k]) ==> IsWordChar(r[k])) && (r[k] == '-' <==> s[k] == '-')
    {
      LowerCharShape(s[k]);
    }
  }

  lemma LowerCharShape(c: char)
    ensures IsWordChar(c) ==> IsWordChar(LowerChar(c))
    ensures LowerChar(c) == '-' <==> c == '-'
  {
  }

  /**
   * What an anchor looks like: a `^`, then lower-case word characters and single
   * hyphens, with no hyphen straight after the `^` and none at the end.
   */
  lemma {:induction false} SlugShape(header: string)
    ensures var r := Slug(header);
      && |r| >= 1 && r[0] == '^'
      && (forall k :: 1 <= k < |r| ==> !IsUpper(r[k]) && (IsWordChar(r[k]) || r[k] == '-'))
      && (|r| > 1 ==> r[1] != '-' && r[|r| - 1] != '-')
      && (forall k :: 1 <= k < |r| - 1 ==> r[k] == '-' ==> r[k + 1] != '-')
  {
    var words := Words(LinkTokens(header));
    WordsAreWords(LinkTokens(header));
    JoinWordsShape(words);
    var j := JoinWords(words);
    LowerKeepsShape(j);
    var r := Slug(header);
    assert forall k :: 1 <= k < |r| ==> r[k] == Lower(j)[k - 1];
  }

  /** A header with no word character at all (the empty header among them) gets the bare anchor `^`. */
  lemma {:induction false} SlugWithoutWords(header: string)
    requires forall k :: 0 <= k < |header| ==> !IsWordChar(header[k])
    ensures Slug(header) == "^"
  {
    NoWords(header, 0);
  }

  lemma {:induction false} NoWords(h: string, i: nat)
    requires i <= |h|
    requires forall k :: i <= k < |h| ==> !IsWordChar(h[k])
    ensures Words(LinkTokensFrom(h, i)) == []
  {
    if i < |h| {
      var e := Skip(h, i, NonWordChars);
      assert e == |h|;
      assert LinkTokensFrom(h, e) == [];
    }
  }

  /** The roll-trigger line `\n`dice: [[<name>#<link>]]`\n` that Obsidian's dice plugin reads. */
  function DiceCode(name: string, link: string): (r: string)
    ensures |r| > 2 && r[0] == '\n' && r[|r| - 1] == '\n'
    ensures '\n' !in name && '\n' !in link ==> Count(r, '\n') == 2
  {
    DiceCodeNewlines(name, link);
    "\n`dice: [[" + name + "#" + link + "]]`\n"
  }

  lemma {:induction false} DiceCodeNewlines(name: string, link: string)
    ensures '\n' !in name && '\n' !in link ==> Count("\n`dice: [[" + name + "#" + link + "]]`\n", '\n') == 2
  {
    if '\n' !in name && '\n' !in link {
      CountAppend("\n`dice: [[", name, '\n');
      CountAppend("\n`dice: [[" + name, "#", '\n');
      CountAppend("\n`dice: [[" + name + "#", link, '\n');
      CountAppend("\n`dice: [[" + name + "#" + link, "]]`\n", '\n');
      CountAbsent(name, '\n');
      CountAbsent(link, '\n');
    }
  }
}
