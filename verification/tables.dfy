/**
 * `list_to_table` of src/parse.rs: a run of numbered list lines becomes a
 * Markdown table whose first column is the die roll (`d<n>`) and whose rows are
 * numbered by position.
 */
module Tables {
  import opened Results
  import opened Strings

  /**
   * The text `\n\d+\.\s*(.*)` captures in `item`, from its leftmost match: after a
   * new line, digits and a period, white space is skipped (new lines included)
   * and the rest of that line is taken.
   */
  function ItemCaptureFrom(item: string, i: nat): (r: Option<string>)
    requires i <= |item|
    ensures r.Some? ==> '\n' !in r.value
    decreases |item| - i
  {
    if i == |item| then None
    else if item[i] == '\n' then
      var d := Skip(item, i + 1, Digits);
      if d > i + 1 && d < |item| && item[d] == '.' then
        var w := Skip(item, d + 1, Spaces);
        var l := IndexOf(item, w, '\n');
        Some(item[w..l])
      else ItemCaptureFrom(item, i + 1)
    else ItemCaptureFrom(item, i + 1)
  }

  function ItemCapture(item: string): Option<string> {
    ItemCaptureFrom(item, 0)
  }

  /** The text of one row: the capture, trimmed. */
  function ItemText(item: string): (r: Option<string>)
    ensures r.Some? ==> '\n' !in r.value
  {
    match ItemCapture(item)
    case None => None
    case Some(c) => Some(Trim(c))
  }

  const HeaderOpen: string := "\n| d"
  const HeaderClose: string := " | Item |"
  const AlignmentLine: string := "\n| --:| -- |"

  /** `| d<n> | Item |` and the alignment line under it. */
  function TableHeader(n: nat): string {
    HeaderOpen + NatToString(n) + HeaderClose + AlignmentLine
  }

  /** Row `k` of the table, numbered by its position, not by the digits of the item. */
  function TableRow(k: nat, text: string): string {
    "\n| " + NatToString(k) + " | " + text + " |"
  }

  /** The text of every item, in order, or None when one of them is not a list item. */
  function ItemTexts(items: seq<string>): Option<seq<string>> {
    if forall j :: 0 <= j < |items| ==> ItemText(items[j]).Some? then
      Some(seq(|items|, j requires 0 <= j < |items| && ItemText(items[j]).Some? => ItemText(items[j]).value))
    else None
  }

  /** The rows for the texts `texts`, the first of them numbered `k`: by position, whatever the items' digits. */
  function Rows(texts: seq<string>, k: nat): seq<string> {
    seq(|texts|, j requires 0 <= j < |texts| => TableRow(k + j, texts[j]))
  }

  /** What `list_to_table` returns. */
  function TableOf(items: seq<string>): Result<string, Failure> {
    if items == [] then Err(EmptyList)
    else match ItemTexts(items)
      case None => Err(NotAListItem)
      case Some(texts) => Ok(Concat([TableHeader(|items|)] + Rows(texts, 1)))
  }

  /** `list_to_table`: push the header, then one row per item, numbered by the number of rows so far. */
  method ListToTable(items: seq<string>) returns (r: Result<string, Failure>)
    ensures r == TableOf(items)
  {
    var n := |items|;
    if n == 0 {
      return Err(EmptyList);
    }
    var rows := [TableHeader(n)];
    for i := 0 to n
      invariant |rows| == i + 1 && rows[0] == TableHeader(n)
      invariant forall j :: 0 <= j < i ==> ItemText(items[j]).Some? && rows[j + 1] == TableRow(j + 1, ItemText(items[j]).value)
    {
      var capture := ItemCapture(items[i]);
      if capture.None? {
        assert ItemText(items[i]).None?;
        return Err(NotAListItem);
      }
      rows := rows + [TableRow(|rows|, Trim(capture.value))];
    }
    assert rows[1..] == Rows(ItemTexts(items).value, 1);
    assert rows == [TableHeader(n)] + rows[1..];
    r := Ok(Concat(rows));
  }

  /** `list_to_table` fails on an empty list and on no other list of list items. */
  lemma TableErrors(items: seq<string>)
    ensures TableOf(items) == Err(EmptyList) <==> items == []
    ensures TableOf(items) == Err(NotAListItem) <==> items != [] && exists j :: 0 <= j < |items| && ItemText(items[j]).None?
  {
  }

  /** Each row is one line: the rows of `n` one-line texts hold `n` new lines. */
  lemma {:induction false} RowsNewlines(texts: seq<string>, k: nat)
    requires forall j :: 0 <= j < |texts| ==> '\n' !in texts[j]
    ensures Count(Concat(Rows(texts, k)), '\n') == |texts|
    decreases |texts|
  {
    if texts != [] {
      var rest := Rows(texts[1..], k + 1);
      RowsNewlines(texts[1..], k + 1);
      assert Rows(texts, k) == [TableRow(k, texts[0])] + rest;
      assert Concat([TableRow(k, texts[0])] + rest) == TableRow(k, texts[0]) + Concat(rest);
      CountAppend(TableRow(k, texts[0]), Concat(rest), '\n');
      RowNewlines(k, texts[0]);
    }
  }

  lemma {:induction false} RowNewlines(k: nat, text: string)
    requires '\n' !in text
    ensures Count(TableRow(k, text), '\n') == 1
  {
    var num := NatToString(k);
    assert '\n' !in num;
    CountAppend("\n| ", num, '\n');
    CountAppend("\n| " + num, " | ", '\n');
    CountAppend("\n| " + num + " | ", text, '\n');
    CountAppend("\n| " + num + " | " + text, " |", '\n');
    CountAbsent(num, '\n');
    CountAbsent(text, '\n');
  }

  lemma {:induction false} HeaderNewlines(n: nat)
    ensures Count(TableHeader(n), '\n') == 2
  {
    var num := NatToString(n);
    assert '\n' !in num;
    CountAppend(HeaderOpen, num, '\n');
    CountAppend(HeaderOpen + num, HeaderClose, '\n');
    CountAppend(HeaderOpen + num + HeaderClose, AlignmentLine, '\n');
    CountAbsent(num, '\n');
    ConstantNewlines();
  }

  lemma {:induction false} ConstantNewlines()
    ensures Count(HeaderOpen, '\n') == 1 && Count(HeaderClose, '\n') == 0 && Count(AlignmentLine, '\n') == 1
  {
    CountAbsent(HeaderClose, '\n');
    LeadingNewlineCount(HeaderOpen);
    LeadingNewlineCount(AlignmentLine);
  }

  lemma {:induction false} LeadingNewlineCount(s: string)
    requires s != [] && s[0] == '\n' && '\n' !in s[1..]
    ensures Count(s, '\n') == 1
  {
    CountAbsent(s[1..], '\n');
  }

  /** A table of `n` items has exactly `n + 2` lines, each starting with a new line: two for the header, one per item. */
  lemma {:induction false} TableLineCount(items: seq<string>)
    requires TableOf(items).Ok?
    ensures Count(TableOf(items).value, '\n') == |items| + 2
  {
    var texts := ItemTexts(items).value;
    var rows := Rows(texts, 1);
    assert Concat([TableHeader(|items|)] + rows) == TableHeader(|items|) + Concat(rows);
    CountAppend(TableHeader(|items|), Concat(rows), '\n');
    HeaderNewlines(|items|);
    RowsNewlines(texts, 1);
  }

  /** The row of a list line `\n<digits>.<gap><text>` is the trimmed text, whatever its digits. */
  lemma {:induction false} ItemTextOf(item: string, d: nat)
    requires 1 < d < |item| && item[0] == '\n' && item[d] == '.'
    requires forall k :: 1 <= k < d ==> IsDigit(item[k])
    requires '\n' !in item[1..]
    ensures ItemText(item) == Some(Trim(item[d + 1..]))
  {
    ItemCaptureOf(item, d);
    TrimAfterGap(item, d + 1);
  }

  /** Trimming the text after the white space that follows `i` is trimming the text after `i`. */
  lemma {:induction false} TrimAfterGap(item: string, i: nat)
    requires i <= |item|
    ensures Trim(item[Skip(item, i, Spaces)..]) == Trim(item[i..])
  {
    var w := Skip(item, i, Spaces);
    var tail := item[i..];
    var j := w - i;
    assert tail[j..] == item[w..];
    forall k | 0 <= k < j
      ensures IsWhitespace(tail[k])
    {
      assert tail[k] == item[i + k];
    }
    TrimSkipsLeading(tail, j);
  }

  lemma {:induction false} ItemCaptureOf(item: string, d: nat)
    requires 1 < d < |item| && item[0] == '\n' && item[d] == '.'
    requires forall k :: 1 <= k < d ==> IsDigit(item[k])
    requires '\n' !in item[1..]
    ensures ItemCapture(item) == Some(item[Skip(item, d + 1, Spaces)..])
  {
    SkipTo(item, 1, d, Digits);
    var w := Skip(item, d + 1, Spaces);
    assert forall k :: w <= k < |item| ==> item[k] != '\n' by {
      assert forall k :: 1 <= k < |item| ==> item[k] == item[1..][k - 1];
    }
    IndexOfIs(item, w, |item|, '\n');
    assert ItemCaptureFrom(item, 0) == Some(item[w..IndexOf(item, w, '\n')]);
    assert item[w..|item|] == item[w..];
  }

  /** Trimming after dropping some leading white space is the same as trimming. */
  lemma {:induction false} TrimSkipsLeading(s: string, j: nat)
    requires j <= |s| && forall k :: 0 <= k < j ==> IsWhitespace(s[k])
    ensures Trim(s[j..]) == Trim(s)
  {
    var lw := Skip(s, 0, Spaces);
    assert j <= lw;
    SkipTo(s[j..], 0, lw - j, Spaces) by {
      assert forall k :: 0 <= k < |s| - j ==> s[j..][k] == s[j + k];
    }
    assert s[j..][lw - j..] == s[lw..];
  }
}
