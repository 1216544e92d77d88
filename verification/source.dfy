/**
 * `DreadReader::validated_article_names` of src/source.rs: which files of a
 * source (a directory or a zip archive) are articles.
 *
 * Listing the files is I/O; here the listing is a sequence of what
 * `file_stem` and `extension` report for each path. Files without a stem,
 * hidden files (stem starting with `.`) and files without an extension are
 * passed over; any other file must carry the expected extension, or the
 * whole listing is refused.
 */
module Source {
  import opened Results

  /** One listed path, as `Utf8Path::file_stem` and `Utf8Path::extension` see it. */
  datatype RawPath = RawPath(stem: Option<string>, extension: Option<string>)

  predicate Hidden(stem: string) {
    |stem| > 0 && stem[0] == '.'
  }

  /** A path that is looked at: it has a stem that is not hidden, and an extension. */
  predicate Visible(p: RawPath) {
    p.stem.Some? && !Hidden(p.stem.value) && p.extension.Some?
  }

  /** A visible path whose extension is not the expected one. */
  predicate Foreign(p: RawPath, extension: string) {
    Visible(p) && p.extension.value != extension
  }

  /** The stems of the visible paths, in listing order. */
  function VisibleStems(paths: seq<RawPath>): (r: seq<string>)
    ensures |r| <= |paths|
    ensures forall x :: x in r ==> exists k :: 0 <= k < |paths| && Visible(paths[k]) && paths[k].stem.value == x
  {
    if paths == [] then []
    else
      var last := paths[|paths| - 1];
      var before := VisibleStems(paths[..|paths| - 1]);
      assert forall k :: 0 <= k < |paths| - 1 ==> paths[..|paths| - 1][k] == paths[k];
      if Visible(last) then before + [last.stem.value] else before
  }

  /** What `validated_article_names` returns for the listing `paths`. */
  function ValidatedNames(paths: seq<RawPath>, extension: string): Result<seq<string>, Failure> {
    if exists k :: 0 <= k < |paths| && Foreign(paths[k], extension) then Err(WrongExtension)
    else Ok(VisibleStems(paths))
  }

  /** `validated_article_names`: walk the listing, skip what is not looked at, stop at the first foreign file. */
  method ValidatedArticleNames(paths: seq<RawPath>, extension: string) returns (r: Result<seq<string>, Failure>)
    ensures r == ValidatedNames(paths, extension)
  {
    var validated: seq<string> := [];
    for i := 0 to |paths|
      invariant validated == VisibleStems(paths[..i])
      invariant forall k :: 0 <= k < i ==> !Foreign(paths[k], extension)
    {
      var path := paths[i];
      assert paths[..i + 1][..i] == paths[..i];
      if path.stem.None? || Hidden(path.stem.value) || path.extension.None? {
        continue;
      }
      if path.extension.value != extension {
        return Err(WrongExtension);
      }
      validated := validated + [path.stem.value];
    }
    assert paths[..|paths|] == paths;
    return Ok(validated);
  }

  /** Listing order is kept: the names of two listings one after the other are their names one after the other. */
  lemma {:induction false} VisibleStemsAppend(a: seq<RawPath>, b: seq<RawPath>)
    ensures VisibleStems(a + b) == VisibleStems(a) + VisibleStems(b)
    decreases |b|
  {
    if b != [] {
      var n := |b| - 1;
      assert (a + b)[..|a + b| - 1] == a + b[..n];
      assert (a + b)[|a + b| - 1] == b[n];
      VisibleStemsAppend(a, b[..n]);
    } else {
      assert a + b == a;
    }
  }

  /** A path that is not looked at changes nothing, wherever it is listed. */
  lemma {:induction false} PassedOver(a: seq<RawPath>, p: RawPath, b: seq<RawPath>, extension: string)
    requires !Visible(p)
    ensures ValidatedNames(a + [p] + b, extension) == ValidatedNames(a + b, extension)
  {
    VisibleStemsAppend(a + [p], b);
    VisibleStemsAppend(a, [p]);
    VisibleStemsAppend(a, b);
    assert VisibleStems([p]) == [] by {
      assert [p][..0] == [];
    }
    var whole, without := a + [p] + b, a + b;
    assert forall k :: 0 <= k < |whole| ==> whole[k] == p || whole[k] in without by {
      forall k | 0 <= k < |whole|
        ensures whole[k] == p || whole[k] in without
      {
        if k < |a| {
          assert whole[k] == without[k];
        } else if k > |a| {
          assert whole[k] == without[k - 1];
        }
      }
    }
    assert forall k :: 0 <= k < |without| ==> without[k] in whole by {
      forall k | 0 <= k < |without|
        ensures without[k] in whole
      {
        if k < |a| {
          assert without[k] == whole[k];
        } else {
          assert without[k] == whole[k + 1];
        }
      }
    }
  }

  /** Every name returned is the stem of a visible path with the expected extension. */
  lemma ValidatedAreArticles(paths: seq<RawPath>, extension: string)
    requires ValidatedNames(paths, extension).Ok?
    ensures forall x :: x in ValidatedNames(paths, extension).value ==>
              exists k :: 0 <= k < |paths| && Visible(paths[k]) && paths[k].extension.value == extension && paths[k].stem.value == x
  {
  }

  /** A source holding `foo.txt` and `bar.md` is refused when `.txt` files are expected. */
  lemma {:induction false} MixedExtensionsRefused()
    ensures ValidatedNames([RawPath(Some("foo"), Some("txt")), RawPath(Some("bar"), Some("md"))], "txt") == Err(WrongExtension)
  {
    var paths := [RawPath(Some("foo"), Some("txt")), RawPath(Some("bar"), Some("md"))];
    assert Foreign(paths[1], "txt");
  }
}
