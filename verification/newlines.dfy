/**
 * The last step of `ParsedChapter`'s `Display` (src/parse.rs): every run of three
 * or more new lines (`\n\n\n+`) becomes exactly two, one blank line between
 * paragraphs.
 */
module Newlines {
  import opened Strings

  const Blank: string := "\n\n"

  /** The number of new lines `s` starts with. */
  function LeadingNewlines(s: string): nat {
    Skip(s, 0, Newlines)
  }

  predicate StartsWithTriple(s: string) {
    |s| >= 3 && s[0] == '\n' && s[1] == '\n' && s[2] == '\n'
  }

  /** `s` has no run of three new lines anywhere. */
  predicate NoTripleNewline(s: string) {
    forall k :: 0 <= k < |s| - 2 ==> !StartsWithTriple(s[k..])
  }

  /** `EXTRA_NEWLINES.replace_all(s, "\n\n")`: scanning left to right, each maximal run of at least three new lines becomes two. */
  function Collapse(s: string): (r: string)
    ensures |r| <= |s|
    decreases |s|
  {
    if s == [] then []
    else if StartsWithTriple(s) then Blank + Collapse(s[LeadingNewlines(s)..])
    else [s[0]] + Collapse(s[1..])
  }

  /** Collapsing keeps up to two leading new lines and removes the rest of a longer run. */
  lemma {:induction false} CollapseLeading(s: string)
    ensures LeadingNewlines(Collapse(s)) == if LeadingNewlines(s) >= 3 then 2 else LeadingNewlines(s)
    decreases |s|
  {
    var r := Collapse(s);
    var n := LeadingNewlines(s);
    if s == [] {
    } else if StartsWithTriple(s) {
      var rest := s[n..];
      assert rest == [] || rest[0] != '\n';
      FirstOfCollapse(rest);
      assert r == Blank + Collapse(rest);
      SkipTo(r, 0, 2, Newlines);
    } else if s[0] != '\n' {
      SkipTo(s, 0, 0, Newlines);
      SkipTo(r, 0, 0, Newlines);
    } else {
      CollapseLeading(s[1..]);
      var m := LeadingNewlines(s[1..]);
      LeadingShift(s);
      assert m < 2;
      var t := Collapse(s[1..]);
      assert r == ['\n'] + t;
      LeadingShift(r);
    }
  }

  /** Collapsing does not change whether the text starts with a new line. */
  lemma FirstOfCollapse(s: string)
    requires s == [] || s[0] != '\n'
    ensures Collapse(s) == [] || Collapse(s)[0] != '\n'
  {
  }

  lemma {:induction false} LeadingShift(s: string)
    requires s != [] && s[0] == '\n'
    ensures LeadingNewlines(s) == 1 + LeadingNewlines(s[1..])
  {
    var n := LeadingNewlines(s[1..]);
    assert forall k :: 0 <= k < |s| - 1 ==> s[1..][k] == s[k + 1];
    SkipTo(s, 0, n + 1, Newlines);
  }

  /** The collapsed text never holds three new lines in a row. */
  lemma {:induction false} CollapseHasNoTriple(s: string)
    ensures NoTripleNewline(Collapse(s))
    decreases |s|
  {
    var r := Collapse(s);
    if s == [] {
    } else if StartsWithTriple(s) {
      var rest := s[LeadingNewlines(s)..];
      CollapseHasNoTriple(rest);
      FirstOfCollapse(rest);
      var t := Collapse(rest);
      assert r == Blank + t;
      forall k | 0 <= k < |r| - 2
        ensures !StartsWithTriple(r[k..])
      {
        if k >= 2 {
          assert r[k..] == t[k - 2..];
        } else {
          assert r[2] == t[0];
        }
      }
    } else {
      CollapseHasNoTriple(s[1..]);
      var t := Collapse(s[1..]);
      assert r == [s[0]] + t;
      forall k | 0 <= k < |r| - 2
        ensures !StartsWithTriple(r[k..])
      {
        if k >= 1 {
          assert r[k..] == t[k - 1..];
        } else if s[0] == '\n' {
          CollapseLeading(s[1..]);
          LeadingShift(s);
          assert LeadingNewlines(t) <= 1;
        }
      }
    }
  }

  /** Text without a run of three new lines comes back unchanged. */
  lemma {:induction false} CollapseIdentity(s: string)
    requires NoTripleNewline(s)
    ensures Collapse(s) == s
    decreases |s|
  {
    if s != [] {
      assert !StartsWithTriple(s[0..]);
      assert s[0..] == s;
      assert NoTripleNewline(s[1..]) by {
        forall k | 0 <= k < |s[1..]| - 2
          ensures !StartsWithTriple(s[1..][k..])
        {
          assert s[1..][k..] == s[k + 1..];
        }
      }
      CollapseIdentity(s[1..]);
    }
  }

  /** Collapsing twice is collapsing once. */
  lemma {:induction false} CollapseIdempotent(s: string)
    ensures Collapse(Collapse(s)) == Collapse(s)
  {
    CollapseHasNoTriple(s);
    CollapseIdentity(Collapse(s));
  }

  /** `n` new lines. */
  function NewlineRun(n: nat): (r: string)
    ensures |r| == n && forall k :: 0 <= k < n ==> r[k] == '\n'
  {
    seq(n, _ => '\n')
  }

  /**
   * A run of `n` new lines that starts the text becomes two when it is three
   * or longer and is kept as it is when shorter; what follows it is collapsed
   * on its own.
   */
  lemma {:induction false} CollapseRun(n: nat, q: string)
    requires q == [] || q[0] != '\n'
    ensures Collapse(NewlineRun(n) + q) == NewlineRun(if n >= 3 then 2 else n) + Collapse(q)
  {
    if n >= 3 {
      CollapseLongRun(n, q);
    } else {
      CollapseShortRun(n, q);
    }
  }

  lemma {:induction false} CollapseLongRun(n: nat, q: string)
    requires n >= 3 && (q == [] || q[0] != '\n')
    ensures Collapse(NewlineRun(n) + q) == Blank + Collapse(q)
  {
    var s := NewlineRun(n) + q;
    assert StartsWithTriple(s);
    SkipTo(s, 0, n, Newlines);
    assert s[n..] == q;
    CollapseTriple(s);
  }

  lemma {:induction false} CollapseShortRun(n: nat, q: string)
    requires n < 3 && (q == [] || q[0] != '\n')
    ensures Collapse(NewlineRun(n) + q) == NewlineRun(n) + Collapse(q)
    decreases n
  {
    var s := NewlineRun(n) + q;
    if n == 0 {
      assert s == q;
    } else {
      assert !StartsWithTriple(s) by {
        if |s| >= 3 {
          assert s[n] == q[0];
        }
      }
      assert s[1..] == NewlineRun(n - 1) + q;
      CollapseShortRun(n - 1, q);
      CollapseStep(s);
      assert NewlineRun(n) == ['\n'] + NewlineRun(n - 1);
    }
  }

  lemma CollapseTriple(s: string)
    requires StartsWithTriple(s)
    ensures Collapse(s) == Blank + Collapse(s[LeadingNewlines(s)..])
  {
  }

  lemma CollapseStep(s: string)
    requires s != [] && !StartsWithTriple(s)
    ensures Collapse(s) == [s[0]] + Collapse(s[1..])
  {
  }

  /**
   * The collapse works piece by piece: text that does not end with a new line
   * can be collapsed apart from what follows it, since no run crosses the joint.
   */
  lemma {:induction false} CollapseAppend(a: string, b: string)
    requires a == [] || a[|a| - 1] != '\n'
    ensures Collapse(a + b) == Collapse(a) + Collapse(b)
    decreases |a|
  {
    if a == [] {
      assert a + b == b;
    } else if StartsWithTriple(a) {
      var n := LeadingNewlines(a);
      assert n < |a|;
      CollapseAppend(a[n..], b);
      AppendAfterRun(a, b);
    } else {
      CollapseAppend(a[1..], b);
      AppendAfterChar(a, b);
    }
  }

  /** Joined to `b`, a text `a` that starts with a run of three or more new lines, all inside `a`, loses that run to two. */
  lemma {:induction false} AppendAfterRun(a: string, b: string)
    requires StartsWithTriple(a) && LeadingNewlines(a) < |a|
    ensures Collapse(a + b) == Blank + Collapse(a[LeadingNewlines(a)..] + b)
  {
    var s, n := a + b, LeadingNewlines(a);
    assert forall k :: 0 <= k <= n ==> s[k] == a[k];
    SkipTo(s, 0, n, Newlines);
    assert StartsWithTriple(s);
    assert s[n..] == a[n..] + b;
  }

  /** Joined to `b`, a text `a` that does not end with a new line and does not start with three keeps its first character. */
  lemma {:induction false} AppendAfterChar(a: string, b: string)
    requires a != [] && a[|a| - 1] != '\n' && !StartsWithTriple(a)
    ensures Collapse(a + b) == [a[0]] + Collapse(a[1..] + b)
  {
    var s := a + b;
    assert !StartsWithTriple(s) by {
      if |a| < 3 && |s| >= 3 {
        assert s[|a| - 1] == a[|a| - 1];
      }
    }
    assert s[1..] == a[1..] + b;
  }

  /** `s` with every new line removed. */
  function WithoutNewlines(s: string): (r: string)
    ensures '\n' !in r
  {
    if s == [] then []
    else if s[0] == '\n' then WithoutNewlines(s[1..])
    else [s[0]] + WithoutNewlines(s[1..])
  }

  lemma {:induction false} WithoutNewlinesAppend(a: string, b: string)
    ensures WithoutNewlines(a + b) == WithoutNewlines(a) + WithoutNewlines(b)
    decreases |a|
  {
    if a != [] {
      assert (a + b)[1..] == a[1..] + b;
      WithoutNewlinesAppend(a[1..], b);
    } else {
      assert a + b == b;
    }
  }

  lemma {:induction false} WithoutLeadingNewlines(s: string, n: nat)
    requires n <= |s| && forall k :: 0 <= k < n ==> s[k] == '\n'
    ensures WithoutNewlines(s) == WithoutNewlines(s[n..])
    decreases n
  {
    if n > 0 {
      assert s[1..][n - 1..] == s[n..];
      WithoutLeadingNewlines(s[1..], n - 1);
    }
  }

  /** Collapsing only deletes new lines: everything else is kept, in order. */
  lemma {:induction false} CollapseKeepsText(s: string)
    ensures WithoutNewlines(Collapse(s)) == WithoutNewlines(s)
    decreases |s|
  {
    if s == [] {
    } else if StartsWithTriple(s) {
      var n := LeadingNewlines(s);
      CollapseKeepsText(s[n..]);
      WithoutNewlinesAppend(Blank, Collapse(s[n..]));
      assert WithoutNewlines(Blank) == [];
      WithoutLeadingNewlines(s, n);
    } else {
      CollapseKeepsText(s[1..]);
      WithoutNewlinesAppend([s[0]], Collapse(s[1..]));
      WithoutNewlinesAppend([s[0]], s[1..]);
      assert [s[0]] + s[1..] == s;
    }
  }
}
