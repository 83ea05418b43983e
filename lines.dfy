/**
 * Reports as the tool builds them: a StringBuilder that receives one line at a time, each
 * followed by "\n". This module gives the text of a sequence of lines (Join), its inverse
 * (SplitLines), and the two ways a report walks a collection of possibly failing entries:
 * all of them (Present) or at most a cap of them followed by an ellipsis line (Capped).
 */
module Lines {
  import opened Wrappers

  function Min(a: int, b: int): int {
    if a <= b then a else b
  }

  /** The text of a report: every line followed by "\n". */
  function Join(lines: seq<string>): string
    decreases |lines|
  {
    if lines == [] then "" else Join(lines[..|lines| - 1]) + lines[|lines| - 1] + "\n"
  }

  /** Lines that can be told apart once joined: none holds a line break itself. */
  predicate SingleLines(lines: seq<string>) {
    forall i :: 0 <= i < |lines| ==> '\n' !in lines[i]
  }

  /** The position of the first line break of s, or |s| when there is none. */
  function LineEnd(s: string): (k: nat)
    ensures k <= |s|
    ensures k < |s| ==> s[k] == '\n'
    ensures forall j :: 0 <= j < k ==> s[j] != '\n'
    decreases |s|
  {
    if |s| == 0 || s[0] == '\n' then 0 else 1 + LineEnd(s[1..])
  }

  /** The lines of a text, without their "\n"; a last line without "\n" still counts. */
  function SplitLines(s: string): seq<string>
    decreases |s|
  {
    if s == [] then []
    else
      var k := LineEnd(s);
      if k == |s| then [s] else [s[..k]] + SplitLines(s[k + 1..])
  }

  lemma JoinSnoc(lines: seq<string>, line: string)
    ensures Join(lines + [line]) == Join(lines) + line + "\n"
  {
  }

  lemma {:induction false} JoinAppend(a: seq<string>, b: seq<string>)
    ensures Join(a + b) == Join(a) + Join(b)
    decreases |b|
  {
    if b == [] {
      assert a + b == a;
    } else {
      var b' := b[..|b| - 1];
      assert a + b == (a + b') + [b[|b| - 1]];
      assert b == b' + [b[|b| - 1]];
      JoinSnoc(a + b', b[|b| - 1]);
      JoinSnoc(b', b[|b| - 1]);
      JoinAppend(a, b');
    }
  }

  lemma LineEndAfter(line: string, rest: string)
    requires '\n' !in line
    ensures LineEnd(line + "\n" + rest) == |line|
  {
    var s := line + "\n" + rest;
    assert s[|line|] == '\n';
    assert forall j :: 0 <= j < |line| ==> s[j] == line[j];
  }

  /** A text that starts with a single line and a break splits into that line and the rest. */
  lemma SplitFirst(line: string, after: string)
    requires '\n' !in line
    ensures SplitLines(line + "\n" + after) == [line] + SplitLines(after)
  {
    var s := line + "\n" + after;
    LineEndAfter(line, after);
    assert s[..|line|] == line;
    assert s[|line| + 1..] == after;
  }

  /**
   * SplitLines undoes Join, also when the report ends in an unterminated line: a text built
   * from single lines determines exactly those lines.
   */
  lemma {:induction false} SplitJoin(lines: seq<string>, tail: string)
    requires SingleLines(lines)
    requires '\n' !in tail
    ensures SplitLines(Join(lines) + tail) == lines + (if tail == [] then [] else [tail])
    decreases |lines|
  {
    if lines == [] {
      assert Join(lines) + tail == tail;
    } else {
      var rest := lines[1..];
      JoinAppend([lines[0]], rest);
      assert [lines[0]] + rest == lines;
      assert Join([lines[0]]) == lines[0] + "\n" by {
        assert [lines[0]][..0] == [];
      }
      var after := Join(rest) + tail;
      assert Join(lines) + tail == lines[0] + "\n" + after;
      SplitFirst(lines[0], after);
      SplitJoin(rest, tail);
      var last := if tail == [] then [] else [tail];
      assert [lines[0]] + (rest + last) == lines + last;
    }
  }

  /** The lines of the entries whose rendering succeeded, in their order; failed ones leave no line. */
  function Present(entries: seq<Option<string>>): (r: seq<string>)
    ensures |r| <= |entries|
    decreases |entries|
  {
    if entries == [] then []
    else
      var last := entries[|entries| - 1];
      Present(entries[..|entries| - 1]) + (if last.Some? then [last.value] else [])
  }

  /** Entries that are all rendered successfully. */
  function AllSome(lines: seq<string>): (r: seq<Option<string>>)
    ensures |r| == |lines|
  {
    seq(|lines|, i requires 0 <= i < |lines| => Some(lines[i]))
  }

  /**
   * A walk under a cap: for num >= 0 at most the first num entries are visited, each failed one
   * still taking its place, and `more` follows when entries are left over; num < 0 visits all.
   */
  function Capped(entries: seq<Option<string>>, num: int, more: string): seq<string> {
    if num < 0 || |entries| <= num then Present(entries) else Present(entries[..num]) + [more]
  }

  lemma PresentSnoc(entries: seq<Option<string>>, e: Option<string>)
    ensures Present(entries + [e]) == Present(entries) + (if e.Some? then [e.value] else [])
  {
  }

  lemma {:induction false} PresentAppend(a: seq<Option<string>>, b: seq<Option<string>>)
    ensures Present(a + b) == Present(a) + Present(b)
    decreases |b|
  {
    if b == [] {
      assert a + b == a;
    } else {
      var b' := b[..|b| - 1];
      var e := b[|b| - 1];
      assert a + b == (a + b') + [e];
      assert b == b' + [e];
      PresentSnoc(a + b', e);
      PresentSnoc(b', e);
      PresentAppend(a, b');
    }
  }

  lemma {:induction false} PresentAllSome(lines: seq<string>)
    ensures Present(AllSome(lines)) == lines
    decreases |lines|
  {
    if lines != [] {
      var init := lines[..|lines| - 1];
      assert AllSome(lines)[..|lines| - 1] == AllSome(init);
      PresentAllSome(init);
    }
  }

  /**
   * One failed entry removes its own line and nothing else: the entries before and after it
   * are reported as if it were not there.
   */
  lemma FailureIsolated(before: seq<Option<string>>, after: seq<Option<string>>)
    ensures Present(before + [None] + after) == Present(before) + Present(after)
  {
    PresentAppend(before + [None], after);
    PresentSnoc(before, None);
  }

  /** A failed entry among the first num still uses up one of the num places. */
  lemma {:induction false} FailureConsumesCap(entries: seq<Option<string>>, num: int, more: string, j: nat)
    requires 0 <= j < num < |entries|
    requires entries[j].None?
    ensures Capped(entries, num, more) == Present(entries[..num]) + [more]
    ensures |Capped(entries, num, more)| <= num
  {
    var first := entries[..num];
    assert first == first[..j] + [None] + first[j + 1..];
    FailureIsolated(first[..j], first[j + 1..]);
  }

  /**
   * The cap over entries that all render: num < 0 gives every line; num >= 0 gives the first
   * min(num, n) lines in order, then `more` exactly when n > num, and nothing after it.
   */
  lemma CappedShape(lines: seq<string>, num: int, more: string)
    ensures num < 0 ==> Capped(AllSome(lines), num, more) == lines
    ensures num >= 0 ==> Capped(AllSome(lines), num, more)
                         == lines[..Min(num, |lines|)] + (if |lines| > num then [more] else [])
    ensures num >= 0 ==> |Capped(AllSome(lines), num, more)|
                         == Min(num, |lines|) + (if |lines| > num then 1 else 0)
  {
    PresentAllSome(lines);
    if 0 <= num < |lines| {
      assert AllSome(lines)[..num] == AllSome(lines[..num]);
      PresentAllSome(lines[..num]);
    } else {
      assert lines[..|lines|] == lines;
    }
  }

  /**
   * One step of a walk: adding entry i to what has been reported adds its line, if it has one.
   */
  lemma JoinPresentStep(prefix: seq<string>, entries: seq<Option<string>>, i: nat)
    requires i < |entries|
    ensures Join(prefix + Present(entries[..i + 1]))
            == if entries[i].Some? then Join(prefix + Present(entries[..i])) + entries[i].value + "\n"
               else Join(prefix + Present(entries[..i]))
  {
    assert entries[..i + 1] == entries[..i] + [entries[i]];
    PresentSnoc(entries[..i], entries[i]);
    if entries[i].Some? {
      assert prefix + Present(entries[..i + 1]) == (prefix + Present(entries[..i])) + [entries[i].value];
      JoinSnoc(prefix + Present(entries[..i]), entries[i].value);
    } else {
      assert prefix + Present(entries[..i + 1]) == prefix + Present(entries[..i]);
    }
  }

  /** Closing a walk with its ellipsis line. */
  lemma JoinMore(prefix: seq<string>, lines: seq<string>, more: string)
    ensures Join(prefix + (lines + [more])) == Join(prefix + lines) + more + "\n"
  {
    assert prefix + (lines + [more]) == (prefix + lines) + [more];
    JoinSnoc(prefix + lines, more);
  }

  /**
   * The cap as a prefix: num >= 0 keeps the lines of the first min(num, n) entries and adds
   * `more` exactly when entries are left over; there are at most min(num, n) + 1 lines.
   */
  lemma CappedPrefix(entries: seq<Option<string>>, num: int, more: string)
    ensures num < 0 ==> Capped(entries, num, more) == Present(entries)
    ensures num >= 0 ==> Capped(entries, num, more)
                         == Present(entries[..Min(num, |entries|)]) + (if |entries| > num then [more] else [])
    ensures num >= 0 ==> |Capped(entries, num, more)| <= Min(num, |entries|) + 1
  {
    if num >= 0 && |entries| <= num {
      assert entries[..Min(num, |entries|)] == entries;
    }
  }

  /** The rendering of each item in turn, with None for the items `keep` rejects. */
  function Selected<T>(xs: seq<T>, keep: T -> bool, render: T -> Option<string>): (r: seq<Option<string>>)
    ensures |r| == |xs|
  {
    seq(|xs|, i requires 0 <= i < |xs| => if keep(xs[i]) then render(xs[i]) else None)
  }

  /** The rendering of every item in turn. */
  function Rendered<T>(xs: seq<T>, render: T -> Option<string>): (r: seq<Option<string>>)
    ensures |r| == |xs|
  {
    seq(|xs|, i requires 0 <= i < |xs| => render(xs[i]))
  }

  /** Items that all render successfully give one line each. */
  lemma {:induction false} PresentRenderedAll<T>(xs: seq<T>, render: T -> Option<string>)
    requires forall i :: 0 <= i < |xs| ==> render(xs[i]).Some?
    ensures |Present(Rendered(xs, render))| == |xs|
    decreases |xs|
  {
    if xs != [] {
      var init := xs[..|xs| - 1];
      assert Rendered(xs, render)[..|xs| - 1] == Rendered(init, render);
      PresentRenderedAll(init, render);
    }
  }

  /** Rendering a sequence split around one item renders the parts. */
  lemma RenderedSplit<T>(before: seq<T>, x: T, after: seq<T>, render: T -> Option<string>)
    ensures Rendered(before + [x] + after, render) == Rendered(before, render) + [render(x)] + Rendered(after, render)
  {
  }

  /** The items `keep` accepts, in their order. */
  function Filter<T>(xs: seq<T>, keep: T -> bool): (r: seq<T>)
    ensures forall i :: 0 <= i < |r| ==> r[i] in xs && keep(r[i])
    ensures forall i :: 0 <= i < |xs| && keep(xs[i]) ==> xs[i] in r
    decreases |xs|
  {
    if xs == [] then []
    else Filter(xs[..|xs| - 1], keep) + (if keep(xs[|xs| - 1]) then [xs[|xs| - 1]] else [])
  }

  /** Nothing is accepted when `keep` rejects every item. */
  lemma {:induction false} FilterNone<T>(xs: seq<T>, keep: T -> bool)
    requires forall i :: 0 <= i < |xs| ==> !keep(xs[i])
    ensures Filter(xs, keep) == []
    decreases |xs|
  {
    if xs != [] {
      FilterNone(xs[..|xs| - 1], keep);
    }
  }

  /**
   * Walking every item and rendering only those `keep` accepts reports the same lines as
   * rendering the accepted items alone.
   */
  lemma {:induction false} SelectedIsFilter<T>(xs: seq<T>, keep: T -> bool, render: T -> Option<string>)
    ensures Present(Selected(xs, keep, render)) == Present(Rendered(Filter(xs, keep), render))
    decreases |xs|
  {
    if xs != [] {
      var init := xs[..|xs| - 1];
      var x := xs[|xs| - 1];
      assert Selected(xs, keep, render) == Selected(init, keep, render) + [if keep(x) then render(x) else None];
      PresentSnoc(Selected(init, keep, render), if keep(x) then render(x) else None);
      SelectedIsFilter(init, keep, render);
      if keep(x) {
        assert Rendered(Filter(xs, keep), render) == Rendered(Filter(init, keep), render) + [render(x)];
        PresentSnoc(Rendered(Filter(init, keep), render), render(x));
      } else {
        assert Filter(xs, keep) == Filter(init, keep);
      }
    }
  }
}
