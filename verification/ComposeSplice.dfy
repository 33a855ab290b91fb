/**
 Applying the changes to a compose file's lines
 (internal/containers/compose.go:177-243): sorting them from the bottom up and
 splicing them one by one, against replacing all their line ranges at once;
 the preview and the first line that changes.
 */
module ComposeSplice {
  datatype Line = Line(text: string)

  /** The lines from..to, both included, become repl. */
  datatype Change = Change(from: nat, to: nat, repl: seq<Line>)

  ghost predicate Covers(c: Change, i: nat) {
    c.from <= i <= c.to
  }

  /** Whole lines of the file, and no line in two changes. */
  ghost predicate Apart(changes: seq<Change>, lines: nat) {
    && (forall c :: c in changes ==> c.from <= c.to < lines)
    && forall i, j :: 0 <= i < j < |changes| ==> changes[i].to < changes[j].from || changes[j].to < changes[i].from
  }

  // ---- all changes at once, line by line

  /** What line i becomes: a change's new lines stand where its first line was. */
  ghost function Becomes(lines: seq<Line>, changes: set<Change>, i: nat): seq<Line>
    requires i < |lines|
  {
    if exists c :: c in changes && c.from == i then (var c :| c in changes && c.from == i; c.repl)
    else if exists c :: c in changes && Covers(c, i) then []
    else [lines[i]]
  }

  /** What line i adds to the old side of the preview. */
  ghost function Leaves(lines: seq<Line>, changes: set<Change>, i: nat): seq<Line>
    requires i < |lines|
  {
    if exists c :: c in changes && Covers(c, i) then [lines[i]] else []
  }

  /** What line i adds to the new side of the preview. */
  ghost function Arrives(lines: seq<Line>, changes: set<Change>, i: nat): seq<Line>
    requires i < |lines|
  {
    if exists c :: c in changes && c.from == i then (var c :| c in changes && c.from == i; c.repl) else []
  }

  ghost function Becoming(lines: seq<Line>, changes: set<Change>): (texts: seq<seq<Line>>)
    ensures |texts| == |lines| && forall i :: 0 <= i < |lines| ==> texts[i] == Becomes(lines, changes, i)
  {
    seq(|lines|, i requires 0 <= i < |lines| => Becomes(lines, changes, i))
  }

  ghost function Leaving(lines: seq<Line>, changes: set<Change>): (texts: seq<seq<Line>>)
    ensures |texts| == |lines| && forall i :: 0 <= i < |lines| ==> texts[i] == Leaves(lines, changes, i)
  {
    seq(|lines|, i requires 0 <= i < |lines| => Leaves(lines, changes, i))
  }

  ghost function Arriving(lines: seq<Line>, changes: set<Change>): (texts: seq<seq<Line>>)
    ensures |texts| == |lines| && forall i :: 0 <= i < |lines| ==> texts[i] == Arrives(lines, changes, i)
  {
    seq(|lines|, i requires 0 <= i < |lines| => Arrives(lines, changes, i))
  }

  /** Texts joined from i on. */
  ghost function Flat(texts: seq<seq<Line>>, i: nat): seq<Line>
    requires i <= |texts|
    decreases |texts| - i
  {
    if i == |texts| then [] else texts[i] + Flat(texts, i + 1)
  }

  lemma {:induction false} FlatGone(texts: seq<seq<Line>>, from: nat, to: nat)
    requires from <= to <= |texts| && forall i :: from <= i < to ==> texts[i] == []
    ensures Flat(texts, from) == Flat(texts, to)
    decreases |texts| - from
  {
    if from == to {
    } else {
      FlatGone(texts, from + 1, to);
    }
  }

  lemma {:induction false} FlatKept(texts: seq<seq<Line>>, lines: seq<Line>, from: nat, to: nat)
    requires from <= to <= |texts| == |lines| && forall i :: from <= i < to ==> texts[i] == [lines[i]]
    ensures Flat(texts, from) == lines[from..to] + Flat(texts, to)
    decreases |texts| - from
  {
    if from == to {
    } else {
      FlatKept(texts, lines, from + 1, to);
      var rest, below := lines[from + 1..to], Flat(texts, to);
      assert lines[from..to] == [lines[from]] + rest;
      assert [lines[from]] + (rest + below) == ([lines[from]] + rest) + below;
    }
  }

  ghost predicate Untouched(changes: set<Change>, from: nat, to: nat) {
    forall c, i :: c in changes && from <= i < to ==> !Covers(c, i)
  }

  ghost predicate WellFormed(changes: set<Change>, lines: nat) {
    && (forall c :: c in changes ==> c.from <= c.to < lines)
    && forall c, d, i :: c in changes && d in changes && Covers(c, i) && Covers(d, i) ==> c == d
  }

  /** A line without changes. */
  lemma UntouchedLine(lines: seq<Line>, changes: set<Change>, i: nat)
    requires WellFormed(changes, |lines|) && i < |lines| && forall c :: c in changes ==> !Covers(c, i)
    ensures Becomes(lines, changes, i) == [lines[i]] && Leaves(lines, changes, i) == [] && Arrives(lines, changes, i) == []
  {
    if c :| c in changes && c.from == i { assert Covers(c, i); }
  }

  /** A change's first line. */
  lemma FirstLine(lines: seq<Line>, changes: set<Change>, c: Change)
    requires WellFormed(changes, |lines|) && c in changes
    ensures Becomes(lines, changes, c.from) == c.repl && Leaves(lines, changes, c.from) == [lines[c.from]]
    ensures Arrives(lines, changes, c.from) == c.repl
  {
    assert Covers(c, c.from);
    forall d | d in changes && d.from == c.from ensures d == c {
      assert Covers(d, c.from);
    }
  }

  /** A change's other lines. */
  lemma LaterLine(lines: seq<Line>, changes: set<Change>, c: Change, i: nat)
    requires WellFormed(changes, |lines|) && c in changes && c.from < i <= c.to
    ensures Becomes(lines, changes, i) == [] && Leaves(lines, changes, i) == [lines[i]] && Arrives(lines, changes, i) == []
  {
    assert Covers(c, i);
    if d :| d in changes && d.from == i { assert Covers(d, i); }
  }

  /** The lines from the top of one change to the next one below. */
  lemma LinesOf(lines: seq<Line>, changes: set<Change>, c: Change, to: nat)
    requires WellFormed(changes, |lines|) && c in changes && c.to < to <= |lines| && Untouched(changes, c.to + 1, to)
    ensures forall i :: c.from < i <= c.to ==>
      Becomes(lines, changes, i) == [] && Leaves(lines, changes, i) == [lines[i]] && Arrives(lines, changes, i) == []
    ensures forall i :: c.to < i < to ==>
      Becomes(lines, changes, i) == [lines[i]] && Leaves(lines, changes, i) == [] && Arrives(lines, changes, i) == []
  {
    forall i | c.from < i <= c.to
      ensures Becomes(lines, changes, i) == [] && Leaves(lines, changes, i) == [lines[i]] && Arrives(lines, changes, i) == []
    {
      LaterLine(lines, changes, c, i);
    }
    forall i | c.to < i < to
      ensures Becomes(lines, changes, i) == [lines[i]] && Leaves(lines, changes, i) == [] && Arrives(lines, changes, i) == []
    {
      UntouchedLine(lines, changes, i);
    }
  }

  /** Replaced from a line to another, and as it was from there on. */
  ghost predicate ReplacedThenKept(texts: seq<seq<Line>>, lines: seq<Line>, repl: seq<Line>, from: nat, mid: nat, to: nat) {
    && from < mid <= to <= |texts| == |lines| && texts[from] == repl
    && (forall i :: from < i < mid ==> texts[i] == [])
    && forall i :: mid <= i < to ==> texts[i] == [lines[i]]
  }

  lemma FlatReplaced(texts: seq<seq<Line>>, lines: seq<Line>, repl: seq<Line>, from: nat, mid: nat, to: nat)
    requires ReplacedThenKept(texts, lines, repl, from, mid, to)
    ensures Flat(texts, from) == repl + (lines[mid..to] + Flat(texts, to))
  {
    FlatGone(texts, from + 1, mid);
    FlatKept(texts, lines, mid, to);
  }

  lemma FlatTaken(texts: seq<seq<Line>>, lines: seq<Line>, from: nat, mid: nat, to: nat)
    requires from < mid <= to <= |texts| == |lines|
    requires forall i :: from <= i < mid ==> texts[i] == [lines[i]]
    requires forall i :: mid <= i < to ==> texts[i] == []
    ensures Flat(texts, from) == lines[from..mid] + Flat(texts, to)
  {
    FlatKept(texts, lines, from, mid);
    FlatGone(texts, mid, to);
  }

  /** What a change and the untouched lines below it become. */
  lemma EditedTexts(lines: seq<Line>, changes: set<Change>, c: Change, to: nat)
    requires WellFormed(changes, |lines|) && c in changes && c.to < to <= |lines| && Untouched(changes, c.to + 1, to)
    ensures ReplacedThenKept(Becoming(lines, changes), lines, c.repl, c.from, c.to + 1, to)
  {
    assert Becomes(lines, changes, c.from) == c.repl by { FirstLine(lines, changes, c); }
    LinesOf(lines, changes, c, to);
  }

  lemma HandledBefore(lines: seq<Line>, changes: set<Change>, c: Change, to: nat)
    requires WellFormed(changes, |lines|) && c in changes && c.to < to <= |lines| && Untouched(changes, c.to + 1, to)
    ensures Flat(Leaving(lines, changes), c.from) == lines[c.from..c.to + 1] + Flat(Leaving(lines, changes), to)
  {
    FirstLine(lines, changes, c);
    LinesOf(lines, changes, c, to);
    FlatTaken(Leaving(lines, changes), lines, c.from, c.to + 1, to);
  }

  lemma HandledAfter(lines: seq<Line>, changes: set<Change>, c: Change, to: nat)
    requires WellFormed(changes, |lines|) && c in changes && c.to < to <= |lines| && Untouched(changes, c.to + 1, to)
    ensures Flat(Arriving(lines, changes), c.from) == c.repl + Flat(Arriving(lines, changes), to)
  {
    FirstLine(lines, changes, c);
    LinesOf(lines, changes, c, to);
    FlatGone(Arriving(lines, changes), c.from + 1, to);
  }

  /** One splice: the lines below `first` are done already. */
  lemma Spliced(lines: seq<Line>, texts: seq<seq<Line>>, out: seq<Line>, c: Change, first: nat)
    requires c.to < first && ReplacedThenKept(texts, lines, c.repl, c.from, c.to + 1, first)
    requires out == lines[..first] + Flat(texts, first)
    ensures c.to < |out| && out[..c.from] + (c.repl + out[c.to + 1..]) == lines[..c.from] + Flat(texts, c.from)
  {
    FlatReplaced(texts, lines, c.repl, c.from, c.to + 1, first);
    assert out[c.to + 1..] == lines[c.to + 1..first] + Flat(texts, first);
    assert out[..c.from] == lines[..c.from];
  }

  /** The lines above the first change. */
  lemma Top(lines: seq<Line>, changes: set<Change>, to: nat)
    requires WellFormed(changes, |lines|) && to <= |lines| && Untouched(changes, 0, to)
    ensures Flat(Becoming(lines, changes), 0) == lines[..to] + Flat(Becoming(lines, changes), to)
    ensures Flat(Leaving(lines, changes), 0) == Flat(Leaving(lines, changes), to)
    ensures Flat(Arriving(lines, changes), 0) == Flat(Arriving(lines, changes), to)
  {
    forall i | 0 <= i < to
      ensures Becomes(lines, changes, i) == [lines[i]] && Leaves(lines, changes, i) == [] && Arrives(lines, changes, i) == []
    {
      UntouchedLine(lines, changes, i);
    }
    FlatKept(Becoming(lines, changes), lines, 0, to);
    FlatGone(Leaving(lines, changes), 0, to);
    FlatGone(Arriving(lines, changes), 0, to);
  }

  ghost function Edited(lines: seq<Line>, changes: set<Change>): seq<Line> {
    Flat(Becoming(lines, changes), 0)
  }

  ghost function Before(lines: seq<Line>, changes: set<Change>): seq<Line> {
    Flat(Leaving(lines, changes), 0)
  }

  ghost function After(lines: seq<Line>, changes: set<Change>): seq<Line> {
    Flat(Arriving(lines, changes), 0)
  }

  lemma Regroup(b: seq<Line>, l: seq<Line>, x: seq<Line>, a: seq<Line>, b': seq<Line>, l': seq<Line>, x': seq<Line>, a': seq<Line>)
    requires multiset(b) + multiset(l) == multiset(x) + multiset(a) && multiset(b') + multiset(l') == multiset(x') + multiset(a')
    ensures multiset(b + b') + multiset(l + l') == multiset(x + x') + multiset(a + a')
  {
    assert multiset(b + b') == multiset(b) + multiset(b') && multiset(l + l') == multiset(l) + multiset(l');
    assert multiset(x + x') == multiset(x) + multiset(x') && multiset(a + a') == multiset(a) + multiset(a');
    var B, L, X, A := multiset(b), multiset(l), multiset(x), multiset(a);
    var B', L', X', A' := multiset(b'), multiset(l'), multiset(x'), multiset(a');
    assert (B + B') + (L + L') == (B + L) + (B' + L');
    assert (X + X') + (A + A') == (X + A) + (X' + A');
  }

  lemma {:induction false} FlatBalance(b: seq<seq<Line>>, l: seq<seq<Line>>, a: seq<seq<Line>>, lines: seq<Line>, i: nat)
    requires |b| == |l| == |a| == |lines| && i <= |lines|
    requires forall j :: 0 <= j < |lines| ==> multiset(b[j]) + multiset(l[j]) == multiset{lines[j]} + multiset(a[j])
    ensures multiset(Flat(b, i)) + multiset(Flat(l, i)) == multiset(lines[i..]) + multiset(Flat(a, i))
    decreases |lines| - i
  {
    if i < |lines| {
      FlatBalance(b, l, a, lines, i + 1);
      assert lines[i..] == [lines[i]] + lines[i + 1..];
      assert multiset(b[i]) + multiset(l[i]) == multiset{lines[i]} + multiset(a[i]);
      Regroup(b[i], l[i], [lines[i]], a[i], Flat(b, i + 1), Flat(l, i + 1), lines[i + 1..], Flat(a, i + 1));
    } else {
      assert lines[i..] == [];
    }
  }

  /** The edit loses and gains exactly the lines its preview shows. */
  lemma PreviewAccountsForAll(lines: seq<Line>, changes: set<Change>)
    requires WellFormed(changes, |lines|)
    ensures multiset(Edited(lines, changes)) + multiset(Before(lines, changes)) == multiset(lines) + multiset(After(lines, changes))
  {
    forall i | 0 <= i < |lines|
      ensures multiset(Becomes(lines, changes, i)) + multiset(Leaves(lines, changes, i)) == multiset{lines[i]} + multiset(Arrives(lines, changes, i))
    {
      if c :| c in changes && Covers(c, i) {
        if c.from == i { FirstLine(lines, changes, c); } else { LaterLine(lines, changes, c, i); }
      } else {
        UntouchedLine(lines, changes, i);
      }
    }
    FlatBalance(Becoming(lines, changes), Leaving(lines, changes), Arriving(lines, changes), lines, 0);
    assert lines[0..] == lines;
  }

  // ---- the code: sort in place, then splice from the bottom up

  ghost predicate Descending(changes: seq<Change>) {
    forall i, j :: 0 <= i < j < |changes| ==> changes[i].from >= changes[j].from
  }

  method Swap(changes: array<Change>, i: nat, j: nat)
    requires i < j < changes.Length
    modifies changes
    ensures changes[..] == old(changes[..][i := changes[j]][j := changes[i]])
    ensures multiset(changes[..]) == old(multiset(changes[..]))
  {
    changes[i], changes[j] := changes[j], changes[i];
  }

  /** The first i changes are in place: none below them starts later. */
  ghost predicate Placed(changes: seq<Change>, i: nat) {
    forall a, b :: 0 <= a < i && a < b < |changes| ==> changes[a].from >= changes[b].from
  }

  /** Among the changes from i to j the one at i starts last. */
  ghost predicate Latest(changes: seq<Change>, i: nat, j: nat) {
    i < |changes| && forall b :: i < b < j && b < |changes| ==> changes[i].from >= changes[b].from
  }

  lemma SwapKeeps(was: seq<Change>, i: nat, j: nat)
    requires i < j < |was| && Placed(was, i) && Latest(was, i, j) && was[j].from > was[i].from
    ensures Placed(was[i := was[j]][j := was[i]], i) && Latest(was[i := was[j]][j := was[i]], i, j + 1)
  {
  }

  /** Swaps until the lowest change comes first. */
  method SortBottomUp(changes: array<Change>)
    modifies changes
    ensures Descending(changes[..])
    ensures multiset(changes[..]) == old(multiset(changes[..]))
  {
    for i := 0 to changes.Length
      invariant Placed(changes[..], i)
      invariant multiset(changes[..]) == old(multiset(changes[..]))
    {
      for j := i + 1 to changes.Length
        invariant Placed(changes[..], i) && Latest(changes[..], i, j)
        invariant multiset(changes[..]) == old(multiset(changes[..]))
      {
        if changes[j].from > changes[i].from {
          SwapKeeps(changes[..], i, j);
          Swap(changes, i, j);
        }
      }
    }
  }

  ghost function SetOf(changes: seq<Change>): set<Change> {
    set c | c in changes
  }

  /** Being apart does not depend on the order. */
  lemma ApartIsWellFormed(changes: seq<Change>, lines: nat)
    requires Apart(changes, lines)
    ensures WellFormed(SetOf(changes), lines)
  {
    forall c, d, i | c in SetOf(changes) && d in SetOf(changes) && Covers(c, i) && Covers(d, i) ensures c == d {
      var a, b :| 0 <= a < |changes| && 0 <= b < |changes| && changes[a] == c && changes[b] == d;
      if a < b { assert changes[a].to < changes[b].from || changes[b].to < changes[a].from; }
      if b < a { assert changes[b].to < changes[a].from || changes[a].to < changes[b].from; }
    }
  }

  lemma SameSet(a: seq<Change>, b: seq<Change>)
    requires multiset(a) == multiset(b)
    ensures SetOf(a) == SetOf(b)
  {
    forall c ensures c in a <==> c in b {
      assert c in multiset(a) <==> c in multiset(b);
    }
  }

  /** Above the k-th of the sorted changes and down to the one handled before it, nothing changes. */
  lemma GapIsUntouched(changes: seq<Change>, k: nat, lines: nat)
    requires k <= |changes| && Descending(changes) && WellFormed(SetOf(changes), lines)
    ensures var from := if k < |changes| then changes[k].to + 1 else 0;
      var to := if k == 0 then lines else changes[k - 1].from;
      Untouched(SetOf(changes), from, to)
  {
    var from := if k < |changes| then changes[k].to + 1 else 0;
    var to := if k == 0 then lines else changes[k - 1].from;
    forall c, i | c in SetOf(changes) && from <= i < to ensures !Covers(c, i) {
      var a :| 0 <= a < |changes| && changes[a] == c;
      if k < |changes| && a >= k && Covers(c, i) {
        assert c.from <= changes[k].from;
        assert Covers(c, changes[k].from) && Covers(changes[k], changes[k].from);
      }
    }
  }

  lemma NextIsAbove(changes: seq<Change>, k: nat, lines: nat)
    requires 0 < k < |changes| && Descending(changes) && WellFormed(SetOf(changes), lines)
    requires changes[k] != changes[k - 1]
    ensures changes[k].to < changes[k - 1].from
  {
    if changes[k].to >= changes[k - 1].from {
      assert Covers(changes[k], changes[k - 1].from) && Covers(changes[k - 1], changes[k - 1].from);
    }
  }

  lemma NoTwins(sorted: seq<Change>, changes: seq<Change>, lines: nat)
    requires Apart(changes, lines) && multiset(sorted) == multiset(changes)
    ensures forall i, j :: 0 <= i < j < |sorted| ==> sorted[i] != sorted[j]
  {
    forall i, j | 0 <= i < j < |sorted| ensures sorted[i] != sorted[j] {
      var c := sorted[i];
      if c == sorted[j] {
        assert sorted == sorted[..j] + [c] + sorted[j + 1..];
        assert c in sorted[..j];
        assert multiset(sorted)[c] >= 2;
        Once(changes, c, lines);
      }
    }
  }

  lemma {:induction false} Once(changes: seq<Change>, c: Change, lines: nat)
    requires Apart(changes, lines)
    ensures multiset(changes)[c] <= 1
  {
    if changes == [] {
    } else {
      var init := changes[..|changes| - 1];
      assert changes == init + [changes[|changes| - 1]];
      Once(init, c, lines);
    }
  }

  /**
   The edit: the lines after it are all changes applied at once, the preview
   lists them from the top down, and line is the first one that changes.
   */
  method Apply(lines: seq<Line>, changes: array<Change>) returns (out: seq<Line>, before: seq<Line>, after: seq<Line>, line: nat)
    requires Apart(changes[..], |lines|)
    modifies changes
    ensures out == Edited(lines, SetOf(old(changes[..])))
    ensures before == Before(lines, SetOf(old(changes[..]))) && after == After(lines, SetOf(old(changes[..])))
    ensures line >= 1 && forall c :: c in old(changes[..]) ==> line - 1 <= c.from
    ensures changes.Length > 0 ==> exists c :: c in old(changes[..]) && c.from == line - 1
  {
    ghost var asked := changes[..];
    SortBottomUp(changes);
    out, before, after, line := ApplySorted(lines, changes[..], asked);
  }

  /** The same once the changes are sorted. */
  method ApplySorted(lines: seq<Line>, sorted: seq<Change>, ghost asked: seq<Change>)
    returns (out: seq<Line>, before: seq<Line>, after: seq<Line>, line: nat)
    requires Apart(asked, |lines|) && multiset(sorted) == multiset(asked) && Descending(sorted)
    ensures out == Edited(lines, SetOf(asked)) && before == Before(lines, SetOf(asked)) && after == After(lines, SetOf(asked))
    ensures line >= 1 && forall c :: c in asked ==> line - 1 <= c.from
    ensures |asked| > 0 ==> exists c :: c in asked && c.from == line - 1
  {
    SortedFacts(asked, sorted, |lines|);
    LastIsFirst(asked, sorted);
    out, before, after, line := Splice(lines, sorted, SetOf(asked));
    if |asked| > 0 { assert sorted[|sorted| - 1] in asked; }
  }

  lemma LastIsFirst(asked: seq<Change>, sorted: seq<Change>)
    requires SetOf(sorted) == SetOf(asked) && Descending(sorted)
    ensures forall c :: c in asked ==> |sorted| > 0 && sorted[|sorted| - 1].from <= c.from
    ensures |sorted| > 0 ==> sorted[|sorted| - 1] in asked
  {
    forall c | c in asked ensures |sorted| > 0 && sorted[|sorted| - 1].from <= c.from {
      assert c in SetOf(asked);
      var k :| 0 <= k < |sorted| && sorted[k] == c;
      if k < |sorted| - 1 { assert sorted[k].from >= sorted[|sorted| - 1].from; }
    }
    if |sorted| > 0 { assert sorted[|sorted| - 1] in SetOf(sorted); }
  }

  lemma SortedFacts(asked: seq<Change>, sorted: seq<Change>, lines: nat)
    requires Apart(asked, lines) && multiset(sorted) == multiset(asked) && Descending(sorted)
    ensures SetOf(sorted) == SetOf(asked) && WellFormed(SetOf(asked), lines)
    ensures forall k :: 0 < k < |sorted| ==> sorted[k].to < sorted[k - 1].from
    ensures |sorted| == |asked|
  {
    ApartIsWellFormed(asked, lines);
    SameSet(asked, sorted);
    NoTwins(sorted, asked, lines);
    forall k | 0 < k < |sorted| ensures sorted[k].to < sorted[k - 1].from {
      NextIsAbove(sorted, k, lines);
    }
    assert |multiset(sorted)| == |multiset(asked)|;
  }

  /** Applies sorted changes from the bottom up, so that the line numbers above stay right. */
  method Splice(lines: seq<Line>, sorted: seq<Change>, ghost all: set<Change>)
    returns (out: seq<Line>, before: seq<Line>, after: seq<Line>, line: nat)
    requires Descending(sorted) && all == SetOf(sorted) && WellFormed(all, |lines|)
    requires forall k :: 0 < k < |sorted| ==> sorted[k].to < sorted[k - 1].from
    ensures out == Edited(lines, all) && before == Before(lines, all) && after == After(lines, all)
    ensures line == (if sorted == [] then |lines| else sorted[|sorted| - 1].from) + 1
  {
    out, before, after := lines, [], [];
    ghost var texts := Becoming(lines, all);
    var first := |lines|;
    for k := 0 to |sorted|
      invariant first == if k == 0 then |lines| else sorted[k - 1].from
      invariant first <= |lines|
      invariant out == lines[..first] + Flat(texts, first)
      invariant before == Flat(Leaving(lines, all), first) && after == Flat(Arriving(lines, all), first)
    {
      var c := sorted[k];
      assert c in all && c.to < first;
      GapIsUntouched(sorted, k, |lines|);
      HandledBefore(lines, all, c, first);
      HandledAfter(lines, all, c, first);
      EditedTexts(lines, all, c, first);
      Spliced(lines, texts, out, c, first);
      before := lines[c.from..c.to + 1] + before;
      after := c.repl + after;
      out := out[..c.from] + (c.repl + out[c.to + 1..]);
      if c.from < first {
        first := c.from;
      }
    }
    GapIsUntouched(sorted, |sorted|, |lines|);
    Top(lines, all, first);
    line := first + 1;
  }
}
