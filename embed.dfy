/** `EmbedOneLineNotes` of package oneline: the "# One-line note" section of a
    daily note is rewritten to list the past summaries, newest date first. */
module Embed {
  import opened Results
  import opened Text
  import opened Files

  /** The text that opens the one-line-note section. */
  const NoteMarker := "# One-line note\n"

  // ---------------------------------------------------------------------
  // The end of the section
  // ---------------------------------------------------------------------

  /** A line whose trimmed text starts with '#': the heading that ends the section. */
  predicate IsHeadingLine(line: string) {
    HasPrefix(TrimSpace(line), "#")
  }

  /** The length of the white space in front of `line`. */
  function Lead(line: string): (n: nat)
    ensures n <= |line| && AllSpace(line[..n])
  {
    TrimLeftRemovesSpace(line);
    |line| - |TrimLeft(line)|
  }

  /** Where the '#' of `line` stands when it comes right after the line's
      leading white space; None when the first other character is not '#'. */
  function HeadingHash(line: string): (r: Option<nat>)
    ensures r.Some? ==> r.value < |line| && line[r.value] == '#'
    decreases |line|
  {
    if line == [] then None
    else if line[0] == '#' then Some(0)
    else if !IsSpace(line[0]) then None
    else match HeadingHash(line[1..])
      case None => None
      case Some(n) => Some(n + 1)
  }

  /** Past white space up to offset `a`, where the first other character
      stands, the line is a heading when that character is '#'. */
  lemma {:induction false} HashAt(line: string, a: nat)
    requires a <= |line| && AllSpace(line[..a]) && (a < |line| ==> !IsSpace(line[a]))
    ensures HeadingHash(line) == if a < |line| && line[a] == '#' then Some(a) else None
    decreases a
  {
    if a > 0 {
      assert IsSpace(line[..a][0]);
      assert !IsSpace('#');
      var spaces := line[1..][..a - 1];
      forall i | 0 <= i < |spaces|
        ensures IsSpace(spaces[i])
      {
        assert spaces[i] == line[..a][i + 1];
      }
      HashAt(line[1..], a - 1);
    }
  }

  /** Go's test, `strings.HasPrefix(strings.TrimSpace(line), "#")`, holds
      exactly when the '#' follows the leading white space; the trimmed text
      then begins at that '#'. */
  lemma HeadingLead(line: string)
    ensures IsHeadingLine(line) <==> HeadingHash(line).Some?
    ensures IsHeadingLine(line) ==>
      HeadingHash(line) == Some(Lead(line)) && OccursAt(line, TrimSpace(line), Lead(line))
  {
    var a, b := TrimSpaceIsSlice(line);
    TrimLeftRemovesSpace(line);
    var n := Lead(line);
    if a < b {
      assert TrimSpace(line)[0] == line[a] && !IsSpace(line[a]);
      assert n < |line| ==> !IsSpace(line[n]);
      assert forall i :: 0 <= i < a ==> IsSpace(line[..a][i]);
      assert forall i :: 0 <= i < n ==> IsSpace(line[..n][i]);
      assert n == a;
      HashAt(line, a);
    } else {
      forall i | 0 <= i < |line|
        ensures IsSpace(line[..|line|][i])
      {
        if i < a {
          assert line[i] == line[..a][i];
        } else {
          assert line[i] == line[b..][i - b];
        }
      }
      HashAt(line, |line|);
    }
  }

  lemma OccursInPrefix(s: string, k: nat, t: string, i: nat)
    requires k <= |s| && OccursAt(s[..k], t, i)
    ensures OccursAt(s, t, i)
  {
    assert s[i..i + |t|] == s[..k][i..i + |t|];
  }

  lemma OccursInSuffix(s: string, k: nat, t: string, i: nat)
    requires k <= |s| && OccursAt(s[k..], t, i)
    ensures OccursAt(s, t, k + i)
  {
    assert s[k + i..k + i + |t|] == s[k..][i..i + |t|];
  }

  /** Where the one-line-note section ends in the text `rest` that follows its
      heading: at the '#' of the first line whose trimmed text starts with '#',
      or at the end of the text. */
  function SectionEnd(rest: string): (r: nat)
    ensures r <= |rest|
    ensures r == |rest| || rest[r] == '#'
    decreases |rest|
  {
    var k := IndexOfChar(rest, '\n');
    match HeadingHash(rest[..k])
    case Some(n) => n
    case None => if k == |rest| then |rest| else k + 1 + SectionEnd(rest[k + 1..])
  }

  /** Offset `s` of `text` begins a line: it is the start, or follows a '\n'. */
  predicate IsLineStart(text: string, s: int) {
    0 <= s <= |text| && (s == 0 || text[s - 1] == '\n')
  }

  /** The line of `text` that begins at offset `s`, without its '\n'. */
  function LineFrom(text: string, s: nat): string
    requires s <= |text|
  {
    text[s..][..IndexOfChar(text[s..], '\n')]
  }

  /** The section ends at the '#' of the first line whose trimmed text starts
      with '#': no heading line has its '#' before the end, and an end before
      the end of the text is the '#' of a heading line. */
  lemma SectionEndAtFirstHeading(rest: string)
    ensures forall s :: IsLineStart(rest, s) && IsHeadingLine(LineFrom(rest, s)) ==>
      SectionEnd(rest) <= s + Lead(LineFrom(rest, s))
    ensures SectionEnd(rest) < |rest| ==>
      exists s :: IsLineStart(rest, s) && IsHeadingLine(LineFrom(rest, s)) && SectionEnd(rest) == s + Lead(LineFrom(rest, s))
  {
    NoHeadingBeforeEnd(rest);
    EndIsAtHeading(rest);
  }

  /** No heading line has its '#' before the end of the section. */
  lemma {:induction false} NoHeadingBeforeEnd(rest: string)
    ensures forall s :: IsLineStart(rest, s) && IsHeadingLine(LineFrom(rest, s)) ==>
      SectionEnd(rest) <= s + Lead(LineFrom(rest, s))
    decreases |rest|
  {
    var k := IndexOfChar(rest, '\n');
    FirstLine(rest, k);
    if HeadingHash(rest[..k]).None? && k < |rest| {
      NoHeadingBeforeEnd(rest[k + 1..]);
      forall s | IsLineStart(rest, s) && IsHeadingLine(LineFrom(rest, s))
        ensures SectionEnd(rest) <= s + Lead(LineFrom(rest, s))
      {
        LaterLine(rest, k, s);
      }
    }
  }

  /** An end before the end of the text is the '#' of a heading line. */
  lemma EndIsAtHeading(rest: string)
    ensures SectionEnd(rest) < |rest| ==>
      exists s :: IsLineStart(rest, s) && IsHeadingLine(LineFrom(rest, s)) && SectionEnd(rest) == s + Lead(LineFrom(rest, s))
  {
    if SectionEnd(rest) < |rest| {
      var s := EndHeadingLine(rest);
    }
  }

  /** The start of the heading line whose '#' ends the section. */
  lemma {:induction false} EndHeadingLine(rest: string) returns (s: nat)
    requires SectionEnd(rest) < |rest|
    ensures IsLineStart(rest, s) && IsHeadingLine(LineFrom(rest, s))
    ensures SectionEnd(rest) == s + Lead(LineFrom(rest, s))
    decreases |rest|
  {
    var k := IndexOfChar(rest, '\n');
    if HeadingHash(rest[..k]).Some? {
      s := 0;
      HeadingInLineZero(rest, k, s);
    } else {
      var t := EndHeadingLine(rest[k + 1..]);
      s := t + k + 1;
      HeadingInLaterLine(rest, k, t, s);
    }
  }

  /** The first line: a heading there is the end; no other line starts inside it. */
  lemma FirstLine(rest: string, k: nat)
    requires k == IndexOfChar(rest, '\n')
    ensures LineFrom(rest, 0) == rest[..k]
    ensures IsHeadingLine(rest[..k]) <==> HeadingHash(rest[..k]).Some?
    ensures HeadingHash(rest[..k]).Some? ==> SectionEnd(rest) == Lead(rest[..k])
    ensures forall s :: IsLineStart(rest, s) && s > 0 ==> k < |rest| && s >= k + 1
  {
    assert rest[0..] == rest;
    HeadingLead(rest[..k]);
  }

  /** A line past the first is a line of the rest of the text. */
  lemma LaterLine(rest: string, k: nat, s: nat)
    requires k == IndexOfChar(rest, '\n') && k < |rest| && IsLineStart(rest, s) && s >= k + 1
    ensures IsLineStart(rest[k + 1..], s - (k + 1)) && LineFrom(rest, s) == LineFrom(rest[k + 1..], s - (k + 1))
  {
    var tail := rest[k + 1..];
    assert rest[s..] == tail[s - (k + 1)..];
    if s - (k + 1) > 0 {
      assert tail[s - (k + 1) - 1] == rest[s - 1];
    }
  }

  /** A heading on the first line ends the section there. */
  lemma HeadingInLineZero(rest: string, k: nat, s: nat)
    requires k == IndexOfChar(rest, '\n') && HeadingHash(rest[..k]).Some? && s == 0
    ensures IsLineStart(rest, s) && IsHeadingLine(LineFrom(rest, s))
    ensures SectionEnd(rest) == s + Lead(LineFrom(rest, s))
  {
    FirstLine(rest, k);
  }

  /** The heading line that ends the rest of the text ends the text. */
  lemma HeadingInLaterLine(rest: string, k: nat, t: nat, s: nat)
    requires k == IndexOfChar(rest, '\n') && k < |rest| && HeadingHash(rest[..k]).None?
    requires IsLineStart(rest[k + 1..], t) && IsHeadingLine(LineFrom(rest[k + 1..], t))
    requires SectionEnd(rest[k + 1..]) == t + Lead(LineFrom(rest[k + 1..], t))
    requires s == t + k + 1
    ensures IsLineStart(rest, s) && IsHeadingLine(LineFrom(rest, s))
    ensures SectionEnd(rest) == s + Lead(LineFrom(rest, s))
  {
    TailLine(rest, k, t, s);
    SectionEndSkipsLine(rest, k);
  }

  /** Past a first line that is not a heading, the section ends where it ends
      in the rest of the text. */
  lemma SectionEndSkipsLine(rest: string, k: nat)
    requires k == IndexOfChar(rest, '\n') && k < |rest| && HeadingHash(rest[..k]).None?
    ensures SectionEnd(rest) == k + 1 + SectionEnd(rest[k + 1..])
  {
  }

  /** A line of the rest of the text is a line of the text. */
  lemma TailLine(rest: string, k: nat, t: nat, s: nat)
    requires k == IndexOfChar(rest, '\n') && k < |rest| && IsLineStart(rest[k + 1..], t)
    requires s == t + k + 1
    ensures IsLineStart(rest, s) && LineFrom(rest, s) == LineFrom(rest[k + 1..], t)
  {
    var tail := rest[k + 1..];
    assert rest[s..] == tail[t..];
    if t > 0 {
      assert rest[s - 1] == tail[t - 1];
    }
  }

  /** The trimmed text of the first heading line of `rest`, if any. */
  function HeadingText(rest: string): (r: Option<string>)
    ensures r.Some? ==> HasPrefix(r.value, "#")
    decreases |rest|
  {
    var k := IndexOfChar(rest, '\n');
    var line := rest[..k];
    if HeadingHash(line).Some? then
      HeadingLead(line);
      Some(TrimSpace(line))
    else if k == |rest| then None
    else HeadingText(rest[k + 1..])
  }

  /** The heading text stands where the section ends; without a heading the
      section runs to the end. */
  lemma {:induction false} HeadingTextAtEnd(rest: string)
    ensures HeadingText(rest).None? <==> SectionEnd(rest) == |rest|
    ensures HeadingText(rest).Some? ==> OccursAt(rest, HeadingText(rest).value, SectionEnd(rest))
    decreases |rest|
  {
    var k := IndexOfChar(rest, '\n');
    if HeadingHash(rest[..k]).Some? {
      HeadingInFirstLine(rest, k);
    } else if k < |rest| {
      HeadingTextAtEnd(rest[k + 1..]);
      HeadingInTail(rest, k);
    }
  }

  /** A heading on the first line of `rest` is where the section ends. */
  lemma HeadingInFirstLine(rest: string, k: nat)
    requires k == IndexOfChar(rest, '\n') && HeadingHash(rest[..k]).Some?
    ensures HeadingText(rest).Some? && OccursAt(rest, HeadingText(rest).value, SectionEnd(rest))
  {
    var line := rest[..k];
    HeadingLead(line);
    OccursInPrefix(rest, k, TrimSpace(line), Lead(line));
  }

  /** Past a first line that is not a heading, the heading and the section's
      end are those of the rest, shifted by the first line. */
  lemma HeadingInTail(rest: string, k: nat)
    requires k == IndexOfChar(rest, '\n') && k < |rest| && HeadingHash(rest[..k]).None?
    requires var tail := rest[k + 1..];
      (HeadingText(tail).None? <==> SectionEnd(tail) == |tail|)
      && (HeadingText(tail).Some? ==> OccursAt(tail, HeadingText(tail).value, SectionEnd(tail)))
    ensures HeadingText(rest).None? <==> SectionEnd(rest) == |rest|
    ensures HeadingText(rest).Some? ==> OccursAt(rest, HeadingText(rest).value, SectionEnd(rest))
  {
    var tail := rest[k + 1..];
    HeadingLead(rest[..k]);
    if HeadingText(tail).Some? {
      OccursInSuffix(rest, k + 1, HeadingText(tail).value, SectionEnd(tail));
    }
  }

  /** The end of the section as the Go code computes it: `strings.Index` of
      the heading's trimmed text in the whole of `rest`, which finds the first
      place that text appears, even inside an earlier line. */
  function SectionEndAsWritten(rest: string): (r: nat)
    ensures r <= |rest|
  {
    match HeadingText(rest)
    case None => |rest|
    case Some(t) =>
      HeadingTextAtEnd(rest);
      IndexOf(rest, t).value
  }

  /** The computed end is never after the heading; it is before it exactly
      when the heading's text also appears earlier. */
  lemma AsWrittenNotAfter(rest: string)
    ensures SectionEndAsWritten(rest) <= SectionEnd(rest)
    ensures SectionEndAsWritten(rest) < SectionEnd(rest)
      <==> HeadingText(rest).Some? && exists j :: 0 <= j < SectionEnd(rest) && OccursAt(rest, HeadingText(rest).value, j)
  {
    HeadingTextAtEnd(rest);
    if HeadingText(rest).Some? {
      var t := HeadingText(rest).value;
      var v := IndexOf(rest, t).value;
      if v < SectionEnd(rest) {
        assert OccursAt(rest, t, v);
      }
    }
  }

  /** A line that mentions '#' ahead of the next heading: the Go code cuts the
      section at that mention (offset 1) instead of at the heading (offset 3). */
  lemma AsWrittenCutsEarly()
    ensures SectionEndAsWritten("x#\n#\n") == 1
    ensures SectionEnd("x#\n#\n") == 3
  {
    var rest := "x#\n#\n";
    assert IndexOfChar(rest, '\n') == 2;
    assert rest[..2] == "x#";
    assert HeadingHash("x#") == None;
    var tail := rest[3..];
    assert tail == "#\n";
    assert IndexOfChar(tail, '\n') == 1;
    assert tail[..1] == "#";
    TrimSpaceKeepsFirst("#");
    assert HeadingHash("#") == Some(0);
    assert HeadingText(rest) == Some("#");
    assert OccursAt(rest, "#", 1);
    assert !OccursAt(rest, "#", 0);
  }

  // ---------------------------------------------------------------------
  // The order of the dates
  // ---------------------------------------------------------------------

  predicate Distinct(s: seq<string>) {
    forall i, j :: 0 <= i < j < |s| ==> s[i] != s[j]
  }

  /** Strictly increasing in Go's string order. */
  predicate Ascending(s: seq<string>) {
    forall i, j :: 0 <= i < j < |s| ==> LexLess(s[i], s[j])
  }

  /** Strictly decreasing in Go's string order. */
  predicate Descending(s: seq<string>) {
    forall i, j :: 0 <= i < j < |s| ==> LexLess(s[j], s[i])
  }

  /** `x` placed into the descending list `s` where it belongs. */
  function InsertDescending(x: string, s: seq<string>): (r: seq<string>)
    requires Descending(s) && x !in s
    ensures Descending(r) && |r| == |s| + 1
    ensures forall y :: y in r <==> y == x || y in s
  {
    if s == [] then [x]
    else if LexLess(s[0], x) then
      assert forall j :: 0 <= j < |s| ==> LexLess(s[j], x) by {
        forall j | 0 < j < |s| ensures LexLess(s[j], x) {
          LexLessTransitive(s[j], s[0], x);
        }
      }
      [x] + s
    else
      LexLessTotal(x, s[0]);
      var r := InsertDescending(x, s[1..]);
      assert forall j :: 0 <= j < |r| ==> LexLess(r[j], s[0]) by {
        forall j | 0 <= j < |r| ensures LexLess(r[j], s[0]) {
          assert r[j] in r;
        }
      }
      assert forall y :: y in s <==> y == s[0] || y in s[1..] by {
        assert s == [s[0]] + s[1..];
      }
      [s[0]] + r
  }

  /** The keys of a map from newest to oldest: descending in Go's string order. */
  ghost function KeysDescending(keys: set<string>): (r: seq<string>)
    ensures Descending(r) && |r| == |keys|
    ensures forall k :: k in r <==> k in keys
    decreases keys
  {
    if keys == {} then []
    else
      var k :| k in keys;
      InsertDescending(k, KeysDescending(keys - {k}))
  }

  /** A descending list is fixed by its elements: there is one way to list a
      set of keys in descending order. */
  lemma {:induction false} DescendingUnique(s: seq<string>, t: seq<string>)
    requires Descending(s) && Descending(t)
    requires forall x :: x in s <==> x in t
    ensures s == t
    decreases |s|
  {
    if s == [] {
      assert forall k :: 0 <= k < |t| ==> t[k] in t;
    } else {
      assert s[0] in s;
      var i :| 0 <= i < |t| && t[i] == s[0];
      assert t[0] in t;
      var j :| 0 <= j < |s| && s[j] == t[0];
      if i != 0 {
        LexLessIrreflexive(s[0]);
        assert j != 0;
        LexLessTransitive(s[0], t[0], s[0]);
      }
      forall x ensures x in s[1..] <==> x in t[1..] {
        if x in s[1..] {
          var k :| 1 <= k < |s| && s[k] == x;
          LexLessIrreflexive(x);
          assert x in t by {
            assert s[k] in s;
          }
          var l :| 0 <= l < |t| && t[l] == x;
          assert t[1..][l - 1] == x;
        }
        if x in t[1..] {
          var k :| 1 <= k < |t| && t[k] == x;
          LexLessIrreflexive(x);
          assert x in s by {
            assert t[k] in t;
          }
          var l :| 0 <= l < |s| && s[l] == x;
          assert s[1..][l - 1] == x;
        }
      }
      DescendingUnique(s[1..], t[1..]);
      assert s == [s[0]] + s[1..] && t == [t[0]] + t[1..];
    }
  }

  /** `s` read from back to front. */
  function Reversed(s: seq<string>): (r: seq<string>)
    ensures |r| == |s| && forall k :: 0 <= k < |s| ==> r[k] == s[|s| - 1 - k]
  {
    if s == [] then [] else Reversed(s[1..]) + [s[0]]
  }

  /** Reading an ascending list backwards gives a descending one with the same elements. */
  lemma ReversedAscending(s: seq<string>)
    requires Ascending(s)
    ensures Descending(Reversed(s))
    ensures forall x :: x in Reversed(s) <==> x in s
  {
    var r := Reversed(s);
    forall x | x in s ensures x in r {
      var i :| 0 <= i < |s| && s[i] == x;
      assert r[|s| - 1 - i] == x;
    }
  }

  /** The keys of `summaries`, gathered in the map's (unspecified) iteration order. */
  method CollectKeys(summaries: map<string, string>) returns (dates: seq<string>)
    ensures Distinct(dates)
    ensures forall k :: k in dates <==> k in summaries
  {
    dates := [];
    var rest := summaries.Keys;
    while rest != {}
      invariant Distinct(dates)
      invariant rest <= summaries.Keys
      invariant forall k :: k in dates ==> k in summaries && k !in rest
      invariant forall k :: k in summaries ==> k in rest || k in dates
      decreases rest
    {
      var k :| k in rest;
      dates := dates + [k];
      rest := rest - {k};
    }
  }

  /** `sort.Strings` on distinct strings, as a selection sort in place. */
  method SortStrings(a: array<string>)
    requires Distinct(a[..])
    modifies a
    ensures Ascending(a[..]) && multiset(a[..]) == multiset(old(a[..]))
  {
    var i := 0;
    while i < a.Length
      invariant 0 <= i <= a.Length
      invariant multiset(a[..]) == multiset(old(a[..]))
      invariant Distinct(a[..])
      invariant SortedBelow(a[..], i)
    {
      var m := SmallestFrom(a, i);
      ghost var before := a[..];
      a[i], a[m] := a[m], a[i];
      SwapStep(before, i, m);
      i := i + 1;
    }
  }

  /** The first `i` strings are ascending and each is below every later one. */
  ghost predicate SortedBelow(s: seq<string>, i: nat) {
    i <= |s|
    && (forall p, q :: 0 <= p < q < i ==> LexLess(s[p], s[q]))
    && (forall p, q :: 0 <= p < i <= q < |s| ==> LexLess(s[p], s[q]))
  }

  /** Swapping the smallest of the unsorted part to its front keeps the
      strings, keeps them distinct, and sorts one more. */
  lemma SwapStep(s: seq<string>, i: nat, m: nat)
    requires i <= m < |s| && Distinct(s) && SortedBelow(s, i)
    requires forall q :: i <= q < |s| && q != m ==> LexLess(s[m], s[q])
    ensures var t := s[i := s[m]][m := s[i]];
      multiset(t) == multiset(s) && Distinct(t) && SortedBelow(t, i + 1)
  {
    var t := s[i := s[m]][m := s[i]];
    SwapDistinct(s, i, m);
    forall p, q | 0 <= p < q < i + 1 ensures LexLess(t[p], t[q]) {
      if q < i {
        assert t[p] == s[p] && t[q] == s[q];
      } else {
        assert t[p] == s[p] && t[q] == s[m];
      }
    }
    forall p, q | 0 <= p < i + 1 <= q < |t| ensures LexLess(t[p], t[q]) {
      if p < i {
        assert t[p] == s[p] && (t[q] == s[q] || t[q] == s[i]);
      } else {
        assert t[p] == s[m] && (t[q] == s[q] || t[q] == s[i]);
      }
    }
  }

  lemma SwapDistinct(s: seq<string>, i: nat, m: nat)
    requires i <= m < |s| && Distinct(s)
    ensures var t := s[i := s[m]][m := s[i]];
      multiset(t) == multiset(s) && Distinct(t)
  {
    var t := s[i := s[m]][m := s[i]];
    forall p, q | 0 <= p < q < |t| ensures t[p] != t[q] {
      var p' := if p == i then m else if p == m then i else p;
      var q' := if q == i then m else if q == m then i else q;
      assert t[p] == s[p'] && t[q] == s[q'] && p' != q';
    }
  }

  /** The position of the smallest of `a[i..]`. */
  method SmallestFrom(a: array<string>, i: nat) returns (m: nat)
    requires i < a.Length && Distinct(a[..])
    ensures i <= m < a.Length
    ensures forall q :: i <= q < a.Length && q != m ==> LexLess(a[m], a[q])
  {
    m := i;
    var j := i + 1;
    while j < a.Length
      invariant i <= m < j <= a.Length
      invariant forall q :: i <= q < j && q != m ==> LexLess(a[m], a[q])
    {
      if LexLess(a[j], a[m]) {
        forall q | i <= q < j && q != m ensures LexLess(a[j], a[q]) {
          LexLessTransitive(a[j], a[m], a[q]);
        }
        m := j;
      } else {
        assert a[..][m] != a[..][j];
        LexLessTotal(a[m], a[j]);
      }
      j := j + 1;
    }
  }

  /** The reversing loop of `EmbedOneLineNotes`: two indices swap their way to the middle. */
  method ReverseStrings(a: array<string>)
    modifies a
    ensures a[..] == Reversed(old(a[..]))
  {
    var i, j := 0, a.Length - 1;
    while i < j
      invariant 0 <= i <= j + 1 <= a.Length && i + j == a.Length - 1
      invariant forall k :: 0 <= k < i ==> a[k] == old(a[a.Length - 1 - k]) && a[a.Length - 1 - k] == old(a[k])
      invariant forall k :: i <= k <= j ==> a[k] == old(a[k])
    {
      a[i], a[j] := a[j], a[i];
      i, j := i + 1, j - 1;
    }
  }

  /** The dates of `EmbedOneLineNotes`: the keys collected, sorted, and reversed. */
  method NewestFirst(summaries: map<string, string>) returns (dates: array<string>)
    ensures fresh(dates)
    ensures dates[..] == KeysDescending(summaries.Keys)
  {
    var keys := CollectKeys(summaries);
    dates := new string[|keys|](i requires 0 <= i < |keys| => keys[i]);
    assert dates[..] == keys;
    SortStrings(dates);
    ghost var sorted := dates[..];
    forall x ensures x in sorted <==> x in keys {
      assert x in multiset(sorted) <==> x in multiset(keys);
    }
    ReverseStrings(dates);
    ReversedAscending(sorted);
    DescendingUnique(dates[..], KeysDescending(summaries.Keys));
  }

  // ---------------------------------------------------------------------
  // The rewritten section
  // ---------------------------------------------------------------------

  /** One line of the section: a wikilink to the day's note and its summary. */
  function Bullet(key: string, summary: string): string {
    "* [[" + key + "]]: " + summary + "\n"
  }

  /** The bullets of `keys`, in that order. */
  function Bullets(keys: seq<string>, summaries: map<string, string>): string
    requires forall i :: 0 <= i < |keys| ==> keys[i] in summaries
  {
    if keys == [] then ""
    else Bullets(keys[..|keys| - 1], summaries) + Bullet(keys[|keys| - 1], summaries[keys[|keys| - 1]])
  }

  /** The new body of the section: the bullets, newest first, and a blank line. */
  ghost function NotesBlock(summaries: map<string, string>): string {
    var keys := KeysDescending(summaries.Keys);
    assert forall i :: 0 <= i < |keys| ==> keys[i] in keys;
    Bullets(keys, summaries) + "\n"
  }

  /** `content` with the body of its one-line-note section replaced by
      `block`: everything up to the end of the first "# One-line note" line
      and from the section's end on is kept; None without that line. */
  function ReplaceSection(content: string, block: string): (r: Option<string>)
    ensures r.None? <==> forall j :: !OccursAt(content, NoteMarker, j)
  {
    match IndexOf(content, NoteMarker)
    case None => None
    case Some(idx) =>
      var after := idx + |NoteMarker|;
      var rest := content[after..];
      Some(content[..after] + block + rest[SectionEnd(rest)..])
  }

  /** The note `content` after `EmbedOneLineNotes`. */
  ghost function Embedded(content: string, summaries: map<string, string>): Option<string> {
    ReplaceSection(content, NotesBlock(summaries))
  }

  /** One pass of the loop of `EmbedOneLineNotes` over the line of `rest`
      that starts at `offset`: a heading stops the scan at its '#', the last
      line stops it at the end, and any other line moves on to the next. */
  method ScanLine(rest: string, offset: nat) returns (stop: bool, pos: nat)
    requires offset <= |rest|
    ensures stop ==> pos == offset + SectionEnd(rest[offset..])
    ensures !stop ==> offset < pos <= |rest|
                      && SectionEnd(rest[offset..]) == pos - offset + SectionEnd(rest[pos..])
  {
    var tail := rest[offset..];
    var k := IndexOfChar(tail, '\n');
    var line := tail[..k];
    if IsHeadingLine(line) {
      SectionAtHeading(rest, offset, k);
      stop, pos := true, offset + Lead(line);
    } else if k == |tail| {
      SectionAtLastLine(rest, offset, k);
      stop, pos := true, |rest|;
    } else {
      SectionPastLine(rest, offset, k);
      stop, pos := false, offset + k + 1;
    }
  }

  /** A heading line ends the section at its '#'. */
  lemma SectionAtHeading(rest: string, offset: nat, k: nat)
    requires offset <= |rest| && k == IndexOfChar(rest[offset..], '\n')
    requires IsHeadingLine(rest[offset..][..k])
    ensures SectionEnd(rest[offset..]) == Lead(rest[offset..][..k])
  {
    HeadingAtLead(rest[offset..][..k]);
  }

  /** A last line that is no heading leaves the section running to the end. */
  lemma SectionAtLastLine(rest: string, offset: nat, k: nat)
    requires offset <= |rest| && k == IndexOfChar(rest[offset..], '\n') && k == |rest| - offset
    requires !IsHeadingLine(rest[offset..][..k])
    ensures SectionEnd(rest[offset..]) == |rest| - offset
  {
    HeadingAtLead(rest[offset..][..k]);
  }

  /** Any other line passes the scan on to the next one. */
  lemma SectionPastLine(rest: string, offset: nat, k: nat)
    requires offset <= |rest| && k == IndexOfChar(rest[offset..], '\n') && k < |rest| - offset
    requires !IsHeadingLine(rest[offset..][..k])
    ensures SectionEnd(rest[offset..]) == k + 1 + SectionEnd(rest[offset + k + 1..])
  {
    var tail := rest[offset..];
    HeadingAtLead(tail[..k]);
    assert SectionEnd(tail) == k + 1 + SectionEnd(tail[k + 1..]);
    assert tail[k + 1..] == rest[offset + k + 1..];
  }

  /** Go's heading test picks out the lines whose '#' follows their leading
      white space. */
  lemma HeadingAtLead(line: string)
    ensures IsHeadingLine(line) ==> HeadingHash(line) == Some(Lead(line))
    ensures !IsHeadingLine(line) ==> HeadingHash(line).None?
  {
    HeadingLead(line);
  }

  /** The loop of `EmbedOneLineNotes` that looks for the end of the section,
      line by line, from offset `after` of `content`. The lines are taken one
      at a time, each up to the next newline, as `strings.Split` yields them. */
  method FindSectionEnd(content: string, after: nat) returns (end: nat)
    requires after <= |content|
    ensures end == after + SectionEnd(content[after..])
  {
    var rest := content[after..];
    end := after;
    var offset: nat := 0;
    var done := false;
    assert rest[0..] == rest;
    while !done
      invariant offset <= |rest|
      invariant !done ==> SectionEnd(rest) == offset + SectionEnd(rest[offset..])
      invariant done ==> end == after + SectionEnd(rest)
      decreases |rest| - offset, !done
    {
      var stop, pos := ScanLine(rest, offset);
      if stop {
        end := after + pos;
        done := true;
      } else {
        offset := pos;
      }
    }
  }

  /** What `EmbedOneLineNotes` writes, in the terms its body computes. */
  lemma {:induction false} EmbeddedAt(c: string, summaries: map<string, string>, idx: nat, end: nat, notes: string)
    requires IndexOf(c, NoteMarker) == Some(idx)
    requires idx + |NoteMarker| <= |c| && end == idx + |NoteMarker| + SectionEnd(c[idx + |NoteMarker|..])
    requires notes == NotesBlock(summaries)
    ensures end <= |c| && Embedded(c, summaries) == Some(c[..idx + |NoteMarker|] + notes + c[end..])
  {
    var rest := c[idx + |NoteMarker|..];
    assert rest[SectionEnd(rest)..] == c[end..];
  }

  /** The loop of `EmbedOneLineNotes` that writes one bullet per date, newest
      first, and the blank line after them. */
  method RenderNotes(summaries: map<string, string>) returns (notes: string)
    ensures notes == NotesBlock(summaries)
  {
    var sorted := NewestFirst(summaries);
    KeysInMap(summaries);
    notes := WriteBullets(sorted[..], summaries);
    notes := notes + "\n";
  }

  /** The sorted dates are all keys of the map. */
  lemma KeysInMap(summaries: map<string, string>)
    ensures var keys := KeysDescending(summaries.Keys);
      forall j :: 0 <= j < |keys| ==> keys[j] in summaries
  {
    var keys := KeysDescending(summaries.Keys);
    assert forall j :: 0 <= j < |keys| ==> keys[j] in keys;
  }

  /** One bullet per date, in the order given. */
  method WriteBullets(dates: seq<string>, summaries: map<string, string>) returns (notes: string)
    requires forall j :: 0 <= j < |dates| ==> dates[j] in summaries
    ensures notes == Bullets(dates, summaries)
  {
    notes := "";
    var i := 0;
    while i < |dates|
      invariant 0 <= i <= |dates|
      invariant notes == Bullets(dates[..i], summaries)
    {
      BulletsStep(dates, i, summaries);
      notes := notes + Bullet(dates[i], summaries[dates[i]]);
      i := i + 1;
    }
    assert dates[..i] == dates;
  }

  /** One more date adds its bullet at the end. */
  lemma BulletsStep(keys: seq<string>, i: nat, summaries: map<string, string>)
    requires i < |keys| && forall j :: 0 <= j < |keys| ==> keys[j] in summaries
    ensures Bullets(keys[..i + 1], summaries) == Bullets(keys[..i], summaries) + Bullet(keys[i], summaries[keys[i]])
  {
    assert keys[..i + 1][..i] == keys[..i];
  }

  /** `EmbedOneLineNotes`: the one-line-note section of the note at `path`
      rewritten to list `summaries`, newest first. */
  method EmbedOneLineNotes(dir: Directory, path: string, summaries: map<string, string>)
    returns (err: Option<string>)
    modifies dir
    ensures match Content(old(dir.files), path)
      case None =>
        err == Some("failed to read file " + path + ": " + NotFound(path)) && dir.files == old(dir.files)
      case Some(c) =>
        match Embedded(c, summaries)
        case None =>
          err == Some("\"One-line note\" section not found in file " + path) && dir.files == old(dir.files)
        case Some(u) => err == None && dir.files == old(dir.files)[path := u]
  {
    var content := dir.ReadFile(path);
    if content.None? {
      return Some("failed to read file " + path + ": " + NotFound(path));
    }
    var c := content.value;
    var idx := IndexOf(c, NoteMarker);
    if idx.None? {
      return Some("\"One-line note\" section not found in file " + path);
    }
    var after := idx.value + |NoteMarker|;
    assert OccursAt(c, NoteMarker, idx.value);
    var end := FindSectionEnd(c, after);
    var notes := RenderNotes(summaries);
    EmbeddedAt(c, summaries, idx.value, end, notes);
    dir.WriteFile(path, c[..after] + notes + c[end..]);
    err := None;
  }

  // ---------------------------------------------------------------------
  // Embedding again
  // ---------------------------------------------------------------------

  /** No date and no summary holds a line break. */
  predicate NoLineBreaks(summaries: map<string, string>) {
    forall k :: k in summaries ==> '\n' !in k && '\n' !in summaries[k]
  }

  /** A bullet is one line that is not a heading: the section goes on after it. */
  lemma {:induction false} BulletThenRest(key: string, summary: string, x: string)
    requires '\n' !in key && '\n' !in summary
    ensures SectionEnd(Bullet(key, summary) + x) == |Bullet(key, summary)| + SectionEnd(x)
  {
    var b := Bullet(key, summary);
    var s := b + x;
    var line := "* [[" + key + "]]: " + summary;
    assert b == line + "\n";
    assert s[..|b| - 1] == line;
    assert s[|b| - 1] == '\n';
    IndexOfCharPrefix(s, '\n', |b| - 1);
    assert line[0] == '*' && !IsSpace('*');
    assert HeadingHash(line) == None;
    assert s[|b|..] == x;
  }

  /** The bullets of `keys` are lines that do not end the section. */
  lemma {:induction false} BulletsThenRest(keys: seq<string>, summaries: map<string, string>, x: string)
    requires forall i :: 0 <= i < |keys| ==> keys[i] in summaries
    requires NoLineBreaks(summaries)
    ensures SectionEnd(Bullets(keys, summaries) + x) == |Bullets(keys, summaries)| + SectionEnd(x)
    decreases |keys|
  {
    if keys != [] {
      var init := keys[..|keys| - 1];
      var last := keys[|keys| - 1];
      var bullet := Bullet(last, summaries[last]);
      assert Bullets(keys, summaries) + x == Bullets(init, summaries) + (bullet + x);
      BulletsThenRest(init, summaries, bullet + x);
      BulletThenRest(last, summaries[last], x);
    } else {
      assert Bullets(keys, summaries) + x == x;
    }
  }

  /** An empty line does not end the section either. */
  lemma {:induction false} BlankThenRest(x: string)
    ensures SectionEnd("\n" + x) == 1 + SectionEnd(x)
  {
    var s := "\n" + x;
    assert IndexOfChar(s, '\n') == 0;
    assert s[..0] == "" && s[1..] == x;
  }

  /** Text that is empty or opens with '#' ends the section at once. */
  lemma {:induction false} AtHeading(x: string)
    requires x == [] || x[0] == '#'
    ensures SectionEnd(x) == 0
  {
    if x != [] {
      var k := IndexOfChar(x, '\n');
      assert k > 0;
      assert x[..k][0] == '#';
    }
  }

  /** Bullets, a blank line and then nothing or a heading: the section ends
      right after the blank line. */
  lemma {:induction false} BulletsThenHeading(keys: seq<string>, summaries: map<string, string>, x: string)
    requires forall i :: 0 <= i < |keys| ==> keys[i] in summaries
    requires NoLineBreaks(summaries)
    requires x == [] || x[0] == '#'
    ensures SectionEnd(Bullets(keys, summaries) + "\n" + x) == |Bullets(keys, summaries)| + 1
  {
    var bullets := Bullets(keys, summaries);
    assert bullets + "\n" + x == bullets + ("\n" + x);
    BulletsThenRest(keys, summaries, "\n" + x);
    BlankThenRest(x);
    AtHeading(x);
  }

  /** The section that the notes block opens ends where the block ends, when
      what follows it is empty or a heading. */
  lemma {:induction false} NotesBlockSection(summaries: map<string, string>, x: string)
    requires NoLineBreaks(summaries)
    requires x == [] || x[0] == '#'
    ensures SectionEnd(NotesBlock(summaries) + x) == |NotesBlock(summaries)|
  {
    var keys := KeysDescending(summaries.Keys);
    assert forall i :: 0 <= i < |keys| ==> keys[i] in keys;
    BulletsThenHeading(keys, summaries, x);
  }

  /** `strings.Index` gives the first occurrence, whichever way it is found. */
  lemma {:induction false} FirstOccurrence(s: string, pat: string, i: nat)
    requires OccursAt(s, pat, i) && forall j :: 0 <= j < i ==> !OccursAt(s, pat, j)
    ensures IndexOf(s, pat) == Some(i)
  {
  }

  /** `strings.Index` finds the same first occurrence in a text that keeps
      everything up to the end of that occurrence. */
  lemma {:induction false} IndexOfKept(s: string, t: string, pat: string, idx: nat)
    requires IndexOf(s, pat) == Some(idx)
    requires idx + |pat| <= |t| && t[..idx + |pat|] == s[..idx + |pat|]
    ensures IndexOf(t, pat) == Some(idx)
  {
    forall j | 0 <= j <= idx
      ensures OccursAt(t, pat, j) == OccursAt(s, pat, j)
    {
      OccursInPrefixIff(t, pat, idx + |pat|, j);
      OccursInPrefixIff(s, pat, idx + |pat|, j);
    }
    FirstOccurrence(t, pat, idx);
  }

  /** The pieces of a text made of three. */
  lemma Pieces(a: string, b: string, c: string)
    ensures (a + b + c)[..|a|] == a && (a + b + c)[|a|..] == b + c && (b + c)[|b|..] == c
  {
  }

  /** The replaced section, when the marker is first found at `idx`. */
  lemma {:induction false} ReplaceAt(content: string, block: string, idx: nat)
    requires IndexOf(content, NoteMarker) == Some(idx)
    ensures idx + |NoteMarker| <= |content|
    ensures var rest := content[idx + |NoteMarker|..];
      ReplaceSection(content, block) == Some(content[..idx + |NoteMarker|] + block + rest[SectionEnd(rest)..])
  {
  }

  /** Replacing the section body a second time undoes the first replacement,
      when the first block holds no heading line: the result is the same as
      replacing it once with the second block. */
  lemma {:induction false} ReplaceTwice(content: string, first: string, second: string)
    requires ReplaceSection(content, first).Some?
    requires var idx := IndexOf(content, NoteMarker).value;
             var rest := content[idx + |NoteMarker|..];
             var tail := rest[SectionEnd(rest)..];
             SectionEnd(first + tail) == |first|
    ensures ReplaceSection(ReplaceSection(content, first).value, second) == ReplaceSection(content, second)
  {
    var idx := IndexOf(content, NoteMarker).value;
    ReplaceAt(content, first, idx);
    ReplaceAt(content, second, idx);
    var after := idx + |NoteMarker|;
    var rest := content[after..];
    var tail := rest[SectionEnd(rest)..];
    var u := content[..after] + first + tail;
    Pieces(content[..after], first, tail);
    IndexOfKept(content, u, NoteMarker, idx);
    ReplaceAt(u, second, idx);
  }

  /** Embedding a second time replaces the notes the first embedding wrote,
      and keeps the rest of the note as the first embedding left it: the
      result is the same as embedding the second map alone. This holds when
      the first map's dates and summaries are single lines. */
  lemma {:induction false} ReembedReplaces(content: string, first: map<string, string>, second: map<string, string>)
    requires NoLineBreaks(first)
    requires Embedded(content, first).Some?
    ensures Embedded(Embedded(content, first).value, second) == Embedded(content, second)
  {
    var idx := IndexOf(content, NoteMarker).value;
    ReplaceAt(content, NotesBlock(first), idx);
    var rest := content[idx + |NoteMarker|..];
    NotesBlockSection(first, rest[SectionEnd(rest)..]);
    ReplaceTwice(content, NotesBlock(first), NotesBlock(second));
  }
}
