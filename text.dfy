/** The few functions of Go's `strings` and `strconv` packages that the journal
    code relies on, over Dafny strings (sequences of Unicode scalar values). */
module Text {
  import opened Results

  /** Go's `unicode.IsSpace`: the white space that `strings.TrimSpace` removes. */
  predicate IsSpace(c: char) {
    c == ' ' || c == '\t' || c == '\n' || c == '\r' || c == '\U{000B}' || c == '\U{000C}'
    || c == '\U{0085}' || c == '\U{00A0}' || c == '\U{1680}'
    || ('\U{2000}' <= c <= '\U{200A}')
    || c == '\U{2028}' || c == '\U{2029}' || c == '\U{202F}' || c == '\U{205F}' || c == '\U{3000}'
  }

  /** A string with no white space at either end. */
  predicate Trimmed(s: string) {
    s == [] || (!IsSpace(s[0]) && !IsSpace(s[|s| - 1]))
  }

  /** Every character is white space. */
  predicate AllSpace(s: string) {
    forall i :: 0 <= i < |s| ==> IsSpace(s[i])
  }

  function TrimLeft(s: string): string {
    if s != [] && IsSpace(s[0]) then TrimLeft(s[1..]) else s
  }

  function TrimRight(s: string): string {
    if s != [] && IsSpace(s[|s| - 1]) then TrimRight(s[..|s| - 1]) else s
  }

  /** `TrimLeft` removes exactly the leading white space. */
  lemma {:induction false} TrimLeftRemovesSpace(s: string)
    ensures var r := TrimLeft(s);
      |r| <= |s| && r == s[|s| - |r|..] && (r != [] ==> !IsSpace(r[0])) && AllSpace(s[..|s| - |r|])
  {
    if s != [] && IsSpace(s[0]) {
      var rest := s[1..];
      TrimLeftRemovesSpace(rest);
      var r := TrimLeft(rest);
      assert TrimLeft(s) == r;
      assert rest[|rest| - |r|..] == s[|s| - |r|..];
      assert s[..|s| - |r|] == [s[0]] + rest[..|rest| - |r|];
    }
  }

  /** `TrimRight` removes exactly the trailing white space. */
  lemma {:induction false} TrimRightRemovesSpace(s: string)
    ensures var r := TrimRight(s);
      |r| <= |s| && r == s[..|r|] && (r != [] ==> !IsSpace(r[|r| - 1])) && AllSpace(s[|r|..])
  {
    if s != [] && IsSpace(s[|s| - 1]) {
      var rest := s[..|s| - 1];
      TrimRightRemovesSpace(rest);
      var r := TrimRight(rest);
      assert TrimRight(s) == r;
      assert rest[..|r|] == s[..|r|];
      assert s[|r|..] == rest[|r|..] + [s[|s| - 1]];
    }
  }

  /** Go's `strings.TrimSpace`: `s` without its leading and trailing white space. */
  function TrimSpace(s: string): (r: string)
    ensures Trimmed(r) && |r| <= |s|
  {
    TrimLeftRemovesSpace(s);
    TrimRightRemovesSpace(TrimLeft(s));
    TrimRight(TrimLeft(s))
  }

  /** The trimmed text is a slice of `s` with only white space around it. */
  lemma TrimSpaceIsSlice(s: string) returns (a: nat, b: nat)
    ensures a <= b <= |s| && TrimSpace(s) == s[a..b] && AllSpace(s[..a]) && AllSpace(s[b..])
  {
    TrimLeftRemovesSpace(s);
    var l := TrimLeft(s);
    TrimRightRemovesSpace(l);
    var r := TrimRight(l);
    a, b := |s| - |l|, |s| - |l| + |r|;
    assert r == s[a..b];
    assert s[b..] == l[|r|..];
  }

  /** Trimming a line without line breaks gives one without line breaks. */
  lemma TrimSpaceNoNewline(s: string)
    requires '\n' !in s
    ensures '\n' !in TrimSpace(s)
  {
    var a, b := TrimSpaceIsSlice(s);
    assert forall k :: 0 <= k < b - a ==> s[a..b][k] == s[a + k];
  }

  /** A string that starts with a character other than white space keeps that
      character first when trimmed. */
  lemma TrimSpaceKeepsFirst(s: string)
    requires s != [] && !IsSpace(s[0])
    ensures TrimLeft(s) == s && TrimSpace(s) != [] && TrimSpace(s)[0] == s[0]
  {
    TrimRightRemovesSpace(s);
  }

  /** A line that `strings.TrimSpace` reduces to "". */
  predicate IsBlank(s: string) {
    TrimSpace(s) == ""
  }

  lemma TrimSpaceOfTrimmed(s: string)
    requires Trimmed(s)
    ensures TrimSpace(s) == s
  {
  }

  lemma {:induction false} BlankIffAllSpace(s: string)
    ensures IsBlank(s) <==> AllSpace(s)
  {
    var a, b := TrimSpaceIsSlice(s);
    if AllSpace(s) {
      if a < b {
        assert IsSpace(s[a]);
      }
    }
  }

  /** Go's `strings.HasPrefix`. */
  predicate HasPrefix(s: string, p: string) {
    |p| <= |s| && s[..|p|] == p
  }

  /** Go's `strings.HasSuffix`. */
  predicate HasSuffix(s: string, p: string) {
    |p| <= |s| && s[|s| - |p|..] == p
  }

  /** Go's `strings.TrimSuffix`. */
  function TrimSuffix(s: string, p: string): (r: string)
    ensures HasSuffix(s, p) ==> r + p == s
    ensures !HasSuffix(s, p) ==> r == s
  {
    if HasSuffix(s, p) then s[..|s| - |p|] else s
  }

  /** Index of the first `c` in `s`, or |s| when there is none. */
  function IndexOfChar(s: string, c: char): (k: nat)
    ensures k <= |s| && c !in s[..k]
    ensures k < |s| ==> s[k] == c
  {
    if s == [] then 0
    else if s[0] == c then 0
    else 1 + IndexOfChar(s[1..], c)
  }

  /** `pat` occurs in `s` at offset `i`. */
  predicate OccursAt(s: string, pat: string, i: int) {
    0 <= i && i + |pat| <= |s| && s[i..i + |pat|] == pat
  }

  /** An occurrence in a slice of `s` is an occurrence in `s`, inside the slice. */
  lemma OccursInSlice(s: string, pat: string, a: nat, b: nat, j: int)
    requires a <= b <= |s|
    ensures OccursAt(s[a..b], pat, j) ==> OccursAt(s, pat, a + j) && a + j + |pat| <= b
  {
    if OccursAt(s[a..b], pat, j) {
      var inSlice, inWhole := s[a..b][j..j + |pat|], s[a + j..a + j + |pat|];
      forall k | 0 <= k < |pat| ensures inSlice[k] == inWhole[k] {
        assert inSlice[k] == s[a..b][j + k];
      }
      assert inSlice == inWhole;
    }
  }

  /** An occurrence that ends within the first `k` characters is one in `s[..k]`. */
  lemma OccursInPrefixIff(s: string, pat: string, k: nat, j: int)
    requires k <= |s| && j + |pat| <= k
    ensures OccursAt(s[..k], pat, j) <==> OccursAt(s, pat, j)
  {
    if 0 <= j {
      assert s[..k][j..j + |pat|] == s[j..j + |pat|];
    }
  }

  /** An occurrence after the first character is one in the rest of the string. */
  lemma OccursInTail(s: string, pat: string, j: int)
    requires s != [] && j > 0
    ensures OccursAt(s, pat, j) <==> OccursAt(s[1..], pat, j - 1)
  {
    if j + |pat| <= |s| {
      assert s[j..j + |pat|] == s[1..][j - 1..j - 1 + |pat|];
    }
  }

  /** Go's `strings.Index`: the offset of the first occurrence of `pat` in `s`. */
  function IndexOf(s: string, pat: string): (r: Option<nat>)
    ensures r.Some? ==> OccursAt(s, pat, r.value) && forall j :: 0 <= j < r.value ==> !OccursAt(s, pat, j)
    ensures r.None? ==> forall j :: !OccursAt(s, pat, j)
  {
    if HasPrefix(s, pat) then Some(0)
    else if s == [] then None
    else
      assert forall j :: j > 0 ==> (OccursAt(s, pat, j) <==> OccursAt(s[1..], pat, j - 1)) by {
        forall j | j > 0 ensures OccursAt(s, pat, j) <==> OccursAt(s[1..], pat, j - 1) {
          OccursInTail(s, pat, j);
        }
      }
      match IndexOf(s[1..], pat)
      case None => None
      case Some(i) => Some(i + 1)
  }

  /** Go's `strings.Split(s, "\n")`. */
  function Split(s: string): (r: seq<string>)
    ensures |r| >= 1
    ensures forall i :: 0 <= i < |r| ==> '\n' !in r[i]
    decreases |s|
  {
    var k := IndexOfChar(s, '\n');
    if k == |s| then [s] else [s[..k]] + Split(s[k + 1..])
  }

  /** Go's `strings.Join(ls, sep)`. */
  function Join(ls: seq<string>, sep: string): string {
    if |ls| == 0 then ""
    else if |ls| == 1 then ls[0]
    else ls[0] + sep + Join(ls[1..], sep)
  }

  /** Joining a concatenation of two non-empty lists puts one separator between the parts. */
  lemma {:induction false} JoinAppend(a: seq<string>, b: seq<string>, sep: string)
    requires |a| >= 1 && |b| >= 1
    ensures Join(a + b, sep) == Join(a, sep) + sep + Join(b, sep)
  {
    if |a| == 1 {
      assert (a + b)[1..] == b;
    } else {
      assert (a + b)[1..] == a[1..] + b;
      JoinAppend(a[1..], b, sep);
    }
  }

  /** `Split` cuts at the first newline. */
  lemma SplitAtNewline(s: string, k: nat)
    requires k < |s| && s[k] == '\n' && '\n' !in s[..k]
    ensures Split(s) == [s[..k]] + Split(s[k + 1..])
  {
    IndexOfCharPrefix(s, '\n', k);
  }

  /** `SplitConcat` when `x` is a single line. */
  lemma SplitConcatLine(x: string, y: string)
    requires '\n' !in x
    ensures Split(x + "\n" + y) == Split(x) + Split(y)
  {
    var s := x + "\n" + y;
    assert s[..|x|] == x;
    SplitNoNewline(x);
    SplitAtNewline(s, |x|);
    assert s[|x| + 1..] == y;
  }

  /** `SplitConcat` for `x` from the same for what follows its first line. */
  lemma SplitConcatStep(x: string, y: string, k: nat)
    requires k < |x| && x[k] == '\n' && '\n' !in x[..k]
    requires Split(x[k + 1..] + "\n" + y) == Split(x[k + 1..]) + Split(y)
    ensures Split(x + "\n" + y) == Split(x) + Split(y)
  {
    var s := x + "\n" + y;
    JoinedPieces(x, y, k);
    SplitAtNewline(x, k);
    SplitAtNewline(s, k);
    Regroup([x[..k]], Split(x[k + 1..]), Split(y), Split(x), Split(s));
  }

  /** Where the first line of `x` ends, `x + "\n" + y` has the same pieces. */
  lemma JoinedPieces(x: string, y: string, k: nat)
    requires k < |x|
    ensures var s := x + "\n" + y;
      s[..k] == x[..k] && s[k] == x[k] && s[k + 1..] == x[k + 1..] + "\n" + y
  {
  }

  /** A list that starts with `a` and goes on with `b` and `c`, regrouped. */
  lemma Regroup(a: seq<string>, b: seq<string>, c: seq<string>, ab: seq<string>, abc: seq<string>)
    requires ab == a + b && abc == a + (b + c)
    ensures abc == ab + c
  {
  }

  /** Splitting at a newline splits each side independently. */
  lemma {:induction false} SplitConcat(x: string, y: string)
    ensures Split(x + "\n" + y) == Split(x) + Split(y)
    decreases |x|
  {
    var k := IndexOfChar(x, '\n');
    if k == |x| {
      assert x[..k] == x;
      SplitConcatLine(x, y);
    } else {
      SplitConcat(x[k + 1..], y);
      SplitConcatStep(x, y, k);
    }
  }

  /** The first `c` is found where the prefix holds none and `c` stands. */
  lemma {:induction false} IndexOfCharPrefix(s: string, c: char, k: nat)
    requires k < |s| && s[k] == c && c !in s[..k]
    ensures IndexOfChar(s, c) == k
  {
    if k > 0 {
      assert s[1..][..k - 1] == s[..k][1..];
      IndexOfCharPrefix(s[1..], c, k - 1);
    }
  }

  /** A string without newline is one line. */
  lemma SplitNoNewline(x: string)
    requires '\n' !in x
    ensures Split(x) == [x]
  {
    assert x[..|x|] == x;
  }

  /** `Join` followed by `Split` gives the lines back. */
  lemma {:induction false} SplitJoin(ls: seq<string>)
    requires |ls| >= 1
    requires forall i :: 0 <= i < |ls| ==> '\n' !in ls[i]
    ensures Split(Join(ls, "\n")) == ls
  {
    if |ls| == 1 {
      SplitNoNewline(ls[0]);
    } else {
      SplitJoin(ls[1..]);
      SplitConcat(ls[0], Join(ls[1..], "\n"));
      SplitNoNewline(ls[0]);
    }
  }

  /** `Split` followed by `Join` gives the text back. */
  lemma {:induction false} JoinSplit(s: string)
    ensures Join(Split(s), "\n") == s
    decreases |s|
  {
    var k := IndexOfChar(s, '\n');
    if k < |s| {
      var rest := s[k + 1..];
      JoinSplit(rest);
      SplitAtNewline(s, k);
      var lines := [s[..k]] + Split(rest);
      assert lines[1..] == Split(rest);
      assert Join(lines, "\n") == s[..k] + "\n" + Join(Split(rest), "\n");
      assert s == s[..k] + "\n" + rest;
    } else {
      assert s[..k] == s;
      SplitNoNewline(s);
    }
  }

  /** Go's `a < b` on strings. Go compares the UTF-8 bytes, and UTF-8 keeps
      the order of code points, so this is the order of the characters. */
  predicate LexLess(a: string, b: string) {
    if a == [] then b != []
    else if b == [] then false
    else if a[0] != b[0] then a[0] < b[0]
    else LexLess(a[1..], b[1..])
  }

  lemma {:induction false} LexLessIrreflexive(a: string)
    ensures !LexLess(a, a)
  {
    if a != [] {
      LexLessIrreflexive(a[1..]);
    }
  }

  lemma {:induction false} LexLessTransitive(a: string, b: string, c: string)
    requires LexLess(a, b) && LexLess(b, c)
    ensures LexLess(a, c)
  {
    if a != [] && a[0] == b[0] && b[0] == c[0] {
      LexLessTransitive(a[1..], b[1..], c[1..]);
    }
  }

  /** Two different strings are ordered one way or the other. */
  lemma {:induction false} LexLessTotal(a: string, b: string)
    requires a != b
    ensures LexLess(a, b) || LexLess(b, a)
  {
    if a != [] && b != [] && a[0] == b[0] {
      assert a == [a[0]] + a[1..] && b == [b[0]] + b[1..];
      LexLessTotal(a[1..], b[1..]);
    }
  }

  /** The decimal digits of a natural number, as `strconv.Itoa` writes them. */
  function NatToString(n: nat): (r: string)
    ensures |r| >= 1
    ensures forall i :: 0 <= i < |r| ==> '0' <= r[i] <= '9'
  {
    if n < 10 then [Digit(n)] else NatToString(n / 10) + [Digit(n % 10)]
  }

  function Digit(n: nat): (c: char)
    requires n < 10
    ensures '0' <= c <= '9'
  {
    (48 + n) as char
  }

  /** Go's `%d` formatting of an `int`. */
  function IntToString(i: int): string {
    if i < 0 then "-" + NatToString(-i) else NatToString(i)
  }
}
