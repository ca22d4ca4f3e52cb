/** Searching in strings. */
module Text {
  import opened Sequences

  /** Where c first occurs in s; |s| if nowhere. */
  function Find(s: string, c: char): (i: nat)
    ensures i <= |s|
  {
    if s == "" || s[0] == c then 0 else 1 + Find(s[1..], c)
  }

  lemma {:induction false} FindIs(s: string, c: char, i: nat)
    requires i <= |s| && (forall j :: 0 <= j < i ==> s[j] != c) && (i < |s| ==> s[i] == c)
    ensures Find(s, c) == i
    decreases |s|
  {
    if s != "" && s[0] != c {
      FindIs(s[1..], c, i - 1);
    }
  }

  lemma {:induction false} FindFinds(s: string, c: char)
    ensures forall j :: 0 <= j < Find(s, c) ==> s[j] != c
    ensures Find(s, c) < |s| ==> s[Find(s, c)] == c
    decreases |s|
  {
    if s != "" && s[0] != c {
      FindFinds(s[1..], c);
      assert forall j :: 0 < j < Find(s, c) ==> s[j] == s[1..][j - 1];
    }
  }

  /** The first occurrence of c after a part that has none. */
  lemma FindAfter(before: string, c: char, after: string)
    requires c !in before
    ensures Find(before + [c] + after, c) == |before|
  {
    FindIs(before + [c] + after, c, |before|);
  }

  /** Where the pattern first occurs in s, as std::search finds it; |s| if nowhere. */
  function FindText(s: string, pattern: string): (i: nat)
    ensures i <= |s|
  {
    if pattern <= s || s == "" then 0 else 1 + FindText(s[1..], pattern)
  }

  /** Nothing is found in a part that does not hold the pattern's first letter. */
  lemma {:induction false} FindTextAfter(before: string, s: string, pattern: string)
    requires pattern != "" && pattern[0] !in before
    ensures FindText(before + s, pattern) == |before| + FindText(s, pattern)
    decreases |before|
  {
    if before == "" {
      assert before + s == s;
    } else {
      assert (before + s)[0] == before[0] && (before + s)[1..] == before[1..] + s;
      FindTextAfter(before[1..], s, pattern);
    }
  }

  /** The pieces between the delimiters; one more than there are delimiters. */
  function Split(s: string, delimiter: char): (pieces: seq<string>)
    ensures |pieces| > 0
    decreases |s|
  {
    var n := Find(s, delimiter);
    if n == |s| then [s] else [s[..n]] + Split(s[n + 1..], delimiter)
  }

  lemma SplitAtFirst(s: string, delimiter: char)
    requires Find(s, delimiter) < |s|
    ensures |Split(s, delimiter)| > 1
    ensures Split(s, delimiter)[0] == s[..Find(s, delimiter)]
    ensures Split(s, delimiter)[1..] == Split(s[Find(s, delimiter) + 1..], delimiter)
  {
    HeadAndTail(s[..Find(s, delimiter)], Split(s[Find(s, delimiter) + 1..], delimiter));
  }

  lemma SplitAfter(before: string, delimiter: char, after: string)
    requires delimiter !in before
    ensures Split(before + [delimiter] + after, delimiter) == [before] + Split(after, delimiter)
  {
    var s := before + [delimiter] + after;
    FindAfter(before, delimiter, after);
    assert s[..|before|] == before && s[|before| + 1..] == after;
  }

  function Join(pieces: seq<string>, delimiter: char): string
    requires pieces != []
  {
    if |pieces| == 1 then pieces[0] else pieces[0] + [delimiter] + Join(pieces[1..], delimiter)
  }

  lemma {:induction false} SplitOfJoin(pieces: seq<string>, delimiter: char)
    requires pieces != [] && forall i :: 0 <= i < |pieces| ==> delimiter !in pieces[i]
    ensures Split(Join(pieces, delimiter), delimiter) == pieces
    decreases |pieces|
  {
    if |pieces| == 1 {
      FindIs(pieces[0], delimiter, |pieces[0]|);
    } else {
      SplitOfJoin(pieces[1..], delimiter);
      SplitAfter(pieces[0], delimiter, Join(pieces[1..], delimiter));
    }
  }

  /** The pattern stands at position i. */
  predicate Occurs(s: string, pattern: string, i: nat) { i <= |s| && pattern <= s[i..] }

  lemma {:induction false} FindTextIs(s: string, pattern: string, i: nat)
    requires i < |s| && Occurs(s, pattern, i) && forall j :: 0 <= j < i ==> !Occurs(s, pattern, j)
    ensures FindText(s, pattern) == i
    decreases |s|
  {
    assert s[0..] == s;
    if i > 0 {
      assert !Occurs(s, pattern, 0);
      assert s[1..][i - 1..] == s[i..];
      forall j | 0 <= j < i - 1 ensures !Occurs(s[1..], pattern, j) {
        assert s[1..][j..] == s[j + 1..] && !Occurs(s, pattern, j + 1);
      }
      FindTextIs(s[1..], pattern, i - 1);
    }
  }

  lemma {:induction false} FindTextFinds(s: string, pattern: string)
    ensures forall j :: 0 <= j < FindText(s, pattern) ==> !Occurs(s, pattern, j)
    ensures FindText(s, pattern) < |s| ==> Occurs(s, pattern, FindText(s, pattern))
    decreases |s|
  {
    assert s[0..] == s;
    if !(pattern <= s) && s != "" {
      FindTextFinds(s[1..], pattern);
      var n := FindText(s[1..], pattern);
      forall j | 0 <= j < n + 1 ensures !Occurs(s, pattern, j) {
        if j > 0 { assert s[1..][j - 1..] == s[j..] && !Occurs(s[1..], pattern, j - 1); }
      }
      if n < |s[1..]| { assert s[1..][n..] == s[n + 1..]; }
    }
  }

  /** Where c last occurs in s; |s| if nowhere. */
  function FindLast(s: string, c: char): (i: nat)
    ensures i <= |s|
  {
    if s == "" then 0
    else if s[|s| - 1] == c then |s| - 1
    else
      var i := FindLast(s[..|s| - 1], c);
      if i == |s| - 1 then |s| else i
  }

  lemma {:induction false} FindLastIs(s: string, c: char, i: nat)
    requires i < |s| && s[i] == c && forall j :: i < j < |s| ==> s[j] != c
    ensures FindLast(s, c) == i
    decreases |s|
  {
    if i < |s| - 1 { FindLastIs(s[..|s| - 1], c, i); }
  }
}
