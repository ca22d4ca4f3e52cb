/** Log file names and what stamping them again does. */
module LogFileNames {
  import opened Text

  const LOG_FILE_EXTENSION: string := ".log"
  const LOG_FILE_POSTFIX: string := "_logging_on_"

  /** The name up to its last '.'. */
  function Stem(fileName: string): string { fileName[..FindLast(fileName, '.')] }

  predicate HasMarker(s: string) { FindText(s, LOG_FILE_POSTFIX) < |s| }

  /** The stem up to its first marker. */
  function Base(fileName: string): string { Stem(fileName)[..FindText(Stem(fileName), LOG_FILE_POSTFIX)] }

  /** createLogFileName at a given time. */
  function Stamped(fileName: string, time: string): string {
    Base(fileName) + LOG_FILE_POSTFIX + time + LOG_FILE_EXTENSION
  }

  method CreateLogFileName(fileName: string, currentTimeAndDate: string) returns (buffer: string)
    ensures buffer == Stamped(fileName, currentTimeAndDate)
  {
    var extensionBegin := FindLast(fileName, '.');
    var newFileName := if extensionBegin == |fileName| then fileName else fileName[..extensionBegin];
    assert fileName[..|fileName|] == fileName && newFileName == Stem(fileName);
    if FindText(newFileName, LOG_FILE_POSTFIX) != |newFileName| {
      newFileName := newFileName[..FindText(newFileName, LOG_FILE_POSTFIX)];
    }
    assert newFileName == Base(fileName);
    buffer := "";
    buffer := buffer + newFileName;
    buffer := buffer + LOG_FILE_POSTFIX;
    buffer := buffer + currentTimeAndDate;
    buffer := buffer + LOG_FILE_EXTENSION;
  }

  lemma StemOfStamped(front: string)
    ensures Stem(front + LOG_FILE_EXTENSION) == front
  {
    FindLastIs(front + LOG_FILE_EXTENSION, '.', |front|);
  }

  /** Appending the marker to b creates no earlier one. */
  ghost predicate Settled(b: string) {
    forall q :: 0 <= q < |b| ==> !Occurs(b + LOG_FILE_POSTFIX, LOG_FILE_POSTFIX, q)
  }

  lemma OccursInPrefix(s: string, t: string, q: nat)
    requires q + |LOG_FILE_POSTFIX| <= |s| <= |t| && s <= t
    ensures Occurs(s, LOG_FILE_POSTFIX, q) <==> Occurs(t, LOG_FILE_POSTFIX, q)
  {
    var n := |LOG_FILE_POSTFIX|;
    assert s[q..q + n] == t[q..q + n];
    assert LOG_FILE_POSTFIX <= s[q..] <==> s[q..][..n] == LOG_FILE_POSTFIX;
    assert LOG_FILE_POSTFIX <= t[q..] <==> t[q..][..n] == LOG_FILE_POSTFIX;
    assert s[q..][..n] == s[q..q + n] && t[q..][..n] == t[q..q + n];
  }

  /** What a settled base is stamped with does not change where the marker is found. */
  lemma MarkerOfSettled(b: string, rest: string)
    requires Settled(b)
    ensures FindText(b + LOG_FILE_POSTFIX + rest, LOG_FILE_POSTFIX) == |b|
  {
    var s := b + LOG_FILE_POSTFIX;
    var t := s + rest;
    assert t[|b|..] == LOG_FILE_POSTFIX + rest;
    forall q | 0 <= q < |b| ensures !Occurs(t, LOG_FILE_POSTFIX, q) {
      OccursInPrefix(s, t, q);
    }
    FindTextIs(t, LOG_FILE_POSTFIX, |b|);
  }

  lemma OccursSplits(s: string, n: nat)
    requires Occurs(s, LOG_FILE_POSTFIX, n)
    ensures n + |LOG_FILE_POSTFIX| <= |s|
    ensures s == s[..n] + LOG_FILE_POSTFIX + s[n + |LOG_FILE_POSTFIX|..]
    ensures s[..n] + LOG_FILE_POSTFIX <= s
  {
    var m := |LOG_FILE_POSTFIX|;
    assert s[n..] == LOG_FILE_POSTFIX + s[n..][m..];
    assert s == s[..n] + s[n..];
  }

  /** What stands before the first marker is settled. */
  lemma CutAtMarkerIsSettled(s: string)
    requires HasMarker(s)
    ensures var n := FindText(s, LOG_FILE_POSTFIX);
            && n + |LOG_FILE_POSTFIX| <= |s|
            && Settled(s[..n])
            && s == s[..n] + LOG_FILE_POSTFIX + s[n + |LOG_FILE_POSTFIX|..]
  {
    var n, p := FindText(s, LOG_FILE_POSTFIX), LOG_FILE_POSTFIX;
    FindTextFinds(s, p);
    OccursSplits(s, n);
    forall q | 0 <= q < n ensures !Occurs(s[..n] + p, p, q) {
      OccursInPrefix(s[..n] + p, s, q);
    }
  }

  predicate EndsInOverlap(b: string) { |b| >= 11 && b[|b| - 11..] == LOG_FILE_POSTFIX[..11] }

  lemma OverlapIsOneCharacter(b: string, q: nat)
    requires !HasMarker(b) && q < |b| && Occurs(b + LOG_FILE_POSTFIX, LOG_FILE_POSTFIX, q)
    ensures q == |b| - 11 && EndsInOverlap(b)
  {
    var s, p := b + LOG_FILE_POSTFIX, LOG_FILE_POSTFIX;
    var d := |b| - q;
    if d >= 12 {
      OccursInPrefix(b, s, q);
      FindTextFinds(b, p);
      assert false;
    }
    assert forall i :: 0 <= i < 12 ==> s[q..][i] == p[i];
    assert s[q + d] == p[0] && s[q..][d] == s[q + d];
    assert p[d] == '_';
    assert s[q..][9] == s[q + 9] == p[9];
    assert s[|b| + 1] == p[1];
    assert d == 11;
    assert b[|b| - 11..] == s[q..][..11];
  }

  /** The marker overlaps itself by one character only, so a text without a marker is settled unless it ends
      in all but the last character of one. */
  lemma SettledUnlessOverlap(b: string)
    requires !HasMarker(b)
    ensures Settled(b) <==> !EndsInOverlap(b)
    ensures EndsInOverlap(b) ==> Occurs(b + LOG_FILE_POSTFIX, LOG_FILE_POSTFIX, |b| - 11)
  {
    var s := b + LOG_FILE_POSTFIX;
    FindTextFinds(b, LOG_FILE_POSTFIX);
    if EndsInOverlap(b) {
      assert s[|b| - 11..] == LOG_FILE_POSTFIX[..11] + LOG_FILE_POSTFIX;
      assert Occurs(s, LOG_FILE_POSTFIX, |b| - 11);
    }
    forall q | 0 <= q < |b| && Occurs(s, LOG_FILE_POSTFIX, q) ensures EndsInOverlap(b) {
      OverlapIsOneCharacter(b, q);
    }
  }

  /** The base of a stamped name. */
  lemma BaseOfStamped(fileName: string, time: string)
    ensures Stem(Stamped(fileName, time)) == Base(fileName) + LOG_FILE_POSTFIX + time
    ensures HasMarker(Stem(Stamped(fileName, time)))
    ensures Settled(Base(Stamped(fileName, time)))
    ensures Settled(Base(fileName)) ==> Base(Stamped(fileName, time)) == Base(fileName)
  {
    var b := Base(fileName);
    var stem := b + LOG_FILE_POSTFIX + time;
    StemOfStamped(stem);
    FindTextFinds(stem, LOG_FILE_POSTFIX);
    assert stem[|b|..] == LOG_FILE_POSTFIX + time;
    assert Occurs(stem, LOG_FILE_POSTFIX, |b|);
    CutAtMarkerIsSettled(stem);
    if Settled(b) {
      MarkerOfSettled(b, time);
      assert stem[..|b|] == b;
    }
  }

  /** A name that was stamped does not grow or drift: stamping it twice is stamping it once, later. */
  lemma StampedNamesAreStable(fileName: string, time0: string, time1: string, time2: string)
    ensures var name := Stamped(fileName, time0); Stamped(Stamped(name, time1), time2) == Stamped(name, time2)
  {
    BaseOfStamped(fileName, time0);
    BaseOfStamped(Stamped(fileName, time0), time1);
  }

  /** The names whose first stamping is not stable. */
  predicate Drifts(fileName: string) { !HasMarker(Stem(fileName)) && EndsInOverlap(Stem(fileName)) }

  lemma SettledUnlessDrifting(fileName: string)
    ensures Settled(Base(fileName)) <==> !Drifts(fileName)
  {
    var stem := Stem(fileName);
    if HasMarker(stem) {
      CutAtMarkerIsSettled(stem);
    } else {
      assert stem[..|stem|] == stem;
      SettledUnlessOverlap(stem);
    }
  }

  /** Behind a text that ends in the overlap the first marker starts within that text. */
  lemma MarkerInOverlap(b: string, time: string)
    requires !HasMarker(b) && EndsInOverlap(b)
    ensures FindText(b + LOG_FILE_POSTFIX + time, LOG_FILE_POSTFIX) == |b| - 11
  {
    SettledUnlessOverlap(b);
    var s, t := b + LOG_FILE_POSTFIX, b + LOG_FILE_POSTFIX + time;
    OccursInPrefix(s, t, |b| - 11);
    forall q | 0 <= q < |b| - 11 ensures !Occurs(t, LOG_FILE_POSTFIX, q) {
      OccursInPrefix(s, t, q);
      if Occurs(s, LOG_FILE_POSTFIX, q) { OverlapIsOneCharacter(b, q); }
    }
    FindTextIs(t, LOG_FILE_POSTFIX, |b| - 11);
  }

  lemma CutWithin(b: string, marker: string, time: string, n: nat)
    requires n <= |b|
    ensures (b + marker + time)[..n] == b[..n] && b == b[..n] + b[n..]
  {
  }

  lemma DriftLosesEnd(fileName: string, time: string)
    requires Drifts(fileName)
    ensures Base(fileName) == Base(Stamped(fileName, time)) + LOG_FILE_POSTFIX[..11]
  {
    var b := Base(fileName);
    assert Stem(fileName)[..|Stem(fileName)|] == Stem(fileName);
    BaseOfStamped(fileName, time);
    MarkerInOverlap(b, time);
    CutWithin(b, LOG_FILE_POSTFIX, time, |b| - 11);
  }

  /** For a raw name the same holds exactly when its stem has a marker or does not end in "_logging_on";
      otherwise the second stamping loses those letters. */
  lemma RawNamesAreStableUnlessDrifting(fileName: string, time1: string, time2: string)
    ensures Stamped(Stamped(fileName, time1), time2) == Stamped(fileName, time2) <==> !Drifts(fileName)
    ensures Drifts(fileName) ==> Base(fileName) == Base(Stamped(fileName, time1)) + LOG_FILE_POSTFIX[..11]
  {
    SettledUnlessDrifting(fileName);
    BaseOfStamped(fileName, time1);
    if Drifts(fileName) {
      DriftLosesEnd(fileName, time1);
    }
  }

  lemma Regrouped(base: string, time: string)
    ensures (base + LOG_FILE_POSTFIX[..11]) + LOG_FILE_POSTFIX + time + LOG_FILE_EXTENSION
         == base + LOG_FILE_POSTFIX + (LOG_FILE_POSTFIX[1..] + time) + LOG_FILE_EXTENSION
  {
    var p := LOG_FILE_POSTFIX;
    assert p[..11] + p == p + p[1..];
    assert base + p[..11] + p == base + (p[..11] + p);
    assert base + p + (p[1..] + time) == base + (p + p[1..]) + time;
  }

  /** A stamped name from its settled base; a drifting path leaves the end of a marker before the time. */
  lemma StampedIsKeyed(fileName: string, time: string)
    ensures Stamped(fileName, time)
         == Base(Stamped(fileName, time)) + LOG_FILE_POSTFIX
            + ((if Drifts(fileName) then LOG_FILE_POSTFIX[1..] else "") + time) + LOG_FILE_EXTENSION
  {
    if Drifts(fileName) {
      DriftLosesEnd(fileName, time);
      Regrouped(Base(Stamped(fileName, time)), time);
    } else {
      SettledUnlessDrifting(fileName);
      BaseOfStamped(fileName, time);
      assert "" + time == time;
    }
  }

  lemma {:induction false} NoDotFound(s: string)
    requires '.' !in s
    ensures FindLast(s, '.') == |s|
    decreases |s|
  {
    if s == "" {
    } else {
      NoDotFound(s[..|s| - 1]);
    }
  }

  /** A raw name keeps what stands before its last '.', or all of it, and gets the time and the extension. */
  lemma RawNameIsStamped(stem: string, extension: string, time: string)
    requires !HasMarker(stem) && '.' !in extension
    ensures Stamped(stem + "." + extension, time) == stem + "_logging_on_" + time + ".log"
    ensures '.' !in stem ==> Stamped(stem, time) == stem + "_logging_on_" + time + ".log"
  {
    var name := stem + "." + extension;
    FindLastIs(name, '.', |stem|);
    assert name[..|stem|] == stem && stem[..|stem|] == stem;
    if '.' !in stem { NoDotFound(stem); }
  }
}
