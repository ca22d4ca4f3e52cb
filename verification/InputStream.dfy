/** A std::istream over a string, as far as getline and operator>> go. */
module InputStreams {
  import opened Decimal
  import opened Text

  datatype Stream = Stream(rest: string, eof: bool, fail: bool) {
    predicate Good() { !eof && !fail }
  }

  function Open(text: string): Stream { Stream(text, false, false) }

  /** std::getline into a string that holds line. A stream that is not good leaves the string as it is. */
  function GetLine(s: Stream, line: string, delimiter: char): (Stream, string) {
    if !s.Good() then (s.(fail := true), line)
    else
      var n := Find(s.rest, delimiter);
      if n < |s.rest| then (Open(s.rest[n + 1..]), s.rest[..n])
      else (Stream("", true, s.rest == ""), s.rest)
  }

  function WordEnd(s: string): (n: nat)
    ensures n <= |s|
  {
    if s == "" || IsSpace(s[0]) then 0 else 1 + WordEnd(s[1..])
  }

  /** operator>> into a string that holds word. */
  function ReadWord(s: Stream, word: string): (Stream, string) {
    if !s.Good() then (s.(fail := true), word)
    else
      var t := SkipSpace(s.rest);
      if t == "" then (Stream("", true, true), word)
      else (Stream(t[WordEnd(t)..], WordEnd(t) == |t|, false), t[..WordEnd(t)])
  }

  class InputStream {
    var stream: Stream

    constructor (text: string)
      ensures stream == Open(text)
    {
      stream := Open(text);
    }

    method ReadLine(line: string, delimiter: char) returns (result: string)
      modifies this
      ensures (stream, result) == GetLine(old(stream), line, delimiter)
    {
      if !stream.Good() {
        stream := stream.(fail := true);
        return line;
      }
      var n := Find(stream.rest, delimiter);
      if n == |stream.rest| {
        result := stream.rest;
        stream := Stream("", true, result == "");
      } else {
        result := stream.rest[..n];
        stream := Open(stream.rest[n + 1..]);
      }
    }

    method ReadToken(word: string) returns (result: string)
      modifies this
      ensures (stream, result) == ReadWord(old(stream), word)
    {
      if !stream.Good() {
        stream := stream.(fail := true);
        return word;
      }
      var t := SkipSpace(stream.rest);
      if t == "" {
        stream := Stream("", true, true);
        return word;
      }
      result := t[..WordEnd(t)];
      stream := Stream(t[WordEnd(t)..], WordEnd(t) == |t|, false);
    }
  }

  predicate IsWord(s: string) { forall i :: 0 <= i < |s| ==> !IsSpace(s[i]) }

  lemma {:induction false} WordEndOf(word: string, rest: string)
    requires IsWord(word) && (rest == "" || IsSpace(rest[0]))
    ensures WordEnd(word + rest) == |word|
    decreases |word|
  {
    if word == "" {
      assert word + rest == rest;
    } else {
      assert (word + rest)[1..] == word[1..] + rest;
      WordEndOf(word[1..], rest);
    }
  }

  /** A word, after white space or not, is read whole. */
  lemma {:induction false} ReadsWord(space: string, word: string, rest: string)
    requires word != "" && IsWord(word) && (rest == "" || IsSpace(rest[0]))
    requires forall i :: 0 <= i < |space| ==> IsSpace(space[i])
    ensures ReadWord(Open(space + word + rest), "") == (Stream(rest, rest == "", false), word)
    decreases |space|
  {
    var t := space + word + rest;
    if space == "" {
      assert t == word + rest;
      WordEndOf(word, rest);
    } else {
      assert t[1..] == space[1..] + word + rest;
      ReadsWord(space[1..], word, rest);
    }
  }

  lemma {:induction false} SkipsAllSpace(space: string)
    requires forall i :: 0 <= i < |space| ==> IsSpace(space[i])
    ensures SkipSpace(space) == ""
    decreases |space|
  {
    if space == "" {
    } else {
      SkipsAllSpace(space[1..]);
    }
  }

  /** Reading lines from a good stream gives the pieces of its text one after the other, and the stream
      stays good until the last of them. */
  lemma LinesArePieces(text: string, line: string, delimiter: char)
    ensures var pieces, r := Split(text, delimiter), GetLine(Open(text), line, delimiter);
            && r.1 == pieces[0]
            && (|pieces| == 1 ==> pieces == [text] && !r.0.Good() && (r.0.fail <==> text == ""))
            && (|pieces| > 1 ==> r.0 == Open(r.0.rest) && |r.0.rest| < |text|
                                 && Split(r.0.rest, delimiter) == pieces[1..])
  {
    var n := Find(text, delimiter);
    if n < |text| { SplitAtFirst(text, delimiter); }
  }
}
