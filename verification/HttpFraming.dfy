/** HTTP/1.1 message framing on text (sections 2.1 and 6.3 of RFC 9112): lines ended by CRLF, an empty line,
    a body. Stated without reference to the code that prints or parses. */
module HttpFraming {
  import opened Text

  const CRLF: string := "\r\n"
  const HEADER_END: string := "\r\n\r\n"

  /** A body is held as a string or as a vector of bytes. */
  datatype Body = TextBody(text: string) | BytesBody(bytes: string)

  /** A line that can stand in a header: not empty, no CR, no LF. */
  predicate IsLine(line: string) { line != "" && '\r' !in line && '\n' !in line }

  predicate AreLines(lines: seq<string>) { forall i :: 0 <= i < |lines| ==> IsLine(lines[i]) }

  /** The lines, each with its line end. */
  function Printed(lines: seq<string>): string {
    if lines == [] then "" else lines[0] + CRLF + Printed(lines[1..])
  }

  /** The lines of a header without its last two line ends. */
  function LinesOf(header: string): seq<string>
    decreases |header|
  {
    var n := FindText(header, CRLF);
    if n + 2 > |header| then [header] else [header[..n]] + LinesOf(header[n + 2..])
  }

  lemma {:induction false} PrintedConcat(lines: seq<string>, more: seq<string>)
    ensures Printed(lines + more) == Printed(lines) + Printed(more)
    decreases |lines|
  {
    if lines == [] {
      assert lines + more == more;
    } else {
      assert (lines + more)[1..] == lines[1..] + more;
      PrintedConcat(lines[1..], more);
    }
  }

  lemma PrintedSnoc(lines: seq<string>, line: string)
    ensures Printed(lines + [line]) == Printed(lines) + line + CRLF
  {
    PrintedConcat(lines, [line]);
    assert Printed([line]) == line + CRLF + Printed([]);
  }

  lemma NotAPrefix(pattern: string, s: string, i: nat)
    requires i < |pattern| && i < |s| && pattern[i] != s[i]
    ensures !(pattern <= s)
  {
  }

  lemma FindTextSkips(c: char, s: string, pattern: string)
    requires !(pattern <= [c] + s)
    ensures FindText([c] + s, pattern) == 1 + FindText(s, pattern)
  {
    assert ([c] + s)[1..] == s;
  }

  lemma EndAfterLineEnd(next: string)
    requires next != "" && next[0] != '\r'
    ensures FindText(CRLF + next, HEADER_END) == 2 + FindText(next, HEADER_END)
  {
    var second := ['\n'] + next;
    var tail := ['\r'] + second;
    assert CRLF + next == tail;
    NotAPrefix(HEADER_END, tail, 2);
    FindTextSkips('\r', second, HEADER_END);
    NotAPrefix(HEADER_END, second, 0);
    FindTextSkips('\n', next, HEADER_END);
  }

  lemma EndAfterLine(line: string, next: string)
    requires IsLine(line) && next != "" && next[0] != '\r'
    ensures FindText(line + CRLF + next, HEADER_END) == |line| + 2 + FindText(next, HEADER_END)
  {
    assert line + CRLF + next == line + (CRLF + next);
    FindTextAfter(line, CRLF + next, HEADER_END);
    EndAfterLineEnd(next);
  }

  /** The first empty line of a message is where its header ends. */
  lemma {:induction false} FirstHeaderEnd(lines: seq<string>, body: string)
    requires lines != [] && AreLines(lines)
    ensures FindText(Printed(lines) + CRLF + body, HEADER_END) == |Printed(lines)| - 2
    decreases |lines|
  {
    var message := Printed(lines) + CRLF + body;
    if |lines| == 1 {
      assert message == lines[0] + (HEADER_END + body);
      FindTextAfter(lines[0], HEADER_END + body, HEADER_END);
    } else {
      var next := Printed(lines[1..]) + CRLF + body;
      assert next[0] == lines[1][0];
      assert message == lines[0] + CRLF + next;
      EndAfterLine(lines[0], next);
      FirstHeaderEnd(lines[1..], body);
    }
  }

  lemma FirstLineOf(line: string, next: string)
    requires IsLine(line)
    ensures LinesOf(line + (CRLF + next)) == [line] + LinesOf(next)
  {
    var header := line + (CRLF + next);
    FindTextAfter(line, CRLF + next, CRLF);
    assert header[..|line|] == line && header[|line| + 2..] == next;
  }

  lemma {:induction false} LinesOfPrinted(lines: seq<string>)
    requires lines != [] && AreLines(lines)
    ensures LinesOf(Printed(lines)[..|Printed(lines)| - 2]) == lines
    decreases |lines|
  {
    var header := Printed(lines)[..|Printed(lines)| - 2];
    if |lines| == 1 {
      assert header == lines[0] == lines[0] + "";
      FindTextAfter(lines[0], "", CRLF);
    } else {
      var rest := Printed(lines[1..]);
      var next := rest[..|rest| - 2];
      assert header == lines[0] + (CRLF + next);
      FirstLineOf(lines[0], next);
      LinesOfPrinted(lines[1..]);
      assert lines == [lines[0]] + lines[1..];
    }
  }

  /** The message can be taken apart again: header lines and body, whatever bytes the body holds. */
  lemma FramingIsRecoverable(lines: seq<string>, body: string)
    requires lines != [] && AreLines(lines)
    ensures var message := Printed(lines) + CRLF + body;
            var end := FindText(message, HEADER_END);
            && end + 4 <= |message|
            && message[..end] == Printed(lines)[..|Printed(lines)| - 2]
            && LinesOf(message[..end]) == lines
            && message[end + 4..] == body
  {
    FirstHeaderEnd(lines, body);
    LinesOfPrinted(lines);
    var message := Printed(lines) + CRLF + body;
    assert message[|Printed(lines)| + 2..] == body;
    assert message[..|Printed(lines)| - 2] == Printed(lines)[..|Printed(lines)| - 2];
  }
}
