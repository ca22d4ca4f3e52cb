/** The response composer. */
module HttpResponse {
  import opened Wrappers
  import opened Decimal
  import opened Text
  import opened HttpFraming
  import opened HttpMessageLength

  datatype Field = Field(fieldName: string, value: string)

  datatype ComposeError = NoSocket

  function FieldLines(fields: seq<Field>): seq<string> {
    seq(|fields|, i requires 0 <= i < |fields| => fields[i].fieldName + ": " + fields[i].value)
  }

  predicate NoLineEnd(s: string) { '\r' !in s && '\n' !in s }

  class Response {
    var hasSocket: bool
    var htmlVersion: string
    var statusText: string                       // number and phrase of the status code, as in its table
    var contentTypeText: Option<string>          // its entry in contentTypeMap, if any
    var contentTypeAdditionalInfo: string
    var contentLength: Option<nat>
    var body: Body
    var otherHeaderFields: seq<Field>

    constructor (statusText: string, contentTypeText: Option<string>, body: Body)
      ensures hasSocket && htmlVersion == "HTTP/1.1" && contentTypeAdditionalInfo == "" && contentLength.None?
      ensures this.statusText == statusText && this.contentTypeText == contentTypeText && this.body == body
      ensures otherHeaderFields == []
    {
      hasSocket, htmlVersion, contentTypeAdditionalInfo, contentLength := true, "HTTP/1.1", "", None;
      this.statusText, this.contentTypeText, this.body, otherHeaderFields := statusText, contentTypeText, body, [];
    }

    function Payload(): string
      reads this
    {
      match body
      case TextBody(s) => s
      case BytesBody(v) => v
    }

    function DeclaredLength(): nat
      reads this
    {
      if contentLength.Some? then contentLength.value else |Payload()|
    }

    function StatusLine(): string
      reads this
    {
      htmlVersion + " " + statusText
    }

    function LinesBeforeLength(): seq<string>
      reads this
    {
      [StatusLine()]
      + (if contentTypeText.Some? then ["Content-Type: " + contentTypeText.value] else [])
      + ["Server: HarborCLS"] + FieldLines(otherHeaderFields)
    }

    function Lines(): seq<string>
      reads this
    {
      LinesBeforeLength() + [CONTENT_LENGTH + ": " + NatText(DeclaredLength())]
      + (if contentTypeAdditionalInfo != "" then [contentTypeAdditionalInfo] else [])
    }

    /** The parts of the header that the caller supplies hold no line ends. */
    predicate PlainHeader()
      reads this
    {
      && NoLineEnd(htmlVersion) && NoLineEnd(statusText) && NoLineEnd(contentTypeAdditionalInfo)
      && (contentTypeText.Some? ==> NoLineEnd(contentTypeText.value))
      && forall i :: 0 <= i < |otherHeaderFields| ==>
           NoLineEnd(otherHeaderFields[i].fieldName) && NoLineEnd(otherHeaderFields[i].value)
    }

    /** The whole text. */
    function Composed(): string
      reads this
    {
      Printed(Lines()) + CRLF + Payload()
    }

    method GenerateHeader(bodySize: nat) returns (header: string)
      requires bodySize == |Payload()|
      ensures header == Printed(Lines()) + CRLF
    {
      header := AddLine("", htmlVersion + " " + statusText, []);
      ghost var lines := [htmlVersion + " " + statusText];
      if contentTypeText.Some? {
        header := AddLine(header, "Content-Type: " + contentTypeText.value, lines);
        lines := lines + ["Content-Type: " + contentTypeText.value];
      }
      header := AddLine(header, "Server: HarborCLS", lines);
      lines := lines + ["Server: HarborCLS"];
      var fields := PrintFields();
      PrintedConcat(lines, FieldLines(otherHeaderFields));
      header := header + fields;
      assert lines + FieldLines(otherHeaderFields) == LinesBeforeLength();
      header := GenerateHeaderEnd(header, bodySize);
    }

    method GenerateHeaderEnd(start: string, bodySize: nat) returns (header: string)
      requires bodySize == |Payload()| && start == Printed(LinesBeforeLength())
      ensures header == Printed(Lines()) + CRLF
    {
      var length := if contentLength.Some? then contentLength.value else bodySize;
      header := AddLine(start, CONTENT_LENGTH + ": " + NatText(length), LinesBeforeLength());
      if contentTypeAdditionalInfo != "" {
        header := AddLine(header, contentTypeAdditionalInfo,
                          LinesBeforeLength() + [CONTENT_LENGTH + ": " + NatText(length)]);
      } else {
        assert Lines() == LinesBeforeLength() + [CONTENT_LENGTH + ": " + NatText(length)];
      }
      header := header + CRLF;
    }

    /** header += line + separator */
    static method AddLine(header: string, line: string, ghost lines: seq<string>) returns (longer: string)
      requires header == Printed(lines)
      ensures longer == Printed(lines + [line])
    {
      PrintedSnoc(lines, line);
      longer := header + line + CRLF;
    }

    method PrintFields() returns (text: string)
      ensures text == Printed(FieldLines(otherHeaderFields))
    {
      text := "";
      ghost var lines := FieldLines(otherHeaderFields);
      for i := 0 to |otherHeaderFields|
        invariant text == Printed(lines[..i])
      {
        var field := otherHeaderFields[i];
        assert lines[..i + 1] == lines[..i] + [lines[i]];
        PrintedSnoc(lines[..i], lines[i]);
        text := text + (field.fieldName + ": " + field.value + CRLF);
      }
      assert lines[..|lines|] == lines;
    }

    /** Without a socket the composer throws. A body of bytes is moved out: what is left of it is not
        specified. */
    method Compose() returns (result: Result<string, ComposeError>)
      modifies this`body
      ensures !old(hasSocket) ==> result == Err(NoSocket) && body == old(body)
      ensures old(hasSocket) ==> result == Ok(old(Composed()))
      ensures old(body).TextBody? ==> body == old(body)
    {
      if !hasSocket {
        return Err(NoSocket);
      }
      var payload := Payload();
      var header := GenerateHeader(|payload|);
      if body.BytesBody? {
        var left: string := *;
        body := BytesBody(left);
      }
      result := Ok(header + payload);
    }
  }

  // ---- Reading a composed response ----

  lemma HeaderLinesArePlain(r: Response)
    requires r.PlainHeader()
    ensures AreLines(r.Lines())
  {
    NoSpecialInText(r.DeclaredLength(), '\r');
    NoSpecialInText(r.DeclaredLength(), '\n');
  }

  predicate AllAgree(lines: seq<string>, n: nat) { forall k :: 0 <= k < |lines| ==> Agrees(lines[k], n) }

  /** The lines after the one that gives the length. */
  function LinesAfterLength(r: Response): seq<string>
    reads r
  {
    if r.contentTypeAdditionalInfo != "" then [r.contentTypeAdditionalInfo] else []
  }

  /** What a caller has to see to for the body to be framed: the status allows for a body or there is none;
      contentLength is unset or right; no field of the caller's, and not the additional line, is folded, names a
      transfer encoding or gives another length. */
  predicate FramesItsBody(r: Response)
    reads r
  {
    var n := |r.Payload()|;
    if HasNoBody(r.StatusLine()) then n == 0
    else
      && (r.contentLength.Some? ==> r.contentLength.value == n)
      && AllAgree(FieldLines(r.otherHeaderFields), n)
      && AllAgree(LinesAfterLength(r), n)
  }

  lemma LengthIsGiven(r: Response)
    ensures Lengths(r.Lines()[1..]) != []
  {
    var k := |r.LinesBeforeLength()| - 1;
    assert r.Lines()[1..][k] == CONTENT_LENGTH + ": " + NatText(r.DeclaredLength());
    PrintedLength(r.DeclaredLength(), 0);
    SomeLengthIsGiven(r.Lines()[1..], k);
  }

  lemma BothAgree(a: seq<string>, b: seq<string>, n: nat)
    ensures AllAgree(a + b, n) <==> AllAgree(a, n) && AllAgree(b, n)
  {
    if AllAgree(a + b, n) {
      forall k | 0 <= k < |a| ensures Agrees(a[k], n) { assert (a + b)[k] == a[k]; }
      forall k | 0 <= k < |b| ensures Agrees(b[k], n) { assert (a + b)[|a| + k] == b[k]; }
    }
  }

  /** The lines that the composer writes of itself before the caller's fields. */
  function OwnLines(r: Response): seq<string>
    reads r
  {
    (if r.contentTypeText.Some? then ["Content-Type: " + r.contentTypeText.value] else []) + ["Server: HarborCLS"]
  }

  lemma ServerLineAgrees(n: nat)
    ensures Agrees("Server: HarborCLS", n)
  {
    OtherNamesAgree("Server", "HarborCLS", n);
    assert "Server: HarborCLS" == "Server" + ": " + "HarborCLS";
  }

  lemma ContentTypeLineAgrees(value: string, n: nat)
    ensures Agrees("Content-Type: " + value, n)
  {
    OtherNamesAgree("Content-Type", value, n);
    assert "Content-Type: " + value == "Content-Type" + ": " + value;
  }

  lemma OneAgrees(line: string, n: nat)
    ensures AllAgree([line], n) <==> Agrees(line, n)
  {
    assert [line][0] == line;
  }

  lemma OwnLinesAgree(r: Response, n: nat)
    ensures AllAgree(OwnLines(r), n)
  {
    var kind := if r.contentTypeText.Some? then ["Content-Type: " + r.contentTypeText.value] else [];
    BothAgree(kind, ["Server: HarborCLS"], n);
    ServerLineAgrees(n);
    OneAgrees("Server: HarborCLS", n);
    if r.contentTypeText.Some? {
      ContentTypeLineAgrees(r.contentTypeText.value, n);
      OneAgrees(kind[0], n);
    }
  }

  /** All lines agree on the body's length exactly when the caller's do and the declared length is that. */
  lemma AllLinesAgree(r: Response, n: nat)
    ensures AllAgree(r.Lines()[1..], n) <==>
            && n == r.DeclaredLength()
            && AllAgree(FieldLines(r.otherHeaderFields), n)
            && AllAgree(LinesAfterLength(r), n)
  {
    var own, fields := OwnLines(r), FieldLines(r.otherHeaderFields);
    var length := CONTENT_LENGTH + ": " + NatText(r.DeclaredLength());
    assert r.Lines()[1..] == ((own + fields) + [length]) + LinesAfterLength(r);
    BothAgree((own + fields) + [length], LinesAfterLength(r), n);
    BothAgree(own + fields, [length], n);
    BothAgree(own, fields, n);
    OwnLinesAgree(r, n);
    PrintedLength(r.DeclaredLength(), n);
    OneAgrees(length, n);
  }

  lemma LengthOfResponse(r: Response)
    ensures r.Lines() != []
    ensures MessageLength(r.Lines()) == Some(|r.Payload()|) <==> FramesItsBody(r)
  {
    assert r.Lines()[0] == r.StatusLine();
    if !HasNoBody(r.StatusLine()) {
      LengthIsGiven(r);
      LengthIsWhatAllAgreeOn(r.Lines(), |r.Payload()|);
      AllLinesAgree(r, |r.Payload()|);
    }
  }

  /** A composed response can be taken apart: the first empty line is the end of its header, the lines of
      the header are the ones that were meant, and the rest is the body. A recipient takes that rest for the
      body if and only if the caller has seen to it. */
  lemma ResponseFraming(r: Response)
    requires r.PlainHeader()
    ensures var message := r.Composed();
            var end := FindText(message, HEADER_END);
            && end + 4 <= |message|
            && LinesOf(message[..end]) == r.Lines()
            && message[end + 4..] == r.Payload()
            && (MessageLength(LinesOf(message[..end])) == Some(|message[end + 4..]|) <==> FramesItsBody(r))
  {
    HeaderLinesArePlain(r);
    FramingIsRecoverable(r.Lines(), r.Payload());
    LengthOfResponse(r);
  }

  /** For example, with an additional line that gives the length 7, a body of any other length is not framed. */
  lemma AdditionalLineCanMisframe(r: Response)
    requires r.contentTypeAdditionalInfo == "Content-Length: 7" && |r.Payload()| != 7 && !HasNoBody(r.StatusLine())
    ensures r.Lines() != [] && MessageLength(r.Lines()) != Some(|r.Payload()|)
  {
    LengthOfResponse(r);
    PrintedLength(7, |r.Payload()|);
    assert CONTENT_LENGTH + ": " + NatText(7) == "Content-Length: 7";
    OneAgrees("Content-Length: 7", |r.Payload()|);
  }

  // ---- What a composed response says ----

  /** The lines of the header of a message. */
  function HeaderLines(message: string): seq<string> { LinesOf(message[..FindText(message, HEADER_END)]) }

  /** A field's name is what stands before the first ':', its value what follows after one blank. */
  function FieldOf(line: string): (string, string) {
    var n := Find(line, ':');
    if n + 2 <= |line| then (line[..n], line[n + 2..]) else (line, "")
  }

  function FieldsOf(lines: seq<string>): (fields: seq<(string, string)>)
    ensures |fields| == |lines|
  {
    seq(|lines|, i requires 0 <= i < |lines| => FieldOf(lines[i]))
  }

  lemma FieldIsRead(name: string, value: string)
    requires ':' !in name
    ensures FieldOf(name + ": " + value) == (name, value)
  {
    var line := name + ": " + value;
    assert line == name + [':'] + (" " + value);
    FindAfter(name, ':', " " + value);
    assert line[..|name|] == name && line[|name| + 2..] == value;
  }

  lemma FieldsOfConcat(a: seq<string>, b: seq<string>)
    ensures FieldsOf(a + b) == FieldsOf(a) + FieldsOf(b)
  {
  }

  lemma OneField(name: string, value: string)
    requires ':' !in name
    ensures FieldsOf([name + ": " + value]) == [(name, value)]
  {
    FieldIsRead(name, value);
  }

  /** The fields that the caller has given, as pairs. */
  function Pairs(fields: seq<Field>): seq<(string, string)> {
    seq(|fields|, i requires 0 <= i < |fields| => (fields[i].fieldName, fields[i].value))
  }

  lemma CallersFieldsAreRead(fields: seq<Field>)
    requires forall i :: 0 <= i < |fields| ==> ':' !in fields[i].fieldName
    ensures FieldsOf(FieldLines(fields)) == Pairs(fields)
  {
    forall i | 0 <= i < |fields| ensures FieldsOf(FieldLines(fields))[i] == Pairs(fields)[i] {
      FieldIsRead(fields[i].fieldName, fields[i].value);
    }
  }

  lemma OwnFieldsAreRead(r: Response)
    ensures FieldsOf(OwnLines(r))
         == (if r.contentTypeText.Some? then [("Content-Type", r.contentTypeText.value)] else [])
            + [("Server", "HarborCLS")]
  {
    var kind := if r.contentTypeText.Some? then ["Content-Type: " + r.contentTypeText.value] else [];
    FieldsOfConcat(kind, ["Server: HarborCLS"]);
    assert "Server: HarborCLS" == "Server" + ": " + "HarborCLS";
    OneField("Server", "HarborCLS");
    if r.contentTypeText.Some? {
      assert "Content-Type: " + r.contentTypeText.value == "Content-Type" + ": " + r.contentTypeText.value;
      OneField("Content-Type", r.contentTypeText.value);
    }
  }

  /** What the lines of the header say, but for the additional line. */
  function SaidFields(r: Response): seq<(string, string)>
    reads r
  {
    (if r.contentTypeText.Some? then [("Content-Type", r.contentTypeText.value)] else [])
    + [("Server", "HarborCLS")]
    + Pairs(r.otherHeaderFields)
    + [("Content-Length", NatText(r.DeclaredLength()))]
  }

  lemma LinesSayFields(r: Response)
    requires forall i :: 0 <= i < |r.otherHeaderFields| ==> ':' !in r.otherHeaderFields[i].fieldName
    ensures var n := |SaidFields(r)| + 1;
            && |r.Lines()| == n + |LinesAfterLength(r)|
            && FieldsOf(r.Lines()[1..n]) == SaidFields(r)
            && r.Lines()[n..] == LinesAfterLength(r)
  {
    var own, fields := OwnLines(r), FieldLines(r.otherHeaderFields);
    var length := CONTENT_LENGTH + ": " + NatText(r.DeclaredLength());
    assert r.Lines() == [r.StatusLine()] + (own + fields + [length]) + LinesAfterLength(r);
    assert r.Lines()[1..|SaidFields(r)| + 1] == own + fields + [length];
    FieldsOfConcat(own + fields, [length]);
    FieldsOfConcat(own, fields);
    OwnFieldsAreRead(r);
    CallersFieldsAreRead(r.otherHeaderFields);
    OneField(CONTENT_LENGTH, NatText(r.DeclaredLength()));
  }

  lemma StatusIsRead(version: string, status: string)
    requires ' ' !in version
    ensures var line := version + " " + status;
            && Find(line, ' ') == |version|
            && line[..|version|] == version && line[|version| + 1..] == status
            && (|status| >= 3 ==> StatusCode(line) == status[..3])
  {
    var line := version + " " + status;
    assert line == version + [' '] + status;
    FindAfter(version, ' ', status);
    assert |status| >= 3 ==> line[|version| + 1..|version| + 4] == status[..3];
  }

  /** What is read from a composed response, for a version without a blank and field names without a ':': the
      version, the status, the content type if there is one, the server, the caller's fields in order, the length,
      the additional line if there is one, and the body. */
  lemma ResponseIsRead(r: Response)
    requires r.PlainHeader() && ' ' !in r.htmlVersion
    requires forall i :: 0 <= i < |r.otherHeaderFields| ==> ':' !in r.otherHeaderFields[i].fieldName
    ensures var message := r.Composed();
            var lines := HeaderLines(message);
            var kind := if r.contentTypeText.Some? then [("Content-Type", r.contentTypeText.value)] else [];
            var body := match r.body case TextBody(text) => text case BytesBody(bytes) => bytes;
            var length := if r.contentLength.Some? then r.contentLength.value else |body|;
            var n := |kind| + |r.otherHeaderFields| + 3;
            && |lines| == n + (if r.contentTypeAdditionalInfo != "" then 1 else 0)
            && lines[0][..Find(lines[0], ' ')] == r.htmlVersion
            && Find(lines[0], ' ') < |lines[0]| && lines[0][Find(lines[0], ' ') + 1..] == r.statusText
            && (|r.statusText| >= 3 ==> StatusCode(lines[0]) == r.statusText[..3])
            && FieldsOf(lines[1..n])
               == kind + [("Server", "HarborCLS")] + Pairs(r.otherHeaderFields) + [("Content-Length", NatText(length))]
            && (r.contentTypeAdditionalInfo != "" ==> lines[n] == r.contentTypeAdditionalInfo)
            && FindText(message, HEADER_END) + 4 <= |message|
            && message[FindText(message, HEADER_END) + 4..] == body
  {
    ResponseFraming(r);
    LinesSayFields(r);
    StatusIsRead(r.htmlVersion, r.statusText);
    assert r.Lines()[0] == r.StatusLine();
    var n := |SaidFields(r)| + 1;
    assert r.contentTypeAdditionalInfo != "" ==> r.Lines()[n..][0] == r.Lines()[n];
  }
}
