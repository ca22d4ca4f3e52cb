/** The request parser. */
module HttpRequest {
  import opened Wrappers
  import opened Decimal
  import opened Text
  import opened InputStreams
  import opened HttpFraming

  datatype Method = GET | POST | PUT | DELETE | HEAD | OPTIONS | TRACE | CONNECT | PATCH

  datatype HeaderField =
    | Default | Host | UserAgent | ContentType | LanguagesToAccept | EncodingsToAccept | KeepConnectionAlive
    | UpgradeConnectionSafety | ExpectedResponseType | RequestMode | OriginRelation

  type Fields = map<HeaderField, string>

  /** The tables the parser consults. Everything below holds for any tables. */
  datatype HttpMappings = HttpMappings(
    methods: map<string, Method>,
    headerFields: map<string, HeaderField>,
    contentTypeRequiresVectorizedBody: map<string, bool>)

  /** The repository's tables, with its list of content types given. */
  function HarborMappings(contentTypes: map<string, bool>): HttpMappings {
    HttpMappings(
      map["GET" := GET, "HEAD" := HEAD, "POST" := POST, "PUT" := PUT, "DELETE" := DELETE, "CONNECT" := CONNECT,
          "OPTIONS" := OPTIONS, "TRACE" := TRACE, "PATCH" := PATCH],
      map["" := Default, "Host" := Host, "User-Agent" := UserAgent, "Accept" := ContentType,
          "Accept-Language" := LanguagesToAccept, "Accept-Encoding" := EncodingsToAccept,
          "Connection" := KeepConnectionAlive, "Upgrade-Insecure-Requests" := UpgradeConnectionSafety,
          "Sec-Fetch-Dest" := ExpectedResponseType, "Sec-Fetch-Mode" := RequestMode,
          "Sec-Fetch-Site" := OriginRelation],
      contentTypes)
  }

  datatype HttpHeader = HttpHeader(rawContent: string, verb: Method, url: string, httpVersion: string, fields: Fields)

  datatype Request = Request(header: HttpHeader, body: Body)

  datatype ParseError =
    | UnknownMethod        // methods.at throws
    | NoHeaderEnd          // the source then builds the body from beyond the end of the request: undefined

  // ---- Header ----

  /** A key token without its last letter, which should be the ':'. substr(0, npos) of "" is "". */
  function KeyOf(token: string): string { if token == "" then "" else token[..|token| - 1] }

  /** What one header line adds. */
  function WithLine(m: HttpMappings, fields: Fields, line: string): Fields {
    var (afterKey, token) := ReadWord(Open(line), "");
    if KeyOf(token) !in m.headerFields then fields
    else fields[m.headerFields[KeyOf(token)] := ReadWord(afterKey, "").1]
  }

  function WithLines(m: HttpMappings, fields: Fields, lines: seq<string>): Fields
    decreases |lines|
  {
    if lines == [] then fields else WithLines(m, WithLine(m, fields, lines[0]), lines[1..])
  }

  /** The three words of a request line; a word that is missing is "". */
  function RequestLine(line: string): (string, string, string) {
    var (s1, verb) := ReadWord(Open(line), "");
    var (s2, url) := ReadWord(s1, "");
    (verb, url, ReadWord(s2, "").1)
  }

  method ParseRequestLine(m: HttpMappings, requestLine: string)
    returns (parsed: Result<(Method, string, string), ParseError>)
    ensures var (verb, url, version) := RequestLine(requestLine);
            parsed == if verb in m.methods then Ok((m.methods[verb], url, version)) else Err(UnknownMethod)
  {
    var iss := new InputStream(requestLine);
    var methodStr := iss.ReadToken("");
    if methodStr !in m.methods {
      return Err(UnknownMethod);
    }
    var url := iss.ReadToken("");
    var httpVersion := iss.ReadToken("");
    return Ok((m.methods[methodStr], url, httpVersion));
  }

  method ParseHeader(m: HttpMappings, header: string) returns (parsed: Result<HttpHeader, ParseError>)
    ensures var lines := Split(header, '\n');
            var (verb, url, version) := RequestLine(lines[0]);
            parsed == if verb in m.methods
                      then Ok(HttpHeader(header, m.methods[verb], url, version, WithLines(m, map[], lines[1..])))
                      else Err(UnknownMethod)
  {
    var headerStream := new InputStream(header);
    LinesArePieces(header, "", '\n');
    var line := headerStream.ReadLine("", '\n');
    var requestLine := ParseRequestLine(m, line);
    if requestLine.Err? {
      return Err(requestLine.error);
    }
    var fields: Fields := map[];
    ghost var lines := Split(header, '\n');
    ghost var left := lines[1..];
    while headerStream.stream.Good()
      invariant headerStream.stream.Good() ==> left == Split(headerStream.stream.rest, '\n')
      invariant !headerStream.stream.Good() ==> left == []
      invariant WithLines(m, fields, left) == WithLines(m, map[], lines[1..])
      decreases |left|
    {
      LinesArePieces(headerStream.stream.rest, "", '\n');
      line := "";
      line := headerStream.ReadLine(line, '\n');
      fields := ParseLine(m, line, fields);
      left := left[1..];
    }
    var (verb, url, version) := requestLine.value;
    return Ok(HttpHeader(header, verb, url, version, fields));
  }

  method ParseLine(m: HttpMappings, line: string, before: Fields) returns (fields: Fields)
    ensures fields == WithLine(m, before, line)
  {
    var lineStream := new InputStream(line);
    var key := lineStream.ReadToken("");
    key := KeyOf(key);
    if key !in m.headerFields {
      return before;
    }
    var value := lineStream.ReadToken("");
    fields := before[m.headerFields[key] := value];
  }

  // ---- Body ----

  function WithoutEmptyEnd(pieces: seq<string>): seq<string>
    requires pieces != []
  {
    if pieces[|pieces| - 1] == "" then pieces[..|pieces| - 1] else pieces
  }

  /** The items of a comma-separated list as getline reads them: a last item that is empty is not read. */
  function Items(header: string): seq<string> { WithoutEmptyEnd(Split(header, ',')) }

  /** The pieces that a stream still holds. */
  function Remaining(s: Stream): seq<string> { if s.Good() then Split(s.rest, ',') else [] }

  lemma PieceIsRead(s: Stream)
    ensures var (s', item) := GetLine(s, "", ',');
            && (!s.Good() ==> s'.fail)
            && (s.Good() ==> Remaining(s) == [item] + Remaining(s'))
            && (s.Good() && !s'.Good() ==> (s'.fail <==> item == ""))
            && (s'.fail ==> Remaining(s') == [])
  {
    if s.Good() {
      assert s == Open(s.rest);
      LinesArePieces(s.rest, "", ',');
    }
  }

  lemma NextPiece(read: seq<string>, item: string, left: seq<string>)
    ensures read + ([item] + left) == (read + [item]) + left
  {
  }

  lemma EndOfPieces(read: seq<string>, left: seq<string>)
    requires (left == [] && read != [] && read[|read| - 1] != "") || left == [""]
    ensures WithoutEmptyEnd(read + left) == read
  {
    if left == [] { assert read + left == read; }
  }

  method SplitAcceptHeader(header: string) returns (result: seq<string>)
    ensures result == Items(header)
  {
    var ss := new InputStream(header);
    result := [];
    ghost var pieces := Split(header, ',');
    while true
      invariant !ss.stream.fail && pieces == result + Remaining(ss.stream)
      invariant !ss.stream.Good() ==> result != [] && result[|result| - 1] != ""
      decreases |Remaining(ss.stream)|, ss.stream.Good()
    {
      ghost var before := ss.stream;
      PieceIsRead(before);
      var item := ss.ReadLine("", ',');
      if ss.stream.fail {
        EndOfPieces(result, Remaining(before));
        break;
      }
      NextPiece(result, item, Remaining(ss.stream));
      result := result + [item];
    }
  }

  /** The two lines of a body that createRequest leaves in front of it: it skips only half of the header
      end. */
  function BodyText(request: string): string
    requires FindText(request, HEADER_END) + 2 <= |request|
  {
    request[FindText(request, HEADER_END) + 2..]
  }

  /** Some listed content type is known to need a body of bytes. */
  predicate Vectorizes(m: HttpMappings, accept: string) {
    exists i :: 0 <= i < |Items(accept)| && Items(accept)[i] in m.contentTypeRequiresVectorizedBody
                && m.contentTypeRequiresVectorizedBody[Items(accept)[i]]
  }

  function BodyOf(m: HttpMappings, accept: string, content: string): Body {
    if Vectorizes(m, accept) then BytesBody(content) else TextBody(content)
  }

  /** operator[] adds the content type if no line has it. */
  function WithContentType(fields: Fields): Fields {
    if ContentType in fields then fields else fields[ContentType := ""]
  }

  lemma {:induction false} FoundTextFits(s: string, pattern: string)
    requires pattern != "" && FindText(s, pattern) < |s|
    ensures FindText(s, pattern) + |pattern| <= |s|
    decreases |s|
  {
    if !(pattern <= s) { FoundTextFits(s[1..], pattern); }
  }

  function Created(m: HttpMappings, request: string): Result<Request, ParseError> {
    var end := FindText(request, HEADER_END);
    var lines := Split(request[..end], '\n');
    var (verb, url, version) := RequestLine(lines[0]);
    var fields := WithContentType(WithLines(m, map[], lines[1..]));
    if verb !in m.methods then Err(UnknownMethod)
    else if end == |request| then Err(NoHeaderEnd)
    else
      FoundTextFits(request, HEADER_END);
      Ok(Request(HttpHeader(request[..end], m.methods[verb], url, version, fields),
                 BodyOf(m, fields[ContentType], BodyText(request))))
  }

  class HttpRequestParser {
    const m: HttpMappings

    constructor (m: HttpMappings)
      ensures this.m == m
    {
      this.m := m;
    }

    method GetBody(bodyType: string, content: string) returns (body: Body)
      ensures body == BodyOf(m, bodyType, content)
    {
      var acceptTypes := SplitAcceptHeader(bodyType);
      var needsTobeVectorized := false;
      for i := 0 to |acceptTypes|
        invariant needsTobeVectorized == exists j :: 0 <= j < i && acceptTypes[j] in m.contentTypeRequiresVectorizedBody
                                                    && m.contentTypeRequiresVectorizedBody[acceptTypes[j]]
      {
        var type_ := acceptTypes[i];
        if type_ !in m.contentTypeRequiresVectorizedBody {
          continue;
        }
        if m.contentTypeRequiresVectorizedBody[type_] {
          needsTobeVectorized := true;
          break;
        }
      }
      body := if needsTobeVectorized then BytesBody(content) else TextBody(content);
    }

    method CreateRequest(request: string) returns (parsed: Result<Request, ParseError>)
      ensures parsed == Created(m, request)
    {
      var separatorLocation := FindText(request, HEADER_END);
      var headerString := request[..separatorLocation];
      var parsedHeader := ParseHeader(m, headerString);
      if parsedHeader.Err? {
        return Err(parsedHeader.error);
      }
      var header := parsedHeader.value;
      if ContentType !in header.fields {
        header := header.(fields := header.fields[ContentType := ""]);
      }
      var bodyType := header.fields[ContentType];
      if separatorLocation == |request| {
        return Err(NoHeaderEnd);
      }
      FoundTextFits(request, HEADER_END);
      var body := GetBody(bodyType, request[separatorLocation + |CRLF|..]);
      return Ok(Request(header, body));
    }
  }

  // ---- Parsing inverts printing ----

  /** A header field as it is sent. */
  datatype Line = Line(name: string, value: string)

  function LineText(line: Line): string { line.name + ": " + line.value }

  function LineTexts(lines: seq<Line>): seq<string> {
    seq(|lines|, i requires 0 <= i < |lines| => LineText(lines[i]))
  }

  function PrintedLines(verb: string, url: string, version: string, lines: seq<Line>): seq<string> {
    [verb + " " + url + " " + version] + LineTexts(lines)
  }

  function PrintedRequest(verb: string, url: string, version: string, lines: seq<Line>, body: string): string {
    Printed(PrintedLines(verb, url, version, lines)) + CRLF + body
  }

  predicate PlainLines(lines: seq<Line>) {
    forall i :: 0 <= i < |lines| ==> IsWord(lines[i].name) && IsWord(lines[i].value)
  }

  /** The recognised fields; of several with the same meaning the last one counts. */
  function LastWins(m: HttpMappings, lines: seq<Line>): Fields {
    if lines == [] then map[]
    else
      var n := |lines| - 1;
      if lines[n].name in m.headerFields then LastWins(m, lines[..n])[m.headerFields[lines[n].name] := lines[n].value]
      else LastWins(m, lines[..n])
  }

  lemma ValueIsRead(value: string, end: string)
    requires IsWord(value) && (end == "" || end == "\r")
    ensures ReadWord(Open(" " + value + end), "").1 == value
  {
    if value == "" {
      SkipsAllSpace(" " + value + end);
    } else {
      ReadsWord(" ", value, end);
    }
  }

  /** Reading a printed field, with or without the CR that splitting at LF leaves. */
  lemma LineIsRead(m: HttpMappings, fields: Fields, line: Line, end: string)
    requires IsWord(line.name) && IsWord(line.value) && (end == "" || end == "\r")
    ensures WithLine(m, fields, LineText(line) + end) ==
            if line.name in m.headerFields then fields[m.headerFields[line.name] := line.value] else fields
  {
    var token, rest := line.name + ":", " " + line.value + end;
    assert LineText(line) + end == "" + token + rest;
    ReadsWord("", token, rest);
    assert KeyOf(token) == line.name;
    assert Stream(rest, rest == "", false) == Open(rest);
    ValueIsRead(line.value, end);
  }

  /** Of a value of several words the first is read. */
  lemma FirstWordIsRead(m: HttpMappings, fields: Fields, name: string, word: string, more: string)
    requires IsWord(name) && IsWord(word) && word != "" && (more == "" || IsSpace(more[0]))
    ensures WithLine(m, fields, name + ": " + word + more)
         == if name in m.headerFields then fields[m.headerFields[name] := word] else fields
  {
    var token, rest := name + ":", " " + word + more;
    assert name + ": " + word + more == "" + token + rest;
    ReadsWord("", token, rest);
    assert KeyOf(token) == name && Stream(rest, rest == "", false) == Open(rest);
    ReadsWord(" ", word, more);
  }

  lemma RequestLineIsRead(verb: string, url: string, version: string, end: string)
    requires IsWord(verb) && verb != "" && IsWord(url) && url != "" && IsWord(version) && version != ""
    requires end == "" || end == "\r"
    ensures RequestLine(verb + " " + url + " " + version + end) == (verb, url, version)
  {
    var r2 := " " + version + end;
    var r1 := " " + url + r2;
    assert verb + " " + url + " " + version + end == "" + verb + r1;
    ReadsWord("", verb, r1);
    ReadsWord(" ", url, r2);
    ReadsWord(" ", version, end);
  }

  /** The last letter of a key is dropped, whether it is a ':' or not. */
  lemma LastLetterIsDropped(m: HttpMappings, fields: Fields, name: string, letter: char, word: string)
    requires IsWord(name) && !IsSpace(letter) && IsWord(word) && word != ""
    ensures WithLine(m, fields, name + [letter] + " " + word)
         == if name in m.headerFields then fields[m.headerFields[name] := word] else fields
  {
    var token, rest := name + [letter], " " + word;
    assert name + [letter] + " " + word == "" + token + rest;
    ReadsWord("", token, rest);
    assert KeyOf(token) == name && Stream(rest, rest == "", false) == Open(rest);
    assert rest == " " + word + "";
    ReadsWord(" ", word, "");
  }

  /** A line without a key is the field that the table has for "", with no value. */
  lemma EmptyLineIsRead(m: HttpMappings, fields: Fields)
    ensures WithLine(m, fields, "") == if "" in m.headerFields then fields[m.headerFields[""] := ""] else fields
  {
    SkipsAllSpace("");
  }

  /** Words that are missing from a request line are empty. */
  lemma ShortRequestLineIsRead(verb: string, url: string)
    requires IsWord(verb) && verb != "" && IsWord(url) && url != ""
    ensures RequestLine(verb + " " + url) == (verb, url, "")
    ensures RequestLine(verb) == (verb, "", "")
  {
    assert verb + " " + url == "" + verb + (" " + url) && " " + url == " " + url + "" && verb == "" + verb + "";
    ReadsWord("", verb, " " + url);
    ReadsWord(" ", url, "");
    ReadsWord("", verb, "");
  }

  /** The pieces between the LFs of a printed header. */
  function WithEnds(lines: seq<string>): seq<string> {
    if |lines| <= 1 then lines else [lines[0] + "\r"] + WithEnds(lines[1..])
  }

  lemma {:induction false} WithEndsOf(lines: seq<string>)
    ensures |WithEnds(lines)| == |lines|
    ensures forall i :: 0 <= i < |lines| ==> WithEnds(lines)[i] == lines[i] + (if i == |lines| - 1 then "" else "\r")
    decreases |lines|
  {
    if |lines| > 1 {
      WithEndsOf(lines[1..]);
      forall i | 0 < i < |lines|
        ensures WithEnds(lines)[i] == lines[i] + (if i == |lines| - 1 then "" else "\r")
      {
        assert WithEnds(lines)[i] == WithEnds(lines[1..])[i - 1];
      }
    } else if |lines| == 1 {
      assert lines[0] + "" == lines[0];
    }
  }

  lemma HeaderFromFirst(line: string, rest: string)
    requires |rest| >= 2
    ensures var all := line + CRLF + rest;
            all[..|all| - 2] == (line + "\r") + ['\n'] + rest[..|rest| - 2]
  {
    assert line + CRLF == (line + "\r") + ['\n'];
  }

  lemma {:induction false} HeaderIsJoin(lines: seq<string>)
    requires lines != []
    ensures WithEnds(lines) != [] && |Printed(lines)| >= 2
    ensures Printed(lines)[..|Printed(lines)| - 2] == Join(WithEnds(lines), '\n')
    decreases |lines|
  {
    if |lines| == 1 {
      assert Printed(lines) == lines[0] + CRLF;
      assert Printed(lines)[..|lines[0]|] == lines[0];
    } else {
      HeaderIsJoin(lines[1..]);
      HeaderFromFirst(lines[0], Printed(lines[1..]));
    }
  }

  lemma SplitOfPrinted(lines: seq<string>)
    requires lines != [] && AreLines(lines)
    ensures Split(Printed(lines)[..|Printed(lines)| - 2], '\n') == WithEnds(lines)
  {
    HeaderIsJoin(lines);
    WithEndsOf(lines);
    SplitOfJoin(WithEnds(lines), '\n');
  }

  lemma {:induction false} WithLinesSnoc(m: HttpMappings, fields: Fields, lines: seq<string>, line: string)
    ensures WithLines(m, fields, lines + [line]) == WithLine(m, WithLines(m, fields, lines), line)
    decreases |lines|
  {
    if lines == [] {
    } else {
      assert (lines + [line])[1..] == lines[1..] + [line];
      WithLinesSnoc(m, WithLine(m, fields, lines[0]), lines[1..], line);
    }
  }

  /** Pieces that are these fields, each with or without a CR. */
  ghost predicate AreFieldPieces(pieces: seq<string>, lines: seq<Line>) {
    && |pieces| == |lines|
    && forall i :: 0 <= i < |lines| ==> pieces[i] == LineText(lines[i]) || pieces[i] == LineText(lines[i]) + "\r"
  }

  lemma {:induction false} FieldsAreRead(m: HttpMappings, pieces: seq<string>, lines: seq<Line>)
    requires PlainLines(lines) && AreFieldPieces(pieces, lines)
    ensures WithLines(m, map[], pieces) == LastWins(m, lines)
    decreases |lines|
  {
    if lines == [] {
    } else {
      var n := |lines| - 1;
      FieldsAreRead(m, pieces[..n], lines[..n]);
      assert pieces == pieces[..n] + [pieces[n]];
      WithLinesSnoc(m, map[], pieces[..n], pieces[n]);
      LineIsRead(m, LastWins(m, lines[..n]), lines[n], if pieces[n] == LineText(lines[n]) then "" else "\r");
      assert LineText(lines[n]) + "" == LineText(lines[n]);
    }
  }

  lemma PrintedLinesAreLines(verb: string, url: string, version: string, lines: seq<Line>)
    requires IsWord(verb) && verb != "" && IsWord(url) && IsWord(version) && PlainLines(lines)
    ensures AreLines(PrintedLines(verb, url, version, lines))
  {
    var all := PrintedLines(verb, url, version, lines);
    forall i | 0 <= i < |all| ensures IsLine(all[i]) {
      if i == 0 {
        assert forall j :: 0 <= j < |all[0]| ==> all[0][j] != '\r' && all[0][j] != '\n';
      } else {
        assert all[i] == LineText(lines[i - 1]);
      }
    }
  }

  lemma HeaderIsRead(m: HttpMappings, verb: string, url: string, version: string, lines: seq<Line>)
    requires IsWord(verb) && verb != "" && IsWord(url) && url != "" && IsWord(version) && version != ""
    requires PlainLines(lines)
    ensures var pieces := WithEnds(PrintedLines(verb, url, version, lines));
            && pieces != []
            && RequestLine(pieces[0]) == (verb, url, version)
            && WithLines(m, map[], pieces[1..]) == LastWins(m, lines)
  {
    var all := PrintedLines(verb, url, version, lines);
    var pieces := WithEnds(all);
    WithEndsOf(all);
    RequestLineIsRead(verb, url, version, if |all| == 1 then "" else "\r");
    forall i | 0 <= i < |lines|
      ensures pieces[1..][i] == LineText(lines[i]) || pieces[1..][i] == LineText(lines[i]) + "\r"
    {
      assert all[i + 1] == LineText(lines[i]) && all[i + 1] + "" == all[i + 1];
    }
    FieldsAreRead(m, pieces[1..], lines);
  }

  lemma {:induction false} PrintedEndsInCrlf(lines: seq<string>)
    requires lines != []
    ensures |Printed(lines)| >= 2 && Printed(lines)[|Printed(lines)| - 2..] == CRLF
    decreases |lines|
  {
    if |lines| > 1 { PrintedEndsInCrlf(lines[1..]); }
  }

  lemma BodyBehindHeader(printed: string, body: string)
    requires |printed| >= 2 && printed[|printed| - 2..] == CRLF
    ensures var request, end := printed + CRLF + body, |printed| - 2;
            && request[..end] == printed[..end]
            && request[end + 2..] == CRLF + body
            && request[..end] + CRLF + request[end + 2..] == request
  {
    assert printed == printed[..|printed| - 2] + CRLF;
  }

  lemma HeaderIsFound(all: seq<string>, body: string)
    requires all != [] && AreLines(all)
    ensures var request := Printed(all) + CRLF + body;
            var end := FindText(request, HEADER_END);
            && end + 4 <= |request|
            && request[..end] == Printed(all)[..|Printed(all)| - 2]
            && BodyText(request) == CRLF + body
            && request[..end] + CRLF + BodyText(request) == request
  {
    FramingIsRecoverable(all, body);
    FirstHeaderEnd(all, body);
    PrintedEndsInCrlf(all);
    BodyBehindHeader(Printed(all), body);
  }

  /** For any words and any fields whose name and value are words, parsing gives back what was printed: the
      three words, the last value of every recognised name, and the header text, which with a CRLF and the
      body makes up the whole request. The body it gives back still has the CRLF of the empty line in
      front. */
  lemma ParsingInvertsPrinting(m: HttpMappings, verb: string, url: string, version: string, lines: seq<Line>,
                               body: string)
    requires IsWord(verb) && verb != "" && IsWord(url) && url != "" && IsWord(version) && version != ""
    requires PlainLines(lines)
    ensures var request := PrintedRequest(verb, url, version, lines, body);
            var end := FindText(request, HEADER_END);
            && end + 4 <= |request|
            && var pieces := Split(request[..end], '\n');
            && RequestLine(pieces[0]) == (verb, url, version)
            && WithLines(m, map[], pieces[1..]) == LastWins(m, lines)
            && BodyText(request) == CRLF + body
            && request[..end] + CRLF + BodyText(request) == request
  {
    var all := PrintedLines(verb, url, version, lines);
    PrintedLinesAreLines(verb, url, version, lines);
    HeaderIsFound(all, body);
    SplitOfPrinted(all);
    HeaderIsRead(m, verb, url, version, lines);
  }

  /** So createRequest, given a printed request with a known method, returns what was printed; with an unknown
      one it throws. */
  lemma CreatingInvertsPrinting(m: HttpMappings, verb: string, url: string, version: string, lines: seq<Line>,
                                body: string)
    requires IsWord(verb) && verb != "" && IsWord(url) && url != "" && IsWord(version) && version != ""
    requires PlainLines(lines)
    ensures var request := PrintedRequest(verb, url, version, lines, body);
            var fields := WithContentType(LastWins(m, lines));
            Created(m, request) ==
            if verb in m.methods
            then Ok(Request(HttpHeader(request[..FindText(request, HEADER_END)], m.methods[verb], url, version, fields),
                            BodyOf(m, fields[ContentType], CRLF + body)))
            else Err(UnknownMethod)
  {
    ParsingInvertsPrinting(m, verb, url, version, lines, body);
  }

  /** The line gives this field. */
  predicate GivesField(m: HttpMappings, line: Line, field: HeaderField) {
    line.name in m.headerFields && m.headerFields[line.name] == field
  }

  /** Of the lines that give a field it is the last whose value counts. */
  lemma {:induction false} LastLineCounts(m: HttpMappings, lines: seq<Line>, field: HeaderField, k: nat)
    requires k < |lines| && GivesField(m, lines[k], field)
    requires forall j :: k < j < |lines| ==> !GivesField(m, lines[j], field)
    ensures field in LastWins(m, lines) && LastWins(m, lines)[field] == lines[k].value
    decreases |lines|
  {
    var n := |lines| - 1;
    if k == n {
    } else {
      LastLineCounts(m, lines[..n], field, k);
    }
  }

  lemma {:induction false} OnlyGivenFields(m: HttpMappings, lines: seq<Line>, field: HeaderField)
    requires forall j :: 0 <= j < |lines| ==> !GivesField(m, lines[j], field)
    ensures field !in LastWins(m, lines)
    decreases |lines|
  {
    if lines == [] {
    } else {
      OnlyGivenFields(m, lines[..|lines| - 1], field);
    }
  }

  /** Some of the words is known to need a body of bytes; an empty last word is not looked at. */
  predicate SomeNeedsBytes(table: map<string, bool>, words: seq<string>) {
    exists i :: 0 <= i < |words| && (i < |words| - 1 || words[i] != "") && words[i] in table && table[words[i]]
  }

  lemma ItemsOfJoin(words: seq<string>)
    requires words != [] && forall i :: 0 <= i < |words| ==> ',' !in words[i]
    ensures var n := |words| - 1; Items(Join(words, ',')) == if words[n] == "" then words[..n] else words
  {
    SplitOfJoin(words, ',');
  }

  lemma SomeOfItems(table: map<string, bool>, words: seq<string>, items: seq<string>)
    requires words != [] && items == if words[|words| - 1] == "" then words[..|words| - 1] else words
    ensures (exists i :: 0 <= i < |items| && items[i] in table && table[items[i]]) <==> SomeNeedsBytes(table, words)
  {
    if SomeNeedsBytes(table, words) {
      var i :| 0 <= i < |words| && (i < |words| - 1 || words[i] != "") && words[i] in table && table[words[i]];
      assert items[i] == words[i];
    }
  }

  lemma ListedTypesDecide(m: HttpMappings, words: seq<string>, content: string)
    requires words != [] && forall i :: 0 <= i < |words| ==> ',' !in words[i]
    ensures BodyOf(m, Join(words, ','), content)
         == if SomeNeedsBytes(m.contentTypeRequiresVectorizedBody, words) then BytesBody(content) else TextBody(content)
  {
    ItemsOfJoin(words);
    SomeOfItems(m.contentTypeRequiresVectorizedBody, words, Items(Join(words, ',')));
  }

  /** The body of a printed request is the CRLF of the empty line and the body sent. If the last line that gives
      the accepted types is a list of words joined by commas, it is held as bytes exactly when one of the words is
      known to need that. */
  lemma AcceptedTypesDecideBody(m: HttpMappings, verb: string, url: string, version: string, lines: seq<Line>,
                                body: string, k: nat, words: seq<string>)
    requires IsWord(verb) && verb != "" && IsWord(url) && url != "" && IsWord(version) && version != ""
    requires PlainLines(lines) && verb in m.methods
    requires k < |lines| && GivesField(m, lines[k], ContentType)
    requires forall j :: k < j < |lines| ==> !GivesField(m, lines[j], ContentType)
    requires words != [] && lines[k].value == Join(words, ',')
    requires forall i :: 0 <= i < |words| ==> ',' !in words[i]
    ensures var created := Created(m, PrintedRequest(verb, url, version, lines, body));
            && created.Ok?
            && created.value.header.fields == LastWins(m, lines)
            && created.value.body == if SomeNeedsBytes(m.contentTypeRequiresVectorizedBody, words)
                                     then BytesBody("\r\n" + body) else TextBody("\r\n" + body)
  {
    CreatingInvertsPrinting(m, verb, url, version, lines, body);
    LastLineCounts(m, lines, ContentType, k);
    ListedTypesDecide(m, words, CRLF + body);
  }

  /** Without such a line the body is text, and the field is there with no types in it. */
  lemma NoAcceptedTypesMeanText(m: HttpMappings, verb: string, url: string, version: string, lines: seq<Line>,
                                body: string)
    requires IsWord(verb) && verb != "" && IsWord(url) && url != "" && IsWord(version) && version != ""
    requires PlainLines(lines) && verb in m.methods
    requires forall j :: 0 <= j < |lines| ==> !GivesField(m, lines[j], ContentType)
    ensures var created := Created(m, PrintedRequest(verb, url, version, lines, body));
            && created.Ok?
            && created.value.header.fields == LastWins(m, lines)[ContentType := ""]
            && created.value.body == TextBody("\r\n" + body)
  {
    CreatingInvertsPrinting(m, verb, url, version, lines, body);
    OnlyGivenFields(m, lines, ContentType);
    ListedTypesDecide(m, [""], CRLF + body);
  }

  /** With the repository's tables it is the lines called "Accept" that give the accepted types. */
  lemma AcceptGivesAcceptedTypes(contentTypes: map<string, bool>, line: Line)
    ensures GivesField(HarborMappings(contentTypes), line, ContentType) <==> line.name == "Accept"
  {
  }

  /** The repository's methods are words, so every request with a known method is parsed back. */
  lemma KnownMethodsAreWords(contentTypes: map<string, bool>, verb: string)
    requires verb in HarborMappings(contentTypes).methods
    ensures IsWord(verb) && verb != ""
  {
  }
}
