/** The figure-to-server table and the messages that fill it. */
module RoutingTable {

  datatype ServerRoutingInfo = ServerRoutingInfo(ip: string, port: int)

  type Routes = map<string, ServerRoutingInfo>

  /** unordered_map::insert keeps the entry that is there. */
  function Inserted(routes: Routes, figure: string, server: ServerRoutingInfo): Routes {
    if figure in routes then routes else routes[figure := server]
  }

  function InsertedAll(routes: Routes, figures: seq<string>, server: ServerRoutingInfo): Routes {
    if figures == [] then routes
    else Inserted(InsertedAll(routes, figures[..|figures| - 1], server), figures[|figures| - 1], server)
  }

  function Without(routes: Routes, server: ServerRoutingInfo): Routes {
    map figure | figure in routes && routes[figure] != server :: routes[figure]
  }

  lemma InsertedAllSnoc(routes: Routes, figures: seq<string>, figure: string, server: ServerRoutingInfo)
    ensures InsertedAll(routes, figures + [figure], server)
         == Inserted(InsertedAll(routes, figures, server), figure, server)
  {
    assert (figures + [figure])[..|figures|] == figures;
  }

  /** Inserting names adds those the table did not have and leaves the others with their server. */
  lemma {:induction false} InsertedAllAddsMissing(routes: Routes, figures: seq<string>, server: ServerRoutingInfo)
    ensures InsertedAll(routes, figures, server) == (map figure | figure in figures :: server) + routes
    decreases |figures|
  {
    if figures == [] {
      assert (map figure | figure in figures :: server) + routes == routes;
    } else {
      var n := |figures| - 1;
      InsertedAllAddsMissing(routes, figures[..n], server);
      assert figures == figures[..n] + [figures[n]];
    }
  }

  /** Erasing a server undoes everything it announced; what it announced over another server's entry never
      was there. */
  lemma {:induction false} ErasingUndoesInserting(routes: Routes, figures: seq<string>, server: ServerRoutingInfo)
    ensures Without(InsertedAll(routes, figures, server), server) == Without(routes, server)
  {
    InsertedAllAddsMissing(routes, figures, server);
  }

  /** Announcing twice is announcing once. */
  lemma {:induction false} InsertingTwice(routes: Routes, figures: seq<string>, server: ServerRoutingInfo)
    ensures InsertedAll(InsertedAll(routes, figures, server), figures, server) == InsertedAll(routes, figures, server)
  {
    InsertedAllAddsMissing(routes, figures, server);
    InsertedAllAddsMissing(InsertedAll(routes, figures, server), figures, server);
  }

  class RoutingMap {
    var routes: Routes

    constructor ()
      ensures routes == map[]
    {
      routes := map[];
    }

    method Count(figure: string) returns (count: nat)
      ensures count == if figure in routes then 1 else 0
    {
      count := if figure in routes then 1 else 0;
    }

    method Insert(figure: string, server: ServerRoutingInfo)
      modifies this
      ensures routes == Inserted(old(routes), figure, server)
    {
      if figure !in routes {
        routes := routes[figure := server];
      }
    }

    method EraseFigure(figure: string)
      modifies this
      ensures routes == old(routes) - {figure}
    {
      routes := routes - {figure};
    }

    /** Visits the entries in whatever order the table iterates. */
    method EraseServer(pairToDelete: ServerRoutingInfo)
      modifies this
      ensures routes == Without(old(routes), pairToDelete)
    {
      var toVisit := routes.Keys;
      while toVisit != {}
        invariant toVisit <= routes.Keys <= old(routes).Keys
        invariant forall figure :: figure in routes ==> routes[figure] == old(routes)[figure]
        invariant forall figure :: figure in routes && routes[figure] == pairToDelete ==> figure in toVisit
        invariant forall figure :: figure in old(routes) && old(routes)[figure] != pairToDelete ==> figure in routes
      {
        var it :| it in toVisit;
        if routes[it] == pairToDelete {
          routes := routes - {it};
        }
        toVisit := toVisit - {it};
      }
    }
  }
}

module Presence {
  import opened Wrappers
  import opened Decimal
  import opened Text
  import opened RoutingTable

  datatype LegoMessageCode = LegoDiscover | LegoPresent | LegoRequest | LegoResponse | LegoRelease

  const SEPARATOR: char := '\U{1D}'
  const PIECES_TCP_PORT := 9015

  /** The first digit of the enumerator's number. */
  function CodeText(code: LegoMessageCode): char {
    match code
    case LegoDiscover => '0'
    case LegoPresent => '1'
    case LegoRequest => '2'
    case LegoResponse => '3'
    case LegoRelease => '4'
  }

  // ---- Composers ----

  function NameList(names: seq<string>): string {
    if names == [] then "" else names[0] + [SEPARATOR] + NameList(names[1..])
  }

  function Address(ip: string, port: int): string { ip + ":" + IntText(port) }

  function PresentMessage(code: LegoMessageCode, ip: string, port: int, names: seq<string>): string {
    [CodeText(code), SEPARATOR] + Address(ip, port) + [SEPARATOR] + NameList(names)
  }

  function DiscoverMessage(code: LegoMessageCode, ip: string, port: int): string {
    [CodeText(code), SEPARATOR] + Address(ip, port)
  }

  lemma {:induction false} NameListConcat(names: seq<string>, more: seq<string>)
    ensures NameList(names + more) == NameList(names) + NameList(more)
    decreases |names|
  {
    if names == [] {
      assert names + more == more;
    } else {
      assert (names + more)[1..] == names[1..] + more;
      NameListConcat(names[1..], more);
    }
  }

  lemma NameListSnoc(names: seq<string>, i: nat)
    requires i < |names|
    ensures NameList(names[..i + 1]) == NameList(names[..i]) + names[i] + [SEPARATOR]
  {
    assert names[..i + 1] == names[..i] + [names[i]];
    NameListConcat(names[..i], [names[i]]);
    assert NameList([names[i]]) == names[i] + [SEPARATOR] + NameList([]);
  }

  /** One round of a composer's loop. */
  lemma NameAppended(head: string, names: seq<string>, i: nat)
    requires i < |names|
    ensures (head + NameList(names[..i])) + names[i] + [SEPARATOR] == head + NameList(names[..i + 1])
  {
    NameListSnoc(names, i);
    var list, name := NameList(names[..i]), names[i];
    assert (head + list) + name + [SEPARATOR] == head + (list + name + [SEPARATOR]);
  }

  lemma HeadOfPresent(code: char, ip: string, port: string, list: string)
    ensures [code, SEPARATOR] + ip + [':'] + port + [SEPARATOR] + list
         == [code, SEPARATOR] + (ip + ":" + port) + [SEPARATOR] + list
  {
    assert [code, SEPARATOR] + ip + [':'] + port == [code, SEPARATOR] + (ip + ":" + port);
  }

  /** LegoPresentService::createPresenceMessage, with the repository's names. */
  method CreatePresenceMessage(code: LegoMessageCode, port: int, computerIp: string, legoFigures: seq<string>)
    returns (message: string)
    ensures message == PresentMessage(code, computerIp, port, legoFigures)
  {
    message := [CodeText(code), SEPARATOR];
    message := message + computerIp;
    message := message + [':'];
    message := message + IntText(port);
    message := message + [SEPARATOR];
    ghost var head := message;
    for i := 0 to |legoFigures|
      invariant message == head + NameList(legoFigures[..i])
    {
      NameAppended(head, legoFigures, i);
      message := message + legoFigures[i];
      message := message + [SEPARATOR];
    }
    assert legoFigures[..|legoFigures|] == legoFigures;
    HeadOfPresent(CodeText(code), computerIp, IntText(port), NameList(legoFigures));
  }

  method CreateDiscoverMessage(code: LegoMessageCode, port: int, computerIp: string) returns (message: string)
    ensures message == DiscoverMessage(code, computerIp, port)
  {
    message := [CodeText(code), SEPARATOR];
    message := message + computerIp;
    message := message + [':'];
    message := message + IntText(port);
  }

  // ---- Parsers ----

  /** The text before the first ':' (all of it if there is none). */
  function IpPart(message: string): string { message[..Find(message, ':')] }

  /** The text after the first ':'. Without one, substr(npos + 1) is the whole text. */
  function PortPart(message: string): string {
    var colon := Find(message, ':');
    if colon == |message| then message else message[colon + 1..]
  }

  /** The names of a list that starts with a separator. */
  function Names(message: string): seq<string>
    decreases |message|
  {
    if message == "" || message == [SEPARATOR] then []
    else
      var end := Find(message[1..], SEPARATOR);
      [message[1..][..end]] + Names(message[end + 1..])
  }

  lemma NextName(done: seq<string>, message: string, name: string, rest: string)
    requires message != "" && message != [SEPARATOR]
    requires name == message[1..][..Find(message[1..], SEPARATOR)]
    requires rest == message[Find(message[1..], SEPARATOR) + 1..]
    ensures done + [name] + Names(rest) == done + Names(message)
  {
    assert done + [name] + Names(rest) == done + ([name] + Names(rest));
  }

  lemma NoNameLeft(done: seq<string>, message: string)
    requires message == "" || (|message| == 1 && message[0] == SEPARATOR)
    ensures done + Names(message) == done
  {
    assert Names(message) == [];
  }

  datatype Outcome =
    | Handled
    | WrongCode
    | PortThrows(error: ConversionError)
    | NoSeparator       // the source's remove_prefix(npos) is undefined

  class LegoPresentHandler {
    const routingMap: RoutingMap

    constructor (routingMap: RoutingMap)
      ensures this.routingMap == routingMap
    {
      this.routingMap := routingMap;
    }

    method HandleSingle(data: string) returns (outcome: Outcome)
      requires |data| >= 1 && (data[0] == '1' ==> |data| >= 2)
      modifies routingMap
      ensures outcome.WrongCode? <==> data[0] != '1'
      ensures outcome != WrongCode ==>
                var message := data[2..];
                var list := message[Find(message, SEPARATOR)..];
                match Stoi(PortPart(message))
                case Err(e) => outcome == PortThrows(e)
                case Ok(port) =>
                  && (outcome == NoSeparator <==> SEPARATOR !in message)
                  && (outcome != NoSeparator ==> outcome == Handled)
                  && (outcome == Handled ==>
                        routingMap.routes
                        == InsertedAll(old(routingMap.routes), Names(list), ServerRoutingInfo(IpPart(message), port)))
      ensures outcome != Handled ==> routingMap.routes == old(routingMap.routes)
    {
      if data[0] != CodeText(LegoPresent) {
        return WrongCode;
      }
      var message := data[2..];
      FindFinds(message, SEPARATOR);
      var ip := message[..Find(message, ':')];
      var stoi := Stoi(PortPart(message));
      if stoi.Err? {
        return PortThrows(stoi.error);
      }
      var routingInfo := ServerRoutingInfo(ip, stoi.value);
      if Find(message, SEPARATOR) == |message| {
        return NoSeparator;
      }
      message := message[Find(message, SEPARATOR)..];
      AddRoutes(message, routingInfo);
      return Handled;
    }

    method AddRoutes(list: string, routingInfo: ServerRoutingInfo)
      modifies routingMap
      ensures routingMap.routes == InsertedAll(old(routingMap.routes), Names(list), routingInfo)
    {
      var message := list;
      ghost var done := [];
      while message != "" && !(|message| == 1 && message[0] == SEPARATOR)
        invariant done + Names(message) == Names(list)
        invariant routingMap.routes == InsertedAll(old(routingMap.routes), done, routingInfo)
        decreases |message|
      {
        ghost var left := message;
        var messageSearchTarget := message[1..];
        var figureEnd := Find(messageSearchTarget, SEPARATOR);
        var figureName := messageSearchTarget[..figureEnd];
        message := message[figureEnd + 1..];
        NextName(done, left, figureName, message);
        routingMap.Insert(figureName, routingInfo);
        InsertedAllSnoc(old(routingMap.routes), done, figureName, routingInfo);
        done := done + [figureName];
      }
      NoNameLeft(done, message);
    }
  }

  /** LegoDiscoverHandler::handleSingle: where the answer goes, and the answer. */
  method HandleDiscover(data: string, ipToSend: string, legoList: seq<string>)
    returns (sent: Result<(ServerRoutingInfo, string), ConversionError>)
    requires |data| >= 2
    ensures match Stoi(PortPart(data[2..]))
            case Err(e) => sent == Err(e)
            case Ok(port) => sent == Ok((ServerRoutingInfo(IpPart(data[2..]), port),
                                         PresentMessage(LegoPresent, ipToSend, PIECES_TCP_PORT, legoList)))
  {
    var message := data[2..];
    var ip, port := IpPart(message), PortPart(message);
    var response := [CodeText(LegoPresent), SEPARATOR];
    response := response + ipToSend;
    response := response + [':'];
    response := response + IntText(PIECES_TCP_PORT);
    response := response + [SEPARATOR];
    ghost var head := response;
    for i := 0 to |legoList|
      invariant response == head + NameList(legoList[..i])
    {
      NameAppended(head, legoList, i);
      response := response + legoList[i];
      response := response + [SEPARATOR];
    }
    assert legoList[..|legoList|] == legoList;
    HeadOfPresent(CodeText(LegoPresent), ipToSend, IntText(PIECES_TCP_PORT), NameList(legoList));
    var stoi := Stoi(port);
    sent := if stoi.Ok? then Ok((ServerRoutingInfo(ip, stoi.value), response)) else Err(stoi.error);
  }

  // ---- What is sent is what is understood ----

  predicate PlainIp(ip: string) { ':' !in ip && SEPARATOR !in ip }

  predicate PlainNames(names: seq<string>) { forall i :: 0 <= i < |names| ==> SEPARATOR !in names[i] }

  /** Every address is read back, whatever follows the port, as long as it is not a digit. */
  lemma AddressRoundTrip(ip: string, port: int, rest: string)
    requires PlainIp(ip) && -0x8000_0000 <= port < 0x8000_0000 && (rest == "" || rest[0] == SEPARATOR)
    ensures var message := Address(ip, port) + rest;
            && IpPart(message) == ip
            && Stoi(PortPart(message)) == Ok(port)
            && message[Find(message, SEPARATOR)..] == rest
  {
    var message := Address(ip, port) + rest;
    assert message == ip + [':'] + (IntText(port) + rest);
    FindAfter(ip, ':', IntText(port) + rest);
    assert message[|ip| + 1..] == IntText(port) + rest;
    StoiInvertsText(port, rest);
    NoSpecialInText(port, SEPARATOR);
    FindIs(message, SEPARATOR, |Address(ip, port)|);
  }

  lemma FirstName(name: string, rest: string)
    requires SEPARATOR !in name
    ensures Names([SEPARATOR] + (name + [SEPARATOR] + rest)) == [name] + Names([SEPARATOR] + rest)
  {
    var message := [SEPARATOR] + (name + [SEPARATOR] + rest);
    assert message[1..] == name + [SEPARATOR] + rest;
    FindAfter(name, SEPARATOR, rest);
    assert message[1..][..|name|] == name && message[|name| + 1..] == [SEPARATOR] + rest;
  }

  lemma OnlyName(name: string)
    requires SEPARATOR !in name
    ensures Names([SEPARATOR] + name) == if name == "" then [] else [name]
  {
    if name != "" {
      assert ([SEPARATOR] + name)[1..] == name && name[..|name|] == name;
      FindIs(name, SEPARATOR, |name|);
      assert ([SEPARATOR] + name)[|name| + 1..] == "";
    }
  }

  lemma FirstOfList(names: seq<string>, piece: string)
    requires names != [] && SEPARATOR !in names[0]
    ensures Names([SEPARATOR] + (NameList(names) + piece))
         == [names[0]] + Names([SEPARATOR] + (NameList(names[1..]) + piece))
  {
    var rest := NameList(names[1..]) + piece;
    assert NameList(names) + piece == names[0] + [SEPARATOR] + rest;
    FirstName(names[0], rest);
  }

  /** A list cut in the middle of a name: the whole names, then the piece if there is any of it. */
  lemma {:induction false} CutList(names: seq<string>, piece: string)
    requires PlainNames(names) && SEPARATOR !in piece
    ensures Names([SEPARATOR] + (NameList(names) + piece)) == names + (if piece == "" then [] else [piece])
    decreases |names|
  {
    var end := if piece == "" then [] else [piece];
    if names == [] {
      assert NameList(names) + piece == piece;
      OnlyName(piece);
      assert names + end == end;
    } else {
      FirstOfList(names, piece);
      CutList(names[1..], piece);
      assert names + end == [names[0]] + (names[1..] + end);
    }
  }

  lemma {:induction false} NamesInvertsList(names: seq<string>)
    requires PlainNames(names)
    ensures Names([SEPARATOR] + NameList(names)) == names
    decreases |names|
  {
    CutList(names, "");
    assert NameList(names) + "" == NameList(names);
    assert names + [] == names;
  }

  /** Cutting the list of names anywhere: after some whole names and m letters of the next. */
  lemma {:induction false} CutIsAtName(names: seq<string>, n: nat) returns (whole: nat, m: nat)
    requires n <= |NameList(names)|
    ensures whole <= |names| && (if whole < |names| then m <= |names[whole]| else m == 0)
    ensures NameList(names)[..n] == NameList(names[..whole]) + (if whole < |names| then names[whole][..m] else "")
    decreases |names|
  {
    if names == [] || n <= |names[0]| {
      whole, m := 0, n;
    } else {
      var skip := |names[0]| + 1;
      var w, k := CutIsAtName(names[1..], n - skip);
      whole, m := w + 1, k;
      assert NameList(names)[..n] == names[0] + [SEPARATOR] + NameList(names[1..])[..n - skip];
      assert names[..whole][1..] == names[1..][..w];
    }
  }

  /** A LEGO_PRESENT message is understood as it was meant: same ip, same port, same names in order; the
      table gains exactly the names it did not have, and erasing the server takes them back. */
  lemma PresenceRoundTrip(ip: string, port: int, names: seq<string>, routes: Routes)
    requires PlainIp(ip) && -0x8000_0000 <= port < 0x8000_0000 && PlainNames(names)
    ensures var data := PresentMessage(LegoPresent, ip, port, names);
            && data[0] == '1'
            && var message := data[2..];
            && var server := ServerRoutingInfo(ip, port);
            && var understood := Names(message[Find(message, SEPARATOR)..]);
            && ServerRoutingInfo(IpPart(message), port) == server
            && Stoi(PortPart(message)) == Ok(port)
            && SEPARATOR in message
            && understood == names
            && InsertedAll(routes, understood, server) == (map figure | figure in names :: server) + routes
            && Without(InsertedAll(routes, understood, server), server) == Without(routes, server)
  {
    var data := PresentMessage(LegoPresent, ip, port, names);
    var rest := [SEPARATOR] + NameList(names);
    assert data[2..] == Address(ip, port) + rest;
    AddressRoundTrip(ip, port, rest);
    NamesInvertsList(names);
    assert (Address(ip, port) + rest)[|Address(ip, port)|] == SEPARATOR;
    InsertedAllAddsMissing(routes, names, ServerRoutingInfo(ip, port));
    ErasingUndoesInserting(routes, names, ServerRoutingInfo(ip, port));
  }

  lemma CutNames(names: seq<string>, n: nat, whole: nat, m: nat)
    requires PlainNames(names) && n <= |NameList(names)|
    requires whole <= |names| && (if whole < |names| then m <= |names[whole]| else m == 0)
    requires NameList(names)[..n] == NameList(names[..whole]) + (if whole < |names| then names[whole][..m] else "")
    ensures n == |NameList(names[..whole])| + m
    ensures Names([SEPARATOR] + NameList(names)[..n]) == names[..whole] + (if m == 0 then [] else [names[whole][..m]])
  {
    CutList(names[..whole], if whole < |names| then names[whole][..m] else "");
  }

  lemma CutAfterHead(head: string, list: string, n: nat)
    requires n <= |list|
    ensures (head + [SEPARATOR] + list)[..|head| + 1 + n] == head + ([SEPARATOR] + list[..n])
  {
  }

  lemma CutMessage(ip: string, port: int, list: string, n: nat)
    requires PlainIp(ip) && -0x8000_0000 <= port < 0x8000_0000 && n <= |list|
    ensures var message := (Address(ip, port) + [SEPARATOR] + list)[..|Address(ip, port)| + 1 + n];
            && IpPart(message) == ip
            && Stoi(PortPart(message)) == Ok(port)
            && message[Find(message, SEPARATOR)..] == [SEPARATOR] + list[..n]
  {
    CutAfterHead(Address(ip, port), list, n);
    AddressRoundTrip(ip, port, [SEPARATOR] + list[..n]);
  }

  /** Cut anywhere after the separator that follows the port, the message still names its server, and the
      names understood are the first few that were sent and at most a non-empty beginning of the next. */
  lemma CutPresenceIsAPrefix(ip: string, port: int, names: seq<string>, n: nat)
    returns (whole: nat, m: nat)
    requires PlainIp(ip) && -0x8000_0000 <= port < 0x8000_0000 && PlainNames(names) && n <= |NameList(names)|
    ensures whole <= |names| && (if whole < |names| then m <= |names[whole]| else m == 0)
    ensures n == |NameList(names[..whole])| + m
    ensures var message := (Address(ip, port) + [SEPARATOR] + NameList(names))[..|Address(ip, port)| + 1 + n];
            && IpPart(message) == ip
            && Stoi(PortPart(message)) == Ok(port)
            && Names(message[Find(message, SEPARATOR)..])
               == names[..whole] + (if m == 0 then [] else [names[whole][..m]])
  {
    whole, m := CutIsAtName(names, n);
    CutMessage(ip, port, NameList(names), n);
    CutNames(names, n, whole, m);
  }

  /** A discovery is answered to the address it came from, and the answer announces the answering server. */
  lemma DiscoveryHandshake(ip: string, port: int, serverIp: string, names: seq<string>, routes: Routes)
    requires PlainIp(ip) && -0x8000_0000 <= port < 0x8000_0000 && PlainIp(serverIp) && PlainNames(names)
    ensures var message := DiscoverMessage(LegoDiscover, ip, port)[2..];
            IpPart(message) == ip && Stoi(PortPart(message)) == Ok(port)
    ensures var answer := PresentMessage(LegoPresent, serverIp, PIECES_TCP_PORT, names)[2..];
            && Stoi(PortPart(answer)) == Ok(PIECES_TCP_PORT)
            && InsertedAll(routes, Names(answer[Find(answer, SEPARATOR)..]),
                           ServerRoutingInfo(IpPart(answer), PIECES_TCP_PORT))
               == (map figure | figure in names :: ServerRoutingInfo(serverIp, PIECES_TCP_PORT)) + routes
  {
    assert DiscoverMessage(LegoDiscover, ip, port)[2..] == Address(ip, port) + "";
    AddressRoundTrip(ip, port, "");
    PresenceRoundTrip(serverIp, PIECES_TCP_PORT, names, routes);
  }

  // ---- The pieces of a message ----

  lemma {:induction false} PiecesOfList(names: seq<string>)
    requires PlainNames(names)
    ensures Split(NameList(names), SEPARATOR) == names + [""]
    decreases |names|
  {
    if names == [] {
    } else {
      PiecesOfList(names[1..]);
      SplitAfter(names[0], SEPARATOR, NameList(names[1..]));
      assert names + [""] == [names[0]] + (names[1..] + [""]);
    }
  }

  lemma AddressIsOnePiece(ip: string, port: int)
    requires SEPARATOR !in ip
    ensures SEPARATOR !in Address(ip, port)
  {
    NoSpecialInText(port, SEPARATOR);
  }

  lemma PiecesAfterTwo(first: string, second: string, rest: string)
    requires SEPARATOR !in first && SEPARATOR !in second
    ensures Split(first + [SEPARATOR] + (second + [SEPARATOR] + rest), SEPARATOR)
         == [first, second] + Split(rest, SEPARATOR)
  {
    SplitAfter(second, SEPARATOR, rest);
    SplitAfter(first, SEPARATOR, second + [SEPARATOR] + rest);
    assert [first] + ([second] + Split(rest, SEPARATOR)) == [first, second] + Split(rest, SEPARATOR);
  }

  lemma CodeComesFirst(code: LegoMessageCode, address: string, list: string)
    ensures [CodeText(code), SEPARATOR] + address + [SEPARATOR] + list
         == [CodeText(code)] + [SEPARATOR] + (address + [SEPARATOR] + list)
  {
  }

  /** Between the separators of a LEGO_PRESENT message stand its number, the address and the names. */
  lemma PiecesOfPresence(ip: string, port: int, names: seq<string>)
    requires SEPARATOR !in ip && PlainNames(names)
    ensures Split(PresentMessage(LegoPresent, ip, port, names), SEPARATOR)
         == ["1", ip + ":" + IntText(port)] + (names + [""])
  {
    AddressIsOnePiece(ip, port);
    PiecesOfList(names);
    PiecesAfterTwo("1", Address(ip, port), NameList(names));
    CodeComesFirst(LegoPresent, Address(ip, port), NameList(names));
  }

  /** Those of a LEGO_DISCOVER message are its number and the address. */
  lemma PiecesOfDiscovery(ip: string, port: int)
    requires SEPARATOR !in ip
    ensures Split(DiscoverMessage(LegoDiscover, ip, port), SEPARATOR) == ["0", ip + ":" + IntText(port)]
  {
    var address := Address(ip, port);
    AddressIsOnePiece(ip, port);
    SplitAfter("0", SEPARATOR, address);
    FindIs(address, SEPARATOR, |address|);
    assert DiscoverMessage(LegoDiscover, ip, port) == "0" + [SEPARATOR] + address;
  }
}
