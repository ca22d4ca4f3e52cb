/** The Lego file reader. */
module LegoFile {
  import opened Wrappers
  import opened Decimal
  import opened Sequences
  import opened Text
  import opened InputStreams

  datatype LegoPiece = LegoPiece(pieceName: string, imagePath: string, quantity: nat)

  datatype LegoFigure = LegoFigure(figureName: string, imagePath: string, legoPieces: seq<LegoPiece>)

  type Figures = map<string, LegoFigure>

  datatype FileError = WrongFirstLine | AmountThrows(error: ConversionError)

  const FIRST_LINE: string := "Lego source File :: group ESJOJO"

  function Line(s: Stream, line: string): (Stream, string) { GetLine(s, line, '\n') }

  // ---- What the reader makes of a stream ----

  /** A piece, or none where its reading gives up. A line that cannot be read leaves the string with the
      line before, so a name in the very last line is taken for the image and the amount as well. */
  function Piece(s: Stream): (Stream, Result<Option<LegoPiece>, FileError>) {
    var (s1, name) := Line(s, "");
    if name == "*" then (s1, Ok(None))
    else
      var (s2, image) := Line(s1, name);
      if image == "" then (s2, Ok(None))
      else
        var (s3, amount) := Line(s2, image);
        if amount == "" then (s3, Ok(None))
        else
          match Stoull(amount)
          case Err(e) => (s3, Err(AmountThrows(e)))
          case Ok(n) => (s3, Ok(Some(LegoPiece(name, image, n))))
  }

  /** What is left to read, counting the state of the stream. */
  function Left(s: Stream): nat { |s.rest| + (if s.Good() then 1 else 0) + (if s.fail then 0 else 1) }

  lemma PieceMovesOn(s: Stream)
    ensures var (s', piece) := Piece(s); piece.Ok? && piece.value.Some? ==> Left(s') < Left(s)
  {
  }

  function Prefixed(pieces: seq<LegoPiece>, more: Result<seq<LegoPiece>, FileError>)
    : Result<seq<LegoPiece>, FileError>
  {
    if more.Ok? then Ok(pieces + more.value) else more
  }

  function Pieces(s: Stream): (Stream, Result<seq<LegoPiece>, FileError>)
    decreases Left(s)
  {
    var (s1, piece) := Piece(s);
    PieceMovesOn(s);
    match piece
    case Err(e) => (s1, Err(e))
    case Ok(None) => (s1, Ok([]))
    case Ok(Some(p)) =>
      var (s2, more) := Pieces(s1);
      (s2, Prefixed([p], more))
  }

  lemma PrefixedTwice(pieces: seq<LegoPiece>, p: LegoPiece, more: Result<seq<LegoPiece>, FileError>)
    ensures Prefixed(pieces, Prefixed([p], more)) == Prefixed(pieces + [p], more)
    ensures Prefixed([p], Prefixed(pieces, more)) == Prefixed([p] + pieces, more)
  {
    if more.Ok? {
      assert pieces + ([p] + more.value) == pieces + [p] + more.value;
      assert [p] + (pieces + more.value) == [p] + pieces + more.value;
    }
  }

  lemma PrefixedByFirst(pieces: seq<LegoPiece>, more: Result<seq<LegoPiece>, FileError>)
    requires pieces != []
    ensures Prefixed([pieces[0]], Prefixed(pieces[1..], more)) == Prefixed(pieces, more)
  {
    PrefixedTwice(pieces[1..], pieces[0], more);
    assert [pieces[0]] + pieces[1..] == pieces;
  }

  lemma PrefixedByNone(more: Result<seq<LegoPiece>, FileError>)
    ensures Prefixed([], more) == more
  {
    if more.Ok? { assert [] + more.value == more.value; }
  }

  function Figure(s: Stream): (Stream, Result<Option<LegoFigure>, FileError>) {
    var (s1, name) := Line(s, "");
    if name == "" then (s1, Ok(None))
    else
      var (s2, image) := Line(s1, name);
      if image == "" then (s2, Ok(None))
      else
        var (s3, pieces) := Pieces(s2);
        (s3, if pieces.Ok? then Ok(Some(LegoFigure(name, image, pieces.value))) else Err(pieces.error))
  }

  lemma LineNeverGoesBack(s: Stream, line: string)
    ensures Left(Line(s, line).0) <= Left(s)
    ensures !s.fail ==> Left(Line(s, line).0) < Left(s)
  {
  }

  lemma {:induction false} PiecesNeverGoBack(s: Stream)
    ensures Left(Pieces(s).0) <= Left(s)
    decreases Left(s)
  {
    PieceMovesOn(s);
    var (s1, name) := Line(s, "");
    LineNeverGoesBack(s, "");
    LineNeverGoesBack(s1, name);
    var (s2, image) := Line(s1, name);
    LineNeverGoesBack(s2, image);
    var (s', piece) := Piece(s);
    if piece.Ok? && piece.value.Some? { PiecesNeverGoBack(s'); }
  }

  lemma FigureMovesOn(s: Stream)
    requires !s.fail
    ensures Left(Figure(s).0) < Left(s)
  {
    var (s1, name) := Line(s, "");
    LineNeverGoesBack(s, "");
    LineNeverGoesBack(s1, name);
    PiecesNeverGoBack(Line(s1, name).0);
  }

  function AddFigures(figures: Figures, s: Stream): Result<Figures, FileError>
    decreases Left(s)
  {
    if s.fail then Ok(figures)
    else
      var (s1, figure) := Figure(s);
      FigureMovesOn(s);
      match figure
      case Err(e) => Err(e)
      case Ok(None) => AddFigures(figures, s1)
      case Ok(Some(f)) => AddFigures(figures[f.figureName := f], s1)
  }

  function ReadFile(text: string): Result<Figures, FileError> {
    var (s, line) := Line(Open(text), "");
    if line != FIRST_LINE then Err(WrongFirstLine) else AddFigures(map[], s)
  }

  // ---- The reader ----

  method ReadLegoPiece(file: InputStream) returns (piece: Result<Option<LegoPiece>, FileError>)
    modifies file
    ensures (file.stream, piece) == Piece(old(file.stream))
  {
    var line := file.ReadLine("", '\n');
    if line == "*" {
      return Ok(None);
    }
    var legoPieceName := line;
    line := file.ReadLine(line, '\n');
    if line == "" {
      return Ok(None);
    }
    var legoPieceImage := line;
    line := file.ReadLine(line, '\n');
    if line == "" {
      return Ok(None);
    }
    match Stoull(line)
    case Err(e) => return Err(AmountThrows(e));
    case Ok(n) => return Ok(Some(LegoPiece(legoPieceName, legoPieceImage, n)));
  }

  method ReadLegoFigure(file: InputStream) returns (figure: Result<Option<LegoFigure>, FileError>)
    modifies file
    ensures (file.stream, figure) == Figure(old(file.stream))
  {
    var line := file.ReadLine("", '\n');
    if line == "" {
      return Ok(None);
    }
    var legoFigureName := line;
    line := file.ReadLine(line, '\n');
    if line == "" {
      return Ok(None);
    }
    var legoFigureImage := line;
    var pieces := ReadLegoPieces(file);
    if pieces.Err? {
      return Err(pieces.error);
    }
    return Ok(Some(LegoFigure(legoFigureName, legoFigureImage, pieces.value)));
  }

  method ReadLegoPieces(file: InputStream) returns (pieces: Result<seq<LegoPiece>, FileError>)
    modifies file
    ensures (file.stream, pieces) == Pieces(old(file.stream))
  {
    var legoPieces := [];
    PrefixedByNone(Pieces(file.stream).1);
    while true
      invariant var (end, more) := Pieces(file.stream);
                Pieces(old(file.stream)) == (end, Prefixed(legoPieces, more))
      decreases Left(file.stream)
    {
      PieceMovesOn(file.stream);
      var legoPiece := ReadLegoPiece(file);
      if legoPiece.Err? {
        return Err(legoPiece.error);
      }
      if legoPiece.value.None? {
        assert legoPieces + [] == legoPieces;
        return Ok(legoPieces);
      }
      PrefixedTwice(legoPieces, legoPiece.value.value, Pieces(file.stream).1);
      legoPieces := legoPieces + [legoPiece.value.value];
    }
  }

  class LegoInMemoryRepository {
    var legoFigureMap: Figures

    constructor ()
      ensures legoFigureMap == map[]
    {
      legoFigureMap := map[];
    }

    /** The source's constructor, given the text of its file. It ends on every text: by an exception, or
        with the figures of the text. */
    method Load(text: string) returns (thrown: Option<FileError>)
      modifies this
      ensures old(legoFigureMap) == map[] ==>
                match ReadFile(text)
                case Ok(figures) => thrown == None && legoFigureMap == figures
                case Err(e) => thrown == Some(e)
    {
      var legoFile := new InputStream(text);
      var line := legoFile.ReadLine("", '\n');
      if line != FIRST_LINE {
        return Some(WrongFirstLine);
      }
      ghost var all := AddFigures(legoFigureMap, legoFile.stream);
      while !legoFile.stream.fail
        invariant AddFigures(legoFigureMap, legoFile.stream) == all
        decreases Left(legoFile.stream)
      {
        FigureMovesOn(legoFile.stream);
        var figure := ReadLegoFigure(legoFile);
        if figure.Err? {
          return Some(figure.error);
        }
        if figure.value.Some? {
          legoFigureMap := legoFigureMap[figure.value.value.figureName := figure.value.value];
        }
      }
      return None;
    }
  }

  // ---- Writing, then reading ----

  function PieceText(p: LegoPiece): string {
    p.pieceName + "\n" + (p.imagePath + "\n" + (NatText(p.quantity) + "\n"))
  }

  function PiecesText(pieces: seq<LegoPiece>): string {
    if pieces == [] then "" else PieceText(pieces[0]) + PiecesText(pieces[1..])
  }

  /** The text of a figure, with a given end of its list of pieces. */
  function FigureWith(f: LegoFigure, tail: string): string {
    f.figureName + "\n" + (f.imagePath + "\n" + (PiecesText(f.legoPieces) + tail))
  }

  function FigureText(f: LegoFigure): string {
    FigureWith(f, "*\n")
  }

  function FiguresText(figures: seq<LegoFigure>): string {
    if figures == [] then "" else FigureText(figures[0]) + FiguresText(figures[1..])
  }

  function FileText(figures: seq<LegoFigure>): string { FIRST_LINE + "\n" + FiguresText(figures) }

  predicate OneLine(s: string) { '\n' !in s }

  predicate PlainPiece(p: LegoPiece) {
    && OneLine(p.pieceName) && p.pieceName != "*" && OneLine(p.imagePath) && p.imagePath != ""
    && p.quantity < TWO_TO_THE_64
  }

  predicate PlainFigure(f: LegoFigure) {
    && OneLine(f.figureName) && f.figureName != "" && OneLine(f.imagePath) && f.imagePath != ""
    && forall i :: 0 <= i < |f.legoPieces| ==> PlainPiece(f.legoPieces[i])
  }

  predicate PlainFigures(figures: seq<LegoFigure>) { forall i :: 0 <= i < |figures| ==> PlainFigure(figures[i]) }

  /** Of the figures with one name the last one counts. */
  function LastWins(known: Figures, figures: seq<LegoFigure>): Figures
    decreases |figures|
  {
    if figures == [] then known else LastWins(known[figures[0].figureName := figures[0]], figures[1..])
  }

  lemma LineIsRead(text: string, rest: string, line: string)
    requires OneLine(text)
    ensures Line(Open(text + "\n" + rest), line) == (Open(rest), text)
    ensures Line(Open(text), line) == (Stream("", true, text == ""), text)
  {
    FindAfter(text, '\n', rest);
    var both := text + "\n" + rest;
    assert text + ['\n'] + rest == both && both[..|text|] == text && both[|text| + 1..] == rest;
    FindIs(text, '\n', |text|);
  }

  lemma AmountIsOneLine(n: nat)
    ensures OneLine(NatText(n)) && NatText(n) != ""
  {
    NoSpecialInText(n, '\n');
  }

  lemma PieceIsReadAtEnd(p: LegoPiece)
    requires PlainPiece(p)
    ensures Piece(Open(PieceText(p)[..|PieceText(p)| - 1])) == (Stream("", true, false), Ok(Some(p)))
  {
    var amount := NatText(p.quantity);
    AmountIsOneLine(p.quantity);
    StoullInvertsText(p.quantity);
    var r1 := p.imagePath + "\n" + amount;
    assert PieceText(p)[..|PieceText(p)| - 1] == p.pieceName + "\n" + r1;
    LineIsRead(p.pieceName, r1, "");
    LineIsRead(p.imagePath, amount, p.pieceName);
    LineIsRead(amount, "", p.imagePath);
  }

  /** A printed piece is read back, whether or not its last line is ended. */
  lemma PieceIsRead(p: LegoPiece, rest: string)
    requires PlainPiece(p)
    ensures Piece(Open(PieceText(p) + rest)) == (Open(rest), Ok(Some(p)))
    ensures Piece(Open(PieceText(p)[..|PieceText(p)| - 1])) == (Stream("", true, false), Ok(Some(p)))
  {
    var amount := NatText(p.quantity);
    AmountIsOneLine(p.quantity);
    StoullInvertsText(p.quantity);
    var r2 := amount + "\n" + rest;
    var r1 := p.imagePath + "\n" + r2;
    assert PieceText(p) + rest == p.pieceName + "\n" + r1;
    LineIsRead(p.pieceName, r1, "");
    LineIsRead(p.imagePath, r2, p.pieceName);
    LineIsRead(amount, rest, p.imagePath);
    PieceIsReadAtEnd(p);
  }

  /** A piece name in the very last line, not ended: the reads that fail leave it in the string, so it is
      taken for the image path and for the amount too. */
  lemma LastLineIsReadThreeTimes(name: string)
    requires OneLine(name) && name != "" && name != "*"
    ensures Piece(Open(name)).1 == match Stoull(name)
                                   case Ok(n) => Ok(Some(LegoPiece(name, name, n)))
                                   case Err(e) => Err(AmountThrows(e))
  {
    LineIsRead(name, "", "");
  }

  lemma FirstPieceIsRead(p: LegoPiece, rest: string)
    requires PlainPiece(p)
    ensures var (end, more) := Pieces(Open(rest)); Pieces(Open(PieceText(p) + rest)) == (end, Prefixed([p], more))
  {
    PieceIsRead(p, rest);
  }

  lemma {:induction false} PiecesAreRead(pieces: seq<LegoPiece>, tail: string)
    requires forall i :: 0 <= i < |pieces| ==> PlainPiece(pieces[i])
    ensures var (end, more) := Pieces(Open(tail));
            Pieces(Open(PiecesText(pieces) + tail)) == (end, Prefixed(pieces, more))
    decreases |pieces|
  {
    var (end, more) := Pieces(Open(tail));
    if pieces == [] {
      assert PiecesText(pieces) + tail == tail;
      PrefixedByNone(more);
    } else {
      var p := pieces[0];
      Regroup(PieceText(p), PiecesText(pieces[1..]), tail);
      FirstPieceIsRead(p, PiecesText(pieces[1..]) + tail);
      PiecesAreRead(pieces[1..], tail);
      PrefixedByFirst(pieces, more);
    }
  }

  /** The ways in which the list of pieces of a figure can end. */
  lemma PiecesEnd(rest: string)
    ensures Pieces(Open("*\n" + rest)) == (Open(rest), Ok([]))
    ensures Pieces(Open("*")) == (Stream("", true, false), Ok([]))
    ensures Pieces(Open("")) == (Stream("", true, true), Ok([]))
    ensures Pieces(Stream("", true, false)) == (Stream("", true, true), Ok([]))
  {
    LineIsRead("*", rest, "");
    assert "*" + "\n" + rest == "*\n" + rest;
  }

  /** A figure whose list of pieces ends in some way. */
  lemma FigureIsRead(f: LegoFigure, tail: string, end: Stream)
    requires PlainFigure(f) && Pieces(Open(tail)) == (end, Ok([]))
    ensures Figure(Open(FigureWith(f, tail))) == (end, Ok(Some(f)))
  {
    var pieces := PiecesText(f.legoPieces) + tail;
    LineIsRead(f.figureName, f.imagePath + "\n" + pieces, "");
    LineIsRead(f.imagePath, pieces, f.figureName);
    PiecesAreRead(f.legoPieces, tail);
    assert f.legoPieces + [] == f.legoPieces;
  }

  lemma FigureTextWithRest(f: LegoFigure, rest: string)
    ensures FigureText(f) + rest
            == FigureWith(f, "*\n" + rest)
  {
  }

  lemma WholeFigureIsRead(f: LegoFigure, rest: string)
    requires PlainFigure(f)
    ensures Figure(Open(FigureText(f) + rest)) == (Open(rest), Ok(Some(f)))
  {
    PiecesEnd(rest);
    FigureIsRead(f, "*\n" + rest, Open(rest));
    FigureTextWithRest(f, rest);
  }

  predicate ReadAtEnd(text: string, f: LegoFigure) {
    var (end, figure) := Figure(Open(text)); figure == Ok(Some(f)) && end.rest == "" && end.eof
  }

  lemma FigureTextCut(f: LegoFigure, cut: nat)
    requires cut <= 2
    ensures |FigureText(f)| > 3
    ensures FigureText(f)[..|FigureText(f)| - cut] == FigureWith(f, "*\n"[..2 - cut])
  {
    var front := f.figureName + "\n" + (f.imagePath + "\n" + PiecesText(f.legoPieces));
    assert FigureText(f) == front + "*\n";
    assert FigureWith(f, "*\n"[..2 - cut]) == front + "*\n"[..2 - cut];
  }

  lemma FigureWithoutNewline(f: LegoFigure, cut: nat)
    requires PlainFigure(f) && cut == 1
    ensures |FigureText(f)| > 3 && ReadAtEnd(FigureText(f)[..|FigureText(f)| - cut], f)
  {
    PiecesEnd("");
    FigureIsRead(f, "*", Stream("", true, false));
    FigureTextCut(f, cut);
    assert "*\n"[..2 - cut] == "*";
  }

  lemma FigureWithoutStar(f: LegoFigure, cut: nat)
    requires PlainFigure(f) && cut == 2
    ensures |FigureText(f)| > 3 && ReadAtEnd(FigureText(f)[..|FigureText(f)| - cut], f)
  {
    PiecesEnd("");
    FigureIsRead(f, "", Stream("", true, true));
    FigureTextCut(f, cut);
    assert "*\n"[..2 - cut] == "";
  }

  lemma FigureWithoutPieces(f: LegoFigure, cut: nat)
    requires PlainFigure(f) && f.legoPieces == [] && cut == 3
    ensures |FigureText(f)| > 3 && ReadAtEnd(FigureText(f)[..|FigureText(f)| - cut], f)
  {
    PiecesEnd("");
    LineIsRead(f.figureName, f.imagePath, "");
    LineIsRead(f.imagePath, "", f.figureName);
    var text := FigureText(f);
    assert text[..|text| - 3] == f.figureName + "\n" + f.imagePath;
  }

  lemma CutOfThree(name: string, image: string, pieces: string, last: string)
    requires last != ""
    ensures var text := name + "\n" + (image + "\n" + ((pieces + last) + "*\n"));
            |text| > 3 && text[..|text| - 3] == name + "\n" + (image + "\n" + (pieces + last[..|last| - 1]))
  {
    var text := name + "\n" + (image + "\n" + ((pieces + last) + "*\n"));
    var front := name + "\n" + (image + "\n" + pieces);
    assert text == front + (last + "*\n");
    assert (last + "*\n")[..|last| - 1] == last[..|last| - 1];
    assert name + "\n" + (image + "\n" + (pieces + last[..|last| - 1])) == front + last[..|last| - 1];
  }

  lemma {:induction false} PiecesTextSnoc(pieces: seq<LegoPiece>, p: LegoPiece)
    ensures PiecesText(pieces + [p]) == PiecesText(pieces) + PieceText(p)
    decreases |pieces|
  {
    if pieces == [] {
      assert PiecesText([p]) == PieceText(p) + PiecesText([]);
    } else {
      assert (pieces + [p])[1..] == pieces[1..] + [p];
      PiecesTextSnoc(pieces[1..], p);
    }
  }

  lemma FigureTextInLastPiece(f: LegoFigure, front: seq<LegoPiece>, last: LegoPiece)
    requires f.legoPieces == front + [last]
    ensures |FigureText(f)| > 3
    ensures FigureText(f)[..|FigureText(f)| - 3]
            == FigureWith(f.(legoPieces := front), PieceText(last)[..|PieceText(last)| - 1])
  {
    PiecesTextSnoc(front, last);
    CutOfThree(f.figureName, f.imagePath, PiecesText(front), PieceText(last));
  }

  lemma FigureEndsInPiece(f: LegoFigure, tail: string, last: LegoPiece)
    requires PlainFigure(f) && Pieces(Open(tail)) == (Stream("", true, true), Ok([last]))
    ensures Figure(Open(FigureWith(f, tail)))
            == (Stream("", true, true), Ok(Some(f.(legoPieces := f.legoPieces + [last]))))
  {
    var pieces := PiecesText(f.legoPieces) + tail;
    LineIsRead(f.figureName, f.imagePath + "\n" + pieces, "");
    LineIsRead(f.imagePath, pieces, f.figureName);
    PiecesAreRead(f.legoPieces, tail);
  }

  lemma LastPieceIsRead(last: LegoPiece, tail: string)
    requires PlainPiece(last) && tail == PieceText(last)[..|PieceText(last)| - 1]
    ensures Pieces(Open(tail)) == (Stream("", true, true), Ok([last]))
  {
    PieceIsReadAtEnd(last);
    PiecesEnd("");
    assert [last] + [] == [last];
  }

  lemma CutPieceIsRead(f: LegoFigure, cut: nat)
    requires PlainFigure(f) && f.legoPieces != [] && cut == 3
    ensures |FigureText(f)| > 3 && ReadAtEnd(FigureText(f)[..|FigureText(f)| - cut], f)
  {
    var n := |f.legoPieces| - 1;
    var last, front := f.legoPieces[n], f.legoPieces[..n];
    var tail := PieceText(last)[..|PieceText(last)| - 1];
    assert f.legoPieces == front + [last];
    LastPieceIsRead(last, tail);
    FigureEndsInPiece(f.(legoPieces := front), tail, last);
    FigureTextInLastPiece(f, front, last);
  }

  /** The last figure may lack its newline, its "*", or even the newline before that. */
  lemma CutFigureIsRead(f: LegoFigure, cut: nat)
    requires PlainFigure(f) && 1 <= cut <= 3
    ensures |FigureText(f)| > 3 && ReadAtEnd(FigureText(f)[..|FigureText(f)| - cut], f)
  {
    if cut == 1 {
      FigureWithoutNewline(f, cut);
    } else if cut == 2 {
      FigureWithoutStar(f, cut);
    } else if f.legoPieces == [] {
      FigureWithoutPieces(f, cut);
    } else {
      CutPieceIsRead(f, cut);
    }
  }

  lemma {:induction false} FiguresAreRead(known: Figures, figures: seq<LegoFigure>, tail: string)
    requires PlainFigures(figures)
    ensures AddFigures(known, Open(FiguresText(figures) + tail)) == AddFigures(LastWins(known, figures), Open(tail))
    decreases |figures|
  {
    if figures == [] {
      assert FiguresText(figures) + tail == tail;
    } else {
      var rest := FiguresText(figures[1..]) + tail;
      assert FiguresText(figures) + tail == FigureText(figures[0]) + rest;
      WholeFigureIsRead(figures[0], rest);
      FiguresAreRead(known[figures[0].figureName := figures[0]], figures[1..], tail);
    }
  }

  lemma NothingMoreIsRead(known: Figures, s: Stream)
    requires s.rest == "" && (s.Good() || s.eof)
    ensures AddFigures(known, s) == Ok(known)
  {
    if !s.fail {
      assert Line(s, "") == (Stream("", true, true), "");
      assert AddFigures(known, Stream("", true, true)) == Ok(known);
    }
  }

  lemma {:induction false} LastWinsSnoc(known: Figures, figures: seq<LegoFigure>, f: LegoFigure)
    ensures LastWins(known, figures + [f]) == LastWins(known, figures)[f.figureName := f]
    ensures FiguresText(figures + [f]) == FiguresText(figures) + FigureText(f)
    decreases |figures|
  {
    if figures == [] {
      assert LastWins(known, [f]) == LastWins(known[f.figureName := f], []);
      assert FiguresText([f]) == FigureText(f) + FiguresText([]);
    } else {
      assert (figures + [f])[1..] == figures[1..] + [f];
      LastWinsSnoc(known[figures[0].figureName := figures[0]], figures[1..], f);
    }
  }

  lemma FileStarts(body: string)
    ensures ReadFile(FIRST_LINE + "\n" + body) == AddFigures(map[], Open(body))
  {
    assert OneLine(FIRST_LINE);
    LineIsRead(FIRST_LINE, body, "");
  }

  lemma CutFileIsRead(front: seq<LegoFigure>, last: LegoFigure, tail: string, text: string)
    requires PlainFigures(front) && ReadAtEnd(tail, last) && text == FIRST_LINE + "\n" + (FiguresText(front) + tail)
    ensures ReadFile(text) == Ok(LastWins(map[], front + [last]))
  {
    LastWinsSnoc(map[], front, last);
    FileStarts(FiguresText(front) + tail);
    FiguresAreRead(map[], front, tail);
    NothingMoreIsRead(LastWins(map[], front + [last]), Figure(Open(tail)).0);
  }

  lemma WholeFileIsRead(figures: seq<LegoFigure>)
    requires PlainFigures(figures)
    ensures ReadFile(FileText(figures)) == Ok(LastWins(map[], figures))
  {
    assert FiguresText(figures) + "" == FiguresText(figures);
    FileStarts(FiguresText(figures));
    FiguresAreRead(map[], figures, "");
    NothingMoreIsRead(LastWins(map[], figures), Open(""));
  }

  lemma CutFileText(front: seq<LegoFigure>, last: LegoFigure, cut: nat)
    requires cut <= |FigureText(last)|
    ensures cut <= |FileText(front + [last])|
    ensures FileText(front + [last])[..|FileText(front + [last])| - cut]
            == FIRST_LINE + "\n" + (FiguresText(front) + FigureText(last)[..|FigureText(last)| - cut])
  {
    LastWinsSnoc(map[], front, last);
  }

  lemma CutFileRoundTrip(front: seq<LegoFigure>, last: LegoFigure, cut: nat, text: string)
    requires PlainFigures(front) && PlainFigure(last) && 1 <= cut <= 3
    requires cut <= |FileText(front + [last])| && text == FileText(front + [last])[..|FileText(front + [last])| - cut]
    ensures ReadFile(text) == Ok(LastWins(map[], front + [last]))
  {
    CutFigureIsRead(last, cut);
    CutFileText(front, last, cut);
    CutFileIsRead(front, last, FigureText(last)[..|FigureText(last)| - cut], text);
  }

  /** Writing any list of figures and reading the file gives the last figure of every name, even if up to
      three characters are missing at the end: the last newline, the last "*", the newline before it. */
  lemma FileRoundTrip(figures: seq<LegoFigure>, cut: nat, text: string)
    requires PlainFigures(figures) && cut <= (if figures == [] then 0 else 3)
    requires cut <= |FileText(figures)| && text == FileText(figures)[..|FileText(figures)| - cut]
    ensures ReadFile(text) == Ok(LastWins(map[], figures))
  {
    if cut == 0 {
      assert text == FileText(figures);
      WholeFileIsRead(figures);
    } else {
      var n := |figures| - 1;
      assert figures == figures[..n] + [figures[n]];
      CutFileRoundTrip(figures[..n], figures[n], cut, text);
    }
  }

  // ---- Files that are not as they should be ----

  /** A file with another first line is refused. */
  lemma WrongFirstLineIsRefused(line: string, rest: string)
    requires OneLine(line)
    ensures ReadFile(line + "\n" + rest) == Err(WrongFirstLine) || line == "Lego source File :: group ESJOJO"
    ensures ReadFile(line) == Err(WrongFirstLine) || line == "Lego source File :: group ESJOJO"
  {
    LineIsRead(line, rest, "");
  }

  /** An empty line where a figure should begin is skipped. */
  lemma BlankLineIsSkipped(known: Figures, rest: string)
    ensures AddFigures(known, Open("\n" + rest)) == AddFigures(known, Open(rest))
  {
    LineIsRead("", rest, "");
    assert "" + "\n" + rest == "\n" + rest;
  }

  /** So is a figure without an image. */
  lemma FigureWithoutImageIsSkipped(known: Figures, name: string, rest: string)
    requires OneLine(name) && name != ""
    ensures AddFigures(known, Open(name + "\n" + ("\n" + rest))) == AddFigures(known, Open(rest))
  {
    LineIsRead(name, "\n" + rest, "");
    LineIsRead("", rest, name);
    assert "" + "\n" + rest == "\n" + rest;
  }

  /** A piece without an image, or without an amount, ends the figure, and what is behind is read as a figure. */
  lemma IncompletePieceEndsFigure(name: string, image: string, rest: string)
    requires OneLine(name) && name != "*" && OneLine(image) && image != ""
    ensures Piece(Open(name + "\n" + ("\n" + rest))) == (Open(rest), Ok(None))
    ensures Piece(Open(name + "\n" + (image + "\n" + ("\n" + rest)))) == (Open(rest), Ok(None))
  {
    LineIsRead(name, "\n" + rest, "");
    LineIsRead("", rest, name);
    LineIsRead(name, image + "\n" + ("\n" + rest), "");
    LineIsRead(image, "\n" + rest, name);
    LineIsRead("", rest, image);
    assert "" + "\n" + rest == "\n" + rest;
  }

  lemma BadAmountInPiece(name: string, image: string, amount: string, rest: string)
    requires OneLine(name) && name != "*" && OneLine(image) && image != "" && OneLine(amount) && amount != ""
    requires Stoull(amount).Err?
    ensures Pieces(Open(name + "\n" + (image + "\n" + (amount + "\n" + rest))))
         == (Open(rest), Err(AmountThrows(Stoull(amount).error)))
  {
    LineIsRead(name, image + "\n" + (amount + "\n" + rest), "");
    LineIsRead(image, amount + "\n" + rest, name);
    LineIsRead(amount, rest, image);
  }

  /** An amount that does not convert throws, whatever figures and pieces were read before. */
  lemma BadAmountThrows(figures: seq<LegoFigure>, f: LegoFigure, name: string, image: string, amount: string,
                        rest: string)
    requires PlainFigures(figures) && PlainFigure(f)
    requires OneLine(name) && name != "*" && OneLine(image) && image != "" && OneLine(amount) && amount != ""
    requires Stoull(amount).Err?
    ensures var piece := name + "\n" + (image + "\n" + (amount + "\n" + rest));
            ReadFile(FIRST_LINE + "\n" + (FiguresText(figures) + FigureWith(f, piece)))
            == Err(AmountThrows(Stoull(amount).error))
  {
    var piece := name + "\n" + (image + "\n" + (amount + "\n" + rest));
    var pieces := PiecesText(f.legoPieces) + piece;
    FileStarts(FiguresText(figures) + FigureWith(f, piece));
    FiguresAreRead(map[], figures, FigureWith(f, piece));
    BadAmountInPiece(name, image, amount, rest);
    PiecesAreRead(f.legoPieces, piece);
    LineIsRead(f.figureName, f.imagePath + "\n" + pieces, "");
    LineIsRead(f.imagePath, pieces, f.figureName);
  }

  lemma {:induction false} OthersKeepFigure(known: Figures, figures: seq<LegoFigure>, name: string)
    requires forall j :: 0 <= j < |figures| ==> figures[j].figureName != name
    ensures name in LastWins(known, figures) <==> name in known
    ensures name in known ==> LastWins(known, figures)[name] == known[name]
    decreases |figures|
  {
    if figures == [] {
    } else {
      OthersKeepFigure(known[figures[0].figureName := figures[0]], figures[1..], name);
    }
  }

  /** Of the figures with one name it is the last that is kept. */
  lemma {:induction false} LastFigureCounts(known: Figures, figures: seq<LegoFigure>, k: nat)
    requires k < |figures| && forall j :: k < j < |figures| ==> figures[j].figureName != figures[k].figureName
    ensures figures[k].figureName in LastWins(known, figures)
    ensures LastWins(known, figures)[figures[k].figureName] == figures[k]
    decreases |figures|
  {
    if k == 0 {
      OthersKeepFigure(known[figures[0].figureName := figures[0]], figures[1..], figures[0].figureName);
    } else {
      LastFigureCounts(known[figures[0].figureName := figures[0]], figures[1..], k - 1);
    }
  }
}
