/** How long a recipient takes the body of a response to be, given the lines of its header (section 6.3 of
    RFC 9112). Stated without reference to the code that prints them. */
module HttpMessageLength {
  import opened Wrappers
  import opened Decimal
  import opened Text

  const CONTENT_LENGTH: string := "Content-Length"
  const TRANSFER_ENCODING: string := "Transfer-Encoding"

  predicate IsBlank(c: char) { c == ' ' || c == '\t' }

  function TrimLeft(s: string): string {
    if s != "" && IsBlank(s[0]) then TrimLeft(s[1..]) else s
  }

  function TrimRight(s: string): string {
    if s != "" && IsBlank(s[|s| - 1]) then TrimRight(s[..|s| - 1]) else s
  }

  function Lower(c: char): char { if 'A' <= c <= 'Z' then (c as int + 32) as char else c }

  /** Field names are compared without regard to case. */
  predicate SameName(a: string, b: string) {
    |a| == |b| && forall i :: 0 <= i < |a| ==> Lower(a[i]) == Lower(b[i])
  }

  /** The line is a field of this name; blanks before the ':' do not count. */
  predicate Named(line: string, name: string) {
    Find(line, ':') < |line| && SameName(TrimRight(line[..Find(line, ':')]), name)
  }

  function Trimmed(pieces: seq<string>): (items: seq<string>)
    ensures |items| == |pieces|
  {
    seq(|pieces|, i requires 0 <= i < |pieces| => TrimRight(TrimLeft(pieces[i])))
  }

  /** The items of the list that the line's value is. */
  function Items(line: string): (items: seq<string>)
    requires Find(line, ':') < |line|
    ensures items != []
  {
    Trimmed(Split(line[Find(line, ':') + 1..], ','))
  }

  /** The lengths that the fields give, if several then also in one field. */
  function Lengths(fields: seq<string>): seq<string> {
    if fields == [] then []
    else
      var n := |fields| - 1;
      Lengths(fields[..n]) + (if Named(fields[n], CONTENT_LENGTH) then Items(fields[n]) else [])
  }

  predicate IsLength(item: string, n: nat) { item != "" && AllDigits(item) && NatValue(item) == n }

  predicate AllAre(items: seq<string>, n: nat) { forall item :: item in items ==> IsLength(item, n) }

  /** The status code, from the status line. */
  function StatusCode(line: string): string {
    var n := Find(line, ' ');
    if n + 4 <= |line| then line[n + 1..n + 4] else ""
  }

  /** Responses with these status codes have no body, whatever their fields say. */
  predicate HasNoBody(statusLine: string) {
    var code := StatusCode(statusLine);
    code == "204" || code == "304" || (code != "" && AllDigits(code) && code[0] == '1')
  }

  /** A line that continues the one before; a recipient may refuse a message that has one (section 5.2 of
      RFC 9112). */
  predicate IsFolded(line: string) { line != "" && IsBlank(line[0]) }

  /** The length of the body that follows, if the header gives one: none if a line is folded, if the body is
      transfer-encoded, if no length is given, if one is not a number, or if two of them differ. */
  function MessageLength(lines: seq<string>): Option<nat>
    requires lines != []
  {
    var fields, lengths := lines[1..], Lengths(lines[1..]);
    if HasNoBody(lines[0]) then Some(0)
    else if exists i :: 0 <= i < |fields| && (IsFolded(fields[i]) || Named(fields[i], TRANSFER_ENCODING)) then None
    else if lengths == [] || lengths[0] == "" || !AllDigits(lengths[0]) then None
    else
      var n := NatValue(lengths[0]);
      if AllAre(lengths, n) then Some(n) else None
  }

  /** The lengths that the line gives, if any, are n. */
  predicate Gives(line: string, n: nat) { Named(line, CONTENT_LENGTH) ==> AllAre(Items(line), n) }

  /** Nothing in the line speaks against a body of n characters. */
  predicate Agrees(line: string, n: nat) { !IsFolded(line) && !Named(line, TRANSFER_ENCODING) && Gives(line, n) }

  lemma AllOfBoth(a: seq<string>, b: seq<string>, n: nat)
    ensures AllAre(a + b, n) <==> AllAre(a, n) && AllAre(b, n)
  {
    if AllAre(a + b, n) {
      forall item | item in a ensures IsLength(item, n) { assert item in a + b; }
      forall item | item in b ensures IsLength(item, n) { assert item in a + b; }
    }
  }

  lemma LengthsSnoc(fields: seq<string>, line: string, n: nat)
    ensures AllAre(Lengths(fields + [line]), n) <==> AllAre(Lengths(fields), n) && Gives(line, n)
  {
    assert (fields + [line])[..|fields|] == fields;
    AllOfBoth(Lengths(fields), if Named(line, CONTENT_LENGTH) then Items(line) else [], n);
  }

  ghost predicate AllGive(fields: seq<string>, n: nat) { forall k :: 0 <= k < |fields| ==> Gives(fields[k], n) }

  lemma AllGiveSnoc(fields: seq<string>, line: string, n: nat)
    ensures AllGive(fields + [line], n) <==> AllGive(fields, n) && Gives(line, n)
  {
    if AllGive(fields + [line], n) {
      forall k | 0 <= k < |fields| ensures Gives(fields[k], n) { assert (fields + [line])[k] == fields[k]; }
      assert (fields + [line])[|fields|] == line;
    }
  }

  lemma {:induction false} LengthsAreThoseGiven(fields: seq<string>, n: nat)
    ensures AllAre(Lengths(fields), n) <==> AllGive(fields, n)
    decreases |fields|
  {
    if fields == [] {
    } else {
      var front, last := fields[..|fields| - 1], fields[|fields| - 1];
      assert fields == front + [last];
      LengthsAreThoseGiven(front, n);
      LengthsSnoc(front, last, n);
      AllGiveSnoc(front, last, n);
    }
  }

  lemma {:induction false} SomeLengthIsGiven(fields: seq<string>, k: nat)
    requires k < |fields| && Named(fields[k], CONTENT_LENGTH)
    ensures Lengths(fields) != []
    decreases |fields|
  {
    if k == |fields| - 1 {
      assert |Lengths(fields)| >= |Items(fields[k])| > 0;
    } else {
      SomeLengthIsGiven(fields[..|fields| - 1], k);
    }
  }

  /** A header that gives some length gives length n exactly when all its fields agree with n. */
  lemma LengthIsWhatAllAgreeOn(lines: seq<string>, n: nat)
    requires lines != [] && !HasNoBody(lines[0]) && Lengths(lines[1..]) != []
    ensures MessageLength(lines) == Some(n) <==> forall k :: 0 <= k < |lines[1..]| ==> Agrees(lines[1..][k], n)
  {
    var fields := lines[1..];
    var first := Lengths(fields)[0];
    LengthsAreThoseGiven(fields, n);
    assert first in Lengths(fields);
    assert AllAre(Lengths(fields), n) ==> IsLength(first, n);
  }

  // ---- Lines that are printed for a purpose ----

  lemma NameOfLine(name: string, value: string)
    requires name != "" && ':' !in name && !IsBlank(name[|name| - 1])
    ensures var line := name + ": " + value;
            && Find(line, ':') == |name|
            && line[..|name|] == name
            && TrimRight(line[..|name|]) == name
            && line[|name| + 1..] == " " + value
  {
    var line := name + ": " + value;
    assert line == name + [':'] + (" " + value);
    FindAfter(name, ':', " " + value);
  }

  /** A field of another name agrees with every length. */
  lemma OtherNamesAgree(name: string, value: string, n: nat)
    requires name != "" && ':' !in name && !IsBlank(name[0]) && !IsBlank(name[|name| - 1])
    requires |name| != |CONTENT_LENGTH| && |name| != |TRANSFER_ENCODING|
    ensures Agrees(name + ": " + value, n)
  {
    NameOfLine(name, value);
  }

  lemma NoCommaInDigits(digits: string)
    requires AllDigits(digits)
    ensures Split(" " + digits, ',') == [" " + digits]
  {
    FindIs(" " + digits, ',', |" " + digits|);
  }

  lemma TrimmedDigits(digits: string)
    requires AllDigits(digits) && digits != ""
    ensures TrimRight(TrimLeft(" " + digits)) == digits
  {
    assert (" " + digits)[1..] == digits && IsDigit(digits[0]) && IsDigit(digits[|digits| - 1]);
    assert TrimLeft(digits) == digits;
  }

  lemma OneItem(value: string, digits: string)
    requires value == " " + digits && AllDigits(digits) && digits != ""
    ensures Trimmed([value]) == [digits] && digits in Trimmed([value])
  {
    TrimmedDigits(digits);
    assert Trimmed([value])[0] == digits;
  }

  lemma PrintedLengthIsGiven(m: nat)
    ensures var line := CONTENT_LENGTH + ": " + NatText(m);
            Named(line, CONTENT_LENGTH) && Items(line) == [NatText(m)] && NatText(m) in Items(line)
  {
    var digits := NatText(m);
    NameOfLine(CONTENT_LENGTH, digits);
    NatTextHasValue(m);
    NoCommaInDigits(digits);
    OneItem(" " + digits, digits);
  }

  lemma PrintedLengthIsNothingElse(digits: string)
    ensures var line := CONTENT_LENGTH + ": " + digits; !IsFolded(line) && !Named(line, TRANSFER_ENCODING)
  {
    NameOfLine(CONTENT_LENGTH, digits);
  }

  /** A printed length agrees with itself only. */
  lemma PrintedLength(m: nat, n: nat)
    ensures var line := CONTENT_LENGTH + ": " + NatText(m);
            Named(line, CONTENT_LENGTH) && (Agrees(line, n) <==> m == n)
  {
    PrintedLengthIsGiven(m);
    PrintedLengthIsNothingElse(NatText(m));
    NatTextHasValue(m);
  }
}
