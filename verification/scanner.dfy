/** The character scanners of the head parsers and the header-line reader that
    HttpRequest and CgiResponseParser share. */
module Scanner {
  import opened Text

  const MAX_URI_SIZE: nat := 1024
  const MAX_HEADER_SIZE: nat := 8192

  /** The five scanning loops: request path, query, version, header name, header value. */
  datatype Kind = PathScan | QueryScan | VersionScan | NameScan | ValueScan

  /** The characters a loop stops in front of; NUL, the end of the C string, is always one. */
  predicate Stops(kind: Kind, c: char) {
    || c == '\0'
    || match kind
       case PathScan => c == ' ' || c == '?'
       case QueryScan => c == ' '
       case VersionScan => c == '\r'
       case NameScan => c == ':'
       case ValueScan => c == '\r' || c == '\n'
  }

  /** What reading `c` throws when `used` bytes were counted before it. */
  function Verdict(kind: Kind, c: char, used: nat): Option<Status> {
    match kind
    case PathScan | QueryScan =>
      if c == '#' then Some(BadRequest)
      else if used + 1 >= MAX_URI_SIZE then Some(UriTooLong)
      else if !IsVisible(c) then Some(BadRequest)
      else None
    case VersionScan =>
      if !IsVisible(c) then Some(BadRequest) else None
    case NameScan | ValueScan =>
      if !IsHeaderChar(c) then Some(BadRequest)
      else if used + 1 > MAX_HEADER_SIZE then Some(HeaderFieldsTooLarge)
      else None
  }

  /** The scanning loop from `pos`: the position it stops at, or what it throws. */
  function Scan(kind: Kind, s: string, pos: nat, used: nat): (r: Result<nat>)
    ensures r.Ok? ==> pos <= r.value && (pos <= |s| ==> r.value <= |s|)
    decreases |s| - pos
  {
    var c := At(s, pos);
    if Stops(kind, c) then Ok(pos)
    else match Verdict(kind, c, used)
         case Some(status) => Err(status)
         case None => Scan(kind, s, pos + 1, used + 1)
  }

  /** The characters that may stand in the scanned text. */
  predicate Allowed(kind: Kind, c: char) {
    match kind
    case PathScan => IsVisible(c) && c != '#' && c != '?'
    case QueryScan => IsVisible(c) && c != '#'
    case VersionScan => IsVisible(c)
    case NameScan => IsHeaderChar(c) && c != ':'
    case ValueScan => IsHeaderChar(c)
  }

  predicate AllAllowed(kind: Kind, text: string) {
    forall i | 0 <= i < |text| :: Allowed(kind, text[i])
  }

  /** The length limit that goes with a kind of text. */
  predicate Fits(kind: Kind, used: nat) {
    match kind
    case PathScan | QueryScan => used < MAX_URI_SIZE
    case VersionScan => true
    case NameScan | ValueScan => used <= MAX_HEADER_SIZE
  }

  /** A scan ends normally at `end` exactly when the text before `end` is allowed and fits,
      and a stop character stands at `end`. */
  lemma {:induction false} ScanMeaning(kind: Kind, s: string, pos: nat, used: nat, end: nat)
    requires pos <= end
    ensures Scan(kind, s, pos, used) == Ok(end) <==>
            && (forall i | pos <= i < end :: Allowed(kind, At(s, i)))
            && (end == pos || Fits(kind, used + (end - pos)))
            && Stops(kind, At(s, end))
    decreases |s| - pos
  {
    var c := At(s, pos);
    if Stops(kind, c) {
      assert end != pos ==> !Allowed(kind, At(s, pos));
    } else if Verdict(kind, c, used).None? {
      assert Allowed(kind, c) && Fits(kind, used + 1);
      if end == pos {
        assert Scan(kind, s, pos, used) == Scan(kind, s, pos + 1, used + 1);
      } else {
        ScanMeaning(kind, s, pos + 1, used + 1, end);
      }
    } else {
      assert end > pos ==> !Allowed(kind, At(s, pos)) || !Fits(kind, used + (end - pos));
    }
  }

  /** Text printed into `s` is what the scan reads back. */
  lemma ScanReads(kind: Kind, s: string, pos: nat, used: nat, text: string)
    requires HasAt(s, pos, text) && AllAllowed(kind, text)
    requires text == "" || Fits(kind, used + |text|)
    requires Stops(kind, At(s, pos + |text|))
    ensures Scan(kind, s, pos, used) == Ok(pos + |text|)
  {
    HasAtChars(s, pos, text);
    forall i | pos <= i < pos + |text| ensures Allowed(kind, At(s, i)) {
      assert At(s, pos + (i - pos)) == text[i - pos];
    }
    ScanMeaning(kind, s, pos, used, pos + |text|);
  }

  /** What a scan that ended normally has passed over. */
  lemma ScanPassed(kind: Kind, s: string, pos: nat, used: nat)
    requires pos <= |s| && Scan(kind, s, pos, used).Ok?
    ensures var end := Scan(kind, s, pos, used).value;
            && AllAllowed(kind, s[pos..end])
            && (end == pos || Fits(kind, used + (end - pos)))
            && Stops(kind, At(s, end))
  {
    var end := Scan(kind, s, pos, used).value;
    ScanMeaning(kind, s, pos, used, end);
    forall i | 0 <= i < end - pos ensures Allowed(kind, s[pos..end][i]) {
      assert Allowed(kind, At(s, pos + i));
    }
  }

  /** No scan passes a carriage return, so text behind one cannot change its outcome. */
  lemma {:induction false} ScanIsLocal(kind: Kind, s: string, u: string, pos: nat, used: nat, cr: nat)
    requires s <= u && pos <= cr < |s| && s[cr] == '\r'
    ensures Scan(kind, u, pos, used) == Scan(kind, s, pos, used)
    ensures Scan(kind, s, pos, used).Ok? ==> Scan(kind, s, pos, used).value <= cr
    decreases cr - pos
  {
    if !Stops(kind, s[pos]) && Verdict(kind, s[pos], used).None? {
      ScanIsLocal(kind, s, u, pos + 1, used + 1, cr);
    }
  }

  /** One header line, where the next line starts, and the bytes counted so far. */
  datatype HeaderLine = HeaderLine(name: string, value: string, next: nat, total: nat)

  predicate IsEol(eol: string, strict: bool) {
    eol == CRLF || (!strict && eol == "\n")
  }

  /** The length of the line ending accepted at `i`, or 0. */
  function EolLength(s: string, i: nat, strict: bool): nat {
    if IsCrlfAt(s, i) then 2
    else if !strict && At(s, i) == '\n' then 1
    else 0
  }

  function Eol(length: nat): string {
    if length == 2 then CRLF else "\n"
  }

  lemma EolLengthSound(s: string, i: nat, strict: bool)
    requires EolLength(s, i, strict) != 0
    ensures var eol := Eol(EolLength(s, i, strict));
            IsEol(eol, strict) && HasAt(s, i, eol) && |eol| == EolLength(s, i, strict)
  {}

  lemma EolLengthComplete(s: string, i: nat, strict: bool, eol: string)
    requires IsEol(eol, strict) && HasAt(s, i, eol)
    ensures EolLength(s, i, strict) == |eol|
  {
    HasAtChars(s, i, eol);
    assert At(s, i + 0) == eol[0] && (|eol| == 2 ==> At(s, i + 1) == eol[1]);
  }

  /** ReadHeaderLine; `strict` is IsStrictCrlf(). */
  function ReadLine(s: string, pos: nat, total: nat, strict: bool): (r: Result<HeaderLine>)
    requires pos <= |s|
    ensures r.Ok? ==> pos < r.value.next <= |s|
  {
    var colon :- Scan(NameScan, s, pos, total);
    if At(s, colon) != ':' || At(s, colon + 1) == '\0' || At(s, colon + 1) != ' ' then
      Err(BadRequest)
    else if total + (colon - pos) + 2 > MAX_HEADER_SIZE then Err(HeaderFieldsTooLarge)
    else
      ReadValue(s, pos, colon, total + (colon - pos) + 2, strict)
  }

  /** The second half of ReadHeaderLine, behind the ": " at `colon`. */
  function ReadValue(s: string, pos: nat, colon: nat, total: nat, strict: bool): (r: Result<HeaderLine>)
    requires pos <= colon && colon + 2 <= |s|
    ensures r.Ok? ==> pos < r.value.next <= |s|
  {
    var start := colon + 2;
    var end :- Scan(ValueScan, s, start, total);
    var eol := EolLength(s, end, strict);
    if eol == 0 then Err(BadRequest)
    else if total + (end - start) + eol > MAX_HEADER_SIZE then Err(HeaderFieldsTooLarge)
    else Ok(HeaderLine(s[pos..colon], s[start..end], end + eol, total + (end - start) + eol))
  }

  function PrintLine(name: string, value: string, eol: string): string {
    name + ": " + value + eol
  }

  lemma PrintLineAt(s: string, pos: nat, name: string, value: string, eol: string)
    ensures |PrintLine(name, value, eol)| == |name| + 2 + |value| + |eol|
    ensures HasAt(s, pos, PrintLine(name, value, eol)) <==>
            && HasAt(s, pos, name)
            && HasAt(s, pos + |name|, ": ")
            && HasAt(s, pos + |name| + 2, value)
            && HasAt(s, pos + |name| + 2 + |value|, eol)
  {
    hide HasAt;
    var a := name + ": ";
    HasAtConcat(s, pos, a + value, eol);
    HasAtConcat(s, pos, a, value);
    HasAtConcat(s, pos, name, ": ");
  }

  lemma SeparatorAt(s: string, colon: nat)
    ensures HasAt(s, colon, ": ") <==> At(s, colon) == ':' && At(s, colon + 1) == ' '
  {
    if HasAt(s, colon, ": ") {
      HasAtChars(s, colon, ": ");
      assert At(s, colon + 0) == ':' && At(s, colon + 1) == ' ';
    }
  }

  lemma PrintedParts(s: string, pos: nat, strict: bool, name: string, value: string) returns (eol: string)
    requires HasAt(s, pos, name) && HasAt(s, pos + |name| + 2, value)
    requires At(s, pos + |name|) == ':' && At(s, pos + |name| + 1) == ' '
    requires EolLength(s, pos + |name| + 2 + |value|, strict) != 0
    ensures IsEol(eol, strict) && HasAt(s, pos, PrintLine(name, value, eol))
    ensures |eol| == EolLength(s, pos + |name| + 2 + |value|, strict)
    ensures |PrintLine(name, value, eol)| == |name| + 2 + |value| + |eol|
  {
    var end := pos + |name| + 2 + |value|;
    SeparatorAt(s, pos + |name|);
    EolLengthSound(s, end, strict);
    eol := Eol(EolLength(s, end, strict));
    PrintLineAt(s, pos, name, value, eol);
  }

  /** A line that was read is the printed form of its name and value, and counts all its bytes. */
  lemma ReadLineSound(s: string, pos: nat, total: nat, strict: bool) returns (eol: string)
    requires pos <= |s| && ReadLine(s, pos, total, strict).Ok?
    ensures IsEol(eol, strict)
    ensures var l := ReadLine(s, pos, total, strict).value;
            && AllAllowed(NameScan, l.name) && AllAllowed(ValueScan, l.value)
            && HasAt(s, pos, PrintLine(l.name, l.value, eol))
            && l.next == pos + |PrintLine(l.name, l.value, eol)|
            && l.total == total + (l.next - pos) <= MAX_HEADER_SIZE
  {
    hide ReadLine;
    var l := ReadLine(s, pos, total, strict).value;
    ReadPartsSound(s, pos, total, strict);
    eol := PrintedParts(s, pos, strict, l.name, l.value);
  }

  lemma ReadPartsSound(s: string, pos: nat, total: nat, strict: bool)
    requires pos <= |s| && ReadLine(s, pos, total, strict).Ok?
    ensures var l := ReadLine(s, pos, total, strict).value;
            var colon := pos + |l.name|;
            var end := colon + 2 + |l.value|;
            var eol := EolLength(s, end, strict);
            && AllAllowed(NameScan, l.name) && AllAllowed(ValueScan, l.value)
            && HasAt(s, pos, l.name) && HasAt(s, colon + 2, l.value)
            && At(s, colon) == ':' && At(s, colon + 1) == ' '
            && eol != 0 && l.next == end + eol && l.total == total + (l.next - pos) <= MAX_HEADER_SIZE
  {
    var colon := Scan(NameScan, s, pos, total).value;
    ScanPassed(NameScan, s, pos, total);
    ReadValueSound(s, pos, colon, total + (colon - pos) + 2, strict);
  }

  lemma ReadValueSound(s: string, pos: nat, colon: nat, total: nat, strict: bool)
    requires pos <= colon && colon + 2 <= |s| && ReadValue(s, pos, colon, total, strict).Ok?
    ensures var l := ReadValue(s, pos, colon, total, strict).value;
            var end := colon + 2 + |l.value|;
            var eol := EolLength(s, end, strict);
            && l.name == s[pos..colon] && AllAllowed(ValueScan, l.value) && HasAt(s, colon + 2, l.value)
            && eol != 0 && l.next == end + eol && l.total == total + |l.value| + eol <= MAX_HEADER_SIZE
  {
    ScanPassed(ValueScan, s, colon + 2, total);
  }

  /** A printed line is read back, whatever follows it. */
  lemma ReadLineComplete(s: string, pos: nat, total: nat, strict: bool,
                         name: string, value: string, eol: string)
    requires IsEol(eol, strict) && AllAllowed(NameScan, name) && AllAllowed(ValueScan, value)
    requires HasAt(s, pos, PrintLine(name, value, eol))
    requires total + |PrintLine(name, value, eol)| <= MAX_HEADER_SIZE
    ensures var n := |PrintLine(name, value, eol)|;
            ReadLine(s, pos, total, strict) == Ok(HeaderLine(name, value, pos + n, total + n))
  {
    hide ReadLine;
    PrintLineAt(s, pos, name, value, eol);
    SeparatorAt(s, pos + |name|);
    EolLengthComplete(s, pos + |name| + 2 + |value|, strict, eol);
    ReadPartsComplete(s, pos, total, strict, name, value, |eol|);
  }

  lemma ReadPartsComplete(s: string, pos: nat, total: nat, strict: bool,
                          name: string, value: string, eol: nat)
    requires AllAllowed(NameScan, name) && AllAllowed(ValueScan, value)
    requires HasAt(s, pos, name) && HasAt(s, pos + |name| + 2, value)
    requires At(s, pos + |name|) == ':' && At(s, pos + |name| + 1) == ' '
    requires EolLength(s, pos + |name| + 2 + |value|, strict) == eol != 0
    requires total + |name| + 2 + |value| + eol <= MAX_HEADER_SIZE
    ensures var n := |name| + 2 + |value| + eol;
            ReadLine(s, pos, total, strict) == Ok(HeaderLine(name, value, pos + n, total + n))
  {
    hide Scan, ReadValue, EolLength;
    ScanReads(NameScan, s, pos, total, name);
    ReadValueComplete(s, pos, pos + |name|, total + |name| + 2, strict, value, eol);
  }

  lemma ReadValueComplete(s: string, pos: nat, colon: nat, total: nat, strict: bool, value: string, eol: nat)
    requires pos <= colon && AllAllowed(ValueScan, value) && HasAt(s, colon + 2, value)
    requires EolLength(s, colon + 2 + |value|, strict) == eol != 0
    requires total + |value| + eol <= MAX_HEADER_SIZE
    ensures ReadValue(s, pos, colon, total, strict)
         == Ok(HeaderLine(s[pos..colon], value, colon + 2 + |value| + eol, total + |value| + eol))
  {
    ScanReads(ValueScan, s, colon + 2, total, value);
  }

  /** Reading a line that starts at or before a CRLF never looks behind that CRLF. */
  lemma ReadLineIsLocal(s: string, u: string, pos: nat, total: nat, cr: nat)
    requires s <= u && pos <= cr && cr + 1 < |s| && s[cr] == '\r'
    ensures ReadLine(u, pos, total, true) == ReadLine(s, pos, total, true)
    ensures ReadLine(s, pos, total, true).Ok? ==> ReadLine(s, pos, total, true).value.next <= cr + 2
  {
    ScanIsLocal(NameScan, s, u, pos, total, cr);
    var r := Scan(NameScan, s, pos, total);
    if r.Ok? {
      var colon := r.value;
      assert At(u, colon) == At(s, colon) && At(u, colon + 1) == At(s, colon + 1);
      if At(s, colon) == ':' && At(s, colon + 1) == ' ' {
        ReadValueIsLocal(s, u, pos, colon, total + (colon - pos) + 2, cr);
      }
    }
  }

  lemma ReadValueIsLocal(s: string, u: string, pos: nat, colon: nat, total: nat, cr: nat)
    requires pos <= colon && colon + 2 <= cr && cr + 1 < |s| && s[cr] == '\r' && s <= u
    ensures ReadValue(u, pos, colon, total, true) == ReadValue(s, pos, colon, total, true)
    ensures ReadValue(s, pos, colon, total, true).Ok? ==> ReadValue(s, pos, colon, total, true).value.next <= cr + 2
  {
    var start := colon + 2;
    ScanIsLocal(ValueScan, s, u, start, total, cr);
    var r := Scan(ValueScan, s, start, total);
    assert u[pos..colon] == s[pos..colon];
    if r.Ok? {
      assert u[start..r.value] == s[start..r.value];
      assert EolLength(u, r.value, true) == EolLength(s, r.value, true);
    }
  }
}
