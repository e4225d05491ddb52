/** The CGI parser reads back what HttpResponse prints, and where its two scanners part. */
module CgiTheorems {
  import opened Text
  import opened Scanner
  import opened StreamParser
  import opened RequestHead
  import opened HeadTheorems
  import opened HttpResponses
  import opened CgiResponses

  // ---------- what AdvanceBody hands over ----------

  /** Whether the head, as the header loop sees it, really ends where FindEndOfHeader says. */
  predicate ScannersAgree(s: string)
    requires ParseFields(s, 0, 0, INITIAL).Ok?
  {
    var next := ParseFields(s, 0, 0, INITIAL).value.next;
    EndOfHeader(s, false) == Some(next + EolLength(s, next, false))
  }

  predicate IsBreak(c: char) { c == '\r' || c == '\n' }

  /** A line that was read contains no line break but the one that ends it. */
  lemma LineShape(s: string, pos: nat, total: nat)
    requires pos <= |s| && ReadLine(s, pos, total, false).Ok?
    ensures var next := ReadLine(s, pos, total, false).value.next;
            && !IsBreak(At(s, pos)) && s[next - 1] == '\n'
            && forall i | pos <= i < next - 1 && IsBreak(s[i]) :: i == next - 2 && s[i] == '\r'
  {
    hide ReadLine;
    var eol := ReadLineSound(s, pos, total, false);
    var l := ReadLine(s, pos, total, false).value;
    var line := PrintLine(l.name, l.value, eol);
    var head := l.name + ": " + l.value;
    assert line == head + eol && forall i | 0 <= i < |head| :: !IsBreak(head[i]);
    HasAtChars(s, pos, line);
    assert At(s, pos + 0) == line[0] && At(s, pos + (|line| - 1)) == line[|line| - 1];
    forall i | pos <= i < l.next - 1 && IsBreak(s[i]) ensures i == l.next - 2 && s[i] == '\r' {
      assert At(s, pos + (i - pos)) == line[i - pos];
    }
  }

  /** No empty line stands before the place where the header loop stops. */
  lemma {:induction false} NoEarlierBlank(s: string, pos: nat, total: nat, res: Response)
    requires pos <= |s| && ParseFields(s, pos, total, res).Ok?
    ensures var next := ParseFields(s, pos, total, res).value.next;
            && (pos < next ==> !IsBreak(At(s, pos)) && s[next - 1] == '\n')
            && (forall i | pos <= i && i + 2 < next :: !(IsCrlfAt(s, i) && IsCrlfAt(s, i + 2)))
            && (forall i | pos <= i && i + 1 < next :: !(s[i] == '\n' && At(s, i + 1) == '\n'))
    decreases |s| - pos
  {
    hide ReadLine, Store;
    if !EndsFields(s, pos) {
      var line := ReadLine(s, pos, total, false).value;
      LineShape(s, pos, total);
      NoEarlierBlank(s, line.next, line.total, Store(res, line.name, line.value).value);
    }
  }

  lemma DoubleNewlineAt(s: string, i: nat)
    ensures HasAt(s, i, "\n\n") <==> At(s, i) == '\n' && At(s, i + 1) == '\n'
  {
    if HasAt(s, i, "\n\n") {
      HasAtChars(s, i, "\n\n");
      assert At(s, i + 0) == '\n' && At(s, i + 1) == '\n';
    }
  }

  lemma FirstBlankLine(s: string, pos: nat)
    requires forall i | 0 <= i && i + 2 < pos :: !(IsCrlfAt(s, i) && IsCrlfAt(s, i + 2))
    ensures Find(s, BLANK_LINE, 0).Some? ==> Find(s, BLANK_LINE, 0).value + 2 >= pos
                                             && IsCrlfAt(s, Find(s, BLANK_LINE, 0).value)
    ensures pos >= 2 && IsCrlfAt(s, pos - 2) && IsCrlfAt(s, pos) ==> Find(s, BLANK_LINE, 0) == Some(pos - 2)
  {
    hide HasAt;
    FindIsFirst(s, BLANK_LINE, 0);
    if Find(s, BLANK_LINE, 0).Some? {
      BlankLineAt(s, Find(s, BLANK_LINE, 0).value);
    }
    if pos >= 2 {
      BlankLineAt(s, pos - 2);
    }
  }

  lemma FirstDoubleNewline(s: string, pos: nat)
    requires forall i | 0 <= i && i + 1 < pos :: !(At(s, i) == '\n' && At(s, i + 1) == '\n')
    ensures Find(s, "\n\n", 0).Some? ==> Find(s, "\n\n", 0).value + 1 >= pos
                                         && At(s, Find(s, "\n\n", 0).value) == At(s, Find(s, "\n\n", 0).value + 1) == '\n'
    ensures pos >= 1 && At(s, pos - 1) == At(s, pos) == '\n' ==> Find(s, "\n\n", 0) == Some(pos - 1)
  {
    hide HasAt;
    FindIsFirst(s, "\n\n", 0);
    if Find(s, "\n\n", 0).Some? {
      DoubleNewlineAt(s, Find(s, "\n\n", 0).value);
    }
    if pos >= 1 {
      DoubleNewlineAt(s, pos - 1);
    }
  }

  /** The erased length is the head that was read exactly if there are header lines and the empty line
      behind them is a CRLF behind a CRLF, or a bare LF while CRLFCRLF occurs nowhere in the whole
      output, the body included. */
  lemma ScannersAgreeExactly(s: string)
    requires ParseFields(s, 0, 0, INITIAL).Ok?
    ensures var next := ParseFields(s, 0, 0, INITIAL).value.next;
            At(s, next) != '\0' ==>
              (ScannersAgree(s) <==>
                 || (IsCrlfAt(s, next) && next >= 2 && IsCrlfAt(s, next - 2))
                 || (At(s, next) == '\n' && next > 0 && Find(s, BLANK_LINE, 0).None?))
    ensures var next := ParseFields(s, 0, 0, INITIAL).value.next;
            At(s, next) == '\0' ==> !ScannersAgree(s)
  {
    hide ParseFields, Find;
    NoEarlierBlank(s, 0, 0, INITIAL);
    var next := ParseFields(s, 0, 0, INITIAL).value.next;
    FirstBlankLine(s, next);
    FirstDoubleNewline(s, next);
  }

  /** The body handed over is the text behind the empty line exactly when the scanners agree. */
  lemma BodyIsExact(s: string, res: Response)
    requires ParseOnce(s) == Ok(Some(res))
    ensures var next := ParseFields(s, 0, 0, INITIAL).value.next;
            res.body == s[next + EolLength(s, next, false)..] <==> ScannersAgree(s)
  {
    hide ParseFields, EndOfHeader;
    var next := ParseFields(s, 0, 0, INITIAL).value.next;
    var end := EndOfHeader(s, false).value;
    assert |res.body| == |s| - end;
  }

  lemma StartsWithLine(s: string)
    requires |s| >= 16 && s[0..16] == "Content-Type: x\n"
    ensures HasAt(s, 0, PrintLine("Content-Type", "x", "\n"))
  {
    assert PrintLine("Content-Type", "x", "\n") == "Content-Type: x\n";
  }

  /** They do not always agree: here the response is accepted, but the first line of its body is
      taken for the head. */
  lemma LenientBodyIsCut()
    ensures var s := "Content-Type: x\n\na\r\n\r\nb";
            && ParseOutput(s) == Ok(INITIAL.(headers := map["content-type" := "x"], body := "b"))
            && s[17..] == "a\r\n\r\nb"
            && ParseFields(s, 0, 0, INITIAL).Ok? && !ScannersAgree(s)
  {
    hide ReadLine, Store, HasAt, Lower, Find;
    var s := "Content-Type: x\n\na\r\n\r\nb";
    assert s[0..16] == "Content-Type: x\n";
    StartsWithLine(s);
    ReadLineComplete(s, 0, 0, false, "Content-Type", "x", "\n");
    ContentTypeIsStored();
    assert ParseFields(s, 0, 0, INITIAL) == Ok(CgiHead(INITIAL.(headers := map["content-type" := "x"]), 16));
    forall i | 0 <= i < 18 ensures !HasAt(s, i, BLANK_LINE) {
      BlankLineAt(s, i);
    }
    BlankLineAt(s, 18);
    FindUnique(s, BLANK_LINE, 18);
    assert s[22..] == "b" && s[17..] == "a\r\n\r\nb";
  }

  lemma ContentTypeIsStored()
    ensures Store(INITIAL, "Content-Type", "x") == Ok(INITIAL.(headers := map["content-type" := "x"]))
  {
    assert Lower("Content-Type") == "content-type";
    assert "Content-Type"[0] == 'C' && "Status"[0] == 'S' && "Location"[0] == 'L';
  }

  // ---------- printed output, each line with its own line ending ----------

  datatype CgiLine = CgiLine(name: string, value: string, eol: string)

  predicate ValidLine(l: CgiLine) {
    AllAllowed(NameScan, l.name) && AllAllowed(ValueScan, l.value) && IsEol(l.eol, false)
  }

  function PrintCgi(lines: seq<CgiLine>): string {
    if lines == [] then "" else PrintLine(lines[0].name, lines[0].value, lines[0].eol) + PrintCgi(lines[1..])
  }

  function StoreAll(res: Response, lines: seq<CgiLine>): Result<Response>
    decreases |lines|
  {
    if lines == [] then Ok(res)
    else match Store(res, lines[0].name, lines[0].value)
         case Err(status) => Err(status)
         case Ok(next) => StoreAll(next, lines[1..])
  }

  lemma ReadOneCgiLine(s: string, pos: nat, total: nat, res: Response, l: CgiLine)
    requires ValidLine(l) && HasAt(s, pos, PrintLine(l.name, l.value, l.eol))
    requires var n := |PrintLine(l.name, l.value, l.eol)|; total + n <= MAX_HEADER_SIZE
    ensures var n := |PrintLine(l.name, l.value, l.eol)|;
            pos + n <= |s| && !EndsFields(s, pos)
            && ReadLine(s, pos, total, false) == Ok(HeaderLine(l.name, l.value, pos + n, total + n))
  {
    hide ReadLine;
    var line := PrintLine(l.name, l.value, l.eol);
    ReadLineComplete(s, pos, total, false, l.name, l.value, l.eol);
    HasAtChars(s, pos, line);
    assert At(s, pos + 0) == line[0];
    assert line[0] == if l.name == "" then ':' else l.name[0];
  }

  lemma {:induction false} PrintedLinesAreStored(s: string, pos: nat, total: nat, res: Response, lines: seq<CgiLine>)
    requires (forall i | 0 <= i < |lines| :: ValidLine(lines[i])) && pos <= |s| && HasAt(s, pos, PrintCgi(lines))
    requires total + |PrintCgi(lines)| <= MAX_HEADER_SIZE && EndsFields(s, pos + |PrintCgi(lines)|)
    ensures ParseFields(s, pos, total, res) == match StoreAll(res, lines)
                                               case Err(status) => Err(status)
                                               case Ok(all) => Ok(CgiHead(all, pos + |PrintCgi(lines)|))
    decreases |lines|
  {
    hide ReadLine, Store, HasAt, EndsFields, ValidLine;
    if lines != [] {
      var l, rest := lines[0], lines[1..];
      var line := PrintLine(l.name, l.value, l.eol);
      assert ValidLine(l);
      HasAtConcat(s, pos, line, PrintCgi(rest));
      ReadOneCgiLine(s, pos, total, res, l);
      if Store(res, l.name, l.value).Ok? {
        PrintedLinesAreStored(s, pos + |line|, total + |line|, Store(res, l.name, l.value).value, rest);
      }
    }
  }

  /** How the printed lines end. */
  lemma {:induction false} LastLineEnds(lines: seq<CgiLine>)
    requires lines != [] && forall i | 0 <= i < |lines| :: ValidLine(lines[i])
    ensures var text, eol := PrintCgi(lines), lines[|lines| - 1].eol;
            |text| >= 3 && text[|text| - 1] == '\n' && (text[|text| - 2] == '\r' <==> eol == CRLF)
    decreases |lines|
  {
    var l := lines[0];
    assert ValidLine(l);
    var head := l.name + ": " + l.value;
    assert PrintLine(l.name, l.value, l.eol) == head + l.eol && head[|head| - 1] != '\r';
    if |lines| > 1 {
      LastLineEnds(lines[1..]);
    } else {
      assert PrintCgi(lines[1..]) == "";
    }
  }

  /** What a CGI program writes, CRLF or LF behind each line as it likes, is accepted with exactly its
      body if and only if the last header line and the empty line end in CRLF, or the empty line
      is a bare LF and CRLFCRLF occurs nowhere in the output. */
  lemma PrintedOutputIsExact(lines: seq<CgiLine>, blank: string, body: string, res: Response)
    requires lines != [] && (forall i | 0 <= i < |lines| :: ValidLine(lines[i])) && IsEol(blank, false)
    requires |PrintCgi(lines)| <= MAX_HEADER_SIZE
    requires StoreAll(INITIAL, lines) == Ok(res) && "content-type" in res.headers
    ensures var s := PrintCgi(lines) + blank + body;
            ParseOutput(s) == Ok(res.(body := body)) <==>
              || (lines[|lines| - 1].eol == CRLF && blank == CRLF)
              || (blank == "\n" && Find(s, BLANK_LINE, 0).None?)
  {
    hide PrintCgi, StoreAll, ParseFields, Find, EndOfHeader, HasAt, ValidLine, IsCrlfAt, ReadLine, ScannersAgree, EndsFields;
    var text := PrintCgi(lines);
    var s := text + blank + body;
    LastLineEnds(lines);
    BlankStands(text, blank, body);
    PrintedLinesAreStored(s, 0, 0, INITIAL, lines);
    ScannersAgreeExactly(s);
    OutputIsExact(s, |text|, blank, body, res);
  }

  lemma OutputIsExact(s: string, n: nat, blank: string, body: string, res: Response)
    requires ParseFields(s, 0, 0, INITIAL) == Ok(CgiHead(res, n)) && "content-type" in res.headers
    requires n + |blank| <= |s| && s[n + |blank|..] == body && EolLength(s, n, false) == |blank|
    ensures ParseOutput(s) == Ok(res.(body := body)) <==> ScannersAgree(s)
  {
    hide ParseFields, EndOfHeader;
    if EndOfHeader(s, false).Some? {
      var end := EndOfHeader(s, false).value;
      assert s[end..] == body ==> end == n + |blank|;
    }
  }

  lemma BlankStands(text: string, blank: string, body: string)
    requires IsEol(blank, false) && |text| >= 2 && text[|text| - 1] == '\n'
    ensures var s, n := text + blank + body, |text|;
            && EndsFields(s, n) && At(s, n) != '\0' && EolLength(s, n, false) == |blank|
            && n + |blank| <= |s| && s[n + |blank|..] == body && HasAt(s, 0, text)
            && (IsCrlfAt(s, n) <==> blank == CRLF) && (At(s, n) == '\n' <==> blank == "\n")
            && (IsCrlfAt(s, n - 2) <==> text[n - 2] == '\r')
  {
    var s := text + blank + body;
    assert s[|text| + |blank|..] == body && s[0..|text|] == text;
  }

  // ---------- reading back what ToHttpString prints ----------

  lemma ReadOneField(s: string, pos: nat, total: nat, res: Response, h: Header)
    requires LineAt(s, pos, h) && ValidHeader(h) && Lower(h.name) == h.name
    requires total + LineLength(h) <= MAX_HEADER_SIZE
    ensures pos + LineLength(h) <= |s|
    ensures ParseFields(s, pos, total, res)
         == ParseFields(s, pos + LineLength(h), total + LineLength(h), res.(headers := res.headers[h.name := h.value]))
  {
    hide ReadLine, HasAt, Store;
    LineStarts(s, pos, h);
    PrintLineAt(s, pos, h.name, h.value, CRLF);
    ReadLineComplete(s, pos, total, false, h.name, h.value, CRLF);
    LowerNamesAreNotSpecial(res, h.name, h.value);
  }

  lemma LowerNamesAreNotSpecial(res: Response, name: string, value: string)
    requires Lower(name) == name
    ensures Store(res, name, value) == Ok(res.(headers := res.headers[name := value]))
  {
    assert "Status"[0] == 'S' && "Location"[0] == 'L';
  }

  lemma {:induction false} FieldsComplete(s: string, pos: nat, total: nat, res: Response, headers: seq<Header>)
    requires LinesAt(s, pos, headers) && ValidHeaders(headers)
    requires forall i | 0 <= i < |headers| :: Lower(headers[i].name) == headers[i].name
    requires total + Length(headers) - 2 <= MAX_HEADER_SIZE
    ensures pos + Length(headers) <= |s|
    ensures ParseFields(s, pos, total, res)
         == Ok(CgiHead(res.(headers := AddHeaders(res.headers, headers)), pos + Length(headers) - 2))
    decreases |headers|
  {
    hide ReadLine, HasAt, Store;
    if headers == [] {
      CrlfStarts(s, pos);
    } else {
      var h := headers[0];
      assert ValidHeader(h) && Lower(h.name) == h.name;
      ReadOneField(s, pos, total, res, h);
      FieldsComplete(s, pos + LineLength(h), total + LineLength(h),
                     res.(headers := res.headers[h.name := h.value]), headers[1..]);
    }
  }

  lemma {:induction false} AddedKeys(m: map<string, string>, headers: seq<Header>)
    ensures forall k | k in AddHeaders(m, headers) ::
              k in m || exists i :: 0 <= i < |headers| && Lower(headers[i].name) == k
    decreases |headers|
  {
    if headers != [] {
      var h, rest := headers[0], headers[1..];
      var m' := m[Lower(h.name) := h.value];
      AddedKeys(m', rest);
      forall k | k in AddHeaders(m, headers) && k !in m
        ensures exists i :: 0 <= i < |headers| && Lower(headers[i].name) == k
      {
        assert k in AddHeaders(m', rest);
        if k == Lower(h.name) {
          assert Lower(headers[0].name) == k;
        } else {
          assert k !in m';
          var i :| 0 <= i < |rest| && Lower(rest[i].name) == k;
          assert Lower(headers[i + 1].name) == k;
        }
      }
    }
  }

  /** Whatever the order, storing the listed headers again gives the map back. */
  lemma ListingRebuilds(m: map<string, string>, order: seq<string>)
    requires WellKept(m) && IsOrder(order, m)
    ensures HeaderMap(Listing(m, order)) == m
    ensures DistinctNames(Listing(m, order))
  {
    hide Lower, AddHeaders, FreshNames;
    var list := Listing(m, order);
    FreshMeansDistinct(map[], list);
    HeaderMapHasOneEntryPerLine(map[], list);
    AddedKeys(map[], list);
    var built := HeaderMap(list);
    forall k | k in m ensures k in built && built[k] == m[k] {
      var i :| 0 <= i < |order| && order[i] == k;
      assert list[i] == Header(k, m[k]) && Lower(list[i].name) == k;
    }
    forall k | k in built ensures k in m {
      var i :| 0 <= i < |list| && Lower(list[i].name) == k;
      assert list[i].name == order[i];
    }
  }

  lemma FieldNamesHaveNoColon(s: string, pos: nat, total: nat, res: Response)
    requires pos <= |s| && ParseFields(s, pos, total, res).Ok?
    requires forall k | k in res.headers :: ':' !in k
    ensures forall k | k in ParseFields(s, pos, total, res).value.res.headers :: ':' !in k
    decreases |s| - pos
  {
    hide ReadLine;
    if !EndsFields(s, pos) {
      var line := ReadLine(s, pos, total, false).value;
      var eol := ReadLineSound(s, pos, total, false);
      var stored := Store(res, line.name, line.value).value;
      assert ':' !in line.name && ':' !in Lower(line.name);
      FieldNamesHaveNoColon(s, line.next, line.total, stored);
    }
  }

  /** Texts that lead up to the first of some marks are equal. */
  lemma UpToMark(s: string, pos: nat, a: string, b: string, marks: set<char>)
    requires HasAt(s, pos, a) && HasAt(s, pos, b)
    requires forall c | c in marks :: c !in a && c !in b
    requires At(s, pos + |a|) in marks && At(s, pos + |b|) in marks
    ensures a == b
  {
    HasAtChars(s, pos, a);
    HasAtChars(s, pos, b);
    forall k | 0 <= k < |a| ensures At(s, pos + k) == a[k] && a[k] !in marks {}
    forall k | 0 <= k < |b| ensures At(s, pos + k) == b[k] && b[k] !in marks {}
    assert |a| == |b|;
    assert forall k | 0 <= k < |a| :: a[k] == b[k];
  }

  lemma LineIsTheOnePrinted(s: string, pos: nat, total: nat, h: Header)
    requires LineAt(s, pos, h) && ':' !in h.name && NoLineBreak(h.name) && NoLineBreak(h.value)
    requires pos <= |s| && ReadLine(s, pos, total, false).Ok?
    ensures ReadLine(s, pos, total, false)
         == Ok(HeaderLine(h.name, h.value, pos + LineLength(h), total + LineLength(h)))
    ensures ValidHeader(h) && total + LineLength(h) <= MAX_HEADER_SIZE
  {
    hide ReadLine, HasAt;
    var l := ReadLine(s, pos, total, false).value;
    var eol := ReadLineSound(s, pos, total, false);
    PrintLineAt(s, pos, l.name, l.value, eol);
    PrintLineAt(s, pos, h.name, h.value, CRLF);
    SeparatorAt(s, pos + |l.name|);
    SeparatorAt(s, pos + |h.name|);
    UpToMark(s, pos, l.name, h.name, {':'});
    var start := pos + |h.name| + 2;
    HasAtChars(s, start + |l.value|, eol);
    CrlfStarts(s, start + |h.value|);
    assert At(s, start + |l.value| + 0) == eol[0];
    UpToMark(s, start, l.value, h.value, {'\r', '\n'});
    assert eol == CRLF;
  }

  /** If every printed name was stored, every printed header is one that can be read back. */
  lemma {:induction false} FieldsSound(s: string, pos: nat, total: nat, res: Response, headers: seq<Header>)
    requires LinesAt(s, pos, headers) && pos <= |s| && ParseFields(s, pos, total, res).Ok?
    requires total <= MAX_HEADER_SIZE && DistinctNames(headers)
    requires forall i | 0 <= i < |headers| ::
               && ':' !in headers[i].name && NoLineBreak(headers[i].name) && NoLineBreak(headers[i].value)
               && Lower(headers[i].name) == headers[i].name && headers[i].name !in res.headers
               && headers[i].name in ParseFields(s, pos, total, res).value.res.headers
    ensures ValidHeaders(headers) && total + Length(headers) - 2 <= MAX_HEADER_SIZE
    decreases |headers|
  {
    hide ReadLine, HasAt, Store;
    if headers != [] {
      var h, rest := headers[0], headers[1..];
      LineBegins(s, pos, h);
      assert !EndsFields(s, pos);
      LineIsTheOnePrinted(s, pos, total, h);
      LowerNamesAreNotSpecial(res, h.name, h.value);
      var stored := res.(headers := res.headers[h.name := h.value]);
      forall i | 0 <= i < |rest|
        ensures ':' !in rest[i].name && NoLineBreak(rest[i].name) && NoLineBreak(rest[i].value)
        ensures Lower(rest[i].name) == rest[i].name && rest[i].name !in stored.headers
        ensures rest[i].name in ParseFields(s, pos, total, res).value.res.headers
      {
        assert rest[i] == headers[i + 1] && Lower(headers[0].name) != Lower(headers[i + 1].name);
      }
      assert DistinctNames(rest) by {
        forall i, j | 0 <= i < j < |rest| ensures Lower(rest[i].name) != Lower(rest[j].name) {
          assert rest[i] == headers[i + 1] && rest[j] == headers[j + 1];
        }
      }
      FieldsSound(s, pos + LineLength(h), total + LineLength(h), stored, rest);
    }
  }

  lemma LineBegins(s: string, pos: nat, h: Header)
    requires LineAt(s, pos, h) && NoLineBreak(h.name)
    ensures !IsBreak(At(s, pos))
  {
    var line := PrintLine(h.name, h.value, CRLF);
    HasAtChars(s, pos, line);
    assert At(s, pos + 0) == line[0];
    assert line[0] == if h.name == "" then ':' else h.name[0];
  }

  /** The printer and the parser are inverse exactly where they can be: what ToHttpString writes
      behind the status line is read back, headers and body, whatever the body contains, if and
      only if every header is printable, no name has a colon, the lines fit into 8192 bytes and
      there is a content type. */
  lemma ReadBackExactly(m: map<string, string>, order: seq<string>, body: string)
    requires WellKept(m) && IsOrder(order, m)
    ensures ParseOutput(PrintHeaders(Listing(m, order)) + body)
         == Ok(INITIAL.(headers := m, body := body))
         <==> && ValidHeaders(Listing(m, order)) && |PrintHeaders(Listing(m, order))| - 2 <= 8192
              && "content-type" in m
  {
    hide PrintHeaders, ParseFields, LinesAt, Find, HeaderMap, Lower, Length;
    var list := Listing(m, order);
    var s := PrintHeaders(list) + body;
    ListingRebuilds(m, order);
    assert HasAt(s, 0, PrintHeaders(list));
    PrintHeadersAt(s, 0, list);
    if ValidHeaders(list) && Length(list) - 2 <= 8192 && "content-type" in m {
      PrintedIsReadBack(m, order, body);
    }
    if ParseOutput(s) == Ok(INITIAL.(headers := m, body := body)) {
      FieldNamesHaveNoColon(s, 0, 0, INITIAL);
      forall i | 0 <= i < |list|
        ensures ':' !in list[i].name && NoLineBreak(list[i].name) && NoLineBreak(list[i].value)
        ensures Lower(list[i].name) == list[i].name && list[i].name in m
      {
        assert list[i] == Header(order[i], m[order[i]]);
      }
      FieldsSound(s, 0, 0, INITIAL, list);
    }
  }

  lemma LengthOfSome(headers: seq<Header>)
    requires headers != []
    ensures Length(headers) >= 6
  {}

  lemma PrintedIsReadBack(m: map<string, string>, order: seq<string>, body: string)
    requires WellKept(m) && IsOrder(order, m) && ValidHeaders(Listing(m, order))
    requires Length(Listing(m, order)) - 2 <= 8192 && "content-type" in m
    ensures ParseOutput(PrintHeaders(Listing(m, order)) + body) == Ok(INITIAL.(headers := m, body := body))
  {
    hide PrintHeaders, ParseFields, LinesAt, Find, Lower, Length;
    var list := Listing(m, order);
    var s := PrintHeaders(list) + body;
    assert HasAt(s, 0, PrintHeaders(list));
    hide HasAt;
    ListingRebuilds(m, order);
    PrintHeadersAt(s, 0, list);
    forall i | 0 <= i < |list| ensures Lower(list[i].name) == list[i].name {
      assert list[i].name == order[i];
    }
    FieldsComplete(s, 0, 0, INITIAL, list);
    NoEarlierBlankLine(s, 0, list);
    assert list != [];
    LengthOfSome(list);
    FirstBlankLine(s, Length(list) - 2);
    assert EndOfHeader(s, false) == Some(Length(list));
    assert s[Length(list)..] == body;
  }

  /** With AddHeader's names, a date without line breaks and the announced length, the premises
      of the round trip that do not depend on printability hold of every response. */
  lemma FinalHeadersAreWellKept(res: Response, date: string)
    requires WellKept(res.headers) && NoLineBreak(date)
    ensures WellKept(FinalHeaders(res, date))
  {
    hide Digits;
    DigitsAreDigits(|res.body|);
    assert Lower("date") == "date" && Lower("content-length") == "content-length";
    assert NoLineBreak(Digits(|res.body|));
  }
}
