/** The head parser accepts exactly the printed heads, never looks behind the blank line, and
    ends where FindEndOfHeader says the head ends. */
module HeadTheorems {
  import opened Text
  import opened Scanner
  import opened RequestHead

  // ---------- nothing behind the blank line matters ----------

  predicate BlankLineEndsAt(s: string, end: nat) {
    4 <= end <= |s| && IsCrlfAt(s, end - 4) && IsCrlfAt(s, end - 2)
  }

  lemma {:induction false} LinesAreLocal(s: string, u: string, pos: nat, total: nat,
                                         headers: map<string, string>, end: nat)
    requires s <= u && BlankLineEndsAt(s, end) && pos <= end - 2
    ensures ParseLines(u, pos, total, headers) == ParseLines(s, pos, total, headers)
    decreases end - pos
  {
    assert At(u, pos) == At(s, pos) && At(u, pos + 1) == At(s, pos + 1);
    if pos == end - 3 {
      assert ReadLine(s, pos, total, true).Err? && ReadLine(u, pos, total, true) == Err(BadRequest);
    } else if pos <= end - 4 && At(s, pos) != '\0' && !IsCrlfAt(s, pos) {
      ReadLineIsLocal(s, u, pos, total, end - 4);
      var r := ReadLine(s, pos, total, true);
      if r.Ok? && Lower(r.value.name) !in headers {
        LinesAreLocal(s, u, r.value.next, r.value.total, headers[Lower(r.value.name) := r.value.value], end);
      }
    }
  }

  lemma UriIsLocal(s: string, u: string, pos: nat, cr: nat)
    requires s <= u && pos <= cr < |s| && s[cr] == '\r'
    ensures ConsumeUri(u, pos) == ConsumeUri(s, pos)
    ensures ConsumeUri(s, pos).Ok? ==> ConsumeUri(s, pos).value.next <= cr
  {
    ScanIsLocal(PathScan, s, u, pos, 0, cr);
    var r := Scan(PathScan, s, pos, 0);
    if r.Ok? {
      var stop := r.value;
      assert u[pos..stop] == s[pos..stop];
      if s[stop] == '?' {
        QueryIsLocal(s, u, pos, stop, cr);
      }
    }
  }

  lemma QueryIsLocal(s: string, u: string, pos: nat, mark: nat, cr: nat)
    requires s <= u && pos <= mark < cr < |s| && s[cr] == '\r'
    ensures ConsumeQuery(u, pos, mark) == ConsumeQuery(s, pos, mark)
    ensures ConsumeQuery(s, pos, mark).Ok? ==> ConsumeQuery(s, pos, mark).value.next <= cr
  {
    ScanIsLocal(QueryScan, s, u, mark + 1, mark + 1 - pos, cr);
    var r := Scan(QueryScan, s, mark + 1, mark + 1 - pos);
    assert u[pos..mark] == s[pos..mark];
    if r.Ok? {
      assert u[mark + 1..r.value] == s[mark + 1..r.value];
    }
  }

  lemma VersionIsLocal(s: string, u: string, pos: nat, cr: nat)
    requires s <= u && pos <= cr && cr + 1 < |s| && s[cr] == '\r'
    ensures ConsumeVersion(u, pos) == ConsumeVersion(s, pos)
    ensures ConsumeVersion(s, pos).Ok? ==> pos + |ConsumeVersion(s, pos).value| + 2 <= cr + 2
  {
    ScanIsLocal(VersionScan, s, u, pos, 0, cr);
    var r := Scan(VersionScan, s, pos, 0);
    if r.Ok? {
      assert u[pos..r.value] == s[pos..r.value];
    }
  }

  lemma TokenIsLocal(s: string, u: string, verb: Method, cr: nat)
    requires s <= u && cr < |s| && s[cr] == '\r'
    ensures HasAt(u, 0, Token(verb)) <==> HasAt(s, 0, Token(verb))
    ensures HasAt(s, 0, Token(verb)) ==> |Token(verb)| <= cr
  {
    var tok := Token(verb);
    if |tok| <= |u| && |tok| > cr {
      assert u[..|tok|][cr] == '\r' != tok[cr];
    } else if |tok| <= cr {
      assert u[0..0 + |tok|] == s[0..0 + |tok|];
    }
  }

  lemma MethodIsLocal(s: string, u: string, cr: nat)
    requires s <= u && cr < |s| && s[cr] == '\r'
    ensures ConsumeMethod(u) == ConsumeMethod(s)
    ensures |Token(ConsumeMethod(s))| <= cr
  {
    TokenIsLocal(s, u, Get, cr);
    TokenIsLocal(s, u, Head, cr);
    TokenIsLocal(s, u, Post, cr);
    TokenIsLocal(s, u, Delete, cr);
  }

  /** Text behind a blank line changes neither the fields, nor the cursor, nor the thrown status. */
  lemma HeadIsLocal(s: string, u: string, limit: nat, end: nat)
    requires s <= u && BlankLineEndsAt(s, end)
    ensures ParseHead(u, limit) == ParseHead(s, limit)
  {
    hide ConsumeUri, ConsumeVersion, ParseLines, FieldsOf, ConsumeMethod, Token;
    var cr := end - 4;
    MethodIsLocal(s, u, cr);
    var verb := ConsumeMethod(s);
    UriIsLocal(s, u, |Token(verb)|, cr);
    var target := ConsumeUri(s, |Token(verb)|);
    if target.Ok? {
      VersionIsLocal(s, u, target.value.next, cr);
      var version := ConsumeVersion(s, target.value.next);
      if version.Ok? {
        LinesAreLocal(s, u, target.value.next + |version.value| + 2, 0, map[], end);
      }
    }
  }

  // ---------- header lines: what is read is what was printed ----------

  function LineLength(h: Header): nat { |h.name| + 2 + |h.value| + 2 }

  predicate LineAt(s: string, pos: nat, h: Header) {
    HasAt(s, pos, PrintLine(h.name, h.value, CRLF))
  }

  /** The printed header section, line by line. */
  predicate LinesAt(s: string, pos: nat, headers: seq<Header>)
    decreases |headers|
  {
    if headers == [] then HasAt(s, pos, CRLF)
    else LineAt(s, pos, headers[0]) && LinesAt(s, pos + LineLength(headers[0]), headers[1..])
  }

  function Length(headers: seq<Header>): nat {
    if headers == [] then 2 else LineLength(headers[0]) + Length(headers[1..])
  }

  lemma {:induction false} PrintHeadersAt(s: string, pos: nat, headers: seq<Header>)
    ensures HasAt(s, pos, PrintHeaders(headers)) <==> LinesAt(s, pos, headers)
    ensures |PrintHeaders(headers)| == Length(headers)
    decreases |headers|
  {
    hide HasAt;
    if headers != [] {
      var h := headers[0];
      var line := PrintLine(h.name, h.value, CRLF);
      PrintLineAt(s, pos, h.name, h.value, CRLF);
      HasAtConcat(s, pos, line, PrintHeaders(headers[1..]));
      PrintHeadersAt(s, pos + LineLength(h), headers[1..]);
    }
  }

  /** No name is stored twice, counting the names already in `m`. */
  predicate FreshNames(m: map<string, string>, headers: seq<Header>)
    decreases |headers|
  {
    headers == [] ||
    (Lower(headers[0].name) !in m && FreshNames(m[Lower(headers[0].name) := headers[0].value], headers[1..]))
  }

  lemma {:induction false} FreshMeansDistinct(m: map<string, string>, headers: seq<Header>)
    ensures FreshNames(m, headers) <==>
            DistinctNames(headers) && forall i | 0 <= i < |headers| :: Lower(headers[i].name) !in m
    decreases |headers|
  {
    if headers != [] {
      var k, rest := Lower(headers[0].name), headers[1..];
      FreshMeansDistinct(m[k := headers[0].value], rest);
      if FreshNames(m, headers) {
        forall i, j | 0 <= i < j < |headers| ensures Lower(headers[i].name) != Lower(headers[j].name) {
          assert headers[j] == rest[j - 1] && (i > 0 ==> headers[i] == rest[i - 1]);
        }
      } else if DistinctNames(headers) {
        assert DistinctNames(rest) by {
          forall i, j | 0 <= i < j < |rest| ensures Lower(rest[i].name) != Lower(rest[j].name) {
            assert rest[i] == headers[i + 1] && rest[j] == headers[j + 1];
          }
        }
        forall i | 0 <= i < |rest| ensures Lower(rest[i].name) != k {
          assert rest[i] == headers[i + 1];
        }
      }
    }
  }

  /** The stored map: one entry per line, under the lower-cased name. */
  lemma {:induction false} HeaderMapHasOneEntryPerLine(m: map<string, string>, headers: seq<Header>)
    requires FreshNames(m, headers)
    ensures |AddHeaders(m, headers)| == |m| + |headers|
    ensures forall k | k in m :: k in AddHeaders(m, headers) && AddHeaders(m, headers)[k] == m[k]
    ensures forall i | 0 <= i < |headers| ::
              Lower(headers[i].name) in AddHeaders(m, headers)
              && AddHeaders(m, headers)[Lower(headers[i].name)] == headers[i].value
    decreases |headers|
  {
    if headers != [] {
      var k := Lower(headers[0].name);
      var m' := m[k := headers[0].value];
      HeaderMapHasOneEntryPerLine(m', headers[1..]);
      assert m'.Keys == m.Keys + {k};
      assert |m'| == |m'.Keys| && |m| == |m.Keys|;
      forall i | 0 <= i < |headers|
        ensures Lower(headers[i].name) in AddHeaders(m, headers)
        ensures AddHeaders(m, headers)[Lower(headers[i].name)] == headers[i].value
      {
        if i > 0 {
          assert headers[i] == headers[1..][i - 1];
        } else {
          assert k in m' && m'[k] == headers[0].value;
        }
      }
    }
  }

  lemma LineStarts(s: string, pos: nat, h: Header)
    requires LineAt(s, pos, h) && ValidHeader(h)
    ensures pos + LineLength(h) <= |s| && IsHeaderChar(s[pos])
    ensures forall i | pos <= i < pos + LineLength(h) - 2 :: s[i] != '\r'
    ensures IsCrlfAt(s, pos + LineLength(h) - 2)
  {
    var line := PrintLine(h.name, h.value, CRLF);
    assert line == h.name + (": " + (h.value + CRLF));
    HasAtChars(s, pos, line);
    forall i | pos <= i < pos + LineLength(h) - 2 ensures s[i] != '\r' && IsHeaderChar(s[i]) {
      assert At(s, pos + (i - pos)) == line[i - pos];
    }
    assert At(s, pos + (|line| - 2)) == line[|line| - 2] && At(s, pos + (|line| - 1)) == line[|line| - 1];
  }

  lemma CrlfStarts(s: string, pos: nat)
    ensures HasAt(s, pos, CRLF) <==> IsCrlfAt(s, pos)
    ensures IsCrlfAt(s, pos) ==> pos + 2 <= |s|
  {
    if HasAt(s, pos, CRLF) {
      HasAtChars(s, pos, CRLF);
      assert At(s, pos + 0) == '\r' && At(s, pos + 1) == '\n';
    }
  }

  lemma ParseOneLine(s: string, pos: nat, total: nat, m: map<string, string>, h: Header)
    requires LineAt(s, pos, h) && ValidHeader(h) && Lower(h.name) !in m
    requires total + LineLength(h) <= MAX_HEADER_SIZE
    ensures pos + LineLength(h) <= |s|
    ensures ParseLines(s, pos, total, m)
         == ParseLines(s, pos + LineLength(h), total + LineLength(h), m[Lower(h.name) := h.value])
  {
    hide ReadLine, HasAt;
    LineStarts(s, pos, h);
    PrintLineAt(s, pos, h.name, h.value, CRLF);
    ReadLineComplete(s, pos, total, true, h.name, h.value, CRLF);
  }

  lemma {:induction false} LinesComplete(s: string, pos: nat, total: nat, m: map<string, string>, headers: seq<Header>)
    requires LinesAt(s, pos, headers) && ValidHeaders(headers) && FreshNames(m, headers)
    requires total + Length(headers) <= MAX_HEADER_SIZE
    ensures pos + Length(headers) <= |s|
    ensures ParseLines(s, pos, total, m) == Ok(Lines(AddHeaders(m, headers), pos + Length(headers)))
    decreases |headers|
  {
    hide ReadLine;
    hide HasAt;
    if headers == [] {
      CrlfStarts(s, pos);
    } else {
      var h := headers[0];
      assert ValidHeader(h);
      ParseOneLine(s, pos, total, m, h);
      LinesComplete(s, pos + LineLength(h), total + LineLength(h), m[Lower(h.name) := h.value], headers[1..]);
    }
  }

  lemma {:induction false} LinesSound(s: string, pos: nat, total: nat, m: map<string, string>)
    returns (headers: seq<Header>)
    requires pos <= |s| && ParseLines(s, pos, total, m).Ok?
    ensures LinesAt(s, pos, headers) && ValidHeaders(headers) && FreshNames(m, headers)
    ensures total + Length(headers) <= MAX_HEADER_SIZE
    ensures ParseLines(s, pos, total, m) == Ok(Lines(AddHeaders(m, headers), pos + Length(headers)))
    decreases |s| - pos
  {
    hide ReadLine;
    hide HasAt;
    if IsCrlfAt(s, pos) {
      headers := [];
      CrlfStarts(s, pos);
    } else {
      var l := ReadLine(s, pos, total, true).value;
      var eol := ReadLineSound(s, pos, total, true);
      var h := Header(l.name, l.value);
      PrintLineAt(s, pos, h.name, h.value, CRLF);
      var rest := LinesSound(s, l.next, l.total, m[Lower(h.name) := h.value]);
      headers := [h] + rest;
      assert headers[1..] == rest;
    }
  }

  /** The blank line that ends a printed section is the first one. */
  lemma {:induction false} NoEarlierBlankLine(s: string, pos: nat, headers: seq<Header>)
    requires LinesAt(s, pos, headers) && ValidHeaders(headers)
    ensures pos + Length(headers) <= |s| && IsCrlfAt(s, pos + Length(headers) - 2)
    ensures headers != [] ==> At(s, pos) != '\r' && IsCrlfAt(s, pos + Length(headers) - 4)
    ensures forall i | pos <= i < pos + Length(headers) - 4 :: !(IsCrlfAt(s, i) && IsCrlfAt(s, i + 2))
    decreases |headers|
  {
    hide HasAt;
    if headers == [] {
      CrlfStarts(s, pos);
    } else {
      var h, rest := headers[0], headers[1..];
      assert ValidHeader(h);
      LineStarts(s, pos, h);
      var next := pos + LineLength(h);
      NoEarlierBlankLine(s, next, rest);
      forall i | pos <= i < pos + Length(headers) - 4 ensures !(IsCrlfAt(s, i) && IsCrlfAt(s, i + 2)) {
        if i < next - 2 {
          assert s[i] != '\r';
        } else if i == next - 2 {
          assert rest != [] && s[next] != '\r';
        }
      }
    }
  }

  // ---------- the request line ----------

  predicate TargetAt(s: string, pos: nat, path: string, query: Option<string>) {
    && HasAt(s, pos, path)
    && match query
       case None => At(s, pos + |path|) == ' '
       case Some(q) =>
         && At(s, pos + |path|) == '?' && HasAt(s, pos + |path| + 1, q)
         && At(s, pos + |path| + 1 + |q|) == ' '
  }

  lemma OneCharAt(s: string, pos: nat, c: char)
    requires c != '\0'
    ensures HasAt(s, pos, [c]) <==> At(s, pos) == c
  {
    if HasAt(s, pos, [c]) {
      HasAtChars(s, pos, [c]);
      assert At(s, pos + 0) == c;
    }
  }

  lemma PrintTargetAt(s: string, pos: nat, src: Source)
    ensures HasAt(s, pos, PrintTarget(src) + " ") <==> TargetAt(s, pos, src.path, src.query)
  {
    hide HasAt;
    HasAtConcat(s, pos, PrintTarget(src), " ");
    OneCharAt(s, pos + |PrintTarget(src)|, ' ');
    match src.query
    case None =>
    case Some(q) =>
      HasAtConcat(s, pos, src.path, "?" + q);
      HasAtConcat(s, pos + |src.path|, "?", q);
      OneCharAt(s, pos + |src.path|, '?');
  }

  function TargetLength(path: string, query: Option<string>): nat {
    |path| + match query case None => 0 case Some(q) => 1 + |q|
  }

  predicate TargetAllowed(path: string, query: Option<string>) {
    && path != "" && path[0] == '/' && AllAllowed(PathScan, path)
    && (query.Some? ==> AllAllowed(QueryScan, query.value))
    && TargetLength(path, query) < MAX_URI_SIZE
  }

  lemma UriComplete(s: string, pos: nat, path: string, query: Option<string>)
    requires TargetAllowed(path, query) && TargetAt(s, pos, path, query)
    ensures pos <= |s| && ConsumeUri(s, pos)
         == Ok(Target(path, match query case None => "" case Some(q) => q, pos + TargetLength(path, query) + 1))
  {
    hide Scan;
    ScanReads(PathScan, s, pos, 0, path);
    assert At(s, pos) == '/' by {
      HasAtChars(s, pos, path);
      assert At(s, pos + 0) == path[0];
    }
    if query.Some? {
      ScanReads(QueryScan, s, pos + |path| + 1, |path| + 1, query.value);
    }
  }

  lemma UriSound(s: string, pos: nat) returns (query: Option<string>)
    requires pos <= |s| && ConsumeUri(s, pos).Ok?
    ensures var t := ConsumeUri(s, pos).value;
            && TargetAllowed(t.path, query) && TargetAt(s, pos, t.path, query)
            && t.query == (match query case None => "" case Some(q) => q)
            && t.next == pos + TargetLength(t.path, query) + 1
  {
    hide Scan;
    var stop := Scan(PathScan, s, pos, 0).value;
    ScanPassed(PathScan, s, pos, 0);
    if At(s, stop) == '?' {
      ScanPassed(QueryScan, s, stop + 1, stop + 1 - pos);
      query := Some(ConsumeUri(s, pos).value.query);
    } else {
      query := None;
    }
  }

  lemma VersionMeaning(s: string, pos: nat, v: string)
    requires pos <= |s|
    ensures ConsumeVersion(s, pos) == Ok(v) <==> IsVersion(v) && HasAt(s, pos, v) && IsCrlfAt(s, pos + |v|)
  {
    if IsVersion(v) && HasAt(s, pos, v) && IsCrlfAt(s, pos + |v|) {
      ScanReads(VersionScan, s, pos, 0, v);
    }
  }

  lemma MethodMeaning(s: string, verb: Method)
    requires verb != Unknown
    ensures ConsumeMethod(s) == verb <==> HasAt(s, 0, Token(verb))
  {
    forall m | m != Unknown && HasAt(s, 0, Token(m)) ensures |Token(m)| > 0 && At(s, 0) == Token(m)[0] {
      HasAtChars(s, 0, Token(m));
      assert At(s, 0 + 0) == Token(m)[0];
    }
  }

  // ---------- the whole head ----------

  predicate HeadAt(s: string, src: Source) {
    var pos := |Token(src.verb)|;
    var vpos := pos + TargetLength(src.path, src.query) + 1;
    && HasAt(s, 0, Token(src.verb)) && TargetAt(s, pos, src.path, src.query)
    && HasAt(s, vpos, src.version) && IsCrlfAt(s, vpos + |src.version|)
    && LinesAt(s, vpos + |src.version| + 2, src.headers)
  }

  function SectionStart(src: Source): nat {
    |Token(src.verb)| + TargetLength(src.path, src.query) + 1 + |src.version| + 2
  }

  lemma PrintHeadAt(s: string, src: Source)
    ensures HasAt(s, 0, PrintHead(src)) <==> HeadAt(s, src)
    ensures |PrintHead(src)| == SectionStart(src) + Length(src.headers)
  {
    hide HasAt, TargetAt, LinesAt;
    var verb, target, section := Token(src.verb), PrintTarget(src) + " ", PrintHeaders(src.headers);
    var vpos := |verb| + |target|;
    HasAtConcat(s, 0, verb, target + (src.version + CRLF + section));
    HasAtConcat(s, |verb|, target, src.version + CRLF + section);
    HasAtConcat(s, vpos, src.version + CRLF, section);
    HasAtConcat(s, vpos, src.version, CRLF);
    CrlfStarts(s, vpos + |src.version|);
    PrintTargetAt(s, |verb|, src);
    PrintHeadersAt(s, vpos + |src.version| + 2, src.headers);
  }

  /** What the parser makes of a printed head. */
  function Meaning(src: Source, limit: nat): Result<Fields> {
    FieldsOf(src.verb, src.path, Query(src), src.version, HeaderMap(src.headers), limit)
  }

  lemma HeadComplete(s: string, src: Source, limit: nat)
    requires ValidSource(src) && HeadAt(s, src)
    ensures ParseHead(s, limit) == match Meaning(src, limit)
                                   case Ok(f) => Ok(Parsed(f, SectionStart(src) + Length(src.headers)))
                                   case Err(status) => Err(status)
  {
    hide HasAt, TargetAt, LinesAt, ConsumeUri, ConsumeVersion, ParseLines, FieldsOf, ConsumeMethod, Token;
    var pos := |Token(src.verb)|;
    var vpos := pos + TargetLength(src.path, src.query) + 1;
    MethodMeaning(s, src.verb);
    UriComplete(s, pos, src.path, src.query);
    VersionMeaning(s, vpos, src.version);
    FreshMeansDistinct(map[], src.headers);
    PrintHeadersAt(s, vpos, src.headers);
    LinesComplete(s, vpos + |src.version| + 2, 0, map[], src.headers);
  }

  lemma HeadSound(s: string, limit: nat) returns (src: Source)
    requires ParseHead(s, limit).Ok?
    ensures ValidSource(src) && HeadAt(s, src) && Meaning(src, limit).Ok?
    ensures ParseHead(s, limit) == Ok(Parsed(Meaning(src, limit).value, SectionStart(src) + Length(src.headers)))
  {
    hide HasAt, TargetAt, LinesAt, ConsumeUri, ConsumeVersion, ParseLines, FieldsOf, ConsumeMethod, Token;
    var verb := ConsumeMethod(s);
    MethodMeaning(s, verb);
    var target := ConsumeUri(s, |Token(verb)|).value;
    var query := UriSound(s, |Token(verb)|);
    var version := ConsumeVersion(s, target.next).value;
    VersionMeaning(s, target.next, version);
    var headers := LinesSound(s, target.next + |version| + 2, 0, map[]);
    FreshMeansDistinct(map[], headers);
    PrintHeadersAt(s, 0, headers);
    src := Source(verb, target.path, query, version, headers);
  }

  /** The head parser inverts printing: it succeeds exactly on the texts that start with a valid
      printed head whose Host, framing and Connection values are accepted, recovers every field,
      and its cursor stands behind that head. */
  lemma ParseHeadInvertsPrinting(s: string, limit: nat, fields: Fields, next: nat)
    ensures ParseHead(s, limit) == Ok(Parsed(fields, next)) <==>
            exists src :: ValidSource(src) && HasAt(s, 0, PrintHead(src)) && next == |PrintHead(src)|
                          && Meaning(src, limit) == Ok(fields)
  {
    hide HasAt, HeadAt, ParseHead, PrintHead, ValidSource, Meaning;
    if ParseHead(s, limit) == Ok(Parsed(fields, next)) {
      var src := HeadSound(s, limit);
      PrintHeadAt(s, src);
    }
    forall src | ValidSource(src) && HasAt(s, 0, PrintHead(src)) && next == |PrintHead(src)|
                 && Meaning(src, limit) == Ok(fields)
      ensures ParseHead(s, limit) == Ok(Parsed(fields, next))
    {
      PrintHeadAt(s, src);
      HeadComplete(s, src, limit);
    }
  }

  /** A successful parse stores one entry per header line, under distinct lower-cased names, from
      a header section of at most 8192 bytes and a target of at most 1023. */
  lemma HeadIsBounded(s: string, limit: nat) returns (src: Source)
    requires ParseHead(s, limit).Ok?
    ensures var p := ParseHead(s, limit).value;
            && HasAt(s, 0, PrintHead(src)) && p.next == |PrintHead(src)|
            && |p.fields.headers| == |src.headers| && DistinctNames(src.headers)
            && (forall i | 0 <= i < |src.headers| ::
                  Lower(src.headers[i].name) in p.fields.headers
                  && p.fields.headers[Lower(src.headers[i].name)] == src.headers[i].value)
            && |PrintHeaders(src.headers)| <= 8192 && |PrintTarget(src)| <= 1023
  {
    hide HasAt, HeadAt, PrintHead, ParseHead;
    src := HeadSound(s, limit);
    PrintHeadAt(s, src);
    FreshMeansDistinct(map[], src.headers);
    HeaderMapHasOneEntryPerLine(map[], src.headers);
  }

  // ---------- the two scanners agree ----------

  lemma BlankLineAt(s: string, i: nat)
    ensures HasAt(s, i, BLANK_LINE) <==> IsCrlfAt(s, i) && IsCrlfAt(s, i + 2)
  {
    hide HasAt;
    assert BLANK_LINE == CRLF + CRLF;
    HasAtConcat(s, i, CRLF, CRLF);
    CrlfStarts(s, i);
    CrlfStarts(s, i + 2);
  }

  predicate NoCr(text: string) {
    forall i | 0 <= i < |text| :: text[i] != '\r'
  }

  lemma NoCrAt(s: string, pos: nat, text: string)
    requires HasAt(s, pos, text) && NoCr(text)
    ensures forall i | pos <= i < pos + |text| :: At(s, i) != '\r'
  {
    HasAtChars(s, pos, text);
    forall i | pos <= i < pos + |text| ensures At(s, i) != '\r' {
      assert At(s, pos + (i - pos)) == text[i - pos];
    }
  }

  lemma TargetHasNoCr(s: string, pos: nat, path: string, query: Option<string>)
    requires TargetAllowed(path, query) && TargetAt(s, pos, path, query)
    ensures forall i | pos <= i <= pos + TargetLength(path, query) :: At(s, i) != '\r'
  {
    hide HasAt;
    NoCrAt(s, pos, path);
    match query
    case None =>
    case Some(q) => NoCrAt(s, pos + |path| + 1, q);
  }

  lemma TokenHasNoCr(verb: Method)
    ensures NoCr(Token(verb))
  {}

  lemma RequestLineHasNoCr(s: string, src: Source)
    requires ValidSource(src) && HeadAt(s, src)
    ensures forall i | 0 <= i < SectionStart(src) - 2 :: At(s, i) != '\r'
  {
    hide HasAt, TargetAt, LinesAt, Token;
    var pos := |Token(src.verb)|;
    assert NoCr(Token(src.verb)) by { TokenHasNoCr(src.verb); }
    NoCrAt(s, 0, Token(src.verb));
    TargetHasNoCr(s, pos, src.path, src.query);
    NoCrAt(s, pos + TargetLength(src.path, src.query) + 1, src.version);
  }

  lemma FirstBlankLineIs(s: string, end: nat)
    requires end >= 4 && IsCrlfAt(s, end - 4) && IsCrlfAt(s, end - 2)
    requires forall i | 0 <= i < end - 4 :: !(IsCrlfAt(s, i) && IsCrlfAt(s, i + 2))
    ensures Find(s, BLANK_LINE, 0) == Some(end - 4)
  {
    hide HasAt, Find;
    forall i | 0 <= i < end - 4 ensures !HasAt(s, i, BLANK_LINE) {
      BlankLineAt(s, i);
    }
    BlankLineAt(s, end - 4);
    FindUnique(s, BLANK_LINE, end - 4);
  }

  lemma LengthOfNone()
    ensures Length([]) == 2
  {}

  lemma NoBlankLineInHead(s: string, src: Source)
    requires ValidSource(src) && HeadAt(s, src)
    ensures var end := SectionStart(src) + Length(src.headers);
            && end >= 4 && IsCrlfAt(s, end - 4) && IsCrlfAt(s, end - 2)
            && forall i | 0 <= i < end - 4 :: !(IsCrlfAt(s, i) && IsCrlfAt(s, i + 2))
  {
    hide HasAt, LinesAt, LineAt, ValidHeader, TargetAt, Length, Token, TargetLength;
    var start := SectionStart(src);
    RequestLineHasNoCr(s, src);
    NoEarlierBlankLine(s, start, src.headers);
    assert IsCrlfAt(s, start - 2);
    LengthOfNone();
  }

  /** Whenever the head parser succeeds, its discarded cursor is exactly what FindEndOfHeader
      computed, so the erased bytes are the head and what is left is the body. */
  lemma CursorIsEndOfHeader(s: string, limit: nat)
    requires ParseHead(s, limit).Ok?
    ensures Find(s, BLANK_LINE, 0) == Some(ParseHead(s, limit).value.next - 4)
  {
    hide HasAt, HeadAt, ValidSource, ParseHead, Find, Length, IsCrlfAt;
    var src := HeadSound(s, limit);
    NoBlankLineInHead(s, src);
    FirstBlankLineIs(s, SectionStart(src) + Length(src.headers));
  }

  /** The framing decision of the head: -1 stands for chunked, and nothing else is negative. */
  lemma FramingIsDecided(src: Source, limit: nat)
    requires Meaning(src, limit).Ok?
    ensures var f := Meaning(src, limit).value;
            && (f.contentLength == -1 <==> "transfer-encoding" in f.headers)
            && -1 <= f.contentLength <= limit
            && f.headers == HeaderMap(src.headers) && f.hostName != "" && f.hostPort <= 0xFFFF
  {
    FindIsFirst(HeaderMap(src.headers)["host"], ":", 0);
  }
}
