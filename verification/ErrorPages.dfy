/** Error pages: what may be saved, and the raw HTTP response each page becomes. */
module ErrorPages {
  import opened Wrappers
  import opened Text

  datatype ErrorPage = ErrorPage(
    name: string, group: string, code: int, contentType: string,
    headers: string, body: string, enabled: bool)

  datatype SaveError = BadName | BadGroup | BadCode | BadContentType | BadHeader

  // ---- what SaveErrorPage accepts

  const ERROR_CODES := [200, 400, 401, 403, 404, 405, 407, 408, 410, 413, 425, 429, 500, 501, 502, 503, 504]

  predicate AlphaNumeric(c: char) {
    'a' <= c <= 'z' || 'A' <= c <= 'Z' || '0' <= c <= '9'
  }

  predicate ValidName(name: string) {
    && 1 <= |name| <= 63 && AlphaNumeric(name[0])
    && forall i :: 0 <= i < |name| ==> AlphaNumeric(name[i]) || name[i] in "._-"
  }

  predicate SingleLine(s: string) {
    forall i :: 0 <= i < |s| ==> s[i] != '\n' && s[i] != '\r'
  }

  predicate HeadersHaveColons(headers: seq<string>) {
    forall k :: 0 <= k < |headers| ==> ':' in headers[k]
  }

  function Accept(p: ErrorPage): Result<ErrorPage, SaveError> {
    var q := if Blank(p.contentType) then p.(contentType := "text/html; charset=utf-8") else p;
    if !ValidName(p.name) then Err(BadName)
    else if !ValidName(p.group) then Err(BadGroup)
    else if p.code !in ERROR_CODES then Err(BadCode)
    else if !SingleLine(q.contentType) then Err(BadContentType)
    else if !HeadersHaveColons(InkLines(Split(p.headers, '\n'))) then Err(BadHeader)
    else Ok(q)
  }

  // ---- the raw response

  const CRLF := "\r\n"

  /** A phrase that cannot end a line or a header name. */
  predicate Phrase(s: string) {
    forall i :: 0 <= i < |s| ==> s[i] != '\n' && s[i] != '\r' && s[i] != ':'
  }

  function StatusText(code: int): (text: string)
    ensures Phrase(text)
  {
    if code < 410 then EarlyStatus(code) else LateStatus(code)
  }

  function EarlyStatus(code: int): (text: string)
    ensures Phrase(text)
  {
    if code == 200 then P("OK")
    else if code == 400 then P("Bad Request")
    else if code == 401 then P("Unauthorized")
    else if code == 403 then P("Forbidden")
    else if code == 404 then P("Not Found")
    else if code == 405 then P("Method Not Allowed")
    else if code == 407 then P("Proxy Authentication Required")
    else if code == 408 then P("Request Timeout")
    else P("Error")
  }

  function LateStatus(code: int): (text: string)
    ensures Phrase(text)
  {
    if code == 410 then P("Gone")
    else if code == 413 then P("Payload Too Large")
    else if code == 425 then P("Too Early")
    else if code == 429 then P("Too Many Requests")
    else if code == 500 then P("Internal Server Error")
    else if code == 501 then P("Not Implemented")
    else if code == 502 then P("Bad Gateway")
    else if code == 503 then P("Service Unavailable")
    else if code == 504 then P("Gateway Timeout")
    else P("Error")
  }

  function P(text: string): string
    requires Phrase(text)
  {
    text
  }

  function FileName(p: ErrorPage): string {
    p.group + "-" + DecInt(p.code) + ".http"
  }

  function Normalised(body: string): string {
    ReplaceAll(ReplaceAll(body, CRLF, "\n"), "\n", CRLF)
  }

  /** A header line with the carriage returns inside it removed. */
  function WithoutCr(line: string): string {
    ReplaceAll(line, "\r", "")
  }

  function Custom(lines: seq<string>): seq<string> {
    if lines == [] then [] else [WithoutCr(lines[0])] + Custom(lines[1..])
  }

  function CustomHeaders(p: ErrorPage): seq<string> {
    Custom(InkLines(Split(p.headers, '\n')))
  }

  function StatusLine(p: ErrorPage): string {
    "HTTP/1.1 " + DecInt(p.code) + " " + StatusText(p.code)
  }

  function LengthHeader(n: nat): string {
    "Content-Length: " + Dec(n)
  }

  const CACHE_CONTROL := "Cache-Control: no-cache"
  const CONNECTION := "Connection: close"

  function ContentTypeHeader(p: ErrorPage): string {
    "Content-Type: " + p.contentType
  }

  function FixedHead(p: ErrorPage): seq<string> {
    [StatusLine(p), CACHE_CONTROL, CONNECTION, ContentTypeHeader(p)]
  }

  /** The status line and every header, in order. */
  function HeadLines(p: ErrorPage): seq<string> {
    FixedHead(p) + (CustomHeaders(p) + [LengthHeader(|Normalised(p.body)|)])
  }

  function Terminated(lines: seq<string>): string {
    if lines == [] then "" else lines[0] + (CRLF + Terminated(lines[1..]))
  }

  function RawText(p: ErrorPage): string {
    Terminated(HeadLines(p)) + (CRLF + Normalised(p.body))
  }

  method RawHttp(p: ErrorPage) returns (raw: string)
    ensures raw == RawText(p)
  {
    hide FixedHead, FirstLines, LengthHeader, WithoutCr, ReplaceAll, Terminated, Custom, HeadLines;
    var body := ReplaceAll(p.body, CRLF, "\n");
    body := ReplaceAll(body, "\n", CRLF);
    raw := FirstLines(p);
    FirstLinesTerminated(p);
    var lines := SplitLines(p.headers);
    CustomNone();
    assert FixedHead(p) + [] == FixedHead(p);
    for i := 0 to |lines|
      invariant raw == Terminated(FixedHead(p) + Custom(lines[..i]))
    {
      AddCustom(FixedHead(p), lines, i);
      raw := raw + WithoutCr(lines[i]) + CRLF;
    }
    assert lines[..|lines|] == lines;
    AddLength(p, |body|);
    raw := raw + LengthHeader(|body|) + CRLF;
    Assoc(raw, CRLF, body);
    raw := raw + CRLF;
    raw := raw + body;
  }

  lemma FirstLinesTerminated(p: ErrorPage)
    ensures FirstLines(p) == Terminated(FixedHead(p))
  {
    hide StatusLine, ContentTypeHeader, Terminated;
    TerminatedFour(StatusLine(p), CACHE_CONTROL, CONNECTION, ContentTypeHeader(p));
  }

  lemma AddCustom(head: seq<string>, lines: seq<string>, i: nat)
    requires i < |lines|
    ensures Terminated(head + Custom(lines[..i])) + WithoutCr(lines[i]) + CRLF
         == Terminated(head + Custom(lines[..i + 1]))
  {
    hide WithoutCr, Terminated, Custom;
    TerminatedSnoc(head + Custom(lines[..i]), WithoutCr(lines[i]));
    CustomSnoc(lines[..i], lines[i]);
    assert lines[..i + 1] == lines[..i] + [lines[i]];
    assert head + Custom(lines[..i]) + [WithoutCr(lines[i])] == head + Custom(lines[..i + 1]);
  }

  lemma AddLength(p: ErrorPage, n: nat)
    requires n == |Normalised(p.body)|
    ensures Terminated(FixedHead(p) + CustomHeaders(p)) + LengthHeader(n) + CRLF == Terminated(HeadLines(p))
  {
    hide FixedHead, CustomHeaders, LengthHeader, Terminated;
    TerminatedSnoc(FixedHead(p) + CustomHeaders(p), LengthHeader(n));
    assert FixedHead(p) + CustomHeaders(p) + [LengthHeader(n)] == HeadLines(p);
  }

  lemma Assoc(a: string, b: string, c: string)
    ensures a + b + c == a + (b + c)
  {
  }

  /** The four lines every page starts with. */
  function FirstLines(p: ErrorPage): string {
    StatusLine(p) + CRLF + CACHE_CONTROL + CRLF + CONNECTION + CRLF + ContentTypeHeader(p) + CRLF
  }

  lemma CustomNone()
    ensures Custom([]) == []
  {
  }

  lemma {:induction false} TerminatedSnoc(lines: seq<string>, line: string)
    ensures Terminated(lines + [line]) == Terminated(lines) + line + CRLF
  {
    if lines == [] {
      assert [line][1..] == [] && lines + [line] == [line];
    } else {
      assert (lines + [line])[1..] == lines[1..] + [line];
      TerminatedSnoc(lines[1..], line);
      var rest := Terminated(lines[1..]);
      Assoc(rest, line, CRLF);
      Assoc(CRLF, rest, line + CRLF);
      Assoc(lines[0], CRLF + rest, line + CRLF);
      Assoc(Terminated(lines), line, CRLF);
    }
  }

  lemma TerminatedFour(a: string, b: string, c: string, d: string)
    ensures Terminated([a, b, c, d]) == a + CRLF + b + CRLF + c + CRLF + d + CRLF
  {
    TerminatedSnoc([], a);
    TerminatedSnoc([a], b);
    TerminatedSnoc([a, b], c);
    TerminatedSnoc([a, b, c], d);
    assert [] + [a] == [a] && [a] + [b] == [a, b] && [a, b] + [c] == [a, b, c] && [a, b, c] + [d] == [a, b, c, d];
  }

  lemma {:induction false} CustomSnoc(lines: seq<string>, line: string)
    ensures Custom(lines + [line]) == Custom(lines) + [WithoutCr(line)]
  {
    hide WithoutCr;
    if lines == [] {
      assert [line][1..] == [] && lines + [line] == [line];
    } else {
      assert (lines + [line])[1..] == lines[1..] + [line];
      CustomSnoc(lines[1..], line);
    }
  }

  // ---- reading the response back

  /** Section 2.1 of RFC 9112: lines up to the first empty one, then the body. */
  function ReadHead(raw: string): Option<(seq<string>, string)>
    decreases |raw|
  {
    var i := Index(raw, CRLF);
    if i < 0 then None
    else if i == 0 then Some(([], raw[2..]))
    else
      match ReadHead(raw[i + 2..])
      case None => None
      case Some((lines, body)) => Some(([raw[..i]] + lines, body))
  }

  /** A line that cannot be taken for the end of the head or of itself. */
  predicate HeadLine(line: string) {
    line != "" && SingleLine(line)
  }

  predicate AreHeadLines(lines: seq<string>) {
    forall k :: 0 <= k < |lines| ==> HeadLine(lines[k])
  }

  lemma HeadLinesConcat(a: seq<string>, b: seq<string>)
    requires AreHeadLines(a) && AreHeadLines(b)
    ensures AreHeadLines(a + b)
  {
  }

  lemma {:induction false} ReadTerminated(lines: seq<string>, body: string)
    requires AreHeadLines(lines)
    ensures ReadHead(Terminated(lines) + (CRLF + body)) == Some((lines, body))
  {
    if lines == [] {
      var raw := Terminated(lines) + (CRLF + body);
      assert raw == CRLF + body;
      IndexFromFirst(raw, CRLF, 0, 0);
    } else {
      var line, rest := lines[0], Terminated(lines[1..]) + (CRLF + body);
      Assoc(line, CRLF + Terminated(lines[1..]), CRLF + body);
      Assoc(CRLF, Terminated(lines[1..]), CRLF + body);
      assert Terminated(lines) + (CRLF + body) == line + (CRLF + rest);
      ReadTerminated(lines[1..], body);
      ReadOneLine(line, rest);
      assert [line] + lines[1..] == lines;
    }
  }

  lemma ReadOneLine(line: string, rest: string)
    requires HeadLine(line) && ReadHead(rest).Some?
    ensures ReadHead(line + (CRLF + rest)) == Some(([line] + ReadHead(rest).value.0, ReadHead(rest).value.1))
  {
    var raw := line + (CRLF + rest);
    LineEnd(line, rest);
    assert raw[..|line|] == line && raw[|line| + 2..] == rest;
  }

  lemma LineEnd(line: string, rest: string)
    requires SingleLine(line)
    ensures Index(line + (CRLF + rest), CRLF) == |line|
  {
    var raw := line + (CRLF + rest);
    assert raw[|line|..|line| + 2] == CRLF;
    forall j | 0 <= j < |line| ensures !OccursAt(raw, CRLF, j) {
      assert raw[j] == line[j];
      NoOccurrence(raw, CRLF, '\r', j);
    }
    IndexFromFirst(raw, CRLF, 0, |line|);
  }

  // ---- every head line is a line

  lemma {:induction false} RemovesCr(s: string)
    ensures '\r' !in WithoutCr(s)
    ensures forall c :: c != '\r' ==> (c in WithoutCr(s) <==> c in s)
  {
    if s != "" {
      RemovesCr(s[1..]);
      assert s == [s[0]] + s[1..];
      assert HasPrefix(s, "\r") <==> s[0] == '\r';
      assert "" + WithoutCr(s[1..]) == WithoutCr(s[1..]);
    }
  }

  lemma {:induction false} SplitPieces(s: string, sep: char)
    ensures forall k :: 0 <= k < |Split(s, sep)| ==> sep !in Split(s, sep)[k]
  {
    if s != "" {
      SplitPieces(s[1..], sep);
    }
  }

  lemma {:induction false} InkLinesFrom(lines: seq<string>)
    requires forall k :: 0 <= k < |lines| ==> '\n' !in lines[k]
    ensures forall k :: 0 <= k < |InkLines(lines)| ==> '\n' !in InkLines(lines)[k]
  {
    if lines != [] {
      InkLinesFrom(lines[1..]);
      var l := TrimLeft(lines[0], Spaces);
      assert '\n' !in l;
      assert '\n' !in TrimSpace(lines[0]);
    }
  }

  lemma {:induction false} CustomLines(lines: seq<string>)
    requires forall k :: 0 <= k < |lines| ==> '\n' !in lines[k] && ':' in lines[k]
    ensures AreHeadLines(Custom(lines))
  {
    hide WithoutCr;
    if lines != [] {
      RemovesCr(lines[0]);
      assert ':' in WithoutCr(lines[0]) && '\n' !in WithoutCr(lines[0]);
      CustomLines(lines[1..]);
    }
  }

  lemma DigitsSingle(n: nat)
    ensures HeadLine(Dec(n)) && ':' !in Dec(n)
  {
    forall c | c in Dec(n) ensures IsDigit(c) {
    }
  }

  lemma StatusLineIsLine(p: ErrorPage)
    requires p.code >= 0
    ensures Phrase(StatusLine(p)) && HeadLine(StatusLine(p))
  {
    DigitsSingle(p.code);
    hide StatusText, Dec;
  }

  lemma FixedHeadIsLines(p: ErrorPage)
    requires p.code >= 0 && SingleLine(p.contentType)
    ensures AreHeadLines(FixedHead(p))
  {
    StatusLineIsLine(p);
    PlainLines();
    NamedLine("Content-Type: ", p.contentType);
    hide StatusLine, HeadLine, CACHE_CONTROL, CONNECTION;
  }

  lemma PlainLines()
    ensures SingleLine("Content-Type: ") && HeadLine(CACHE_CONTROL) && HeadLine(CONNECTION)
  {
  }

  lemma NamedLine(name: string, value: string)
    requires name != "" && SingleLine(name) && SingleLine(value)
    ensures HeadLine(name + value)
  {
  }

  lemma CustomHeadersAreLines(p: ErrorPage)
    requires HeadersHaveColons(InkLines(Split(p.headers, '\n')))
    ensures AreHeadLines(CustomHeaders(p))
  {
    hide Split, InkLines, Custom, HeadLine;
    SplitPieces(p.headers, '\n');
    InkLinesFrom(Split(p.headers, '\n'));
    CustomLines(InkLines(Split(p.headers, '\n')));
  }

  lemma AcceptedFields(p: ErrorPage)
    requires Accept(p).Ok?
    ensures var q := Accept(p).value;
            && q.code > 0 && SingleLine(q.contentType)
            && HeadersHaveColons(InkLines(Split(q.headers, '\n')))
  {
    hide InkLines, Split, ValidName, SingleLine, HeadersHaveColons;
  }

  lemma LengthHeaderIsLine(n: nat)
    ensures HeadLine(LengthHeader(n))
  {
    DigitsSingle(n);
    hide Dec;
  }

  lemma AcceptedHead(p: ErrorPage)
    requires Accept(p).Ok?
    ensures AreHeadLines(HeadLines(Accept(p).value))
  {
    AcceptedFields(p);
    var q := Accept(p).value;
    hide Accept, FixedHead, CustomHeaders, Normalised, HeadLine, LengthHeader;
    var last := [LengthHeader(|Normalised(q.body)|)];
    FixedHeadIsLines(q);
    CustomHeadersAreLines(q);
    LengthHeaderIsLine(|Normalised(q.body)|);
    assert AreHeadLines(last);
    HeadLinesConcat(CustomHeaders(q), last);
    HeadLinesConcat(FixedHead(q), CustomHeaders(q) + last);
  }

  lemma FourLines(q: ErrorPage)
    ensures |FixedHead(q)| == 4
  {
    hide StatusLine, ContentTypeHeader;
  }

  /** Whatever SaveErrorPage accepts, the head of the raw response ends at the first
      empty line and reads back as the status line and the headers in order, and
      everything behind it is the normalised body. */
  lemma RawRoundTrip(p: ErrorPage)
    requires Accept(p).Ok?
    ensures var q := Accept(p).value;
            ReadHead(RawText(q)) == Some((HeadLines(q), Normalised(q.body)))
  {
    var q := Accept(p).value;
    AcceptedHead(p);
    hide Accept, HeadLines, Normalised;
    ReadTerminated(HeadLines(q), Normalised(q.body));
  }

  lemma {:induction false} CustomEach(lines: seq<string>)
    ensures var out := Custom(lines);
            && |out| == |lines|
            && forall k :: 0 <= k < |lines| ==>
                 && '\r' !in out[k]
                 && ('\r' !in lines[k] ==> out[k] == lines[k])
  {
    hide WithoutCr;
    if lines != [] {
      CustomEach(lines[1..]);
      RemovesCr(lines[0]);
      if '\r' !in lines[0] {
        NothingRemoved(lines[0]);
      }
    }
  }

  /** The head line by line: four fixed lines, the operator's header lines in their
      order, and the length of the body as it is sent. */
  lemma HeadSpelled(p: ErrorPage)
    requires p.code >= 0
    ensures var (lines, ink) := (HeadLines(p), InkLines(Split(p.headers, '\n')));
            && |lines| == |ink| + 5
            && lines[0] == "HTTP/1.1 " + Dec(p.code) + " " + StatusText(p.code)
            && lines[1] == "Cache-Control: no-cache"
            && lines[2] == "Connection: close"
            && lines[3] == "Content-Type: " + p.contentType
            && lines[|ink| + 4] == "Content-Length: " + Dec(|Normalised(p.body)|)
            && forall k :: 0 <= k < |ink| ==>
                 && '\r' !in lines[k + 4]
                 && ('\r' !in ink[k] ==> lines[k + 4] == ink[k])
  {
    hide Normalised, Dec, StatusText, Custom, Split, InkLines;
    CustomEach(InkLines(Split(p.headers, '\n')));
  }

  // ---- what is accepted

  lemma KeepsColon(line: string)
    ensures ':' in TrimSpace(line) <==> ':' in line
  {
    hide TrimLeft, TrimRight;
    TrimSpaceIs(line);
    var left := TrimLeft(line, Spaces);
    var n, m := |line| - |left|, |TrimSpace(line)|;
    assert line == line[..n] + left && left == left[..m] + left[m..];
    assert ':' !in line[..n] && ':' !in left[m..];
  }

  lemma ColonsConcat(a: seq<string>, b: seq<string>)
    ensures HeadersHaveColons(a + b) <==> HeadersHaveColons(a) && HeadersHaveColons(b)
  {
    if HeadersHaveColons(a + b) {
      assert forall k :: 0 <= k < |a| ==> a[k] == (a + b)[k];
      assert forall k :: 0 <= k < |b| ==> b[k] == (a + b)[|a| + k];
    }
  }

  /** Each line is blank or has a colon. */
  predicate AllColons(lines: seq<string>) {
    forall k :: 0 <= k < |lines| ==> Blank(lines[k]) || ':' in lines[k]
  }

  lemma AllColonsCons(lines: seq<string>)
    requires lines != []
    ensures AllColons(lines) <==> (Blank(lines[0]) || ':' in lines[0]) && AllColons(lines[1..])
  {
    hide Blank;
    assert forall k :: 1 <= k < |lines| ==> lines[k] == lines[1..][k - 1];
    assert forall k :: 0 <= k < |lines[1..]| ==> lines[1..][k] == lines[k + 1];
  }

  lemma {:induction false} ColonsOfField(lines: seq<string>)
    ensures HeadersHaveColons(InkLines(lines)) <==> AllColons(lines)
  {
    if lines != [] {
      hide TrimSpace, Blank, AllColons;
      ColonsOfField(lines[1..]);
      AllColonsCons(lines);
      TrimSpaceBlank(lines[0]);
      KeepsColon(lines[0]);
      var t, rest := TrimSpace(lines[0]), InkLines(lines[1..]);
      var front := if t == "" then [] else [t];
      assert InkLines(lines) == front + rest;
      ColonsConcat(front, rest);
      assert t != "" ==> front[0] == t;
    }
  }

  /** A page is saved exactly when its names are valid, HAProxy can serve its code, its
      content type stays on one line or is blank, and each line of its header field is
      blank or has a colon; only a blank content type is filled in. */
  lemma AcceptExactly(p: ErrorPage)
    ensures Accept(p).Ok? <==>
              && ValidName(p.name) && ValidName(p.group) && p.code in ERROR_CODES
              && (Blank(p.contentType) || SingleLine(p.contentType))
              && AllColons(Split(p.headers, '\n'))
    ensures Accept(p).Ok? ==>
              Accept(p).value ==
                if Blank(p.contentType) then p.(contentType := "text/html; charset=utf-8") else p
  {
    DefaultTypeIsLine();
    ColonsOfField(Split(p.headers, '\n'));
    hide ValidName, ERROR_CODES, InkLines, Split, Blank, SingleLine, HeadersHaveColons, AllColons;
  }

  lemma DefaultTypeIsLine()
    ensures SingleLine("text/html; charset=utf-8")
  {
  }

  // ---- the file of a page

  /** Two pages with servable codes share a file name only for the same group and code. */
  lemma FileNamesApart(p: ErrorPage, q: ErrorPage)
    requires p.code >= 0 && q.code >= 0
    ensures FileName(p) == FileName(q) <==> p.group == q.group && p.code == q.code
    ensures FileName(p) == p.group + "-" + Dec(p.code) + ".http"
  {
    hide Dec;
    if FileName(p) == FileName(q) {
      var a, b := p.group + "-" + Dec(p.code), q.group + "-" + Dec(q.code);
      assert |a| == |b| && a == FileName(p)[..|a|] && b == FileName(q)[..|b|];
      LastDash(p.group, Dec(p.code), q.group, Dec(q.code));
      ValueDec(p.code);
      ValueDec(q.code);
    }
  }

  /** What follows the last dash can be told from what precedes it. */
  lemma LastDash(a: string, x: string, b: string, y: string)
    requires a + "-" + x == b + "-" + y
    requires forall i :: 0 <= i < |x| ==> x[i] != '-'
    requires forall i :: 0 <= i < |y| ==> y[i] != '-'
    ensures a == b && x == y
  {
    var s := a + "-" + x;
    assert s[|a|] == '-' && s[|b|] == '-';
    assert forall k :: |a| < k < |s| ==> s[k] == x[k - |a| - 1];
    assert forall k :: |b| < k < |s| ==> s[k] == y[k - |b| - 1];
    assert a == s[..|a|] && b == s[..|b|];
    assert x == s[|a| + 1..] && y == s[|b| + 1..];
  }

  // ---- the declared length

  predicate EqualFold(a: string, b: string) {
    |a| == |b| && forall i :: 0 <= i < |a| ==> LowerChar(a[i]) == LowerChar(b[i])
  }

  const LENGTH_NAME := "Content-Length"

  /** The value of a header line that declares the body length. */
  function DeclaredLength(line: string): Option<string> {
    var i := IndexByte(line, ':');
    if i >= 0 && EqualFold(line[..i], LENGTH_NAME) then Some(TrimSpace(line[i + 1..])) else None
  }

  /** Section 6.3 of RFC 9112: every declaration of the length must agree with it. */
  predicate DeclaresOnly(lines: seq<string>, n: nat) {
    forall k :: 0 <= k < |lines| ==> DeclaredLength(lines[k]).Some? ==> DeclaredLength(lines[k]).value == Dec(n)
  }

  lemma NamedOtherwise(name: string, value: string)
    requires ':' !in name && |name| != |LENGTH_NAME|
    ensures DeclaredLength(name + ":" + value) == None
  {
    var line := name + ":" + value;
    assert line[..|name|] == name;
    IndexByteUnique(line, ':', |name|);
  }

  lemma LengthDeclared(n: nat)
    ensures DeclaredLength(LengthHeader(n)) == Some(Dec(n))
  {
    var line := LengthHeader(n);
    assert line[..14] == LENGTH_NAME && line[15..] == " " + Dec(n);
    IndexByteUnique(line, ':', 14);
    TrimBlankDec(n);
  }

  lemma FixedHeadDeclaresNothing(q: ErrorPage)
    requires q.code > 0
    ensures forall k :: 0 <= k < 4 ==> DeclaredLength(FixedHead(q)[k]) == None
  {
    hide DeclaredLength;
    NamedOtherwise("Cache-Control", " no-cache");
    NamedOtherwise("Connection", " close");
    NamedOtherwise("Content-Type", " " + q.contentType);
    assert "Content-Type" + ":" + (" " + q.contentType) == ContentTypeHeader(q);
    assert "Cache-Control" + ":" + " no-cache" == CACHE_CONTROL;
    assert "Connection" + ":" + " close" == CONNECTION;
    StatusDeclaresNothing(q);
    hide StatusLine, ContentTypeHeader;
  }

  lemma StatusDeclaresNothing(q: ErrorPage)
    requires q.code > 0
    ensures DeclaredLength(StatusLine(q)) == None
  {
    StatusLineIsLine(q);
    hide StatusLine;
    assert ':' !in StatusLine(q);
  }

  lemma DeclaresOnlyConcat(a: seq<string>, b: seq<string>, n: nat)
    ensures DeclaresOnly(a + b, n) <==> DeclaresOnly(a, n) && DeclaresOnly(b, n)
  {
    hide DeclaredLength;
    if DeclaresOnly(a + b, n) {
      assert forall k :: 0 <= k < |a| ==> a[k] == (a + b)[k];
      assert forall k :: 0 <= k < |b| ==> b[k] == (a + b)[|a| + k];
    }
  }

  /** The headers the controller adds itself declare the length of the body as it is
      sent; the response as a whole declares it without contradiction if and only if
      no operator header declares another one. */
  lemma LengthIsExact(p: ErrorPage)
    requires Accept(p).Ok?
    ensures var q := Accept(p).value;
            var n := |Normalised(q.body)|;
            && DeclaredLength(HeadLines(q)[|HeadLines(q)| - 1]) == Some(Dec(n))
            && (DeclaresOnly(HeadLines(q), n) <==> DeclaresOnly(CustomHeaders(q), n))
  {
    AcceptedFields(p);
    var q := Accept(p).value;
    var n := |Normalised(q.body)|;
    hide Accept, CustomHeaders, Normalised, DeclaredLength, LengthHeader, FixedHead, DeclaresOnly;
    LengthDeclared(n);
    FixedHeadDeclaresNothing(q);
    FourLines(q);
    LastDeclares(FixedHead(q), CustomHeaders(q), LengthHeader(n), n);
  }

  lemma LastDeclares(head: seq<string>, custom: seq<string>, last: string, n: nat)
    requires forall k :: 0 <= k < |head| ==> DeclaredLength(head[k]) == None
    requires DeclaredLength(last) == Some(Dec(n))
    ensures DeclaresOnly(head + (custom + [last]), n) <==> DeclaresOnly(custom, n)
  {
    hide DeclaredLength;
    DeclaresOnlyConcat(custom, [last], n);
    DeclaresOnlyConcat(head, custom + [last], n);
  }

  /** A page that saving accepts, with an operator header that declares a length. */
  function PageWithLength(m: nat, body: string): ErrorPage {
    ErrorPage("unavailable", "default", 503, "text/html", LengthHeader(m), body, true)
  }

  /** Every wrong length that an operator declares is accepted and sent beside the right one. */
  lemma OperatorLengthContradicts(m: nat, body: string)
    requires m != |Normalised(body)|
    ensures var p := PageWithLength(m, body);
            Accept(p) == Ok(p) && !DeclaresOnly(HeadLines(p), |Normalised(body)|)
  {
    hide *;
    var p, n := PageWithLength(m, body), |Normalised(body)|;
    PageWithLengthAccepted(m, body);
    LengthIsExact(p);
    WrongLength(m, n);
    PageBody(m, body);
  }

  lemma PageBody(m: nat, body: string)
    ensures PageWithLength(m, body).body == body
  {
  }

  lemma WrongLength(m: nat, n: nat)
    requires m != n
    ensures !DeclaresOnly([LengthHeader(m)], n)
  {
    LengthDeclared(m);
    ValueDec(m);
    ValueDec(n);
    hide LengthHeader, DeclaredLength, Dec;
    assert [LengthHeader(m)][0] == LengthHeader(m);
  }

  lemma {:induction false} NothingRemoved(line: string)
    requires forall i :: 0 <= i < |line| ==> line[i] != '\r'
    ensures WithoutCr(line) == line
  {
    if line != "" {
      assert !HasPrefix(line, "\r") by {
        assert line[..1][0] == line[0] && "\r"[0] == '\r';
      }
      NothingRemoved(line[1..]);
    }
  }

  lemma LengthHeaderBytes(m: nat)
    ensures var line := LengthHeader(m);
            && |line| > 15 && line[0] == 'C' && line[14] == ':' && IsDigit(line[|line| - 1])
            && forall i :: 0 <= i < |line| ==> line[i] != '\r' && line[i] != '\n'
  {
    hide Dec;
    assert IsDigit(Dec(m)[|Dec(m)| - 1]);
  }

  lemma LengthFieldLines(m: nat)
    ensures InkLines(Split(LengthHeader(m), '\n')) == [LengthHeader(m)]
    ensures Custom([LengthHeader(m)]) == [LengthHeader(m)]
  {
    LengthHeaderBytes(m);
    hide LengthHeader, TrimSpace, Split;
    var line := LengthHeader(m);
    SplitNone(line, '\n');
    TrimSpaceKeeps(line);
    NothingRemoved(line);
    assert [line][1..] == [];
  }

  lemma FixedFieldsAccepted(p: ErrorPage)
    requires p.name == "unavailable" && p.group == "default" && p.code == 503 && p.contentType == "text/html"
    ensures ValidName(p.name) && ValidName(p.group) && p.code in ERROR_CODES
    ensures SingleLine(p.contentType) && !Blank(p.contentType)
  {
    assert !IsSpace(p.contentType[0]);
    assert ERROR_CODES[15] == 503;
  }

  lemma PageWithLengthAccepted(m: nat, body: string)
    ensures var p := PageWithLength(m, body); Accept(p) == Ok(p) && CustomHeaders(p) == [LengthHeader(m)]
  {
    FixedFieldsAccepted(PageWithLength(m, body));
    LengthFieldLines(m);
    LengthHasColon(m);
    hide LengthHeader, ValidName, SingleLine, Blank, InkLines, Split, Custom, ERROR_CODES, HeadersHaveColons;
  }

  lemma LengthHasColon(m: nat)
    ensures HeadersHaveColons([LengthHeader(m)])
  {
    LengthHeaderBytes(m);
    hide LengthHeader;
    assert [LengthHeader(m)][0][14] == ':';
  }

  // ---- body normalisation

  lemma {:induction false} UndoCrlf(z: string)
    ensures ReplaceAll(ReplaceAll(z, "\n", CRLF), CRLF, "\n") == z
  {
    if z != "" {
      UndoCrlf(z[1..]);
      var rest := ReplaceAll(z[1..], "\n", CRLF);
      assert HasPrefix(z, "\n") <==> z[0] == '\n';
      if z[0] == '\n' {
        var y := CRLF + rest;
        assert HasPrefix(y, CRLF) && y[2..] == rest;
      } else {
        var y := [z[0]] + rest;
        assert y[1..] == rest;
        FirstOfCrlf(z[1..]);
        assert |y| > 1 ==> y[1] == rest[0];
        assert CRLF[1] == '\n';
      }
      assert z == [z[0]] + z[1..];
    }
  }

  /** After normalising, a line feed never comes first. */
  lemma FirstOfCrlf(z: string)
    ensures var y := ReplaceAll(z, "\n", CRLF); y == "" || y[0] != '\n'
  {
  }

  /** Normalising the body twice is normalising it once. */
  lemma NormalisedIsIdempotent(body: string)
    ensures Normalised(Normalised(body)) == Normalised(body)
  {
    UndoCrlf(ReplaceAll(body, CRLF, "\n"));
  }

  /** Normalising changes nothing but line ends: every line feed of the result follows
      a carriage return, and contracting its line ends gives what contracting those of
      the body gives. */
  lemma NormalisedMeans(body: string)
    ensures var out := Normalised(body);
            && ReplaceAll(out, CRLF, "\n") == ReplaceAll(body, CRLF, "\n")
            && forall i :: 0 <= i < |out| && out[i] == '\n' ==> i > 0 && out[i - 1] == '\r'
  {
    var z := ReplaceAll(body, CRLF, "\n");
    UndoCrlf(z);
    hide ReplaceAll;
    forall i | 0 <= i < |Normalised(body)| && Normalised(body)[i] == '\n'
      ensures i > 0 && Normalised(body)[i - 1] == '\r'
    {
      NormalisedLineEnds(z, i);
    }
  }

  lemma {:induction false} NormalisedLineEnds(z: string, i: nat)
    requires i < |ReplaceAll(z, "\n", CRLF)| && ReplaceAll(z, "\n", CRLF)[i] == '\n'
    ensures i > 0 && ReplaceAll(z, "\n", CRLF)[i - 1] == '\r'
  {
    var rest := ReplaceAll(z[1..], "\n", CRLF);
    assert HasPrefix(z, "\n") <==> z[0] == '\n';
    if z[0] == '\n' {
      if i >= 2 {
        NormalisedLineEnds(z[1..], i - 2);
      }
    } else if i >= 1 {
      NormalisedLineEnds(z[1..], i - 1);
    }
  }
}
