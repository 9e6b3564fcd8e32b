/** The parser for the master CLI's `show proc` table, and the table it reads. */
module ShowProc {
  import opened Text
  import opened Wrappers

  datatype ProcState = ProcState(reloads: int, failed: int, current: nat, pids: seq<int>)

  const NO_STATE := ProcState(0, 0, 0, [])

  datatype Section = Master | Workers | Old | Programs

  const WORKERS_HEADER := "# workers"
  const OLD_HEADER := "# old workers"
  const PROGRAMS_HEADER := "# programs"
  const FAILED_MARK := "[failed:"

  /** What one line of the table says. */
  datatype Row =
    | Silent
    | Header(opens: Option<Section>)
    | MasterRow(reloads: Option<int>, failed: Option<int>)
    | WorkerRow(pid: int)

  /** The section a line starting with # opens; the column header opens none. */
  function Opens(header: string): Option<Section> {
    if HasPrefix(header, WORKERS_HEADER) then Some(Workers)
    else if HasPrefix(header, OLD_HEADER) then Some(Old)
    else if HasPrefix(header, PROGRAMS_HEADER) then Some(Programs)
    else None
  }

  function FailedCount(trimmed: string): Option<int> {
    var i := Index(trimmed, FAILED_MARK);
    if i < 0 then None
    else
      var rest := trimmed[i + |FAILED_MARK|..];
      var j := IndexByte(rest, ']');
      if j < 0 then None else Some(Atoi(TrimSpace(rest[..j])))
  }

  function RowOf(line: string): Row {
    TrimmedRow(TrimSpace(line))
  }

  function TrimmedRow(trimmed: string): Row {
    if trimmed == "" then Silent
    else if HasPrefix(trimmed, "#") then Header(Opens(trimmed))
    else FieldsRow(trimmed, Fields(trimmed))
  }

  function FieldsRow(trimmed: string, fields: seq<string>): Row {
    if |fields| < 2 then Silent
    else if fields[1] == "master" then
      MasterRow(if |fields| > 2 then Some(Atoi(fields[2])) else None, FailedCount(trimmed))
    else if fields[1] == "worker" then WorkerRow(Atoi(fields[0]))
    else Silent
  }

  function Rows(lines: seq<string>): seq<Row> {
    if lines == [] then [] else [RowOf(lines[0])] + Rows(lines[1..])
  }

  datatype Cursor = Cursor(st: ProcState, section: Section)

  const START := Cursor(NO_STATE, Master)

  function Step(c: Cursor, row: Row): Cursor {
    match row
    case Silent => c
    case Header(opens) => if opens.Some? then c.(section := opens.value) else c
    case MasterRow(reloads, failed) =>
      c.(st := c.st.(reloads := reloads.GetOr(c.st.reloads), failed := failed.GetOr(c.st.failed)))
    case WorkerRow(pid) =>
      if c.section != Workers then c
      else c.(st := c.st.(current := c.st.current + 1,
                          pids := if pid > 0 then c.st.pids + [pid] else c.st.pids))
  }

  function Tally(c: Cursor, rows: seq<Row>): Cursor
    decreases |rows|
  {
    if rows == [] then c else Tally(Step(c, rows[0]), rows[1..])
  }

  function Parsed(out: string): ProcState {
    Tally(START, Rows(Split(out, '\n'))).st
  }

  /** The body of the parser's loop. */
  method ReadLine(line: string, st0: ProcState, section0: Section) returns (st: ProcState, section: Section)
    ensures Cursor(st, section) == Step(Cursor(st0, section0), RowOf(line))
  {
    hide TrimSpace, Fields, Index, IndexByte, Atoi, Opens;
    st, section := st0, section0;
    var trimmed := TrimSpace(line);
    if trimmed == "" {
      return;
    }
    if HasPrefix(trimmed, "#") {
      var opens := Opens(trimmed);
      section := opens.GetOr(section);
      return;
    }
    var fields := Fields(trimmed);
    if |fields| < 2 {
      return;
    }
    if fields[1] == "master" {
      if |fields| > 2 {
        st := st.(reloads := Atoi(fields[2]));
      }
      var i := Index(trimmed, FAILED_MARK);
      if i >= 0 {
        var rest := trimmed[i + |FAILED_MARK|..];
        var j := IndexByte(rest, ']');
        if j >= 0 {
          st := st.(failed := Atoi(TrimSpace(rest[..j])));
        }
      }
    } else if section == Workers && fields[1] == "worker" {
      st := st.(current := st.current + 1);
      var pid := Atoi(fields[0]);
      if pid > 0 {
        st := st.(pids := st.pids + [pid]);
      }
    }
  }

  method ParseShowProc(out: string) returns (st: ProcState)
    ensures st == Parsed(out)
  {
    hide RowOf, Step;
    st := NO_STATE;
    var section := Master;
    var lines := Split(out, '\n');
    var k := 0;
    while k < |lines|
      invariant 0 <= k <= |lines|
      invariant Tally(Cursor(st, section), Rows(lines[k..])).st == Parsed(out)
    {
      assert lines[k..][1..] == lines[k + 1..];
      assert Rows(lines[k..])[1..] == Rows(lines[k + 1..]);
      st, section := ReadLine(lines[k], st, section);
      k := k + 1;
    }
  }

  // ---- the table as the master prints it

  // Process ids and counters fit the 64-bit integers they are parsed into.
  type Pid = p: int | 0 < p <= MAX_INT witness 1

  type Counter = n: int | 0 <= n <= MAX_INT

  datatype Process = Process(pid: Pid, kind: string, reloads: Counter, uptime: string, version: string)

  /** What releases of HAProxy print differently: the mark behind a failed count of 0,
      and the headers of empty sections. */
  datatype Form = Form(mark: bool, retired: bool, programs: bool)

  datatype Table = Table(
    form: Form, master: Process, failed: Counter,
    current: seq<Process>, retired: seq<Process>, programs: seq<Process>)

  /** A column value that cannot be taken for the failed-reload mark. */
  predicate PlainWord(w: string) {
    IsWord(w) && '[' !in w && w[0] != '#'
  }

  predicate PlainProcess(p: Process) {
    PlainWord(p.kind) && PlainWord(p.uptime) && PlainWord(p.version)
  }

  predicate PlainProcesses(ps: seq<Process>) {
    forall k :: 0 <= k < |ps| ==> PlainProcess(ps[k])
  }

  predicate AllOfKind(ps: seq<Process>, kind: string) {
    forall k :: 0 <= k < |ps| ==> ps[k].kind == kind
  }

  /** Only what says nothing is left out. */
  predicate Complete(t: Table) {
    && (t.failed > 0 ==> t.form.mark)
    && (t.retired != [] ==> t.form.retired)
    && (t.programs != [] ==> t.form.programs)
  }

  predicate PlainTable(t: Table) {
    && Complete(t)
    && PlainProcess(t.master) && t.master.kind == "master"
    && PlainProcesses(t.current) && AllOfKind(t.current, "worker")
    && PlainProcesses(t.retired) && AllOfKind(t.retired, "worker")
    && PlainProcesses(t.programs)
  }

  function Blanks(n: nat): (s: string)
    ensures |s| == n && Blank(s)
    ensures forall i :: 0 <= i < n ==> s[i] == ' '
  {
    seq(n, _ => ' ')
  }

  /** The %-15s of one column, with the blank that separates it from the next. */
  function Gap(width: nat): string {
    Blanks((if width < 15 then 15 - width else 0) + 1)
  }

  function Columns(words: seq<string>): string {
    if words == [] then "" else words[0] + (Gap(|words[0]|) + Columns(words[1..]))
  }

  function ProcessWords(p: Process): seq<string> {
    [Dec(p.pid), p.kind, Dec(p.reloads), p.uptime, p.version]
  }

  function ProcessLine(p: Process): string {
    Columns(ProcessWords(p))
  }

  function FailedSuffix(t: Table): string {
    if t.form.mark then " [failed: " + Dec(t.failed) + "]" else ""
  }

  function HeaderLines(shown: bool, header: string): seq<string> {
    if shown then [header] else []
  }

  function MasterLine(t: Table): string {
    var pid, kind, reloads := Dec(t.master.pid), t.master.kind, Dec(t.master.reloads);
    var suffix := FailedSuffix(t);
    pid + (Gap(|pid|) + (kind + (Gap(|kind|) + (reloads + (suffix + (Gap(|reloads + suffix|)
    + Columns([t.master.uptime, t.master.version])))))))
  }

  function ProcessLines(ps: seq<Process>): seq<string> {
    if ps == [] then [] else [ProcessLine(ps[0])] + ProcessLines(ps[1..])
  }

  function ColumnHeader(): string {
    "#<" + ("PID>" + Gap(6) + Columns(["<type>", "<reloads>", "<uptime>", "<version>"]))
  }

  function TableLines(t: Table): seq<string> {
    [ColumnHeader(), MasterLine(t), "# workers"]
    + (ProcessLines(t.current) + (HeaderLines(t.form.retired, "# old workers")
    + (ProcessLines(t.retired) + (HeaderLines(t.form.programs, "# programs")
    + (ProcessLines(t.programs) + [""])))))
  }

  function Printed(t: Table): string {
    Join(TableLines(t), "\n")
  }

  // ---- reading the printed table back

  function Pids(ps: seq<Process>): seq<int> {
    if ps == [] then [] else [ps[0].pid] + Pids(ps[1..])
  }

  /** The reload count a reader keeps: any program called master overwrites it. */
  function LastMaster(reloads: Counter, ps: seq<Process>): Counter
    decreases |ps|
  {
    if ps == [] then reloads
    else LastMaster(if ps[0].kind == "master" then ps[0].reloads else reloads, ps[1..])
  }

  lemma StartsInk(s: string)
    requires s != "" && !IsSpace(s[0])
    ensures TrimSpace(s) != "" && TrimSpace(s) <= s
    ensures forall i :: |TrimSpace(s)| <= i < |s| ==> IsSpace(s[i])
  {
    hide TrimLeft, TrimRight;
    TrimLeftUnique(s, 0, Text.Spaces);
    assert s[0..] == s;
    assert TrimSpace(s) == TrimRight(s, Text.Spaces);
  }

  lemma {:induction false} FieldsColumns(words: seq<string>)
    requires forall k :: 0 <= k < |words| ==> IsWord(words[k])
    ensures Fields(Columns(words)) == words
  {
    if words != [] {
      var gap, rest := Gap(|words[0]|), Columns(words[1..]);
      FieldsColumns(words[1..]);
      FieldsWord(words[0], gap + rest);
      FieldsSkip(gap, rest);
    }
  }

  lemma {:induction false} ColumnsPlain(words: seq<string>, c: char)
    requires forall k :: 0 <= k < |words| ==> c !in words[k]
    requires c != ' '
    ensures c !in Columns(words)
  {
    if words != [] {
      ColumnsPlain(words[1..], c);
    }
  }

  lemma NoMark(s: string)
    requires '[' !in s
    ensures Index(s, FAILED_MARK) == -1
  {
    forall j | 0 <= j <= |s| ensures !OccursAt(s, FAILED_MARK, j) {
      NoOccurrence(s, FAILED_MARK, '[', j);
    }
    IndexFromNone(s, FAILED_MARK, 0);
  }

  lemma DecPlain(n: nat)
    ensures PlainWord(Dec(n)) && '\n' !in Dec(n)
  {
    DecIsWord(n);
    forall c | c in Dec(n) ensures IsDigit(c) {
      var i :| 0 <= i < |Dec(n)| && Dec(n)[i] == c;
    }
  }

  lemma WordsPlain(p: Process)
    requires PlainProcess(p)
    ensures forall k :: 0 <= k < 5 ==> PlainWord(ProcessWords(p)[k])
    ensures '[' !in ProcessLine(p) && '\n' !in ProcessLine(p)
    ensures ProcessLine(p) != "" && IsDigit(ProcessLine(p)[0])
  {
    DecPlain(p.pid);
    DecPlain(p.reloads);
    var words := ProcessWords(p);
    forall k | 0 <= k < 5 ensures '\n' !in words[k] {
      NoNewline(words[k]);
    }
    ColumnsPlain(words, '[');
    ColumnsPlain(words, '\n');
    assert ProcessLine(p)[0] == Dec(p.pid)[0];
  }

  lemma NoNewline(w: string)
    requires IsWord(w)
    ensures '\n' !in w
  {
  }

  function ProcessRow(p: Process): Row {
    if p.kind == "master" then MasterRow(Some(p.reloads), None)
    else if p.kind == "worker" then WorkerRow(p.pid)
    else Silent
  }

  /** A line that starts with a printed number is read by its fields. */
  lemma InkRow(line: string)
    requires line != "" && IsDigit(line[0])
    ensures RowOf(line) == FieldsRow(TrimSpace(line), Fields(line))
  {
    hide Fields, FieldsRow, TrimSpace, Opens;
    StartsInk(line);
    FieldsTrim(line);
    assert TrimSpace(line)[0] == line[0];
    assert "#"[0] == '#' && TrimSpace(line)[..1][0] == line[0];
  }

  lemma RowOfProcess(p: Process)
    requires PlainProcess(p)
    ensures RowOf(ProcessLine(p)) == ProcessRow(p)
  {
    hide RowOf, Atoi, Fields, TrimSpace, Index;
    var line := ProcessLine(p);
    WordsPlain(p);
    StartsInk(line);
    InkRow(line);
    FieldsColumns(ProcessWords(p));
    NoMark(TrimSpace(line));
    AtoiDec(p.pid);
    AtoiDec(p.reloads);
  }

  lemma HeaderRow(line: string)
    requires |line| > 1 && line[0] == '#'
    requires !IsSpace(line[|line| - 1]) || line[1] == '<'
    ensures RowOf(line) == Header(if line[1] == '<' then None else Opens(line))
  {
    hide FieldsRow, Fields, TrimLeft, TrimRight, Opens;
    if IsSpace(line[|line| - 1]) {
      StartsInk(line);
      assert TrimSpace(line)[0] == '#';
    } else {
      TrimSpaceKeeps(line);
    }
    assert |TrimSpace(line)| > 1 ==> TrimSpace(line)[1] == line[1];
    NoSection(TrimSpace(line));
  }

  lemma NoSection(header: string)
    ensures header != "" && (|header| > 1 ==> header[1] != ' ') ==> Opens(header) == None
  {
    assert WORKERS_HEADER[1] == OLD_HEADER[1] == PROGRAMS_HEADER[1] == ' ';
  }

  lemma RowOfHeaders()
    ensures RowOf(ColumnHeader()) == Header(None)
    ensures RowOf(WORKERS_HEADER) == Header(Some(Workers))
    ensures RowOf(OLD_HEADER) == Header(Some(Old))
    ensures RowOf(PROGRAMS_HEADER) == Header(Some(Programs))
    ensures RowOf("") == Silent
  {
    HeadersOpen();
    hide Opens, RowOf;
    HeaderRow(ColumnHeader());
    HeaderRow(WORKERS_HEADER);
    HeaderRow(OLD_HEADER);
    HeaderRow(PROGRAMS_HEADER);
    EmptyRow();
  }

  lemma EmptyRow()
    ensures RowOf("") == Silent
  {
  }

  lemma HeadersOpen()
    ensures Opens(WORKERS_HEADER) == Some(Workers)
    ensures Opens(OLD_HEADER) == Some(Old) && Opens(PROGRAMS_HEADER) == Some(Programs)
  {
    assert WORKERS_HEADER[2] == 'w' && OLD_HEADER[2] == 'o' && PROGRAMS_HEADER[2] == 'p';
  }

  lemma MasterFields(t: Table)
    requires PlainTable(t)
    ensures var f := Fields(MasterLine(t));
            |f| > 2 && f[1] == "master" && f[2] == Dec(t.master.reloads)
  {
    var pid, kind, reloads := Dec(t.master.pid), t.master.kind, Dec(t.master.reloads);
    var suffix := FailedSuffix(t);
    var tail := suffix + (Gap(|reloads + suffix|) + Columns([t.master.uptime, t.master.version]));
    DecPlain(t.master.pid);
    DecPlain(t.master.reloads);
    assert IsSpace(tail[0]);
    FieldsWord(reloads, tail);
    FieldsSkip(Gap(|kind|), reloads + tail);
    FieldsWord(kind, Gap(|kind|) + (reloads + tail));
    FieldsSkip(Gap(|pid|), kind + (Gap(|kind|) + (reloads + tail)));
    FieldsWord(pid, Gap(|pid|) + (kind + (Gap(|kind|) + (reloads + tail))));
  }

  /** Where the mark, its count and the closing bracket sit in the trimmed line. */
  lemma MarkFound(before: string, failed: Counter, after: string)
    requires before != "" && !IsSpace(before[0]) && '[' !in before
    ensures FailedCount(TrimSpace(before + ("[failed: " + Dec(failed) + "]") + after)) == Some(failed)
  {
    hide TrimSpace, Atoi, Index, IndexByte;
    var mark := "[failed: " + Dec(failed) + "]";
    var line := before + mark + after;
    StartsInk(line);
    var trimmed := TrimSpace(line);
    var n := |before| + |mark|;
    assert line[n - 1] == ']';
    assert |trimmed| >= n;
    assert trimmed == line[..|trimmed|];
    var rest := trimmed[n..];
    assert trimmed == before + mark + rest;
    MarkIndex(before, failed, rest);
    CountOf(failed, rest);
    assert trimmed[|before| + 8..] == " " + Dec(failed) + "]" + rest;
  }

  lemma MarkIndex(before: string, failed: Counter, rest: string)
    requires '[' !in before
    ensures Index(before + ("[failed: " + Dec(failed) + "]") + rest, FAILED_MARK) == |before|
  {
    var s := before + ("[failed: " + Dec(failed) + "]") + rest;
    assert s[|before|..|before| + 8] == FAILED_MARK;
    forall j | 0 <= j < |before| ensures !OccursAt(s, FAILED_MARK, j) {
      assert s[j] == before[j];
      NoOccurrence(s, FAILED_MARK, '[', j);
    }
    IndexFromFirst(s, FAILED_MARK, 0, |before|);
  }

  lemma CountOf(failed: Counter, rest: string)
    ensures var s := " " + Dec(failed) + "]" + rest;
            var j := IndexByte(s, ']');
            j >= 0 && Atoi(TrimSpace(s[..j])) == failed
  {
    var d := Dec(failed);
    var s := " " + d + "]" + rest;
    assert s[..1 + |d|] == " " + d;
    assert ']' !in d;
    IndexByteUnique(s, ']', 1 + |d|);
    TrimBlankDec(failed);
    AtoiDec(failed);
  }

  lemma MasterFailed(t: Table)
    requires PlainTable(t)
    ensures FailedCount(TrimSpace(MasterLine(t))) == if t.form.mark then Some(t.failed) else None
  {
    var front, after := MasterFront(t);
    if t.form.mark {
      assert FailedSuffix(t) == " [failed: " + Dec(t.failed) + "]";
      hide MasterLine, TrimSpace, FailedCount, Dec;
      MarkBehind(front, Dec(t.failed), after);
      MarkFound(front + " ", t.failed, after);
    } else {
      assert FailedSuffix(t) == "";
      hide MasterLine, TrimSpace;
      NoBracket(front, after);
      StartsInk(MasterLine(t));
      NoMark(TrimSpace(MasterLine(t)));
    }
  }

  lemma MarkBehind(front: string, digits: string, after: string)
    ensures front + (" [failed: " + digits + "]") + after == (front + " ") + ("[failed: " + digits + "]") + after
    ensures front != "" ==> (front + " ")[0] == front[0]
    ensures '[' !in front ==> '[' !in front + " "
  {
  }

  lemma NoBracket(front: string, after: string)
    requires front != "" && '[' !in front && '[' !in after
    ensures '[' !in front + "" + after && (front + "" + after)[0] == front[0]
  {
  }

  lemma MasterFront(t: Table) returns (front: string, after: string)
    requires PlainTable(t)
    ensures MasterLine(t) == front + FailedSuffix(t) + after
    ensures front != "" && !IsSpace(front[0]) && front[0] != '#'
    ensures '[' !in front && '[' !in after && '\n' !in front && '\n' !in after
  {
    var pid, kind, reloads := Dec(t.master.pid), t.master.kind, Dec(t.master.reloads);
    var suffix, tail := FailedSuffix(t), [t.master.uptime, t.master.version];
    DecPlain(t.master.pid);
    DecPlain(t.master.reloads);
    NoNewline(kind);
    NoNewline(tail[0]);
    NoNewline(tail[1]);
    ColumnsPlain(tail, '[');
    ColumnsPlain(tail, '\n');
    var rest, gap1, gap2 := Columns(tail), Gap(|pid|), Gap(|kind|);
    after := Gap(|reloads + suffix|) + rest;
    front := pid + (gap1 + (kind + (gap2 + reloads)));
    assert MasterLine(t) == pid + (gap1 + (kind + (gap2 + (reloads + (suffix + after)))));
    hide MasterLine, Dec, FailedSuffix, Columns, Gap, PlainTable;
    Fronted(pid, gap1, kind, gap2, reloads, suffix, after);
    assert front[0] == pid[0];
  }

  lemma Fronted(a: string, b: string, c: string, d: string, e: string, f: string, g: string)
    ensures a + (b + (c + (d + (e + (f + g))))) == a + (b + (c + (d + e))) + f + g
  {
  }

  lemma RowOfMaster(t: Table)
    requires PlainTable(t)
    ensures RowOf(MasterLine(t))
         == MasterRow(Some(t.master.reloads), if t.form.mark then Some(t.failed) else None)
  {
    hide RowOf, MasterLine, Atoi, Fields, TrimSpace, FailedCount;
    MasterDigit(t);
    InkRow(MasterLine(t));
    MasterFields(t);
    MasterFailed(t);
    AtoiDec(t.master.reloads);
  }

  lemma MasterDigit(t: Table)
    ensures MasterLine(t) != "" && IsDigit(MasterLine(t)[0])
  {
    assert MasterLine(t)[0] == Dec(t.master.pid)[0];
  }

  // ---- rows of the whole table

  function ProcessRows(ps: seq<Process>): seq<Row> {
    if ps == [] then [] else [ProcessRow(ps[0])] + ProcessRows(ps[1..])
  }

  lemma {:induction false} RowsConcat(a: seq<string>, b: seq<string>)
    ensures Rows(a + b) == Rows(a) + Rows(b)
  {
    hide RowOf;
    if a == [] {
      assert a + b == b;
    } else {
      assert (a + b)[1..] == a[1..] + b;
      RowsConcat(a[1..], b);
    }
  }

  lemma {:induction false} RowsOfProcesses(ps: seq<Process>)
    requires PlainProcesses(ps)
    ensures Rows(ProcessLines(ps)) == ProcessRows(ps)
  {
    hide RowOf, ProcessLine;
    if ps != [] {
      RowOfProcess(ps[0]);
      RowsOfProcesses(ps[1..]);
      assert ProcessLines(ps)[1..] == ProcessLines(ps[1..]);
    }
  }

  function MasterRowOf(t: Table): Row {
    MasterRow(Some(t.master.reloads), if t.form.mark then Some(t.failed) else None)
  }

  function TableRows(t: Table): seq<Row> {
    [Header(None), MasterRowOf(t), Header(Some(Workers))]
    + (ProcessRows(t.current) + (HeaderRows(t.form.retired, Old)
    + (ProcessRows(t.retired) + (HeaderRows(t.form.programs, Programs)
    + (ProcessRows(t.programs) + [Silent])))))
  }

  function HeaderRows(shown: bool, section: Section): seq<Row> {
    if shown then [Header(Some(section))] else []
  }

  lemma RowsOfHeaderLines(shown: bool)
    ensures Rows(HeaderLines(shown, OLD_HEADER)) == HeaderRows(shown, Old)
    ensures Rows(HeaderLines(shown, PROGRAMS_HEADER)) == HeaderRows(shown, Programs)
  {
    hide RowOf;
    RowOfHeaders();
    RowsOfOne(OLD_HEADER);
    RowsOfOne(PROGRAMS_HEADER);
  }

  lemma RowsOfTable(t: Table)
    requires PlainTable(t)
    ensures Rows(TableLines(t)) == TableRows(t)
  {
    RowOfHeaders();
    RowOfMaster(t);
    RowsOfOne("");
    RowsOfHeaderLines(t.form.retired);
    RowsOfHeaderLines(t.form.programs);
    RowsOfProcesses(t.current);
    RowsOfProcesses(t.retired);
    RowsOfProcesses(t.programs);
    RowsOfTop(t);
    hide RowOf, MasterLine, Rows, ProcessLines, ProcessRows, HeaderLines, HeaderRows, PlainTable;
    var programs, end := ProcessLines(t.programs), [""];
    var retired, header := HeaderLines(t.form.retired, OLD_HEADER), HeaderLines(t.form.programs, PROGRAMS_HEADER);
    RowsConcat(programs, end);
    RowsConcat(header, programs + end);
    var last := header + (programs + end);
    RowsConcat(ProcessLines(t.retired), last);
    var tail := ProcessLines(t.retired) + last;
    RowsConcat(retired, tail);
    RowsConcat(ProcessLines(t.current), retired + tail);
    RowsConcat([ColumnHeader(), MasterLine(t), WORKERS_HEADER], ProcessLines(t.current) + (retired + tail));
  }

  lemma RowsOfOne(line: string)
    ensures Rows([line]) == [RowOf(line)]
  {
    hide RowOf;
    assert [line][1..] == [];
  }

  lemma RowsOfTop(t: Table)
    ensures Rows([ColumnHeader(), MasterLine(t), WORKERS_HEADER])
         == [RowOf(ColumnHeader()), RowOf(MasterLine(t)), RowOf(WORKERS_HEADER)]
  {
    hide RowOf, MasterLine, ColumnHeader, Rows;
    var a, b, c := ColumnHeader(), MasterLine(t), WORKERS_HEADER;
    assert [a, b, c] == [a] + ([b] + [c]);
    RowsConcat([a], [b] + [c]);
    RowsConcat([b], [c]);
    RowsOfOne(a);
    RowsOfOne(b);
    RowsOfOne(c);
  }

  // ---- what the rows add up to

  lemma {:induction false} TallyConcat(c: Cursor, a: seq<Row>, b: seq<Row>)
    ensures Tally(c, a + b) == Tally(Tally(c, a), b)
    decreases |a|
  {
    hide Step;
    if a == [] {
      assert a + b == b;
    } else {
      assert (a + b)[1..] == a[1..] + b;
      TallyConcat(Step(c, a[0]), a[1..], b);
    }
  }

  lemma TallyOne(c: Cursor, row: Row)
    ensures Tally(c, [row]) == Step(c, row)
  {
    hide Step;
    assert [row][1..] == [];
  }

  lemma {:induction false} TallyWorkers(c: Cursor, ps: seq<Process>)
    requires AllOfKind(ps, "worker")
    ensures Tally(c, ProcessRows(ps)) ==
      if c.section != Workers then c
      else c.(st := c.st.(current := c.st.current + |ps|, pids := c.st.pids + Pids(ps)))
    decreases |ps|
  {
    if ps != [] {
      assert ps[0].kind == "worker";
      var next := Step(c, WorkerRow(ps[0].pid));
      TallyWorkers(next, ps[1..]);
      assert ProcessRows(ps)[1..] == ProcessRows(ps[1..]);
      assert c.st.pids + Pids(ps) == c.st.pids + [ps[0].pid] + Pids(ps[1..]);
    } else {
      assert c.st.pids + [] == c.st.pids;
    }
  }

  lemma {:induction false} TallyPrograms(c: Cursor, ps: seq<Process>)
    requires (c.section == Programs || ps == []) && 0 <= c.st.reloads <= MAX_INT
    ensures Tally(c, ProcessRows(ps)) == c.(st := c.st.(reloads := LastMaster(c.st.reloads, ps)))
    decreases |ps|
  {
    if ps != [] {
      TallyPrograms(Step(c, ProcessRow(ps[0])), ps[1..]);
      assert ProcessRows(ps)[1..] == ProcessRows(ps[1..]);
    }
  }

  lemma TallyHeader(c: Cursor, shown: bool, section: Section)
    ensures Tally(c, HeaderRows(shown, section)) == if shown then c.(section := section) else c
  {
    TallyOne(c, Header(Some(section)));
  }

  lemma TallyTop(t: Table)
    requires Complete(t)
    ensures Tally(START, [Header(None), MasterRowOf(t), Header(Some(Workers))])
         == Cursor(ProcState(t.master.reloads, t.failed, 0, []), Workers)
  {
    var a, b, c := Header(None), MasterRowOf(t), Header(Some(Workers));
    assert [a, b, c] == [a] + ([b] + [c]);
    TallyConcat(START, [a], [b] + [c]);
    TallyOne(START, a);
    TallyConcat(START, [b], [c]);
    TallyOne(START, b);
    TallyOne(Step(START, b), c);
  }

  /** Behind the current workers nothing is counted, and only programs can change
      the reload count. */
  lemma TallyRest(c: Cursor, t: Table)
    requires PlainTable(t) && c.section == Workers && 0 <= c.st.reloads <= MAX_INT
    ensures var rows := HeaderRows(t.form.retired, Old)
              + (ProcessRows(t.retired)
                 + (HeaderRows(t.form.programs, Programs) + (ProcessRows(t.programs) + [Silent])));
            Tally(c, rows).st == c.st.(reloads := LastMaster(c.st.reloads, t.programs))
  {
    hide Tally, ProcessRows, Pids, LastMaster, HeaderRows;
    var last := ProcessRows(t.programs) + [Silent];
    var programs := HeaderRows(t.form.programs, Programs) + last;
    var c1 := if t.form.retired then c.(section := Old) else c;
    TallyConcat(c, HeaderRows(t.form.retired, Old), ProcessRows(t.retired) + programs);
    TallyHeader(c, t.form.retired, Old);
    TallyConcat(c1, ProcessRows(t.retired), programs);
    TallyWorkers(c1, t.retired);
    NobodyCounted(c1, t.retired);
    var c2 := if t.form.programs then c1.(section := Programs) else c1;
    TallyConcat(c1, HeaderRows(t.form.programs, Programs), last);
    TallyHeader(c1, t.form.programs, Programs);
    TallyConcat(c2, ProcessRows(t.programs), [Silent]);
    TallyPrograms(c2, t.programs);
    TallyOne(Tally(c2, ProcessRows(t.programs)), Silent);
  }

  lemma NobodyCounted(c: Cursor, ps: seq<Process>)
    ensures ps == [] ==> c.(st := c.st.(current := c.st.current + |ps|, pids := c.st.pids + Pids(ps))) == c
  {
  }

  lemma TallyTable(t: Table)
    requires PlainTable(t)
    ensures Tally(START, TableRows(t)).st == ProcState(
      LastMaster(t.master.reloads, t.programs), t.failed, |t.current|, Pids(t.current))
  {
    TallyTop(t);
    hide Tally, ProcessRows, Pids, LastMaster, MasterRowOf, HeaderRows;
    var rest := HeaderRows(t.form.retired, Old)
      + (ProcessRows(t.retired) + (HeaderRows(t.form.programs, Programs) + (ProcessRows(t.programs) + [Silent])));
    var c0 := Cursor(ProcState(t.master.reloads, t.failed, 0, []), Workers);
    TallyConcat(START, [Header(None), MasterRowOf(t), Header(Some(Workers))], ProcessRows(t.current) + rest);
    TallyConcat(c0, ProcessRows(t.current), rest);
    TallyWorkers(c0, t.current);
    var c1 := c0.(st := c0.st.(current := |t.current|, pids := Pids(t.current)));
    assert [] + Pids(t.current) == Pids(t.current);
    TallyRest(c1, t);
  }

  // ---- the lines of the whole table

  predicate OneLiners(lines: seq<string>) {
    forall k :: 0 <= k < |lines| ==> '\n' !in lines[k]
  }

  lemma {:induction false} ProcessLinesPlain(ps: seq<Process>)
    requires PlainProcesses(ps)
    ensures OneLiners(ProcessLines(ps))
  {
    hide ProcessLine;
    if ps != [] {
      WordsPlain(ps[0]);
      ProcessLinesPlain(ps[1..]);
    }
  }

  lemma TableLinesPlain(t: Table)
    requires PlainTable(t)
    ensures TableLines(t) != [] && OneLiners(TableLines(t))
  {
    ProcessLinesPlain(t.current);
    ProcessLinesPlain(t.retired);
    ProcessLinesPlain(t.programs);
    MasterOneLine(t);
    HeaderOneLine();
    FixedLines(t);
    hide MasterLine, ProcessLines, ColumnHeader, OneLiners, PlainTable, HeaderLines;
    OneLinersChain([ColumnHeader(), MasterLine(t), WORKERS_HEADER], ProcessLines(t.current),
                   HeaderLines(t.form.retired, OLD_HEADER), ProcessLines(t.retired),
                   HeaderLines(t.form.programs, PROGRAMS_HEADER), ProcessLines(t.programs), [""]);
  }

  lemma HeaderOneLine()
    ensures '\n' !in ColumnHeader()
  {
    ColumnsPlain(["<type>", "<reloads>", "<uptime>", "<version>"], '\n');
  }

  lemma OneLinersChain(
      a: seq<string>, b: seq<string>, c: seq<string>, d: seq<string>, e: seq<string>, f: seq<string>, g: seq<string>)
    requires OneLiners(a) && OneLiners(b) && OneLiners(c) && OneLiners(d)
    requires OneLiners(e) && OneLiners(f) && OneLiners(g)
    ensures OneLiners(a + (b + (c + (d + (e + (f + g))))))
  {
    hide OneLiners;
    OneLinersConcat(f, g);
    OneLinersConcat(e, f + g);
    OneLinersConcat(d, e + (f + g));
    OneLinersConcat(c, d + (e + (f + g)));
    OneLinersConcat(b, c + (d + (e + (f + g))));
    OneLinersConcat(a, b + (c + (d + (e + (f + g)))));
  }

  lemma OneLinersConcat(a: seq<string>, b: seq<string>)
    requires OneLiners(a) && OneLiners(b)
    ensures OneLiners(a + b)
  {
  }

  lemma FixedLines(t: Table)
    requires '\n' !in MasterLine(t) && '\n' !in ColumnHeader()
    ensures OneLiners([ColumnHeader(), MasterLine(t), WORKERS_HEADER])
    ensures OneLiners(HeaderLines(t.form.retired, OLD_HEADER))
    ensures OneLiners(HeaderLines(t.form.programs, PROGRAMS_HEADER))
    ensures OneLiners([""])
  {
    hide MasterLine, ColumnHeader;
  }

  lemma MasterOneLine(t: Table)
    requires PlainTable(t)
    ensures '\n' !in MasterLine(t)
  {
    var front, after := MasterFront(t);
    DecPlain(t.failed);
    SuffixOneLine(t);
    hide MasterLine, FailedSuffix, PlainTable;
  }

  lemma SuffixOneLine(t: Table)
    ensures '\n' !in FailedSuffix(t)
  {
    DecPlain(t.failed);
    hide Dec;
  }

  /** Parsing the printed table gives back its reload count, its failed count and
      exactly the current workers in order; retired workers and programs leave no
      trace, except that a program named master overwrites the reload count. */
  lemma ParseInvertsPrint(t: Table)
    requires PlainTable(t)
    ensures Parsed(Printed(t)) == ProcState(
      LastMaster(t.master.reloads, t.programs), t.failed, |t.current|, Pids(t.current))
  {
    hide TableLines, TableRows, Rows, Tally;
    TableLinesPlain(t);
    SplitJoin(TableLines(t), '\n');
    assert "\n" == ['\n'];
    RowsOfTable(t);
    TallyTable(t);
  }

  /** A reply that is cut behind the third line reads as a master without workers. */
  lemma ParseTop(t: Table)
    requires PlainTable(t)
    ensures Parsed(Join(TableLines(t)[..3], "\n")) == ProcState(t.master.reloads, t.failed, 0, [])
  {
    TopLines(t);
    var top := TableLines(t)[..3];
    RowOfHeaders();
    RowOfMaster(t);
    RowsOfTop(t);
    TallyTop(t);
    hide MasterLine, ColumnHeader, RowOf, Rows, Tally, TableLines, Split, Join;
    assert "\n" == ['\n'];
    SplitJoin(top, '\n');
  }

  lemma TopLines(t: Table)
    requires PlainTable(t)
    ensures |TableLines(t)| >= 3 && TableLines(t)[..3] == [ColumnHeader(), MasterLine(t), WORKERS_HEADER]
    ensures forall k :: 0 <= k < 3 ==> '\n' !in TableLines(t)[..3][k]
  {
    TableLinesPlain(t);
    hide MasterLine, ColumnHeader;
    assert forall k :: 0 <= k < 3 ==> TableLines(t)[..3][k] == TableLines(t)[k];
  }

  /** ps[i] is the last program called master. */
  predicate IsLastMaster(ps: seq<Process>, i: nat) {
    && i < |ps| && ps[i].kind == "master"
    && forall j :: i < j < |ps| ==> ps[j].kind != "master"
  }

  lemma {:induction false} LastMasterIs(reloads: Counter, ps: seq<Process>, i: nat)
    requires IsLastMaster(ps, i)
    ensures LastMaster(reloads, ps) == ps[i].reloads
    decreases |ps|
  {
    var next := if ps[0].kind == "master" then ps[0].reloads else reloads;
    if i == 0 {
      NoMasterProgram(next, ps[1..]);
    } else {
      assert ps[1..][i - 1] == ps[i];
      LastMasterIs(next, ps[1..], i - 1);
    }
  }

  /** Without a program of that name, the reload count is the master's own. */
  lemma {:induction false} NoMasterProgram(reloads: Counter, ps: seq<Process>)
    requires forall k :: 0 <= k < |ps| ==> ps[k].kind != "master"
    ensures LastMaster(reloads, ps) == reloads
    decreases |ps|
  {
    if ps != [] {
      NoMasterProgram(reloads, ps[1..]);
    }
  }

  lemma LastMasterExists(ps: seq<Process>, k: nat) returns (i: nat)
    requires k < |ps| && ps[k].kind == "master"
    ensures IsLastMaster(ps, i)
  {
    i := |ps| - 1;
    while ps[i].kind != "master"
      invariant k <= i < |ps|
      invariant forall j :: i < j < |ps| ==> ps[j].kind != "master"
      decreases i
    {
      i := i - 1;
    }
  }

  /** The table is read back exactly if and only if the last program that is called
      master, if there is one, happens to have the master's reload count. */
  lemma ReloadsReadExactly(t: Table)
    requires PlainTable(t)
    ensures Parsed(Printed(t)) == ProcState(t.master.reloads, t.failed, |t.current|, Pids(t.current))
       <==> forall i: nat :: IsLastMaster(t.programs, i) ==> t.programs[i].reloads == t.master.reloads
  {
    hide Parsed, Printed, PlainTable, Pids, LastMaster;
    ParseInvertsPrint(t);
    var ps := t.programs;
    if k :| 0 <= k < |ps| && ps[k].kind == "master" {
      var i := LastMasterExists(ps, k);
      LastMasterIs(t.master.reloads, ps, i);
      assert IsLastMaster(ps, i);
    } else {
      NoMasterProgram(t.master.reloads, ps);
    }
  }

  function MisreadTable(): Table {
    Table(Form(true, true, true), Process(35, "master", 5, "1d", "3.2"), 0, [], [],
          [Process(40, "master", 7, "1d", "-")])
  }

  /** One program called master is enough to report its reload count instead. */
  lemma MasterProgramMisleads()
    ensures PlainTable(MisreadTable()) && Parsed(Printed(MisreadTable())).reloads != MisreadTable().master.reloads
  {
    hide PlainTable, Parsed, Printed, Pids, LastMaster;
    MisreadTablePlain();
    ParseInvertsPrint(MisreadTable());
    LastMasterIs(5, MisreadTable().programs, 0);
  }

  lemma MisreadTablePlain()
    ensures PlainTable(MisreadTable())
  {
    ShortWords();
    hide PlainWord;
    var t := MisreadTable();
    assert PlainProcess(t.master) && PlainProcess(t.programs[0]);
    hide PlainProcess;
  }

  lemma ShortWords()
    ensures PlainWord("master") && PlainWord("1d") && PlainWord("3.2") && PlainWord("-")
  {
  }
}
