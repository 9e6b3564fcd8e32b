/** The bounded line buffer that records what HAProxy prints: arbitrary chunks of
    bytes go in, whole lines come out, and only the newest lines are retained. */
module LineBuffer {
  import opened Text

  // Bytes a pending newline-free run may hold before it is recorded as it stands.
  const PENDING_LIMIT := 8192

  /** The newest n elements. */
  function LastN(s: seq<string>, n: nat): (r: seq<string>)
    ensures |r| == if n < |s| then n else |s|
    ensures r == s[|s| - |r|..]
  {
    if n < |s| then s[|s| - n..] else s
  }

  /** The unbounded log a buffer stands for: every line ever recorded, oldest
      first, and the bytes still waiting for a newline. */
  datatype Log = Log(lines: seq<string>, partial: string)

  const EMPTY := Log([], "")

  function Recorded(line: string): seq<string> {
    if Blank(line) then [] else [line]
  }

  function ReadByte(log: Log, c: char): Log {
    if c == '\n' then Log(log.lines + Recorded(TrimRight(log.partial, Returns)), "")
    else Log(log.lines, log.partial + [c])
  }

  function Read(log: Log, text: string): Log
    decreases |text|
  {
    if text == "" then log else Read(ReadByte(log, text[0]), text[1..])
  }

  /** A run without newline that outgrows the limit is recorded as it stands. */
  function Flush(log: Log): Log {
    if |log.partial| > PENDING_LIMIT then Log(log.lines + Recorded(log.partial), "") else log
  }

  /** What one Write does to the log. */
  function Feed(log: Log, chunk: string): Log {
    Flush(Read(log, chunk))
  }

  // ---- reading

  lemma {:induction false} ReadConcat(log: Log, p: string, q: string)
    ensures Read(log, p + q) == Read(Read(log, p), q)
    decreases |p|
  {
    if p == "" {
      assert p + q == q;
    } else {
      assert (p + q)[1..] == p[1..] + q;
      ReadConcat(ReadByte(log, p[0]), p[1..], q);
    }
  }

  lemma {:induction false} ReadPlain(log: Log, x: string)
    requires '\n' !in x
    ensures Read(log, x) == Log(log.lines, log.partial + x)
    decreases |x|
  {
    if x == "" {
      assert log.partial + x == log.partial;
    } else {
      ReadPlain(ReadByte(log, x[0]), x[1..]);
      assert log.partial + [x[0]] + x[1..] == log.partial + x;
    }
  }

  /** A whole line: everything pending and everything up to the newline. */
  lemma ReadLine(log: Log, x: string, y: string)
    requires '\n' !in x
    ensures Read(log, x + "\n" + y)
         == Read(Log(log.lines + Recorded(TrimRight(log.partial + x, Returns)), ""), y)
  {
    ReadConcat(log, x, "\n" + y);
    ReadPlain(log, x);
    assert x + "\n" + y == x + ("\n" + y);
    assert ("\n" + y)[1..] == y;
  }

  /** Reading only ever appends, and what it appends does not depend on the past. */
  lemma {:induction false} ReadAppends(lines: seq<string>, partial: string, text: string)
    ensures Read(Log(lines, partial), text).lines == lines + Read(Log([], partial), text).lines
    ensures Read(Log(lines, partial), text).partial == Read(Log([], partial), text).partial
    decreases |text|
  {
    if text != "" {
      var a, b := ReadByte(Log(lines, partial), text[0]), ReadByte(Log([], partial), text[0]);
      ReadAppends(a.lines, a.partial, text[1..]);
      ReadAppends(b.lines, b.partial, text[1..]);
      var r := Read(Log([], a.partial), text[1..]).lines;
      assert a.lines == lines + b.lines;
      assert lines + b.lines + r == lines + (b.lines + r);
    }
  }

  // ---- the lines of a text

  /** The lines of a text that carry ink, each without its returns at the end. */
  function InkOf(pieces: seq<string>): seq<string> {
    if pieces == [] then []
    else (if Blank(pieces[0]) then [] else [TrimRight(pieces[0], Returns)]) + InkOf(pieces[1..])
  }

  lemma {:induction false} ReadSplits(lines: seq<string>, text: string)
    ensures var pieces := Split(text, '\n');
            Read(Log(lines, ""), text) == Log(lines + InkOf(pieces[..|pieces| - 1]), pieces[|pieces| - 1])
    decreases |text|
  {
    hide Read, Blank, Split, TrimRight;
    var i := IndexByte(text, '\n');
    if i < 0 {
      ReadPlain(Log(lines, ""), text);
      SplitNone(text, '\n');
      assert "" + text == text && [text][..0] == [] && lines + [] == lines;
    } else {
      var x, y := text[..i], text[i + 1..];
      assert text == x + "\n" + y && "" + x == x;
      ReadLine(Log(lines, ""), x, y);
      SplitConcat(x, '\n', y);
      SplitNone(x, '\n');
      BlankTrimCr(x);
      var line, rest := Recorded(TrimRight(x, Returns)), Split(y, '\n');
      ReadSplits(lines + line, y);
      assert ([x] + rest)[..|rest|] == [x] + rest[..|rest| - 1];
      assert ([x] + rest[..|rest| - 1])[1..] == rest[..|rest| - 1];
      assert lines + line + InkOf(rest[..|rest| - 1]) == lines + (line + InkOf(rest[..|rest| - 1]));
    }
  }

  /** What a write records: the pending bytes and the chunk are cut at the newlines,
      every piece but the last that carries ink becomes a line, and the last stays
      pending unless it has outgrown the limit. */
  lemma FeedSplits(log: Log, chunk: string)
    requires '\n' !in log.partial
    ensures var pieces := Split(log.partial + chunk, '\n');
            var last := pieces[|pieces| - 1];
            var after := Feed(log, chunk);
            && after.partial == (if |last| > 8192 then "" else last)
            && after.lines == log.lines + InkOf(pieces[..|pieces| - 1])
                            + (if |last| > 8192 && !Blank(last) then [last] else [])
  {
    hide Read, Blank, Split, InkOf;
    ReadConcat(Log(log.lines, ""), log.partial, chunk);
    ReadPlain(Log(log.lines, ""), log.partial);
    assert "" + log.partial == log.partial;
    ReadSplits(log.lines, log.partial + chunk);
  }

  // ---- chunk independence

  /** When a run longer than the limit is flushed between p and q, the cut still
      leaves no trace exactly when q adds nothing to the flushed run. */
  predicate CutLeavesNoTrace(run: string, q: string) {
    var i := IndexByte(q, '\n');
    if q == "" then true
    else if i < 0 then Blank(run) && Blank(q) && |q| > 8192
    else
      && Blank(q[..i])
      && (Blank(run) || (TrimRight(q[..i], Returns) == "" && TrimRight(run, Returns) == run))
  }

  /** Write(p) then Write(q) records the same as Write(p + q) if and only if what
      p leaves pending is within the limit, or the cut after it leaves no trace. */
  lemma ChunkCut(log: Log, p: string, q: string)
    ensures Feed(Feed(log, p), q) == Feed(log, p + q)
       <==> (|Read(log, p).partial| <= 8192 || CutLeavesNoTrace(Read(log, p).partial, q))
  {
    ReadConcat(log, p, q);
    if |Read(log, p).partial| > PENDING_LIMIT {
      FlushedRun(Read(log, p), q);
    }
  }

  /** The limit matters: whatever run outgrows it, the cut behind it shows. */
  lemma LongRunIsCut(p: string)
    requires |p| > 8192 && '\n' !in p
    ensures Feed(Feed(EMPTY, p), ['b']) != Feed(EMPTY, p + ['b'])
  {
    hide Feed, Read, Blank, IndexByte;
    assert "" + p == p;
    ReadPlain(EMPTY, p);
    ChunkCut(EMPTY, p, ['b']);
    InkByte('b');
  }

  lemma InkByte(c: char)
    requires !IsSpace(c)
    ensures !Blank([c]) && IndexByte([c], '\n') < 0
  {
    assert [c][0] == c;
  }

  lemma FlushedRun(mid: Log, q: string)
    requires |mid.partial| > PENDING_LIMIT
    ensures Feed(Flush(mid), q) == Feed(mid, q) <==> CutLeavesNoTrace(mid.partial, q)
  {
    var i := IndexByte(q, '\n');
    if i < 0 {
      FlushedRunThenPlain(mid, q);
    } else {
      FlushedRunThenLine(mid, q[..i], q[i + 1..]);
      assert q == q[..i] + "\n" + q[i + 1..];
    }
  }

  lemma FlushedRunThenLine(mid: Log, x: string, y: string)
    requires |mid.partial| > PENDING_LIMIT && '\n' !in x
    ensures Feed(Flush(mid), x + "\n" + y) == Feed(mid, x + "\n" + y)
       <==> (Blank(x) && (Blank(mid.partial)
                          || (TrimRight(x, Returns) == "" && TrimRight(mid.partial, Returns) == mid.partial)))
  {
    var cut := Recorded(mid.partial) + Recorded(TrimRight(x, Returns));
    var whole := Recorded(TrimRight(mid.partial + x, Returns));
    FlushedFeed(mid, x, y);
    ReadLine(mid, x, y);
    assert Feed(mid, x + "\n" + y) == Feed(Log(mid.lines + whole, ""), y);
    SameTail(mid.lines, cut, whole, y);
    FlushedLine(mid.partial, x);
  }

  lemma FlushedFeed(mid: Log, x: string, y: string)
    requires |mid.partial| > PENDING_LIMIT && '\n' !in x
    ensures Feed(Flush(mid), x + "\n" + y)
         == Feed(Log(mid.lines + (Recorded(mid.partial) + Recorded(TrimRight(x, Returns))), ""), y)
  {
    hide Read, Recorded, TrimRight;
    var run, line := Recorded(mid.partial), Recorded(TrimRight(x, Returns));
    ReadLine(Flush(mid), x, y);
    assert "" + x == x;
    assert mid.lines + run + line == mid.lines + (run + line);
  }

  lemma SameTail(lines: seq<string>, a: seq<string>, b: seq<string>, y: string)
    ensures Feed(Log(lines + a, ""), y) == Feed(Log(lines + b, ""), y) <==> a == b
  {
    ReadAppends(lines + a, "", y);
    ReadAppends(lines + b, "", y);
    var r := Read(Log([], ""), y);
    var tail := r.lines + (if |r.partial| > PENDING_LIMIT then Recorded(r.partial) else []);
    assert Feed(Log(lines + a, ""), y).lines == lines + a + tail;
    assert Feed(Log(lines + b, ""), y).lines == lines + b + tail;
    Cancel(lines, a, b, tail);
  }

  lemma FlushedRunThenPlain(mid: Log, q: string)
    requires |mid.partial| > PENDING_LIMIT && '\n' !in q
    ensures Feed(Flush(mid), q) == Feed(mid, q)
       <==> (q == "" || (Blank(mid.partial) && Blank(q) && |q| > PENDING_LIMIT))
  {
    var run := mid.partial;
    ReadPlain(Flush(mid), q);
    ReadPlain(mid, q);
    BlankConcat(run, q);
    assert "" + q == q;
    if |q| > PENDING_LIMIT {
      var cut, whole := Recorded(run) + Recorded(q), Recorded(run + q);
      assert mid.lines + Recorded(run) + Recorded(q) == mid.lines + cut;
      Cancel(mid.lines, cut, whole, []);
      assert mid.lines + cut + [] == mid.lines + cut && mid.lines + whole + [] == mid.lines + whole;
      assert cut != [] ==> |cut[0]| < |run + q|;
      assert whole != [] ==> whole == [run + q];
    } else if q == "" {
      assert run + q == run;
    }
  }

  lemma BlankConcat(a: string, b: string)
    ensures Blank(a + b) <==> Blank(a) && Blank(b)
  {
    if Blank(a + b) {
      forall i | 0 <= i < |a| ensures IsSpace(a[i]) {
        assert a[i] == (a + b)[i];
      }
      forall i | 0 <= i < |b| ensures IsSpace(b[i]) {
        assert b[i] == (a + b)[|a| + i];
      }
    }
  }

  lemma BlankTrimCr(s: string)
    ensures Blank(TrimRight(s, Returns)) <==> Blank(s)
  {
    var n := |TrimRight(s, Returns)|;
    assert s == s[..n] + s[n..];
    BlankConcat(s[..n], s[n..]);
  }

  /** The line a flushed run leaves behind, against the line it would have been. */
  lemma FlushedLine(run: string, x: string)
    requires run != ""
    ensures Recorded(run) + Recorded(TrimRight(x, Returns)) == Recorded(TrimRight(run + x, Returns))
       <==> (Blank(x) && (Blank(run) || (TrimRight(x, Returns) == "" && TrimRight(run, Returns) == run)))
  {
    var X, C := TrimRight(x, Returns), TrimRight(run + x, Returns);
    BlankConcat(run, x);
    BlankTrimCr(x);
    BlankTrimCr(run + x);
    TrimBehind(run, x);
    if Blank(x) {
      assert Recorded(run) + Recorded(X) == Recorded(run);
      if !Blank(run) {
        assert Recorded(C) == [C] && Recorded(run) == [run];
        assert [run] == [C] <==> run == C;
        assert X != "" ==> |C| > |run|;
      }
    } else if Blank(run) {
      assert Recorded(run) + Recorded(X) == [X] && Recorded(C) == [C];
      assert |C| == |run| + |X|;
      assert [X] == [C] <==> X == C;
    } else {
      assert |Recorded(run) + Recorded(X)| == 2;
    }
  }

  lemma TrimBehind(run: string, x: string)
    ensures TrimRight(x, Returns) != "" ==> TrimRight(run + x, Returns) == run + TrimRight(x, Returns)
    ensures TrimRight(x, Returns) == "" ==> TrimRight(run + x, Returns) == TrimRight(run, Returns)
  {
    var n := |TrimRight(x, Returns)|;
    var s := run + x;
    var k := if n > 0 then |run| + n else |TrimRight(run, Returns)|;
    assert n > 0 ==> s[k - 1] == x[n - 1];
    assert n == 0 && k > 0 ==> s[k - 1] == run[k - 1];
    forall i | k <= i < |s| ensures s[i] == '\r' {
      if i >= |run| {
        assert s[i] == x[i - |run|];
      }
    }
    TrimRightUnique(s, k, Returns);
    assert s[..k] == if n > 0 then run + x[..n] else run[..k];
  }

  lemma Cancel(a: seq<string>, b: seq<string>, c: seq<string>, d: seq<string>)
    ensures a + b + d == a + c + d <==> b == c
  {
    if a + b + d == a + c + d {
      assert |b| == |c|;
      assert b == (a + b + d)[|a|..|a| + |b|];
      assert c == (a + c + d)[|a|..|a| + |c|];
    }
  }

  function FeedAll(log: Log, chunks: seq<string>): Log
    decreases |chunks|
  {
    if chunks == [] then log else FeedAll(Feed(log, chunks[0]), chunks[1..])
  }

  function Concat(chunks: seq<string>): string {
    if chunks == [] then "" else chunks[0] + Concat(chunks[1..])
  }

  /** No chunk boundary but the last leaves more than the limit pending. */
  predicate WithinLimit(log: Log, chunks: seq<string>)
    decreases |chunks|
  {
    |chunks| > 1 ==>
      && |Read(log, chunks[0]).partial| <= 8192
      && WithinLimit(Feed(log, chunks[0]), chunks[1..])
  }

  /** However a byte stream is cut into writes, the buffer records the same. */
  lemma {:induction false} ChunkIndependence(log: Log, chunks: seq<string>)
    requires chunks != [] && WithinLimit(log, chunks)
    ensures FeedAll(log, chunks) == Feed(log, Concat(chunks))
    decreases |chunks|
  {
    hide Feed, Read;
    var rest := chunks[1..];
    if |chunks| == 1 {
      assert rest == [] && Concat(rest) == "";
      assert Concat(chunks) == chunks[0];
      assert FeedAll(log, chunks) == FeedAll(Feed(log, chunks[0]), []);
    } else {
      ChunkIndependence(Feed(log, chunks[0]), rest);
      ChunkCut(log, chunks[0], Concat(rest));
    }
  }

  /** Whatever is written after a mark is taken, the lines behind the mark are
      those the writes completed; nothing recorded earlier moves. */
  lemma {:induction false} LinesSinceMark(log: Log, chunks: seq<string>)
    ensures var after := FeedAll(log, chunks);
            && log.lines <= after.lines
            && after.lines[|log.lines|..] == FeedAll(Log([], log.partial), chunks).lines
            && after.partial == FeedAll(Log([], log.partial), chunks).partial
    decreases |chunks|
  {
    if chunks != [] {
      FeedAppends(log, chunks[0]);
      hide Feed;
      var one, two := Feed(log, chunks[0]), Feed(Log([], log.partial), chunks[0]);
      LinesSinceMark(one, chunks[1..]);
      LinesSinceMark(two, chunks[1..]);
      assert Log([], one.partial) == Log([], two.partial);
    }
  }

  lemma FeedAppends(log: Log, chunk: string)
    ensures var two := Feed(Log([], log.partial), chunk);
            Feed(log, chunk) == Log(log.lines + two.lines, two.partial)
  {
    hide Read;
    ReadAppends(log.lines, log.partial, chunk);
  }

  lemma TailSnoc(s: seq<string>, x: string, k: nat)
    requires k <= |s|
    ensures (s + [x])[k..] == s[k..] + [x]
  {
  }

  lemma TailOfTail(s: seq<string>, k: nat)
    requires k < |s|
    ensures s[k..][1..] == s[k + 1..]
  {
  }

  /** Appending to the history slides the retained window by one line. */
  lemma WindowSlides(history: seq<string>, line: string, max: nat, before: seq<string>, after: seq<string>)
    requires max > 0 && before == LastN(history, max)
    requires after == (if |before| == max then before[1..] else before) + [line]
    ensures after == LastN(history + [line], max)
  {
    var n := |history|;
    if n >= max {
      TailOfTail(history, n - max);
      TailSnoc(history, line, n - max + 1);
      assert before == history[n - max..];
    } else {
      assert before == history;
    }
  }

  lemma TailEnd(window: seq<string>, n: nat, k: nat)
    requires k == if n > |window| then |window| else n
    ensures window[|window| - k..] == LastN(window, n)
  {
  }

  lemma NothingRetained(n: int)
    ensures n > 0 ==> Join(LastN([], n), "\n") == ""
  {
  }

  lemma NothingSince(history: seq<string>, max: nat, mark: nat, window: seq<string>)
    requires max > 0 && window == LastN(history, max) && (|history| <= mark || window == [])
    ensures mark <= |history| ==> Join(LastN(history[mark..], max), "\n") == ""
  {
  }

  /** The end of the retained window is the end of what was recorded behind the mark. */
  lemma SinceMark(history: seq<string>, max: nat, mark: nat, k: nat, window: seq<string>)
    requires mark < |history| && max > 0 && window == LastN(history, max)
    requires k == if |history| - mark > |window| then |window| else |history| - mark
    ensures k <= |window| && window[|window| - k..] == LastN(history[mark..], max)
  {
    var n, behind := |history|, history[mark..];
    SliceOfSlice(history, n - |window|, |window| - k);
    SliceOfSlice(history, mark, |behind| - k);
  }

  lemma SliceOfSlice(s: seq<string>, a: nat, b: nat)
    requires a + b <= |s|
    ensures s[a..][b..] == s[a + b..]
  {
  }

  // ---- the buffer itself

  class RingBuffer {
    const max: nat
    var slots: array<string>
    var count: nat
    var partial: string
    var total: nat
    // Every line ever recorded; also what the mirror callback has received.
    ghost var history: seq<string>

    ghost predicate Retains()
      reads this, slots
    {
      && 0 < max == slots.Length
      && count <= max
      && total == |history|
      && slots[..count] == LastN(history, max)
    }

    ghost predicate Valid()
      reads this, slots
    {
      Retains() && '\n' !in partial
    }

    ghost function AsLog(): Log
      reads this
    {
      Log(history, partial)
    }

    constructor (capacity: nat)
      requires capacity > 0
      ensures Valid() && fresh(slots) && max == capacity && AsLog() == EMPTY
    {
      max := capacity;
      slots := new string[capacity](_ => "");
      count, partial, total, history := 0, "", 0, [];
    }

    /** Drops the oldest line of a full buffer by shifting the others down. */
    method ShiftDown()
      requires count == max == slots.Length > 0
      modifies slots
      ensures slots[..max - 1] == old(slots[1..max])
    {
      var i := 0;
      while i < max - 1
        invariant 0 <= i <= max - 1
        invariant forall k :: 0 <= k < i ==> slots[k] == old(slots[k + 1])
        invariant forall k :: i <= k < max ==> slots[k] == old(slots[k])
      {
        slots[i] := slots[i + 1];
        i := i + 1;
      }
    }

    /** Stores the newest line: behind the others, or in place of the oldest. */
    method Store(line: string)
      requires count <= max == slots.Length && 0 < max
      modifies this`count, slots
      ensures count == if old(count) == max then max else old(count) + 1
      ensures slots[..count] == (if old(count) == max then old(slots[1..max]) else old(slots[..count])) + [line]
    {
      if count == max {
        ShiftDown();
        ghost var kept := slots[..max - 1];
        slots[max - 1] := line;
        assert slots[..max - 1] == kept;
      } else {
        ghost var kept := slots[..count];
        slots[count] := line;
        count := count + 1;
        assert slots[..count - 1] == kept;
      }
      assert slots[..count] == slots[..count - 1] + [line];
    }

    method AppendLocked(line: string)
      requires Retains()
      modifies this`count, this`total, this`history, slots
      ensures Retains() && history == old(history) + Recorded(line)
    {
      if Blank(line) {
        return;
      }
      hide Blank, LastN;
      ghost var before := slots[..count];
      Store(line);
      assert old(count) == max ==> old(slots[1..max]) == before[1..];
      WindowSlides(history, line, max, before, slots[..count]);
      total := total + 1;
      history := history + [line];
    }

    /** Write records exactly what the unbounded log records. */
    method Write(p: string) returns (n: nat)
      requires Valid()
      modifies this`count, this`partial, this`total, this`history, slots
      ensures Valid() && n == |p|
      ensures AsLog() == Feed(old(AsLog()), p)
    {
      hide Read, TrimRight, Blank, LastN, IndexByte, Recorded;
      ReadConcat(Log(history, ""), partial, p);
      ReadPlain(Log(history, ""), partial);
      assert "" + partial == partial;
      partial := partial + p;
      while true
        invariant Retains()
        invariant Read(Log(history, ""), partial) == Read(old(AsLog()), p)
        decreases |partial|
      {
        var idx := IndexByte(partial, '\n');
        if idx < 0 {
          break;
        }
        var rest := partial[idx + 1..];
        var line := TrimRight(partial[..idx], Returns);
        assert partial == partial[..idx] + "\n" + rest && "" + partial[..idx] == partial[..idx];
        ReadLine(Log(history, ""), partial[..idx], rest);
        partial := rest;
        AppendLocked(line);
      }
      ReadPlain(Log(history, ""), partial);
      assert "" + partial == partial;
      if |partial| > PENDING_LIMIT {
        AppendLocked(partial);
        partial := "";
      }
      n := |p|;
    }

    /** The last n of the retained lines. */
    method Tail(n: int) returns (r: string)
      requires Valid()
      ensures r == if n <= 0 then "" else Join(LastN(LastN(history, max), n), "\n")
    {
      hide LastN, Join;
      var window := slots[..count];
      if n <= 0 || count == 0 {
        NothingRetained(n);
        return "";
      }
      var k := if n > count then count else n;
      TailEnd(window, n, k);
      r := Join(window[count - k..], "\n");
    }

    method Len() returns (n: nat)
      requires Valid()
      ensures n == |history|
    {
      n := total;
    }

    /** The lines recorded after the mark was taken, or the newest of them when
        more were recorded than the buffer retains. */
    method Since(mark: nat) returns (r: string)
      requires Valid()
      ensures mark <= |history| ==> r == Join(LastN(history[mark..], max), "\n")
      ensures mark > |history| ==> r == ""
    {
      hide LastN, Join;
      var window := slots[..count];
      var produced: int := total - mark;
      if produced <= 0 || count == 0 {
        NothingSince(history, max, mark, window);
        return "";
      }
      if produced > count {
        produced := count;
      }
      SinceMark(history, max, mark, produced, window);
      r := Join(window[count - produced..], "\n");
    }
  }
}
