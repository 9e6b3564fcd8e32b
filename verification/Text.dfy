/** The string operations of Go's strings and strconv packages that the
    controller relies on. A string is a sequence of bytes, one char each; white
    space and letter case are those of ASCII. */
module Text {

  // ---- characters

  predicate IsSpace(c: char) {
    c == ' ' || '\t' <= c <= '\r'
  }

  predicate IsDigit(c: char) {
    '0' <= c <= '9'
  }

  /** Every byte is white space: strings.TrimSpace would leave nothing. */
  predicate Blank(s: string) {
    forall i :: 0 <= i < |s| ==> IsSpace(s[i])
  }

  /** A nonempty run without white space. */
  predicate IsWord(s: string) {
    s != [] && forall i :: 0 <= i < |s| ==> !IsSpace(s[i])
  }

  // ---- trimming

  /** The byte sets the controller trims. */
  datatype Cutset = Spaces | Returns | LineEnds | Underscores

  predicate Cuts(cut: Cutset, c: char) {
    match cut
    case Spaces => IsSpace(c)
    case Returns => c == '\r'
    case LineEnds => c == ' ' || c == '\t' || c == '\r'
    case Underscores => c == '_'
  }

  /** The first position from i on whose byte is not cut. */
  function LeadEnd(s: string, cut: Cutset, i: nat): (n: nat)
    requires i <= |s|
    ensures i <= n <= |s| && (n < |s| ==> !Cuts(cut, s[n]))
    ensures forall k :: i <= k < n ==> Cuts(cut, s[k])
    decreases |s| - i
  {
    if i < |s| && Cuts(cut, s[i]) then LeadEnd(s, cut, i + 1) else i
  }

  /** The end of what is left of s[..n] when trailing bytes are cut. */
  function TailStart(s: string, cut: Cutset, n: nat): (k: nat)
    requires n <= |s|
    ensures k <= n && (k > 0 ==> !Cuts(cut, s[k - 1]))
    ensures forall i :: k <= i < n ==> Cuts(cut, s[i])
  {
    if n > 0 && Cuts(cut, s[n - 1]) then TailStart(s, cut, n - 1) else n
  }

  function TrimLeft(s: string, cut: Cutset): (r: string)
    ensures |r| <= |s| && r == s[|s| - |r|..]
    ensures r == [] || !Cuts(cut, r[0])
    ensures forall i :: 0 <= i < |s| - |r| ==> Cuts(cut, s[i])
  {
    s[LeadEnd(s, cut, 0)..]
  }

  function TrimRight(s: string, cut: Cutset): (r: string)
    ensures |r| <= |s| && r == s[..|r|]
    ensures r == [] || !Cuts(cut, r[|r| - 1])
    ensures forall i :: |r| <= i < |s| ==> Cuts(cut, s[i])
  {
    s[..TailStart(s, cut, |s|)]
  }

  function Trim(s: string, cut: Cutset): string {
    TrimRight(TrimLeft(s, cut), cut)
  }

  function TrimSpace(s: string): string {
    Trim(s, Spaces)
  }

  lemma {:induction false} TailStartUnique(s: string, cut: Cutset, n: nat, k: nat)
    requires k <= n <= |s| && (k == 0 || !Cuts(cut, s[k - 1]))
    requires forall i :: k <= i < n ==> Cuts(cut, s[i])
    ensures TailStart(s, cut, n) == k
  {
    if k < n {
      TailStartUnique(s, cut, n - 1, k);
    }
  }

  lemma TrimRightUnique(s: string, k: nat, cut: Cutset)
    requires k <= |s|
    requires k == 0 || !Cuts(cut, s[k - 1])
    requires forall i :: k <= i < |s| ==> Cuts(cut, s[i])
    ensures TrimRight(s, cut) == s[..k]
  {
    TailStartUnique(s, cut, |s|, k);
  }

  lemma {:induction false} LeadEndUnique(s: string, cut: Cutset, i: nat, k: nat)
    requires i <= k <= |s| && (k == |s| || !Cuts(cut, s[k]))
    requires forall j :: i <= j < k ==> Cuts(cut, s[j])
    ensures LeadEnd(s, cut, i) == k
    decreases k - i
  {
    if i < k {
      LeadEndUnique(s, cut, i + 1, k);
    }
  }

  lemma TrimLeftUnique(s: string, k: nat, cut: Cutset)
    requires k <= |s|
    requires k == |s| || !Cuts(cut, s[k])
    requires forall i :: 0 <= i < k ==> Cuts(cut, s[i])
    ensures TrimLeft(s, cut) == s[k..]
  {
    LeadEndUnique(s, cut, 0, k);
  }

  lemma TrimSpaceBlank(s: string)
    ensures Blank(s) <==> TrimSpace(s) == ""
  {
    if Blank(s) {
      TrimLeftUnique(s, |s|, Spaces);
    } else {
      var l := TrimLeft(s, Spaces);
      var i :| 0 <= i < |s| && !IsSpace(s[i]);
      assert |s| - |l| <= i;
      assert l[0] == s[|s| - |l|];
      assert !IsSpace(l[0]);
    }
  }

  /** Trimming leaves text that starts and ends with non-space bytes alone. */
  lemma TrimSpaceKeeps(s: string)
    requires s != [] && !IsSpace(s[0]) && !IsSpace(s[|s| - 1])
    ensures TrimSpace(s) == s
  {
    hide TrimLeft, TrimRight;
    TrimLeftUnique(s, 0, Spaces);
    TrimRightUnique(s, |s|, Spaces);
    assert s[0..] == s && s[..|s|] == s;
  }

  lemma TrimSpaceIs(s: string)
    ensures TrimSpace(s) == TrimRight(TrimLeft(s, Spaces), Spaces)
  {
  }

  /** Trimmed text starts and ends with ink. */
  lemma InkEnds(l: string)
    ensures var t := TrimSpace(l); t != "" ==> !IsSpace(t[0]) && !IsSpace(t[|t| - 1])
  {
    hide TrimLeft, TrimRight;
    var left := TrimLeft(l, Spaces);
    TrimSpaceIs(l);
    if TrimSpace(l) != "" {
      assert TrimSpace(l)[0] == left[0];
    }
  }

  /** Trimming text that was put behind other trimmed text. */
  lemma TrimBehindText(front: string, note: string)
    requires TrimSpace(front) == front
    requires note != "" && !IsSpace(note[0]) && !IsSpace(note[|note| - 1])
    ensures TrimSpace(front + "\n\n" + note) == if front == "" then note else front + "\n\n" + note
  {
    hide TrimLeft, TrimRight, TrimSpace;
    var s := front + "\n\n" + note;
    assert s[|s| - 1] == note[|note| - 1];
    if front == "" {
      assert s[2..] == note && s[2] == note[0];
      TrimLeftUnique(s, 2, Spaces);
      TrimRightUnique(note, |note|, Spaces);
      TrimSpaceIs(s);
    } else {
      InkEnds(front);
      assert s[0] == front[0];
      TrimSpaceKeeps(s);
    }
  }

  // ---- searching

  /** strings.IndexByte. */
  function IndexByte(s: string, c: char): (i: int)
    ensures -1 <= i < |s|
    ensures i >= 0 ==> s[i] == c && c !in s[..i]
    ensures i < 0 ==> c !in s
  {
    if s == [] then -1
    else if s[0] == c then 0
    else
      var i := IndexByte(s[1..], c);
      assert i >= 0 ==> s[..i + 1] == [s[0]] + s[1..][..i];
      assert s == [s[0]] + s[1..];
      if i < 0 then -1 else i + 1
  }

  lemma {:induction false} IndexByteUnique(s: string, c: char, i: nat)
    requires i < |s| && s[i] == c && c !in s[..i]
    ensures IndexByte(s, c) == i
  {
    if i > 0 {
      assert s[..i] == [s[0]] + s[1..][..i - 1];
      IndexByteUnique(s[1..], c, i - 1);
    }
  }

  predicate OccursAt(s: string, sub: string, i: int) {
    0 <= i && i + |sub| <= |s| && s[i..i + |sub|] == sub
  }

  /** strings.Index. */
  function Index(s: string, sub: string): (i: int)
    ensures i == -1 || 0 <= i <= i + |sub| <= |s|
  {
    IndexFrom(s, sub, 0)
  }

  function IndexFrom(s: string, sub: string, from: nat): (i: int)
    ensures i == -1 || from <= i <= i + |sub| <= |s|
    decreases |s| + 1 - from
  {
    if from > |s| then -1
    else if OccursAt(s, sub, from) then from
    else IndexFrom(s, sub, from + 1)
  }

  lemma {:induction false} IndexFromFirst(s: string, sub: string, from: nat, i: nat)
    requires from <= i && OccursAt(s, sub, i)
    requires forall j :: from <= j < i ==> !OccursAt(s, sub, j)
    ensures IndexFrom(s, sub, from) == i
    decreases i - from
  {
    if from < i {
      IndexFromFirst(s, sub, from + 1, i);
    }
  }

  lemma {:induction false} IndexFromNone(s: string, sub: string, from: nat)
    requires forall j :: from <= j <= |s| ==> !OccursAt(s, sub, j)
    ensures IndexFrom(s, sub, from) == -1
    decreases |s| + 1 - from
  {
    if from <= |s| {
      IndexFromNone(s, sub, from + 1);
    }
  }

  /** A byte that the text lacks rules out an occurrence. */
  lemma NoOccurrence(s: string, sub: string, c: char, j: int)
    requires sub != "" && sub[0] == c
    requires 0 <= j <= |s| && (j < |s| ==> s[j] != c)
    ensures !OccursAt(s, sub, j)
  {
    if j + |sub| <= |s| {
      assert s[j..j + |sub|][0] == s[j];
    }
  }

  predicate Contains(s: string, sub: string) {
    exists i :: 0 <= i <= |s| && OccursAt(s, sub, i)
  }

  predicate HasPrefix(s: string, p: string) {
    |p| <= |s| && s[..|p|] == p
  }

  predicate HasSuffix(s: string, p: string) {
    |p| <= |s| && s[|s| - |p|..] == p
  }

  function TrimPrefix(s: string, p: string): string {
    if HasPrefix(s, p) then s[|p|..] else s
  }

  /** strings.ReplaceAll for a nonempty pattern: leftmost first, never rescanned. */
  function ReplaceAll(s: string, from: string, to: string): string
    requires from != ""
    decreases |s|
  {
    if s == "" then ""
    else if HasPrefix(s, from) then to + ReplaceAll(s[|from|..], from, to)
    else [s[0]] + ReplaceAll(s[1..], from, to)
  }

  // ---- splitting and joining

  /** strings.Split with a one-byte separator: never empty. */
  function Split(s: string, sep: char): (r: seq<string>)
    ensures r != []
  {
    if s == [] then [""]
    else
      var r := Split(s[1..], sep);
      if s[0] == sep then [""] + r else [[s[0]] + r[0]] + r[1..]
  }

  function Join(parts: seq<string>, sep: string): string {
    if parts == [] then ""
    else if |parts| == 1 then parts[0]
    else parts[0] + sep + Join(parts[1..], sep)
  }

  lemma {:induction false} SplitConcat(a: string, sep: char, b: string)
    ensures Split(a + [sep] + b, sep) == Split(a, sep) + Split(b, sep)
  {
    if a == [] {
      assert (a + [sep] + b)[1..] == b;
    } else {
      assert (a + [sep] + b)[1..] == a[1..] + [sep] + b;
      SplitConcat(a[1..], sep, b);
    }
  }

  lemma {:induction false} SplitNone(s: string, sep: char)
    requires sep !in s
    ensures Split(s, sep) == [s]
  {
    if s != [] {
      SplitNone(s[1..], sep);
      assert s == [s[0]] + s[1..];
    }
  }

  lemma {:induction false} JoinHead(head: string, parts: seq<string>, sep: string)
    requires parts != []
    ensures Join([head + parts[0]] + parts[1..], sep) == head + Join(parts, sep)
  {
    var all := [head + parts[0]] + parts[1..];
    assert all[1..] == parts[1..];
  }

  lemma {:induction false} JoinSplit(s: string, sep: char)
    ensures Join(Split(s, sep), [sep]) == s
  {
    if s != [] {
      JoinSplit(s[1..], sep);
      var r := Split(s[1..], sep);
      assert s == [s[0]] + s[1..];
      if s[0] == sep {
        assert ([""] + r)[1..] == r;
        assert Join([""] + r, [sep]) == "" + [sep] + Join(r, [sep]);
      } else {
        JoinHead([s[0]], r, [sep]);
      }
    }
  }

  lemma {:induction false} JoinConcat(a: seq<string>, b: seq<string>, sep: string)
    requires a != [] && b != []
    ensures Join(a + b, sep) == Join(a, sep) + sep + Join(b, sep)
  {
    var all := a + b;
    if |a| == 1 {
      assert all[0] == a[0] && all[1..] == b;
    } else {
      var rest := a[1..];
      assert all[0] == a[0] && all[1..] == rest + b;
      JoinConcat(rest, b, sep);
      hide Join;
      JoinUnfolds(all, sep);
      JoinUnfolds(a, sep);
      Regrouped(a[0], sep, Join(rest, sep), Join(b, sep));
    }
  }

  lemma JoinUnfolds(parts: seq<string>, sep: string)
    requires |parts| > 1
    ensures Join(parts, sep) == parts[0] + sep + Join(parts[1..], sep)
  {
  }

  lemma Regrouped(a: string, sep: string, b: string, c: string)
    ensures a + sep + (b + sep + c) == (a + sep + b) + sep + c
  {
  }

  lemma {:induction false} SplitJoin(lines: seq<string>, sep: char)
    requires lines != [] && forall k :: 0 <= k < |lines| ==> sep !in lines[k]
    ensures Split(Join(lines, [sep]), sep) == lines
    decreases |lines|
  {
    hide Split;
    SplitNone(lines[0], sep);
    if |lines| > 1 {
      SplitConcat(lines[0], sep, Join(lines[1..], [sep]));
      SplitJoin(lines[1..], sep);
    }
  }

  /** strings.Fields: the maximal runs without white space. */
  function Fields(s: string): seq<string>
    decreases |s|
  {
    if s == [] then []
    else if IsSpace(s[0]) then Fields(s[1..])
    else [s[..WordEnd(s)]] + Fields(s[WordEnd(s)..])
  }

  function WordEnd(s: string): (n: nat)
    ensures n <= |s|
    ensures forall i :: 0 <= i < n ==> !IsSpace(s[i])
    ensures n < |s| ==> IsSpace(s[n])
  {
    if s == [] || IsSpace(s[0]) then 0 else 1 + WordEnd(s[1..])
  }

  lemma {:induction false} WordEndUnique(s: string, n: nat)
    requires n <= |s| && (forall i :: 0 <= i < n ==> !IsSpace(s[i]))
    requires n == |s| || IsSpace(s[n])
    ensures WordEnd(s) == n
  {
    if n > 0 {
      WordEndUnique(s[1..], n - 1);
    }
  }

  lemma FieldsWord(w: string, rest: string)
    requires IsWord(w) && (rest == [] || IsSpace(rest[0]))
    ensures Fields(w + rest) == [w] + Fields(rest)
  {
    var s := w + rest;
    WordEndUnique(s, |w|);
    assert s[0] == w[0];
    assert s[..|w|] == w && s[|w|..] == rest;
  }

  lemma {:induction false} FieldsSkip(gap: string, rest: string)
    requires Blank(gap)
    ensures Fields(gap + rest) == Fields(rest)
  {
    if gap == [] {
      assert gap + rest == rest;
    } else {
      assert (gap + rest)[1..] == gap[1..] + rest;
      FieldsSkip(gap[1..], rest);
    }
  }

  lemma {:induction false} FieldsTrailing(s: string, gap: string)
    requires Blank(gap)
    ensures Fields(s + gap) == Fields(s)
    decreases |s|
  {
    if s == [] {
      FieldsSkip(gap, []);
      assert gap + [] == s + gap;
    } else if IsSpace(s[0]) {
      assert (s + gap)[1..] == s[1..] + gap;
      FieldsTrailing(s[1..], gap);
    } else {
      var n := WordEnd(s);
      var w, rest := s[..n], s[n..];
      assert s + gap == w + (rest + gap);
      FieldsTrailing(rest, gap);
      FieldsWord(w, rest + gap);
    }
  }

  lemma FieldsTrimLeft(s: string)
    ensures Fields(TrimLeft(s, Spaces)) == Fields(s)
  {
    var n := |s| - |TrimLeft(s, Spaces)|;
    assert s == s[..n] + s[n..];
    FieldsSkip(s[..n], s[n..]);
  }

  lemma FieldsTrimRight(s: string)
    ensures Fields(TrimRight(s, Spaces)) == Fields(s)
  {
    var n := |TrimRight(s, Spaces)|;
    assert s == s[..n] + s[n..];
    FieldsTrailing(s[..n], s[n..]);
  }

  /** Trimming the line first does not change its fields. */
  lemma FieldsTrim(s: string)
    ensures Fields(TrimSpace(s)) == Fields(s)
  {
    FieldsTrimLeft(s);
    FieldsTrimRight(TrimLeft(s, Spaces));
  }

  /** The lines of a multi-line field that carry text, each trimmed. */
  function InkLines(lines: seq<string>): seq<string> {
    if lines == [] then []
    else (if TrimSpace(lines[0]) == "" then [] else [TrimSpace(lines[0])]) + InkLines(lines[1..])
  }

  lemma {:induction false} InkLinesSnoc(lines: seq<string>, line: string)
    ensures InkLines(lines + [line]) ==
      InkLines(lines) + (if TrimSpace(line) == "" then [] else [TrimSpace(line)])
  {
    hide TrimSpace;
    if lines == [] {
      assert [line][1..] == [] && lines + [line] == [line];
    } else {
      assert (lines + [line])[1..] == lines[1..] + [line];
      InkLinesSnoc(lines[1..], line);
    }
  }

  method SplitLines(s: string) returns (out: seq<string>)
    ensures out == InkLines(Split(s, '\n'))
  {
    hide TrimSpace;
    out := [];
    var lines := Split(s, '\n');
    for i := 0 to |lines|
      invariant out == InkLines(lines[..i])
    {
      assert lines[..i + 1] == lines[..i] + [lines[i]];
      InkLinesSnoc(lines[..i], lines[i]);
      var t := TrimSpace(lines[i]);
      if t != "" {
        out := out + [t];
      }
    }
    assert lines[..|lines|] == lines;
  }

  // ---- numbers

  function Digit(d: nat): (c: char)
    requires d < 10
    ensures IsDigit(c) && c as int - '0' as int == d
  {
    ('0' as int + d) as char
  }

  /** The decimal digits of n, as %d prints them. */
  function Dec(n: nat): (s: string)
    ensures s != []
    ensures forall i :: 0 <= i < |s| ==> IsDigit(s[i])
  {
    if n < 10 then [Digit(n)] else Dec(n / 10) + [Digit(n % 10)]
  }

  function DecInt(n: int): string {
    if n < 0 then "-" + Dec(-n) else Dec(n)
  }

  function Value(digits: string): nat
    requires forall i :: 0 <= i < |digits| ==> IsDigit(digits[i])
  {
    if digits == [] then 0
    else
      assert IsDigit(digits[|digits| - 1]);
      10 * Value(digits[..|digits| - 1]) + (digits[|digits| - 1] as int - '0' as int)
  }

  lemma {:induction false} ValueDec(n: nat)
    ensures Value(Dec(n)) == n
  {
    if n < 10 {
      assert Dec(n)[..0] == [];
      assert Value(Dec(n)[..0]) == 0;
    } else {
      ValueDec(n / 10);
      assert Dec(n)[..|Dec(n)| - 1] == Dec(n / 10);
    }
  }

  const MAX_INT: int := 0x7fff_ffff_ffff_ffff

  function Clamp(n: int): int {
    if n > MAX_INT then MAX_INT else if n < -MAX_INT - 1 then -MAX_INT - 1 else n
  }

  /** hap.atoi: strconv.Atoi on the trimmed text with its error dropped, which is
      0 for malformed text and the nearest 64-bit value when out of range. */
  function Atoi(s: string): int {
    var t := TrimSpace(s);
    var signed := t != [] && (t[0] == '+' || t[0] == '-');
    var digits := if signed then t[1..] else t;
    if digits == [] || exists i :: 0 <= i < |digits| && !IsDigit(digits[i]) then 0
    else
      var v: int := Value(digits);
      Clamp(if signed && t[0] == '-' then -v else v)
  }

  lemma AtoiDec(n: nat)
    ensures Atoi(Dec(n)) == Clamp(n)
  {
    var s := Dec(n);
    assert IsDigit(s[0]) && IsDigit(s[|s| - 1]);
    TrimSpaceKeeps(s);
    ValueDec(n);
    hide Dec, TrimSpace, Value, Clamp;
    assert s[0] != '+' && s[0] != '-';
  }

  lemma TrimBlankDec(n: nat)
    ensures TrimSpace(" " + Dec(n)) == Dec(n)
  {
    hide TrimLeft, TrimRight, Dec;
    var d := Dec(n);
    assert IsDigit(d[0]) && IsDigit(d[|d| - 1]);
    TrimLeftUnique(" " + d, 1, Spaces);
    assert (" " + d)[1..] == d;
    TrimRightUnique(d, |d|, Spaces);
    assert d[..|d|] == d;
  }

  lemma DecIsWord(n: nat)
    ensures IsWord(Dec(n))
  {
    forall i | 0 <= i < |Dec(n)| ensures !IsSpace(Dec(n)[i]) {
      assert IsDigit(Dec(n)[i]);
    }
  }

  // ---- letter case

  function LowerChar(c: char): char {
    if 'A' <= c <= 'Z' then (c as int + 32) as char else c
  }

  function ToLower(s: string): (r: string)
    ensures |r| == |s|
    ensures forall i :: 0 <= i < |s| ==> r[i] == LowerChar(s[i])
  {
    seq(|s|, i requires 0 <= i < |s| => LowerChar(s[i]))
  }
}
