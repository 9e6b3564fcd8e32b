/** The verdict the assistant recovers by searching the text of a JSON result: how
    toolValidate writes it, and why the search cannot be fooled. */
module Verdict {
  import opened Wrappers
  import opened Text

  // ---- compact JSON, as encoding/json writes it

  datatype Json = Null | Bool(b: bool) | Number(n: int) | Str(s: string) | Strs(items: seq<string>)

  datatype Field = Field(key: string, value: Json)

  function HexDigit(n: nat): char
    requires n < 16
  {
    if n < 10 then ('0' as int + n) as char else ('a' as int + n - 10) as char
  }

  /** Section 7 of RFC 8259: quotes, backslashes and control bytes are escaped, and
      so are the bytes that matter to HTML. */
  function EscapedByte(c: char): string {
    if c == '"' then "\\\""
    else if c == '\\' then "\\\\"
    else if c as int == 8 then "\\b"
    else if c as int == 12 then "\\f"
    else if c == '\n' then "\\n"
    else if c == '\r' then "\\r"
    else if c == '\t' then "\\t"
    else if c < ' ' || c == '<' || c == '>' || c == '&' then
      "\\u00" + [HexDigit(c as int / 16 % 16), HexDigit(c as int % 16)]
    else [c]
  }

  function Escaped(s: string): string {
    if s == "" then "" else EscapedByte(s[0]) + Escaped(s[1..])
  }

  function Quoted(s: string): string {
    "\"" + (Escaped(s) + "\"")
  }

  function EncodedItems(items: seq<string>): string {
    if items == [] then "]"
    else Quoted(items[0]) + ((if |items| == 1 then "" else ",") + EncodedItems(items[1..]))
  }

  function EncodedValue(v: Json): string {
    match v
    case Null => "null"
    case Bool(b) => if b then "true" else "false"
    case Number(n) => DecInt(n)
    case Str(s) => Quoted(s)
    case Strs(items) => "[" + EncodedItems(items)
  }

  function EncodedFields(fields: seq<Field>): string {
    if fields == [] then "}"
    else
      "\"" + (fields[0].key + ("\":" + (EncodedValue(fields[0].value)
      + ((if |fields| == 1 then "" else ",") + EncodedFields(fields[1..])))))
  }

  function Encoded(fields: seq<Field>): string {
    "{" + EncodedFields(fields)
  }

  // ---- searching for the pattern

  const PATTERN := "\"valid\":true"
  const FOUND := 12

  /** strings.Contains as an automaton: the state is the length of the longest end of
      the text read so far that the pattern starts with. */
  function Step(q: nat, c: char): (q': nat)
    ensures q <= FOUND ==> q' <= FOUND
  {
    if q >= FOUND then q
    else if c == PATTERN[q] then q + 1
    else if q == 7 && c == 'v' then 2
    else if c == '"' then 1
    else 0
  }

  function Run(q: nat, s: string): nat
    decreases |s|
  {
    if s == "" then q else Run(Step(q, s[0]), s[1..])
  }

  /** The first k bytes of the pattern end the text. */
  predicate Matched(s: string, k: nat) {
    k <= FOUND && k <= |s| && s[|s| - k..] == PATTERN[..k]
  }

  /** State q describes the text. */
  predicate Describes(s: string, q: nat) {
    if q == FOUND then Contains(s, PATTERN)
    else
      && q < FOUND && !Contains(s, PATTERN) && Matched(s, q)
      && forall k :: q < k <= FOUND ==> !Matched(s, k)
  }

  lemma MatchedByte(s: string, k: nat, i: nat)
    requires Matched(s, k) && i < k
    ensures s[|s| - k + i] == PATTERN[i]
  {
    assert s[|s| - k..][i] == PATTERN[..k][i];
  }

  lemma MatchedSnoc(s: string, c: char, k: nat)
    requires k < FOUND
    ensures Matched(s + [c], k + 1) <==> Matched(s, k) && c == PATTERN[k]
  {
    var t := s + [c];
    if k <= |s| {
      assert t[|t| - (k + 1)..] == s[|s| - k..] + [c];
      assert PATTERN[..k + 1] == PATTERN[..k] + [PATTERN[k]];
      if Matched(t, k + 1) {
        assert s[|s| - k..] == t[|t| - (k + 1)..][..k];
        assert t[|t| - (k + 1)..][k] == c;
      }
    }
  }

  /** The only way for a shorter start of the pattern to end the text as well. */
  lemma Borders(s: string, q: nat, k: nat)
    requires Matched(s, q) && Matched(s, k) && 0 < k < q < FOUND
    ensures q == 7 && k == 1
  {
    assert PATTERN[1] == 'v' && PATTERN[7] == ':';
    MatchedByte(s, k, 0);
    MatchedByte(s, q, q - k);
    assert PATTERN[q - k] == '"';
    assert q - k == 6;
    if k >= 2 {
      MatchedByte(s, k, 1);
      MatchedByte(s, q, 7);
    }
  }

  lemma ContainsSnoc(s: string, c: char)
    ensures Contains(s + [c], PATTERN) <==> Contains(s, PATTERN) || Matched(s + [c], FOUND)
  {
    var t := s + [c];
    assert PATTERN[..FOUND] == PATTERN;
    if Contains(t, PATTERN) {
      var i :| 0 <= i <= |t| && OccursAt(t, PATTERN, i);
      if i + FOUND <= |s| {
        assert s[i..i + FOUND] == t[i..i + FOUND];
        assert OccursAt(s, PATTERN, i);
      } else {
        assert t[|t| - FOUND..] == t[i..i + FOUND];
      }
    }
    if Contains(s, PATTERN) {
      var i :| 0 <= i <= |s| && OccursAt(s, PATTERN, i);
      assert t[i..i + FOUND] == s[i..i + FOUND];
      assert OccursAt(t, PATTERN, i);
    }
    if Matched(t, FOUND) {
      assert t[|t| - FOUND..|t| - FOUND + FOUND] == t[|t| - FOUND..];
      assert OccursAt(t, PATTERN, |t| - FOUND);
    }
  }

  lemma StepDescribes(s: string, q: nat, c: char)
    requires Describes(s, q)
    ensures Describes(s + [c], Step(q, c))
  {
    hide Contains;
    var t := s + [c];
    ContainsSnoc(s, c);
    if q < FOUND {
      forall k | 0 < k <= FOUND
        ensures Matched(t, k) <==> Matched(s, k - 1) && c == PATTERN[k - 1]
      {
        MatchedSnoc(s, c, k - 1);
      }
      forall k | 0 < k < q && Matched(s, k) ensures q == 7 && k == 1 {
        Borders(s, q, k);
      }
      NothingMatched(s);
      NothingMatched(t);
      StepBorder(s, q);
      hide Matched;
      StepTable(q, c);
    }
  }

  lemma NothingMatched(s: string)
    ensures Matched(s, 0)
  {
    assert s[|s|..] == PATTERN[..0];
  }

  /** The closing quote of the key may also open the pattern again. */
  lemma StepBorder(s: string, q: nat)
    requires Matched(s, q)
    ensures q == 7 ==> Matched(s, 1)
  {
    if q == 7 {
      MatchedByte(s, 7, 6);
      assert PATTERN[6] == '"' && PATTERN[0] == '"';
      assert s[|s| - 1..] == PATTERN[..1];
    }
  }

  /** Which bytes lead where. */
  lemma StepTable(q: nat, c: char)
    requires q < FOUND
    ensures Step(q, c) ==
      if c == PATTERN[q] then q + 1
      else if q == 7 && c == PATTERN[1] then 2
      else if c == PATTERN[0] then 1
      else 0
  {
  }

  lemma {:induction false} RunConcat(q: nat, a: string, b: string)
    ensures Run(q, a + b) == Run(Run(q, a), b)
    decreases |a|
  {
    if a == "" {
      assert a + b == b;
    } else {
      assert (a + b)[1..] == a[1..] + b;
      RunConcat(Step(q, a[0]), a[1..], b);
    }
  }

  lemma {:induction false} RunDescribes(s: string)
    ensures Describes(s, Run(0, s))
    decreases |s|
  {
    if s == "" {
      NothingMatched("");
    } else {
      var front, c := s[..|s| - 1], s[|s| - 1];
      RunDescribes(front);
      assert s == front + [c];
      RunConcat(0, front, [c]);
      assert [c][1..] == "";
      assert Run(Run(0, front), [c]) == Step(Run(0, front), c);
      StepDescribes(front, Run(0, front), c);
    }
  }

  /** The automaton finds the pattern exactly when strings.Contains does. */
  lemma RunFinds(s: string)
    ensures Contains(s, PATTERN) <==> Run(0, s) == FOUND
  {
    RunDescribes(s);
  }

  // ---- the pattern in encoded text

  /** A byte that stands for itself inside a string moves the state only within the
      opening quote and the key; an escape falls back at once. */
  lemma {:induction false} EscapedByteRun(q: nat, c: char)
    requires q <= 6
    ensures Run(q, EscapedByte(c)) <= 6
  {
    var e := EscapedByte(c);
    if |e| == 1 {
      assert e == [c] && [c][1..] == "";
      assert Run(q, e) == Step(q, c);
      assert PATTERN[6] == '"';
    } else {
      assert e[0] == '\\';
      BackslashStep(q);
      EscapeTail(e);
      assert Run(q, e) == Run(0, e[1..]);
    }
  }

  lemma BackslashStep(q: nat)
    requires q < FOUND
    ensures Step(q, '\\') == 0
  {
  }

  /** Behind the backslash come a quote, or bytes none of which is one. */
  lemma EscapeTail(e: string)
    requires |e| == 2 || (|e| == 6 && forall i :: 1 <= i < 6 ==> e[i] != '"')
    ensures Run(0, e[1..]) <= 1
  {
    if |e| == 2 {
      assert e[1..] == [e[1]] && [e[1]][1..] == "";
      assert Run(0, e[1..]) == Step(0, e[1]);
    } else {
      Quoteless(e[1..]);
    }
  }

  /** Without a quote nothing is found from the start. */
  lemma {:induction false} Quoteless(s: string)
    requires forall i :: 0 <= i < |s| ==> s[i] != '"'
    ensures Run(0, s) == 0
    decreases |s|
  {
    if s != "" {
      assert Step(0, s[0]) == 0;
      Quoteless(s[1..]);
    }
  }

  lemma {:induction false} EscapedRun(q: nat, s: string)
    requires q <= 6
    ensures Run(q, Escaped(s)) <= 6
    decreases |s|
  {
    hide EscapedByte;
    if s != "" {
      RunConcat(q, EscapedByte(s[0]), Escaped(s[1..]));
      EscapedByteRun(q, s[0]);
      EscapedRun(Run(q, EscapedByte(s[0])), s[1..]);
    }
  }

  /** A quoted string never completes the pattern; the byte behind it decides nothing
      unless it is a colon. */
  lemma QuotedRun(q: nat, s: string, next: char)
    requires (q == 0 || q == 8) && next in {',', '}', ']'}
    ensures Run(q, Quoted(s) + [next]) == 0
  {
    hide Escaped, Step;
    var text := Quoted(s) + [next];
    assert text == ['"'] + (Escaped(s) + (['"'] + [next]));
    RunConcat(q, ['"'], Escaped(s) + (['"'] + [next]));
    RunOne(q, '"');
    StepTable(q, '"');
    EscapedRun(1, s);
    RunConcat(1, Escaped(s), ['"'] + [next]);
    var p := Run(1, Escaped(s));
    RunConcat(p, ['"'], [next]);
    RunOne(p, '"');
    StepTable(p, '"');
    RunOne(Step(p, '"'), next);
    StepTable(Step(p, '"'), next);
  }

  lemma RunOne(q: nat, c: char)
    ensures Run(q, [c]) == Step(q, c)
  {
    hide Step;
    assert [c][1..] == "";
  }

  lemma {:induction false} ItemsRun(items: seq<string>, next: char)
    requires next in {',', '}'}
    ensures Run(0, EncodedItems(items) + [next]) == 0
    decreases |items|
  {
    hide Quoted;
    if items == [] {
      Quoteless("]" + [next]);
    } else if |items| == 1 {
      assert items[1..] == [];
      assert EncodedItems(items) + [next] == Quoted(items[0]) + [']'] + [next];
      QuotedRun(0, items[0], ']');
      RunConcat(0, Quoted(items[0]) + [']'], [next]);
      Quoteless([next]);
    } else {
      var rest := EncodedItems(items[1..]) + [next];
      assert EncodedItems(items) + [next] == (Quoted(items[0]) + [',']) + rest;
      QuotedRun(0, items[0], ',');
      RunConcat(0, Quoted(items[0]) + [','], rest);
      ItemsRun(items[1..], next);
    }
  }

  /** Behind a key and its colon, only the value true completes the pattern, and only
      when the key was valid; every other value and the byte behind it lead back to
      the start. */
  lemma ValueRun(q: nat, v: Json, next: char)
    requires (q == 0 || q == 8) && next in {',', '}'}
    ensures Run(q, EncodedValue(v) + [next]) == if q == 8 && v == Bool(true) then FOUND else 0
  {
    hide Step, Run, EncodedItems, Quoted;
    match v
    case Str(s) =>
      QuotedRun(q, s, next);
    case Strs(items) =>
      assert "[" + EncodedItems(items) + [next] == ['['] + (EncodedItems(items) + [next]);
      RunConcat(q, ['['], EncodedItems(items) + [next]);
      RunOne(q, '[');
      StepTable(q, '[');
      ItemsRun(items, next);
    case _ =>
      WordRun(q, v, next);
  }

  lemma WordRun(q: nat, v: Json, next: char)
    requires (q == 0 || q == 8) && next in {',', '}'} && !v.Str? && !v.Strs?
    ensures Run(q, EncodedValue(v) + [next]) == if q == 8 && v == Bool(true) then FOUND else 0
  {
    var word := EncodedValue(v);
    WordHasNoQuote(v);
    if q == 8 && v == Bool(true) {
      TrueRun(next);
    } else {
      hide EncodedValue, Run, Step;
      var c := word[0];
      assert word + [next] == [c] + (word[1..] + [next]);
      RunConcat(q, [c], word[1..] + [next]);
      RunOne(q, c);
      StepTable(q, c);
      Quoteless(word[1..] + [next]);
    }
  }

  lemma TrueRun(next: char)
    ensures Run(8, "true" + [next]) == FOUND
  {
    var s := "true" + [next];
    assert s[0] == 't' && s[1..][0] == 'r' && s[1..][1..][0] == 'u' && s[1..][1..][1..][0] == 'e';
    assert s[1..][1..][1..][1..] == [next];
    assert [next][1..] == "";
    assert Run(12, [next]) == 12;
    assert Run(11, s[1..][1..][1..]) == 12;
    assert Run(10, s[1..][1..]) == 12;
    assert Run(9, s[1..]) == 12;
  }

  /** Numbers, booleans and null have no quote, and only true starts with a t. */
  lemma WordHasNoQuote(v: Json)
    requires !v.Str? && !v.Strs?
    ensures EncodedValue(v) != ""
    ensures forall i :: 0 <= i < |EncodedValue(v)| ==> EncodedValue(v)[i] != '"'
    ensures v != Bool(true) ==> EncodedValue(v)[0] != 't'
  {
    hide Dec;
    if v.Number? {
      var digits := Dec(if v.n < 0 then -v.n else v.n);
      assert forall i :: 0 <= i < |digits| ==> IsDigit(digits[i]);
    }
  }

  // ---- keys

  /** A key that needs no escaping. */
  predicate PlainKey(key: string) {
    key != "" && forall i :: 0 <= i < |key| ==> key[i] != '"'
  }

  /** After an opening quote and part of a key, the state measures how far the key
      agrees with the word the pattern asks for. */
  lemma {:induction false} KeyState(key: string)
    requires forall i :: 0 <= i < |key| ==> key[i] != '"'
    ensures Run(1, key) == if |key| <= 5 && key == "valid"[..|key|] then 1 + |key| else 0
    decreases |key|
  {
    if key != "" {
      var front, c := key[..|key| - 1], key[|key| - 1];
      KeyState(front);
      assert key == front + [c];
      hide Run, Step;
      RunConcat(1, front, [c]);
      RunOne(Run(1, front), c);
      KeyByte(front, c);
    }
  }

  /** One more byte of the key takes the state on or back to the start. */
  lemma KeyByte(front: string, c: char)
    requires c != '"'
    ensures var q := if |front| <= 5 && front == "valid"[..|front|] then 1 + |front| else 0;
            Step(q, c) == if |front| < 5 && front + [c] == "valid"[..|front| + 1] then 2 + |front| else 0
  {
    assert |front| < 5 ==> "valid"[..|front| + 1] == "valid"[..|front|] + ["valid"[|front|]];
    assert forall i :: 0 <= i < 5 ==> PATTERN[1 + i] == "valid"[i];
    assert PATTERN[6] == '"' && PATTERN[0] == '"';
    if |front| < 5 && front + [c] == "valid"[..|front| + 1] {
      assert front == (front + [c])[..|front|] && c == (front + [c])[|front|];
    }
  }

  lemma KeyRun(key: string)
    requires PlainKey(key)
    ensures Run(0, "\"" + (key + "\":")) == if key == "valid" then 8 else 0
  {
    hide Step, Run;
    assert "\"" + (key + "\":") == ['"'] + (key + (['"'] + [':']));
    RunConcat(0, ['"'], key + (['"'] + [':']));
    RunOne(0, '"');
    StepTable(0, '"');
    RunConcat(1, key, ['"'] + [':']);
    KeyState(key);
    assert "valid"[..5] == "valid";
    var p := Run(1, key);
    assert p == 6 <==> key == "valid";
    RunConcat(p, ['"'], [':']);
    RunOne(p, '"');
    StepTable(p, '"');
    RunOne(Step(p, '"'), ':');
    StepTable(Step(p, '"'), ':');
    assert PATTERN[6] == '"' && PATTERN[7] == ':' && PATTERN[1] == 'v';
    assert forall i :: 1 <= i < 6 ==> PATTERN[i] != '"';
  }

  // ---- whole objects

  predicate SaysValid(fields: seq<Field>) {
    exists k :: 0 <= k < |fields| && fields[k] == Field("valid", Bool(true))
  }

  lemma {:induction false} FoundStays(s: string)
    ensures Run(FOUND, s) == FOUND
    decreases |s|
  {
    if s != "" {
      FoundStays(s[1..]);
    }
  }

  lemma {:induction false} FieldsRun(fields: seq<Field>)
    requires forall k :: 0 <= k < |fields| ==> PlainKey(fields[k].key)
    ensures Run(0, EncodedFields(fields)) == if SaysValid(fields) then FOUND else 0
    decreases |fields|
  {
    hide EncodedValue, Step, PlainKey;
    if fields == [] {
      Quoteless("}");
    } else {
      var f, tail := fields[0], fields[1..];
      var next := if |fields| == 1 then '}' else ',';
      var rest := if |fields| == 1 then "" else EncodedFields(tail);
      FieldText(fields);
      assert PlainKey(f.key);
      KeyRun(f.key);
      var q := if f.key == "valid" then 8 else 0;
      RunConcat(0, "\"" + (f.key + "\":"), EncodedValue(f.value) + [next] + rest);
      RunConcat(q, EncodedValue(f.value) + [next], rest);
      ValueRun(q, f.value, next);
      FoundStays(rest);
      SaysValidCons(fields);
      if |fields| > 1 {
        FieldsRun(tail);
      }
    }
  }

  lemma SaysValidCons(fields: seq<Field>)
    requires fields != []
    ensures SaysValid(fields) <==> fields[0] == Field("valid", Bool(true)) || SaysValid(fields[1..])
  {
    if SaysValid(fields[1..]) {
      var k :| 0 <= k < |fields[1..]| && fields[1..][k] == Field("valid", Bool(true));
      assert fields[k + 1] == Field("valid", Bool(true));
    }
    if SaysValid(fields) {
      var k :| 0 <= k < |fields| && fields[k] == Field("valid", Bool(true));
      assert k > 0 ==> fields[1..][k - 1] == fields[k];
    }
  }

  lemma FieldText(fields: seq<Field>)
    requires fields != []
    ensures var f := fields[0];
            EncodedFields(fields) == "\"" + (f.key + "\":")
              + (EncodedValue(f.value) + [if |fields| == 1 then '}' else ',']
                 + (if |fields| == 1 then "" else EncodedFields(fields[1..])))
  {
    hide EncodedValue;
    var f := fields[0];
    if |fields| == 1 {
      assert fields[1..] == [];
      hide EncodedFields;
      LastFieldText(fields);
    } else {
      Regroup("\"", f.key, "\":", EncodedValue(f.value), ",", EncodedFields(fields[1..]));
    }
  }

  lemma LastFieldText(fields: seq<Field>)
    requires |fields| == 1
    ensures EncodedFields(fields)
         == "\"" + (fields[0].key + "\":") + (EncodedValue(fields[0].value) + ['}'] + "")
  {
    hide EncodedValue;
    var f := fields[0];
    var v := EncodedValue(f.value);
    assert EncodedFields(fields[1..]) == "}";
    Regroup("\"", f.key, "\":", v, "", "}");
    assert v + "" + "}" == v + ['}'] + "";
  }

  lemma Regroup(a: string, b: string, c: string, d: string, e: string, f: string)
    ensures a + (b + (c + (d + (e + f)))) == a + (b + c) + (d + e + f)
  {
  }

  /** For every object with plain keys, its compact JSON text contains the pattern if
      and only if it has a field valid whose value is true, whatever text its strings
      hold. */
  lemma SearchIsExact(fields: seq<Field>)
    requires forall k :: 0 <= k < |fields| ==> PlainKey(fields[k].key)
    ensures Contains(Encoded(fields), PATTERN) <==> SaysValid(fields)
  {
    hide Step, PlainKey, Contains, EncodedFields;
    RunFinds(Encoded(fields));
    RunConcat(0, ['{'], EncodedFields(fields));
    RunOne(0, '{');
    StepTable(0, '{');
    FieldsRun(fields);
  }

  // ---- the validation tool

  /** What PreviewConfig returns: the text, the renderer's warnings, the checker's
      output, and the error when there is one. A nil list of warnings is null. */
  datatype Preview = Preview(config: string, warnings: Option<seq<string>>, output: string, error: Option<string>)

  function CountNewlines(s: string): nat {
    if s == "" then 0 else (if s[0] == '\n' then 1 else 0) + CountNewlines(s[1..])
  }

  /** The result map in the order encoding/json writes its keys. */
  function ResultFields(p: Preview): seq<Field> {
    (if p.error.Some? then [Field("error", Str(p.error.value))] else [])
    + [Field("haproxy_diagnostics", Str(TrimSpace(p.output))),
       Field("line_count", Number(CountNewlines(p.config))),
       Field("valid", Bool(p.error == None)),
       Field("warnings", if p.warnings.Some? then Strs(p.warnings.value) else Null)]
  }

  function ToolValidate(p: Preview): string {
    Encoded(ResultFields(p))
  }

  /** For every preview, whatever its texts contain, the search reads the verdict. */
  lemma VerdictIsExact(p: Preview)
    ensures Contains(ToolValidate(p), PATTERN) <==> p.error == None
  {
    var fields := ResultFields(p);
    KeysPlain(p);
    hide TrimSpace, CountNewlines, Contains, Encoded, PlainKey;
    SearchIsExact(fields);
    var at := |fields| - 2;
    assert fields[at] == Field("valid", Bool(p.error == None));
    assert forall k :: 0 <= k < |fields| && k != at ==> !fields[k].value.Bool?;
  }

  lemma KeysPlain(p: Preview)
    ensures forall k :: 0 <= k < |ResultFields(p)| ==> PlainKey(ResultFields(p)[k].key)
  {
    hide TrimSpace, CountNewlines;
    assert PlainKey("error") && PlainKey("haproxy_diagnostics") && PlainKey("line_count");
    assert PlainKey("valid") && PlainKey("warnings");
    hide PlainKey;
  }

  // ---- reading the text back

  function HexValue(c: char): Option<nat> {
    if '0' <= c <= '9' then Some(c as int - '0' as int)
    else if 'a' <= c <= 'f' then Some(c as int - 'a' as int + 10)
    else if 'A' <= c <= 'F' then Some(c as int - 'A' as int + 10)
    else None
  }

  /** The byte that two hexadecimal digits stand for. */
  function HexByte(a: char, b: char): Option<char> {
    if HexValue(a) == None || HexValue(b) == None then None
    else
      var n := 16 * HexValue(a).value + HexValue(b).value;
      if n < 256 then Some(n as char) else None
  }

  /** The byte a two-byte escape stands for. */
  function ShortEscape(c: char): Option<char> {
    if c == '"' || c == '\\' || c == '/' then Some(c)
    else if c == 'b' then Some(8 as char)
    else if c == 'f' then Some(12 as char)
    else if c == 'n' then Some('\n')
    else if c == 'r' then Some('\r')
    else if c == 't' then Some('\t')
    else None
  }

  /** Section 7 of RFC 8259: one byte of a string, and how many it is written with. */
  function ReadByte(s: string): (r: Option<(char, nat)>)
    ensures r.Some? ==> 1 <= r.value.1 <= |s|
  {
    if s == "" || s[0] == '"' then None
    else if s[0] != '\\' then Some((s[0], 1))
    else if |s| >= 2 && ShortEscape(s[1]).Some? then Some((ShortEscape(s[1]).value, 2))
    else if |s| >= 6 && s[1] == 'u' && s[2] == '0' && s[3] == '0' && HexByte(s[4], s[5]).Some? then
      Some((HexByte(s[4], s[5]).value, 6))
    else None
  }

  /** A string up to its closing quote, and the text behind that. */
  function ReadString(s: string): (r: Option<(string, string)>)
    ensures r.Some? ==> |r.value.1| < |s|
    decreases |s|
  {
    if s != "" && s[0] == '"' then Some(("", s[1..]))
    else
      match ReadByte(s)
      case None => None
      case Some((c, n)) =>
        match ReadString(s[n..])
        case None => None
        case Some((front, rest)) => Some(([c] + front, rest))
  }

  function ReadItems(s: string): (r: Option<(seq<string>, string)>)
    ensures r.Some? ==> |r.value.1| < |s|
    decreases |s|
  {
    if s == "" then None
    else if s[0] == ']' then Some(([], s[1..]))
    else if s[0] != '"' then None
    else
      match ReadString(s[1..])
      case None => None
      case Some((item, rest)) =>
        var more := if rest != "" && rest[0] == ',' then rest[1..] else rest;
        match ReadItems(more)
        case None => None
        case Some((items, end)) => Some(([item] + items, end))
  }

  function DigitsEnd(s: string): (n: nat)
    ensures n <= |s| && forall i :: 0 <= i < n ==> IsDigit(s[i])
    ensures n < |s| ==> !IsDigit(s[n])
  {
    if s == "" || !IsDigit(s[0]) then 0 else 1 + DigitsEnd(s[1..])
  }

  function ReadNumber(s: string): (r: Option<(Json, string)>)
    ensures r.Some? ==> |r.value.1| < |s|
  {
    var digits := if s != "" && s[0] == '-' then s[1..] else s;
    var n := DigitsEnd(digits);
    if n == 0 then None
    else
      var v: int := Value(digits[..n]);
      Some((Number(if s[0] == '-' then -v else v), digits[n..]))
  }

  function ReadValue(s: string): (r: Option<(Json, string)>)
    ensures r.Some? ==> |r.value.1| < |s|
  {
    if s == "" then None
    else if s[0] == '"' then
      match ReadString(s[1..])
      case None => None
      case Some((text, rest)) => Some((Str(text), rest))
    else if s[0] == '[' then
      match ReadItems(s[1..])
      case None => None
      case Some((items, rest)) => Some((Strs(items), rest))
    else if HasPrefix(s, "null") then Some((Null, s[4..]))
    else if HasPrefix(s, "true") then Some((Bool(true), s[4..]))
    else if HasPrefix(s, "false") then Some((Bool(false), s[5..]))
    else ReadNumber(s)
  }

  /** A key without escapes, its colon and its value. */
  function ReadField(s: string): (r: Option<(Field, string)>)
    ensures r.Some? ==> |r.value.1| < |s|
  {
    if s == "" || s[0] != '"' then None
    else
      var i := IndexByte(s[1..], '"');
      if i < 0 || i + 2 >= |s| || s[i + 2] != ':' then None
      else
        match ReadValue(s[i + 3..])
        case None => None
        case Some((value, rest)) => Some((Field(s[1..i + 1], value), rest))
  }

  function ReadFields(s: string): (r: Option<(seq<Field>, string)>)
    decreases |s|
  {
    if s != "" && s[0] == '}' then Some(([], s[1..]))
    else
      match ReadField(s)
      case None => None
      case Some((field, rest)) =>
        var more := if rest != "" && rest[0] == ',' then rest[1..] else rest;
        match ReadFields(more)
        case None => None
        case Some((fields, end)) => Some(([field] + fields, end))
  }

  /** A reader of flat objects: section 4 of RFC 8259. */
  function ReadObject(text: string): Option<seq<Field>> {
    if text == "" || text[0] != '{' then None
    else
      match ReadFields(text[1..])
      case None => None
      case Some((fields, rest)) => if rest == "" then Some(fields) else None
  }

  lemma ByteReadsBack(c: char, rest: string)
    ensures ReadByte(EscapedByte(c) + rest) == Some((c, |EscapedByte(c)|))
  {
    var e := EscapedByte(c);
    var s := e + rest;
    assert forall i :: 0 <= i < |e| ==> s[i] == e[i];
    if |e| == 6 {
      HexReadsBack(c);
    }
  }

  lemma HexReadsBack(c: char)
    requires c as int < 256
    ensures HexByte(HexDigit(c as int / 16 % 16), HexDigit(c as int % 16)) == Some(c)
  {
    var a, b := c as int / 16 % 16, c as int % 16;
    assert HexValue(HexDigit(a)) == Some(a) && HexValue(HexDigit(b)) == Some(b);
    assert 16 * a + b == c as int;
  }

  /** Unescaping what was escaped gives the text back, and stops at its closing quote. */
  lemma {:induction false} StringReadsBack(text: string, rest: string)
    ensures ReadString(Escaped(text) + "\"" + rest) == Some((text, rest))
    decreases |text|
  {
    var s := Escaped(text) + "\"" + rest;
    if text == "" {
      assert s == "\"" + rest && s[1..] == rest;
    } else {
      var e, tail := EscapedByte(text[0]), Escaped(text[1..]) + "\"" + rest;
      hide EscapedByte, ReadByte;
      assert Escaped(text) == e + Escaped(text[1..]);
      hide Escaped;
      assert s == e + tail;
      ByteReadsBack(text[0], tail);
      StringReadsBack(text[1..], rest);
      NotAQuote(text[0]);
      hide ReadString;
      ByteThenMore(e, tail, text[0], text[1..], rest);
      assert [text[0]] + text[1..] == text;
    }
  }

  lemma ByteThenMore(e: string, tail: string, c: char, text: string, rest: string)
    requires e != "" && e[0] != '"' && ReadByte(e + tail) == Some((c, |e|))
    requires ReadString(tail) == Some((text, rest))
    ensures ReadString(e + tail) == Some(([c] + text, rest))
  {
    hide ReadByte;
    assert (e + tail)[|e|..] == tail && (e + tail)[0] == e[0];
  }

  lemma NotAQuote(c: char)
    ensures EscapedByte(c) != "" && EscapedByte(c)[0] != '"'
  {
  }

  lemma {:induction false} ItemsReadBack(items: seq<string>, rest: string)
    ensures ReadItems(EncodedItems(items) + rest) == Some((items, rest))
    decreases |items|
  {
    ItemsStart(items, rest);
    if items == [] {
      assert (EncodedItems(items) + rest)[1..] == rest;
    } else {
      hide Escaped, ReadString, ReadItems, EncodedItems;
      ItemsReadBack(items[1..], rest);
      ItemsReadOn(items, rest);
    }
  }

  lemma ItemsReadOn(items: seq<string>, rest: string)
    requires items != [] && ReadItems(EncodedItems(items[1..]) + rest) == Some((items[1..], rest))
    ensures ReadItems(EncodedItems(items) + rest) == Some((items, rest))
  {
    hide Escaped, ReadString, ReadItems, EncodedItems;
    var sep, tail := if |items| == 1 then "" else ",", EncodedItems(items[1..]) + rest;
    ItemText(items, rest);
    ItemsStart(items[1..], rest);
    OneItemReadsBack(items[0], sep, tail, items[1..], rest);
    assert [items[0]] + items[1..] == items;
  }

  lemma OneItemReadsBack(item: string, sep: string, tail: string, items: seq<string>, rest: string)
    requires tail != "" && tail[0] != ',' && (sep == "" || sep == ",")
    requires ReadItems(tail) == Some((items, rest))
    ensures ReadItems("\"" + (Escaped(item) + "\"" + (sep + tail))) == Some(([item] + items, rest))
  {
    hide Escaped, ReadString, ReadItems;
    StringReadsBack(item, sep + tail);
    var s := "\"" + (Escaped(item) + "\"" + (sep + tail));
    assert s[1..] == Escaped(item) + "\"" + (sep + tail);
    ItemThenMore(s, item, sep, tail, items, rest);
  }

  lemma ItemThenMore(s: string, item: string, sep: string, tail: string, items: seq<string>, rest: string)
    requires s != "" && s[0] == '"' && ReadString(s[1..]) == Some((item, sep + tail))
    requires tail != "" && tail[0] != ',' && (sep == "" || sep == ",")
    requires ReadItems(tail) == Some((items, rest))
    ensures ReadItems(s) == Some(([item] + items, rest))
  {
    hide ReadString;
    AfterField(sep, tail);
  }

  lemma ItemText(items: seq<string>, rest: string)
    requires items != []
    ensures EncodedItems(items) + rest ==
      "\"" + (Escaped(items[0]) + "\"" + ((if |items| == 1 then "" else ",") + (EncodedItems(items[1..]) + rest)))
  {
    hide Escaped;
    var sep, more := if |items| == 1 then "" else ",", EncodedItems(items[1..]);
    assert EncodedItems(items) == "\"" + (Escaped(items[0]) + "\"") + (sep + more);
    hide EncodedItems;
    QuotedText("\"", Escaped(items[0]), "\"", sep, more, rest);
  }

  lemma QuotedText(open: string, text: string, close: string, sep: string, more: string, rest: string)
    ensures open + (text + close) + (sep + more) + rest == open + (text + close + (sep + (more + rest)))
  {
  }

  lemma ItemsStart(items: seq<string>, rest: string)
    ensures |EncodedItems(items) + rest| > 0
    ensures (EncodedItems(items) + rest)[0] == if items == [] then ']' else '"'
  {
    hide Escaped;
  }

  lemma {:induction false} DigitsEndUnique(s: string, n: nat)
    requires n <= |s| && forall i :: 0 <= i < n ==> IsDigit(s[i])
    requires n < |s| ==> !IsDigit(s[n])
    ensures DigitsEnd(s) == n
  {
    if n > 0 {
      DigitsEndUnique(s[1..], n - 1);
    }
  }

  lemma NumberReadsBack(n: int, rest: string)
    requires rest != "" && !IsDigit(rest[0])
    ensures ReadNumber(DecInt(n) + rest) == Some((Number(n), rest))
  {
    var digits := Dec(if n < 0 then -n else n);
    hide Dec, Value;
    var s := digits + rest;
    DigitsEndUnique(s, |digits|);
    assert s[..|digits|] == digits && s[|digits|..] == rest;
    ValueDec(if n < 0 then -n else n);
    assert IsDigit(digits[0]);
    if n < 0 {
      assert DecInt(n) + rest == "-" + s && ("-" + s)[1..] == s;
    }
  }

  /** Every value reads back from its text. */
  lemma ValueReadsBack(v: Json, rest: string)
    requires rest != "" && !IsDigit(rest[0])
    ensures ReadValue(EncodedValue(v) + rest) == Some((v, rest))
  {
    if v.Str? || v.Strs? {
      TextReadsBack(v, rest);
    } else {
      WordReadsBack(v, rest);
    }
  }

  lemma TextReadsBack(v: Json, rest: string)
    requires v.Str? || v.Strs?
    ensures ReadValue(EncodedValue(v) + rest) == Some((v, rest))
  {
    hide Escaped, ReadString, EncodedItems, ReadItems, ReadNumber, HasPrefix;
    var s := EncodedValue(v) + rest;
    if v.Str? {
      StringReadsBack(v.s, rest);
      assert s[0] == '"' && s[1..] == Escaped(v.s) + "\"" + rest;
    } else {
      ItemsReadBack(v.items, rest);
      assert s[0] == '[' && s[1..] == EncodedItems(v.items) + rest;
    }
  }

  lemma WordReadsBack(v: Json, rest: string)
    requires !v.Str? && !v.Strs? && rest != "" && !IsDigit(rest[0])
    ensures ReadValue(EncodedValue(v) + rest) == Some((v, rest))
  {
    hide ReadString, ReadItems, DecInt, ReadNumber;
    var s := EncodedValue(v) + rest;
    match v {
      case Null =>
        assert s[..4] == "null" && s[4..] == rest && s[0] == 'n';
      case Bool(b) =>
        FirstDiffers(s, "null");
        if b {
          assert s[..4] == "true" && s[4..] == rest && s[0] == 't';
        } else {
          assert s[..5] == "false" && s[5..] == rest && s[0] == 'f';
          FirstDiffers(s, "true");
        }
      case Number(n) =>
        NumberReadsBack(n, rest);
        NumberStart(n, rest);
        FirstDiffers(s, "null");
        FirstDiffers(s, "true");
        FirstDiffers(s, "false");
    }
  }

  lemma FirstDiffers(s: string, word: string)
    requires s != "" && word != "" && s[0] != word[0]
    ensures !HasPrefix(s, word)
  {
  }

  lemma NumberStart(n: int, rest: string)
    ensures var s := DecInt(n) + rest; s != "" && (s[0] == '-' || IsDigit(s[0]))
  {
  }

  lemma {:induction false} FieldsReadBack(fields: seq<Field>)
    requires forall k :: 0 <= k < |fields| ==> PlainKey(fields[k].key)
    ensures ReadFields(EncodedFields(fields)) == Some((fields, ""))
    decreases |fields|
  {
    FieldsStart(fields);
    if fields == [] {
      assert EncodedFields(fields)[1..] == "";
    } else {
      FieldsReadBack(fields[1..]);
      assert PlainKey(fields[0].key);
      hide PlainKey, ReadField, EncodedFields, ReadFields;
      FieldsReadOn(fields);
    }
  }

  lemma FieldsReadOn(fields: seq<Field>)
    requires fields != [] && PlainKey(fields[0].key)
    requires ReadFields(EncodedFields(fields[1..])) == Some((fields[1..], ""))
    ensures ReadFields(EncodedFields(fields)) == Some((fields, ""))
  {
    hide PlainKey, ReadField, EncodedFields, ReadFields;
    var sep, tail := if |fields| == 1 then "" else ",", EncodedFields(fields[1..]);
    FieldsStart(fields);
    FieldsStart(fields[1..]);
    FieldReadsBack(fields, sep + tail);
    FieldThenMore(EncodedFields(fields), fields[0], sep, tail, fields[1..]);
    assert [fields[0]] + fields[1..] == fields;
  }

  lemma FieldThenMore(s: string, f: Field, sep: string, tail: string, fields: seq<Field>)
    requires s != "" && s[0] != '}' && ReadField(s) == Some((f, sep + tail))
    requires tail != "" && tail[0] != ',' && (sep == "" || sep == ",")
    requires ReadFields(tail) == Some((fields, ""))
    ensures ReadFields(s) == Some(([f] + fields, ""))
  {
    hide ReadField;
    AfterField(sep, tail);
  }

  /** Behind a value the reader skips the comma and nothing else. */
  lemma AfterField(sep: string, tail: string)
    requires tail != "" && tail[0] != ',' && (sep == "" || sep == ",")
    ensures var rest := sep + tail; (if rest[0] == ',' then rest[1..] else rest) == tail
  {
  }

  lemma FieldsStart(fields: seq<Field>)
    ensures EncodedFields(fields) != ""
    ensures EncodedFields(fields)[0] == if fields == [] then '}' else '"'
  {
    hide EncodedValue;
  }

  lemma FieldReadsBack(fields: seq<Field>, rest: string)
    requires fields != [] && PlainKey(fields[0].key)
    requires rest == (if |fields| == 1 then "" else ",") + EncodedFields(fields[1..])
    ensures ReadField(EncodedFields(fields)) == Some((fields[0], rest))
  {
    FieldOpens(fields, rest);
    FieldsStart(fields[1..]);
    hide EncodedFields;
    OneFieldReadsBack(fields[0], rest);
  }

  lemma FieldOpens(fields: seq<Field>, rest: string)
    requires fields != [] && rest == (if |fields| == 1 then "" else ",") + EncodedFields(fields[1..])
    ensures EncodedFields(fields) == "\"" + (fields[0].key + ("\":" + (EncodedValue(fields[0].value) + rest)))
  {
    hide EncodedValue;
  }

  lemma OneFieldReadsBack(f: Field, rest: string)
    requires PlainKey(f.key) && rest != "" && !IsDigit(rest[0])
    ensures ReadField("\"" + (f.key + ("\":" + (EncodedValue(f.value) + rest)))) == Some((f, rest))
  {
    var value := EncodedValue(f.value) + rest;
    ValueReadsBack(f.value, rest);
    hide EncodedValue, ReadValue;
    KeyText(f.key, value);
    hide PlainKey;
  }

  lemma KeyText(key: string, value: string)
    requires PlainKey(key) && value != ""
    ensures var s := "\"" + (key + ("\":" + value));
            && |s| > |key| + 3 && s[0] == '"' && s[|key| + 2] == ':'
            && IndexByte(s[1..], '"') == |key|
            && s[1..|key| + 1] == key && s[|key| + 3..] == value
  {
    var s := "\"" + (key + ("\":" + value));
    var t := s[1..];
    assert t == key + ("\":" + value);
    assert t[..|key|] == key && t[|key|] == '"' && s[|key| + 2] == ':';
    IndexByteUnique(t, '"', |key|);
    assert s[1..|key| + 1] == t[..|key|];
    assert s[|key| + 3..] == value;
  }

  /** Every object with plain keys reads back from its text, whatever bytes its strings
      hold. */
  lemma ObjectReadsBack(fields: seq<Field>)
    requires forall k :: 0 <= k < |fields| ==> PlainKey(fields[k].key)
    ensures ReadObject(Encoded(fields)) == Some(fields)
  {
    hide PlainKey, EncodedFields, ReadFields;
    FieldsReadBack(fields);
    assert Encoded(fields)[1..] == EncodedFields(fields);
  }

  function Get(fields: seq<Field>, key: string): Option<Json> {
    if fields == [] then None
    else if fields[0].key == key then Some(fields[0].value)
    else Get(fields[1..], key)
  }

  lemma {:induction false} CountsPieces(s: string)
    ensures CountNewlines(s) == |Split(s, '\n')| - 1
  {
    if s != "" {
      CountsPieces(s[1..]);
    }
  }

  /** The tool's text is an object that says what the preview came to: the error if
      there was one, the checker's trimmed output, how many line ends the
      configuration has, the verdict, and the warnings. */
  lemma ResultSays(p: Preview)
    ensures var r := ReadObject(ToolValidate(p));
            && r.Some?
            && |r.value| == (if p.error.Some? then 5 else 4)
            && Get(r.value, "error") == (if p.error.Some? then Some(Str(p.error.value)) else None)
            && Get(r.value, "haproxy_diagnostics") == Some(Str(TrimSpace(p.output)))
            && Get(r.value, "line_count") == Some(Number(|Split(p.config, '\n')| - 1))
            && Get(r.value, "valid") == Some(Bool(p.error == None))
            && Get(r.value, "warnings") == Some(if p.warnings.Some? then Strs(p.warnings.value) else Null)
  {
    KeysPlain(p);
    CountsPieces(p.config);
    hide TrimSpace, CountNewlines, Split, Encoded, PlainKey, ReadObject;
    ObjectReadsBack(ResultFields(p));
    var tail := [Field("haproxy_diagnostics", Str(TrimSpace(p.output))),
                 Field("line_count", Number(CountNewlines(p.config))),
                 Field("valid", Bool(p.error == None)),
                 Field("warnings", if p.warnings.Some? then Strs(p.warnings.value) else Null)];
    FourFields(tail);
    if p.error.Some? {
      assert ResultFields(p)[1..] == tail;
      ErrorFirst(ResultFields(p));
    } else {
      assert ResultFields(p) == tail;
    }
  }

  lemma ErrorFirst(fields: seq<Field>)
    requires fields != [] && fields[0].key == "error"
    ensures Get(fields, "error") == Some(fields[0].value)
    ensures Get(fields, "haproxy_diagnostics") == Get(fields[1..], "haproxy_diagnostics")
    ensures Get(fields, "line_count") == Get(fields[1..], "line_count")
    ensures Get(fields, "valid") == Get(fields[1..], "valid")
    ensures Get(fields, "warnings") == Get(fields[1..], "warnings")
  {
    assert fields[0].key[0] == 'e' && "haproxy_diagnostics"[0] == 'h' && "line_count"[0] == 'l';
    assert "valid"[0] == 'v' && "warnings"[0] == 'w';
  }

  lemma FourFields(fields: seq<Field>)
    requires |fields| == 4 && fields[0].key == "haproxy_diagnostics" && fields[1].key == "line_count"
    requires fields[2].key == "valid" && fields[3].key == "warnings"
    ensures Get(fields, "haproxy_diagnostics") == Some(fields[0].value)
    ensures Get(fields, "line_count") == Some(fields[1].value)
    ensures Get(fields, "valid") == Some(fields[2].value)
    ensures Get(fields, "warnings") == Some(fields[3].value)
    ensures Get(fields, "error") == None
  {
    hide Get;
    assert "haproxy_diagnostics"[0] == 'h' && "line_count"[0] == 'l' && "error"[0] == 'e';
    assert "valid"[0] == 'v' && "warnings"[0] == 'w';
    GetAt(fields, "haproxy_diagnostics");
    GetAt(fields, "line_count");
    GetAt(fields, "valid");
    GetAt(fields, "warnings");
    GetAt(fields, "error");
  }

  lemma GetAt(fields: seq<Field>, key: string)
    requires |fields| == 4
    ensures Get(fields, key) ==
      if fields[0].key == key then Some(fields[0].value)
      else if fields[1].key == key then Some(fields[1].value)
      else if fields[2].key == key then Some(fields[2].value)
      else if fields[3].key == key then Some(fields[3].value)
      else None
  {
    assert fields[1..][1..] == fields[2..] && fields[2..][1..] == fields[3..] && fields[3..][1..] == [];
    assert Get(fields[3..], key) == if fields[3].key == key then Some(fields[3].value) else None;
    assert Get(fields[2..], key) == if fields[2].key == key then Some(fields[2].value) else Get(fields[3..], key);
    assert Get(fields[1..], key) == if fields[1].key == key then Some(fields[1].value) else Get(fields[2..], key);
  }
}
