/** One turn of the assistant: a bounded loop in which a model, taken as any function
    of the transcript, calls tools that read or change the stored state. */
module Agent {
  import opened Wrappers
  import opened Text
  import opened Verdict

  datatype Role = System | User | Assistant | ToolResult

  datatype Call = Call(id: string, name: string, arguments: string)

  datatype Message = Message(role: Role, content: string, calls: seq<Call>, callId: string, name: string)

  datatype Completion = Completion(message: Message, tokens: int)

  datatype Kind = Context | Change | Validate

  datatype Trace = Trace(kind: Kind, tool: string, summary: string, detail: string, ok: bool)

  type Model = seq<Message> -> Result<Completion, string>

  /** The registered tools: whether each changes state, how a name is quoted in an
      error, the error of an argument text that is not JSON, and what a handler makes
      of the state, whether or not it succeeds. */
  datatype Tools<!W> = Tools(
    mutating: map<string, bool>,
    quote: string -> string,
    malformed: string -> Option<string>,
    handler: (string, string, W) -> (W, Result<string, string>),
    preview: W -> Preview)

  const VALIDATE := "validate_config"
  const DEFAULT_STEPS := 16
  const CLIP := 6000
  const LINE_CLIP := 200
  const ELLIPSIS := "\U{E2}\U{80}\U{A6}"
  const DASH := "\U{E2}\U{80}\U{94}"

  predicate Registered<W>(tools: Tools<W>) {
    VALIDATE in tools.mutating && !tools.mutating[VALIDATE]
  }

  predicate Mutates<W>(tools: Tools<W>, name: string) {
    name in tools.mutating && tools.mutating[name]
  }

  /** A tool call that ran: the state around it and its outcome. */
  datatype Event<W> = Event(call: Call, before: W, after: W, out: Result<string, string>)

  /** The arguments are given and are not JSON. */
  predicate Malformed<W>(tools: Tools<W>, call: Call) {
    var text := TrimSpace(call.arguments);
    text != "" && text != "null" && tools.malformed(text).Some?
  }

  /** Registry.Call. An unknown tool, malformed arguments and a validation leave the
      state alone. */
  function Invoke<W>(tools: Tools<W>, call: Call, w: W): (e: Event<W>)
    ensures e.call == call && e.before == w
    ensures call.name !in tools.mutating || Malformed(tools, call) ==> e.out.Err? && e.after == w
    ensures call.name == VALIDATE ==> e.after == w
    ensures e.out.Ok? && call.name == VALIDATE ==> e.out.value == ToolValidate(tools.preview(w))
  {
    var text := TrimSpace(call.arguments);
    if call.name !in tools.mutating then
      Event(call, w, w, Err("no such tool " + tools.quote(call.name)))
    else if text != "" && text != "null" && tools.malformed(text).Some? then
      Event(call, w, w, Err("could not parse arguments as JSON: " + tools.malformed(text).value))
    else if call.name == VALIDATE then
      Event(call, w, w, Ok(ToolValidate(tools.preview(w))))
    else
      var (after, out) := tools.handler(call.name, text, w);
      Event(call, w, after, out)
  }

  // ---- what one turn amounts to

  /** A completion with the tool calls it led to. */
  datatype Round<W> = Round(completion: Completion, events: seq<Event<W>>)

  function InvokeAll<W>(tools: Tools<W>, calls: seq<Call>, w: W): (events: seq<Event<W>>)
    ensures |events| == |calls|
    ensures forall i :: 0 <= i < |calls| ==> events[i].call == calls[i]
  {
    if calls == [] then []
    else
      var e := Invoke(tools, calls[0], w);
      [e] + InvokeAll(tools, calls[1..], e.after)
  }

  function StateAfter<W>(events: seq<Event<W>>, w: W): W {
    if events == [] then w else events[|events| - 1].after
  }

  /** The conversation of one turn: until the model asks for no tool, fails, or the
      budget is spent. */
  function Converse<W>(
    tools: Tools<W>, model: Model, transcript: seq<Message>, w: W, budget: nat): Result<seq<Round<W>>, string>
    decreases budget
  {
    if budget == 0 then Ok([])
    else
      match model(transcript)
      case Err(e) => Err(e)
      case Ok(c) =>
        var events := InvokeAll(tools, c.message.calls, w);
        var round := Round(c, events);
        if c.message.calls == [] then Ok([round])
        else
          Prepended(round, Converse(tools, model, transcript + RoundMessages(round), StateAfter(events, w), budget - 1))
  }

  function Prepended<W>(round: Round<W>, rest: Result<seq<Round<W>>, string>): Result<seq<Round<W>>, string> {
    match rest
    case Err(e) => Err(e)
    case Ok(rounds) => Ok([round] + rounds)
  }

  function Events<W>(rounds: seq<Round<W>>): seq<Event<W>> {
    if rounds == [] then [] else rounds[0].events + Events(rounds[1..])
  }

  function Clip(s: string, n: nat): string {
    if |s| <= n then s else s[..n] + ELLIPSIS
  }

  function FirstLine(s: string): string {
    var t := TrimSpace(s);
    var i := IndexByte(t, '\n');
    Clip(if i >= 0 then t[..i] else t, LINE_CLIP)
  }

  function Answer<W>(e: Event<W>): Message {
    var text := if e.out.Ok? then e.out.value else "ERROR: " + e.out.error;
    Message(ToolResult, Clip(text, CLIP), [], e.call.id, e.call.name)
  }

  function Answers<W>(events: seq<Event<W>>): (ms: seq<Message>)
    ensures |ms| == |events|
    ensures forall i :: 0 <= i < |events| ==> ms[i] == Answer(events[i])
  {
    if events == [] then [] else [Answer(events[0])] + Answers(events[1..])
  }

  function RoundMessages<W>(round: Round<W>): seq<Message> {
    [round.completion.message] + Answers(round.events)
  }

  function AllMessages<W>(rounds: seq<Round<W>>): seq<Message> {
    if rounds == [] then [] else RoundMessages(rounds[0]) + AllMessages(rounds[1..])
  }

  function Tokens<W>(rounds: seq<Round<W>>): int {
    if rounds == [] then 0 else rounds[0].completion.tokens + Tokens(rounds[1..])
  }

  function KindOf<W>(tools: Tools<W>, name: string): Kind {
    if Mutates(tools, name) then Change else if name == VALIDATE then Validate else Context
  }

  /** A validation that answered. */
  predicate Judges<W>(e: Event<W>) {
    e.call.name == VALIDATE && e.out.Ok?
  }

  predicate Sound<W>(tools: Tools<W>, w: W) {
    tools.preview(w).error == None
  }

  /** The line of the visible trace for one call. */
  function TraceOf<W>(tools: Tools<W>, e: Event<W>): Trace {
    var kind := KindOf(tools, e.call.name);
    match e.out
    case Err(error) => Trace(kind, e.call.name, e.call.name + " failed", error, false)
    case Ok(out) =>
      if !Judges(e) then Trace(kind, e.call.name, FirstLine(out), "", true)
      else if Sound(tools, e.before) then Trace(kind, e.call.name, "configuration is valid", "", true)
      else Trace(kind, e.call.name, "configuration is not valid yet", "", false)
  }

  function Traces<W>(tools: Tools<W>, events: seq<Event<W>>): (ts: seq<Trace>)
    ensures |ts| == |events|
    ensures forall i :: 0 <= i < |events| ==> ts[i] == TraceOf(tools, events[i])
  {
    if events == [] then [] else [TraceOf(tools, events[0])] + Traces(tools, events[1..])
  }

  predicate Changes<W>(tools: Tools<W>, events: seq<Event<W>>) {
    exists i :: 0 <= i < |events| && Mutates(tools, events[i].call.name) && events[i].out.Ok?
  }

  /** A validation was asked for, whether or not it answered. */
  predicate AsksValidation<W>(events: seq<Event<W>>) {
    exists i :: 0 <= i < |events| && events[i].call.name == VALIDATE
  }

  /** The state the last answered validation saw. */
  function LastJudged<W>(events: seq<Event<W>>): Option<W> {
    if events == [] then None
    else
      var last := events[|events| - 1];
      if Judges(last) then Some(last.before) else LastJudged(events[..|events| - 1])
  }

  /** Changes that the model never tried to validate are validated by the panel. */
  predicate NetRuns<W>(tools: Tools<W>, events: seq<Event<W>>) {
    Changes(tools, events) && !AsksValidation(events)
  }

  /** The state the final flag speaks about. */
  function JudgedState<W>(tools: Tools<W>, events: seq<Event<W>>, w: W): Option<W> {
    if NetRuns(tools, events) then Some(StateAfter(events, w)) else LastJudged(events)
  }

  predicate ValidFlag<W>(tools: Tools<W>, events: seq<Event<W>>, w: W) {
    var judged := JudgedState(tools, events, w);
    judged.Some? ==> Sound(tools, judged.value)
  }

  function NetTrace<W>(tools: Tools<W>, w: W): Trace {
    var p := tools.preview(w);
    if p.error == None then Trace(Validate, VALIDATE, "configuration is valid", "", true)
    else Trace(Validate, VALIDATE, "configuration is not valid yet", TrimSpace(p.output), false)
  }

  function SpokenReply<W>(rounds: seq<Round<W>>): string {
    if rounds == [] || rounds[|rounds| - 1].completion.message.calls != [] then ""
    else TrimSpace(rounds[|rounds| - 1].completion.message.content)
  }

  function NetNote(reply: string, p: Preview): string {
    TrimSpace(reply + "\n\n" + NoteText(p))
  }

  function NoteText(p: Preview): string {
    "Note: " + "the resulting configuration does not validate yet " + DASH + " " + FirstLine(p.output)
    + ". Please review it before applying."
  }

  lemma NoteIs(reply: string, p: Preview)
    requires TrimSpace(reply) == reply
    ensures NetNote(reply, p) ==
      (if reply == "" then "" else reply + "\n\n")
      + ("Note: " + "the resulting configuration does not validate yet " + DASH + " " + FirstLine(p.output)
         + ". Please review it before applying.")
  {
    NoteEnds(p);
    hide TrimSpace, FirstLine;
    TrimBehindText(reply, NoteText(p));
    assert "" + NoteText(p) == NoteText(p);
    assert reply + "\n\n" + NoteText(p) == (reply + "\n\n") + NoteText(p);
  }

  lemma NoteEnds(p: Preview)
    ensures NoteText(p) != "" && !IsSpace(NoteText(p)[0]) && !IsSpace(NoteText(p)[|NoteText(p)| - 1])
  {
    hide FirstLine, DASH;
    var head, tail := "Note: ", ". Please review it before applying.";
    var phrase := "the resulting configuration does not validate yet ";
    var middle := phrase + DASH + " " + FirstLine(p.output);
    assert head[0] == 'N' && tail[|tail| - 1] == '.';
    Middle(head, phrase, DASH, " ", FirstLine(p.output), tail);
    EndsOf(head, middle, tail);
  }

  lemma Middle(a: string, b: string, c: string, d: string, e: string, f: string)
    ensures a + b + c + d + e + f == a + (b + c + d + e) + f
  {
  }

  lemma EndsOf(head: string, middle: string, tail: string)
    requires head != "" && tail != ""
    ensures var s := head + middle + tail; s[0] == head[0] && s[|s| - 1] == tail[|tail| - 1]
  {
  }

  /** FirstLine is the first line of the trimmed text, or its first 200 bytes and an ellipsis. */
  lemma FirstLineSays(s: string)
    ensures var t, line := TrimSpace(s), FirstLine(s);
            && (|line| <= 200 ==> line <= t && '\n' !in line && (line == t || t[|line|] == '\n'))
            && (|line| > 200 ==>
                  && |line| == 203 && 200 < |t| && line[..200] == t[..200] && '\n' !in t[..201]
                  && line[200..] == "\U{E2}\U{80}\U{A6}")
  {
    hide TrimSpace;
    var t := TrimSpace(s);
    var i := IndexByte(t, '\n');
    var line := if i >= 0 then t[..i] else t;
    assert |line| > 200 ==> t[..201] == line[..201];
  }

  const STAGED := "I've staged the changes. Open Review & apply to see the generated configuration and apply it."
  const UNABLE := "I wasn't able to complete that. Could you rephrase or give more detail?"

  function Reply<W>(tools: Tools<W>, rounds: seq<Round<W>>, w: W): string {
    var events := Events(rounds);
    var end := StateAfter(events, w);
    var spoken :=
      if NetRuns(tools, events) && !Sound(tools, end) then NetNote(SpokenReply(rounds), tools.preview(end))
      else SpokenReply(rounds);
    if spoken != "" then spoken else if Changes(tools, events) then STAGED else UNABLE
  }

  datatype Report = Report(
    reply: string, steps: seq<Trace>, messages: seq<Message>, changed: bool, valid: bool, tokens: int)

  function UserMessage(text: string): Message {
    Message(User, text, [], "", "")
  }

  function Opening(system: string, history: seq<Message>, user: string): seq<Message> {
    [Message(System, system, [], "", "")] + history + [UserMessage(user)]
  }

  /** What a turn reports, read off its rounds. */
  function Summary<W>(tools: Tools<W>, rounds: seq<Round<W>>, w: W, user: string): Report {
    var events := Events(rounds);
    Report(
      Reply(tools, rounds, w),
      Traces(tools, events) + (if NetRuns(tools, events) then [NetTrace(tools, StateAfter(events, w))] else []),
      [UserMessage(user)] + AllMessages(rounds),
      Changes(tools, events),
      ValidFlag(tools, events, w),
      Tokens(rounds))
  }

  function Budget(maxSteps: int): (n: nat)
    ensures n > 0
  {
    if maxSteps <= 0 then DEFAULT_STEPS else maxSteps
  }

  // ---- appending one more

  lemma {:induction false} EventsSnoc<W>(rounds: seq<Round<W>>, r: Round<W>)
    ensures Events(rounds + [r]) == Events(rounds) + r.events
  {
    if rounds == [] {
      assert [r][1..] == [];
    } else {
      assert (rounds + [r])[1..] == rounds[1..] + [r];
      EventsSnoc(rounds[1..], r);
    }
  }

  lemma {:induction false} AllMessagesConcat<W>(a: seq<Round<W>>, b: seq<Round<W>>)
    ensures AllMessages(a + b) == AllMessages(a) + AllMessages(b)
  {
    if a == [] {
      assert a + b == b;
    } else {
      assert (a + b)[1..] == a[1..] + b;
      AllMessagesConcat(a[1..], b);
    }
  }

  lemma AllMessagesSnoc<W>(rounds: seq<Round<W>>, r: Round<W>)
    ensures AllMessages(rounds + [r]) == AllMessages(rounds) + RoundMessages(r)
  {
    AllMessagesConcat(rounds, [r]);
    assert [r][1..] == [];
  }

  lemma {:induction false} TokensSnoc<W>(rounds: seq<Round<W>>, r: Round<W>)
    ensures Tokens(rounds + [r]) == Tokens(rounds) + r.completion.tokens
  {
    if rounds == [] {
      assert [r][1..] == [];
    } else {
      assert (rounds + [r])[1..] == rounds[1..] + [r];
      TokensSnoc(rounds[1..], r);
    }
  }

  lemma {:induction false} InvokeAllSnoc<W>(tools: Tools<W>, calls: seq<Call>, call: Call, w: W)
    ensures var before := InvokeAll(tools, calls, w);
            InvokeAll(tools, calls + [call], w) == before + [Invoke(tools, call, StateAfter(before, w))]
  {
    hide Invoke;
    if calls == [] {
      assert [call][1..] == [];
    } else {
      assert (calls + [call])[1..] == calls[1..] + [call];
      InvokeAllSnoc(tools, calls[1..], call, Invoke(tools, calls[0], w).after);
    }
  }

  lemma TracesConcat<W>(tools: Tools<W>, a: seq<Event<W>>, b: seq<Event<W>>)
    ensures Traces(tools, a + b) == Traces(tools, a) + Traces(tools, b)
  {
    hide TraceOf;
  }

  lemma AnswersSnoc<W>(events: seq<Event<W>>, e: Event<W>)
    ensures Answers(events + [e]) == Answers(events) + [Answer(e)]
  {
    hide Answer;
  }

  /** What one more call does to the flags. */
  lemma FlagsSnoc<W>(tools: Tools<W>, events: seq<Event<W>>, e: Event<W>)
    ensures Changes(tools, events + [e]) <==> Changes(tools, events) || (Mutates(tools, e.call.name) && e.out.Ok?)
    ensures LastJudged(events + [e]) == if Judges(e) then Some(e.before) else LastJudged(events)
  {
    var more := events + [e];
    assert more[..|more| - 1] == events && more[|events|] == e;
    if Changes(tools, events) {
      var i :| 0 <= i < |events| && Mutates(tools, events[i].call.name) && events[i].out.Ok?;
      assert more[i] == events[i];
    }
  }

  /** The valid flag after some calls that found it at one value. */
  predicate FlagAfter<W>(tools: Tools<W>, events: seq<Event<W>>, valid: bool) {
    if LastJudged(events).Some? then Sound(tools, LastJudged(events).value) else valid
  }

  lemma {:induction false} FlagsConcat<W>(tools: Tools<W>, a: seq<Event<W>>, b: seq<Event<W>>)
    ensures Changes(tools, a + b) <==> Changes(tools, a) || Changes(tools, b)
    ensures LastJudged(a + b) == if LastJudged(b).Some? then LastJudged(b) else LastJudged(a)
    decreases |b|
  {
    if b == [] {
      assert a + b == a;
      NothingYet(tools, Ok([]));
    } else {
      hide Changes, LastJudged, Judges;
      var front, e := b[..|b| - 1], b[|b| - 1];
      assert b == front + [e];
      assert a + b == (a + front) + [e];
      FlagsSnoc(tools, front, e);
      FlagsSnoc(tools, a + front, e);
      FlagsConcat(tools, a, front);
    }
  }

  lemma NoCalls<W>(tools: Tools<W>, calls: seq<Call>, w: W, valid: bool)
    ensures var none := InvokeAll(tools, calls[..0], w);
            && StateAfter(none, w) == w && Answers(none) == [] && Traces(tools, none) == []
            && !Changes(tools, none) && FlagAfter(tools, none, valid) == valid
  {
  }

  lemma CallSnoc<W>(tools: Tools<W>, calls: seq<Call>, i: nat, w: W, valid: bool)
    requires i < |calls|
    ensures var events, more := InvokeAll(tools, calls[..i], w), InvokeAll(tools, calls[..i + 1], w);
            var e := Invoke(tools, calls[i], StateAfter(events, w));
            && StateAfter(more, w) == e.after
            && Answers(more) == Answers(events) + [Answer(e)]
            && Traces(tools, more) == Traces(tools, events) + [TraceOf(tools, e)]
            && (Changes(tools, more) <==> Changes(tools, events) || (Mutates(tools, calls[i].name) && e.out.Ok?))
            && FlagAfter(tools, more, valid) ==
               if Judges(e) then Sound(tools, e.before) else FlagAfter(tools, events, valid)
  {
    hide *;
    var events := InvokeAll(tools, calls[..i], w);
    var e := Invoke(tools, calls[i], StateAfter(events, w));
    assert calls[..i + 1] == calls[..i] + [calls[i]];
    InvokeAllSnoc(tools, calls[..i], calls[i], w);
    AnswersSnoc(events, e);
    TraceOne(tools, e);
    TracesConcat(tools, events, [e]);
    FlagsSnoc(tools, events, e);
    StateSnoc(events, e, w);
    FlagAfterIs(tools, events, valid);
    FlagAfterIs(tools, events + [e], valid);
  }

  lemma TraceOne<W>(tools: Tools<W>, e: Event<W>)
    ensures Traces(tools, [e]) == [TraceOf(tools, e)]
  {
    hide TraceOf;
  }

  lemma StateSnoc<W>(events: seq<Event<W>>, e: Event<W>, w: W)
    ensures StateAfter(events + [e], w) == e.after
  {
  }

  lemma FlagAfterIs<W>(tools: Tools<W>, events: seq<Event<W>>, valid: bool)
    ensures FlagAfter(tools, events, valid) ==
      if LastJudged(events).Some? then Sound(tools, LastJudged(events).value) else valid
  {
    hide LastJudged, Sound;
  }

  lemma StateAfterConcat<W>(a: seq<Event<W>>, b: seq<Event<W>>, w: W)
    ensures StateAfter(a + b, w) == StateAfter(b, StateAfter(a, w))
  {
    if b == [] {
      assert a + b == a;
    }
  }

  function Chained<W>(done: seq<Round<W>>, rest: Result<seq<Round<W>>, string>): Result<seq<Round<W>>, string> {
    match rest
    case Err(e) => Err(e)
    case Ok(rounds) => Ok(done + rounds)
  }

  lemma NothingYet<W>(tools: Tools<W>, all: Result<seq<Round<W>>, string>)
    ensures Chained([], all) == all
    ensures !Changes(tools, [])
  {
    if all.Ok? {
      assert [] + all.value == all.value;
    }
  }

  lemma ChainedSnoc<W>(done: seq<Round<W>>, r: Round<W>, rest: Result<seq<Round<W>>, string>)
    ensures Chained(done, Prepended(r, rest)) == Chained(done + [r], rest)
    ensures Chained(done, Ok([r])) == Ok(done + [r])
  {
    if rest.Ok? {
      assert done + ([r] + rest.value) == (done + [r]) + rest.value;
    }
  }

  lemma AskedTraces<W>(tools: Tools<W>, events: seq<Event<W>>)
    requires Registered(tools)
    ensures AsksValidation(events) <==> exists i :: 0 <= i < |events| && Traces(tools, events)[i].kind == Validate
  {
    hide Traces, TraceOf, Registered;
    if AsksValidation(events) {
      var i :| 0 <= i < |events| && events[i].call.name == VALIDATE;
      TraceKind(tools, events[i]);
      assert Traces(tools, events)[i].kind == Validate;
    }
    if i :| 0 <= i < |events| && Traces(tools, events)[i].kind == Validate {
      TraceKind(tools, events[i]);
      assert events[i].call.name == VALIDATE;
    }
  }

  lemma TraceKind<W>(tools: Tools<W>, e: Event<W>)
    requires Registered(tools)
    ensures TraceOf(tools, e).kind == Validate <==> e.call.name == VALIDATE
  {
    hide FirstLine, Sound, Judges;
  }

  lemma NoRounds<W>(tools: Tools<W>, w: W)
    ensures AllMessages<W>([]) == [] && StateAfter(Events([]), w) == w && Traces(tools, Events([])) == []
    ensures !Changes(tools, Events([])) && FlagAfter(tools, Events([]), true) && Tokens<W>([]) == 0
    ensures SpokenReply<W>([]) == ""
  {
  }

  lemma RoundSnoc<W>(tools: Tools<W>, rounds: seq<Round<W>>, r: Round<W>, w: W)
    ensures var past, events := Events(rounds), Events(rounds + [r]);
            && AllMessages(rounds + [r]) == AllMessages(rounds) + ([r.completion.message] + Answers(r.events))
            && StateAfter(events, w) == StateAfter(r.events, StateAfter(past, w))
            && Traces(tools, events) == Traces(tools, past) + Traces(tools, r.events)
            && (Changes(tools, events) <==> Changes(tools, past) || Changes(tools, r.events))
            && FlagAfter(tools, events, true) == FlagAfter(tools, r.events, FlagAfter(tools, past, true))
            && Tokens(rounds + [r]) == Tokens(rounds) + r.completion.tokens
            && SpokenReply(rounds + [r]) ==
               if r.completion.message.calls == [] then TrimSpace(r.completion.message.content) else ""
  {
    hide Events, AllMessages, StateAfter, Traces, Changes, LastJudged, Tokens, TrimSpace, Answers;
    EventsSnoc(rounds, r);
    AllMessagesSnoc(rounds, r);
    StateAfterConcat(Events(rounds), r.events, w);
    TracesConcat(tools, Events(rounds), r.events);
    FlagsConcat(tools, Events(rounds), r.events);
    TokensSnoc(rounds, r);
  }

  lemma TurnStep<W>(tools: Tools<W>, model: Model, done: seq<Round<W>>, transcript: seq<Message>, w: W, budget: nat)
    requires budget > 0
    ensures var all := Chained(done, Converse(tools, model, transcript, w, budget));
            match model(transcript)
            case Err(e) => all == Err(e)
            case Ok(c) =>
              var events := InvokeAll(tools, c.message.calls, w);
              var more := done + [Round(c, events)];
              var later := transcript + [c.message] + Answers(events);
              all == if c.message.calls == [] then Ok(more)
                     else Chained(more, Converse(tools, model, later, StateAfter(events, w), budget - 1))
  {
    hide InvokeAll, Prepended, Answers, StateAfter;
    var answered := model(transcript);
    if answered.Ok? {
      var c := answered.value;
      var events := InvokeAll(tools, c.message.calls, w);
      var later := transcript + [c.message] + Answers(events);
      assert transcript + RoundMessages(Round(c, events)) == later;
      ChainedSnoc(done, Round(c, events), Converse(tools, model, later, StateAfter(events, w), budget - 1));
    }
  }

  lemma ConverseEnds<W>(tools: Tools<W>, model: Model, transcript: seq<Message>, w: W, rounds: seq<Round<W>>)
    ensures Chained(rounds, Converse(tools, model, transcript, w, 0)) == Ok(rounds)
  {
    assert rounds + [] == rounds;
  }

  lemma BudgetIs(maxSteps: int)
    ensures DEFAULT_STEPS == 16
    ensures Budget(maxSteps) == if maxSteps <= 0 then 16 else maxSteps
  {
  }

  lemma SummaryIs<W>(tools: Tools<W>, rounds: seq<Round<W>>, w: W, user: string)
    ensures var events := Events(rounds);
            var end, runs := StateAfter(events, w), Changes(tools, events) && !AsksValidation(events);
            var spoken := if runs && !Sound(tools, end) then NetNote(SpokenReply(rounds), tools.preview(end))
                          else SpokenReply(rounds);
            Summary(tools, rounds, w, user) == Report(
              if spoken != "" then spoken else if Changes(tools, events) then STAGED else UNABLE,
              Traces(tools, events) + (if runs then [NetTrace(tools, end)] else []),
              [UserMessage(user)] + AllMessages(rounds),
              Changes(tools, events),
              if runs then Sound(tools, end) else FlagAfter(tools, events, true),
              Tokens(rounds))
  {
    hide Changes, AsksValidation, Traces, StateAfter, Events, AllMessages, SpokenReply, NetTrace, NetNote, LastJudged,
         Sound, Tokens;
  }

  lemma SpokenTrimmed<W>(rounds: seq<Round<W>>)
    ensures TrimSpace(SpokenReply(rounds)) == SpokenReply(rounds)
  {
    hide TrimSpace;
    TrimSpaceBlank("");
    if rounds != [] {
      var content := rounds[|rounds| - 1].completion.message.content;
      InkEnds(content);
      if TrimSpace(content) != "" {
        TrimSpaceKeeps(TrimSpace(content));
      }
    }
  }

  /** The reply, written out: what the model said last, a note when the panel's own
      validation failed, and a fixed sentence when there is neither. */
  predicate ReplySays<W>(tools: Tools<W>, rounds: seq<Round<W>>, end: W, reply: string) {
    var events := Events(rounds);
    var spoken :=
      if rounds == [] || rounds[|rounds| - 1].completion.message.calls != [] then ""
      else TrimSpace(rounds[|rounds| - 1].completion.message.content);
    var p := tools.preview(end);
    if Changes(tools, events) && !AsksValidation(events) && p.error.Some? then
      IsNoted(reply, spoken, p)
    else if spoken != "" then reply == spoken
    else IsFixedReply(reply, Changes(tools, events))
  }

  predicate IsNoted(reply: string, spoken: string, p: Preview) {
    reply == (if spoken == "" then "" else spoken + "\n\n")
      + ("Note: " + "the resulting configuration does not validate yet " + DASH + " " + FirstLine(p.output)
         + ". Please review it before applying.")
  }

  predicate IsFixedReply(reply: string, changed: bool) {
    if changed then
      reply == "I've staged the changes. Open Review & apply to see the generated configuration and apply it."
    else reply == "I wasn't able to complete that. Could you rephrase or give more detail?"
  }

  lemma SummarySays<W>(tools: Tools<W>, rounds: seq<Round<W>>, w: W, user: string)
    ensures ReplySays(tools, rounds, StateAfter(Events(rounds), w), Summary(tools, rounds, w, user).reply)
  {
    SpokenTrimmed(rounds);
    hide TrimSpace, FirstLine, NetNote, Changes, AsksValidation, Events, StateAfter, Traces, ValidFlag, Tokens,
         AllMessages, NetTrace, STAGED, UNABLE, IsNoted, IsFixedReply;
    var p := tools.preview(StateAfter(Events(rounds), w));
    NoteIsNoted(SpokenReply(rounds), p);
    FixedReplies();
  }

  lemma FixedReplies()
    ensures IsFixedReply(STAGED, true) && IsFixedReply(UNABLE, false)
  {
  }

  lemma NoteIsNoted(spoken: string, p: Preview)
    requires TrimSpace(spoken) == spoken
    ensures IsNoted(NetNote(spoken, p), spoken, p) && NetNote(spoken, p) != ""
  {
    NoteIs(spoken, p);
    hide FirstLine, DASH, NetNote, TrimSpace;
  }

  lemma OpeningSplits(system: string, history: seq<Message>, user: string, tail: seq<Message>)
    ensures var all := Opening(system, history, user) + tail;
            |all| >= 1 + |history| && all[1 + |history|..] == [UserMessage(user)] + tail
  {
  }

  // ---- the loop itself

  /** The stored state that tools read and change. */
  class Env<W> {
    var state: W

    constructor (w: W)
      ensures state == w
    {
      state := w;
    }
  }

  class Agent<W> {
    var maxSteps: int

    constructor (steps: int)
      ensures maxSteps == steps
    {
      maxSteps := steps;
    }

    method Run(env: Env<W>, tools: Tools<W>, model: Model, system: string, history: seq<Message>, user: string)
      returns (out: Result<Report, string>)
      requires Registered(tools)
      modifies this, env
      ensures maxSteps == Budget(old(maxSteps)) == if old(maxSteps) <= 0 then 16 else old(maxSteps)
      ensures var turn := Converse(tools, model, Opening(system, history, user), old(env.state), Budget(old(maxSteps)));
              match turn
              case Err(e) => out == Err(e)
              case Ok(rounds) =>
                && out == Ok(Summary(tools, rounds, old(env.state), user))
                && env.state == StateAfter(Events(rounds), old(env.state))
                && ReplySays(tools, rounds, env.state, out.value.reply)
    {
      hide *;
      if maxSteps <= 0 {
        maxSteps := DEFAULT_STEPS;
      }
      BudgetIs(old(maxSteps));
      var messages := Opening(system, history, user);
      ghost var opening := messages;
      ghost var w := env.state;
      ghost var rounds: seq<Round<W>> := [];
      ghost var turn := Converse(tools, model, opening, w, maxSteps);
      var reply, steps, changed, valid, tokens := "", [], false, true, 0;
      var step, finished := 0, false;
      NothingYet(tools, turn);
      NoRounds(tools, w);
      while step < maxSteps && !finished
        invariant 0 <= step <= maxSteps == Budget(old(maxSteps))
        invariant messages == opening + AllMessages(rounds)
        invariant env.state == StateAfter(Events(rounds), w)
        invariant steps == Traces(tools, Events(rounds))
        invariant changed == Changes(tools, Events(rounds))
        invariant valid == FlagAfter(tools, Events(rounds), true)
        invariant tokens == Tokens(rounds)
        invariant reply == SpokenReply(rounds)
        invariant !finished ==> reply == ""
        invariant if finished then turn == Ok(rounds)
                  else turn == Chained(rounds, Converse(tools, model, messages, env.state, maxSteps - step))
        decreases maxSteps - step, !finished
      {
        TurnStep(tools, model, rounds, messages, env.state, maxSteps - step);
        var completed := model(messages);
        if completed.Err? {
          return Err(completed.error);
        }
        var c := completed.value;
        ghost var round := Round(c, InvokeAll(tools, c.message.calls, env.state));
        RoundSnoc(tools, rounds, round, w);
        tokens := tokens + c.tokens;
        messages := messages + [c.message];
        if c.message.calls == [] {
          reply := TrimSpace(c.message.content);
          finished := true;
        }
        assert messages + Answers(round.events)
            == opening + (AllMessages(rounds) + ([c.message] + Answers(round.events)));
        messages, steps, changed, valid := PerformAll(env, tools, c.message.calls, messages, steps, changed, valid);
        rounds := rounds + [round];
        step := step + 1;
      }
      ConverseEnds(tools, model, messages, env.state, rounds);
      var asked := ValidatedInSteps(steps);
      AskedTraces(tools, Events(rounds));
      SpokenTrimmed(rounds);
      reply, steps, valid := SafetyNet(env, tools, asked, reply, steps, changed, valid);
      if reply == "" {
        reply := if changed then STAGED else UNABLE;
      }
      SummaryIs(tools, rounds, w, user);
      SummarySays(tools, rounds, w, user);
      OpeningSplits(system, history, user, AllMessages(rounds));
      return Ok(Report(reply, steps, messages[1 + |history|..], changed, valid, tokens));
    }
  }

  /** What the safety net makes of the report, given its own look at the state. */
  predicate NetSays(
    p: Preview, runs: bool,
    reply: string, steps: seq<Trace>, valid: bool, reply': string, steps': seq<Trace>, valid': bool)
  {
    if !runs then reply' == reply && steps' == steps && valid' == valid
    else if p.error == None then
      && reply' == reply && valid'
      && steps' == steps + [Trace(Validate, "validate_config", "configuration is valid", "", true)]
    else
      && reply' == (if reply == "" then "" else reply + "\n\n")
           + ("Note: " + "the resulting configuration does not validate yet " + DASH + " " + FirstLine(p.output)
              + ". Please review it before applying.")
      && !valid'
      && steps' == steps + [Trace(Validate, "validate_config", "configuration is not valid yet",
                                  TrimSpace(p.output), false)]
  }

  /** Changes that no step tried to validate are validated here. */
  method SafetyNet<W>(
    env: Env<W>, tools: Tools<W>, asked: bool, reply: string, steps: seq<Trace>, changed: bool, valid: bool)
    returns (reply': string, steps': seq<Trace>, valid': bool)
    requires TrimSpace(reply) == reply
    ensures var runs := changed && !asked;
            && steps' == steps + (if runs then [NetTrace(tools, env.state)] else [])
            && (valid' <==> if runs then Sound(tools, env.state) else valid)
            && reply' == if runs && !Sound(tools, env.state) then NetNote(reply, tools.preview(env.state)) else reply
    ensures NetSays(tools.preview(env.state), changed && !asked, reply, steps, valid, reply', steps', valid')
  {
    hide TrimSpace, NetNote, FirstLine, DASH;
    reply', steps', valid' := reply, steps, valid;
    if changed && !asked {
      var p := tools.preview(env.state);
      if p.error.Some? {
        valid' := false;
        steps' := steps + [Trace(Validate, VALIDATE, "configuration is not valid yet", TrimSpace(p.output), false)];
        reply' := NetNote(reply, p);
        NoteIs(reply, p);
      } else {
        valid' := true;
        steps' := steps + [Trace(Validate, VALIDATE, "configuration is valid", "", true)];
      }
    }
  }

  /** Text is cut to n bytes, with an ellipsis to show it. */
  predicate Cut(text: string, n: nat, cut: string) {
    if |text| <= n then cut == text else cut == text[..n] + "\U{E2}\U{80}\U{A6}"
  }

  /** One tool call: its line in the trace, its answer, and the two flags. */
  method Perform<W>(env: Env<W>, tools: Tools<W>, call: Call, changed: bool, valid: bool)
    returns (t: Trace, answer: Message, changed': bool, valid': bool)
    requires Registered(tools)
    modifies env
    ensures var e := Invoke(tools, call, old(env.state));
            && env.state == e.after && t == TraceOf(tools, e) && answer == Answer(e)
            && (changed' <==> changed || (Mutates(tools, call.name) && e.out.Ok?))
            && (valid' <==> if Judges(e) then Sound(tools, old(env.state)) else valid)
    ensures t.tool == call.name
    ensures t.kind == if call.name in tools.mutating && tools.mutating[call.name] then Change
                      else if call.name == "validate_config" then Validate else Context
    ensures answer.role == ToolResult && answer.callId == call.id && answer.name == call.name && answer.calls == []
    ensures match Invoke(tools, call, old(env.state)).out
            case Err(error) =>
              && t.summary == call.name + " failed" && t.detail == error && !t.ok
              && Cut("ERROR: " + error, 6000, answer.content)
            case Ok(text) =>
              && Cut(text, 6000, answer.content) && t.detail == ""
              && if t.kind != Validate then t.ok && t.summary == FirstLine(text)
                 else if tools.preview(old(env.state)).error == None
                 then t.ok && t.summary == "configuration is valid"
                 else !t.ok && t.summary == "configuration is not valid yet"
  {
    hide TrimSpace, Invoke, ToolValidate, Contains, IndexByte, FirstLine;
    changed', valid' := changed, valid;
    var e := Invoke(tools, call, env.state);
    env.state := e.after;
    var kind := if Mutates(tools, call.name) then Change else if call.name == VALIDATE then Validate else Context;
    t := Trace(kind, call.name, "", "", e.out.Ok?);
    var text;
    if e.out.Err? {
      t := t.(summary := call.name + " failed", detail := e.out.error);
      text := "ERROR: " + e.out.error;
    } else {
      text := e.out.value;
      if Mutates(tools, call.name) {
        changed' := true;
      }
      t := t.(summary := FirstLine(text));
      if kind == Validate {
        valid' := Contains(text, PATTERN);
        VerdictIsExact(tools.preview(e.before));
        if !valid' {
          t := t.(ok := false, summary := "configuration is not valid yet");
        } else {
          t := t.(summary := "configuration is valid");
        }
      }
    }
    answer := Message(ToolResult, Clip(text, CLIP), [], call.id, call.name);
  }

  /** The tool calls of one completion, in order. */
  method PerformAll<W>(
    env: Env<W>, tools: Tools<W>, calls: seq<Call>,
    messages: seq<Message>, steps: seq<Trace>, changed: bool, valid: bool)
    returns (messages': seq<Message>, steps': seq<Trace>, changed': bool, valid': bool)
    requires Registered(tools)
    modifies env
    ensures var events := InvokeAll(tools, calls, old(env.state));
            && env.state == StateAfter(events, old(env.state))
            && messages' == messages + Answers(events)
            && steps' == steps + Traces(tools, events)
            && (changed' <==> changed || Changes(tools, events))
            && (valid' <==> FlagAfter(tools, events, valid))
  {
    hide *;
    messages', steps', changed', valid' := messages, steps, changed, valid;
    ghost var w := env.state;
    NoCalls(tools, calls, w, valid);
    for i := 0 to |calls|
      invariant env.state == StateAfter(InvokeAll(tools, calls[..i], w), w)
      invariant messages' == messages + Answers(InvokeAll(tools, calls[..i], w))
      invariant steps' == steps + Traces(tools, InvokeAll(tools, calls[..i], w))
      invariant changed' <==> changed || Changes(tools, InvokeAll(tools, calls[..i], w))
      invariant valid' <==> FlagAfter(tools, InvokeAll(tools, calls[..i], w), valid)
    {
      CallSnoc(tools, calls, i, w, valid);
      var t, answer;
      t, answer, changed', valid' := Perform(env, tools, calls[i], changed', valid');
      steps' := steps' + [t];
      messages' := messages' + [answer];
    }
    assert calls[..|calls|] == calls;
  }

  method ValidatedInSteps(steps: seq<Trace>) returns (found: bool)
    ensures found <==> exists i :: 0 <= i < |steps| && steps[i].kind == Validate
  {
    for i := 0 to |steps|
      invariant forall k :: 0 <= k < i ==> steps[k].kind != Validate
    {
      if steps[i].kind == Validate {
        return true;
      }
    }
    return false;
  }

  // ---- what every turn keeps

  /** The completion answers the transcript so far, its calls act on the state so
      far, and only the last round may ask for nothing. */
  predicate Follows<W(==)>(tools: Tools<W>, model: Model, transcript: seq<Message>, w: W, rounds: seq<Round<W>>, i: nat)
    requires i < |rounds|
  {
    && model(transcript + AllMessages(rounds[..i])) == Ok(rounds[i].completion)
    && rounds[i].events == InvokeAll(tools, rounds[i].completion.message.calls, StateAfter(Events(rounds[..i]), w))
    && (rounds[i].completion.message.calls == [] ==> i == |rounds| - 1)
  }

  lemma FollowsCons<W>(
      tools: Tools<W>, model: Model, transcript: seq<Message>, w: W, round: Round<W>, rest: seq<Round<W>>, i: nat)
    requires i < |rest|
    requires Follows(tools, model, transcript + RoundMessages(round), StateAfter(round.events, w), rest, i)
    ensures Follows(tools, model, transcript, w, [round] + rest, i + 1)
  {
    hide InvokeAll, RoundMessages, StateAfter;
    var rounds := [round] + rest;
    var front := rounds[..i + 1];
    assert front[0] == round && front[1..] == rest[..i];
    assert transcript + AllMessages(front) == transcript + RoundMessages(round) + AllMessages(rest[..i]);
    StateAfterConcat(round.events, Events(rest[..i]), w);
  }

  /** A turn is bounded and ends early only on a completion without calls. */
  lemma {:induction false} RoundsFollow<W>(
      tools: Tools<W>, model: Model, transcript: seq<Message>, w: W, budget: nat, rounds: seq<Round<W>>)
    requires Converse(tools, model, transcript, w, budget) == Ok(rounds)
    ensures |rounds| <= budget
    ensures forall i :: 0 <= i < |rounds| ==> Follows(tools, model, transcript, w, rounds, i)
    ensures |rounds| < budget ==> rounds != [] && rounds[|rounds| - 1].completion.message.calls == []
    decreases budget
  {
    hide InvokeAll, RoundMessages, StateAfter, Follows;
    if budget > 0 {
      var c := model(transcript).value;
      var events := InvokeAll(tools, c.message.calls, w);
      var round := Round(c, events);
      assert rounds[0] == round;
      FollowsFirst(tools, model, transcript, w, rounds);
      if c.message.calls != [] {
        var rest := rounds[1..];
        assert rounds == [round] + rest;
        RoundsFollow(tools, model, transcript + RoundMessages(round), StateAfter(events, w), budget - 1, rest);
        forall i | 1 <= i < |rounds| ensures Follows(tools, model, transcript, w, rounds, i) {
          FollowsCons(tools, model, transcript, w, round, rest, i - 1);
        }
      }
    }
  }

  lemma FollowsFirst<W>(tools: Tools<W>, model: Model, transcript: seq<Message>, w: W, rounds: seq<Round<W>>)
    requires rounds != [] && model(transcript) == Ok(rounds[0].completion)
    requires rounds[0].events == InvokeAll(tools, rounds[0].completion.message.calls, w)
    requires rounds[0].completion.message.calls == [] ==> |rounds| == 1
    ensures Follows(tools, model, transcript, w, rounds, 0)
  {
    hide InvokeAll;
    assert rounds[..0] == [] && transcript + [] == transcript;
  }

  /** Every message that asks for tools is followed by exactly one answer to each of
      its calls, in order. */
  predicate Disciplined(ms: seq<Message>)
    decreases |ms|
  {
    ms == [] ||
    (var n := |ms[0].calls|;
     && n < |ms|
     && (forall j :: 0 <= j < n ==> Answering(ms[1 + j], ms[0].calls[j]))
     && Disciplined(ms[1 + n..]))
  }

  predicate Answering(m: Message, call: Call) {
    m.role == ToolResult && m.callId == call.id && m.name == call.name && m.calls == []
  }

  lemma {:induction false} DisciplinedConcat(a: seq<Message>, b: seq<Message>)
    requires Disciplined(a) && Disciplined(b)
    ensures Disciplined(a + b)
    decreases |a|
  {
    if a == [] {
      assert a + b == b;
    } else {
      var n := |a[0].calls|;
      assert (a + b)[1 + n..] == a[1 + n..] + b;
      DisciplinedConcat(a[1 + n..], b);
    }
  }

  lemma CalmMessage(m: Message)
    requires m.calls == []
    ensures Disciplined([m])
  {
    assert [m][1..] == [];
  }

  lemma {:induction false} RoundsDisciplined<W>(rounds: seq<Round<W>>)
    requires forall i :: 0 <= i < |rounds| ==> WholeRound(rounds[i])
    ensures Disciplined(AllMessages(rounds))
    decreases |rounds|
  {
    hide Clip;
    if rounds != [] {
      var block := RoundMessages(rounds[0]);
      assert block[1 + |block[0].calls|..] == [];
      assert Disciplined(block);
      RoundsDisciplined(rounds[1..]);
      DisciplinedConcat(block, AllMessages(rounds[1..]));
    }
  }

  /** Every call of the completion ran. */
  predicate WholeRound<W>(r: Round<W>) {
    && |r.events| == |r.completion.message.calls|
    && forall j :: 0 <= j < |r.events| ==> r.events[j].call == r.completion.message.calls[j]
  }

  /** The messages a turn returns begin with the user's and answer every call; so does
      every transcript the model is shown, when the history did. */
  lemma TranscriptDiscipline<W>(
      tools: Tools<W>, model: Model, system: string, history: seq<Message>, user: string,
      w: W, budget: nat, rounds: seq<Round<W>>)
    requires Converse(tools, model, Opening(system, history, user), w, budget) == Ok(rounds)
    ensures var returned := Summary(tools, rounds, w, user).messages;
            returned[0] == UserMessage(user) && Disciplined(returned)
            && |returned| == 1 + |rounds| + |Events(rounds)|
            && (Disciplined(history) ==> Disciplined(history + returned))
    ensures Disciplined(history) ==>
      forall i :: 0 <= i < |rounds| ==>
        model(Opening(system, history, user) + AllMessages(rounds[..i])) == Ok(rounds[i].completion)
        && Disciplined(Opening(system, history, user) + AllMessages(rounds[..i]))
  {
    hide Reply, Traces, NetRuns, Changes, ValidFlag, Tokens, Converse, Answers, Events, AllMessages;
    var opening := Opening(system, history, user);
    RoundsFollow(tools, model, opening, w, budget, rounds);
    forall i | 0 <= i < |rounds|
      ensures WholeRound(rounds[i]) && model(opening + AllMessages(rounds[..i])) == Ok(rounds[i].completion)
    {
      assert Follows(tools, model, opening, w, rounds, i);
    }
    var first, last := [Message(System, system, [], "", "")], [UserMessage(user)];
    CalmMessage(first[0]);
    CalmMessage(last[0]);
    RoundsDisciplined(rounds);
    DisciplinedConcat(last, AllMessages(rounds));
    MessageCount(rounds);
    if Disciplined(history) {
      DisciplinedConcat(history, last + AllMessages(rounds));
      DisciplinedConcat(first, history);
      DisciplinedConcat(first + history, last);
      forall i | 0 <= i < |rounds| ensures Disciplined(opening + AllMessages(rounds[..i])) {
        RoundsDisciplined(rounds[..i]);
        DisciplinedConcat(opening, AllMessages(rounds[..i]));
      }
    }
  }

  lemma {:induction false} MessageCount<W>(rounds: seq<Round<W>>)
    ensures |AllMessages(rounds)| == |rounds| + |Events(rounds)|
  {
    if rounds != [] {
      MessageCount(rounds[1..]);
    }
  }

  // ---- what the flags mean

  /** Changed is never reported without some validation step. */
  lemma ChangedIsValidated<W>(tools: Tools<W>, rounds: seq<Round<W>>, w: W, user: string)
    requires Registered(tools)
    ensures var r := Summary(tools, rounds, w, user);
            r.changed ==> exists k :: 0 <= k < |r.steps| && r.steps[k].kind == Validate
  {
    hide Reply, FirstLine, TrimSpace;
    var events := Events(rounds);
    var steps := Summary(tools, rounds, w, user).steps;
    AskedTraces(tools, events);
    if NetRuns(tools, events) {
      assert steps[|events|].kind == Validate;
    } else if Changes(tools, events) {
      var k :| 0 <= k < |events| && Traces(tools, events)[k].kind == Validate;
      assert steps[k].kind == Validate;
    }
  }

  predicate LastToJudge<W>(events: seq<Event<W>>, j: nat) {
    j < |events| && Judges(events[j]) && forall k :: j < k < |events| ==> !Judges(events[k])
  }

  /** The last answered validation decides. */
  lemma {:induction false} LastJudgedIs<W>(events: seq<Event<W>>, i: nat)
    requires LastToJudge(events, i)
    ensures LastJudged(events) == Some(events[i].before)
    decreases |events|
  {
    hide Judges;
    if i < |events| - 1 {
      LastJudgedIs(events[..|events| - 1], i);
    }
  }

  lemma {:induction false} LastJudgedAt<W>(events: seq<Event<W>>)
    ensures LastJudged(events).Some? <==> exists i :: 0 <= i < |events| && Judges(events[i])
    ensures LastJudged(events).Some? ==>
      exists i :: 0 <= i < |events| && Judges(events[i]) && events[i].before == LastJudged(events).value
    decreases |events|
  {
    hide Judges;
    if events != [] {
      var front := events[..|events| - 1];
      LastJudgedAt(front);
      assert forall i :: 0 <= i < |front| ==> front[i] == events[i];
    }
  }

  /** The final flag, case by case: with changes and no validation asked for it is the
      verdict on the final state; otherwise it is the verdict on the state the last
      answered validation saw; with none it is true. */
  lemma FlagMeans<W>(tools: Tools<W>, rounds: seq<Round<W>>, w: W, user: string)
    ensures var r, events := Summary(tools, rounds, w, user), Events(rounds);
            && (r.changed && !AsksValidation(events) ==> (r.valid <==> Sound(tools, StateAfter(events, w))))
            && (forall i :: 0 <= i < |events| && LastToJudge(events, i) ==>
                  (r.valid <==> Sound(tools, events[i].before)))
            && ((forall i :: 0 <= i < |events| ==> !Judges(events[i])) && !NetRuns(tools, events) ==> r.valid)
  {
    hide Reply, Changes, Sound, LastJudged, Events;
    var events := Events(rounds);
    LastJudgedAt(events);
    forall i | 0 <= i < |events| && LastToJudge(events, i)
      ensures LastJudged(events) == Some(events[i].before) && AsksValidation(events)
    {
      LastJudgedIs(events, i);
      assert events[i].call.name == VALIDATE;
    }
  }

  // ---- when the final flag can be trusted

  function Seeing<W>(tools: Tools<W>, p: W -> Preview): Tools<W> {
    tools.(preview := p)
  }

  /** Every checker under which the turn runs just the same agrees with the flag about
      the state the turn leaves. */
  ghost predicate Vouched<W(!new)>(
      tools: Tools<W>, model: Model, transcript: seq<Message>, w: W, budget: nat, rounds: seq<Round<W>>) {
    forall p: W -> Preview ::
      Converse(Seeing(tools, p), model, transcript, w, budget) == Ok(rounds) ==>
      (ValidFlag(Seeing(tools, p), Events(rounds), w) <==> Sound(Seeing(tools, p), StateAfter(Events(rounds), w)))
  }

  /** What an answered validation said. */
  predicate Approves<W>(e: Event<W>)
    requires Judges(e)
  {
    Contains(e.out.value, PATTERN)
  }

  /** A validation in the turn saw the final state, and the last one said the same. */
  predicate SawTheEnd<W(==)>(events: seq<Event<W>>, w: W) {
    exists i, j ::
      && 0 <= i < |events| && Judges(events[i]) && events[i].before == StateAfter(events, w)
      && 0 <= j < |events| && LastToJudge(events, j) && (Approves(events[i]) <==> Approves(events[j]))
  }

  lemma ApprovesSound<W>(tools: Tools<W>, e: Event<W>)
    requires Judges(e) && Truthful(tools, e)
    ensures Approves(e) <==> Sound(tools, e.before)
  {
    hide ToolValidate, Contains;
    VerdictIsExact(tools.preview(e.before));
  }

  lemma LastToJudgeExists<W>(events: seq<Event<W>>, i: nat) returns (j: nat)
    requires i < |events| && Judges(events[i])
    ensures LastToJudge(events, j)
  {
    j := |events| - 1;
    while !Judges(events[j])
      invariant i <= j < |events|
      decreases j
      invariant forall k :: j < k < |events| ==> !Judges(events[k])
    {
      j := j - 1;
    }
  }

  /** Without the safety net, the flag is what the last validation said. */
  lemma FlagIsLastAnswer<W>(tools: Tools<W>, events: seq<Event<W>>, w: W, j: nat)
    requires LastToJudge(events, j) && Truthful(tools, events[j]) && !NetRuns(tools, events)
    ensures ValidFlag(tools, events, w) <==> Approves(events[j])
  {
    LastJudgedIs(events, j);
    hide NetRuns, Approves, Sound, LastJudged, Truthful;
    ApprovesSound(tools, events[j]);
  }

  /** The validation i saw the final state, and its verdict is the flag. */
  predicate SightIs<W(==)>(tools: Tools<W>, events: seq<Event<W>>, w: W, i: nat) {
    && i < |events| && Judges(events[i]) && events[i].before == StateAfter(events, w)
    && (Sound(tools, events[i].before) <==> ValidFlag(tools, events, w))
  }

  lemma SightAgrees<W>(tools: Tools<W>, events: seq<Event<W>>, w: W)
    requires forall i :: 0 <= i < |events| ==> Truthful(tools, events[i])
    requires !NetRuns(tools, events)
    ensures SawTheEnd(events, w) <==> exists i: nat :: SightIs(tools, events, w, i)
  {
    hide Approves, Sound, Truthful, Judges, NetRuns, ValidFlag, StateAfter;
    if SawTheEnd(events, w) {
      var i, j :| 0 <= i < |events| && Judges(events[i]) && events[i].before == StateAfter(events, w)
        && 0 <= j < |events| && LastToJudge(events, j) && (Approves(events[i]) <==> Approves(events[j]));
      ApprovesSound(tools, events[i]);
      FlagIsLastAnswer(tools, events, w, j);
      assert SightIs(tools, events, w, i);
    }
    if exists i: nat :: SightIs(tools, events, w, i) {
      var i: nat :| SightIs(tools, events, w, i);
      var j := LastToJudgeExists(events, i);
      ApprovesSound(tools, events[i]);
      FlagIsLastAnswer(tools, events, w, j);
    }
  }

  /** A validation's answer is the text for the state it saw. */
  predicate Truthful<W>(tools: Tools<W>, e: Event<W>) {
    Judges(e) ==> e.out.value == ToolValidate(tools.preview(e.before))
  }

  lemma {:induction false} InvokeAllTruthful<W>(tools: Tools<W>, calls: seq<Call>, w: W)
    ensures forall i :: 0 <= i < |calls| ==> Truthful(tools, InvokeAll(tools, calls, w)[i])
    decreases |calls|
  {
    hide Invoke, ToolValidate;
    if calls != [] {
      InvokeAllTruthful(tools, calls[1..], Invoke(tools, calls[0], w).after);
    }
  }

  lemma {:induction false} ConverseTruthful<W>(
      tools: Tools<W>, model: Model, transcript: seq<Message>, w: W, budget: nat, rounds: seq<Round<W>>)
    requires Converse(tools, model, transcript, w, budget) == Ok(rounds)
    ensures forall i :: 0 <= i < |Events(rounds)| ==> Truthful(tools, Events(rounds)[i])
    decreases budget
  {
    hide InvokeAll, Truthful, RoundMessages, StateAfter;
    if budget > 0 {
      var c := model(transcript).value;
      var events := InvokeAll(tools, c.message.calls, w);
      var round := Round(c, events);
      InvokeAllTruthful(tools, c.message.calls, w);
      if c.message.calls == [] {
        assert [round][1..] == [];
      } else {
        var rest := rounds[1..];
        assert rounds == [round] + rest;
        ConverseTruthful(tools, model, transcript + RoundMessages(round), StateAfter(events, w), budget - 1, rest);
      }
    }
  }

  /** Two checkers that agree where the calls asked give the same calls. */
  lemma {:induction false} InvokeAllAlike<W>(tools: Tools<W>, p: W -> Preview, calls: seq<Call>, w: W)
    requires forall i :: 0 <= i < |calls| && Judges(InvokeAll(tools, calls, w)[i]) ==>
      p(InvokeAll(tools, calls, w)[i].before) == tools.preview(InvokeAll(tools, calls, w)[i].before)
    ensures InvokeAll(Seeing(tools, p), calls, w) == InvokeAll(tools, calls, w)
    decreases |calls|
  {
    hide ToolValidate, TrimSpace;
    if calls != [] {
      var events := InvokeAll(tools, calls, w);
      var e := Invoke(tools, calls[0], w);
      assert events[0] == e;
      assert Invoke(Seeing(tools, p), calls[0], w) == e;
      assert forall i :: 0 <= i < |events| - 1 ==> InvokeAll(tools, calls[1..], e.after)[i] == events[i + 1];
      InvokeAllAlike(tools, p, calls[1..], e.after);
    }
  }

  lemma {:induction false} ConverseAlike<W>(
      tools: Tools<W>, p: W -> Preview, model: Model, transcript: seq<Message>,
      w: W, budget: nat, rounds: seq<Round<W>>)
    requires Converse(tools, model, transcript, w, budget) == Ok(rounds)
    requires forall i :: 0 <= i < |Events(rounds)| && Judges(Events(rounds)[i]) ==>
      p(Events(rounds)[i].before) == tools.preview(Events(rounds)[i].before)
    ensures Converse(Seeing(tools, p), model, transcript, w, budget) == Ok(rounds)
    decreases budget
  {
    hide InvokeAll, Judges, RoundMessages, StateAfter, Seeing;
    if budget > 0 {
      var c := model(transcript).value;
      var events := InvokeAll(tools, c.message.calls, w);
      var round := Round(c, events);
      var all := Events(rounds);
      assert rounds[0] == round;
      assert all == events + Events(rounds[1..]);
      assert forall i :: 0 <= i < |events| ==> all[i] == events[i];
      InvokeAllAlike(tools, p, c.message.calls, w);
      if c.message.calls != [] {
        var rest := rounds[1..];
        assert forall i :: 0 <= i < |Events(rest)| ==> all[|events| + i] == Events(rest)[i];
        ConverseAlike(tools, p, model, transcript + RoundMessages(round), StateAfter(events, w), budget - 1, rest);
      }
    }
  }

  /** Verdicts the transcript shows are the same for every checker that explains it. */
  lemma SameVerdicts<W>(tools: Tools<W>, other: Tools<W>, e: Event<W>)
    requires Truthful(tools, e) && Truthful(other, e) && Judges(e)
    ensures Sound(tools, e.before) <==> Sound(other, e.before)
  {
    hide ToolValidate, Contains;
    VerdictIsExact(tools.preview(e.before));
    VerdictIsExact(other.preview(e.before));
  }

  /** The flag depends on a checker only through verdicts shown or the safety net. */
  lemma FlagFollowsTranscript<W>(tools: Tools<W>, p: W -> Preview, events: seq<Event<W>>, w: W)
    requires forall i :: 0 <= i < |events| ==> Truthful(tools, events[i]) && Truthful(Seeing(tools, p), events[i])
    requires !NetRuns(tools, events)
    ensures !NetRuns(Seeing(tools, p), events)
    ensures ValidFlag(Seeing(tools, p), events, w) <==> ValidFlag(tools, events, w)
  {
    hide LastJudged, Sound, Truthful, Judges;
    LastJudgedAt(events);
    assert Changes(Seeing(tools, p), events) == Changes(tools, events);
    if LastJudged(events).Some? {
      var i :| 0 <= i < |events| && Judges(events[i]) && events[i].before == LastJudged(events).value;
      SameVerdicts(tools, Seeing(tools, p), events[i]);
    }
  }

  /** The transcript vouches for the flag exactly when the safety net ran, or some
      validation in the turn saw the final state and the last validation said the same. */
  lemma VouchedExactly<W(!new)>(
      tools: Tools<W>, model: Model, transcript: seq<Message>, w: W, budget: nat, rounds: seq<Round<W>>)
    requires Converse(tools, model, transcript, w, budget) == Ok(rounds)
    ensures Vouched(tools, model, transcript, w, budget, rounds) <==>
      NetRuns(tools, Events(rounds)) || SawTheEnd(Events(rounds), w)
  {
    hide Converse, Events, NetRuns, ValidFlag, Sound, StateAfter, SawTheEnd;
    if NetRuns(tools, Events(rounds)) {
      NetVouches(tools, model, transcript, w, budget, rounds);
    } else if SawTheEnd(Events(rounds), w) {
      SightVouches(tools, model, transcript, w, budget, rounds);
    } else {
      OthersDisagree(tools, model, transcript, w, budget, rounds);
    }
  }

  lemma NetVouches<W(!new)>(
      tools: Tools<W>, model: Model, transcript: seq<Message>, w: W, budget: nat, rounds: seq<Round<W>>)
    requires NetRuns(tools, Events(rounds))
    ensures Vouched(tools, model, transcript, w, budget, rounds)
  {
    hide Converse, Events, Sound;
    forall p: W -> Preview
      ensures ValidFlag(Seeing(tools, p), Events(rounds), w) <==> Sound(Seeing(tools, p), StateAfter(Events(rounds), w))
    {
      assert Changes(Seeing(tools, p), Events(rounds)) == Changes(tools, Events(rounds));
    }
  }

  lemma SightVouches<W(!new)>(
      tools: Tools<W>, model: Model, transcript: seq<Message>, w: W, budget: nat, rounds: seq<Round<W>>)
    requires Converse(tools, model, transcript, w, budget) == Ok(rounds)
    requires !NetRuns(tools, Events(rounds)) && SawTheEnd(Events(rounds), w)
    ensures Vouched(tools, model, transcript, w, budget, rounds)
  {
    hide Converse, Events, NetRuns, ValidFlag, Sound, StateAfter, Truthful, Judges, Seeing;
    var events := Events(rounds);
    ConverseTruthful(tools, model, transcript, w, budget, rounds);
    SightAgrees(tools, events, w);
    var i: nat :| SightIs(tools, events, w, i);
    forall p: W -> Preview | Converse(Seeing(tools, p), model, transcript, w, budget) == Ok(rounds)
      ensures ValidFlag(Seeing(tools, p), events, w) <==> Sound(Seeing(tools, p), StateAfter(events, w))
    {
      ConverseTruthful(Seeing(tools, p), model, transcript, w, budget, rounds);
      FlagFollowsTranscript(tools, p, events, w);
      SameVerdicts(tools, Seeing(tools, p), events[i]);
    }
  }

  lemma OthersDisagree<W(!new)>(
      tools: Tools<W>, model: Model, transcript: seq<Message>, w: W, budget: nat, rounds: seq<Round<W>>)
    requires Converse(tools, model, transcript, w, budget) == Ok(rounds)
    requires !NetRuns(tools, Events(rounds)) && !SawTheEnd(Events(rounds), w)
    ensures !Vouched(tools, model, transcript, w, budget, rounds)
  {
    hide Converse, Events, NetRuns, ValidFlag, StateAfter, Truthful, Judges, SawTheEnd;
    var events, end := Events(rounds), StateAfter(Events(rounds), w);
    var flag := ValidFlag(tools, events, w);
    ConverseTruthful(tools, model, transcript, w, budget, rounds);
    SightAgrees(tools, events, w);
    if exists i :: 0 <= i < |events| && Judges(events[i]) && events[i].before == end {
      assert Seeing(tools, tools.preview) == tools;
      var i :| 0 <= i < |events| && Judges(events[i]) && events[i].before == end;
      assert !SightIs(tools, events, w, i);
      assert Sound(tools, end) != flag;
    } else {
      var contrary := Preview("", None, "", if flag then Some("") else None);
      var p := x => if x == end then contrary else tools.preview(x);
      ConverseAlike(tools, p, model, transcript, w, budget, rounds);
      ConverseTruthful(Seeing(tools, p), model, transcript, w, budget, rounds);
      FlagFollowsTranscript(tools, p, events, w);
      assert Sound(Seeing(tools, p), end) != flag;
    }
  }

  // ---- two ways the flag goes stale

  const BROKEN := "backend web is gone"

  /** The state is whether the configuration is sound; deleting the backend breaks it. */
  function SmallTools(): Tools<bool> {
    Tools(
      map[VALIDATE := false, "delete_backend" := true],
      name => name,
      text => if text == "{" then Some("unexpected end of JSON input") else None,
      (name, text, w) => (false, Ok("deleted")),
      w => Preview("", None, "", if w then None else Some(BROKEN)))
  }

  function Script(calls: seq<Call>): Model {
    ms =>
      if |ms| == 2 then Ok(Completion(Message(Assistant, "", calls, "", ""), 1))
      else Ok(Completion(Message(Assistant, "Done.", [], "", ""), 1))
  }

  /** What the two rounds of a script with two calls come to. */
  lemma ScriptRuns(a: Call, b: Call)
    ensures
      var e := Invoke(SmallTools(), a, true);
      var f := Invoke(SmallTools(), b, e.after);
      var turn := Converse(SmallTools(), Script([a, b]), Opening("", [], "tidy up"), true, DEFAULT_STEPS);
      turn.Ok? && Events(turn.value) == [e, f]
  {
    var tools, model, opening := SmallTools(), Script([a, b]), Opening("", [], "tidy up");
    var e := Invoke(tools, a, true);
    var f := Invoke(tools, b, e.after);
    TwoCalls(tools, a, b, true);
    hide SmallTools, Invoke, InvokeAll, Answer;
    var first := Round(model(opening).value, [e, f]);
    var later := opening + RoundMessages(first);
    assert |opening| == 2 && |later| == 5;
    var last := Round(model(later).value, []);
    assert last.completion.message.calls == [];
    assert Converse(tools, model, later, f.after, DEFAULT_STEPS - 1) == Ok([last]) by {
      NoCall(tools, f.after);
    }
    assert first.completion.message.calls == [a, b];
    assert Converse(tools, model, opening, true, DEFAULT_STEPS) == Ok([first] + [last]);
    TwoRounds(first, last);
  }

  lemma TwoCalls<W>(tools: Tools<W>, a: Call, b: Call, w: W)
    ensures var e := Invoke(tools, a, w);
            InvokeAll(tools, [a, b], w) == [e, Invoke(tools, b, e.after)]
  {
    hide Invoke;
    assert [a, b][1..] == [b] && [b][1..] == [];
  }

  lemma NoCall<W>(tools: Tools<W>, w: W)
    ensures InvokeAll(tools, [], w) == []
  {
  }

  lemma TwoRounds<W>(first: Round<W>, last: Round<W>)
    requires last.events == []
    ensures Events([first] + [last]) == first.events
  {
    var both := [first] + [last];
    assert both[0] == first && both[1..] == [last] && [last][1..] == [];
    assert Events([last]) == last.events + [];
  }

  lemma DeleteRuns(id: string, w: bool)
    ensures Mutates(SmallTools(), "delete_backend")
    ensures var call := Call(id, "delete_backend", "");
            Invoke(SmallTools(), call, w) == Event(call, w, false, Ok("deleted"))
  {
    hide ToolValidate, TrimSpace;
    TrimSpaceBlank("");
  }

  lemma ValidateRuns(id: string, w: bool)
    ensures var e := Invoke(SmallTools(), Call(id, VALIDATE, ""), w); Judges(e) && e.after == w
  {
    hide ToolValidate, TrimSpace;
    TrimSpaceBlank("");
  }

  lemma ValidateFails(id: string, w: bool)
    ensures var e := Invoke(SmallTools(), Call(id, VALIDATE, "{"), w); e.out.Err? && e.after == w
  {
    hide ToolValidate, TrimSpace;
    TrimSpaceKeeps("{");
  }

  lemma PairFlags<W>(tools: Tools<W>, e: Event<W>, f: Event<W>)
    ensures Changes(tools, [e, f]) <==>
      (Mutates(tools, e.call.name) && e.out.Ok?) || (Mutates(tools, f.call.name) && f.out.Ok?)
    ensures LastJudged([e, f]) ==
      if Judges(f) then Some(f.before) else if Judges(e) then Some(e.before) else None
    ensures AsksValidation([e, f]) <==> e.call.name == VALIDATE || f.call.name == VALIDATE
  {
    hide Changes, LastJudged, Judges, Mutates;
    assert [] + [e] == [e] && [e] + [f] == [e, f];
    assert [e, f][0] == e && [e, f][1] == f;
    FlagsSnoc(tools, [], e);
    FlagsSnoc(tools, [e], f);
    NothingYet(tools, Ok([]));
    NoneJudged<W>();
  }

  lemma NoneJudged<W>()
    ensures LastJudged<W>([]) == None
  {
  }

  /** Validating before the last change leaves the flag true on a broken state. */
  lemma VerdictCanBeStale()
    ensures
      var calls := [Call("1", VALIDATE, ""), Call("2", "delete_backend", "")];
      var turn := Converse(SmallTools(), Script(calls), Opening("", [], "tidy up"), true, DEFAULT_STEPS);
      turn.Ok? &&
      var r := Summary(SmallTools(), turn.value, true, "tidy up");
      r.changed && r.valid && !Sound(SmallTools(), StateAfter(Events(turn.value), true))
  {
    hide Invoke, Reply, Converse, Script, Traces, Events, Changes, AsksValidation, LastJudged, Mutates;
    var a, b := Call("1", VALIDATE, ""), Call("2", "delete_backend", "");
    ScriptRuns(a, b);
    ValidateRuns("1", true);
    DeleteRuns("2", true);
    PairFlags(SmallTools(), Invoke(SmallTools(), a, true), Invoke(SmallTools(), b, true));
  }

  /** A validation whose arguments are not JSON never looks at the state, and still
      keeps the safety net from running. */
  lemma FailedValidationSilencesTheNet()
    ensures
      var calls := [Call("1", "delete_backend", ""), Call("2", VALIDATE, "{")];
      var turn := Converse(SmallTools(), Script(calls), Opening("", [], "tidy up"), true, DEFAULT_STEPS);
      turn.Ok? &&
      var r := Summary(SmallTools(), turn.value, true, "tidy up");
      r.changed && r.valid && !Sound(SmallTools(), StateAfter(Events(turn.value), true))
  {
    hide Invoke, Reply, Converse, Script, Traces, Events, Changes, AsksValidation, LastJudged, Mutates;
    var a, b := Call("1", "delete_backend", ""), Call("2", VALIDATE, "{");
    ScriptRuns(a, b);
    DeleteRuns("1", true);
    ValidateFails("2", false);
    PairFlags(SmallTools(), Invoke(SmallTools(), a, true), Invoke(SmallTools(), b, false));
  }
}
