/** Where operator snippets land in the generated file, and that none is lost,
    repeated or put in another section's place. */
module Snippets {
  import opened Text

  /** The kinds a saved snippet may have, and one for every text that is none of them. */
  datatype Section =
    | GlobalExtra | DefaultsExtra | Listen | Resolvers | Peers | Userlist | Cache | Ring | Mailers
    | HttpErrors | Program | FcgiApp | LogForward | CrtStore | Traces | Raw
    | Unlisted

  predicate ValidSection(k: Section) {
    k != Unlisted
  }

  function Keyword(k: Section): string {
    match k
    case GlobalExtra => "global-extra"
    case DefaultsExtra => "defaults-extra"
    case Listen => "listen"
    case Resolvers => "resolvers"
    case Peers => "peers"
    case Userlist => "userlist"
    case Cache => "cache"
    case Ring => "ring"
    case Mailers => "mailers"
    case HttpErrors => "http-errors"
    case Program => "program"
    case FcgiApp => "fcgi-app"
    case LogForward => "log-forward"
    case CrtStore => "crt-store"
    case Traces => "traces"
    case Raw => "raw"
    case Unlisted => ""
  }

  /** The kind of a stored section type. */
  function SectionOf(text: string): Section {
    var k := ReferencedSection(text);
    if k != Unlisted then k else OtherSection(text)
  }

  function ReferencedSection(text: string): (k: Section)
    ensures k != Unlisted ==> Keyword(k) == text
  {
    if text == "resolvers" then Resolvers
    else if text == "peers" then Peers
    else if text == "userlist" then Userlist
    else if text == "cache" then Cache
    else if text == "ring" then Ring
    else if text == "mailers" then Mailers
    else if text == "program" then Program
    else if text == "fcgi-app" then FcgiApp
    else Unlisted
  }

  function OtherSection(text: string): (k: Section)
    ensures k != Unlisted ==> Keyword(k) == text
  {
    if text == "global-extra" then GlobalExtra
    else if text == "defaults-extra" then DefaultsExtra
    else if text == "listen" then Listen
    else if text == "http-errors" then HttpErrors
    else if text == "log-forward" then LogForward
    else if text == "crt-store" then CrtStore
    else if text == "traces" then Traces
    else if text == "raw" then Raw
    else Unlisted
  }

  predicate Referenced(k: Section) {
    k.Resolvers? || k.Peers? || k.Userlist? || k.Cache? || k.Ring? || k.Mailers? || k.Program? || k.FcgiApp?
  }

  /** Comparing stored section types is comparing kinds. */
  lemma SectionOfKeyword(text: string, k: Section)
    requires ValidSection(k)
    ensures SectionOf(text) == k <==> text == Keyword(k)
  {
    hide ReferencedSection, OtherSection, Keyword;
    if Referenced(k) {
      ReferencedKept(k);
    } else {
      OtherKept(k);
      NotReferenced(k);
    }
  }

  lemma ReferencedKept(k: Section)
    requires Referenced(k)
    ensures ReferencedSection(Keyword(k)) == k
  {
    match k
    case Resolvers => assert ReferencedSection("resolvers") == k;
    case Peers => assert ReferencedSection("peers") == k;
    case Userlist => assert ReferencedSection("userlist") == k;
    case Cache => assert ReferencedSection("cache") == k;
    case Ring => assert ReferencedSection("ring") == k;
    case Mailers => assert ReferencedSection("mailers") == k;
    case Program => assert ReferencedSection("program") == k;
    case FcgiApp => assert ReferencedSection("fcgi-app") == k;
  }

  lemma OtherKept(k: Section)
    requires ValidSection(k) && !Referenced(k)
    ensures OtherSection(Keyword(k)) == k
  {
    match k
    case GlobalExtra => assert OtherSection("global-extra") == k;
    case DefaultsExtra => assert OtherSection("defaults-extra") == k;
    case Listen => assert OtherSection("listen") == k;
    case HttpErrors => assert OtherSection("http-errors") == k;
    case LogForward => assert OtherSection("log-forward") == k;
    case CrtStore => assert OtherSection("crt-store") == k;
    case Traces => assert OtherSection("traces") == k;
    case Raw => assert OtherSection("raw") == k;
  }

  lemma NotReferenced(k: Section)
    requires ValidSection(k) && !Referenced(k)
    ensures ReferencedSection(Keyword(k)) == Unlisted
  {
    match k
    case GlobalExtra => assert ReferencedSection("global-extra") == Unlisted;
    case DefaultsExtra => assert ReferencedSection("defaults-extra") == Unlisted;
    case Listen => assert ReferencedSection("listen") == Unlisted;
    case HttpErrors => assert ReferencedSection("http-errors") == Unlisted;
    case LogForward => assert ReferencedSection("log-forward") == Unlisted;
    case CrtStore => assert ReferencedSection("crt-store") == Unlisted;
    case Traces => assert ReferencedSection("traces") == Unlisted;
    case Raw => assert ReferencedSection("raw") == Unlisted;
  }

  const SECTION_ORDER: seq<Section> :=
    [CrtStore, Resolvers, Userlist, Peers, Cache, Ring, Mailers, LogForward, Program, FcgiApp, Traces]

  /** Kinds that come behind the proxies. */
  const LAST_KINDS: seq<Section> := [Listen, Raw, HttpErrors]

  datatype Snippet = Snippet(name: string, section: Section, arg: string, body: string, enabled: bool)

  /** A defaults section: whether it is enabled and the lines of its own settings. */
  datatype Defaults = Defaults(enabled: bool, own: seq<string>)

  // ---- the lines of one snippet

  /** The lines that carry text, trimmed and indented. */
  function Indented(lines: seq<string>): seq<string> {
    if lines == [] then [] else ["    " + lines[0]] + Indented(lines[1..])
  }

  function BodyLines(body: string): seq<string> {
    Indented(InkLines(Split(body, '\n')))
  }

  function CutLines(lines: seq<string>): (r: seq<string>)
    ensures |r| == |lines|
  {
    if lines == [] then [] else [TrimRight(lines[0], LineEnds)] + CutLines(lines[1..])
  }

  function SnippetLines(s: Snippet): seq<string> {
    match s.section
    case GlobalExtra => ["    # snippet: " + s.name] + BodyLines(s.body)
    case DefaultsExtra => ["    # snippet: " + s.name] + BodyLines(s.body)
    case Raw => ["# snippet: " + s.name] + CutLines(Split(s.body, '\n')) + [""]
    case _ => ["# snippet: " + s.name, Keyword(s.section) + " " + s.arg] + BodyLines(s.body) + [""]
  }

  // ---- the order of the file

  datatype Item = Settings(lines: seq<string>) | Placed(snippet: Snippet)

  function ItemLines(item: Item): seq<string> {
    match item
    case Settings(lines) => lines
    case Placed(s) => SnippetLines(s)
  }

  function FileLines(items: seq<Item>): seq<string> {
    if items == [] then [] else ItemLines(items[0]) + FileLines(items[1..])
  }

  /** The enabled snippets of one kind, in list order. */
  function Enabled(snippets: seq<Snippet>, k: Section): (r: seq<Snippet>)
    ensures forall i :: 0 <= i < |r| ==> r[i].section == k && r[i].enabled
  {
    if snippets == [] then []
    else (if snippets[0].enabled && snippets[0].section == k then [snippets[0]] else []) + Enabled(snippets[1..], k)
  }

  function PlacedAll(snippets: seq<Snippet>): seq<Item> {
    if snippets == [] then [] else [Placed(snippets[0])] + PlacedAll(snippets[1..])
  }

  function KindsPlan(order: seq<Section>, snippets: seq<Snippet>): seq<Item> {
    if order == [] then [] else PlacedAll(Enabled(snippets, order[0])) + KindsPlan(order[1..], snippets)
  }

  function DefaultsPlan(defaults: seq<Defaults>, snippets: seq<Snippet>): seq<Item> {
    if defaults == [] then []
    else
      (if defaults[0].enabled then OneDefaults(defaults[0], snippets) else []) + DefaultsPlan(defaults[1..], snippets)
  }

  function OneDefaults(d: Defaults, snippets: seq<Snippet>): seq<Item> {
    [Settings(d.own)] + PlacedAll(Enabled(snippets, DefaultsExtra)) + [Settings([""])]
  }

  /** The parts of the file that no snippet contributes. */
  datatype Frame = Frame(globals: seq<string>, errors: seq<string>, defaults: seq<Defaults>, proxies: seq<string>)

  function Plan(f: Frame, snippets: seq<Snippet>): seq<Item> {
    [Settings(f.globals)] + PlacedAll(Enabled(snippets, GlobalExtra)) + [Settings([""] + f.errors)]
    + KindsPlan(SECTION_ORDER, snippets) + DefaultsPlan(f.defaults, snippets) + [Settings(f.proxies)]
    + KindsPlan(LAST_KINDS, snippets)
  }

  // ---- the printer

  class Buffer {
    var lines: seq<string>

    constructor ()
      ensures lines == []
    {
      lines := [];
    }

    method Line(s: string)
      modifies this
      ensures lines == old(lines) + [s]
    {
      lines := lines + [s];
    }

    /** Operator text, indented; blank lines are dropped. */
    method RawText(text: string)
      modifies this
      ensures lines == old(lines) + BodyLines(text)
    {
      hide *;
      var parts := Split(text, '\n');
      NoLines(text);
      for i := 0 to |parts|
        invariant lines == old(lines) + Indented(InkLines(parts[..i]))
      {
        assert parts[..i + 1] == parts[..i] + [parts[i]];
        IndentedInkSnoc(parts[..i], parts[i]);
        TrimAfterCut(parts[i]);
        var l := TrimRight(parts[i], LineEnds);
        if TrimSpace(l) == "" {
          continue;
        }
        Line("    " + TrimSpace(l));
      }
      assert parts[..|parts|] == parts;
    }

    /** Text kept line by line, without trailing blanks. */
    method Verbatim(text: string)
      modifies this
      ensures lines == old(lines) + CutLines(Split(text, '\n'))
    {
      hide TrimRight;
      var parts := Split(text, '\n');
      for i := 0 to |parts|
        invariant lines == old(lines) + CutLines(parts[..i])
      {
        assert parts[..i + 1] == parts[..i] + [parts[i]];
        CutLinesSnoc(parts[..i], parts[i]);
        Line(TrimRight(parts[i], LineEnds));
      }
      assert parts[..|parts|] == parts;
    }

    /** Lines that extend a section already open. */
    method RenderInside(s: Snippet)
      modifies this
      ensures lines == old(lines) + (["    # snippet: " + s.name] + BodyLines(s.body))
    {
      hide *;
      Line("    # snippet: " + s.name);
      RawText(s.body);
    }

    method RenderSection(s: Snippet)
      modifies this
      ensures lines == old(lines)
        + (["# snippet: " + s.name, Keyword(s.section) + " " + s.arg] + (BodyLines(s.body) + [""]))
    {
      hide *;
      var title := Keyword(s.section) + " " + s.arg;
      Line("# snippet: " + s.name);
      Line(title);
      RawText(s.body);
      Line("");
    }

    method RenderRaw(s: Snippet)
      modifies this
      ensures lines == old(lines) + (["# snippet: " + s.name] + (CutLines(Split(s.body, '\n')) + [""]))
    {
      hide *;
      Line("# snippet: " + s.name);
      Verbatim(s.body);
      Line("");
    }

    method RenderSnippet(s: Snippet)
      modifies this
      ensures lines == old(lines) + SnippetLines(s)
    {
      hide *;
      SnippetLinesAre(s);
      match s.section {
        case GlobalExtra => RenderInside(s);
        case DefaultsExtra => RenderInside(s);
        case Raw => RenderRaw(s);
        case _ => RenderSection(s);
      }
    }

    /** The loop every kind has. */
    method RenderKind(snippets: seq<Snippet>, k: Section)
      modifies this
      ensures lines == old(lines) + FileLines(PlacedAll(Enabled(snippets, k)))
    {
      hide *;
      NoSnippets(k);
      assert snippets[..0] == [];
      for i := 0 to |snippets|
        invariant lines == old(lines) + FileLines(PlacedAll(Enabled(snippets[..i], k)))
      {
        assert snippets[..i + 1] == snippets[..i] + [snippets[i]];
        PlacedSnoc(snippets[..i], snippets[i], k);
        if !snippets[i].enabled || snippets[i].section != k {
          continue;
        }
        RenderSnippet(snippets[i]);
      }
      assert snippets[..|snippets|] == snippets;
    }

    method RenderSectionSnippets(snippets: seq<Snippet>, order: seq<Section>)
      modifies this
      ensures lines == old(lines) + FileLines(KindsPlan(order, snippets))
    {
      hide *;
      NoKinds(snippets);
      assert order[..0] == [];
      for i := 0 to |order|
        invariant lines == old(lines) + FileLines(KindsPlan(order[..i], snippets))
      {
        assert order[..i + 1] == order[..i] + [order[i]];
        KindsSnoc(order[..i], order[i], snippets);
        FileConcat(KindsPlan(order[..i], snippets), PlacedAll(Enabled(snippets, order[i])));
        RenderKind(snippets, order[i]);
      }
      assert order[..|order|] == order;
    }

    method RenderDefaults(d: Defaults, snippets: seq<Snippet>)
      modifies this
      ensures lines == old(lines) + FileLines(OneDefaults(d, snippets))
    {
      hide *;
      DefaultsLines(d, snippets);
      lines := lines + d.own;
      RenderKind(snippets, DefaultsExtra);
      Line("");
    }

    method Render(f: Frame, snippets: seq<Snippet>)
      modifies this
      ensures lines == old(lines) + FileLines(Plan(f, snippets))
    {
      hide *;
      PlanLines(f, snippets);
      lines := lines + f.globals;
      RenderKind(snippets, GlobalExtra);
      Line("");
      lines := lines + f.errors;
      RenderSectionSnippets(snippets, SECTION_ORDER);
      RenderAllDefaults(f.defaults, snippets);
      lines := lines + f.proxies;
      RenderSectionSnippets(snippets, LAST_KINDS);
    }

    method RenderAllDefaults(defaults: seq<Defaults>, snippets: seq<Snippet>)
      modifies this
      ensures lines == old(lines) + FileLines(DefaultsPlan(defaults, snippets))
    {
      hide *;
      NoDefaults(snippets);
      assert defaults[..0] == [];
      for i := 0 to |defaults|
        invariant lines == old(lines) + FileLines(DefaultsPlan(defaults[..i], snippets))
      {
        assert defaults[..i + 1] == defaults[..i] + [defaults[i]];
        DefaultsSnoc(defaults[..i], defaults[i], snippets);
        if defaults[i].enabled {
          RenderDefaults(defaults[i], snippets);
        }
      }
      assert defaults[..|defaults|] == defaults;
    }
  }

  // ---- appending one more

  lemma {:induction false} IndentedSnoc(lines: seq<string>, line: string)
    ensures Indented(lines + [line]) == Indented(lines) + ["    " + line]
  {
    if lines == [] {
      assert [line][1..] == [];
    } else {
      assert (lines + [line])[1..] == lines[1..] + [line];
      IndentedSnoc(lines[1..], line);
    }
  }

  lemma IndentedInkSnoc(lines: seq<string>, line: string)
    ensures Indented(InkLines(lines + [line])) ==
      Indented(InkLines(lines)) + (if TrimSpace(line) == "" then [] else ["    " + TrimSpace(line)])
  {
    hide TrimSpace, Indented, InkLines;
    InkLinesSnoc(lines, line);
    if TrimSpace(line) == "" {
      assert InkLines(lines) + [] == InkLines(lines);
    } else {
      IndentedSnoc(InkLines(lines), TrimSpace(line));
    }
  }

  lemma NoLines(text: string)
    ensures Indented(InkLines(Split(text, '\n')[..0])) == []
    ensures BodyLines(text) == Indented(InkLines(Split(text, '\n')))
  {
    hide Split;
  }

  lemma SnippetLinesAre(s: Snippet)
    ensures SnippetLines(s) ==
      match s.section
      case GlobalExtra => ["    # snippet: " + s.name] + BodyLines(s.body)
      case DefaultsExtra => ["    # snippet: " + s.name] + BodyLines(s.body)
      case Raw => ["# snippet: " + s.name] + (CutLines(Split(s.body, '\n')) + [""])
      case _ => ["# snippet: " + s.name, Keyword(s.section) + " " + s.arg] + (BodyLines(s.body) + [""])
  {
    hide BodyLines, CutLines, Keyword, Split;
  }

  lemma {:induction false} CutLinesSnoc(lines: seq<string>, line: string)
    ensures CutLines(lines + [line]) == CutLines(lines) + [TrimRight(line, LineEnds)]
  {
    hide TrimRight;
    if lines == [] {
      assert [line][1..] == [];
    } else {
      assert (lines + [line])[1..] == lines[1..] + [line];
      CutLinesSnoc(lines[1..], line);
    }
  }

  /** Cutting a line's end first makes no difference to its trimmed text. */
  lemma TrimAfterCut(l: string)
    ensures TrimSpace(TrimRight(l, LineEnds)) == TrimSpace(l)
  {
    hide TrimSpace, TrimLeft, TrimRight;
    var r := TrimRight(l, LineEnds);
    assert forall k :: 0 <= k < |r| ==> r[k] == l[k];
    TrimSpaceBlank(l);
    TrimSpaceBlank(r);
    if !Blank(l) {
      var ink := TrimLeft(l, Spaces);
      var a := |l| - |ink|;
      InkInside(l);
      assert l[a] == ink[0];
      TrimLeftUnique(r, a, Spaces);
      CutEnd(ink, |r| - a);
      assert r[a..] == ink[..|r| - a];
      TrimSpaceIs(l);
      TrimSpaceIs(r);
    }
  }

  lemma InkInside(l: string)
    requires !Blank(l)
    ensures TrimLeft(l, Spaces) != "" && |l| - |TrimLeft(l, Spaces)| < |TrimRight(l, LineEnds)|
  {
    hide TrimLeft, TrimRight;
    var ink := TrimLeft(l, Spaces);
    var i :| 0 <= i < |l| && !IsSpace(l[i]);
    assert ink != "";
    assert l[|l| - |ink|] == ink[0];
  }

  /** Dropping white space from the end changes nothing for a later trim. */
  lemma CutEnd(s: string, n: nat)
    requires n <= |s| && forall i :: n <= i < |s| ==> IsSpace(s[i])
    ensures TrimRight(s[..n], Spaces) == TrimRight(s, Spaces)
  {
    hide TrimRight;
    var b := |TrimRight(s, Spaces)|;
    assert b > 0 ==> s[b - 1] == TrimRight(s, Spaces)[b - 1];
    assert b <= n;
    TrimRightUnique(s[..n], b, Spaces);
  }

  lemma {:induction false} EnabledConcat(a: seq<Snippet>, b: seq<Snippet>, k: Section)
    ensures Enabled(a + b, k) == Enabled(a, k) + Enabled(b, k)
  {
    if a == [] {
      assert a + b == b;
    } else {
      assert (a + b)[1..] == a[1..] + b;
      EnabledConcat(a[1..], b, k);
    }
  }

  lemma EnabledSnoc(snippets: seq<Snippet>, s: Snippet, k: Section)
    ensures Enabled(snippets + [s], k) ==
      Enabled(snippets, k) + (if s.enabled && s.section == k then [s] else [])
  {
    EnabledConcat(snippets, [s], k);
    assert [s][1..] == [];
  }

  lemma {:induction false} FileConcat(a: seq<Item>, b: seq<Item>)
    ensures FileLines(a + b) == FileLines(a) + FileLines(b)
  {
    if a == [] {
      assert a + b == b;
    } else {
      assert (a + b)[1..] == a[1..] + b;
      FileConcat(a[1..], b);
    }
  }

  lemma FileOne(lines: seq<string>)
    ensures FileLines([Settings(lines)]) == lines
  {
    assert [Settings(lines)][1..] == [];
  }

  lemma {:induction false} PlacedConcat(a: seq<Snippet>, b: seq<Snippet>)
    ensures PlacedAll(a + b) == PlacedAll(a) + PlacedAll(b)
  {
    if a == [] {
      assert a + b == b;
    } else {
      assert (a + b)[1..] == a[1..] + b;
      PlacedConcat(a[1..], b);
    }
  }

  lemma PlacedSnoc(snippets: seq<Snippet>, s: Snippet, k: Section)
    ensures FileLines(PlacedAll(Enabled(snippets + [s], k))) ==
      FileLines(PlacedAll(Enabled(snippets, k))) + (if s.enabled && s.section == k then SnippetLines(s) else [])
  {
    hide SnippetLines, Enabled, PlacedAll, FileLines;
    var front := Enabled(snippets, k);
    EnabledSnoc(snippets, s, k);
    if s.enabled && s.section == k {
      PlacedConcat(front, [s]);
      PlacedOne(s);
      FileConcat(PlacedAll(front), PlacedAll([s]));
    } else {
      assert front + [] == front;
    }
  }

  lemma PlacedOne(s: Snippet)
    ensures FileLines(PlacedAll([s])) == SnippetLines(s)
  {
    hide SnippetLines;
    assert [s][1..] == [] && [Placed(s)][1..] == [];
    assert PlacedAll([s]) == [Placed(s)];
  }

  lemma NoSnippets(k: Section)
    ensures FileLines(PlacedAll(Enabled([], k))) == []
  {
  }

  lemma NoKinds(snippets: seq<Snippet>)
    ensures FileLines(KindsPlan([], snippets)) == []
  {
  }

  lemma DefaultsLines(d: Defaults, snippets: seq<Snippet>)
    ensures FileLines(OneDefaults(d, snippets)) ==
      d.own + FileLines(PlacedAll(Enabled(snippets, DefaultsExtra))) + [""]
  {
    hide FileLines, PlacedAll, Enabled;
    var parts := PlacedAll(Enabled(snippets, DefaultsExtra));
    FileOne(d.own);
    FileOne([""]);
    FileConcat([Settings(d.own)] + parts, [Settings([""])]);
    FileConcat([Settings(d.own)], parts);
  }

  lemma {:induction false} KindsSnoc(order: seq<Section>, k: Section, snippets: seq<Snippet>)
    ensures KindsPlan(order + [k], snippets) == KindsPlan(order, snippets) + PlacedAll(Enabled(snippets, k))
  {
    if order == [] {
      assert [k][1..] == [];
    } else {
      assert (order + [k])[1..] == order[1..] + [k];
      KindsSnoc(order[1..], k, snippets);
    }
  }

  lemma NoDefaults(snippets: seq<Snippet>)
    ensures FileLines(DefaultsPlan([], snippets)) == []
  {
  }

  lemma {:induction false} DefaultsSnoc(defaults: seq<Defaults>, d: Defaults, snippets: seq<Snippet>)
    ensures FileLines(DefaultsPlan(defaults + [d], snippets)) ==
      FileLines(DefaultsPlan(defaults, snippets)) + (if d.enabled then FileLines(OneDefaults(d, snippets)) else [])
  {
    hide OneDefaults, FileLines;
    if defaults == [] {
      assert defaults + [d] == [d] && [d][1..] == [];
      NoDefaults(snippets);
      var one := if d.enabled then OneDefaults(d, snippets) else [];
      assert DefaultsPlan([d], snippets) == one + [] == one;
      assert d.enabled || one == [];
    } else {
      assert (defaults + [d])[1..] == defaults[1..] + [d];
      var here := if defaults[0].enabled then OneDefaults(defaults[0], snippets) else [];
      FileConcat(here, DefaultsPlan(defaults[1..] + [d], snippets));
      FileConcat(here, DefaultsPlan(defaults[1..], snippets));
      DefaultsSnoc(defaults[1..], d, snippets);
    }
  }

  lemma PlanLines(f: Frame, snippets: seq<Snippet>)
    ensures FileLines(Plan(f, snippets)) ==
      f.globals + FileLines(PlacedAll(Enabled(snippets, GlobalExtra))) + [""] + f.errors
      + FileLines(KindsPlan(SECTION_ORDER, snippets)) + FileLines(DefaultsPlan(f.defaults, snippets)) + f.proxies
      + FileLines(KindsPlan(LAST_KINDS, snippets))
  {
    hide FileLines, Enabled, PlacedAll, KindsPlan, DefaultsPlan;
    var g, e, p := [Settings(f.globals)], [Settings([""] + f.errors)], [Settings(f.proxies)];
    var extra, kinds := PlacedAll(Enabled(snippets, GlobalExtra)), KindsPlan(SECTION_ORDER, snippets);
    var defaults, last := DefaultsPlan(f.defaults, snippets), KindsPlan(LAST_KINDS, snippets);
    FileOne(f.globals);
    FileOne([""] + f.errors);
    FileOne(f.proxies);
    FileConcat(g, extra);
    FileConcat(g + extra, e);
    FileConcat(g + extra + e, kinds);
    FileConcat(g + extra + e + kinds, defaults);
    FileConcat(g + extra + e + kinds + defaults, p);
    FileConcat(g + extra + e + kinds + defaults + p, last);
  }

  // ---- where each kind stands

  /** The lines of the file's own parts in a stretch of it, part by part. */
  function Parts(items: seq<Item>): seq<seq<string>> {
    if items == [] then []
    else (if items[0].Settings? then [items[0].lines] else []) + Parts(items[1..])
  }

  /** The own parts of the enabled defaults sections, each with the blank line behind it. */
  function DefaultsParts(defaults: seq<Defaults>): seq<seq<string>> {
    if defaults == [] then []
    else (if defaults[0].enabled then [defaults[0].own, [""]] else []) + DefaultsParts(defaults[1..])
  }

  /** Globals, then the blank line and the error pages. */
  function Opening(f: Frame): seq<seq<string>> {
    [f.globals, [""] + f.errors]
  }

  /** Which own parts of the file a snippet of this kind has above it: one for the
      globals stands inside them, one for defaults inside a defaults section that is
      enabled, three kinds behind the proxies and all others ahead of the defaults. */
  predicate Stands(above: seq<seq<string>>, f: Frame, k: Section) {
    match k
    case GlobalExtra => above == [f.globals]
    case DefaultsExtra =>
      exists n :: 0 <= n < |f.defaults| && f.defaults[n].enabled
        && above == Opening(f) + DefaultsParts(f.defaults[..n]) + [f.defaults[n].own]
    case Listen => above == Opening(f) + DefaultsParts(f.defaults) + [f.proxies]
    case Raw => above == Opening(f) + DefaultsParts(f.defaults) + [f.proxies]
    case HttpErrors => above == Opening(f) + DefaultsParts(f.defaults) + [f.proxies]
    case _ => above == Opening(f)
  }

  predicate AllStand(above: seq<seq<string>>, items: seq<Item>, f: Frame) {
    forall i :: 0 <= i < |items| && items[i].Placed? ==>
      Stands(above + Parts(items[..i]), f, items[i].snippet.section)
  }

  lemma {:induction false} PartsConcat(a: seq<Item>, b: seq<Item>)
    ensures Parts(a + b) == Parts(a) + Parts(b)
  {
    if a == [] {
      assert a + b == b;
    } else {
      assert (a + b)[0] == a[0] && (a + b)[1..] == a[1..] + b;
      PartsConcat(a[1..], b);
    }
  }

  lemma {:induction false} NoParts(items: seq<Item>)
    requires forall i :: 0 <= i < |items| ==> items[i].Placed?
    ensures Parts(items) == []
  {
    if items != [] {
      NoParts(items[1..]);
    }
  }

  lemma StandConcat(above: seq<seq<string>>, a: seq<Item>, b: seq<Item>, f: Frame)
    requires AllStand(above, a, f) && AllStand(above + Parts(a), b, f)
    ensures AllStand(above, a + b, f)
  {
    hide Stands, Parts;
    forall i | 0 <= i < |a + b| && (a + b)[i].Placed?
      ensures Stands(above + Parts((a + b)[..i]), f, (a + b)[i].snippet.section)
    {
      if i < |a| {
        assert (a + b)[..i] == a[..i];
      } else {
        assert (a + b)[..i] == a + b[..i - |a|];
        PartsConcat(a, b[..i - |a|]);
        assert above + Parts(a) + Parts(b[..i - |a|]) == above + (Parts(a) + Parts(b[..i - |a|]));
      }
    }
  }

  lemma SettingsStand(above: seq<seq<string>>, lines: seq<string>, f: Frame)
    ensures AllStand(above, [Settings(lines)], f) && Parts([Settings(lines)]) == [lines]
  {
    hide Stands;
    assert [Settings(lines)][1..] == [];
  }

  lemma {:induction false} PlacedAt(snippets: seq<Snippet>)
    ensures |PlacedAll(snippets)| == |snippets|
    ensures forall i :: 0 <= i < |snippets| ==> PlacedAll(snippets)[i] == Placed(snippets[i])
  {
    if snippets != [] {
      PlacedAt(snippets[1..]);
    }
  }

  lemma PlacedStand(above: seq<seq<string>>, snippets: seq<Snippet>, k: Section, f: Frame)
    requires Stands(above, f, k)
    ensures AllStand(above, PlacedAll(Enabled(snippets, k)), f) && Parts(PlacedAll(Enabled(snippets, k))) == []
  {
    hide Stands;
    var items := PlacedAll(Enabled(snippets, k));
    PlacedAt(Enabled(snippets, k));
    NoParts(items);
    forall i | 0 <= i < |items| ensures Stands(above + Parts(items[..i]), f, items[i].snippet.section) {
      NoParts(items[..i]);
      assert above + [] == above;
    }
  }

  lemma {:induction false} KindsStand(above: seq<seq<string>>, order: seq<Section>, snippets: seq<Snippet>, f: Frame)
    requires forall i :: 0 <= i < |order| ==> Stands(above, f, order[i])
    ensures AllStand(above, KindsPlan(order, snippets), f) && Parts(KindsPlan(order, snippets)) == []
  {
    if order != [] {
      hide Stands, Enabled, PlacedAll, AllStand;
      var here, rest := PlacedAll(Enabled(snippets, order[0])), KindsPlan(order[1..], snippets);
      PlacedStand(above, snippets, order[0], f);
      KindsStand(above, order[1..], snippets, f);
      assert above + [] == above;
      StandConcat(above, here, rest, f);
      PartsConcat(here, rest);
    }
  }

  lemma {:induction false} DefaultsPartsSnoc(defaults: seq<Defaults>, d: Defaults)
    ensures DefaultsParts(defaults + [d]) == DefaultsParts(defaults) + (if d.enabled then [d.own, [""]] else [])
  {
    if defaults == [] {
      assert [d][1..] == [] && defaults + [d] == [d];
    } else {
      assert (defaults + [d])[1..] == defaults[1..] + [d];
      DefaultsPartsSnoc(defaults[1..], d);
    }
  }

  /** The n-th defaults section, below those ahead of it. */
  lemma OneDefaultsStands(snippets: seq<Snippet>, f: Frame, n: nat)
    requires n < |f.defaults| && f.defaults[n].enabled
    ensures AllStand(Opening(f) + DefaultsParts(f.defaults[..n]), OneDefaults(f.defaults[n], snippets), f)
    ensures Parts(OneDefaults(f.defaults[n], snippets)) == [f.defaults[n].own, [""]]
  {
    var d, above := f.defaults[n], Opening(f) + DefaultsParts(f.defaults[..n]);
    assert Stands(above + [d.own], f, DefaultsExtra);
    hide Stands, Enabled, PlacedAll, AllStand, Parts, DefaultsParts, Opening;
    var here := PlacedAll(Enabled(snippets, DefaultsExtra));
    SettingsStand(above, d.own, f);
    PlacedStand(above + [d.own], snippets, DefaultsExtra, f);
    StandConcat(above, [Settings(d.own)], here, f);
    PartsConcat([Settings(d.own)], here);
    SettingsStand(above + ([d.own] + []), [""], f);
    StandConcat(above, [Settings(d.own)] + here, [Settings([""])], f);
    PartsConcat([Settings(d.own)] + here, [Settings([""])]);
  }

  lemma {:induction false} DefaultsStand(snippets: seq<Snippet>, f: Frame, n: nat)
    requires n <= |f.defaults|
    ensures var above, items := Opening(f) + DefaultsParts(f.defaults[..n]), DefaultsPlan(f.defaults[n..], snippets);
            AllStand(above, items, f) && above + Parts(items) == Opening(f) + DefaultsParts(f.defaults)
    decreases |f.defaults| - n
  {
    var above := Opening(f) + DefaultsParts(f.defaults[..n]);
    if n == |f.defaults| {
      assert f.defaults[..n] == f.defaults && f.defaults[n..] == [];
      NothingStands(above, f);
      assert above + [] == above;
    } else {
      hide *;
      var here, rest := DefaultsAt(f.defaults[n], snippets), DefaultsPlan(f.defaults[n + 1..], snippets);
      DefaultsUnfold(f.defaults, snippets, n);
      DefaultsAtStands(snippets, f, n);
      DefaultsStand(snippets, f, n + 1);
      DefaultsJoin(above, here, rest, f);
    }
  }

  function DefaultsAt(d: Defaults, snippets: seq<Snippet>): seq<Item> {
    if d.enabled then OneDefaults(d, snippets) else []
  }

  lemma DefaultsUnfold(defaults: seq<Defaults>, snippets: seq<Snippet>, n: nat)
    requires n < |defaults|
    ensures DefaultsPlan(defaults[n..], snippets)
         == DefaultsAt(defaults[n], snippets) + DefaultsPlan(defaults[n + 1..], snippets)
  {
    hide OneDefaults;
    assert defaults[n..][1..] == defaults[n + 1..];
  }

  lemma DefaultsAtStands(snippets: seq<Snippet>, f: Frame, n: nat)
    requires n < |f.defaults|
    ensures var above, here := Opening(f) + DefaultsParts(f.defaults[..n]), DefaultsAt(f.defaults[n], snippets);
            && AllStand(above, here, f)
            && above + Parts(here) == Opening(f) + DefaultsParts(f.defaults[..n + 1])
  {
    var d := f.defaults[n];
    NothingStands(Opening(f) + DefaultsParts(f.defaults[..n]), f);
    if d.enabled {
      OneDefaultsStands(snippets, f, n);
    }
    hide OneDefaults, AllStand, Opening, Parts, DefaultsParts;
    assert f.defaults[..n + 1] == f.defaults[..n] + [d];
    DefaultsPartsSnoc(f.defaults[..n], d);
  }

  lemma NothingStands(above: seq<seq<string>>, f: Frame)
    ensures AllStand(above, [], f) && Parts([]) == []
  {
  }

  lemma DefaultsJoin(above: seq<seq<string>>, a: seq<Item>, b: seq<Item>, f: Frame)
    requires AllStand(above, a, f) && AllStand(above + Parts(a), b, f)
    ensures AllStand(above, a + b, f) && above + Parts(a + b) == above + Parts(a) + Parts(b)
  {
    hide AllStand, Parts;
    StandConcat(above, a, b, f);
    PartsConcat(a, b);
  }

  /** Every snippet of the file stands where its kind belongs. */
  lemma EachStands(f: Frame, snippets: seq<Snippet>, i: nat)
    requires i < |Plan(f, snippets)| && Plan(f, snippets)[i].Placed?
    ensures Stands(Parts(Plan(f, snippets)[..i]), f, Plan(f, snippets)[i].snippet.section)
  {
    PlanStands(f, snippets);
    hide Plan, Stands, Parts;
    assert [] + Parts(Plan(f, snippets)[..i]) == Parts(Plan(f, snippets)[..i]);
  }

  lemma PlanStands(f: Frame, snippets: seq<Snippet>)
    ensures AllStand([], Plan(f, snippets), f)
  {
    var defaults := DefaultsPlan(f.defaults, snippets);
    var end := Opening(f) + DefaultsParts(f.defaults) + [f.proxies];
    KindsFit(f, end);
    hide Stands, Parts, Enabled, PlacedAll, KindsPlan, DefaultsPlan, DefaultsParts, AllStand, Opening,
         SECTION_ORDER, LAST_KINDS;
    PlacedStand([f.globals], snippets, GlobalExtra, f);
    KindsStand(Opening(f), SECTION_ORDER, snippets, f);
    DefaultsStandAll(snippets, f);
    KindsStand(end, LAST_KINDS, snippets, f);
    PlanJoin(f, PlacedAll(Enabled(snippets, GlobalExtra)), KindsPlan(SECTION_ORDER, snippets), defaults,
             KindsPlan(LAST_KINDS, snippets));
  }

  lemma DefaultsStandAll(snippets: seq<Snippet>, f: Frame)
    ensures var items := DefaultsPlan(f.defaults, snippets);
            AllStand(Opening(f), items, f) && Opening(f) + Parts(items) == Opening(f) + DefaultsParts(f.defaults)
  {
    hide AllStand, Opening, DefaultsPlan, Parts;
    DefaultsStand(snippets, f, 0);
    assert f.defaults[..0] == [] && f.defaults[0..] == f.defaults && Opening(f) + DefaultsParts([]) == Opening(f);
  }

  lemma KindsFit(f: Frame, end: seq<seq<string>>)
    requires end == Opening(f) + DefaultsParts(f.defaults) + [f.proxies]
    ensures Stands([f.globals], f, GlobalExtra)
    ensures forall i :: 0 <= i < |SECTION_ORDER| ==> Stands(Opening(f), f, SECTION_ORDER[i])
    ensures forall i :: 0 <= i < |LAST_KINDS| ==> Stands(end, f, LAST_KINDS[i])
  {
    hide Opening, DefaultsParts;
  }

  lemma Extend(a: seq<Item>, b: seq<Item>, f: Frame, above: seq<seq<string>>, more: seq<seq<string>>)
    requires AllStand([], a, f) && Parts(a) == above && AllStand(above, b, f) && Parts(b) == more
    ensures AllStand([], a + b, f) && Parts(a + b) == above + more
    ensures more == [] ==> Parts(a + b) == above
  {
    hide AllStand, Parts;
    assert [] + above == above;
    StandConcat([], a, b, f);
    PartsConcat(a, b);
  }

  lemma PlanJoin(f: Frame, first: seq<Item>, kinds: seq<Item>, defaults: seq<Item>, last: seq<Item>)
    requires AllStand([f.globals], first, f) && Parts(first) == []
    requires AllStand(Opening(f), kinds, f) && Parts(kinds) == []
    requires AllStand(Opening(f), defaults, f) && Opening(f) + Parts(defaults) == Opening(f) + DefaultsParts(f.defaults)
    requires AllStand(Opening(f) + DefaultsParts(f.defaults) + [f.proxies], last, f)
    ensures AllStand([], [Settings(f.globals)] + first + [Settings([""] + f.errors)] + kinds + defaults
                         + [Settings(f.proxies)] + last, f)
  {
    var g, e, p := [Settings(f.globals)], [Settings([""] + f.errors)], [Settings(f.proxies)];
    assert [f.globals] + [[""] + f.errors] == Opening(f);
    hide Stands, Parts, AllStand, DefaultsParts, Opening;
    SettingsStand([], f.globals, f);
    SettingsStand([f.globals], [""] + f.errors, f);
    SettingsStand(Opening(f) + DefaultsParts(f.defaults), f.proxies, f);
    Extend(g, first, f, [f.globals], []);
    Extend(g + first, e, f, [f.globals], [[""] + f.errors]);
    Extend(g + first + e, kinds, f, Opening(f), []);
    Extend(g + first + e + kinds, defaults, f, Opening(f), Parts(defaults));
    Extend(g + first + e + kinds + defaults, p, f, Opening(f) + DefaultsParts(f.defaults), [f.proxies]);
    Extend(g + first + e + kinds + defaults + p, last, f, Opening(f) + DefaultsParts(f.defaults) + [f.proxies],
           Parts(last));
  }

  // ---- the order of the kinds

  /** The place of a kind among the others. */
  function Rank(k: Section): nat {
    match k
    case GlobalExtra => 0
    case CrtStore => 1
    case Resolvers => 2
    case Userlist => 3
    case Peers => 4
    case Cache => 5
    case Ring => 6
    case Mailers => 7
    case LogForward => 8
    case Program => 9
    case FcgiApp => 10
    case Traces => 11
    case DefaultsExtra => 12
    case Listen => 13
    case Raw => 14
    case HttpErrors => 15
    case Unlisted => 16
  }

  predicate RankedIn(items: seq<Item>, low: nat, high: nat) {
    && (forall i :: 0 <= i < |items| && items[i].Placed? ==> low <= Rank(items[i].snippet.section) <= high)
    && forall i, j :: 0 <= i < j < |items| && items[i].Placed? && items[j].Placed? ==>
         Rank(items[i].snippet.section) <= Rank(items[j].snippet.section)
  }

  lemma RankedConcat(a: seq<Item>, b: seq<Item>, low: nat, mid: nat, next: nat, high: nat)
    requires RankedIn(a, low, mid) && RankedIn(b, next, high) && low <= next && mid <= next && mid <= high
    ensures RankedIn(a + b, low, high)
  {
    hide Rank;
  }

  lemma SettingsRanked(lines: seq<string>, at: nat)
    ensures RankedIn([Settings(lines)], at, at)
  {
  }

  lemma PlacedRanked(snippets: seq<Snippet>, k: Section)
    ensures RankedIn(PlacedAll(Enabled(snippets, k)), Rank(k), Rank(k))
  {
    hide Rank;
    PlacedAt(Enabled(snippets, k));
  }

  lemma {:induction false} KindsRanked(order: seq<Section>, snippets: seq<Snippet>, low: nat, high: nat)
    requires low <= high
    requires forall i :: 0 <= i < |order| ==> low <= Rank(order[i]) <= high
    requires forall i, j :: 0 <= i < j < |order| ==> Rank(order[i]) < Rank(order[j])
    ensures RankedIn(KindsPlan(order, snippets), low, high)
  {
    hide Rank, RankedIn, Enabled, PlacedAll;
    if order == [] {
      NothingRanked(low, high);
    } else {
      var r := Rank(order[0]);
      PlacedRanked(snippets, order[0]);
      KindsRanked(order[1..], snippets, r, high);
      NothingRanked(low, low);
      RankedConcat([], PlacedAll(Enabled(snippets, order[0])), low, low, r, r);
      assert [] + PlacedAll(Enabled(snippets, order[0])) == PlacedAll(Enabled(snippets, order[0]));
      RankedConcat(PlacedAll(Enabled(snippets, order[0])), KindsPlan(order[1..], snippets), low, r, r, high);
    }
  }

  lemma NothingRanked(low: nat, high: nat)
    ensures RankedIn([], low, high)
  {
  }

  lemma {:induction false} DefaultsRanked(defaults: seq<Defaults>, snippets: seq<Snippet>)
    ensures RankedIn(DefaultsPlan(defaults, snippets), 12, 12)
  {
    hide RankedIn, Enabled, PlacedAll;
    NothingRanked(12, 12);
    if defaults != [] {
      var d, here := defaults[0], PlacedAll(Enabled(snippets, DefaultsExtra));
      PlacedRanked(snippets, DefaultsExtra);
      SettingsRanked(d.own, 12);
      SettingsRanked([""], 12);
      RankedConcat([Settings(d.own)], here, 12, 12, 12, 12);
      RankedConcat([Settings(d.own)] + here, [Settings([""])], 12, 12, 12, 12);
      DefaultsRanked(defaults[1..], snippets);
      var one := if d.enabled then OneDefaults(d, snippets) else [];
      RankedConcat(one, DefaultsPlan(defaults[1..], snippets), 12, 12, 12, 12);
    }
  }

  lemma OrdersRanked()
    ensures forall i :: 0 <= i < |SECTION_ORDER| ==> Rank(SECTION_ORDER[i]) == i + 1 <= 11
    ensures forall i :: 0 <= i < |LAST_KINDS| ==> Rank(LAST_KINDS[i]) == i + 13 <= 15
  {
  }

  /** Down the file the kinds follow one another in their order. */
  lemma KindsInOrder(f: Frame, snippets: seq<Snippet>, i: nat, j: nat)
    requires i < j < |Plan(f, snippets)| && Plan(f, snippets)[i].Placed? && Plan(f, snippets)[j].Placed?
    ensures Rank(Plan(f, snippets)[i].snippet.section) <= Rank(Plan(f, snippets)[j].snippet.section)
  {
    PlanRanked(f, snippets);
    hide Plan, Rank;
  }

  lemma PlanRanked(f: Frame, snippets: seq<Snippet>)
    ensures RankedIn(Plan(f, snippets), 0, 15)
  {
    hide RankedIn, Enabled, PlacedAll, KindsPlan, DefaultsPlan, SECTION_ORDER, LAST_KINDS;
    PlacedRanked(snippets, GlobalExtra);
    OrdersRanked();
    KindsRanked(SECTION_ORDER, snippets, 1, 11);
    DefaultsRanked(f.defaults, snippets);
    KindsRanked(LAST_KINDS, snippets, 13, 15);
    RankedJoin(f, PlacedAll(Enabled(snippets, GlobalExtra)), KindsPlan(SECTION_ORDER, snippets),
               DefaultsPlan(f.defaults, snippets), KindsPlan(LAST_KINDS, snippets));
  }

  lemma RankedJoin(f: Frame, first: seq<Item>, kinds: seq<Item>, defaults: seq<Item>, last: seq<Item>)
    requires RankedIn(first, 0, 0) && RankedIn(kinds, 1, 11) && RankedIn(defaults, 12, 12) && RankedIn(last, 13, 15)
    ensures RankedIn([Settings(f.globals)] + first + [Settings([""] + f.errors)] + kinds + defaults
                     + [Settings(f.proxies)] + last, 0, 15)
  {
    hide Rank, RankedIn;
    var g, e, p := [Settings(f.globals)], [Settings([""] + f.errors)], [Settings(f.proxies)];
    SettingsRanked(f.globals, 0);
    SettingsRanked([""] + f.errors, 0);
    SettingsRanked(f.proxies, 12);
    RankedConcat(g, first, 0, 0, 0, 0);
    RankedConcat(g + first, e, 0, 0, 0, 0);
    RankedConcat(g + first + e, kinds, 0, 0, 1, 11);
    RankedConcat(g + first + e + kinds, defaults, 0, 11, 12, 12);
    RankedConcat(g + first + e + kinds + defaults, p, 0, 12, 12, 12);
    RankedConcat(g + first + e + kinds + defaults + p, last, 0, 12, 13, 15);
  }

  // ---- nothing lost, nothing repeated

  /** The snippets in a stretch of the file, in order. */
  function Shown(items: seq<Item>): seq<Snippet> {
    if items == [] then []
    else (if items[0].Placed? then [items[0].snippet] else []) + Shown(items[1..])
  }

  lemma {:induction false} ShownConcat(a: seq<Item>, b: seq<Item>)
    ensures Shown(a + b) == Shown(a) + Shown(b)
  {
    if a == [] {
      assert a + b == b;
    } else {
      var all, rest := a + b, a[1..];
      assert all[0] == a[0] && all[1..] == rest + b;
      ShownConcat(rest, b);
      var here := if a[0].Placed? then [a[0].snippet] else [];
      assert Shown(all) == here + Shown(rest + b);
      assert Shown(a) == here + Shown(rest);
    }
  }

  lemma {:induction false} ShownPlaced(snippets: seq<Snippet>)
    ensures Shown(PlacedAll(snippets)) == snippets
  {
    if snippets != [] {
      ShownPlaced(snippets[1..]);
    }
  }

  /** Filtering one kind out of a run of another. */
  lemma {:induction false} EnabledOfOneKind(snippets: seq<Snippet>, j: Section, k: Section)
    requires forall i :: 0 <= i < |snippets| ==> snippets[i].enabled && snippets[i].section == j
    ensures Enabled(snippets, k) == if j == k then snippets else []
  {
    if snippets != [] {
      EnabledOfOneKind(snippets[1..], j, k);
    }
  }

  predicate Distinct(order: seq<Section>) {
    forall i, j :: 0 <= i < j < |order| ==> order[i] != order[j]
  }

  lemma {:induction false} KindsShow(order: seq<Section>, snippets: seq<Snippet>, k: Section)
    requires Distinct(order)
    ensures Enabled(Shown(KindsPlan(order, snippets)), k) == if k in order then Enabled(snippets, k) else []
  {
    hide Enabled, Shown, PlacedAll;
    if order == [] {
      ShownNothing(k);
    } else {
      var here, rest := Enabled(snippets, order[0]), KindsPlan(order[1..], snippets);
      ShownConcat(PlacedAll(here), rest);
      ShownPlaced(here);
      EnabledConcat(here, Shown(rest), k);
      EnabledOfOneKind(here, order[0], k);
      KindsShow(order[1..], snippets, k);
      assert k == order[0] ==> k !in order[1..];
      assert k in order <==> k == order[0] || k in order[1..];
    }
  }

  lemma ShownNothing(k: Section)
    ensures Enabled(Shown([]), k) == []
  {
  }

  function Times(snippets: seq<Snippet>, n: nat): seq<Snippet> {
    if n == 0 then [] else snippets + Times(snippets, n - 1)
  }

  function EnabledSections(defaults: seq<Defaults>): nat {
    if defaults == [] then 0 else (if defaults[0].enabled then 1 else 0) + EnabledSections(defaults[1..])
  }

  lemma {:induction false} DefaultsShow(defaults: seq<Defaults>, snippets: seq<Snippet>, k: Section)
    ensures Enabled(Shown(DefaultsPlan(defaults, snippets)), k) ==
      if k == DefaultsExtra then Times(Enabled(snippets, k), EnabledSections(defaults)) else []
  {
    if defaults != [] {
      var rest := DefaultsPlan(defaults[1..], snippets);
      DefaultsShow(defaults[1..], snippets, k);
      if defaults[0].enabled {
        var here := Enabled(snippets, DefaultsExtra);
        ShownConcat(OneDefaults(defaults[0], snippets), rest);
        OneDefaultsShows(defaults[0], snippets);
        EnabledConcat(here, Shown(rest), k);
        EnabledOfOneKind(here, DefaultsExtra, k);
      } else {
        assert DefaultsPlan(defaults, snippets) == rest;
      }
    }
  }

  lemma OneDefaultsShows(d: Defaults, snippets: seq<Snippet>)
    ensures Shown(OneDefaults(d, snippets)) == Enabled(snippets, DefaultsExtra)
  {
    var here := Enabled(snippets, DefaultsExtra);
    ShowsNone(d.own);
    ShowsNone([""]);
    ShownConcat([Settings(d.own)] + PlacedAll(here), [Settings([""])]);
    ShownConcat([Settings(d.own)], PlacedAll(here));
    ShownPlaced(here);
  }

  lemma ShowsNone(lines: seq<string>)
    ensures Shown([Settings(lines)]) == []
  {
    assert [Settings(lines)][1..] == [];
  }

  lemma PlanShows(f: Frame, snippets: seq<Snippet>)
    ensures Shown(Plan(f, snippets)) ==
      Shown(KindsPlan([GlobalExtra], snippets)) + Shown(KindsPlan(SECTION_ORDER, snippets))
      + Shown(DefaultsPlan(f.defaults, snippets)) + Shown(KindsPlan(LAST_KINDS, snippets))
  {
    var kinds, defaults := KindsPlan(SECTION_ORDER, snippets), DefaultsPlan(f.defaults, snippets);
    var last := KindsPlan(LAST_KINDS, snippets);
    var first := KindsPlan([GlobalExtra], snippets);
    FirstKind(snippets);
    hide Shown, KindsPlan, DefaultsPlan, Enabled, PlacedAll;
    var g, e, p := [Settings(f.globals)], [Settings([""] + f.errors)], [Settings(f.proxies)];
    ShowsNone(f.globals);
    ShowsNone([""] + f.errors);
    ShowsNone(f.proxies);
    ShownConcat(g, first);
    ShownConcat(g + first, e);
    ShownConcat(g + first + e, kinds);
    ShownConcat(g + first + e + kinds, defaults);
    ShownConcat(g + first + e + kinds + defaults, p);
    ShownConcat(g + first + e + kinds + defaults + p, last);
  }

  lemma EnabledFour(a: seq<Snippet>, b: seq<Snippet>, c: seq<Snippet>, d: seq<Snippet>, k: Section)
    ensures Enabled(a + b + c + d, k) == Enabled(a, k) + Enabled(b, k) + Enabled(c, k) + Enabled(d, k)
  {
    hide Enabled;
    EnabledConcat(a + b + c, d, k);
    EnabledConcat(a + b, c, k);
    EnabledConcat(a, b, k);
  }

  lemma FirstKind(snippets: seq<Snippet>)
    ensures KindsPlan([GlobalExtra], snippets) == PlacedAll(Enabled(snippets, GlobalExtra))
  {
    assert [GlobalExtra][1..] == [];
    assert KindsPlan([], snippets) == [];
  }

  lemma OnlyOne(one: seq<Snippet>)
    ensures one + [] + [] + [] == [] + one + [] + [] == [] + [] + one + [] == [] + [] + [] + one == one
  {
  }

  lemma OrdersDistinct()
    ensures Distinct([GlobalExtra]) && Distinct(SECTION_ORDER) && Distinct(LAST_KINDS)
  {
  }

  /** Every listed kind but the one for defaults has one place in the file. */
  lemma KindPlace(k: Section)
    ensures k in SECTION_ORDER <==> Early(k)
    ensures k in LAST_KINDS <==> k.Listen? || k.Raw? || k.HttpErrors?
    ensures k in [GlobalExtra] <==> k.GlobalExtra?
  {
    EarlyPlace(k);
    hide SECTION_ORDER;
    assert LAST_KINDS[0] == Listen && LAST_KINDS[1] == Raw && LAST_KINDS[2] == HttpErrors;
  }

  predicate Early(k: Section) {
    !k.GlobalExtra? && !k.DefaultsExtra? && !k.Listen? && !k.Raw? && !k.HttpErrors? && k != Unlisted
  }

  lemma EarlyPlace(k: Section)
    ensures k in SECTION_ORDER <==> Early(k)
  {
    if Early(k) {
      EarlyListed(k);
    }
    assert forall i :: 0 <= i < |SECTION_ORDER| ==> Early(SECTION_ORDER[i]);
  }

  lemma EarlyListed(k: Section)
    requires Early(k)
    ensures k in SECTION_ORDER
  {
    match k
    case CrtStore => assert SECTION_ORDER[0] == k;
    case Resolvers => assert SECTION_ORDER[1] == k;
    case Userlist => assert SECTION_ORDER[2] == k;
    case Peers => assert SECTION_ORDER[3] == k;
    case Cache => assert SECTION_ORDER[4] == k;
    case Ring => assert SECTION_ORDER[5] == k;
    case Mailers => assert SECTION_ORDER[6] == k;
    case LogForward => assert SECTION_ORDER[7] == k;
    case Program => assert SECTION_ORDER[8] == k;
    case FcgiApp => assert SECTION_ORDER[9] == k;
    case Traces => assert SECTION_ORDER[10] == k;
  }

  /** For every kind, the file shows the enabled snippets of that kind once, in list
      order; those that extend defaults once for every enabled defaults section; and
      those of a kind that is not listed not at all. */
  lemma SnippetsConserved(f: Frame, snippets: seq<Snippet>, k: Section)
    ensures Enabled(Shown(Plan(f, snippets)), k) ==
      if !ValidSection(k) then []
      else if k == DefaultsExtra then Times(Enabled(snippets, k), EnabledSections(f.defaults))
      else Enabled(snippets, k)
  {
    hide Enabled, Shown, Plan, DefaultsPlan, KindsPlan, Times, EnabledSections, Distinct, SECTION_ORDER, LAST_KINDS;
    PlanShows(f, snippets);
    EnabledFour(Shown(KindsPlan([GlobalExtra], snippets)), Shown(KindsPlan(SECTION_ORDER, snippets)),
                Shown(DefaultsPlan(f.defaults, snippets)), Shown(KindsPlan(LAST_KINDS, snippets)), k);
    OrdersDistinct();
    KindsShow([GlobalExtra], snippets, k);
    KindsShow(SECTION_ORDER, snippets, k);
    DefaultsShow(f.defaults, snippets, k);
    KindsShow(LAST_KINDS, snippets, k);
    KindPlace(k);
    OnlyOne(if k.DefaultsExtra? then Times(Enabled(snippets, k), EnabledSections(f.defaults))
            else Enabled(snippets, k));
  }

  /** Counted: a disabled snippet never appears, an enabled one as often as it is in
      the list, or that many times for every enabled defaults section. */
  lemma SnippetsCounted(f: Frame, snippets: seq<Snippet>, s: Snippet)
    ensures multiset(Shown(Plan(f, snippets)))[s] ==
      if !s.enabled || !ValidSection(s.section) then 0
      else if s.section == DefaultsExtra then EnabledSections(f.defaults) * multiset(snippets)[s]
      else multiset(snippets)[s]
  {
    var shown := Shown(Plan(f, snippets));
    PlanEnabled(f, snippets);
    hide Plan, Shown, Enabled;
    if s.enabled {
      SnippetsConserved(f, snippets, s.section);
      CountEnabled(shown, s);
      CountEnabled(snippets, s);
      CountTimes(Enabled(snippets, s.section), EnabledSections(f.defaults), s);
    } else {
      CountAbsent(shown, s);
    }
  }

  lemma {:induction false} CountEnabled(snippets: seq<Snippet>, s: Snippet)
    requires s.enabled
    ensures multiset(Enabled(snippets, s.section))[s] == multiset(snippets)[s]
  {
    if snippets != [] {
      assert snippets == [snippets[0]] + snippets[1..];
      CountEnabled(snippets[1..], s);
    }
  }

  lemma {:induction false} CountAbsent(snippets: seq<Snippet>, s: Snippet)
    requires forall i :: 0 <= i < |snippets| ==> snippets[i] != s
    ensures multiset(snippets)[s] == 0
  {
    if snippets != [] {
      assert snippets == [snippets[0]] + snippets[1..];
      CountAbsent(snippets[1..], s);
    }
  }

  lemma {:induction false} CountTimes(snippets: seq<Snippet>, n: nat, s: Snippet)
    ensures multiset(Times(snippets, n))[s] == n * multiset(snippets)[s]
  {
    if n > 0 {
      var m := multiset(snippets)[s];
      CountTimes(snippets, n - 1, s);
      assert multiset(snippets + Times(snippets, n - 1)) == multiset(snippets) + multiset(Times(snippets, n - 1));
      assert n * m == m + (n - 1) * m;
    }
  }

  /** Everything shown is enabled. */
  lemma PlanEnabled(f: Frame, snippets: seq<Snippet>)
    ensures forall i :: 0 <= i < |Shown(Plan(f, snippets))| ==> Shown(Plan(f, snippets))[i].enabled
  {
    KindsEnabled(SECTION_ORDER, snippets);
    KindsEnabled(LAST_KINDS, snippets);
    DefaultsEnabled(f.defaults, snippets);
    AllEnabled(Enabled(snippets, GlobalExtra));
    hide KindsPlan, DefaultsPlan, Enabled, PlacedAll, Shown, OnlyEnabled, SECTION_ORDER, LAST_KINDS;
    var first, kinds := PlacedAll(Enabled(snippets, GlobalExtra)), KindsPlan(SECTION_ORDER, snippets);
    var defaults, last := DefaultsPlan(f.defaults, snippets), KindsPlan(LAST_KINDS, snippets);
    var g, e, p := [Settings(f.globals)], [Settings([""] + f.errors)], [Settings(f.proxies)];
    SettingsEnabled(f.globals);
    SettingsEnabled([""] + f.errors);
    SettingsEnabled(f.proxies);
    EnabledBoth(g, first);
    EnabledBoth(g + first, e);
    EnabledBoth(g + first + e, kinds);
    EnabledBoth(g + first + e + kinds, defaults);
    EnabledBoth(g + first + e + kinds + defaults, p);
    EnabledBoth(g + first + e + kinds + defaults + p, last);
    ShownEnabled(Plan(f, snippets));
  }

  lemma SettingsEnabled(lines: seq<string>)
    ensures OnlyEnabled([Settings(lines)])
  {
  }

  lemma EnabledBoth(a: seq<Item>, b: seq<Item>)
    requires OnlyEnabled(a) && OnlyEnabled(b)
    ensures OnlyEnabled(a + b)
  {
  }

  predicate OnlyEnabled(items: seq<Item>) {
    forall i :: 0 <= i < |items| && items[i].Placed? ==> items[i].snippet.enabled
  }

  lemma {:induction false} AllEnabled(snippets: seq<Snippet>)
    requires forall i :: 0 <= i < |snippets| ==> snippets[i].enabled
    ensures OnlyEnabled(PlacedAll(snippets))
  {
    if snippets != [] {
      AllEnabled(snippets[1..]);
    }
  }

  lemma {:induction false} KindsEnabled(order: seq<Section>, snippets: seq<Snippet>)
    ensures OnlyEnabled(KindsPlan(order, snippets))
  {
    if order != [] {
      AllEnabled(Enabled(snippets, order[0]));
      KindsEnabled(order[1..], snippets);
    }
  }

  lemma {:induction false} DefaultsEnabled(defaults: seq<Defaults>, snippets: seq<Snippet>)
    ensures OnlyEnabled(DefaultsPlan(defaults, snippets))
  {
    if defaults != [] {
      AllEnabled(Enabled(snippets, DefaultsExtra));
      DefaultsEnabled(defaults[1..], snippets);
    }
  }

  lemma {:induction false} ShownEnabled(items: seq<Item>)
    requires OnlyEnabled(items)
    ensures forall i :: 0 <= i < |Shown(items)| ==> Shown(items)[i].enabled
  {
    if items != [] {
      ShownEnabled(items[1..]);
    }
  }

  // ---- operator text is kept

  lemma {:induction false} IndentedEach(lines: seq<string>)
    ensures |Indented(lines)| == |lines|
    ensures forall i :: 0 <= i < |lines| ==> Indented(lines)[i] == "    " + lines[i]
  {
    if lines != [] {
      IndentedEach(lines[1..]);
    }
  }

  predicate TrimmedOf(l: string, lines: seq<string>) {
    exists k :: 0 <= k < |lines| && l == TrimSpace(lines[k])
  }

  lemma TrimmedCons(l: string, lines: seq<string>)
    requires lines != []
    ensures TrimmedOf(l, lines) <==> l == TrimSpace(lines[0]) || TrimmedOf(l, lines[1..])
  {
    hide TrimSpace;
    if TrimmedOf(l, lines[1..]) {
      var k :| 0 <= k < |lines[1..]| && l == TrimSpace(lines[1..][k]);
      assert l == TrimSpace(lines[k + 1]);
    }
    if TrimmedOf(l, lines) {
      var k :| 0 <= k < |lines| && l == TrimSpace(lines[k]);
      assert k > 0 ==> l == TrimSpace(lines[1..][k - 1]);
    }
  }

  lemma {:induction false} InkLinesAre(lines: seq<string>, l: string)
    ensures l in InkLines(lines) <==> l != "" && TrimmedOf(l, lines)
  {
    hide TrimSpace;
    if lines != [] {
      InkLinesAre(lines[1..], l);
      TrimmedCons(l, lines);
      var t := TrimSpace(lines[0]);
      var front, rest := if t == "" then [] else [t], InkLines(lines[1..]);
      assert InkLines(lines) == front + rest;
      assert l in front + rest <==> l in front || l in rest;
      assert l in front <==> t != "" && l == t;
    }
  }

  /** The printed body: every line of the text that is not blank, trimmed, behind four
      spaces, and no other line. */
  lemma BodyHolds(body: string, l: string)
    ensures l in BodyLines(body) <==> IsBodyLine(l, Split(body, '\n'))
  {
    hide Split, TrimSpace, Indented, InkLines, Blank;
    var lines := Split(body, '\n');
    var ink := InkLines(lines);
    IndentedEach(ink);
    if l in BodyLines(body) {
      var i :| 0 <= i < |BodyLines(body)| && BodyLines(body)[i] == l;
      InkLinesAre(lines, ink[i]);
      var k :| 0 <= k < |lines| && ink[i] == TrimSpace(lines[k]);
      TrimSpaceBlank(lines[k]);
      assert !Blank(lines[k]) && l == "    " + TrimSpace(lines[k]);
    }
    if IsBodyLine(l, lines) {
      var k :| 0 <= k < |lines| && !Blank(lines[k]) && l == "    " + TrimSpace(lines[k]);
      TrimSpaceBlank(lines[k]);
      InkLinesAre(lines, TrimSpace(lines[k]));
      var i :| 0 <= i < |ink| && ink[i] == TrimSpace(lines[k]);
      assert BodyLines(body)[i] == l;
    }
  }

  predicate IsBodyLine(l: string, lines: seq<string>) {
    exists k :: 0 <= k < |lines| && !Blank(lines[k]) && l == "    " + TrimSpace(lines[k])
  }

  lemma TrimIndented(t: string)
    requires t != "" && !IsSpace(t[0]) && !IsSpace(t[|t| - 1])
    ensures TrimSpace("    " + t) == t
  {
    hide TrimLeft, TrimRight, TrimSpace;
    var s := "    " + t;
    TrimSpaceIs(s);
    assert s[4..] == t && s[4] == t[0];
    TrimLeftUnique(s, 4, Spaces);
    TrimRightUnique(t, |t|, Spaces);
  }

  lemma {:induction false} InkOfIndented(lines: seq<string>)
    ensures InkLines(Indented(InkLines(lines))) == InkLines(lines)
  {
    hide TrimSpace, TrimLeft, TrimRight;
    if lines != [] {
      InkOfIndented(lines[1..]);
      var t, rest := TrimSpace(lines[0]), InkLines(lines[1..]);
      if t != "" {
        InkEnds(lines[0]);
        TrimIndented(t);
        assert InkLines(lines)[1..] == rest;
        assert Indented(InkLines(lines))[1..] == Indented(rest);
      } else {
        assert InkLines(lines) == rest;
      }
    }
  }

  predicate OneLine(s: string) {
    '\n' !in s
  }

  lemma {:induction false} SplitGivesLines(s: string)
    ensures forall k :: 0 <= k < |Split(s, '\n')| ==> OneLine(Split(s, '\n')[k])
  {
    if s != "" {
      SplitGivesLines(s[1..]);
    }
  }

  lemma TrimmedLine(l: string)
    requires OneLine(l)
    ensures OneLine("    " + TrimSpace(l))
  {
    hide TrimLeft, TrimRight;
    var left := TrimLeft(l, Spaces);
    TrimSpaceIs(l);
    assert forall i :: 0 <= i < |left| ==> left[i] == l[|l| - |left| + i];
    assert forall i :: 0 <= i < |TrimSpace(l)| ==> TrimSpace(l)[i] == left[i];
  }

  lemma {:induction false} IndentedLines(lines: seq<string>)
    requires forall k :: 0 <= k < |lines| ==> OneLine(lines[k])
    ensures forall k :: 0 <= k < |Indented(InkLines(lines))| ==> OneLine(Indented(InkLines(lines))[k])
  {
    hide TrimSpace, OneLine;
    if lines != [] {
      TrimmedLine(lines[0]);
      IndentedLines(lines[1..]);
      var rest := InkLines(lines[1..]);
      if TrimSpace(lines[0]) == "" {
        assert InkLines(lines) == rest;
      } else {
        assert InkLines(lines)[1..] == rest;
      }
    }
  }

  /** Text taken back from the file prints the same lines again: nothing an operator
      wrote is lost but blank lines and the blanks around each line. */
  lemma BodyKept(body: string)
    ensures InkLines(BodyLines(body)) == InkLines(Split(body, '\n'))
    ensures BodyLines(Join(BodyLines(body), "\n")) == BodyLines(body)
  {
    hide Split, InkLines, Indented, TrimSpace;
    var lines := Split(body, '\n');
    InkOfIndented(lines);
    SplitGivesLines(body);
    IndentedLines(lines);
    if BodyLines(body) != [] {
      assert "\n" == ['\n'];
      SplitJoin(BodyLines(body), '\n');
    } else {
      EmptyBody();
    }
  }

  lemma EmptyBody()
    ensures BodyLines("") == []
  {
    assert [""][1..] == [];
    assert Split("", '\n') == [""];
    TrimSpaceBlank("");
    assert InkLines([""]) == [];
  }
}
