/** The places where the generated text names files: `errorfile` lines and the
    certificates of `bind` lines. */
module References {
  import opened Wrappers
  import opened Text
  import opened ErrorPages
  import opened Publish

  /** Generated text, with every generated path kept apart. */
  datatype Token =
    | Plain(text: string)
    | PageRef(name: string)   // filepath.Join of the error page directory and a file
    | CertRef(name: string)   // filepath.Join of the certificate directory and a file
    | CertDir                 // the certificate directory itself, ended by a slash

  // ---- white space around generated paths

  /** Text that ends in white space, or nothing. */
  predicate Closed(t: Token) {
    t.Plain? && (t.text == "" || IsSpace(t.text[|t.text| - 1]))
  }

  /** The text starts with white space, or what follows it does. */
  predicate Opens(tokens: seq<Token>, after: bool) {
    if tokens == [] then after
    else tokens[0].Plain? && if tokens[0].text == "" then Opens(tokens[1..], after) else IsSpace(tokens[0].text[0])
  }

  /** White space stands at every boundary between tokens, and at the last one if what
      follows does not start with it. */
  predicate Delimited(tokens: seq<Token>, after: bool) {
    tokens != [] ==> Delimited(tokens[1..], after) && (Closed(tokens[0]) || Opens(tokens[1..], after))
  }

  lemma {:induction false} DelimitedConcat(a: seq<Token>, b: seq<Token>, after: bool)
    requires Delimited(a, Opens(b, after)) && Delimited(b, after)
    ensures Delimited(a + b, after) && Opens(a + b, after) == Opens(a, Opens(b, after))
  {
    if a == [] {
      assert a + b == b;
    } else {
      assert (a + b)[0] == a[0] && (a + b)[1..] == a[1..] + b;
      DelimitedConcat(a[1..], b, after);
    }
  }

  lemma {:induction false} DelimitedAnyway(a: seq<Token>, after: bool)
    requires Delimited(a, false)
    ensures Delimited(a, after) && (Opens(a, false) ==> Opens(a, after))
  {
    if a != [] {
      DelimitedAnyway(a[1..], after);
      OpensAnyway(a[1..], after);
      OpensAnyway(a, after);
    }
  }

  lemma {:induction false} OpensAnyway(a: seq<Token>, after: bool)
    ensures Opens(a, false) ==> Opens(a, after)
  {
    if a != [] {
      OpensAnyway(a[1..], after);
    }
  }

  /** Text that ends in white space can be followed by anything delimited. */
  lemma DelimitedJoin(a: seq<Token>, b: seq<Token>, after: bool)
    requires Delimited(a, false) && Delimited(b, after)
    ensures Delimited(a + b, after)
  {
    DelimitedAnyway(a, Opens(b, after));
    DelimitedConcat(a, b, after);
  }

  /** One piece of text; a further word; a generated path behind a word. */
  lemma DelimitedText(text: string)
    ensures text == "" || IsSpace(text[|text| - 1]) ==> Delimited([Plain(text)], false)
    ensures Delimited([Plain(text)], true)
    ensures text != "" && IsSpace(text[0]) ==> Opens([Plain(text)], true)
  {
    assert [Plain(text)][1..] == [];
  }

  lemma DelimitedPath(word: string, ref: Token)
    requires word != "" && IsSpace(word[|word| - 1])
    ensures Delimited([Plain(word), ref], true)
    ensures IsSpace(word[0]) ==> Opens([Plain(word), ref], true)
    ensures Delimited([Plain(word), ref, Plain("\n")], false)
  {
    assert [Plain(word), ref][1..] == [ref] && [ref][1..] == [];
    var line := [Plain(word), ref, Plain("\n")];
    assert line[1..] == [ref, Plain("\n")] && [ref, Plain("\n")][1..] == [Plain("\n")];
    assert [Plain("\n")][1..] == [];
  }

  // ---- http-errors sections

  /** Some enabled page is deployed under this name. */
  predicate NamesPage(pages: seq<ErrorPage>, name: string) {
    exists k :: 0 <= k < |pages| && pages[k].enabled && FileName(pages[k]) == name
  }

  /** The enabled pages of a group, in list order. */
  function EnabledOf(pages: seq<ErrorPage>, group: string): seq<ErrorPage> {
    if pages == [] then []
    else
      var last := pages[|pages| - 1];
      EnabledOf(pages[..|pages| - 1], group) + (if last.enabled && last.group == group then [last] else [])
  }

  lemma EnabledOfSnoc(pages: seq<ErrorPage>, p: ErrorPage, group: string)
    ensures EnabledOf(pages + [p], group) ==
      EnabledOf(pages, group) + (if p.enabled && p.group == group then [p] else [])
  {
    assert (pages + [p])[..|pages|] == pages;
  }

  lemma {:induction false} EnabledOfExactly(pages: seq<ErrorPage>, group: string)
    ensures forall p :: p in EnabledOf(pages, group) <==> p in pages && p.enabled && p.group == group
  {
    if pages != [] {
      EnabledOfExactly(pages[..|pages| - 1], group);
      assert pages == pages[..|pages| - 1] + [pages[|pages| - 1]];
    }
  }

  /** One http-errors section: its header, a line with code and path for each page,
      and an empty line. */
  predicate IsGroupText(out: seq<Token>, group: string, list: seq<ErrorPage>) {
    && |out| == 2 + 3 * |list|
    && out[0] == Plain("http-errors " + group + "\n") && out[|out| - 1] == Plain("\n")
    && forall k :: 0 <= k < |list| ==>
         && out[1 + 3 * k] == Plain("    errorfile " + DecInt(list[k].code) + " ")
         && out[2 + 3 * k] == PageRef(FileName(list[k]))
         && out[3 + 3 * k] == Plain("\n")
  }

  function Flat(parts: seq<seq<Token>>): seq<Token> {
    if parts == [] then [] else Flat(parts[..|parts| - 1]) + parts[|parts| - 1]
  }

  lemma FlatSnoc(parts: seq<seq<Token>>, part: seq<Token>)
    ensures Flat(parts + [part]) == Flat(parts) + part
  {
    assert (parts + [part])[..|parts|] == parts;
  }

  /** A section for each group that has an enabled page, and no other, with all of them. */
  ghost predicate IsErrorsText(out: seq<Token>, pages: seq<ErrorPage>) {
    exists groups: seq<string>, parts: seq<seq<Token>> :: IsErrorsTextBy(out, pages, groups, parts)
  }

  ghost predicate IsErrorsTextBy(out: seq<Token>, pages: seq<ErrorPage>, groups: seq<string>, parts: seq<seq<Token>>) {
    && (forall i, j :: 0 <= i < j < |groups| ==> groups[i] != groups[j])
    && (forall g :: g in groups <==> EnabledOf(pages, g) != [])
    && |parts| == |groups| && out == Flat(parts)
    && forall k :: 0 <= k < |groups| ==> IsGroupText(parts[k], groups[k], EnabledOf(pages, groups[k]))
  }

  method RenderGroup(group: string, list: seq<ErrorPage>) returns (out: seq<Token>)
    ensures IsGroupText(out, group, list)
    ensures Delimited(out, false)
  {
    hide FileName, DecInt, Delimited;
    out := [Plain("http-errors " + group + "\n")];
    DelimitedText("http-errors " + group + "\n");
    for k := 0 to |list|
      invariant |out| == 1 + 3 * k && out[0] == Plain("http-errors " + group + "\n")
      invariant forall j :: 0 <= j < k ==>
        && out[1 + 3 * j] == Plain("    errorfile " + DecInt(list[j].code) + " ")
        && out[2 + 3 * j] == PageRef(FileName(list[j]))
        && out[3 + 3 * j] == Plain("\n")
      invariant Delimited(out, false)
    {
      var line := ErrorFileLine(list[k]);
      DelimitedJoin(out, line, false);
      out := out + line;
    }
    DelimitedText("\n");
    DelimitedJoin(out, [Plain("\n")], false);
    out := out + [Plain("\n")];
  }

  method ErrorFileLine(p: ErrorPage) returns (line: seq<Token>)
    ensures Delimited(line, false)
    ensures line == [Plain("    errorfile " + DecInt(p.code) + " "), PageRef(FileName(p)), Plain("\n")]
  {
    hide FileName, Delimited, DecInt;
    var word := "    errorfile " + DecInt(p.code) + " ";
    DelimitedPath(word, PageRef(FileName(p)));
    line := [Plain(word), PageRef(FileName(p)), Plain("\n")];
  }

  lemma GroupRefs(out: seq<Token>, group: string, list: seq<ErrorPage>)
    requires IsGroupText(out, group, list)
    ensures forall name :: PageRef(name) in out <==> exists p :: p in list && FileName(p) == name
    ensures forall name :: CertRef(name) !in out
    ensures CertDir !in out
  {
    hide FileName, IsGroupText;
    forall t | t in out ensures t.Plain? || exists p :: p in list && t == PageRef(FileName(p)) {
      var i :| 0 <= i < |out| && out[i] == t;
      GroupToken(out, group, list, i);
    }
    forall p | p in list ensures PageRef(FileName(p)) in out {
      var k :| 0 <= k < |list| && list[k] == p;
      GroupPage(out, group, list, k);
    }
  }

  lemma GroupToken(out: seq<Token>, group: string, list: seq<ErrorPage>, i: nat)
    requires IsGroupText(out, group, list) && i < |out|
    ensures out[i].Plain? || exists p :: p in list && out[i] == PageRef(FileName(p))
  {
    hide FileName, DecInt;
    if 0 < i < |out| - 1 {
      var k := (i - 1) / 3;
      assert list[k] in list;
      assert i == 1 + 3 * k || i == 2 + 3 * k || i == 3 + 3 * k;
    }
  }

  lemma GroupPage(out: seq<Token>, group: string, list: seq<ErrorPage>, k: nat)
    requires IsGroupText(out, group, list) && k < |list|
    ensures PageRef(FileName(list[k])) in out
  {
    hide FileName, DecInt;
    assert out[2 + 3 * k] == PageRef(FileName(list[k]));
  }

  /** Every enabled page is named by an errorfile line of its group's section, and no
      other page is. */
  method RenderHttpErrors(pages: seq<ErrorPage>) returns (out: seq<Token>)
    ensures IsErrorsText(out, pages)
    ensures forall name :: PageRef(name) in out <==> NamesPage(pages, name)
    ensures forall name :: CertRef(name) !in out
    ensures CertDir !in out
    ensures Delimited(out, false)
  {
    hide FileName, EnabledOf, NamesPage, Delimited, IsGroupText, SectionsDone, Flat, IsErrorsText, IsErrorsTextBy;
    var filed := FileByGroup(pages);
    out := [];
    ghost var groups, parts: seq<seq<Token>> := [], [];
    NothingDelimited();
    NoSections(pages);
    var keys := filed.Keys;
    while keys != {}
      invariant keys <= filed.Keys
      invariant forall g :: g in groups <==> g in filed && g !in keys
      invariant SectionsDone(groups, parts, pages) && out == Flat(parts)
      invariant Delimited(out, false)
      decreases |keys|
    {
      var g :| g in keys;
      keys := keys - {g};
      var section := RenderGroup(g, filed[g]);
      DelimitedJoin(out, section, false);
      FlatSnoc(parts, section);
      SectionsDoneNext(groups, parts, pages, g, section);
      groups, parts := groups + [g], parts + [section];
      out := out + section;
    }
    SectionsAllDone(out, pages, groups, parts);
    ErrorsRefs(out, pages, groups, parts);
  }

  /** Different groups, each with its section. */
  predicate SectionsDone(groups: seq<string>, parts: seq<seq<Token>>, pages: seq<ErrorPage>) {
    && (forall i, j :: 0 <= i < j < |groups| ==> groups[i] != groups[j])
    && |parts| == |groups|
    && forall k :: 0 <= k < |groups| ==> IsGroupText(parts[k], groups[k], EnabledOf(pages, groups[k]))
  }

  lemma NoSections(pages: seq<ErrorPage>)
    ensures SectionsDone([], [], pages) && Flat([]) == []
  {
  }

  lemma SectionsDoneNext(
      groups: seq<string>, parts: seq<seq<Token>>, pages: seq<ErrorPage>, g: string, section: seq<Token>)
    requires SectionsDone(groups, parts, pages) && g !in groups && IsGroupText(section, g, EnabledOf(pages, g))
    ensures SectionsDone(groups + [g], parts + [section], pages)
    ensures forall h :: h in groups + [g] <==> h in groups || h == g
  {
    hide IsGroupText, EnabledOf;
  }

  lemma SectionsAllDone(out: seq<Token>, pages: seq<ErrorPage>, groups: seq<string>, parts: seq<seq<Token>>)
    requires SectionsDone(groups, parts, pages) && out == Flat(parts)
    requires forall g :: g in groups <==> EnabledOf(pages, g) != []
    ensures IsErrorsTextBy(out, pages, groups, parts) && IsErrorsText(out, pages)
  {
    hide IsGroupText, EnabledOf, Flat;
    assert IsErrorsTextBy(out, pages, groups, parts);
  }

  /** The enabled pages by group. */
  method FileByGroup(pages: seq<ErrorPage>) returns (filed: map<string, seq<ErrorPage>>)
    ensures forall g :: g in filed <==> EnabledOf(pages, g) != []
    ensures forall g :: g in filed ==> filed[g] == EnabledOf(pages, g)
  {
    hide EnabledOf;
    filed := map[];
    NoneEnabled();
    assert pages[..0] == [];
    for i := 0 to |pages|
      invariant forall g :: g in filed <==> EnabledOf(pages[..i], g) != []
      invariant forall g :: g in filed ==> filed[g] == EnabledOf(pages[..i], g)
    {
      var p := pages[i];
      assert pages[..i + 1] == pages[..i] + [p];
      forall g ensures EnabledOf(pages[..i + 1], g) ==
        EnabledOf(pages[..i], g) + (if p.enabled && p.group == g then [p] else [])
      {
        EnabledOfSnoc(pages[..i], p, g);
      }
      if p.enabled {
        filed := filed[p.group := (if p.group in filed then filed[p.group] else []) + [p]];
      }
    }
    assert pages[..|pages|] == pages;
  }

  lemma NothingDelimited()
    ensures Delimited([], false)
  {
  }

  lemma NoneEnabled()
    ensures forall g :: EnabledOf([], g) == []
  {
  }

  lemma {:induction false} FlatHolds(parts: seq<seq<Token>>, t: Token)
    ensures t in Flat(parts) <==> exists k :: 0 <= k < |parts| && t in parts[k]
  {
    if parts != [] {
      FlatHolds(parts[..|parts| - 1], t);
    }
  }

  lemma ErrorsRefs(out: seq<Token>, pages: seq<ErrorPage>, groups: seq<string>, parts: seq<seq<Token>>)
    requires IsErrorsTextBy(out, pages, groups, parts)
    ensures forall name :: PageRef(name) in out <==> NamesPage(pages, name)
    ensures forall name :: CertRef(name) !in out
    ensures CertDir !in out
  {
    hide FileName, EnabledOf, Flat, IsGroupText;
    forall k | 0 <= k < |parts|
      ensures forall name ::
        PageRef(name) in parts[k] <==> exists p :: p in EnabledOf(pages, groups[k]) && FileName(p) == name
      ensures forall name :: CertRef(name) !in parts[k]
      ensures CertDir !in parts[k]
    {
      GroupRefs(parts[k], groups[k], EnabledOf(pages, groups[k]));
    }
    FlatHolds(parts, CertDir);
    forall name ensures PageRef(name) in out <==> NamesPage(pages, name) {
      FlatHolds(parts, PageRef(name));
      PageRefMeans(pages, groups, parts, name);
    }
    forall name ensures CertRef(name) !in out {
      FlatHolds(parts, CertRef(name));
    }
  }

  lemma PageRefMeans(pages: seq<ErrorPage>, groups: seq<string>, parts: seq<seq<Token>>, name: string)
    requires |parts| == |groups| && (forall g :: g in groups <==> EnabledOf(pages, g) != [])
    requires forall k :: 0 <= k < |parts| ==>
      (PageRef(name) in parts[k] <==> exists p :: p in EnabledOf(pages, groups[k]) && FileName(p) == name)
    ensures (exists k :: 0 <= k < |parts| && PageRef(name) in parts[k]) <==> NamesPage(pages, name)
  {
    hide FileName, EnabledOf;
    if k :| 0 <= k < |parts| && PageRef(name) in parts[k] {
      EnabledOfExactly(pages, groups[k]);
      var p :| p in EnabledOf(pages, groups[k]) && FileName(p) == name;
      var i :| 0 <= i < |pages| && pages[i] == p;
    }
    if NamesPage(pages, name) {
      var i :| 0 <= i < |pages| && pages[i].enabled && FileName(pages[i]) == name;
      var g := pages[i].group;
      EnabledOfExactly(pages, g);
      assert pages[i] in EnabledOf(pages, g);
      var k :| 0 <= k < |groups| && groups[k] == g;
      assert PageRef(name) in parts[k];
    }
  }

  // ---- bind lines

  datatype Bind = Bind(
    enabled: bool, listen: string, acceptProxy: bool, transparent: bool, ssl: bool,
    certSource: string, certRef: string, alpn: string, extra: string)

  /** The certificate a TLS bind offers: a stored one, or the whole directory. */
  method BindCert(b: Bind, certs: map<string, Certificate>) returns (ref: Token, warned: bool)
    ensures ref == if b.certSource == "cert" && b.certRef in certs then CertRef(certs[b.certRef].fileName) else CertDir
    ensures warned <==> b.certSource == "cert" && b.certRef !in certs
  {
    ref, warned := CertDir, false;
    if b.certSource == "cert" {
      if b.certRef !in certs {
        warned := true;
      } else {
        ref := CertRef(certs[b.certRef].fileName);
      }
    }
  }

  method AddWord(line: seq<Token>, on: bool, word: string) returns (more: seq<Token>)
    requires Delimited(line, true) && word != "" && IsSpace(word[0])
    ensures Delimited(more, true) && more == line + (if on then [Plain(word)] else [])
  {
    hide Delimited, Opens;
    if !on {
      assert line + [] == line;
      return line;
    }
    DelimitedText(word);
    DelimitedConcat(line, [Plain(word)], true);
    more := line + [Plain(word)];
  }

  method AddRef(line: seq<Token>, on: bool, word: string, ref: Token) returns (more: seq<Token>)
    requires Delimited(line, true)
    requires word != "" && IsSpace(word[0]) && IsSpace(word[|word| - 1])
    ensures Delimited(more, true) && more == line + (if on then [Plain(word), ref] else [])
  {
    hide Delimited, Opens;
    if !on {
      assert line + [] == line;
      return line;
    }
    DelimitedPath(word, ref);
    DelimitedConcat(line, [Plain(word), ref], true);
    more := line + [Plain(word), ref];
  }

  /** The words of a bind line in front of the certificate, the certificate, the rest. */
  function BindFront(b: Bind): seq<Token> {
    [Plain("bind "), Plain(b.listen)]
    + (if b.acceptProxy then [Plain(" accept-proxy")] else [])
    + (if b.transparent then [Plain(" transparent")] else [])
    + (if b.ssl then [Plain(" ssl")] else [])
  }

  function BindCrt(b: Bind, certs: map<string, Certificate>): seq<Token> {
    if !b.ssl then []
    else
      [Plain(" crt "),
       if b.certSource == "cert" && b.certRef in certs then CertRef(certs[b.certRef].fileName) else CertDir]
  }

  predicate IsBindText(line: seq<Token>, b: Bind, certs: map<string, Certificate>) {
    line == BindFront(b) + BindCrt(b, certs)
      + (if b.ssl && !Blank(b.alpn) then [Plain(" alpn " + TrimSpace(b.alpn))] else [])
      + (if !Blank(b.extra) then [Plain(" " + TrimSpace(b.extra))] else [])
  }

  method BindLine(b: Bind, certs: map<string, Certificate>) returns (line: seq<Token>, warned: bool)
    ensures IsBindText(line, b, certs)
    ensures warned <==> b.ssl && b.certSource == "cert" && b.certRef !in certs
    ensures Delimited(line, true)
  {
    hide TrimSpace, Blank, Delimited, Opens;
    TrimSpaceBlank(b.alpn);
    TrimSpaceBlank(b.extra);
    line := BindStart(b.listen);
    line := AddWord(line, b.acceptProxy, " accept-proxy");
    line := AddWord(line, b.transparent, " transparent");
    line := AddWord(line, b.ssl, " ssl");
    var ref, missing := BindCert(b, certs);
    warned := b.ssl && missing;
    line := AddRef(line, b.ssl, " crt ", ref);
    line := AddWord(line, b.ssl && TrimSpace(b.alpn) != "", " alpn " + TrimSpace(b.alpn));
    line := AddWord(line, TrimSpace(b.extra) != "", " " + TrimSpace(b.extra));
  }

  method BindStart(listen: string) returns (line: seq<Token>)
    ensures Delimited(line, true) && line == [Plain("bind "), Plain(listen)]
  {
    hide Delimited, Opens;
    DelimitedText("bind ");
    DelimitedText(listen);
    DelimitedJoin([Plain("bind ")], [Plain(listen)], true);
    line := [Plain("bind ")] + [Plain(listen)];
  }

  /** The renderer's lookup table: for each name, the last stored certificate. */
  method CertsByName(certs: seq<Certificate>) returns (byName: map<string, Certificate>)
    ensures NamesCerts(byName, certs)
  {
    byName := map[];
    for i := 0 to |certs|
      invariant NamesCerts(byName, certs[..i])
    {
      NamesCertsSnoc(byName, certs, i);
      byName := byName[certs[i].name := certs[i]];
    }
    assert certs[..|certs|] == certs;
  }

  /** The last stored certificate of its name. */
  predicate LastNamed(certs: seq<Certificate>, k: nat) {
    k < |certs| && forall j :: k < j < |certs| ==> certs[j].name != certs[k].name
  }

  ghost predicate NamesCerts(byName: map<string, Certificate>, certs: seq<Certificate>) {
    && (forall name :: name in byName <==> exists k :: 0 <= k < |certs| && certs[k].name == name)
    && forall k :: 0 <= k < |certs| && LastNamed(certs, k) ==> byName[certs[k].name] == certs[k]
  }

  lemma NamesCertsSnoc(byName: map<string, Certificate>, certs: seq<Certificate>, i: nat)
    requires i < |certs| && NamesCerts(byName, certs[..i])
    ensures NamesCerts(byName[certs[i].name := certs[i]], certs[..i + 1])
  {
    var front, c := certs[..i], certs[i];
    assert certs[..i + 1] == front + [c];
    hide NamesCerts;
    NamesCertsAdd(byName, front, c);
  }

  lemma NamesCertsAdd(byName: map<string, Certificate>, front: seq<Certificate>, c: Certificate)
    requires NamesCerts(byName, front)
    ensures NamesCerts(byName[c.name := c], front + [c])
  {
    var all, more := front + [c], byName[c.name := c];
    assert all[|front|] == c && forall k :: 0 <= k < |front| ==> all[k] == front[k];
    forall name ensures name in more <==> exists k :: 0 <= k < |all| && all[k].name == name {
      if name in byName {
        var k :| 0 <= k < |front| && front[k].name == name;
        assert all[k].name == name;
      }
    }
    forall k | 0 <= k < |all| && LastNamed(all, k) ensures more[all[k].name] == all[k] {
      if k < |front| {
        assert all[|front|].name != all[k].name;
        assert LastNamed(front, k);
      }
    }
  }

  lemma {:induction false} LastNamedExists(certs: seq<Certificate>, name: string) returns (k: nat)
    requires exists i :: 0 <= i < |certs| && certs[i].name == name
    ensures LastNamed(certs, k) && certs[k].name == name
  {
    var i :| 0 <= i < |certs| && certs[i].name == name;
    k := |certs| - 1;
    while certs[k].name != name
      invariant i <= k < |certs|
      invariant forall j :: k < j < |certs| ==> certs[j].name != name
      decreases k
    {
      k := k - 1;
    }
  }

  // ---- closure

  /** Every generated path has its file in the directories. */
  predicate Resolves(tokens: seq<Token>, pages: Listing, certs: Listing) {
    forall k :: 0 <= k < |tokens| ==>
      match tokens[k]
      case PageRef(name) => name in pages && pages[name].File?
      case CertRef(name) => name in certs && certs[name].File?
      case _ => true
  }

  /** The references of a text that was rendered from these rows. */
  ghost predicate RenderedFrom(tokens: seq<Token>, pages: seq<ErrorPage>, certs: seq<Certificate>) {
    && (forall name :: PageRef(name) in tokens ==> NamesPage(pages, name))
    && (forall name :: CertRef(name) in tokens ==> exists c :: c in certs && c.fileName == name)
  }

  lemma {:induction false} PageIsPublished(pages: seq<ErrorPage>, name: string)
    requires NamesPage(pages, name)
    ensures LastContent(PageFiles(pages), name).Some?
  {
    hide FileName, RawText, LastContent;
    PageFilesNames(pages, name);
    LastContentNames(PageFiles(pages), name);
  }

  lemma NamesPageCons(pages: seq<ErrorPage>, name: string)
    requires pages != []
    ensures NamesPage(pages, name) <==>
      (pages[0].enabled && FileName(pages[0]) == name) || NamesPage(pages[1..], name)
  {
    hide FileName;
    if NamesPage(pages[1..], name) {
      var k :| 0 <= k < |pages[1..]| && pages[1..][k].enabled && FileName(pages[1..][k]) == name;
      assert pages[k + 1].enabled && FileName(pages[k + 1]) == name;
    }
    if NamesPage(pages, name) {
      var k :| 0 <= k < |pages| && pages[k].enabled && FileName(pages[k]) == name;
      assert k > 0 ==> pages[1..][k - 1] == pages[k];
    }
  }

  lemma {:induction false} PageFilesNames(pages: seq<ErrorPage>, name: string)
    ensures name in Names(PageFiles(pages)) <==> NamesPage(pages, name)
  {
    hide FileName, RawText, Names, NamesPage;
    if pages == [] {
      NothingNamed(name);
    } else {
      var rest := PageFiles(pages[1..]);
      PageFilesNames(pages[1..], name);
      NamesPageCons(pages, name);
      if pages[0].enabled {
        NamesCons(Artifact(FileName(pages[0]), RawText(pages[0])), rest);
      } else {
        assert PageFiles(pages) == rest;
      }
    }
  }

  lemma NothingNamed(name: string)
    ensures name !in Names([]) && !NamesPage([], name)
  {
  }

  lemma NamesCons(a: Artifact, rest: seq<Artifact>)
    ensures Names([a] + rest) == {a.name} + Names(rest)
  {
    var all := [a] + rest;
    assert all[0] == a && forall k :: 0 <= k < |rest| ==> all[k + 1] == rest[k];
    forall name | name in Names(all) ensures name in {a.name} + Names(rest) {
      var k :| 0 <= k < |all| && all[k].name == name;
      assert k > 0 ==> rest[k - 1].name == name;
    }
    forall name | name in {a.name} + Names(rest) ensures name in Names(all) {
      if name in Names(rest) {
        var k :| 0 <= k < |rest| && rest[k].name == name;
        assert all[k + 1].name == name;
      } else {
        assert all[0].name == name;
      }
    }
  }

  lemma {:induction false} CertIsPublished(certs: seq<Certificate>, c: Certificate)
    requires c in certs
    ensures c.fileName in Names(CertFiles(certs))
  {
    hide Bundle;
    NamesCons(Artifact(certs[0].fileName, Bundle(certs[0])), CertFiles(certs[1..]));
    if c != certs[0] {
      assert certs == [certs[0]] + certs[1..];
      CertIsPublished(certs[1..], c);
    }
  }

  /** Publishing the rows a text was rendered from leaves no reference dangling. */
  lemma PublishedResolves(
    tokens: seq<Token>, pages: seq<ErrorPage>, certs: seq<Certificate>,
    pages0: Listing, pages1: Listing, certs0: Listing, certs1: Listing,
    stuckPages: set<string>, stuckCerts: set<string>)
    requires RenderedFrom(tokens, pages, certs)
    requires Published(pages0, pages1, PAGE_SUFFIX, PageFiles(pages), stuckPages)
    requires Published(certs0, certs1, CERT_SUFFIX, CertFiles(certs), stuckCerts)
    ensures Resolves(tokens, pages1, certs1)
  {
    hide HasSuffix, LastContent, FileName;
    forall k | 0 <= k < |tokens| ensures
      match tokens[k]
      case PageRef(name) => name in pages1 && pages1[name].File?
      case CertRef(name) => name in certs1 && certs1[name].File?
      case _ => true
    {
      assert tokens[k] in tokens;
      match tokens[k]
      case PageRef(name) =>
        PageIsPublished(pages, name);
      case CertRef(name) =>
        var c :| c in certs && c.fileName == name;
        CertIsPublished(certs, c);
        LastContentNames(CertFiles(certs), name);
      case _ =>
    }
  }

  // ---- the text of the whole file

  /** The renderer only writes whole lines. */
  predicate WholeLines(text: string) {
    text == "" || text[|text| - 1] == '\n'
  }

  type Lines = text: string | WholeLines(text)

  /** A frontend: its lines before the binds, its binds and its lines behind them. */
  datatype Proxy = Proxy(enabled: bool, head: Lines, binds: seq<Bind>, tail: Lines)

  /** Everything else the file is made of: operator text and sections without generated paths. */
  datatype Site = Site(globals: Lines, sections: Lines, proxies: seq<Proxy>, rest: Lines)

  lemma WholeLinesDelimited(text: Lines)
    ensures Delimited([Plain(text)], false)
  {
    DelimitedText(text);
  }

  /** shown are the positions of the enabled binds, in order. */
  predicate ShowsBinds(shown: seq<nat>, binds: seq<Bind>) {
    && (forall k :: 0 <= k < |shown| ==> shown[k] < |binds| && binds[shown[k]].enabled)
    && (forall i, j :: 0 <= i < j < |shown| ==> shown[i] < shown[j])
    && forall i :: 0 <= i < |binds| && binds[i].enabled ==> i in shown
  }

  predicate ShowsProxies(shown: seq<nat>, proxies: seq<Proxy>) {
    && (forall k :: 0 <= k < |shown| ==> shown[k] < |proxies| && proxies[shown[k]].enabled)
    && (forall i, j :: 0 <= i < j < |shown| ==> shown[i] < shown[j])
    && forall i :: 0 <= i < |proxies| && proxies[i].enabled ==> i in shown
  }

  predicate IsBindLine(line: seq<Token>, b: Bind, byName: map<string, Certificate>) {
    && |line| > 2 && line[0] == Plain("    ") && line[|line| - 1] == Plain("\n")
    && IsBindText(line[1..|line| - 1], b, byName)
  }

  /** The lines of a frontend before its binds, a line for each enabled bind, the rest. */
  ghost predicate IsProxyText(out: seq<Token>, p: Proxy, byName: map<string, Certificate>) {
    exists shown: seq<nat>, lines: seq<seq<Token>> :: IsProxyTextBy(out, p, byName, shown, lines)
  }

  ghost predicate IsProxyTextBy(
    out: seq<Token>, p: Proxy, byName: map<string, Certificate>, shown: seq<nat>, lines: seq<seq<Token>>)
  {
    && ShowsBinds(shown, p.binds) && |lines| == |shown|
    && out == [Plain(p.head)] + Flat(lines) + [Plain(p.tail)]
    && forall k :: 0 <= k < |shown| ==> IsBindLine(lines[k], p.binds[shown[k]], byName)
  }

  /** Some enabled TLS bind of the proxy offers this certificate file. */
  predicate Offers(p: Proxy, byName: map<string, Certificate>, name: string) {
    exists j :: 0 <= j < |p.binds| && p.binds[j].enabled && p.binds[j].ssl && p.binds[j].certSource == "cert"
      && p.binds[j].certRef in byName && byName[p.binds[j].certRef].fileName == name
  }

  /** Some enabled TLS bind falls back to the certificate directory. */
  predicate FallsBack(p: Proxy, byName: map<string, Certificate>) {
    exists j :: 0 <= j < |p.binds| && p.binds[j].enabled && p.binds[j].ssl
      && !(p.binds[j].certSource == "cert" && p.binds[j].certRef in byName)
  }

  method RenderProxy(p: Proxy, byName: map<string, Certificate>) returns (out: seq<Token>)
    ensures IsProxyText(out, p, byName)
    ensures Delimited(out, false)
  {
    hide Delimited, WholeLines, IsBindLine, IsBindText, Flat, BindsDone;
    out := [Plain(p.head)];
    WholeLinesDelimited(p.head);
    ghost var shown: seq<nat>, lines: seq<seq<Token>> := [], [];
    NoBinds(p.binds, byName);
    for i := 0 to |p.binds|
      invariant BindsDone(shown, lines, p.binds, byName, i)
      invariant out == [Plain(p.head)] + Flat(lines)
      invariant Delimited(out, false)
    {
      BindsDoneNext(shown, lines, p.binds, byName, i);
      if !p.binds[i].enabled {
        continue;
      }
      var line := RenderBind(p.binds[i], byName);
      DelimitedJoin(out, line, false);
      FlatSnoc(lines, line);
      assert [Plain(p.head)] + Flat(lines) + line == [Plain(p.head)] + (Flat(lines) + line);
      shown, lines := shown + [i], lines + [line];
      out := out + line;
    }
    WholeLinesDelimited(p.tail);
    DelimitedJoin(out, [Plain(p.tail)], false);
    out := out + [Plain(p.tail)];
    BindsAllDone(out, p, byName, shown, lines);
  }

  method RenderBind(b: Bind, byName: map<string, Certificate>) returns (line: seq<Token>)
    ensures IsBindLine(line, b, byName) && Delimited(line, false)
  {
    hide Delimited, IsBindText, IsBindLine;
    var body, _ := BindLine(b, byName);
    BindDelimited(body);
    BindLineIs(body, b, byName);
    line := [Plain("    ")] + body + [Plain("\n")];
  }

  /** The first i binds have their lines. */
  predicate BindsDone(
    shown: seq<nat>, lines: seq<seq<Token>>, binds: seq<Bind>, byName: map<string, Certificate>, i: nat)
  {
    && i <= |binds| && ShowsBinds(shown, binds[..i]) && |lines| == |shown|
    && forall k :: 0 <= k < |shown| ==> IsBindLine(lines[k], binds[shown[k]], byName)
  }

  lemma NoBinds(binds: seq<Bind>, byName: map<string, Certificate>)
    ensures BindsDone([], [], binds, byName, 0) && Flat([]) == []
  {
  }

  lemma BindsDoneNext(
      shown: seq<nat>, lines: seq<seq<Token>>, binds: seq<Bind>, byName: map<string, Certificate>, i: nat)
    requires BindsDone(shown, lines, binds, byName, i) && i < |binds|
    ensures !binds[i].enabled ==> BindsDone(shown, lines, binds, byName, i + 1)
    ensures binds[i].enabled ==> forall line :: IsBindLine(line, binds[i], byName) ==>
      BindsDone(shown + [i], lines + [line], binds, byName, i + 1)
  {
    hide IsBindLine;
    var front := binds[..i];
    assert binds[..i + 1] == front + [binds[i]];
    assert forall k :: 0 <= k < i ==> (k in shown ==> k in shown + [i]);
    assert i in shown + [i];
  }

  lemma BindsAllDone(
      out: seq<Token>, p: Proxy, byName: map<string, Certificate>, shown: seq<nat>, lines: seq<seq<Token>>)
    requires BindsDone(shown, lines, p.binds, byName, |p.binds|)
    requires out == [Plain(p.head)] + Flat(lines) + [Plain(p.tail)]
    ensures IsProxyText(out, p, byName)
  {
    hide IsBindLine, Flat;
    assert p.binds[..|p.binds|] == p.binds;
    assert IsProxyTextBy(out, p, byName, shown, lines);
  }

  lemma BindLineIs(body: seq<Token>, b: Bind, byName: map<string, Certificate>)
    requires IsBindText(body, b, byName)
    ensures IsBindLine([Plain("    ")] + body + [Plain("\n")], b, byName)
  {
    var line := [Plain("    ")] + body + [Plain("\n")];
    assert |body| >= 2;
    assert line[1..|line| - 1] == body;
    hide IsBindText;
  }

  lemma BindDelimited(line: seq<Token>)
    requires Delimited(line, true)
    ensures Delimited([Plain("    ")] + line + [Plain("\n")], false)
  {
    DelimitedText("    ");
    DelimitedJoin([Plain("    ")], line, true);
    DelimitedText("\n");
    assert Opens([Plain("\n")], false);
    DelimitedConcat([Plain("    ")] + line, [Plain("\n")], false);
  }

  /** The generated path of one bind line. */
  lemma BindRefs(line: seq<Token>, b: Bind, byName: map<string, Certificate>, t: Token)
    requires IsBindLine(line, b, byName) && !t.Plain?
    ensures t in line <==>
      b.ssl && t ==
        if b.certSource == "cert" && b.certRef in byName then CertRef(byName[b.certRef].fileName) else CertDir
  {
    hide IsBindText, BindCrt;
    BindTextRefs(line[1..|line| - 1], b, byName, t);
    InnerToken(line, t);
  }

  lemma InnerToken(line: seq<Token>, t: Token)
    requires |line| > 2 && line[0] != t && line[|line| - 1] != t
    ensures t in line <==> t in line[1..|line| - 1]
  {
    var body := line[1..|line| - 1];
    assert line == [line[0]] + body + [line[|line| - 1]];
  }

  lemma BindTextRefs(body: seq<Token>, b: Bind, byName: map<string, Certificate>, t: Token)
    requires IsBindText(body, b, byName) && !t.Plain?
    ensures t in body <==> t in BindCrt(b, byName)
    ensures t in BindCrt(b, byName) <==>
      b.ssl && t ==
        if b.certSource == "cert" && b.certRef in byName then CertRef(byName[b.certRef].fileName) else CertDir
  {
    FrontIsPlain(b);
    hide TrimSpace, Blank, BindFront;
    var front, crt := BindFront(b), BindCrt(b, byName);
    var alpn := if b.ssl && !Blank(b.alpn) then [Plain(" alpn " + TrimSpace(b.alpn))] else [];
    var extra := if !Blank(b.extra) then [Plain(" " + TrimSpace(b.extra))] else [];
    assert t !in front && t !in alpn && t !in extra;
    assert t in front + crt <==> t in crt;
    assert t in front + crt + alpn <==> t in crt;
  }

  lemma FrontIsPlain(b: Bind)
    ensures forall t :: t in BindFront(b) ==> t.Plain?
  {
  }

  lemma ProxyRefs(out: seq<Token>, p: Proxy, byName: map<string, Certificate>)
    requires IsProxyText(out, p, byName)
    ensures forall name :: CertRef(name) in out <==> Offers(p, byName, name)
    ensures CertDir in out <==> FallsBack(p, byName)
    ensures forall name :: PageRef(name) !in out
  {
    hide IsBindLine, Flat;
    var shown, lines :| IsProxyTextBy(out, p, byName, shown, lines);
    forall t: Token | !t.Plain?
      ensures t in out <==>
        exists j ::
          0 <= j < |p.binds| && p.binds[j].enabled && p.binds[j].ssl && t ==
            if p.binds[j].certSource == "cert" && p.binds[j].certRef in byName
            then CertRef(byName[p.binds[j].certRef].fileName) else CertDir
    {
      FlatHolds(lines, t);
      ProxyRefOne(p, byName, shown, lines, t);
    }
  }

  lemma ProxyRefOne(p: Proxy, byName: map<string, Certificate>, shown: seq<nat>, lines: seq<seq<Token>>, t: Token)
    requires ShowsBinds(shown, p.binds) && |lines| == |shown| && !t.Plain?
    requires forall k :: 0 <= k < |shown| ==> IsBindLine(lines[k], p.binds[shown[k]], byName)
    ensures (exists k :: 0 <= k < |lines| && t in lines[k]) <==>
      (exists j ::
         0 <= j < |p.binds| && p.binds[j].enabled && p.binds[j].ssl && t ==
           if p.binds[j].certSource == "cert" && p.binds[j].certRef in byName
           then CertRef(byName[p.binds[j].certRef].fileName) else CertDir)
  {
    hide IsBindLine;
    if k :| 0 <= k < |lines| && t in lines[k] {
      BindRefs(lines[k], p.binds[shown[k]], byName, t);
    }
    if exists j ::
         0 <= j < |p.binds| && p.binds[j].enabled && p.binds[j].ssl && t ==
           if p.binds[j].certSource == "cert" && p.binds[j].certRef in byName
           then CertRef(byName[p.binds[j].certRef].fileName) else CertDir
    {
      var j :|
        0 <= j < |p.binds| && p.binds[j].enabled && p.binds[j].ssl && t ==
          if p.binds[j].certSource == "cert" && p.binds[j].certRef in byName
          then CertRef(byName[p.binds[j].certRef].fileName) else CertDir;
      var k :| 0 <= k < |shown| && shown[k] == j;
      BindRefs(lines[k], p.binds[j], byName, t);
    }
  }

  /** The whole file: what is in front of the proxies, every enabled proxy in order and
      no other, and the rest. */
  ghost predicate IsFileText(out: seq<Token>, site: Site, pages: seq<ErrorPage>, byName: map<string, Certificate>) {
    exists errors: seq<Token>, shown: seq<nat>, parts: seq<seq<Token>> ::
      IsFileTextBy(out, site, pages, byName, errors, shown, parts)
  }

  ghost predicate IsFileTextBy(
    out: seq<Token>, site: Site, pages: seq<ErrorPage>, byName: map<string, Certificate>,
    errors: seq<Token>, shown: seq<nat>, parts: seq<seq<Token>>)
  {
    && IsErrorsText(errors, pages)
    && ShowsProxies(shown, site.proxies) && |parts| == |shown|
    && out == [Plain(site.globals)] + errors + [Plain(site.sections)] + Flat(parts) + [Plain(site.rest)]
    && forall k :: 0 <= k < |shown| ==> IsProxyText(parts[k], site.proxies[shown[k]], byName)
  }

  /** The text of this site for these rows. */
  ghost predicate Renders(out: seq<Token>, site: Site, pages: seq<ErrorPage>, certs: seq<Certificate>) {
    exists byName: map<string, Certificate> :: NamesCerts(byName, certs) && IsFileText(out, site, pages, byName)
  }

  /** An enabled TLS bind of an enabled proxy names a stored certificate with this file. */
  predicate OffersStored(site: Site, certs: seq<Certificate>, name: string) {
    exists i, j, k ::
      && 0 <= i < |site.proxies| && site.proxies[i].enabled
      && 0 <= j < |site.proxies[i].binds| && site.proxies[i].binds[j].enabled && site.proxies[i].binds[j].ssl
      && site.proxies[i].binds[j].certSource == "cert"
      && 0 <= k < |certs| && LastNamed(certs, k) && certs[k].name == site.proxies[i].binds[j].certRef
      && certs[k].fileName == name
  }

  /** The whole text: every generated path names an enabled page or a stored
      certificate, every one that a proxy or page calls for is there, and white space
      stands around each. */
  method RenderText(site: Site, pages: seq<ErrorPage>, certs: seq<Certificate>) returns (out: seq<Token>)
    ensures Renders(out, site, pages, certs)
    ensures RenderedFrom(out, pages, certs)
    ensures forall name :: PageRef(name) in out <==> NamesPage(pages, name)
    ensures forall name :: CertRef(name) in out <==> OffersStored(site, certs, name)
    ensures Delimited(out, false)
  {
    hide NamesPage, Delimited, WholeLines, IsErrorsText, IsProxyText, NamesCerts, OffersStored, Flat, ProxiesDone,
         RenderedFrom, Renders;
    var byName := CertsByName(certs);
    var errors := RenderHttpErrors(pages);
    out := RenderFront(site, errors);
    ghost var front, shown: seq<nat>, parts: seq<seq<Token>> := out, [], [];
    NoProxies(site.proxies, byName);
    assert front + [] == front;
    for i := 0 to |site.proxies|
      invariant ProxiesDone(shown, parts, site.proxies, byName, i)
      invariant out == front + Flat(parts)
      invariant Delimited(out, false)
    {
      ProxiesDoneNext(shown, parts, site.proxies, byName, i);
      if !site.proxies[i].enabled {
        continue;
      }
      var section := RenderProxy(site.proxies[i], byName);
      DelimitedJoin(out, section, false);
      FlatSnoc(parts, section);
      assert front + Flat(parts) + section == front + (Flat(parts) + section);
      shown, parts := shown + [i], parts + [section];
      out := out + section;
    }
    WholeLinesDelimited(site.rest);
    DelimitedJoin(out, [Plain(site.rest)], false);
    out := out + [Plain(site.rest)];
    ProxiesAllDone(out, site, pages, byName, errors, shown, parts);
    TextRefs(out, site, pages, byName, errors, shown, parts);
    StoredRefs(site, certs, byName);
    StoredOnly(out, site, pages, certs, byName);
    RendersBy(out, site, pages, certs, byName, errors, shown, parts);
  }

  method RenderFront(site: Site, errors: seq<Token>) returns (out: seq<Token>)
    requires Delimited(errors, false)
    ensures out == [Plain(site.globals)] + errors + [Plain(site.sections)] && Delimited(out, false)
  {
    hide Delimited, WholeLines;
    WholeLinesDelimited(site.globals);
    WholeLinesDelimited(site.sections);
    DelimitedJoin([Plain(site.globals)], errors, false);
    DelimitedJoin([Plain(site.globals)] + errors, [Plain(site.sections)], false);
    out := [Plain(site.globals)] + errors + [Plain(site.sections)];
  }

  /** The first i proxies have their sections. */
  ghost predicate ProxiesDone(
    shown: seq<nat>, parts: seq<seq<Token>>, proxies: seq<Proxy>, byName: map<string, Certificate>, i: nat)
  {
    && i <= |proxies| && ShowsProxies(shown, proxies[..i]) && |parts| == |shown|
    && forall k :: 0 <= k < |shown| ==> IsProxyText(parts[k], proxies[shown[k]], byName)
  }

  lemma NoProxies(proxies: seq<Proxy>, byName: map<string, Certificate>)
    ensures ProxiesDone([], [], proxies, byName, 0) && Flat([]) == []
  {
  }

  lemma ProxiesDoneNext(
      shown: seq<nat>, parts: seq<seq<Token>>, proxies: seq<Proxy>, byName: map<string, Certificate>, i: nat)
    requires ProxiesDone(shown, parts, proxies, byName, i) && i < |proxies|
    ensures !proxies[i].enabled ==> ProxiesDone(shown, parts, proxies, byName, i + 1)
    ensures proxies[i].enabled ==> forall part :: IsProxyText(part, proxies[i], byName) ==>
      ProxiesDone(shown + [i], parts + [part], proxies, byName, i + 1)
  {
    hide IsProxyText;
    var front := proxies[..i];
    assert proxies[..i + 1] == front + [proxies[i]];
    assert forall k :: 0 <= k < i ==> (k in shown ==> k in shown + [i]);
    assert i in shown + [i];
  }

  lemma ProxiesAllDone(
      out: seq<Token>, site: Site, pages: seq<ErrorPage>, byName: map<string, Certificate>,
      errors: seq<Token>, shown: seq<nat>, parts: seq<seq<Token>>)
    requires ProxiesDone(shown, parts, site.proxies, byName, |site.proxies|) && IsErrorsText(errors, pages)
    requires out == [Plain(site.globals)] + errors + [Plain(site.sections)] + Flat(parts) + [Plain(site.rest)]
    ensures IsFileTextBy(out, site, pages, byName, errors, shown, parts)
  {
    hide IsProxyText, IsErrorsText, Flat;
    assert site.proxies[..|site.proxies|] == site.proxies;
  }

  lemma RendersBy(
      out: seq<Token>, site: Site, pages: seq<ErrorPage>, certs: seq<Certificate>, byName: map<string, Certificate>,
      errors: seq<Token>, shown: seq<nat>, parts: seq<seq<Token>>)
    requires NamesCerts(byName, certs) && IsFileTextBy(out, site, pages, byName, errors, shown, parts)
    ensures Renders(out, site, pages, certs)
  {
    hide IsFileTextBy, NamesCerts;
    assert IsFileText(out, site, pages, byName);
  }

  lemma TextRefs(
      out: seq<Token>, site: Site, pages: seq<ErrorPage>, byName: map<string, Certificate>,
      errors: seq<Token>, shown: seq<nat>, parts: seq<seq<Token>>)
    requires IsFileTextBy(out, site, pages, byName, errors, shown, parts)
    ensures forall name :: PageRef(name) in out <==> NamesPage(pages, name)
    ensures forall name :: CertRef(name) in out <==>
      exists i :: 0 <= i < |site.proxies| && site.proxies[i].enabled && Offers(site.proxies[i], byName, name)
  {
    hide IsProxyText, NamesPage, Flat, Offers, FallsBack;
    var groups, sections :| IsErrorsTextBy(errors, pages, groups, sections);
    ErrorsRefs(errors, pages, groups, sections);
    forall k | 0 <= k < |parts|
      ensures forall name :: CertRef(name) in parts[k] <==> Offers(site.proxies[shown[k]], byName, name)
      ensures forall name :: PageRef(name) !in parts[k]
    {
      ProxyRefs(parts[k], site.proxies[shown[k]], byName);
    }
    hide IsErrorsText, IsErrorsTextBy;
    forall name ensures PageRef(name) in out <==> NamesPage(pages, name) {
      FlatHolds(parts, PageRef(name));
    }
    forall name
      ensures CertRef(name) in out <==>
        exists i :: 0 <= i < |site.proxies| && site.proxies[i].enabled && Offers(site.proxies[i], byName, name)
    {
      FlatHolds(parts, CertRef(name));
      CertRefMeans(site, byName, shown, parts, name);
    }
  }

  lemma CertRefMeans(
      site: Site, byName: map<string, Certificate>, shown: seq<nat>, parts: seq<seq<Token>>, name: string)
    requires ShowsProxies(shown, site.proxies) && |parts| == |shown|
    requires forall k :: 0 <= k < |parts| ==>
      (CertRef(name) in parts[k] <==> Offers(site.proxies[shown[k]], byName, name))
    ensures (exists k :: 0 <= k < |parts| && CertRef(name) in parts[k]) <==>
      exists i :: 0 <= i < |site.proxies| && site.proxies[i].enabled && Offers(site.proxies[i], byName, name)
  {
    hide Offers;
    if i :| 0 <= i < |site.proxies| && site.proxies[i].enabled && Offers(site.proxies[i], byName, name) {
      var k :| 0 <= k < |shown| && shown[k] == i;
      assert CertRef(name) in parts[k];
    }
  }

  /** The lookup table speaks of the last stored certificate of each name. */
  lemma StoredRefs(site: Site, certs: seq<Certificate>, byName: map<string, Certificate>)
    requires NamesCerts(byName, certs)
    ensures forall name :: OffersStored(site, certs, name) <==>
      exists i :: 0 <= i < |site.proxies| && site.proxies[i].enabled && Offers(site.proxies[i], byName, name)
  {
    hide LastNamed;
    forall name | OffersStored(site, certs, name)
      ensures exists i :: 0 <= i < |site.proxies| && site.proxies[i].enabled && Offers(site.proxies[i], byName, name)
    {
      var i, j, k :|
        && 0 <= i < |site.proxies| && site.proxies[i].enabled
        && 0 <= j < |site.proxies[i].binds| && site.proxies[i].binds[j].enabled && site.proxies[i].binds[j].ssl
        && site.proxies[i].binds[j].certSource == "cert"
        && 0 <= k < |certs| && LastNamed(certs, k) && certs[k].name == site.proxies[i].binds[j].certRef
        && certs[k].fileName == name;
      assert Offers(site.proxies[i], byName, name);
    }
    forall name, i | 0 <= i < |site.proxies| && site.proxies[i].enabled && Offers(site.proxies[i], byName, name)
      ensures OffersStored(site, certs, name)
    {
      var b := site.proxies[i].binds;
      var j :| 0 <= j < |b| && b[j].enabled && b[j].ssl && b[j].certSource == "cert"
        && b[j].certRef in byName && byName[b[j].certRef].fileName == name;
      var k := LastNamedExists(certs, b[j].certRef);
      assert site.proxies[i].binds[j].enabled;
    }
  }

  lemma StoredOnly(
      out: seq<Token>, site: Site, pages: seq<ErrorPage>, certs: seq<Certificate>, byName: map<string, Certificate>)
    requires forall name :: PageRef(name) in out <==> NamesPage(pages, name)
    requires forall name :: CertRef(name) in out ==> OffersStored(site, certs, name)
    ensures RenderedFrom(out, pages, certs)
  {
    hide NamesPage, LastNamed;
    forall name | CertRef(name) in out ensures exists c :: c in certs && c.fileName == name {
      assert OffersStored(site, certs, name);
      var i, j, k :|
        && 0 <= i < |site.proxies| && site.proxies[i].enabled
        && 0 <= j < |site.proxies[i].binds| && site.proxies[i].binds[j].enabled && site.proxies[i].binds[j].ssl
        && site.proxies[i].binds[j].certSource == "cert"
        && 0 <= k < |certs| && LastNamed(certs, k) && certs[k].name == site.proxies[i].binds[j].certRef
        && certs[k].fileName == name;
      assert certs[k] in certs;
    }
  }
}
