/** Generated ACL names, and the host patterns of a route read as domain names. */
module RouteNames {
  import opened Text

  predicate LowerAlnum(c: char) {
    'a' <= c <= 'z' || '0' <= c <= '9'
  }

  predicate Alnum(c: char) {
    LowerAlnum(c) || 'A' <= c <= 'Z'
  }

  /** Every run of bytes outside A-Z a-z 0-9 becomes one underscore. */
  function Sanitized(s: string, inRun: bool): string {
    if s == "" then ""
    else if Alnum(s[0]) then [s[0]] + Sanitized(s[1..], false)
    else (if inRun then "" else "_") + Sanitized(s[1..], true)
  }

  function Base(hostname: string): string {
    var base := Trim(Sanitized(ToLower(hostname), false), Underscores);
    if base == "" then "route" else base
  }

  function AclName(prefix: string, hostname: string, id: int): string {
    prefix + "_" + Base(hostname) + "_" + DecInt(id)
  }

  // ---- what a name is made of

  /** The maximal runs of letters and digits. */
  function Runs(s: string): seq<string> {
    if s == "" then []
    else if !Alnum(s[0]) then Runs(s[1..])
    else if |s| == 1 || !Alnum(s[1]) then [[s[0]]] + Runs(s[1..])
    else
      var rest := Runs(s[1..]);
      if rest == [] then [[s[0]]] else [[s[0]] + rest[0]] + rest[1..]
  }

  lemma {:induction false} RunsOpen(s: string)
    requires s != "" && Alnum(s[0])
    ensures Runs(s) != []
  {
  }

  predicate Mark(s: string) {
    s == "" || s == "_"
  }

  /** Sanitising joins the runs by underscores, with one more at either end for what
      surrounds them. */
  lemma {:induction false} SanitizedRuns(s: string, inRun: bool) returns (lead: string, trail: string)
    ensures Mark(trail) && (Runs(s) == [] ==> trail == "")
    ensures Sanitized(s, inRun) == lead + Join(Runs(s), "_") + trail
    ensures lead == if s == "" || inRun || Alnum(s[0]) then "" else "_"
  {
    if s == "" {
      lead, trail := "", "";
    } else {
      hide Join, Mark;
      SanitizedStep(s, inRun);
      lead, trail := SanitizedRuns(s[1..], !Alnum(s[0]));
      hide Sanitized, Runs;
      if Alnum(s[0]) {
        trail := RunAhead(s, Runs(s[1..]), lead, trail);
        lead := "";
        NoLead(Join(Runs(s), "_"), trail);
      } else {
        NoLead(Join(Runs(s), "_"), trail);
        lead := if inRun then "" else "_";
        Regroup(lead, Join(Runs(s), "_"), trail);
      }
    }
  }

  lemma SanitizedStep(s: string, inRun: bool)
    requires s != ""
    ensures Alnum(s[0]) ==> Sanitized(s, inRun) == [s[0]] + Sanitized(s[1..], false)
    ensures !Alnum(s[0]) ==>
      Sanitized(s, inRun) == (if inRun then "" else "_") + Sanitized(s[1..], true) && Runs(s) == Runs(s[1..])
  {
  }

  lemma NoLead(a: string, b: string)
    ensures "" + a + b == a + b
  {
    assert "" + a == a;
  }

  lemma Regroup(a: string, b: string, c: string)
    ensures a + (b + c) == a + b + c
  {
  }

  /** One more letter in front: it opens a run of its own or lengthens the first. */
  lemma RunAhead(s: string, rest: seq<string>, lead: string, trail: string) returns (end: string)
    requires s != "" && Alnum(s[0]) && rest == Runs(s[1..])
    requires lead == if |s| == 1 || Alnum(s[1]) then "" else "_"
    requires Mark(trail) && (rest == [] ==> trail == "")
    ensures Mark(end) && Runs(s) != []
    ensures [s[0]] + (lead + Join(rest, "_") + trail) == Join(Runs(s), "_") + end
  {
    var joined := Join(rest, "_");
    RunsUnfold(s);
    NothingJoined();
    Marks();
    hide Join, Runs, Mark, Alnum;
    if |s| == 1 || !Alnum(s[1]) {
      RunThenMore([s[0]], rest);
      end := if rest == [] then lead else trail;
      NextRun([s[0]], lead, joined, trail);
    } else {
      JoinHead([s[0]], rest, "_");
      end := trail;
      LongerRun([s[0]], joined, trail);
    }
  }

  lemma Marks()
    ensures Mark("") && Mark("_")
  {
  }

  lemma RunsUnfold(s: string)
    requires s != "" && Alnum(s[0])
    ensures |s| == 1 ==> Runs(s[1..]) == []
    ensures |s| == 1 || !Alnum(s[1]) ==> Runs(s) == [[s[0]]] + Runs(s[1..])
    ensures |s| > 1 && Alnum(s[1]) ==>
      Runs(s[1..]) != [] && Runs(s) == [[s[0]] + Runs(s[1..])[0]] + Runs(s[1..])[1..]
  {
    if |s| > 1 && Alnum(s[1]) {
      RunsOpen(s[1..]);
    }
  }

  lemma NextRun(run: string, lead: string, joined: string, trail: string)
    ensures run + (lead + joined + trail) == run + lead + joined + trail
    ensures joined == "" && trail == "" ==> run + (lead + joined + trail) == run + lead
  {
  }

  lemma LongerRun(run: string, joined: string, trail: string)
    ensures run + ("" + joined + trail) == run + joined + trail
  {
  }

  lemma RunThenMore(run: string, rest: seq<string>)
    ensures Join([run] + rest, "_") == if rest == [] then run else run + "_" + Join(rest, "_")
  {
    assert ([run] + rest)[1..] == rest;
  }

  predicate Plain(run: string) {
    run != "" && forall i :: 0 <= i < |run| ==> Alnum(run[i])
  }

  lemma {:induction false} RunsPlain(s: string)
    ensures forall k :: 0 <= k < |Runs(s)| ==> Plain(Runs(s)[k])
  {
    if s != "" {
      RunsPlain(s[1..]);
    }
  }

  lemma {:induction false} JoinedEnds(runs: seq<string>)
    requires runs != [] && forall k :: 0 <= k < |runs| ==> Plain(runs[k])
    ensures var t := Join(runs, "_"); t != "" && t[0] != '_' && t[|t| - 1] != '_'
  {
    var run := runs[0];
    assert Alnum(run[0]) && Alnum(run[|run| - 1]);
    if |runs| > 1 {
      JoinedEnds(runs[1..]);
      JoinUnfolds(runs, "_");
    }
  }

  /** The base of a name is the lower-cased host's runs of letters and digits, joined
      by single underscores. */
  lemma NameSpelled(prefix: string, hostname: string, id: int)
    ensures var runs := Runs(ToLower(hostname));
            AclName(prefix, hostname, id) ==
              prefix + "_" + (if runs == [] then "route" else Join(runs, "_")) + "_" + DecInt(id)
  {
    hide Sanitized, Runs, Join, DecInt, ToLower, TrimLeft, TrimRight;
    var s := ToLower(hostname);
    var lead, trail := SanitizedRuns(s, false);
    if Runs(s) == [] {
      NothingJoined();
      assert Sanitized(s, false) == lead;
      Stripped(lead, "", "");
    } else {
      RunsPlain(s);
      JoinedEnds(Runs(s));
      Stripped(lead, Join(Runs(s), "_"), trail);
    }
  }

  lemma NothingJoined()
    ensures Join([], "_") == ""
  {
  }

  predicate Underscored(s: string) {
    forall i :: 0 <= i < |s| ==> s[i] == '_'
  }

  lemma Stripped(lead: string, body: string, trail: string)
    requires Underscored(lead) && Underscored(trail) && (body == "" ==> trail == "")
    requires body != "" ==> body[0] != '_' && body[|body| - 1] != '_'
    ensures Trim(lead + body + trail, Underscores) == body
  {
    hide TrimLeft, TrimRight;
    var s := lead + body + trail;
    TrimLeftUnique(s, |lead|, Underscores);
    assert s[|lead|..] == body + trail;
    TrimRightUnique(body + trail, |body|, Underscores);
    assert (body + trail)[..|body|] == body;
  }

  const HOST_PREFIX := "host"
  const PATH_PREFIX := "path"

  // ---- names are apart

  lemma DecIntPlain(id: int)
    ensures DecInt(id) != "" && forall i :: 0 <= i < |DecInt(id)| ==> IsDigit(DecInt(id)[i]) || DecInt(id)[i] == '-'
  {
  }

  lemma DecIntInjective(a: int, b: int)
    requires DecInt(a) == DecInt(b)
    ensures a == b
  {
    hide Dec;
    var m, n := if a < 0 then -a else a, if b < 0 then -b else b;
    assert IsDigit(Dec(m)[0]) && IsDigit(Dec(n)[0]);
    assert DecInt(a)[0] == '-' <==> a < 0;
    assert DecInt(b)[0] == '-' <==> b < 0;
    assert a < 0 ==> DecInt(a)[1..] == Dec(m);
    assert b < 0 ==> DecInt(b)[1..] == Dec(n);
    assert Dec(m) == Dec(n);
    ValueDec(m);
    ValueDec(n);
  }

  /** What follows the last underscore can be told from what precedes it. */
  lemma LastUnderscore(a: string, x: string, b: string, y: string)
    requires a + "_" + x == b + "_" + y
    requires forall i :: 0 <= i < |x| ==> x[i] != '_'
    requires forall i :: 0 <= i < |y| ==> y[i] != '_'
    ensures a == b && x == y
  {
    var s := a + "_" + x;
    assert s[|a|] == '_' && s[|b|] == '_';
    assert forall k :: |a| < k < |s| ==> s[k] == x[k - |a| - 1];
    assert forall k :: |b| < k < |s| ==> s[k] == y[k - |b| - 1];
    assert a == s[..|a|] && b == s[..|b|];
    assert x == s[|a| + 1..] && y == s[|b| + 1..];
  }

  /** Two generated names are equal only for the same prefix and the same row, however
      much the sanitised host names collapse. */
  lemma NamesInjective(p: string, h: string, i: int, q: string, g: string, j: int)
    requires p in {HOST_PREFIX, PATH_PREFIX} && q in {HOST_PREFIX, PATH_PREFIX}
    ensures AclName(p, h, i) == AclName(q, g, j) <==> p == q && i == j && Base(h) == Base(g)
  {
    assert |p| == 4 && |q| == 4;
    if AclName(p, h, i) == AclName(q, g, j) {
      DecIntPlain(i);
      DecIntPlain(j);
      hide Base, DecInt, HOST_PREFIX, PATH_PREFIX;
      var a, b := p + "_" + Base(h), q + "_" + Base(g);
      LastUnderscore(a, DecInt(i), b, DecInt(j));
      DecIntInjective(i, j);
      FourAndRest(p, Base(h));
      FourAndRest(q, Base(g));
    }
  }

  lemma FourAndRest(p: string, base: string)
    requires |p| == 4
    ensures (p + "_" + base)[..4] == p && (p + "_" + base)[5..] == base
  {
  }

  // ---- names are words

  predicate BaseText(s: string) {
    forall i :: 0 <= i < |s| ==> Alnum(s[i]) || s[i] == '_'
  }

  lemma BaseTextSlice(s: string, i: nat, j: nat)
    requires BaseText(s) && i <= j <= |s|
    ensures BaseText(s[i..j])
  {
  }

  lemma {:induction false} SanitizedBytes(s: string, inRun: bool)
    ensures BaseText(Sanitized(s, inRun))
  {
    if s != "" {
      SanitizedBytes(s[1..], !Alnum(s[0]));
    }
  }

  /** A generated name is one word of letters, digits, underscores and signs, so it
      stands for itself wherever the configuration language splits a line. */
  lemma NameIsWord(p: string, h: string, id: int)
    requires p in {HOST_PREFIX, PATH_PREFIX}
    ensures IsWord(AclName(p, h, id))
    ensures forall i :: 0 <= i < |AclName(p, h, id)| ==>
      Alnum(AclName(p, h, id)[i]) || AclName(p, h, id)[i] in "_-"
  {
    BaseBytes(h);
    DecIntPlain(id);
    hide Base, DecInt;
    var name := AclName(p, h, id);
    assert forall i :: 0 <= i < |p| ==> Alnum(p[i]);
    forall i | 0 <= i < |name| ensures Alnum(name[i]) || name[i] in "_-" {
    }
  }

  lemma BaseBytes(h: string)
    ensures BaseText(Base(h))
  {
    hide Sanitized, TrimLeft, TrimRight, ToLower;
    var clean := Sanitized(ToLower(h), false);
    SanitizedBytes(ToLower(h), false);
    var l := TrimLeft(clean, Underscores);
    BaseTextSlice(clean, |clean| - |l|, |clean|);
    assert l == clean[|clean| - |l|..|clean|];
    var base := TrimRight(l, Underscores);
    BaseTextSlice(l, 0, |base|);
    assert base == l[0..|base|];
  }

  // ---- host patterns

  /** The labels of a domain name, section 3.1 of RFC 1034. */
  function Labels(host: string): seq<string> {
    Split(host, '.')
  }

  predicate SuffixOf(a: seq<string>, b: seq<string>) {
    |a| <= |b| && b[|b| - |a|..] == a
  }

  /** The wildcard line: the host ends with a dot and the bare name. */
  predicate EndsBelow(host: string, bare: string) {
    HasSuffix(host, "." + bare)
  }

  lemma LabelsBelow(front: string, bare: string)
    ensures Labels(front + "." + bare) == Labels(front) + Labels(bare)
  {
    SplitConcat(front, '.', bare);
  }

  /** Equal labels are equal names. */
  lemma LabelsInjective(a: string, b: string)
    requires Labels(a) == Labels(b)
    ensures a == b
  {
    JoinSplit(a, '.');
    JoinSplit(b, '.');
  }

  /** A host lies below a name exactly when the labels of the name are a proper suffix
      of its own; it lies at or below the name exactly when they are a suffix. */
  lemma SubdomainIsLabelSuffix(host: string, bare: string)
    ensures EndsBelow(host, bare) <==> SuffixOf(Labels(bare), Labels(host)) && |Labels(bare)| < |Labels(host)|
    ensures host == bare || EndsBelow(host, bare) <==> SuffixOf(Labels(bare), Labels(host))
  {
    if EndsBelow(host, bare) {
      var front := host[..|host| - |bare| - 1];
      assert host == front + "." + bare;
      LabelsBelow(front, bare);
      assert Labels(host)[|Labels(front)|..] == Labels(bare);
    }
    if SuffixOf(Labels(bare), Labels(host)) {
      if |Labels(bare)| == |Labels(host)| {
        assert Labels(host)[0..] == Labels(host);
        LabelsInjective(host, bare);
      } else {
        ProperSuffixEndsBelow(host, bare);
      }
    }
  }

  lemma ProperSuffixEndsBelow(host: string, bare: string)
    requires SuffixOf(Labels(bare), Labels(host)) && |Labels(bare)| < |Labels(host)|
    ensures EndsBelow(host, bare)
  {
    var cut := |Labels(host)| - |Labels(bare)|;
    var front := Labels(host)[..cut];
    assert Labels(host) == front + Labels(bare);
    JoinSplit(host, '.');
    JoinSplit(bare, '.');
    hide Join, Split;
    JoinConcat(front, Labels(bare), ".");
    assert "." == ['.'];
    BehindDot(Join(front, "."), bare);
  }

  lemma BehindDot(front: string, bare: string)
    ensures EndsBelow(front + "." + bare, bare)
  {
    var host := front + "." + bare;
    assert host[|host| - |bare| - 1..] == "." + bare;
  }
}
