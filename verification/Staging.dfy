/** The staged copy that is checked before anything is published, and what publishing
    and staging a freshly rendered text give: no reference dangles. */
module Staging {
  import opened Text
  import opened ErrorPages
  import opened Publish
  import opened References

  // ---- the text over a pair of directories

  function TokenText(t: Token, pageDir: string, certDir: string): string {
    match t
    case Plain(text) => text
    case PageRef(name) => pageDir + "/" + name
    case CertRef(name) => certDir + "/" + name
    case CertDir => certDir + "/"
  }

  function Rendered(tokens: seq<Token>, pageDir: string, certDir: string): string {
    if tokens == [] then ""
    else TokenText(tokens[0], pageDir, certDir) + Rendered(tokens[1..], pageDir, certDir)
  }

  // ---- replacing one directory

  /** Text in front of which the directory may be meant to stand. */
  datatype Piece = Piece(marked: bool, tail: string)

  function Head(p: Piece, dir: string): string {
    if p.marked then dir else ""
  }

  function Spelled(pieces: seq<Piece>, dir: string): string {
    if pieces == [] then ""
    else Head(pieces[0], dir) + (pieces[0].tail + Spelled(pieces[1..], dir))
  }

  /** No occurrence of the pattern starts inside the first n bytes. */
  predicate NoneBefore(text: string, n: nat, pattern: string) {
    forall j :: 0 <= j < n ==> !OccursAt(text, pattern, j)
  }

  /** The directory occurs only where it is meant to stand. */
  predicate Apart(pieces: seq<Piece>, dir: string) {
    pieces != [] ==>
      && Apart(pieces[1..], dir)
      && NoneBefore(pieces[0].tail + Spelled(pieces[1..], dir), |pieces[0].tail|, dir)
  }

  lemma {:induction false} ReplaceSkips(own: string, rest: string, from: string, to: string)
    requires from != "" && NoneBefore(own + rest, |own|, from)
    ensures ReplaceAll(own + rest, from, to) == own + ReplaceAll(rest, from, to)
    decreases |own|
  {
    var text := own + rest;
    if own == "" {
      assert text == rest;
    } else {
      assert !OccursAt(text, from, 0);
      assert |from| <= |text| ==> text[0..|from|] == text[..|from|];
      assert text[1..] == own[1..] + rest;
      forall j | 0 <= j < |own[1..]| ensures !OccursAt(own[1..] + rest, from, j) {
        assert !OccursAt(text, from, j + 1);
        assert j + |from| <= |text[1..]| ==> text[1..][j..j + |from|] == text[j + 1..j + 1 + |from|];
      }
      ReplaceSkips(own[1..], rest, from, to);
      assert [own[0]] + (own[1..] + ReplaceAll(rest, from, to)) == own + ReplaceAll(rest, from, to);
    }
  }

  lemma ReplaceHead(rest: string, from: string, to: string)
    requires from != ""
    ensures ReplaceAll(from + rest, from, to) == to + ReplaceAll(rest, from, to)
  {
    assert (from + rest)[..|from|] == from && (from + rest)[|from|..] == rest;
  }

  /** The directory in front of a piece is replaced, if it stands there. */
  lemma ReplaceMark(p: Piece, rest: string, dir: string, to: string)
    requires dir != ""
    ensures ReplaceAll(Head(p, dir) + rest, dir, to) == Head(p, to) + ReplaceAll(rest, dir, to)
  {
    hide ReplaceAll;
    if p.marked {
      ReplaceHead(rest, dir, to);
    } else {
      assert "" + rest == rest && "" + ReplaceAll(rest, dir, to) == ReplaceAll(rest, dir, to);
    }
  }

  lemma {:induction false} PassRewrites(pieces: seq<Piece>, dir: string, to: string)
    requires dir != "" && Apart(pieces, dir)
    ensures ReplaceAll(Spelled(pieces, dir), dir, to) == Spelled(pieces, to)
  {
    hide ReplaceAll, NoneBefore, Head;
    if pieces == [] {
      ReplaceNothing(dir, to);
    } else {
      var rest := Spelled(pieces[1..], dir);
      PassRewrites(pieces[1..], dir, to);
      ReplaceSkips(pieces[0].tail, rest, dir, to);
      ReplaceMark(pieces[0], pieces[0].tail + rest, dir, to);
    }
  }

  lemma ReplaceNothing(from: string, to: string)
    requires from != ""
    ensures ReplaceAll("", from, to) == ""
  {
  }

  /** An occurrence inside own text is replaced although it was not meant. */
  lemma StrayHead(own: string, rest: string, dir: string) returns (j: nat)
    requires dir != "" && !NoneBefore(own + rest, |own|, dir)
    ensures j < |own|
    ensures forall to :: own[..j] + to <= ReplaceAll(own + rest, dir, to)
  {
    var text := own + rest;
    j := FirstOccurrence(text, |own|, dir);
    var front, behind := own[..j], text[j + |dir|..];
    StraySplit(text, dir, j);
    assert text == front + (dir + behind) by {
      assert text[..j] == front;
      hide OccursAt;
    }
    forall k | 0 <= k < j ensures !OccursAt(front + (dir + behind), dir, k) {
    }
    forall to: string ensures own[..j] + to <= ReplaceAll(own + rest, dir, to) {
      hide ReplaceAll, OccursAt;
      ReplaceSkips(front, dir + behind, dir, to);
      ReplaceHead(behind, dir, to);
      assert front + (to + ReplaceAll(behind, dir, to)) == front + to + ReplaceAll(behind, dir, to);
    }
  }

  lemma StraySplit(text: string, dir: string, j: nat)
    requires OccursAt(text, dir, j)
    ensures text == text[..j] + (dir + text[j + |dir|..])
  {
    assert text[j..] == text[j..j + |dir|] + text[j + |dir|..];
  }

  lemma FirstOccurrence(text: string, n: nat, pattern: string) returns (j: nat)
    requires !NoneBefore(text, n, pattern)
    ensures j < n && OccursAt(text, pattern, j) && NoneBefore(text, j, pattern)
  {
    hide OccursAt;
    j := 0;
    while !OccursAt(text, pattern, j)
      invariant j < n && NoneBefore(text, j, pattern)
      decreases n - j
    {
      j := j + 1;
    }
  }

  /** A stray occurrence shows in the result for every new directory that starts with
      another byte than the text had there. */
  lemma {:induction false} PassStrays(pieces: seq<Piece>, dir: string) returns (c: char)
    requires dir != "" && !Apart(pieces, dir)
    ensures forall to :: to != "" && to[0] != c ==> ReplaceAll(Spelled(pieces, dir), dir, to) != Spelled(pieces, to)
    decreases |pieces|
  {
    hide ReplaceAll, Head, NoneBefore;
    var p, rest := pieces[0], Spelled(pieces[1..], dir);
    if NoneBefore(p.tail + rest, |p.tail|, dir) {
      c := PassStrays(pieces[1..], dir);
      forall to | to != "" && to[0] != c
        ensures ReplaceAll(Spelled(pieces, dir), dir, to) != Spelled(pieces, to)
      {
        ReplaceSkips(p.tail, rest, dir, to);
        ReplaceMark(p, p.tail + rest, dir, to);
        SameFront(Head(p, to), p.tail, ReplaceAll(rest, dir, to), Spelled(pieces[1..], to));
      }
    } else {
      var j := StrayHead(p.tail, rest, dir);
      c := p.tail[j];
      forall to | to != "" && to[0] != c
        ensures ReplaceAll(Spelled(pieces, dir), dir, to) != Spelled(pieces, to)
      {
        ReplaceMark(p, p.tail + rest, dir, to);
        var got, wanted := ReplaceAll(p.tail + rest, dir, to), p.tail + Spelled(pieces[1..], to);
        assert p.tail[..j] + to <= got;
        assert got[j] == (p.tail[..j] + to)[j] == to[0];
        assert wanted[j] == c;
        assert (Head(p, to) + got)[|Head(p, to)| + j] != (Head(p, to) + wanted)[|Head(p, to)| + j];
      }
    }
  }

  lemma SameFront(a: string, b: string, x: string, y: string)
    ensures a + (b + x) == a + (b + y) <==> x == y
  {
    assert (a + (b + x))[|a|..] == b + x && (b + x)[|b|..] == x;
    assert (a + (b + y))[|a|..] == b + y && (b + y)[|b|..] == y;
  }

  /** Replacing the live directory by this one gives the text over this one. */
  predicate Rewrites(pieces: seq<Piece>, dir: string, to: string)
    requires dir != ""
  {
    ReplaceAll(Spelled(pieces, dir), dir, to) == Spelled(pieces, to)
  }

  /** Replacing the directory yields the text over every other directory if and only
      if it occurs nowhere but where it is meant to stand. */
  lemma PassIsExact(pieces: seq<Piece>, dir: string)
    requires dir != ""
    ensures (forall to :: Rewrites(pieces, dir, to)) <==> Apart(pieces, dir)
  {
    hide ReplaceAll, Spelled, Apart;
    if Apart(pieces, dir) {
      forall to: string ensures Rewrites(pieces, dir, to) {
        PassRewrites(pieces, dir, to);
      }
    } else {
      var c := PassStrays(pieces, dir);
      var to := if c == 'a' then "b" else "a";
      assert to != "" && to[0] != c;
      assert !Rewrites(pieces, dir, to);
    }
  }

  // ---- the two passes over the generated text

  function PagePiece(t: Token, certDir: string): Piece {
    if t.PageRef? then Piece(true, "/" + t.name) else Piece(false, TokenText(t, "", certDir))
  }

  function CertPiece(t: Token, pageDir: string): Piece {
    match t
    case CertRef(name) => Piece(true, "/" + name)
    case CertDir => Piece(true, "/")
    case _ => Piece(false, TokenText(t, pageDir, ""))
  }

  function PagePieces(tokens: seq<Token>, certDir: string): seq<Piece> {
    if tokens == [] then [] else [PagePiece(tokens[0], certDir)] + PagePieces(tokens[1..], certDir)
  }

  function CertPieces(tokens: seq<Token>, pageDir: string): seq<Piece> {
    if tokens == [] then [] else [CertPiece(tokens[0], pageDir)] + CertPieces(tokens[1..], pageDir)
  }

  /** The page directory occurs only in generated page paths. */
  predicate PagesApart(tokens: seq<Token>, pageDir: string, certDir: string) {
    Apart(PagePieces(tokens, certDir), pageDir)
  }

  /** The certificate directory occurs only in generated certificate paths. */
  predicate CertsApart(tokens: seq<Token>, pageDir: string, certDir: string) {
    Apart(CertPieces(tokens, pageDir), certDir)
  }

  lemma PieceText(t: Token, pageDir: string, certDir: string, rest: string)
    ensures var p := PagePiece(t, certDir);
            Head(p, pageDir) + (p.tail + rest) == TokenText(t, pageDir, certDir) + rest
    ensures var p := CertPiece(t, pageDir);
            Head(p, certDir) + (p.tail + rest) == TokenText(t, pageDir, certDir) + rest
  {
    var p, c, text := PagePiece(t, certDir), CertPiece(t, pageDir), TokenText(t, pageDir, certDir);
    assert Head(p, pageDir) + p.tail == text && Head(c, certDir) + c.tail == text;
    hide PagePiece, CertPiece, TokenText, Head;
    Assoc(Head(p, pageDir), p.tail, rest);
    Assoc(Head(c, certDir), c.tail, rest);
  }

  lemma {:induction false} PagesSpelled(tokens: seq<Token>, pageDir: string, certDir: string)
    ensures Spelled(PagePieces(tokens, certDir), pageDir) == Rendered(tokens, pageDir, certDir)
  {
    hide PagePiece, TokenText, Head;
    if tokens != [] {
      PagesSpelled(tokens[1..], pageDir, certDir);
      PieceText(tokens[0], pageDir, certDir, Rendered(tokens[1..], pageDir, certDir));
      assert PagePieces(tokens, certDir)[1..] == PagePieces(tokens[1..], certDir);
    }
  }

  lemma {:induction false} CertsSpelled(tokens: seq<Token>, pageDir: string, certDir: string)
    ensures Spelled(CertPieces(tokens, pageDir), certDir) == Rendered(tokens, pageDir, certDir)
  {
    hide CertPiece, TokenText, Head;
    if tokens != [] {
      CertsSpelled(tokens[1..], pageDir, certDir);
      PieceText(tokens[0], pageDir, certDir, Rendered(tokens[1..], pageDir, certDir));
      assert CertPieces(tokens, pageDir)[1..] == CertPieces(tokens[1..], pageDir);
    }
  }

  predicate PagePass(tokens: seq<Token>, pageDir: string, certDir: string, stage: string)
    requires pageDir != ""
  {
    ReplaceAll(Rendered(tokens, pageDir, certDir), pageDir, stage) == Rendered(tokens, stage, certDir)
  }

  predicate CertPass(tokens: seq<Token>, pageDir: string, certDir: string, stage: string)
    requires certDir != ""
  {
    ReplaceAll(Rendered(tokens, pageDir, certDir), certDir, stage) == Rendered(tokens, pageDir, stage)
  }

  /** The first replacement is right for every staging directory if and only if the
      page directory occurs only in generated page paths. */
  lemma PagePassIsExact(tokens: seq<Token>, pageDir: string, certDir: string)
    requires pageDir != ""
    ensures (forall stage :: PagePass(tokens, pageDir, certDir, stage)) <==> PagesApart(tokens, pageDir, certDir)
  {
    hide ReplaceAll, Spelled, Apart, Rendered;
    var pieces := PagePieces(tokens, certDir);
    PagesSpelled(tokens, pageDir, certDir);
    forall stage: string ensures PagePass(tokens, pageDir, certDir, stage) <==> Rewrites(pieces, pageDir, stage) {
      PagesSpelled(tokens, stage, certDir);
    }
    PassIsExact(pieces, pageDir);
  }

  /** The same for the second replacement and the certificate directory. */
  lemma CertPassIsExact(tokens: seq<Token>, pageDir: string, certDir: string)
    requires certDir != ""
    ensures (forall stage :: CertPass(tokens, pageDir, certDir, stage)) <==> CertsApart(tokens, pageDir, certDir)
  {
    hide ReplaceAll, Spelled, Apart, Rendered;
    var pieces := CertPieces(tokens, pageDir);
    CertsSpelled(tokens, pageDir, certDir);
    forall stage: string ensures CertPass(tokens, pageDir, certDir, stage) <==> Rewrites(pieces, certDir, stage) {
      CertsSpelled(tokens, pageDir, stage);
    }
    PassIsExact(pieces, certDir);
  }

  /** When the live directories occur in the text only as generated paths, the two
      replacements of stageForCheck turn it into the same text over the staging
      directories. */
  lemma StagingRewritesPaths(
    tokens: seq<Token>, pageDir: string, certDir: string, stagePages: string, stageCerts: string)
    requires pageDir != "" && certDir != ""
    requires PagesApart(tokens, pageDir, certDir) && CertsApart(tokens, stagePages, certDir)
    ensures ReplaceAll(ReplaceAll(Rendered(tokens, pageDir, certDir), pageDir, stagePages), certDir, stageCerts)
         == Rendered(tokens, stagePages, stageCerts)
  {
    hide ReplaceAll, PagesApart, CertsApart, Rendered;
    PagePassIsExact(tokens, pageDir, certDir);
    CertPassIsExact(tokens, stagePages, certDir);
    assert PagePass(tokens, pageDir, certDir, stagePages) && CertPass(tokens, stagePages, certDir, stageCerts);
  }

  /** An operator's own mention of the page directory, anywhere in the file, is
      rewritten as well. */
  lemma OperatorMentionIsRewritten(tokens: seq<Token>, text: string, pageDir: string, certDir: string)
    requires pageDir != "" && Plain(text) in tokens && Contains(text, pageDir)
    ensures !PagesApart(tokens, pageDir, certDir)
    ensures exists stage :: !PagePass(tokens, pageDir, certDir, stage)
  {
    hide ReplaceAll, Rendered;
    MentionIsStray(tokens, text, pageDir, certDir);
    PagePassIsExact(tokens, pageDir, certDir);
  }

  lemma {:induction false} MentionIsStray(tokens: seq<Token>, text: string, pageDir: string, certDir: string)
    requires pageDir != "" && Plain(text) in tokens && Contains(text, pageDir)
    ensures !PagesApart(tokens, pageDir, certDir)
    decreases |tokens|
  {
    hide Contains, NoneBefore, Spelled;
    var pieces := PagePieces(tokens, certDir);
    assert pieces[1..] == PagePieces(tokens[1..], certDir);
    if tokens[0] == Plain(text) {
      ContainedIsStray(text, Spelled(pieces[1..], pageDir), pageDir);
    } else {
      assert tokens == [tokens[0]] + tokens[1..];
      MentionIsStray(tokens[1..], text, pageDir, certDir);
    }
  }

  lemma ContainedIsStray(text: string, rest: string, dir: string)
    requires dir != "" && Contains(text, dir)
    ensures !NoneBefore(text + rest, |text|, dir)
  {
    var i :| 0 <= i <= |text| && OccursAt(text, dir, i);
    assert (text + rest)[i..i + |dir|] == text[i..i + |dir|];
    assert OccursAt(text + rest, dir, i);
  }

  // ---- when no directory occurs by chance

  /** An absolute path of more than one part, without white space. */
  predicate PlainDir(dir: string) {
    && |dir| > 1 && dir[0] == '/' && '/' in dir[1..]
    && forall i :: 0 <= i < |dir| ==> !IsSpace(dir[i])
  }

  predicate PlainName(name: string) {
    '/' !in name
  }

  /** No part of the other directory onwards leads into this one: from each slash on,
      they differ before either ends. */
  predicate Aside(dir: string, other: string) {
    forall i :: 0 <= i < |other| && other[i] == '/' ==>
      exists k :: 0 <= k < |dir| && i + k <= |other| && (other + "/")[i + k] != dir[k]
  }

  /** What can be read off a text: the operator does not mention the directory, the
      other directory lies aside, and file names have no slash. */
  predicate Unmentioned(tokens: seq<Token>, dir: string, other: string) {
    && Aside(dir, other)
    && forall t :: t in tokens ==>
      match t
      case Plain(text) => !Contains(text, dir)
      case PageRef(name) => PlainName(name)
      case CertRef(name) => PlainName(name)
      case CertDir => true
  }

  /** An occurrence would have to lie in front of the boundary or contain its white space. */
  lemma NoneAcross(own: string, rest: string, dir: string)
    requires PlainDir(dir) && !Contains(own, dir)
    requires own == "" || IsSpace(own[|own| - 1]) || rest == "" || IsSpace(rest[0])
    ensures NoneBefore(own + rest, |own|, dir)
  {
    var text := own + rest;
    forall j | 0 <= j < |own| ensures !OccursAt(text, dir, j) {
      if j + |dir| <= |own| {
        assert text[j..j + |dir|] == own[j..j + |dir|];
        assert !OccursAt(own, dir, j);
      } else if j + |dir| <= |text| {
        var last := |own| - 1 - j;
        assert text[j..j + |dir|][last] == own[|own| - 1];
        assert text[j..j + |dir|][last + 1] == rest[0];
        assert !IsSpace(dir[last]) && !IsSpace(dir[last + 1]);
      }
    }
  }

  /** A directory of more than one part does not occur behind the slash of a file name. */
  lemma NotInName(name: string, dir: string)
    requires PlainDir(dir) && PlainName(name)
    ensures !Contains("/" + name, dir)
  {
    var tail := "/" + name;
    forall j | 0 <= j <= |tail| ensures !OccursAt(tail, dir, j) {
      if j + |dir| <= |tail| {
        var k :| 0 <= k < |dir[1..]| && dir[1..][k] == '/';
        assert tail[j..j + |dir|][k + 1] == tail[j + k + 1] == name[j + k];
        assert dir[k + 1] == '/';
      }
    }
  }

  lemma NotInSlash(dir: string)
    requires PlainDir(dir)
    ensures !Contains("/", dir)
  {
    NotInName("", dir);
    assert "/" + "" == "/";
  }

  lemma NotInOther(other: string, name: string, dir: string)
    requires PlainDir(dir) && PlainName(name) && Aside(dir, other)
    ensures !Contains(other + "/" + name, dir)
  {
    var path, tail := other + "/" + name, "/" + name;
    NotInName(name, dir);
    forall j | 0 <= j <= |path| ensures !OccursAt(path, dir, j) {
      if j + |dir| <= |path| {
        var found := path[j..j + |dir|];
        assert found[0] == path[j];
        if j < |other| && other[j] == '/' {
          var k :| 0 <= k < |dir| && j + k <= |other| && (other + "/")[j + k] != dir[k];
          assert found[k] == path[j + k] == (other + "/")[j + k];
        } else if j >= |other| {
          var i := j - |other|;
          assert tail[i..i + |dir|] == found;
          assert !OccursAt(tail, dir, i);
        }
      }
    }
  }

  lemma NotInOtherDir(other: string, dir: string)
    requires PlainDir(dir) && Aside(dir, other)
    ensures !Contains(other + "/", dir)
  {
    NotInOther(other, "", dir);
    assert other + "/" + "" == other + "/";
  }

  /** What follows an opening boundary starts with white space, or is nothing. */
  lemma {:induction false} OpensText(tokens: seq<Token>, pageDir: string, certDir: string)
    requires Opens(tokens, false)
    ensures var text := Rendered(tokens, pageDir, certDir); text != "" && IsSpace(text[0])
  {
    if tokens[0].text == "" {
      OpensText(tokens[1..], pageDir, certDir);
    }
  }

  /** Between delimited tokens, no occurrence reaches across. */
  lemma BoundaryHolds(tokens: seq<Token>, own: string, pageDir: string, certDir: string, dir: string)
    requires tokens != [] && Delimited(tokens, false) && PlainDir(dir) && !Contains(own, dir)
    requires tokens[0].Plain? ==> own == tokens[0].text
    ensures NoneBefore(own + Rendered(tokens[1..], pageDir, certDir), |own|, dir)
  {
    hide Contains, NoneBefore, Rendered, Delimited;
    assert Closed(tokens[0]) || Opens(tokens[1..], false) by {
      DelimitedHead(tokens);
    }
    if Opens(tokens[1..], false) {
      OpensText(tokens[1..], pageDir, certDir);
    }
    NoneAcross(own, Rendered(tokens[1..], pageDir, certDir), dir);
  }

  lemma DelimitedHead(tokens: seq<Token>)
    requires tokens != [] && Delimited(tokens, false)
    ensures Closed(tokens[0]) || Opens(tokens[1..], false)
    ensures Delimited(tokens[1..], false)
  {
  }

  /** White space around generated paths, plain directories and no mention of the page
      directory elsewhere are enough for the first pass. */
  lemma {:induction false} UnmentionedPages(tokens: seq<Token>, pageDir: string, certDir: string)
    requires Delimited(tokens, false) && PlainDir(pageDir) && Unmentioned(tokens, pageDir, certDir)
    ensures PagesApart(tokens, pageDir, certDir)
    decreases |tokens|
  {
    if tokens != [] {
      var t, rest := tokens[0], tokens[1..];
      assert t in tokens && forall u :: u in rest ==> u in tokens;
      DelimitedHead(tokens);
      UnmentionedPages(rest, pageDir, certDir);
      PagesSpelled(rest, pageDir, certDir);
      var piece := PagePiece(t, certDir);
      assert PagePieces(tokens, certDir)[1..] == PagePieces(rest, certDir);
      assert !Contains(piece.tail, pageDir) by {
        match t
        case PageRef(name) => NotInName(name, pageDir);
        case CertRef(name) => NotInOther(certDir, name, pageDir);
        case CertDir => NotInOtherDir(certDir, pageDir);
        case _ =>
      }
      hide Contains, Unmentioned, Rendered, PlainDir, NoneBefore;
      BoundaryHolds(tokens, piece.tail, pageDir, certDir, pageDir);
    }
  }

  /** The same for the certificate directory and the second pass. */
  lemma {:induction false} UnmentionedCerts(tokens: seq<Token>, pageDir: string, certDir: string)
    requires Delimited(tokens, false) && PlainDir(certDir) && Unmentioned(tokens, certDir, pageDir)
    ensures CertsApart(tokens, pageDir, certDir)
    decreases |tokens|
  {
    if tokens != [] {
      var t, rest := tokens[0], tokens[1..];
      assert t in tokens && forall u :: u in rest ==> u in tokens;
      DelimitedHead(tokens);
      UnmentionedCerts(rest, pageDir, certDir);
      CertsSpelled(rest, pageDir, certDir);
      var piece := CertPiece(t, pageDir);
      assert CertPieces(tokens, pageDir)[1..] == CertPieces(rest, pageDir);
      assert !Contains(piece.tail, certDir) by {
        match t
        case CertRef(name) => NotInName(name, certDir);
        case CertDir => NotInSlash(certDir);
        case PageRef(name) => NotInOther(pageDir, name, certDir);
        case _ =>
      }
      hide Contains, Unmentioned, Rendered, PlainDir, NoneBefore;
      BoundaryHolds(tokens, piece.tail, pageDir, certDir, certDir);
    }
  }

  /** All of it can be read off the settings and the text, and then staging is right. */
  predicate StagesPlainly(tokens: seq<Token>, pageDir: string, certDir: string, stagePages: string) {
    && PlainDir(pageDir) && PlainDir(certDir)
    && Unmentioned(tokens, pageDir, certDir) && Unmentioned(tokens, certDir, stagePages)
  }

  lemma PlainStaging(tokens: seq<Token>, pageDir: string, certDir: string, stagePages: string, stageCerts: string)
    requires Delimited(tokens, false) && StagesPlainly(tokens, pageDir, certDir, stagePages)
    ensures PagesApart(tokens, pageDir, certDir) && CertsApart(tokens, stagePages, certDir)
    ensures ReplaceAll(ReplaceAll(Rendered(tokens, pageDir, certDir), pageDir, stagePages), certDir, stageCerts)
         == Rendered(tokens, stagePages, stageCerts)
  {
    UnmentionedPages(tokens, pageDir, certDir);
    UnmentionedCerts(tokens, stagePages, certDir);
    StagingRewritesPaths(tokens, pageDir, certDir, stagePages, stageCerts);
  }

  function SampleText(): seq<Token> {
    [Plain("errorfile 503 "), PageRef("default-503.http"), Plain("\ncrt "), CertRef("site.pem"), Plain("\n")]
  }

  /** A text with a page and a certificate that stages plainly. */
  lemma SampleStagesPlainly()
    ensures Delimited(SampleText(), false) && StagesPlainly(SampleText(), "/h/e", "/h/c", "/t/e")
  {
    hide Contains, Aside, PlainDir, Delimited, Unmentioned, SampleText;
    SampleDelimited();
    SampleDirs();
    SampleUnmentioned("/h/e", "/h/c");
    SampleUnmentioned("/h/c", "/t/e");
  }

  lemma SampleUnmentioned(dir: string, other: string)
    requires PlainDir(dir) && Aside(dir, other)
    ensures Unmentioned(SampleText(), dir, other)
  {
    hide Contains, Aside;
    SlashFree("errorfile 503 ", dir);
    SlashFree("\ncrt ", dir);
    SlashFree("\n", dir);
    SamplePlainNames();
    hide PlainName, PlainDir;
    var s := SampleText();
    forall t | t in s ensures t == s[0] || t == s[1] || t == s[2] || t == s[3] || t == s[4] {
    }
  }

  lemma SamplePlainNames()
    ensures PlainName("default-503.http") && PlainName("site.pem")
  {
  }

  /** How generated paths are spelled in a text: directory, slash, file name. */
  lemma PathsSpelled(before: seq<Token>, name: string, after: seq<Token>, pageDir: string, certDir: string)
    ensures Rendered(before + ([PageRef(name)] + after), pageDir, certDir)
         == Rendered(before, pageDir, certDir) + (pageDir + "/" + name + Rendered(after, pageDir, certDir))
    ensures Rendered(before + ([CertRef(name)] + after), pageDir, certDir)
         == Rendered(before, pageDir, certDir) + (certDir + "/" + name + Rendered(after, pageDir, certDir))
    ensures Rendered(before + ([CertDir] + after), pageDir, certDir)
         == Rendered(before, pageDir, certDir) + (certDir + "/" + Rendered(after, pageDir, certDir))
    ensures Rendered(before + ([Plain(name)] + after), pageDir, certDir)
         == Rendered(before, pageDir, certDir) + (name + Rendered(after, pageDir, certDir))
  {
    RenderedCons(PageRef(name), after, pageDir, certDir);
    RenderedCons(CertRef(name), after, pageDir, certDir);
    RenderedCons(CertDir, after, pageDir, certDir);
    RenderedCons(Plain(name), after, pageDir, certDir);
    hide Rendered;
    RenderedConcat(before, [PageRef(name)] + after, pageDir, certDir);
    RenderedConcat(before, [CertRef(name)] + after, pageDir, certDir);
    RenderedConcat(before, [CertDir] + after, pageDir, certDir);
    RenderedConcat(before, [Plain(name)] + after, pageDir, certDir);
  }

  /** A bind line as it is printed: the address, the words for what is switched on, the
      certificate file or the directory, and what the operator added. */
  lemma BindSpelled(line: seq<Token>, b: Bind, certs: map<string, Certificate>, pageDir: string, certDir: string)
    requires IsBindText(line, b, certs)
    ensures Rendered(line, pageDir, certDir) ==
      ("bind " + b.listen + (if b.acceptProxy then " accept-proxy" else "")
       + (if b.transparent then " transparent" else "") + (if b.ssl then " ssl" else ""))
      + (if !b.ssl then ""
         else " crt " + certDir + "/"
              + if b.certSource == "cert" && b.certRef in certs then certs[b.certRef].fileName else "")
      + (if b.ssl && !Blank(b.alpn) then " alpn " + TrimSpace(b.alpn) else "")
      + (if !Blank(b.extra) then " " + TrimSpace(b.extra) else "")
  {
    FrontSpelled(b, pageDir, certDir);
    CrtSpelled(b, certs, pageDir, certDir);
    hide BindFront, BindCrt, TrimSpace, Blank, Rendered;
    var alpn := if b.ssl && !Blank(b.alpn) then [Plain(" alpn " + TrimSpace(b.alpn))] else [];
    var extra := if !Blank(b.extra) then [Plain(" " + TrimSpace(b.extra))] else [];
    RenderedConcat(BindFront(b) + BindCrt(b, certs) + alpn, extra, pageDir, certDir);
    RenderedConcat(BindFront(b) + BindCrt(b, certs), alpn, pageDir, certDir);
    RenderedConcat(BindFront(b), BindCrt(b, certs), pageDir, certDir);
    WordSpelled(b.ssl && !Blank(b.alpn), " alpn " + TrimSpace(b.alpn), pageDir, certDir);
    WordSpelled(!Blank(b.extra), " " + TrimSpace(b.extra), pageDir, certDir);
  }

  lemma WordSpelled(on: bool, word: string, pageDir: string, certDir: string)
    ensures Rendered(if on then [Plain(word)] else [], pageDir, certDir) == if on then word else ""
  {
    if on {
      assert [Plain(word)][1..] == [];
    }
  }

  lemma FrontSpelled(b: Bind, pageDir: string, certDir: string)
    ensures Rendered(BindFront(b), pageDir, certDir) ==
      "bind " + b.listen + (if b.acceptProxy then " accept-proxy" else "")
      + (if b.transparent then " transparent" else "") + (if b.ssl then " ssl" else "")
  {
    hide Rendered;
    var start := [Plain("bind ")] + [Plain(b.listen)];
    var proxy := if b.acceptProxy then [Plain(" accept-proxy")] else [];
    var transparent := if b.transparent then [Plain(" transparent")] else [];
    var tls := if b.ssl then [Plain(" ssl")] else [];
    assert BindFront(b) == start + proxy + transparent + tls;
    RenderedConcat(start + proxy + transparent, tls, pageDir, certDir);
    RenderedConcat(start + proxy, transparent, pageDir, certDir);
    RenderedConcat(start, proxy, pageDir, certDir);
    RenderedConcat([Plain("bind ")], [Plain(b.listen)], pageDir, certDir);
    WordSpelled(true, "bind ", pageDir, certDir);
    WordSpelled(true, b.listen, pageDir, certDir);
    WordSpelled(b.acceptProxy, " accept-proxy", pageDir, certDir);
    WordSpelled(b.transparent, " transparent", pageDir, certDir);
    WordSpelled(b.ssl, " ssl", pageDir, certDir);
  }

  lemma CrtSpelled(b: Bind, certs: map<string, Certificate>, pageDir: string, certDir: string)
    ensures Rendered(BindCrt(b, certs), pageDir, certDir) ==
      if !b.ssl then ""
      else " crt " + certDir + "/"
           + if b.certSource == "cert" && b.certRef in certs then certs[b.certRef].fileName else ""
  {
    if b.ssl {
      var crt := BindCrt(b, certs);
      assert crt[1..] == [crt[1]] && [crt[1]][1..] == [];
      var name := if b.certSource == "cert" && b.certRef in certs then certs[b.certRef].fileName else "";
      assert certDir + "/" + "" == certDir + "/";
      assert TokenText(crt[1], pageDir, certDir) == certDir + "/" + name;
      var path := certDir + "/" + name;
      assert Rendered([], pageDir, certDir) == "";
      assert Rendered([crt[1]], pageDir, certDir) == path + "";
      assert Rendered(crt, pageDir, certDir) == " crt " + Rendered([crt[1]], pageDir, certDir);
      assert path + "" == path;
      assert " crt " + path == " crt " + certDir + "/" + name;
    }
  }

  lemma {:induction false} RenderedConcat(a: seq<Token>, b: seq<Token>, pageDir: string, certDir: string)
    ensures Rendered(a + b, pageDir, certDir) == Rendered(a, pageDir, certDir) + Rendered(b, pageDir, certDir)
  {
    hide TokenText;
    if a == [] {
      assert a + b == b;
    } else {
      assert (a + b)[0] == a[0] && (a + b)[1..] == a[1..] + b;
      RenderedConcat(a[1..], b, pageDir, certDir);
      Assoc(TokenText(a[0], pageDir, certDir), Rendered(a[1..], pageDir, certDir), Rendered(b, pageDir, certDir));
    }
  }

  lemma RenderedCons(t: Token, rest: seq<Token>, pageDir: string, certDir: string)
    ensures Rendered([t] + rest, pageDir, certDir) == TokenText(t, pageDir, certDir) + Rendered(rest, pageDir, certDir)
    ensures Rendered([], pageDir, certDir) == ""
  {
    assert ([t] + rest)[1..] == rest;
  }

  lemma SampleDelimited()
    ensures Delimited(SampleText(), false)
  {
    var t := SampleText();
    DelimitedPath("\ncrt ", t[3]);
    DelimitedPath("errorfile 503 ", t[1]);
    DelimitedConcat([t[0], t[1]], [t[2], t[3], t[4]], false);
    assert t == [t[0], t[1]] + [t[2], t[3], t[4]];
  }

  lemma SlashFree(text: string, dir: string)
    requires '/' !in text && dir != "" && dir[0] == '/'
    ensures !Contains(text, dir)
  {
    forall j | 0 <= j <= |text| ensures !OccursAt(text, dir, j) {
      NoOccurrence(text, dir, '/', j);
    }
  }

  lemma SampleDirs()
    ensures PlainDir("/h/e") && PlainDir("/h/c") && Aside("/h/e", "/h/c") && Aside("/h/c", "/t/e")
  {
    assert "/h/e"[1..][1] == '/' && "/h/c"[1..][1] == '/';
    assert ("/h/c" + "/")[0 + 3] != "/h/e"[3] && ("/h/c" + "/")[2 + 1] != "/h/e"[1];
    assert ("/t/e" + "/")[0 + 1] != "/h/c"[1] && ("/t/e" + "/")[2 + 1] != "/h/c"[1];
  }

  // ---- rendering, staging and publishing together

  /** The files with the suffix are exactly the artifacts, and nothing else changed. */
  ghost predicate HoldsExactly(before: Listing, after: Listing, suffix: string, files: seq<Artifact>) {
    && (forall name :: HasSuffix(name, suffix) ==> (name in after && after[name].File? <==> name in Names(files)))
    && (forall name :: !HasSuffix(name, suffix) ==> Same(before, after, name))
  }

  /** The rows rendered from are the rows published: the text has no dangling
      reference, and the directories hold exactly the files of those rows. */
  method PublishText(
      site: Site, pages: seq<ErrorPage>, certs: seq<Certificate>, pageDir: Directory, certDir: Directory,
      pageCalls: PublishCalls, certCalls: PublishCalls)
    returns (text: seq<Token>, ok: bool)
    requires pageDir != certDir
    modifies pageDir, certDir
    ensures ok <==>
      old(PagesWritable(pageDir.entries, pages, pageCalls) && CertsWritable(certDir.entries, certs, certCalls))
    ensures ok ==> Resolves(text, pageDir.entries, certDir.entries)
    ensures ok && pageCalls.stuck == {} ==>
      HoldsExactly(old(pageDir.entries), pageDir.entries, PAGE_SUFFIX, PageFiles(pages))
    ensures ok && certCalls.stuck == {} && (forall c :: c in certs ==> Stored(c)) ==>
      HoldsExactly(old(certDir.entries), certDir.entries, CERT_SUFFIX, CertFiles(certs))
    ensures forall name :: PageRef(name) in text <==> name in Names(PageFiles(pages))
    ensures Renders(text, site, pages, certs)
  {
    hide *;
    text := RenderText(site, pages, certs);
    forall name ensures name in Names(PageFiles(pages)) <==> NamesPage(pages, name) {
      PageFilesNames(pages, name);
    }
    ok := pageDir.WriteErrorPages(pages, pageCalls);
    if !ok {
      return;
    }
    ok := certDir.WriteCertificates(certs, certCalls);
    if !ok {
      return;
    }
    PublishedResolves(text, pages, certs, old(pageDir.entries), pageDir.entries, old(certDir.entries), certDir.entries,
                      pageCalls.stuck, certCalls.stuck);
    if pageCalls.stuck == {} {
      PagesAreExact(old(pageDir.entries), pageDir.entries, pages);
    }
    if certCalls.stuck == {} && forall c :: c in certs ==> Stored(c) {
      CertsAreExact(old(certDir.entries), certDir.entries, certs);
    }
  }

  lemma PagesAreExact(before: Listing, after: Listing, pages: seq<ErrorPage>)
    requires Published(before, after, PAGE_SUFFIX, PageFiles(pages), {})
    ensures HoldsExactly(before, after, PAGE_SUFFIX, PageFiles(pages))
  {
    hide Published, PageFiles, Names, AllSuffixed;
    PagesSuffixed(pages);
    PublishedExactly(before, after, PAGE_SUFFIX, PageFiles(pages));
  }

  lemma CertsAreExact(before: Listing, after: Listing, certs: seq<Certificate>)
    requires Published(before, after, CERT_SUFFIX, CertFiles(certs), {})
    requires forall c :: c in certs ==> Stored(c)
    ensures HoldsExactly(before, after, CERT_SUFFIX, CertFiles(certs))
  {
    hide Published, CertFiles, Names, AllSuffixed;
    CertsSuffixed(certs);
    PublishedExactly(before, after, CERT_SUFFIX, CertFiles(certs));
  }

  /** stageForCheck: empty scratch directories filled from the rows, and the content
      with both live directories replaced. */
  method StageForCheck(
      content: string, pages: seq<ErrorPage>, certs: seq<Certificate>, pageDir: string, certDir: string,
      scratch: string, made: bool, pageCalls: PublishCalls, certCalls: PublishCalls)
    returns (ok: bool, staged: string, stagedPages: Directory, stagedCerts: Directory)
    requires pageDir != "" && certDir != ""
    ensures fresh(stagedPages) && fresh(stagedCerts)
    ensures ok <==> made && PagesWritable(map[], pages, pageCalls) && CertsWritable(map[], certs, certCalls)
    ensures ok ==>
      && Published(map[], stagedPages.entries, PAGE_SUFFIX, PageFiles(pages), pageCalls.stuck)
      && Published(map[], stagedCerts.entries, CERT_SUFFIX, CertFiles(certs), certCalls.stuck)
    ensures ok ==> forall tokens ::
      content == Rendered(tokens, pageDir, certDir) && PagesApart(tokens, pageDir, certDir)
      && CertsApart(tokens, scratch + "/errors", certDir) ==>
        staged == Rendered(tokens, scratch + "/errors", scratch + "/certs")
  {
    hide PagesWritable, CertsWritable, Published, PagesApart, CertsApart, Rendered, ReplaceAll;
    staged := "";
    stagedPages := new Directory(map[]);
    stagedCerts := new Directory(map[]);
    ok := made;
    if ok {
      ok := stagedPages.WriteErrorPages(pages, pageCalls);
    }
    if ok {
      ok := stagedCerts.WriteCertificates(certs, certCalls);
    }
    if ok {
      staged := ReplaceAll(content, pageDir, scratch + "/errors");
      staged := ReplaceAll(staged, certDir, scratch + "/certs");
      forall tokens | content == Rendered(tokens, pageDir, certDir) && PagesApart(tokens, pageDir, certDir)
                      && CertsApart(tokens, scratch + "/errors", certDir)
        ensures staged == Rendered(tokens, scratch + "/errors", scratch + "/certs")
      {
        StagingRewritesPaths(tokens, pageDir, certDir, scratch + "/errors", scratch + "/certs");
      }
    }
  }

  /** What is handed to the checker: every reference of the rendered text has its file
      in the scratch directories, which hold nothing else, and the staged text is the
      rendered text over those directories whenever no live directory occurs by chance. */
  method Preview(
      site: Site, pages: seq<ErrorPage>, certs: seq<Certificate>, pageDir: string, certDir: string,
      scratch: string, made: bool, pageCalls: PublishCalls, certCalls: PublishCalls)
    returns (ok: bool, text: seq<Token>, staged: string, stagedPages: Directory, stagedCerts: Directory)
    requires pageDir != "" && certDir != ""
    ensures ok <==> made && PagesWritable(map[], pages, pageCalls) && CertsWritable(map[], certs, certCalls)
    ensures Renders(text, site, pages, certs)
    ensures ok ==> Resolves(text, stagedPages.entries, stagedCerts.entries)
    ensures ok ==>
      stagedPages.entries.Keys == Names(PageFiles(pages)) && stagedCerts.entries.Keys == Names(CertFiles(certs))
    ensures ok && PagesApart(text, pageDir, certDir) && CertsApart(text, scratch + "/errors", certDir) ==>
      staged == Rendered(text, scratch + "/errors", scratch + "/certs")
    ensures StagesPlainly(text, pageDir, certDir, scratch + "/errors") ==>
      PagesApart(text, pageDir, certDir) && CertsApart(text, scratch + "/errors", certDir)
  {
    hide PagesWritable, CertsWritable, Published, Resolves, RenderedFrom, PagesApart, CertsApart, Rendered,
         StagesPlainly, Delimited, Renders;
    text := RenderText(site, pages, certs);
    if StagesPlainly(text, pageDir, certDir, scratch + "/errors") {
      PlainStaging(text, pageDir, certDir, scratch + "/errors", scratch + "/certs");
    }
    var content := Rendered(text, pageDir, certDir);
    ok, staged, stagedPages, stagedCerts :=
      StageForCheck(content, pages, certs, pageDir, certDir, scratch, made, pageCalls, certCalls);
    if ok {
      PublishedResolves(text, pages, certs, map[], stagedPages.entries, map[], stagedCerts.entries,
                        pageCalls.stuck, certCalls.stuck);
      PublishedFromNothing(stagedPages.entries, PAGE_SUFFIX, PageFiles(pages), pageCalls.stuck);
      PublishedFromNothing(stagedCerts.entries, CERT_SUFFIX, CertFiles(certs), certCalls.stuck);
    }
  }

  /** Publishing into an empty directory leaves the artifacts and nothing else. */
  lemma PublishedFromNothing(after: Listing, suffix: string, files: seq<Artifact>, stuck: set<string>)
    requires Published(map[], after, suffix, files, stuck)
    ensures after.Keys == Names(files)
  {
    hide LastContent, HasSuffix, Names;
    forall name ensures name in after <==> name in Names(files) {
      LastContentNames(files, name);
    }
  }
}
