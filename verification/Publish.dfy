/** Writing error pages and certificates into a directory and removing the stale ones. */
module Publish {
  import opened Wrappers
  import opened Text
  import opened ErrorPages

  datatype Entry = File(content: string) | Folder

  type Listing = map<string, Entry>

  /** A file the controller generates. */
  datatype Artifact = Artifact(name: string, content: string)

  datatype Certificate = Certificate(
    name: string, fileName: string, keyPem: string, certPem: string, chainPem: string)

  const PAGE_SUFFIX := ".http"
  const CERT_SUFFIX := ".pem"

  /** The file name SaveCertificate derives. */
  predicate Stored(c: Certificate) {
    c.fileName == c.name + CERT_SUFFIX
  }

  function PageFiles(pages: seq<ErrorPage>): seq<Artifact> {
    if pages == [] then []
    else (if pages[0].enabled then [Artifact(FileName(pages[0]), RawText(pages[0]))] else [])
         + PageFiles(pages[1..])
  }

  /** Key, leaf, then chain, each trimmed and ended by a newline. */
  function Bundle(c: Certificate): string {
    TrimSpace(c.keyPem) + "\n" + TrimSpace(c.certPem) + "\n"
    + (if TrimSpace(c.chainPem) == "" then "" else TrimSpace(c.chainPem) + "\n")
  }

  function CertFiles(certs: seq<Certificate>): seq<Artifact> {
    if certs == [] then [] else [Artifact(certs[0].fileName, Bundle(certs[0]))] + CertFiles(certs[1..])
  }

  // ---- what a directory holds after publishing

  /** The content of the last artifact with this name. */
  function LastContent(files: seq<Artifact>, name: string): Option<string>
    decreases |files|
  {
    if files == [] then None
    else if files[|files| - 1].name == name then Some(files[|files| - 1].content)
    else LastContent(files[..|files| - 1], name)
  }

  predicate Same(before: Listing, after: Listing, name: string) {
    (name in before <==> name in after) && (name in before ==> before[name] == after[name])
  }

  /** Exactly the artifacts are there under the suffix, except for stale files that
      could not be removed; folders and all other names are as before. */
  ghost predicate Published(
    before: Listing, after: Listing, suffix: string, files: seq<Artifact>, stuck: set<string>)
  {
    forall name ::
      match LastContent(files, name)
      case Some(content) => name in after && after[name] == File(content)
      case None =>
        if HasSuffix(name, suffix) && name in before && before[name].File? && name !in stuck
        then name !in after
        else Same(before, after, name)
  }

  function Overlay(dir: Listing, files: seq<Artifact>): Listing
    decreases |files|
  {
    if files == [] then dir
    else
      var last := files[|files| - 1];
      Overlay(dir, files[..|files| - 1])[last.name := File(last.content)]
  }

  lemma {:induction false} OverlayAt(dir: Listing, files: seq<Artifact>, name: string)
    ensures match LastContent(files, name)
            case Some(content) => name in Overlay(dir, files) && Overlay(dir, files)[name] == File(content)
            case None => Same(dir, Overlay(dir, files), name)
    decreases |files|
  {
    if files != [] && files[|files| - 1].name != name {
      OverlayAt(dir, files[..|files| - 1], name);
    }
  }

  function Doomed(dir: Listing, suffix: string, wanted: set<string>, stuck: set<string>): set<string> {
    set name | name in dir && dir[name].File? && HasSuffix(name, suffix) && name !in wanted && name !in stuck
  }

  function Names(files: seq<Artifact>): set<string> {
    set k | 0 <= k < |files| :: files[k].name
  }

  lemma {:induction false} LastContentNames(files: seq<Artifact>, name: string)
    ensures LastContent(files, name).Some? <==> name in Names(files)
    decreases |files|
  {
    if files != [] {
      var rest := files[..|files| - 1];
      LastContentNames(rest, name);
      if name in Names(files) && files[|files| - 1].name != name {
        var k :| 0 <= k < |files| && files[k].name == name;
        assert rest[k].name == name;
      }
      if name in Names(rest) {
        var k :| 0 <= k < |rest| && rest[k].name == name;
        assert files[k].name == name;
      }
    }
  }

  /** Writing every artifact and then removing the doomed files publishes them. */
  lemma OverlayThenPrune(before: Listing, suffix: string, files: seq<Artifact>, stuck: set<string>)
    ensures var full := Overlay(before, files);
            Published(before, full - Doomed(full, suffix, Names(files), stuck), suffix, files, stuck)
  {
    var full := Overlay(before, files);
    var after := full - Doomed(full, suffix, Names(files), stuck);
    forall name ensures
      match LastContent(files, name)
      case Some(content) => name in after && after[name] == File(content)
      case None =>
        if HasSuffix(name, suffix) && name in before && before[name].File? && name !in stuck
        then name !in after
        else Same(before, after, name)
    {
      OverlayAt(before, files, name);
      LastContentNames(files, name);
    }
  }

  predicate AllSuffixed(files: seq<Artifact>, suffix: string) {
    forall k :: 0 <= k < |files| ==> HasSuffix(files[k].name, suffix)
  }

  /** When every artifact carries the suffix and no stale file is stuck, the files with
      the suffix are exactly the artifacts, and no other name is touched. */
  lemma PublishedExactly(before: Listing, after: Listing, suffix: string, files: seq<Artifact>)
    requires Published(before, after, suffix, files, {}) && AllSuffixed(files, suffix)
    ensures forall name :: HasSuffix(name, suffix) ==>
      (name in after && after[name].File? <==> name in Names(files))
    ensures forall name :: !HasSuffix(name, suffix) ==> Same(before, after, name)
  {
    hide LastContent, HasSuffix;
    forall name
      ensures HasSuffix(name, suffix) ==> (name in after && after[name].File? <==> name in Names(files))
      ensures !HasSuffix(name, suffix) ==> Same(before, after, name)
    {
      LastContentNames(files, name);
      if name in Names(files) {
        var k :| 0 <= k < |files| && files[k].name == name;
        assert HasSuffix(files[k].name, suffix);
      }
    }
  }

  /** Pages and stored certificates always carry their suffix. */
  lemma {:induction false} PagesSuffixed(pages: seq<ErrorPage>)
    ensures AllSuffixed(PageFiles(pages), PAGE_SUFFIX)
  {
    hide RawText;
    if pages != [] {
      PagesSuffixed(pages[1..]);
      EndsWith(pages[0].group + "-" + Text.DecInt(pages[0].code), PAGE_SUFFIX);
    }
  }

  lemma {:induction false} CertsSuffixed(certs: seq<Certificate>)
    requires forall c :: c in certs ==> Stored(c)
    ensures AllSuffixed(CertFiles(certs), CERT_SUFFIX)
  {
    hide Bundle;
    if certs != [] {
      CertsSuffixed(certs[1..]);
      assert certs[0] in certs;
      EndsWith(certs[0].name, CERT_SUFFIX);
    }
  }

  lemma EndsWith(front: string, suffix: string)
    ensures HasSuffix(front + suffix, suffix)
  {
  }

  /** No artifact has the name of a folder. */
  predicate Replaceable(dir: Listing, files: seq<Artifact>) {
    forall k :: 0 <= k < |files| ==> !(files[k].name in dir && dir[files[k].name].Folder?)
  }

  /** Where the write of one file can fail. */
  datatype WriteFault = NoDirectory | NoTemp | ShortWrite(n: nat) | NoSync | NoClose | NoMode | NoRename

  /** The answers one publication gets: whether the store listed its rows and the
      directory exists, the rows whose write fails and where, whether the directory can
      be read back, and the stale files that cannot be removed. */
  datatype PublishCalls = PublishCalls(ready: bool, faults: map<nat, WriteFault>, scanned: bool, stuck: set<string>)

  /** Nothing stands in the way of publishing every enabled page. */
  predicate PagesWritable(dir: Listing, pages: seq<ErrorPage>, c: PublishCalls) {
    c.ready && c.scanned && forall i :: 0 <= i < |pages| && pages[i].enabled ==>
      i !in c.faults && !(FileName(pages[i]) in dir && dir[FileName(pages[i])].Folder?)
  }

  predicate CertsWritable(dir: Listing, certs: seq<Certificate>, c: PublishCalls) {
    c.ready && c.scanned && forall i :: 0 <= i < |certs| ==>
      i !in c.faults && !(certs[i].fileName in dir && dir[certs[i].fileName].Folder?)
  }

  function FaultAt(c: PublishCalls, i: nat): Option<WriteFault> {
    if i in c.faults then Some(c.faults[i]) else None
  }

  /** The last enabled page of its file name. */
  predicate LastPage(pages: seq<ErrorPage>, i: nat) {
    && i < |pages| && pages[i].enabled
    && forall j :: i < j < |pages| && pages[j].enabled ==> FileName(pages[j]) != FileName(pages[i])
  }

  predicate LastCert(certs: seq<Certificate>, i: nat) {
    i < |certs| && forall j :: i < j < |certs| ==> certs[j].fileName != certs[i].fileName
  }

  lemma {:induction false} LastPageContent(pages: seq<ErrorPage>, i: nat)
    requires LastPage(pages, i)
    ensures LastContent(PageFiles(pages), FileName(pages[i])) == Some(RawText(pages[i]))
    decreases |pages|
  {
    hide RawText, FileName, PageFiles, LastContent;
    var n := |pages| - 1;
    var front, last := pages[..n], pages[n];
    assert pages[..n + 1] == pages;
    PageFilesSnoc(pages, n);
    LastContentSnoc(PageFiles(front), Artifact(FileName(last), RawText(last)), FileName(pages[i]));
    if i < n {
      LastPageContent(front, i);
    }
  }

  lemma LastContentSnoc(files: seq<Artifact>, a: Artifact, name: string)
    ensures LastContent(files + [a], name) == if a.name == name then Some(a.content) else LastContent(files, name)
  {
    assert (files + [a])[..|files|] == files;
  }

  lemma {:induction false} LastCertContent(certs: seq<Certificate>, i: nat)
    requires LastCert(certs, i)
    ensures LastContent(CertFiles(certs), certs[i].fileName) == Some(Bundle(certs[i]))
    decreases |certs|
  {
    hide Bundle, CertFiles, LastContent;
    var n := |certs| - 1;
    var front, last := certs[..n], certs[n];
    assert certs[..n + 1] == certs;
    CertFilesSnoc(certs, n);
    LastContentSnoc(CertFiles(front), Artifact(last.fileName, Bundle(last)), certs[i].fileName);
    if i < n {
      LastCertContent(front, i);
    }
  }

  lemma PagesHeld(before: Listing, after: Listing, pages: seq<ErrorPage>, stuck: set<string>)
    requires Published(before, after, PAGE_SUFFIX, PageFiles(pages), stuck)
    ensures forall i :: 0 <= i < |pages| && LastPage(pages, i) ==>
      FileName(pages[i]) in after && after[FileName(pages[i])] == File(RawText(pages[i]))
  {
    hide RawText, FileName, PageFiles, LastContent, LastPage, HasSuffix;
    forall i | 0 <= i < |pages| && LastPage(pages, i)
      ensures FileName(pages[i]) in after && after[FileName(pages[i])] == File(RawText(pages[i]))
    {
      LastPageContent(pages, i);
    }
  }

  lemma CertsHeld(before: Listing, after: Listing, certs: seq<Certificate>, stuck: set<string>)
    requires Published(before, after, CERT_SUFFIX, CertFiles(certs), stuck)
    ensures forall i :: 0 <= i < |certs| && LastCert(certs, i) ==>
      && certs[i].fileName in after
      && after[certs[i].fileName] == File(
           TrimSpace(certs[i].keyPem) + "\n" + TrimSpace(certs[i].certPem) + "\n"
           + (if Blank(certs[i].chainPem) then "" else TrimSpace(certs[i].chainPem) + "\n"))
  {
    hide CertFiles, LastContent, LastCert, HasSuffix, TrimSpace, Blank, Bundle;
    forall i | 0 <= i < |certs| && LastCert(certs, i)
      ensures certs[i].fileName in after && after[certs[i].fileName] == File(Bundle(certs[i]))
      ensures Bundle(certs[i]) == TrimSpace(certs[i].keyPem) + "\n" + TrimSpace(certs[i].certPem) + "\n"
           + (if Blank(certs[i].chainPem) then "" else TrimSpace(certs[i].chainPem) + "\n")
    {
      LastCertContent(certs, i);
      BundleIs(certs[i]);
    }
  }

  lemma BundleIs(c: Certificate)
    ensures Bundle(c) == TrimSpace(c.keyPem) + "\n" + TrimSpace(c.certPem) + "\n"
      + (if Blank(c.chainPem) then "" else TrimSpace(c.chainPem) + "\n")
  {
    hide TrimSpace, Blank;
    TrimSpaceBlank(c.chainPem);
  }

  // ---- the directory

  class Directory {
    var entries: Listing
    // What the temporary file of a write in progress holds; its name is like no other.
    var temp: Option<string>

    constructor (initial: Listing)
      ensures entries == initial && temp == None
    {
      entries, temp := initial, None;
    }

    /** writeFileAtomic: whichever step fails, a reader sees the old entry or the whole
        new file and never a part of it, and no temporary file stays behind. A folder of
        that name cannot be replaced. */
    method WriteFile(name: string, content: string, fault: Option<WriteFault>)
      returns (ok: bool, ghost seen: seq<Listing>)
      modifies this
      ensures ok <==> fault == None && !(name in old(entries) && old(entries)[name].Folder?)
      ensures entries == if ok then old(entries)[name := File(content)] else old(entries)
      ensures temp == None
      ensures forall k :: 0 <= k < |seen| ==>
        seen[k] == old(entries) || (ok && seen[k] == old(entries)[name := File(content)])
      ensures |seen| > 0 && seen[|seen| - 1] == entries
    {
      seen, ok, temp := [entries], false, None;
      if fault == Some(NoDirectory) || fault == Some(NoTemp) {
        return;
      }
      var written := content;
      if fault.Some? && fault.value.ShortWrite? && fault.value.n < |content| {
        written := content[..fault.value.n];
      }
      temp := Some(written);
      seen := seen + [entries];
      if fault.Some? && fault.value != NoRename {
        temp := None;
        seen := seen + [entries];
        return;
      }
      if fault.Some? || (name in entries && entries[name].Folder?) {
        temp := None;
        seen := seen + [entries];
        return;
      }
      entries, temp := entries[name := File(temp.value)], None;
      seen, ok := seen + [entries], true;
    }

    method Prune(suffix: string, wanted: set<string>, stuck: set<string>)
      modifies this
      ensures entries == old(entries) - Doomed(old(entries), suffix, wanted, stuck)
    {
      hide HasSuffix;
      var before := entries;
      var names := before.Keys;
      while names != {}
        invariant names <= before.Keys
        invariant forall name :: name in entries <==>
          name in before && (name in names || name !in Doomed(before, suffix, wanted, stuck))
        invariant forall name :: name in entries ==> entries[name] == before[name]
        decreases |names|
      {
        var name :| name in names;
        names := names - {name};
        if before[name].File? && HasSuffix(name, suffix) && name !in wanted && name !in stuck {
          entries := entries - {name};
        }
      }
    }

    method WriteErrorPages(pages: seq<ErrorPage>, c: PublishCalls) returns (ok: bool)
      modifies this
      ensures ok ==> Published(old(entries), entries, PAGE_SUFFIX, PageFiles(pages), c.stuck)
      ensures ok <==> PagesWritable(old(entries), pages, c)
      ensures ok ==> forall i :: 0 <= i < |pages| && LastPage(pages, i) ==>
        FileName(pages[i]) in entries && entries[FileName(pages[i])] == File(RawText(pages[i]))
      ensures !ok ==> exists k :: 0 <= k <= |pages| && entries == Overlay(old(entries), PageFiles(pages[..k]))
    {
      hide PageFiles, Overlay, Names, RawText, FileName, Published, Doomed, LastPage;
      ghost var before := entries;
      NothingYet(before);
      assert pages[..0] == [];
      if !c.ready {
        return false;
      }
      var wanted: set<string> := {};
      for i := 0 to |pages|
        invariant entries == Overlay(before, PageFiles(pages[..i]))
        invariant wanted == Names(PageFiles(pages[..i]))
        invariant Replaceable(before, PageFiles(pages[..i]))
        invariant forall j :: 0 <= j < i && pages[j].enabled ==>
          j !in c.faults && !(FileName(pages[j]) in before && before[FileName(pages[j])].Folder?)
      {
        var p := pages[i];
        PageFilesSnoc(pages, i);
        if !p.enabled {
          continue;
        }
        var name := FileName(p);
        var raw := RawHttp(p);
        OverlayKeepsFolders(before, PageFiles(pages[..i]), name);
        OverlaySnoc(before, PageFiles(pages[..i]), Artifact(name, raw));
        wanted := wanted + {name};
        var written, _ := WriteFile(name, raw, FaultAt(c, i));
        if !written {
          return false;
        }
      }
      assert pages[..|pages|] == pages;
      if !c.scanned {
        return false;
      }
      Prune(PAGE_SUFFIX, wanted, c.stuck);
      OverlayThenPrune(before, PAGE_SUFFIX, PageFiles(pages), c.stuck);
      PagesHeld(before, entries, pages, c.stuck);
      ok := true;
    }

    method WriteCertificates(certs: seq<Certificate>, c: PublishCalls) returns (ok: bool)
      modifies this
      ensures ok ==> Published(old(entries), entries, CERT_SUFFIX, CertFiles(certs), c.stuck)
      ensures ok <==> CertsWritable(old(entries), certs, c)
      ensures ok ==> forall i :: 0 <= i < |certs| && LastCert(certs, i) ==>
        && certs[i].fileName in entries
        && entries[certs[i].fileName] == File(
             TrimSpace(certs[i].keyPem) + "\n" + TrimSpace(certs[i].certPem) + "\n"
             + (if Blank(certs[i].chainPem) then "" else TrimSpace(certs[i].chainPem) + "\n"))
      ensures !ok ==> exists k :: 0 <= k <= |certs| && entries == Overlay(old(entries), CertFiles(certs[..k]))
    {
      hide CertFiles, Overlay, Names, Bundle, TrimSpace, Blank, Published, Doomed, LastCert;
      ghost var before := entries;
      NothingYet(before);
      assert certs[..0] == [];
      if !c.ready {
        return false;
      }
      var wanted: set<string> := {};
      for i := 0 to |certs|
        invariant entries == Overlay(before, CertFiles(certs[..i]))
        invariant wanted == Names(CertFiles(certs[..i]))
        invariant Replaceable(before, CertFiles(certs[..i]))
        invariant forall j :: 0 <= j < i ==>
          j !in c.faults && !(certs[j].fileName in before && before[certs[j].fileName].Folder?)
      {
        var cert := certs[i];
        var pem := TrimSpace(cert.keyPem) + "\n";
        pem := pem + TrimSpace(cert.certPem);
        pem := pem + "\n";
        var chain := TrimSpace(cert.chainPem);
        if chain != "" {
          pem := pem + chain;
          pem := pem + "\n";
        }
        BundleParts(cert, pem);
        CertFilesSnoc(certs, i);
        OverlayKeepsFolders(before, CertFiles(certs[..i]), cert.fileName);
        OverlaySnoc(before, CertFiles(certs[..i]), Artifact(cert.fileName, pem));
        wanted := wanted + {cert.fileName};
        var written, _ := WriteFile(cert.fileName, pem, FaultAt(c, i));
        if !written {
          return false;
        }
      }
      assert certs[..|certs|] == certs;
      if !c.scanned {
        return false;
      }
      Prune(CERT_SUFFIX, wanted, c.stuck);
      OverlayThenPrune(before, CERT_SUFFIX, CertFiles(certs), c.stuck);
      CertsHeld(before, entries, certs, c.stuck);
      ok := true;
    }
  }

  lemma NothingYet(dir: Listing)
    ensures PageFiles([]) == [] && CertFiles([]) == []
    ensures Overlay(dir, []) == dir && Names([]) == {}
  {
  }

  lemma BundleParts(c: Certificate, pem: string)
    requires var front := TrimSpace(c.keyPem) + "\n" + TrimSpace(c.certPem) + "\n";
             pem == if TrimSpace(c.chainPem) == "" then front else front + TrimSpace(c.chainPem) + "\n"
    ensures pem == Bundle(c)
  {
    hide TrimSpace;
  }

  lemma CertFilesSnoc(certs: seq<Certificate>, i: nat)
    requires i < |certs|
    ensures CertFiles(certs[..i + 1]) == CertFiles(certs[..i]) + [Artifact(certs[i].fileName, Bundle(certs[i]))]
  {
    assert certs[..i + 1] == certs[..i] + [certs[i]];
    CertFilesConcat(certs[..i], certs[i]);
  }

  lemma {:induction false} CertFilesConcat(certs: seq<Certificate>, c: Certificate)
    ensures CertFiles(certs + [c]) == CertFiles(certs) + [Artifact(c.fileName, Bundle(c))]
  {
    hide Bundle;
    if certs == [] {
      assert certs + [c] == [c] && [c][1..] == [];
    } else {
      assert (certs + [c])[1..] == certs[1..] + [c];
      CertFilesConcat(certs[1..], c);
    }
  }

  lemma PageFilesSnoc(pages: seq<ErrorPage>, i: nat)
    requires i < |pages|
    ensures PageFiles(pages[..i + 1]) ==
      if pages[i].enabled then PageFiles(pages[..i]) + [Artifact(FileName(pages[i]), RawText(pages[i]))]
      else PageFiles(pages[..i])
  {
    assert pages[..i + 1] == pages[..i] + [pages[i]];
    PageFilesConcat(pages[..i], pages[i]);
  }

  lemma {:induction false} PageFilesConcat(pages: seq<ErrorPage>, p: ErrorPage)
    ensures PageFiles(pages + [p]) == PageFiles(pages)
      + (if p.enabled then [Artifact(FileName(p), RawText(p))] else [])
  {
    hide RawText, FileName;
    if pages == [] {
      assert pages + [p] == [p] && [p][1..] == [];
    } else {
      assert (pages + [p])[1..] == pages[1..] + [p];
      PageFilesConcat(pages[1..], p);
    }
  }

  lemma OverlaySnoc(dir: Listing, files: seq<Artifact>, a: Artifact)
    ensures Overlay(dir, files + [a]) == Overlay(dir, files)[a.name := File(a.content)]
    ensures Names(files + [a]) == Names(files) + {a.name}
  {
    assert (files + [a])[..|files|] == files;
    assert forall k :: 0 <= k < |files| ==> (files + [a])[k] == files[k];
    assert (files + [a])[|files|] == a;
  }

  /** A folder stays a folder, and no file becomes one. */
  lemma {:induction false} OverlayKeepsFolders(dir: Listing, files: seq<Artifact>, name: string)
    requires Replaceable(dir, files)
    ensures var full := Overlay(dir, files);
            (name in full && full[name].Folder?) <==> (name in dir && dir[name].Folder?)
  {
    OverlayAt(dir, files, name);
    LastContentNames(files, name);
    if name in Names(files) {
      var k :| 0 <= k < |files| && files[k].name == name;
    }
  }
}
