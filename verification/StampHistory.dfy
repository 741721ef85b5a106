/**
 Stamping: the transition that rewrites the build manifest, and what holds over any series of
 stamps while the sources change arbitrarily in between.
 */
module StampHistory {
  import opened Wrappers
  import opened BuildId
  import opened SourceFraming

  /** The bytes of `src/local_company/`. */
  const SOURCE_ROOT: seq<byte> :=
    [115, 114, 99, 47, 108, 111, 99, 97, 108, 95, 99, 111, 109, 112, 97, 110, 121, 47]

  /** The bytes of `__init__.py`. */
  const INIT: seq<byte> := [95, 95, 105, 110, 105, 116, 95, 95, 46, 112, 121]

  datatype Docstring = Legacy | Current

  /** A manifest that reads as inert Python; `canonical` when its text is exactly the rendered one. */
  datatype Manifest = Manifest(docstring: Docstring, buildId: string, hash: Sha256, canonical: bool)

  /** One look at the sources: package files (paths relative to the package), the operational
      scripts (paths relative to the project), and the version pyproject.toml states. */
  datatype Project = Project(package: seq<Source>, scripts: seq<Source>, projectVersion: string)

  /** Reads the literal version out of the package initializer. */
  type VersionReader = seq<byte> -> Option<string>

  // ----- digests of a project -----

  function Prefixed(files: seq<Source>): (r: seq<Source>)
    ensures |r| == |files|
  {
    if files == [] then []
    else [files[0].(path := SOURCE_ROOT + files[0].path)] + Prefixed(files[1..])
  }

  function ReleaseFiles(p: Project): seq<Source> {
    Prefixed(p.package) + p.scripts
  }

  function Find(files: seq<Source>, path: seq<byte>): Option<seq<byte>> {
    if files == [] then None
    else if files[0].path == path then Some(files[0].content)
    else Find(files[1..], path)
  }

  function DigestOf(files: seq<Source>, domain: seq<byte>): Option<SourceDigest> {
    if Accepted(files, domain)
    then Some(SourceDigest(ShaOf(Stream(files, domain)), |files|, TotalBytes(Sorted(files))))
    else None
  }

  function InitContent(p: Project): Option<seq<byte>> {
    Find(ReleaseFiles(p), SOURCE_ROOT + INIT)
  }

  /** The release digest; the package must hold its initializer. */
  function ReleaseDigest(p: Project): Option<SourceDigest> {
    if Find(p.package, INIT).None? then None else DigestOf(ReleaseFiles(p), RELEASE_DIGEST_DOMAIN)
  }

  function LegacyDigest(package: seq<Source>): Option<SourceDigest> {
    if Find(package, INIT).None? then None else DigestOf(package, [])
  }

  function PackageVersion(p: Project, reader: VersionReader): Option<string> {
    match InitContent(p)
    case None => None
    case Some(content) => if reader(content) == Some(p.projectVersion) then Some(p.projectVersion) else None
  }

  lemma {:induction false} PrefixedHolds(files: seq<Source>, f: Source)
    ensures f in Prefixed(files) <==> exists g :: g in files && f == Source(SOURCE_ROOT + g.path, g.content)
  {
    if files != [] {
      PrefixedHolds(files[1..], f);
      assert files == [files[0]] + files[1..];
    }
  }

  /** The release digest is over the package under its directory and the scripts beside it; it needs the
      package's initializer and tells how many files there are and their bytes. */
  lemma ReleaseDigestTells(p: Project)
    ensures ReleaseDigest(p).Some? <==>
            (exists f :: f in p.package && f.path == INIT) && Accepted(ReleaseFiles(p), RELEASE_DIGEST_DOMAIN)
    ensures ReleaseDigest(p).Some? ==>
              var d := ReleaseDigest(p).value;
              && d.sha256 == ShaOf(Stream(ReleaseFiles(p), RELEASE_DIGEST_DOMAIN))
              && d.fileCount == |p.package| + |p.scripts| && d.totalBytes == TotalBytes(Sorted(ReleaseFiles(p)))
    ensures forall f :: f in ReleaseFiles(p) <==>
              f in p.scripts || exists g :: g in p.package && f == Source(SOURCE_ROOT + g.path, g.content)
  {
    FindIsMember(p.package, INIT);
    forall f
      ensures f in Prefixed(p.package) <==> exists g :: g in p.package && f == Source(SOURCE_ROOT + g.path, g.content)
    {
      PrefixedHolds(p.package, f);
    }
  }

  /** The legacy digest is over the package alone, without a domain. */
  lemma LegacyDigestTells(package: seq<Source>)
    ensures LegacyDigest(package).Some? <==> (exists f :: f in package && f.path == INIT) && Accepted(package, [])
    ensures LegacyDigest(package).Some? ==> LegacyDigest(package).value.sha256 == ShaOf(Stream(package, []))
  {
    FindIsMember(package, INIT);
  }

  datatype Checked = Checked(packageVersion: string, buildId: string, hash: Sha256)

  /** The manifest describes exactly these sources. */
  function CheckProject(file: Option<Manifest>, p: Project, reader: VersionReader): (r: Option<Checked>)
    ensures r.Some? ==> ParseBuildId(r.value.buildId).Some?
    ensures r.Some? ==> file.Some? && r.value.buildId == file.value.buildId && file.value.docstring.Current?
    ensures r.Some? ==> ReleaseDigest(p).Some? && r.value.hash == file.value.hash == ReleaseDigest(p).value.sha256
    ensures r.Some? ==> PackageVersion(p, reader) == Some(r.value.packageVersion)
  {
    if file.None? || ReleaseDigest(p).None? || PackageVersion(p, reader).None? then None
    else if file.value.docstring.Legacy? || ParseBuildId(file.value.buildId).None? then None
    else if file.value.hash != ReleaseDigest(p).value.sha256 then None
    else Some(Checked(PackageVersion(p, reader).value, file.value.buildId, file.value.hash))
  }

  // ----- one stamp -----

  datatype WriteFate = Replaced | FailedBefore | FailedAfter

  /** One request, with what each of its scans sees and how its file replacement fares. */
  datatype Call = Call(
    buildId: string, first: Project, legacyScan: seq<Source>, confirmation: Project,
    verification: Project, fate: WriteFate)

  datatype StampOutcome = Stamped(changed: bool) | Rejected(replacementCommitted: bool)

  function Stamp(file: Option<Manifest>, c: Call, reader: VersionReader): (Option<Manifest>, StampOutcome) {
    var requested := ParseBuildId(c.buildId);
    var digest := ReleaseDigest(c.first);
    if requested.None? || digest.None? || PackageVersion(c.first, reader).None? || file.None? then
      (file, Rejected(false))
    else
      var m := file.value;
      var previous := ParseBuildId(m.buildId);
      if previous.None? || Before(requested.value, previous.value) then (file, Rejected(false))
      else if m.docstring.Legacy? &&
              (LegacyDigest(c.legacyScan).None? || LegacyDigest(c.legacyScan).value.sha256 != m.hash
               || !Before(previous.value, requested.value)) then (file, Rejected(false))
      else if m.docstring.Current? && digest.value.sha256 != m.hash && c.buildId == m.buildId then
        (file, Rejected(false))
      else if ReleaseDigest(c.confirmation) != digest then (file, Rejected(false))
      else
        var updated := Manifest(Current, c.buildId, digest.value.sha256, true);
        if updated != m && c.fate.FailedBefore? then (file, Rejected(false))
        else if updated != m && c.fate.FailedAfter? then (Some(updated), Rejected(true))
        else if CheckProject(Some(updated), c.verification, reader).None? then (Some(updated), Rejected(updated != m))
        else (Some(updated), Stamped(updated != m))
  }

  // ----- when a stamp goes through -----

  /** The build a stamp asks for may stand in place of the manifest: never an older one; a strictly newer one
      when the sources differ from those it describes, or when it has the legacy digest, which must then be
      that of the package as it is. */
  predicate MayStamp(m: Manifest, c: Call) {
    && ParseBuildId(m.buildId).Some? && ParseBuildId(c.buildId).Some? && ReleaseDigest(c.first).Some?
    && var was, asked := ParseBuildId(m.buildId).value, ParseBuildId(c.buildId).value;
       if m.docstring.Legacy? then
         && Before(was, asked)
         && LegacyDigest(c.legacyScan).Some? && LegacyDigest(c.legacyScan).value.sha256 == m.hash
       else if m.hash == ReleaseDigest(c.first).value.sha256 then !Before(asked, was)
       else Before(was, asked)
  }

  /** What the manifest says after a stamp: the build asked for and the digest of its first scan. */
  function Stamps(c: Call): Manifest
    requires ReleaseDigest(c.first).Some?
  {
    Manifest(Current, c.buildId, ReleaseDigest(c.first).value.sha256, true)
  }

  /** The checks before anything is written all pass. */
  predicate ReadyToStamp(file: Option<Manifest>, c: Call, reader: VersionReader) {
    && file.Some? && MayStamp(file.value, c) && PackageVersion(c.first, reader).Some?
    && ReleaseDigest(c.confirmation) == ReleaseDigest(c.first)
  }

  /** The sources still are, after the write, those that were scanned. */
  predicate StillThose(c: Call, reader: VersionReader) {
    && ReleaseDigest(c.first).Some? && ReleaseDigest(c.verification).Some?
    && PackageVersion(c.verification, reader).Some?
    && ReleaseDigest(c.verification).value.sha256 == ReleaseDigest(c.first).value.sha256
  }

  /** One ID stands for one order. */
  lemma OrdersTell(a: string, b: string)
    requires ParseBuildId(a).Some? && ParseBuildId(b).Some?
    ensures a == b <==>
            && !Before(ParseBuildId(a).value, ParseBuildId(b).value)
            && !Before(ParseBuildId(b).value, ParseBuildId(a).value)
  {
    if ParseBuildId(a) == ParseBuildId(b) {
      ParseInjective(a, b);
    }
  }

  /** The manifest file of a project, replaced in place by a stamp. */
  class ManifestFile {
    var content: Option<Manifest>

    constructor (content: Option<Manifest>)
      ensures this.content == content
    {
      this.content := content;
    }

    method StampProject(c: Call, reader: VersionReader) returns (r: StampOutcome)
      modifies this`content
      ensures (content, r) == Stamp(old(content), c, reader)
      ensures r.Stamped? <==>
                && ReadyToStamp(old(content), c, reader)
                && (old(content) != Some(Stamps(c)) ==> c.fate.Replaced?)
                && StillThose(c, reader)
      ensures r.Stamped? ==> content == Some(Stamps(c)) && (r.changed <==> content != old(content))
      ensures content != old(content) <==>
                ReadyToStamp(old(content), c, reader) && old(content) != Some(Stamps(c)) && !c.fate.FailedBefore?
      ensures content != old(content) ==> content == Some(Stamps(c))
      ensures r.Rejected? ==> (r.replacementCommitted <==> content != old(content))
    {
      var requested := ParseBuildId(c.buildId);
      if requested.None? {
        return Rejected(false);
      }
      var digest := ReleaseDigest(c.first);
      if digest.None? || PackageVersion(c.first, reader).None? || content.None? {
        return Rejected(false);
      }
      var m := content.value;
      var previous := ParseBuildId(m.buildId);
      if previous.Some? {
        OrdersTell(c.buildId, m.buildId);
      }
      if previous.None? || Before(requested.value, previous.value) {
        return Rejected(false);
      }
      if m.docstring.Legacy? {
        var legacy := LegacyDigest(c.legacyScan);
        if legacy.None? || legacy.value.sha256 != m.hash || !Before(previous.value, requested.value) {
          return Rejected(false);
        }
      } else if digest.value.sha256 != m.hash && c.buildId == m.buildId {
        return Rejected(false);
      }
      if ReleaseDigest(c.confirmation) != digest {
        return Rejected(false);
      }
      var updated := Manifest(Current, c.buildId, digest.value.sha256, true);
      var differs := updated != m;
      if differs {
        if c.fate.FailedBefore? {
          return Rejected(false);
        }
        content := Some(updated);
        if c.fate.FailedAfter? {
          return Rejected(true);
        }
      }
      var verified := CheckProject(content, c.verification, reader);
      if verified.None? {
        return Rejected(differs);
      }
      r := Stamped(differs);
    }
  }

  // ----- series of stamps -----

  function RunStamps(file: Option<Manifest>, calls: seq<Call>, reader: VersionReader): Option<Manifest> {
    if calls == [] then file
    else Stamp(RunStamps(file, calls[..|calls| - 1], reader), calls[|calls| - 1], reader).0
  }

  /** What may stand in the manifest after `a`: `a` itself, or a build that is not older, and that
      is the same in every respect the digest covers when it has the same ID. */
  predicate MayFollow(a: Manifest, b: Manifest) {
    a == b ||
    (&& ParseBuildId(a.buildId).Some? && ParseBuildId(b.buildId).Some?
     && !Before(ParseBuildId(b.buildId).value, ParseBuildId(a.buildId).value)
     && (a.buildId == b.buildId ==> a.hash == b.hash && a.docstring == b.docstring))
  }

  lemma StampMayFollow(file: Option<Manifest>, c: Call, reader: VersionReader)
    ensures var after := Stamp(file, c, reader).0;
            && after.Some? == file.Some?
            && (file.Some? ==> MayFollow(file.value, after.value))
  {
  }

  lemma MayFollowTransitive(a: Manifest, b: Manifest, c: Manifest)
    requires MayFollow(a, b) && MayFollow(b, c)
    ensures MayFollow(a, c)
  {
    if a != b && b != c && a.buildId == c.buildId {
      assert ParseBuildId(a.buildId) == ParseBuildId(b.buildId);
      ParseInjective(a.buildId, b.buildId);
    }
  }

  lemma {:induction false} EarlierManifest(file: Option<Manifest>, calls: seq<Call>, reader: VersionReader, i: nat)
    requires i <= |calls|
    ensures var a, b := RunStamps(file, calls[..i], reader), RunStamps(file, calls, reader);
            && a.Some? == file.Some? && b.Some? == file.Some?
            && (file.Some? ==> MayFollow(a.value, b.value))
  {
    var n := |calls|;
    if i == n {
      assert calls[..i] == calls;
      if n > 0 {
        EarlierManifest(file, calls[..n - 1], reader, n - 1);
        assert calls[..n - 1][..n - 1] == calls[..n - 1];
        StampMayFollow(RunStamps(file, calls[..n - 1], reader), calls[n - 1], reader);
      }
    } else {
      EarlierManifest(file, calls[..n - 1], reader, i);
      assert calls[..n - 1][..i] == calls[..i];
      StampMayFollow(RunStamps(file, calls[..n - 1], reader), calls[n - 1], reader);
      if file.Some? {
        MayFollowTransitive(RunStamps(file, calls[..i], reader).value,
                            RunStamps(file, calls[..n - 1], reader).value, RunStamps(file, calls, reader).value);
      }
    }
  }

  /** Over any stamps, failed and interrupted ones included: the build order never goes back, and
      one build ID never stands beside two digests. */
  lemma NeverBackNeverReused(
    file: Option<Manifest>, calls: seq<Call>, reader: VersionReader, i: nat, j: nat)
    requires file.Some? && i <= j <= |calls|
    ensures var a, b := RunStamps(file, calls[..i], reader), RunStamps(file, calls[..j], reader);
            && a.Some? && b.Some?
            && (ParseBuildId(a.value.buildId).Some? && ParseBuildId(b.value.buildId).Some? ==>
                  !Before(ParseBuildId(b.value.buildId).value, ParseBuildId(a.value.buildId).value))
            && (a.value.buildId == b.value.buildId ==> a.value.hash == b.value.hash)
  {
    EarlierManifest(file, calls[..j], reader, i);
    assert calls[..j][..i] == calls[..i];
  }

  /** A manifest that reports a legacy digest is replaced only by a strictly newer build. */
  lemma MigrationAdvances(file: Option<Manifest>, c: Call, reader: VersionReader)
    requires file.Some? && file.value.docstring.Legacy?
    requires Stamp(file, c, reader).0 != file
    ensures Before(ParseBuildId(file.value.buildId).value, ParseBuildId(c.buildId).value)
    ensures file.value.hash == ShaOf(Stream(c.legacyScan, []))
    ensures Stamp(file, c, reader).0.value.hash != file.value.hash
  {
    if LegacyDigest(c.legacyScan).Some? && ReleaseDigest(c.first).Some? {
      CoverageShows(c.first, c.legacyScan);
    }
  }

  /** The two kinds of digest never coincide, whatever the files. */
  lemma CoverageShows(p: Project, package: seq<Source>)
    requires LegacyDigest(package).Some? && ReleaseDigest(p).Some?
    ensures LegacyDigest(package).value.sha256 != ReleaseDigest(p).value.sha256
  {
    SortedBounds(package);
    DomainSeparates(Sorted(ReleaseFiles(p)), Sorted(package));
    assert Stream(package, []) == Frame(Sorted(package));
  }

  // ----- the digest fixes the version -----

  lemma {:induction false} FindIsMember(files: seq<Source>, path: seq<byte>)
    ensures Find(files, path).Some? ==> Source(path, Find(files, path).value) in files
    ensures forall f :: f in files && f.path == path ==> Find(files, path).Some?
  {
    if files != [] {
      FindIsMember(files[1..], path);
      assert files == [files[0]] + files[1..];
    }
  }

  lemma FindAgrees(a: seq<Source>, b: seq<Source>, path: seq<byte>)
    requires SameFiles(a, b) && DistinctPaths(a)
    ensures Find(a, path) == Find(b, path)
  {
    FindIsMember(a, path);
    FindIsMember(b, path);
    if Find(a, path).Some? {
      var f := Source(path, Find(a, path).value);
      assert f in b;
    }
    if Find(b, path).Some? {
      var g := Source(path, Find(b, path).value);
      assert g in a;
    }
  }

  /** Two checked projects with the same release hash state the same package version. */
  lemma SameHashSameVersion(
    m: Option<Manifest>, p: Project, n: Option<Manifest>, q: Project, reader: VersionReader)
    requires CheckProject(m, p, reader).Some? && CheckProject(n, q, reader).Some?
    requires m.value.hash == n.value.hash
    ensures CheckProject(m, p, reader).value.packageVersion == CheckProject(n, q, reader).value.packageVersion
  {
    StreamDeterminesFiles(ReleaseFiles(p), ReleaseFiles(q), RELEASE_DIGEST_DOMAIN);
    FindAgrees(ReleaseFiles(p), ReleaseFiles(q), SOURCE_ROOT + INIT);
  }
}
