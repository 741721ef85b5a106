/**
 The private pilot bundle: what the builder puts together and what the verifier accepts. Archives are
 lists of members, SHA-256 is symbolic, and the manifest's text is read back by `decode`.
 */
module PilotBundle {
  import opened Wrappers
  import opened SourceFraming

  const MAX_ARCHIVE_BYTES := 64 * 1024 * 1024
  const MAX_MEMBER_BYTES := 4 * 1024 * 1024
  const MAX_TOTAL_BYTES := 64 * 1024 * 1024
  const MAX_MEMBERS := 512

  const SLASH: byte := 47
  const BACKSLASH: byte := 92
  const DOT: byte := 46

  /** The bytes of an ASCII text. */
  function Ascii(s: string): (r: seq<byte>)
    ensures |r| == |s| && forall i :: 0 <= i < |s| ==> r[i] == s[i] as nat % 256
  {
    seq(|s|, i requires 0 <= i < |s| => s[i] as nat % 256)
  }

  const MANIFEST_NAME := "BUNDLE-MANIFEST.json"
  const README_NAME := "BUNDLE-README.txt"

  // ----- archives and manifests -----

  datatype Mode = NoMode | RegularFile | OtherMode

  datatype Member = Member(name: seq<byte>, content: seq<byte>, packed: nat, mode: Mode)

  datatype Archive = Damaged | Archive(size: nat, members: seq<Member>)

  datatype Record = Record(path: seq<byte>, bytes: int, digest: Sha256)

  /** `proper` says that version, build ID and source digest have their prescribed forms. */
  datatype Build = Build(packageVersion: string, buildId: string, sourceDigest: string, proper: bool)

  /** `standard` says that schema, statuses and prerequisites are the prescribed ones. */
  datatype Manifest = Manifest(standard: bool, bundleId: string, build: Build, files: seq<Record>)

  /** How manifests are written and read, how a bundle is identified (12 hex digits of a hash), and how
      well contents and archives pack. */
  datatype Codec = Codec(
    manifestName: seq<byte>, readmeName: seq<byte>,
    encode: Manifest -> seq<byte>, decode: seq<byte> -> Option<Manifest>, identify: (Build, seq<Record>) -> string,
    pack: seq<byte> -> nat, archiveSize: seq<Member> -> nat)

  ghost predicate Reads(x: Codec) {
    forall m :: x.decode(x.encode(m)) == Some(m)
  }

  // ----- names -----

  /** The parts of a name between slashes. */
  function Parts(name: seq<byte>): (r: seq<seq<byte>>)
    ensures r != []
  {
    if name == [] then [[]]
    else
      var r := Parts(name[1..]);
      if name[0] == SLASH then [[]] + r else [[name[0]] + r[0]] + r[1..]
  }

  /** _safe_member_name: relative, with plain slashes, and never a step up. */
  predicate SafeName(name: seq<byte>) {
    && name != [] && BACKSLASH !in name && 0 !in name && name[0] != SLASH
    && [DOT, DOT] !in Parts(name)
  }

  lemma {:induction false} OnePart(name: seq<byte>)
    requires SLASH !in name
    ensures Parts(name) == [name]
  {
    if name != [] {
      assert name == [name[0]] + name[1..];
      OnePart(name[1..]);
    }
  }

  /** Letters, `-`, `.` and `_` only. */
  predicate IsPlain(name: seq<byte>) {
    forall i :: 0 <= i < |name| ==>
                  45 <= name[i] <= 46 || 65 <= name[i] <= 90 || name[i] == 95 || 97 <= name[i] <= 122
  }

  predicate IsPlainText(s: string) {
    forall i :: 0 <= i < |s| ==>
                  s[i] == '-' || s[i] == '.' || 'A' <= s[i] <= 'Z' || s[i] == '_' || 'a' <= s[i] <= 'z'
  }

  lemma PlainAscii(s: string)
    requires IsPlainText(s)
    ensures IsPlain(Ascii(s))
  {
    forall i | 0 <= i < |s|
      ensures 45 <= s[i] as nat <= 46 || 65 <= s[i] as nat <= 90 || s[i] as nat == 95 || 97 <= s[i] as nat <= 122
    {
      assert '-' as nat == 45 && '.' as nat == 46 && 'A' as nat == 65 && 'Z' as nat == 90;
      assert '_' as nat == 95 && 'a' as nat == 97 && 'z' as nat == 122;
    }
  }

  lemma PlainNameIsSafe(name: seq<byte>)
    requires |name| > 2 && IsPlain(name)
    ensures SafeName(name) && SLASH !in name && BACKSLASH !in name && 0 !in name
    ensures Parts(name) == [name]
  {
    OnePart(name);
  }

  // ----- the names the builder packs -----

  /** The commands among ROOT_FILES, without `.cmd`. */
  function RootCommand(i: nat): string
    requires i < 7
  {
    match i
    case 0 => "company-mcp"
    case 1 => "local-ai-menu"
    case 2 => "local-ai"
    case 3 => "local-code"
    case 4 => "local-company-agent"
    case 5 => "local-company"
    case _ => "setup-local-ai"
  }

  /** ROOT_FILES. */
  function RootFile(i: nat): string
    requires i < 9
  {
    if i == 0 then "PRODUCT.md" else if i == 8 then "pyproject.toml" else RootCommand(i - 1) + ".cmd"
  }

  datatype Directory = SourceDirectory | ScriptsDirectory | TestsDirectory

  function DirectoryPath(d: Directory): seq<byte> {
    match d
    case SourceDirectory => Ascii("src") + [SLASH] + Ascii("local_company")
    case ScriptsDirectory => Ascii("scripts")
    case TestsDirectory => Ascii("tests")
  }

  /** A name the selection finds: a root file, or a file of a directory. */
  datatype Name = InRoot(index: nat) | InDirectory(directory: Directory, leaf: seq<byte>)

  function Lower(b: byte): byte {
    if 65 <= b <= 90 then b + 32 else b
  }

  /** Patterns match any letter case, as they do on Windows. */
  predicate EndsWith(s: seq<byte>, suffix: seq<byte>) {
    |suffix| <= |s| && forall k :: 0 <= k < |suffix| ==> Lower(s[|s| - |suffix| + k]) == suffix[k]
  }

  const PY: seq<byte> := [46, 112, 121]
  const PS1: seq<byte> := [46, 112, 115, 49]

  /** The root files, and what SOURCE_PATTERNS match. A file's own name has no slash and no NUL. */
  predicate IsSelected(n: Name) {
    match n
    case InRoot(i) => i < 9
    case InDirectory(d, leaf) =>
      && SLASH !in leaf && 0 !in leaf
      && (EndsWith(leaf, PY) || (d.ScriptsDirectory? && EndsWith(leaf, PS1)))
  }

  function PathOf(n: Name): seq<byte>
    requires IsSelected(n)
  {
    match n
    case InRoot(i) => Ascii(RootFile(i))
    case InDirectory(d, leaf) => DirectoryPath(d) + [SLASH] + leaf
  }

  predicate IsTail(b: byte) {
    0x80 <= b <= 0xBF
  }

  /** Well-formed UTF-8: no overlong form, no surrogate, nothing above U+10FFFF. */
  predicate IsUtf8(s: seq<byte>) {
    if s == [] then true
    else if s[0] < 0x80 then IsUtf8(s[1..])
    else if |s| < 2 || !IsTail(s[1]) then false
    else if 0xC2 <= s[0] <= 0xDF then IsUtf8(s[2..])
    else if |s| < 3 || !IsTail(s[2]) then false
    else if 0xE0 <= s[0] <= 0xEF then
      (s[0] == 0xE0 ==> s[1] >= 0xA0) && (s[0] == 0xED ==> s[1] <= 0x9F) && IsUtf8(s[3..])
    else if |s| < 4 || !IsTail(s[3]) then false
    else
      0xF0 <= s[0] <= 0xF4 && (s[0] == 0xF0 ==> s[1] >= 0x90) && (s[0] == 0xF4 ==> s[1] <= 0x8F) && IsUtf8(s[4..])
  }

  /** Off Windows a file's own name can be any bytes; only text can be written into the archive. */
  predicate IsText(n: Name) {
    n.InDirectory? ==> IsUtf8(n.leaf)
  }

  /** Only off Windows can a file's own name hold a backslash. */
  predicate IsPortable(n: Name) {
    n.InDirectory? ==> BACKSLASH !in n.leaf
  }

  lemma FirstPart(c: byte, s: seq<byte>)
    ensures Parts([c] + s) == if c == SLASH then [[]] + Parts(s) else [[c] + Parts(s)[0]] + Parts(s)[1..]
  {
    assert ([c] + s)[1..] == s;
  }

  /** Putting one byte in front of the first of some parts, and more parts behind them. */
  lemma PartsInFront(c: byte, q: seq<seq<byte>>, p: seq<seq<byte>>)
    requires q != []
    ensures [[c] + (q + p)[0]] + (q + p)[1..] == ([[c] + q[0]] + q[1..]) + p
    ensures [[]] + (q + p) == ([[]] + q) + p
  {
  }

  lemma {:induction false} PartsFrom(a: seq<byte>, rest: seq<byte>, b: seq<byte>)
    requires rest == [SLASH] + b
    ensures Parts(a + rest) == Parts(a) + Parts(b)
    decreases |a|
  {
    if a == [] {
      FirstPart(SLASH, b);
      assert a + rest == rest;
    } else {
      PartsFrom(a[1..], rest, b);
      PartsInFront(a[0], Parts(a[1..]), Parts(b));
      FirstPart(a[0], a[1..]);
      FirstPart(a[0], a[1..] + rest);
      FirstApart(a, rest);
    }
  }

  lemma PartsJoin(a: seq<byte>, b: seq<byte>)
    ensures Parts(a + [SLASH] + b) == Parts(a) + Parts(b)
  {
    PartsFrom(a, [SLASH] + b, b);
    assert a + [SLASH] + b == a + ([SLASH] + b);
  }

  const B: byte := 66

  lemma RootCommandIsPlain(i: nat)
    requires i < 7
    ensures IsPlainText(RootCommand(i)) && |RootCommand(i)| > 2 && RootCommand(i)[0] != 'B'
  {
  }

  lemma PlainCommand(stem: string, suffix: string)
    requires IsPlainText(stem) && |stem| > 2 && stem[0] != 'B' && IsPlainText(suffix)
    ensures IsPlainText(stem + suffix) && (stem + suffix)[0] != 'B'
  {
  }

  lemma CommandSuffixIsPlain()
    ensures IsPlainText(".cmd")
  {
  }

  lemma RootFileIsPlain(i: nat)
    requires i < 9
    ensures IsPlainText(RootFile(i)) && |RootFile(i)| > 2 && RootFile(i)[0] != 'B'
  {
    if 0 < i < 8 {
      RootCommandIsPlain(i - 1);
      CommandSuffixIsPlain();
      PlainCommand(RootCommand(i - 1), ".cmd");
    }
  }

  predicate IsSafeDirectory(p: seq<byte>) {
    p != [] && BACKSLASH !in p && 0 !in p && p[0] != SLASH && p[0] != B && [DOT, DOT] !in Parts(p)
  }

  lemma JoinedDirectory(a: seq<byte>, b: seq<byte>)
    requires IsSafeDirectory(a) && BACKSLASH !in b && 0 !in b && [DOT, DOT] !in Parts(b)
    ensures IsSafeDirectory(a + [SLASH] + b)
  {
    PartsJoin(a, b);
  }

  lemma DirectoryIsSafe(d: Directory)
    ensures IsSafeDirectory(DirectoryPath(d))
  {
    match d {
      case SourceDirectory =>
        PlainDirectory("src");
        PlainDirectory("local_company");
        JoinedDirectory(Ascii("src"), Ascii("local_company"));
      case ScriptsDirectory => PlainDirectory("scripts");
      case TestsDirectory => PlainDirectory("tests");
    }
  }

  lemma PlainDirectory(s: string)
    requires |s| > 2 && IsPlainText(s) && s[0] != 'B'
    ensures IsSafeDirectory(Ascii(s)) && SLASH !in Ascii(s)
  {
    PlainAscii(s);
    PlainNameIsSafe(Ascii(s));
    assert 'B' as nat == 66 && s[0] as nat < 256;
  }

  /** Every selected name is one the verifier takes, unless it holds a backslash; none is the readme's or
      the manifest's. */
  lemma SelectedNames(n: Name)
    requires IsSelected(n)
    ensures SafeName(PathOf(n)) <==> IsPortable(n)
    ensures PathOf(n) != [] && PathOf(n)[0] != B && PathOf(n)[|PathOf(n)| - 1] != SLASH
  {
    var p := PathOf(n);
    match n {
      case InRoot(i) =>
        RootFileIsPlain(i);
        PlainDirectory(RootFile(i));
      case InDirectory(d, leaf) =>
        DirectoryIsSafe(d);
        PartsJoin(DirectoryPath(d), leaf);
        OnePart(leaf);
        assert leaf[|leaf| - 1] == p[|p| - 1];
    }
  }

  /** Two selected names the bundle fails on: one that is not text, and one with a backslash. */
  lemma NamesThatFail()
    ensures var bad := InDirectory(TestsDirectory, [0xFF] + PY);
            IsSelected(bad) && IsPortable(bad) && !IsText(bad)
    ensures var bad := InDirectory(TestsDirectory, [BACKSLASH] + PY);
            IsSelected(bad) && IsText(bad) && !IsPortable(bad)
  {
    var leaf := [BACKSLASH] + PY;
    assert leaf[1..] == PY && PY[1..] == [112, 121] && PY[1..][1..] == [121] && PY[1..][1..][1..] == [];
  }

  // ----- what the verifier accepts -----

  predicate IsDirectory(name: seq<byte>) {
    name != [] && name[|name| - 1] == SLASH
  }

  predicate SafeMember(m: Member) {
    && !IsDirectory(m.name) && SafeName(m.name)
    && |m.content| <= MAX_MEMBER_BYTES && m.packed <= MAX_MEMBER_BYTES
    && !m.mode.OtherMode?
  }

  function Total(members: seq<Member>): nat {
    if members == [] then 0 else Total(members[..|members| - 1]) + |members[|members| - 1].content|
  }

  predicate DistinctNames(members: seq<Member>) {
    forall i, j :: 0 <= i < j < |members| ==> members[i].name != members[j].name
  }

  predicate Holds(members: seq<Member>, name: seq<byte>) {
    exists m :: m in members && m.name == name
  }

  /** bundle.read: the content of the last member with the name. */
  function ReadMember(members: seq<Member>, name: seq<byte>): (r: Option<seq<byte>>)
    ensures r.Some? <==> Holds(members, name)
    ensures r.Some? ==> exists m :: m in members && m.name == name && m.content == r.value
  {
    if members == [] then None
    else
      var last := members[|members| - 1];
      assert members == members[..|members| - 1] + [last];
      if last.name == name then Some(last.content) else ReadMember(members[..|members| - 1], name)
  }

  predicate GoodRecord(x: Codec, members: seq<Member>, r: Record) {
    && SafeName(r.path) && r.path != x.manifestName && 0 <= r.bytes <= MAX_MEMBER_BYTES
    && match ReadMember(members, r.path)
       case None => false
       case Some(content) => |content| == r.bytes && r.digest == ShaOf(content)
  }

  ghost predicate OrderedRecords(files: seq<Record>) {
    forall i, j :: 0 <= i < j < |files| ==> Less(files[i].path, files[j].path)
  }

  predicate Listed(files: seq<Record>, name: seq<byte>) {
    exists r :: r in files && r.path == name
  }

  /** The manifest describes exactly the other members, and identifies them. */
  ghost predicate Describes(x: Codec, members: seq<Member>, m: Manifest) {
    && m.standard && m.build.proper
    && 1 <= |m.files| < MAX_MEMBERS
    && (forall r :: r in m.files ==> GoodRecord(x, members, r))
    && OrderedRecords(m.files)
    && (forall e :: e in members ==> e.name == x.manifestName || Listed(m.files, e.name))
    && m.bundleId == x.identify(m.build, m.files)
  }

  ghost predicate SoundMembers(members: seq<Member>) {
    && 1 <= |members| <= MAX_MEMBERS && DistinctNames(members)
    && (forall m :: m in members ==> SafeMember(m))
    && Total(members) <= MAX_TOTAL_BYTES
  }

  ghost predicate Accepted(x: Codec, a: Archive) {
    && a.Archive? && 1 <= a.size <= MAX_ARCHIVE_BYTES
    && SoundMembers(a.members)
    && match ReadMember(a.members, x.manifestName)
       case None => false
       case Some(content) => x.decode(content).Some? && Describes(x, a.members, x.decode(content).value)
  }

  datatype Verified = Verified(bundleId: string, fileCount: nat, sourceBytes: nat)

  datatype Failure =
    | SizeInvalid | MembersInvalid | MemberUnsafe | ExpansionLimit | ManifestMissing | ManifestInvalid
    | BuildInvalid | FilesInvalid | RecordInvalid | OrderInvalid | Unmanifested | IdentityInvalid | ArchiveInvalid

  function SumBytes(files: seq<Record>): int {
    if files == [] then 0 else SumBytes(files[..|files| - 1]) + files[|files| - 1].bytes
  }

  /** What a refusal says is true of the archive. */
  ghost predicate Explains(why: Failure, x: Codec, a: Archive) {
    match a
    case Damaged => why.ArchiveInvalid?
    case Archive(size, members) =>
      match why
      case ArchiveInvalid => false
      case SizeInvalid => size == 0 || size > 67108864
      case MembersInvalid => |members| == 0 || |members| > 512 || !DistinctNames(members)
      case MemberUnsafe => exists m :: m in members && !SafeMember(m)
      case ExpansionLimit => Total(members) > 67108864
      case ManifestMissing => !Holds(members, x.manifestName)
      case _ =>
        && IsAboutManifest(why) && Holds(members, x.manifestName)
        && Contradicts(why, x, members, x.decode(ReadMember(members, x.manifestName).value))
  }

  predicate IsAboutManifest(why: Failure) {
    || why.ManifestInvalid? || why.BuildInvalid? || why.FilesInvalid? || why.RecordInvalid? || why.OrderInvalid?
    || why.Unmanifested? || why.IdentityInvalid?
  }

  /** What a refusal says of the manifest, as it is read, and of the members. */
  ghost predicate Contradicts(why: Failure, x: Codec, members: seq<Member>, manifest: Option<Manifest>) {
    match manifest
    case None => why.ManifestInvalid?
    case Some(m) =>
      match why
      case ManifestInvalid => !m.standard
      case BuildInvalid => !m.build.proper
      case FilesInvalid => |m.files| == 0 || |m.files| > 511
      case RecordInvalid => exists r :: r in m.files && !GoodRecord(x, members, r)
      case OrderInvalid => !OrderedRecords(m.files)
      case Unmanifested => exists e :: e in members && e.name != x.manifestName && !Listed(m.files, e.name)
      case IdentityInvalid => m.bundleId != x.identify(m.build, m.files)
      case _ => false
  }

  /** The checks on the members, before the manifest is read. */
  method CheckMembers(members: seq<Member>) returns (failure: Option<Failure>)
    ensures failure.None? <==> SoundMembers(members)
    ensures failure.Some? ==> match failure.value
                              case MembersInvalid => |members| == 0 || |members| > 512 || !DistinctNames(members)
                              case MemberUnsafe => exists m :: m in members && !SafeMember(m)
                              case ExpansionLimit => Total(members) > MAX_TOTAL_BYTES
                              case _ => false
  {
    if !(1 <= |members| <= MAX_MEMBERS) || !DistinctNames(members) { return Some(MembersInvalid); }
    var i, total := 0, 0;
    while i < |members|
      invariant i <= |members| && total == Total(members[..i])
      invariant forall m :: m in members[..i] ==> SafeMember(m)
    {
      if !SafeMember(members[i]) {
        assert members[i] in members;
        return Some(MemberUnsafe);
      }
      assert members[..i + 1] == members[..i] + [members[i]];
      assert members[..i + 1][..i] == members[..i];
      total := total + |members[i].content|;
      i := i + 1;
    }
    assert members[..i] == members;
    if total > MAX_TOTAL_BYTES { return Some(ExpansionLimit); }
    return None;
  }

  /** The loop over the manifest's records: each is checked against its member. */
  method CheckRecords(x: Codec, members: seq<Member>, files: seq<Record>) returns (failure: Option<Failure>, total: int)
    ensures failure.None? <==> (forall r :: r in files ==> GoodRecord(x, members, r)) && OrderedRecords(files)
    ensures failure.None? ==> total == SumBytes(files)
    ensures failure.Some? ==> match failure.value
                              case RecordInvalid => exists r :: r in files && !GoodRecord(x, members, r)
                              case OrderInvalid => !OrderedRecords(files)
                              case _ => false
  {
    total := 0;
    var i := 0;
    while i < |files|
      invariant i <= |files| && total == SumBytes(files[..i])
      invariant forall r :: r in files[..i] ==> GoodRecord(x, members, r)
    {
      if !GoodRecord(x, members, files[i]) {
        assert files[i] in files;
        return Some(RecordInvalid), total;
      }
      assert files[..i + 1] == files[..i] + [files[i]];
      assert files[..i + 1][..i] == files[..i];
      total := total + files[i].bytes;
      i := i + 1;
    }
    assert files[..i] == files;
    NeighboursOrder(files);
    if !InOrder(files) { return Some(OrderInvalid), total; }
    return None, total;
  }

  /** Equal to its own sorting and without repetition: each path below the next. */
  predicate InOrder(files: seq<Record>) {
    forall i :: 0 < i < |files| ==> Less(files[i - 1].path, files[i].path)
  }

  lemma {:induction false} NeighboursOrder(files: seq<Record>)
    ensures InOrder(files) <==> OrderedRecords(files)
  {
    if InOrder(files) && |files| > 1 {
      var n := |files| - 1;
      NeighboursOrder(files[..n]);
      forall i | 0 <= i < n ensures Less(files[i].path, files[n].path) {
        if i < n - 1 {
          assert Less(files[..n][i].path, files[..n][n - 1].path);
          LessTransitive(files[i].path, files[n - 1].path, files[n].path);
        }
      }
    }
  }

  /** The checks on the manifest as it was read. */
  method CheckManifest(x: Codec, members: seq<Member>, m: Manifest) returns (failure: Option<Failure>, total: nat)
    requires m.standard
    ensures failure.None? <==> Describes(x, members, m)
    ensures failure.Some? ==> IsAboutManifest(failure.value) && Contradicts(failure.value, x, members, Some(m))
    ensures failure.None? ==> total == SumBytes(m.files)
  {
    if !m.build.proper { return Some(BuildInvalid), 0; }
    if !(1 <= |m.files| < MAX_MEMBERS) { return Some(FilesInvalid), 0; }
    var sum;
    failure, sum := CheckRecords(x, members, m.files);
    if failure.Some? { return failure, 0; }
    if exists e :: e in members && e.name != x.manifestName && !Listed(m.files, e.name) {
      return Some(Unmanifested), 0;
    }
    if m.bundleId != x.identify(m.build, m.files) { return Some(IdentityInvalid), 0; }
    SumIsNatural(x, members, m.files);
    return None, sum;
  }

  /** The verifier: it accepts exactly the archives whose manifest describes them. */
  method VerifyBundle(x: Codec, a: Archive) returns (r: Result<Verified, Failure>)
    ensures r.Ok? <==> Accepted(x, a)
    ensures r.Err? ==> Explains(r.error, x, a)
    ensures r.Ok? ==> var m := x.decode(ReadMember(a.members, x.manifestName).value).value;
                      && r.value.bundleId == m.bundleId && r.value.fileCount == |m.files|
                      && r.value.sourceBytes == SumBytes(m.files)
  {
    if a.Damaged? { return Err(ArchiveInvalid); }
    if !(1 <= a.size <= MAX_ARCHIVE_BYTES) { return Err(SizeInvalid); }
    var failure := CheckMembers(a.members);
    if failure.Some? { return Err(failure.value); }
    var text := ReadMember(a.members, x.manifestName);
    if text.None? { return Err(ManifestMissing); }
    var decoded := x.decode(text.value);
    if decoded.None? || !decoded.value.standard { return Err(ManifestInvalid); }
    var total;
    failure, total := CheckManifest(x, a.members, decoded.value);
    if failure.Some? { return Err(failure.value); }
    return Ok(Verified(decoded.value.bundleId, |decoded.value.files|, total));
  }

  lemma {:induction false} SumIsNatural(x: Codec, members: seq<Member>, files: seq<Record>)
    requires forall r :: r in files ==> GoodRecord(x, members, r)
    ensures SumBytes(files) >= 0
  {
    if files != [] {
      assert files[|files| - 1] in files;
      SumIsNatural(x, members, files[..|files| - 1]);
    }
  }

  // ----- accepted archives hold what their manifest says -----

  /** In an accepted archive every member but the manifest is a record's file, and every record has
      its member with exactly the recorded content. */
  lemma AcceptedMembers(x: Codec, a: Archive, e: Member)
    requires Accepted(x, a)
    ensures var m := x.decode(ReadMember(a.members, x.manifestName).value).value;
            e in a.members && e.name != x.manifestName ==>
              Record(e.name, |e.content|, ShaOf(e.content)) in m.files
  {
    var m := x.decode(ReadMember(a.members, x.manifestName).value).value;
    if e in a.members && e.name != x.manifestName {
      var r :| r in m.files && r.path == e.name;
      assert GoodRecord(x, a.members, r);
      var d :| d in a.members && d.name == r.path && Some(d.content) == ReadMember(a.members, r.path);
      SameName(a.members, d, e);
    }
  }

  lemma SameName(members: seq<Member>, d: Member, e: Member)
    requires DistinctNames(members) && d in members && e in members && d.name == e.name
    ensures d == e
  {
    var i :| 0 <= i < |members| && members[i] == d;
    var j :| 0 <= j < |members| && members[j] == e;
    assert i == j;
  }

  /** Two accepted archives with the same manifest hold the same files. */
  lemma EqualManifestsEqualFiles(x: Codec, a: Archive, b: Archive, e: Member)
    requires Accepted(x, a) && Accepted(x, b)
    requires x.decode(ReadMember(a.members, x.manifestName).value)
             == x.decode(ReadMember(b.members, x.manifestName).value)
    requires e in a.members && e.name != x.manifestName
    ensures exists f :: f in b.members && f.name == e.name && f.content == e.content
  {
    AcceptedMembers(x, a, e);
    var m := x.decode(ReadMember(b.members, x.manifestName).value).value;
    var r := Record(e.name, |e.content|, ShaOf(e.content));
    assert r in m.files && GoodRecord(x, b.members, r);
  }

  // ----- what the builder makes -----

  function RecordsOf(files: seq<Source>): (r: seq<Record>)
    ensures |r| == |files|
    ensures forall i :: 0 <= i < |r| ==> r[i] == Record(files[i].path, |files[i].content|, ShaOf(files[i].content))
  {
    if files == [] then []
    else
      var n := |files| - 1;
      RecordsOf(files[..n]) + [Record(files[n].path, |files[n].content|, ShaOf(files[n].content))]
  }

  function MemberOf(x: Codec, f: Source): Member {
    Member(f.path, f.content, x.pack(f.content), RegularFile)
  }

  function MembersOf(x: Codec, files: seq<Source>): (r: seq<Member>)
    ensures |r| == |files|
    ensures forall i :: 0 <= i < |r| ==> r[i] == MemberOf(x, files[i])
  {
    if files == [] then [] else MembersOf(x, files[..|files| - 1]) + [MemberOf(x, files[|files| - 1])]
  }

  function ManifestOf(x: Codec, build: Build, files: seq<Source>): Manifest {
    Manifest(true, x.identify(build, RecordsOf(files)), build, RecordsOf(files))
  }

  /** The archive over files in name order. */
  function BundleOf(x: Codec, build: Build, files: seq<Source>): Archive {
    var manifest := Source(x.manifestName, x.encode(ManifestOf(x, build, files)));
    var members := MembersOf(x, files) + [MemberOf(x, manifest)];
    Archive(x.archiveSize(members), members)
  }

  /** The verifier's limits, and names it takes: what a bundle over any files can still fail. */
  ghost predicate Takes(x: Codec, build: Build, files: seq<Source>) {
    var a := BundleOf(x, build, files);
    && build.proper && 1 <= a.size <= MAX_ARCHIVE_BYTES && |a.members| <= MAX_MEMBERS && files != []
    && (forall m :: m in a.members ==> SafeMember(m)) && Total(a.members) <= MAX_TOTAL_BYTES
    && forall f :: f in files ==> f.path != x.manifestName
  }

  lemma ReadUnique(members: seq<Member>, e: Member)
    requires DistinctNames(members) && e in members
    ensures ReadMember(members, e.name) == Some(e.content)
  {
    var d :| d in members && d.name == e.name && Some(d.content) == ReadMember(members, e.name);
    SameName(members, d, e);
  }

  lemma BuiltNames(x: Codec, build: Build, files: seq<Source>)
    requires Ordered(files) && forall f :: f in files ==> f.path != x.manifestName
    ensures DistinctNames(BundleOf(x, build, files).members)
  {
    var members := BundleOf(x, build, files).members;
    forall i, j | 0 <= i < j < |members| ensures members[i].name != members[j].name {
      assert files[i] in files;
      if j < |files| {
        LessTotal(files[i].path, files[j].path);
      }
    }
  }

  lemma BuiltRecord(x: Codec, build: Build, files: seq<Source>, i: nat)
    requires Ordered(files) && Takes(x, build, files) && i < |files|
    ensures GoodRecord(x, BundleOf(x, build, files).members, RecordsOf(files)[i])
  {
    var members := BundleOf(x, build, files).members;
    BuiltNames(x, build, files);
    var e := MemberOf(x, files[i]);
    assert members[i] == e && e in members;
    ReadUnique(members, e);
    assert files[i] in files && SafeMember(e);
  }

  lemma BuiltManifest(x: Codec, build: Build, files: seq<Source>)
    requires Reads(x) && Ordered(files) && forall f :: f in files ==> f.path != x.manifestName
    ensures var a := BundleOf(x, build, files);
            && ReadMember(a.members, x.manifestName).Some?
            && x.decode(ReadMember(a.members, x.manifestName).value) == Some(ManifestOf(x, build, files))
  {
    BuiltNames(x, build, files);
    var members := BundleOf(x, build, files).members;
    var e := members[|files|];
    assert e in members && e.name == x.manifestName;
    ReadUnique(members, e);
  }

  lemma BuiltIsDescribed(x: Codec, build: Build, files: seq<Source>)
    requires Ordered(files) && Takes(x, build, files)
    ensures Describes(x, BundleOf(x, build, files).members, ManifestOf(x, build, files))
  {
    var members := BundleOf(x, build, files).members;
    var records := RecordsOf(files);
    forall r | r in records ensures GoodRecord(x, members, r) {
      var i :| 0 <= i < |records| && records[i] == r;
      BuiltRecord(x, build, files, i);
    }
    forall e | e in members ensures e.name == x.manifestName || Listed(records, e.name) {
      var i :| 0 <= i < |members| && members[i] == e;
      if i < |files| {
        assert records[i] in records && records[i].path == e.name;
      }
    }
  }

  lemma TakenIsAccepted(x: Codec, build: Build, files: seq<Source>)
    requires Reads(x) && Ordered(files) && Takes(x, build, files)
    ensures Accepted(x, BundleOf(x, build, files))
  {
    BuiltNames(x, build, files);
    BuiltManifest(x, build, files);
    BuiltIsDescribed(x, build, files);
  }

  lemma AcceptedIsTaken(x: Codec, build: Build, files: seq<Source>)
    requires Reads(x) && Ordered(files) && Accepted(x, BundleOf(x, build, files))
    ensures Takes(x, build, files)
  {
    NoFileIsTheManifest(x, build, files);
    BuiltManifest(x, build, files);
  }

  /** Nothing about manifest, hashes, order or identifier can fail, whatever the files. */
  lemma BundleIsAccepted(x: Codec, build: Build, files: seq<Source>)
    requires Reads(x) && Ordered(files)
    ensures Accepted(x, BundleOf(x, build, files)) <==> Takes(x, build, files)
  {
    if Takes(x, build, files) {
      TakenIsAccepted(x, build, files);
    }
    if Accepted(x, BundleOf(x, build, files)) {
      AcceptedIsTaken(x, build, files);
    }
  }

  lemma NoFileIsTheManifest(x: Codec, build: Build, files: seq<Source>)
    requires Accepted(x, BundleOf(x, build, files))
    ensures forall f :: f in files ==> f.path != x.manifestName
  {
    var manifest := Source(x.manifestName, x.encode(ManifestOf(x, build, files)));
    assert BundleOf(x, build, files).members == MembersOf(x, files) + [MemberOf(x, manifest)];
    LastIsApart(x, files, manifest);
  }

  lemma LastIsApart(x: Codec, files: seq<Source>, last: Source)
    requires DistinctNames(MembersOf(x, files) + [MemberOf(x, last)])
    ensures forall f :: f in files ==> f.path != last.path
  {
    var members := MembersOf(x, files) + [MemberOf(x, last)];
    forall i | 0 <= i < |files| ensures files[i].path != last.path {
      assert members[i].name == files[i].path && members[|files|].name == last.path;
    }
  }

  // ----- the files the builder packs -----

  datatype Selected = Selected(name: Name, content: seq<byte>)

  predicate AllSelected(selected: seq<Selected>) {
    forall s :: s in selected ==> IsSelected(s.name)
  }

  predicate AllText(selected: seq<Selected>) {
    forall s :: s in selected ==> IsText(s.name)
  }

  predicate AllPortable(selected: seq<Selected>) {
    forall s :: s in selected ==> IsPortable(s.name)
  }

  /** A set of paths: no file is found twice. */
  predicate EachOnce(selected: seq<Selected>)
    requires AllSelected(selected)
  {
    forall i, j :: 0 <= i < j < |selected| ==> PathOf(selected[i].name) != PathOf(selected[j].name)
  }

  function Sources(selected: seq<Selected>): (r: seq<Source>)
    requires AllSelected(selected)
    ensures |r| == |selected|
    ensures forall i :: 0 <= i < |r| ==> r[i] == Source(PathOf(selected[i].name), selected[i].content)
  {
    seq(|selected|, i requires 0 <= i < |selected| => Source(PathOf(selected[i].name), selected[i].content))
  }

  /** The two scripts' own names. */
  predicate OwnNames(x: Codec) {
    x.manifestName == Ascii(MANIFEST_NAME) && x.readmeName == Ascii(README_NAME)
  }

  /** Names an added file can have beside any selected one. */
  predicate IsAddedName(name: seq<byte>) {
    SafeName(name) && !IsDirectory(name) && name[0] == B
  }

  lemma AddedName(s: string)
    requires |s| > 2 && IsPlainText(s) && s[0] == 'B'
    ensures IsAddedName(Ascii(s))
  {
    PlainAscii(s);
    PlainNameIsSafe(Ascii(s));
    assert 'B' as nat == 66;
  }

  lemma OwnTextsArePlain()
    ensures IsPlainText(MANIFEST_NAME) && |MANIFEST_NAME| == 20 && MANIFEST_NAME[0] == 'B'
    ensures IsPlainText(README_NAME) && |README_NAME| == 17 && README_NAME[0] == 'B'
  {
  }

  lemma OwnNamesAreAdded(x: Codec)
    requires OwnNames(x)
    ensures IsAddedName(x.manifestName) && IsAddedName(x.readmeName) && x.manifestName != x.readmeName
  {
    OwnTextsArePlain();
    AddedName(MANIFEST_NAME);
    AddedName(README_NAME);
  }

  /** The sources with the readme, in name order. */
  function Payloads(x: Codec, selected: seq<Selected>, readme: seq<byte>): seq<Source>
    requires AllSelected(selected)
  {
    Sorted(Sources(selected) + [Source(x.readmeName, readme)])
  }

  predicate AllSafe(files: seq<Source>) {
    forall f :: f in files ==> SafeName(f.path)
  }

  /** Files, none of them named like the manifest. */
  predicate NoneIsManifest(x: Codec, files: seq<Source>) {
    forall f :: f in files ==> f.path != x.manifestName && !IsDirectory(f.path)
  }

  lemma SourceName(selected: seq<Selected>, i: nat)
    requires AllSelected(selected) && i < |selected|
    ensures Sources(selected)[i] in Sources(selected) && selected[i] in selected
    ensures SafeName(Sources(selected)[i].path) <==> IsPortable(selected[i].name)
    ensures var path := Sources(selected)[i].path; path != [] && path[0] != B && !IsDirectory(path)
  {
    assert selected[i] in selected;
    SelectedNames(selected[i].name);
  }

  lemma SourceNames(selected: seq<Selected>)
    requires AllSelected(selected)
    ensures AllSafe(Sources(selected)) <==> AllPortable(selected)
    ensures forall f :: f in Sources(selected) ==> f.path != [] && f.path[0] != B && !IsDirectory(f.path)
  {
    var sources := Sources(selected);
    forall f | f in sources
      ensures f.path != [] && f.path[0] != B && !IsDirectory(f.path)
      ensures AllPortable(selected) ==> SafeName(f.path)
    {
      var i :| 0 <= i < |sources| && sources[i] == f;
      SourceName(selected, i);
    }
    forall s | s in selected
      ensures AllSafe(sources) ==> IsPortable(s.name)
    {
      var i :| 0 <= i < |selected| && selected[i] == s;
      SourceName(selected, i);
    }
  }

  /** Adding a file under a name of its own. */
  lemma AddFile(x: Codec, sources: seq<Source>, added: Source)
    requires IsAddedName(x.manifestName) && IsAddedName(added.path) && added.path != x.manifestName
    requires forall f :: f in sources ==> f.path != [] && f.path[0] != B && !IsDirectory(f.path)
    ensures NoneIsManifest(x, sources + [added])
    ensures AllSafe(sources + [added]) <==> AllSafe(sources)
    ensures DistinctPaths(sources) ==> DistinctPaths(sources + [added])
  {
    forall f | f in sources ensures f in sources + [added] {
    }
    assert added in sources + [added];
    forall i | 0 <= i < |sources| ensures sources[i].path != added.path {
      assert sources[i] in sources;
    }
  }

  lemma SameFilesSameNames(x: Codec, a: seq<Source>, b: seq<Source>)
    requires SameFiles(a, b)
    ensures NoneIsManifest(x, a) <==> NoneIsManifest(x, b)
    ensures AllSafe(a) <==> AllSafe(b)
  {
  }

  lemma PayloadFiles(x: Codec, selected: seq<Selected>, readme: seq<byte>)
    requires OwnNames(x) && AllSelected(selected) && EachOnce(selected)
    ensures var files := Payloads(x, selected, readme);
            && Ordered(files) && |files| == |selected| + 1 && NoneIsManifest(x, files)
            && (AllSafe(files) <==> AllPortable(selected))
  {
    var all := Sources(selected) + [Source(x.readmeName, readme)];
    OwnNamesAreAdded(x);
    SourceNames(selected);
    AddFile(x, Sources(selected), Source(x.readmeName, readme));
    SortedElements(all);
    SortedOrders(all);
    SameFilesSameNames(x, all, Sorted(all));
  }

  /** The verifier's size and count limits, and a proper build. */
  ghost predicate Fits(x: Codec, build: Build, files: seq<Source>) {
    var a := BundleOf(x, build, files);
    && build.proper && 1 <= a.size <= MAX_ARCHIVE_BYTES && |a.members| <= MAX_MEMBERS
    && (forall m :: m in a.members ==> WithinLimits(m)) && Total(a.members) <= MAX_TOTAL_BYTES
  }

  predicate WithinLimits(m: Member) {
    |m.content| <= MAX_MEMBER_BYTES && m.packed <= MAX_MEMBER_BYTES
  }

  lemma BundleMembers(x: Codec, build: Build, files: seq<Source>)
    requires IsAddedName(x.manifestName) && NoneIsManifest(x, files)
    ensures var members := BundleOf(x, build, files).members;
            (forall m :: m in members ==> SafeMember(m))
            <==> AllSafe(files) && forall m :: m in members ==> WithinLimits(m)
  {
    var members := BundleOf(x, build, files).members;
    forall i | 0 <= i < |members|
      ensures SafeMember(members[i]) <==> SafeName(members[i].name) && WithinLimits(members[i])
    {
      assert i < |files| ==> files[i] in files && members[i] == MemberOf(x, files[i]);
    }
    if forall m :: m in members ==> SafeMember(m) {
      forall f | f in files ensures SafeName(f.path) {
        var i :| 0 <= i < |files| && files[i] == f;
        assert members[i] in members;
      }
    }
    if AllSafe(files) {
      forall i | 0 <= i < |members| ensures SafeName(members[i].name) {
        assert i < |files| ==> files[i] in files && members[i] == MemberOf(x, files[i]);
      }
    }
  }

  lemma TakesMeansFits(x: Codec, build: Build, files: seq<Source>)
    requires files != [] && IsAddedName(x.manifestName) && NoneIsManifest(x, files)
    ensures Takes(x, build, files) <==> Fits(x, build, files) && AllSafe(files)
  {
    BundleMembers(x, build, files);
  }

  /** The archive the builder writes, if every name can be written. */
  function WrittenBundle(x: Codec, build: Build, selected: seq<Selected>, readme: seq<byte>): Option<Archive>
    requires AllSelected(selected)
  {
    if AllText(selected) then Some(BundleOf(x, build, Payloads(x, selected, readme))) else None
  }

  /** The bundle over any selected files is written and accepted exactly when it keeps the verifier's size
      and count limits, the build has its prescribed form, and every file's own name is UTF-8 text without
      a backslash, as every name on Windows is but for unpaired surrogates. */
  lemma BuiltBundleIsAccepted(x: Codec, build: Build, selected: seq<Selected>, readme: seq<byte>)
    requires Reads(x) && OwnNames(x) && AllSelected(selected) && EachOnce(selected)
    ensures var bundle := WrittenBundle(x, build, selected, readme);
            bundle.Some? && Accepted(x, bundle.value) <==>
            Fits(x, build, Payloads(x, selected, readme)) && AllText(selected) && AllPortable(selected)
  {
    var files := Payloads(x, selected, readme);
    PayloadFiles(x, selected, readme);
    OwnNamesAreAdded(x);
    BundleIsAccepted(x, build, files);
    TakesMeansFits(x, build, files);
  }

  // ----- the build -----

  datatype BuildFailure = SourceTooLarge | SourcesTooLarge | PersonalPath | NameNotText | NotVerified(why: Failure)

  function Sizes(files: seq<Source>): nat {
    if files == [] then 0 else Sizes(files[..|files| - 1]) + |files[|files| - 1].content|
  }

  predicate AllSmall(files: seq<Source>) {
    forall f :: f in files ==> |f.content| <= MAX_MEMBER_BYTES
  }

  ghost predicate Selectable(files: seq<Source>, personal: seq<byte> -> bool) {
    AllSmall(files) && (forall f :: f in files ==> !personal(f.content)) && Sizes(files) <= MAX_TOTAL_BYTES
  }

  lemma OneMoreSource(files: seq<Source>, i: nat)
    requires i < |files|
    ensures Sizes(files[..i + 1]) == Sizes(files[..i]) + |files[i].content|
    ensures AllSmall(files[..i + 1]) <==> AllSmall(files[..i]) && |files[i].content| <= MAX_MEMBER_BYTES
  {
    assert files[..i + 1] == files[..i] + [files[i]];
    assert files[..i + 1][..i] == files[..i];
  }

  /** The limits on the selected sources, and the search for personal paths in them. */
  method CheckSources(files: seq<Source>, personal: seq<byte> -> bool) returns (failure: Option<BuildFailure>)
    ensures failure.None? <==> Selectable(files, personal)
    ensures failure.Some? ==> match failure.value
                              case SourceTooLarge => exists f :: f in files && |f.content| > 4194304
                              case SourcesTooLarge => Sizes(files) > 67108864
                              case PersonalPath => exists f :: f in files && personal(f.content)
                              case _ => false
  {
    var i, total := 0, 0;
    while i < |files|
      invariant i <= |files| && total == Sizes(files[..i])
      invariant AllSmall(files[..i])
    {
      if |files[i].content| > MAX_MEMBER_BYTES {
        assert files[i] in files;
        return Some(SourceTooLarge);
      }
      OneMoreSource(files, i);
      total := total + |files[i].content|;
      i := i + 1;
    }
    assert files[..i] == files;
    if total > MAX_TOTAL_BYTES { return Some(SourcesTooLarge); }
    if exists f :: f in files && personal(f.content) { return Some(PersonalPath); }
    return None;
  }

  /** The builder: the sources and the readme in name order, their records, the manifest, and a last
      look by the verifier. The identifier the verifier reports is the manifest's own. */
  method BuildBundle(x: Codec, build: Build, selected: seq<Selected>, readme: seq<byte>, personal: seq<byte> -> bool)
    returns (r: Result<(Archive, Verified), BuildFailure>)
    requires Reads(x) && OwnNames(x) && AllSelected(selected) && EachOnce(selected)
    ensures var files := Payloads(x, selected, readme);
            && (r.Ok? <==> && Selectable(Sources(selected), personal) && Fits(x, build, files)
                           && AllText(selected) && AllPortable(selected))
            && (r == Err(NameNotText) <==> Selectable(Sources(selected), personal) && !AllText(selected))
            && (r.Ok? ==> && r.value.0 == BundleOf(x, build, files)
                          && r.value.1.bundleId == x.identify(build, RecordsOf(files))
                          && r.value.1.fileCount == |selected| + 1)
  {
    var failure := CheckSources(Sources(selected), personal);
    if failure.Some? { return Err(failure.value); }
    if !AllText(selected) { return Err(NameNotText); }
    var payloads := Payloads(x, selected, readme);
    PayloadFiles(x, selected, readme);
    var archive := BundleOf(x, build, payloads);
    BuiltBundleIsAccepted(x, build, selected, readme);
    var verified := VerifyBundle(x, archive);
    if verified.Err? { return Err(NotVerified(verified.error)); }
    BuiltManifest(x, build, payloads);
    return Ok((archive, verified.value));
  }
}
