/**
 The framed byte stream behind a release digest: every file contributes a 4-byte big-endian path
 length, the path, an 8-byte big-endian content length and the content, in path order.
 */
module SourceFraming {
  import opened Wrappers

  const MAX_SOURCE_FILES := 512
  const MAX_SOURCE_FILE_BYTES := 4 * 1024 * 1024
  const MAX_SOURCE_BYTES := 32 * 1024 * 1024
  const MAX_RELATIVE_PATH_BYTES := 4 * 1024

  /** The bytes of `local-company.release-source.v1` and a zero. */
  const RELEASE_DIGEST_DOMAIN: seq<byte> :=
    [108, 111, 99, 97, 108, 45, 99, 111, 109, 112, 97, 110, 121, 46, 114, 101, 108, 101, 97, 115, 101,
     45, 115, 111, 117, 114, 99, 101, 46, 118, 49, 0]

  type byte = b: nat | b < 256

  datatype Source = Source(path: seq<byte>, content: seq<byte>)

  // ----- big-endian lengths -----

  function Pow256(width: nat): (p: nat)
    ensures p > 0
  {
    if width == 0 then 1 else 256 * Pow256(width - 1)
  }

  function BigEndian(n: nat, width: nat): (s: seq<byte>)
    ensures |s| == width
  {
    if width == 0 then [] else BigEndian(n / 256, width - 1) + [n % 256]
  }

  function FromBigEndian(s: seq<byte>): nat {
    if s == [] then 0 else 256 * FromBigEndian(s[..|s| - 1]) + s[|s| - 1]
  }

  lemma {:induction false} BigEndianRoundTrip(n: nat, width: nat)
    requires n < Pow256(width)
    ensures FromBigEndian(BigEndian(n, width)) == n
  {
    if width > 0 {
      assert n / 256 < Pow256(width - 1);
      BigEndianRoundTrip(n / 256, width - 1);
      assert BigEndian(n, width)[..width - 1] == BigEndian(n / 256, width - 1);
    }
  }

  lemma Widths()
    ensures Pow256(4) == 0x1_0000_0000
    ensures Pow256(8) == 0x1_0000_0000_0000_0000
  {
    assert Pow256(2) == 65536;
    assert Pow256(5) == 256 * Pow256(4);
    assert Pow256(6) == 65536 * Pow256(4);
  }

  // ----- the stream and its reader -----

  function Record(f: Source): seq<byte> {
    BigEndian(|f.path|, 4) + f.path + BigEndian(|f.content|, 8) + f.content
  }

  function Frame(files: seq<Source>): seq<byte> {
    if files == [] then [] else Record(files[0]) + Frame(files[1..])
  }

  /** Reads one record off the front of a stream. */
  function ReadRecord(s: seq<byte>): (r: Option<(Source, seq<byte>)>)
    ensures r.Some? ==> |r.value.1| < |s|
  {
    if |s| < 4 then None
    else
      var n := FromBigEndian(s[..4]);
      if |s| < 4 + n + 8 then None
      else
        var m := FromBigEndian(s[4 + n..4 + n + 8]);
        if |s| < 4 + n + 8 + m then None
        else Some((Source(s[4..4 + n], s[4 + n + 8..4 + n + 8 + m]), s[4 + n + 8 + m..]))
  }

  function Unframe(s: seq<byte>): Option<seq<Source>>
    decreases |s|
  {
    if s == [] then Some([])
    else
      match ReadRecord(s)
      case None => None
      case Some((f, rest)) =>
        match Unframe(rest)
        case None => None
        case Some(files) => Some([f] + files)
  }

  predicate Bounded(f: Source) {
    |f.path| <= MAX_RELATIVE_PATH_BYTES && |f.content| <= MAX_SOURCE_FILE_BYTES
  }

  predicate AllBounded(files: seq<Source>) {
    forall i :: 0 <= i < |files| ==> Bounded(files[i])
  }

  lemma FiveParts(a: seq<byte>, b: seq<byte>, c: seq<byte>, d: seq<byte>, e: seq<byte>)
    ensures var s, i, j, k := a + b + c + d + e, |a| + |b|, |a| + |b| + |c|, |a| + |b| + |c| + |d|;
            s[..|a|] == a && s[|a|..i] == b && s[i..j] == c && s[j..k] == d && s[k..] == e
  {
  }

  lemma RecordReadsBack(f: Source, rest: seq<byte>)
    requires Bounded(f)
    ensures ReadRecord(Record(f) + rest) == Some((f, rest))
  {
    Widths();
    BigEndianRoundTrip(|f.path|, 4);
    BigEndianRoundTrip(|f.content|, 8);
    FiveParts(BigEndian(|f.path|, 4), f.path, BigEndian(|f.content|, 8), f.content, rest);
  }

  /** A framed stream can be read back: lengths and bytes alone determine the files. */
  lemma {:induction false} FrameRoundTrip(files: seq<Source>)
    requires AllBounded(files)
    ensures Unframe(Frame(files)) == Some(files)
  {
    if files != [] {
      RecordReadsBack(files[0], Frame(files[1..]));
      FrameRoundTrip(files[1..]);
      assert files == [files[0]] + files[1..];
    }
  }

  /** Two lists of files that give the same stream are the same list. */
  lemma FrameInjective(a: seq<Source>, b: seq<Source>)
    requires AllBounded(a) && AllBounded(b) && Frame(a) == Frame(b)
    ensures a == b
  {
    FrameRoundTrip(a);
    FrameRoundTrip(b);
  }

  lemma FourBytes(a: byte, b: byte, c: byte, d: byte)
    ensures FromBigEndian([a, b, c, d]) == ((a * 256 + b) * 256 + c) * 256 + d
  {
    assert [a, b, c, d][..3] == [a, b, c];
    assert [a, b, c][..2] == [a, b];
    assert [a, b][..1] == [a];
    assert [a][..0] == [];
    assert FromBigEndian([a]) == a;
    assert FromBigEndian([a, b]) == a * 256 + b;
    assert FromBigEndian([a, b, c]) == (a * 256 + b) * 256 + c;
  }

  /** A stream that opens with the release domain is never a stream without one: read as a path
      length, the first four domain bytes exceed the path limit by far. */
  lemma DomainSeparates(a: seq<Source>, b: seq<Source>)
    requires AllBounded(b)
    ensures RELEASE_DIGEST_DOMAIN + Frame(a) != Frame(b)
  {
    if b == [] {
      assert |RELEASE_DIGEST_DOMAIN + Frame(a)| > 0;
    } else {
      Widths();
      BigEndianRoundTrip(|b[0].path|, 4);
      assert Frame(b)[..4] == BigEndian(|b[0].path|, 4);
      var d := (RELEASE_DIGEST_DOMAIN + Frame(a))[..4];
      assert d == [108, 111, 99, 97];
      FourBytes(108, 111, 99, 97);
    }
  }

  // ----- path order -----

  predicate Less(a: seq<byte>, b: seq<byte>) {
    b != [] && (a == [] || a[0] < b[0] || (a[0] == b[0] && Less(a[1..], b[1..])))
  }

  lemma {:induction false} LessTotal(a: seq<byte>, b: seq<byte>)
    ensures Less(a, b) || Less(b, a) || a == b
    ensures !(Less(a, b) && Less(b, a)) && !Less(a, a)
  {
    if a != [] && b != [] {
      LessTotal(a[1..], b[1..]);
      LessTotal(a[1..], a[1..]);
      assert a == [a[0]] + a[1..] && b == [b[0]] + b[1..];
    } else if a != [] {
      LessTotal(a[1..], a[1..]);
    }
  }

  lemma {:induction false} LessTransitive(a: seq<byte>, b: seq<byte>, c: seq<byte>)
    requires Less(a, b) && Less(b, c)
    ensures Less(a, c)
  {
    if a != [] && a[0] == b[0] == c[0] {
      LessTransitive(a[1..], b[1..], c[1..]);
    }
  }

  ghost predicate Ordered(files: seq<Source>) {
    forall i, j :: 0 <= i < j < |files| ==> Less(files[i].path, files[j].path)
  }

  predicate DistinctPaths(files: seq<Source>) {
    forall i, j :: 0 <= i < j < |files| ==> files[i].path != files[j].path
  }

  function Insert(f: Source, files: seq<Source>): seq<Source> {
    if files == [] || !Less(files[0].path, f.path) then [f] + files
    else [files[0]] + Insert(f, files[1..])
  }

  /** The files in path order. */
  function Sorted(files: seq<Source>): seq<Source> {
    if files == [] then [] else Insert(files[0], Sorted(files[1..]))
  }

  /** The two lists hold the same files. */
  ghost predicate SameFiles(a: seq<Source>, b: seq<Source>) {
    forall g :: g in a <==> g in b
  }

  lemma {:induction false} InsertElements(f: Source, files: seq<Source>)
    ensures |Insert(f, files)| == |files| + 1
    ensures forall g :: g in Insert(f, files) <==> g == f || g in files
  {
    if files != [] && Less(files[0].path, f.path) {
      InsertElements(f, files[1..]);
      assert files == [files[0]] + files[1..];
    }
  }

  lemma {:induction false} InsertOrders(f: Source, files: seq<Source>)
    requires Ordered(files) && forall g :: g in files ==> g.path != f.path
    ensures Ordered(Insert(f, files))
  {
    if files == [] {
    } else if !Less(files[0].path, f.path) {
      assert files[0] in files;
      LessTotal(files[0].path, f.path);
      forall j | 1 <= j < |files|
        ensures Less(f.path, files[j].path)
      {
        LessTransitive(f.path, files[0].path, files[j].path);
      }
    } else {
      var rest := files[1..];
      forall g | g in rest
        ensures g.path != f.path && Less(files[0].path, g.path)
      {
        assert g in files;
      }
      InsertOrders(f, rest);
      InsertElements(f, rest);
      PrependOrders(files[0], Insert(f, rest));
    }
  }

  lemma PrependOrders(f: Source, files: seq<Source>)
    requires Ordered(files) && forall g :: g in files ==> Less(f.path, g.path)
    ensures Ordered([f] + files)
  {
    forall j | 0 <= j < |files|
      ensures Less(f.path, files[j].path)
    {
      assert files[j] in files;
    }
  }

  lemma {:induction false} SortedElements(files: seq<Source>)
    ensures |Sorted(files)| == |files|
    ensures SameFiles(Sorted(files), files)
  {
    if files != [] {
      SortedElements(files[1..]);
      assert files == [files[0]] + files[1..];
      InsertElements(files[0], Sorted(files[1..]));
    }
  }

  lemma {:induction false} SortedOrders(files: seq<Source>)
    requires DistinctPaths(files)
    ensures Ordered(Sorted(files))
  {
    if files != [] {
      SortedOrders(files[1..]);
      SortedElements(files[1..]);
      forall g | g in Sorted(files[1..])
        ensures g.path != files[0].path
      {
        assert g in files[1..];
      }
      InsertOrders(files[0], Sorted(files[1..]));
    }
  }

  lemma FirstIsLeast(files: seq<Source>, g: Source)
    requires Ordered(files) && g in files
    ensures g == files[0] || Less(files[0].path, g.path)
  {
  }

  lemma TailWithoutFirst(files: seq<Source>, g: Source)
    requires Ordered(files) && files != []
    ensures g in files[1..] <==> g in files && g != files[0]
  {
    assert files == [files[0]] + files[1..];
    LessTotal(files[0].path, files[0].path);
    if g in files[1..] {
      var k :| 0 <= k < |files[1..]| && files[1..][k] == g;
      assert Less(files[0].path, files[k + 1].path);
    }
  }

  lemma SomeMember(files: seq<Source>)
    ensures files != [] <==> exists g :: g in files
  {
    if files != [] {
      assert files[0] in files;
    }
  }

  /** A set of files has one listing in path order. */
  lemma {:induction false} OrderedUnique(a: seq<Source>, b: seq<Source>)
    requires Ordered(a) && Ordered(b) && SameFiles(a, b)
    ensures a == b
  {
    SomeMember(a);
    SomeMember(b);
    if a != [] {
      assert a[0] in b && b[0] in a;
      FirstIsLeast(b, a[0]);
      FirstIsLeast(a, b[0]);
      LessTotal(a[0].path, b[0].path);
      assert a[0] == b[0];
      forall g
        ensures g in a[1..] <==> g in b[1..]
      {
        TailWithoutFirst(a, g);
        TailWithoutFirst(b, g);
      }
      OrderedUnique(a[1..], b[1..]);
      assert a == [a[0]] + a[1..] && b == [b[0]] + b[1..];
    }
  }

  // ----- the digest -----

  /** A SHA-256 value: the digest of a known stream, or some other 64-digit text. */
  datatype Sha256 = ShaOf(stream: seq<byte>) | OtherHex(text: string)

  datatype SourceDigest = SourceDigest(sha256: Sha256, fileCount: nat, totalBytes: nat)

  datatype FramingError =
    | FileSetInvalid | DomainInvalid | PathTooLong | FileTooLarge | TreeTooLarge

  function TotalBytes(files: seq<Source>): nat {
    if files == [] then 0 else TotalBytes(files[..|files| - 1]) + |files[|files| - 1].content|
  }

  predicate Accepted(files: seq<Source>, domain: seq<byte>) {
    && 0 < |files| <= MAX_SOURCE_FILES && DistinctPaths(files) && |domain| <= 256
    && AllBounded(files) && TotalBytes(Sorted(files)) <= MAX_SOURCE_BYTES
  }

  function Stream(files: seq<Source>, domain: seq<byte>): seq<byte> {
    domain + Frame(Sorted(files))
  }

  lemma {:induction false} FrameSnoc(files: seq<Source>, f: Source)
    ensures Frame(files + [f]) == Frame(files) + Record(f)
  {
    if files == [] {
      assert [f][1..] == [];
      assert files + [f] == [f];
    } else {
      assert (files + [f])[1..] == files[1..] + [f];
      FrameSnoc(files[1..], f);
    }
  }

  lemma {:induction false} TotalMonotone(files: seq<Source>, n: nat)
    requires n <= |files|
    ensures TotalBytes(files[..n]) <= TotalBytes(files)
  {
    if n < |files| {
      assert files[..|files| - 1][..n] == files[..n];
      TotalMonotone(files[..|files| - 1], n);
    } else {
      assert files[..n] == files;
    }
  }

  lemma SortedBounds(files: seq<Source>)
    ensures AllBounded(Sorted(files)) <==> AllBounded(files)
  {
    SortedElements(files);
    if AllBounded(files) {
      forall i | 0 <= i < |Sorted(files)|
        ensures Bounded(Sorted(files)[i])
      {
        assert Sorted(files)[i] in files;
      }
    }
    if AllBounded(Sorted(files)) {
      forall i | 0 <= i < |files|
        ensures Bounded(files[i])
      {
        assert files[i] in Sorted(files);
      }
    }
  }

  method HasDuplicatePath(files: seq<Source>) returns (duplicate: bool)
    ensures duplicate <==> !DistinctPaths(files)
  {
    var seen: set<seq<byte>> := {};
    for i := 0 to |files|
      invariant forall p :: p in seen <==> exists k :: 0 <= k < i && files[k].path == p
      invariant DistinctPaths(files[..i])
    {
      if files[i].path in seen {
        return true;
      }
      seen := seen + {files[i].path};
    }
    assert files[..|files|] == files;
    duplicate := false;
  }

  /** What a refusal says is true of the files, whose limits are 512 files, 4096 bytes for a path, 4 MiB for a
      file and 32 MiB in all. */
  predicate Refuses(e: FramingError, files: seq<Source>, domain: seq<byte>) {
    match e
    case FileSetInvalid => |files| == 0 || |files| > 512 || !DistinctPaths(files)
    case DomainInvalid => |domain| > 256
    case PathTooLong => exists f :: f in files && |f.path| > 4096
    case FileTooLarge => exists f :: f in files && |f.content| > 4194304
    case TreeTooLarge => TotalBytes(Sorted(files)) > 33554432
  }

  lemma AcceptedExactly(files: seq<Source>, domain: seq<byte>)
    ensures Accepted(files, domain) <==> forall e :: !Refuses(e, files, domain)
  {
    if forall e :: !Refuses(e, files, domain) {
      assert !Refuses(FileSetInvalid, files, domain) && !Refuses(DomainInvalid, files, domain);
      assert !Refuses(PathTooLong, files, domain) && !Refuses(FileTooLarge, files, domain);
      assert !Refuses(TreeTooLarge, files, domain);
    }
  }

  /** Hashes the files in path order; fails exactly when a limit is exceeded or a path repeats. */
  method CalculateFramedDigest(files: seq<Source>, domain: seq<byte>)
    returns (r: Result<SourceDigest, FramingError>)
    ensures r.Ok? <==> Accepted(files, domain)
    ensures r.Ok? <==> forall e :: !Refuses(e, files, domain)
    ensures r.Err? ==> Refuses(r.error, files, domain)
    ensures r.Ok? ==> r.value == SourceDigest(ShaOf(Stream(files, domain)), |files|, TotalBytes(Sorted(files)))
  {
    AcceptedExactly(files, domain);
    if files == [] || |files| > MAX_SOURCE_FILES {
      return Err(FileSetInvalid);
    }
    var duplicate := HasDuplicatePath(files);
    if duplicate {
      return Err(FileSetInvalid);
    }
    if |domain| > 256 {
      return Err(DomainInvalid);
    }
    SortedBounds(files);
    SortedElements(files);
    r := HashInOrder(Sorted(files), domain);
  }

  /** The four updates of the running hash for one file. */
  function Updated(stream: seq<byte>, f: Source): seq<byte> {
    stream + BigEndian(|f.path|, 4) + f.path + BigEndian(|f.content|, 8) + f.content
  }

  /** The running hash and total after the first `n` files, all of them within their limits. */
  ghost predicate Hashed(ordered: seq<Source>, n: nat, domain: seq<byte>, stream: seq<byte>, total: nat)
    requires n <= |ordered|
  {
    && stream == domain + Frame(ordered[..n]) && total == TotalBytes(ordered[..n]) <= MAX_SOURCE_BYTES
    && AllBounded(ordered[..n])
  }

  method HashInOrder(ordered: seq<Source>, domain: seq<byte>) returns (r: Result<SourceDigest, FramingError>)
    ensures r.Ok? <==> AllBounded(ordered) && TotalBytes(ordered) <= MAX_SOURCE_BYTES
    ensures r.Err? ==> match r.error
                       case PathTooLong => exists f :: f in ordered && |f.path| > MAX_RELATIVE_PATH_BYTES
                       case FileTooLarge => exists f :: f in ordered && |f.content| > MAX_SOURCE_FILE_BYTES
                       case TreeTooLarge => TotalBytes(ordered) > MAX_SOURCE_BYTES
                       case _ => false
    ensures r.Ok? ==> r.value == SourceDigest(ShaOf(domain + Frame(ordered)), |ordered|, TotalBytes(ordered))
  {
    var stream: seq<byte>, total: nat := domain, 0;
    for i := 0 to |ordered|
      invariant Hashed(ordered, i, domain, stream, total)
    {
      var f := ordered[i];
      if |f.path| > MAX_RELATIVE_PATH_BYTES {
        return Err(PathTooLong);
      }
      if |f.content| > MAX_SOURCE_FILE_BYTES {
        return Err(FileTooLarge);
      }
      TotalGrows(ordered, i);
      if total + |f.content| > MAX_SOURCE_BYTES {
        return Err(TreeTooLarge);
      }
      HashedNext(ordered, i, domain, stream, total);
      total := total + |f.content|;
      stream := Updated(stream, f);
    }
    assert ordered[..|ordered|] == ordered;
    r := Ok(SourceDigest(ShaOf(stream), |ordered|, total));
  }

  /** What one more file adds to the byte total. */
  lemma TotalGrows(files: seq<Source>, i: nat)
    requires i < |files|
    ensures TotalBytes(files[..i + 1]) == TotalBytes(files[..i]) + |files[i].content| <= TotalBytes(files)
  {
    assert files[..i + 1][..i] == files[..i];
    TotalMonotone(files, i + 1);
  }

  /** What one more file adds to the stream. */
  lemma StreamGrows(files: seq<Source>, f: Source, domain: seq<byte>)
    ensures Updated(domain + Frame(files), f) == domain + Frame(files + [f])
  {
    FrameSnoc(files, f);
  }

  /** Hashing one more file keeps the running hash and total right. */
  lemma HashedNext(ordered: seq<Source>, i: nat, domain: seq<byte>, stream: seq<byte>, total: nat)
    requires i < |ordered| && Hashed(ordered, i, domain, stream, total)
    requires Bounded(ordered[i]) && total + |ordered[i].content| <= MAX_SOURCE_BYTES
    ensures Hashed(ordered, i + 1, domain, Updated(stream, ordered[i]), total + |ordered[i].content|)
  {
    assert ordered[..i + 1] == ordered[..i] + [ordered[i]];
    StreamGrows(ordered[..i], ordered[i], domain);
    TotalGrows(ordered, i);
  }

  /** The order in which a directory scan lists the files does not matter. */
  lemma ScanOrderIrrelevant(a: seq<Source>, b: seq<Source>, domain: seq<byte>)
    requires SameFiles(a, b) && DistinctPaths(a) && DistinctPaths(b)
    ensures Stream(a, domain) == Stream(b, domain)
  {
    SortedElements(a);
    SortedElements(b);
    SortedOrders(a);
    SortedOrders(b);
    OrderedUnique(Sorted(a), Sorted(b));
  }

  /** Equal streams under one domain come from the same files, contents included. */
  lemma StreamDeterminesFiles(a: seq<Source>, b: seq<Source>, domain: seq<byte>)
    requires AllBounded(a) && AllBounded(b) && Stream(a, domain) == Stream(b, domain)
    ensures SameFiles(a, b)
  {
    SortedBounds(a);
    SortedBounds(b);
    assert Stream(a, domain)[|domain|..] == Frame(Sorted(a));
    assert Stream(b, domain)[|domain|..] == Frame(Sorted(b));
    FrameInjective(Sorted(a), Sorted(b));
    SortedElements(a);
    SortedElements(b);
  }
}
