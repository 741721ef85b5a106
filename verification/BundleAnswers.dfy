/**
 When the bundle verifier accepts an archive, read off the bytes of its names and the fields of its manifest,
 and which names are text.
 */
module BundleAnswers {
  import opened Wrappers
  import opened SourceFraming
  import opened PilotBundle

  /** Between slashes, or at either end, the name holds two dots and nothing else. */
  ghost predicate StepsUp(name: seq<byte>) {
    exists i: nat :: StepsUpAt(name, i)
  }

  predicate StepsUpAt(name: seq<byte>, i: nat) {
    && i + 2 <= |name| && name[i] == 46 && name[i + 1] == 46
    && (i == 0 || name[i - 1] == 47) && (i + 2 == |name| || name[i + 2] == 47)
  }

  lemma UpOnlyAtStart(a: seq<byte>, name: seq<byte>, i: nat)
    requires SLASH !in a && a <= name && (|a| < |name| ==> name[|a|] == SLASH)
    requires i <= |a|
    ensures StepsUpAt(name, i) <==> i == 0 && a == [DOT, DOT]
  {
    assert forall k :: 0 <= k < |a| ==> name[k] == a[k] && a[k] != SLASH;
  }

  lemma UpFurtherOn(a: seq<byte>, b: seq<byte>, i: nat)
    ensures StepsUpAt(a + [SLASH] + b, |a| + 1 + i) <==> StepsUpAt(b, i)
  {
    var name := a + [SLASH] + b;
    assert forall k :: 0 <= k < |b| ==> name[|a| + 1 + k] == b[k];
  }

  lemma UpJoined(a: seq<byte>, b: seq<byte>)
    requires SLASH !in a
    ensures StepsUp(a + [SLASH] + b) <==> a == [DOT, DOT] || StepsUp(b)
  {
    var name := a + [SLASH] + b;
    forall i: nat | i <= |a|
      ensures StepsUpAt(name, i) <==> i == 0 && a == [DOT, DOT]
    {
      UpOnlyAtStart(a, name, i);
    }
    forall i: nat
      ensures StepsUpAt(name, |a| + 1 + i) <==> StepsUpAt(b, i)
    {
      UpFurtherOn(a, b, i);
    }
    if StepsUp(name) {
      var i: nat :| StepsUpAt(name, i);
      assert i > |a| ==> StepsUpAt(b, i - |a| - 1);
    }
    if StepsUp(b) {
      var i: nat :| StepsUpAt(b, i);
      assert StepsUpAt(name, |a| + 1 + i);
    }
    assert a == [DOT, DOT] ==> StepsUpAt(name, 0);
  }

  lemma UpAlone(name: seq<byte>)
    requires SLASH !in name
    ensures StepsUp(name) <==> name == [DOT, DOT]
  {
    forall i: nat | i <= |name|
      ensures StepsUpAt(name, i) <==> i == 0 && name == [DOT, DOT]
    {
      UpOnlyAtStart(name, name, i);
    }
    assert name == [DOT, DOT] ==> StepsUpAt(name, 0);
  }

  /** The part before the first slash. */
  function FirstSlash(name: seq<byte>): (k: nat)
    requires SLASH in name
    ensures k < |name| && name[k] == SLASH && SLASH !in name[..k]
  {
    if name[0] == SLASH then 0
    else
      var k := FirstSlash(name[1..]);
      assert name[..k + 1] == [name[0]] + name[1..][..k];
      k + 1
  }

  /** A part that steps up is one that stands in the name by itself. */
  lemma {:induction false} UpExactly(name: seq<byte>)
    ensures [DOT, DOT] in Parts(name) <==> StepsUp(name)
    decreases |name|
  {
    if SLASH in name {
      var k := FirstSlash(name);
      var a, b := name[..k], name[k + 1..];
      assert name == a + [SLASH] + b;
      UpExactly(b);
      PartsJoin(a, b);
      OnePart(a);
      UpJoined(a, b);
    } else {
      OnePart(name);
      UpAlone(name);
    }
  }

  /** A relative name with plain slashes that never steps up. */
  ghost predicate Harmless(name: seq<byte>) {
    |name| > 0 && 92 !in name && 0 !in name && name[0] != 47 && !StepsUp(name)
  }

  lemma HarmlessExactly(name: seq<byte>)
    ensures SafeName(name) <==> Harmless(name)
  {
    UpExactly(name);
  }

  ghost predicate HarmlessMember(m: Member) {
    && Harmless(m.name) && m.name[|m.name| - 1] != 47 && |m.content| <= 4194304 && m.packed <= 4194304
    && (m.mode.NoMode? || m.mode.RegularFile?)
  }

  /** The file of a record, with the size and the digest recorded. */
  predicate Stands(members: seq<Member>, r: Record) {
    exists e :: e in members && r == Record(e.name, |e.content|, ShaOf(e.content))
  }

  /** The archive is within the limits and holds only harmless, distinct members. */
  ghost predicate HoldsHarmless(a: Archive) {
    && a.Archive? && 1 <= a.size <= 67108864 && 1 <= |a.members| <= 512 && DistinctNames(a.members)
    && Total(a.members) <= 67108864 && forall m :: m in a.members ==> HarmlessMember(m)
  }

  /** The manifest among its members names all the others, in order, and nothing else. */
  ghost predicate HoldsManifest(x: Codec, members: seq<Member>, m: Manifest) {
    && m.standard && m.build.proper && 1 <= |m.files| <= 511 && m.bundleId == x.identify(m.build, m.files)
    && (forall r :: r in m.files ==> r.path != x.manifestName && Stands(members, r))
    && (forall i, j :: 0 <= i < j < |m.files| ==> Less(m.files[i].path, m.files[j].path))
    && (forall e :: e in members && e.name != x.manifestName ==> exists r :: r in m.files && r.path == e.name)
  }

  lemma RecordStands(x: Codec, members: seq<Member>, r: Record)
    requires DistinctNames(members) && forall m :: m in members ==> SafeMember(m)
    ensures GoodRecord(x, members, r) <==> r.path != x.manifestName && Stands(members, r)
  {
    if Stands(members, r) {
      var e :| e in members && r == Record(e.name, |e.content|, ShaOf(e.content));
      ReadUnique(members, e);
    }
  }

  lemma MembersHarmless(a: Archive)
    ensures HoldsHarmless(a) <==> a.Archive? && 1 <= a.size <= MAX_ARCHIVE_BYTES && SoundMembers(a.members)
  {
    if a.Archive? {
      forall m | m in a.members ensures SafeMember(m) <==> HarmlessMember(m) {
        HarmlessExactly(m.name);
      }
    }
  }

  lemma Described(x: Codec, members: seq<Member>, m: Manifest)
    requires DistinctNames(members) && forall e :: e in members ==> SafeMember(e)
    ensures Describes(x, members, m) <==> HoldsManifest(x, members, m)
  {
    forall r | r in m.files
      ensures GoodRecord(x, members, r) <==> r.path != x.manifestName && Stands(members, r)
    {
      RecordStands(x, members, r);
    }
  }

  /** An archive is accepted exactly when its members are harmless and one of them is a manifest that names
      all the others. */
  lemma AcceptedExactly(x: Codec, a: Archive)
    ensures PilotBundle.Accepted(x, a) <==>
            && HoldsHarmless(a)
            && exists e :: e in a.members && e.name == x.manifestName && x.decode(e.content).Some?
                           && HoldsManifest(x, a.members, x.decode(e.content).value)
  {
    MembersHarmless(a);
    if HoldsHarmless(a) {
      forall e | e in a.members && e.name == x.manifestName && x.decode(e.content).Some?
        ensures ReadMember(a.members, x.manifestName) == Some(e.content)
        ensures Describes(x, a.members, x.decode(e.content).value)
                <==> HoldsManifest(x, a.members, x.decode(e.content).value)
      {
        ReadUnique(a.members, e);
        Described(x, a.members, x.decode(e.content).value);
      }
    }
  }

  // ----- names that are text -----

  predicate IsCodePoint(c: int) {
    0 <= c < 0xD800 || 0xE000 <= c < 0x110000
  }

  /** A code point in UTF-8 (section 3 of RFC 3629). */
  function Bytes(c: int): (r: seq<byte>)
    requires IsCodePoint(c)
    ensures 1 <= |r| <= 4
  {
    if c < 0x80 then [c]
    else if c < 0x800 then [0xC0 + c / 64, 0x80 + c % 64]
    else if c < 0x10000 then [0xE0 + c / 4096, 0x80 + c / 64 % 64, 0x80 + c % 64]
    else [0xF0 + c / 262144, 0x80 + c / 4096 % 64, 0x80 + c / 64 % 64, 0x80 + c % 64]
  }

  predicate AreCodePoints(text: seq<int>) {
    forall i :: 0 <= i < |text| ==> IsCodePoint(text[i])
  }

  function TextBytes(text: seq<int>): seq<byte>
    requires AreCodePoints(text)
  {
    if text == [] then [] else Bytes(text[0]) + TextBytes(text[1..])
  }

  /** The first bytes and the tails that UTF-8 allows. */
  predicate IsSpelled(b: seq<byte>) {
    || (|b| == 1 && b[0] < 0x80)
    || (|b| == 2 && 0xC2 <= b[0] <= 0xDF && IsTail(b[1]))
    || (|b| == 3 && 0xE0 <= b[0] <= 0xEF && IsTail(b[1]) && IsTail(b[2])
        && (b[0] == 0xE0 ==> b[1] >= 0xA0) && (b[0] == 0xED ==> b[1] <= 0x9F))
    || (|b| == 4 && 0xF0 <= b[0] <= 0xF4 && IsTail(b[1]) && IsTail(b[2]) && IsTail(b[3])
        && (b[0] == 0xF0 ==> b[1] >= 0x90) && (b[0] == 0xF4 ==> b[1] <= 0x8F))
  }

  lemma BytesAreSpelled(c: int)
    requires IsCodePoint(c)
    ensures IsSpelled(Bytes(c))
  {
  }

  lemma SpelledIsUtf8(b: seq<byte>, rest: seq<byte>)
    requires IsSpelled(b) && IsUtf8(rest)
    ensures IsUtf8(b + rest)
  {
    var s := b + rest;
    assert s[|b|..] == rest;
    assert forall k :: 0 <= k < |b| ==> s[k] == b[k];
  }

  lemma BytesAreUtf8(c: int, rest: seq<byte>)
    requires IsCodePoint(c) && IsUtf8(rest)
    ensures IsUtf8(Bytes(c) + rest)
  {
    BytesAreSpelled(c);
    SpelledIsUtf8(Bytes(c), rest);
  }

  lemma {:induction false} TextIsUtf8(text: seq<int>)
    requires AreCodePoints(text)
    ensures IsUtf8(TextBytes(text))
  {
    if text != [] {
      TextIsUtf8(text[1..]);
      BytesAreUtf8(text[0], TextBytes(text[1..]));
    }
  }

  lemma OfTwo(a: byte, b: byte, c: int)
    requires 0xC2 <= a <= 0xDF && IsTail(b) && c == a * 64 + b - 0x3080
    ensures IsCodePoint(c) && Bytes(c) == [a, b]
  {
  }

  lemma Sixes(p: int, q: int, r: int, u: int)
    requires 0 <= q < 64 && 0 <= r < 64 && 0 <= u < 64
    ensures var c := p * 262144 + q * 4096 + r * 64 + u;
            c / 262144 == p && c / 4096 == p * 64 + q && c / 64 == p * 4096 + q * 64 + r && c % 64 == u
  {
  }

  lemma OfThree(a: byte, b: byte, d: byte, c: int)
    requires 0xE0 <= a <= 0xEF && IsTail(b) && IsTail(d) && (a == 0xE0 ==> b >= 0xA0) && (a == 0xED ==> b <= 0x9F)
    requires c == a * 4096 + b * 64 + d - 0xE2080
    ensures IsCodePoint(c) && Bytes(c) == [a, b, d]
  {
    var q, r, u := a - 0xE0, b - 0x80, d - 0x80;
    Sixes(0, q, r, u);
    assert c == q * 4096 + r * 64 + u;
    assert (q * 64 + r) % 64 == r;
  }

  lemma OfFour(a: byte, b: byte, d: byte, e: byte, c: int)
    requires 0xF0 <= a <= 0xF4 && IsTail(b) && IsTail(d) && IsTail(e)
    requires (a == 0xF0 ==> b >= 0x90) && (a == 0xF4 ==> b <= 0x8F)
    requires c == a * 262144 + b * 4096 + d * 64 + e - 0x3C82080
    ensures IsCodePoint(c) && Bytes(c) == [a, b, d, e]
  {
    var p, q, r, u := a - 0xF0, b - 0x80, d - 0x80, e - 0x80;
    Sixes(p, q, r, u);
    assert c == p * 262144 + q * 4096 + r * 64 + u;
    assert (p * 64 + q) % 64 == q && (p * 4096 + q * 64 + r) % 64 == r;
  }

  /** Some UTF-8 starts with one code point, and the rest is UTF-8. */
  ghost predicate StartsWith(s: seq<byte>, c: int) {
    IsCodePoint(c) && Bytes(c) <= s && IsUtf8(s[|Bytes(c)|..])
  }

  lemma FirstPoint(s: seq<byte>)
    requires s != [] && IsUtf8(s)
    ensures exists c :: StartsWith(s, c)
  {
    if s[0] < 0x80 {
      assert StartsWith(s, s[0]);
    } else {
      var a: int, b: int := s[0], s[1];
      if a <= 0xDF {
        var c := a * 64 + b - 0x3080;
        OfTwo(a, b, c);
        assert StartsWith(s, c);
      } else if a <= 0xEF {
        var d: int := s[2];
        var c := a * 4096 + b * 64 + d - 0xE2080;
        OfThree(a, b, d, c);
        assert StartsWith(s, c);
      } else {
        var d: int, e: int := s[2], s[3];
        var c := a * 262144 + b * 4096 + d * 64 + e - 0x3C82080;
        OfFour(a, b, d, e, c);
        assert StartsWith(s, c);
      }
    }
  }

  lemma {:induction false} Utf8IsText(s: seq<byte>)
    requires IsUtf8(s)
    ensures exists text :: AreCodePoints(text) && TextBytes(text) == s
    decreases |s|
  {
    if s == [] {
      assert TextBytes([]) == s;
    } else {
      FirstPoint(s);
      var c :| StartsWith(s, c);
      var rest := s[|Bytes(c)|..];
      Utf8IsText(rest);
      var text :| AreCodePoints(text) && TextBytes(text) == rest;
      OneMorePoint(c, text);
      assert s == Bytes(c) + rest;
    }
  }

  lemma OneMorePoint(c: int, text: seq<int>)
    requires IsCodePoint(c) && AreCodePoints(text)
    ensures AreCodePoints([c] + text) && TextBytes([c] + text) == Bytes(c) + TextBytes(text)
  {
    assert ([c] + text)[1..] == text;
  }

  /** Bytes are UTF-8 exactly when they spell some text of code points. */
  lemma Utf8Exactly(s: seq<byte>)
    ensures IsUtf8(s) <==> exists text :: AreCodePoints(text) && TextBytes(text) == s
  {
    if IsUtf8(s) {
      Utf8IsText(s);
    }
    forall text | AreCodePoints(text) && TextBytes(text) == s
      ensures IsUtf8(s)
    {
      TextIsUtf8(text);
    }
  }
}
