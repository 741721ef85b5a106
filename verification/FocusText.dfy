/**
 The text of an execution-focus record as it is written: indented ASCII JSON with a final newline. Its
 length is the size the record's limit is about.
 */
module FocusText {
  import opened Wrappers
  import opened BuildId
  import opened ExecutionFocus

  /** A text of one character, repeated. */
  function Repeated(c: char, n: nat): (s: string)
    ensures |s| == n && forall i :: 0 <= i < n ==> s[i] == c
  {
    seq(n, _ => c)
  }

  /** The 64 hex digits of a record's digest. */
  type HexDigits = s: string | |s| == 64 witness Repeated('0', 64)

  function HexDigit(n: nat): char
    requires n < 16
  {
    if n < 10 then '0' + n as char else 'a' + (n - 10) as char
  }

  /** `\uXXXX` of one UTF-16 code unit. */
  function UnitEscape(n: nat): (r: string)
    requires n < 0x10000
    ensures |r| == 6
  {
    ['\\', 'u', HexDigit(n / 4096), HexDigit(n / 256 % 16), HexDigit(n / 16 % 16), HexDigit(n % 16)]
  }

  function PairEscape(n: nat): (r: string)
    requires 0x10000 <= n < 0x110000
    ensures |r| == 12
  {
    UnitEscape(0xD800 + (n - 0x10000) / 0x400) + UnitEscape(0xDC00 + (n - 0x10000) % 0x400)
  }

  /** A character inside a JSON text: as it is, by its short escape, or by its code units. */
  function CharText(c: char): string {
    if c == '"' then ['\\', '"']
    else if c == '\\' then ['\\', '\\']
    else if c == '\n' then ['\\', 'n']
    else if c == '\r' then ['\\', 'r']
    else if c == '\t' then ['\\', 't']
    else if c == '\U{8}' then ['\\', 'b']
    else if c == '\U{c}' then ['\\', 'f']
    else if ' ' <= c <= '~' then [c]
    else if c < '\U{10000}' then UnitEscape(c as int)
    else PairEscape(c as int)
  }

  function Escaped(s: string): (r: string)
    ensures |r| == EscapedLength(s)
  {
    if s == "" then "" else CharText(s[0]) + Escaped(s[1..])
  }

  function Quoted(s: string): (r: string)
    ensures |r| == TextSize(s)
  {
    ['"'] + Escaped(s) + ['"']
  }

  function QuotedOrNull(s: Option<string>): (r: string)
    ensures |r| == OptionalTextSize(s)
  {
    if s.None? then ['n', 'u', 'l', 'l'] else Quoted(s.value)
  }

  function DigestTextOf(d: Digest, hex: Focus -> HexDigits): (r: string)
    ensures |r| == DigestSize(d)
  {
    match d
    case Sha256Of(f) => ['"', 's', 'h', 'a', '2', '5', '6', ':'] + hex(f) + ['"']
    case DigestText(t) => Quoted(t)
  }

  function Number(n: nat): (r: string)
    ensures |r| == DecimalLength(n)
  {
    DecimalSize(n);
    Decimal(n)
  }

  lemma {:induction false} DecimalSize(n: nat)
    ensures |Decimal(n)| == DecimalLength(n)
  {
    if n >= 10 {
      DecimalSize(n / 10);
    }
  }

  /** A line of an object: indentation, key and value. */
  function Entry(indent: nat, key: string, value: string): (r: string)
    ensures |r| == indent + |key| + 4 + |value|
  {
    Repeated(' ', indent) + ['"'] + key + ['"', ':', ' '] + value
  }

  /** The lines of an object between its braces. */
  function Lines(entries: seq<string>): (r: string)
    ensures |r| == TotalSize(entries)
  {
    if entries == [] then []
    else if |entries| == 1 then entries[0] + ['\n']
    else entries[0] + [',', '\n'] + Lines(entries[1..])
  }

  function TotalSize(entries: seq<string>): nat {
    if entries == [] then 0
    else if |entries| == 1 then |entries[0]| + 1
    else |entries[0]| + 2 + TotalSize(entries[1..])
  }

  function Object(indent: nat, entries: seq<string>): (r: string)
    ensures |r| == 3 + indent + TotalSize(entries)
  {
    ['{', '\n'] + Lines(entries) + Repeated(' ', indent) + ['}']
  }

  lemma OneMore(entry: string, entries: seq<string>)
    requires entries != []
    ensures TotalSize([entry] + entries) == |entry| + 2 + TotalSize(entries)
  {
    assert ([entry] + entries)[1..] == entries;
  }

  lemma ThreeEntries(a: string, b: string, c: string)
    ensures TotalSize([a, b, c]) == |a| + |b| + |c| + 5
  {
    OneMore(b, [c]);
    OneMore(a, [b, c]);
    assert [b] + [c] == [b, c] && [a] + [b, c] == [a, b, c];
  }

  lemma FiveEntries(a: string, b: string, c: string, d: string, e: string)
    ensures TotalSize([a, b, c, d, e]) == |a| + |b| + |c| + |d| + |e| + 9
  {
    ThreeEntries(c, d, e);
    OneMore(b, [c, d, e]);
    OneMore(a, [b, c, d, e]);
    assert [b] + [c, d, e] == [b, c, d, e] && [a] + [b, c, d, e] == [a, b, c, d, e];
  }

  lemma NineEntries(a: string, b: string, c: string, d: string, e: seq<string>)
    requires |e| == 5
    ensures TotalSize([a, b, c, d] + e) == |a| + |b| + |c| + |d| + 8 + TotalSize(e)
  {
    OneMore(d, e);
    OneMore(c, [d] + e);
    OneMore(b, [c] + ([d] + e));
    OneMore(a, [b] + ([c] + ([d] + e)));
    assert [a] + ([b] + ([c] + ([d] + e))) == [a, b, c, d] + e;
  }

  function HandoffText(h: Handoff, hex: Focus -> HexDigits): (r: string)
    ensures |r| == HandoffSize(h)
  {
    var a := Entry(4, "fromProjectId", Quoted(h.fromProjectId));
    var b := Entry(4, "fromProjectName", Quoted(h.fromProjectName));
    var c := Entry(4, "reason", Quoted(h.reason));
    var d := Entry(4, "priorFocusDigest", DigestTextOf(h.priorFocusDigest, hex));
    var e := Entry(4, "authorizedAt", QuotedOrNull(h.authorizedAt));
    FiveEntries(a, b, c, d, e);
    Object(2, [a, b, c, d, e])
  }

  const TRUE := ['t', 'r', 'u', 'e']
  const FALSE := ['f', 'a', 'l', 's', 'e']

  function ControlsText(): (r: string)
    ensures |r| == 105
  {
    var a := Entry(4, "modelBackedCommandsOnly", TRUE);
    var b := Entry(4, "externalWritesAllowed", FALSE);
    var c := Entry(4, "bypassAllowed", FALSE);
    ThreeEntries(a, b, c);
    Object(2, [a, b, c])
  }

  function LastEntries(f: Focus, hex: Focus -> HexDigits): (r: seq<string>)
    requires f.maxRoles >= 0
    ensures |r| == 5
    ensures TotalSize(r) == 187 + OptionalTextSize(f.projectName) + DecimalLength(f.maxRoles)
                            + OptionalTextSize(f.updatedAt)
                            + (if f.handoff.None? then 4 else HandoffSize(f.handoff.value))
  {
    var a := Entry(2, "projectName", QuotedOrNull(f.projectName));
    var b := Entry(2, "maxRoles", Number(f.maxRoles));
    var c := Entry(2, "updatedAt", QuotedOrNull(f.updatedAt));
    var d := Entry(2, "handoff", if f.handoff.None? then ['n', 'u', 'l', 'l'] else HandoffText(f.handoff.value, hex));
    var e := Entry(2, "controls", ControlsText());
    FiveEntries(a, b, c, d, e);
    [a, b, c, d, e]
  }

  function EncodedAs(schema: string, f: Focus, hex: Focus -> HexDigits): (r: string)
    requires Valid(f) && |schema| == 32 && AllPlain(schema)
    ensures |r| == EncodedSize(f)
  {
    PlainLength(schema);
    var a := Entry(2, "schema", Quoted(schema));
    var b := Entry(2, "revision", Number(f.revision));
    var c := Entry(2, "enabled", if f.enabled then TRUE else FALSE);
    var d := Entry(2, "projectId", QuotedOrNull(f.projectId));
    var e := LastEntries(f, hex);
    NineEntries(a, b, c, d, e);
    Object(0, [a, b, c, d] + e) + ['\n']
  }

  const SCHEMA := "local-company.execution-focus.v2"

  /** Characters written as they are. */
  predicate AllPlain(s: string) {
    forall i :: 0 <= i < |s| ==> ' ' <= s[i] <= '~' && s[i] != '"' && s[i] != '\\'
  }

  lemma SchemaIsPlain()
    ensures |SCHEMA| == 32 && AllPlain(SCHEMA)
  {
  }

  lemma {:induction false} PlainLength(s: string)
    requires AllPlain(s)
    ensures EscapedLength(s) == |s|
  {
    if s != "" {
      PlainLength(s[1..]);
    }
  }

  /** The whole file: its length is exactly the record's encoded size. */
  function Encoded(f: Focus, hex: Focus -> HexDigits): (r: string)
    requires Valid(f)
    ensures |r| == EncodedSize(f)
  {
    SchemaIsPlain();
    EncodedAs(SCHEMA, f, hex)
  }
}
