/**
 Replaying a learned step: the key events of a combination and of typed text. Text is a sequence of
 Unicode code points and is typed as UTF-16 code units (section 2.1 of RFC 2781).
 */
module KeyReplay {
  import opened Wrappers
  import opened WorkflowLearning
  import Workflow

  // ----- combinations -----

  datatype KeyEvent = Down(code: int) | Up(code: int)

  /** VIRTUAL_KEYS. */
  function NamedCode(part: string): Option<int> {
    match part
    case "BACKSPACE" => Some(0x08)
    case "TAB" => Some(0x09)
    case "ENTER" => Some(0x0D)
    case "ESC" => Some(0x1B)
    case "PAGEUP" => Some(0x21)
    case "PAGEDOWN" => Some(0x22)
    case "END" => Some(0x23)
    case "HOME" => Some(0x24)
    case "LEFT" => Some(0x25)
    case "UP" => Some(0x26)
    case "RIGHT" => Some(0x27)
    case "DOWN" => Some(0x28)
    case "DELETE" => Some(0x2E)
    case "CTRL" => Some(0x11)
    case "ALT" => Some(0x12)
    case "SHIFT" => Some(0x10)
    case _ => None
  }

  function Upper(c: char): char {
    if 'a' <= c <= 'z' then ((c as int) - 32) as char else c
  }

  /** _virtual_key: a named key, or one ASCII letter or digit. */
  function VirtualKey(part: string): Option<int> {
    if NamedCode(part).Some? then NamedCode(part)
    else if |part| == 1 && ('0' <= part[0] <= '9' || 'A' <= Upper(part[0]) <= 'Z') then Some(Upper(part[0]) as int)
    else None
  }

  /** A learned safe key is replayed as the very key that was recorded. */
  lemma SafeKeyReplays(code: int)
    requires SafeKey(code).Some?
    ensures VirtualKey(SafeKey(code).value) == Some(code)
  {
  }

  /** A learned CTRL combination is replayed as CTRL and the very key that was recorded. */
  lemma CombinationReplays(code: int)
    requires IsAlphanumericCode(code)
    ensures VirtualKey("CTRL") == Some(0x11) && VirtualKey([Letter(code)]) == Some(code)
  {
    assert 0x30 == '0' as int && 0x39 == '9' as int && 0x41 == 'A' as int && 0x5A == 'Z' as int;
    var part := [Letter(code)];
    assert |part| == 1;
  }

  /** The keys that only modify others, and letters of either case. */
  lemma OtherKeys(c: char)
    ensures VirtualKey("CTRL") == Some(17) && VirtualKey("ALT") == Some(18) && VirtualKey("SHIFT") == Some(16)
    ensures 'a' <= c <= 'z' ==> VirtualKey([c]) == Some(c as int - 32)
    ensures 'A' <= c <= 'Z' || '0' <= c <= '9' ==> VirtualKey([c]) == Some(c as int)
  {
    assert |[c]| == 1;
  }

  /** The keys held after some events, oldest first; None when a key is released out of turn. */
  function Held(down: seq<int>, events: seq<KeyEvent>): Option<seq<int>>
    decreases |events|
  {
    if events == [] then Some(down)
    else
      match events[0]
      case Down(code) => Held(down + [code], events[1..])
      case Up(code) =>
        if down != [] && down[|down| - 1] == code then Held(down[..|down| - 1], events[1..]) else None
  }

  lemma {:induction false} HeldSplit(down: seq<int>, a: seq<KeyEvent>, b: seq<KeyEvent>)
    ensures Held(down, a + b) == match Held(down, a)
                                 case None => None
                                 case Some(held) => Held(held, b)
    decreases |a|
  {
    if a == [] {
      assert a + b == b;
    } else {
      assert (a + b)[1..] == a[1..] + b;
      match a[0] {
        case Down(code) => HeldSplit(down + [code], a[1..], b);
        case Up(code) =>
          if down != [] && down[|down| - 1] == code {
            HeldSplit(down[..|down| - 1], a[1..], b);
          }
      }
    }
  }

  lemma HeldOne(down: seq<int>, code: int)
    ensures Held(down, [Down(code)]) == Some(down + [code])
    ensures Held(down + [code], [Up(code)]) == Some(down)
  {
    assert [Down(code)][1..] == [] && [Up(code)][1..] == [];
    assert (down + [code])[..|down|] == down;
  }

  lemma NamedKeysHaveCodes(part: string)
    ensures Workflow.NamedKey(part) <==> NamedCode(part).Some?
  {
  }

  /** The checks on workflows accept exactly the key parts that can be pressed. */
  lemma ValidPartsCanBePressed(part: string)
    ensures Workflow.ValidPart(part) <==> VirtualKey(part).Some?
  {
    NamedKeysHaveCodes(part);
    if |part| == 1 && 'a' <= part[0] <= 'z' {
      assert 'A' <= Upper(part[0]) <= 'Z';
    }
  }

  /** keypress: every key goes down in order, all are held together, and all come up in reverse. It
      presses exactly the keys the checks accept. */
  method Keypress(key: seq<string>) returns (codes: Option<seq<int>>, events: seq<KeyEvent>)
    ensures codes.Some? <==> forall i :: 0 <= i < |key| ==> Workflow.ValidPart(key[i])
    ensures codes.Some? ==>
              |codes.value| == |key| && forall i :: 0 <= i < |key| ==> VirtualKey(key[i]) == Some(codes.value[i])
    ensures codes.None? ==> events == []
    ensures codes.Some? ==>
              && |events| == 2 * |key|
              && Held([], events[..|key|]) == Some(codes.value) && Held([], events) == Some([])
  {
    var found: seq<int> := [];
    for i := 0 to |key|
      invariant |found| == i && forall k :: 0 <= k < i ==> VirtualKey(key[k]) == Some(found[k])
      invariant forall k :: 0 <= k < i ==> Workflow.ValidPart(key[k])
    {
      ValidPartsCanBePressed(key[i]);
      var code := VirtualKey(key[i]);
      if code.None? {
        return None, [];
      }
      found := found + [code.value];
    }
    events := PressAll(found);
    codes := Some(found);
  }

  method PressAll(codes: seq<int>) returns (events: seq<KeyEvent>)
    ensures |events| == 2 * |codes|
    ensures Held([], events[..|codes|]) == Some(codes)
    ensures Held([], events) == Some([])
  {
    events := [];
    for i := 0 to |codes|
      invariant |events| == i && Held([], events) == Some(codes[..i])
    {
      HeldSplit([], events, [Down(codes[i])]);
      HeldOne(codes[..i], codes[i]);
      assert codes[..i + 1] == codes[..i] + [codes[i]];
      events := events + [Down(codes[i])];
    }
    assert codes[..|codes|] == codes;
    ghost var pressed := events;
    for i := |codes| downto 0
      invariant |events| == |codes| + (|codes| - i) && events[..|codes|] == pressed
      invariant Held([], events) == Some(codes[..i])
    {
      HeldSplit([], events, [Up(codes[i])]);
      HeldOne(codes[..i], codes[i]);
      assert codes[..i + 1] == codes[..i] + [codes[i]];
      events := events + [Up(codes[i])];
    }
  }

  // ----- typed text -----

  const MAX_TEXT := 4096

  predicate IsScalar(c: int) {
    0 <= c < 0xD800 || 0xE000 <= c <= 0x10FFFF
  }

  function Units(c: int): (r: seq<int>)
    requires IsScalar(c)
    ensures forall i :: 0 <= i < |r| ==> 0 <= r[i] < 0x10000
  {
    if c < 0x10000 then [c] else [0xD800 + (c - 0x10000) / 0x400, 0xDC00 + (c - 0x10000) % 0x400]
  }

  function Encoded(text: seq<int>): seq<int>
    requires forall i :: 0 <= i < |text| ==> IsScalar(text[i])
  {
    if text == [] then [] else Units(text[0]) + Encoded(text[1..])
  }

  /** Reading code units back: a high and a low surrogate stand for one code point. */
  function Decoded(units: seq<int>): seq<int> {
    if units == [] then []
    else if |units| > 1 && 0xD800 <= units[0] < 0xDC00 && 0xDC00 <= units[1] < 0xE000 then
      [0x10000 + (units[0] - 0xD800) * 0x400 + (units[1] - 0xDC00)] + Decoded(units[2..])
    else [units[0]] + Decoded(units[1..])
  }

  lemma {:induction false} Utf16RoundTrip(text: seq<int>)
    requires forall i :: 0 <= i < |text| ==> IsScalar(text[i])
    ensures Decoded(Encoded(text)) == text
  {
    if text != [] {
      Utf16RoundTrip(text[1..]);
      var u, rest := Units(text[0]), Encoded(text[1..]);
      if |u| == 1 {
        assert (u + rest)[1..] == rest;
      } else {
        assert (u + rest)[2..] == rest;
      }
    }
  }

  datatype UnitEvent = UnitDown(unit: int) | UnitUp(unit: int)

  /** The code units of some events, if each is pressed and released before the next. */
  function Typed(events: seq<UnitEvent>): Option<seq<int>>
    decreases |events|
  {
    if events == [] then Some([])
    else
      var n := |events|;
      if n < 2 || !events[n - 2].UnitDown? || events[n - 1] != UnitUp(events[n - 2].unit) then None
      else
        match Typed(events[..n - 2])
        case None => None
        case Some(units) => Some(units + [events[n - 2].unit])
  }

  /** Each unit is pressed and released, one after the other. */
  predicate Presses(events: seq<UnitEvent>, units: seq<int>) {
    && |events| == 2 * |units|
    && forall k :: 0 <= k < |units| ==> events[2 * k] == UnitDown(units[k]) && events[2 * k + 1] == UnitUp(units[k])
  }

  lemma {:induction false} TypedPresses(events: seq<UnitEvent>)
    requires Typed(events).Some?
    ensures Presses(events, Typed(events).value)
    decreases |events|
  {
    if events != [] {
      var n := |events|;
      var before := events[..n - 2];
      TypedPresses(before);
      assert forall i :: 0 <= i < n - 2 ==> before[i] == events[i];
    }
  }

  /** type_text: what reaches the application reads back as exactly the text. */
  method TypeText(text: seq<int>) returns (r: Option<seq<UnitEvent>>)
    ensures r.Some? <==> |text| <= MAX_TEXT && forall i :: 0 <= i < |text| ==> IsScalar(text[i])
    ensures r.Some? ==> Typed(r.value).Some? && Decoded(Typed(r.value).value) == text
    ensures r.Some? ==> Presses(r.value, Encoded(text))
  {
    if |text| > MAX_TEXT || exists i :: 0 <= i < |text| && !IsScalar(text[i]) {
      return None;
    }
    var units := Encoded(text);
    var events: seq<UnitEvent> := [];
    for i := 0 to |units|
      invariant Typed(events) == Some(units[..i])
    {
      var more := events + [UnitDown(units[i]), UnitUp(units[i])];
      assert more[..|more| - 2] == events;
      assert units[..i + 1] == units[..i] + [units[i]];
      events := more;
    }
    assert units[..|units|] == units;
    Utf16RoundTrip(text);
    TypedPresses(events);
    return Some(events);
  }
}
