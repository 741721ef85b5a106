/**
 The scanner that finds f-strings whose quote is used again inside them: one pass over a token stream
 with a stack of the quotes that are open.
 */
module FstringScanner {
  import opened Wrappers

  datatype Token = FstringStart(text: string, line: nat) | FstringEnd | Literal(text: string, line: nat) | OtherToken

  /** The quote a start token ends with. */
  function LastQuote(text: string): Option<char> {
    if text == "" then None else Some(text[|text| - 1])
  }

  /** The quote a string literal opens with, after its prefix letters. */
  function FirstQuote(text: string): (r: Option<char>)
    ensures r.Some? ==> r.value == '\'' || r.value == '"'
    ensures r.None? <==> '\'' !in text && '"' !in text
  {
    if text == "" then None
    else if text[0] == '\'' || text[0] == '"' then Some(text[0])
    else FirstQuote(text[1..])
  }

  datatype Hit = NestedFstring(line: nat, quote: char) | ReusedLiteral(line: nat, text: string)

  // ----- the pass -----

  function Top(stack: seq<char>): Option<char> {
    if stack == [] then None else Some(stack[|stack| - 1])
  }

  /** What one token reports, under the innermost open quote. */
  function Report(top: Option<char>, t: Token): seq<Hit> {
    match t
    case FstringStart(text, line) =>
      if top.Some? && LastQuote(text) == top then [NestedFstring(line, top.value)] else []
    case Literal(text, line) =>
      if top.Some? && FirstQuote(text) == top then [ReusedLiteral(line, text)] else []
    case _ => []
  }

  function Moved(stack: seq<char>, t: Token): seq<char> {
    match t
    case FstringStart(text, _) => if text == "" then stack else stack + [text[|text| - 1]]
    case FstringEnd => if stack == [] then stack else stack[..|stack| - 1]
    case _ => stack
  }

  /** The open quotes after some tokens. */
  function Open(stack: seq<char>, tokens: seq<Token>): seq<char>
    decreases |tokens|
  {
    if tokens == [] then stack else Open(Moved(stack, tokens[0]), tokens[1..])
  }

  /** What the scan reports for some tokens. */
  function Hits(stack: seq<char>, tokens: seq<Token>): seq<Hit>
    decreases |tokens|
  {
    if tokens == [] then [] else Report(Top(stack), tokens[0]) + Hits(Moved(stack, tokens[0]), tokens[1..])
  }

  lemma {:induction false} ScanSplit(stack: seq<char>, a: seq<Token>, b: seq<Token>)
    ensures Open(stack, a + b) == Open(Open(stack, a), b)
    ensures Hits(stack, a + b) == Hits(stack, a) + Hits(Open(stack, a), b)
    decreases |a|
  {
    if a == [] {
      assert a + b == b;
    } else {
      assert (a + b)[1..] == a[1..] + b;
      ScanSplit(Moved(stack, a[0]), a[1..], b);
    }
  }

  lemma ScanOne(stack: seq<char>, t: Token)
    ensures Open(stack, [t]) == Moved(stack, t) && Hits(stack, [t]) == Report(Top(stack), t)
  {
    assert [t][1..] == [];
  }

  lemma ScanNext(tokens: seq<Token>, i: nat)
    requires i < |tokens|
    ensures var open := Open([], tokens[..i]);
            && Open([], tokens[..i + 1]) == Moved(open, tokens[i])
            && Hits([], tokens[..i + 1]) == Hits([], tokens[..i]) + Report(Top(open), tokens[i])
  {
    ScanSplit([], tokens[..i], [tokens[i]]);
    ScanOne(Open([], tokens[..i]), tokens[i]);
    assert tokens[..i + 1] == tokens[..i] + [tokens[i]];
  }

  /** The scan as it is carried out. A start token always has text: its quote. */
  method FindIncompatibleFstrings(tokens: seq<Token>) returns (hits: seq<Hit>)
    requires forall i :: 0 <= i < |tokens| && tokens[i].FstringStart? ==> tokens[i].text != ""
    ensures hits == Hits([], tokens)
  {
    hits := [];
    var open: seq<char> := [];
    var i := 0;
    while i < |tokens|
      invariant i <= |tokens|
      invariant hits == Hits([], tokens[..i]) && open == Open([], tokens[..i])
    {
      var t := tokens[i];
      ScanNext(tokens, i);
      match t {
        case FstringStart(text, line) =>
          var quote := text[|text| - 1];
          if open != [] && quote == open[|open| - 1] {
            hits := hits + [NestedFstring(line, quote)];
          }
          open := open + [quote];
        case FstringEnd =>
          if open != [] {
            open := open[..|open| - 1];
          }
        case Literal(text, line) =>
          if open != [] {
            var quote := FirstQuote(text);
            if quote.Some? && quote.value == open[|open| - 1] {
              hits := hits + [ReusedLiteral(line, text)];
            }
          }
        case OtherToken =>
      }
      i := i + 1;
    }
    assert tokens[..i] == tokens;
  }

  // ----- nesting -----

  /** Source text as it nests: string literals, other tokens, and f-strings with what is inside them. */
  datatype Node = Text(text: string, line: nat) | Other | Fstring(text: string, line: nat, inside: seq<Node>)

  predicate Proper(nodes: seq<Node>) {
    nodes != [] ==>
      && (nodes[0].Fstring? ==> nodes[0].text != "" && Proper(nodes[0].inside))
      && Proper(nodes[1..])
  }

  function Tokens(nodes: seq<Node>): seq<Token> {
    if nodes == [] then []
    else
      (match nodes[0]
       case Text(text, line) => [Literal(text, line)]
       case Other => [OtherToken]
       case Fstring(text, line, inside) => [FstringStart(text, line)] + Tokens(inside) + [FstringEnd])
      + Tokens(nodes[1..])
  }

  /** The quote a node is written with. */
  function QuoteOf(n: Node): Option<char> {
    match n
    case Text(text, _) => FirstQuote(text)
    case Other => None
    case Fstring(text, _, _) => LastQuote(text)
  }

  /** The nodes that use the quote of the f-string right around them, in source order. */
  function Reuses(around: Option<char>, nodes: seq<Node>): seq<Hit>
    decreases nodes
  {
    if nodes == [] then []
    else
      (if around.Some? && QuoteOf(nodes[0]) == around then
         [if nodes[0].Fstring? then NestedFstring(nodes[0].line, around.value)
          else ReusedLiteral(nodes[0].line, nodes[0].text)]
       else [])
      + (if nodes[0].Fstring? then Reuses(QuoteOf(nodes[0]), nodes[0].inside) else [])
      + Reuses(around, nodes[1..])
  }

  /** On the tokens of any nesting, the scan reports exactly the reused quotes, in order, and leaves
      its stack as it found it. */
  lemma {:induction false} ScanFindsReuses(stack: seq<char>, nodes: seq<Node>)
    requires Proper(nodes)
    ensures Hits(stack, Tokens(nodes)) == Reuses(Top(stack), nodes)
    ensures Open(stack, Tokens(nodes)) == stack
    decreases nodes, 0
  {
    if nodes != [] {
      var n := nodes[0];
      ScanFindsReuses(stack, nodes[1..]);
      match n {
        case Text(text, line) =>
          ScanOne(stack, Literal(text, line));
          ScanSplit(stack, [Literal(text, line)], Tokens(nodes[1..]));
        case Other =>
          ScanOne(stack, OtherToken);
          ScanSplit(stack, [OtherToken], Tokens(nodes[1..]));
        case Fstring(text, line, inside) =>
          ScanFstring(stack, text, line, inside);
          ScanSplit(stack, [FstringStart(text, line)] + Tokens(inside) + [FstringEnd], Tokens(nodes[1..]));
      }
    }
  }

  lemma {:induction false} ScanFstring(stack: seq<char>, text: string, line: nat, inside: seq<Node>)
    requires text != "" && Proper(inside)
    ensures var tokens := [FstringStart(text, line)] + Tokens(inside) + [FstringEnd];
            && Open(stack, tokens) == stack
            && Hits(stack, tokens) == Report(Top(stack), FstringStart(text, line)) + Reuses(LastQuote(text), inside)
    decreases inside, 1
  {
    var start := FstringStart(text, line);
    var deeper := Moved(stack, start);
    ScanOne(stack, start);
    ScanFindsReuses(deeper, inside);
    ScanOne(deeper, FstringEnd);
    ScanSplit(stack, [start], Tokens(inside));
    ScanSplit(stack, [start] + Tokens(inside), [FstringEnd]);
    assert deeper[..|deeper| - 1] == stack;
  }

  /** No node uses the quote of the f-string right around it. */
  predicate NoReuse(around: Option<char>, nodes: seq<Node>)
    decreases nodes
  {
    nodes != [] ==>
      && (around.Some? ==> QuoteOf(nodes[0]) != around)
      && (nodes[0].Fstring? ==> NoReuse(QuoteOf(nodes[0]), nodes[0].inside))
      && NoReuse(around, nodes[1..])
  }

  lemma {:induction false} CleanMeansNoReuse(around: Option<char>, nodes: seq<Node>)
    ensures Reuses(around, nodes) == [] <==> NoReuse(around, nodes)
    decreases nodes
  {
    if nodes != [] {
      CleanMeansNoReuse(around, nodes[1..]);
      if nodes[0].Fstring? {
        CleanMeansNoReuse(QuoteOf(nodes[0]), nodes[0].inside);
      }
    }
  }

  /** A source is reported clean exactly when no f-string's quote is reused right inside it. */
  lemma ScannerIsExact(nodes: seq<Node>)
    requires Proper(nodes)
    ensures Hits([], Tokens(nodes)) == [] <==> NoReuse(None, nodes)
    ensures Open([], Tokens(nodes)) == []
  {
    ScanFindsReuses([], nodes);
    CleanMeansNoReuse(None, nodes);
  }
}
