/**
 The definition-file reader (`parse` in scheme.php): a stack-based
 S-expression scanner over the lines of a file. Each `(` opens a list on a
 stack of partial lists, each `)` closes the top one into the list below,
 a `"` starts a string that runs to the next `"` on the same line, a `;`
 discards the rest of the line, and anything else is a symbol running to
 the next blank, parenthesis or `;`. The numeric branch of the source is
 guarded by `strpos` with its arguments swapped and never runs, so a token
 such as `1.5` is read as a symbol.
 */
module Reader {
  import opened Common

  /** A parsed node: a string or symbol, or a list of nodes. */
  datatype SExpr = Atom(text: string) | List(items: seq<SExpr>)

  /** Partial lists, innermost last; the first is the root list. */
  type Stack = seq<seq<SExpr>>

  /** A line scan either finishes with a stack or meets a `)` with no open list. */
  datatype Scan = Scanned(stack: Stack) | Underflow

  /**
   What `parse` hands back: the root list, the root list of an input whose
   parentheses do not match (reported with a notice), or a `)` that closed
   the root itself.
   */
  datatype ParseResult = Parsed(items: seq<SExpr>) | Mismatched(items: seq<SExpr>) | UnmatchedClose

  /** The characters `ltrim` strips: blank, tab, newline, carriage return, NUL and vertical tab. */
  predicate IsBlank(c: char) {
    c == ' ' || c == '\t' || c == '\n' || c == '\r' || c == '\0' || c == '\U{B}'
  }

  /** The characters that end a symbol (the `strcspn` set). */
  predicate IsStop(c: char) {
    c == ' ' || c == '\t' || c == '(' || c == ')' || c == ';' || c == '\n' || c == '\r'
  }

  const Digits: string := "0123456789"

  /** `ltrim`. */
  function LTrim(s: string): (r: string)
    ensures |r| <= |s| && r == s[|s| - |r|..]
    ensures forall i :: 0 <= i < |s| - |r| ==> IsBlank(s[i])
    ensures r == [] || !IsBlank(r[0])
    decreases |s|
  {
    if s != [] && IsBlank(s[0]) then LTrim(s[1..]) else s
  }

  /** `strcspn(t, " \t();\n\r")`: the length of the longest prefix free of stop characters. */
  function StopSpan(t: string): (n: nat)
    ensures n <= |t|
    ensures t != [] && !IsStop(t[0]) ==> n >= 1
    decreases |t|
  {
    if t == [] || IsStop(t[0]) then 0 else 1 + StopSpan(t[1..])
  }

  /** `array_push($stack[count($stack)-1], e)`: `e` appended to the innermost list. */
  function Push(stack: Stack, e: SExpr): (r: Stack)
    requires |stack| >= 1
    ensures |r| == |stack|
  {
    stack[..|stack| - 1] + [stack[|stack| - 1] + [e]]
  }

  /** `)`: the innermost list is popped and appended, as a list, to the one below it. */
  function Close(stack: Stack): (r: Stack)
    requires |stack| >= 2
    ensures |r| == |stack| - 1
  {
    Push(stack[..|stack| - 1], List(stack[|stack| - 1]))
  }

  /**
   `substr($line, 1, -1)`: what an unterminated string yields (the line
   after the quote, without its last character, normally the newline).
   */
  function UnterminatedText(t: string): string {
    if |t| >= 2 then t[1..|t| - 1] else ""
  }

  /**
   The inner loop of `parse` over one line. The stack never empties, and the
   root list only grows: what was completed at the top level is never lost.
   */
  function ScanLine(stack: Stack, line: string): (r: Scan)
    requires |stack| >= 1
    ensures r.Scanned? ==> |r.stack| >= 1 && stack[0] <= r.stack[0]
    decreases |line|, 1
  {
    ScanToken(stack, LTrim(line))
  }

  /** One turn of the inner loop on a line that `ltrim` has already stripped. */
  function ScanToken(stack: Stack, t: string): (r: Scan)
    requires |stack| >= 1
    requires t == [] || !IsBlank(t[0])
    ensures r.Scanned? ==> |r.stack| >= 1 && stack[0] <= r.stack[0]
    decreases |t|, 0
  {
    if t == [] then Scanned(stack)
    else if t[0] == '(' then
      ScanLine(stack + [[]], t[1..])
    else if t[0] == ')' then
      if |stack| == 1 then Underflow else ScanLine(Close(stack), t[1..])
    else if t[0] == '"' then
      match IndexOf(t[1..], '"')
      case Some(j) => ScanLine(Push(stack, Atom(t[1..j + 1])), t[j + 2..])
      case None => ScanLine(Push(stack, Atom(UnterminatedText(t))), t[1..])
    else if Strpos([t[0]], Digits) then
      // The needle is longer than the one-character haystack.
      assert false;
      Scanned(stack)
    else if t[0] == ';' then
      Scanned(stack)
    else
      var n := StopSpan(t);
      ScanLine(Push(stack, Atom(t[..n])), t[n..])
  }

  lemma LTrimKeeps(s: string)
    requires s != [] && !IsBlank(s[0])
    ensures LTrim(s) == s
  {
  }

  /**
   The outer loop of `parse`: one line after another, until the lines run
   out or `fgets` yields a falsy line (`"0"` at the end of a file).
   */
  function ParseLines(stack: Stack, lines: seq<string>): (r: Scan)
    requires |stack| >= 1
    ensures r.Scanned? ==> |r.stack| >= 1 && stack[0] <= r.stack[0]
    decreases |lines|
  {
    if lines == [] || !Truthy(Some(lines[0])) then Scanned(stack)
    else
      match ScanLine(stack, lines[0])
      case Underflow => Underflow
      case Scanned(st) => ParseLines(st, lines[1..])
  }

  /** `parse`: the root list, flagged when the parentheses did not match. */
  function Parse(lines: seq<string>): (r: ParseResult)
    ensures r.Parsed? <==> ParseLines([[]], lines).Scanned? && |ParseLines([[]], lines).stack| == 1
    ensures r.UnmatchedClose? <==> ParseLines([[]], lines).Underflow?
  {
    match ParseLines([[]], lines)
    case Underflow => UnmatchedClose
    case Scanned(st) => if |st| == 1 then Parsed(st[0]) else Mismatched(st[0])
  }

  // ---------------------------------------------------------------------
  // Token-level facts
  // ---------------------------------------------------------------------

  /** The guard of the numeric branch never holds, whatever the character. */
  lemma NumericBranchDead(c: char)
    ensures !Strpos([c], Digits)
  {
    StrposLongerNeedle([c], Digits);
  }

  lemma ScanBlank(stack: Stack, c: char, s: string)
    requires |stack| >= 1 && IsBlank(c)
    ensures ScanLine(stack, [c] + s) == ScanLine(stack, s)
  {
    assert ([c] + s)[1..] == s;
    assert LTrim([c] + s) == LTrim(s);
  }

  // Each step of the scanner is stated on its own, for a line `t` that
  // starts with the character the step handles.

  /** A line that starts with a non-blank is scanned as it stands. */
  lemma TokenStep(stack: Stack, t: string)
    requires |stack| >= 1 && t != [] && !IsBlank(t[0])
    ensures ScanLine(stack, t) == ScanToken(stack, t)
  {
    LTrimKeeps(t);
  }

  lemma OpenStep(stack: Stack, t: string)
    requires |stack| >= 1 && t != [] && t[0] == '('
    ensures ScanToken(stack, t) == ScanLine(stack + [[]], t[1..])
  {
  }

  lemma CloseStep(stack: Stack, t: string)
    requires |stack| >= 1 && t != [] && t[0] == ')'
    ensures ScanToken(stack, t) == if |stack| == 1 then Underflow else ScanLine(Close(stack), t[1..])
  {
  }

  lemma CommentStep(stack: Stack, t: string)
    requires |stack| >= 1 && t != [] && t[0] == ';'
    ensures ScanToken(stack, t) == Scanned(stack)
  {
    assert t[0] != '(' && t[0] != ')' && t[0] != '"';
    NumericBranchDead(';');
  }

  lemma QuoteStep(stack: Stack, t: string, j: nat)
    requires |stack| >= 1 && t != [] && t[0] == '"' && IndexOf(t[1..], '"') == Some(j)
    ensures ScanToken(stack, t) == ScanLine(Push(stack, Atom(t[1..j + 1])), t[j + 2..])
  {
    assert t[0] != '(' && t[0] != ')';
    assert ScanToken(stack, t) ==
      var k := IndexOf(t[1..], '"').value;
      ScanLine(Push(stack, Atom(t[1..k + 1])), t[k + 2..]);
  }

  lemma UnterminatedStep(stack: Stack, t: string)
    requires |stack| >= 1 && t != [] && t[0] == '"' && IndexOf(t[1..], '"') == None
    ensures ScanToken(stack, t) == ScanLine(Push(stack, Atom(UnterminatedText(t))), t[1..])
  {
    assert t[0] != '(' && t[0] != ')';
  }

  lemma SymbolStep(stack: Stack, t: string)
    requires |stack| >= 1 && t != [] && !IsBlank(t[0]) && !IsStop(t[0]) && t[0] != '"'
    ensures ScanToken(stack, t) == ScanLine(Push(stack, Atom(t[..StopSpan(t)])), t[StopSpan(t)..])
  {
    assert t[0] != '(' && t[0] != ')' && t[0] != ';';
    NumericBranchDead(t[0]);
  }

  /** A `(` opens a new innermost list. */
  lemma OpenParen(stack: Stack, x: string)
    requires |stack| >= 1
    ensures ScanLine(stack, "(" + x) == ScanLine(stack + [[]], x)
  {
    TokenStep(stack, "(" + x);
    OpenStep(stack, "(" + x);
    assert ("(" + x)[1..] == x;
  }

  /** A `)` closes the innermost list into the one below it. */
  lemma CloseParen(stack: Stack, x: string)
    requires |stack| >= 2
    ensures ScanLine(stack, ")" + x) == ScanLine(Close(stack), x)
  {
    TokenStep(stack, ")" + x);
    CloseStep(stack, ")" + x);
    assert (")" + x)[1..] == x;
  }

  /** A `)` with only the root list open closes nothing: the scan fails. */
  lemma CloseRoot(stack: Stack, x: string)
    requires |stack| == 1
    ensures ScanLine(stack, ")" + x) == Underflow
  {
    TokenStep(stack, ")" + x);
    CloseStep(stack, ")" + x);
  }

  /** A `;` discards the rest of the line. */
  lemma CommentDiscards(stack: Stack, s: string)
    requires |stack| >= 1
    ensures ScanLine(stack, ";" + s) == Scanned(stack)
  {
    TokenStep(stack, ";" + s);
    CommentStep(stack, ";" + s);
  }

  /** The pieces of a quoted string followed by more text. */
  lemma QuoteSplit(s: string, rest: string)
    requires '"' !in s
    ensures var t := "\"" + s + "\"" + rest;
            t[0] == '"' && IndexOf(t[1..], '"') == Some(|s|) && t[1..|s| + 1] == s && t[|s| + 2..] == rest
  {
    var t := "\"" + s + "\"" + rest;
    assert t[1..] == s + "\"" + rest;
    assert t[1..][|s|] == '"';
    assert t[1..][..|s|] == s;
  }

  /** A string token is the exact text between the quotes, backslashes included. */
  lemma QuotedToken(stack: Stack, s: string, rest: string)
    requires |stack| >= 1 && '"' !in s
    ensures ScanLine(stack, "\"" + s + "\"" + rest) == ScanLine(Push(stack, Atom(s)), rest)
  {
    var t := "\"" + s + "\"" + rest;
    QuoteSplit(s, rest);
    TokenStep(stack, t);
    QuoteStep(stack, t, |s|);
  }

  /** A character that may appear in a symbol the printer writes bare. */
  predicate SymbolChar(c: char) {
    !IsStop(c) && !IsBlank(c) && c != '"'
  }

  /** A text that reads back as one symbol when followed by a stop character or the end of the line. */
  predicate SymbolSafe(s: string) {
    |s| >= 1 && forall i :: 0 <= i < |s| ==> SymbolChar(s[i])
  }

  /** What may follow a token without extending it. */
  predicate Delimited(rest: string) {
    rest == [] || IsStop(rest[0])
  }

  /** The pieces of a symbol followed by a delimiter. */
  lemma SymbolSplit(s: string, rest: string)
    requires SymbolSafe(s) && Delimited(rest)
    ensures var t := s + rest;
            t != [] && t[0] == s[0] && StopSpan(t) == |s| && t[..|s|] == s && t[|s|..] == rest
  {
    var t := s + rest;
    assert forall i :: 0 <= i < |s| ==> t[i] == s[i];
    StopSpanExact(t, |s|);
  }

  /** A symbol token is the whole run of non-stop characters; digit-led runs are symbols too. */
  lemma SymbolToken(stack: Stack, s: string, rest: string)
    requires |stack| >= 1 && SymbolSafe(s) && Delimited(rest)
    ensures ScanLine(stack, s + rest) == ScanLine(Push(stack, Atom(s)), rest)
  {
    SymbolSplit(s, rest);
    assert SymbolChar(s[0]);
    TokenStep(stack, s + rest);
    SymbolStep(stack, s + rest);
  }

  lemma StopSpanExact(t: string, n: nat)
    requires n <= |t|
    requires forall i :: 0 <= i < n ==> !IsStop(t[i])
    requires n == |t| || IsStop(t[n])
    ensures StopSpan(t) == n
    decreases n
  {
    if n > 0 {
      StopSpanExact(t[1..], n - 1);
    }
  }

  // ---------------------------------------------------------------------
  // Reading back what a printer writes
  // ---------------------------------------------------------------------

  /**
   Every atom can be written on one line: bare when symbol-safe, else
   quoted, which needs it free of `"` and of the newline `fgets` splits at.
   */
  predicate Printable(e: SExpr)
    decreases e
  {
    match e
    case Atom(s) => SymbolSafe(s) || ('"' !in s && '\n' !in s)
    case List(items) => forall i :: 0 <= i < |items| ==> Printable(items[i])
  }

  function Print(e: SExpr): string
    decreases e
  {
    match e
    case Atom(s) => if SymbolSafe(s) then s else "\"" + s + "\""
    case List(items) => "(" + PrintSeq(items) + ")"
  }

  /** The nodes written one after another, separated by blanks. */
  function PrintSeq(items: seq<SExpr>): string
    decreases items
  {
    if items == [] then ""
    else if |items| == 1 then Print(items[0])
    else Print(items[0]) + " " + PrintSeq(items[1..])
  }

  /** The top list with `items` appended. */
  function PushAll(stack: Stack, items: seq<SExpr>): (r: Stack)
    requires |stack| >= 1
    ensures |r| == |stack|
  {
    stack[..|stack| - 1] + [stack[|stack| - 1] + items]
  }

  lemma PushAllNone(stack: Stack)
    requires |stack| >= 1
    ensures PushAll(stack, []) == stack
  {
    assert stack[|stack| - 1] + [] == stack[|stack| - 1];
    assert stack[..|stack| - 1] + [stack[|stack| - 1]] == stack;
  }

  lemma PushAllPush(stack: Stack, x: SExpr, xs: seq<SExpr>)
    requires |stack| >= 1
    ensures PushAll(Push(stack, x), xs) == PushAll(stack, [x] + xs)
  {
    var top := stack[|stack| - 1];
    assert Push(stack, x)[..|stack| - 1] == stack[..|stack| - 1];
    assert (top + [x]) + xs == top + ([x] + xs);
  }

  /** Scanning a printed node pushes exactly that node. */
  lemma {:induction false} ScanPrint(stack: Stack, e: SExpr, rest: string)
    requires |stack| >= 1 && Printable(e) && Delimited(rest)
    ensures ScanLine(stack, Print(e) + rest) == ScanLine(Push(stack, e), rest)
    decreases e, 1
  {
    match e
    case Atom(s) =>
      if SymbolSafe(s) {
        SymbolToken(stack, s, rest);
      } else {
        QuotedToken(stack, s, rest);
      }
    case List(items) =>
      PrintListSplit(items, rest);
      OpenParen(stack, PrintSeq(items) + (")" + rest));
      ScanSeq(stack + [[]], items, ")" + rest);
      ListStacks(stack, items);
      CloseParen(stack + [items], rest);
  }

  lemma PrintListSplit(items: seq<SExpr>, rest: string)
    ensures Print(List(items)) + rest == "(" + (PrintSeq(items) + (")" + rest))
  {
    Reassociate("(", PrintSeq(items), ")", rest);
  }

  /** Opening a list, filling it and closing it pushes the list. */
  lemma ListStacks(stack: Stack, items: seq<SExpr>)
    requires |stack| >= 1
    ensures PushAll(stack + [[]], items) == stack + [items]
    ensures Close(stack + [items]) == Push(stack, List(items))
  {
    var inner := stack + [[]];
    assert inner[..|inner| - 1] == stack;
    assert inner[|inner| - 1] + items == items;
    assert (stack + [items])[..|stack|] == stack;
  }

  lemma PrintSeqSplit(items: seq<SExpr>, rest: string)
    requires |items| >= 2
    ensures PrintSeq(items) + rest == Print(items[0]) + (" " + (PrintSeq(items[1..]) + rest))
  {
    Reassociate(Print(items[0]), " ", PrintSeq(items[1..]), rest);
  }

  lemma Reassociate(a: string, b: string, c: string, d: string)
    ensures a + b + c + d == a + (b + (c + d))
  {
  }

  /** Scanning printed nodes separated by blanks appends exactly those nodes to the innermost list. */
  lemma {:induction false} ScanSeq(stack: Stack, items: seq<SExpr>, rest: string)
    requires |stack| >= 1 && Delimited(rest)
    requires forall i :: 0 <= i < |items| ==> Printable(items[i])
    ensures ScanLine(stack, PrintSeq(items) + rest) == ScanLine(PushAll(stack, items), rest)
    decreases items, 0
  {
    if items == [] {
      PushAllNone(stack);
      assert PrintSeq(items) + rest == rest;
    } else if |items| == 1 {
      ScanPrint(stack, items[0], rest);
      PushAllCons(stack, items);
      assert items[1..] == [];
      PushAllNone(Push(stack, items[0]));
    } else {
      var tail := PrintSeq(items[1..]) + rest;
      PrintSeqSplit(items, rest);
      ScanPrint(stack, items[0], " " + tail);
      var s1 := Push(stack, items[0]);
      ScanBlank(s1, ' ', tail);
      assert forall i :: 0 <= i < |items[1..]| ==> items[1..][i] == items[i + 1];
      ScanSeq(s1, items[1..], rest);
      PushAllCons(stack, items);
    }
  }

  /** Pushing a run of nodes is pushing the first, then the rest. */
  lemma PushAllCons(stack: Stack, items: seq<SExpr>)
    requires |stack| >= 1 && items != []
    ensures PushAll(stack, items) == PushAll(Push(stack, items[0]), items[1..])
  {
    PushAllPush(stack, items[0], items[1..]);
    assert [items[0]] + items[1..] == items;
  }

  /** A line's end leaves the stack as it is. */
  lemma EndOfLine(stack: Stack)
    requires |stack| >= 1
    ensures ScanLine(stack, "\n") == Scanned(stack)
  {
    var nl := "\n";
    assert IsBlank(nl[0]) && nl[1..] == [];
    assert LTrim(nl) == [] by {
      assert LTrim(nl) == LTrim(nl[1..]);
    }
    assert ScanToken(stack, []) == Scanned(stack);
  }

  /** With only the root list open, a push appends to it. */
  lemma PushRoot(x: seq<SExpr>, e: SExpr)
    ensures Push([x], e) == [x + [e]]
  {
    assert [x][..0] == [];
  }

  /** With only the root list open, pushing many appends them all to it. */
  lemma PushAllRoot(items: seq<SExpr>)
    ensures PushAll([[]], items) == [items]
  {
    var root: Stack := [[]];
    assert root[..0] == [] && root[0] + items == items;
  }

  /** The outer loop takes a truthy line and goes on with the stack its scan leaves. */
  lemma ParseStep(stack: Stack, lines: seq<string>, st: Stack)
    requires |stack| >= 1 && lines != [] && Truthy(Some(lines[0])) && ScanLine(stack, lines[0]) == Scanned(st)
    ensures ParseLines(stack, lines) == ParseLines(st, lines[1..])
  {
  }

  /** A single truthy line reads as its scan. */
  lemma ParseOne(line: string)
    requires Truthy(Some(line))
    ensures ParseLines([[]], [line]) == ScanLine([[]], line)
  {
    assert [line][1..] == [];
  }

  /** A printed root list on one line scans to a stack holding just that list. */
  lemma OneLine(items: seq<SExpr>, line: string)
    requires forall i :: 0 <= i < |items| ==> Printable(items[i])
    requires line == PrintSeq(items) + "\n"
    ensures Truthy(Some(line))
    ensures ScanLine([[]], line) == Scanned([items])
  {
    assert line[|line| - 1] == '\n';
    assert line != "0";
    ScanSeq([[]], items, "\n");
    PushAllRoot(items);
    EndOfLine([items]);
  }

  /** A printed root list, on one line, reads back as exactly that list. */
  lemma RoundTrip(items: seq<SExpr>)
    requires forall i :: 0 <= i < |items| ==> Printable(items[i])
    ensures Parse([PrintSeq(items) + "\n"]) == Parsed(items)
  {
    var line := PrintSeq(items) + "\n";
    OneLine(items, line);
    ParseOne(line);
  }

  // ---------------------------------------------------------------------
  // Worked inputs
  // ---------------------------------------------------------------------

  /** A digit-led token is a symbol: it is read as an atom holding its text, never as a number. */
  lemma NumbersAreSymbols(s: string)
    requires SymbolSafe(s) && s[0] in Digits
    ensures Parse([s + "\n"]) == Parsed([Atom(s)])
  {
    assert PrintSeq([Atom(s)]) == s;
    RoundTrip([Atom(s)]);
  }

  /** An unclosed list is reported, and the root it would have joined comes back without it. */
  lemma UnclosedList(s: string)
    requires SymbolSafe(s)
    ensures Parse(["(" + s + "\n"]) == Mismatched([])
  {
    var line := "(" + s + "\n";
    var s0: Stack := [[]];
    var s2 := Push(s0 + [[]], Atom(s));
    assert line == "(" + (s + "\n");
    assert line[0] == '(';
    OpenParen(s0, s + "\n");
    SymbolToken(s0 + [[]], s, "\n");
    EndOfLine(s2);
    ParseOne(line);
    assert |s2| == 2 && s2[0] == [];
  }

  /** A `)` that would close the root list stops the scan, whatever follows. */
  lemma StrayClose(x: string, rest: seq<string>)
    ensures Parse([")" + x] + rest) == UnmatchedClose
  {
    var line := ")" + x;
    CloseRoot([[]], x);
    assert line[0] == ')';
    assert Truthy(Some(line));
    assert ([line] + rest)[0] == line;
  }

  /**
   `fgets` yields the falsy `"0"` for a last line holding only `0`; reading
   stops there and later lines are never scanned.
   */
  lemma FalsyLineStops(items: seq<SExpr>, rest: seq<string>)
    requires forall i :: 0 <= i < |items| ==> Printable(items[i])
    ensures Parse([PrintSeq(items) + "\n", "0"] + rest) == Parsed(items)
  {
    var line := PrintSeq(items) + "\n";
    var lines := [line, "0"] + rest;
    OneLine(items, line);
    assert lines[0] == line;
    ParseStep([[]], lines, [items]);
    assert lines[1..][0] == "0";
    FalsyLineEnds([items], lines[1..]);
  }

  /** A falsy line ends the `fgets` loop with the stack as it stands. */
  lemma FalsyLineEnds(stack: Stack, lines: seq<string>)
    requires |stack| >= 1 && lines != [] && !Truthy(Some(lines[0]))
    ensures ParseLines(stack, lines) == Scanned(stack)
  {
  }

  /** A comment line contributes nothing. */
  lemma CommentLine(c: string, items: seq<SExpr>)
    requires forall i :: 0 <= i < |items| ==> Printable(items[i])
    ensures Parse([";" + c, PrintSeq(items) + "\n"]) == Parsed(items)
  {
    var line := PrintSeq(items) + "\n";
    var lines := [";" + c, line];
    CommentDiscards([[]], c);
    assert lines[0][0] == ';';
    ParseStep([[]], lines, [[]]);
    assert lines[1..] == [line];
    OneLine(items, line);
    ParseOne(line);
  }

  /** The pieces of a line holding an opening quote and a symbol-safe text. */
  lemma UnterminatedSplit(s: string)
    requires SymbolSafe(s)
    ensures var t := "\"" + s + "\n";
            t != [] && t[0] == '"' && t[1..] == s + "\n" && IndexOf(t[1..], '"') == None && UnterminatedText(t) == s
  {
    var t := "\"" + s + "\n";
    assert t[1..] == s + "\n";
    forall i | 0 <= i < |t[1..]| ensures t[1..][i] != '"' {
      if i < |s| {
        assert t[1..][i] == s[i] && SymbolChar(s[i]);
      }
    }
  }

  lemma UnterminatedLine(stack: Stack, s: string)
    requires |stack| >= 1 && SymbolSafe(s)
    ensures ScanLine(stack, "\"" + s + "\n") == ScanLine(Push(Push(stack, Atom(s)), Atom(s)), "\n")
  {
    var t := "\"" + s + "\n";
    UnterminatedSplit(s);
    TokenStep(stack, t);
    UnterminatedStep(stack, t);
    SymbolToken(Push(stack, Atom(s)), s, "\n");
  }

  /**
   A string with no closing quote on its line yields the rest of the line
   minus its last character, and the scan resumes right after the quote:
   the text is read twice.
   */
  lemma UnterminatedStringReadTwice(s: string)
    requires SymbolSafe(s)
    ensures Parse(["\"" + s + "\n"]) == Parsed([Atom(s), Atom(s)])
  {
    var t := "\"" + s + "\n";
    var root: Stack := [[]];
    UnterminatedLine(root, s);
    var s2 := Push(Push(root, Atom(s)), Atom(s));
    PushRoot([], Atom(s));
    PushRoot([Atom(s)], Atom(s));
    assert [] + [Atom(s)] == [Atom(s)];
    assert [Atom(s)] + [Atom(s)] == [Atom(s), Atom(s)];
    EndOfLine(s2);
    assert t[0] == '"';
    ParseOne(t);
  }

  // ---------------------------------------------------------------------
  // Records across lines
  // ---------------------------------------------------------------------

  /** What a printer writes between blanks: a parenthesis or one atom. */
  datatype Tok = OpenTok | CloseTok | AtomTok(text: string)

  predicate TokSafe(t: Tok) {
    t.AtomTok? ==> Printable(Atom(t.text))
  }

  predicate AllSafe(ts: seq<Tok>) {
    forall i :: 0 <= i < |ts| ==> TokSafe(ts[i])
  }

  function PrintTok(t: Tok): string {
    match t
    case OpenTok => "("
    case CloseTok => ")"
    case AtomTok(s) => Print(Atom(s))
  }

  /** Tokens written one after another, separated by blanks. */
  function PrintToks(ts: seq<Tok>): string
    decreases |ts|
  {
    if ts == [] then ""
    else if |ts| == 1 then PrintTok(ts[0])
    else PrintTok(ts[0]) + " " + PrintToks(ts[1..])
  }

  /** What one token does to the stack, independently of any text. */
  function Step(stack: Stack, t: Tok): (r: Scan)
    requires |stack| >= 1
    ensures r.Scanned? ==> |r.stack| >= 1
  {
    match t
    case OpenTok => Scanned(stack + [[]])
    case CloseTok => if |stack| == 1 then Underflow else Scanned(Close(stack))
    case AtomTok(s) => Scanned(Push(stack, Atom(s)))
  }

  /** The tokens applied in order, stopping at the first `)` with no open list. */
  function Run(stack: Stack, ts: seq<Tok>): (r: Scan)
    requires |stack| >= 1
    ensures r.Scanned? ==> |r.stack| >= 1
    decreases |ts|
  {
    if ts == [] then Scanned(stack)
    else
      match Step(stack, ts[0])
      case Underflow => Underflow
      case Scanned(s) => Run(s, ts[1..])
  }

  /** Scanning `rest` after a scan that finished. */
  function Then(r: Scan, rest: string): Scan
    requires r.Scanned? ==> |r.stack| >= 1
  {
    match r
    case Underflow => Underflow
    case Scanned(s) => ScanLine(s, rest)
  }

  lemma {:induction false} RunAppend(stack: Stack, a: seq<Tok>, b: seq<Tok>)
    requires |stack| >= 1
    ensures Run(stack, a + b) == match Run(stack, a) case Underflow => Underflow case Scanned(s) => Run(s, b)
    decreases |a|
  {
    if a == [] {
      assert a + b == b;
    } else {
      assert (a + b)[0] == a[0] && (a + b)[1..] == a[1..] + b;
      match Step(stack, a[0])
      case Underflow =>
      case Scanned(s) => RunAppend(s, a[1..], b);
    }
  }

  /** Scanning one printed token does what the token does. */
  lemma ScanTok(stack: Stack, t: Tok, rest: string)
    requires |stack| >= 1 && TokSafe(t) && Delimited(rest)
    ensures ScanLine(stack, PrintTok(t) + rest) == Then(Step(stack, t), rest)
  {
    match t
    case OpenTok => OpenParen(stack, rest);
    case CloseTok =>
      if |stack| == 1 {
        CloseRoot(stack, rest);
      } else {
        CloseParen(stack, rest);
      }
    case AtomTok(s) => ScanPrint(stack, Atom(s), rest);
  }

  /** Scanning printed tokens separated by blanks runs exactly those tokens. */
  lemma {:induction false} ScanToks(stack: Stack, ts: seq<Tok>, rest: string)
    requires |stack| >= 1 && AllSafe(ts) && Delimited(rest)
    ensures ScanLine(stack, PrintToks(ts) + rest) == Then(Run(stack, ts), rest)
    decreases |ts|
  {
    if ts == [] {
      assert PrintToks(ts) + rest == rest;
    } else if |ts| == 1 {
      ScanToksOne(stack, ts, rest);
    } else {
      var r := Step(stack, ts[0]);
      if r.Scanned? {
        assert [ts[0]] + ts[1..] == ts;
        AllSafeSplit([ts[0]], ts[1..]);
        ScanToks(r.stack, ts[1..], rest);
      }
      ScanToksCons(stack, ts, rest);
    }
  }

  /** Several printed tokens: the first, then the rest scanned from where it leaves the stack. */
  lemma ScanToksCons(stack: Stack, ts: seq<Tok>, rest: string)
    requires |stack| >= 1 && |ts| >= 2 && TokSafe(ts[0])
    requires Step(stack, ts[0]).Scanned? ==>
               ScanLine(Step(stack, ts[0]).stack, PrintToks(ts[1..]) + rest)
                 == Then(Run(Step(stack, ts[0]).stack, ts[1..]), rest)
    ensures ScanLine(stack, PrintToks(ts) + rest) == Then(Run(stack, ts), rest)
  {
    ScanToksHead(stack, ts, rest);
  }

  /** A single printed token. */
  lemma ScanToksOne(stack: Stack, ts: seq<Tok>, rest: string)
    requires |stack| >= 1 && |ts| == 1 && TokSafe(ts[0]) && Delimited(rest)
    ensures ScanLine(stack, PrintToks(ts) + rest) == Then(Run(stack, ts), rest)
  {
    assert PrintToks(ts) == PrintTok(ts[0]);
    RunOne(stack, ts);
    ScanTok(stack, ts[0], rest);
  }

  /** Running a single token is taking its step. */
  lemma RunOne(stack: Stack, ts: seq<Tok>)
    requires |stack| >= 1 && |ts| == 1
    ensures Run(stack, ts) == Step(stack, ts[0])
  {
    var r := Step(stack, ts[0]);
    assert ts[1..] == [];
    if r.Scanned? {
      assert Run(r.stack, ts[1..]) == r;
    }
  }

  /** The first of several printed tokens, then the blank after it. */
  lemma ScanToksHead(stack: Stack, ts: seq<Tok>, rest: string)
    requires |stack| >= 1 && |ts| >= 2 && TokSafe(ts[0])
    ensures ScanLine(stack, PrintToks(ts) + rest)
              == Then(Step(stack, ts[0]), PrintToks(ts[1..]) + rest)
  {
    var tail := PrintToks(ts[1..]) + rest;
    Reassociate(PrintTok(ts[0]), " ", PrintToks(ts[1..]), rest);
    ScanTok(stack, ts[0], " " + tail);
    match Step(stack, ts[0])
    case Underflow =>
    case Scanned(s1) => ScanBlank(s1, ' ', tail);
  }

  /** The tokens of all lines, in order. */
  function Flatten(tss: seq<seq<Tok>>): seq<Tok>
    decreases |tss|
  {
    if tss == [] then [] else tss[0] + Flatten(tss[1..])
  }

  /** Each token list written as one line, as `fgets` returns it. */
  function TokenLines(tss: seq<seq<Tok>>): seq<string>
    decreases |tss|
  {
    if tss == [] then [] else [PrintToks(tss[0]) + "\n"] + TokenLines(tss[1..])
  }

  lemma AllSafeSplit(a: seq<Tok>, b: seq<Tok>)
    requires AllSafe(a + b)
    ensures AllSafe(a) && AllSafe(b)
  {
    assert forall i :: 0 <= i < |a| ==> (a + b)[i] == a[i];
    assert forall i :: 0 <= i < |b| ==> (a + b)[|a| + i] == b[i];
  }

  /** A line that ends in a newline is truthy. */
  lemma NewlineLineTruthy(x: string)
    ensures Truthy(Some(x + "\n"))
  {
    var line := x + "\n";
    assert line[|line| - 1] == '\n';
  }

  /**
   Reading lines of printed tokens runs all their tokens in order: where the
   lines break between tokens does not matter.
   */
  lemma {:induction false} ParseTokenLines(stack: Stack, tss: seq<seq<Tok>>)
    requires |stack| >= 1 && AllSafe(Flatten(tss))
    ensures ParseLines(stack, TokenLines(tss)) == Run(stack, Flatten(tss))
    decreases |tss|
  {
    if tss != [] {
      AllSafeSplit(tss[0], Flatten(tss[1..]));
      FirstTokenLine(stack, tss);
      RunAppend(stack, tss[0], Flatten(tss[1..]));
      var r := Run(stack, tss[0]);
      if r.Scanned? {
        ParseTokenLines(r.stack, tss[1..]);
      }
    }
  }

  /** The first line of printed tokens runs its tokens; the rest read on from there. */
  lemma FirstTokenLine(stack: Stack, tss: seq<seq<Tok>>)
    requires |stack| >= 1 && tss != [] && AllSafe(tss[0])
    ensures ParseLines(stack, TokenLines(tss))
              == match Run(stack, tss[0])
                 case Underflow => Underflow
                 case Scanned(s) => ParseLines(s, TokenLines(tss[1..]))
  {
    var lines := TokenLines(tss);
    var line := PrintToks(tss[0]) + "\n";
    assert lines == [line] + TokenLines(tss[1..]);
    assert lines[0] == line && lines[1..] == TokenLines(tss[1..]);
    TokenLine(stack, tss[0]);
    ParseFirstLine(stack, lines);
  }

  /** One line of printed tokens, ended by its newline, scans as the tokens run. */
  lemma TokenLine(stack: Stack, ts: seq<Tok>)
    requires |stack| >= 1 && AllSafe(ts)
    ensures Truthy(Some(PrintToks(ts) + "\n"))
    ensures ScanLine(stack, PrintToks(ts) + "\n") == Run(stack, ts)
  {
    NewlineLineTruthy(PrintToks(ts));
    ScanToks(stack, ts, "\n");
    var r := Run(stack, ts);
    if r.Scanned? {
      EndOfLine(r.stack);
    }
  }

  /** A truthy first line is scanned, and reading goes on from the stack it leaves. */
  lemma ParseFirstLine(stack: Stack, lines: seq<string>)
    requires |stack| >= 1 && lines != [] && Truthy(Some(lines[0]))
    ensures ParseLines(stack, lines)
              == match ScanLine(stack, lines[0])
                 case Underflow => Underflow
                 case Scanned(s) => ParseLines(s, lines[1..])
  {
  }

  /** Two ways of breaking the same tokens into lines read the same. */
  lemma LineBreaksIrrelevant(tss1: seq<seq<Tok>>, tss2: seq<seq<Tok>>)
    requires AllSafe(Flatten(tss1)) && Flatten(tss1) == Flatten(tss2)
    ensures Parse(TokenLines(tss1)) == Parse(TokenLines(tss2))
  {
    ParseTokenLines([[]], tss1);
    ParseTokenLines([[]], tss2);
  }

  /** The tokens a printer writes for a node. */
  function Tokens(e: SExpr): seq<Tok>
    decreases e
  {
    match e
    case Atom(s) => [AtomTok(s)]
    case List(items) => [OpenTok] + TokensSeq(items) + [CloseTok]
  }

  function TokensSeq(items: seq<SExpr>): seq<Tok>
    decreases items
  {
    if items == [] then [] else Tokens(items[0]) + TokensSeq(items[1..])
  }

  /** Running a node's tokens pushes that node. */
  lemma {:induction false} RunTree(stack: Stack, e: SExpr)
    requires |stack| >= 1
    ensures Run(stack, Tokens(e)) == Scanned(Push(stack, e))
    decreases e, 1
  {
    match e
    case Atom(s) =>
      assert Run(Push(stack, e), []) == Scanned(Push(stack, e));
    case List(items) =>
      var body := TokensSeq(items);
      var open := stack + [[]];
      RunAppend(stack, [OpenTok] + body, [CloseTok]);
      RunAppend(stack, [OpenTok], body);
      assert Run(stack, [OpenTok]) == Scanned(open) by {
        assert Run(open, []) == Scanned(open);
      }
      RunTrees(open, items);
      ListStacks(stack, items);
      assert Run(stack + [items], [CloseTok]) == Scanned(Push(stack, e)) by {
        assert Run(Close(stack + [items]), []) == Scanned(Close(stack + [items]));
      }
  }

  /** Running the tokens of several nodes pushes them in order. */
  lemma {:induction false} RunTrees(stack: Stack, items: seq<SExpr>)
    requires |stack| >= 1
    ensures Run(stack, TokensSeq(items)) == Scanned(PushAll(stack, items))
    decreases items, 0
  {
    if items == [] {
      PushAllNone(stack);
    } else {
      RunAppend(stack, Tokens(items[0]), TokensSeq(items[1..]));
      RunTree(stack, items[0]);
      RunTrees(Push(stack, items[0]), items[1..]);
      PushAllCons(stack, items);
    }
  }

  /** The tokens of printable nodes can all be written. */
  lemma {:induction false} SafeTree(e: SExpr)
    requires Printable(e)
    ensures AllSafe(Tokens(e))
    decreases e, 1
  {
    match e
    case Atom(s) =>
    case List(items) =>
      SafeTrees(items);
      var ts := Tokens(e);
      assert forall i :: 1 <= i < |ts| - 1 ==> ts[i] == TokensSeq(items)[i - 1];
  }

  lemma {:induction false} SafeTrees(items: seq<SExpr>)
    requires forall i :: 0 <= i < |items| ==> Printable(items[i])
    ensures AllSafe(TokensSeq(items))
    decreases items, 0
  {
    if items != [] {
      SafeTree(items[0]);
      assert forall i :: 0 <= i < |items[1..]| ==> items[1..][i] == items[i + 1];
      SafeTrees(items[1..]);
      var a := Tokens(items[0]);
      var b := TokensSeq(items[1..]);
      assert forall i :: 0 <= i < |a + b| ==> (a + b)[i] == if i < |a| then a[i] else b[i - |a|];
    }
  }

  /**
   Printed nodes spread over any number of lines, broken at any blank
   between tokens -- so a record may span lines -- read back as exactly
   those nodes.
   */
  lemma MultiLineRoundTrip(tss: seq<seq<Tok>>, items: seq<SExpr>)
    requires forall i :: 0 <= i < |items| ==> Printable(items[i])
    requires Flatten(tss) == TokensSeq(items)
    ensures Parse(TokenLines(tss)) == Parsed(items)
  {
    SafeTrees(items);
    ParseTokenLines([[]], tss);
    RunTrees([[]], items);
    PushAllRoot(items);
  }
}
