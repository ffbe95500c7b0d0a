/**
 * The splitter of the initial migration: a state machine over quotes, comments and dollar
 * blocks. Its raw segments are a partition of the text, and on text whose quotes and comments
 * are all inside dollar blocks they are those of the shared splitter, semicolons included.
 */
module InitialSplit {
  import opened Base
  import opened SqlText
  import S = StatementSplit

  datatype Mode = Normal | SingleQuote | LineComment | BlockComment | Dollar(tag: string)

  /** How far one step of the machine moves, and the mode it moves to. */
  datatype Step = Step(length: nat, mode: Mode)

  predicate Starts(s: string, a: char, b: char) {
    |s| > 1 && s[0] == a && s[1] == b
  }

  function Move(mode: Mode, s: string): (step: Step)
    requires s != ""
    ensures 1 <= step.length <= |s|
  {
    match mode
    case LineComment => Step(1, if s[0] == '\n' then Normal else LineComment)
    case BlockComment => if Starts(s, '*', '/') then Step(2, Normal) else Step(1, BlockComment)
    case SingleQuote => Step(1, if s[0] == '\'' then Normal else SingleQuote)
    case Dollar(tag) =>
      var j := FindDollar(s[1..]);
      if s[0] == '$' && j.Some? && s[..j.value + 2] == tag then Step(j.value + 2, Normal) else Step(1, mode)
    case Normal =>
      if Starts(s, '-', '-') then Step(1, LineComment)
      else if Starts(s, '/', '*') then Step(2, BlockComment)
      else if s[0] == '\'' then Step(1, SingleQuote)
      else if s[0] == '$' && FindDollar(s[1..]).Some? then
        var length := FindDollar(s[1..]).value + 2;
        Step(length, Dollar(s[..length]))
      else Step(1, Normal)
  }

  predicate Terminates(mode: Mode, s: string) {
    s != "" && mode.Normal? && s[0] == ';'
  }

  /** The raw segments: each ends with its semicolon, the last is the remainder. */
  function Segments(mode: Mode, buf: string, s: string): (segments: seq<string>)
    ensures segments != []
    decreases |s|
  {
    if s == "" then [buf]
    else
      var step := Move(mode, s);
      var rest := s[step.length..];
      if Terminates(mode, s) then [buf + ";"] + Segments(Normal, "", rest)
      else Segments(step.mode, buf + s[..step.length], rest)
  }

  /** The statements: stripped segments, leaving out those that are nothing or a bare semicolon. */
  function FromSegments(segments: seq<string>): seq<string>
    requires segments != []
  {
    if |segments| == 1 then Clean(segments[0])
    else (if Strip(segments[0]) == ";" then [] else Clean(segments[0])) + FromSegments(segments[1..])
  }

  function Statements(sql: string): seq<string> {
    FromSegments(Segments(Normal, "", sql))
  }

  function Concat(parts: seq<string>): string {
    if parts == [] then "" else parts[0] + Concat(parts[1..])
  }

  lemma TerminatorIsOneStep(mode: Mode, s: string)
    requires Terminates(mode, s)
    ensures Move(mode, s).length == 1 && s == ";" + s[1..]
  {
  }

  /** Nothing of the text is lost, repeated or reordered. */
  lemma {:induction false} SegmentsPartition(mode: Mode, buf: string, s: string)
    ensures Concat(Segments(mode, buf, s)) == buf + s
    decreases |s|
  {
    hide Move, Terminates;
    if s != "" {
      var step := Move(mode, s);
      var rest := s[step.length..];
      if Terminates(mode, s) {
        TerminatorIsOneStep(mode, s);
        SegmentsPartition(Normal, "", rest);
        assert buf + ";" + rest == buf + (";" + rest);
      } else {
        SegmentsPartition(step.mode, buf + s[..step.length], rest);
        assert buf + s[..step.length] + rest == buf + s;
      }
    }
  }

  // ----- what does not end a statement -----

  lemma {:induction false} RestOfQuote(buf: string, q: string, rest: string)
    requires '\'' !in q
    ensures Segments(SingleQuote, buf, q + "'" + rest) == Segments(Normal, buf + q + "'", rest)
    decreases |q|
  {
    var s := q + "'" + rest;
    if q == "" {
      assert s[1..] == rest && s[..1] == "'" && buf + q + "'" == buf + s[..1];
    } else {
      assert s[1..] == q[1..] + "'" + rest && s[..1] == [q[0]];
      RestOfQuote(buf + [q[0]], q[1..], rest);
      assert buf + [q[0]] + q[1..] + "'" == buf + q + "'";
    }
  }

  /** A string literal is taken over whole, semicolons and all. */
  lemma LiteralIsWhole(buf: string, q: string, rest: string)
    requires '\'' !in q
    ensures Segments(Normal, buf, "'" + q + "'" + rest) == Segments(Normal, buf + "'" + q + "'", rest)
  {
    var s := "'" + q + "'" + rest;
    assert s[1..] == q + "'" + rest && s[..1] == "'";
    RestOfQuote(buf + "'", q, rest);
  }

  lemma {:induction false} RestOfLine(buf: string, x: string, rest: string)
    requires '\n' !in x
    ensures Segments(LineComment, buf, x + "\n" + rest) == Segments(Normal, buf + x + "\n", rest)
    decreases |x|
  {
    var s := x + "\n" + rest;
    if x == "" {
      assert s[1..] == rest && s[..1] == "\n" && buf + x + "\n" == buf + s[..1];
    } else {
      assert s[1..] == x[1..] + "\n" + rest && s[..1] == [x[0]];
      RestOfLine(buf + [x[0]], x[1..], rest);
      assert buf + [x[0]] + x[1..] + "\n" == buf + x + "\n";
    }
  }

  /** So is a line comment. */
  lemma LineCommentIsWhole(buf: string, x: string, rest: string)
    requires '\n' !in x
    ensures Segments(Normal, buf, "--" + x + "\n" + rest) == Segments(Normal, buf + "--" + x + "\n", rest)
  {
    var s := "--" + x + "\n" + rest;
    assert s[1..] == ("-" + x) + "\n" + rest && s[..1] == "-";
    RestOfLine(buf + "-", "-" + x, rest);
    assert buf + "-" + ("-" + x) + "\n" == buf + "--" + x + "\n";
  }

  lemma {:induction false} RestOfBlock(buf: string, x: string, rest: string)
    requires forall i, j :: 0 <= i < |x| && x[i] == '*' && j == i + 1 < |x| ==> x[j] != '/'
    ensures Segments(BlockComment, buf, x + "*/" + rest) == Segments(Normal, buf + x + "*/", rest)
    decreases |x|
  {
    var s := x + "*/" + rest;
    if x == "" {
      assert s[2..] == rest && s[..2] == "*/" && buf + x + "*/" == buf + s[..2];
    } else {
      assert s[1..] == x[1..] + "*/" + rest && s[..1] == [x[0]];
      assert s[1] == if |x| > 1 then x[1] else '*';
      RestOfBlock(buf + [x[0]], x[1..], rest);
      assert buf + [x[0]] + x[1..] + "*/" == buf + x + "*/";
    }
  }

  /** And a block comment, up to the first star and slash. */
  lemma BlockCommentIsWhole(buf: string, x: string, rest: string)
    requires forall i, j :: 0 <= i < |x| && x[i] == '*' && j == i + 1 < |x| ==> x[j] != '/'
    ensures Segments(Normal, buf, "/*" + x + "*/" + rest) == Segments(Normal, buf + "/*" + x + "*/", rest)
  {
    var s := "/*" + x + "*/" + rest;
    assert s[2..] == x + "*/" + rest && s[..2] == "/*";
    RestOfBlock(buf + "/*", x, rest);
  }

  predicate IsPlainTag(tag: string) {
    |tag| >= 2 && tag[0] == '$' && tag[|tag| - 1] == '$' && '$' !in tag[1..|tag| - 1]
  }

  /** The text from a dollar through the next one. */
  lemma DollarOf(tag: string, rest: string)
    requires IsPlainTag(tag)
    ensures FindDollar((tag + rest)[1..]) == Some(|tag| - 2)
  {
    var s := (tag + rest)[1..];
    assert s[|tag| - 2] == '$';
    assert forall i :: 0 <= i < |tag| - 2 ==> s[i] == tag[1..|tag| - 1][i];
  }

  lemma DollarCloses(tag: string, rest: string)
    requires IsPlainTag(tag)
    ensures Move(Dollar(tag), tag + rest) == Step(|tag|, Normal)
  {
    DollarOf(tag, rest);
    assert (tag + rest)[..|tag|] == tag;
  }

  lemma TagEndsBlock(buf: string, tag: string, rest: string)
    requires IsPlainTag(tag)
    ensures Segments(Dollar(tag), buf, tag + rest) == Segments(Normal, buf + tag, rest)
  {
    DollarCloses(tag, rest);
    hide Move;
    assert (tag + rest)[|tag|..] == rest && (tag + rest)[..|tag|] == tag;
  }

  lemma TagOpensBlock(buf: string, tag: string, rest: string)
    requires IsPlainTag(tag)
    ensures Segments(Normal, buf, tag + rest) == Segments(Dollar(tag), buf + tag, rest)
  {
    DollarOf(tag, rest);
    assert (tag + rest)[|tag|..] == rest && (tag + rest)[..|tag|] == tag;
    assert Move(Normal, tag + rest) == Step(|tag|, Dollar(tag));
  }

  lemma InsideBlock(buf: string, tag: string, s: string)
    requires IsPlainTag(tag) && s != "" && !(tag <= s)
    ensures Segments(Dollar(tag), buf, s) == Segments(Dollar(tag), buf + [s[0]], s[1..])
  {
    assert Move(Dollar(tag), s) == Step(1, Dollar(tag));
    assert s[..1] == [s[0]];
  }

  lemma {:induction false} RestOfDollar(buf: string, tag: string, x: string, rest: string)
    requires IsPlainTag(tag) && StandsFirst(x, tag)
    ensures Segments(Dollar(tag), buf, x + (tag + rest)) == Segments(Normal, buf + x + tag, rest)
    decreases |x|
  {
    hide Segments, IsPlainTag;
    if x == "" {
      TagEndsBlock(buf, tag, rest);
      assert x + (tag + rest) == tag + rest && buf + x == buf;
    } else {
      NotYet(x, tag, rest);
      InsideBlock(buf, tag, x + (tag + rest));
      StandsFirstRest(x, tag);
      RestOfDollar(buf + [x[0]], tag, x[1..], rest);
      assert (x + (tag + rest))[1..] == x[1..] + (tag + rest);
      assert buf + [x[0]] + x[1..] == buf + x;
    }
  }

  /** And a dollar-quoted block, whatever stands between the dollars of its tag. */
  lemma DollarBlockIsWhole(buf: string, name: string, x: string, rest: string)
    requires '$' !in name && StandsFirst(x, "$" + name + "$")
    ensures var tag := "$" + name + "$";
            Segments(Normal, buf, tag + (x + (tag + rest))) == Segments(Normal, buf + tag + x + tag, rest)
  {
    hide Segments, StandsFirst;
    var tag := "$" + name + "$";
    assert tag[1..|tag| - 1] == name;
    TagOpensBlock(buf, tag, x + (tag + rest));
    RestOfDollar(buf + tag, tag, x, rest);
  }

  /** A semicolon outside all of these ends the statement and stays with it; other characters are kept. */
  lemma PlainCharacter(buf: string, c: char, rest: string)
    requires c != '\'' && c != '$' && (rest != "" ==> !(c == '-' && rest[0] == '-') && !(c == '/' && rest[0] == '*'))
    ensures Segments(Normal, buf, [c] + rest) ==
            if c == ';' then [buf + ";"] + Segments(Normal, "", rest) else Segments(Normal, buf + [c], rest)
  {
    assert ([c] + rest)[1..] == rest && ([c] + rest)[..1] == [c];
  }

  lemma LastDollar(buf: string, rest: string)
    requires '$' !in rest
    ensures Segments(Normal, buf, "$" + rest) == Segments(Normal, buf + "$", rest)
  {
    assert ("$" + rest)[1..] == rest && ("$" + rest)[..1] == "$";
  }

  /** A segment becomes a statement without the white space around it, unless nothing but its semicolon is left. */
  lemma SegmentsAreStripped(before: string, text: string, after: string, more: seq<string>)
    requires IsBlankText(before) && IsBlankText(after) && more != []
    requires text != "" && text[0] as int !in WHITE_SPACE && text[|text| - 1] as int !in WHITE_SPACE
    ensures FromSegments([before + text + after]) == [text] && FromSegments([before]) == []
    ensures text != ";" ==> FromSegments([before + text + after] + more) == [text] + FromSegments(more)
    ensures FromSegments([before + ";" + after] + more) == FromSegments(more)
  {
    StripTrims(before, text, after);
    StripTrims(before, ";", after);
    assert ([before + text + after] + more)[1..] == more;
    assert ([before + ";" + after] + more)[1..] == more;
  }

  // ----- the scanner -----

  /** The machine's four mode variables, at most one of which is set. */
  function ModeOf(single: bool, line: bool, block: bool, tag: Option<string>): Mode {
    if single then SingleQuote else if line then LineComment else if block then BlockComment
    else if tag.Some? then Dollar(tag.value) else Normal
  }

  predicate OneMode(single: bool, line: bool, block: bool, tag: Option<string>) {
    && (single ==> !line && !block && tag.None?) && (line ==> !block && tag.None?) && (block ==> tag.None?)
  }

  /** What remains to be produced. */
  function Remaining(mode: Mode, buf: string, s: string): seq<string> {
    FromSegments(Segments(mode, buf, s))
  }

  lemma StepRemaining(mode: Mode, buf: string, s: string)
    requires s != ""
    ensures Terminates(mode, s) ==>
              (Remaining(mode, buf, s)
               == (if Strip(buf + ";") == ";" then [] else Clean(buf + ";")) + Remaining(Normal, "", s[1..]))
    ensures !Terminates(mode, s) ==>
              var step := Move(mode, s);
              Remaining(mode, buf, s) == Remaining(step.mode, buf + s[..step.length], s[step.length..])
  {
    if Terminates(mode, s) {
      assert Segments(mode, buf, s) == [buf + ";"] + Segments(Normal, "", s[1..]);
    }
  }

  method SplitStatements(sql: string) returns (statements: seq<string>)
    ensures statements == Statements(sql)
  {
    hide Statements, Remaining, Clean, Strip;
    statements := [];
    var buf := "";
    var i := 0;
    var inSingleQuote, inLineComment, inBlockComment := false, false, false;
    var dollarTag: Option<string> := None;
    StatementsAreRemaining(sql);
    while i < |sql|
      invariant 0 <= i <= |sql| && OneMode(inSingleQuote, inLineComment, inBlockComment, dollarTag)
      invariant statements + Remaining(ModeOf(inSingleQuote, inLineComment, inBlockComment, dollarTag), buf, sql[i..])
             == Statements(sql)
    {
      var s := sql[i..];
      var ch := sql[i];
      ghost var mode := ModeOf(inSingleQuote, inLineComment, inBlockComment, dollarTag);
      StepRemaining(mode, buf, s);
      assert forall k :: 0 <= k <= |s| ==> s[k..] == sql[i + k..];
      var length := 1;
      var terminates := false;
      if inLineComment {
        inLineComment := ch != '\n';
      } else if inBlockComment {
        if Starts(s, '*', '/') {
          inBlockComment := false;
          length := 2;
        }
      } else if inSingleQuote {
        inSingleQuote := ch != '\'';
      } else if dollarTag.Some? {
        var j := FindDollar(s[1..]);
        if ch == '$' && j.Some? && s[..j.value + 2] == dollarTag.value {
          dollarTag := None;
          length := j.value + 2;
        }
      } else if Starts(s, '-', '-') {
        inLineComment := true;
      } else if Starts(s, '/', '*') {
        inBlockComment := true;
        length := 2;
      } else if ch == '\'' {
        inSingleQuote := true;
      } else if ch == '$' && FindDollar(s[1..]).Some? {
        length := FindDollar(s[1..]).value + 2;
        dollarTag := Some(s[..length]);
      } else {
        terminates := ch == ';';
      }
      buf := buf + s[..length];
      i := i + length;
      if terminates {
        assert s[..1] == ";";
        var stmt := Strip(buf);
        if stmt != ";" {
          statements := statements + Clean(buf);
        }
        buf := "";
      }
    }
    assert sql[i..] == "";
    EndRemaining(ModeOf(inSingleQuote, inLineComment, inBlockComment, dollarTag), buf);
    statements := statements + Clean(buf);
  }

  lemma StatementsAreRemaining(sql: string)
    ensures Statements(sql) == Remaining(Normal, "", sql)
  {
  }

  lemma EndRemaining(mode: Mode, buf: string)
    ensures Remaining(mode, buf, "") == Clean(buf)
  {
  }

  // ----- agreement with the shared splitter -----

  predicate SlashStar(tokens: seq<S.Token>, i: nat) {
    i + 1 < |tokens| && tokens[i] == S.Plain('/') && tokens[i + 1] == S.Plain('*')
  }

  /** Outside dollar blocks there are no quotes, no comments and no dollar signs but in tags. */
  predicate Comparable(tokens: seq<S.Token>) {
    forall i :: 0 <= i < |tokens| ==>
      && !tokens[i].Comment? && tokens[i] != S.Plain('\'') && tokens[i] != S.Plain('$')
      && !SlashStar(tokens, i)
  }

  lemma ComparableRest(tokens: seq<S.Token>)
    requires Comparable(tokens) && tokens != []
    ensures Comparable(tokens[1..])
  {
    forall i | 0 <= i < |tokens| - 1
      ensures !tokens[1..][i].Comment? && tokens[1..][i] != S.Plain('\'') && tokens[1..][i] != S.Plain('$')
              && !SlashStar(tokens[1..], i)
    {
      assert !SlashStar(tokens, i + 1);
    }
  }

  /** Every piece but the last with its semicolon. */
  function WithSemicolons(pieces: seq<string>): seq<string>
    requires pieces != []
  {
    if |pieces| == 1 then pieces else [pieces[0] + ";"] + WithSemicolons(pieces[1..])
  }

  function Prepended(buf: string, pieces: seq<string>): seq<string>
    requires pieces != []
  {
    [buf + pieces[0]] + pieces[1..]
  }

  predicate Closes(s: string, tag: string) {
    TagLength(s) > 0 && s[..TagLength(s)] == tag
  }

  lemma DollarMove(tag: string, s: string)
    requires IsTag(tag) && s != ""
    ensures Move(Dollar(tag), s) == if Closes(s, tag) then Step(|tag|, Normal) else Step(1, Dollar(tag))
  {
    if s[0] == '$' {
      TagIsUpToNextDollar(s);
    }
  }

  lemma DollarStep(tag: string, buf: string, s: string)
    requires IsTag(tag) && s != ""
    ensures if Closes(s, tag) then Segments(Dollar(tag), buf, s) == Segments(Normal, buf + s[..|tag|], s[|tag|..])
            else Segments(Dollar(tag), buf, s) == Segments(Dollar(tag), buf + s[..1], s[1..])
  {
    DollarMove(tag, s);
    hide Move;
  }

  lemma BlockRestStep(s: string, tag: string)
    requires tag != "" && s != ""
    ensures BlockRest(s, tag) == if Closes(s, tag) then |tag| else 1 + BlockRest(s[1..], tag)
  {
  }

  /** In a block the machine looks for the same closing tag, and both run to the end without one. */
  lemma {:induction false} SameBlock(tag: string, buf: string, s: string)
    requires IsTag(tag)
    ensures Segments(Dollar(tag), buf, s) == Segments(Normal, buf + s[..BlockRest(s, tag)], s[BlockRest(s, tag)..])
    decreases |s|
  {
    assert tag != "";
    hide IsTag, TagLength, Move, Closes;
    if s == "" {
      assert buf + s == buf;
    } else {
      DollarStep(tag, buf, s);
      BlockRestStep(s, tag);
      hide Segments, BlockRest;
      if !Closes(s, tag) {
        SameBlock(tag, buf + s[..1], s[1..]);
        OneMoreChar(buf, s, BlockRest(s[1..], tag));
      }
    }
  }

  lemma TagOfText(s: string)
    requires TagLength(s) > 0
    ensures IsTag(s[..TagLength(s)])
  {
    var k := TagLength(s);
    assert s[..k][1..] == s[1..k];
    TagRunOfSlice(s[1..], k - 1);
  }

  lemma {:induction false} TagRunOfSlice(s: string, n: nat)
    requires TagRun(s) < n <= |s|
    ensures TagRun(s[..n]) == TagRun(s)
  {
    if IsTagChar(s[0]) {
      assert s[..n][1..] == s[1..][..n - 1];
      TagRunOfSlice(s[1..], n - 1);
    }
  }

  lemma OpeningMove(s: string)
    requires TagLength(s) > 0
    ensures Move(Normal, s) == Step(TagLength(s), Dollar(s[..TagLength(s)])) && !Terminates(Normal, s)
  {
    TagIsUpToNextDollar(s);
  }

  lemma BlockStep(buf: string, s: string)
    requires s != "" && S.First(s).Block?
    ensures Segments(Normal, buf, s) == Segments(Normal, buf + S.First(s).text, S.Rest(s))
  {
    var k := TagLength(s);
    S.BlockFirst(s);
    OpeningMove(s);
    TagOfText(s);
    hide Move, IsTag, TagLength, Terminates, S.First, S.Rest;
    var b := BlockRest(s[k..], s[..k]);
    hide BlockRest;
    SameBlock(s[..k], buf + s[..k], s[k..]);
    assert buf + (s[..k] + s[k..][..b]) == buf + s[..k] + s[k..][..b];
  }

  lemma PlainFirst(s: string)
    requires s != "" && Comparable(S.Tokens(s)) && (S.First(s).Plain? || S.First(s).Semicolon?)
    ensures S.Rest(s) == s[1..] && [s[0]] == S.Text(S.First(s)) && (S.First(s).Semicolon? <==> s[0] == ';')
    ensures s[0] != '\'' && s[0] != '$' && !Starts(s, '-', '-')
  {
    hide TagLength, BlockRest;
    assert S.Tokens(s)[0] == S.First(s);
  }

  lemma PlainIsNoComment(s: string)
    requires s != "" && Comparable(S.Tokens(s)) && S.First(s).Plain? && S.Rest(s) == s[1..]
    ensures !Starts(s, '/', '*')
  {
    hide BlockRest, UntilNewline;
    var tokens := S.Tokens(s);
    assert tokens[0] == S.First(s) && !SlashStar(tokens, 0);
    assert |s| > 1 ==> |tokens| > 1 && tokens[1] == S.First(s[1..]);
  }

  lemma PlainMove(s: string)
    requires s != "" && Comparable(S.Tokens(s)) && (S.First(s).Plain? || S.First(s).Semicolon?)
    ensures S.Rest(s) == s[1..] && [s[0]] == S.Text(S.First(s)) && (S.First(s).Semicolon? <==> Terminates(Normal, s))
    ensures Move(Normal, s) == Step(1, Normal)
  {
    PlainFirst(s);
    if S.First(s).Plain? {
      PlainIsNoComment(s);
    }
    hide Comparable, S.Tokens, S.First, S.Rest;
  }

  lemma PlainStep(buf: string, s: string)
    requires s != "" && Comparable(S.Tokens(s)) && (S.First(s).Plain? || S.First(s).Semicolon?)
    ensures S.Rest(s) == s[1..] && [s[0]] == S.Text(S.First(s))
    ensures Segments(Normal, buf, s)
         == if S.First(s).Semicolon? then [buf + ";"] + Segments(Normal, "", s[1..]) else Segments(Normal, buf + [s[0]], s[1..])
  {
    PlainMove(s);
    hide Move, Terminates, Comparable, S.Tokens, S.First;
    assert s[..1] == [s[0]];
  }

  lemma {:induction false} SameSegments(buf: string, s: string)
    requires Comparable(S.Tokens(s))
    ensures Segments(Normal, buf, s) == WithSemicolons(Prepended(buf, S.Pieces(S.Tokens(s))))
    decreases |s|
  {
    if s == "" {
      assert buf + "" == buf;
    } else {
      var tokens := S.Tokens(s);
      var t := S.First(s);
      ComparableRest(tokens);
      assert tokens[0] == t && tokens[1..] == S.Tokens(S.Rest(s));
      var rest := S.Pieces(S.Tokens(S.Rest(s)));
      hide S.Pieces, Segments, S.Tokens, Comparable;
      if t.Block? {
        BlockStep(buf, s);
      } else {
        PlainStep(buf, s);
      }
      SameSegments(if t.Semicolon? then "" else buf + S.Text(t), S.Rest(s));
      SamePrepended(buf, tokens);
    }
  }

  lemma SamePrepended(buf: string, tokens: seq<S.Token>)
    requires tokens != [] && !tokens[0].Comment?
    ensures WithSemicolons(Prepended(buf, S.Pieces(tokens)))
         == if tokens[0].Semicolon? then [buf + ";"] + WithSemicolons(Prepended("", S.Pieces(tokens[1..])))
            else WithSemicolons(Prepended(buf + S.Text(tokens[0]), S.Pieces(tokens[1..])))
  {
    var rest := S.Pieces(tokens[1..]);
    if tokens[0].Semicolon? {
      assert buf + "" == buf;
      assert "" + rest[0] == rest[0];
      assert [rest[0]] + rest[1..] == rest;
    } else {
      assert buf + (S.Text(tokens[0]) + rest[0]) == buf + S.Text(tokens[0]) + rest[0];
    }
  }

  /**
   * On comparable text the raw segments of the two splitters are the same, but that this one
   * keeps each terminating semicolon.
   */
  lemma SplittersAgree(s: string)
    requires forall i :: 0 <= i < |S.Tokens(s)| ==>
               && !S.Tokens(s)[i].Comment? && S.Tokens(s)[i] !in {S.Plain('\''), S.Plain('$')}
               && (S.Tokens(s)[i] == S.Plain('/') && i < |S.Tokens(s)| - 1 ==> S.Tokens(s)[i + 1] != S.Plain('*'))
    ensures Segments(Normal, "", s) == WithSemicolons(S.Pieces(S.Tokens(s)))
  {
    hide S.Tokens, S.Pieces, Segments, WithSemicolons;
    var pieces := S.Pieces(S.Tokens(s));
    assert Comparable(S.Tokens(s));
    SameSegments("", s);
    assert "" + pieces[0] == pieces[0];
    assert Prepended("", pieces) == pieces;
  }

  // ----- the statements themselves -----

  /** A statement of this splitter without its semicolon, stripped again. */
  function WithoutSemicolon(stmt: string): string {
    if stmt == "" then "" else Strip(stmt[..|stmt| - 1])
  }

  predicate EndsInSemicolon(s: string) {
    s != "" && s[|s| - 1] == ';'
  }

  /**
   * The same statements: each of these ends in a semicolon and is otherwise the other list's,
   * except that the last one, when the text leaves it unterminated, is the same in both.
   */
  ghost predicate Agree(stmts: seq<string>, others: seq<string>, unterminated: bool) {
    && |stmts| == |others| && (unterminated ==> stmts != [])
    && forall i :: 0 <= i < |stmts| ==>
         if unterminated && i == |stmts| - 1 then stmts[i] == others[i]
         else EndsInSemicolon(stmts[i]) && WithoutSemicolon(stmts[i]) == others[i]
  }

  lemma TerminatedStatement(piece: string)
    ensures Strip(piece + ";") == LStrip(piece) + ";"
    ensures Strip(piece + ";") == ";" <==> Strip(piece) == ""
    ensures Strip(piece + ";") != ";" ==> WithoutSemicolon(Strip(piece + ";")) == Strip(piece)
  {
    LStripBefore(piece, ";");
    LStripTwice(piece);
    RStripOfSolid(LStrip(piece));
  }

  lemma {:induction false} LStripTwice(s: string)
    ensures LStrip(LStrip(s)) == LStrip(s)
    ensures LStrip(s) != "" ==> !IsSpace(LStrip(s)[0])
  {
    if s != "" && IsSpace(s[0]) {
      LStripTwice(s[1..]);
    }
  }

  lemma {:induction false} RStripOfSolid(s: string)
    ensures s != "" && !IsSpace(s[0]) ==> RStrip(s) != ""
  {
    if s != "" && !IsSpace(s[0]) {
      assert [s[0]] + s[1..] == s;
      RStripAfter([s[0]], s[1..]);
    }
  }

  predicate LastIsBare(pieces: seq<string>)
    requires pieces != []
  {
    Strip(pieces[|pieces| - 1]) != ""
  }

  lemma OneMoreStatement(piece: string, stmts: seq<string>, others: seq<string>, unterminated: bool)
    requires Agree(stmts, others, unterminated)
    ensures Agree((if Strip(piece + ";") == ";" then [] else Clean(piece + ";")) + stmts, Clean(piece) + others, unterminated)
  {
    TerminatedStatement(piece);
    if Strip(piece) == "" {
      assert [] + stmts == stmts && [] + others == others;
    } else {
      var stmt := Strip(piece + ";");
      assert stmt == LStrip(piece) + ";";
      assert forall i :: 0 < i <= |stmts| ==> ([stmt] + stmts)[i] == stmts[i - 1];
      assert forall i :: 0 < i <= |others| ==> ([Strip(piece)] + others)[i] == others[i - 1];
    }
  }

  lemma {:induction false} SameStatements(pieces: seq<string>)
    requires pieces != []
    ensures Agree(FromSegments(WithSemicolons(pieces)), CleanAll(pieces), LastIsBare(pieces))
  {
    if |pieces| == 1 {
      assert CleanAll(pieces[1..]) == [];
      assert Clean(pieces[0]) + [] == Clean(pieces[0]);
    } else {
      SameStatements(pieces[1..]);
      assert WithSemicolons(pieces)[1..] == WithSemicolons(pieces[1..]);
      OneMoreStatement(pieces[0], FromSegments(WithSemicolons(pieces[1..])), CleanAll(pieces[1..]), LastIsBare(pieces));
    }
  }

  /**
   * On every comparable text the two splitters give the same statements, but for the semicolons
   * that this one keeps; a last statement without one, if there is one, is the same in both.
   */
  lemma StatementsAgree(s: string)
    requires forall i :: 0 <= i < |S.Tokens(s)| ==>
               && !S.Tokens(s)[i].Comment? && S.Tokens(s)[i] !in {S.Plain('\''), S.Plain('$')}
               && (S.Tokens(s)[i] == S.Plain('/') && i < |S.Tokens(s)| - 1 ==> S.Tokens(s)[i + 1] != S.Plain('*'))
    ensures var stmts, others := Statements(s), S.Statements(s);
            var pieces := S.Pieces(S.Tokens(s));
            && |stmts| == |others|
            && forall i :: 0 <= i < |stmts| ==>
                 if i == |stmts| - 1 && Strip(pieces[|pieces| - 1]) != "" then stmts[i] == others[i]
                 else stmts[i] != "" && stmts[i][|stmts[i]| - 1] == ';' && Strip(stmts[i][..|stmts[i]| - 1]) == others[i]
  {
    SplittersAgree(s);
    SameStatements(S.Pieces(S.Tokens(s)));
    hide S.Tokens, S.Pieces, Segments, S.Statements, CleanAll, FromSegments, Strip, WithSemicolons;
    assert Agree(Statements(s), S.Statements(s), LastIsBare(S.Pieces(S.Tokens(s))));
  }
}
