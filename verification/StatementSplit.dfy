/**
 * The dollar-quote-aware statement splitter of the migrations, specified by tokens, and the
 * plain splitter of the second migration, which agrees with it on text without dollar signs.
 */
module StatementSplit {
  import opened Base
  import opened SqlText

  // ----- the tokens of a text -----

  /** A dollar block is closed when its own tag ends it. */
  datatype Token = Comment(text: string) | Block(text: string, closed: bool) | Semicolon | Plain(c: char)

  function Text(t: Token): string {
    match t
    case Comment(text) => text
    case Block(text, _) => text
    case Semicolon => ";"
    case Plain(c) => [c]
  }

  function FirstLength(s: string): (n: nat)
    requires s != ""
    ensures 0 < n <= |s|
  {
    if s[0] == '-' && |s| > 1 && s[1] == '-' then UntilNewline(s)
    else if TagLength(s) > 0 then BlockLength(s)
    else 1
  }

  /** The first token of a non-empty text. */
  function First(s: string): Token
    requires s != ""
  {
    if s[0] == '-' && |s| > 1 && s[1] == '-' then Comment(s[..FirstLength(s)])
    else if TagLength(s) > 0 then Block(s[..FirstLength(s)], BlockCloses(s[TagLength(s)..], s[..TagLength(s)]))
    else if s[0] == ';' then Semicolon
    else Plain(s[0])
  }

  function Rest(s: string): (r: string)
    requires s != ""
    ensures |r| < |s|
  {
    s[FirstLength(s)..]
  }

  lemma FirstText(s: string)
    requires s != ""
    ensures Text(First(s)) == s[..FirstLength(s)] && Text(First(s)) + Rest(s) == s
  {
    hide BlockLength, BlockCloses, TagLength, UntilNewline;
  }

  function Tokens(s: string): seq<Token>
    decreases |s|
  {
    if s == "" then [] else [First(s)] + Tokens(Rest(s))
  }

  function TextOf(tokens: seq<Token>): string {
    if tokens == [] then "" else Text(tokens[0]) + TextOf(tokens[1..])
  }

  /** The tokens are a partition of the text: nothing is lost, repeated or reordered. */
  lemma {:induction false} TokensPartition(s: string)
    ensures TextOf(Tokens(s)) == s
    decreases |s|
  {
    hide First, FirstLength, Text;
    if s != "" {
      TokensPartition(Rest(s));
      FirstText(s);
    }
  }

  // ----- the statements of a token sequence -----

  /** What a token leaves in its statement: everything but comments. */
  function Kept(t: Token): string {
    if t.Comment? then "" else Text(t)
  }

  /** The joins between semicolon tokens; always one more than there are semicolons. */
  function Pieces(tokens: seq<Token>): (pieces: seq<string>)
    ensures pieces != []
  {
    if tokens == [] then [""]
    else
      var rest := Pieces(tokens[1..]);
      if tokens[0].Semicolon? then [""] + rest else [Kept(tokens[0]) + rest[0]] + rest[1..]
  }

  function Statements(s: string): seq<string> {
    CleanAll(Pieces(Tokens(s)))
  }

  /** The statements still to come once this much of the current one has been collected. */
  function From(current: string, tokens: seq<Token>): seq<string>
    decreases |tokens|
  {
    if tokens == [] then Clean(current)
    else if tokens[0].Semicolon? then Clean(current) + From("", tokens[1..])
    else From(current + Kept(tokens[0]), tokens[1..])
  }

  lemma {:induction false} FromIsPieces(current: string, tokens: seq<Token>)
    ensures From(current, tokens) == CleanAll([current + Pieces(tokens)[0]] + Pieces(tokens)[1..])
    decreases |tokens|
  {
    if tokens == [] {
      assert current + "" == current;
      assert Clean(current) + [] == Clean(current);
    } else if tokens[0].Semicolon? {
      FromIsPieces("", tokens[1..]);
      assert "" + Pieces(tokens[1..])[0] == Pieces(tokens[1..])[0];
      assert [Pieces(tokens[1..])[0]] + Pieces(tokens[1..])[1..] == Pieces(tokens[1..]);
      assert current + "" == current;
    } else {
      FromIsPieces(current + Kept(tokens[0]), tokens[1..]);
      assert current + Kept(tokens[0]) + Pieces(tokens[1..])[0] == current + (Kept(tokens[0]) + Pieces(tokens[1..])[0]);
    }
  }

  lemma StatementsAreFrom(s: string)
    ensures Statements(s) == From("", Tokens(s))
  {
    FromIsPieces("", Tokens(s));
    assert "" + Pieces(Tokens(s))[0] == Pieces(Tokens(s))[0];
    assert [Pieces(Tokens(s))[0]] + Pieces(Tokens(s))[1..] == Pieces(Tokens(s));
  }

  // ----- the scanner -----

  /** Inside a block: the statement is complete once the rest of the block has been copied. */
  function Inside(current: string, s: string, tag: string): seq<string>
    requires tag != ""
  {
    var k := BlockRest(s, tag);
    From(current + s[..k], Tokens(s[k..]))
  }

  /** What remains to be produced, in either mode of the scanner. */
  function Remaining(current: string, s: string, tag: string): seq<string> {
    if tag == "" then From(current, Tokens(s)) else Inside(current, s, tag)
  }

  lemma InsideStep(current: string, s: string, tag: string)
    requires tag != "" && s != "" && !(TagLength(s) > 0 && s[..TagLength(s)] == tag)
    ensures Inside(current, s, tag) == Inside(current + [s[0]], s[1..], tag)
  {
    OneMoreChar(current, s, BlockRest(s[1..], tag));
  }

  lemma InsideEnds(current: string, s: string, tag: string)
    requires tag != "" && TagLength(s) > 0 && s[..TagLength(s)] == tag
    ensures Inside(current, s, tag) == From(current + tag, Tokens(s[|tag|..]))
  {
  }

  lemma BlockFirst(s: string)
    requires TagLength(s) > 0
    ensures var k := TagLength(s);
            var b := BlockRest(s[k..], s[..k]);
            First(s) == Block(s[..k] + s[k..][..b], BlockCloses(s[k..], s[..k])) && Rest(s) == s[k..][b..]
  {
    hide UntilNewline, BlockRest, BlockCloses;
    var k := TagLength(s);
    var b := BlockRest(s[k..], s[..k]);
    assert s[0] == '$' && FirstLength(s) == k + b;
    hide TagLength;
    assert s[..k + b] == s[..k] + s[k..][..b];
    assert s[k + b..] == s[k..][b..];
  }

  lemma BlockStarts(current: string, s: string)
    requires TagLength(s) > 0
    ensures From(current, Tokens(s)) == Inside(current + s[..TagLength(s)], s[TagLength(s)..], s[..TagLength(s)])
  {
    hide TagLength, BlockRest, BlockCloses, First, Rest;
    var k := TagLength(s);
    var b := BlockRest(s[k..], s[..k]);
    BlockFirst(s);
    assert Tokens(s)[1..] == Tokens(s[k..][b..]);
    assert current + (s[..k] + s[k..][..b]) == current + s[..k] + s[k..][..b];
  }

  lemma CommentSkips(current: string, s: string)
    requires |s| > 1 && s[0] == '-' && s[1] == '-'
    ensures From(current, Tokens(s)) == From(current, Tokens(s[UntilNewline(s)..]))
  {
    assert current + "" == current;
  }

  lemma PlainOrSemicolon(current: string, s: string)
    requires s != "" && TagLength(s) == 0 && !(|s| > 1 && s[0] == '-' && s[1] == '-')
    ensures From(current, Tokens(s))
         == if s[0] == ';' then Clean(current) + From("", Tokens(s[1..])) else From(current + [s[0]], Tokens(s[1..]))
  {
    assert Rest(s) == s[1..];
  }

  /** The scanner, with its position, current statement and open dollar tag. */
  method StatementsFromFile(sql: string) returns (stmts: seq<string>)
    ensures stmts == Statements(sql)
  {
    hide Statements, From, Tokens, BlockRest, Inside, Clean, TagLength, UntilNewline;
    stmts := [];
    var current := "";
    var i := 0;
    var inDollarQuote := false;
    var dollarTag := "";
    StatementsAreFrom(sql);
    while i < |sql|
      invariant 0 <= i <= |sql| && (inDollarQuote <==> dollarTag != "")
      invariant stmts + Remaining(current, sql[i..], dollarTag) == Statements(sql)
    {
      var s := sql[i..];
      var k := TagLength(s);
      if inDollarQuote {
        if k > 0 && s[..k] == dollarTag {
          InsideEnds(current, s, dollarTag);
          current := current + dollarTag;
          i := i + k;
          inDollarQuote := false;
          dollarTag := "";
        } else {
          InsideStep(current, s, dollarTag);
          current := current + [sql[i]];
          i := i + 1;
        }
      } else if s[0] == '-' && |s| > 1 && s[1] == '-' {
        CommentSkips(current, s);
        var end := UntilNewline(s);
        i := i + end;
        assert s[end..] == sql[i..];
        if i == |sql| {
          break;
        }
      } else if k > 0 {
        BlockStarts(current, s);
        current := current + s[..k];
        dollarTag := s[..k];
        i := i + k;
        inDollarQuote := true;
      } else {
        PlainOrSemicolon(current, s);
        if sql[i] == ';' {
          stmts := stmts + Clean(current);
          current := "";
        } else {
          current := current + [sql[i]];
        }
        i := i + 1;
      }
    }
    assert sql[i..] == "";
    NothingRemains(current, dollarTag);
    stmts := stmts + Clean(current);
  }

  lemma NothingRemains(current: string, tag: string)
    ensures Remaining(current, "", tag) == Clean(current)
  {
    assert current + ""[..0] == current;
  }

  // ----- blocks survive -----

  function Semicolons(tokens: seq<Token>): nat {
    if tokens == [] then 0 else (if tokens[0].Semicolon? then 1 else 0) + Semicolons(tokens[1..])
  }

  lemma {:induction false} OnePiecePerSemicolon(tokens: seq<Token>)
    ensures |Pieces(tokens)| == Semicolons(tokens) + 1
  {
    if tokens != [] {
      OnePiecePerSemicolon(tokens[1..]);
    }
  }

  /** Two lists of pieces in a row: the last of the one and the first of the other are joined. */
  function Joined(p: seq<string>, q: seq<string>): seq<string>
    requires p != [] && q != []
  {
    p[..|p| - 1] + [p[|p| - 1] + q[0]] + q[1..]
  }

  lemma JoinedAfter(k: string, p: seq<string>, q: seq<string>)
    requires p != [] && q != []
    ensures Joined([""] + p, q) == [""] + Joined(p, q)
    ensures Joined([k + p[0]] + p[1..], q) == [k + Joined(p, q)[0]] + Joined(p, q)[1..]
  {
    assert ([""] + p)[..|p|] == [""] + p[..|p| - 1];
    if |p| == 1 {
      assert k + (p[0] + q[0]) == k + p[0] + q[0];
    } else {
      assert ([k + p[0]] + p[1..])[..|p| - 1] == [k + p[0]] + p[1..|p| - 1];
      assert p[..|p| - 1] == [p[0]] + p[1..|p| - 1];
    }
  }

  lemma {:induction false} PiecesOfAppend(a: seq<Token>, b: seq<Token>)
    ensures Pieces(a + b) == Joined(Pieces(a), Pieces(b))
  {
    if a == [] {
      assert a + b == b;
      assert "" + Pieces(b)[0] == Pieces(b)[0];
      assert [Pieces(b)[0]] + Pieces(b)[1..] == Pieces(b);
    } else {
      PiecesOfAppend(a[1..], b);
      assert (a + b)[1..] == a[1..] + b;
      JoinedAfter(Kept(a[0]), Pieces(a[1..]), Pieces(b));
    }
  }

  lemma {:induction false} CleanAllKeeps(pieces: seq<string>, n: nat)
    requires n < |pieces| && Strip(pieces[n]) != ""
    ensures Strip(pieces[n]) in CleanAll(pieces)
  {
    if n > 0 {
      CleanAllKeeps(pieces[1..], n - 1);
    }
  }

  /** A closed block starts and ends with a dollar sign, wherever it stands in the text. */
  lemma ClosedFirstIsSolid(s: string)
    requires s != "" && First(s).Block? && First(s).closed
    ensures Solid(First(s).text)
  {
    var k := TagLength(s);
    var tag := s[..k];
    var b := BlockRest(s[k..], tag);
    BlockFirst(s);
    BlockRestEnds(s[k..], tag);
    ClosedTextIsSolid(tag, s[k..][..b]);
    hide TagLength, BlockRest;
    assert s[k..][..b][b - 1] == s[k..][b - 1];
  }

  lemma ClosedTextIsSolid(tag: string, rest: string)
    requires tag != "" && tag[0] == tag[|tag| - 1] == '$' && (rest != "" ==> rest[|rest| - 1] == '$')
    ensures Solid(tag + rest)
  {
  }

  lemma {:induction false} ClosedBlocksAreSolid(s: string, t: nat)
    requires t < |Tokens(s)| && Tokens(s)[t].Block? && Tokens(s)[t].closed
    ensures Solid(Tokens(s)[t].text)
    decreases |s|
  {
    hide First, Rest, Solid;
    if t == 0 {
      ClosedFirstIsSolid(s);
    } else {
      ClosedBlocksAreSolid(Rest(s), t - 1);
    }
  }

  /**
   * A dollar-quoted block goes whole into one statement: the one after as many semicolon tokens
   * as precede it. And every closed block, wherever it stands, is still verbatim in that
   * statement once it has been stripped.
   */
  lemma BlocksSurvive(sql: string, t: nat)
    requires t < |Tokens(sql)| && Tokens(sql)[t].Block?
    ensures var tokens := Tokens(sql);
            var p, q := Pieces(tokens[..t]), Pieces(tokens[t + 1..]);
            var n := Semicolons(tokens[..t]);
            && |p| == n + 1 && n < |Pieces(tokens)|
            && Pieces(tokens)[n] == p[n] + tokens[t].text + q[0]
            && (tokens[t].closed ==>
                  && Strip(Pieces(tokens)[n]) == LStrip(p[n]) + tokens[t].text + RStrip(q[0])
                  && Strip(Pieces(tokens)[n]) in Statements(sql))
  {
    var tokens := Tokens(sql);
    var p, q := Pieces(tokens[..t]), Pieces(tokens[t + 1..]);
    var n := Semicolons(tokens[..t]);
    OnePiecePerSemicolon(tokens[..t]);
    PiecesOfAppend(tokens[..t], tokens[t..]);
    assert tokens[..t] + tokens[t..] == tokens;
    assert tokens[t..][1..] == tokens[t + 1..];
    assert p[n] + (tokens[t].text + q[0]) == p[n] + tokens[t].text + q[0];
    if tokens[t].closed {
      ClosedBlocksAreSolid(sql, t);
      StripKeeps(p[n], tokens[t].text, q[0]);
      CleanAllKeeps(Pieces(tokens), n);
    }
  }

  /** An unclosed block is the last token: it takes the rest of the text. */
  lemma {:induction false} UnclosedBlockIsLast(s: string, t: nat)
    requires t < |Tokens(s)| && Tokens(s)[t].Block? && !Tokens(s)[t].closed
    ensures t == |Tokens(s)| - 1
    decreases |s|
  {
    if t == 0 {
      var k := TagLength(s);
      BlockFirst(s);
      BlockRestEnds(s[k..], s[..k]);
      hide First, Rest, TagLength, BlockRest, BlockCloses;
      assert Rest(s) == "";
    } else {
      UnclosedBlockIsLast(Rest(s), t - 1);
    }
  }

  // ----- the plain splitter -----

  /** What re.sub(r"--[^\n]*", "", s) leaves. */
  function WithoutComments(s: string): string
    decreases |s|
  {
    if s == "" then ""
    else if s[0] == '-' && |s| > 1 && s[1] == '-' then WithoutComments(s[UntilNewline(s)..])
    else [s[0]] + WithoutComments(s[1..])
  }

  /** What s.split(";") returns. */
  function SplitAtSemicolons(s: string): (pieces: seq<string>)
    ensures pieces != []
  {
    if s == "" then [""]
    else
      var rest := SplitAtSemicolons(s[1..]);
      if s[0] == ';' then [""] + rest else [[s[0]] + rest[0]] + rest[1..]
  }

  function PlainStatements(s: string): seq<string> {
    CleanAll(SplitAtSemicolons(WithoutComments(s)))
  }

  lemma {:induction false} SamePieces(s: string)
    requires '$' !in s
    ensures Pieces(Tokens(s)) == SplitAtSemicolons(WithoutComments(s))
    decreases |s|
  {
    if s != "" {
      SamePieces(Rest(s));
      if s[0] == '-' && |s| > 1 && s[1] == '-' {
        assert "" + Pieces(Tokens(Rest(s)))[0] == Pieces(Tokens(Rest(s)))[0];
      } else {
        assert Rest(s) == s[1..];
        assert WithoutComments(s)[1..] == WithoutComments(s[1..]);
      }
    }
  }

  /** Without dollar signs the plain splitter and the scanner agree, statement by statement. */
  lemma PlainSplitterAgrees(s: string)
    requires '$' !in s
    ensures PlainStatements(s) == Statements(s)
  {
    SamePieces(s);
  }
}
