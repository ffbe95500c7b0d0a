/**
 * Normalising twice. Removing a comment brings together what stood on either side of it, so a
 * second pass may see comments that the first did not.
 */
module SecondPass {
  import opened Base
  import opened SqlText
  import opened CommentNormalizer

  // ----- what can meet -----

  /** The token is kept, and a dash in front of a dash once what lies between them is removed. */
  predicate DashMeets(t: Token, next: string) {
    t == Plain('-') && next != "" && next[0] == '-'
  }

  /** The token is a lone dollar that becomes a dollar-quote tag with what follows it then. */
  predicate TagMeets(t: Token, next: string) {
    t == Plain('$') && TagLength("$" + next) > 0
  }

  predicate DashesMeet(tokens: seq<Token>) {
    && tokens != []
    && (DashesMeet(tokens[1..]) || (!LeadsToComment(tokens) && DashMeets(tokens[0], Output(tokens[1..]))))
  }

  predicate TagsMeet(tokens: seq<Token>) {
    && tokens != []
    && (TagsMeet(tokens[1..]) || (!LeadsToComment(tokens) && TagMeets(tokens[0], Output(tokens[1..]))))
  }

  /** A closed quoted region ends where it did, unless the same quote follows: then both are one. */
  lemma {:induction false} SingleJoins(s: string, x: string)
    requires SingleCloses(s)
    ensures var n := SingleRest(s);
            SingleRest(s[..n] + x) == if x != "" && x[0] == '\'' then n + 1 + SingleRest(x[1..]) else n
    decreases |s|
  {
    var n := SingleRest(s);
    var o := s[..n] + x;
    assert o[0] == s[0];
    if |s| > 1 && (s[0] == '\\' || (s[0] == '\'' && s[1] == '\'')) {
      SingleJoins(s[2..], x);
      assert o[1] == s[1] && o[2..] == s[2..][..n - 2] + x;
    } else if s[0] == '\'' {
      assert n == 1 && o[1..] == x;
      if x != "" {
        assert o[1] == x[0] && o[2..] == x[1..];
      }
    } else {
      SingleJoins(s[1..], x);
      assert o[1..] == s[1..][..n - 1] + x;
    }
  }

  lemma {:induction false} DoubleJoins(s: string, x: string)
    requires DoubleCloses(s)
    ensures var n := DoubleRest(s);
            DoubleRest(s[..n] + x) == if x != "" && x[0] == '"' then n + 1 + DoubleRest(x[1..]) else n
    decreases |s|
  {
    var n := DoubleRest(s);
    var o := s[..n] + x;
    assert o[0] == s[0];
    if |s| > 1 && s[0] == '"' && s[1] == '"' {
      DoubleJoins(s[2..], x);
      assert o[1] == s[1] && o[2..] == s[2..][..n - 2] + x;
    } else if s[0] == '"' {
      assert n == 1 && o[1..] == x;
      if x != "" {
        assert o[1] == x[0] && o[2..] == x[1..];
      }
    } else {
      DoubleJoins(s[1..], x);
      assert o[1..] == s[1..][..n - 1] + x;
    }
  }

  lemma {:induction false} DollarEnds(s: string, tag: string, x: string)
    requires tag != "" && DollarCloses(s, tag)
    ensures var n := DollarRest(s, tag); n >= |tag| && DollarRest(s[..n] + x, tag) == n
  {
    var n := DollarRest(s, tag);
    if tag <= s {
      assert (s[..n] + x)[..|tag|] == tag;
    } else {
      DollarEnds(s[1..], tag, x);
      assert (s[..n] + x)[1..] == s[1..][..n - 1] + x;
      assert (s[..n] + x)[..|tag|] == s[..|tag|];
    }
  }

  lemma PlainJoins(s: string, x: string)
    requires s != "" && First(s).Plain? && !TagMeets(First(s), x)
    ensures var out := Text(First(s)) + x;
            if DashMeets(First(s), x) then First(out).Comment? else !First(out).Comment? && Rest(out) == x
  {
    var out := [s[0]] + x;
    assert First(s) == Plain(s[0]) && TagLength([s[0]]) == 0;
  }

  predicate Opens(q: char, state: State) {
    (q == '\'' && state == Single) || (q == '"' && state == Double)
  }

  lemma QuotedFirst(q: char, state: State, r: string)
    requires Opens(q, state)
    ensures var n := RegionRest(state, r);
            First([q] + r) == Region([q] + r[..n], RegionCloses(state, r)) && Rest([q] + r) == r[n..]
  {
    hide SingleRest, DoubleRest, SingleCloses, DoubleCloses;
    var s := [q] + r;
    assert s[1..] == r && TagLength(s) == 0;
  }

  lemma RegionJoins(q: char, state: State, r: string, x: string)
    requires Opens(q, state) && RegionCloses(state, r)
    ensures var n := RegionRest(state, r);
            RegionRest(state, r[..n] + x) == if x != "" && x[0] == q then n + 1 + RegionRest(state, x[1..]) else n
  {
    if q == '\'' {
      SingleJoins(r, x);
    } else {
      DoubleJoins(r, x);
    }
  }

  lemma DropBoth(a: string, x: string, k: nat)
    requires k <= |x|
    ensures (a + x)[|a| + k..] == x[k..]
  {
  }

  lemma QuotedTokenJoins(q: char, state: State, r: string, x: string)
    requires Opens(q, state) && RegionCloses(state, r)
    ensures var out := Text(First([q] + r)) + x;
            !First(out).Comment? && Rest(out) == if x != "" && x[0] == q then Rest(x) else x
    ensures x != "" && x[0] == q ==> !First(x).Comment?
  {
    hide RegionRest, RegionCloses, First, Rest, FirstLength;
    var n := RegionRest(state, r);
    RegionJoins(q, state, r, x);
    QuotedFirst(q, state, r);
    QuotedFirst(q, state, r[..n] + x);
    assert [q] + r[..n] + x == [q] + (r[..n] + x);
    DropBoth(r[..n], x, 0);
    if x != "" && x[0] == q {
      assert x == [q] + x[1..];
      QuotedFirst(q, state, x[1..]);
      DropBoth(r[..n], x, 1 + RegionRest(state, x[1..]));
      DropBoth([q], x[1..], RegionRest(state, x[1..]));
    }
  }

  lemma DollarFirst(s: string, tag: string)
    requires tag != "" && tag[0] == '$' && tag <= s && TagLength(s) == |tag|
    ensures First(s).Region? && FirstLength(s) == |tag| + DollarRest(s[|tag|..], tag)
  {
    hide DollarRest, DollarCloses, TagLength;
    assert s[..|tag|] == tag;
  }

  lemma DollarRestOf(tag: string, r: string)
    requires IsTag(tag)
    ensures TagLength(tag + r) == |tag|
    ensures First(tag + r) == Region(tag + r[..DollarRest(r, tag)], DollarCloses(r, tag))
    ensures Rest(tag + r) == r[DollarRest(r, tag)..]
  {
    TagLengthOfPrefix(tag, r);
    DollarFirst(tag + r, tag);
    hide TagLength, DollarRest, DollarCloses, FirstLength;
    var s := tag + r;
    assert s[|tag|..] == r && s[..|tag|] == tag;
    assert s[..|tag| + DollarRest(r, tag)] == tag + r[..DollarRest(r, tag)];
    assert s[|tag| + DollarRest(r, tag)..] == r[DollarRest(r, tag)..];
  }

  lemma DollarTokenJoins(tag: string, r: string, x: string)
    requires IsTag(tag) && DollarCloses(r, tag)
    ensures var out := Text(First(tag + r)) + x; !First(out).Comment? && Rest(out) == x
  {
    hide TagLength, DollarRest, DollarCloses, FirstLength, First, Rest;
    var n := DollarRest(r, tag);
    DollarEnds(r, tag, x);
    DollarRestOf(tag, r);
    DollarRestOf(tag, r[..n] + x);
    assert tag + r[..n] + x == tag + (r[..n] + x);
  }

  lemma OpenTokenIsAll(s: string)
    requires s != "" && !First(s).Comment? && !RegionCloses(Opening(s).1, s[|Opening(s).0|..])
    ensures Rest(s) == ""
  {
    OpenRegionIsAll(Opening(s).1, s[|Opening(s).0|..]);
  }

  /** What becomes of a kept token when the text after it is replaced by what is kept of it. */
  lemma FirstJoins(s: string, x: string)
    requires s != "" && !First(s).Comment? && !TagMeets(First(s), x) && (Rest(s) == "" ==> x == "")
    ensures var out := Text(First(s)) + x;
            if DashMeets(First(s), x) then First(out).Comment?
            else !First(out).Comment? && (Rest(out) == x || (x != "" && !First(x).Comment? && Rest(out) == Rest(x)))
  {
    hide SingleRest, DoubleRest, DollarRest, SingleCloses, DoubleCloses, DollarCloses, FirstLength, Rest;
    if First(s).Plain? {
      PlainJoins(s, x);
    } else if !RegionCloses(Opening(s).1, s[|Opening(s).0|..]) {
      OpenTokenIsAll(s);
      FirstText(s);
      assert Text(First(s)) + x == s;
    } else if Opens(s[0], Opening(s).1) {
      assert [s[0]] + s[1..] == s;
      QuotedTokenJoins(s[0], Opening(s).1, s[1..], x);
    } else {
      TagOfItself(s);
      assert s[..TagLength(s)] + s[TagLength(s)..] == s;
      DollarTokenJoins(s[..TagLength(s)], s[TagLength(s)..], x);
    }
  }

  /**
   * Reading the body token by token: two dashes meet before any tag is completed, or behind the
   * block that the first completed tag opens in what is kept there is a comment.
   */
  predicate Exposed(s: string)
    decreases |s|
  {
    s != "" &&
    if LeadsToComment(Tokens(s)) then Exposed(Rest(s))
    else
      var next := Normalized(Rest(s));
      if TagMeets(First(s), next) then HasComment(Tokens(Rest("$" + next)))
      else DashMeets(First(s), next) || Exposed(Rest(s))
  }

  /** Comments are left exactly where the body exposes one. */
  lemma {:induction false} CommentsLeft(s: string)
    ensures HasComment(Tokens(Normalized(s))) == Exposed(s)
    decreases |s|
  {
    if s != "" {
      var x := Normalized(Rest(s));
      assert Tokens(s)[1..] == Tokens(Rest(s));
      CommentsLeft(Rest(s));
      if !LeadsToComment(Tokens(s)) {
        var out := Text(First(s)) + x;
        if TagMeets(First(s), x) {
          CompletedTagOpens(x);
        } else {
          FirstJoins(s, x);
        }
        FirstText(s);
        hide First, FirstLength, Rest, Text;
        HasCommentCons(First(out), Tokens(Rest(out)));
        if x != "" {
          HasCommentCons(First(x), Tokens(Rest(x)));
        }
      }
    }
  }

  lemma CompletedTagOpens(x: string)
    requires TagLength("$" + x) > 0
    ensures First("$" + x).Region?
  {
    hide DollarRest, DollarCloses, TagLength;
  }

  /** Where no tag is completed, only two dashes can do that. */
  lemma {:induction false} ExposedIffDashesMeet(s: string)
    requires !TagsMeet(Tokens(s))
    ensures Exposed(s) == DashesMeet(Tokens(s))
    decreases |s|
  {
    if s != "" {
      assert Tokens(s)[1..] == Tokens(Rest(s));
      ExposedIffDashesMeet(Rest(s));
    }
  }

  /** A second pass changes nothing exactly if the first leaves no comment. */
  lemma SecondPassIdleIffNoCommentLeft(body: string)
    ensures Normalized(Normalized(body)) == Normalized(body) <==> !HasComment(Tokens(Normalized(body)))
  {
    UnchangedIffCommentFree(Normalized(body));
  }

  /** And exactly if the body exposes none. */
  lemma SecondPassIdleIffNothingExposed(body: string)
    ensures Normalized(Normalized(body)) == Normalized(body) <==> !Exposed(body)
  {
    CommentsLeft(body);
    UnchangedIffCommentFree(Normalized(body));
  }

  /**
   * That is, if no removed comment lets two dashes meet, for every body in which none completes a
   * dollar-quote tag.
   */
  lemma SecondPassIdleIffNoDashesMeet(body: string)
    requires !TagsMeet(Tokens(body))
    ensures Normalized(Normalized(body)) == Normalized(body) <==> !DashesMeet(Tokens(body))
  {
    SecondPassIdleIffNothingExposed(body);
    ExposedIffDashesMeet(body);
  }

  predicate Joins(c: char) {
    c == '-' || c == '$' || IsTagChar(c)
  }

  /** Neither side of a removed comment, a kept token and the text kept after it, can join the other. */
  predicate Separates(t: Token, next: string) {
    t.Region? || (t.Plain? && !Joins(t.c)) || next == "" || !Joins(next[0])
  }

  /** So it is at every removed comment. */
  predicate CommentsApart(tokens: seq<Token>) {
    tokens != [] ==>
      && CommentsApart(tokens[1..])
      && (!LeadsToComment(tokens) && LeadsToComment(tokens[1..]) ==> Separates(tokens[0], Output(tokens[1..])))
  }

  predicate CompletesTag(s: string) {
    TagRun(s) < |s| && s[TagRun(s)] == '$'
  }

  /** A kept token's text starts as the text it was cut from. */
  lemma KeptStart(s: string)
    requires s != "" && !LeadsToComment(Tokens(s))
    ensures Normalized(s) != "" && Normalized(s)[0] == s[0] && !First(s).Comment?
    ensures First(s).Plain? ==> Normalized(s) == [s[0]] + Normalized(Rest(s)) && Rest(s) == s[1..]
  {
    FirstText(s);
    assert Tokens(s)[1..] == Tokens(Rest(s));
    assert Normalized(s) == Text(First(s)) + Normalized(Rest(s));
    hide Tokens, Output, Normalized, TagLength;
    assert Text(First(s)) == s[..FirstLength(s)];
  }

  lemma {:induction false} NoTagCompleted(s: string)
    requires !CompletesTag(s) && CommentsApart(Tokens(s))
    requires LeadsToComment(Tokens(s)) ==> Normalized(s) == "" || !Joins(Normalized(s)[0])
    ensures !CompletesTag(Normalized(s))
    decreases |s|
  {
    if s != "" && !LeadsToComment(Tokens(s)) {
      KeptStart(s);
      if IsTagChar(s[0]) {
        assert First(s) == Plain(s[0]);
        assert Tokens(s)[1..] == Tokens(s[1..]);
        NoTagCompleted(s[1..]);
        assert Normalized(s)[1..] == Normalized(s[1..]);
      }
    }
  }

  lemma {:induction false} ApartNeverMeet(s: string)
    requires CommentsApart(Tokens(s))
    ensures !DashesMeet(Tokens(s)) && !TagsMeet(Tokens(s))
    decreases |s|
  {
    if s != "" {
      var r := Rest(s);
      assert Tokens(s)[1..] == Tokens(r);
      ApartNeverMeet(r);
      if !LeadsToComment(Tokens(s)) && First(s).Plain? {
        KeptStart(s);
        if s[0] == '-' && r != "" && !LeadsToComment(Tokens(r)) {
          KeptStart(r);
        } else if s[0] == '$' {
          NoTagCompleted(r);
          assert ("$" + Normalized(r))[1..] == Normalized(r);
        }
      }
    }
  }

  /** A second pass changes nothing when the removed comments keep what they separate apart. */
  lemma SecondPassIdleWhenApart(body: string)
    requires CommentsApart(Tokens(body))
    ensures Normalized(Normalized(body)) == Normalized(body)
  {
    ApartNeverMeet(body);
    SecondPassIdleIffNoDashesMeet(body);
  }

  /** Each comment has its line to itself, but for blanks before it; atStart says whether only blanks precede on the line. */
  predicate OnOwnLines(tokens: seq<Token>, atStart: bool) {
    tokens != [] ==>
      match tokens[0]
      case Comment(_, _) => atStart && OnOwnLines(tokens[1..], true)
      case Plain(c) => OnOwnLines(tokens[1..], c == '\n' || (atStart && IsBlank(c)))
      case Region(_, _) => OnOwnLines(tokens[1..], false)
  }

  lemma {:induction false} OwnLinesAreApart(tokens: seq<Token>, atStart: bool)
    requires OnOwnLines(tokens, atStart)
    ensures CommentsApart(tokens) && (LeadsToComment(tokens) ==> atStart)
  {
    if tokens != [] {
      var t := tokens[0];
      OwnLinesAreApart(tokens[1..], t.Comment? || (t.Plain? && (t.c == '\n' || (atStart && IsBlank(t.c)))));
    }
  }

  /** In particular when every comment has its own line. */
  lemma SecondPassIdleForWholeLines(body: string)
    requires OnOwnLines(Tokens(body), true)
    ensures Normalized(Normalized(body)) == Normalized(body)
  {
    OwnLinesAreApart(Tokens(body), true);
    SecondPassIdleWhenApart(body);
  }

  // ----- where a second pass differs -----

  lemma Dashes()
    ensures Normalized("--\n") == ""
  {
    var s := "--\n";
    UntilNewlineOfNote("--", "");
    assert s == "--" + "\n" + "";
    assert StartsComment(s) && Rest(s) == "";
    assert Tokens(s) == [First(s)] && LeadsToComment(Tokens(s));
  }

  lemma PlainFirst(c: char, x: string)
    requires c in {'-', '\n'} && (x == "" || x[0] != '-')
    ensures Normalized([c] + x) == [c] + Normalized(x)
  {
    var s := [c] + x;
    assert First(s) == Plain(c) && Rest(s) == x;
    assert Tokens(s)[1..] == Tokens(x);
  }

  lemma DashThenComment()
    ensures Normalized("- --\n-\n") == "--\n"
  {
    hide Normalized, CommentLine;
    PlainFirst('\n', "");
    PlainFirst('-', "\n");
    EmptyNormalized();
    SpacedComment();
    PlainFirst('-', " --\n-\n");
    assert "-" + " --\n-\n" == "- --\n-\n";
    assert "\n" + "" == "\n" && "-" + "\n" == "-\n" && "-" + "-\n" == "--\n";
  }

  lemma EmptyNormalized()
    ensures Normalized("") == ""
  {
  }

  lemma SpacedComment()
    ensures Normalized(" --\n-\n") == Normalized("-\n")
  {
    hide Tokens, Output, LeadsToComment;
    CommentLineVanishes(" ", "", "-\n");
    assert CommentLine(" ", "") + "-\n" == " --\n-\n";
  }

  /** Removing comments can bring two dashes together, so a second pass may remove more. */
  lemma NotIdempotent() returns (body: string)
    ensures Normalized(Normalized(body)) != Normalized(body)
  {
    body := "- --\n-\n";
    DashThenComment();
    Dashes();
  }

  const QUOTED := "'$$--'"
  const JOINED := "$$'$$--'"

  lemma QuotedToken()
    ensures Tokens(QUOTED) == [Region(QUOTED, true)]
  {
    var r := "$$--'";
    assert r[1..] == "$--'" && r[1..][1..] == "--'" && r[1..][1..][1..] == "-'" && r[1..][1..][1..][1..] == "'";
    assert SingleRest("'") == 1 && SingleRest("-'") == 2 && SingleRest("--'") == 3 && SingleRest(r) == 5;
    assert SingleCloses("'") && SingleCloses("-'") && SingleCloses("--'") && SingleCloses(r);
    QuotedFirst('\'', Single, r);
    hide First, Rest, SingleRest, SingleCloses, FirstLength;
    assert ['\''] + r == QUOTED && ['\''] + r[..5] == QUOTED;
    assert Tokens(QUOTED) == [First(QUOTED)] + Tokens(Rest(QUOTED));
  }

  lemma DashesStartComment(r: string)
    ensures HasComment(Tokens("--" + r))
  {
    assert StartsComment("--" + r);
    HasCommentCons(First("--" + r), Tokens(Rest("--" + r)));
  }

  lemma QuotedTag()
    ensures DollarRest(QUOTED, "$$") == 3
  {
    assert QUOTED[1..] == "$$--'" && "$$--'"[..2] == "$$";
    assert "$$" <= "$$--'" && DollarRest("$$--'", "$$") == 2;
    assert QUOTED[0] != "$$"[0];
    assert !("$$" <= QUOTED);
  }

  lemma JoinedHasComment()
    ensures HasComment(Tokens(JOINED))
  {
    hide First, Rest, Tokens, HasComment, DollarRest, DollarCloses;
    QuotedTag();
    assert IsTag("$$");
    DollarRestOf("$$", QUOTED);
    assert "$$" + QUOTED == JOINED && QUOTED[3..] == "--" + "'";
    DashesStartComment("'");
    JoinedSteps();
    HasCommentCons(First(JOINED), Tokens(Rest(JOINED)));
  }

  lemma JoinedSteps()
    ensures Tokens(JOINED) == [First(JOINED)] + Tokens(Rest(JOINED))
  {
  }

  function Parted(): seq<Token> {
    [Plain('$'), Comment("--\n", true), Plain('$'), Region(QUOTED, true)]
  }

  lemma PlainStep(c: char, r: string)
    requires c != '\'' && c != '"' && (c != '-' || r == "" || r[0] != '-')
    requires c == '$' ==> TagLength("$" + r) == 0
    ensures Tokens([c] + r) == [Plain(c)] + Tokens(r)
  {
    var s := [c] + r;
    assert First(s) == Plain(c) && Rest(s) == r;
  }

  lemma LineStep(r: string)
    ensures Tokens("--\n" + r) == [Comment("--\n", true)] + Tokens(r)
  {
    var s := "--\n" + r;
    UntilNewlineOfNote("--", r);
    assert "--" + "\n" + r == s;
    assert First(s) == Comment("--\n", true) && Rest(s) == r;
  }

  lemma LoneDollar(r: string)
    requires r != "" && r[0] != '$' && !IsTagChar(r[0])
    ensures Tokens("$" + r) == [Plain('$')] + Tokens(r)
  {
    assert ("$" + r)[1..] == r && TagLength("$" + r) == 0;
    PlainStep('$', r);
  }

  lemma PartedTokens()
    ensures Tokens("$" + ("--\n" + ("$" + QUOTED))) == Parted()
  {
    hide Tokens, TagLength, TagRun;
    QuotedToken();
    LoneDollar(QUOTED);
    LineStep("$" + QUOTED);
    LoneDollar("--\n" + ("$" + QUOTED));
  }

  lemma PartedMeets()
    ensures Output(Parted()) == JOINED && !DashesMeet(Parted())
  {
    var t := Parted();
    assert t[1..] == [t[1], t[2], t[3]] && t[1..][1..] == [t[2], t[3]] && t[1..][1..][1..] == [t[3]];
    assert Output([t[3]]) == QUOTED && !DashesMeet([t[3]]);
    assert [t[2], t[3]][1..] == [t[3]];
    assert Output([t[2], t[3]]) == "$" + QUOTED && !DashesMeet([t[2], t[3]]);
    assert [t[1], t[2], t[3]][1..] == [t[2], t[3]];
    assert Output([t[1], t[2], t[3]]) == "$" + QUOTED && !DashesMeet([t[1], t[2], t[3]]);
  }

  /** A dollar that a comment kept from the next one may open a block and free a quoted comment. */
  lemma TagsMayMeet() returns (body: string)
    ensures !DashesMeet(Tokens(body)) && Normalized(Normalized(body)) != Normalized(body)
  {
    body := "$" + ("--\n" + ("$" + QUOTED));
    PartedTokens();
    PartedMeets();
    JoinedHasComment();
    hide Tokens, HasComment, Output;
    UnchangedIffCommentFree(JOINED);
  }
}
