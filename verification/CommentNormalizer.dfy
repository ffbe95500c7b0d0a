/**
 * How the schema comparison ignores line comments in a function body: a scanner over quotes and
 * dollar blocks whose output is specified token by token.
 */
module CommentNormalizer {
  import opened Base
  import opened SqlText

  /** A region is closed when the text goes on in normal state after it. */
  datatype Token = Comment(text: string, closed: bool) | Region(text: string, closed: bool) | Plain(c: char)

  function Text(t: Token): string {
    if t.Plain? then [t.c] else t.text
  }

  predicate IsBlank(c: char) { c == ' ' || c == '\t' }

  // ----- regions -----

  /** The rest of a single-quoted region: a backslash or a doubled quote takes the next character along. */
  function SingleRest(s: string): (n: nat)
    ensures n <= |s|
    decreases |s|
  {
    if s == "" then 0
    else if |s| > 1 && (s[0] == '\\' || (s[0] == '\'' && s[1] == '\'')) then 2 + SingleRest(s[2..])
    else if s[0] == '\'' then 1
    else 1 + SingleRest(s[1..])
  }

  predicate SingleCloses(s: string)
    decreases |s|
  {
    if s == "" then false
    else if |s| > 1 && (s[0] == '\\' || (s[0] == '\'' && s[1] == '\'')) then SingleCloses(s[2..])
    else s[0] == '\'' || SingleCloses(s[1..])
  }

  function DoubleRest(s: string): (n: nat)
    ensures n <= |s|
    decreases |s|
  {
    if s == "" then 0
    else if |s| > 1 && s[0] == '"' && s[1] == '"' then 2 + DoubleRest(s[2..])
    else if s[0] == '"' then 1
    else 1 + DoubleRest(s[1..])
  }

  predicate DoubleCloses(s: string)
    decreases |s|
  {
    if s == "" then false
    else if |s| > 1 && s[0] == '"' && s[1] == '"' then DoubleCloses(s[2..])
    else s[0] == '"' || DoubleCloses(s[1..])
  }

  function DollarRest(s: string, tag: string): (n: nat)
    requires tag != ""
    ensures n <= |s|
  {
    if s == "" then 0 else if tag <= s then |tag| else 1 + DollarRest(s[1..], tag)
  }

  predicate DollarCloses(s: string, tag: string)
    requires tag != ""
  {
    s != "" && (tag <= s || DollarCloses(s[1..], tag))
  }

  // ----- tokens -----

  datatype State = Normal | Single | Double | Dollar(tag: string)

  predicate Valid(state: State) {
    state.Dollar? ==> state.tag != ""
  }

  /** The length of what is left of a region. */
  function RegionRest(state: State, s: string): (n: nat)
    requires Valid(state)
    ensures n <= |s|
  {
    match state
    case Normal => 0
    case Single => SingleRest(s)
    case Double => DoubleRest(s)
    case Dollar(tag) => DollarRest(s, tag)
  }

  predicate RegionCloses(state: State, s: string)
    requires Valid(state)
  {
    match state
    case Normal => true
    case Single => SingleCloses(s)
    case Double => DoubleCloses(s)
    case Dollar(tag) => DollarCloses(s, tag)
  }

  predicate StartsComment(s: string) {
    |s| > 1 && s[0] == '-' && s[1] == '-'
  }

  /** What opens at the start of a text in normal state: the opening text and the state after it. */
  function Opening(s: string): (o: (string, State))
    requires s != ""
    ensures o.0 != "" && o.0 <= s && Valid(o.1)
  {
    if s[0] == '\'' then ([s[0]], Single)
    else if s[0] == '"' then ([s[0]], Double)
    else if TagLength(s) > 0 then (s[..TagLength(s)], Dollar(s[..TagLength(s)]))
    else ([s[0]], Normal)
  }

  function FirstLength(s: string): (n: nat)
    requires s != ""
    ensures 0 < n <= |s|
  {
    if StartsComment(s) then
      var k := UntilNewline(s);
      if k < |s| then k + 1 else k
    else
      var open := Opening(s);
      |open.0| + RegionRest(open.1, s[|open.0|..])
  }

  function First(s: string): Token
    requires s != ""
  {
    if StartsComment(s) then Comment(s[..FirstLength(s)], UntilNewline(s) < |s|)
    else
      var open := Opening(s);
      if open.1.Normal? then Plain(s[0])
      else Region(s[..FirstLength(s)], RegionCloses(open.1, s[|open.0|..]))
  }

  function Rest(s: string): (r: string)
    requires s != ""
    ensures |r| < |s|
  {
    s[FirstLength(s)..]
  }

  function Tokens(s: string): seq<Token>
    decreases |s|
  {
    if s == "" then [] else [First(s)] + Tokens(Rest(s))
  }

  function TextOf(tokens: seq<Token>): string {
    if tokens == [] then "" else Text(tokens[0]) + TextOf(tokens[1..])
  }

  lemma FirstText(s: string)
    requires s != ""
    ensures Text(First(s)) + Rest(s) == s
  {
    hide SingleRest, DoubleRest, DollarRest, UntilNewline, TagLength;
    assert Text(First(s)) == s[..FirstLength(s)];
  }

  /** The tokens are a partition of the body. */
  lemma {:induction false} TokensPartition(s: string)
    ensures TextOf(Tokens(s)) == s
    decreases |s|
  {
    hide First, FirstLength, Rest, Text;
    if s != "" {
      TokensPartition(Rest(s));
      FirstText(s);
    }
  }

  // ----- the output -----

  /** A run of blanks, possibly empty, and then a comment. */
  predicate LeadsToComment(tokens: seq<Token>) {
    tokens != [] && (tokens[0].Comment? || (tokens[0].Plain? && IsBlank(tokens[0].c) && LeadsToComment(tokens[1..])))
  }

  /** Comments go, and so do the blanks right before one; every other token stays verbatim. */
  function Output(tokens: seq<Token>): string {
    if tokens == [] then ""
    else if LeadsToComment(tokens) then Output(tokens[1..])
    else Text(tokens[0]) + Output(tokens[1..])
  }

  function Normalized(body: string): string {
    Output(Tokens(body))
  }

  // ----- the scanner -----

  function PopBlanks(s: string): string {
    if s != "" && IsBlank(s[|s| - 1]) then PopBlanks(s[..|s| - 1]) else s
  }

  /** What the scanner ends up with when it pops blanks at each comment. */
  function Finish(out: string, tokens: seq<Token>): string
    decreases |tokens|
  {
    if tokens == [] then out
    else if tokens[0].Comment? then Finish(PopBlanks(out), tokens[1..])
    else Finish(out + Text(tokens[0]), tokens[1..])
  }

  /** No token but a plain blank ends in a blank, except an unclosed region at the very end. */
  predicate Settled(tokens: seq<Token>) {
    forall i :: 0 <= i < |tokens| && tokens[i].Region? ==>
      tokens[i].text != "" && (!IsBlank(tokens[i].text[|tokens[i].text| - 1]) || i == |tokens| - 1)
  }

  lemma {:induction false} PopBlanksTwice(s: string)
    ensures PopBlanks(PopBlanks(s)) == PopBlanks(s)
  {
    if s != "" && IsBlank(s[|s| - 1]) {
      PopBlanksTwice(s[..|s| - 1]);
    }
  }

  /** Popping as one goes leaves exactly the specified output. */
  lemma {:induction false} FinishIsOutput(out: string, tokens: seq<Token>)
    requires Settled(tokens)
    ensures Finish(out, tokens) == (if LeadsToComment(tokens) then PopBlanks(out) else out) + Output(tokens)
    decreases |tokens|
  {
    if tokens != [] {
      var t := tokens[0];
      SettledRest(tokens);
      if t.Comment? {
        PopBlanksTwice(out);
        FinishIsOutput(PopBlanks(out), tokens[1..]);
      } else {
        FinishIsOutput(out + Text(t), tokens[1..]);
        assert out + Text(t) + Output(tokens[1..]) == out + (Text(t) + Output(tokens[1..]));
        if t.Plain? {
          assert (out + [t.c])[..|out|] == out;
        }
      }
    }
  }

  lemma SettledRest(tokens: seq<Token>)
    requires Settled(tokens) && tokens != []
    ensures Settled(tokens[1..])
  {
    forall i | 0 <= i < |tokens| - 1 && tokens[1..][i].Region?
      ensures tokens[1..][i].text != ""
      ensures !IsBlank(tokens[1..][i].text[|tokens[1..][i].text| - 1]) || i == |tokens| - 2
    {
      assert tokens[1..][i] == tokens[i + 1];
    }
  }

  /** What remains to be produced, in any state of the scanner. */
  function Remaining(out: string, s: string, state: State): string
    requires Valid(state)
  {
    var k := RegionRest(state, s);
    Finish(out + s[..k], Tokens(s[k..]))
  }

  /** One step inside a region: the characters taken along and the state after them. */
  function RegionStep(state: State, s: string): (step: (nat, State))
    requires Valid(state) && !state.Normal? && s != ""
    ensures 0 < step.0 <= |s| && Valid(step.1)
  {
    match state
    case Single =>
      if |s| > 1 && (s[0] == '\\' || (s[0] == '\'' && s[1] == '\'')) then (2, Single)
      else (1, if s[0] == '\'' then Normal else Single)
    case Double =>
      if |s| > 1 && s[0] == '"' && s[1] == '"' then (2, Double)
      else (1, if s[0] == '"' then Normal else Double)
    case Dollar(tag) => if tag <= s then (|tag|, Normal) else (1, state)
  }

  lemma RegionRestStep(s: string, state: State)
    requires Valid(state) && !state.Normal? && s != ""
    ensures var step := RegionStep(state, s);
            RegionRest(state, s) == step.0 + RegionRest(step.1, s[step.0..])
  {
  }

  lemma InsideStep(out: string, s: string, state: State)
    requires Valid(state) && !state.Normal? && s != ""
    ensures var step := RegionStep(state, s);
            Remaining(out, s, state) == Remaining(out + s[..step.0], s[step.0..], step.1)
  {
    hide RegionRest, RegionStep;
    var step := RegionStep(state, s);
    RegionRestStep(s, state);
    SliceOn(out, s, step.0, RegionRest(step.1, s[step.0..]));
  }

  lemma SliceOn(out: string, s: string, n: nat, k: nat)
    requires n + k <= |s|
    ensures out + s[..n + k] == out + s[..n] + s[n..][..k] && s[n + k..] == s[n..][k..]
  {
    assert s[..n + k] == s[..n] + s[n..][..k];
    assert out + (s[..n] + s[n..][..k]) == out + s[..n] + s[n..][..k];
  }

  lemma NormalRemaining(out: string, s: string)
    ensures Remaining(out, s, Normal) == Finish(out, Tokens(s))
  {
    assert out + s[..0] == out;
  }

  lemma OpeningStep(out: string, s: string)
    requires s != "" && !StartsComment(s)
    ensures Remaining(out, s, Normal) == Remaining(out + Opening(s).0, s[|Opening(s).0|..], Opening(s).1)
  {
    var open := Opening(s);
    var k := RegionRest(open.1, s[|open.0|..]);
    NormalRemaining(out, s);
    FirstText(s);
    assert Text(First(s)) == s[..|open.0| + k] && Rest(s) == s[|open.0| + k..] by {
      hide TagLength, SingleRest, DoubleRest, DollarRest;
    }
    hide RegionRest, Opening, First, Rest, FirstLength;
    SliceOn(out, s, |open.0|, k);
    assert s[..|open.0|] == open.0;
  }

  lemma CommentStep(out: string, s: string)
    requires StartsComment(s)
    ensures Remaining(out, s, Normal) == Remaining(PopBlanks(out), s[FirstLength(s)..], Normal)
  {
    NormalRemaining(out, s);
    NormalRemaining(PopBlanks(out), s[FirstLength(s)..]);
  }

  /** The scanner, with its index, state, open tag and output so far. */
  method NormalizeBody(body: string) returns (normalized: string)
    ensures normalized == Normalized(body)
  {
    hide Remaining, Normalized, PopBlanks, TagLength, UntilNewline;
    normalized := "";
    var index := 0;
    var state := Normal;
    NormalizedIsRemaining(body);
    while index < |body|
      invariant 0 <= index <= |body| && Valid(state)
      invariant Remaining(normalized, body[index..], state) == Normalized(body)
    {
      var s := body[index..];
      var ch := s[0];
      var taken := 1;
      if state.Normal? && StartsComment(s) {
        CommentStep(normalized, s);
        normalized := PopTrailing(normalized);
        var newline := UntilNewline(s);
        index := index + if newline < |s| then newline + 1 else newline;
        assert s[FirstLength(s)..] == body[index..];
      } else {
        if state.Normal? {
          OpeningStep(normalized, s);
          if ch == '\'' {
            state := Single;
          } else if ch == '"' {
            state := Double;
          } else if TagLength(s) > 0 {
            taken := TagLength(s);
            state := Dollar(s[..taken]);
          }
        } else {
          InsideStep(normalized, s, state);
          if state.Single? {
            if |s| > 1 && (ch == '\\' || (ch == '\'' && s[1] == '\'')) {
              taken := 2;
            } else if ch == '\'' {
              state := Normal;
            }
          } else if state.Double? {
            if |s| > 1 && ch == '"' && s[1] == '"' {
              taken := 2;
            } else if ch == '"' {
              state := Normal;
            }
          } else if state.tag <= s {
            taken := |state.tag|;
            state := Normal;
          }
        }
        assert s[..1] == [ch];
        normalized := normalized + s[..taken];
        index := index + taken;
        assert s[taken..] == body[index..];
      }
    }
    assert body[index..] == "";
    NothingRemains(normalized, state);
  }

  /** The popping loop. */
  method PopTrailing(s: string) returns (popped: string)
    ensures popped == PopBlanks(s)
  {
    popped := s;
    while popped != "" && IsBlank(popped[|popped| - 1])
      invariant PopBlanks(popped) == PopBlanks(s)
      decreases |popped|
    {
      popped := popped[..|popped| - 1];
    }
  }

  lemma NothingRemains(out: string, state: State)
    requires Valid(state)
    ensures Remaining(out, "", state) == out
  {
    assert out + ""[..0] == out;
  }

  lemma NormalizedIsRemaining(body: string)
    ensures Remaining("", body, Normal) == Normalized(body)
  {
    NormalRemaining("", body);
    TokensSettled(body);
    FinishIsOutput("", Tokens(body));
    assert PopBlanks("") == "";
    assert "" + Output(Tokens(body)) == Output(Tokens(body));
  }

  // ----- regions end in their closing character -----

  lemma {:induction false} ClosedRegionEnds(state: State, s: string)
    requires Valid(state) && !state.Normal? && (state.Dollar? ==> state.tag[|state.tag| - 1] == '$')
    requires RegionCloses(state, s)
    ensures RegionRest(state, s) > 0 && s[RegionRest(state, s) - 1] in {'\'', '"', '$'}
    decreases |s|
  {
    var step := RegionStep(state, s);
    if !step.1.Normal? {
      ClosedRegionEnds(step.1, s[step.0..]);
    }
  }

  lemma {:induction false} OpenRegionIsAll(state: State, s: string)
    requires Valid(state) && !RegionCloses(state, s)
    ensures RegionRest(state, s) == |s|
    decreases |s|
  {
    if s != "" {
      var step := RegionStep(state, s);
      OpenRegionIsAll(step.1, s[step.0..]);
    }
  }

  lemma FirstIsSettled(s: string)
    requires s != "" && First(s).Region?
    ensures var text := First(s).text;
            text != "" && (IsBlank(text[|text| - 1]) ==> Rest(s) == "")
  {
    var open := Opening(s);
    var rest := s[|open.0|..];
    var k := RegionRest(open.1, rest);
    assert FirstLength(s) == |open.0| + k && First(s).text == s[..|open.0| + k];
    if RegionCloses(open.1, rest) {
      ClosedRegionEnds(open.1, rest);
      hide Opening, RegionRest, RegionCloses, First;
      assert First(s).text[|First(s).text| - 1] == rest[k - 1];
    } else {
      OpenRegionIsAll(open.1, rest);
      hide Opening, RegionRest, RegionCloses, First;
    }
  }

  lemma SettledCons(t: Token, tokens: seq<Token>)
    requires Settled(tokens)
    requires t.Region? ==> t.text != "" && (!IsBlank(t.text[|t.text| - 1]) || tokens == [])
    ensures Settled([t] + tokens)
  {
  }

  lemma {:induction false} TokensSettled(s: string)
    ensures Settled(Tokens(s))
    decreases |s|
  {
    hide First, Rest, Settled;
    if s == "" {
      NothingIsSettled();
    } else {
      TokensSettled(Rest(s));
      if First(s).Region? {
        FirstIsSettled(s);
      }
      SettledCons(First(s), Tokens(Rest(s)));
    }
  }

  lemma NothingIsSettled()
    ensures Settled([])
  {
  }

  // ----- what normalisation keeps -----

  /** Every quoted or dollar-quoted region survives verbatim, with what precedes and follows it. */
  lemma {:induction false} RegionsSurvive(tokens: seq<Token>, i: nat)
    requires i < |tokens| && tokens[i].Region?
    ensures Output(tokens) == Output(tokens[..i]) + tokens[i].text + Output(tokens[i + 1..])
  {
    if i == 0 {
      assert "" + tokens[0].text == tokens[0].text;
    } else {
      RegionsSurvive(tokens[1..], i - 1);
      LeadsWithinPrefix(tokens, i);
      assert tokens[..i][1..] == tokens[1..][..i - 1];
      assert tokens[1..][i..] == tokens[i + 1..];
      assert tokens[i + 1..] == tokens[1..][i..];
    }
  }

  /** Whether a blank leads to a comment is decided before the next region. */
  lemma {:induction false} LeadsWithinPrefix(tokens: seq<Token>, i: nat)
    requires i < |tokens| && tokens[i].Region?
    ensures LeadsToComment(tokens) == LeadsToComment(tokens[..i])
  {
    if i > 0 {
      LeadsWithinPrefix(tokens[1..], i - 1);
      assert tokens[..i][1..] == tokens[1..][..i - 1];
    }
  }

  predicate HasComment(tokens: seq<Token>) {
    tokens != [] && (tokens[0].Comment? || HasComment(tokens[1..]))
  }

  /** A body is left as it is exactly if it has no line comment. */
  lemma UnchangedIffCommentFree(body: string)
    ensures Normalized(body) == body <==> !HasComment(Tokens(body))
  {
    if HasComment(Tokens(body)) {
      CommentsShorten(body);
    } else {
      NoCommentNoChange(Tokens(body));
      TokensPartition(body);
    }
  }

  lemma {:induction false} NoCommentNoChange(tokens: seq<Token>)
    requires !HasComment(tokens)
    ensures !LeadsToComment(tokens) && Output(tokens) == TextOf(tokens)
  {
    if tokens != [] {
      NoCommentNoChange(tokens[1..]);
    }
  }

  lemma {:induction false} CommentsShorten(s: string)
    ensures |Normalized(s)| <= |s| && (HasComment(Tokens(s)) ==> |Normalized(s)| < |s|)
    decreases |s|
  {
    if s != "" {
      FirstText(s);
      CommentsShorten(Rest(s));
      hide First, FirstLength, Rest, HasComment, LeadsToComment;
      assert Tokens(s)[1..] == Tokens(Rest(s));
      HasCommentCons(First(s), Tokens(Rest(s)));
    }
  }

  lemma HasCommentCons(t: Token, tokens: seq<Token>)
    ensures HasComment([t] + tokens) == (t.Comment? || HasComment(tokens))
    ensures t.Comment? ==> LeadsToComment([t] + tokens)
  {
    assert ([t] + tokens)[1..] == tokens;
  }

  // ----- inserting a comment line -----

  /** The scanner is in normal state after this text, at the start of a line. */
  ghost predicate NormalLineStart(a: string) {
    && (forall i :: 0 <= i < |Tokens(a)| && !Tokens(a)[i].Plain? ==> Tokens(a)[i].closed)
    && (a == "" || a[|a| - 1] == '\n')
  }

  predicate EndsInNewline(s: string) {
    s != "" && s[|s| - 1] == '\n'
  }

  lemma {:induction false} SingleStable(s: string, x: string)
    requires SingleCloses(s) && EndsInNewline(s)
    ensures SingleCloses(s + x) && SingleRest(s + x) == SingleRest(s)
    decreases |s|
  {
    assert (s + x)[1..] == s[1..] + x;
    if |s| > 1 {
      assert (s + x)[2..] == s[2..] + x;
      if s[0] == '\\' || (s[0] == '\'' && s[1] == '\'') {
        SingleStable(s[2..], x);
      } else if s[0] != '\'' {
        SingleStable(s[1..], x);
      }
    }
  }

  lemma {:induction false} DoubleStable(s: string, x: string)
    requires DoubleCloses(s) && EndsInNewline(s)
    ensures DoubleCloses(s + x) && DoubleRest(s + x) == DoubleRest(s)
    decreases |s|
  {
    assert (s + x)[1..] == s[1..] + x;
    if |s| > 1 {
      assert (s + x)[2..] == s[2..] + x;
      if s[0] == '"' && s[1] == '"' {
        DoubleStable(s[2..], x);
      } else if s[0] != '"' {
        DoubleStable(s[1..], x);
      }
    }
  }

  lemma {:induction false} DollarStable(s: string, tag: string, x: string)
    requires tag != "" && DollarCloses(s, tag)
    ensures |tag| <= |s| && DollarCloses(s + x, tag) && DollarRest(s + x, tag) == DollarRest(s, tag)
  {
    assert (s + x)[1..] == s[1..] + x;
    if !(tag <= s) {
      DollarStable(s[1..], tag, x);
      assert (s + x)[..|tag|] == s[..|tag|];
    }
  }

  lemma RegionStable(state: State, s: string, x: string)
    requires Valid(state) && RegionCloses(state, s) && (s == "" || EndsInNewline(s))
    ensures RegionCloses(state, s + x) && RegionRest(state, s + x) == RegionRest(state, s)
  {
    match state {
      case Normal =>
      case Single => SingleStable(s, x);
      case Double => DoubleStable(s, x);
      case Dollar(tag) => DollarStable(s, tag, x);
    }
  }

  lemma {:induction false} UntilNewlineStable(s: string, x: string)
    requires UntilNewline(s) < |s|
    ensures UntilNewline(s + x) == UntilNewline(s)
  {
    if s[0] != '\n' {
      assert (s + x)[1..] == s[1..] + x;
      UntilNewlineStable(s[1..], x);
    }
  }

  lemma {:induction false} NewlineIsFound(s: string)
    requires EndsInNewline(s)
    ensures UntilNewline(s) < |s|
  {
    if s[0] != '\n' {
      NewlineIsFound(s[1..]);
    }
  }

  lemma {:induction false} TagRunStopsAtNewline(s: string)
    requires EndsInNewline(s)
    ensures TagRun(s) < |s|
  {
    if IsTagChar(s[0]) {
      TagRunStopsAtNewline(s[1..]);
    }
  }

  lemma TagStable(a: string, x: string)
    requires EndsInNewline(a)
    ensures TagLength(a + x) == TagLength(a)
  {
    if a[0] == '$' {
      TagRunStopsAtNewline(a[1..]);
      TagRunOfPrefix(a[1..], x);
      assert (a + x)[1..] == a[1..] + x;
    }
  }

  lemma OpeningStable(a: string, x: string)
    requires EndsInNewline(a)
    ensures Opening(a + x) == Opening(a) && StartsComment(a + x) == StartsComment(a)
  {
    TagStable(a, x);
    hide TagLength;
    assert (a + x)[..TagLength(a)] == a[..TagLength(a)];
  }

  lemma FirstLengthStable(a: string, x: string)
    requires EndsInNewline(a) && (First(a).Plain? || First(a).closed)
    ensures FirstLength(a + x) == FirstLength(a)
  {
    OpeningStable(a, x);
    hide TagLength;
    if StartsComment(a) {
      NewlineIsFound(a);
      UntilNewlineStable(a, x);
    } else {
      var open := Opening(a);
      hide Opening, UntilNewline, StartsComment;
      assert (a + x)[|open.0|..] == a[|open.0|..] + x;
      RegionStable(open.1, a[|open.0|..], x);
    }
  }

  lemma RestOpensAfter(a: string, x: string)
    requires a != "" && !StartsComment(a)
    ensures var k := |Opening(a).0|; (a + x)[k..] == a[k..] + x
  {
  }

  /** What comes after a line start does not change the first token before it. */
  lemma FirstStable(a: string, x: string)
    requires EndsInNewline(a) && (First(a).Plain? || First(a).closed)
    ensures First(a + x) == First(a) && Rest(a + x) == Rest(a) + x
  {
    FirstLengthStable(a, x);
    OpeningStable(a, x);
    if StartsComment(a) {
      NewlineIsFound(a);
      UntilNewlineStable(a, x);
    } else {
      RestOpensAfter(a, x);
      RegionStable(Opening(a).1, a[|Opening(a).0|..], x);
    }
    hide FirstLength, Opening, UntilNewline, StartsComment, RegionRest, RegionCloses;
    assert (a + x)[..FirstLength(a)] == a[..FirstLength(a)];
    assert (a + x)[0] == a[0];
  }

  lemma NormalLineStartRest(a: string)
    requires NormalLineStart(a) && a != ""
    ensures EndsInNewline(a) && (First(a).Plain? || First(a).closed) && NormalLineStart(Rest(a))
  {
    hide FirstLength, First;
    assert Tokens(a)[0] == First(a);
    assert Tokens(a)[1..] == Tokens(Rest(a));
  }

  lemma {:induction false} PrefixStable(a: string, x: string)
    requires NormalLineStart(a)
    ensures Tokens(a + x) == Tokens(a) + Tokens(x)
    decreases |a|
  {
    hide NormalLineStart, First, Rest, FirstLength;
    if a == "" {
      assert a + x == x;
    } else {
      NormalLineStartRest(a);
      FirstStable(a, x);
      PrefixStable(Rest(a), x);
      assert Tokens(a + x) == [First(a)] + (Tokens(Rest(a)) + Tokens(x));
    }
  }

  predicate BlankPlain(t: Token) {
    t.Plain? && IsBlank(t.c)
  }

  /** The token before a line start is not a blank. */
  lemma {:induction false} LineStartIsNotBlank(a: string)
    requires NormalLineStart(a) && a != ""
    ensures Tokens(a) != [] && !BlankPlain(Tokens(a)[|Tokens(a)| - 1])
    decreases |a|
  {
    FirstText(a);
    NormalLineStartRest(a);
    hide First, FirstLength, Rest, NormalLineStart;
    if Rest(a) != "" {
      assert Tokens(a)[1..] == Tokens(Rest(a));
      LineStartIsNotBlank(Rest(a));
    } else {
      assert Text(First(a)) == a;
    }
  }

  lemma {:induction false} OutputOfAppend(a: seq<Token>, b: seq<Token>)
    requires a != [] ==> !BlankPlain(a[|a| - 1])
    ensures Output(a + b) == Output(a) + Output(b)
    ensures a != [] ==> LeadsToComment(a + b) == LeadsToComment(a)
  {
    if a == [] {
      assert a + b == b;
    } else {
      assert (a + b)[1..] == a[1..] + b;
      OutputOfAppend(a[1..], b);
      assert Text(a[0]) + (Output(a[1..]) + Output(b)) == Text(a[0]) + Output(a[1..]) + Output(b);
    }
  }

  predicate AllBlank(s: string) {
    forall i :: 0 <= i < |s| ==> IsBlank(s[i])
  }

  /** An indented comment and its line end. */
  function CommentLine(indent: string, note: string): string {
    indent + "--" + note + "\n"
  }

  lemma CommentLineRest(indent: string, note: string)
    requires indent != ""
    ensures CommentLine(indent, note) == [indent[0]] + CommentLine(indent[1..], note)
  {
    assert indent == [indent[0]] + indent[1..];
  }

  lemma {:induction false} UntilNewlineOfNote(note: string, b: string)
    requires '\n' !in note
    ensures UntilNewline(note + "\n" + b) == |note|
  {
    if note == "" {
      assert note + "\n" + b == "\n" + b;
    } else {
      assert (note + "\n" + b)[1..] == note[1..] + "\n" + b;
      UntilNewlineOfNote(note[1..], b);
    }
  }

  /** A comment line alone produces nothing, and what follows it is produced as ever. */
  lemma {:induction false} CommentLineVanishes(indent: string, note: string, b: string)
    requires AllBlank(indent) && '\n' !in note
    ensures Output(Tokens(CommentLine(indent, note) + b)) == Output(Tokens(b))
    ensures LeadsToComment(Tokens(CommentLine(indent, note) + b))
    decreases |indent|
  {
    var s := CommentLine(indent, note) + b;
    if indent == "" {
      assert s == "--" + note + "\n" + b;
      assert s[2..] == note + "\n" + b;
      UntilNewlineOfNote("--" + note, b);
      assert s == ("--" + note) + "\n" + b;
      assert StartsComment(s) && Rest(s) == b;
    } else {
      CommentLineRest(indent, note);
      assert s == [indent[0]] + (CommentLine(indent[1..], note) + b);
      CommentLineVanishes(indent[1..], note, b);
      assert First(s) == Plain(indent[0]) && Rest(s) == CommentLine(indent[1..], note) + b;
    }
  }

  /** An indented whole-line comment inserted at a line start in normal state changes nothing. */
  lemma InsertedCommentLine(a: string, indent: string, note: string, b: string)
    requires forall i :: 0 <= i < |Tokens(a)| && !Tokens(a)[i].Plain? ==> Tokens(a)[i].closed
    requires a == "" || a[|a| - 1] == '\n'
    requires (forall i :: 0 <= i < |indent| ==> indent[i] in {' ', '\t'}) && '\n' !in note
    ensures Normalized(a + (indent + "--" + note + "\n" + b)) == Normalized(a + b)
  {
    var line := CommentLine(indent, note);
    assert NormalLineStart(a) && AllBlank(indent);
    if a != "" {
      LineStartIsNotBlank(a);
    }
    PrefixStable(a, line + b);
    PrefixStable(a, b);
    OutputOfAppend(Tokens(a), Tokens(line + b));
    OutputOfAppend(Tokens(a), Tokens(b));
    CommentLineVanishes(indent, note, b);
  }
}
