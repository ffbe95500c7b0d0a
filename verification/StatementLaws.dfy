/**
 * What the shared statement splitter does with each kind of text, in terms of the text alone:
 * how far a comment, a dollar-quoted block, a semicolon or any other character takes it.
 */
module StatementLaws {
  import opened Base
  import opened SqlText
  import opened StatementSplit

  /** The statements still to come, once this much of the present one has been collected. */
  function Resumed(current: string, s: string): seq<string> {
    From(current, Tokens(s))
  }

  lemma StatementsAreResumed(sql: string)
    ensures Statements(sql) == Resumed("", sql)
  {
    StatementsAreFrom(sql);
  }

  lemma {:induction false} NewlineAfter(x: string, rest: string)
    requires '\n' !in x
    ensures UntilNewline(x + ("\n" + rest)) == |x| && UntilNewline(x) == |x|
  {
    if x == "" {
      assert x + ("\n" + rest) == "\n" + rest;
    } else {
      assert (x + ("\n" + rest))[1..] == x[1..] + ("\n" + rest);
      NewlineAfter(x[1..], rest);
    }
  }

  /** A line comment leaves nothing but its newline, and nothing at all in the last line. */
  lemma CommentIsDropped(current: string, x: string, rest: string)
    requires '\n' !in x
    ensures Resumed(current, "--" + x + ("\n" + rest)) == Resumed(current, "\n" + rest)
    ensures Resumed(current, "--" + x) == Resumed(current, "")
  {
    var s := "--" + x;
    NewlineAfter(s, rest);
    CommentSkips(current, s + ("\n" + rest));
    CommentSkips(current, s);
    hide From, Tokens, UntilNewline;
    assert (s + ("\n" + rest))[|s|..] == "\n" + rest;
    assert s[|s|..] == "";
  }

  lemma {:induction false} BlockRestOf(x: string, tag: string, rest: string)
    requires IsTag(tag) && StandsFirst(x, tag)
    ensures BlockRest(x + (tag + rest), tag) == |x| + |tag|
  {
    var s := x + (tag + rest);
    if x == "" {
      TagLengthOfPrefix(tag, rest);
      assert s == tag + rest && s[..|tag|] == tag;
    } else {
      assert TagLength(s) > 0 && s[..TagLength(s)] == tag ==> tag <= s;
      NotYet(x, tag, rest);
      StandsFirstRest(x, tag);
      BlockRestOf(x[1..], tag, rest);
      assert s[1..] == x[1..] + (tag + rest);
    }
  }

  lemma BlockSlices(tag: string, x: string, rest: string)
    ensures var body := x + (tag + rest);
            && (tag + body)[..|tag|] == tag && (tag + body)[|tag|..] == body
            && body[..|x| + |tag|] == x + tag && body[|x| + |tag|..] == rest
  {
  }

  lemma InsideIsCopied(current: string, tag: string, x: string, rest: string)
    requires IsTag(tag) && StandsFirst(x, tag)
    ensures Inside(current, x + (tag + rest), tag) == From(current + x + tag, Tokens(rest))
  {
    BlockRestOf(x, tag, rest);
    hide From, Tokens, BlockRest, TagLength, StandsFirst;
    BlockSlices(tag, x, rest);
    assert current + (x + tag) == current + x + tag;
  }

  lemma TaggedBlockIsKept(current: string, tag: string, x: string, rest: string)
    requires IsTag(tag) && StandsFirst(x, tag)
    ensures Resumed(current, tag + (x + (tag + rest))) == Resumed(current + tag + x + tag, rest)
  {
    var body := x + (tag + rest);
    TagLengthOfPrefix(tag, body);
    InsideIsCopied(current + tag, tag, x, rest);
    BlockStarts(current, tag + body);
    hide From, Tokens, Inside, TagLength, StandsFirst;
    BlockSlices(tag, x, rest);
  }

  /** A dollar-quoted block is kept whole, semicolons, comments and other dollars included. */
  lemma BlockIsKept(current: string, word: string, x: string, rest: string)
    requires forall i :: 0 <= i < |word| ==>
               'A' <= word[i] <= 'Z' || 'a' <= word[i] <= 'z' || '0' <= word[i] <= '9' || word[i] == '_'
    requires StandsFirst(x, "$" + word + "$")
    ensures var tag := "$" + word + "$";
            Resumed(current, tag + (x + (tag + rest))) == Resumed(current + tag + x + tag, rest)
  {
    hide Resumed, StandsFirst, IsTag;
    WordIffTagChars(word);
    TaggedBlockIsKept(current, "$" + word + "$", x, rest);
  }

  /** A semicolon ends the statement, of which white space around it is stripped; an empty one is dropped. */
  lemma SemicolonEnds(before: string, text: string, after: string, rest: string)
    requires IsBlankText(before) && IsBlankText(after)
    requires text != "" && text[0] as int !in WHITE_SPACE && text[|text| - 1] as int !in WHITE_SPACE
    ensures Resumed(before + text + after, ";" + rest) == [text] + Resumed("", rest)
    ensures Resumed(before, ";" + rest) == Resumed("", rest)
    ensures Resumed(before + text + after, "") == [text] && Resumed(before, "") == []
  {
    var s := ";" + rest;
    StripTrims(before, text, after);
    PlainOrSemicolon(before + text + after, s);
    PlainOrSemicolon(before, s);
    hide Tokens, Clean;
    assert s[1..] == rest && Tokens("") == [];
  }

  /** Any other character is kept, a dollar that starts no tag included. */
  lemma OtherCharactersAreKept(current: string, c: char, rest: string)
    requires c != ';' && (rest != "" ==> !(c == '-' && rest[0] == '-'))
    requires c == '$' ==> forall n :: 0 <= n < |rest| && rest[n] == '$' ==> !IsWord(rest[..n])
    ensures Resumed(current, [c] + rest) == Resumed(current + [c], rest)
  {
    var s := [c] + rest;
    assert s[1..] == rest;
    if TagLength(s) > 0 {
      TagAtStart(rest);
    }
    PlainOrSemicolon(current, s);
  }
}
