/**
 * What the normaliser does with each kind of text, in terms of the text alone: which stretches
 * it keeps whole, and exactly what it removes.
 */
module NormalizerLaws {
  import opened Base
  import opened SqlText
  import opened CommentNormalizer
  import opened SecondPass

  /** The inside of a quoted region: quotes are doubled or, in a literal, escaped by a backslash. */
  predicate IsContent(q: string, quote: char)
    decreases |q|
  {
    || q == ""
    || (|q| > 1 && q[0] == quote && q[1] == quote && IsContent(q[2..], quote))
    || (|q| > 1 && q[0] == '\\' && quote == '\'' && IsContent(q[2..], quote))
    || (q[0] != quote && (q[0] == '\\' ==> quote == '"') && IsContent(q[1..], quote))
  }

  lemma {:induction false} LiteralEnds(q: string, rest: string)
    requires IsContent(q, '\'') && (rest != "" ==> rest[0] != '\'')
    ensures SingleRest(q + ("'" + rest)) == |q| + 1
    decreases |q|
  {
    var s := q + ("'" + rest);
    if q == "" {
      assert s == "'" + rest;
    } else if |q| > 1 && (q[0] == '\\' || q[0] == '\'') {
      assert s[2..] == q[2..] + ("'" + rest) && s[1] == q[1];
      LiteralEnds(q[2..], rest);
    } else {
      assert s[1..] == q[1..] + ("'" + rest);
      LiteralEnds(q[1..], rest);
    }
  }

  lemma {:induction false} IdentifierEnds(q: string, rest: string)
    requires IsContent(q, '"') && (rest != "" ==> rest[0] != '"')
    ensures DoubleRest(q + ("\"" + rest)) == |q| + 1
    decreases |q|
  {
    var s := q + ("\"" + rest);
    if q == "" {
      assert s == "\"" + rest;
    } else if |q| > 1 && q[0] == '"' {
      assert s[2..] == q[2..] + ("\"" + rest) && s[1] == q[1];
      IdentifierEnds(q[2..], rest);
    } else {
      assert s[1..] == q[1..] + ("\"" + rest);
      IdentifierEnds(q[1..], rest);
    }
  }

  lemma RegionFirst(s: string, text: string, rest: string)
    requires s != "" && First(s).Region? && First(s).text == text && Rest(s) == rest
    ensures Normalized(s) == text + Normalized(rest)
  {
    hide First, Rest;
    assert Tokens(s)[1..] == Tokens(rest);
  }

  lemma QuotedIsKept(state: State, q: char, r: string)
    requires Opens(q, state)
    ensures var n := RegionRest(state, r); Normalized([q] + r) == [q] + r[..n] + Normalized(r[n..])
  {
    QuotedFirst(q, state, r);
    hide First, Rest, RegionRest, RegionCloses, Normalized;
    var n := RegionRest(state, r);
    RegionFirst([q] + r, [q] + r[..n], r[n..]);
  }

  /** A string literal is kept whole, whatever dashes, dollars or double quotes are in it. */
  lemma LiteralIsKept(q: string, rest: string)
    requires IsContent(q, '\'') && (rest != "" ==> rest[0] != '\'')
    ensures Normalized("'" + (q + ("'" + rest))) == "'" + q + "'" + Normalized(rest)
  {
    hide Normalized, SingleRest, IsContent;
    LiteralEnds(q, rest);
    var r := q + ("'" + rest);
    QuotedIsKept(Single, '\'', r);
    assert r[..|q| + 1] == q + "'" && r[|q| + 1..] == rest;
    assert ['\''] + (q + "'") == "'" + q + "'";
  }

  /** So is a quoted identifier, in which a backslash is an ordinary character. */
  lemma IdentifierIsKept(q: string, rest: string)
    requires IsContent(q, '"') && (rest != "" ==> rest[0] != '"')
    ensures Normalized("\"" + (q + ("\"" + rest))) == "\"" + q + "\"" + Normalized(rest)
  {
    hide Normalized, DoubleRest, IsContent;
    IdentifierEnds(q, rest);
    var r := q + ("\"" + rest);
    QuotedIsKept(Double, '"', r);
    assert r[..|q| + 1] == q + "\"" && r[|q| + 1..] == rest;
    assert ['"'] + (q + "\"") == "\"" + q + "\"";
  }

  lemma {:induction false} DollarRestAt(x: string, tag: string, rest: string)
    requires tag != "" && StandsFirst(x, tag)
    ensures DollarRest(x + (tag + rest), tag) == |x| + |tag|
  {
    var s := x + (tag + rest);
    if x == "" {
      assert s == tag + rest;
    } else {
      NotYet(x, tag, rest);
      StandsFirstRest(x, tag);
      assert s[1..] == x[1..] + (tag + rest);
      DollarRestAt(x[1..], tag, rest);
    }
  }

  /** And a dollar-quoted block, up to the next occurrence of its tag. */
  lemma BlockIsKept(word: string, x: string, rest: string)
    requires forall i :: 0 <= i < |word| ==>
               'A' <= word[i] <= 'Z' || 'a' <= word[i] <= 'z' || '0' <= word[i] <= '9' || word[i] == '_'
    requires StandsFirst(x, "$" + word + "$")
    ensures var tag := "$" + word + "$";
            Normalized(tag + (x + (tag + rest))) == tag + x + tag + Normalized(rest)
  {
    hide StandsFirst, Normalized;
    WordIffTagChars(word);
    TaggedBlockIsKept("$" + word + "$", x, rest);
  }

  lemma TaggedBlockIsKept(tag: string, x: string, rest: string)
    requires IsTag(tag) && StandsFirst(x, tag)
    ensures Normalized(tag + (x + (tag + rest))) == tag + x + tag + Normalized(rest)
  {
    var r := x + (tag + rest);
    DollarRestAt(x, tag, rest);
    DollarRestOf(tag, r);
    hide First, Rest, Normalized, DollarRest, DollarCloses, StandsFirst, TagLength;
    assert r[..|x| + |tag|] == x + tag && r[|x| + |tag|..] == rest;
    assert tag + (x + tag) == tag + x + tag;
    RegionFirst(tag + r, tag + x + tag, rest);
  }

  lemma {:induction false} NoNewline(s: string)
    requires '\n' !in s
    ensures UntilNewline(s) == |s|
  {
    if s != "" {
      NoNewline(s[1..]);
    }
  }

  lemma LastComment(s: string)
    requires StartsComment(s) && '\n' !in s
    ensures First(s).Comment? && Rest(s) == ""
  {
    NoNewline(s);
    hide UntilNewline;
  }

  lemma OnlyComment(s: string)
    requires s != "" && First(s).Comment? && Rest(s) == ""
    ensures Normalized(s) == ""
  {
    hide First, Rest;
    var tokens := Tokens(s);
    assert tokens[1..] == Tokens(Rest(s)) == [];
    assert LeadsToComment(tokens) && Output(tokens) == Output(tokens[1..]);
  }

  /** A line comment goes together with its line end. */
  lemma CommentIsRemoved(x: string, rest: string)
    requires '\n' !in x
    ensures Normalized("--" + x + ("\n" + rest)) == Normalized(rest)
  {
    hide Tokens, Output, LeadsToComment;
    CommentLineVanishes("", x, rest);
    assert "" + "--" + x + "\n" + rest == "--" + x + ("\n" + rest);
  }

  lemma LastCommentIsRemoved(x: string)
    requires '\n' !in x
    ensures Normalized("--" + x) == ""
  {
    hide First, Rest, Normalized;
    LastComment("--" + x);
    OnlyComment("--" + x);
  }

  lemma PlainToken(c: char, rest: string)
    requires c != '\'' && c != '"' && (rest != "" ==> !(c == '-' && rest[0] == '-'))
    requires c == '$' ==> forall n :: 0 <= n < |rest| && rest[n] == '$' ==> !IsWord(rest[..n])
    ensures Tokens([c] + rest) == [Plain(c)] + Tokens(rest)
  {
    var s := [c] + rest;
    if TagLength(s) > 0 {
      TagAtStart(rest);
    }
    assert s[1..] == rest;
  }

  /** Any other character is kept, a dollar that starts no tag included, unless it is a blank. */
  lemma OtherCharactersAreKept(c: char, rest: string)
    requires c !in {' ', '\t', '\'', '"'} && (rest != "" ==> !(c == '-' && rest[0] == '-'))
    requires c == '$' ==> forall n :: 0 <= n < |rest| && rest[n] == '$' ==> !IsWord(rest[..n])
    ensures Normalized([c] + rest) == [c] + Normalized(rest)
  {
    PlainToken(c, rest);
    assert ([Plain(c)] + Tokens(rest))[1..] == Tokens(rest);
  }

  /** Nothing but blanks before the next line comment. */
  ghost predicate BlanksThenComment(s: string) {
    exists n :: 0 <= n <= |s| && "--" <= s[n..] && forall i :: 0 <= i < n ==> s[i] in {' ', '\t'}
  }

  lemma {:induction false} LeadsIffBlanksThenComment(s: string)
    ensures LeadsToComment(Tokens(s)) <==> BlanksThenComment(s)
    decreases |s|
  {
    if s != "" && (s[0] == ' ' || s[0] == '\t') {
      LeadsIffBlanksThenComment(s[1..]);
      PlainToken(s[0], s[1..]);
      assert s == [s[0]] + s[1..];
      assert ([Plain(s[0])] + Tokens(s[1..]))[1..] == Tokens(s[1..]);
      BlanksAfterBlank(s);
    } else {
      assert BlanksThenComment(s) <==> "--" <= s by {
        assert s[0..] == s;
      }
    }
  }

  lemma BlanksAfterBlank(s: string)
    requires s != "" && (s[0] == ' ' || s[0] == '\t')
    ensures BlanksThenComment(s) <==> BlanksThenComment(s[1..])
  {
    if BlanksThenComment(s) {
      var n :| 0 <= n <= |s| && "--" <= s[n..] && forall i :: 0 <= i < n ==> s[i] in {' ', '\t'};
      assert n > 0 && s[1..][n - 1..] == s[n..];
    }
    if BlanksThenComment(s[1..]) {
      var n :| 0 <= n <= |s| - 1 && "--" <= s[1..][n..] && forall i :: 0 <= i < n ==> s[1..][i] in {' ', '\t'};
      assert s[1..][n..] == s[n + 1..];
      assert forall i :: 0 < i < n + 1 ==> s[i] == s[1..][i - 1];
    }
  }

  /** A blank is removed exactly if nothing but blanks stand between it and a line comment. */
  lemma BlankIsKeptUnlessCommentFollows(c: char, rest: string)
    requires c == ' ' || c == '\t'
    ensures Normalized([c] + rest) == (if BlanksThenComment(rest) then "" else [c]) + Normalized(rest)
  {
    PlainToken(c, rest);
    LeadsIffBlanksThenComment(rest);
    hide BlanksThenComment;
    assert ([Plain(c)] + Tokens(rest))[1..] == Tokens(rest);
  }
}
