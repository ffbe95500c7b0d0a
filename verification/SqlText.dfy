/** Text helpers shared by the SQL scanners: stripping, searching, and dollar-quote tags. */
module SqlText {
  import opened Base

  // ----- white space -----

  /** The characters that Python's str.strip removes. */
  predicate IsSpace(c: char) {
    || '\t' <= c <= '\r' || '\U{1c}' <= c <= ' ' || c == '\U{85}' || c == '\U{a0}' || c == '\U{1680}'
    || '\U{2000}' <= c <= '\U{200a}' || c == '\U{2028}' || c == '\U{2029}' || c == '\U{202f}'
    || c == '\U{205f}' || c == '\U{3000}'
  }

  function LStrip(s: string): string {
    if s != "" && IsSpace(s[0]) then LStrip(s[1..]) else s
  }

  function RStrip(s: string): string {
    if s != "" && IsSpace(s[|s| - 1]) then RStrip(s[..|s| - 1]) else s
  }

  function Strip(s: string): string {
    RStrip(LStrip(s))
  }

  /** The stripped text, unless nothing is left of it. */
  function Clean(s: string): seq<string> {
    if Strip(s) == "" then [] else [Strip(s)]
  }

  function CleanAll(pieces: seq<string>): seq<string> {
    if pieces == [] then [] else Clean(pieces[0]) + CleanAll(pieces[1..])
  }

  predicate Solid(s: string) {
    s != "" && !IsSpace(s[0]) && !IsSpace(s[|s| - 1])
  }

  lemma {:induction false} LStripBefore(a: string, b: string)
    requires b != "" && !IsSpace(b[0])
    ensures LStrip(a + b) == LStrip(a) + b
  {
    if a == "" {
      assert a + b == b;
    } else if IsSpace(a[0]) {
      assert (a + b)[1..] == a[1..] + b;
      LStripBefore(a[1..], b);
    }
  }

  lemma {:induction false} RStripAfter(a: string, b: string)
    requires a != "" && !IsSpace(a[|a| - 1])
    ensures RStrip(a + b) == a + RStrip(b)
  {
    if b == "" {
      assert a + b == a;
    } else if IsSpace(b[|b| - 1]) {
      assert (a + b)[..|a + b| - 1] == a + b[..|b| - 1];
      RStripAfter(a, b[..|b| - 1]);
    }
  }

  /** Stripping never touches a stretch that neither starts nor ends with white space. */
  lemma StripKeeps(before: string, solid: string, after: string)
    requires Solid(solid)
    ensures Strip(before + solid + after) == LStrip(before) + solid + RStrip(after)
  {
    assert before + solid + after == before + (solid + after);
    LStripBefore(before, solid + after);
    assert LStrip(before) + (solid + after) == (LStrip(before) + solid) + after;
    RStripAfter(LStrip(before) + solid, after);
  }

  /** White space by code point: the controls, the spaces and separators of all scripts. */
  const WHITE_SPACE := {
    9, 10, 11, 12, 13, 28, 29, 30, 31, 32, 133, 160, 5760, 8192, 8193, 8194, 8195, 8196, 8197, 8198, 8199, 8200, 8201,
    8202, 8232, 8233, 8239, 8287, 12288
  }

  predicate IsBlankText(s: string) {
    forall i :: 0 <= i < |s| ==> s[i] as int in WHITE_SPACE
  }

  lemma WhiteSpaceCodes(c: char)
    ensures IsSpace(c) <==> c as int in WHITE_SPACE
  {
  }

  lemma {:induction false} BlankIsStripped(s: string)
    requires IsBlankText(s)
    ensures LStrip(s) == "" && RStrip(s) == ""
  {
    if s != "" {
      WhiteSpaceCodes(s[0]);
      WhiteSpaceCodes(s[|s| - 1]);
      BlankIsStripped(s[1..]);
      BlankIsStripped(s[..|s| - 1]);
    }
  }

  /** Stripping removes the white space around a text, and no other character. */
  lemma StripTrims(before: string, text: string, after: string)
    requires IsBlankText(before) && IsBlankText(after)
    requires text != "" && text[0] as int !in WHITE_SPACE && text[|text| - 1] as int !in WHITE_SPACE
    ensures Clean(before + text + after) == [text] && Clean(before) == []
  {
    hide IsSpace, IsBlankText;
    WhiteSpaceCodes(text[0]);
    WhiteSpaceCodes(text[|text| - 1]);
    BlankIsStripped(before);
    BlankIsStripped(after);
    StripKeeps(before, text, after);
    assert "" + text + "" == text;
  }

  // ----- searching -----

  /** Everything before the first newline, or everything. */
  function UntilNewline(s: string): (n: nat)
    ensures n <= |s| && (s != "" && s[0] != '\n' ==> n > 0)
  {
    if s == "" || s[0] == '\n' then 0 else 1 + UntilNewline(s[1..])
  }

  /** The position of the first dollar sign, if there is one. */
  function FindDollar(s: string): (n: Option<nat>)
    ensures n.Some? ==> n.value < |s| && s[n.value] == '$'
    ensures forall i :: 0 <= i < (if n.Some? then n.value else |s|) ==> s[i] != '$'
  {
    if s == "" then None
    else if s[0] == '$' then Some(0)
    else
      var rest := FindDollar(s[1..]);
      if rest.Some? then Some(1 + rest.value) else None
  }

  // ----- dollar-quote tags -----

  predicate IsTagChar(c: char) {
    'A' <= c <= 'Z' || 'a' <= c <= 'z' || '0' <= c <= '9' || c == '_'
  }

  /** The length of the run of tag characters at the start. */
  function TagRun(s: string): (n: nat)
    ensures n <= |s| && (forall i :: 0 <= i < n ==> IsTagChar(s[i]))
    ensures n < |s| ==> !IsTagChar(s[n])
  {
    if s == "" || !IsTagChar(s[0]) then 0 else 1 + TagRun(s[1..])
  }

  /** The length of the dollar-quote tag at the start: a dollar, tag characters, a dollar; 0 if none. */
  function TagLength(s: string): (n: nat)
    ensures n <= |s| && (n > 0 ==> n >= 2 && s[0] == '$' && s[n - 1] == '$')
  {
    if s == "" || s[0] != '$' then 0
    else
      var k := 1 + TagRun(s[1..]);
      if k < |s| && s[k] == '$' then k + 1 else 0
  }

  predicate IsTag(t: string) {
    t != "" && TagLength(t) == |t|
  }

  lemma TagOfItself(s: string)
    requires TagLength(s) > 0
    ensures TagLength(s[..TagLength(s)]) == TagLength(s)
  {
    var k := 1 + TagRun(s[1..]);
    TagRunWithin(s[1..], k);
    assert s[..k + 1][1..] == s[1..][..k];
  }

  lemma {:induction false} TagRunWithin(s: string, k: nat)
    requires TagRun(s) <= k <= |s|
    ensures TagRun(s[..k]) == TagRun(s)
  {
    if s != "" && IsTagChar(s[0]) {
      TagRunWithin(s[1..], k - 1);
      assert s[..k][1..] == s[1..][..k - 1];
    }
  }

  /** A dollar-quote tag is a possibly empty word of letters, digits and underscores between two dollars. */
  lemma TagIffWord(t: string)
    ensures IsTag(t) <==>
            && |t| >= 2 && t[0] == '$' && t[|t| - 1] == '$'
            && forall i :: 0 < i < |t| - 1 ==>
                 'A' <= t[i] <= 'Z' || 'a' <= t[i] <= 'z' || '0' <= t[i] <= '9' || t[i] == '_'
  {
    if |t| >= 2 && t[0] == '$' {
      var k := TagRun(t[1..]);
      assert forall i :: 0 <= i < k ==> IsTagChar(t[1..][i]);
      assert forall i :: 0 < i < 1 + k ==> t[i] == t[1..][i - 1];
      if k < |t| - 1 {
        assert t[1 + k] == t[1..][k];
      }
    }
  }

  predicate IsWord(w: string) {
    IsTag("$" + w + "$")
  }

  lemma TagAtStart(rest: string)
    requires TagLength("$" + rest) > 0
    ensures var n := TagLength("$" + rest) - 2; n < |rest| && rest[n] == '$' && IsWord(rest[..n])
  {
    var s := "$" + rest;
    TagOfItself(s);
    assert s[..TagLength(s)] == "$" + rest[..TagLength(s) - 2] + "$";
  }

  lemma WordIffTagChars(w: string)
    ensures IsWord(w) <==>
            forall i :: 0 <= i < |w| ==> 'A' <= w[i] <= 'Z' || 'a' <= w[i] <= 'z' || '0' <= w[i] <= '9' || w[i] == '_'
  {
    var t := "$" + w + "$";
    TagIffWord(t);
    assert forall i :: 0 < i < |t| - 1 ==> t[i] == w[i - 1];
    assert forall i :: 0 <= i < |w| ==> w[i] == t[i + 1];
  }

  /** The text before a tag does not contain it, not even in part: the tag is found where it stands. */
  predicate StandsFirst(x: string, tag: string) {
    forall i :: 0 <= i < |x| ==> !(tag <= (x + tag)[i..])
  }

  lemma StandsFirstRest(x: string, tag: string)
    requires StandsFirst(x, tag) && x != ""
    ensures StandsFirst(x[1..], tag)
  {
    forall i | 0 <= i < |x| - 1 ensures !(tag <= (x[1..] + tag)[i..]) {
      assert (x[1..] + tag)[i..] == (x + tag)[i + 1..];
    }
  }

  lemma NotYet(x: string, tag: string, rest: string)
    requires StandsFirst(x, tag) && x != ""
    ensures !(tag <= x + (tag + rest))
  {
    assert (x + tag)[0..] == x + tag;
    assert (x + (tag + rest))[..|tag|] == (x + tag)[..|tag|];
  }

  /** Matching a tag looks at the tag only. */
  lemma TagLengthOfPrefix(s: string, rest: string)
    requires TagLength(s) > 0
    ensures TagLength(s + rest) == TagLength(s)
  {
    var k := 1 + TagRun(s[1..]);
    assert (s + rest)[1..] == s[1..] + rest;
    TagRunOfPrefix(s[1..], rest);
  }

  lemma {:induction false} TagRunOfPrefix(s: string, rest: string)
    requires TagRun(s) < |s|
    ensures TagRun(s + rest) == TagRun(s)
  {
    if IsTagChar(s[0]) {
      assert (s + rest)[1..] == s[1..] + rest;
      TagRunOfPrefix(s[1..], rest);
    }
  }

  /** A tag at the start is exactly the text up to the next dollar, when that text is a tag. */
  lemma TagIsUpToNextDollar(s: string)
    requires s != "" && s[0] == '$'
    ensures var j := FindDollar(s[1..]);
            && (TagLength(s) > 0 ==> j.Some? && TagLength(s) == j.value + 2)
            && (j.Some? && IsTag(s[..j.value + 2]) ==> TagLength(s) == j.value + 2)
  {
    var j := FindDollar(s[1..]);
    if j.Some? && IsTag(s[..j.value + 2]) {
      TagLengthOfPrefix(s[..j.value + 2], s[j.value + 2..]);
      assert s == s[..j.value + 2] + s[j.value + 2..];
    }
  }

  /** The rest of a dollar-quoted block: through the next occurrence of its tag, or to the end. */
  function BlockRest(s: string, tag: string): (n: nat)
    requires tag != ""
    ensures n <= |s|
  {
    if s == "" then 0
    else if TagLength(s) > 0 && s[..TagLength(s)] == tag then |tag|
    else 1 + BlockRest(s[1..], tag)
  }

  /** The length of the dollar-quoted block at the start, opening tag included. */
  function BlockLength(s: string): (n: nat)
    requires TagLength(s) > 0
    ensures 2 <= TagLength(s) <= n <= |s|
  {
    TagLength(s) + BlockRest(s[TagLength(s)..], s[..TagLength(s)])
  }

  /** The tag that closes a block occurs in the text. */
  predicate BlockCloses(s: string, tag: string)
    requires tag != ""
  {
    s != "" && ((TagLength(s) > 0 && s[..TagLength(s)] == tag) || BlockCloses(s[1..], tag))
  }

  /** A closed block ends with its tag's last character; one that is not takes the rest of the text. */
  lemma {:induction false} BlockRestEnds(s: string, tag: string)
    requires tag != ""
    ensures BlockCloses(s, tag) ==> BlockRest(s, tag) > 0 && s[BlockRest(s, tag) - 1] == tag[|tag| - 1]
    ensures !BlockCloses(s, tag) ==> BlockRest(s, tag) == |s|
  {
    if s != "" {
      var k := TagLength(s);
      if k > 0 && s[..k] == tag {
        assert s[k - 1] == s[..k][k - 1];
      } else {
        BlockRestEnds(s[1..], tag);
      }
    }
  }

  lemma OneMoreChar(buf: string, s: string, b: nat)
    requires s != "" && 1 + b <= |s|
    ensures buf + s[..1 + b] == buf + [s[0]] + s[1..][..b] && s[1 + b..] == s[1..][b..] && s[..1] == [s[0]]
  {
    assert s[..1 + b] == [s[0]] + s[1..][..b];
    assert buf + ([s[0]] + s[1..][..b]) == buf + [s[0]] + s[1..][..b];
  }
}
