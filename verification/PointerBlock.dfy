/** The pointer block that tells an agent where the project memory is: a marked block inside a
    file that belongs to somebody else. */
module PointerBlock {
  import opened Basics

  const BEGIN_PREFIX := "<!-- roambench:memory:begin"
  const END_MARKER := "<!-- roambench:memory:end -->"

  // ---------------------------------------------------------------- searching

  predicate At(s: string, pattern: string, i: nat) {
    i + |pattern| <= |s| && forall k | 0 <= k < |pattern| :: s[i + k] == pattern[k]
  }

  /** Where the pattern occurs first. */
  function Index(s: string, pattern: string): (r: Option<nat>)
    ensures r.Some? ==> At(s, pattern, r.value)
  {
    if At(s, pattern, 0) then Some(0)
    else if s == "" then None
    else
      match Index(s[1..], pattern)
      case None => None
      case Some(i) =>
        Shifted(s, pattern, i + 1);
        Some(i + 1)
  }

  lemma Shifted(s: string, pattern: string, i: nat)
    requires 0 < i && s != ""
    ensures At(s, pattern, i) <==> At(s[1..], pattern, i - 1)
  {
    if i + |pattern| <= |s| {
      assert forall k | 0 <= k < |pattern| :: s[1..][i - 1 + k] == pattern[k] <==> s[i + k] == pattern[k];
    }
  }

  ghost predicate First(s: string, pattern: string, i: nat) {
    At(s, pattern, i) && forall j: nat | j < i :: !At(s, pattern, j)
  }

  ghost predicate NowhereIn(s: string, pattern: string) {
    forall j: nat :: !At(s, pattern, j)
  }

  lemma {:induction false} IndexIsFirst(s: string, pattern: string)
    ensures Index(s, pattern).Some? ==> First(s, pattern, Index(s, pattern).value)
    ensures Index(s, pattern).None? ==> NowhereIn(s, pattern)
  {
    if !At(s, pattern, 0) && s != "" {
      IndexIsFirst(s[1..], pattern);
      forall j: nat | 0 < j ensures At(s, pattern, j) <==> At(s[1..], pattern, j - 1) {
        Shifted(s, pattern, j);
      }
    }
  }

  lemma FirstIsIndex(s: string, pattern: string, i: nat)
    requires First(s, pattern, i)
    ensures Index(s, pattern) == Some(i)
  {
    IndexIsFirst(s, pattern);
  }

  /** Texts that agree up to n match at the same places up to there. */
  lemma SameStart(s: string, t: string, pattern: string, n: nat)
    requires n <= |s| && n <= |t| && s[..n] == t[..n]
    ensures forall j: nat | j + |pattern| <= n :: At(s, pattern, j) <==> At(t, pattern, j)
  {
    forall j: nat | j + |pattern| <= n ensures At(s, pattern, j) <==> At(t, pattern, j) {
      forall k | 0 <= k < |pattern| ensures s[j + k] == pattern[k] <==> t[j + k] == pattern[k] {
        assert s[j + k] == s[..n][j + k] == t[..n][j + k] == t[j + k];
      }
    }
  }

  /** The first match stays the first when the text is continued. */
  lemma FirstInLonger(s: string, t: string, pattern: string, i: nat)
    requires First(s, pattern, i) && s <= t
    ensures First(t, pattern, i)
  {
    SameStart(s, t, pattern, |s|);
  }

  lemma FoundInLonger(s: string, t: string, pattern: string, i: nat)
    requires First(s, pattern, i) && s <= t
    ensures Index(t, pattern) == Some(i)
  {
    FirstInLonger(s, t, pattern, i);
    FirstIsIndex(t, pattern, i);
  }

  /** Anything that starts with the pattern can take its place. */
  lemma FirstReplaced(before: string, one: string, other: string, pattern: string)
    requires At(one, pattern, 0) && At(other, pattern, 0) && First(before + one, pattern, |before|)
    ensures First(before + other, pattern, |before|)
  {
    var n := |before| + |pattern|;
    forall m | |before| <= m < n ensures (before + one)[m] == (before + other)[m] {
      assert one[0 + (m - |before|)] == pattern[m - |before|] && other[0 + (m - |before|)] == pattern[m - |before|];
    }
    assert (before + one)[..n] == (before + other)[..n];
    SameStart(before + one, before + other, pattern, n);
  }

  lemma Suffix(before: string, rest: string, pattern: string)
    ensures At(before + rest, pattern, |before|) <==> At(rest, pattern, 0)
  {
    if |pattern| <= |rest| {
      assert forall k | 0 <= k < |pattern| :: (before + rest)[|before| + k] == rest[k];
    }
  }

  function TrimNewlines(s: string): string {
    if s != "" && s[|s|-1] == '\n' then TrimNewlines(s[..|s|-1]) else s
  }

  lemma {:induction false} Trimmed(s: string)
    ensures TrimNewlines(s) <= s
    ensures TrimNewlines(s) != "" ==> TrimNewlines(s)[|TrimNewlines(s)|-1] != '\n'
    ensures forall i | |TrimNewlines(s)| <= i < |s| :: s[i] == '\n'
  {
    if s != "" && s[|s|-1] == '\n' {
      Trimmed(s[..|s|-1]);
    }
  }

  lemma TrimOne(s: string)
    ensures TrimNewlines(s + "\n") == TrimNewlines(s)
  {
    assert (s + "\n")[..|s|] == s;
  }

  // ---------------------------------------------------------------- blocks

  function BeginMarker(key: string): string {
    BEGIN_PREFIX + " " + key + " -->"
  }

  function Block(key: string, body: string): string {
    BeginMarker(key) + body + END_MARKER
  }

  /** Text in which no comment opens. */
  predicate NoComment(s: string) {
    forall i | 0 <= i < |s| - 1 :: !(s[i] == '<' && s[i+1] == '!')
  }

  /** A block of the key: it starts with the marker, and its only end marker ends it. */
  ghost predicate WellFormed(key: string, block: string) {
    && |BeginMarker(key)| + |END_MARKER| <= |block| && At(block, BeginMarker(key), 0)
    && First(block, END_MARKER, |block| - |END_MARKER|)
  }

  lemma NoCommentInside(key: string, body: string, p: nat)
    requires NoComment(key) && NoComment(body) && 0 < p < |Block(key, body)| - |END_MARKER|
    ensures !(Block(key, body)[p] == '<' && Block(key, body)[p+1] == '!')
  {
    var a, b := |BEGIN_PREFIX|, |BeginMarker(key)|;
    var block := Block(key, body);
    assert b == a + 1 + |key| + 4;
    if p < a {
    } else if p < a + 1 + |key| {
      assert block[a] == ' ';
      assert p > a ==> block[p] == key[p - a - 1];
      assert p > a && p < a + |key| ==> block[p+1] == key[p - a];
      assert block[a + 1 + |key|] == ' ';
    } else if p < b {
      assert BeginMarker(key)[a + 1 + |key|..] == " -->";
      assert block[p] == BeginMarker(key)[p] == " -->"[p - a - 1 - |key|];
    } else {
      assert block[p] == body[p - b];
      assert p + 1 < b + |body| ==> block[p+1] == body[p + 1 - b];
      assert p + 1 == b + |body| ==> block[p+1] == END_MARKER[0];
    }
  }

  /** Keys and bodies in which no comment opens make well-formed blocks. */
  lemma BlockIsWellFormed(key: string, body: string)
    requires NoComment(key) && NoComment(body)
    ensures WellFormed(key, Block(key, body))
  {
    var block := Block(key, body);
    var last := |block| - |END_MARKER|;
    forall p: nat | p < last ensures !At(block, END_MARKER, p) {
      assert END_MARKER[0] == '<' && END_MARKER[1] == '!' && END_MARKER[22] == 'e' && block[22] == 'b';
      if p > 0 {
        NoCommentInside(key, body, p);
        assert block[p + 0] != END_MARKER[0] || block[p + 1] != END_MARKER[1];
      } else {
        assert block[p + 22] != END_MARKER[22];
      }
    }
  }

  // ---------------------------------------------------------------- rewriting

  /** Swaps the block of the key, or adds it at the end of the file. */
  function Replace(content: string, key: string, block: string): string {
    match Index(content, BeginMarker(key))
    case None =>
      var trimmed := TrimNewlines(content);
      if trimmed == "" then block + "\n" else trimmed + "\n\n" + block + "\n"
    case Some(start) =>
      match Index(content[start..], END_MARKER)
      case None => content[..start] + block + "\n"
      case Some(e) => content[..start] + block + content[start + e + |END_MARKER|..]
  }

  /** Drops the block of the key, and the newlines it leaves at the end. */
  function Remove(content: string, key: string): string {
    match Index(content, BeginMarker(key))
    case None => content
    case Some(start) =>
      match Index(content[start..], END_MARKER)
      case None => TrimNewlines(content[..start]) + "\n"
      case Some(e) => TrimNewlines(content[..start] + content[start + e + |END_MARKER|..]) + "\n"
  }

  /** A file that is before, the block and after, the block being the first of its key. */
  ghost predicate Holds(key: string, before: string, block: string, after: string) {
    WellFormed(key, block) && First(before + block, BeginMarker(key), |before|)
  }

  /** A pattern found in the middle part, seen from where that part starts. */
  lemma FoundBehind(before: string, middle: string, after: string, pattern: string, i: nat)
    requires First(middle, pattern, i)
    ensures Index((before + middle + after)[|before|..], pattern) == Some(i)
  {
    assert (before + middle + after)[|before|..] == middle + after;
    FoundInLonger(middle, middle + after, pattern, i);
  }

  lemma ThreeParts(before: string, middle: string, after: string)
    ensures var content := before + middle + after;
      content[..|before|] == before && content[|before| + |middle|..] == after
  {
  }

  /** The two ends of the middle part are found where they are. */
  predicate Framed(before: string, middle: string, after: string, begin: string, end: string) {
    var content := before + middle + after;
    && Index(content, begin) == Some(|before|) && |end| <= |middle|
    && Index(content[|before|..], end) == Some(|middle| - |end|)
    && content[..|before|] == before && content[|before| + |middle|..] == after
  }

  lemma FoundEnds(before: string, middle: string, after: string, begin: string, end: string)
    requires First(before + middle, begin, |before|) && |end| <= |middle| && First(middle, end, |middle| - |end|)
    ensures Framed(before, middle, after, begin, end)
  {
    FoundInLonger(before + middle, before + middle + after, begin, |before|);
    FoundBehind(before, middle, after, end, |middle| - |end|);
    ThreeParts(before, middle, after);
  }

  lemma HeldBlock(key: string, before: string, block: string, after: string)
    requires Holds(key, before, block, after)
    ensures Framed(before, block, after, BeginMarker(key), END_MARKER)
  {
    FoundEnds(before, block, after, BeginMarker(key), END_MARKER);
  }

  /** Where there is a block, replacing it touches nothing else. */
  lemma ReplaceKeepsTheRest(key: string, before: string, older: string, after: string, block: string)
    requires Holds(key, before, older, after) && WellFormed(key, block)
    ensures Replace(before + older + after, key, block) == before + block + after
    ensures Holds(key, before, block, after)
  {
    HeldBlock(key, before, older, after);
    FirstReplaced(before, older, block, BeginMarker(key));
  }

  /** Removing a block touches nothing else, except the newlines at the end. */
  lemma RemoveKeepsTheRest(key: string, before: string, block: string, after: string)
    requires Holds(key, before, block, after)
    ensures Remove(before + block + after, key) == TrimNewlines(before + after) + "\n"
  {
    HeldBlock(key, before, block, after);
  }

  // ---------------------------------------------------------------- adding

  /** Where a block that was not there ends up. */
  function Added(content: string): string {
    if TrimNewlines(content) == "" then "" else TrimNewlines(content) + "\n\n"
  }

  lemma NoNewlineInMarker(key: string)
    requires '\n' !in key
    ensures '\n' !in BeginMarker(key)
  {
  }

  /** No occurrence of a pattern without newlines reaches over a newline. */
  lemma NotAcross(s: string, pattern: string, j: nat, n: nat)
    requires '\n' !in pattern && j <= n < |s| && s[n] == '\n'
    ensures At(s, pattern, j) ==> j + |pattern| <= n
  {
    if n < j + |pattern| <= |s| {
      assert pattern[n - j] in pattern;
      assert s[j + (n - j)] == '\n';
    }
  }

  lemma AddedIsFirst(content: string, marker: string, block: string)
    requires NowhereIn(content, marker) && '\n' !in marker && marker != "" && At(block, marker, 0)
    ensures First(Added(content) + block, marker, |Added(content)|)
  {
    var trimmed, n := TrimNewlines(content), |Added(content)|;
    var s := Added(content) + block;
    Trimmed(content);
    Suffix(Added(content), block, marker);
    SameStart(content, s, marker, |trimmed|);
    forall j: nat | j < n ensures !At(s, marker, j) {
      assert s[|trimmed|] == '\n' && s[|trimmed| + 1] == '\n';
      NotAcross(s, marker, j, if j <= |trimmed| then |trimmed| else |trimmed| + 1);
    }
  }

  /** A block that was not there is added after the text, which loses only newlines at its
      end. */
  lemma ReplaceAdds(content: string, key: string, block: string)
    requires NowhereIn(content, BeginMarker(key)) && '\n' !in key && WellFormed(key, block)
    ensures Replace(content, key, block) == Added(content) + block + "\n"
    ensures Holds(key, Added(content), block, "\n")
  {
    IndexIsFirst(content, BeginMarker(key));
    NoNewlineInMarker(key);
    AddedIsFirst(content, BeginMarker(key), block);
  }

  /** Taking away a block that was just added gives the text back, with the newlines at its end
      made into one. */
  lemma RemoveUndoesAdd(content: string, key: string, block: string)
    requires NowhereIn(content, BeginMarker(key)) && '\n' !in key && WellFormed(key, block)
    ensures Remove(Replace(content, key, block), key) == TrimNewlines(content) + "\n"
  {
    var trimmed := TrimNewlines(content);
    ReplaceAdds(content, key, block);
    RemoveKeepsTheRest(key, Added(content), block, "\n");
    Trimmed(content);
    TrimOne(Added(content));
    if trimmed != "" {
      assert Added(content) == trimmed + "\n" + "\n";
      TrimOne(trimmed + "\n");
      TrimOne(trimmed);
    }
  }

  // ---------------------------------------------------------------- idempotence

  lemma MarkerEnds(key: string)
    ensures BeginMarker(key)[|BeginMarker(key)|-1] == '>'
  {
    assert BeginMarker(key)[|BeginMarker(key)| - 4..] == " -->";
  }

  lemma EndMarkerOpen()
    ensures forall k | 0 <= k < |END_MARKER| - 1 :: END_MARKER[k] != '>'
  {
  }

  /** A pattern found inside a common start is found in the other text too. */
  lemma FoundInside(rest: string, block: string, marker: string, pattern: string, p: nat)
    requires At(rest, marker, 0) && At(block, marker, 0) && At(rest, pattern, p) && p + |pattern| <= |marker|
    ensures At(block, pattern, p)
  {
    forall k | 0 <= k < |pattern| ensures block[p + k] == pattern[k] {
      assert rest[0 + (p + k)] == marker[p + k] && block[0 + (p + k)] == marker[p + k] && rest[p + k] == pattern[k];
    }
  }

  lemma FoundAcross(rest: string, marker: string, pattern: string, p: nat)
    requires At(rest, marker, 0) && At(rest, pattern, p) && p < |marker| < p + |pattern|
    ensures pattern[|marker| - 1 - p] == marker[|marker| - 1]
  {
    assert rest[p + (|marker| - 1 - p)] == rest[0 + (|marker| - 1)];
  }

  /** No end marker starts inside a begin marker, for a key that has a well-formed block. */
  lemma MarkersApart(rest: string, key: string, block: string, p: nat)
    requires WellFormed(key, block) && At(rest, BeginMarker(key), 0) && At(rest, END_MARKER, p)
    ensures |BeginMarker(key)| <= p
  {
    MarkerEnds(key);
    EndMarkerOpen();
    if p < |BeginMarker(key)| {
      if p + |END_MARKER| <= |BeginMarker(key)| {
        FoundInside(rest, block, BeginMarker(key), END_MARKER, p);
      } else {
        FoundAcross(rest, BeginMarker(key), END_MARKER, p);
      }
    }
  }

  /** A begin marker with an end marker behind it is a block, whatever lies between them. */
  lemma Terminated(key: string, before: string, rest: string, e: nat, some: string)
    requires First(before + rest, BeginMarker(key), |before|) && First(rest, END_MARKER, e) && WellFormed(key, some)
    ensures Holds(key, before, rest[..e + |END_MARKER|], rest[e + |END_MARKER|..])
  {
    var block := rest[..e + |END_MARKER|];
    Suffix(before, rest, BeginMarker(key));
    MarkersApart(rest, key, some, e);
    SameStart(rest, block, BeginMarker(key), |BeginMarker(key)|);
    SameStart(rest, block, END_MARKER, |block|);
    FirstReplaced(before, rest, block, BeginMarker(key));
  }

  /** A block that was left open is taken to reach to the end of the file. */
  lemma ReplaceUnterminated(key: string, before: string, open: string, block: string)
    requires First(before + open, BeginMarker(key), |before|) && NowhereIn(open, END_MARKER) && WellFormed(key, block)
    ensures Replace(before + open, key, block) == before + block + "\n"
    ensures Holds(key, before, block, "\n")
  {
    FirstIsIndex(before + open, BeginMarker(key), |before|);
    assert (before + open)[|before|..] == open && (before + open)[..|before|] == before;
    IndexIsFirst(open, END_MARKER);
    Suffix(before, open, BeginMarker(key));
    FirstReplaced(before, open, block, BeginMarker(key));
  }

  lemma ReplaceTerminated(key: string, before: string, rest: string, e: nat, block: string)
    requires First(before + rest, BeginMarker(key), |before|) && First(rest, END_MARKER, e) && WellFormed(key, block)
    ensures Replace(before + rest, key, block) == before + block + rest[e + |END_MARKER|..]
    ensures Holds(key, before, block, rest[e + |END_MARKER|..])
  {
    var older, after := rest[..e + |END_MARKER|], rest[e + |END_MARKER|..];
    Terminated(key, before, rest, e, block);
    assert before + rest == before + older + after;
    ReplaceKeepsTheRest(key, before, older, after, block);
  }

  /** Every replacement leaves a file that holds the block, with nothing else of that key in
      front of it. */
  lemma ReplaceHolds(content: string, key: string, block: string) returns (before: string, after: string)
    requires '\n' !in key && WellFormed(key, block)
    ensures Replace(content, key, block) == before + block + after && Holds(key, before, block, after)
  {
    IndexIsFirst(content, BeginMarker(key));
    match Index(content, BeginMarker(key))
    case None =>
      ReplaceAdds(content, key, block);
      before, after := Added(content), "\n";
    case Some(start) =>
      before := content[..start];
      var rest := content[start..];
      assert content == before + rest;
      IndexIsFirst(rest, END_MARKER);
      match Index(rest, END_MARKER)
      case None =>
        ReplaceUnterminated(key, before, rest, block);
        after := "\n";
      case Some(e) =>
        ReplaceTerminated(key, before, rest, e, block);
        after := rest[e + |END_MARKER|..];
  }

  /** Writing the pointer again changes nothing, whatever the file held before: no block, a
      block, or one that was left open. */
  lemma ReplaceTwice(content: string, key: string, block: string)
    requires '\n' !in key && WellFormed(key, block)
    ensures Replace(Replace(content, key, block), key, block) == Replace(content, key, block)
  {
    var before, after := ReplaceHolds(content, key, block);
    ReplaceKeepsTheRest(key, before, block, after, block);
  }

  // ---------------------------------------------------------------- the blocks of others

  /** Another key's block further down survives a replacement when the block in front of it is
      closed before it starts. */
  lemma BlockBelowSurvives(key: string, block: string, before: string, gap: string, other: string, after: string,
                           e: nat)
    requires First(before + gap, BeginMarker(key), |before|) && WellFormed(key, block) && First(gap, END_MARKER, e)
    ensures Replace(before + gap + other + after, key, block) == before + block + gap[e + |END_MARKER|..] + other
        + after
  {
    Terminated(key, before, gap, e, block);
    var older, rest := gap[..e + |END_MARKER|], gap[e + |END_MARKER|..];
    assert before + gap + other + after == before + older + (rest + other + after);
    assert Holds(key, before, older, rest + other + after);
    ReplaceKeepsTheRest(key, before, older, rest + other + after, block);
    assert before + block + (rest + other + after) == before + block + rest + other + after;
  }

  /** Nothing but the first character of an end marker opens a tag. */
  lemma EndMarkerOpensOnce()
    ensures forall k | 0 < k < |END_MARKER| :: END_MARKER[k] != '<'
  {
  }

  /** Behind a text without end marker, the first end marker is the one of the block. */
  lemma FirstEndBehind(gap: string, otherKey: string, other: string)
    requires NowhereIn(gap, END_MARKER) && WellFormed(otherKey, other)
    ensures First(gap + other, END_MARKER, |gap| + |other| - |END_MARKER|)
  {
    var both, last := gap + other, |other| - |END_MARKER|;
    assert other[0 + 0] == BeginMarker(otherKey)[0] == '<';
    EndMarkerOpensOnce();
    SameStart(gap, both, END_MARKER, |gap|);
    forall j: nat | |gap| <= j ensures At(both, END_MARKER, j) <==> At(other, END_MARKER, j - |gap|) {
      Suffix(gap, other, END_MARKER);
      MovedBy(gap, other, END_MARKER, j - |gap|);
    }
    forall j: nat | j < |gap| + last ensures !At(both, END_MARKER, j) {
      if j < |gap| < j + |END_MARKER| {
        assert END_MARKER[|gap| - j] != '<' && both[j + (|gap| - j)] == '<';
      }
    }
  }

  lemma MovedBy(before: string, rest: string, pattern: string, j: nat)
    ensures At(before + rest, pattern, |before| + j) <==> At(rest, pattern, j)
  {
    if j + |pattern| <= |rest| {
      assert forall k | 0 <= k < |pattern| :: (before + rest)[|before| + j + k] == pattern[k] <==>
          rest[j + k] == pattern[k];
    }
  }

  /** A block in front that was left open swallows it: the end marker of the other block is
      taken for the missing one. */
  lemma BlockBelowIsLost(key: string, block: string, before: string, gap: string, otherKey: string, other: string,
                         after: string)
    requires First(before + gap, BeginMarker(key), |before|) && WellFormed(key, block)
    requires NowhereIn(gap, END_MARKER) && WellFormed(otherKey, other)
    ensures Replace(before + gap + other + after, key, block) == before + block + after
  {
    var open := gap + other;
    FirstEndBehind(gap, otherKey, other);
    assert before + gap + other + after == before + open + after;
    assert before + gap <= before + open;
    FirstInLonger(before + gap, before + open, BeginMarker(key), |before|);
    Terminated(key, before, open, |open| - |END_MARKER|, block);
    assert open[..|open|] == open;
    ReplaceKeepsTheRest(key, before, open, after, block);
  }
}
