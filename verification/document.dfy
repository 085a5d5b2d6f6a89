/** What the paragraphs of a document are, in terms of its text alone. */
module DocumentText {
  import opened Chunking

  /** The characters that count as white space. */
  lemma SpacesAre(c: char)
    ensures IsSpace(c) <==>
            c as int in [0x09, 0x0a, 0x0b, 0x0c, 0x0d, 0x1c, 0x1d, 0x1e, 0x1f, 0x20, 0x85, 0xa0, 0x1680,
                         0x2000, 0x2001, 0x2002, 0x2003, 0x2004, 0x2005, 0x2006, 0x2007, 0x2008, 0x2009, 0x200a,
                         0x2028, 0x2029, 0x202f, 0x205f, 0x3000]
  {
  }

  /** A heading is one line that starts with the hash sign. */
  lemma HeadingIs(paragraph: string)
    ensures IsHeading(paragraph) <==>
            |paragraph| > 0 && paragraph[0] == '#' && forall i | 0 <= i < |paragraph| :: paragraph[i] != '\n'
  {
  }

  lemma {:induction false} LeftSpan(s: string) returns (n: nat)
    ensures n <= |s| && StripLeft(s) == s[n..] && forall i | 0 <= i < n :: IsSpace(s[i])
    ensures n < |s| ==> !IsSpace(s[n])
  {
    if s != [] && IsSpace(s[0]) {
      var m := LeftSpan(s[1..]);
      n := m + 1;
      forall i | 0 <= i < n ensures IsSpace(s[i]) {
        if i > 0 {
          assert s[i] == s[1..][i - 1];
        }
      }
    } else {
      n := 0;
    }
  }

  lemma {:induction false} RightSpan(s: string) returns (n: nat)
    ensures n <= |s| && StripRight(s) == s[..n] && forall i | n <= i < |s| :: IsSpace(s[i])
    ensures n > 0 ==> !IsSpace(s[n - 1])
  {
    if s != [] && IsSpace(s[|s| - 1]) {
      n := RightSpan(s[..|s| - 1]);
    } else {
      n := |s|;
    }
  }

  /** Stripping takes white space off both ends and nothing else. */
  lemma StripSpan(s: string) returns (from: nat, to: nat)
    ensures from <= to <= |s| && Strip(s) == s[from..to]
    ensures forall i | 0 <= i < |s| && !(from <= i < to) :: IsSpace(s[i])
    ensures from < to ==> !IsSpace(s[from]) && !IsSpace(s[to - 1])
  {
    from := LeftSpan(s);
    var n := RightSpan(s[from..]);
    to := from + n;
    forall i | to <= i < |s| ensures IsSpace(s[i]) {
      assert s[i] == s[from..][i - from];
    }
    if from < |s| {
      assert s[from..][0] == s[from];
    }
  }

  predicate NoBlankLine(p: string) {
    forall i | 0 <= i < |p| - 1 :: !(p[i] == '\n' && p[i + 1] == '\n')
  }

  lemma {:induction false} SplitFirstIsPrefix(text: string)
    ensures Split(text)[0] <= text
  {
    if |text| >= 2 && text[..2] != SEPARATOR {
      SplitFirstIsPrefix(text[1..]);
      assert text == [text[0]] + text[1..];
    }
  }

  /** No part has a blank line in it. */
  lemma {:induction false} PartsHaveNoBlankLine(text: string)
    ensures forall i | 0 <= i < |Split(text)| :: NoBlankLine(Split(text)[i])
  {
    if |text| < 2 {
    } else if text[..2] == SEPARATOR {
      PartsHaveNoBlankLine(text[2..]);
    } else {
      PartsHaveNoBlankLine(text[1..]);
      SplitFirstIsPrefix(text[1..]);
      var first := Split(text[1..])[0];
      assert text[..2] == [text[0], text[1]];
      assert NoBlankLine([text[0]] + first) by {
        forall i | 0 <= i < |first| ensures !(([text[0]] + first)[i] == '\n' && ([text[0]] + first)[i + 1] == '\n') {
          assert i > 0 ==> !(first[i - 1] == '\n' && first[i] == '\n');
          assert i == 0 ==> first[0] == text[1];
        }
      }
    }
  }

  // ----- Where the paragraphs are -----

  /** Paragraph `i` is found at its start. */
  ghost predicate InPlace(text: string, paragraphs: seq<string>, starts: seq<nat>, i: nat)
    requires i < |paragraphs| == |starts|
  {
    starts[i] + |paragraphs[i]| <= |text| && text[starts[i]..starts[i] + |paragraphs[i]|] == paragraphs[i]
  }

  ghost predicate Covers(paragraphs: seq<string>, starts: seq<nat>, i: nat, at: nat)
    requires i < |paragraphs| == |starts|
  {
    starts[i] <= at < starts[i] + |paragraphs[i]|
  }

  ghost predicate CoveredAt(paragraphs: seq<string>, starts: seq<nat>, at: nat)
    requires |starts| == |paragraphs|
  {
    exists i: nat :: i < |paragraphs| && Covers(paragraphs, starts, i, at)
  }

  predicate IsParagraph(p: string) {
    p != "" && !IsSpace(p[0]) && !IsSpace(p[|p| - 1]) && NoBlankLine(p)
  }

  ghost predicate BlankLineBetween(text: string, from: nat, to: nat) {
    exists at: nat :: from <= at && at + 2 <= to && at + 2 <= |text| && text[at] == '\n' && text[at + 1] == '\n'
  }

  /** A blank line, or more, separates paragraph `i` from the next. */
  ghost predicate Separated(text: string, paragraphs: seq<string>, starts: seq<nat>, i: nat)
    requires i + 1 < |paragraphs| == |starts|
  {
    BlankLineBetween(text, starts[i] + |paragraphs[i]|, starts[i + 1])
  }

  /**
   Where the paragraphs are in the text: `starts[i]` is the position of paragraph `i`. They come in order and do not
   overlap, have a blank line between any two of them and none inside, start and end with something else than white
   space, and leave out nothing but white space.
   */
  ghost predicate AreAt(text: string, paragraphs: seq<string>, starts: seq<nat>) {
    && |starts| == |paragraphs|
    && (forall i: nat | i < |paragraphs| :: InPlace(text, paragraphs, starts, i))
    && (forall i: nat | i < |paragraphs| :: IsParagraph(paragraphs[i]))
    && (forall i: nat | i + 1 < |paragraphs| :: Separated(text, paragraphs, starts, i))
    && (forall at: nat | at < |text| && !IsSpace(text[at]) :: CoveredAt(paragraphs, starts, at))
  }

  lemma {:induction false} KeepSnoc(parts: seq<string>, last: string)
    ensures KeepNonBlank(parts + [last]) == KeepNonBlank(parts) + (if Strip(last) != "" then [Strip(last)] else [])
  {
    if parts == [] {
      assert [last][1..] == [] && parts + [last] == [last];
    } else {
      assert (parts + [last])[1..] == parts[1..] + [last];
      KeepSnoc(parts[1..], last);
    }
  }

  lemma StillInPlace(text: string, more: string, paragraphs: seq<string>, starts: seq<nat>, p: string, at: nat, i: nat)
    requires i < |paragraphs| == |starts| && InPlace(text, paragraphs, starts, i)
    ensures InPlace(text + more, paragraphs + [p], starts + [at], i)
    ensures InPlace(text + more, paragraphs, starts, i)
  {
    var from, to := starts[i], starts[i] + |paragraphs[i]|;
    assert (text + more)[from..to] == text[from..to];
  }

  lemma StillBlank(text: string, more: string, from: nat, to: nat)
    requires BlankLineBetween(text, from, to)
    ensures BlankLineBetween(text + more, from, to)
  {
    var at: nat :| from <= at && at + 2 <= to && at + 2 <= |text| && text[at] == '\n' && text[at + 1] == '\n';
    assert (text + more)[at] == '\n' && (text + more)[at + 1] == '\n';
  }

  lemma StillCovered(paragraphs: seq<string>, starts: seq<nat>, p: string, start: nat, at: nat)
    requires |starts| == |paragraphs| && CoveredAt(paragraphs, starts, at)
    ensures CoveredAt(paragraphs + [p], starts + [start], at)
  {
    var i: nat :| i < |paragraphs| && Covers(paragraphs, starts, i, at);
    assert Covers(paragraphs + [p], starts + [start], i, at);
  }

  /** More white space adds no paragraph. */
  lemma MoreSpace(text: string, paragraphs: seq<string>, starts: seq<nat>, more: string)
    requires AreAt(text, paragraphs, starts) && forall i | 0 <= i < |more| :: IsSpace(more[i])
    ensures AreAt(text + more, paragraphs, starts)
  {
    forall i: nat | i < |paragraphs| ensures InPlace(text + more, paragraphs, starts, i) {
      StillInPlace(text, more, paragraphs, starts, "", 0, i);
    }
    forall i: nat | i + 1 < |paragraphs| ensures Separated(text + more, paragraphs, starts, i) {
      assert Separated(text, paragraphs, starts, i);
      StillBlank(text, more, starts[i] + |paragraphs[i]|, starts[i + 1]);
    }
    forall at: nat | at < |text + more| && !IsSpace((text + more)[at]) ensures CoveredAt(paragraphs, starts, at) {
      assert at < |text|;
      assert text[at] == (text + more)[at];
    }
  }

  /** A paragraph behind the text, and behind a blank line unless it is the first. */
  lemma MoreParagraph(text: string, paragraphs: seq<string>, starts: seq<nat>, p: string)
    requires AreAt(text, paragraphs, starts) && IsParagraph(p)
    requires paragraphs != [] ==>
               BlankLineBetween(text, starts[|starts| - 1] + |paragraphs[|paragraphs| - 1]|, |text|)
    ensures AreAt(text + p, paragraphs + [p], starts + [|text|])
  {
    var whole, more, starts' := text + p, paragraphs + [p], starts + [|text|];
    forall i: nat | i < |more| ensures InPlace(whole, more, starts', i) && IsParagraph(more[i]) {
      if i < |paragraphs| {
        StillInPlace(text, p, paragraphs, starts, p, |text|, i);
      } else {
        assert whole[|text|..|text| + |p|] == p;
      }
    }
    forall i: nat | i + 1 < |more| ensures Separated(whole, more, starts', i) {
      assert i + 1 < |paragraphs| ==> Separated(text, paragraphs, starts, i);
      StillBlank(text, p, starts[i] + |paragraphs[i]|, starts'[i + 1]);
    }
    forall at: nat | at < |whole| && !IsSpace(whole[at]) ensures CoveredAt(more, starts', at) {
      if at < |text| {
        assert text[at] == whole[at];
        StillCovered(paragraphs, starts, p, |text|, at);
      } else {
        assert Covers(more, starts', |paragraphs|, at);
      }
    }
  }

  /** The blank line that a separator puts behind the last paragraph. */
  lemma BlankLineBehind(text: string, paragraphs: seq<string>, starts: seq<nat>, more: string)
    requires AreAt(text, paragraphs, starts) && paragraphs != []
    ensures var from, whole := starts[|starts| - 1] + |paragraphs[|paragraphs| - 1]|, text + SEPARATOR + more;
            BlankLineBetween(whole, from, |whole|)
  {
    var whole := text + SEPARATOR + more;
    assert InPlace(text, paragraphs, starts, |paragraphs| - 1);
    assert whole[|text|] == '\n' && whole[|text| + 1] == '\n';
  }

  /** One more part: the white space at its ends, and what is between, if anything. */
  lemma MorePart(text: string, paragraphs: seq<string>, starts: seq<nat>, part: string) returns (starts': seq<nat>)
    requires AreAt(text, paragraphs, starts) && NoBlankLine(part)
    requires paragraphs != [] ==>
               BlankLineBetween(text, starts[|starts| - 1] + |paragraphs[|paragraphs| - 1]|, |text|)
    ensures AreAt(text + part, paragraphs + (if Strip(part) != "" then [Strip(part)] else []), starts')
  {
    var from, to := StripSpan(part);
    assert part == part[..from] + part[from..to] + part[to..];
    if from == to {
      MoreSpace(text, paragraphs, starts, part);
      starts' := starts;
      assert paragraphs + [] == paragraphs;
    } else {
      PartOfPart(part, from, to);
      starts' := MoreTrimmed(text, paragraphs, starts, part[..from], part[from..to], part[to..]);
      assert text + part[..from] + part[from..to] + part[to..] == text + part;
    }
  }

  lemma MoreTrimmed(text: string, paragraphs: seq<string>, starts: seq<nat>, lead: string, p: string, trail: string)
    returns (starts': seq<nat>)
    requires AreAt(text, paragraphs, starts) && IsParagraph(p)
    requires forall i | 0 <= i < |lead| :: IsSpace(lead[i])
    requires forall i | 0 <= i < |trail| :: IsSpace(trail[i])
    requires paragraphs != [] ==>
               BlankLineBetween(text, starts[|starts| - 1] + |paragraphs[|paragraphs| - 1]|, |text|)
    ensures AreAt(text + lead + p + trail, paragraphs + [p], starts')
  {
    MoreSpace(text, paragraphs, starts, lead);
    if paragraphs != [] {
      FurtherOn(text, lead, starts[|starts| - 1] + |paragraphs[|paragraphs| - 1]|);
    }
    MoreParagraph(text + lead, paragraphs, starts, p);
    starts' := starts + [|text + lead|];
    MoreSpace(text + lead + p, paragraphs + [p], starts', trail);
  }

  lemma FurtherOn(text: string, more: string, from: nat)
    requires BlankLineBetween(text, from, |text|)
    ensures BlankLineBetween(text + more, from, |text + more|)
  {
    StillBlank(text, more, from, |text|);
  }

  lemma PartOfPart(part: string, from: nat, to: nat)
    requires from <= to <= |part| && NoBlankLine(part)
    ensures NoBlankLine(part[from..to])
  {
    forall i | 0 <= i < to - from - 1 ensures !(part[from..to][i] == '\n' && part[from..to][i + 1] == '\n') {
      assert part[from..to][i] == part[from + i] && part[from..to][i + 1] == part[from + i + 1];
    }
  }

  lemma {:induction false} PartsAreAt(parts: seq<string>) returns (starts: seq<nat>)
    requires parts != [] && forall i | 0 <= i < |parts| :: NoBlankLine(parts[i])
    ensures AreAt(Join(parts), KeepNonBlank(parts), starts)
  {
    var init, last := parts[..|parts| - 1], parts[|parts| - 1];
    assert parts == init + [last];
    KeepSnoc(init, last);
    if init == [] {
      assert KeepNonBlank(init) == [];
      starts := MorePart("", [], [], last);
      assert "" + last == last;
    } else {
      starts := PartsAreAt(init);
      NextPart(Join(init), KeepNonBlank(init), starts);
      starts := MorePart(Join(init) + SEPARATOR, KeepNonBlank(init), starts, last);
      JoinSnoc(init, last);
    }
  }

  lemma NextPart(text: string, paragraphs: seq<string>, starts: seq<nat>)
    requires AreAt(text, paragraphs, starts)
    ensures AreAt(text + SEPARATOR, paragraphs, starts)
    ensures paragraphs != [] ==>
              BlankLineBetween(text + SEPARATOR, starts[|starts| - 1] + |paragraphs[|paragraphs| - 1]|,
                               |text + SEPARATOR|)
  {
    MoreSpace(text, paragraphs, starts, SEPARATOR);
    if paragraphs != [] {
      BlankLineBehind(text, paragraphs, starts, "");
      assert text + SEPARATOR + "" == text + SEPARATOR;
    }
  }

  /** The paragraphs of every document are where they should be in its text. */
  lemma ParagraphsAre(text: string) returns (starts: seq<nat>)
    ensures AreAt(text, Paragraphs(text), starts)
  {
    PartsHaveNoBlankLine(text);
    JoinSplit(text);
    starts := PartsAreAt(Split(text));
  }

  // ----- There is only one way -----

  function End(paragraphs: seq<string>, starts: seq<nat>, i: nat): nat
    requires i < |paragraphs| == |starts|
  {
    starts[i] + |paragraphs[i]|
  }

  lemma {:induction false} OneAfterTheOther(text: string, paragraphs: seq<string>, starts: seq<nat>, i: nat, j: nat)
    requires AreAt(text, paragraphs, starts) && i < j < |paragraphs|
    ensures End(paragraphs, starts, i) < starts[j]
    decreases j - i
  {
    assert Separated(text, paragraphs, starts, i);
    if i + 1 < j {
      OneAfterTheOther(text, paragraphs, starts, i + 1, j);
    }
  }

  /** What is not white space before position `to` lies in a paragraph that starts there or earlier. */
  lemma ParagraphAt(text: string, paragraphs: seq<string>, starts: seq<nat>, at: nat) returns (i: nat)
    requires AreAt(text, paragraphs, starts) && at < |text| && !IsSpace(text[at])
    ensures i < |paragraphs| && starts[i] <= at < End(paragraphs, starts, i)
  {
    assert CoveredAt(paragraphs, starts, at);
    i :| i < |paragraphs| && Covers(paragraphs, starts, i, at);
  }

  lemma EndsInText(text: string, paragraphs: seq<string>, starts: seq<nat>, i: nat)
    requires AreAt(text, paragraphs, starts) && i < |paragraphs|
    ensures End(paragraphs, starts, i) <= |text| && starts[i] < End(paragraphs, starts, i)
    ensures !IsSpace(text[starts[i]]) && !IsSpace(text[End(paragraphs, starts, i) - 1])
    ensures forall at | starts[i] <= at < End(paragraphs, starts, i) :: text[at] == paragraphs[i][at - starts[i]]
  {
    assert InPlace(text, paragraphs, starts, i) && IsParagraph(paragraphs[i]);
    forall at | starts[i] <= at < End(paragraphs, starts, i) ensures text[at] == paragraphs[i][at - starts[i]] {
      assert text[starts[i]..starts[i] + |paragraphs[i]|][at - starts[i]] == text[at];
    }
  }

  /** Up to paragraph `i`, both ways are the same. */
  ghost predicate SameBefore(paragraphs: seq<string>, starts: seq<nat>, other: seq<string>, starts': seq<nat>, i: nat) {
    && i <= |paragraphs| == |starts| && i <= |other| == |starts'|
    && paragraphs[..i] == other[..i] && starts[..i] == starts'[..i]
  }

  lemma SamePrevious(paragraphs: seq<string>, starts: seq<nat>, other: seq<string>, starts': seq<nat>, i: nat)
    requires SameBefore(paragraphs, starts, other, starts', i) && i > 0
    ensures End(paragraphs, starts, i - 1) == End(other, starts', i - 1)
  {
    assert paragraphs[..i][i - 1] == other[..i][i - 1] && starts[..i][i - 1] == starts'[..i][i - 1];
  }

  lemma NotLater(text: string, paragraphs: seq<string>, starts: seq<nat>, other: seq<string>, starts': seq<nat>, i: nat)
    requires AreAt(text, paragraphs, starts) && AreAt(text, other, starts')
    requires SameBefore(paragraphs, starts, other, starts', i) && i < |paragraphs|
    ensures i < |other| && starts'[i] <= starts[i]
  {
    EndsInText(text, paragraphs, starts, i);
    var j := ParagraphAt(text, other, starts', starts[i]);
    if j < i {
      SamePrevious(paragraphs, starts, other, starts', i);
      OneAfterTheOther(text, paragraphs, starts, i - 1, i);
      if j < i - 1 {
        OneAfterTheOther(text, other, starts', j, i - 1);
      }
    } else if i < j {
      OneAfterTheOther(text, other, starts', i, j);
    }
  }

  lemma NotLonger(text: string, paragraphs: seq<string>, starts: seq<nat>, other: seq<string>, starts': seq<nat>,
                  i: nat)
    requires AreAt(text, paragraphs, starts) && AreAt(text, other, starts')
    requires i < |paragraphs| && i < |other| && starts[i] == starts'[i]
    ensures |other[i]| <= |paragraphs[i]|
  {
    EndsInText(text, paragraphs, starts, i);
    EndsInText(text, other, starts', i);
    if |paragraphs[i]| < |other[i]| {
      var last := End(other, starts', i) - 1;
      var j := ParagraphAt(text, paragraphs, starts, last);
      if j < i {
        OneAfterTheOther(text, paragraphs, starts, j, i);
      } else if i < j {
        BlankLineInside(text, paragraphs, starts, i, j, other[i], last);
      }
    }
  }

  /** Between two paragraphs there is a blank line, so none covers both. */
  lemma BlankLineInside(text: string, paragraphs: seq<string>, starts: seq<nat>, i: nat, j: nat, p: string, last: nat)
    requires AreAt(text, paragraphs, starts) && i < j < |paragraphs|
    requires starts[j] <= last < starts[i] + |p| <= |text|
    requires forall at | starts[i] <= at < starts[i] + |p| :: text[at] == p[at - starts[i]]
    ensures !NoBlankLine(p)
  {
    assert Separated(text, paragraphs, starts, i);
    var from, to := End(paragraphs, starts, i), starts[i + 1];
    var at: nat :| from <= at && at + 2 <= to && at + 2 <= |text| && text[at] == '\n' && text[at + 1] == '\n';
    if i + 1 < j {
      OneAfterTheOther(text, paragraphs, starts, i + 1, j);
    }
    assert p[at - starts[i]] == '\n' && p[at - starts[i] + 1] == '\n';
  }

  lemma SameParagraph(text: string, paragraphs: seq<string>, starts: seq<nat>, other: seq<string>, starts': seq<nat>,
                      i: nat)
    requires AreAt(text, paragraphs, starts) && AreAt(text, other, starts')
    requires SameBefore(paragraphs, starts, other, starts', i) && i < |paragraphs|
    ensures SameBefore(paragraphs, starts, other, starts', i + 1)
  {
    NotLater(text, paragraphs, starts, other, starts', i);
    NotLater(text, other, starts', paragraphs, starts, i);
    NotLonger(text, paragraphs, starts, other, starts', i);
    NotLonger(text, other, starts', paragraphs, starts, i);
    assert InPlace(text, paragraphs, starts, i) && InPlace(text, other, starts', i);
    assert paragraphs[..i + 1] == paragraphs[..i] + [paragraphs[i]] && other[..i + 1] == other[..i] + [other[i]];
    assert starts[..i + 1] == starts[..i] + [starts[i]] && starts'[..i + 1] == starts'[..i] + [starts'[i]];
  }

  lemma {:induction false} AllTheSame(text: string, paragraphs: seq<string>, starts: seq<nat>,
                                      other: seq<string>, starts': seq<nat>, n: nat)
    requires AreAt(text, paragraphs, starts) && AreAt(text, other, starts') && n <= |paragraphs|
    ensures SameBefore(paragraphs, starts, other, starts', n)
  {
    if n > 0 {
      AllTheSame(text, paragraphs, starts, other, starts', n - 1);
      SameParagraph(text, paragraphs, starts, other, starts', n - 1);
    }
  }

  /** That description leaves nothing open: a text has one list of paragraphs. */
  lemma ParagraphsAreDetermined(text: string, paragraphs: seq<string>, starts: seq<nat>)
    requires AreAt(text, paragraphs, starts)
    ensures paragraphs == Paragraphs(text)
  {
    var starts' := ParagraphsAre(text);
    var other := Paragraphs(text);
    AllTheSame(text, paragraphs, starts, other, starts', |paragraphs|);
    AllTheSame(text, other, starts', paragraphs, starts, |other|);
    assert paragraphs[..|paragraphs|] == paragraphs && other[..|other|] == other;
  }

  // ----- Nothing is dropped -----

  function NonSpaces(s: string): string {
    if s == "" then "" else (if IsSpace(s[0]) then "" else [s[0]]) + NonSpaces(s[1..])
  }

  function Concat(parts: seq<string>): string {
    if parts == [] then "" else parts[0] + Concat(parts[1..])
  }

  lemma {:induction false} NonSpacesConcat(a: string, b: string)
    ensures NonSpaces(a + b) == NonSpaces(a) + NonSpaces(b)
  {
    if a == "" {
      assert a + b == b;
    } else {
      assert (a + b)[1..] == a[1..] + b;
      NonSpacesConcat(a[1..], b);
    }
  }

  lemma {:induction false} NoneButSpaces(s: string)
    requires forall i | 0 <= i < |s| :: IsSpace(s[i])
    ensures NonSpaces(s) == ""
  {
    if s != "" {
      NoneButSpaces(s[1..]);
    }
  }

  lemma NonSpacesOfStrip(s: string)
    ensures NonSpaces(Strip(s)) == NonSpaces(s)
  {
    var from, to := StripSpan(s);
    assert s == s[..from] + s[from..to] + s[to..];
    NonSpacesConcat(s[..from] + s[from..to], s[to..]);
    NonSpacesConcat(s[..from], s[from..to]);
    NoneButSpaces(s[..from]);
    NoneButSpaces(s[to..]);
  }

  lemma ConcatKept(part: string, rest: seq<string>)
    ensures Concat(KeepNonBlank([part] + rest)) == Strip(part) + Concat(KeepNonBlank(rest))
  {
    assert ([part] + rest)[1..] == rest;
    if Strip(part) == "" {
      assert KeepNonBlank([part] + rest) == KeepNonBlank(rest);
    } else {
      assert KeepNonBlank([part] + rest)[1..] == KeepNonBlank(rest);
    }
  }

  lemma SeparatorIsSpace()
    ensures forall i | 0 <= i < |SEPARATOR| :: IsSpace(SEPARATOR[i])
  {
  }

  lemma SpaceBehind(part: string, between: string)
    requires forall i | 0 <= i < |between| :: IsSpace(between[i])
    ensures NonSpaces(part + between) == NonSpaces(part)
  {
    NonSpacesConcat(part, between);
    NoneButSpaces(between);
  }

  lemma {:induction false} NonSpacesOfParts(parts: seq<string>)
    requires parts != []
    ensures NonSpaces(Join(parts)) == NonSpaces(Concat(KeepNonBlank(parts)))
  {
    var part, rest := parts[0], parts[1..];
    assert parts == [part] + rest;
    ConcatKept(part, rest);
    NonSpacesOfStrip(part);
    NonSpacesConcat(Strip(part), Concat(KeepNonBlank(rest)));
    if rest != [] {
      NonSpacesOfParts(rest);
      JoinFront(part, rest);
      SeparatorIsSpace();
      SpaceBehind(part, SEPARATOR);
      NonSpacesConcat(part + SEPARATOR, Join(rest));
    }
  }

  /** White space aside, the paragraphs one after the other are the text. */
  lemma NothingIsDropped(text: string)
    ensures NonSpaces(text) == NonSpaces(Concat(Paragraphs(text)))
  {
    JoinSplit(text);
    NonSpacesOfParts(Split(text));
  }
}
