/** Splitting a document into overlapping chunks of paragraphs (src/core/services/chunking.py). */
module Chunking {
  import opened Options

  // ----- Paragraphs -----

  /** What Python's `str.strip` removes. */
  predicate IsSpace(c: char) {
    var n := c as int;
    || 0x09 <= n <= 0x0d || 0x1c <= n <= 0x20 || n == 0x85 || n == 0xa0 || n == 0x1680
    || 0x2000 <= n <= 0x200a || n == 0x2028 || n == 0x2029 || n == 0x202f || n == 0x205f || n == 0x3000
  }

  function StripLeft(s: string): string {
    if s != [] && IsSpace(s[0]) then StripLeft(s[1..]) else s
  }

  function StripRight(s: string): string {
    if s != [] && IsSpace(s[|s| - 1]) then StripRight(s[..|s| - 1]) else s
  }

  function Strip(s: string): string { StripRight(StripLeft(s)) }

  const SEPARATOR: string := "\n\n"

  /** `text.split("\n\n")`. */
  function Split(text: string): (parts: seq<string>)
    ensures |parts| > 0
  {
    if |text| < 2 then [text]
    else if text[..2] == SEPARATOR then [""] + Split(text[2..])
    else
      var rest := Split(text[1..]);
      [[text[0]] + rest[0]] + rest[1..]
  }

  /** `"\n\n".join(parts)`. */
  function Join(parts: seq<string>): string {
    if parts == [] then ""
    else if |parts| == 1 then parts[0]
    else Join(parts[..|parts| - 1]) + SEPARATOR + parts[|parts| - 1]
  }

  function KeepNonBlank(parts: seq<string>): seq<string> {
    if parts == [] then []
    else (if Strip(parts[0]) != "" then [Strip(parts[0])] else []) + KeepNonBlank(parts[1..])
  }

  /** The stripped non-blank paragraphs, in order. */
  function Paragraphs(text: string): seq<string> {
    KeepNonBlank(Split(text))
  }

  predicate IsHeading(paragraph: string) {
    paragraph != "" && paragraph[0] == '#' && '\n' !in paragraph
  }

  lemma {:induction false} JoinFront(head: string, parts: seq<string>)
    requires parts != []
    ensures Join([head] + parts) == head + SEPARATOR + Join(parts)
  {
    if |parts| == 1 {
      assert ([head] + parts)[..1] == [head];
    } else {
      JoinFront(head, parts[..|parts| - 1]);
      assert ([head] + parts)[..|parts|] == [head] + parts[..|parts| - 1];
    }
  }

  lemma JoinPrepend(c: char, parts: seq<string>)
    requires parts != []
    ensures Join([[c] + parts[0]] + parts[1..]) == [c] + Join(parts)
  {
    var head, rest := [c] + parts[0], parts[1..];
    assert parts == [parts[0]] + rest;
    if rest != [] {
      JoinFront(parts[0], rest);
      JoinFront(head, rest);
    }
  }

  /** Splitting loses nothing. */
  lemma {:induction false} JoinSplit(text: string)
    ensures Join(Split(text)) == text
  {
    if |text| < 2 {
    } else if text[..2] == SEPARATOR {
      JoinSplit(text[2..]);
      JoinFront("", Split(text[2..]));
      assert text == text[..2] + text[2..];
    } else {
      JoinSplit(text[1..]);
      JoinPrepend(text[0], Split(text[1..]));
      assert text == [text[0]] + text[1..];
    }
  }

  lemma JoinSnoc(parts: seq<string>, last: string)
    requires parts != []
    ensures Join(parts + [last]) == Join(parts) + SEPARATOR + last
  {
    assert (parts + [last])[..|parts|] == parts;
  }

  // ----- What the chunks of a document are -----

  /** `finished[-overlap:] if overlap else ""`. */
  function Tail(finished: string, overlap: int): string {
    if overlap == 0 then ""
    else if overlap > 0 then if overlap >= |finished| then finished else finished[|finished| - overlap..]
    else if -overlap >= |finished| then "" else finished[-overlap..]
  }

  /** The text that chunk `j` repeats from the chunk before it. */
  function Prefix(chunks: seq<string>, j: nat, overlap: int): string
    requires j <= |chunks|
  {
    if j == 0 then "" else Tail(chunks[j - 1], overlap)
  }

  function Pieces(prefix: string, group: seq<string>): seq<string> {
    (if prefix != "" then [prefix] else []) + group
  }

  function Flatten(groups: seq<seq<string>>): seq<string> {
    if groups == [] then [] else Flatten(groups[..|groups| - 1]) + groups[|groups| - 1]
  }

  /** Chunk `j` is its overlap followed by its own run of paragraphs. */
  predicate TextOk(chunks: seq<string>, groups: seq<seq<string>>, j: nat, overlap: int)
    requires j < |chunks| == |groups|
  {
    chunks[j] == Join(Pieces(Prefix(chunks, j, overlap), groups[j]))
  }

  /** Only a single paragraph, with at most a carried heading before it, may exceed the size. */
  predicate MayExceed(group: seq<string>, carried: bool) {
    |group| == 1 || (|group| == 2 && carried)
  }

  predicate SizeOk(chunks: seq<string>, groups: seq<seq<string>>, carries: seq<bool>, j: nat, size: int)
    requires j < |chunks| == |groups| && j < |carries|
  {
    |chunks[j]| > size ==> MayExceed(groups[j], carries[j])
  }

  /** A chunk that is not the last could not have taken what follows it (at `start`) as well. */
  predicate Full(paragraphs: seq<string>, start: nat, prefix: string, group: seq<string>, size: int) {
    || (start < |paragraphs| && |Join(Pieces(prefix, group + [paragraphs[start]]))| > size)
    || (start + 1 < |paragraphs| && IsHeading(paragraphs[start])
        && |Join(Pieces(prefix, group + [paragraphs[start], paragraphs[start + 1]]))| > size)
  }

  predicate FullOk(paragraphs: seq<string>, chunks: seq<string>, groups: seq<seq<string>>, j: nat,
                   size: int, overlap: int)
    requires j < |chunks| == |groups|
  {
    Full(paragraphs, Start(groups, j + 1), Prefix(chunks, j, overlap), groups[j], size)
  }

  /** Where run `j` starts. */
  function Start(groups: seq<seq<string>>, j: nat): nat
    requires j <= |groups|
  {
    |Flatten(groups[..j])|
  }

  predicate EndsInHeading(group: seq<string>) {
    group != [] && IsHeading(group[|group| - 1])
  }

  /**
   The paragraph after a run was in its chunk and moved on: it fits there, or all the run is a heading that had
   moved itself and so took the next paragraph whatever its length, or moving it left the chunk its overlap only.
   */
  predicate Moves(paragraph: string, prefix: string, group: seq<string>, carried: bool, size: int) {
    group == [] || (|group| == 1 && carried) || |Join(Pieces(prefix, group + [paragraph]))| <= size
  }

  /**
   A run that is not the last, given whether it was started (`carried`) and followed (`next`) by a heading that
   moved: it is empty only behind an overlap, a heading that moved has something with it, and a heading is left
   at the end only where it is alone in its chunk or another heading has moved away from behind it.
   */
  predicate RunOk(prefix: string, group: seq<string>, carried: bool, next: bool) {
    && (group == [] ==> prefix != "" && next)
    && (carried ==> group != [] && IsHeading(group[0]) && (|group| > 1 || next))
    && (EndsInHeading(group) ==> (|group| == 1 && prefix == "") || next)
  }

  predicate LinkOk(paragraphs: seq<string>, chunks: seq<string>, groups: seq<seq<string>>, carries: seq<bool>, j: nat,
                   size: int, overlap: int)
    requires j < |chunks| == |groups| && j + 1 < |carries|
  {
    && Start(groups, j + 1) < |paragraphs|
    && (carries[j + 1] <==>
          Moves(paragraphs[Start(groups, j + 1)], Prefix(chunks, j, overlap), groups[j], carries[j], size))
    && RunOk(Prefix(chunks, j, overlap), groups[j], carries[j], carries[j + 1])
  }

  /**
   `groups` are the paragraphs of `chunks`, and `carries` says which runs start with a heading that was moved on
   from the chunk before.
   */
  ghost predicate AreChunks(chunks: seq<string>, groups: seq<seq<string>>, carries: seq<bool>, paragraphs: seq<string>,
                            size: int, overlap: int) {
    && |chunks| == |groups| == |carries|
    && Flatten(groups) == paragraphs
    && (paragraphs == [] ==> chunks == [])
    && (chunks != [] ==> !carries[0] && groups[0] != [] && LastOk(groups[|groups| - 1], carries[|carries| - 1]))
    && (forall j | 0 <= j < |chunks| :: TextOk(chunks, groups, j, overlap))
    && (overlap >= 0 ==> forall j | 0 <= j < |chunks| :: SizeOk(chunks, groups, carries, j, size))
    && (forall j | 0 <= j < |chunks| - 1 :: FullOk(paragraphs, chunks, groups, j, size, overlap))
    && (forall j | 0 <= j < |chunks| - 1 :: LinkOk(paragraphs, chunks, groups, carries, j, size, overlap))
  }

  predicate LastOk(group: seq<string>, carried: bool) {
    group != [] && (carried ==> |group| > 1 && IsHeading(group[0]))
  }

  // ----- The packing loop -----

  /** The finished chunks, their paragraphs, and whether the chunk after each starts with a moved heading. */
  ghost predicate DoneOk(paragraphs: seq<string>, size: int, overlap: int, chunks: seq<string>,
                         groups: seq<seq<string>>, carries: seq<bool>) {
    && |chunks| == |groups| && |carries| == |chunks| + 1 && !carries[0]
    && (forall j | 0 <= j < |chunks| :: TextOk(chunks, groups, j, overlap))
    && (overlap >= 0 ==> forall j | 0 <= j < |chunks| :: SizeOk(chunks, groups, carries, j, size))
    && (forall j | 0 <= j < |chunks| :: FullOk(paragraphs, chunks, groups, j, size, overlap))
    && (forall j | 0 <= j < |chunks| :: LinkOk(paragraphs, chunks, groups, carries, j, size, overlap))
  }

  /** The current chunk, after `i` paragraphs; `group` are its own, and `carry` says how it started. */
  ghost predicate CurrentOk(paragraphs: seq<string>, size: int, overlap: int, i: nat, chunks: seq<string>,
                            current: seq<string>, groups: seq<seq<string>>, group: seq<string>, carry: bool) {
    && i <= |paragraphs|
    && (i == 0 ==> chunks == [] && group == [])
    && (i > 0 ==> LastOk(group, carry))
    && current == Pieces(Prefix(chunks, |chunks|, overlap), group)
    && Flatten(groups) + group == paragraphs[..i]
    && (group != [] && |Join(current)| > size ==> MayExceed(group, carry))
  }

  ghost predicate Packing(paragraphs: seq<string>, size: int, overlap: int, i: nat, chunks: seq<string>,
                          current: seq<string>, groups: seq<seq<string>>, group: seq<string>, carries: seq<bool>) {
    && DoneOk(paragraphs, size, overlap, chunks, groups, carries)
    && CurrentOk(paragraphs, size, overlap, i, chunks, current, groups, group, carries[|chunks|])
  }

  lemma PackAppend(paragraphs: seq<string>, size: int, overlap: int, i: nat, chunks: seq<string>,
                   current: seq<string>, groups: seq<seq<string>>, group: seq<string>, carry: bool)
    requires CurrentOk(paragraphs, size, overlap, i, chunks, current, groups, group, carry) && i < |paragraphs|
    requires current == [] || |Join(current + [paragraphs[i]])| <= size
    requires i == 0 ==> !carry
    ensures CurrentOk(paragraphs, size, overlap, i + 1, chunks, current + [paragraphs[i]],
                      groups, group + [paragraphs[i]], carry)
  {
    assert paragraphs[..i + 1] == paragraphs[..i] + [paragraphs[i]];
    assert Flatten(groups) + (group + [paragraphs[i]]) == Flatten(groups) + group + [paragraphs[i]];
  }

  /** Finishing a chunk adds one to the list and leaves the earlier ones as they were. */
  lemma PackFinish(paragraphs: seq<string>, size: int, overlap: int, chunks: seq<string>,
                   groups: seq<seq<string>>, carries: seq<bool>, kept: seq<string>, next: bool, finished: string)
    requires DoneOk(paragraphs, size, overlap, chunks, groups, carries)
    requires finished == Join(Pieces(Prefix(chunks, |chunks|, overlap), kept))
    requires overlap >= 0 && |finished| > size ==> MayExceed(kept, carries[|chunks|])
    requires var start, prefix := |Flatten(groups) + kept|, Prefix(chunks, |chunks|, overlap);
             && Full(paragraphs, start, prefix, kept, size) && start < |paragraphs|
             && (next <==> Moves(paragraphs[start], prefix, kept, carries[|chunks|], size))
             && RunOk(prefix, kept, carries[|chunks|], next)
    ensures DoneOk(paragraphs, size, overlap, chunks + [finished], groups + [kept], carries + [next])
  {
    var chunks', groups', carries' := chunks + [finished], groups + [kept], carries + [next];
    forall j | 0 <= j < |chunks'|
      ensures TextOk(chunks', groups', j, overlap) && (overlap >= 0 ==> SizeOk(chunks', groups', carries', j, size))
      ensures FullOk(paragraphs, chunks', groups', j, size, overlap)
      ensures LinkOk(paragraphs, chunks', groups', carries', j, size, overlap)
    {
      if j < |chunks| {
        EarlierKept(paragraphs, size, overlap, chunks, groups, carries, kept, next, finished, j);
      } else {
        NewFinished(paragraphs, size, overlap, chunks, groups, carries, kept, next, finished);
      }
    }
    assert carries'[0] == carries[0];
  }

  lemma EarlierKept(paragraphs: seq<string>, size: int, overlap: int, chunks: seq<string>,
                    groups: seq<seq<string>>, carries: seq<bool>, kept: seq<string>, next: bool, finished: string,
                    j: nat)
    requires DoneOk(paragraphs, size, overlap, chunks, groups, carries) && j < |chunks|
    ensures TextOk(chunks + [finished], groups + [kept], j, overlap)
    ensures overlap >= 0 ==> SizeOk(chunks + [finished], groups + [kept], carries + [next], j, size)
    ensures FullOk(paragraphs, chunks + [finished], groups + [kept], j, size, overlap)
    ensures LinkOk(paragraphs, chunks + [finished], groups + [kept], carries + [next], j, size, overlap)
  {
    assert (groups + [kept])[..j + 1] == groups[..j + 1];
    assert TextOk(chunks, groups, j, overlap);
    assert overlap >= 0 ==> SizeOk(chunks, groups, carries, j, size);
    assert FullOk(paragraphs, chunks, groups, j, size, overlap);
    assert LinkOk(paragraphs, chunks, groups, carries, j, size, overlap);
  }

  lemma NewFinished(paragraphs: seq<string>, size: int, overlap: int, chunks: seq<string>,
                    groups: seq<seq<string>>, carries: seq<bool>, kept: seq<string>, next: bool, finished: string)
    requires |chunks| == |groups| && |carries| == |chunks| + 1
    requires finished == Join(Pieces(Prefix(chunks, |chunks|, overlap), kept))
    requires overlap >= 0 && |finished| > size ==> MayExceed(kept, carries[|chunks|])
    requires var start, prefix := |Flatten(groups) + kept|, Prefix(chunks, |chunks|, overlap);
             && Full(paragraphs, start, prefix, kept, size) && start < |paragraphs|
             && (next <==> Moves(paragraphs[start], prefix, kept, carries[|chunks|], size))
             && RunOk(prefix, kept, carries[|chunks|], next)
    ensures TextOk(chunks + [finished], groups + [kept], |chunks|, overlap)
    ensures overlap >= 0 ==> SizeOk(chunks + [finished], groups + [kept], carries + [next], |chunks|, size)
    ensures FullOk(paragraphs, chunks + [finished], groups + [kept], |chunks|, size, overlap)
    ensures LinkOk(paragraphs, chunks + [finished], groups + [kept], carries + [next], |chunks|, size, overlap)
  {
    var groups' := groups + [kept];
    assert groups'[..|groups|] == groups && groups'[..|groups| + 1] == groups';
    assert Prefix(chunks + [finished], |chunks|, overlap) == Prefix(chunks, |chunks|, overlap);
  }

  /** The kept part of a chunk obeys the size as the chunk did; a bare overlap is shorter than the size. */
  lemma KeptSize(prefix: string, group: seq<string>, kept: seq<string>, carried: seq<string>,
                 size: int, overlap: int, carry: bool)
    requires group != [] && group == kept + carried && |carried| <= 1
    requires |Join(Pieces(prefix, group))| > size ==> MayExceed(group, carry)
    requires |prefix| <= overlap < size
    ensures |Join(Pieces(prefix, kept))| > size ==> MayExceed(kept, carry)
  {
    if kept == [] {
      assert Pieces(prefix, kept) == if prefix != "" then [prefix] else [];
    } else if carried != [] {
      assert Pieces(prefix, group) == Pieces(prefix, kept) + [carried[0]];
      JoinSnoc(Pieces(prefix, kept), carried[0]);
    } else {
      assert kept == group;
    }
  }

  /** What the flush decides about the heading at the end of a run. */
  predicate Carries(current: seq<string>, carried: seq<string>) {
    carried == if |current| > 1 && IsHeading(current[|current| - 1]) then [current[|current| - 1]] else []
  }

  lemma FlushIsFull(paragraphs: seq<string>, size: int, i: nat, before: seq<string>, prefix: string,
                    current: seq<string>, kept: seq<string>, carried: seq<string>)
    requires i < |paragraphs| && before + kept + carried == paragraphs[..i]
    requires current == Pieces(prefix, kept + carried) && Carries(current, carried)
    requires |Join(current + [paragraphs[i]])| > size
    ensures Full(paragraphs, |before + kept|, prefix, kept, size)
  {
    var start := |before + kept|;
    PiecesSnoc(prefix, kept + carried, paragraphs[i]);
    assert |before + kept + carried| == i;
    if carried == [] {
      assert kept + carried == kept;
    } else {
      assert (before + kept + carried)[start] == carried[0];
      assert paragraphs[start] == paragraphs[..i][start];
      assert kept + carried + [paragraphs[i]] == kept + [paragraphs[start], paragraphs[i]];
    }
  }

  lemma PiecesSnoc(prefix: string, group: seq<string>, paragraph: string)
    ensures Pieces(prefix, group) + [paragraph] == Pieces(prefix, group + [paragraph])
  {
  }

  /** How the flush leaves the run it finishes. */
  lemma FlushLinks(paragraphs: seq<string>, size: int, i: nat, before: seq<string>, prefix: string,
                   current: seq<string>, kept: seq<string>, carried: seq<string>, carry: bool)
    requires i < |paragraphs| && before + kept + carried == paragraphs[..i]
    requires current == Pieces(prefix, kept + carried) && Carries(current, carried)
    requires LastOk(kept + carried, carry)
    requires |Join(current)| > size ==> MayExceed(kept + carried, carry)
    requires |Join(current + [paragraphs[i]])| > size
    ensures var start := |before + kept|;
            && start < |paragraphs|
            && (carried != [] <==> Moves(paragraphs[start], prefix, kept, carry, size))
            && RunOk(prefix, kept, carry, carried != [])
  {
    var start := |before + kept|;
    assert |before + kept + carried| == i;
    if carried == [] {
      assert kept + carried == kept;
      PiecesSnoc(prefix, kept, paragraphs[i]);
      assert kept != [] ==> current[|current| - 1] == kept[|kept| - 1];
    } else {
      assert (before + kept + carried)[start] == carried[0];
      assert paragraphs[start] == paragraphs[..i][start];
      assert carried == [paragraphs[start]];
    }
  }

  lemma PackFlush(paragraphs: seq<string>, size: int, overlap: int, i: nat, chunks: seq<string>,
                  current: seq<string>, groups: seq<seq<string>>, group: seq<string>, carries: seq<bool>,
                  kept: seq<string>, carried: seq<string>, finished: string)
    requires overlap < size
    requires Packing(paragraphs, size, overlap, i, chunks, current, groups, group, carries) && i < |paragraphs|
    requires current != [] && |Join(current + [paragraphs[i]])| > size
    requires group != [] && Carries(current, carried) && group == kept + carried
    requires finished == Join(Pieces(Prefix(chunks, |chunks|, overlap), kept))
    ensures Packing(paragraphs, size, overlap, i + 1, chunks + [finished],
                    Pieces(Tail(finished, overlap), carried + [paragraphs[i]]),
                    groups + [kept], carried + [paragraphs[i]], carries + [carried != []])
  {
    FlushDone(paragraphs, size, overlap, i, chunks, current, groups, group, carries, kept, carried, finished);
    FlushCurrent(paragraphs, size, overlap, i, chunks, current, groups, group, carries[|chunks|],
                 kept, carried, finished);
  }

  lemma FlushDone(paragraphs: seq<string>, size: int, overlap: int, i: nat, chunks: seq<string>,
                  current: seq<string>, groups: seq<seq<string>>, group: seq<string>, carries: seq<bool>,
                  kept: seq<string>, carried: seq<string>, finished: string)
    requires overlap < size
    requires Packing(paragraphs, size, overlap, i, chunks, current, groups, group, carries) && i < |paragraphs|
    requires current != [] && |Join(current + [paragraphs[i]])| > size
    requires group != [] && Carries(current, carried) && group == kept + carried
    requires finished == Join(Pieces(Prefix(chunks, |chunks|, overlap), kept))
    ensures DoneOk(paragraphs, size, overlap, chunks + [finished], groups + [kept], carries + [carried != []])
  {
    var prefix, carry := Prefix(chunks, |chunks|, overlap), carries[|chunks|];
    assert Flatten(groups) + kept + carried == Flatten(groups) + group;
    FlushIsFull(paragraphs, size, i, Flatten(groups), prefix, current, kept, carried);
    FlushLinks(paragraphs, size, i, Flatten(groups), prefix, current, kept, carried, carry);
    if overlap >= 0 {
      KeptSize(prefix, group, kept, carried, size, overlap, carry);
    }
    PackFinish(paragraphs, size, overlap, chunks, groups, carries, kept, carried != [], finished);
  }

  lemma FlushCurrent(paragraphs: seq<string>, size: int, overlap: int, i: nat, chunks: seq<string>,
                     current: seq<string>, groups: seq<seq<string>>, group: seq<string>, carry: bool,
                     kept: seq<string>, carried: seq<string>, finished: string)
    requires |chunks| == |groups|
    requires CurrentOk(paragraphs, size, overlap, i, chunks, current, groups, group, carry) && i < |paragraphs|
    requires group != [] && Carries(current, carried) && group == kept + carried
    ensures CurrentOk(paragraphs, size, overlap, i + 1, chunks + [finished],
                      Pieces(Tail(finished, overlap), carried + [paragraphs[i]]),
                      groups + [kept], carried + [paragraphs[i]], carried != [])
  {
    var groups', group' := groups + [kept], carried + [paragraphs[i]];
    assert groups'[..|groups|] == groups;
    assert Flatten(groups') == Flatten(groups) + kept;
    assert paragraphs[..i + 1] == paragraphs[..i] + [paragraphs[i]];
    assert Flatten(groups') + group' == Flatten(groups) + group + [paragraphs[i]];
  }

  /** The last chunk is finished with all of its paragraphs. */
  lemma PackEnd(paragraphs: seq<string>, size: int, overlap: int, chunks: seq<string>, current: seq<string>,
                groups: seq<seq<string>>, group: seq<string>, carries: seq<bool>)
    requires Packing(paragraphs, size, overlap, |paragraphs|, chunks, current, groups, group, carries)
    requires paragraphs != []
    ensures AreChunks(chunks + [Join(current)], groups + [group], carries, paragraphs, size, overlap)
  {
    var chunks', groups' := chunks + [Join(current)], groups + [group];
    assert groups'[..|groups|] == groups;
    assert paragraphs[..|paragraphs|] == paragraphs;
    assert chunks != [] ==> LinkOk(paragraphs, chunks, groups, carries, 0, size, overlap);
    forall j | 0 <= j < |chunks'| ensures TextOk(chunks', groups', j, overlap) {
      assert j < |chunks| ==> TextOk(chunks, groups, j, overlap);
    }
    if overlap >= 0 {
      forall j | 0 <= j < |chunks'| ensures SizeOk(chunks', groups', carries, j, size) {
        assert j < |chunks| ==> SizeOk(chunks, groups, carries, j, size);
      }
    }
    forall j | 0 <= j < |chunks|
      ensures FullOk(paragraphs, chunks', groups', j, size, overlap)
      ensures LinkOk(paragraphs, chunks', groups', carries, j, size, overlap)
    {
      assert groups'[..j + 1] == groups[..j + 1];
      assert FullOk(paragraphs, chunks, groups, j, size, overlap);
      assert LinkOk(paragraphs, chunks, groups, carries, j, size, overlap);
    }
  }

  /** One flush of the loop: what was finished, and what the next chunk starts with. */
  lemma PackNext(paragraphs: seq<string>, size: int, overlap: int, i: nat, chunks: seq<string>,
                 current: seq<string>, groups: seq<seq<string>>, group: seq<string>, carries: seq<bool>,
                 carried: seq<string>)
    returns (groups': seq<seq<string>>, group': seq<string>)
    requires overlap < size
    requires Packing(paragraphs, size, overlap, i, chunks, current, groups, group, carries) && i < |paragraphs|
    requires current != [] && |Join(current + [paragraphs[i]])| > size && Carries(current, carried)
    ensures var finished := Join(current[..|current| - |carried|]);
            Packing(paragraphs, size, overlap, i + 1, chunks + [finished],
                    Pieces(Tail(finished, overlap), carried + [paragraphs[i]]),
                    groups', group', carries + [carried != []])
  {
    var finished := Join(current[..|current| - |carried|]);
    assert i == 0 ==> current == [];
    CurrentSplit(paragraphs, size, overlap, i, chunks, current, groups, group, carries[|chunks|], carried);
    var kept := group[..|group| - |carried|];
    PackFlush(paragraphs, size, overlap, i, chunks, current, groups, group, carries, kept, carried, finished);
    groups', group' := groups + [kept], carried + [paragraphs[i]];
  }

  /** A heading at the end of a chunk moves to the next one, unless it is all there is. */
  method TakeHeading(current: seq<string>) returns (carried: seq<string>, rest: seq<string>)
    requires current != []
    ensures Carries(current, carried) && rest == current[..|current| - |carried|]
  {
    carried, rest := [], current;
    if |rest| > 1 && IsHeading(rest[|rest| - 1]) {
      carried := [rest[|rest| - 1]];
      rest := rest[..|rest| - 1];
    }
  }

  method StartNext(overlapTail: string, carried: seq<string>, paragraph: string) returns (current: seq<string>)
    ensures current == Pieces(overlapTail, carried + [paragraph])
  {
    current := if overlapTail != "" then [overlapTail] + carried + [paragraph] else carried + [paragraph];
    assert [overlapTail] + carried + [paragraph] == [overlapTail] + (carried + [paragraph]);
  }

  /** `chunk_markdown`; `None` stands for its ValueError. */
  method ChunkMarkdown(text: string, size: int, overlap: int) returns (result: Option<seq<string>>)
    ensures result.None? <==> overlap >= size
    ensures result.Some? ==>
              exists groups, carries :: AreChunks(result.value, groups, carries, Paragraphs(text), size, overlap)
  {
    if overlap >= size {
      return None;
    }
    var paragraphs := Paragraphs(text);
    if paragraphs == [] {
      assert AreChunks([], [], [], paragraphs, size, overlap);
      return Some([]);
    }
    var chunks := PackParagraphs(paragraphs, size, overlap);
    return Some(chunks);
  }

  /** The packing loop. */
  method PackParagraphs(paragraphs: seq<string>, size: int, overlap: int) returns (chunks: seq<string>)
    requires overlap < size && paragraphs != []
    ensures exists groups, carries :: AreChunks(chunks, groups, carries, paragraphs, size, overlap)
  {
    chunks := [];
    var current: seq<string> := [];
    ghost var groups, group: seq<string>, carries := [], [], [false];
    for i := 0 to |paragraphs|
      invariant Packing(paragraphs, size, overlap, i, chunks, current, groups, group, carries)
    {
      var candidate := Join(current + [paragraphs[i]]);
      if current == [] || |candidate| <= size {
        PackAppend(paragraphs, size, overlap, i, chunks, current, groups, group, carries[|chunks|]);
        current, group := current + [paragraphs[i]], group + [paragraphs[i]];
        continue;
      }
      chunks, current, groups, group, carries :=
        FinishChunk(paragraphs, size, overlap, i, chunks, current, groups, group, carries);
    }
    PackEnd(paragraphs, size, overlap, chunks, current, groups, group, carries);
    chunks := chunks + [Join(current)];
  }

  /** The end of an iteration: the current chunk is finished, and the paragraph starts the next one. */
  method FinishChunk(paragraphs: seq<string>, size: int, overlap: int, i: nat, chunks: seq<string>,
                     current: seq<string>, ghost groups: seq<seq<string>>, ghost group: seq<string>,
                     ghost carries: seq<bool>)
    returns (chunks': seq<string>, current': seq<string>, ghost groups': seq<seq<string>>, ghost group': seq<string>,
             ghost carries': seq<bool>)
    requires overlap < size
    requires Packing(paragraphs, size, overlap, i, chunks, current, groups, group, carries) && i < |paragraphs|
    requires current != [] && |Join(current + [paragraphs[i]])| > size
    ensures Packing(paragraphs, size, overlap, i + 1, chunks', current', groups', group', carries')
    ensures |chunks'| == |chunks| + 1 && chunks <= chunks' && paragraphs[i] in current'
  {
    var carried, rest := TakeHeading(current);
    groups', group' := PackNext(paragraphs, size, overlap, i, chunks, current, groups, group, carries, carried);
    carries' := carries + [carried != []];
    var finished := Join(rest);
    chunks' := chunks + [finished];
    current' := StartNext(Tail(finished, overlap), carried, paragraphs[i]);
    assert current'[|current'| - 1] == paragraphs[i];
  }

  /** Taking the carried heading off the chunk takes it off its own paragraphs. */
  lemma CurrentSplit(paragraphs: seq<string>, size: int, overlap: int, i: nat, chunks: seq<string>,
                     current: seq<string>, groups: seq<seq<string>>, group: seq<string>, carry: bool,
                     carried: seq<string>)
    requires CurrentOk(paragraphs, size, overlap, i, chunks, current, groups, group, carry)
    requires current != [] && Carries(current, carried) && (i == 0 ==> current == [])
    ensures |carried| <= |group| && group != []
    ensures var kept := group[..|group| - |carried|];
            && group == kept + carried
            && current[..|current| - |carried|] == Pieces(Prefix(chunks, |chunks|, overlap), kept)
  {
    var prefix := Prefix(chunks, |chunks|, overlap);
    assert carried != [] ==> group[|group| - 1] == carried[0];
  }

  // ----- What follows for every document -----

  /** A chunk without its overlap is the text of its own paragraphs; a chunk may hold nothing but its overlap. */
  lemma DroppingTheOverlap(chunks: seq<string>, groups: seq<seq<string>>, carries: seq<bool>, paragraphs: seq<string>,
                           size: int, overlap: int, j: nat)
    requires AreChunks(chunks, groups, carries, paragraphs, size, overlap) && j < |chunks|
    ensures var prefix := Prefix(chunks, j, overlap);
            chunks[j] == if prefix == "" then Join(groups[j])
                         else if groups[j] == [] then prefix
                         else prefix + SEPARATOR + Join(groups[j])
  {
    var prefix := Prefix(chunks, j, overlap);
    assert TextOk(chunks, groups, j, overlap);
    if prefix == "" {
      assert Pieces(prefix, groups[j]) == groups[j];
    } else if groups[j] == [] {
      assert Pieces(prefix, groups[j]) == [prefix];
    } else {
      JoinFront(prefix, groups[j]);
    }
  }

  lemma {:induction false} FlattenSplit(groups: seq<seq<string>>, j: nat)
    requires j < |groups|
    ensures Flatten(groups[..j + 1]) == Flatten(groups[..j]) + groups[j]
    ensures Flatten(groups[..j + 1]) <= Flatten(groups)
    decreases |groups|
  {
    assert groups[..j + 1][..j] == groups[..j];
    if j + 1 < |groups| {
      var init := groups[..|groups| - 1];
      FlattenSplit(init, j);
      assert init[..j + 1] == groups[..j + 1];
    } else {
      assert groups[..j + 1] == groups;
    }
  }

  lemma {:induction false} JoinAtLeast(parts: seq<string>, n: nat)
    requires n <= |parts|
    ensures |Join(parts[..n])| <= |Join(parts)|
  {
    if n < |parts| {
      var init := parts[..|parts| - 1];
      JoinAtLeast(init, n);
      assert init[..n] == parts[..n];
      assert init != [] ==> |Join(parts)| >= |Join(init)|;
    } else {
      assert parts[..n] == parts;
    }
  }

  /** Run `j` is the paragraphs from its start to the next one's. */
  lemma RunIsSlice(groups: seq<seq<string>>, j: nat)
    requires j < |groups|
    ensures Start(groups, j + 1) == Start(groups, j) + |groups[j]| <= |Flatten(groups)|
    ensures groups[j] == Flatten(groups)[Start(groups, j)..Start(groups, j + 1)]
  {
    FlattenSplit(groups, j);
  }

  /** What one run keeps to, whatever the other runs are; `last` says that no run follows it. */
  ghost predicate RunFacts(paragraphs: seq<string>, size: int, start: nat, prefix: string, carried: bool,
                           group: seq<string>, last: bool, next: bool) {
    var end := start + |group|;
    && end <= |paragraphs| && group == paragraphs[start..end]
    && (|Join(Pieces(prefix, group))| > size ==> MayExceed(group, carried))
    && (last ==> end == |paragraphs| && LastOk(group, carried) && !next)
    && (!last ==>
          && end < |paragraphs| && Full(paragraphs, end, prefix, group, size)
          && (next <==> Moves(paragraphs[end], prefix, group, carried, size)) && RunOk(prefix, group, carried, next))
    && (next ==> end + 1 < |paragraphs| && IsHeading(paragraphs[end]))
  }

  function Next(carries: seq<bool>, j: nat): bool {
    j + 1 < |carries| && carries[j + 1]
  }

  /** A heading that moved on is there, with something behind it. */
  lemma MovedHeading(chunks: seq<string>, groups: seq<seq<string>>, carries: seq<bool>, paragraphs: seq<string>,
                     size: int, overlap: int, j: nat)
    requires AreChunks(chunks, groups, carries, paragraphs, size, overlap) && 0 < j < |chunks| && carries[j]
    ensures groups[j] != [] && IsHeading(groups[j][0])
    ensures Start(groups, j) + 1 < |paragraphs| && paragraphs[Start(groups, j)] == groups[j][0]
  {
    RunIsSlice(groups, j);
    if j + 1 < |chunks| {
      assert LinkOk(paragraphs, chunks, groups, carries, j, size, overlap);
    }
  }

  lemma RunFactsHold(chunks: seq<string>, groups: seq<seq<string>>, carries: seq<bool>, paragraphs: seq<string>,
                     size: int, overlap: int, j: nat)
    requires AreChunks(chunks, groups, carries, paragraphs, size, overlap) && 0 <= overlap && j < |chunks|
    ensures Start(groups, j) <= |paragraphs|
    ensures RunFacts(paragraphs, size, Start(groups, j), Prefix(chunks, j, overlap), carries[j], groups[j],
                     j + 1 == |chunks|, Next(carries, j))
  {
    RunIsSlice(groups, j);
    assert TextOk(chunks, groups, j, overlap) && SizeOk(chunks, groups, carries, j, size);
    if j + 1 < |chunks| {
      assert FullOk(paragraphs, chunks, groups, j, size, overlap);
      assert LinkOk(paragraphs, chunks, groups, carries, j, size, overlap);
      if carries[j + 1] {
        MovedHeading(chunks, groups, carries, paragraphs, size, overlap, j + 1);
      }
    } else {
      assert groups[..j + 1] == groups;
    }
  }

  lemma JoinOfMore(prefix: string, group: seq<string>, more: seq<string>)
    requires group <= more
    ensures |Join(Pieces(prefix, group))| <= |Join(Pieces(prefix, more))|
  {
    var pieces := Pieces(prefix, more);
    assert Pieces(prefix, group) == pieces[..|Pieces(prefix, group)|];
    JoinAtLeast(pieces, |Pieces(prefix, group)|);
  }

  /** The exact size bound: over the size, a chunk is its overlap, one carried heading at most, one paragraph. */
  lemma LengthBound(chunks: seq<string>, groups: seq<seq<string>>, carries: seq<bool>, paragraphs: seq<string>,
                    size: int, overlap: int, j: nat)
    requires AreChunks(chunks, groups, carries, paragraphs, size, overlap) && 0 <= overlap < size && j < |chunks|
    ensures |chunks[j]| <= size
            || (|groups[j]| == 1 && |chunks[j]| <= overlap + 2 + |groups[j][0]|)
            || (|groups[j]| == 2 && j > 0 && IsHeading(groups[j][0])
                && |chunks[j]| <= overlap + 2 + |groups[j][0]| + 2 + |groups[j][1]|)
  {
    assert SizeOk(chunks, groups, carries, j, size);
    if j > 0 && carries[j] {
      MovedHeading(chunks, groups, carries, paragraphs, size, overlap, j);
    }
    DroppingTheOverlap(chunks, groups, carries, paragraphs, size, overlap, j);
    if |groups[j]| == 2 {
      JoinSnoc(groups[j][..1], groups[j][1]);
      assert groups[j] == groups[j][..1] + [groups[j][1]];
    }
  }

  // ----- No chunk is empty -----

  lemma {:induction false} JoinNotEmpty(parts: seq<string>)
    requires parts != [] && parts[0] != ""
    ensures Join(parts) != ""
  {
    JoinAtLeast(parts, 1);
  }

  lemma ChunksAreNotEmpty(chunks: seq<string>, groups: seq<seq<string>>, carries: seq<bool>, paragraphs: seq<string>,
                          size: int, overlap: int, j: nat)
    requires AreChunks(chunks, groups, carries, paragraphs, size, overlap) && j < |chunks|
    requires "" !in paragraphs
    ensures chunks[j] != ""
  {
    assert TextOk(chunks, groups, j, overlap);
    RunIsSlice(groups, j);
    if groups[j] == [] {
      assert LinkOk(paragraphs, chunks, groups, carries, j, size, overlap);
    } else {
      assert groups[j][0] == paragraphs[Start(groups, j)];
    }
    JoinNotEmpty(Pieces(Prefix(chunks, j, overlap), groups[j]));
  }

  // ----- The chunks are determined -----

  /** A longer run would hold a paragraph that does not fit. */
  lemma NotLongerWhereFull(paragraphs: seq<string>, size: int, start: nat, prefix: string, carried: bool,
                           group: seq<string>, last: bool, next: bool,
                           more: seq<string>, last': bool, next': bool)
    requires RunFacts(paragraphs, size, start, prefix, carried, group, last, next)
    requires RunFacts(paragraphs, size, start, prefix, carried, more, last', next')
    requires !last && |Join(Pieces(prefix, group + [paragraphs[start + |group|]]))| > size
    ensures |group| >= |more|
  {
    var p := paragraphs[start + |group|];
    if |group| < |more| {
      assert group + [p] == more[..|group| + 1];
      JoinOfMore(prefix, group + [p], more);
      assert MayExceed(more, carried) && next;
      assert IsHeading(p) && more[|more| - 1] == p;
      if !last' {
        JoinOfMore(prefix, more, more + [paragraphs[start + |more|]]);
      }
    }
  }

  /** Or a heading that was moved on. */
  lemma NotLongerWhereMoved(paragraphs: seq<string>, size: int, start: nat, prefix: string, carried: bool,
                            group: seq<string>, last: bool, next: bool,
                            more: seq<string>, last': bool, next': bool)
    requires RunFacts(paragraphs, size, start, prefix, carried, group, last, next)
    requires RunFacts(paragraphs, size, start, prefix, carried, more, last', next')
    requires !last && |Join(Pieces(prefix, group + [paragraphs[start + |group|]]))| <= size
    ensures |group| >= |more|
  {
    var end := start + |group|;
    assert group + [paragraphs[end]] == paragraphs[start..end + 1];
    assert group + [paragraphs[end]] + [paragraphs[end + 1]] == group + [paragraphs[end], paragraphs[end + 1]];
    assert group + [paragraphs[end], paragraphs[end + 1]] == paragraphs[start..end + 2];
    if |group| + 1 < |more| {
      JoinOfMore(prefix, paragraphs[start..end + 2], more);
    }
  }

  lemma RunIsDetermined(paragraphs: seq<string>, size: int, start: nat, prefix: string, carried: bool,
                        group: seq<string>, last: bool, next: bool, other: seq<string>, last': bool, next': bool)
    requires RunFacts(paragraphs, size, start, prefix, carried, group, last, next)
    requires RunFacts(paragraphs, size, start, prefix, carried, other, last', next')
    ensures |group| >= |other|
  {
    if !last {
      if |Join(Pieces(prefix, group + [paragraphs[start + |group|]]))| > size {
        NotLongerWhereFull(paragraphs, size, start, prefix, carried, group, last, next, other, last', next');
      } else {
        NotLongerWhereMoved(paragraphs, size, start, prefix, carried, group, last, next, other, last', next');
      }
    }
  }

  ghost predicate SameUpTo(chunks: seq<string>, groups: seq<seq<string>>, carries: seq<bool>,
                           chunks': seq<string>, groups': seq<seq<string>>, carries': seq<bool>, j: nat) {
    && j <= |chunks| == |groups| == |carries| && j <= |chunks'| == |groups'| == |carries'|
    && chunks[..j] == chunks'[..j] && groups[..j] == groups'[..j] && carries[..j] == carries'[..j]
    && (j < |chunks| && j < |chunks'| ==> carries[j] == carries'[j])
  }

  /** Two runs that start alike are alike. */
  lemma SameRun(chunks: seq<string>, groups: seq<seq<string>>, carries: seq<bool>,
                chunks': seq<string>, groups': seq<seq<string>>, carries': seq<bool>,
                paragraphs: seq<string>, size: int, overlap: int, j: nat)
    requires AreChunks(chunks, groups, carries, paragraphs, size, overlap) && 0 <= overlap
    requires AreChunks(chunks', groups', carries', paragraphs, size, overlap)
    requires j < |chunks| && j < |chunks'| && groups[..j] == groups'[..j] && carries[j] == carries'[j]
    requires Prefix(chunks, j, overlap) == Prefix(chunks', j, overlap)
    ensures groups[j] == groups'[j] && chunks[j] == chunks'[j]
    ensures j + 1 < |chunks| && j + 1 < |chunks'| ==> carries[j + 1] == carries'[j + 1]
  {
    var start, prefix := Start(groups, j), Prefix(chunks, j, overlap);
    RunFactsHold(chunks, groups, carries, paragraphs, size, overlap, j);
    RunFactsHold(chunks', groups', carries', paragraphs, size, overlap, j);
    RunIsDetermined(paragraphs, size, start, prefix, carries[j],
                    groups[j], j + 1 == |chunks|, Next(carries, j), groups'[j], j + 1 == |chunks'|, Next(carries', j));
    RunIsDetermined(paragraphs, size, start, prefix, carries[j],
                    groups'[j], j + 1 == |chunks'|, Next(carries', j), groups[j], j + 1 == |chunks|, Next(carries, j));
    assert TextOk(chunks, groups, j, overlap) && TextOk(chunks', groups', j, overlap);
  }

  lemma PrefixSnoc<T>(s: seq<T>, s': seq<T>, j: nat)
    requires j < |s| && j < |s'| && s[..j] == s'[..j] && s[j] == s'[j]
    ensures s[..j + 1] == s'[..j + 1]
  {
    assert s[..j + 1] == s[..j] + [s[j]] && s'[..j + 1] == s'[..j] + [s'[j]];
  }

  lemma SameNext(chunks: seq<string>, groups: seq<seq<string>>, carries: seq<bool>,
                 chunks': seq<string>, groups': seq<seq<string>>, carries': seq<bool>,
                 paragraphs: seq<string>, size: int, overlap: int, j: nat)
    requires AreChunks(chunks, groups, carries, paragraphs, size, overlap) && 0 <= overlap
    requires AreChunks(chunks', groups', carries', paragraphs, size, overlap)
    requires SameUpTo(chunks, groups, carries, chunks', groups', carries', j) && j < |chunks| && j < |chunks'|
    ensures SameUpTo(chunks, groups, carries, chunks', groups', carries', j + 1)
  {
    assert j > 0 ==> chunks[..j][j - 1] == chunks'[..j][j - 1];
    SameRun(chunks, groups, carries, chunks', groups', carries', paragraphs, size, overlap, j);
    PrefixSnoc(chunks, chunks', j);
    PrefixSnoc(groups, groups', j);
    PrefixSnoc(carries, carries', j);
  }

  lemma {:induction false} SameAsFarAsBothGo(chunks: seq<string>, groups: seq<seq<string>>, carries: seq<bool>,
                                             chunks': seq<string>, groups': seq<seq<string>>, carries': seq<bool>,
                                             paragraphs: seq<string>, size: int, overlap: int, j: nat)
    requires AreChunks(chunks, groups, carries, paragraphs, size, overlap) && 0 <= overlap
    requires AreChunks(chunks', groups', carries', paragraphs, size, overlap)
    requires j <= |chunks| && j <= |chunks'|
    ensures SameUpTo(chunks, groups, carries, chunks', groups', carries', j)
  {
    if j > 0 {
      SameAsFarAsBothGo(chunks, groups, carries, chunks', groups', carries', paragraphs, size, overlap, j - 1);
      SameNext(chunks, groups, carries, chunks', groups', carries', paragraphs, size, overlap, j - 1);
    }
  }

  lemma NotFewer(chunks: seq<string>, groups: seq<seq<string>>, carries: seq<bool>,
                 chunks': seq<string>, groups': seq<seq<string>>, carries': seq<bool>,
                 paragraphs: seq<string>, size: int, overlap: int)
    requires AreChunks(chunks, groups, carries, paragraphs, size, overlap) && 0 <= overlap
    requires AreChunks(chunks', groups', carries', paragraphs, size, overlap)
    ensures |chunks| >= |chunks'|
  {
    var n := |chunks|;
    assert groups[..n] == groups;
    if n < |chunks'| {
      SameAsFarAsBothGo(chunks, groups, carries, chunks', groups', carries', paragraphs, size, overlap, n);
      MoreToCome(chunks', groups', carries', paragraphs, size, overlap, n);
    }
  }

  lemma MoreToCome(chunks: seq<string>, groups: seq<seq<string>>, carries: seq<bool>, paragraphs: seq<string>,
                   size: int, overlap: int, j: nat)
    requires AreChunks(chunks, groups, carries, paragraphs, size, overlap) && j < |chunks|
    ensures Start(groups, j) < |paragraphs|
  {
    if j > 0 {
      assert LinkOk(paragraphs, chunks, groups, carries, j - 1, size, overlap);
    } else {
      assert groups[..0] == [];
    }
  }

  /** The description leaves nothing open: a document has one list of chunks for a size and an overlap. */
  lemma ChunksAreDetermined(chunks: seq<string>, groups: seq<seq<string>>, carries: seq<bool>,
                            chunks': seq<string>, groups': seq<seq<string>>, carries': seq<bool>,
                            paragraphs: seq<string>, size: int, overlap: int)
    requires AreChunks(chunks, groups, carries, paragraphs, size, overlap) && 0 <= overlap
    requires AreChunks(chunks', groups', carries', paragraphs, size, overlap)
    ensures chunks == chunks' && groups == groups' && carries == carries'
  {
    NotFewer(chunks, groups, carries, chunks', groups', carries', paragraphs, size, overlap);
    NotFewer(chunks', groups', carries', chunks, groups, carries, paragraphs, size, overlap);
    SameAsFarAsBothGo(chunks, groups, carries, chunks', groups', carries', paragraphs, size, overlap, |chunks|);
    assert chunks[..|chunks|] == chunks && chunks'[..|chunks|] == chunks';
    assert groups[..|chunks|] == groups && groups'[..|chunks|] == groups';
    assert carries[..|chunks|] == carries && carries'[..|chunks|] == carries';
  }

  // ----- Headings at the end of a chunk -----

  /** The run starts with a heading that did not fit before, has nothing before it, and does not take the next one. */
  predicate Alone(paragraphs: seq<string>, start: nat, prefix: string, carried: bool, size: int) {
    && !carried && prefix == "" && start + 1 < |paragraphs| && IsHeading(paragraphs[start])
    && |Join([paragraphs[start], paragraphs[start + 1]])| > size
  }

  /** The cut is between two headings, of which the second moved on. */
  predicate CutBetween(paragraphs: seq<string>, start: nat, end: nat, next: bool) {
    next && start < end < |paragraphs| && IsHeading(paragraphs[end - 1]) && IsHeading(paragraphs[end])
  }

  /**
   The documentation says that a heading never ends a chunk. For every document, size and overlap, a chunk before
   the last does end in a heading if and only if that heading is alone in it, having fitted neither into the chunk
   before nor beside what follows it, or the cut is between two adjacent headings.
   */
  lemma HeadingEndsExactlyWhen(chunks: seq<string>, groups: seq<seq<string>>, carries: seq<bool>,
                               paragraphs: seq<string>, size: int, overlap: int, j: nat)
    requires AreChunks(chunks, groups, carries, paragraphs, size, overlap) && 0 <= overlap < size
    requires j + 1 < |chunks|
    ensures EndsInHeading(groups[j]) <==>
            || Alone(paragraphs, Start(groups, j), Prefix(chunks, j, overlap), carries[j], size)
            || CutBetween(paragraphs, Start(groups, j), Start(groups, j + 1), carries[j + 1])
  {
    RunFactsHold(chunks, groups, carries, paragraphs, size, overlap, j);
    RunIsSlice(groups, j);
    RunEndsInHeading(paragraphs, size, Start(groups, j), Prefix(chunks, j, overlap), carries[j], groups[j],
                     carries[j + 1]);
  }

  lemma RunEndsInHeading(paragraphs: seq<string>, size: int, start: nat, prefix: string, carried: bool,
                         group: seq<string>, next: bool)
    requires RunFacts(paragraphs, size, start, prefix, carried, group, false, next)
    ensures EndsInHeading(group) <==>
            Alone(paragraphs, start, prefix, carried, size) || CutBetween(paragraphs, start, start + |group|, next)
  {
    if EndsInHeading(group) {
      LeftBehindIs(paragraphs, size, start, prefix, carried, group, next);
    } else if Alone(paragraphs, start, prefix, carried, size) {
      AloneIsShort(paragraphs, size, start, prefix, carried, group, next);
    }
  }

  lemma LeftBehindIs(paragraphs: seq<string>, size: int, start: nat, prefix: string, carried: bool,
                     group: seq<string>, next: bool)
    requires RunFacts(paragraphs, size, start, prefix, carried, group, false, next) && EndsInHeading(group)
    ensures Alone(paragraphs, start, prefix, carried, size) || CutBetween(paragraphs, start, start + |group|, next)
  {
    assert group[|group| - 1] == paragraphs[start + |group| - 1];
    if |group| == 1 && prefix == "" {
      assert Pieces(prefix, group + [paragraphs[start + 1]]) == [paragraphs[start], paragraphs[start + 1]];
    }
  }

  lemma AloneIsShort(paragraphs: seq<string>, size: int, start: nat, prefix: string, carried: bool,
                     group: seq<string>, next: bool)
    requires RunFacts(paragraphs, size, start, prefix, carried, group, false, next)
    requires Alone(paragraphs, start, prefix, carried, size)
    ensures group == [paragraphs[start]]
  {
    assert Pieces(prefix, group) == group;
    if |group| > 1 {
      FirstTwo(group);
    }
  }

  lemma FirstTwo(group: seq<string>)
    requires |group| > 1
    ensures |Join([group[0], group[1]])| <= |Join(group)|
  {
    JoinAtLeast(group, 2);
    assert group[..2] == [group[0], group[1]];
  }

  ghost predicate NoAdjacentHeadings(paragraphs: seq<string>) {
    forall i | 0 <= i < |paragraphs| - 1 :: IsHeading(paragraphs[i]) ==> !IsHeading(paragraphs[i + 1])
  }

  ghost predicate SomeChunkEndsInHeading(groups: seq<seq<string>>) {
    exists j :: 0 <= j < |groups| - 1 && EndsInHeading(groups[j])
  }

  /** Where headings are apart and chunks overlap, only the heading that opens the document can be left behind. */
  lemma HeadingLeftBehind(chunks: seq<string>, groups: seq<seq<string>>, carries: seq<bool>, paragraphs: seq<string>,
                          size: int, overlap: int, j: nat)
    requires AreChunks(chunks, groups, carries, paragraphs, size, overlap) && 0 < overlap < size
    requires "" !in paragraphs && NoAdjacentHeadings(paragraphs)
    requires j < |groups| - 1 && EndsInHeading(groups[j])
    ensures j == 0 && |groups[0]| == 1 && |paragraphs| > 1 && groups[0][0] == paragraphs[0]
    ensures |Join(paragraphs[..2])| > size
  {
    HeadingEndsExactlyWhen(chunks, groups, carries, paragraphs, size, overlap, j);
    RunFactsHold(chunks, groups, carries, paragraphs, size, overlap, j);
    if j > 0 {
      ChunksAreNotEmpty(chunks, groups, carries, paragraphs, size, overlap, j - 1);
    }
    assert groups[..0] == [];
    assert [paragraphs[0], paragraphs[1]] == paragraphs[..2];
  }

  /**
   For a document whose headings are apart and chunks that overlap, some chunk before the last ends in a heading
   exactly when the document opens with a heading that does not fit beside its first paragraph.
   */
  lemma HeadingEndsAChunkIff(chunks: seq<string>, groups: seq<seq<string>>, carries: seq<bool>, paragraphs: seq<string>,
                             size: int, overlap: int)
    requires AreChunks(chunks, groups, carries, paragraphs, size, overlap) && 0 < overlap < size
    requires "" !in paragraphs && NoAdjacentHeadings(paragraphs)
    ensures SomeChunkEndsInHeading(groups) <==>
            |paragraphs| > 1 && IsHeading(paragraphs[0]) && |Join(paragraphs[..2])| > size
  {
    if SomeChunkEndsInHeading(groups) {
      var j :| 0 <= j < |groups| - 1 && EndsInHeading(groups[j]);
      HeadingLeftBehind(chunks, groups, carries, paragraphs, size, overlap, j);
    } else if |paragraphs| > 1 && IsHeading(paragraphs[0]) && |Join(paragraphs[..2])| > size {
      OpeningHeadingIsAlone(chunks, groups, carries, paragraphs, size, overlap);
    }
  }

  /** An opening heading that does not fit beside what follows it is left behind, whatever the overlap. */
  lemma OpeningHeadingIsAlone(chunks: seq<string>, groups: seq<seq<string>>, carries: seq<bool>,
                              paragraphs: seq<string>, size: int, overlap: int)
    requires AreChunks(chunks, groups, carries, paragraphs, size, overlap) && 0 <= overlap < size
    requires |paragraphs| > 1 && IsHeading(paragraphs[0]) && |Join(paragraphs[..2])| > size
    ensures SomeChunkEndsInHeading(groups)
  {
    assert groups != [] && groups[..0] == [];
    assert [paragraphs[0], paragraphs[1]] == paragraphs[..2];
    assert Pieces("", groups[0]) == groups[0];
    if |groups| > 1 {
      HeadingEndsExactlyWhen(chunks, groups, carries, paragraphs, size, overlap, 0);
    } else {
      RunFactsHold(chunks, groups, carries, paragraphs, size, overlap, 0);
      assert groups == [groups[0]];
      assert groups[..1] == groups;
      JoinAtLeast(paragraphs, 2);
    }
  }

  /** No paragraph of a document is blank, so what is said above holds of the chunks of every text. */
  lemma {:induction false} ParagraphsAreNotBlank(parts: seq<string>)
    ensures "" !in KeepNonBlank(parts)
  {
    if parts != [] {
      ParagraphsAreNotBlank(parts[1..]);
    }
  }

  // ----- The chunks in figures -----

  /** Joining puts one blank line between any two neighbours. */
  lemma JoinIs(parts: seq<string>, last: string)
    ensures Join([]) == "" && Join([last]) == last
    ensures parts != [] ==> Join(parts + [last]) == Join(parts) + ['\n', '\n'] + last
  {
    if parts != [] {
      JoinSnoc(parts, last);
    }
  }

  /** Each chunk after the first starts with the last `overlap` characters of the one before, or all of it. */
  lemma OverlapIsRepeated(chunks: seq<string>, groups: seq<seq<string>>, carries: seq<bool>, paragraphs: seq<string>,
                          size: int, overlap: int, j: nat)
    requires AreChunks(chunks, groups, carries, paragraphs, size, overlap) && 0 <= overlap && 0 < j < |chunks|
    ensures var before := chunks[j - 1];
            var n := if overlap < |before| then overlap else |before|;
            && n <= |chunks[j]| && chunks[j][..n] == before[|before| - n..]
            && chunks[j][n..] == if groups[j] == [] then ""
                                 else (if n > 0 then ['\n', '\n'] else "") + Join(groups[j])
  {
    DroppingTheOverlap(chunks, groups, carries, paragraphs, size, overlap, j);
  }

  /** A chunk is finished only when the next paragraph does not fit, or the next two where the first is a heading. */
  lemma CutOnlyWhenFull(chunks: seq<string>, groups: seq<seq<string>>, carries: seq<bool>, paragraphs: seq<string>,
                        size: int, overlap: int, j: nat)
    requires AreChunks(chunks, groups, carries, paragraphs, size, overlap) && j + 1 < |chunks|
    ensures var n, length := Start(groups, j + 1), |chunks[j]|;
            || (n < |paragraphs| && length + 2 + |paragraphs[n]| > size)
            || (n + 1 < |paragraphs| && IsHeading(paragraphs[n])
                && length + 2 + |paragraphs[n]| + 2 + |paragraphs[n + 1]| > size)
  {
    var n, prefix := Start(groups, j + 1), Prefix(chunks, j, overlap);
    assert TextOk(chunks, groups, j, overlap) && FullOk(paragraphs, chunks, groups, j, size, overlap);
    assert LinkOk(paragraphs, chunks, groups, carries, j, size, overlap);
    LengthOfMore(prefix, groups[j], paragraphs[n], if n + 1 < |paragraphs| then paragraphs[n + 1] else "");
  }

  lemma LengthOfMore(prefix: string, group: seq<string>, p: string, q: string)
    requires Pieces(prefix, group) != []
    ensures |Join(Pieces(prefix, group + [p]))| == |Join(Pieces(prefix, group))| + 2 + |p|
    ensures |Join(Pieces(prefix, group + [p, q]))| == |Join(Pieces(prefix, group))| + 2 + |p| + 2 + |q|
  {
    PiecesSnoc(prefix, group, p);
    JoinSnoc(Pieces(prefix, group), p);
    PiecesSnoc(prefix, group + [p], q);
    assert group + [p] + [q] == group + [p, q];
    JoinSnoc(Pieces(prefix, group + [p]), q);
  }
}
