/** Concrete documents whose chunks leave a heading behind; `ChunksAreDetermined` says there are no others. */
module ChunkScenarios {
  import opened Chunking

  lemma SplitChar(c: char, text: string)
    requires |text| > 0 && [c, text[0]] != SEPARATOR
    ensures Split([c] + text) == [[c] + Split(text)[0]] + Split(text)[1..]
  {
    var whole := [c] + text;
    assert whole[..2] == [c, text[0]] && whole[1..] == text;
  }

  lemma SplitSeparator(text: string)
    ensures Split(SEPARATOR + text) == [""] + Split(text)
  {
    var whole := SEPARATOR + text;
    assert whole[..2] == SEPARATOR && whole[2..] == text;
  }

  /** A one-character paragraph in front of the rest of a document. */
  lemma SplitFirst(c: char, text: string)
    requires c != '\n'
    ensures Split([c] + (SEPARATOR + text)) == [[c]] + Split(text)
  {
    SplitSeparator(text);
    SplitChar(c, SEPARATOR + text);
    assert [c] + "" == [c];
  }

  lemma KeepOne(c: char, rest: seq<string>)
    requires !IsSpace(c)
    ensures KeepNonBlank([[c]] + rest) == [[c]] + KeepNonBlank(rest)
  {
    assert ([[c]] + rest)[1..] == rest;
    assert Strip([c]) == [c];
  }

  lemma OnlyOne(c: char)
    requires !IsSpace(c)
    ensures KeepNonBlank(Split([c])) == [[c]]
  {
    assert Split([c]) == [[c]] + [];
    KeepOne(c, []);
  }

  lemma JoinTwo(a: string, b: string)
    ensures Join([a, b]) == a + SEPARATOR + b && Join([a]) == a
  {
    JoinFront(a, [b]);
  }

  /** Two paragraphs that do not fit into one chunk, of which the first is a heading. */
  lemma HeadingThenParagraph(h: string, p: string, size: int, overlap: int)
    requires IsHeading(h) && p != "" && |h| + 2 + |p| > size && 0 < overlap < size
    ensures AreChunks([h, Join([Tail(h, overlap), p])], [[h], [p]], [false, false], [h, p], size, overlap)
  {
    var chunks, groups, carries := [h, Join([Tail(h, overlap), p])], [[h], [p]], [false, false];
    JoinTwo(h, p);
    assert groups[..1] == [[h]] && groups[..2] == groups && groups[..0] == [];
    assert Flatten(groups[..1]) == [h];
    assert Start(groups, 1) == 1 && Pieces("", [h] + [p]) == [h, p];
    assert FullOk([h, p], chunks, groups, 0, size, overlap);
    assert LinkOk([h, p], chunks, groups, carries, 0, size, overlap);
    assert Pieces(Tail(h, overlap), [p]) == [Tail(h, overlap), p];
    assert TextOk(chunks, groups, 0, overlap) && TextOk(chunks, groups, 1, overlap);
    assert SizeOk(chunks, groups, carries, 0, size) && SizeOk(chunks, groups, carries, 1, size);
  }

  /** A run of one paragraph, with nothing before it, where the next paragraph does not fit. */
  lemma CutAfter(paragraphs: seq<string>, i: nat, chunks: seq<string>, groups: seq<seq<string>>, carries: seq<bool>,
                 size: int)
    requires i + 1 < |paragraphs| && i + 1 < |chunks| == |groups| == |carries| && !carries[i] && !carries[i + 1]
    requires groups[i] == [paragraphs[i]] && Start(groups, i + 1) == i + 1
    requires |paragraphs[i]| + 2 + |paragraphs[i + 1]| > size
    ensures FullOk(paragraphs, chunks, groups, i, size, 0) && LinkOk(paragraphs, chunks, groups, carries, i, size, 0)
  {
    assert Prefix(chunks, i, 0) == "";
    assert Pieces("", groups[i] + [paragraphs[i + 1]]) == [paragraphs[i], paragraphs[i + 1]];
    JoinTwo(paragraphs[i], paragraphs[i + 1]);
  }

  /** Three paragraphs, no two of which fit into one chunk, with a heading in the middle; no overlap. */
  lemma HeadingInTheMiddle(a: string, h: string, b: string, size: int)
    requires IsHeading(h) && !IsHeading(a) && b != "" && size > 0
    requires |a| + 2 + |h| > size && |h| + 2 + |b| > size
    ensures AreChunks([a, h, b], [[a], [h], [b]], [false, false, false], [a, h, b], size, 0)
  {
    var chunks, groups, carries := [a, h, b], [[a], [h], [b]], [false, false, false];
    assert groups[..0] == [] && groups[..1] == [[a]] && groups[..2] == [[a], [h]] && groups[..3] == groups;
    assert Flatten(groups[..1]) == [a];
    assert groups[..2][..1] == groups[..1] && Flatten(groups[..2]) == [a, h];
    CutAfter(chunks, 0, chunks, groups, carries, size);
    CutAfter(chunks, 1, chunks, groups, carries, size);
    forall j | 0 <= j < 3 ensures TextOk(chunks, groups, j, 0) && SizeOk(chunks, groups, carries, j, size) {
      assert Prefix(chunks, j, 0) == "" && Pieces("", groups[j]) == groups[j];
    }
  }

  /** With an overlap, and a document of five characters: the first chunk is the bare heading. */
  lemma OpeningHeadingIsLeftBehind()
    ensures Paragraphs(['#'] + (SEPARATOR + ['b'])) == [['#'], ['b']] && IsHeading(['#'])
    ensures AreChunks([['#'], Join([['#'], ['b']])], [[['#']], [['b']]], [false, false], [['#'], ['b']], 3, 1)
  {
    SplitFirst('#', ['b']);
    KeepOne('#', Split(['b']));
    OnlyOne('b');
    HeadingThenParagraph(['#'], ['b'], 3, 1);
    assert Tail(['#'], 1) == ['#'];
  }

  /** Without one: a heading that fits neither behind the paragraph before it nor in front of the next. */
  lemma InnerHeadingIsLeftBehind()
    ensures Paragraphs(['a'] + (SEPARATOR + (['#'] + (SEPARATOR + ['b'])))) == [['a'], ['#'], ['b']] && IsHeading(['#'])
    ensures AreChunks([['a'], ['#'], ['b']], [[['a']], [['#']], [['b']]], [false, false, false],
                      [['a'], ['#'], ['b']], 3, 0)
  {
    var rest := ['#'] + (SEPARATOR + ['b']);
    SplitFirst('a', rest);
    SplitFirst('#', ['b']);
    KeepOne('a', Split(rest));
    KeepOne('#', Split(['b']));
    OnlyOne('b');
    HeadingInTheMiddle(['a'], ['#'], ['b'], 3);
  }
}
