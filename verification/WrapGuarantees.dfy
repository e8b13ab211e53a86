/** What wrapping promises: width, content, whole words, necessary breaks, stability. */
module WrapGuarantees {
  import opened Text
  import opened TextWrap
  import opened WrapFacts

  /** Wrapping adds, drops and moves nothing but spaces and line ends. */
  lemma ContentKept(text: string, maxWidth: int, gw: GlyphWidth)
    ensures Solid(Concat(Wrapped(text, maxWidth, gw))) == Solid(text)
  {
    SegmentsKept(text, 0);
    assert text[0..] == text;
    if maxWidth > 0 { WrapAllKept(Segments(text, 0), maxWidth, gw); }
  }

  /** Every line fits the width exactly when the width is at least 2 or the text has no wide
      glyph; a width of 1 is exceeded by one cell at most. */
  lemma LinesFit(text: string, max: nat, gw: GlyphWidth)
    requires max > 0
    ensures forall line :: line in Wrapped(text, max, gw) ==> Width(line, gw) <= if max >= 2 then max else 2
    ensures (forall line :: line in Wrapped(text, max, gw) ==> Width(line, gw) <= max)
            <==> max >= 2 || Thin(text, gw)
  {
    var lines := Wrapped(text, max, gw);
    WrapAllWidth(Segments(text, 0), max, if max >= 2 then max else 2, gw);
    SegmentChars(text, 0);
    if max >= 2 || Thin(text, gw) {
      WrapAllWidth(Segments(text, 0), max, max, gw);
    } else {
      var c :| c in text && Wide(c, gw);
      ContentKept(text, max, gw);
      SolidMembers(text);
      SolidMembers(Concat(lines));
      assert c in Solid(text) && c in Concat(lines);
      var line := HolderOf(lines, c);
      WidthOfMember(line, c, gw);
    }
  }

  /** No line ends in a space. */
  lemma LinesTrimmed(text: string, max: nat, gw: GlyphWidth)
    requires max > 0
    ensures forall line :: line in Wrapped(text, max, gw) && line != "" ==> line[|line| - 1] != ' '
  {
    WrapAllTrimmed(Segments(text, 0), max, gw);
  }

  /** No word that fits a line is split: wherever a word stands in the text, it stands unbroken
      on a line, behind exactly the characters that precede it; of a word that fits no line as
      many characters as a line holds start a line of their own. */
  lemma WordsKept(before: string, word: string, after: string, max: nat, gw: GlyphWidth)
    requires IsWord(before, word, after) && 0 < max
    ensures var lines, front := Wrapped(before + (word + after), max, gw), if |word| <= max then word else word[..max];
            exists i, p ::
              && 0 <= i < |lines| && 0 <= p <= |lines[i]| && At(lines[i], front, p) && (|word| > max ==> p == 0)
              && Solid(Concat(lines[..i]) + lines[i][..p]) == Solid(before)
  {
    hide Wrapped, Solid, Concat, IsWord;
    var i, p := WordStands(before, word, after, max, gw);
  }

  /** A line end of the text ends a line and nothing else: what stands in front of it is wrapped
      by itself, an empty line stays one, and a last line end opens no line. */
  lemma LineEndsKept(head: string, tail: string, maxWidth: int, gw: GlyphWidth)
    requires '\n' !in head
    ensures Wrapped(head + "\n" + tail, maxWidth, gw) ==
            (if head == "" then [""] else Wrapped(head, maxWidth, gw)) + Wrapped(tail, maxWidth, gw)
    ensures Wrapped("", maxWidth, gw) == []
    ensures maxWidth <= 0 && head != "" ==> Wrapped(head, maxWidth, gw) == [head]
  {
    EmptyWraps(maxWidth, gw);
    FirstSegment(head, tail);
    if head != "" { NoneFound(head); }
    assert head != "" ==> head[0..] == head && Segments(head, 0) == [head];
    hide Groups, Lines, Find, Segments;
    if maxWidth > 0 {
      WrapFirst(head, tail, maxWidth, gw);
      if head != "" { WrapOne(head, maxWidth, gw); }
    }
  }

  /** A segment is broken nowhere it need not be. */
  lemma BreaksNecessary(segment: string, max: nat, gw: GlyphWidth)
    ensures BreaksForced(Groups(segment, max, gw), max, gw)
  {
    PutAllForced(Layout([], []), Atoms(segment, max), max, gw);
  }

  /** Text that fits one line stays one line. */
  lemma FittingTextStays(segment: string, max: nat, gw: GlyphWidth)
    requires max > 0 && segment != "" && '\n' !in segment && Width(segment, gw) <= max
    ensures Wrapped(segment, max, gw) == [Trim(segment)]
  {
    NoneForced(segment, max, gw);
    AtomsRender(segment, max);
    AllExtend(Layout([], []), Atoms(segment, max), max, gw);
    assert [] + Atoms(segment, max) == Atoms(segment, max);
    assert Groups(segment, max, gw) == [Atoms(segment, max)];
    NoneFound(segment);
    assert Segments(segment, 0) == [segment] by {
      assert segment[0..] == segment;
    }
    hide *;
    assert Lines([Atoms(segment, max)]) == [Trim(Render(Atoms(segment, max)))] by {
      LinesOne(Atoms(segment, max));
    }
    WrapOne(segment, max, gw);
  }

  lemma LineStays(line: string, max: nat, gw: GlyphWidth)
    requires max > 0 && line != "" && '\n' !in line && line[|line| - 1] != ' '
    requires Width(line, gw) <= max || Slim(line, gw)
    ensures Wrapped(line, max, gw) == [line]
  {
    hide Wrapped, Width, Cells;
    if Width(line, gw) <= max {
      FittingTextStays(line, max, gw);
    } else {
      SlimLineStays(line, max, gw);
    }
  }

  /** Wrapping a produced line again changes nothing: wrapping is idempotent line by line. */
  lemma LinesStay(text: string, max: nat, gw: GlyphWidth)
    requires max > 0
    ensures forall line :: line in Wrapped(text, max, gw) && line != "" ==> Wrapped(line, max, gw) == [line]
  {
    var segments := Segments(text, 0);
    LinesFit(text, max, gw);
    SegmentChars(text, 0);
    WrapAllTrimmed(segments, max, gw);
    WrapAllSingle(segments, text, max, gw);
    if max == 1 { WrapAllSlim(segments, gw); }
    forall line | line in Wrapped(text, max, gw) && line != ""
      ensures Wrapped(line, max, gw) == [line]
    {
      LineStays(line, max, gw);
    }
  }
}
