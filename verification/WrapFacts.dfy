/** Layouts, widths and solid text: what placing one atom, one word or one segment does to
    the lines, and how texts, segments and lines are put together. The results about whole
    texts are in `WrapGuarantees`. */
module WrapFacts {
  import opened Text
  import opened TextWrap

  // --- Width -----------------------------------------------------------------------

  ghost predicate Narrow(atoms: seq<Atom>, bound: nat, gw: GlyphWidth) {
    forall a :: a in atoms ==> Width(a.text, gw) <= bound
  }

  ghost predicate GroupsFit(groups: seq<seq<Atom>>, bound: nat, gw: GlyphWidth) {
    forall g :: g in groups ==> Width(Render(g), gw) <= bound
  }

  ghost predicate Fits(l: Layout, bound: nat, gw: GlyphWidth) {
    GroupsFit(l.done, bound, gw) && Width(Render(l.open), gw) <= bound
  }

  lemma PutFits(l: Layout, a: Atom, max: nat, bound: nat, gw: GlyphWidth)
    requires Fits(l, bound, gw) && Width(a.text, gw) <= bound && max <= bound
    ensures Fits(Put(l, a, max, gw), bound, gw)
  {
    assert Render([a]) == "" + a.text == a.text;
    assert Width("", gw) == 0 && Width(" ", gw) == 1 by {
      WidthSnoc("", ' ', gw);
      assert "" + [' '] == " ";
    }
    var cur, next := Render(l.open), Put(l, a, max, gw);
    assert next == l
        || (next == l.(open := l.open + [a])
            && (Width(cur, gw) == 0 || Width(cur, gw) + Width(a.text, gw) <= bound))
        || next == Layout(l.done + [l.open], [a]);
    FitsSnoc(l.done, l.open, bound, gw);
    hide Width, Render, Cells, Put, GroupsFit, MustBreak;
    RenderSnoc(l.open, a);
    WidthAppend(cur, a.text, gw);
  }

  lemma FitsSnoc(groups: seq<seq<Atom>>, g: seq<Atom>, bound: nat, gw: GlyphWidth)
    requires GroupsFit(groups, bound, gw) && Width(Render(g), gw) <= bound
    ensures GroupsFit(groups + [g], bound, gw)
  {
  }

  lemma {:induction false} PutAllFits(l: Layout, atoms: seq<Atom>, max: nat, bound: nat, gw: GlyphWidth)
    requires Fits(l, bound, gw) && Narrow(atoms, bound, gw) && max <= bound
    ensures Fits(PutAll(l, atoms, max, gw), bound, gw)
    decreases |atoms|
  {
    if atoms != [] {
      hide Fits, Put;
      PutFits(l, atoms[0], max, bound, gw);
      PutAllFits(Put(l, atoms[0], max, gw), atoms[1..], max, bound, gw);
    }
  }

  predicate Wide(c: char, gw: GlyphWidth) { c as int >= 0x80 && gw(c) == 2 }

  ghost predicate Thin(s: string, gw: GlyphWidth) { forall c :: c in s ==> !Wide(c, gw) }

  lemma {:induction false} AtomsNarrow(segment: string, max: nat, bound: nat, gw: GlyphWidth)
    requires 0 < max <= bound && (bound >= 2 || Thin(segment, gw))
    ensures Narrow(Atoms(segment, max), bound, gw)
    decreases |segment|
  {
    if segment != "" {
      if WordChar(segment[0]) {
        var n := WordLength(segment);
        WordPrefix(segment);
        WordNarrow(segment[..n], max, gw);
        AtomsNarrow(segment[n..], max, bound, gw);
      } else {
        WidthSnoc("", segment[0], gw);
        assert "" + [segment[0]] == [segment[0]] && segment[0] in segment;
        assert Cells(segment[0], gw) <= bound;
        AtomsNarrow(segment[1..], max, bound, gw);
      }
    }
  }

  lemma {:induction false} WordPrefix(s: string)
    ensures AllWord(s[..WordLength(s)])
    ensures WordLength(s) < |s| ==> !WordChar(s[WordLength(s)])
  {
    if s != "" && WordChar(s[0]) {
      WordPrefix(s[1..]);
      assert s[..WordLength(s)] == [s[0]] + s[1..][..WordLength(s[1..])];
    }
  }

  lemma WordNarrow(word: string, max: nat, gw: GlyphWidth)
    requires AllWord(word) && max > 0
    ensures Narrow(WordAtoms(word, max), max, gw)
  {
    WordWidth(word, gw);
    forall c | c in word
      ensures Width([c], gw) == 1
    {
      WidthSnoc("", c, gw);
      assert WordChar(c) && "" + [c] == [c];
    }
  }

  lemma {:induction false} TrimFacts(s: string, gw: GlyphWidth)
    ensures Width(Trim(s), gw) <= Width(s, gw)
    ensures Trim(s) != "" ==> Trim(s)[|Trim(s)| - 1] != ' '
    ensures Trim(s) <= s
  {
    if s != "" && s[|s| - 1] == ' ' { TrimFacts(s[..|s| - 1], gw); }
  }

  /** No line of a segment is wider than `max`, or than a single wide glyph. */
  lemma SegmentWidth(segment: string, max: nat, bound: nat, gw: GlyphWidth)
    requires 0 < max <= bound && (bound >= 2 || Thin(segment, gw))
    ensures forall line :: line in Lines(Groups(segment, max, gw)) ==> Width(line, gw) <= bound
  {
    AtomsNarrow(segment, max, bound, gw);
    PutAllFits(Layout([], []), Atoms(segment, max), max, bound, gw);
    var groups := Groups(segment, max, gw);
    assert GroupsFit(groups, bound, gw);
    hide Groups, Width, Trim, Render;
    forall i | 0 <= i < |groups|
      ensures Width(Lines(groups)[i], gw) <= bound
    {
      assert groups[i] in groups;
      TrimFacts(Render(groups[i]), gw);
    }
  }

  /** Characters of the text, none of them a newline. */
  ghost predicate PieceOf(segment: string, text: string) {
    forall c :: c in segment ==> c in text && c != '\n'
  }

  lemma PieceIs(text: string, start: nat, stop: nat)
    requires start <= stop <= |text| && forall j :: start <= j < stop ==> !At(text, "\n", j)
    ensures PieceOf(text[start..stop], text)
  {
    hide At;
    NoDelimiter(text, '\n', start, stop);
  }

  lemma {:induction false} SegmentChars(text: string, start: nat)
    ensures forall segment :: segment in Segments(text, start) ==> PieceOf(segment, text)
    decreases |text| - start
  {
    if start < |text| {
      FindLeftmost(text, "\n", start);
      var nl := Find(text, "\n", start);
      PieceIs(text, start, if nl.None? then |text| else nl.value);
      assert text[start..|text|] == text[start..];
      hide Find, At, PieceOf;
      if nl.Some? { SegmentChars(text, nl.value + 1); }
    }
  }

  lemma {:induction false} WrapAllWidth(segments: seq<string>, max: nat, bound: nat, gw: GlyphWidth)
    requires 0 < max <= bound
    requires bound >= 2 || forall segment :: segment in segments ==> Thin(segment, gw)
    ensures forall line :: line in WrapAll(segments, max, gw) ==> Width(line, gw) <= bound
  {
    if segments != [] {
      assert segments[0] in segments;
      SegmentWidth(segments[0], max, bound, gw);
      WrapAllWidth(segments[1..], max, bound, gw);
    }
  }

  lemma {:induction false} WidthOfMember(s: string, c: char, gw: GlyphWidth)
    requires c in s
    ensures Width(s, gw) >= Cells(c, gw)
  {
    if s[|s| - 1] != c { WidthOfMember(s[..|s| - 1], c, gw); }
  }

  lemma {:induction false} HolderOf(parts: seq<string>, c: char) returns (part: string)
    requires c in Concat(parts)
    ensures part in parts && c in part
  {
    if c in parts[0] {
      part := parts[0];
    } else {
      part := HolderOf(parts[1..], c);
    }
  }

  lemma {:induction false} WrapAllTrimmed(segments: seq<string>, max: nat, gw: GlyphWidth)
    ensures forall line :: line in WrapAll(segments, max, gw) && line != "" ==> line[|line| - 1] != ' '
  {
    if segments != [] {
      WrapAllTrimmed(segments[1..], max, gw);
      var groups := Groups(segments[0], max, gw);
      hide Groups, Trim;
      forall i | 0 <= i < |groups|
        ensures Lines(groups)[i] != "" ==> Lines(groups)[i][|Lines(groups)[i]| - 1] != ' '
      {
        TrimFacts(Render(groups[i]), gw);
      }
    }
  }

  // --- Content ---------------------------------------------------------------------

  /** The text without spaces and newlines. */
  function Solid(s: string): string {
    if s == "" then ""
    else Solid(s[..|s| - 1]) + if s[|s| - 1] == ' ' || s[|s| - 1] == '\n' then "" else [s[|s| - 1]]
  }

  lemma {:induction false} SolidMembers(s: string)
    ensures forall c :: c in Solid(s) <==> c in s && c != ' ' && c != '\n'
  {
    if s != "" {
      SolidMembers(s[..|s| - 1]);
      assert s == s[..|s| - 1] + [s[|s| - 1]];
    }
  }

  lemma {:induction false} SolidAppend(a: string, b: string)
    ensures Solid(a + b) == Solid(a) + Solid(b)
  {
    if b == "" {
      assert a + b == a && Solid(a) + Solid(b) == Solid(a);
    } else {
      SolidAppend(a, b[..|b| - 1]);
      assert (a + b)[..|a + b| - 1] == a + b[..|b| - 1];
      AppendAssoc(Solid(a), Solid(b[..|b| - 1]), if b[|b| - 1] == ' ' || b[|b| - 1] == '\n' then "" else [b[|b| - 1]]);
    }
  }

  lemma {:induction false} SolidTrim(s: string)
    ensures Solid(Trim(s)) == Solid(s)
  {
    if s != "" && s[|s| - 1] == ' ' {
      SolidTrim(s[..|s| - 1]);
      assert Solid(s) == Solid(s[..|s| - 1]) + "";
    }
  }

  function Texts(groups: seq<seq<Atom>>): string {
    if groups == [] then "" else Texts(groups[..|groups| - 1]) + Render(groups[|groups| - 1])
  }

  lemma TextsSnoc(groups: seq<seq<Atom>>, g: seq<Atom>)
    ensures Texts(groups + [g]) == Texts(groups) + Render(g)
  {
    assert (groups + [g])[..|groups|] == groups;
  }

  /** Everything placed so far, without spaces. */
  function Placed(l: Layout): string { Solid(Texts(l.done)) + Solid(Render(l.open)) }

  lemma PutPlaces(l: Layout, a: Atom, max: nat, gw: GlyphWidth)
    ensures Placed(Put(l, a, max, gw)) == Placed(l) + Solid(a.text)
  {
    assert Solid(BLANK.text) == "" + "";
    assert Render([a]) == "" + a.text == a.text;
    var next := Put(l, a, max, gw);
    assert (next == l && a == BLANK) || next == l.(open := l.open + [a]) || next == Layout(l.done + [l.open], [a]);
    hide Solid, Render, Texts, Put;
    RenderSnoc(l.open, a);
    TextsSnoc(l.done, l.open);
    SolidAppend(Render(l.open), a.text);
    SolidAppend(Texts(l.done), Render(l.open));
    AppendAssoc(Solid(Texts(l.done)), Solid(Render(l.open)), Solid(a.text));
    assert Placed(l) + "" == Placed(l);
  }

  lemma {:induction false} PutAllPlaces(l: Layout, atoms: seq<Atom>, max: nat, gw: GlyphWidth)
    ensures Placed(PutAll(l, atoms, max, gw)) == Placed(l) + Solid(Render(atoms))
    decreases |atoms|
  {
    if atoms == [] {
      assert Solid(Render(atoms)) == "";
      assert Placed(l) + "" == Placed(l);
    } else {
      var a, rest := atoms[0], atoms[1..];
      assert PutAll(l, atoms, max, gw) == PutAll(Put(l, a, max, gw), rest, max, gw);
      assert Render([a]) == "" + a.text == a.text;
      assert atoms == [a] + rest;
      hide *;
      PutPlaces(l, a, max, gw);
      PutAllPlaces(Put(l, a, max, gw), rest, max, gw);
      RenderAppend([a], rest);
      SolidAppend(a.text, Render(rest));
      AppendAssoc(Placed(l), Solid(a.text), Solid(Render(rest)));
    }
  }

  lemma {:induction false} RenderAppend(a: seq<Atom>, b: seq<Atom>)
    ensures Render(a + b) == Render(a) + Render(b)
  {
    if b == [] {
      assert a + b == a && Render(a) + "" == Render(a);
    } else {
      hide *;
      var init, last := b[..|b| - 1], b[|b| - 1];
      assert b == init + [last];
      RenderAppend(a, init);
      AppendAssoc(a, init, [last]);
      RenderSnoc(a + init, last);
      RenderSnoc(init, last);
      AppendAssoc(Render(a), Render(init), last.text);
    }
  }

  lemma {:induction false} CharsRender(atoms: seq<Atom>, word: string)
    requires |atoms| == |word| && forall i :: 0 <= i < |word| ==> atoms[i].text == [word[i]]
    ensures Render(atoms) == word
  {
    if word != "" {
      CharsRender(atoms[..|atoms| - 1], word[..|word| - 1]);
      assert word == word[..|word| - 1] + [word[|word| - 1]];
    }
  }

  /** The leading word or glyph of a segment: its length, and that it is whole on its own. */
  lemma AtomsSplit(segment: string, max: nat) returns (n: nat, first: seq<Atom>, rest: string)
    requires segment != ""
    ensures 0 < n <= |segment| && rest == segment[n..] && segment == segment[..n] + rest
    ensures Atoms(segment, max) == first + Atoms(rest, max) && Render(first) == segment[..n]
    ensures if WordChar(segment[0]) then n == WordLength(segment) && first == WordAtoms(segment[..n], max)
            else n == 1
  {
    if WordChar(segment[0]) {
      n := WordLength(segment);
      first := WordAtoms(segment[..n], max);
      if n > max {
        CharsRender(first, segment[..n]);
      } else {
        assert Render(first) == "" + first[0].text;
      }
    } else {
      n, first := 1, [Atom([segment[0]], false)];
      assert Render(first) == "" + first[0].text;
    }
    rest := segment[n..];
  }

  /** The atoms of a segment are the segment. */
  lemma {:induction false} AtomsRender(segment: string, max: nat)
    ensures Render(Atoms(segment, max)) == segment
    decreases |segment|
  {
    if segment != "" {
      var n, first, rest := AtomsSplit(segment, max);
      hide *;
      AtomsRender(rest, max);
      RenderAppend(first, Atoms(rest, max));
    }
  }

  lemma {:induction false} SolidLines(groups: seq<seq<Atom>>)
    ensures Solid(Concat(Lines(groups))) == Solid(Texts(groups))
  {
    if groups != [] {
      var init, g := groups[..|groups| - 1], groups[|groups| - 1];
      SolidLines(init);
      assert groups == init + [g];
      hide *;
      LinesSnoc(init, g);
      TextsSnoc(init, g);
      ConcatSnoc(Lines(init), Trim(Render(g)));
      SolidAppend(Concat(Lines(init)), Trim(Render(g)));
      SolidAppend(Texts(init), Render(g));
      SolidTrim(Render(g));
    }
  }

  lemma SegmentKept(segment: string, max: nat, gw: GlyphWidth)
    ensures Solid(Concat(Lines(Groups(segment, max, gw)))) == Solid(segment)
  {
    var l := PutAll(Layout([], []), Atoms(segment, max), max, gw);
    PutAllPlaces(Layout([], []), Atoms(segment, max), max, gw);
    AtomsRender(segment, max);
    assert Placed(Layout([], [])) == "" + "";
    SolidLines(l.done + [l.open]);
    TextsSnoc(l.done, l.open);
    SolidAppend(Texts(l.done), Render(l.open));
    assert "" + Solid(segment) == Solid(segment);
  }

  lemma SegmentKeptOnce(text: string, start: nat, nl: nat)
    requires Find(text, "\n", start) == Some(nl)
    ensures Solid(text[start..]) == Solid(text[start..nl]) + Solid(text[nl + 1..])
  {
    FindLeftmost(text, "\n", start);
    CutAround(text, '\n', start, nl);
    var here, rest := text[start..nl], text[nl + 1..];
    assert Solid("\n") == "" + "";
    hide *;
    SolidAppend(here + "\n", rest);
    SolidAppend(here, "\n");
    assert Solid(here) + "" == Solid(here);
  }

  lemma ConcatOne(s: string)
    ensures Concat([s]) == s
  {
    assert Concat([s]) == s + "";
  }

  ghost predicate KeptFrom(text: string, start: nat)
    requires start <= |text|
  {
    Solid(Concat(Segments(text, start))) == Solid(text[start..])
  }

  lemma SegmentsEnd(text: string, start: nat)
    requires start <= |text| && (start == |text| || Find(text, "\n", start).None?)
    ensures KeptFrom(text, start)
  {
    if start == |text| {
      assert text[start..] == "" && Segments(text, start) == [];
    } else {
      ConcatOne(text[start..]);
    }
  }

  lemma SegmentsMore(text: string, start: nat, nl: nat)
    requires start < |text| && Find(text, "\n", start) == Some(nl) && KeptFrom(text, nl + 1)
    ensures KeptFrom(text, start)
  {
    var here, later := text[start..nl], Segments(text, nl + 1);
    hide Segments, Find, Solid, Concat, At;
    SegmentsCut(text, start);
    SegmentKeptOnce(text, start, nl);
    ConcatAppend([here], later);
    ConcatOne(here);
    SolidAppend(here, Concat(later));
  }

  lemma {:induction false} SegmentsKept(text: string, start: nat)
    requires start <= |text|
    ensures KeptFrom(text, start)
    decreases |text| - start
  {
    hide *;
    if start == |text| || Find(text, "\n", start).None? {
      SegmentsEnd(text, start);
    } else {
      var nl := Find(text, "\n", start).value;
      SegmentsKept(text, nl + 1);
      SegmentsMore(text, start, nl);
    }
  }

  lemma {:induction false} WrapAllKept(segments: seq<string>, max: nat, gw: GlyphWidth)
    ensures Solid(Concat(WrapAll(segments, max, gw))) == Solid(Concat(segments))
  {
    if segments != [] {
      var first, rest := segments[0], segments[1..];
      WrapAllKept(rest, max, gw);
      assert Concat(segments) == first + Concat(rest);
      assert WrapAll(segments, max, gw) == Lines(Groups(first, max, gw)) + WrapAll(rest, max, gw);
      hide *;
      SegmentKept(first, max, gw);
      ConcatAppend(Lines(Groups(first, max, gw)), WrapAll(rest, max, gw));
      SolidAppend(Concat(Lines(Groups(first, max, gw))), Concat(WrapAll(rest, max, gw)));
      SolidAppend(first, Concat(rest));
    }
  }

  // --- Whole words -----------------------------------------------------------------

  /** Between `before` and `after` stands a word: word characters, and none next to them. */
  ghost predicate IsWord(before: string, word: string, after: string) {
    && word != "" && AllWord(word)
    && (before == "" || !WordChar(before[|before| - 1])) && (after == "" || !WordChar(after[0]))
  }

  lemma WordChars(segment: string, i: nat, j: nat)
    requires i <= j <= |segment| && AllWord(segment[i..j])
    ensures forall k :: i <= k < j ==> WordChar(segment[k])
  {
    forall k | i <= k < j
      ensures WordChar(segment[k])
    {
      assert segment[i..j][k - i] in segment[i..j];
    }
  }

  /** The leading word or glyph of a text that ends before a word, split off. */
  lemma SkipFirst(before: string, tail: string, max: nat) returns (skipped: seq<Atom>, left: string)
    requires before != "" && !WordChar(before[|before| - 1])
    ensures |left| < |before| && (left == "" || !WordChar(left[|left| - 1]))
    ensures Atoms(before, max) == skipped + Atoms(left, max)
    ensures Atoms(before + tail, max) == skipped + Atoms(left + tail, max)
  {
    var n := WordLength(before);
    WordPrefix(before);
    if n > 0 {
      WordChars(before, 0, n);
      assert n < |before|;
      left := before[n..];
      assert before + tail == before[..n] + (left + tail);
      AtomsAfterWord(before[..n], left + tail, max);
      skipped := WordAtoms(before[..n], max);
    } else {
      left := before[1..];
      assert (before + tail)[1..] == left + tail;
      AtomsAfterWord("", before + tail, max);
      skipped := [Atom([before[0]], false)];
      assert Atoms(before + tail, max) == skipped + Atoms((before + tail)[1..], max);
    }
  }

  /** Text that ends beside a word is cut into atoms without regard to what follows. */
  lemma {:induction false} AtomsBefore(before: string, tail: string, max: nat)
    requires before == "" || !WordChar(before[|before| - 1])
    ensures Atoms(before + tail, max) == Atoms(before, max) + Atoms(tail, max)
    decreases |before|
  {
    if before == "" {
      assert Atoms("", max) == [];
      hide Atoms;
      assert "" + tail == tail && [] + Atoms(tail, max) == Atoms(tail, max);
    } else {
      hide Atoms;
      var skipped, left := SkipFirst(before, tail, max);
      hide *;
      AtomsBefore(left, tail, max);
      AppendAssoc(skipped, Atoms(left, max), Atoms(tail, max));
    }
  }

  lemma AtomsAround(before: string, word: string, after: string, max: nat)
    requires IsWord(before, word, after) && |word| <= max
    ensures Atoms(before + (word + after), max) == Atoms(before, max) + ([Atom(word, false)] + Atoms(after, max))
  {
    AtomsBefore(before, word + after, max);
    AtomsAfterWord(word, after, max);
  }

  /** Placing atoms leaves closed lines alone and only adds to the open one. */
  ghost predicate Grown(l: Layout, next: Layout) {
    && |l.done| <= |next.done| && next.done[..|l.done|] == l.done
    && l.open <= (next.done + [next.open])[|l.done|]
  }

  lemma {:induction false} PutAllGrows(l: Layout, atoms: seq<Atom>, max: nat, gw: GlyphWidth)
    ensures Grown(l, PutAll(l, atoms, max, gw))
    decreases |atoms|
  {
    if atoms != [] {
      var next := Put(l, atoms[0], max, gw);
      assert Grown(l, next) by { hide MustBreak, Width, Render; }
      PutAllGrows(next, atoms[1..], max, gw);
      GrownChain(l, next, PutAll(l, atoms, max, gw));
    }
  }

  lemma GrownChain(l: Layout, next: Layout, end: Layout)
    requires Grown(l, next) && Grown(next, end)
    ensures Grown(l, end)
  {
    assert next.done[..|l.done|] == end.done[..|l.done|];
    if |next.done| > |l.done| {
      assert end.done[|l.done|] == end.done[..|next.done|][|l.done|];
    }
  }

  /** The word goes behind everything placed before it, on the line that stays open. */
  lemma WordPlaced(l: Layout, word: string, max: nat, gw: GlyphWidth) returns (front: seq<Atom>)
    requires word != "" && AllWord(word)
    ensures var next := Put(l, Atom(word, false), max, gw);
            && next.open == front + [Atom(word, false)]
            && Solid(Texts(next.done)) + Solid(Render(front)) == Placed(l)
  {
    assert word[0] in word && WordChar(word[0]) && Atom(word, false) != BLANK;
    var next := Put(l, Atom(word, false), max, gw);
    hide MustBreak, Width, Texts, Solid;
    if next.done == l.done {
      front := l.open;
    } else {
      front := [];
      TextsSnoc(l.done, l.open);
      SolidAppend(Texts(l.done), Render(l.open));
      assert Solid(Render([])) == "" by { assert Solid("") == ""; }
      assert Placed(l) + "" == Placed(l);
    }
  }

  lemma {:induction false} TrimAfter(solid: string, more: string)
    requires solid != "" && solid[|solid| - 1] != ' '
    ensures Trim(solid + more) == solid + Trim(more)
  {
    if more == "" {
      assert solid + more == solid;
    } else {
      assert (solid + more)[..|solid + more| - 1] == solid + more[..|more| - 1];
      TrimAfter(solid, more[..|more| - 1]);
    }
  }

  /** A word in a group of atoms stands on its line behind the text of the atoms in front. */
  lemma WordOnLine(front: seq<Atom>, word: string, group: seq<Atom>)
    requires word != "" && AllWord(word) && front + [Atom(word, false)] <= group
    ensures var line, p := Trim(Render(group)), |Render(front)|;
            At(line, word, p) && line[..p] == Render(front)
  {
    var head := front + [Atom(word, false)];
    var more := group[|head|..];
    assert group == head + more;
    assert word[|word| - 1] in word && WordChar(word[|word| - 1]);
    hide Render, Trim, AllWord, WordChar;
    RenderAppend(head, more);
    RenderSnoc(front, Atom(word, false));
    TrimAfter(Render(front) + word, Render(more));
    WordBetween(Render(front), word, Trim(Render(more)));
  }

  lemma WordBetween(before: string, word: string, after: string)
    ensures At(before + word + after, word, |before|) && (before + word + after)[..|before|] == before
  {
    var s := before + word + after;
    assert s[|before|..|before| + |word|] == word;
  }

  /** The word stands unbroken at offset `p` of line `i`, and in front of it the lines hold
      what the text holds in front of it, spaces and line ends aside. */
  ghost predicate StandsAt(lines: seq<string>, before: string, word: string, i: nat, p: nat) {
    && i < |lines| && At(lines[i], word, p)
    && Solid(Concat(lines[..i]) + lines[i][..p]) == Solid(before)
  }

  lemma GroupStands(groups: seq<seq<Atom>>, i: nat, front: seq<Atom>, before: string, word: string)
    requires i < |groups| && word != "" && AllWord(word) && front + [Atom(word, false)] <= groups[i]
    requires Solid(Texts(groups[..i])) + Solid(Render(front)) == Solid(before)
    ensures StandsAt(Lines(groups), before, word, i, |Render(front)|)
  {
    var lines, p := Lines(groups), |Render(front)|;
    assert lines[..i] == Lines(groups[..i]) && lines[i] == Trim(Render(groups[i]));
    hide Lines, Solid, Texts, Render, Trim, AllWord;
    WordOnLine(front, word, groups[i]);
    SolidLines(groups[..i]);
    SolidAppend(Concat(lines[..i]), lines[i][..p]);
  }

  /** The groups around a word: lay out what precedes it, the word, and the rest. */
  lemma GroupsAround(before: string, word: string, after: string, max: nat, gw: GlyphWidth)
    requires IsWord(before, word, after) && |word| <= max
    ensures var l0 := PutAll(Layout([], []), Atoms(before, max), max, gw);
            var l2 := PutAll(Put(l0, Atom(word, false), max, gw), Atoms(after, max), max, gw);
            Groups(before + (word + after), max, gw) == l2.done + [l2.open]
  {
    var a, rest := Atom(word, false), Atoms(after, max);
    assert ([a] + rest)[1..] == rest;
    hide Put, Atoms, AllWord;
    AtomsAround(before, word, after, max);
    PutAllAppend(Layout([], []), Atoms(before, max), [a] + rest, max, gw);
  }

  /** In one segment the word is placed where the layout of what precedes it leads. */
  lemma SegmentWord(before: string, word: string, after: string, max: nat, gw: GlyphWidth) returns (i: nat, p: nat)
    requires IsWord(before, word, after) && |word| <= max
    ensures StandsAt(Lines(Groups(before + (word + after), max, gw)), before, word, i, p)
  {
    var a, none := Atom(word, false), Layout([], []);
    var l0 := PutAll(none, Atoms(before, max), max, gw);
    var l1 := Put(l0, a, max, gw);
    var l2 := PutAll(l1, Atoms(after, max), max, gw);
    var groups := l2.done + [l2.open];
    assert Placed(none) == "" + "" && Placed(none) + Solid(before) == Solid(before);
    assert word != "" && AllWord(word);
    hide Put, PutAll, Groups, Atoms, Lines, Placed, Solid, Render, Texts, AllWord, StandsAt;
    GroupsAround(before, word, after, max, gw);
    PutAllPlaces(none, Atoms(before, max), max, gw);
    AtomsRender(before, max);
    var front := WordPlaced(l0, word, max, gw);
    PutAllGrows(l1, Atoms(after, max), max, gw);
    i, p := |l1.done|, |Render(front)|;
    assert groups[..i] == l1.done;
    GroupStands(groups, i, front, before, word);
  }

  /** What of a word must stand on one line: all of it, or as much as a line holds. */
  function Front(word: string, max: nat): string { if |word| <= max then word else word[..max] }

  /** The first characters of a word that fits no line start a line and fill it. */
  lemma LongPlaced(l: Layout, word: string, max: nat, gw: GlyphWidth) returns (mid: Layout, front: seq<Atom>)
    requires 0 < max < |word| && AllWord(word)
    ensures mid == PutAll(l, WordAtoms(word, max)[..max], max, gw)
    ensures mid.open == front + WordAtoms(word, max)[..max] && Render(front) == ""
    ensures Solid(Texts(mid.done)) == Placed(l)
  {
    hide *;
    var atoms := WordAtoms(word, max);
    LongAtoms(word, max, gw);
    var a, rest := atoms[0], atoms[1..max];
    front := LongFirst(l, a, max, gw);
    RenderSnoc(front, a);
    RenderCons(a, rest);
    assert "" + a.text == a.text;
    WidthAppend(a.text, Render(rest), gw);
    AllExtend(Put(l, a, max, gw), rest, max, gw);
    PutFirst(l, a, rest, max, gw);
    mid := PutAll(l, atoms[..max], max, gw);
    AppendAssoc(front, [a], rest);
  }

  lemma LongAtoms(word: string, max: nat, gw: GlyphWidth)
    requires 0 < max < |word| && AllWord(word)
    ensures var atoms := WordAtoms(word, max);
            && |atoms| == |word| && atoms[0].force && atoms[0] != BLANK && Width(atoms[0].text, gw) == 1
            && atoms[..max] == [atoms[0]] + atoms[1..max] && (forall a :: a in atoms[1..max] ==> !a.force)
            && Render(atoms[..max]) == word[..max] && Width(word[..max], gw) == max
            && word[..max] != "" && word[max - 1] != ' '
  {
    var atoms := WordAtoms(word, max);
    assert word[0] in word && WordChar(word[0]) && word[max - 1] in word && WordChar(word[max - 1]);
    FrontWidth(word, max, gw);
    WordWidth([word[0]], gw);
    CharsRender(atoms[..max], word[..max]);
  }

  lemma PutFirst(l: Layout, a: Atom, rest: seq<Atom>, max: nat, gw: GlyphWidth)
    ensures PutAll(l, [a] + rest, max, gw) == PutAll(Put(l, a, max, gw), rest, max, gw)
  {
    assert ([a] + rest)[1..] == rest;
  }

  lemma FrontWidth(word: string, max: nat, gw: GlyphWidth)
    requires max < |word| && AllWord(word)
    ensures Width(word[..max], gw) == max
  {
    assert forall c :: c in word[..max] ==> c in word;
    WordWidth(word[..max], gw);
  }

  lemma LongFirst(l: Layout, a: Atom, max: nat, gw: GlyphWidth) returns (front: seq<Atom>)
    requires a.force && a != BLANK && Width(a.text, gw) <= max
    ensures var next := Put(l, a, max, gw);
            && next.open == front + [a] && Render(front) == "" && Solid(Texts(next.done)) == Placed(l)
  {
    assert Width("", gw) == 0 && Render([]) == "" && [] + [a] == [a] && Solid("") == "";
    if Render(l.open) == "" {
      front := l.open;
      assert Placed(l) == Solid(Texts(l.done)) + "";
    } else {
      front := [];
      hide Solid, Texts, Render, Width;
      TextsSnoc(l.done, l.open);
      SolidAppend(Texts(l.done), Render(l.open));
    }
  }

  /** A group that starts with these atoms is a line that starts with their text. */
  lemma LongOnLine(head: seq<Atom>, text: string, group: seq<Atom>)
    requires text != "" && text[|text| - 1] != ' ' && Render(head) == text && head <= group
    ensures At(Trim(Render(group)), text, 0)
  {
    hide *;
    var more := group[|head|..];
    assert group == head + more;
    RenderAppend(head, more);
    TrimAfter(text, Render(more));
    StartsWith(text, Trim(Render(more)));
  }

  lemma StartsWith(a: string, b: string)
    ensures At(a + b, a, 0)
  {
    assert (a + b)[0..0 + |a|] == a;
  }

  lemma LongGroup(groups: seq<seq<Atom>>, i: nat, front: seq<Atom>, before: string, word: string, max: nat,
                  gw: GlyphWidth)
    requires i < |groups| && 0 < max < |word| && AllWord(word) && Render(front) == ""
    requires front + WordAtoms(word, max)[..max] <= groups[i] && Solid(Texts(groups[..i])) == Solid(before)
    ensures StandsAt(Lines(groups), before, word[..max], i, 0)
  {
    var lines, chars := Lines(groups), WordAtoms(word, max)[..max];
    assert |lines| == |groups| && lines[..i] == Lines(groups[..i]) && lines[i] == Trim(Render(groups[i]));
    hide *;
    LongAtoms(word, max, gw);
    RenderAppend(front, chars);
    assert "" + word[..max] == word[..max];
    LongOnLine(front + chars, word[..max], groups[i]);
    SolidLines(groups[..i]);
    StandsFirst(lines, before, word[..max], i);
  }

  lemma StandsFirst(lines: seq<string>, before: string, text: string, i: nat)
    requires i < |lines| && At(lines[i], text, 0) && Solid(Concat(lines[..i])) == Solid(before)
    ensures StandsAt(lines, before, text, i, 0)
  {
    assert lines[i][..0] == "" && Concat(lines[..i]) + "" == Concat(lines[..i]);
    hide Solid, Concat;
  }

  lemma AtomsLong(before: string, word: string, after: string, max: nat) returns (rest: seq<Atom>)
    requires IsWord(before, word, after) && 0 < max < |word|
    ensures Atoms(before + (word + after), max) == Atoms(before, max) + (WordAtoms(word, max)[..max] + rest)
  {
    var atoms := WordAtoms(word, max);
    assert |atoms| == |word|;
    rest := atoms[max..] + Atoms(after, max);
    AtomsAfterWord(word, after, max);
    hide *;
    AtomsBefore(before, word + after, max);
    assert atoms == atoms[..max] + atoms[max..];
    AppendAssoc(atoms[..max], atoms[max..], Atoms(after, max));
  }

  lemma SegmentLong(before: string, word: string, after: string, max: nat, gw: GlyphWidth) returns (i: nat)
    requires IsWord(before, word, after) && 0 < max < |word|
    ensures StandsAt(Lines(Groups(before + (word + after), max, gw)), before, word[..max], i, 0)
  {
    var none := Layout([], []);
    var l0 := PutAll(none, Atoms(before, max), max, gw);
    assert Placed(none) == "" + "" && Placed(none) + Solid(before) == Solid(before);
    assert AllWord(word);
    var rest := AtomsLong(before, word, after, max);
    var chars := WordAtoms(word, max)[..max];
    var end := PutAll(none, Atoms(before + (word + after), max), max, gw);
    assert Groups(before + (word + after), max, gw) == end.done + [end.open];
    hide *;
    PutAllAppend(none, Atoms(before, max), chars + rest, max, gw);
    PutAllAppend(l0, chars, rest, max, gw);
    PutAllPlaces(none, Atoms(before, max), max, gw);
    AtomsRender(before, max);
    var mid, front := LongPlaced(l0, word, max, gw);
    PutAllGrows(mid, rest, max, gw);
    i := |mid.done|;
    var groups := end.done + [end.open];
    assert groups[..i] == mid.done && mid.open <= groups[i] by { GrownMeans(mid, end); }
    LongGroup(groups, i, front, before, word, max, gw);
  }

  lemma GrownMeans(l: Layout, next: Layout)
    requires Grown(l, next)
    ensures var groups := next.done + [next.open];
            |l.done| < |groups| && groups[..|l.done|] == l.done && l.open <= groups[|l.done|]
  {
  }

  /** In one segment a word, or what of it a line holds, stands as a whole. */
  lemma SegmentFront(before: string, word: string, after: string, max: nat, gw: GlyphWidth) returns (i: nat, p: nat)
    requires IsWord(before, word, after) && 0 < max
    ensures StandsAt(Lines(Groups(before + (word + after), max, gw)), before, Front(word, max), i, p)
    ensures |word| > max ==> p == 0
  {
    hide StandsAt, Groups, Lines;
    if |word| <= max {
      i, p := SegmentWord(before, word, after, max, gw);
    } else {
      i := SegmentLong(before, word, after, max, gw);
      p := 0;
    }
  }

  lemma TailCut(text: string, start: nat, k: nat)
    requires start + k < |text|
    ensures var tail := text[start..]; tail[0..k] == text[start..start + k] && tail[k + 1..] == text[start + k + 1..]
  {
  }

  lemma SegmentsSame(text: string, start: nat, tail: string, k: nat)
    requires Find(text, "\n", start) == Some(start + k) && Find(tail, "\n", 0) == Some(k)
    requires tail[0..k] == text[start..start + k] && Segments(text, start + k + 1) == Segments(tail, k + 1)
    ensures Segments(text, start) == Segments(tail, 0)
  {
    hide *;
    SegmentsCut(text, start);
    SegmentsCut(tail, 0);
  }

  lemma {:induction false} SegmentsTail(text: string, start: nat)
    requires start <= |text|
    ensures Segments(text, start) == Segments(text[start..], 0)
    decreases |text| - start
  {
    hide *;
    FindFrom(text, "\n", start);
    if start == |text| || Find(text, "\n", start).None? {
      SegmentsCut(text, start);
      SegmentsCut(text[start..], 0);
      assert text[start..][0..] == text[start..];
    } else {
      var k := Find(text, "\n", start).value - start;
      TailCut(text, start, k);
      SegmentsTail(text, start + k + 1);
      SegmentsTail(text[start..], k + 1);
      SegmentsSame(text, start, text[start..], k);
    }
  }

  /** The first newline ends the first segment. */
  lemma FirstSegment(head: string, tail: string)
    requires '\n' !in head
    ensures Segments(head + "\n" + tail, 0) == [head] + Segments(tail, 0)
  {
    var text := head + "\n" + tail;
    assert text[|head|..|head| + 1] == "\n" && text[0..|head|] == head && text[|head| + 1..] == tail;
    forall j | 0 <= j < |head|
      ensures !At(text, "\n", j)
    {
      assert text[j..j + 1] == [head[j]] && head[j] in head;
    }
    FindIs(text, "\n", 0, |head|);
    hide Find, At;
    SegmentsTail(text, |head| + 1);
  }

  lemma EmptyWraps(maxWidth: int, gw: GlyphWidth)
    ensures Wrapped("", maxWidth, gw) == []
    ensures maxWidth > 0 ==> Lines(Groups("", maxWidth, gw)) == [""]
  {
    assert Render([]) == "" && Trim("") == "";
    if maxWidth > 0 {
      assert Atoms("", maxWidth) == [] && Groups("", maxWidth, gw) == [[]];
      assert Lines([[]]) == [""];
    }
  }

  lemma WrapFirst(head: string, tail: string, max: nat, gw: GlyphWidth)
    requires max > 0 && '\n' !in head
    ensures Wrapped(head + "\n" + tail, max, gw) == Lines(Groups(head, max, gw)) + Wrapped(tail, max, gw)
  {
    hide Groups, Lines, Segments;
    FirstSegment(head, tail);
    WrapCons(head, Segments(tail, 0), max, gw);
  }

  lemma FirstNewline(s: string) returns (head: string, tail: string)
    requires '\n' in s
    ensures '\n' !in head && s == head + "\n" + tail
  {
    FindLeftmost(s, "\n", 0);
    var k :| 0 <= k < |s| && s[k] == '\n';
    assert s[k..k + 1] == "\n" && At(s, "\n", k);
    var nl := Find(s, "\n", 0).value;
    NoDelimiter(s, '\n', 0, nl);
    CutAround(s, '\n', 0, nl);
    head, tail := s[0..nl], s[nl + 1..];
    assert s[0..] == s;
  }

  /** Lines of later segments follow without moving the word. */
  lemma StandsBefore(lines: seq<string>, more: seq<string>, before: string, word: string, i: nat, p: nat)
    requires StandsAt(lines, before, word, i, p)
    ensures StandsAt(lines + more, before, word, i, p)
  {
    assert (lines + more)[..i] == lines[..i];
  }

  /** Lines of an earlier segment hold that segment. */
  lemma StandsBehind(first: seq<string>, lines: seq<string>, head: string, before: string, word: string, i: nat, p: nat)
    requires StandsAt(lines, before, word, i, p) && Solid(Concat(first)) == Solid(head)
    ensures StandsAt(first + lines, head + "\n" + before, word, |first| + i, p)
  {
    var all, front := first + lines, lines[i][..p];
    assert all[..|first| + i] == first + lines[..i] && all[|first| + i] == lines[i];
    hide Solid, Concat, At;
    SolidBehind(first, lines[..i], front, head, before);
  }

  lemma SolidBehind(first: seq<string>, lines: seq<string>, front: string, head: string, before: string)
    requires Solid(Concat(first)) == Solid(head) && Solid(Concat(lines) + front) == Solid(before)
    ensures Solid(Concat(first + lines) + front) == Solid(head + "\n" + before)
  {
    assert Solid("\n") == "" + "" && Solid(head) + "" == Solid(head);
    hide *;
    ConcatAppend(first, lines);
    AppendAssoc(Concat(first), Concat(lines), front);
    SolidAppend(Concat(first), Concat(lines) + front);
    SolidAppend(head, "\n");
    SolidAppend(head + "\n", before);
  }

  lemma WordSingle(word: string)
    requires AllWord(word)
    ensures '\n' !in word
  {
    forall c | c in word
      ensures c != '\n'
    {
      assert WordChar(c);
    }
  }

  lemma FirstWord(before: string, word: string, after: string, max: nat, gw: GlyphWidth) returns (i: nat, p: nat)
    requires IsWord(before, word, after) && 0 < max && '\n' !in before
    ensures StandsAt(Wrapped(before + (word + after), max, gw), before, Front(word, max), i, p)
    ensures |word| > max ==> p == 0
  {
    var text := before + (word + after);
    WordSingle(word);
    if '\n' in after {
      var rest, later := FirstNewline(after);
      var head := before + (word + rest);
      assert text == head + "\n" + later;
      assert IsWord(before, word, rest) by {
        if rest != "" { assert rest[0] == after[0]; }
      }
      hide StandsAt, Wrapped;
      i, p := SegmentFront(before, word, rest, max, gw);
      WrapFirst(head, later, max, gw);
      StandsBefore(Lines(Groups(head, max, gw)), Wrapped(later, max, gw), before, Front(word, max), i, p);
    } else {
      NoneFound(text);
      assert text != "" && text[0..] == text;
      assert Segments(text, 0) == [text];
      hide StandsAt, Wrapped;
      i, p := SegmentFront(before, word, after, max, gw);
      WrapOne(text, max, gw);
    }
  }

  /** The first line of `before`, cut off: the word stands in the rest as it did. */
  lemma CutBefore(before: string, word: string, after: string) returns (head: string, left: string, tail: string)
    requires IsWord(before, word, after) && '\n' in before
    ensures '\n' !in head && before == head + "\n" + left && |left| < |before|
    ensures IsWord(left, word, after)
    ensures tail == left + (word + after) && before + (word + after) == head + "\n" + tail
  {
    hide AllWord, WordChar;
    head, left := FirstNewline(before);
    assert left != "" ==> left[|left| - 1] == before[|before| - 1];
    tail := left + (word + after);
    AppendAssoc(head + "\n", left, word + after);
  }

  lemma LaterWord(head: string, left: string, tail: string, word: string, max: nat, gw: GlyphWidth, k: nat, q: nat)
    returns (i: nat)
    requires max > 0 && '\n' !in head && StandsAt(Wrapped(tail, max, gw), left, word, k, q)
    ensures StandsAt(Wrapped(head + "\n" + tail, max, gw), head + "\n" + left, word, i, q)
  {
    hide *;
    WrapFirst(head, tail, max, gw);
    SegmentKept(head, max, gw);
    var first := Lines(Groups(head, max, gw));
    StandsBehind(first, Wrapped(tail, max, gw), head, left, word, k, q);
    i := |first| + k;
  }

  lemma {:induction false} WordStands(before: string, word: string, after: string, max: nat, gw: GlyphWidth)
    returns (i: nat, p: nat)
    requires IsWord(before, word, after) && 0 < max
    ensures StandsAt(Wrapped(before + (word + after), max, gw), before, Front(word, max), i, p)
    ensures |word| > max ==> p == 0
    decreases |before|
  {
    hide *;
    if '\n' in before {
      var head, left, tail := CutBefore(before, word, after);
      var k;
      k, p := WordStands(left, word, after, max, gw);
      i := LaterWord(head, left, tail, Front(word, max), max, gw, k, p);
    } else {
      i, p := FirstWord(before, word, after, max, gw);
    }
  }

  // --- Necessary breaks ------------------------------------------------------------

  /** The atom would make the line too wide, or starts a word that fits no line. */
  ghost predicate CannotTake(line: string, a: Atom, max: nat, gw: GlyphWidth) {
    (a.force && line != "") || (Width(line, gw) > 0 && Width(line, gw) + Width(a.text, gw) > max)
  }

  /** The line starts with an atom that the line before it could not take, and no space. */
  ghost predicate StartsForced(before: seq<Atom>, group: seq<Atom>, max: nat, gw: GlyphWidth) {
    group != [] && group[0] != BLANK && CannotTake(Render(before), group[0], max, gw)
  }

  ghost predicate BreaksForced(groups: seq<seq<Atom>>, max: nat, gw: GlyphWidth) {
    forall i :: 0 < i < |groups| ==> StartsForced(groups[i - 1], groups[i], max, gw)
  }

  lemma PutForced(l: Layout, a: Atom, max: nat, gw: GlyphWidth)
    requires BreaksForced(l.done + [l.open], max, gw)
    ensures var next := Put(l, a, max, gw); BreaksForced(next.done + [next.open], max, gw)
  {
    var next := Put(l, a, max, gw);
    var was, groups := l.done + [l.open], next.done + [next.open];
    hide Render, Width;
    forall i | 0 < i < |groups|
      ensures StartsForced(groups[i - 1], groups[i], max, gw)
    {
      if i < |was| { assert StartsForced(was[i - 1], was[i], max, gw); }
    }
  }

  lemma {:induction false} PutAllForced(l: Layout, atoms: seq<Atom>, max: nat, gw: GlyphWidth)
    requires BreaksForced(l.done + [l.open], max, gw)
    ensures var end := PutAll(l, atoms, max, gw); BreaksForced(end.done + [end.open], max, gw)
    decreases |atoms|
  {
    if atoms != [] {
      hide BreaksForced, Put;
      PutForced(l, atoms[0], max, gw);
      PutAllForced(Put(l, atoms[0], max, gw), atoms[1..], max, gw);
    }
  }

  // --- Stability -------------------------------------------------------------------

  lemma {:induction false} AllExtend(l: Layout, atoms: seq<Atom>, max: nat, gw: GlyphWidth)
    requires Width(Render(l.open), gw) + Width(Render(atoms), gw) <= max
    requires forall a :: a in atoms ==> !a.force
    ensures PutAll(l, atoms, max, gw) == Layout(l.done, l.open + atoms)
    decreases |atoms|
  {
    if atoms == [] {
      assert l.open + atoms == l.open;
    } else {
      var a, rest := atoms[0], atoms[1..];
      assert atoms == [a] + rest && a in atoms;
      hide Width, Render, Put;
      RenderCons(a, rest);
      WidthAppend(a.text, Render(rest), gw);
      OneExtends(l, a, max, gw);
      AppendAssoc(l.open, [a], rest);
      AllExtend(l.(open := l.open + [a]), rest, max, gw);
    }
  }

  lemma RenderCons(a: Atom, rest: seq<Atom>)
    ensures Render([a] + rest) == a.text + Render(rest)
  {
    assert Render([a]) == "" + a.text == a.text;
    hide Render;
    RenderAppend([a], rest);
  }

  lemma OneExtends(l: Layout, a: Atom, max: nat, gw: GlyphWidth)
    requires !a.force && Width(Render(l.open), gw) + Width(a.text, gw) <= max
    ensures Put(l, a, max, gw) == l.(open := l.open + [a])
    ensures Width(Render(l.open + [a]), gw) == Width(Render(l.open), gw) + Width(a.text, gw)
  {
    assert a == BLANK ==> Width(a.text, gw) == 1 by {
      WidthSnoc("", ' ', gw);
    }
    hide Width, Render;
    RenderSnoc(l.open, a);
    WidthAppend(Render(l.open), a.text, gw);
  }

  lemma {:induction false} NoneForced(segment: string, max: nat, gw: GlyphWidth)
    requires Width(segment, gw) <= max
    ensures forall a :: a in Atoms(segment, max) ==> !a.force
    decreases |segment|
  {
    if segment != "" {
      var n := if WordChar(segment[0]) then WordLength(segment) else 1;
      assert segment == segment[..n] + segment[n..];
      WidthAppend(segment[..n], segment[n..], gw);
      NoneForced(segment[n..], max, gw);
      if WordChar(segment[0]) {
        WordPrefix(segment);
        WordWidth(segment[..n], gw);
      }
    }
  }

  lemma NoneFound(s: string)
    requires '\n' !in s
    ensures Find(s, "\n", 0).None?
  {
    forall j
      ensures !At(s, "\n", j)
    {
      if 0 <= j < |s| { assert s[j] in s && s[j..j + 1] == [s[j]]; }
    }
    NotContained(s, "\n");
  }

  lemma LinesOne(g: seq<Atom>)
    ensures Lines([g]) == [Trim(Render(g))]
  {
  }

  lemma WrapOne(segment: string, max: nat, gw: GlyphWidth)
    requires max > 0 && Segments(segment, 0) == [segment]
    ensures Wrapped(segment, max, gw) == Lines(Groups(segment, max, gw))
  {
    hide Groups, Segments, Lines;
    WrapCons(segment, [], max, gw);
    assert [segment] + [] == [segment];
    assert WrapAll([], max, gw) == [];
  }

  lemma SegmentSingle(segment: string, max: nat, gw: GlyphWidth)
    requires '\n' !in segment
    ensures forall line :: line in Lines(Groups(segment, max, gw)) ==> '\n' !in line
  {
    var atoms, groups := Atoms(segment, max), Groups(segment, max, gw);
    AtomsRender(segment, max);
    RenderMembers(atoms);
    PutAllSingle(Layout([], []), atoms, max, gw);
    hide Groups, Trim, Render, NoNewline;
    forall i | 0 <= i < |groups|
      ensures '\n' !in Lines(groups)[i]
    {
      assert groups[i] in groups;
      RenderMembers(groups[i]);
      TrimFacts(Render(groups[i]), gw);
    }
  }

  lemma {:induction false} WrapAllSingle(segments: seq<string>, text: string, max: nat, gw: GlyphWidth)
    requires forall segment :: segment in segments ==> PieceOf(segment, text)
    ensures forall line :: line in WrapAll(segments, max, gw) ==> '\n' !in line
  {
    if segments != [] {
      assert PieceOf(segments[0], text);
      SegmentSingle(segments[0], max, gw);
      hide Groups, Lines, PieceOf;
      WrapAllSingle(segments[1..], text, max, gw);
    }
  }

  ghost predicate NoNewline(atoms: seq<Atom>) { forall a :: a in atoms ==> '\n' !in a.text }

  lemma {:induction false} RenderMembers(atoms: seq<Atom>)
    ensures '\n' !in Render(atoms) <==> NoNewline(atoms)
  {
    if atoms != [] {
      RenderMembers(atoms[..|atoms| - 1]);
      assert atoms == atoms[..|atoms| - 1] + [atoms[|atoms| - 1]];
    }
  }

  lemma {:induction false} PutAllSingle(l: Layout, atoms: seq<Atom>, max: nat, gw: GlyphWidth)
    requires NoNewline(atoms) && forall g :: g in l.done + [l.open] ==> NoNewline(g)
    ensures var end := PutAll(l, atoms, max, gw); forall g :: g in end.done + [end.open] ==> NoNewline(g)
    decreases |atoms|
  {
    if atoms != [] {
      var next := Put(l, atoms[0], max, gw);
      assert l.open in l.done + [l.open];
      assert forall g :: g in next.done + [next.open] ==> NoNewline(g);
      hide Put;
      PutAllSingle(next, atoms[1..], max, gw);
    }
  }

  /** What one cell of room can hold: a cell, or marks of no width with one wide glyph last. */
  ghost predicate Slim(s: string, gw: GlyphWidth) {
    || Width(s, gw) <= 1
    || (s != "" && Width(s[..|s| - 1], gw) == 0 && Cells(s[|s| - 1], gw) == 2)
  }

  ghost predicate AllSlim(groups: seq<seq<Atom>>, gw: GlyphWidth) {
    forall g :: g in groups ==> Slim(Render(g), gw)
  }

  ghost predicate OneChar(atoms: seq<Atom>) { forall a :: a in atoms ==> |a.text| == 1 }

  lemma {:induction false} AtomsOneChar(segment: string)
    ensures OneChar(Atoms(segment, 1))
    decreases |segment|
  {
    if segment != "" {
      var n := if WordChar(segment[0]) then WordLength(segment) else 1;
      AtomsOneChar(segment[n..]);
    }
  }

  lemma SlimSnoc(s: string, c: char, gw: GlyphWidth)
    requires Width(s, gw) == 0 || Width(s, gw) + Cells(c, gw) <= 1
    ensures Slim(s + [c], gw)
  {
    WidthSnoc(s, c, gw);
    assert (s + [c])[..|s + [c]| - 1] == s;
  }

  lemma PutSlim(l: Layout, a: Atom, gw: GlyphWidth)
    requires AllSlim(l.done + [l.open], gw) && |a.text| == 1
    ensures var next := Put(l, a, 1, gw); AllSlim(next.done + [next.open], gw)
  {
    var cur, c, next := Render(l.open), a.text[0], Put(l, a, 1, gw);
    assert a.text == [c] && l.open in l.done + [l.open] && forall g :: g in l.done ==> g in l.done + [l.open];
    BreakGlyph(cur, c, a.force, 1, gw);
    BreakGlyph("", c, a.force, 1, gw);
    assert Width("", gw) == 0 && "" + [c] == [c] && [] + [a] == [a] && Render([]) == "";
    assert next == l
        || (next == l.(open := l.open + [a]) && (Width(cur, gw) == 0 || Width(cur, gw) + Cells(c, gw) <= 1))
        || next == Layout(l.done + [l.open], [a]);
    hide Width, Render, Cells, Put, MustBreak, Slim;
    RenderSnoc(l.open, a);
    RenderSnoc([], a);
    SlimSnoc("", c, gw);
    if next.open == l.open + [a] && next.done == l.done { SlimSnoc(cur, c, gw); }
  }

  lemma {:induction false} PutAllSlim(l: Layout, atoms: seq<Atom>, gw: GlyphWidth)
    requires AllSlim(l.done + [l.open], gw) && OneChar(atoms)
    ensures var end := PutAll(l, atoms, 1, gw); AllSlim(end.done + [end.open], gw)
    decreases |atoms|
  {
    if atoms != [] {
      hide AllSlim, Put;
      PutSlim(l, atoms[0], gw);
      PutAllSlim(Put(l, atoms[0], 1, gw), atoms[1..], gw);
    }
  }

  lemma SlimTrim(s: string, gw: GlyphWidth)
    requires Slim(s, gw)
    ensures Slim(Trim(s), gw)
  {
    TrimFacts(s, gw);
  }

  lemma {:induction false} WrapAllSlim(segments: seq<string>, gw: GlyphWidth)
    ensures forall line :: line in WrapAll(segments, 1, gw) ==> Slim(line, gw)
  {
    if segments != [] {
      WrapAllSlim(segments[1..], gw);
      var groups := Groups(segments[0], 1, gw);
      AtomsOneChar(segments[0]);
      assert Width(Render([]), gw) == 0;
      PutAllSlim(Layout([], []), Atoms(segments[0], 1), gw);
      assert AllSlim(groups, gw);
      hide Groups, Trim, Render, Width, Slim, Atoms;
      forall i | 0 <= i < |groups|
        ensures Slim(Lines(groups)[i], gw)
      {
        assert groups[i] in groups;
        SlimTrim(Render(groups[i]), gw);
      }
    }
  }

  lemma WideAtoms(marks: string, c: char, max: nat, gw: GlyphWidth)
    requires Width(marks, gw) == 0 && Cells(c, gw) == 2
    ensures Atoms(marks + [c], max) == Atoms(marks, max) + [Atom([c], false)]
  {
    assert !WordChar(c);
    if marks != "" { WidthOfMember(marks, marks[|marks| - 1], gw); }
    assert Atoms([c], max) == [Atom([c], false)] by {
      assert [c][1..] == "" && Atoms("", max) == [];
    }
    hide Atoms, Width;
    AtomsBefore(marks, [c], max);
  }

  lemma MarksStay(marks: string, max: nat, gw: GlyphWidth)
    requires Width(marks, gw) == 0
    ensures PutAll(Layout([], []), Atoms(marks, max), max, gw) == Layout([], Atoms(marks, max))
  {
    NoneForced(marks, max, gw);
    AtomsRender(marks, max);
    assert Width(Render([]), gw) == 0;
    hide Atoms, Width, Render, PutAll;
    AllExtend(Layout([], []), Atoms(marks, max), max, gw);
    assert [] + Atoms(marks, max) == Atoms(marks, max);
  }

  lemma GlyphJoins(atoms: seq<Atom>, c: char, max: nat, gw: GlyphWidth)
    requires Width(Render(atoms), gw) == 0 && Cells(c, gw) == 2
    ensures PutAll(Layout([], atoms), [Atom([c], false)], max, gw) == Layout([], atoms + [Atom([c], false)])
  {
    var a := Atom([c], false);
    assert [a][1..] == [] && Atom([c], false) != BLANK;
  }

  /** A wide glyph behind marks of no width joins them, whatever the room. */
  lemma WideStays(marks: string, c: char, max: nat, gw: GlyphWidth)
    requires Width(marks, gw) == 0 && Cells(c, gw) == 2
    ensures Groups(marks + [c], max, gw) == [Atoms(marks + [c], max)]
  {
    hide Atoms, Width, Render, PutAll, Cells;
    WideAtoms(marks, c, max, gw);
    MarksStay(marks, max, gw);
    AtomsRender(marks, max);
    PutAllAppend(Layout([], []), Atoms(marks, max), [Atom([c], false)], max, gw);
    GlyphJoins(Atoms(marks, max), c, max, gw);
  }

  lemma SlimLineStays(line: string, max: nat, gw: GlyphWidth)
    requires max > 0 && line != "" && '\n' !in line && line[|line| - 1] != ' '
    requires Width(line[..|line| - 1], gw) == 0 && Cells(line[|line| - 1], gw) == 2
    ensures Wrapped(line, max, gw) == [line]
  {
    var marks, c := line[..|line| - 1], line[|line| - 1];
    assert line == marks + [c] && line[0..] == line;
    NoneFound(line);
    assert Segments(line, 0) == [line];
    assert Trim(line) == line;
    hide *;
    WideStays(marks, c, max, gw);
    AtomsRender(line, max);
    LinesOne(Atoms(line, max));
    WrapOne(line, max, gw);
  }
}
