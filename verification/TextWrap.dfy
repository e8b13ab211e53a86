/** Wrapping of text to a number of terminal cells. A `char` is one Unicode scalar, the unit
    at which the source's byte loop advances on valid UTF-8. The loops are proved equal to a
    greedy placement of atoms; what that promises is the subject of `WrapGuarantees`. */
module TextWrap {
  import opened Text

  /** Cells of a non-ASCII glyph: 0 for combining marks, 2 for wide ones. */
  type GlyphWidth = f: char -> nat | forall c :: f(c) <= 2 witness (c: char) => 1

  function Cells(c: char, gw: GlyphWidth): nat {
    if c as int < 0x80 then 1 else gw(c)
  }

  function Width(s: string, gw: GlyphWidth): nat {
    if s == "" then 0 else Width(s[..|s| - 1], gw) + Cells(s[|s| - 1], gw)
  }

  predicate WordChar(c: char) {
    '0' <= c <= '9' || 'a' <= c <= 'z' || 'A' <= c <= 'Z' || c == '_' || c == '-' || c == '.' || c == '/'
  }

  /** Hyphen, dot, slash, digits, letters and the underscore. */
  lemma WordCharsAre(c: char)
    ensures WordChar(c) <==> 45 <= c as int <= 57 || 65 <= c as int <= 90 || c as int == 95 || 97 <= c as int <= 122
  {
  }

  ghost predicate AllWord(s: string) { forall c :: c in s ==> WordChar(c) }

  function Trim(s: string): string {
    if s != "" && s[|s| - 1] == ' ' then Trim(s[..|s| - 1]) else s
  }

  // --- The layout ------------------------------------------------------------------

  /** What is never broken: a space, a glyph, a word that fits a line, or one character of a
      word that fits none, the first of which is forced to a new line. */
  datatype Atom = Atom(text: string, force: bool)

  const BLANK: Atom := Atom(" ", false)

  /** Closed lines and the open one, as the atoms on them. */
  datatype Layout = Layout(done: seq<seq<Atom>>, open: seq<Atom>)

  function Render(atoms: seq<Atom>): string {
    if atoms == [] then "" else Render(atoms[..|atoms| - 1]) + atoms[|atoms| - 1].text
  }

  function WordLength(s: string): (n: nat)
    ensures n <= |s|
  {
    if s == "" || !WordChar(s[0]) then 0 else 1 + WordLength(s[1..])
  }

  function WordAtoms(word: string, max: nat): seq<Atom> {
    if |word| > max then seq(|word|, i requires 0 <= i < |word| => Atom([word[i]], i == 0))
    else if word == "" then []
    else [Atom(word, false)]
  }

  function Atoms(segment: string, max: nat): seq<Atom>
    decreases |segment|
  {
    if segment == "" then []
    else if WordChar(segment[0]) then
      var n := WordLength(segment);
      WordAtoms(segment[..n], max) + Atoms(segment[n..], max)
    else [Atom([segment[0]], false)] + Atoms(segment[1..], max)
  }

  /** The atom cannot go behind `cur`. */
  predicate MustBreak(cur: string, a: Atom, max: nat, gw: GlyphWidth) {
    || (a.force && cur != "")
    || (Width(cur, gw) > 0 && Width(cur, gw) + Width(a.text, gw) > max)
  }

  /** Greedy placement; a space at the end of a full line is dropped. */
  function Put(l: Layout, a: Atom, max: nat, gw: GlyphWidth): Layout {
    if a == BLANK then
      if Width(Render(l.open), gw) < max then l.(open := l.open + [a]) else l
    else if MustBreak(Render(l.open), a, max, gw) then Layout(l.done + [l.open], [a])
    else l.(open := l.open + [a])
  }

  function PutAll(l: Layout, atoms: seq<Atom>, max: nat, gw: GlyphWidth): Layout
    decreases |atoms|
  {
    if atoms == [] then l else PutAll(Put(l, atoms[0], max, gw), atoms[1..], max, gw)
  }

  function Groups(segment: string, max: nat, gw: GlyphWidth): seq<seq<Atom>> {
    var l := PutAll(Layout([], []), Atoms(segment, max), max, gw);
    l.done + [l.open]
  }

  function Lines(groups: seq<seq<Atom>>): seq<string> {
    seq(|groups|, i requires 0 <= i < |groups| => Trim(Render(groups[i])))
  }

  /** The text between newlines, from an offset; a final newline opens no segment. */
  function Segments(text: string, start: nat): seq<string>
    decreases |text| - start
  {
    if start >= |text| then []
    else
      var nl := Find(text, "\n", start);
      if nl.None? then [text[start..]] else [text[start..nl.value]] + Segments(text, nl.value + 1)
  }

  function WrapAll(segments: seq<string>, max: nat, gw: GlyphWidth): seq<string> {
    if segments == [] then []
    else Lines(Groups(segments[0], max, gw)) + WrapAll(segments[1..], max, gw)
  }

  function Wrapped(text: string, maxWidth: int, gw: GlyphWidth): seq<string> {
    if maxWidth <= 0 then Segments(text, 0) else WrapAll(Segments(text, 0), maxWidth, gw)
  }

  // --- The loops -------------------------------------------------------------------

  lemma RenderSnoc(atoms: seq<Atom>, a: Atom)
    ensures Render(atoms + [a]) == Render(atoms) + a.text
  {
    assert (atoms + [a])[..|atoms|] == atoms;
  }

  lemma WidthSnoc(s: string, c: char, gw: GlyphWidth)
    ensures Width(s + [c], gw) == Width(s, gw) + Cells(c, gw)
  {
    assert (s + [c])[..|s|] == s;
  }

  lemma {:induction false} WidthAppend(a: string, b: string, gw: GlyphWidth)
    ensures Width(a + b, gw) == Width(a, gw) + Width(b, gw)
  {
    if b == "" {
      assert a + b == a;
    } else {
      WidthAppend(a, b[..|b| - 1], gw);
      assert (a + b)[..|a + b| - 1] == a + b[..|b| - 1];
    }
  }

  lemma {:induction false} WordWidth(word: string, gw: GlyphWidth)
    requires AllWord(word)
    ensures Width(word, gw) == |word|
  {
    if word != "" {
      WordWidth(word[..|word| - 1], gw);
      assert WordChar(word[|word| - 1]);
    }
  }

  lemma {:induction false} PutAllAppend(l: Layout, a: seq<Atom>, b: seq<Atom>, max: nat, gw: GlyphWidth)
    ensures PutAll(l, a + b, max, gw) == PutAll(PutAll(l, a, max, gw), b, max, gw)
    decreases |a|
  {
    if a == [] {
      assert a + b == b;
    } else {
      assert (a + b)[1..] == a[1..] + b;
      PutAllAppend(Put(l, a[0], max, gw), a[1..], b, max, gw);
    }
  }

  lemma LinesSnoc(groups: seq<seq<Atom>>, g: seq<Atom>)
    ensures Lines(groups + [g]) == Lines(groups) + [Trim(Render(g))]
  {
  }

  /** The loop's variables hold a layout behind the lines of earlier segments. */
  ghost predicate Holds(lines: seq<string>, cur: string, curW: int, before: seq<string>, l: Layout, gw: GlyphWidth) {
    lines == before + Lines(l.done) && cur == Render(l.open) && curW == Width(cur, gw)
  }

  function Closed(l: Layout): Layout { Layout(l.done + [l.open], []) }

  /** An atom that forces a break lands where it would land after closing the line. */
  lemma PutBroken(l: Layout, a: Atom, max: nat, gw: GlyphWidth)
    requires a != BLANK && MustBreak(Render(l.open), a, max, gw)
    ensures Put(l, a, max, gw) == Put(Closed(l), a, max, gw)
  {
    assert [] + [a] == [a];
  }

  /** An atom that forces none extends the open line. */
  lemma Extend(lines: seq<string>, cur: string, curW: int, before: seq<string>, l: Layout,
               a: Atom, max: nat, gw: GlyphWidth)
    requires Holds(lines, cur, curW, before, l, gw) && !MustBreak(cur, a, max, gw)
    requires a == BLANK ==> curW < max
    ensures Holds(lines, cur + a.text, curW + Width(a.text, gw), before, Put(l, a, max, gw), gw)
  {
    hide Width;
    RenderSnoc(l.open, a);
    WidthAppend(cur, a.text, gw);
  }

  lemma BreakGlyph(cur: string, c: char, first: bool, max: nat, gw: GlyphWidth)
    ensures MustBreak(cur, Atom([c], first), max, gw) <==>
            (first && cur != "") || (Width(cur, gw) > 0 && Width(cur, gw) + Cells(c, gw) > max)
    ensures Width([c], gw) == Cells(c, gw)
  {
    WidthSnoc("", c, gw);
  }

  lemma BreakWord(cur: string, word: string, max: nat, gw: GlyphWidth)
    requires 0 < |word| <= max && AllWord(word)
    ensures Atom(word, false) != BLANK
    ensures MustBreak(cur, Atom(word, false), max, gw) <==> cur != "" && Width(cur, gw) + |word| > max
    ensures Width(word, gw) == |word|
  {
    WordWidth(word, gw);
    assert WordChar(word[0]);
  }

  lemma PutOne(l: Layout, atoms: seq<Atom>, i: nat, max: nat, gw: GlyphWidth)
    requires i < |atoms|
    ensures PutAll(l, atoms[..i + 1], max, gw) == Put(PutAll(l, atoms[..i], max, gw), atoms[i], max, gw)
  {
    assert atoms[..i + 1] == atoms[..i] + [atoms[i]];
    PutAllAppend(l, atoms[..i], [atoms[i]], max, gw);
  }

  method PushLine(lines: seq<string>, cur: string, ghost curW: int, ghost before: seq<string>, ghost l: Layout,
                  gw: GlyphWidth)
    returns (pushed: seq<string>)
    requires Holds(lines, cur, curW, before, l, gw)
    ensures Holds(pushed, "", 0, before, Closed(l), gw)
  {
    var line := cur;
    while line != "" && line[|line| - 1] == ' '
      invariant Trim(line) == Trim(cur)
      decreases |line|
    {
      line := line[..|line| - 1];
    }
    pushed := lines + [line];
    hide Trim;
    LinesSnoc(l.done, l.open);
    AppendAssoc(before, Lines(l.done), [line]);
  }

  /** Put the pending word behind the open line, breaking it only when no line could hold it. */
  method FlushWord(lines: seq<string>, cur: string, curW: int, word: string, max: nat,
                   ghost before: seq<string>, ghost l: Layout, gw: GlyphWidth)
    returns (lines': seq<string>, cur': string, curW': int)
    requires max > 0 && Holds(lines, cur, curW, before, l, gw) && AllWord(word)
    ensures Holds(lines', cur', curW', before, PutAll(l, WordAtoms(word, max), max, gw), gw)
  {
    lines', cur', curW' := lines, cur, curW;
    if word == "" { return; }
    ghost var at := l;
    assert curW == Width(cur, gw) && cur == Render(l.open) && Width("", gw) == 0;
    hide *;
    if cur' != "" && curW' + |word| > max {
      lines' := PushLine(lines', cur', curW', before, l, gw);
      cur', curW' := "", 0;
      at := Closed(l);
    }
    WordLands(l, at, word, max, gw);
    if |word| > max {
      lines', cur', curW' := HardBreak(lines', word, max, before, at, gw);
    } else {
      BreakWord(cur', word, max, gw);
      Extend(lines', cur', curW', before, at, Atom(word, false), max, gw);
      cur', curW' := cur' + word, curW' + |word|;
    }
  }

  /** The line is closed before the word exactly when its first atom would close it. */
  lemma WordLands(l: Layout, at: Layout, word: string, max: nat, gw: GlyphWidth)
    requires word != "" && AllWord(word)
    requires var cur := Render(l.open); at == if cur != "" && Width(cur, gw) + |word| > max then Closed(l) else l
    ensures PutAll(l, WordAtoms(word, max), max, gw) == PutAll(at, WordAtoms(word, max), max, gw)
    ensures |word| <= max ==> !MustBreak(Render(at.open), Atom(word, false), max, gw)
    ensures |word| <= max ==> PutAll(at, WordAtoms(word, max), max, gw) == Put(at, Atom(word, false), max, gw)
    ensures |word| > max ==> Render(at.open) == ""
  {
    var atoms := WordAtoms(word, max);
    assert WordChar(word[0]) && atoms[0] != BLANK;
    if |word| <= max {
      BreakWord(Render(l.open), word, max, gw);
      BreakWord(Render(at.open), word, max, gw);
    } else {
      BreakGlyph(Render(l.open), word[0], true, max, gw);
    }
    hide WordChar, AllWord, Width, Render;
    if at != l { PutBroken(l, atoms[0], max, gw); }
  }

  method HardBreak(lines: seq<string>, word: string, max: nat, ghost before: seq<string>, ghost l: Layout,
                   gw: GlyphWidth)
    returns (lines': seq<string>, cur': string, curW': int)
    requires 0 < max < |word| && AllWord(word) && Holds(lines, "", 0, before, l, gw)
    ensures Holds(lines', cur', curW', before, PutAll(l, WordAtoms(word, max), max, gw), gw)
  {
    lines', cur', curW' := lines, "", 0;
    ghost var atoms, now := WordAtoms(word, max), l;
    assert |atoms| == |word| && forall i :: 0 <= i < |word| ==> atoms[i] == Atom([word[i]], i == 0);
    assert PutAll(l, atoms[..0], max, gw) == l;
    hide *;
    for i := 0 to |word|
      invariant now == PutAll(l, atoms[..i], max, gw)
      invariant Holds(lines', cur', curW', before, now, gw) && (i == 0 ==> cur' == "" && curW' == 0)
    {
      CharLands(cur', curW', lines', before, now, word, i, max, gw);
      PutOne(l, atoms, i, max, gw);
      now := Put(now, atoms[i], max, gw);
      if curW' >= max {
        lines' := PushLine(lines', cur', curW', before, PutAll(l, atoms[..i], max, gw), gw);
        cur', curW' := "", 0;
        CharLands(cur', curW', lines', before, Closed(PutAll(l, atoms[..i], max, gw)), word, i, max, gw);
      }
      cur', curW' := cur' + [word[i]], curW' + 1;
    }
    assert atoms[..|word|] == atoms;
  }

  lemma CharLands(cur: string, curW: int, lines: seq<string>, before: seq<string>, l: Layout,
                  word: string, i: nat, max: nat, gw: GlyphWidth)
    requires 0 < max && i < |word| && AllWord(word) && Holds(lines, cur, curW, before, l, gw)
    requires i == 0 ==> cur == "" && curW == 0
    ensures var a := Atom([word[i]], i == 0);
            if curW >= max then Put(l, a, max, gw) == Put(Closed(l), a, max, gw)
            else Holds(lines, cur + [word[i]], curW + 1, before, Put(l, a, max, gw), gw)
  {
    var a := Atom([word[i]], i == 0);
    assert WordChar(word[i]) && a != BLANK && Cells(word[i], gw) == 1;
    BreakGlyph(cur, word[i], i == 0, max, gw);
    assert curW == Width(cur, gw) && cur == Render(l.open);
    hide Holds, Put, Width, Render, WordChar, AllWord;
    if curW >= max {
      PutBroken(l, a, max, gw);
    } else {
      Extend(lines, cur, curW, before, l, a, max, gw);
    }
  }

  lemma {:induction false} WordLengthOf(word: string, rest: string)
    requires AllWord(word)
    requires rest != "" ==> !WordChar(rest[0])
    ensures WordLength(word + rest) == |word|
  {
    if word == "" {
      assert word + rest == rest;
    } else {
      assert WordChar(word[0]);
      assert (word + rest)[1..] == word[1..] + rest;
      WordLengthOf(word[1..], rest);
    }
  }

  /** A pending word ends where a character of another kind, or the segment's end, comes. */
  lemma AtomsAfterWord(word: string, rest: string, max: nat)
    requires AllWord(word)
    requires rest != "" ==> !WordChar(rest[0])
    ensures Atoms(word + rest, max) == WordAtoms(word, max) + Atoms(rest, max)
    ensures rest != "" ==> Atoms(rest, max) == [Atom([rest[0]], false)] + Atoms(rest[1..], max)
  {
    WordLengthOf(word, rest);
    if word == "" {
      assert word + rest == rest;
    } else {
      assert WordChar(word[0]);
      assert (word + rest)[..|word|] == word && (word + rest)[|word|..] == rest;
    }
  }

  /** The run of the loop after a pending word: the word, one more atom, then the rest. */
  lemma PutWordAnd(l: Layout, word: string, rest: string, max: nat, gw: GlyphWidth)
    requires AllWord(word)
    requires rest != "" ==> !WordChar(rest[0])
    ensures var flushed := PutAll(l, WordAtoms(word, max), max, gw);
            && (rest == "" ==> PutAll(l, Atoms(word + rest, max), max, gw) == flushed)
            && (rest != "" ==>
                  PutAll(l, Atoms(word + rest, max), max, gw) ==
                  PutAll(Put(flushed, Atom([rest[0]], false), max, gw), Atoms("" + rest[1..], max), max, gw))
  {
    AtomsAfterWord(word, rest, max);
    var flushed := PutAll(l, WordAtoms(word, max), max, gw);
    PutAllAppend(l, WordAtoms(word, max), Atoms(rest, max), max, gw);
    if rest == "" {
      assert Atoms(rest, max) == [];
    } else {
      hide Atoms, WordAtoms, Put;
      assert "" + rest[1..] == rest[1..];
      var a := Atom([rest[0]], false);
      assert ([a] + Atoms(rest[1..], max))[1..] == Atoms(rest[1..], max);
    }
  }

  /** What remains of the segment, behind the pending word, still leads to `target`. */
  ghost predicate Ahead(l: Layout, word: string, rest: string, max: nat, gw: GlyphWidth, target: Layout) {
    AllWord(word) && PutAll(l, Atoms(word + rest, max), max, gw) == target
  }

  lemma CollectWord(l: Layout, word: string, segment: string, i: nat, max: nat, gw: GlyphWidth, target: Layout)
    requires i < |segment| && Ahead(l, word, segment[i..], max, gw, target) && WordChar(segment[i])
    ensures Ahead(l, word + [segment[i]], segment[i + 1..], max, gw, target)
  {
    hide Atoms, PutAll;
    assert word + segment[i..] == (word + [segment[i]]) + segment[i + 1..];
  }

  lemma EndWord(l: Layout, word: string, segment: string, i: nat, max: nat, gw: GlyphWidth, target: Layout)
    requires i <= |segment| && Ahead(l, word, segment[i..], max, gw, target)
    requires i < |segment| ==> !WordChar(segment[i])
    ensures var flushed := PutAll(l, WordAtoms(word, max), max, gw);
            if i == |segment| then flushed == target
            else Ahead(Put(flushed, Atom([segment[i]], false), max, gw), "", segment[i + 1..], max, gw, target)
  {
    hide Atoms, PutAll;
    PutWordAnd(l, word, segment[i..], max, gw);
  }

  method WrapSegment(lines: seq<string>, segment: string, max: nat, gw: GlyphWidth) returns (wrapped: seq<string>)
    requires max > 0
    ensures wrapped == lines + Lines(Groups(segment, max, gw))
  {
    wrapped := lines;
    var cur, curW := "", 0;
    var word, i := "", 0;
    ghost var l := Layout([], []);
    ghost var target := PutAll(l, Atoms(segment, max), max, gw);
    StartSegment(lines, segment, max, gw, target);
    hide *;
    while i < |segment|
      invariant 0 <= i <= |segment| && AllWord(word)
      invariant Holds(wrapped, cur, curW, lines, l, gw)
      invariant Ahead(l, word, segment[i..], max, gw, target)
    {
      var c := segment[i];
      if WordChar(c) {
        CollectWord(l, word, segment, i, max, gw, target);
        AllWordSnoc(word, c);
        word := word + [c];
      } else {
        EndWord(l, word, segment, i, max, gw, target);
        wrapped, cur, curW := FlushWord(wrapped, cur, curW, word, max, lines, l, gw);
        l := PutAll(l, WordAtoms(word, max), max, gw);
        wrapped, cur, curW := PlaceGlyph(wrapped, cur, curW, c, max, lines, l, gw);
        l := Put(l, Atom([c], false), max, gw);
        word := "";
        NoWord();
      }
      i := i + 1;
    }
    EndWord(l, word, segment, i, max, gw, target);
    wrapped, cur, curW := FlushWord(wrapped, cur, curW, word, max, lines, l, gw);
    wrapped := PushLine(wrapped, cur, curW, lines, target, gw);
    HeldLines(wrapped, lines, Closed(target), gw);
  }

  lemma HeldLines(lines: seq<string>, before: seq<string>, l: Layout, gw: GlyphWidth)
    requires Holds(lines, "", 0, before, l, gw)
    ensures lines == before + Lines(l.done)
  {
  }

  lemma NoWord()
    ensures AllWord("")
  {
  }

  lemma AllWordSnoc(word: string, c: char)
    requires AllWord(word) && WordChar(c)
    ensures AllWord(word + [c])
  {
  }

  lemma StartSegment(lines: seq<string>, segment: string, max: nat, gw: GlyphWidth, target: Layout)
    requires target == PutAll(Layout([], []), Atoms(segment, max), max, gw)
    ensures Holds(lines, "", 0, lines, Layout([], []), gw)
    ensures Ahead(Layout([], []), "", segment[0..], max, gw, target) && AllWord("")
    ensures Groups(segment, max, gw) == Closed(target).done
  {
    assert Lines([]) == [] && lines + [] == lines;
    assert "" + segment[0..] == segment;
  }

  /** A space, a punctuation mark or a glyph outside ASCII. */
  method PlaceGlyph(lines: seq<string>, cur: string, curW: int, c: char, max: nat,
                    ghost before: seq<string>, ghost l: Layout, gw: GlyphWidth)
    returns (lines': seq<string>, cur': string, curW': int)
    requires max > 0 && Holds(lines, cur, curW, before, l, gw)
    ensures Holds(lines', cur', curW', before, Put(l, Atom([c], false), max, gw), gw)
  {
    lines', cur', curW' := lines, cur, curW;
    GlyphLands(cur, curW, lines, before, l, c, max, gw);
    assert c == ' ' ==> [c] == " " && Cells(c, gw) == 1;
    hide Holds, Put, Lines, Width, Render, Trim, MustBreak;
    if c == ' ' {
      if curW' < max { cur', curW' := cur' + " ", curW' + 1; }
      return;
    }
    var w := if c as int < 0x80 then 1 else gw(c);
    assert w == Cells(c, gw);
    if c as int < 0x80 {
      if curW' >= max {
        lines' := PushLine(lines', cur', curW', before, l, gw);
        cur', curW' := "", 0;
        GlyphLands(cur', curW', lines', before, Closed(l), c, max, gw);
      }
    } else if curW' > 0 && curW' + w > max {
      lines' := PushLine(lines', cur', curW', before, l, gw);
      cur', curW' := "", 0;
      GlyphLands(cur', curW', lines', before, Closed(l), c, max, gw);
    }
    cur', curW' := cur' + [c], curW' + w;
  }

  lemma GlyphLands(cur: string, curW: int, lines: seq<string>, before: seq<string>, l: Layout,
                   c: char, max: nat, gw: GlyphWidth)
    requires 0 < max && Holds(lines, cur, curW, before, l, gw)
    ensures var a := Atom([c], false);
            if c == ' ' && curW >= max then Holds(lines, cur, curW, before, Put(l, a, max, gw), gw)
            else if c != ' ' && 0 < curW && curW + Cells(c, gw) > max then
              Put(l, a, max, gw) == Put(Closed(l), a, max, gw)
            else Holds(lines, cur + [c], curW + Cells(c, gw), before, Put(l, a, max, gw), gw)
  {
    var a := Atom([c], false);
    BreakGlyph(cur, c, false, max, gw);
    assert curW == Width(cur, gw) && cur == Render(l.open);
    assert c == ' ' <==> a == BLANK;
    if c == ' ' && curW >= max {
      assert Put(l, a, max, gw) == l;
    } else {
      hide Holds, Put, Width, Render;
      if c != ' ' && 0 < curW && curW + Cells(c, gw) > max {
        PutBroken(l, a, max, gw);
      } else {
        Extend(lines, cur, curW, before, l, a, max, gw);
      }
    }
  }

  method WrapByWidth(text: string, maxWidth: int, gw: GlyphWidth) returns (lines: seq<string>)
    ensures lines == Wrapped(text, maxWidth, gw)
  {
    lines := [];
    if text == "" { return; }
    if maxWidth <= 0 {
      lines := SplitLines(text);
      return;
    }
    var start := 0;
    ghost var target := Wrapped(text, maxWidth, gw);
    assert StillToWrap(lines, text, start, maxWidth, gw, target) by {
      assert [] + target == target;
    }
    hide *;
    while start < |text|
      invariant start <= |text| && StillToWrap(lines, text, start, maxWidth, gw, target)
    {
      var nl := Find(text, "\n", start);
      if nl.None? {
        WrapLast(lines, text, start, maxWidth, gw, target);
        lines := WrapSegment(lines, text[start..], maxWidth, gw);
        return;
      }
      WrapNext(lines, text, start, maxWidth, gw, target);
      lines := WrapSegment(lines, text[start..nl.value], maxWidth, gw);
      start := nl.value + 1;
    }
    assert |text| <= start && lines == target by {
      WrapEnd(lines, text, start, maxWidth, gw, target);
    }
  }

  ghost predicate StillToWrap(lines: seq<string>, text: string, start: nat, max: nat, gw: GlyphWidth,
                              target: seq<string>) {
    lines + WrapAll(Segments(text, start), max, gw) == target
  }

  lemma WrapLast(lines: seq<string>, text: string, start: nat, max: nat, gw: GlyphWidth, target: seq<string>)
    requires start < |text| && StillToWrap(lines, text, start, max, gw, target) && Find(text, "\n", start).None?
    ensures lines + Lines(Groups(text[start..], max, gw)) == target
  {
    var here := text[start..];
    assert Segments(text, start) == [here];
    assert WrapAll([], max, gw) == [];
    hide Segments, WrapAll, Groups, Find, Lines;
    WrapCons(here, [], max, gw);
    assert [here] + [] == [here];
    assert Lines(Groups(here, max, gw)) + [] == Lines(Groups(here, max, gw));
  }

  lemma SegmentsCut(text: string, start: nat)
    ensures var nl := Find(text, "\n", start);
            Segments(text, start) ==
            if start >= |text| then []
            else if nl.None? then [text[start..]]
            else [text[start..nl.value]] + Segments(text, nl.value + 1)
  {
  }

  lemma WrapNext(lines: seq<string>, text: string, start: nat, max: nat, gw: GlyphWidth, target: seq<string>)
    requires start < |text| && StillToWrap(lines, text, start, max, gw, target) && Find(text, "\n", start).Some?
    ensures var nl := Find(text, "\n", start).value;
            StillToWrap(lines + Lines(Groups(text[start..nl], max, gw)), text, nl + 1, max, gw, target)
  {
    hide Segments, WrapAll, Groups, Find, Lines, At;
    var nl := Find(text, "\n", start).value;
    SegmentsCut(text, start);
    WrapStep(lines, text[start..nl], Segments(text, nl + 1), max, gw);
  }

  lemma WrapStep(lines: seq<string>, here: string, later: seq<string>, max: nat, gw: GlyphWidth)
    ensures lines + WrapAll([here] + later, max, gw) == (lines + Lines(Groups(here, max, gw))) + WrapAll(later, max, gw)
  {
    hide *;
    WrapCons(here, later, max, gw);
    AppendAssoc(lines, Lines(Groups(here, max, gw)), WrapAll(later, max, gw));
  }

  lemma WrapEnd(lines: seq<string>, text: string, start: nat, max: nat, gw: GlyphWidth, target: seq<string>)
    requires StillToWrap(lines, text, start, max, gw, target) && start >= |text|
    ensures lines == target
  {
  }

  /** The branch for a width that allows no wrapping. */
  method SplitLines(text: string) returns (lines: seq<string>)
    ensures lines == Segments(text, 0)
  {
    lines := [];
    var start := 0;
    hide At, Find;
    while start < |text|
      invariant start <= |text| && lines + Segments(text, start) == Segments(text, 0)
    {
      var nl := Find(text, "\n", start);
      if nl.None? { return lines + [text[start..]]; }
      Glue(lines, Segments(text, start), [text[start..nl.value]], Segments(text, nl.value + 1));
      lines := lines + [text[start..nl.value]];
      start := nl.value + 1;
    }
  }

  lemma WrapCons(segment: string, later: seq<string>, max: nat, gw: GlyphWidth)
    ensures WrapAll([segment] + later, max, gw) == Lines(Groups(segment, max, gw)) + WrapAll(later, max, gw)
  {
    assert ([segment] + later)[1..] == later;
  }
}
