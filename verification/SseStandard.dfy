/** When the parser cuts a stream into the records of the WHATWG HTML Standard. There a line
    ends with LF, CR or CR LF and an empty line ends a record; the parser only looks for two
    LF in a row. Both divisions are compared line by line, and the condition under which they
    agree is exact. */
module SseStandard {
  import opened Text
  import opened SseParser

  /** Where the first line ends: at LF, and with `cr` at CR as well; `|s|` if it does not. */
  function LineEnd(s: string, cr: bool): (e: nat)
    ensures e <= |s|
  {
    if s == "" || s[0] == '\n' || (cr && s[0] == '\r') then 0 else 1 + LineEnd(s[1..], cr)
  }

  /** What follows a line end; CR LF counts as one. */
  function AfterEnd(s: string, e: nat): (rest: string)
    requires e < |s|
    ensures |rest| < |s|
  {
    if s[e] == '\r' && e + 1 < |s| && s[e + 1] == '\n' then s[e + 2..] else s[e + 1..]
  }

  /** The records of a stream as section 9.2.6 of the standard delimits them: a blank line ends
      the lines collected since the one before (`open`), and no lines are no record. */
  function RecordsFrom(s: string, open: seq<string>, cr: bool): seq<seq<string>>
    decreases |s|
  {
    var e := LineEnd(s, cr);
    if e == |s| then []
    else if e == 0 then (if open == [] then [] else [open]) + RecordsFrom(AfterEnd(s, e), [], cr)
    else RecordsFrom(AfterEnd(s, e), open + [s[..e]], cr)
  }

  function StandardRecords(s: string): seq<seq<string>> { RecordsFrom(s, [], true) }

  function NonEmpty(lines: seq<string>): seq<string> {
    if lines == [] then [] else (if lines[0] == "" then [] else [lines[0]]) + NonEmpty(lines[1..])
  }

  function OneRecord(lines: seq<string>): seq<seq<string>> { if lines == [] then [] else [lines] }

  /** The records of the parser: the lines of each block, empty ones aside. */
  function RecordsOf(blocks: seq<string>): seq<seq<string>> {
    if blocks == [] then []
    else OneRecord(NonEmpty(Pieces(blocks[0], '\n', 0))) + RecordsOf(blocks[1..])
  }

  function ParserRecords(s: string): seq<seq<string>> { RecordsOf(Blocks(s, BLANK)) }

  // --- Records are what matters ----------------------------------------------------

  lemma NonEmptyCons(line: string, more: seq<string>)
    ensures line == "" ==> NonEmpty([line] + more) == NonEmpty(more)
    ensures line != "" ==> NonEmpty([line] + more) == [line] + NonEmpty(more)
  {
    assert ([line] + more)[1..] == more && [] + NonEmpty(more) == NonEmpty(more);
  }

  lemma {:induction false} NonEmptySnoc(lines: seq<string>, line: string)
    ensures line == "" ==> NonEmpty(lines + [line]) == NonEmpty(lines)
    ensures line != "" ==> NonEmpty(lines + [line]) == NonEmpty(lines) + [line]
  {
    if lines == [] {
      NonEmptyCons(line, []);
      assert NonEmpty([]) == [];
      hide NonEmpty;
      assert [] + [line] == [line] && [line] + [] == [line];
    } else {
      hide *;
      var first, rest := lines[0], lines[1..];
      assert lines == [first] + rest;
      NonEmptySnoc(rest, line);
      NonEmptyCons(first, rest);
      NonEmptyCons(first, rest + [line]);
      AppendAssoc([first], rest, [line]);
      AppendAssoc([first], NonEmpty(rest), [line]);
    }
  }

  /** Empty lines say nothing about an event, so records determine the events. */
  lemma {:induction false} EmptyLinesIgnored(lines: seq<string>)
    ensures FoldLines(NonEmpty(lines)) == FoldLines(lines)
  {
    if lines != [] {
      hide *;
      var init, line := lines[..|lines| - 1], lines[|lines| - 1];
      assert lines == init + [line];
      EmptyLinesIgnored(init);
      NonEmptySnoc(init, line);
      FoldSnoc(init, line);
      FoldSnoc(NonEmpty(init), line);
    }
  }

  lemma FoldSnoc(lines: seq<string>, line: string)
    ensures FoldLines(lines + [line]) == StepLine(FoldLines(lines), line)
    ensures line == "" ==> FoldLines(lines + [line]) == FoldLines(lines)
  {
    assert (lines + [line])[..|lines|] == lines;
    NoColon("");
  }

  // --- Line by line ----------------------------------------------------------------

  lemma {:induction false} LineEndFacts(s: string, cr: bool)
    ensures var e := LineEnd(s, cr);
            && (forall k :: 0 <= k < e ==> s[k] != '\n' && (cr ==> s[k] != '\r'))
            && (e < |s| ==> s[e] == '\n' || (cr && s[e] == '\r'))
  {
    if s != "" && s[0] != '\n' && !(cr && s[0] == '\r') { LineEndFacts(s[1..], cr); }
  }

  lemma {:induction false} LineEndIs(line: string, end: char, rest: string, cr: bool)
    requires '\n' !in line && (cr ==> '\r' !in line) && (end == '\n' || (cr && end == '\r'))
    ensures LineEnd(line + [end] + rest, cr) == |line|
  {
    if line == "" {
      assert "" + [end] + rest == [end] + rest;
    } else {
      assert (line + [end] + rest)[1..] == line[1..] + [end] + rest;
      assert line[0] in line;
      LineEndIs(line[1..], end, rest, cr);
    }
  }

  lemma LineAt(line: string, rest: string)
    ensures var s := line + "\n" + rest; |line| < |s| && s[..|line|] == line && AfterEnd(s, |line|) == rest
  {
    var s := line + "\n" + rest;
    assert s[|line|] == '\n' && s[|line| + 1..] == rest;
  }

  lemma RecordsLine(line: string, rest: string, open: seq<string>, cr: bool)
    requires '\n' !in line && (cr ==> '\r' !in line)
    ensures RecordsFrom(line + "\n" + rest, open, cr) ==
            if line == "" then OneRecord(open) + RecordsFrom(rest, [], cr) else RecordsFrom(rest, open + [line], cr)
  {
    LineEndIs(line, '\n', rest, cr);
    LineAt(line, rest);
    hide AfterEnd, LineEnd;
  }

  /** The first line of a text that has more than one. */
  lemma FirstLine(s: string) returns (line: string, rest: string)
    requires '\n' in s
    ensures '\n' !in line && s == line + "\n" + rest && |rest| < |s|
    ensures Pieces(s, '\n', 0) == [line] + Pieces(rest, '\n', 0)
  {
    var nl := FirstBreak(s);
    line, rest := s[0..nl], s[nl + 1..];
    assert s[0..] == s;
    hide Find;
    PiecesTail(s, nl + 1);
  }

  lemma FirstBreak(s: string) returns (nl: nat)
    requires '\n' in s
    ensures nl < |s| && Find(s, "\n", 0) == Some(nl)
    ensures '\n' !in s[0..nl] && s[0..] == s[0..nl] + "\n" + s[nl + 1..]
  {
    FindLeftmost(s, "\n", 0);
    var k :| 0 <= k < |s| && s[k] == '\n';
    assert s[k..k + 1] == "\n" && At(s, "\n", k);
    nl := Find(s, "\n", 0).value;
    hide Find, At;
    NoDelimiter(s, '\n', 0, nl);
    CutAround(s, '\n', 0, nl);
  }

  lemma PiecesCut(s: string, from: nat)
    requires from <= |s|
    ensures var end := Find(s, "\n", from);
            Pieces(s, '\n', from) ==
            if end.None? then [s[from..]] else [s[from..end.value]] + Pieces(s, '\n', end.value + 1)
  {
  }

  lemma TailCut(s: string, from: nat, k: nat)
    requires from + k < |s|
    ensures var tail := s[from..]; tail[0..k] == s[from..from + k] && tail[k + 1..] == s[from + k + 1..]
  {
  }

  lemma PiecesSame(s: string, from: nat, tail: string, k: nat)
    requires from <= |s| && Find(s, "\n", from) == Some(from + k) && Find(tail, "\n", 0) == Some(k)
    requires tail[0..k] == s[from..from + k] && Pieces(s, '\n', from + k + 1) == Pieces(tail, '\n', k + 1)
    ensures Pieces(s, '\n', from) == Pieces(tail, '\n', 0)
  {
    hide *;
    PiecesCut(s, from);
    PiecesCut(tail, 0);
  }

  lemma {:induction false} PiecesTail(s: string, from: nat)
    requires from <= |s|
    ensures Pieces(s, '\n', from) == Pieces(s[from..], '\n', 0)
    decreases |s| - from
  {
    hide *;
    FindFrom(s, "\n", from);
    if Find(s, "\n", from).None? {
      PiecesCut(s, from);
      PiecesCut(s[from..], 0);
      assert s[from..][0..] == s[from..];
    } else {
      var k := Find(s, "\n", from).value - from;
      TailCut(s, from, k);
      PiecesTail(s, from + k + 1);
      PiecesTail(s[from..], k + 1);
      PiecesSame(s, from, s[from..], k);
    }
  }

  lemma OnlyLine(s: string)
    requires '\n' !in s
    ensures Pieces(s, '\n', 0) == [s]
  {
    FindLeftmost(s, "\n", 0);
    forall j | 0 <= j < |s|
      ensures !At(s, "\n", j)
    {
      assert s[j..j + 1] == [s[j]] && s[j] in s;
    }
    assert s[0..] == s;
  }

  // --- Block by block --------------------------------------------------------------

  /** No blank line, also not with a line end added: what stands in front of the first one. */
  predicate NoBlankLine(s: string) { forall i :: 0 <= i < |s| && s[i] == '\n' ==> i + 1 < |s| && s[i + 1] != '\n' }

  lemma NoBlankRest(line: string, rest: string)
    requires NoBlankLine(line + "\n" + rest)
    ensures rest != "" && rest[0] != '\n' && NoBlankLine(rest)
  {
    var s := line + "\n" + rest;
    assert s[|line|] == '\n' && s[|line| + 1..] == rest;
    assert rest != "" && rest[0] == s[|line| + 1];
    forall i | 0 <= i < |rest| && rest[i] == '\n'
      ensures i + 1 < |rest| && rest[i + 1] != '\n'
    {
      assert s[|line| + 1 + i] == rest[i];
      assert i + 1 < |rest| ==> s[|line| + 1 + i + 1] == rest[i + 1];
    }
  }

  /** A block in front of the first blank line becomes one record. */
  lemma {:induction false} RecordsBlock(head: string, tail: string, open: seq<string>, cr: bool)
    requires NoBlankLine(head) && (cr ==> '\r' !in head) && (open != [] && head != "" ==> head[0] != '\n')
    ensures RecordsFrom(head + "\n\n" + tail, open, cr) ==
            OneRecord(open + NonEmpty(Pieces(head, '\n', 0))) + RecordsFrom(tail, [], cr)
    decreases |head|
  {
    if '\n' !in head {
      LastLine(head, tail, open, cr);
    } else {
      var line, rest := FirstLine(head);
      assert head + "\n\n" + tail == line + "\n" + (rest + "\n\n" + tail);
      NoBlankRest(line, rest);
      assert cr ==> '\r' !in line && '\r' !in rest;
      assert line == "" ==> head[0] == '\n' && open == [];
      var next := if line == "" then [] else open + [line];
      hide RecordsFrom, NonEmpty, Pieces, NoBlankLine;
      RecordsLine(line, rest + "\n\n" + tail, open, cr);
      RecordsBlock(rest, tail, next, cr);
      LinesCons(line, Pieces(rest, '\n', 0), open);
      assert [] + RecordsFrom(rest + "\n\n" + tail, [], cr) == RecordsFrom(rest + "\n\n" + tail, [], cr);
    }
  }

  lemma LinesCons(line: string, more: seq<string>, open: seq<string>)
    ensures var next := if line == "" then open else open + [line];
            open + NonEmpty([line] + more) == next + NonEmpty(more)
  {
    assert ([line] + more)[1..] == more;
    AppendAssoc(open, [line], NonEmpty(more));
    assert [] + NonEmpty(more) == NonEmpty(more);
  }

  lemma LastLine(head: string, tail: string, open: seq<string>, cr: bool)
    requires '\n' !in head && (cr ==> '\r' !in head)
    ensures RecordsFrom(head + "\n\n" + tail, open, cr) ==
            OneRecord(open + NonEmpty(Pieces(head, '\n', 0))) + RecordsFrom(tail, [], cr)
  {
    OnlyLine(head);
    assert NonEmpty([head]) == if head == "" then [] else [head] by {
      assert [head][1..] == [];
    }
    assert head + "\n\n" + tail == head + "\n" + ("\n" + tail);
    assert "" + "\n" + tail == "\n" + tail;
    hide RecordsFrom, NonEmpty, Pieces;
    RecordsLine(head, "\n" + tail, open, cr);
    RecordsLine("", tail, if head == "" then [] else open + [head], cr);
    assert open + [] == open && [] + RecordsFrom(tail, [], cr) == RecordsFrom(tail, [], cr);
  }

  /** Without a blank line there is no record yet. */
  lemma {:induction false} RecordsNone(s: string, open: seq<string>)
    requires !Contains(s, BLANK) && (open != [] && s != "" ==> s[0] != '\n')
    ensures RecordsFrom(s, open, false) == []
    decreases |s|
  {
    if '\n' in s {
      var line, rest := FirstLine(s);
      NotBlankTail(line, rest);
      hide RecordsFrom, Contains;
      RecordsLine(line, rest, open, false);
      RecordsNone(rest, if line == "" then [] else open + [line]);
    } else {
      LineEndFacts(s, false);
      assert LineEnd(s, false) == |s|;
    }
  }

  lemma NotBlankTail(line: string, rest: string)
    requires !Contains(line + "\n" + rest, BLANK)
    ensures !Contains(rest, BLANK) && (rest != "" ==> rest[0] != '\n')
  {
    var s := line + "\n" + rest;
    assert s[|line| + 1..] == rest;
    AtTail(s, BLANK, |line| + 1);
    if rest != "" && rest[0] == '\n' {
      assert s[|line|..|line| + 2] == [s[|line|], s[|line| + 1]] == BLANK;
      assert At(s, BLANK, |line|);
    }
    forall i | 0 <= i <= |rest| - |BLANK|
      ensures !At(rest, BLANK, i)
    {
      assert !At(s, BLANK, |line| + 1 + i);
    }
  }

  /** Cutting at the first blank line leaves none in front of it. */
  lemma HeadNoBlank(s: string, p: nat)
    requires Find(s, BLANK, 0) == Some(p)
    ensures NoBlankLine(s[..p]) && s == s[..p] + "\n\n" + s[p + 2..]
  {
    FindLeftmost(s, BLANK, 0);
    assert s[p..p + 2] == BLANK && s[p] == s[p..p + 2][0];
    forall i | 0 <= i < p && s[i] == '\n'
      ensures i + 1 < p && s[i + 1] != '\n'
    {
      assert s[i..i + 2] == [s[i], s[i + 1]] && !At(s, BLANK, i);
      assert s[i..i + 2] == BLANK <==> s[i + 1] == '\n';
    }
  }

  /** One turn of the cutting loop, on both kinds of records. */
  lemma CutRecord(s: string, p: nat, cr: bool)
    requires Find(s, BLANK, 0) == Some(p) && (cr ==> '\r' !in s[..p])
    ensures var tail, mine := s[p + 2..], OneRecord(NonEmpty(Pieces(s[..p], '\n', 0)));
            && RecordsFrom(s, [], cr) == mine + RecordsFrom(tail, [], cr)
            && ParserRecords(s) == mine + ParserRecords(tail)
            && Rest(s, BLANK) == Rest(tail, BLANK)
  {
    HeadNoBlank(s, p);
    CutOnce(s, BLANK);
    var head, tail := s[..p], s[p + 2..];
    assert Blocks(s, BLANK) == [head] + Blocks(tail, BLANK);
    assert ([head] + Blocks(tail, BLANK))[1..] == Blocks(tail, BLANK);
    hide RecordsFrom, NonEmpty, Pieces, NoBlankLine, Find, Blocks, Rest;
    RecordsBlock(head, tail, [], cr);
    assert [] + NonEmpty(Pieces(head, '\n', 0)) == NonEmpty(Pieces(head, '\n', 0));
  }

  /** With line ends at LF only, the parser's records are the standard's. */
  lemma {:induction false} ParserByLf(s: string)
    ensures ParserRecords(s) == RecordsFrom(s, [], false)
    decreases |s|
  {
    CutOnce(s, BLANK);
    NotContained(s, BLANK);
    hide RecordsFrom, Find, Blocks, Rest, Contains;
    if Find(s, BLANK, 0).Some? {
      var p := Find(s, BLANK, 0).value;
      CutRecord(s, p, false);
      ParserByLf(s[p + 2..]);
    } else {
      RecordsNone(s, []);
    }
  }

  // --- With CR ---------------------------------------------------------------------

  /** The part of a stream that the parser has cut into blocks. */
  function CutPart(s: string): string {
    RestShort(s);
    s[..|s| - |Rest(s, BLANK)|]
  }

  lemma {:induction false} RestShort(s: string)
    ensures |Rest(s, BLANK)| <= |s|
    decreases |s|
  {
    var pos := Find(s, BLANK, 0);
    if pos.Some? { RestShort(s[pos.value + 2..]); }
  }

  lemma CutPartCons(s: string, p: nat)
    requires Find(s, BLANK, 0) == Some(p)
    ensures CutPart(s) == s[..p] + "\n\n" + CutPart(s[p + 2..])
  {
    HeadNoBlank(s, p);
    CutOnce(s, BLANK);
    RestShort(s[p + 2..]);
    hide Find, Rest, NoBlankLine;
    var head, tail := s[..p], s[p + 2..];
    var n := |tail| - |Rest(tail, BLANK)|;
    assert (head + "\n\n" + tail)[..p + 2 + n] == head + "\n\n" + tail[..n];
  }

  /** While no CR is cut, the standard finds the parser's records and those of the rest. */
  lemma {:induction false} WithoutCr(s: string)
    requires '\r' !in CutPart(s)
    ensures StandardRecords(s) == ParserRecords(s) + StandardRecords(Rest(s, BLANK))
    decreases |s|
  {
    CutOnce(s, BLANK);
    hide RecordsFrom, Find, Blocks, Rest, CutPart;
    if Find(s, BLANK, 0).Some? {
      var p := Find(s, BLANK, 0).value;
      CutPartCons(s, p);
      assert '\r' !in s[..p] && '\r' !in CutPart(s[p + 2..]);
      CutRecord(s, p, true);
      WithoutCr(s[p + 2..]);
      var mine := OneRecord(NonEmpty(Pieces(s[..p], '\n', 0)));
      AppendAssoc(mine, ParserRecords(s[p + 2..]), StandardRecords(Rest(s, BLANK)));
    } else {
      assert [] + StandardRecords(s) == StandardRecords(s);
    }
  }

  predicate CrIn(lines: seq<string>) { exists line :: line in lines && '\r' in line }

  predicate CrAmong(records: seq<seq<string>>) { exists record :: record in records && CrIn(record) }

  /** No line of the standard holds a CR. */
  lemma {:induction false} StandardHasNoCr(s: string, open: seq<string>)
    requires !CrIn(open)
    ensures !CrAmong(RecordsFrom(s, open, true))
    decreases |s|
  {
    LineEndFacts(s, true);
    var e := LineEnd(s, true);
    if e < |s| {
      if e == 0 {
        StandardHasNoCr(AfterEnd(s, e), []);
      } else {
        assert !CrIn(open + [s[..e]]);
        StandardHasNoCr(AfterEnd(s, e), open + [s[..e]]);
      }
    }
  }

  lemma {:induction false} LineWithCr(block: string)
    requires '\r' in block
    ensures CrIn(NonEmpty(Pieces(block, '\n', 0)))
    decreases |block|
  {
    if '\n' in block {
      var line, rest := FirstLine(block);
      var lines := NonEmpty([line] + Pieces(rest, '\n', 0));
      assert ([line] + Pieces(rest, '\n', 0))[1..] == Pieces(rest, '\n', 0);
      if '\r' in line {
        assert line in lines;
      } else {
        assert '\r' in rest;
        LineWithCr(rest);
        var other :| other in NonEmpty(Pieces(rest, '\n', 0)) && '\r' in other;
        assert other in lines;
      }
    } else {
      OnlyLine(block);
      assert [block][1..] == [] && NonEmpty([block]) == [block] + [];
      assert block in NonEmpty([block]);
    }
  }

  /** A CR that was cut stands in a record of the parser. */
  lemma {:induction false} RecordWithCr(s: string)
    requires '\r' in CutPart(s)
    ensures CrAmong(ParserRecords(s))
    decreases |s|
  {
    CutOnce(s, BLANK);
    if Find(s, BLANK, 0).Some? {
      var p := Find(s, BLANK, 0).value;
      CutPartCons(s, p);
      hide Find, Blocks, Rest, CutPart, Pieces, NonEmpty, CrIn;
      CutRecord(s, p, false);
      var mine := OneRecord(NonEmpty(Pieces(s[..p], '\n', 0)));
      if '\r' in s[..p] {
        LineWithCr(s[..p]);
        assert !CrIn([]) by { NoLines(); }
        assert mine[0] in ParserRecords(s);
      } else {
        RecordWithCr(s[p + 2..]);
        var other :| other in ParserRecords(s[p + 2..]) && CrIn(other);
        assert other in ParserRecords(s);
      }
    }
  }

  lemma NoLines()
    ensures !CrIn([])
  {
  }

  /** The parser's records are exactly the standard's if and only if no CR stands in front of
      the last blank line it saw, and what it holds back is no record of the standard either. */
  lemma RecordsAsStandard(s: string)
    ensures ParserRecords(s) == StandardRecords(s) <==>
            '\r' !in CutPart(s) && StandardRecords(Rest(s, BLANK)) == []
  {
    NoLines();
    hide RecordsFrom, Blocks, Rest, CutPart, CrIn, CrAmong;
    if '\r' in CutPart(s) {
      RecordWithCr(s);
      StandardHasNoCr(s, []);
    } else {
      WithoutCr(s);
      var more := StandardRecords(Rest(s, BLANK));
      assert |ParserRecords(s) + more| == |ParserRecords(s)| + |more|;
      assert more == [] ==> ParserRecords(s) + more == ParserRecords(s);
    }
  }
}
