/** Byte strings as the C++ code sees them: every `char` stands for one byte, a position
    is an offset from the start, and `find` is the leftmost match at or after an offset.
    Both streaming parsers share the cutting of a stream at a separator; the lemmas about
    concatenation are the steps that proofs about sequences repeat. */
module Text {
  datatype Option<+T> = None | Some(value: T)

  predicate Distinct(ss: seq<string>) {
    forall i, j :: 0 <= i < j < |ss| ==> ss[i] != ss[j]
  }

  /** `pat` occurs in `s` at offset `i`. */
  predicate At(s: string, pat: string, i: int) {
    0 <= i <= |s| - |pat| && s[i..i + |pat|] == pat
  }

  predicate Contains(s: string, pat: string) {
    exists i :: 0 <= i <= |s| - |pat| && At(s, pat, i)
  }

  /** `std::string::find(pat, from)`: leftmost occurrence at or after `from`. */
  function Find(s: string, pat: string, from: nat): (r: Option<nat>)
    ensures r.Some? ==> from <= r.value <= |s| - |pat|
    decreases |s| - from
  {
    if from + |pat| > |s| then None
    else if At(s, pat, from) then Some(from)
    else Find(s, pat, from + 1)
  }

  /** What the result of `find` means. */
  lemma {:induction false} FindLeftmost(s: string, pat: string, from: nat)
    ensures var r := Find(s, pat, from);
            && (r.Some? ==> At(s, pat, r.value) && forall j :: from <= j < r.value ==> !At(s, pat, j))
            && (r.None? ==> forall j :: from <= j ==> !At(s, pat, j))
    decreases |s| - from
  {
    if from + |pat| <= |s| && !At(s, pat, from) {
      FindLeftmost(s, pat, from + 1);
    }
  }

  lemma NotContained(s: string, pat: string)
    ensures Find(s, pat, 0).None? <==> !Contains(s, pat)
  {
    FindLeftmost(s, pat, 0);
    if Find(s, pat, 0).Some? {
      assert At(s, pat, Find(s, pat, 0).value);
    }
  }

  /** The leftmost occurrence is determined by its two defining facts. */
  lemma FindIs(s: string, pat: string, from: nat, pos: nat)
    requires from <= pos && At(s, pat, pos)
    requires forall j :: from <= j < pos ==> !At(s, pat, j)
    ensures Find(s, pat, from) == Some(pos)
  {
    FindLeftmost(s, pat, from);
    assert Find(s, pat, from).Some?;
  }

  lemma FirstAt(a: string, c: char, rest: string)
    requires c !in a
    ensures Find(a + [c] + rest, [c], 0) == Some(|a|)
  {
    var s := a + [c] + rest;
    assert s[|a|..|a| + 1] == [c];
    forall j | 0 <= j < |a|
      ensures !At(s, [c], j)
    {
      assert s[j..j + 1][0] == s[j] == a[j];
    }
    hide Find;
    FindIs(s, [c], 0, |a|);
  }

  /** Text after a match cannot move the match. */
  lemma FindStable(a: string, b: string, pat: string)
    requires Find(a, pat, 0).Some?
    ensures Find(a + b, pat, 0) == Find(a, pat, 0)
  {
    FindLeftmost(a, pat, 0);
    var pos := Find(a, pat, 0).value;
    assert (a + b)[pos..pos + |pat|] == a[pos..pos + |pat|];
    forall j | 0 <= j < pos
      ensures !At(a + b, pat, j)
    {
      assert !At(a, pat, j);
      assert (a + b)[j..j + |pat|] == a[j..j + |pat|];
    }
    FindIs(a + b, pat, 0, pos);
  }

  /** Searching from an offset is searching the tail. */
  lemma {:induction false} FindFrom(s: string, pat: string, from: nat)
    requires from <= |s|
    ensures var r, t := Find(s, pat, from), Find(s[from..], pat, 0);
            (r.None? <==> t.None?) && (r.Some? ==> r.value == from + t.value)
  {
    FindLeftmost(s, pat, from);
    FindLeftmost(s[from..], pat, 0);
    AtTail(s, pat, from);
    var r, t := Find(s, pat, from), Find(s[from..], pat, 0);
    if r.Some? { assert At(s[from..], pat, r.value - from); }
    if t.Some? { assert At(s, pat, from + t.value); }
  }

  lemma AtTail(s: string, pat: string, from: nat)
    requires from <= |s|
    ensures forall j :: 0 <= j ==> (At(s[from..], pat, j) <==> At(s, pat, from + j))
    ensures forall j :: from <= j ==> (At(s, pat, j) <==> At(s[from..], pat, j - from))
  {
    forall j | 0 <= j
      ensures At(s[from..], pat, j) <==> At(s, pat, from + j)
    {
      if j <= |s[from..]| - |pat| {
        assert s[from..][j..j + |pat|] == s[from + j..from + j + |pat|];
      }
    }
    forall j | from <= j
      ensures At(s, pat, j) <==> At(s[from..], pat, j - from)
    {
      if j <= |s| - |pat| {
        assert s[from..][j - from..j - from + |pat|] == s[j..j + |pat|];
      }
    }
  }

  lemma SubSlice<T>(s: seq<T>, start: nat, i: nat, j: nat)
    requires start + i <= start + j <= |s|
    ensures s[start..][i..j] == s[start + i..start + j]
  {
  }

  lemma SubTail<T>(s: seq<T>, start: nat, i: nat)
    requires start + i <= |s|
    ensures s[start..][i..] == s[start + i..]
  {
  }

  function Concat(parts: seq<string>): string {
    if parts == [] then "" else parts[0] + Concat(parts[1..])
  }

  lemma {:induction false} ConcatAppend(a: seq<string>, b: seq<string>)
    ensures Concat(a + b) == Concat(a) + Concat(b)
  {
    if a == [] {
      assert a + b == b;
    } else {
      assert (a + b)[1..] == a[1..] + b;
      ConcatAppend(a[1..], b);
    }
  }

  lemma ConcatSnoc(a: seq<string>, s: string)
    ensures Concat(a + [s]) == Concat(a) + s
  {
    ConcatAppend(a, [s]);
    assert Concat([s]) == s + Concat([]);
  }

  lemma ConcatPrefix(parts: seq<string>, i: nat)
    requires i < |parts|
    ensures Concat(parts[..i + 1]) == Concat(parts[..i]) + parts[i]
  {
    assert parts[..i + 1] == parts[..i] + [parts[i]];
    ConcatSnoc(parts[..i], parts[i]);
  }

  /** Pieces with `sep` between neighbours. */
  function Join(parts: seq<string>, sep: string): string {
    if parts == [] then ""
    else if |parts| == 1 then parts[0]
    else parts[0] + sep + Join(parts[1..], sep)
  }

  lemma {:induction false} JoinSnoc(parts: seq<string>, s: string, sep: string)
    requires parts != []
    ensures Join(parts + [s], sep) == Join(parts, sep) + sep + s
  {
    if |parts| == 1 {
      assert (parts + [s])[1..] == [s];
    } else {
      assert (parts + [s])[1..] == parts[1..] + [s];
      JoinSnoc(parts[1..], s, sep);
    }
  }

  lemma AppendAssoc<T>(a: seq<T>, b: seq<T>, c: seq<T>)
    ensures a + (b + c) == (a + b) + c
  {
  }

  lemma Glue<T>(x: seq<T>, ab: seq<T>, a: seq<T>, b: seq<T>)
    requires ab == a + b
    ensures x + ab == (x + a) + b
  {
  }

  /** What `split(s, delim)` returns: the pieces between delimiters, always at least one. */
  function Pieces(s: string, delim: char, from: nat): (parts: seq<string>)
    requires from <= |s|
    ensures parts != []
    decreases |s| - from
  {
    var end := Find(s, [delim], from);
    if end.None? then [s[from..]]
    else [s[from..end.value]] + Pieces(s, delim, end.value + 1)
  }

  method Split(s: string, delim: char) returns (parts: seq<string>)
    ensures parts == Pieces(s, delim, 0)
  {
    hide At;
    parts := [];
    var start := 0;
    var end := Find(s, [delim], start);
    while end.Some?
      invariant start <= |s|
      invariant end == Find(s, [delim], start)
      invariant Pieces(s, delim, 0) == parts + Pieces(s, delim, start)
      decreases |s| - start
    {
      var piece := s[start..end.value];
      AppendAssoc(parts, [piece], Pieces(s, delim, end.value + 1));
      parts := parts + [piece];
      start := end.value + 1;
      end := Find(s, [delim], start);
    }
    parts := parts + [s[start..]];
  }

  /** Splitting loses nothing. */
  lemma {:induction false} PiecesJoin(s: string, delim: char, from: nat)
    requires from <= |s|
    ensures Join(Pieces(s, delim, from), [delim]) == s[from..]
    decreases |s| - from
  {
    FindLeftmost(s, [delim], from);
    var end := Find(s, [delim], from);
    if end.Some? {
      PiecesJoin(s, delim, end.value + 1);
      JoinCons(s[from..end.value], Pieces(s, delim, end.value + 1), [delim]);
      CutAround(s, delim, from, end.value);
    }
  }

  /** Splitting leaves no delimiter inside a piece. */
  lemma {:induction false} PiecesClean(s: string, delim: char, from: nat)
    requires from <= |s|
    ensures forall p :: p in Pieces(s, delim, from) ==> delim !in p
    decreases |s| - from
  {
    FindLeftmost(s, [delim], from);
    var end := Find(s, [delim], from);
    NoDelimiter(s, delim, from, if end.None? then |s| else end.value);
    if end.Some? { PiecesClean(s, delim, end.value + 1); }
  }

  lemma JoinCons(head: string, rest: seq<string>, sep: string)
    requires rest != []
    ensures Join([head] + rest, sep) == head + sep + Join(rest, sep)
  {
    assert ([head] + rest)[1..] == rest;
  }

  lemma NoDelimiter(s: string, delim: char, from: nat, stop: nat)
    requires from <= stop <= |s|
    requires forall j :: from <= j < stop ==> !At(s, [delim], j)
    ensures delim !in s[from..stop]
  {
    forall j | from <= j < stop
      ensures s[j] != delim
    {
      assert !At(s, [delim], j);
      assert s[j..j + 1] == [s[j]];
    }
  }

  lemma CutAround(s: string, delim: char, from: nat, stop: nat)
    requires from <= stop && At(s, [delim], stop)
    ensures s[from..] == s[from..stop] + [delim] + s[stop + 1..]
  {
    assert s[stop..stop + 1][0] == delim;
  }

  /** Decimal rendering, as `std::to_string` gives it for a non-negative counter. */
  function Decimal(n: nat): (s: string)
    ensures s != "" && forall c :: c in s ==> '0' <= c <= '9'
  {
    var d := ['0' + (n % 10) as char];
    if n < 10 then d else Decimal(n / 10) + d
  }

  /** A text is cut at the first `sep` in one way. */
  lemma CutsAlike(a: string, x: string, b: string, y: string, sep: char)
    requires sep !in a && sep !in b && a + [sep] + x == b + [sep] + y
    ensures a == b && x == y
  {
    FirstAt(a, sep, x);
    FirstAt(b, sep, y);
    assert (a + [sep] + x)[..|a|] == a && (a + [sep] + x)[|a| + 1..] == x;
    assert (b + [sep] + y)[..|b|] == b && (b + [sep] + y)[|b| + 1..] == y;
  }

  lemma {:induction false} DecimalInjective(m: nat, n: nat)
    requires Decimal(m) == Decimal(n)
    ensures m == n
    decreases m
  {
    var a, b := Decimal(m), Decimal(n);
    assert a[|a| - 1] == '0' + (m % 10) as char;
    assert b[|b| - 1] == '0' + (n % 10) as char;
    assert m % 10 == n % 10;
    if m >= 10 && n >= 10 {
      assert Decimal(m / 10) == a[..|a| - 1];
      assert Decimal(n / 10) == b[..|b| - 1];
      DecimalInjective(m / 10, n / 10);
    }
  }

  // --- Cutting a stream at a separator ---------------------------------------------

  /** Complete records of a buffer: the pieces before each leftmost separator. */
  function Blocks(buf: string, sep: string): seq<string>
    requires sep != ""
    decreases |buf|
  {
    var pos := Find(buf, sep, 0);
    if pos.None? then [] else [buf[..pos.value]] + Blocks(buf[pos.value + |sep|..], sep)
  }

  /** What is left after the last separator. */
  function Rest(buf: string, sep: string): string
    requires sep != ""
    decreases |buf|
  {
    var pos := Find(buf, sep, 0);
    if pos.None? then buf else Rest(buf[pos.value + |sep|..], sep)
  }

  /** One turn of a cutting loop. */
  lemma CutOnce(buf: string, sep: string)
    requires sep != ""
    ensures var pos := Find(buf, sep, 0);
            if pos.None? then Blocks(buf, sep) == [] && Rest(buf, sep) == buf
            else
              && Blocks(buf, sep) == [buf[..pos.value]] + Blocks(buf[pos.value + |sep|..], sep)
              && Rest(buf, sep) == Rest(buf[pos.value + |sep|..], sep)
  {
  }

  lemma {:induction false} RestSettled(buf: string, sep: string)
    requires sep != ""
    ensures !Contains(Rest(buf, sep), sep)
    decreases |buf|
  {
    NotContained(buf, sep);
    var pos := Find(buf, sep, 0);
    if pos.Some? { RestSettled(buf[pos.value + |sep|..], sep); }
  }

  lemma FindAfter(a: string, b: string, sep: string)
    requires Find(a, sep, 0).Some?
    ensures var p := Find(a, sep, 0).value;
            && Find(a + b, sep, 0) == Some(p)
            && (a + b)[..p] == a[..p] && (a + b)[p + |sep|..] == a[p + |sep|..] + b
  {
    FindStable(a, b, sep);
  }

  /** The first record of `a` is the first record of every longer stream. */
  lemma CutBoth(a: string, b: string, sep: string) returns (head: string, tail: string)
    requires sep != "" && Find(a, sep, 0).Some?
    ensures |tail| < |a|
    ensures Blocks(a, sep) == [head] + Blocks(tail, sep) && Rest(a, sep) == Rest(tail, sep)
    ensures Blocks(a + b, sep) == [head] + Blocks(tail + b, sep) && Rest(a + b, sep) == Rest(tail + b, sep)
  {
    hide Find, Blocks, Rest;
    var p := Find(a, sep, 0).value;
    head, tail := a[..p], a[p + |sep|..];
    FindAfter(a, b, sep);
    CutOnce(a, sep);
    CutOnce(a + b, sep);
  }

  lemma {:induction false} RestStep(a: string, b: string, sep: string)
    requires sep != ""
    ensures Rest(a + b, sep) == Rest(Rest(a, sep) + b, sep)
    decreases |a|
  {
    CutOnce(a, sep);
    hide Find, Blocks, Rest;
    if Find(a, sep, 0).Some? {
      var _, tail := CutBoth(a, b, sep);
      RestStep(tail, b, sep);
    }
  }

  /** Cutting what has arrived first and the rest later cuts the same records. */
  lemma {:induction false} BlocksStep(a: string, b: string, sep: string)
    requires sep != ""
    ensures Blocks(a + b, sep) == Blocks(a, sep) + Blocks(Rest(a, sep) + b, sep)
    decreases |a|
  {
    CutOnce(a, sep);
    hide Find, Blocks, Rest;
    if Find(a, sep, 0).Some? {
      var head, tail := CutBoth(a, b, sep);
      BlocksStep(tail, b, sep);
      Glue([head], Blocks(tail + b, sep), Blocks(tail, sep), Blocks(Rest(tail, sep) + b, sep));
    }
  }

  function Unframe(blocks: seq<string>, rest: string, sep: string): string {
    if blocks == [] then rest else blocks[0] + sep + Unframe(blocks[1..], rest, sep)
  }

  /** A framing of a stream: records that end at their first separator, and a remainder
      that holds no separator yet. */
  ghost predicate Framing(s: string, blocks: seq<string>, rest: string, sep: string) {
    && s == Unframe(blocks, rest, sep)
    && (forall b :: b in blocks ==> Find(b + sep, sep, 0) == Some(|b|))
    && !Contains(rest, sep)
  }

  lemma UnframeContains(blocks: seq<string>, rest: string, sep: string)
    ensures blocks != [] ==> Contains(Unframe(blocks, rest, sep), sep)
  {
    if blocks != [] {
      assert At(Unframe(blocks, rest, sep), sep, |blocks[0]|);
    }
  }

  /** The first record of a framing is what is cut first. */
  lemma FramingHead(s: string, blocks: seq<string>, rest: string, sep: string)
    requires Framing(s, blocks, rest, sep) && blocks != []
    ensures Find(s, sep, 0) == Some(|blocks[0]|) && s[..|blocks[0]|] == blocks[0]
    ensures Framing(s[|blocks[0]| + |sep|..], blocks[1..], rest, sep)
  {
    hide Find, Contains;
    assert blocks[0] in blocks;
    FindAfter(blocks[0] + sep, Unframe(blocks[1..], rest, sep), sep);
  }

  lemma FramingCons(s: string, blocks: seq<string>, rest: string, sep: string)
    requires Find(s, sep, 0).Some?
    requires var p := Find(s, sep, 0).value; Framing(s[p + |sep|..], blocks, rest, sep)
    ensures Framing(s, [s[..Find(s, sep, 0).value]] + blocks, rest, sep)
  {
    FirstRecord(s, sep);
    hide Find, Contains;
    var all := [s[..Find(s, sep, 0).value]] + blocks;
    assert all[1..] == blocks;
  }

  lemma CutFramesStep(s: string, sep: string) returns (tail: string)
    requires sep != "" && Find(s, sep, 0).Some?
    ensures |tail| < |s|
    ensures Framing(tail, Blocks(tail, sep), Rest(tail, sep), sep) ==> Framing(s, Blocks(s, sep), Rest(s, sep), sep)
  {
    CutOnce(s, sep);
    hide *;
    tail := s[Find(s, sep, 0).value + |sep|..];
    if Framing(tail, Blocks(tail, sep), Rest(tail, sep), sep) {
      FramingCons(s, Blocks(tail, sep), Rest(tail, sep), sep);
    }
  }

  /** Cutting computes a framing. */
  lemma {:induction false} CutFrames(s: string, sep: string)
    requires sep != ""
    ensures Framing(s, Blocks(s, sep), Rest(s, sep), sep)
    decreases |s|
  {
    hide *;
    if Find(s, sep, 0).Some? {
      var tail := CutFramesStep(s, sep);
      CutFrames(tail, sep);
    } else {
      CutOnce(s, sep);
      FramingEmpty(s, [], s, sep);
    }
  }

  lemma FramingIsStep(s: string, blocks: seq<string>, rest: string, sep: string) returns (tail: string)
    requires sep != "" && Framing(s, blocks, rest, sep) && blocks != []
    ensures |tail| < |s| && Framing(tail, blocks[1..], rest, sep)
    ensures blocks[1..] == Blocks(tail, sep) && rest == Rest(tail, sep) ==>
              blocks == Blocks(s, sep) && rest == Rest(s, sep)
  {
    CutOnce(s, sep);
    FramingHead(s, blocks, rest, sep);
    hide *;
    tail := s[|blocks[0]| + |sep|..];
    assert blocks == [blocks[0]] + blocks[1..];
  }

  /** There is no other. */
  lemma {:induction false} FramingIs(s: string, blocks: seq<string>, rest: string, sep: string)
    requires sep != "" && Framing(s, blocks, rest, sep)
    ensures blocks == Blocks(s, sep) && rest == Rest(s, sep)
    decreases |s|
  {
    hide *;
    if blocks != [] {
      var tail := FramingIsStep(s, blocks, rest, sep);
      FramingIs(tail, blocks[1..], rest, sep);
    } else {
      FramingEmpty(s, blocks, rest, sep);
      CutOnce(s, sep);
    }
  }

  /** A stream has exactly one framing, and cutting computes it. */
  lemma FramingUnique(s: string, blocks: seq<string>, rest: string, sep: string)
    requires sep != ""
    ensures Framing(s, blocks, rest, sep) <==> blocks == Blocks(s, sep) && rest == Rest(s, sep)
  {
    CutFrames(s, sep);
    hide *;
    if Framing(s, blocks, rest, sep) { FramingIs(s, blocks, rest, sep); }
  }

  lemma FramingEmpty(s: string, blocks: seq<string>, rest: string, sep: string)
    requires sep != ""
    ensures Find(s, sep, 0).None? ==> (Framing(s, blocks, rest, sep) <==> blocks == [] && rest == s)
    ensures Find(s, sep, 0).Some? && Framing(s, blocks, rest, sep) ==> blocks != []
  {
    NotContained(s, sep);
    hide Find, Contains;
    UnframeContains(blocks, rest, sep);
  }

  lemma FirstRecord(s: string, sep: string)
    requires Find(s, sep, 0).Some?
    ensures var p := Find(s, sep, 0).value;
            s == s[..p] + sep + s[p + |sep|..] && Find(s[..p] + sep, sep, 0) == Some(p)
  {
    FindLeftmost(s, sep, 0);
    var p := Find(s, sep, 0).value;
    var head := s[..p] + sep;
    assert head == s[..p + |sep|] by {
      assert s[p..p + |sep|] == sep;
    }
    forall j | 0 <= j < p
      ensures !At(head, sep, j)
    {
      assert !At(s, sep, j);
      assert s[..p + |sep|][j..j + |sep|] == s[j..j + |sep|];
    }
    FindIs(head, sep, 0, p);
  }
}
