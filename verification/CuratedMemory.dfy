/** The curated memory files: entries separated by a delimiter line, kept both in memory and
    in one file per target. First the format and when reading undoes writing; then the store
    with the faults of its file operations; then what every sequence of additions and
    removals keeps, and what a file that cannot be read does to it. */
module CuratedMemory {
  import opened Text

  /** A newline, the two UTF-8 bytes of the section sign, a newline. */
  function Delimiter(): (d: string)
    ensures Separates(d)
  {
    ['\n', '\U{C2}', '\U{A7}', '\n']
  }

  /** What matters about the delimiter when it is searched for. */
  predicate Separates(d: string) {
    |d| == 4 && d[0] == '\n' && d[3] == '\n' && d[1] != '\n' && d[2] != '\n'
  }

  predicate IsSpace(c: char) {
    c == ' ' || c == '\t' || c == '\n' || c == '\U{0B}' || c == '\U{0C}' || c == '\r'
  }

  function TrimLeft(s: string): string {
    if s != "" && IsSpace(s[0]) then TrimLeft(s[1..]) else s
  }

  function TrimRight(s: string): string {
    if s != "" && IsSpace(s[|s| - 1]) then TrimRight(s[..|s| - 1]) else s
  }

  function Trimmed(s: string): string { TrimRight(TrimLeft(s)) }

  method Trim(s: string) returns (t: string)
    ensures t == Trimmed(s)
  {
    var b := 0;
    assert s[0..] == s;
    while b < |s| && IsSpace(s[b])
      invariant b <= |s| && TrimLeft(s[b..]) == TrimLeft(s)
    {
      assert s[b..][1..] == s[b + 1..];
      b := b + 1;
    }
    var e := |s|;
    assert s[b..e] == s[b..];
    while e > b && IsSpace(s[e - 1])
      invariant b <= e <= |s| && TrimRight(s[b..e]) == TrimRight(s[b..])
    {
      assert s[b..e][..e - b - 1] == s[b..e - 1];
      e := e - 1;
    }
    t := s[b..e];
  }

  lemma SpacesAre(c: char)
    ensures IsSpace(c) <==> c as int == 32 || 9 <= c as int <= 13
  {
  }

  /** Trimming cuts spaces off both ends and stops at the first other character. */
  lemma TrimmedIs(s: string) returns (from: nat, to: nat)
    ensures from <= to <= |s| && Trimmed(s) == s[from..to]
    ensures forall i :: 0 <= i < from || to <= i < |s| ==> IsSpace(s[i])
    ensures from < to ==> !IsSpace(s[from]) && !IsSpace(s[to - 1])
  {
    from := TrimLeftIs(s);
    to := TrimRightIs(s[from..]);
    assert s[from..][..to] == s[from..from + to];
    assert forall i :: to <= i < |s| - from ==> s[from..][i] == s[from + i];
    to := from + to;
  }

  lemma {:induction false} TrimLeftIs(s: string) returns (n: nat)
    ensures n <= |s| && TrimLeft(s) == s[n..] && (forall i :: 0 <= i < n ==> IsSpace(s[i]))
    ensures n < |s| ==> !IsSpace(s[n])
  {
    n := 0;
    if s != "" && IsSpace(s[0]) {
      n := TrimLeftIs(s[1..]);
      assert forall i :: 0 < i <= n ==> s[i] == s[1..][i - 1];
      n := n + 1;
    }
  }

  lemma {:induction false} TrimRightIs(s: string) returns (n: nat)
    ensures n <= |s| && TrimRight(s) == s[..n] && (forall i :: n <= i < |s| ==> IsSpace(s[i]))
    ensures n > 0 ==> !IsSpace(s[n - 1])
  {
    n := |s|;
    if s != "" && IsSpace(s[|s| - 1]) { n := TrimRightIs(s[..|s| - 1]); }
  }

  // --- The file format -------------------------------------------------------------

  /** A piece between delimiters, unless it is blank. */
  function Kept(piece: string): seq<string> {
    if Trimmed(piece) == "" then [] else [Trimmed(piece)]
  }

  /** The entries a file's text is read as, from an offset on. */
  function EntriesFrom(text: string, start: nat): seq<string>
    requires start <= |text|
    decreases |text| - start
  {
    var pos := Find(text, Delimiter(), start);
    if pos.None? then Kept(text[start..]) else Kept(text[start..pos.value]) + EntriesFrom(text, pos.value + 4)
  }

  function Entries(text: string): seq<string> { EntriesFrom(text, 0) }

  /** The text a list of entries is written as. */
  function FileText(entries: seq<string>): string {
    Join(entries, Delimiter()) + if entries == [] then "" else "\n"
  }

  /** Reading from an offset is reading the tail. */
  lemma {:induction false} TailEntries(text: string, start: nat)
    requires start <= |text|
    ensures EntriesFrom(text, start) == Entries(text[start..])
    decreases |text| - start
  {
    hide *;
    FindFrom(text, Delimiter(), start);
    if Find(text, Delimiter(), start).None? {
      EntriesCut(text, start);
      EntriesCut(text[start..], 0);
      assert text[start..][0..] == text[start..];
    } else {
      var k := Find(text, Delimiter(), start).value - start;
      CutTail(text, start, k);
      TailEntries(text, start + k + 4);
      TailEntries(text[start..], k + 4);
      SameEntries(text, start, text[start..], k);
    }
    EntriesWhole(text[start..]);
  }

  lemma EntriesCut(text: string, start: nat)
    requires start <= |text|
    ensures var pos := Find(text, Delimiter(), start);
            EntriesFrom(text, start) ==
            if pos.None? then Kept(text[start..])
            else Kept(text[start..pos.value]) + EntriesFrom(text, pos.value + 4)
  {
    hide Kept;
  }

  lemma EntriesWhole(text: string)
    ensures Entries(text) == EntriesFrom(text, 0)
  {
  }

  lemma CutTail(text: string, start: nat, k: nat)
    requires Find(text, Delimiter(), start) == Some(start + k)
    ensures start + k + 4 <= |text|
    ensures var tail := text[start..]; tail[0..k] == text[start..start + k] && tail[k + 4..] == text[start + k + 4..]
  {
    hide Find;
  }

  lemma SameEntries(text: string, start: nat, tail: string, k: nat)
    requires Find(text, Delimiter(), start) == Some(start + k) && Find(tail, Delimiter(), 0) == Some(k)
    requires start + k + 4 <= |text| && k + 4 <= |tail| && tail[0..k] == text[start..start + k]
    requires EntriesFrom(text, start + k + 4) == EntriesFrom(tail, k + 4)
    ensures EntriesFrom(text, start) == EntriesFrom(tail, 0)
  {
    hide *;
    EntriesCut(text, start);
    EntriesCut(tail, 0);
  }

  /** One cut of the splitting loop. */
  lemma CutEntry(text: string)
    ensures var pos := Find(text, Delimiter(), 0);
            if pos.None? then Entries(text) == Kept(text)
            else Entries(text) == Kept(text[..pos.value]) + Entries(text[pos.value + 4..])
  {
    var pos := Find(text, Delimiter(), 0);
    assert text[0..] == text;
    if pos.Some? {
      TailEntries(text, pos.value + 4);
      assert text[0..pos.value] == text[..pos.value];
    }
  }

  method SplitEntries(text: string) returns (out: seq<string>)
    ensures out == Entries(text)
  {
    out := [];
    var start := 0;
    hide Find, Delimiter, At, Trimmed, EntriesFrom, Kept;
    assert [] + EntriesFrom(text, 0) == Entries(text);
    while start <= |text|
      invariant start <= |text| && out + EntriesFrom(text, start) == Entries(text)
      decreases |text| - start
    {
      var pos := Find(text, Delimiter(), start);
      var cut := if pos.None? then text[start..] else text[start..pos.value];
      var piece := Trim(cut);
      EntriesCut(text, start);
      KeptIs(cut);
      if pos.None? {
        if piece != "" { out := out + [piece]; } else { Nothing(out); }
        break;
      }
      KeepPiece(out, piece, EntriesFrom(text, pos.value + 4));
      if piece != "" { out := out + [piece]; }
      start := pos.value + 4;
    }
  }

  lemma KeptIs(text: string)
    ensures Kept(text) == if Trimmed(text) != "" then [Trimmed(text)] else []
  {
  }

  lemma KeepPiece(out: seq<string>, piece: string, later: seq<string>)
    ensures var kept := if piece != "" then [piece] else [];
            out + (kept + later) == (if piece != "" then out + [piece] else out) + later
  {
    AppendAssoc(out, [piece], later);
    assert [] + later == later;
  }

  lemma Nothing<T>(s: seq<T>)
    ensures s + [] == s
  {
  }

  method JoinEntries(entries: seq<string>) returns (out: string)
    ensures out == Join(entries, Delimiter())
  {
    out := "";
    for i := 0 to |entries|
      invariant out == Join(entries[..i], Delimiter())
    {
      assert entries[..i + 1] == entries[..i] + [entries[i]];
      if i > 0 {
        JoinSnoc(entries[..i], entries[i], Delimiter());
        out := out + Delimiter();
      } else {
        assert entries[..1] == [entries[0]];
      }
      out := out + entries[i];
    }
    assert entries[..|entries|] == entries;
  }

  // --- The round trip --------------------------------------------------------------

  predicate EndsInMark(e: string) { |e| >= 3 && e[|e| - 3..] == Delimiter()[..3] }

  /** An entry that a file can hold: no space at its ends, no delimiter inside, and no
      unfinished delimiter at its end. */
  ghost predicate Clean(e: string) {
    && e != "" && !IsSpace(e[0]) && !IsSpace(e[|e| - 1])
    && !Contains(e, Delimiter()) && !EndsInMark(e)
  }

  lemma {:induction false} TrimLeftFacts(s: string)
    ensures |TrimLeft(s)| <= |s|
    ensures TrimLeft(s) != "" ==> !IsSpace(TrimLeft(s)[0]) && TrimLeft(s)[|TrimLeft(s)| - 1] == s[|s| - 1]
    ensures s != "" && !IsSpace(s[0]) ==> TrimLeft(s) == s
  {
    if s != "" && IsSpace(s[0]) { TrimLeftFacts(s[1..]); }
  }

  lemma {:induction false} TrimRightFacts(s: string)
    ensures TrimRight(s) <= s && (TrimRight(s) != "" ==> !IsSpace(TrimRight(s)[|TrimRight(s)| - 1]))
    ensures s != "" && !IsSpace(s[|s| - 1]) ==> TrimRight(s) == s
    ensures s != "" && !IsSpace(s[0]) ==> TrimRight(s) != ""
  {
    if s != "" && IsSpace(s[|s| - 1]) { TrimRightFacts(s[..|s| - 1]); }
  }

  lemma TrimmedFacts(s: string)
    ensures var t := Trimmed(s);
            && |t| <= |s| && (t != "" ==> !IsSpace(t[0]) && !IsSpace(t[|t| - 1]))
            && (s != "" && !IsSpace(s[0]) ==> t <= s && t != "")
            && (s != "" && !IsSpace(s[0]) && !IsSpace(s[|s| - 1]) ==> t == s)
  {
    TrimLeftFacts(s);
    TrimRightFacts(TrimLeft(s));
  }

  lemma TrimmedNewline(e: string)
    requires e != "" && !IsSpace(e[0]) && !IsSpace(e[|e| - 1])
    ensures Trimmed(e + "\n") == e
  {
    var s := e + "\n";
    TrimLeftFacts(s);
    assert s[0] == e[0] && s[..|s| - 1] == e;
    TrimRightFacts(e);
  }

  lemma {:induction false} EntriesTrimmed(text: string, start: nat)
    requires start <= |text|
    ensures forall e :: e in EntriesFrom(text, start) ==> TrimmedEntry(e)
    decreases |text| - start
  {
    var pos := Find(text, Delimiter(), start);
    TrimmedFacts(if pos.None? then text[start..] else text[start..pos.value]);
    hide Find, Trimmed, Delimiter;
    if pos.Some? { EntriesTrimmed(text, pos.value + 4); }
  }

  lemma Overlap(e: string, s: string, d: string, j: nat)
    requires Separates(d) && e != "" && e[|e| - 1] != '\n' && j < |e| < |s| && s[..|e|] == e && s[|e|] == '\n'
    requires At(s, d, j)
    ensures At(e, d, j) || (j == |e| - 3 && e[|e| - 3..] == d[..3])
  {
    assert forall k :: 0 <= k < 4 ==> d[k] == s[j..j + 4][k] == s[j + k];
    assert j + 1 != |e| && j + 2 != |e|;
    if j + 4 <= |e| {
      assert e[j..j + 4] == s[j..j + 4];
    } else {
      assert e[j..] == d[..3];
    }
  }

  /** Behind an entry that does not end in a newline, the first delimiter is found at the
      entry's end or later, exactly when the entry is free of it in both senses. */
  lemma FirstDelimiter(e: string, s: string, d: string)
    requires Separates(d) && e != "" && e[|e| - 1] != '\n' && |e| < |s| && s[..|e|] == e && s[|e|] == '\n'
    ensures var found := Find(s, d, 0);
            Contains(e, d) || (|e| >= 3 && e[|e| - 3..] == d[..3]) <==> found.Some? && found.value < |e|
  {
    FindLeftmost(s, d, 0);
    hide Find, At;
    var found := Find(s, d, 0);
    if found.Some? && found.value < |e| {
      Overlap(e, s, d, found.value);
      if At(e, d, found.value) { HasIt(e, d, found.value); }
    }
    if Contains(e, d) { ContainedEarly(e, s, d); }
    if |e| >= 3 && e[|e| - 3..] == d[..3] { MarkEarly(e, s, d); }
  }

  lemma HasIt(e: string, d: string, j: int)
    requires At(e, d, j)
    ensures Contains(e, d)
  {
  }

  lemma ContainedEarly(e: string, s: string, d: string)
    requires |d| == 4 && |e| < |s| && s[..|e|] == e && Contains(e, d)
    ensures Find(s, d, 0).Some? && Find(s, d, 0).value < |e|
  {
    var j :| 0 <= j <= |e| - |d| && At(e, d, j);
    assert s[j..j + 4] == s[..|e|][j..j + 4];
    FindLeftmost(s, d, 0);
    assert At(s, d, j);
  }

  lemma MarkEarly(e: string, s: string, d: string)
    requires Separates(d) && 3 <= |e| < |s| && s[..|e|] == e && s[|e|] == '\n' && e[|e| - 3..] == d[..3]
    ensures Find(s, d, 0).Some? && Find(s, d, 0).value < |e|
  {
    assert s[|e| - 3..|e| + 1] == s[..|e|][|e| - 3..] + [s[|e|]];
    assert d == d[..3] + [d[3]];
    FindLeftmost(s, d, 0);
    assert At(s, d, |e| - 3);
  }

  lemma FileTextCons(e: string, more: seq<string>)
    ensures FileText([e] + more) == e + if more == [] then "\n" else Delimiter() + FileText(more)
  {
    var all := [e] + more;
    assert all[1..] == more;
    if more == [] {
      assert all == [e];
    } else {
      assert (e + Delimiter() + Join(more, Delimiter())) + "\n" == e + (Delimiter() + (Join(more, Delimiter()) + "\n"));
    }
  }

  ghost predicate TrimmedEntry(e: string) {
    e != "" && !IsSpace(e[0]) && !IsSpace(e[|e| - 1])
  }

  lemma CutDirty(e: string, text: string)
    requires TrimmedEntry(e) && !Clean(e) && |e| < |text| && text[..|e|] == e && text[|e|] == '\n'
    ensures Entries(text) != [] && |Entries(text)[0]| < |e|
  {
    FirstDelimiter(e, text, Delimiter());
    CutEntry(text);
    var p := Find(text, Delimiter(), 0).value;
    FoundAt(text, p);
    hide Entries, Find;
    HeadKept(e, p);
    assert text[..p] == e[..p];
  }

  lemma CutClean(e: string, tail: string)
    requires Clean(e)
    ensures Entries(e + (Delimiter() + tail)) == [e] + Entries(tail)
  {
    var text := e + (Delimiter() + tail);
    FirstDelimiter(e, text, Delimiter());
    CutEntry(text);
    TrimmedFacts(e);
    assert text[|e|..|e| + 4] == Delimiter();
    FindIsEnd(e, text, Delimiter());
    hide Entries, Find, Clean;
    assert text[..|e|] == e && text[|e| + 4..] == tail;
  }

  lemma CutLast(e: string)
    requires Clean(e)
    ensures Entries(e + "\n") == [e] + Entries("")
  {
    var text := e + "\n";
    FirstDelimiter(e, text, Delimiter());
    CutEntry(text);
    CutEntry("");
    FindNotEnd(e, Delimiter());
    TrimmedNewline(e);
    hide Entries, Find, Clean;
  }

  /** How the text of a non-empty list is cut, when its first entry is trimmed. */
  lemma CutFirst(e: string, more: seq<string>)
    requires TrimmedEntry(e)
    ensures var text := FileText([e] + more);
            if Clean(e) then Entries(text) == [e] + Entries(FileText(more))
            else Entries(text) != [] && |Entries(text)[0]| < |e|
  {
    FileTextCons(e, more);
    assert FileText([]) == "";
    hide FileText, Entries, Find;
    if !Clean(e) {
      CutDirty(e, FileText([e] + more));
    } else if more != [] {
      CutClean(e, FileText(more));
    } else {
      CutLast(e);
    }
  }

  lemma FoundAt(text: string, p: nat)
    requires Find(text, Delimiter(), 0) == Some(p)
    ensures p < |text| && text[p] == '\n'
  {
    FindLeftmost(text, Delimiter(), 0);
    assert text[p..p + 4][0] == '\n';
  }

  lemma FindIsEnd(e: string, text: string, d: string)
    requires At(text, d, |e|) && (Find(text, d, 0).Some? ==> Find(text, d, 0).value >= |e|)
    ensures Find(text, d, 0) == Some(|e|)
  {
    FindLeftmost(text, d, 0);
  }

  lemma FindNotEnd(e: string, d: string)
    requires |d| == 4 && (Find(e + "\n", d, 0).Some? ==> Find(e + "\n", d, 0).value >= |e|)
    ensures Find(e + "\n", d, 0).None?
  {
    FindLeftmost(e + "\n", d, 0);
  }

  lemma HeadKept(e: string, p: nat)
    requires p < |e| && !IsSpace(e[0]) && IsSpace(e[p])
    ensures Trimmed(e[..p]) != "" && |Trimmed(e[..p])| < |e|
  {
    TrimmedFacts(e[..p]);
  }

  /** Reading back what was written gives the same list exactly when every entry is clean. */
  lemma {:induction false} RoundTrip(entries: seq<string>)
    ensures Entries(FileText(entries)) == entries <==> forall e :: e in entries ==> Clean(e)
  {
    if entries == [] {
      CutEntry("");
    } else {
      var e, more := entries[0], entries[1..];
      assert entries == [e] + more;
      CleanAll(e, more);
      if TrimmedEntry(e) {
        CutFirst(e, more);
        RoundTrip(more);
        hide Entries, FileText, Clean;
        if Clean(e) {
          SameTail(e, Entries(FileText(more)), more);
        }
      } else {
        EntriesTrimmed(FileText(entries), 0);
        assert e in entries && !Clean(e);
      }
    }
  }

  lemma CleanAll(e: string, more: seq<string>)
    ensures (forall x :: x in [e] + more ==> Clean(x)) <==> Clean(e) && forall x :: x in more ==> Clean(x)
  {
    assert e in [e] + more;
    assert forall x :: x in more ==> x in [e] + more;
  }

  lemma SameTail<T>(x: T, a: seq<T>, b: seq<T>)
    ensures [x] + a == [x] + b <==> a == b
  {
    assert ([x] + a)[1..] == a && ([x] + b)[1..] == b;
  }

  // --- The store -------------------------------------------------------------------

  datatype Target = Memory | User

  /** What may go wrong around one file. A file that cannot be opened for reading reads as
      empty; the lock, the temporary file and the rename report their failures. */
  datatype Faults = Faults(lock: bool, readable: bool, written: bool)

  /** One target: its entries in memory, and its file. */
  datatype Shelf = Shelf(entries: seq<string>, file: string)

  function Total(entries: seq<string>): nat {
    if entries == [] then 0 else Total(entries[..|entries| - 1]) + |entries[|entries| - 1]|
  }

  predicate OverLimit(entries: seq<string>, entry: string, limit: int) {
    |entry| + Total(entries) + (if entries == [] then 0 else 2) > limit
  }

  function ReadFile(file: string, f: Faults): seq<string> { if f.readable then Entries(file) else [] }

  function Write(s: Shelf, f: Faults): Shelf { if f.written then s.(file := FileText(s.entries)) else s }

  function Add(s: Shelf, content: string, limit: int, f: Faults): Shelf {
    var entry := Trimmed(content);
    if entry == "" || entry in s.entries || OverLimit(s.entries, entry, limit) || !f.lock then s
    else
      var current := ReadFile(s.file, f);
      if entry in current then s.(entries := current) else Write(s.(entries := current + [entry]), f)
  }

  /** The first entry that contains the text. */
  function Match(entries: seq<string>, text: string): Option<nat> {
    if entries == [] then None
    else if Find(entries[0], text, 0).Some? then Some(0)
    else
      var later := Match(entries[1..], text);
      if later.None? then None else Some(later.value + 1)
  }

  lemma {:induction false} MatchFirst(entries: seq<string>, text: string)
    ensures var i := Match(entries, text);
            && (i.Some? ==> i.value < |entries| && Contains(entries[i.value], text)
                            && forall k :: 0 <= k < i.value ==> !Contains(entries[k], text))
            && (i.None? ==> forall k :: 0 <= k < |entries| ==> !Contains(entries[k], text))
  {
    if entries != [] {
      NotContained(entries[0], text);
      MatchFirst(entries[1..], text);
      hide Find, Contains;
      assert forall k :: 0 < k < |entries| ==> entries[k] == entries[1..][k - 1];
    }
  }

  function Without(entries: seq<string>, i: nat): seq<string>
    requires i < |entries|
  {
    entries[..i] + entries[i + 1..]
  }

  function Remove(s: Shelf, text: string, f: Faults): Shelf {
    if text == "" || !f.lock then s
    else
      var current := ReadFile(s.file, f);
      var i := Match(current, text);
      if i.None? || i.value >= |current| then s.(entries := current)
      else Write(s.(entries := Without(current, i.value)), f)
  }

  /** The call gets as far as reading the file to append a new entry. */
  predicate Appends(s: Shelf, content: string, limit: int, f: Faults) {
    var entry := Trimmed(content);
    && entry != "" && entry !in s.entries && f.lock
    && |entry| + Total(s.entries) + (if s.entries == [] then 0 else 2) <= limit
  }

  /** What an addition leaves: an entry that is new in memory and fits goes behind what the
      file holds, unless it is there already; otherwise nothing changes. */
  ghost predicate Adds(s: Shelf, next: Shelf, content: string, limit: int, f: Faults) {
    var entry, current := Trimmed(content), if f.readable then Entries(s.file) else [];
    && (!Appends(s, content, limit, f) ==> next == s)
    && (Appends(s, content, limit, f) && entry in current ==> next == Shelf(current, s.file))
    && (Appends(s, content, limit, f) && entry !in current ==>
          next.entries == current + [entry] && next.file == if f.written then FileText(next.entries) else s.file)
  }

  lemma AddIs(s: Shelf, content: string, limit: int, f: Faults)
    ensures Adds(s, Add(s, content, limit, f), content, limit, f)
  {
    hide Entries, FileText, Trimmed, Total;
  }

  method TotalSize(list: seq<string>) returns (total: nat)
    ensures total == Total(list)
  {
    total := 0;
    for i := 0 to |list|
      invariant total == Total(list[..i])
    {
      assert list[..i + 1][..i] == list[..i];
      total := total + |list[i]|;
    }
    assert list[..|list|] == list;
  }

  method FirstMatch(list: seq<string>, text: string) returns (found: Option<nat>)
    ensures found == Match(list, text)
  {
    hide Find;
    assert list[0..] == list;
    for i := 0 to |list|
      invariant Match(list, text) == Shifted(Match(list[i..], text), i)
    {
      assert list[i..][1..] == list[i + 1..] && list[i..][0] == list[i];
      if Find(list[i], text, 0).Some? { return Some(i); }
    }
    found := None;
  }

  function Shifted(i: Option<nat>, offset: nat): Option<nat> { if i.None? then None else Some(i.value + offset) }

  class CuratedMemoryStore {
    var memoryEntries: seq<string>
    var userEntries: seq<string>
    var memoryFile: string
    var userFile: string
    const memoryLimit: int
    const userLimit: int

    function Holds(t: Target): Shelf
      reads this
    {
      if t == User then Shelf(userEntries, userFile) else Shelf(memoryEntries, memoryFile)
    }

    function Limit(t: Target): int { if t == User then userLimit else memoryLimit }

    /** Opening the store on two existing files. */
    constructor (memoryFile: string, userFile: string, memoryLimit: int, userLimit: int)
      ensures Holds(Memory) == Shelf(Entries(memoryFile), memoryFile)
      ensures Holds(User) == Shelf(Entries(userFile), userFile)
      ensures this.memoryLimit == memoryLimit && this.userLimit == userLimit
      ensures memoryEntries == Entries(memoryFile) && this.memoryFile == memoryFile
      ensures userEntries == Entries(userFile) && this.userFile == userFile
    {
      this.memoryFile, this.userFile, this.memoryLimit, this.userLimit := memoryFile, userFile, memoryLimit, userLimit;
      new;
      memoryEntries := SplitEntries(memoryFile);
      userEntries := SplitEntries(userFile);
    }

    method Put(t: Target, entries: seq<string>)
      modifies this
      ensures forall x :: Holds(x) == if x == t then old(Holds(x)).(entries := entries) else old(Holds(x))
      ensures t == User ==> unchanged(`memoryEntries, `memoryFile)
      ensures t == Memory ==> unchanged(`userEntries, `userFile)
    {
      if t == User { userEntries := entries; } else { memoryEntries := entries; }
    }

    method WriteFile(t: Target, written: bool) returns (success: bool)
      modifies this
      ensures success == written
      ensures forall x :: Holds(x) == if x == t && written then old(Holds(x)).(file := FileText(old(Holds(t).entries)))
                                      else old(Holds(x))
      ensures t == User ==> unchanged(`memoryEntries, `memoryFile)
      ensures t == Memory ==> unchanged(`userEntries, `userFile)
    {
      var text := JoinEntries(Holds(t).entries);
      if Holds(t).entries != [] { text := text + "\n"; } else { assert text == text + ""; }
      if !written { return false; }
      if t == User { userFile := text; } else { memoryFile := text; }
      success := true;
    }

    method Reread(t: Target, f: Faults)
      modifies this
      ensures forall x :: Holds(x) == if x == t then old(Holds(x)).(entries := ReadFile(old(Holds(x).file), f))
                                      else old(Holds(x))
      ensures t == User ==> unchanged(`memoryEntries, `memoryFile)
      ensures t == Memory ==> unchanged(`userEntries, `userFile)
    {
      var current := [];
      if f.readable { current := SplitEntries(Holds(t).file); }
      Put(t, current);
    }

    method AddEntry(t: Target, content: string, f: Faults) returns (success: bool)
      modifies this
      ensures forall x :: Holds(x) == if x == t then Add(old(Holds(x)), content, Limit(t), f) else old(Holds(x))
      ensures var s, entry := old(Holds(t)), Trimmed(content);
              success <==> entry != "" && (entry in s.entries || (!OverLimit(s.entries, entry, Limit(t)) && f.lock
                                                                  && (entry in ReadFile(s.file, f) || f.written)))
      ensures Adds(old(Holds(t)), Holds(t), content, if t == User then userLimit else memoryLimit, f)
      ensures t == User ==> unchanged(`memoryEntries, `memoryFile)
      ensures t == Memory ==> unchanged(`userEntries, `userFile)
    {
      hide Entries, FileText, Trimmed, Total;
      ghost var before, limit := Holds(t), Limit(t);
      AddIs(before, content, limit, f);
      var entry := Trim(content);
      if entry == "" { return false; }
      var list := Holds(t).entries;
      if entry in list { return true; }
      var size := TotalSize(list);
      var total := |entry| + size;
      if list != [] { total := total + 2; }
      if total > Limit(t) { return false; }
      if !f.lock { return false; }
      Reread(t, f);
      if entry in Holds(t).entries { return true; }
      Put(t, Holds(t).entries + [entry]);
      success := WriteFile(t, f.written);
    }

    method RemoveEntry(t: Target, text: string, f: Faults) returns (removed: bool)
      modifies this
      ensures forall x :: Holds(x) == if x == t then Remove(old(Holds(x)), text, f) else old(Holds(x))
      ensures removed <==> text != "" && f.lock && f.written && Match(ReadFile(old(Holds(t).file), f), text).Some?
      ensures t == User ==> unchanged(`memoryEntries, `memoryFile)
      ensures t == Memory ==> unchanged(`userEntries, `userFile)
    {
      if text == "" || !f.lock { return false; }
      Reread(t, f);
      var list := Holds(t).entries;
      hide Entries, FileText, Match, Contains;
      var i := FirstMatch(list, text);
      MatchFirst(list, text);
      if i.None? || i.value >= |list| { return false; }
      Put(t, Without(list, i.value));
      removed := WriteFile(t, f.written);
    }
  }

  // --- Every sequence of operations ------------------------------------------------

  ghost predicate AllClean(entries: seq<string>) { forall e :: e in entries ==> Clean(e) }

  /** Memory and file hold the same distinct entries, within the limit. */
  ghost predicate Conforming(s: Shelf, limit: int) {
    Entries(s.file) == s.entries && AllClean(s.entries) && Distinct(s.entries) && Total(s.entries) <= limit
  }

  /** What an operation finds in the file of a conforming target. */
  function Found(s: Shelf, f: Faults): seq<string> { if f.readable then s.entries else [] }

  /** An appended entry follows what was found; the target stays conforming exactly when
      nothing is appended or the write succeeds with an entry the format can hold. */
  lemma AddConforms(s: Shelf, content: string, limit: int, f: Faults)
    requires Conforming(s, limit)
    ensures var next, entry := Add(s, content, limit, f), Trimmed(content);
            && next.entries == (if Appends(s, content, limit, f) then Found(s, f) + [entry] else s.entries)
            && (Conforming(next, limit) <==> !Appends(s, content, limit, f) || (f.written && Clean(entry)))
  {
    hide Clean, Entries, FileText, Trimmed, Total, Distinct;
    if Appends(s, content, limit, f) {
      var entry := Trimmed(content);
      LongerConforms(s, Found(s, f), entry, limit);
    }
  }

  /** A new entry behind those found: what its file holds, and when that conforms. */
  lemma LongerConforms(s: Shelf, found: seq<string>, entry: string, limit: int)
    requires Conforming(s, limit) && (found == s.entries || found == [])
    requires entry !in s.entries && !OverLimit(s.entries, entry, limit)
    ensures var longer := found + [entry];
            && longer != s.entries && Distinct(longer) && Total(longer) <= limit
            && (AllClean(longer) <==> Clean(entry))
            && (Entries(FileText(longer)) == longer <==> AllClean(longer))
  {
    var longer := found + [entry];
    assert longer[..|found|] == found && entry in longer;
    assert Total(longer) == Total(found) + |entry|;
    hide Clean, Entries, FileText, Total;
    RoundTrip(longer);
  }

  lemma {:induction false} TotalWithout(entries: seq<string>, i: nat)
    requires i < |entries|
    ensures Total(Without(entries, i)) <= Total(entries)
  {
    var n := |entries| - 1;
    if i == n {
      assert Without(entries, i) == entries[..n];
    } else {
      TotalWithout(entries[..n], i);
      var shorter := Without(entries, i);
      assert shorter[..|shorter| - 1] == Without(entries[..n], i) && shorter[|shorter| - 1] == entries[n];
    }
  }

  /** Removing drops the first matching entry from memory, and from the file if the write
      succeeds; an unreadable file only makes memory forget every entry. The target stays
      conforming exactly when nothing was dropped or forgotten, or the drop was written. */
  lemma RemoveConforms(s: Shelf, text: string, limit: int, f: Faults)
    requires Conforming(s, limit)
    ensures var next, i, acts := Remove(s, text, f), Match(s.entries, text), text != "" && f.lock;
            var drops, forgets := acts && f.readable && i.Some?, acts && !f.readable;
            && (i.Some? ==> i.value < |s.entries|)
            && next.entries == (if forgets then [] else if drops then Without(s.entries, i.value) else s.entries)
            && Entries(next.file) == (if drops && f.written then Without(s.entries, i.value) else s.entries)
            && (Conforming(next, limit) <==> if forgets then s.entries == [] else !drops || f.written)
  {
    MatchFirst(s.entries, text);
    assert Match([], text) == None && Total([]) == 0 && Distinct([]) && AllClean([]);
    hide Match, Contains, Entries, FileText, AllClean, Distinct, Total, Without;
    var i := Match(s.entries, text);
    if i.Some? { ShorterConforms(s, i.value, limit); }
  }

  /** Without one entry: what the file of the others holds conforms. */
  lemma ShorterConforms(s: Shelf, i: nat, limit: int)
    requires Conforming(s, limit) && i < |s.entries|
    ensures var shorter := Without(s.entries, i);
            && shorter != s.entries && Distinct(shorter) && Total(shorter) <= limit && AllClean(shorter)
            && Entries(FileText(shorter)) == shorter
  {
    var shorter := Without(s.entries, i);
    TotalWithout(s.entries, i);
    assert |shorter| != |s.entries|;
    hide Entries, FileText, Clean, Total, Without, Distinct;
    WithoutKeeps(s.entries, i);
    RoundTrip(shorter);
  }

  lemma WithoutKeeps(all: seq<string>, i: nat)
    requires i < |all|
    ensures AllClean(all) ==> AllClean(Without(all, i))
    ensures Distinct(all) ==> Distinct(Without(all, i))
  {
    var shorter := Without(all, i);
    assert forall k :: 0 <= k < |shorter| ==> shorter[k] == all[if k < i then k else k + 1];
    hide Clean, Without;
    assert forall k :: 0 <= k < |shorter| ==> shorter[k] in all;
  }

  datatype Op = AddOp(content: string, f: Faults) | RemoveOp(text: string, f: Faults)

  function Do(s: Shelf, limit: int, op: Op): Shelf {
    match op
    case AddOp(content, f) => Add(s, content, limit, f)
    case RemoveOp(text, f) => Remove(s, text, f)
  }

  function DoAll(s: Shelf, limit: int, ops: seq<Op>): Shelf
    decreases |ops|
  {
    if ops == [] then s else DoAll(Do(s, limit, ops[0]), limit, ops[1..])
  }

  /** The file can be read and written, and what is added can be held by the format. */
  ghost predicate Harmless(op: Op) {
    op.f.readable && op.f.written && (op.AddOp? ==> Trimmed(op.content) == "" || Clean(Trimmed(op.content)))
  }

  /** Over every sequence of additions and removals memory and file stay equal, entries
      distinct, and their total size within the limit. */
  lemma {:induction false} AlwaysConforming(s: Shelf, limit: int, ops: seq<Op>)
    requires Conforming(s, limit) && forall op :: op in ops ==> Harmless(op)
    ensures Conforming(DoAll(s, limit, ops), limit)
    decreases |ops|
  {
    if ops != [] {
      assert Harmless(ops[0]);
      match ops[0] {
        case AddOp(content, f) => AddConforms(s, content, limit, f);
        case RemoveOp(text, f) => RemoveConforms(s, text, limit, f);
      }
      hide Conforming, Add, Remove, Harmless;
      AlwaysConforming(Do(s, limit, ops[0]), limit, ops[1..]);
    }
  }

  lemma CleanTrimmed(e: string)
    requires Clean(e)
    ensures TrimmedEntry(e)
  {
  }

  /** Entries the format can hold are read back in front of whatever follows them. */
  lemma {:induction false} CleanFirst(entries: seq<string>, last: string)
    requires AllClean(entries)
    ensures Entries(FileText(entries + [last])) == entries + Entries(FileText([last]))
  {
    if entries == [] {
      assert entries + [last] == [last];
      assert entries + Entries(FileText([last])) == Entries(FileText([last]));
    } else {
      var e, more := entries[0], entries[1..];
      assert e in entries && entries == [e] + more && entries + [last] == [e] + (more + [last]);
      CleanTrimmed(e);
      hide Entries, FileText, Clean;
      CleanFirst(more, last);
      CutFirst(e, more + [last]);
      AppendAssoc([e], more, Entries(FileText([last])));
    }
  }

  /** Every entry there was before is still in the file. */
  predicate Survive(s: Shelf, next: Shelf) { forall e :: e in s.entries ==> e in Entries(next.file) }

  /** A file that cannot be opened reads as empty: earlier entries survive an addition if the
      file could be read, was not written, or there were none; and, for an entry the format
      can hold, only then: it is all that is left. */
  lemma UnreadableLoses(s: Shelf, content: string, limit: int, f: Faults)
    requires Conforming(s, limit) && Appends(s, content, limit, f)
    ensures var next, entry := Add(s, content, limit, f), Trimmed(content);
            var kept := f.readable || !f.written || s.entries == [];
            && (kept ==> Survive(s, next))
            && (Clean(entry) ==> (Survive(s, next) <==> kept))
            && (Clean(entry) && !kept ==> Entries(next.file) == [entry])
  {
    var next, entry := Add(s, content, limit, f), Trimmed(content);
    hide Clean, Entries, FileText, Trimmed, Total;
    if f.written {
      CleanFirst(Found(s, f), entry);
      RoundTrip([entry]);
      if !f.readable {
        assert Entries(next.file) == Entries(FileText([entry]));
        if s.entries != [] { assert s.entries[0] in s.entries; }
      }
    }
  }
}
