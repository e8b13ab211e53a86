/** What every sequence of store operations keeps, whichever statements fail. */
module StoreSafety {
  import opened Text
  import opened Types
  import opened ConversationStore

  /** The rows of `c` carry exactly the numbers 0, 1, 2, ... in table order. */
  predicate Numbered(rows: seq<Row>, c: string) {
    forall k :: 0 <= k < |RowsOf(rows, c)| ==> RowsOf(rows, c)[k].seqNo == k
  }

  ghost predicate Exact(rows: seq<Row>) { forall c :: Numbered(rows, c) }

  predicate GoodRow(r: Row, db: Db) {
    r.conversation in db.conversations && r.id < db.nextId && '\0' !in r.content
  }

  ghost predicate WellFormed(db: Db) { forall r :: r in db.rows ==> GoodRow(r, db) }

  ghost predicate Valid(db: Db) { Exact(db.rows) && WellFormed(db) }

  /** The messages of a conversation in the order their rows were written. */
  function Written(db: Db, c: string): seq<Message> { Decoded(RowsOf(db.rows, c)) }

  // --- Reading in order ------------------------------------------------------------

  predicate Ascending(rows: seq<Row>) {
    forall i, j :: 0 <= i < j < |rows| ==> rows[i].seqNo < rows[j].seqNo
  }

  lemma {:induction false} SortedAlready(rows: seq<Row>)
    requires Ascending(rows)
    ensures BySeq(rows) == rows
  {
    if rows != [] {
      var init, last := rows[..|rows| - 1], rows[|rows| - 1];
      assert init != [] ==> init[|init| - 1] == rows[|rows| - 2];
      assert BySeq(rows) == Place(BySeq(init), last);
      assert Place(init, last) == init + [last];
      hide BySeq, Place;
      SortedAlready(init);
    }
  }

  lemma {:induction false} PlaceMembers(rows: seq<Row>, r: Row)
    ensures forall x :: x in Place(rows, r) <==> x in rows || x == r
  {
    if rows != [] && rows[|rows| - 1].seqNo > r.seqNo {
      PlaceMembers(rows[..|rows| - 1], r);
      assert rows == rows[..|rows| - 1] + [rows[|rows| - 1]];
    }
  }

  lemma {:induction false} BySeqMembers(rows: seq<Row>)
    ensures forall r :: r in BySeq(rows) <==> r in rows
  {
    if rows != [] {
      var init, last := rows[..|rows| - 1], rows[|rows| - 1];
      assert rows == init + [last] && BySeq(rows) == Place(BySeq(init), last);
      hide BySeq, Place;
      BySeqMembers(init);
      PlaceMembers(BySeq(init), last);
    }
  }

  /** A row numbered above all others is sorted behind them. */
  lemma SortedSnoc(rows: seq<Row>, r: Row)
    requires forall x :: x in rows ==> x.seqNo <= r.seqNo
    ensures BySeq(rows + [r]) == BySeq(rows) + [r]
  {
    assert (rows + [r])[..|rows|] == rows;
    assert BySeq(rows + [r]) == Place(BySeq(rows), r);
    BySeqMembers(rows);
    hide BySeq;
    if BySeq(rows) != [] { assert BySeq(rows)[|BySeq(rows)| - 1] in rows; }
  }

  lemma {:induction false} ActivesMembers(rows: seq<Row>)
    ensures forall r :: r in Actives(rows) ==> r in rows
  {
    if rows != [] { ActivesMembers(rows[..|rows| - 1]); }
  }

  lemma ActivesSnoc(rows: seq<Row>, r: Row)
    ensures Actives(rows + [r]) == if r.active then Actives(rows) + [r] else Actives(rows)
  {
    assert (rows + [r])[..|rows|] == rows;
  }

  ghost predicate ActivesFollow(rows: seq<Row>) {
    Ascending(Actives(rows)) && forall r :: r in Actives(rows) ==> r in rows
  }

  lemma ActivesStep(init: seq<Row>, r: Row)
    requires Ascending(init + [r]) && ActivesFollow(init)
    ensures ActivesFollow(init + [r])
  {
    ActivesSnoc(init, r);
    hide Actives;
    forall j | 0 <= j < |Actives(init)|
      ensures Actives(init)[j].seqNo < r.seqNo
    {
      assert Actives(init)[j] in init;
      var i :| 0 <= i < |init| && init[i] == Actives(init)[j];
      assert (init + [r])[i] == init[i] && (init + [r])[|init|] == r;
    }
  }

  lemma {:induction false} ActivesAscend(rows: seq<Row>)
    requires Ascending(rows)
    ensures ActivesFollow(rows)
  {
    if rows != [] {
      assert Ascending(rows[..|rows| - 1]);
      assert rows == rows[..|rows| - 1] + [rows[|rows| - 1]];
      hide ActivesFollow;
      ActivesAscend(rows[..|rows| - 1]);
      ActivesStep(rows[..|rows| - 1], rows[|rows| - 1]);
    }
  }

  lemma RowsSnoc(rows: seq<Row>, r: Row, c: string)
    ensures RowsOf(rows + [r], c) == if r.conversation == c then RowsOf(rows, c) + [r] else RowsOf(rows, c)
  {
    assert (rows + [r])[..|rows|] == rows;
  }

  lemma DecodedSnoc(rows: seq<Row>, r: Row)
    ensures Decoded(rows + [r]) == Decoded(rows) + [Decode(r)]
  {
    assert (rows + [r])[..|rows|] == rows;
  }

  /** With numbers in place, loading needs no sorting: table order is `seq` order. */
  lemma LoadInOrder(db: Db, c: string)
    requires Numbered(db.rows, c)
    ensures LoadRows(db, c, false) == Decoded(RowsOf(db.rows, c))
    ensures LoadRows(db, c, true) == Decoded(Actives(RowsOf(db.rows, c)))
  {
    var mine := RowsOf(db.rows, c);
    assert Ascending(mine);
    SortedAlready(mine);
    ActivesAscend(mine);
    SortedAlready(Actives(mine));
  }

  lemma DecodeStored(r: Row)
    requires '\0' !in r.content
    ensures Stored(Decode(r)) == Decode(r)
  {
    CStringFacts(r.content);
  }

  lemma {:induction false} DecodedStored(rows: seq<Row>, db: Db)
    requires forall r :: r in rows ==> GoodRow(r, db)
    ensures |Decoded(rows)| == |rows|
    ensures forall k :: 0 <= k < |rows| ==> Stored(Decoded(rows)[k]) == Decoded(rows)[k]
  {
    if rows != [] {
      hide Decode, Stored;
      DecodedStored(rows[..|rows| - 1], db);
      assert GoodRow(rows[|rows| - 1], db);
      DecodeStored(rows[|rows| - 1]);
    }
  }

  lemma {:induction false} RowsOfMembers(rows: seq<Row>, c: string)
    ensures forall r :: r in RowsOf(rows, c) ==> r in rows
  {
    if rows != [] { RowsOfMembers(rows[..|rows| - 1], c); }
  }

  /** Whatever a store loads is already cut at NUL. */
  lemma LoadedStored(db: Db, c: string)
    requires WellFormed(db)
    ensures forall k :: 0 <= k < |LoadRows(db, c, true)| ==>
              Stored(LoadRows(db, c, true)[k]) == LoadRows(db, c, true)[k]
  {
    var mine := RowsOf(db.rows, c);
    RowsOfMembers(db.rows, c);
    ActivesMembers(mine);
    BySeqMembers(Actives(mine));
    hide RowsOf, Actives, BySeq, Decoded, Stored;
    DecodedStored(BySeq(Actives(mine)), db);
  }

  lemma NoRowsYet(db: Db, id: string)
    requires WellFormed(db) && id !in db.conversations
    ensures RowsOf(db.rows, id) == [] && LoadRows(db, id, true) == []
  {
    forall r | r in db.rows
      ensures r.conversation != id
    {
      assert GoodRow(r, db);
    }
    NoRowsOf(db.rows, id);
  }

  lemma {:induction false} NoRowsOf(rows: seq<Row>, c: string)
    requires forall r :: r in rows ==> r.conversation != c
    ensures RowsOf(rows, c) == []
  {
    if rows != [] { NoRowsOf(rows[..|rows| - 1], c); }
  }

  // --- Appending -------------------------------------------------------------------

  lemma {:induction false} NextIsCount(rows: seq<Row>, c: string)
    requires Numbered(rows, c)
    ensures NextSeq(rows, c) == |RowsOf(rows, c)|
  {
    if rows != [] {
      var init, last := rows[..|rows| - 1], rows[|rows| - 1];
      assert rows == init + [last];
      RowsSnoc(init, last, c);
      var mine, before := RowsOf(rows, c), RowsOf(init, c);
      assert forall k :: 0 <= k < |before| ==> before[k] == mine[k];
      NextIsCount(init, c);
      if last.conversation == c { assert mine[|before|] == last; }
    }
  }

  /** Adding a row keeps the numbering exactly when the row gets the next number. */
  lemma AddNumbered(db: Db, c: string, seqNo: int, m: Message, d: string)
    requires Numbered(db.rows, d)
    ensures Numbered(AddRow(db, c, seqNo, m).rows, d) <==> d != c || seqNo == |RowsOf(db.rows, c)|
  {
    var r := MakeRow(db, c, seqNo, m);
    RowsSnoc(db.rows, r, d);
    if d == c {
      var before := RowsOf(db.rows, c);
      assert (before + [r])[|before|] == r;
    }
  }

  /** An inserted row keeps all numberings exactly when its number was read, or the
      conversation was still empty: a failed read silently restarts at 0. */
  lemma AppendKeepsNumbers(db: Db, c: string, m: Message, i: nat, ok: Oracle)
    requires Valid(db) && Inserts(db, c, i, ok)
    ensures Exact(AddRow(db, c, SeqRead(db, c, i, ok), m).rows) <==> ok(ReadSeq(i)) || RowsOf(db.rows, c) == []
  {
    var seqNo := SeqRead(db, c, i, ok);
    var rows := AddRow(db, c, seqNo, m).rows;
    NextIsCount(db.rows, c);
    forall d
      ensures Numbered(rows, d) <==> d != c || seqNo == |RowsOf(db.rows, c)|
    {
      AddNumbered(db, c, seqNo, m, d);
    }
    assert Exact(rows) ==> Numbered(rows, c);
    assert seqNo == |RowsOf(db.rows, c)| ==> forall d :: Numbered(rows, d);
  }

  lemma AddKeepsWellFormed(db: Db, c: string, seqNo: int, m: Message)
    requires WellFormed(db) && c in db.conversations
    ensures WellFormed(AddRow(db, c, seqNo, m))
  {
    var next := AddRow(db, c, seqNo, m);
    CStringFacts(m.content);
    forall r | r in next.rows
      ensures GoodRow(r, next)
    {
      if r in db.rows { assert GoodRow(r, db); }
    }
  }

  lemma AddKeepsValid(db: Db, c: string, m: Message)
    requires Valid(db) && c in db.conversations
    ensures Valid(AddRow(db, c, NextSeq(db.rows, c), m))
  {
    NextIsCount(db.rows, c);
    AddKeepsWellFormed(db, c, NextSeq(db.rows, c), m);
    hide NextSeq, RowsOf, AddRow;
    forall d
      ensures Numbered(AddRow(db, c, NextSeq(db.rows, c), m).rows, d)
    {
      AddNumbered(db, c, NextSeq(db.rows, c), m, d);
    }
  }

  lemma {:induction false} NextAbove(rows: seq<Row>, c: string)
    ensures forall r :: r in RowsOf(rows, c) ==> r.seqNo < NextSeq(rows, c)
  {
    if rows != [] { NextAbove(rows[..|rows| - 1], c); }
  }

  /** A row added with the next number is the last thing both loads return, whatever numbers
      the table holds. */
  lemma AddLoads(db: Db, c: string, m: Message, d: string)
    ensures var next := AddRow(db, c, NextSeq(db.rows, c), m);
            && (d == c ==> forall activeOnly ::
                  LoadRows(next, d, activeOnly) == LoadRows(db, d, activeOnly) + [Stored(m)])
            && (d != c ==> forall activeOnly :: LoadRows(next, d, activeOnly) == LoadRows(db, d, activeOnly))
  {
    var r, mine := MakeRow(db, c, NextSeq(db.rows, c), m), RowsOf(db.rows, d);
    RowRoundTrip(m);
    RowsSnoc(db.rows, r, d);
    if d == c {
      assert Decode(r) == Stored(m) && r.active;
      NextAbove(db.rows, c);
      ActivesMembers(mine);
      hide RowsOf, Actives, BySeq, Decoded, NextSeq, Decode, Stored;
      ActivesSnoc(mine, r);
      SortedSnoc(mine, r);
      SortedSnoc(Actives(mine), r);
      DecodedSnoc(BySeq(mine), r);
      DecodedSnoc(BySeq(Actives(mine)), r);
    }
  }

  /** Whatever number it got, a row is written behind the others. */
  lemma AddWritten(db: Db, c: string, seqNo: int, m: Message, d: string)
    ensures Written(AddRow(db, c, seqNo, m), d) == Written(db, d) + if d == c then [Stored(m)] else []
  {
    var r := MakeRow(db, c, seqNo, m);
    RowRoundTrip(m);
    assert Decode(r) == Stored(m);
    RowsSnoc(db.rows, r, d);
    hide RowsOf, Decoded, Decode, Stored;
    DecodedSnoc(RowsOf(db.rows, d), r);
    assert Written(db, d) + [] == Written(db, d);
  }

  // --- Compaction ------------------------------------------------------------------

  lemma DeactivateSnoc(rows: seq<Row>, r: Row, c: string)
    ensures Deactivate(rows + [r], c) ==
            Deactivate(rows, c) + [if r.conversation == c then r.(active := false) else r]
  {
    assert (rows + [r])[..|rows|] == rows;
  }

  function Off(rows: seq<Row>): seq<Row> {
    if rows == [] then [] else Off(rows[..|rows| - 1]) + [rows[|rows| - 1].(active := false)]
  }

  lemma OffSnoc(rows: seq<Row>, r: Row)
    ensures Off(rows + [r]) == Off(rows) + [r.(active := false)]
  {
    assert (rows + [r])[..|rows|] == rows;
  }

  ghost predicate OffAgrees(rows: seq<Row>) {
    && |Off(rows)| == |rows| && (forall k :: 0 <= k < |rows| ==> Off(rows)[k].seqNo == rows[k].seqNo)
    && Decoded(Off(rows)) == Decoded(rows)
    && Actives(Off(rows)) == []
  }

  lemma OffStep(init: seq<Row>, r: Row)
    requires OffAgrees(init)
    ensures OffAgrees(init + [r])
  {
    var r' := r.(active := false);
    assert Decode(r') == Decode(r);
    hide Off, Decoded, Actives, Decode;
    OffSnoc(init, r);
    DecodedSnoc(init, r);
    DecodedSnoc(Off(init), r');
    ActivesSnoc(Off(init), r');
  }

  /** Archived rows keep their numbers and contents, and none is active. */
  lemma {:induction false} OffFacts(rows: seq<Row>)
    ensures OffAgrees(rows)
  {
    if rows != [] {
      hide OffAgrees;
      OffFacts(rows[..|rows| - 1]);
      OffStep(rows[..|rows| - 1], rows[|rows| - 1]);
      assert rows == rows[..|rows| - 1] + [rows[|rows| - 1]];
    }
  }

  ghost predicate ArchiveReaches(rows: seq<Row>, c: string, d: string) {
    RowsOf(Deactivate(rows, c), d) == if d == c then Off(RowsOf(rows, c)) else RowsOf(rows, d)
  }

  lemma ArchiveStep(init: seq<Row>, r: Row, c: string, d: string)
    requires ArchiveReaches(init, c, d)
    ensures ArchiveReaches(init + [r], c, d)
  {
    hide Deactivate, RowsOf, Off;
    var r' := if r.conversation == c then r.(active := false) else r;
    DeactivateSnoc(init, r, c);
    RowsSnoc(init, r, d);
    RowsSnoc(Deactivate(init, c), r', d);
    OffSnoc(RowsOf(init, c), r);
  }

  /** Archiving reaches one conversation's rows and no others. */
  lemma {:induction false} DeactivateFacts(rows: seq<Row>, c: string, d: string)
    ensures ArchiveReaches(rows, c, d)
  {
    if rows == [] {
      assert Off([]) == [];
    } else {
      hide *;
      var init, last := rows[..|rows| - 1], rows[|rows| - 1];
      assert rows == init + [last];
      DeactivateFacts(init, c, d);
      ArchiveStep(init, last, c, d);
    }
  }

  lemma {:induction false} DeactivateMembers(rows: seq<Row>, c: string)
    ensures |Deactivate(rows, c)| == |rows|
    ensures forall i :: 0 <= i < |rows| ==>
              Deactivate(rows, c)[i] == rows[i] || Deactivate(rows, c)[i] == rows[i].(active := false)
  {
    if rows != [] { DeactivateMembers(rows[..|rows| - 1], c); }
  }

  lemma DeactivateKeepsWellFormed(db: Db, c: string)
    requires WellFormed(db)
    ensures WellFormed(db.(rows := Deactivate(db.rows, c)))
  {
    var next := db.(rows := Deactivate(db.rows, c));
    DeactivateMembers(db.rows, c);
    forall i | 0 <= i < |next.rows|
      ensures GoodRow(next.rows[i], next)
    {
      assert GoodRow(db.rows[i], db);
    }
  }

  lemma DeactivateKeepsValid(db: Db, c: string)
    requires Valid(db)
    ensures Valid(db.(rows := Deactivate(db.rows, c)))
  {
    var next := db.(rows := Deactivate(db.rows, c));
    DeactivateKeepsWellFormed(db, c);
    hide WellFormed;
    forall d
      ensures Numbered(next.rows, d)
    {
      assert Numbered(db.rows, d);
      DeactivateFacts(db.rows, c, d);
      OffFacts(RowsOf(db.rows, c));
    }
  }

  lemma {:induction false} OffPlace(rows: seq<Row>, r: Row)
    ensures Off(Place(rows, r)) == Place(Off(rows), r.(active := false))
  {
    if rows == [] {
      assert Off([r]) == [r.(active := false)] by { OffSnoc([], r); }
    } else {
      hide *;
      var init, last := rows[..|rows| - 1], rows[|rows| - 1];
      assert rows == init + [last];
      OffPlace(init, r);
      PlaceSnoc(init, last, r);
      OffSnoc(init, last);
      PlaceSnoc(Off(init), last.(active := false), r.(active := false));
      OffSnoc(rows, r);
      OffSnoc(Place(init, r), last);
    }
  }

  lemma PlaceSnoc(rows: seq<Row>, last: Row, r: Row)
    ensures Place(rows + [last], r) ==
            if last.seqNo <= r.seqNo then (rows + [last]) + [r] else Place(rows, r) + [last]
  {
    assert (rows + [last])[..|rows|] == rows;
  }

  /** Archiving leaves the order of numbers as it is. */
  lemma {:induction false} OffSorted(rows: seq<Row>)
    ensures BySeq(Off(rows)) == Off(BySeq(rows))
  {
    if rows != [] {
      var init, last := rows[..|rows| - 1], rows[|rows| - 1];
      OffSorted(init);
      assert Off(rows)[..|Off(rows)| - 1] == Off(init) && Off(rows)[|Off(rows)| - 1] == last.(active := false);
      assert BySeq(Off(rows)) == Place(BySeq(Off(init)), last.(active := false));
      assert BySeq(rows) == Place(BySeq(init), last);
      hide BySeq, Off, Place;
      OffPlace(BySeq(init), last);
    }
  }

  lemma DeactivateLoads(db: Db, c: string, d: string)
    ensures var next := db.(rows := Deactivate(db.rows, c));
            && LoadRows(next, d, false) == LoadRows(db, d, false)
            && (d == c ==> LoadRows(next, d, true) == [])
            && (d != c ==> LoadRows(next, d, true) == LoadRows(db, d, true))
            && Written(next, d) == Written(db, d)
  {
    var mine := RowsOf(db.rows, d);
    DeactivateFacts(db.rows, c, d);
    OffFacts(mine);
    OffSorted(mine);
    OffFacts(BySeq(mine));
    assert Decoded(BySeq([])) == [];
    hide RowsOf, Off, Deactivate, BySeq, Decoded, Actives;
  }

  function StoredAll(ms: seq<Message>): seq<Message> {
    seq(|ms|, i requires 0 <= i < |ms| => Stored(ms[i]))
  }

  ghost predicate AlwaysOk(ok: Oracle) { forall stmt :: ok(stmt) }

  /** Every read of the numbering succeeds. */
  ghost predicate ReadsNumbers(ok: Oracle) { forall i: nat :: ok(ReadSeq(i)) }

  lemma InsertStep(db: Db, c: string, ms: seq<Message>, i: nat, ok: Oracle) returns (mid: Db)
    requires i < |ms| && InsertFrom(db, c, ms, i, ok).Some?
    ensures mid == AddRow(db, c, SeqRead(db, c, i, ok), ms[i]) && mid.conversations == db.conversations
    ensures InsertFrom(db, c, ms, i, ok) == InsertFrom(mid, c, ms, i + 1, ok) && c in db.conversations
    ensures StoredAll(ms[i..]) == [Stored(ms[i])] + StoredAll(ms[i + 1..])
  {
    mid := AddRow(db, c, SeqRead(db, c, i, ok), ms[i]);
    StoredHead(ms, i);
  }

  lemma {:induction false} InsertFromFacts(db: Db, c: string, ms: seq<Message>, i: nat, ok: Oracle,
                                           d: string, activeOnly: bool)
    requires i <= |ms| && InsertFrom(db, c, ms, i, ok).Some?
    requires forall j: nat :: i <= j < |ms| ==> ok(ReadSeq(j))
    ensures var next := InsertFrom(db, c, ms, i, ok).value;
            && (d == c ==> LoadRows(next, d, activeOnly) == LoadRows(db, d, activeOnly) + StoredAll(ms[i..]))
            && (d != c ==> LoadRows(next, d, activeOnly) == LoadRows(db, d, activeOnly))
            && (Valid(db) ==> Valid(next))
    decreases |ms| - i
  {
    if i == |ms| {
      assert StoredAll(ms[i..]) == [] && LoadRows(db, d, activeOnly) + [] == LoadRows(db, d, activeOnly);
    } else {
      assert ok(ReadSeq(i));
      var mid := InsertStep(db, c, ms, i, ok);
      assert mid == AddRow(db, c, NextSeq(db.rows, c), ms[i]);
      hide *;
      if Valid(db) { AddKeepsValid(db, c, ms[i]); }
      AddLoads(db, c, ms[i], d);
      InsertFromFacts(mid, c, ms, i + 1, ok, d, activeOnly);
      AppendAssoc(LoadRows(db, d, activeOnly), [Stored(ms[i])], StoredAll(ms[i + 1..]));
    }
  }

  /** What every insertion does, whichever numbers are read. */
  lemma {:induction false} InsertWritten(db: Db, c: string, ms: seq<Message>, i: nat, ok: Oracle, d: string)
    requires i <= |ms| && InsertFrom(db, c, ms, i, ok).Some?
    ensures var next := InsertFrom(db, c, ms, i, ok).value;
            && next.conversations == db.conversations
            && Written(next, d) == Written(db, d) + (if d == c then StoredAll(ms[i..]) else [])
            && (WellFormed(db) ==> WellFormed(next))
    decreases |ms| - i
  {
    if i < |ms| {
      var mid := InsertStep(db, c, ms, i, ok);
      hide *;
      if WellFormed(db) { AddKeepsWellFormed(db, c, SeqRead(db, c, i, ok), ms[i]); }
      AddWritten(db, c, SeqRead(db, c, i, ok), ms[i], d);
      InsertWritten(mid, c, ms, i + 1, ok, d);
      AppendAssoc(Written(db, d), [Stored(ms[i])], StoredAll(ms[i + 1..]));
    }
  }

  lemma StoredHead(ms: seq<Message>, i: nat)
    requires i < |ms|
    ensures StoredAll(ms[i..]) == [Stored(ms[i])] + StoredAll(ms[i + 1..])
  {
  }

  lemma CompactedIs(db: Db, c: string, ms: seq<Message>, ok: Oracle) returns (archived: Db)
    requires Compacted(db, c, ms, ok).Some?
    ensures archived == db.(rows := Deactivate(db.rows, c))
    ensures Compacted(db, c, ms, ok) == InsertFrom(archived, c, ms, 0, ok)
    ensures ms[0..] == ms
  {
    archived := db.(rows := Deactivate(db.rows, c));
  }

  lemma CompactLoadsFor(db: Db, c: string, ms: seq<Message>, ok: Oracle, d: string, activeOnly: bool)
    requires Compacted(db, c, ms, ok).Some? && forall j: nat :: j < |ms| ==> ok(ReadSeq(j))
    ensures var next := Compacted(db, c, ms, ok).value;
            && (d != c ==> LoadRows(next, d, activeOnly) == LoadRows(db, d, activeOnly))
            && (d == c && activeOnly ==> LoadRows(next, c, true) == StoredAll(ms))
            && (d == c && !activeOnly ==> LoadRows(next, c, false) == LoadRows(db, c, false) + StoredAll(ms))
  {
    var archived := CompactedIs(db, c, ms, ok);
    hide *;
    DeactivateLoads(db, c, d);
    InsertFromFacts(archived, c, ms, 0, ok, d, activeOnly);
    assert [] + StoredAll(ms) == StoredAll(ms);
  }

  /** A committed compaction leaves exactly the compacted list active, keeps every earlier
      row readable, and does not touch other conversations. */
  lemma CompactLoads(db: Db, c: string, ms: seq<Message>, ok: Oracle, d: string)
    requires Compacted(db, c, ms, ok).Some? && forall j: nat :: j < |ms| ==> ok(ReadSeq(j))
    ensures var next := Compacted(db, c, ms, ok).value;
            && (Valid(db) ==> Valid(next))
            && LoadRows(next, c, true) == StoredAll(ms)
            && LoadRows(next, c, false) == LoadRows(db, c, false) + StoredAll(ms)
            && (d != c ==> forall activeOnly :: LoadRows(next, d, activeOnly) == LoadRows(db, d, activeOnly))
  {
    var archived := CompactedIs(db, c, ms, ok);
    hide *;
    if Valid(db) {
      DeactivateKeepsValid(db, c);
      InsertFromFacts(archived, c, ms, 0, ok, c, true);
    }
    CompactLoadsFor(db, c, ms, ok, c, true);
    CompactLoadsFor(db, c, ms, ok, c, false);
    CompactLoadsFor(db, c, ms, ok, d, true);
    CompactLoadsFor(db, c, ms, ok, d, false);
  }

  /** Whichever numbers are read, a committed compaction writes the compacted list behind the
      rows of one conversation and no row of another. */
  lemma CompactWritten(db: Db, c: string, ms: seq<Message>, ok: Oracle, d: string)
    requires Compacted(db, c, ms, ok).Some?
    ensures var next := Compacted(db, c, ms, ok).value;
            && next.conversations == db.conversations
            && Written(next, d) == Written(db, d) + (if d == c then StoredAll(ms) else [])
            && (WellFormed(db) ==> WellFormed(next))
  {
    var archived := CompactedIs(db, c, ms, ok);
    hide *;
    if WellFormed(db) { DeactivateKeepsWellFormed(db, c); }
    DeactivateLoads(db, c, d);
    InsertWritten(archived, c, ms, 0, ok, d);
  }

  // --- Removal ---------------------------------------------------------------------

  ghost predicate RemovalReaches(rows: seq<Row>, c: string, d: string) {
    && RowsOf(WithoutRows(rows, c), d) == (if d == c then [] else RowsOf(rows, d))
    && forall r :: r in WithoutRows(rows, c) ==> r in rows && r.conversation != c
  }

  lemma WithoutSnoc(rows: seq<Row>, r: Row, c: string)
    ensures WithoutRows(rows + [r], c) ==
            if r.conversation == c then WithoutRows(rows, c) else WithoutRows(rows, c) + [r]
  {
    assert (rows + [r])[..|rows|] == rows;
  }

  lemma RemovalStep(init: seq<Row>, r: Row, c: string, d: string)
    requires RemovalReaches(init, c, d)
    ensures RemovalReaches(init + [r], c, d)
  {
    hide WithoutRows, RowsOf;
    WithoutSnoc(init, r, c);
    RowsSnoc(init, r, d);
    RowsSnoc(WithoutRows(init, c), r, d);
  }

  lemma {:induction false} WithoutFacts(rows: seq<Row>, c: string, d: string)
    ensures RemovalReaches(rows, c, d)
  {
    if rows != [] {
      hide RemovalReaches;
      WithoutFacts(rows[..|rows| - 1], c, d);
      RemovalStep(rows[..|rows| - 1], rows[|rows| - 1], c, d);
      assert rows == rows[..|rows| - 1] + [rows[|rows| - 1]];
    }
  }

  lemma RemoveLoads(db: Db, c: string, d: string)
    requires Valid(db)
    ensures Valid(Removed(db, c))
    ensures forall activeOnly ::
              LoadRows(Removed(db, c), d, activeOnly) == if d == c then [] else LoadRows(db, d, activeOnly)
  {
    var next := Removed(db, c);
    forall e
      ensures Numbered(next.rows, e)
    {
      WithoutFacts(db.rows, c, e);
      assert Numbered(db.rows, e);
    }
    forall r | r in next.rows
      ensures GoodRow(r, next)
    {
      WithoutFacts(db.rows, c, c);
      assert GoodRow(r, db);
    }
    WithoutFacts(db.rows, c, d);
  }

  // --- Every run -------------------------------------------------------------------

  datatype Op =
    | CreateOp(id: string, ok: Oracle)
    | AppendOp(c: string, m: Message, ok: Oracle)
    | CompactOp(c: string, ms: seq<Message>, ok: Oracle)
    | RemoveOp(c: string, ok: Oracle)

  function Step(db: Db, op: Op): Db {
    match op
    case CreateOp(id, ok) =>
      if ok(Open) && ok(PrepCreate) && ok(Create) then db.(conversations := db.conversations + {id}) else db
    case AppendOp(c, m, ok) => Appended(db, c, m, ok)
    case CompactOp(c, ms, ok) => if Compacted(db, c, ms, ok).Some? then Compacted(db, c, ms, ok).value else db
    case RemoveOp(c, ok) =>
      if ok(Open) && ok(PrepDelete) && ok(Delete) && c in db.conversations then Removed(db, c) else db
  }

  function Run(db: Db, ops: seq<Op>): Db
    decreases |ops|
  {
    if ops == [] then db else Run(Step(db, ops[0]), ops[1..])
  }

  /** The operations are calls of the store. */
  method Perform(store: SqliteStore, op: Op)
    modifies store
    ensures store.State() == Step(old(store.State()), op)
  {
    match op {
      case CreateOp(id, ok) =>
        var _ := store.CreateConversation(id, ok);
      case AppendOp(c, m, ok) =>
        var _ := store.Append(c, m, ok);
      case CompactOp(c, ms, ok) =>
        var _ := store.ArchiveAndCompact(c, ms, ok);
      case RemoveOp(c, ok) =>
        var _ := store.Remove(c, ok);
    }
  }

  method PerformAll(store: SqliteStore, ops: seq<Op>)
    modifies store
    ensures store.State() == Run(old(store.State()), ops)
  {
    assert ops[0..] == ops;
    hide Step;
    for i := 0 to |ops|
      invariant Run(store.State(), ops[i..]) == Run(old(store.State()), ops)
    {
      assert ops[i..][0] == ops[i] && ops[i..][1..] == ops[i + 1..];
      Perform(store, ops[i]);
    }
  }

  /** What one operation adds to the full transcript of `c`, whether or not it fails. */
  lemma StepLoads(db: Db, op: Op, c: string)
    requires Valid(db) && ReadsNumbers(op.ok)
    ensures Valid(Step(db, op))
    ensures (op.RemoveOp? && op.c == c) || LoadRows(db, c, false) <= LoadRows(Step(db, op), c, false)
    ensures (op.CreateOp? || op.c != c) ==>
              forall activeOnly :: LoadRows(Step(db, op), c, activeOnly) == LoadRows(db, c, activeOnly)
  {
    match op {
      case CreateOp(id, ok) =>
        CreateKeeps(db, id);
      case AppendOp(e, m, ok) =>
        if ok(Open) && Inserts(db, e, 0, ok) {
          assert ok(ReadSeq(0));
          AddKeepsValid(db, e, m);
          AddLoads(db, e, m, c);
        }
      case CompactOp(e, ms, ok) =>
        if Compacted(db, e, ms, ok).Some? { CompactLoads(db, e, ms, ok, c); }
      case RemoveOp(e, ok) =>
        RemoveLoads(db, e, c);
    }
  }

  lemma CreateKeeps(db: Db, id: string)
    requires WellFormed(db)
    ensures WellFormed(db.(conversations := db.conversations + {id}))
  {
    forall r | r in db.rows
      ensures GoodRow(r, db.(conversations := db.conversations + {id}))
    {
      assert GoodRow(r, db);
    }
  }

  // --- When numbers are not read ---------------------------------------------------

  /** Every row the operation writes has its number read, or opens its conversation. */
  ghost predicate NumbersRead(db: Db, op: Op) {
    match op
    case AppendOp(c, _, ok) => ok(Open) && Inserts(db, c, 0, ok) ==> ReadsFrom(db, c, 1, 0, ok)
    case CompactOp(c, ms, ok) => Compacted(db, c, ms, ok).Some? ==> ReadsFrom(db, c, |ms|, 0, ok)
    case _ => true
  }

  ghost predicate ReadsFrom(db: Db, c: string, n: nat, i: nat, ok: Oracle) {
    forall j: nat :: i <= j < n ==> ok(ReadSeq(j)) || (j == i && RowsOf(db.rows, c) == [])
  }

  /** The same behaviour, except that no number read fails. */
  function Reading(ok: Oracle): Oracle { (stmt: Stmt) => stmt.ReadSeq? || ok(stmt) }

  lemma {:induction false} BrokenStays(db: Db, c: string, ms: seq<Message>, i: nat, ok: Oracle)
    requires i <= |ms| && InsertFrom(db, c, ms, i, ok).Some? && Numbered(InsertFrom(db, c, ms, i, ok).value.rows, c)
    ensures Numbered(db.rows, c)
    decreases |ms| - i
  {
    if i < |ms| {
      var r := MakeRow(db, c, SeqRead(db, c, i, ok), ms[i]);
      BrokenStays(AddRow(db, c, SeqRead(db, c, i, ok), ms[i]), c, ms, i + 1, ok);
      RowsSnoc(db.rows, r, c);
      NumberedPrefix(RowsOf(db.rows, c), r, db.rows + [r], db.rows, c);
    }
  }

  lemma NumberedPrefix(mine: seq<Row>, r: Row, rows: seq<Row>, before: seq<Row>, c: string)
    requires RowsOf(before, c) == mine && RowsOf(rows, c) == mine + [r] && Numbered(rows, c)
    ensures Numbered(before, c)
  {
    assert forall k :: 0 <= k < |mine| ==> (mine + [r])[k] == mine[k];
  }

  lemma ReadOrFirst(db: Db, c: string, i: nat, ok: Oracle)
    requires Numbered(db.rows, c) && (ok(ReadSeq(i)) || RowsOf(db.rows, c) == [])
    ensures SeqRead(db, c, i, ok) == NextSeq(db.rows, c) == SeqRead(db, c, i, Reading(ok))
  {
    NextIsCount(db.rows, c);
  }

  /** One inserted message: what its row needs, and what is left for the others. */
  lemma InsertOne(db: Db, c: string, ms: seq<Message>, i: nat, ok: Oracle) returns (mid: Db)
    requires Valid(db) && i < |ms| && InsertFrom(db, c, ms, i, ok).Some?
    ensures mid == AddRow(db, c, SeqRead(db, c, i, ok), ms[i]) && RowsOf(mid.rows, c) != []
    ensures InsertFrom(db, c, ms, i, ok) == InsertFrom(mid, c, ms, i + 1, ok)
    ensures if ok(ReadSeq(i)) || RowsOf(db.rows, c) == [] then
              Valid(mid) && InsertFrom(db, c, ms, i, Reading(ok)) == InsertFrom(mid, c, ms, i + 1, Reading(ok))
            else !Numbered(mid.rows, c)
  {
    mid := AddRow(db, c, SeqRead(db, c, i, ok), ms[i]);
    RowsSnoc(db.rows, MakeRow(db, c, SeqRead(db, c, i, ok), ms[i]), c);
    assert Numbered(db.rows, c);
    AddNumbered(db, c, SeqRead(db, c, i, ok), ms[i], c);
    if ok(ReadSeq(i)) || RowsOf(db.rows, c) == [] {
      ReadOrFirst(db, c, i, ok);
      AddKeepsValid(db, c, ms[i]);
    }
  }

  lemma {:induction false} InsertReads(db: Db, c: string, ms: seq<Message>, i: nat, ok: Oracle)
    requires Valid(db) && i <= |ms| && InsertFrom(db, c, ms, i, ok).Some?
    ensures ReadsFrom(db, c, |ms|, i, ok) ==> InsertFrom(db, c, ms, i, ok) == InsertFrom(db, c, ms, i, Reading(ok))
    ensures Numbered(InsertFrom(db, c, ms, i, ok).value.rows, c) ==> ReadsFrom(db, c, |ms|, i, ok)
    decreases |ms| - i
  {
    if i < |ms| {
      hide *;
      var mid := InsertOne(db, c, ms, i, ok);
      ReadsStep(db, c, |ms|, i, ok, mid);
      if ok(ReadSeq(i)) || RowsOf(db.rows, c) == [] {
        InsertReads(mid, c, ms, i + 1, ok);
      } else if Numbered(InsertFrom(mid, c, ms, i + 1, ok).value.rows, c) {
        BrokenStays(mid, c, ms, i + 1, ok);
      }
    } else {
      hide Valid, Numbered, RowsOf;
    }
  }

  lemma ReadsStep(db: Db, c: string, n: nat, i: nat, ok: Oracle, mid: Db)
    requires i < n && RowsOf(mid.rows, c) != []
    ensures ReadsFrom(db, c, n, i, ok) <==>
            (ok(ReadSeq(i)) || RowsOf(db.rows, c) == []) && ReadsFrom(mid, c, n, i + 1, ok)
  {
    hide RowsOf;
  }

  /** Whether a compaction goes through does not depend on the numbers it reads. */
  lemma CompactsAlike(db: Db, c: string, ms: seq<Message>, ok: Oracle)
    ensures Compacted(db, c, ms, Reading(ok)).Some? <==> Compacted(db, c, ms, ok).Some?
  {
    CommitsExactly(db, c, ms, ok);
    CommitsExactly(db, c, ms, Reading(ok));
    assert forall j: nat :: RowSucceeds(j, Reading(ok)) <==> RowSucceeds(j, ok);
    hide Compacted, RowSucceeds;
  }

  lemma NoRowsArchived(db: Db, c: string)
    ensures RowsOf(Deactivate(db.rows, c), c) == [] <==> RowsOf(db.rows, c) == []
  {
    DeactivateFacts(db.rows, c, c);
    OffFacts(RowsOf(db.rows, c));
  }

  function WithReads(op: Op): Op {
    match op
    case CreateOp(id, ok) => CreateOp(id, Reading(ok))
    case AppendOp(c, m, ok) => AppendOp(c, m, Reading(ok))
    case CompactOp(c, ms, ok) => CompactOp(c, ms, Reading(ok))
    case RemoveOp(c, ok) => RemoveOp(c, Reading(ok))
  }

  lemma StepWithReads(db: Db, op: Op)
    requires Valid(db)
    ensures NumbersRead(db, op) ==> Step(db, op) == Step(db, WithReads(op))
    ensures Exact(Step(db, op).rows) ==> NumbersRead(db, op)
  {
    match op {
      case CreateOp(_, _) =>
      case RemoveOp(_, _) =>
      case AppendOp(c, m, ok) =>
        if ok(Open) && Inserts(db, c, 0, ok) {
          AppendKeepsNumbers(db, c, m, 0, ok);
          assert Numbered(db.rows, c);
          if ok(ReadSeq(0)) || RowsOf(db.rows, c) == [] { ReadOrFirst(db, c, 0, ok); }
        }
      case CompactOp(c, ms, ok) =>
        CompactsAlike(db, c, ms, ok);
        if Compacted(db, c, ms, ok).Some? {
          var archived := db.(rows := Deactivate(db.rows, c));
          DeactivateKeepsValid(db, c);
          NoRowsArchived(db, c);
          hide Deactivate, InsertFrom, RowsOf, Valid;
          InsertReads(archived, c, ms, 0, ok);
          assert Exact(Step(db, op).rows) ==> Numbered(Step(db, op).rows, c);
        }
    }
  }

  /** Numbers stay 0, 1, 2, ... through an operation exactly when it reads the numbers of the
      rows it writes, or writes the first row of a conversation; the tables then stay valid,
      and a conversation that is not removed only grows at its end. */
  lemma StepSafe(db: Db, op: Op, c: string)
    requires Valid(db)
    ensures Exact(Step(db, op).rows) <==> NumbersRead(db, op)
    ensures NumbersRead(db, op) ==>
              && Valid(Step(db, op))
              && ((op.RemoveOp? && op.c == c) || LoadRows(db, c, false) <= LoadRows(Step(db, op), c, false))
  {
    StepWithReads(db, op);
    hide Step, NumbersRead, LoadRows;
    StepLoads(db, WithReads(op), c);
  }

  ghost predicate AllRead(db: Db, ops: seq<Op>)
    decreases |ops|
  {
    ops == [] || (NumbersRead(db, ops[0]) && AllRead(Step(db, ops[0]), ops[1..]))
  }

  ghost predicate ExactThroughout(db: Db, ops: seq<Op>)
    decreases |ops|
  {
    Exact(db.rows) && (ops == [] || ExactThroughout(Step(db, ops[0]), ops[1..]))
  }

  /** Over every run, whichever statements fail: numbers are 0, 1, 2, ... in every conversation
      all the time exactly when each row that did not open its conversation had its number
      read; and then the full transcript of a conversation that is not removed only grows. */
  lemma {:induction false} RunSafe(db: Db, ops: seq<Op>, c: string)
    requires Valid(db)
    ensures ExactThroughout(db, ops) <==> AllRead(db, ops)
    ensures AllRead(db, ops) ==>
              && Valid(Run(db, ops))
              && ((forall op :: op in ops ==> !(op.RemoveOp? && op.c == c)) ==>
                    LoadRows(db, c, false) <= LoadRows(Run(db, ops), c, false))
    decreases |ops|
  {
    if ops != [] {
      StepSafe(db, ops[0], c);
      var next := Step(db, ops[0]);
      hide Exact, Step, NumbersRead, LoadRows;
      if NumbersRead(db, ops[0]) {
        RunSafe(next, ops[1..], c);
      } else {
        assert !ExactThroughout(next, ops[1..]);
      }
    }
  }
}
