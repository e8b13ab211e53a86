/** The two sides that history and store are compared by, where they part, and what each
    operation does to them, to the rows and to the log of rows written. The results over
    whole sequences of operations are in `TranscriptSafety`. */
module TranscriptFacts {
  import opened Text
  import opened Types
  import opened ConversationStore
  import opened StoreSafety
  import opened AgentLoop

  function NonSystem(ms: seq<Message>): seq<Message> {
    if ms == [] then []
    else NonSystem(ms[..|ms| - 1]) + if ms[|ms| - 1].role != System then [ms[|ms| - 1]] else []
  }

  /** What history and store are compared by: without system messages and, as row contents
      end at a NUL, in stored form. */
  function Form(ms: seq<Message>): seq<Message> { StoredAll(NonSystem(ms)) }

  /** The store's side: the active rows, then the waiting messages. */
  function Told(s: Session): seq<Message> {
    NonSystem(LoadRows(s.db, s.conversationId, true)) + StoredAll(s.pending)
  }

  predicate Agrees(s: Session) { Told(s) == Form(s.history) }

  ghost predicate Sound(s: Session) {
    && WellFormed(s.db) && "" !in s.db.conversations
    && (s.conversationId == "" || s.conversationId in s.db.conversations)
    && forall m :: m in s.pending ==> m.role != System
  }

  function StoredThen(s: Session): seq<Message> { if s.parting.None? then [] else Form(s.parting.value.stored) }

  function LiveThen(s: Session): seq<Message> { if s.parting.None? then [] else Form(s.parting.value.live) }

  /** Since the last parting both sides have grown by the same messages. */
  predicate Alike(s: Session, since: seq<Message>) {
    Told(s) == StoredThen(s) + since && Form(s.history) == LiveThen(s) + since
  }

  ghost predicate Refines(s: Session) { Sound(s) && exists since :: Alike(s, since) }

  /** The two sides have not parted since they agreed, or said the same when they did. */
  predicate NothingLost(s: Session) {
    s.parting.None? || Form(s.parting.value.stored) == Form(s.parting.value.live)
  }

  lemma AgreesExactly(s: Session)
    requires Refines(s)
    ensures Agrees(s) <==> NothingLost(s)
  {
    hide Told, Form;
    var since :| Alike(s, since);
    AppendCancel(StoredThen(s), LiveThen(s), since);
  }

  lemma AppendCancel<T>(a: seq<T>, b: seq<T>, c: seq<T>)
    ensures a + c == b + c <==> a == b
  {
    if a + c == b + c {
      assert |a| == |b| && (a + c)[..|a|] == a && (b + c)[..|b|] == b;
    }
  }

  // --- Small facts -----------------------------------------------------------------

  lemma NonSystemSnoc(ms: seq<Message>, m: Message)
    ensures NonSystem(ms + [m]) == if m.role != System then NonSystem(ms) + [m] else NonSystem(ms)
  {
    assert (ms + [m])[..|ms|] == ms;
  }

  lemma StoredSnoc(ms: seq<Message>, m: Message)
    ensures StoredAll(ms + [m]) == StoredAll(ms) + [Stored(m)]
  {
  }

  lemma {:induction false} NonSystemAppend(a: seq<Message>, b: seq<Message>)
    ensures NonSystem(a + b) == NonSystem(a) + NonSystem(b)
  {
    if b == [] {
      assert a + b == a;
    } else {
      var init, m := b[..|b| - 1], b[|b| - 1];
      assert a + b == (a + init) + [m] && b == init + [m];
      hide NonSystem;
      NonSystemAppend(a, init);
      NonSystemSnoc(a + init, m);
      NonSystemSnoc(init, m);
    }
  }

  lemma {:induction false} NonSystemStored(ms: seq<Message>)
    ensures NonSystem(StoredAll(ms)) == StoredAll(NonSystem(ms))
  {
    if ms != [] {
      var init, m := ms[..|ms| - 1], ms[|ms| - 1];
      assert ms == init + [m];
      hide NonSystem, StoredAll;
      NonSystemStored(init);
      StoredSnoc(init, m);
      NonSystemSnoc(StoredAll(init), Stored(m));
      NonSystemSnoc(init, m);
      StoredSnoc(NonSystem(init), m);
    }
  }

  lemma {:induction false} NonSystemAll(ms: seq<Message>)
    requires forall m :: m in ms ==> m.role != System
    ensures NonSystem(ms) == ms
  {
    if ms != [] {
      var init, m := ms[..|ms| - 1], ms[|ms| - 1];
      assert ms == init + [m] && m in ms;
      hide NonSystem;
      NonSystemAll(init);
      NonSystemSnoc(init, m);
    }
  }

  // --- Refinement, operation by operation ------------------------------------------

  /** A step that leaves both sides and the parting alone. */
  lemma SidesKept(s: Session, next: Session)
    requires Refines(s) && Sound(next) && next.parting == s.parting
    requires Told(next) == Told(s) && Form(next.history) == Form(s.history)
    ensures Refines(next)
  {
    hide Told, Form;
    var since :| Alike(s, since);
    assert Alike(next, since);
  }

  /** A step that adds the same message to both sides. */
  lemma SidesGrow(s: Session, next: Session, m: Message)
    requires Refines(s) && Sound(next) && next.parting == s.parting
    requires Told(next) == Told(s) + [m] && Form(next.history) == Form(s.history) + [m]
    ensures Refines(next)
  {
    hide Told, Form;
    var since :| Alike(s, since);
    AppendAssoc(StoredThen(s), since, [m]);
    AppendAssoc(LiveThen(s), since, [m]);
    assert Alike(next, since + [m]);
  }

  lemma AgreeRefines(s: Session)
    requires Sound(s) && s.parting.None? && Agrees(s)
    ensures Refines(s)
  {
    assert [] + Told(s) == Told(s);
    assert Alike(s, Told(s));
  }

  lemma AppendRefines(s: Session, m: Message)
    requires Refines(s)
    ensures Refines(AppendTo(s, m))
  {
    var next := AppendTo(s, m);
    NonSystemSnoc(s.history, m);
    if m.role != System {
      StoredSnoc(s.pending, m);
      StoredSnoc(NonSystem(s.history), m);
      AppendAssoc(NonSystem(LoadRows(s.db, s.conversationId, true)), StoredAll(s.pending), [Stored(m)]);
      assert Told(next) == Told(s) + [Stored(m)] && Form(next.history) == Form(s.history) + [Stored(m)];
      hide Told, Form;
      SidesGrow(s, next, Stored(m));
    } else {
      SidesKept(s, next);
    }
  }

  lemma ActRefines(s: Session, a: Action)
    requires Refines(s)
    ensures Refines(Act(s, a))
  {
    match a {
      case AppendMessage(m) =>
        hide Refines, AppendTo;
        AppendRefines(s, m);
      case PushSystem(text) =>
        NonSystemSnoc(s.history, Plain(System, text));
        hide Alike, NonSystem, StoredAll, LoadRows, WellFormed;
        SidesKept(s, Act(s, a));
    }
  }

  lemma {:induction false} ActsRefine(s: Session, actions: seq<Action>)
    requires Refines(s)
    ensures Refines(ActAll(s, actions))
  {
    if actions != [] {
      var init, a := actions[..|actions| - 1], actions[|actions| - 1];
      assert ActAll(s, actions) == Act(ActAll(s, init), a);
      hide *;
      ActsRefine(s, init);
      ActRefines(ActAll(s, init), a);
    }
  }

  /** The messages whose append reaches the table. */
  function Landed(db: Db, c: string, ms: seq<Message>, appends: nat -> Oracle): seq<Message> {
    if ms == [] then []
    else
      var n := |ms| - 1;
      Landed(db, c, ms[..n], appends) + if Lands(db, c, appends(n)) then [ms[n]] else []
  }

  lemma AllLandSnoc(db: Db, c: string, n: nat, appends: nat -> Oracle)
    ensures AllLand(db, c, n + 1, appends) <==> AllLand(db, c, n, appends) && Lands(db, c, appends(n))
    ensures AllLand(db, c, 0, appends)
  {
    hide Lands;
  }

  lemma LandedSnoc(db: Db, c: string, ms: seq<Message>, m: Message, appends: nat -> Oracle)
    ensures Landed(db, c, ms + [m], appends) ==
            Landed(db, c, ms, appends) + if Lands(db, c, appends(|ms|)) then [m] else []
  {
    hide Lands;
    assert (ms + [m])[..|ms|] == ms;
  }

  /** Some of `whole`; how many tells whether it is all. */
  ghost predicate SomeOf(part: seq<Message>, whole: seq<Message>, all: bool) {
    && |part| <= |whole| && (all <==> |part| == |whole|) && (all ==> part == whole)
    && forall m :: m in part ==> m in whole
  }

  lemma SomeOfSnoc(part: seq<Message>, whole: seq<Message>, all: bool, m: Message, more: bool)
    requires SomeOf(part, whole, all)
    ensures SomeOf(part + (if more then [m] else []), whole + [m], all && more)
  {
    assert part + [] == part;
  }

  lemma {:induction false} LandedFacts(db: Db, c: string, ms: seq<Message>, appends: nat -> Oracle)
    ensures SomeOf(Landed(db, c, ms, appends), ms, AllLand(db, c, |ms|, appends))
  {
    if ms == [] {
      assert Landed(db, c, ms, appends) == [];
      AllLandSnoc(db, c, 0, appends);
    } else {
      hide *;
      var n := |ms| - 1;
      var init, m := ms[..n], ms[n];
      assert ms == init + [m];
      LandedFacts(db, c, init, appends);
      LandedSnoc(db, c, init, m, appends);
      AllLandSnoc(db, c, n, appends);
      SomeOfSnoc(Landed(db, c, init, appends), init, AllLand(db, c, n, appends), m, Lands(db, c, appends(n)));
    }
  }

  /** One append: its number decides where its row is sorted, and nothing else. */
  lemma AppendOne(db: Db, c: string, m: Message, ok: Oracle, d: string, activeOnly: bool)
    ensures var next, sent := Appended(db, c, m, ok), if Lands(db, c, ok) && d == c then [Stored(m)] else [];
            && next.conversations == db.conversations
            && (WellFormed(db) ==> WellFormed(next))
            && Written(next, d) == Written(db, d) + sent
            && (ok(ReadSeq(0)) ==> LoadRows(next, d, activeOnly) == LoadRows(db, d, activeOnly) + sent)
  {
    var seqNo := SeqRead(db, c, 0, ok);
    if Lands(db, c, ok) {
      if WellFormed(db) { AddKeepsWellFormed(db, c, seqNo, m); }
      AddWritten(db, c, seqNo, m, d);
      if ok(ReadSeq(0)) { AddLoads(db, c, m, d); }
    } else {
      assert Written(db, d) + [] == Written(db, d) && LoadRows(db, d, activeOnly) + [] == LoadRows(db, d, activeOnly);
    }
  }

  lemma PersistOne(db: Db, w: seq<Entry>, c: string, ms: seq<Message>, appends: nat -> Oracle)
    requires ms != []
    ensures var n := |ms| - 1;
            var (mid, w1), (last, w2) := PersistAll(db, w, c, ms[..n], appends), PersistAll(db, w, c, ms, appends);
            && last == Appended(mid, c, ms[n], appends(n))
            && w2 == (if Lands(mid, c, appends(n)) then w1 + [Entry(c, ms[n], true)] else w1)
            && ms == ms[..n] + [ms[n]]
  {
  }

  /** Appending writes exactly the messages whose append reaches the table behind those of one
      conversation; with the numbers read they are also loaded behind the others. */
  lemma {:induction false} PersistAllLoads(db: Db, w: seq<Entry>, c: string, ms: seq<Message>,
                                           appends: nat -> Oracle, d: string, activeOnly: bool)
    ensures var (next, log) := PersistAll(db, w, c, ms, appends);
            var landed := Landed(db, c, ms, appends);
            var sent := if d == c then StoredAll(landed) else [];
            && next.conversations == db.conversations
            && (WellFormed(db) ==> WellFormed(next))
            && Written(next, d) == Written(db, d) + sent
            && (AllNumbered(|ms|, appends) ==> LoadRows(next, d, activeOnly) == LoadRows(db, d, activeOnly) + sent)
            && log == w + Entries(c, landed, true)
  {
    if ms == [] {
      assert StoredAll([]) == [] && Entries(c, [], true) == [];
      assert Written(db, d) + [] == Written(db, d) && LoadRows(db, d, activeOnly) + [] == LoadRows(db, d, activeOnly);
    } else {
      var n := |ms| - 1;
      var init, m, ok := ms[..n], ms[n], appends(n);
      var (mid, w1) := PersistAll(db, w, c, init, appends);
      PersistAllLoads(db, w, c, init, appends, d, activeOnly);
      PersistOne(db, w, c, ms, appends);
      AppendOne(mid, c, m, ok, d, activeOnly);
      assert Lands(mid, c, ok) == Lands(db, c, ok);
      assert AllNumbered(|ms|, appends) ==> AllNumbered(n, appends) && ok(ReadSeq(0));
      var before, more := Landed(db, c, init, appends), if Lands(db, c, ok) then [m] else [];
      assert Landed(db, c, ms, appends) == before + more;
      hide *;
      LandsMore(before, more, m, c, w, Written(db, d), LoadRows(db, d, activeOnly));
    }
  }

  /** What one more landed message adds to the log, and behind the rows in front. */
  lemma LandsMore(before: seq<Message>, more: seq<Message>, m: Message, c: string, w: seq<Entry>,
                  written: seq<Message>, loaded: seq<Message>)
    requires more == [m] || more == []
    ensures var sent := if more == [] then [] else [Stored(m)];
            && written + StoredAll(before + more) == written + StoredAll(before) + sent
            && loaded + StoredAll(before + more) == loaded + StoredAll(before) + sent
            && written + [] == written && loaded + [] == loaded
    ensures w + Entries(c, before + more, true) ==
            if more == [] then w + Entries(c, before, true)
            else (w + Entries(c, before, true)) + [Entry(c, m, true)]
  {
    hide *;
    StoredMore(before, more, m);
    EntriesMore(c, before, more, m);
    AppendAssoc(written, StoredAll(before), StoredAll(more));
    AppendAssoc(loaded, StoredAll(before), StoredAll(more));
    AppendAssoc(w, Entries(c, before, true), Entries(c, more, true));
    assert (written + StoredAll(before)) + [] == written + StoredAll(before);
    assert (loaded + StoredAll(before)) + [] == loaded + StoredAll(before);
    assert (w + Entries(c, before, true)) + [] == w + Entries(c, before, true);
  }

  lemma StoredMore(a: seq<Message>, more: seq<Message>, m: Message)
    requires more == [m] || more == []
    ensures StoredAll(a + more) == StoredAll(a) + StoredAll(more)
    ensures StoredAll(more) == if more == [] then [] else [Stored(m)]
  {
  }

  lemma EntriesMore(c: string, a: seq<Message>, more: seq<Message>, m: Message)
    requires more == [m] || more == []
    ensures Entries(c, a + more, true) == Entries(c, a, true) + Entries(c, more, true)
    ensures Entries(c, more, true) == if more == [] then [] else [Entry(c, m, true)]
  {
  }

  lemma EntriesSnoc(c: string, ms: seq<Message>, m: Message, byAppend: bool)
    ensures Entries(c, ms + [m], byAppend) == Entries(c, ms, byAppend) + [Entry(c, m, byAppend)]
  {
  }

  /** What a persist leaves alone, and where its rows and log come from. */
  lemma PersistIs(s: Session, cfg: Config, appends: nat -> Oracle)
    requires Persists(s, cfg)
    ensures var next := Persist(s, cfg, appends);
            && (next.db, next.log) == PersistAll(s.db, s.log, s.conversationId, s.pending, appends)
            && next.pending == [] && next.history == s.history && next.conversationId == s.conversationId
            && next.appended == s.appended
  {
    hide PersistAll, AllLand, AllNumbered, LoadRows;
  }

  lemma ToldWith(front: seq<Message>, landed: seq<Message>)
    requires forall m :: m in landed ==> m.role != System
    ensures NonSystem(front + StoredAll(landed)) + StoredAll([]) == NonSystem(front) + StoredAll(landed)
  {
    var all := NonSystem(front) + StoredAll(landed);
    assert StoredAll([]) == [] && all + [] == all;
    hide *;
    NonSystemPending(landed);
    NonSystemAppend(front, StoredAll(landed));
  }

  lemma PersistSound(s: Session, cfg: Config, appends: nat -> Oracle)
    requires Sound(s) && Persists(s, cfg)
    ensures Sound(Persist(s, cfg, appends))
  {
    PersistIs(s, cfg, appends);
    hide Persist, PersistAll;
    PersistAllLoads(s.db, s.log, s.conversationId, s.pending, appends, s.conversationId, true);
  }

  lemma LandedSpoken(s: Session, appends: nat -> Oracle)
    requires Sound(s)
    ensures forall m :: m in Landed(s.db, s.conversationId, s.pending, appends) ==> m.role != System
  {
    hide Landed, AllLand;
    LandedFacts(s.db, s.conversationId, s.pending, appends);
  }

  /** The waiting messages that land are told as they were told before. */
  lemma PersistTold(s: Session, cfg: Config, appends: nat -> Oracle)
    requires Sound(s) && Persists(s, cfg) && AllNumbered(|s.pending|, appends)
    ensures Told(Persist(s, cfg, appends)) ==
            NonSystem(LoadRows(s.db, s.conversationId, true))
            + StoredAll(Landed(s.db, s.conversationId, s.pending, appends))
  {
    var c, next := s.conversationId, Persist(s, cfg, appends);
    ToldIs(next);
    hide *;
    PersistIs(s, cfg, appends);
    LandedSpoken(s, appends);
    PersistAllLoads(s.db, s.log, c, s.pending, appends, c, true);
    ToldWith(LoadRows(s.db, c, true), Landed(s.db, c, s.pending, appends));
  }

  lemma ToldIs(s: Session)
    ensures Told(s) == NonSystem(LoadRows(s.db, s.conversationId, true)) + StoredAll(s.pending)
  {
  }

  lemma AllThere(front: seq<Message>, landed: seq<Message>, pending: seq<Message>)
    requires |landed| == |pending| ==> landed == pending
    ensures front + StoredAll(landed) == front + StoredAll(pending) <==> |landed| == |pending|
  {
    assert |StoredAll(landed)| == |landed| && |StoredAll(pending)| == |pending|;
    assert |front + StoredAll(landed)| == |front| + |landed|;
    assert |front + StoredAll(pending)| == |front| + |pending|;
    hide StoredAll;
  }

  lemma PersistRefines(s: Session, cfg: Config, appends: nat -> Oracle)
    requires Refines(s)
    ensures var next := Persist(s, cfg, appends);
            && Refines(next) && (Persists(s, cfg) ==> next.pending == [])
            && next.history == s.history && next.conversationId == s.conversationId
  {
    if Persists(s, cfg) {
      var next := Persist(s, cfg, appends);
      PersistSound(s, cfg, appends);
      PersistIs(s, cfg, appends);
      hide Told, Form, Landed, StoredAll, NonSystem, Alike, LoadRows, PersistAll, Sound, AllLand, AllNumbered;
      if AllLand(s.db, s.conversationId, |s.pending|, appends) && AllNumbered(|s.pending|, appends) {
        PersistTold(s, cfg, appends);
        LandedFacts(s.db, s.conversationId, s.pending, appends);
        ToldIs(s);
        SidesKept(s, next);
      } else {
        var before := next.(parting := s.parting);
        assert next == Parted(before);
        SoundParted(next, s.parting);
        PartedRefines(before);
      }
    }
  }

  lemma SoundParted(s: Session, parting: Option<Parting>)
    requires Sound(s)
    ensures Sound(s.(parting := parting))
  {
  }

  lemma NonSystemPending(ms: seq<Message>)
    requires forall m :: m in ms ==> m.role != System
    ensures NonSystem(StoredAll(ms)) == StoredAll(ms)
  {
    NonSystemAll(ms);
    NonSystemStored(ms);
  }

  /** What a parting records is the store's side at that moment. */
  lemma RecordedForm(s: Session)
    requires Sound(s)
    ensures Form(Recorded(s)) == Told(s)
  {
    var rows := LoadRows(s.db, s.conversationId, true);
    LoadedStored(s.db, s.conversationId);
    assert StoredAll(rows) == rows;
    hide NonSystem, LoadRows, StoredAll;
    NonSystemStored(rows);
    NonSystemAppend(rows, s.pending);
    NonSystemAll(s.pending);
    StoredAppend(NonSystem(rows), s.pending);
  }

  lemma StoredAppend(a: seq<Message>, b: seq<Message>)
    ensures StoredAll(a + b) == StoredAll(a) + StoredAll(b)
  {
  }

  lemma PartedRefines(s: Session)
    requires Sound(s)
    ensures Refines(Parted(s))
  {
    var next := Parted(s);
    RecordedForm(s);
    assert Told(next) + [] == Told(s) && Form(s.history) + [] == Form(s.history);
    assert Alike(next, []);
  }

  lemma CompressedRefines(s: Session, replaced: Option<seq<Message>>)
    requires Refines(s)
    ensures Refines(Compress(s, replaced))
  {
    if replaced.Some? { PartedRefines(s.(history := replaced.value)); }
  }

  /** A committed compaction that could read its numbers re-establishes agreement, whatever
      was the case before. */
  lemma ArchiveRefines(s: Session, archive: Oracle)
    requires Sound(s) && Archived(s, archive).Some?
    ensures var next := Archived(s, archive).value;
            Refines(next) && (ArchiveNumbered(|s.history|, archive) ==> Agrees(next) && next.parting.None?)
  {
    var c, next := s.conversationId, Archived(s, archive).value;
    CompactWritten(s.db, c, s.history, archive, c);
    if ArchiveNumbered(|s.history|, archive) {
      CompactLoads(s.db, c, s.history, archive, c);
      NonSystemStored(s.history);
      assert StoredAll([]) == [] && NonSystem(StoredAll(s.history)) + [] == NonSystem(StoredAll(s.history));
      AgreeRefines(next);
    } else {
      PartedRefines(next.(parting := None));
    }
  }

  lemma PersistOrArchiveRefines(s: Session, cfg: Config, compressed: bool, f: Faults)
    requires Refines(s)
    ensures Refines(PersistOrArchive(s, cfg, compressed, f))
  {
    PersistRefines(s, cfg, f.appends);
    var persisted := Persist(s, cfg, f.appends);
    if Archived(persisted, f.archive).Some? { ArchiveRefines(persisted, f.archive); }
  }

  lemma EnsureRefines(s: Session, cfg: Config, id: string, create: Oracle)
    requires Refines(s) && id != ""
    ensures Refines(EnsureConversation(s, cfg, id, create))
  {
    CreateKeeps(s.db, id);
    if s.conversationId == "" && id !in s.db.conversations {
      NoRowsYet(s.db, "");
      NoRowsYet(s.db, id);
      var next := EnsureConversation(s, cfg, id, create);
      assert LoadRows(next.db, id, true) == LoadRows(s.db, id, true);
      SidesKept(s, next);
    }
  }

  function Acted(s: Session, t: Turn): Session { ActAll(Compress(s, t.replaced), t.actions) }

  function TurnTaken(s: Session, t: Turn): Session {
    if t.outcome.PlanApproved? then AppendTo(Acted(s, t), t.outcome.m) else Acted(s, t)
  }

  lemma TurnRefines(s: Session, t: Turn)
    requires Refines(s)
    ensures Refines(Acted(s, t)) && Refines(TurnTaken(s, t))
  {
    hide Refines, Compress, ActAll, AppendTo;
    CompressedRefines(s, t.replaced);
    ActsRefine(Compress(s, t.replaced), t.actions);
    if t.outcome.PlanApproved? { AppendRefines(Acted(s, t), t.outcome.m); }
  }

  /** One iteration that is not the last, as one step. */
  lemma IterateOnce(s: Session, cfg: Config, turns: nat -> Turn, i: nat, compressed: bool, f: Faults)
    requires i < cfg.maxIterations && !turns(i).interrupted
    ensures var t := turns(i);
            var now, end := compressed || t.replaced.Some?, Iterate(s, cfg, turns, i, compressed, f);
            match t.outcome
            case Failed => end == Acted(s, t)
            case Stopped => end == PersistOrArchive(Acted(s, t), cfg, now, f)
            case _ => end == Iterate(TurnTaken(s, t), cfg, turns, i + 1, now, f)
  {
    hide Compress, ActAll, AppendTo, PersistOrArchive;
  }

  lemma {:induction false} IterateRefines(s: Session, cfg: Config, turns: nat -> Turn, i: nat, compressed: bool,
                                          f: Faults)
    requires Refines(s)
    ensures Refines(Iterate(s, cfg, turns, i, compressed, f))
    decreases cfg.maxIterations - i
  {
    hide Refines, Compress, ActAll, AppendTo, PersistOrArchive, Acted, TurnTaken;
    if i >= cfg.maxIterations {
      PersistOrArchiveRefines(s, cfg, compressed, f);
    } else if !turns(i).interrupted {
      var t, now := turns(i), compressed || turns(i).replaced.Some?;
      TurnRefines(s, t);
      IterateOnce(s, cfg, turns, i, compressed, f);
      match t.outcome {
        case Failed =>
        case Stopped => PersistOrArchiveRefines(Acted(s, t), cfg, now, f);
        case _ => IterateRefines(TurnTaken(s, t), cfg, turns, i + 1, now, f);
      }
    }
  }

  // --- Every sequence of operations ------------------------------------------------

  datatype SessionOp =
    | RunOp(user: Message, id: string, turns: nat -> Turn, f: Faults)
    | CompressOp(live: Option<seq<Message>>, f: Faults)
    | ResumeOp(id: string, load: Oracle)
    | ClearOp

  function Do(s: Session, cfg: Config, op: SessionOp): Session {
    match op
    case RunOp(user, id, turns, f) => RunSession(s, cfg, user, id, turns, f)
    case CompressOp(live, f) => CompressSession(s, cfg, live, f)
    case ResumeOp(id, load) => ResumeSession(s, id, load)
    case ClearOp => ClearSession(s)
  }

  function DoAll(s: Session, cfg: Config, ops: seq<SessionOp>): Session
    decreases |ops|
  {
    if ops == [] then s else DoAll(Do(s, cfg, ops[0]), cfg, ops[1..])
  }

  /** Generated ids are not empty. */
  predicate Wellbehaved(op: SessionOp) {
    match op
    case RunOp(_, id, _, _) => id != ""
    case _ => true
  }

  lemma CompressRefines(s: Session, cfg: Config, live: Option<seq<Message>>, f: Faults)
    requires Refines(s)
    ensures Refines(CompressSession(s, cfg, live, f))
  {
    if live.Some? {
      if Persists(s, cfg) && cfg.inPlace {
        PersistRefines(s, cfg, f.appends);
        var replaced := Persist(s, cfg, f.appends).(history := live.value);
        if Archived(replaced, f.archive).Some? { ArchiveRefines(replaced, f.archive); }
      } else {
        PartedRefines(s.(pending := [], history := live.value));
      }
    }
  }

  lemma ResumeRefines(s: Session, id: string, load: Oracle)
    requires Refines(s)
    ensures Refines(ResumeSession(s, id, load))
  {
    if id in s.db.conversations {
      var ms := LoadRows(s.db, id, true);
      var loaded := s.(conversationId := id, history := Strip(ms), pending := [], parting := None);
      var whole := loaded.(history := ms);
      RecordedForm(whole);
      assert Recorded(whole) == ms;
      hide Told, Form, LoadRows;
      if Strip(ms) == ms { AgreeRefines(loaded); }
      PartedRefines(loaded);
    }
  }

  lemma OpRefines(s: Session, cfg: Config, op: SessionOp)
    requires Refines(s) && Wellbehaved(op)
    ensures Refines(Do(s, cfg, op))
  {
    match op {
      case RunOp(user, id, turns, f) =>
        AppendRefines(s, user);
        EnsureRefines(AppendTo(s, user), cfg, id, f.create);
        IterateRefines(EnsureConversation(AppendTo(s, user), cfg, id, f.create), cfg, turns, 0, false, f);
      case CompressOp(live, f) => CompressRefines(s, cfg, live, f);
      case ResumeOp(id, load) => ResumeRefines(s, id, load);
      case ClearOp =>
        NoRowsYet(s.db, "");
        assert StoredAll([]) == [] && NonSystem([]) == [];
        AgreeRefines(ClearSession(s));
    }
  }

  lemma {:induction false} AllRefine(s: Session, cfg: Config, ops: seq<SessionOp>)
    requires Refines(s) && forall op :: op in ops ==> Wellbehaved(op)
    ensures Refines(DoAll(s, cfg, ops))
    decreases |ops|
  {
    if ops != [] {
      OpRefines(s, cfg, ops[0]);
      hide Refines, Do, Wellbehaved;
      AllRefine(Do(s, cfg, ops[0]), cfg, ops[1..]);
    }
  }

  // --- When agreement is lost ------------------------------------------------------

  /** The turn neither ends the run nor was preceded by an interrupt. */
  predicate GoesOn(t: Turn) { !t.interrupted && (t.outcome.PlanApproved? || t.outcome.Continues?) }

  /** The state in front of turn `i` of a run that gets there. */
  function Reached(s: Session, turns: nat -> Turn, i: nat): Session {
    if i == 0 then s else TurnTaken(Reached(s, turns, i - 1), turns(i - 1))
  }

  predicate AnyCompressed(turns: nat -> Turn, i: nat) {
    i > 0 && (AnyCompressed(turns, i - 1) || turns(i - 1).replaced.Some?)
  }

  lemma {:induction false} RunReaches(s: Session, cfg: Config, turns: nat -> Turn, i: nat, f: Faults)
    requires i <= cfg.maxIterations && forall j: nat :: j < i ==> GoesOn(turns(j))
    ensures Iterate(s, cfg, turns, 0, false, f) ==
            Iterate(Reached(s, turns, i), cfg, turns, i, AnyCompressed(turns, i), f)
  {
    hide Iterate, TurnTaken, Acted, PersistOrArchive;
    if i > 0 {
      RunReaches(s, cfg, turns, i - 1, f);
      assert GoesOn(turns(i - 1));
      IterateOnce(Reached(s, turns, i - 1), cfg, turns, i - 1, AnyCompressed(turns, i - 1), f);
    }
  }

  /** Where a run stands that fails, or is interrupted, in turn `e`. */
  function Broken(s: Session, turns: nat -> Turn, e: nat): Session {
    if turns(e).interrupted then Reached(s, turns, e) else Acted(Reached(s, turns, e), turns(e))
  }

  lemma {:induction false} ActsKeepParting(s: Session, actions: seq<Action>)
    ensures ActAll(s, actions).parting == s.parting
  {
    if actions != [] { ActsKeepParting(s, actions[..|actions| - 1]); }
  }

  lemma TurnParts(s: Session, t: Turn)
    ensures Acted(s, t).parting == TurnTaken(s, t).parting == Compress(s, t.replaced).parting
  {
    ActsKeepParting(Compress(s, t.replaced), t.actions);
  }

  /** Turn `k` replaces the history, and no turn after it and before `i` does. */
  predicate LastReplaced(turns: nat -> Turn, k: nat, i: nat) {
    turns(k).replaced.Some? && forall j: nat :: k < j < i ==> turns(j).replaced.None?
  }

  /** In front of turn `i` the last parting is the one that turn `k` made. */
  lemma {:induction false} PartingLasts(s: Session, turns: nat -> Turn, k: nat, i: nat)
    requires k < i && LastReplaced(turns, k, i)
    ensures Reached(s, turns, i).parting == Some(Parting(Recorded(Reached(s, turns, k)), turns(k).replaced.value))
  {
    hide TurnTaken;
    TurnParts(Reached(s, turns, i - 1), turns(i - 1));
    if i - 1 > k {
      assert LastReplaced(turns, k, i - 1) && turns(i - 1).replaced.None?;
      PartingLasts(s, turns, k, i - 1);
    }
  }

  lemma BrokenParting(s: Session, turns: nat -> Turn, k: nat, e: nat)
    requires k <= e && (turns(e).interrupted ==> k < e)
    requires LastReplaced(turns, k, if turns(e).interrupted then e else e + 1)
    ensures Broken(s, turns, e).parting == Some(Parting(Recorded(Reached(s, turns, k)), turns(k).replaced.value))
  {
    if turns(e).interrupted {
      PartingLasts(s, turns, k, e);
    } else {
      PartingLasts(s, turns, k, e + 1);
      TurnParts(Reached(s, turns, e), turns(e));
    }
  }

  lemma {:induction false} ReachedRefines(s: Session, turns: nat -> Turn, i: nat)
    requires Refines(s)
    ensures Refines(Reached(s, turns, i))
  {
    hide Refines, TurnTaken;
    if i > 0 {
      ReachedRefines(s, turns, i - 1);
      TurnRefines(Reached(s, turns, i - 1), turns(i - 1));
    }
  }

  lemma BrokenRefines(s: Session, turns: nat -> Turn, e: nat)
    requires Refines(s)
    ensures Refines(Broken(s, turns, e))
  {
    hide Refines, Reached, Acted;
    ReachedRefines(s, turns, e);
    TurnRefines(Reached(s, turns, e), turns(e));
  }

  lemma AgreedBefore(s: Session)
    requires Refines(s) && s.parting.None?
    ensures Told(s) == Form(s.history)
  {
    AgreesExactly(s);
  }

  ghost predicate FreeOfMarker(m: Message) { m.role == User ==> !Contains(m.content, MARKER) }

  lemma StripOne(m: Message)
    ensures StripMessage(m) == m <==> FreeOfMarker(m)
  {
    NotContained(m.content, MARKER);
    if m.role == User && Contains(m.content, MARKER) {
      assert |StripMessage(m).content| < |m.content|;
    }
  }

  /** Only a user message is cut, at the first marker and the blank line in front of it. */
  lemma StripCuts(m: Message) returns (p: nat)
    requires m.role == User && Contains(m.content, MARKER)
    ensures At(m.content, MARKER, p) && forall j :: 0 <= j < p ==> !At(m.content, MARKER, j)
    ensures StripMessage(m).(content := m.content) == m
    ensures StripMessage(m).content ==
            if p >= 2 && m.content[p - 2] == m.content[p - 1] == '\n' then m.content[..p - 2] else m.content[..p]
  {
    NotContained(m.content, MARKER);
    FindLeftmost(m.content, MARKER, 0);
    p := Find(m.content, MARKER, 0).value;
    hide Find, At, Contains;
    if p >= 2 { BlankLine(m.content, p); }
  }

  lemma BlankLine(s: string, p: nat)
    requires 2 <= p <= |s|
    ensures s[p - 2..p] == "\n\n" <==> s[p - 2] == s[p - 1] == '\n'
  {
    var two := s[p - 2..p];
    assert two[0] == s[p - 2] && two[1] == s[p - 1];
  }

  lemma {:induction false} StripEach(ms: seq<Message>, i: nat)
    requires i < |ms|
    ensures |Strip(ms)| == |ms| && Strip(ms)[i] == StripMessage(ms[i])
  {
    hide StripMessage;
    if i < |ms| - 1 { StripEach(ms[..|ms| - 1], i); } else { StripLength(ms); }
  }

  lemma StripLength(ms: seq<Message>)
    ensures |Strip(ms)| == |ms|
  {
    hide StripMessage;
    StripUnchanged(ms);
  }

  lemma StripSnoc(ms: seq<Message>, m: Message)
    ensures Strip(ms + [m]) == Strip(ms) + [StripMessage(m)]
  {
    hide StripMessage;
    assert (ms + [m])[..|ms|] == ms;
  }

  ghost predicate AllFree(ms: seq<Message>) { forall m :: m in ms ==> FreeOfMarker(m) }

  lemma AllFreeSnoc(ms: seq<Message>, m: Message)
    ensures AllFree(ms + [m]) <==> AllFree(ms) && FreeOfMarker(m)
  {
    hide FreeOfMarker;
    assert m in ms + [m] && forall x :: x in ms ==> x in ms + [m];
  }

  lemma {:induction false} StripUnchanged(ms: seq<Message>)
    ensures |Strip(ms)| == |ms|
    ensures Strip(ms) == ms <==> AllFree(ms)
  {
    if ms != [] {
      hide *;
      var init, last := ms[..|ms| - 1], ms[|ms| - 1];
      assert ms == init + [last];
      StripUnchanged(init);
      StripSnoc(init, last);
      StripOne(last);
      AllFreeSnoc(init, last);
      SnocEqual(Strip(init), StripMessage(last), init, last);
    }
  }

  lemma SnocEqual<T>(a: seq<T>, x: T, b: seq<T>, y: T)
    requires |a| == |b|
    ensures a + [x] == b + [y] <==> a == b && x == y
  {
    if a + [x] == b + [y] {
      assert (a + [x])[..|a|] == a && (b + [y])[..|b|] == b;
      assert (a + [x])[|a|] == x && (b + [y])[|b|] == y;
    }
  }

  // --- What a run leaves -----------------------------------------------------------

  function SaidIn(a: Action): Message {
    match a
    case AppendMessage(m) => m
    case PushSystem(text) => Plain(System, text)
  }

  function Said(actions: seq<Action>): seq<Message> {
    if actions == [] then [] else Said(actions[..|actions| - 1]) + [SaidIn(actions[|actions| - 1])]
  }

  /** The messages of one turn, in order. */
  function SaidBy(t: Turn): seq<Message> {
    Said(t.actions) + if t.outcome.PlanApproved? then [t.outcome.m] else []
  }

  /** The messages of the first `n` turns. */
  function SaidUntil(turns: nat -> Turn, n: nat): seq<Message> {
    if n == 0 then [] else SaidUntil(turns, n - 1) + SaidBy(turns(n - 1))
  }

  /** The history after `n` turns: what the last compression put in place, or else the one at
      the start, and every message since. */
  function HistoryAfter(history: seq<Message>, turns: nat -> Turn, n: nat): seq<Message> {
    if n == 0 then history
    else
      var t := turns(n - 1);
      (if t.replaced.Some? then t.replaced.value else HistoryAfter(history, turns, n - 1)) + SaidBy(t)
  }

  /** The run ends after `n` turns with its last persist: the last of them stops it, or the
      limit is reached. */
  predicate EndsAfter(cfg: Config, turns: nat -> Turn, n: nat) {
    && n <= cfg.maxIterations
    && (forall j: nat :: j + 1 < n ==> GoesOn(turns(j)))
    && (n > 0 ==> GoesOn(turns(n - 1)) || Stops(turns(n - 1)))
    && (n < cfg.maxIterations ==> n > 0 && Stops(turns(n - 1)))
  }

  predicate Stops(t: Turn) { !t.interrupted && t.outcome.Stopped? }

  /** One of the first `n` turns put a compressed history in place. */
  ghost predicate Replaces(turns: nat -> Turn, n: nat) { exists k: nat :: k < n && turns(k).replaced.Some? }

  /** `next` is `s` with `more` said, and a history that was `history` before that. */
  predicate Speaks(s: Session, next: Session, history: seq<Message>, more: seq<Message>) {
    && next.db == s.db && next.conversationId == s.conversationId
    && next.history == history + more && next.pending == s.pending + NonSystem(more)
  }

  lemma SpeaksMore(s: Session, mid: Session, history: seq<Message>, more: seq<Message>, m: Message)
    requires Speaks(s, mid, history, more)
    ensures Speaks(s, AppendTo(mid, m), history, more + [m])
    ensures m.role == System ==> Speaks(s, mid.(history := mid.history + [m]), history, more + [m])
  {
    NonSystemSnoc(more, m);
    AppendAssoc(history, more, [m]);
    AppendAssoc(s.pending, NonSystem(more), [m]);
    hide NonSystem;
  }

  lemma {:induction false} ActsSpeak(s: Session, actions: seq<Action>)
    ensures Speaks(s, ActAll(s, actions), s.history, Said(actions))
  {
    if actions == [] {
      assert s.history + [] == s.history && s.pending + [] == s.pending;
    } else {
      var init, a := actions[..|actions| - 1], actions[|actions| - 1];
      ActsSpeak(s, init);
      assert ActAll(s, actions) == Act(ActAll(s, init), a) && Said(actions) == Said(init) + [SaidIn(a)];
      hide Speaks, AppendTo, ActAll, Said;
      SpeaksMore(s, ActAll(s, init), s.history, Said(init), SaidIn(a));
    }
  }

  lemma TurnSpeaks(s: Session, t: Turn)
    ensures Speaks(s, TurnTaken(s, t), if t.replaced.Some? then t.replaced.value else s.history, SaidBy(t))
    ensures !t.outcome.PlanApproved? ==> Acted(s, t) == TurnTaken(s, t)
  {
    var start := Compress(s, t.replaced);
    ActsSpeak(start, t.actions);
    assert Speaks(s, Acted(s, t), start.history, Said(t.actions));
    assert Said(t.actions) + [] == Said(t.actions);
    hide Speaks, AppendTo, ActAll, Said;
    if t.outcome.PlanApproved? { SpeaksMore(s, Acted(s, t), start.history, Said(t.actions), t.outcome.m); }
  }

  /** `end` is what a run that started in `s` with these sayings reached. */
  ghost predicate Reaches(s: Session, end: Session, history: seq<Message>, said: seq<Message>) {
    && end.db == s.db && end.conversationId == s.conversationId
    && end.history == history && end.pending == s.pending + NonSystem(said)
  }

  lemma ReachesNext(s: Session, mid: Session, t: Turn, history: seq<Message>, said: seq<Message>)
    requires Reaches(s, mid, history, said)
    ensures Reaches(s, TurnTaken(mid, t), (if t.replaced.Some? then t.replaced.value else history) + SaidBy(t),
                    said + SaidBy(t))
  {
    TurnSpeaks(mid, t);
    hide TurnTaken, NonSystem, SaidBy;
    NonSystemAppend(said, SaidBy(t));
    AppendAssoc(s.pending, NonSystem(said), NonSystem(SaidBy(t)));
  }

  lemma {:induction false} ReachedReaches(s: Session, turns: nat -> Turn, n: nat)
    ensures Reaches(s, Reached(s, turns, n), HistoryAfter(s.history, turns, n), SaidUntil(turns, n))
    ensures AnyCompressed(turns, n) <==> Replaces(turns, n)
  {
    if n == 0 {
      assert s.pending + [] == s.pending;
    } else {
      hide Reaches, Replaces, TurnTaken, SaidBy;
      ReachedReaches(s, turns, n - 1);
      ReachesNext(s, Reached(s, turns, n - 1), turns(n - 1), HistoryAfter(s.history, turns, n - 1),
                  SaidUntil(turns, n - 1));
      ReplacesNext(turns, n);
    }
  }

  lemma ReachedIs(s: Session, turns: nat -> Turn, n: nat)
    ensures var end := Reached(s, turns, n);
            && end.db == s.db && end.conversationId == s.conversationId
            && end.history == HistoryAfter(s.history, turns, n)
            && end.pending == s.pending + NonSystem(SaidUntil(turns, n))
    ensures AnyCompressed(turns, n) <==> Replaces(turns, n)
  {
    ReachedReaches(s, turns, n);
    hide NonSystem, SaidUntil, HistoryAfter, Reached, AnyCompressed, Replaces;
  }

  lemma ReplacesNext(turns: nat -> Turn, n: nat)
    requires n > 0
    ensures Replaces(turns, n) <==> Replaces(turns, n - 1) || turns(n - 1).replaced.Some?
  {
  }

  /** A run that gets to its last persist, as what it reaches and that persist. */
  lemma RunEnds(s: Session, cfg: Config, turns: nat -> Turn, n: nat, f: Faults)
    requires EndsAfter(cfg, turns, n)
    ensures Iterate(s, cfg, turns, 0, false, f) ==
            PersistOrArchive(Reached(s, turns, n), cfg, AnyCompressed(turns, n), f)
  {
    if n > 0 && Stops(turns(n - 1)) {
      RunReaches(s, cfg, turns, n - 1, f);
      IterateOnce(Reached(s, turns, n - 1), cfg, turns, n - 1, AnyCompressed(turns, n - 1), f);
      TurnSpeaks(Reached(s, turns, n - 1), turns(n - 1));
    } else {
      assert forall j: nat :: j < n ==> GoesOn(turns(j));
      RunReaches(s, cfg, turns, n, f);
    }
  }

  /** A run that fails or is interrupted leaves what it reached. */
  lemma RunBreaks(s: Session, cfg: Config, turns: nat -> Turn, e: nat, f: Faults)
    requires e < cfg.maxIterations && forall j: nat :: j < e ==> GoesOn(turns(j))
    requires turns(e).interrupted || turns(e).outcome.Failed?
    ensures Iterate(s, cfg, turns, 0, false, f) == Reached(s, turns, if turns(e).interrupted then e else e + 1)
  {
    RunReaches(s, cfg, turns, e, f);
    if !turns(e).interrupted {
      IterateOnce(Reached(s, turns, e), cfg, turns, e, AnyCompressed(turns, e), f);
      TurnSpeaks(Reached(s, turns, e), turns(e));
    }
  }

  /** What the last persist does to rows: the waiting messages that land, and after a
      compaction that goes through the history. */
  ghost predicate PersistedRows(s: Session, end: Session, landed: seq<Message>, compacts: bool, numbered: bool) {
    var c := s.conversationId;
    && (forall d :: d != c ==> Written(end.db, d) == Written(s.db, d))
    && (!compacts ==>
          && Written(end.db, c) == Written(s.db, c) + StoredAll(landed)
          && (numbered ==> LoadRows(end.db, c, true) == LoadRows(s.db, c, true) + StoredAll(landed)))
    && (compacts ==>
          && Written(end.db, c) == Written(s.db, c) + StoredAll(landed) + StoredAll(s.history)
          && (numbered ==> LoadRows(end.db, c, true) == StoredAll(s.history) && Agrees(end)))
  }

  lemma JustPersisted(s: Session, cfg: Config, appends: nat -> Oracle)
    requires Sound(s) && Persists(s, cfg)
    ensures PersistedRows(s, Persist(s, cfg, appends), Landed(s.db, s.conversationId, s.pending, appends),
                          false, AllNumbered(|s.pending|, appends))
  {
    PersistIs(s, cfg, appends);
    PersistWrites(s, cfg, appends);
    assert forall d :: Written(s.db, d) + [] == Written(s.db, d);
    hide Persist, PersistAll, Landed, Written, StoredAll, AllNumbered;
    PersistAllLoads(s.db, s.log, s.conversationId, s.pending, appends, s.conversationId, true);
  }

  lemma ThenArchived(s: Session, mid: Session, landed: seq<Message>, archive: Oracle, numbered: bool)
    requires PersistedRows(s, mid, landed, false, numbered) && mid.conversationId == s.conversationId
    requires Sound(mid) && Archived(mid, archive).Some? && mid.history == s.history
    ensures PersistedRows(s, Archived(mid, archive).value, landed, true, ArchiveNumbered(|s.history|, archive))
  {
    var c, end := s.conversationId, Archived(mid, archive).value;
    ArchiveRefines(mid, archive);
    ArchivedIs(mid, archive);
    forall d
      ensures Written(end.db, d) == Written(mid.db, d) + if d == c then StoredAll(mid.history) else []
    {
      CompactWritten(mid.db, c, mid.history, archive, d);
    }
    assert forall d :: Written(mid.db, d) + [] == Written(mid.db, d);
    hide Archived, Written, StoredAll, Agrees, Refines, Sound, LoadRows;
    if ArchiveNumbered(|s.history|, archive) { CompactLoads(mid.db, c, mid.history, archive, c); }
  }

  /** The last persist of a run, from its inputs: it compacts exactly when a compression was
      applied in place and every statement of the compaction succeeds. */
  lemma LastPersist(s: Session, cfg: Config, compressed: bool, f: Faults)
    requires Sound(s) && Persists(s, cfg)
    ensures var end := PersistOrArchive(s, cfg, compressed, f);
            var compacts := compressed && cfg.inPlace && CompactSucceeds(|s.history|, f.archive);
            && end.history == s.history && end.conversationId == s.conversationId && end.pending == []
            && PersistedRows(s, end, Landed(s.db, s.conversationId, s.pending, f.appends), compacts,
                             if compacts then ArchiveNumbered(|s.history|, f.archive)
                             else AllNumbered(|s.pending|, f.appends))
  {
    var mid := Persist(s, cfg, f.appends);
    PersistIs(s, cfg, f.appends);
    PersistSound(s, cfg, f.appends);
    JustPersisted(s, cfg, f.appends);
    CommitsExactly(mid.db, s.conversationId, s.history, f.archive);
    PersistAllLoads(s.db, s.log, s.conversationId, s.pending, f.appends, "", true);
    assert Archived(mid, f.archive).Some? <==> CompactSucceeds(|s.history|, f.archive);
    hide Persist, PersistAll, Landed, PersistedRows, AllNumbered, ArchiveNumbered, Compacted, CompactSucceeds;
    if Archived(mid, f.archive).Some? {
      ArchivedIs(mid, f.archive);
      ThenArchived(s, mid, Landed(s.db, s.conversationId, s.pending, f.appends), f.archive,
                   AllNumbered(|s.pending|, f.appends));
    }
  }

  /** A run goes on with the conversation there is, or opens its own when that is wanted and
      the statements succeed. */
  ghost predicate Starts(s: Session, start: Session, cfg: Config, id: string, create: Oracle) {
    var opens := cfg.hasStore && cfg.autoPersist && s.conversationId == ""
                 && create(Open) && create(PrepCreate) && create(Create) && id !in s.db.conversations;
    && start.db.rows == s.db.rows && start.db.nextId == s.db.nextId
    && (opens ==> start.conversationId == id && start.db.conversations == s.db.conversations + {id})
    && (!opens ==> start.conversationId == s.conversationId && start.db.conversations == s.db.conversations)
  }

  lemma RunStarts(s: Session, cfg: Config, user: Message, id: string, create: Oracle)
    ensures var start := EnsureConversation(AppendTo(s, user), cfg, id, create);
            && Starts(s, start, cfg, id, create)
            && start.history == s.history + [user] && start.pending == s.pending + NonSystem([user])
  {
    NonSystemSnoc([], user);
    NonSystemAll([]);
    assert s.pending + [] == s.pending && [] + [user] == [user];
    hide NonSystem;
  }

  lemma StartRefines(s: Session, cfg: Config, user: Message, id: string, create: Oracle)
    requires Refines(s) && id != ""
    ensures Refines(EnsureConversation(AppendTo(s, user), cfg, id, create))
  {
    AppendRefines(s, user);
    EnsureRefines(AppendTo(s, user), cfg, id, create);
  }

  lemma RunIs(s: Session, cfg: Config, user: Message, id: string, turns: nat -> Turn, f: Faults)
    ensures RunSession(s, cfg, user, id, turns, f) ==
            Iterate(EnsureConversation(AppendTo(s, user), cfg, id, f.create), cfg, turns, 0, false, f)
  {
    hide Iterate, EnsureConversation, AppendTo;
  }

  lemma FinishedFrom(start: Session, s: Session, cfg: Config, compressed: bool, f: Faults)
    requires Refines(s) && s.db == start.db && s.conversationId == start.conversationId
    ensures var end := PersistOrArchive(s, cfg, compressed, f);
            var compacts := compressed && cfg.inPlace && CompactSucceeds(|s.history|, f.archive);
            && end.history == s.history && end.conversationId == s.conversationId
            && (cfg.hasStore && cfg.autoPersist && s.conversationId != "" ==>
                  && end.pending == []
                  && PersistedRows(start.(history := s.history, pending := s.pending), end,
                                   Landed(start.db, s.conversationId, s.pending, f.appends), compacts,
                                   if compacts then ArchiveNumbered(|s.history|, f.archive)
                                   else AllNumbered(|s.pending|, f.appends)))
            && (!(cfg.hasStore && cfg.autoPersist && s.conversationId != "") ==> end == s)
  {
    hide Landed, CompactSucceeds, AllNumbered, ArchiveNumbered, Archived, LoadRows, Written, Alike;
    if Persists(s, cfg) { LastPersist(s, cfg, compressed, f); }
  }

  // --- Conservation ----------------------------------------------------------------

  /** The messages whose rows appends wrote. */
  function Appends(log: seq<Entry>): seq<Message> {
    if log == [] then []
    else Appends(log[..|log| - 1]) + if log[|log| - 1].byAppend then [log[|log| - 1].message] else []
  }

  /** The messages of all rows written for one conversation. */
  function LogOf(log: seq<Entry>, c: string): seq<Message> {
    if log == [] then []
    else LogOf(log[..|log| - 1], c) + if log[|log| - 1].conversation == c then [log[|log| - 1].message] else []
  }

  /** Rows written by appends, then the waiting messages, are every conversation message
      ever appended, in order and once each. */
  predicate Conserved(s: Session) { Appends(s.log) + s.pending == s.appended }

  /** How many appended messages are neither written nor waiting. */
  function Missing(s: Session): int { |s.appended| - |Appends(s.log)| - |s.pending| }

  /** The rows of every conversation are those it held at first (`base`), and then exactly the
      ones written since, in the order of writing: by appends, and by compactions. */
  ghost predicate Logged(s: Session, base: string -> seq<Message>) {
    forall c :: Written(s.db, c) == base(c) + StoredAll(LogOf(s.log, c))
  }

  /** What a step that loses nothing carries over. */
  ghost predicate Carries(s: Session, next: Session, base: string -> seq<Message>) {
    && (Conserved(s) ==> Conserved(next)) && (Logged(s, base) ==> Logged(next, base))
    && Missing(next) == Missing(s)
  }

  /** A persist that gives up waiting messages whose append failed. */
  predicate PersistLoses(s: Session, cfg: Config, appends: nat -> Oracle) {
    Persists(s, cfg) && !AllLand(s.db, s.conversationId, |s.pending|, appends)
  }

  /** What a persist keeps, and what it loses. */
  ghost predicate Gives(s: Session, next: Session, base: string -> seq<Message>, loses: bool) {
    && (Logged(s, base) ==> Logged(next, base))
    && (if loses then Missing(next) > Missing(s)
        else Missing(next) == Missing(s) && (Conserved(s) ==> Conserved(next)))
  }

  /** The state in front of the last persist of a run, for a run that gets there. */
  function Ending(s: Session, cfg: Config, turns: nat -> Turn, i: nat): Option<Session>
    decreases cfg.maxIterations - i
  {
    if i >= cfg.maxIterations then Some(s)
    else if turns(i).interrupted then None
    else
      match turns(i).outcome
      case Failed => None
      case Stopped => Some(Acted(s, turns(i)))
      case _ => Ending(TurnTaken(s, turns(i)), cfg, turns, i + 1)
  }

  /** The run ends in a persist, and one of its appends fails. */
  predicate RunLoses(s: Session, cfg: Config, turns: nat -> Turn, i: nat, f: Faults) {
    Ending(s, cfg, turns, i).Some? && PersistLoses(Ending(s, cfg, turns, i).value, cfg, f.appends)
  }

  /** The operations that lose messages: those that discard waiting ones, and those with a
      failing append. */
  predicate Loses(s: Session, cfg: Config, op: SessionOp) {
    match op
    case RunOp(user, id, turns, f) =>
      RunLoses(EnsureConversation(AppendTo(s, user), cfg, id, f.create), cfg, turns, 0, f)
    case CompressOp(live, f) =>
      live.Some? && if Persists(s, cfg) && cfg.inPlace then PersistLoses(s, cfg, f.appends) else s.pending != []
    case ResumeOp(id, load) =>
      s.pending != [] && load(Open) && load(PrepCheck) && id in s.db.conversations && load(PrepLoad)
    case ClearOp => s.pending != []
  }

  predicate NeverLoses(s: Session, cfg: Config, ops: seq<SessionOp>)
    decreases |ops|
  {
    ops == [] || (!Loses(s, cfg, ops[0]) && NeverLoses(Do(s, cfg, ops[0]), cfg, ops[1..]))
  }

  lemma LogSnoc(log: seq<Entry>, e: Entry, d: string)
    ensures Appends(log + [e]) == Appends(log) + if e.byAppend then [e.message] else []
    ensures LogOf(log + [e], d) == LogOf(log, d) + if e.conversation == d then [e.message] else []
  {
    assert (log + [e])[..|log|] == log;
  }

  lemma {:induction false} LogGrows(log: seq<Entry>, c: string, ms: seq<Message>, byAppend: bool, d: string)
    ensures Appends(log + Entries(c, ms, byAppend)) == Appends(log) + if byAppend then ms else []
    ensures LogOf(log + Entries(c, ms, byAppend), d) == LogOf(log, d) + if d == c then ms else []
  {
    if ms == [] {
      assert log + Entries(c, ms, byAppend) == log;
    } else {
      var init, m := ms[..|ms| - 1], ms[|ms| - 1];
      assert ms == init + [m];
      hide *;
      LogGrows(log, c, init, byAppend, d);
      EntriesSnoc(c, init, m, byAppend);
      AppendAssoc(log, Entries(c, init, byAppend), [Entry(c, m, byAppend)]);
      LogSnoc(log + Entries(c, init, byAppend), Entry(c, m, byAppend), d);
      AppendAssoc(Appends(log), init, [m]);
      AppendAssoc(LogOf(log, d), init, [m]);
    }
  }

  /** Rows that a step writes for one conversation and logs. */
  lemma LoggedMore(s: Session, next: Session, base: string -> seq<Message>, c: string, ms: seq<Message>, byAppend: bool)
    requires Logged(s, base) && next.log == s.log + Entries(c, ms, byAppend)
    requires forall d :: Written(next.db, d) == Written(s.db, d) + if d == c then StoredAll(ms) else []
    ensures Logged(next, base)
  {
    forall d
      ensures Written(next.db, d) == base(d) + StoredAll(LogOf(next.log, d))
    {
      var sent := if d == c then ms else [];
      assert StoredAll([]) == [];
      assert Written(s.db, d) == base(d) + StoredAll(LogOf(s.log, d));
      assert Written(next.db, d) == Written(s.db, d) + StoredAll(sent);
      hide *;
      LogGrows(s.log, c, ms, byAppend, d);
      StoredAppend(LogOf(s.log, d), sent);
      AppendAssoc(base(d), StoredAll(LogOf(s.log, d)), StoredAll(sent));
    }
  }

  lemma ActCarries(s: Session, a: Action, base: string -> seq<Message>)
    ensures Carries(s, Act(s, a), base)
  {
    hide StoredAll, Written, LogOf, Appends;
    match a {
      case AppendMessage(m) => AppendAssoc(Appends(s.log), s.pending, [m]);
      case PushSystem(_) =>
    }
  }

  lemma {:induction false} ActsCarry(s: Session, actions: seq<Action>, base: string -> seq<Message>)
    ensures Carries(s, ActAll(s, actions), base)
  {
    if actions != [] {
      var init := actions[..|actions| - 1];
      ActsCarry(s, init, base);
      hide Act, Conserved, Logged, Missing;
      ActCarries(ActAll(s, init), actions[|actions| - 1], base);
    }
  }

  lemma AppendCarries(s: Session, m: Message, base: string -> seq<Message>)
    ensures Carries(s, AppendTo(s, m), base)
  {
    ActCarries(s, AppendMessage(m), base);
  }

  lemma TurnCarries(s: Session, t: Turn, base: string -> seq<Message>)
    ensures Carries(s, Acted(s, t), base) && Carries(s, TurnTaken(s, t), base)
  {
    assert Carries(s, Compress(s, t.replaced), base) by { hide Written, LogOf, StoredAll, Appends, Recorded; }
    hide Compress, ActAll, AppendTo, Conserved, Logged, Missing;
    ActsCarry(Compress(s, t.replaced), t.actions, base);
    if t.outcome.PlanApproved? { AppendCarries(Acted(s, t), t.outcome.m, base); }
  }

  lemma PersistWrites(s: Session, cfg: Config, appends: nat -> Oracle)
    requires Persists(s, cfg)
    ensures var next, landed := Persist(s, cfg, appends), Landed(s.db, s.conversationId, s.pending, appends);
            && next.log == s.log + Entries(s.conversationId, landed, true)
            && forall d :: Written(next.db, d) ==
                 Written(s.db, d) + if d == s.conversationId then StoredAll(landed) else []
  {
    var c, next := s.conversationId, Persist(s, cfg, appends);
    hide *;
    PersistIs(s, cfg, appends);
    PersistAllLoads(s.db, s.log, c, s.pending, appends, c, true);
    forall d
      ensures Written(next.db, d) ==
              Written(s.db, d) + if d == c then StoredAll(Landed(s.db, c, s.pending, appends)) else []
    {
      PersistAllLoads(s.db, s.log, c, s.pending, appends, d, true);
    }
  }

  /** A persist conserves the messages exactly when every waiting one reaches the table. */
  lemma PersistGives(s: Session, cfg: Config, appends: nat -> Oracle, base: string -> seq<Message>)
    ensures Gives(s, Persist(s, cfg, appends), base, PersistLoses(s, cfg, appends))
  {
    if Persists(s, cfg) {
      var c, next := s.conversationId, Persist(s, cfg, appends);
      var landed := Landed(s.db, c, s.pending, appends);
      hide Logged, Written, StoredAll, Appends, LogOf, Persist, Persists, Landed, AllLand, Entries;
      PersistWrites(s, cfg, appends);
      PersistIs(s, cfg, appends);
      LandedFacts(s.db, c, s.pending, appends);
      LogGrows(s.log, c, landed, true, c);
      if Logged(s, base) { LoggedMore(s, next, base, c, landed, true); }
      NowWritten(s, next, landed);
    } else {
      Unchanged(s, base);
    }
  }

  lemma NowWritten(s: Session, next: Session, landed: seq<Message>)
    requires Appends(next.log) == Appends(s.log) + landed && next.pending == [] && next.appended == s.appended
    ensures Missing(next) == Missing(s) + |s.pending| - |landed|
    ensures landed == s.pending && Conserved(s) ==> Conserved(next)
  {
    assert Appends(next.log) + [] == Appends(next.log);
    hide Appends;
  }

  /** A compaction adds the compressed list to one transcript and removes nothing. */
  lemma ArchiveCarries(s: Session, archive: Oracle, base: string -> seq<Message>)
    requires Archived(s, archive).Some?
    ensures var next := Archived(s, archive).value;
            && Appends(next.log) == Appends(s.log) && next.pending == [] && next.appended == s.appended
            && (Logged(s, base) ==> Logged(next, base))
  {
    var c, next := s.conversationId, Archived(s, archive).value;
    ArchivedIs(s, archive);
    hide *;
    LogGrows(s.log, c, s.history, false, c);
    assert Appends(s.log) + [] == Appends(s.log);
    forall d
      ensures Written(next.db, d) == Written(s.db, d) + if d == c then StoredAll(s.history) else []
    {
      CompactWritten(s.db, c, s.history, archive, d);
    }
    if Logged(s, base) { LoggedMore(s, next, base, c, s.history, false); }
  }

  lemma ArchivedIs(s: Session, archive: Oracle)
    requires Archived(s, archive).Some?
    ensures var next, compacted := Archived(s, archive).value, Compacted(s.db, s.conversationId, s.history, archive);
            && compacted.Some? && next.db == compacted.value && next.pending == []
            && next.log == s.log + Entries(s.conversationId, s.history, false)
            && next.appended == s.appended && next.history == s.history && next.conversationId == s.conversationId
  {
    hide Compacted, Entries, LoadRows, ArchiveNumbered;
  }

  /** Compacting after a persist loses nothing more. */
  lemma PersistOrArchiveGives(s: Session, cfg: Config, compressed: bool, f: Faults, base: string -> seq<Message>)
    ensures Gives(s, PersistOrArchive(s, cfg, compressed, f), base, PersistLoses(s, cfg, f.appends))
  {
    var persisted := Persist(s, cfg, f.appends);
    assert Persists(s, cfg) ==> persisted.pending == [];
    hide Gives, Persist, Persists, PersistLoses, Archived;
    PersistGives(s, cfg, f.appends, base);
    if Persists(s, cfg) && Archived(persisted, f.archive).Some? {
      ArchiveCarries(persisted, f.archive, base);
      GivesSame(s, persisted, Archived(persisted, f.archive).value, base, PersistLoses(s, cfg, f.appends));
    }
  }

  lemma GivesSame(s: Session, mid: Session, next: Session, base: string -> seq<Message>, loses: bool)
    requires Gives(s, mid, base, loses) && (Logged(mid, base) ==> Logged(next, base))
    requires Appends(next.log) == Appends(mid.log) && next.pending == mid.pending && next.appended == mid.appended
    ensures Gives(s, next, base, loses)
  {
    hide Logged, Appends;
  }

  lemma EnsureCarries(s: Session, cfg: Config, id: string, create: Oracle, base: string -> seq<Message>)
    ensures Carries(s, EnsureConversation(s, cfg, id, create), base)
  {
    var next := EnsureConversation(s, cfg, id, create);
    assert forall c :: Written(next.db, c) == Written(s.db, c);
  }

  lemma CarriesGives(s: Session, mid: Session, next: Session, base: string -> seq<Message>, loses: bool)
    requires Carries(s, mid, base) && Gives(mid, next, base, loses)
    ensures Gives(s, next, base, loses)
  {
  }

  lemma {:induction false} IterateGives(s: Session, cfg: Config, turns: nat -> Turn, i: nat, compressed: bool,
                                        f: Faults, base: string -> seq<Message>)
    ensures Gives(s, Iterate(s, cfg, turns, i, compressed, f), base, RunLoses(s, cfg, turns, i, f))
    decreases cfg.maxIterations - i
  {
    hide Carries, Gives, PersistLoses, PersistOrArchive, Acted, TurnTaken;
    if i >= cfg.maxIterations {
      PersistOrArchiveGives(s, cfg, compressed, f, base);
    } else if turns(i).interrupted {
      Unchanged(s, base);
    } else {
      var t := turns(i);
      var acted, next, now := Acted(s, t), TurnTaken(s, t), compressed || t.replaced.Some?;
      var end := Iterate(s, cfg, turns, i, compressed, f);
      TurnCarries(s, t, base);
      IterateOnce(s, cfg, turns, i, compressed, f);
      match t.outcome {
        case Failed =>
          Unchanged(acted, base);
          CarriesGives(s, acted, end, base, false);
        case Stopped =>
          PersistOrArchiveGives(acted, cfg, now, f, base);
          CarriesGives(s, acted, end, base, PersistLoses(acted, cfg, f.appends));
        case _ =>
          IterateGives(next, cfg, turns, i + 1, now, f, base);
          CarriesGives(s, next, end, base, RunLoses(next, cfg, turns, i + 1, f));
      }
    }
  }

  lemma Unchanged(s: Session, base: string -> seq<Message>)
    ensures Gives(s, s, base, false)
  {
  }

  lemma RunGives(s: Session, cfg: Config, user: Message, id: string, turns: nat -> Turn, f: Faults,
                 base: string -> seq<Message>)
    ensures Gives(s, RunSession(s, cfg, user, id, turns, f), base, Loses(s, cfg, RunOp(user, id, turns, f)))
  {
    var asked := AppendTo(s, user);
    var start := EnsureConversation(asked, cfg, id, f.create);
    hide Carries, Gives, AppendTo, EnsureConversation, Iterate, RunLoses;
    AppendCarries(s, user, base);
    EnsureCarries(asked, cfg, id, f.create, base);
    IterateGives(start, cfg, turns, 0, false, f, base);
    var loses := RunLoses(start, cfg, turns, 0, f);
    CarriesGives(asked, start, RunSession(s, cfg, user, id, turns, f), base, loses);
    CarriesGives(s, asked, RunSession(s, cfg, user, id, turns, f), base, loses);
  }

  lemma ManualGives(s: Session, cfg: Config, live: Option<seq<Message>>, f: Faults, base: string -> seq<Message>)
    ensures Gives(s, CompressSession(s, cfg, live, f), base, Loses(s, cfg, CompressOp(live, f)))
  {
    if live.None? {
      Unchanged(s, base);
    } else if Persists(s, cfg) && cfg.inPlace {
      var persisted, loses := Persist(s, cfg, f.appends), PersistLoses(s, cfg, f.appends);
      var replaced := persisted.(history := live.value);
      assert persisted.pending == [];
      hide Gives, Persist, Persists, PersistLoses, Archived, Logged;
      PersistGives(s, cfg, f.appends, base);
      if Archived(replaced, f.archive).Some? {
        ArchiveCarries(replaced, f.archive, base);
        SameLogged(persisted, replaced, base);
        GivesSame(s, persisted, Archived(replaced, f.archive).value, base, loses);
      }
    } else {
      hide Gives;
      DroppedGives(s, CompressSession(s, cfg, live, f), base);
    }
  }

  lemma SameLogged(s: Session, next: Session, base: string -> seq<Message>)
    requires next.db == s.db && next.log == s.log
    ensures Logged(s, base) <==> Logged(next, base)
  {
  }

  /** Emptying the waiting list loses what was in it. */
  lemma DroppedGives(s: Session, next: Session, base: string -> seq<Message>)
    requires next.db == s.db && next.log == s.log && next.appended == s.appended && next.pending == []
    ensures Gives(s, next, base, s.pending != [])
  {
    SameLogged(s, next, base);
  }

  lemma OpGives(s: Session, cfg: Config, op: SessionOp, base: string -> seq<Message>)
    ensures Gives(s, Do(s, cfg, op), base, Loses(s, cfg, op))
  {
    hide Gives, RunSession, CompressSession, LoadRows;
    match op {
      case RunOp(user, id, turns, f) => RunGives(s, cfg, user, id, turns, f, base);
      case CompressOp(live, f) => ManualGives(s, cfg, live, f, base);
      case ResumeOp(id, load) =>
        if load(Open) && load(PrepCheck) && id in s.db.conversations && load(PrepLoad) {
          DroppedGives(s, Do(s, cfg, op), base);
        } else {
          Unchanged(s, base);
        }
      case ClearOp => DroppedGives(s, Do(s, cfg, op), base);
    }
  }

  lemma ConservedMissesNone(s: Session)
    requires Conserved(s)
    ensures Missing(s) == 0
  {
    assert |Appends(s.log) + s.pending| == |Appends(s.log)| + |s.pending|;
  }

  lemma {:induction false} AllGive(s: Session, cfg: Config, ops: seq<SessionOp>, base: string -> seq<Message>)
    ensures Gives(s, DoAll(s, cfg, ops), base, !NeverLoses(s, cfg, ops))
    decreases |ops|
  {
    if ops == [] {
      Unchanged(s, base);
    } else {
      var next := Do(s, cfg, ops[0]);
      OpGives(s, cfg, ops[0], base);
      AllGive(next, cfg, ops[1..], base);
      hide Logged, Conserved, Missing, Do, Loses;
    }
  }
}
