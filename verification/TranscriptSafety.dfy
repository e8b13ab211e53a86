/** Over all runs and failures: when history and store agree, and when no message is lost. */
module TranscriptSafety {
  import opened Text
  import opened Types
  import opened ConversationStore
  import opened StoreSafety
  import opened AgentLoop
  import opened TranscriptFacts

  /** The refinement over every sequence of runs (finished, failed or interrupted), manual
      compressions, resumes and clears, whichever statements of the store fail: active rows
      and waiting messages are the history, except exactly when the two sides said different
      things where they last parted. */
  lemma HistoryRefined(s: Session, cfg: Config, ops: seq<SessionOp>)
    requires Refines(s) && forall op :: op in ops ==> Wellbehaved(op)
    ensures Sound(DoAll(s, cfg, ops)) && (Agrees(DoAll(s, cfg, ops)) <==> NothingLost(DoAll(s, cfg, ops)))
  {
    AllRefine(s, cfg, ops);
    hide Agrees, NothingLost, DoAll;
    AgreesExactly(DoAll(s, cfg, ops));
  }

  /** After a persist that could read its numbers, history and store still agree exactly when
      every waiting message reached the table: a failed append is logged and forgotten. */
  lemma PersistAgrees(s: Session, cfg: Config, appends: nat -> Oracle)
    requires Sound(s) && Agrees(s) && Persists(s, cfg) && AllNumbered(|s.pending|, appends)
    ensures Agrees(Persist(s, cfg, appends)) <==> AllLand(s.db, s.conversationId, |s.pending|, appends)
  {
    var landed := Landed(s.db, s.conversationId, s.pending, appends);
    hide Told, Form, StoredAll, Landed, AllLand, Persist, LoadRows, NonSystem;
    PersistTold(s, cfg, appends);
    PersistIs(s, cfg, appends);
    ToldIs(s);
    LandedFacts(s.db, s.conversationId, s.pending, appends);
    AllThere(NonSystem(LoadRows(s.db, s.conversationId, true)), landed, s.pending);
  }

  /** A run that replaces the history, last in turn `k`, and then fails or is interrupted in
      turn `e` leaves history and store in agreement exactly when the list put in place says
      what active rows and waiting messages said in front of turn `k`. */
  lemma FailureAfterCompression(s: Session, cfg: Config, user: Message, id: string, turns: nat -> Turn,
                                f: Faults, k: nat, e: nat)
    requires Refines(s) && id != ""
    requires k <= e < cfg.maxIterations && forall j: nat :: j < e ==> GoesOn(turns(j))
    requires turns(e).interrupted || turns(e).outcome.Failed?
    requires (turns(e).interrupted ==> k < e) && LastReplaced(turns, k, if turns(e).interrupted then e else e + 1)
    ensures var start := EnsureConversation(AppendTo(s, user), cfg, id, f.create);
            var before, end := Reached(start, turns, k), RunSession(s, cfg, user, id, turns, f);
            && (Agrees(end) <==> Form(turns(k).replaced.value) == Told(before))
            && (before.parting.None? ==> Told(before) == Form(before.history))
  {
    var start := EnsureConversation(AppendTo(s, user), cfg, id, f.create);
    var before, end := Reached(start, turns, k), RunSession(s, cfg, user, id, turns, f);
    RunReaches(start, cfg, turns, e, f);
    assert end == Broken(start, turns, e);
    hide Told, Form, Agrees, RunSession, EnsureConversation, AppendTo, Broken, Iterate, LastReplaced;
    AppendRefines(s, user);
    EnsureRefines(AppendTo(s, user), cfg, id, f.create);
    BrokenRefines(start, turns, e);
    BrokenParting(start, turns, k, e);
    ReachedRefines(start, turns, k);
    RecordedForm(before);
    AgreesExactly(end);
    if before.parting.None? { AgreedBefore(before); }
  }

  /** Every run that reaches its last persist, from its turns and the failing statements: the
      history is what the turns said behind the last list a compression put in place, and
      everything said since the last persist was waiting. The waiting messages that land are
      added to the rows of the conversation; if a list was put in place, the store is compacted
      in place and every statement of that succeeds, the history follows and is, with the
      numbers read, from then on what a load gives. */
  lemma FinishedRun(s: Session, cfg: Config, user: Message, id: string, turns: nat -> Turn, f: Faults, n: nat)
    requires Refines(s) && id != "" && EndsAfter(cfg, turns, n)
    ensures var start, end := EnsureConversation(AppendTo(s, user), cfg, id, f.create),
                              RunSession(s, cfg, user, id, turns, f);
            var live := HistoryAfter(s.history + [user], turns, n);
            var waiting := s.pending + NonSystem([user]) + NonSystem(SaidUntil(turns, n));
            var landed := Landed(start.db, start.conversationId, waiting, f.appends);
            var compacts := Replaces(turns, n) && cfg.inPlace && CompactSucceeds(|live|, f.archive);
            var before := start.(history := live, pending := waiting);
            var persists := cfg.hasStore && cfg.autoPersist && start.conversationId != "";
            && Starts(s, start, cfg, id, f.create)
            && end.history == live && end.conversationId == start.conversationId
            && (persists ==>
                  && end.pending == []
                  && PersistedRows(before, end, landed, compacts,
                                   if compacts then ArchiveNumbered(|live|, f.archive)
                                   else AllNumbered(|waiting|, f.appends)))
            && (!persists ==> end.db == start.db && end.pending == waiting)
  {
    var start := EnsureConversation(AppendTo(s, user), cfg, id, f.create);
    hide *;
    RunStarts(s, cfg, user, id, f.create);
    StartRefines(s, cfg, user, id, f.create);
    ReachedRefines(start, turns, n);
    ReachedIs(start, turns, n);
    RunEnds(start, cfg, turns, n, f);
    FinishedFrom(start, Reached(start, turns, n), cfg, AnyCompressed(turns, n), f);
    RunIs(s, cfg, user, id, turns, f);
  }

  /** Every run that fails, or is interrupted, in turn `e`: nothing is written, and what was said
      up to then, without the turn if it was interrupted, is in the history and waits. */
  lemma UnfinishedRun(s: Session, cfg: Config, user: Message, id: string, turns: nat -> Turn, f: Faults, e: nat)
    requires e < cfg.maxIterations && forall j: nat :: j < e ==> GoesOn(turns(j))
    requires turns(e).interrupted || turns(e).outcome.Failed?
    ensures var start, end := EnsureConversation(AppendTo(s, user), cfg, id, f.create),
                              RunSession(s, cfg, user, id, turns, f);
            var n := if turns(e).interrupted then e else e + 1;
            && Starts(s, start, cfg, id, f.create)
            && end.db == start.db && end.conversationId == start.conversationId
            && end.history == HistoryAfter(s.history + [user], turns, n)
            && end.pending == s.pending + NonSystem([user]) + NonSystem(SaidUntil(turns, n))
  {
    var start := EnsureConversation(AppendTo(s, user), cfg, id, f.create);
    hide *;
    RunStarts(s, cfg, user, id, f.create);
    RunIs(s, cfg, user, id, turns, f);
    RunBreaks(start, cfg, turns, e, f);
    ReachedIs(start, turns, if turns(e).interrupted then e else e + 1);
  }

  /** Every manual compression to a list `live`: without a store to compact only the history
      changes and the waiting messages are dropped. With one, the waiting messages that land
      are written, and then history and store become the list, if every statement succeeds, or
      both stay. */
  lemma CompressedManually(s: Session, cfg: Config, live: seq<Message>, f: Faults)
    requires Sound(s)
    ensures var end := CompressSession(s, cfg, Some(live), f);
            var archives := cfg.hasStore && cfg.autoPersist && s.conversationId != "" && cfg.inPlace;
            var compacts := CompactSucceeds(|live|, f.archive);
            && end.conversationId == s.conversationId && end.pending == []
            && end.history == (if archives && !compacts then s.history else live)
            && (!archives ==> end.db == s.db)
            && (archives ==>
                  PersistedRows(s.(history := live), end,
                                Landed(s.db, s.conversationId, s.pending, f.appends), compacts,
                                if compacts then ArchiveNumbered(|live|, f.archive)
                                else AllNumbered(|s.pending|, f.appends)))
  {
    if Persists(s, cfg) && cfg.inPlace {
      var landed := Landed(s.db, s.conversationId, s.pending, f.appends);
      var mid := Persist(s, cfg, f.appends).(history := live);
      PersistIs(s, cfg, f.appends);
      PersistSound(s, cfg, f.appends);
      JustPersisted(s, cfg, f.appends);
      CommitsExactly(mid.db, s.conversationId, live, f.archive);
      assert Archived(mid, f.archive).Some? <==> CompactSucceeds(|live|, f.archive);
      hide Persist, PersistAll, Landed, AllNumbered, ArchiveNumbered, Compacted, CompactSucceeds, Written, LoadRows,
           Agrees;
      assert PersistedRows(s.(history := live), mid, landed, false, AllNumbered(|s.pending|, f.appends));
      if Archived(mid, f.archive).Some? {
        ArchivedIs(mid, f.archive);
        ThenArchived(s.(history := live), mid, landed, f.archive, AllNumbered(|s.pending|, f.appends));
      }
    }
  }

  /** A resume takes over what the store loads unchanged, and so keeps the agreement with
      it, exactly when no user message holds the marker of the older versions. */
  lemma ResumeUnchanged(ms: seq<Message>)
    ensures |Strip(ms)| == |ms|
    ensures Strip(ms) == ms <==> forall m :: m in ms ==> FreeOfMarker(m)
  {
    hide Strip, FreeOfMarker;
    StripUnchanged(ms);
  }

  /** Every operation keeps the rows equal to what was logged, and conserves the messages,
      failing runs and compactions included, exactly when it neither discards waiting ones
      nor fails to append one. */
  lemma OpConserves(s: Session, cfg: Config, op: SessionOp, base: string -> seq<Message>)
    ensures Logged(s, base) ==> Logged(Do(s, cfg, op), base)
    ensures Conserved(s) ==> (Conserved(Do(s, cfg, op)) <==> !Loses(s, cfg, op))
  {
    OpGives(s, cfg, op, base);
    hide Logged, Conserved, Missing, Do, Loses;
    if Conserved(s) { ConservedMissesNone(s); }
    if Conserved(Do(s, cfg, op)) { ConservedMissesNone(Do(s, cfg, op)); }
  }

  /** Over every sequence of operations, whichever statements fail: the rows of each
      conversation are what it held before, then exactly the rows written since, in order and
      once each; a load returns them in that order when the numbers are in place; and the
      appended rows with the waiting messages are every conversation message ever appended,
      exactly when no operation loses one. */
  lemma TranscriptConserved(s: Session, cfg: Config, ops: seq<SessionOp>, base: string -> seq<Message>)
    requires Logged(s, base)
    ensures var next := DoAll(s, cfg, ops);
            && (forall c :: Written(next.db, c) == base(c) + StoredAll(LogOf(next.log, c)))
            && (forall c :: Numbered(next.db.rows, c) ==> LoadRows(next.db, c, false) == Written(next.db, c))
            && (Conserved(s) ==> (Appends(next.log) + next.pending == next.appended <==> NeverLoses(s, cfg, ops)))
  {
    var next := DoAll(s, cfg, ops);
    AllGive(s, cfg, ops, base);
    assert Logged(next, base);
    forall c | Numbered(next.db.rows, c)
      ensures LoadRows(next.db, c, false) == Written(next.db, c)
    {
      LoadInOrder(next.db, c);
    }
    hide DoAll, NeverLoses, Appends, Logged, Numbered, LoadRows;
    if Conserved(s) { ConservedMissesNone(s); }
    if Conserved(next) { ConservedMissesNone(next); }
  }

  /** A new loop on a new store, as the constructors make them, meets every assumption made
      above. */
  lemma FreshSession(cfg: Config, ops: seq<SessionOp>)
    requires forall op :: op in ops ==> Wellbehaved(op)
    ensures var s := Session([], [], "", Db({}, [], 1), [], [], None);
            && Valid(s.db) && Refines(s) && Agrees(s) && Conserved(s) && Logged(s, _ => [])
            && (Agrees(DoAll(s, cfg, ops)) <==> NothingLost(DoAll(s, cfg, ops)))
            && (Conserved(DoAll(s, cfg, ops)) <==> NeverLoses(s, cfg, ops))
  {
    var s := Session([], [], "", Db({}, [], 1), [], [], None);
    assert StoredAll([]) == [];
    AgreeRefines(s);
    hide DoAll, NothingLost, NeverLoses;
    HistoryRefined(s, cfg, ops);
    TranscriptConserved(s, cfg, ops, _ => []);
  }
}
