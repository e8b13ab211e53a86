/** The agent loop's transcript: live history, messages waiting to be persisted, and the
    conversation store, over runs, compressions, session switches and failures. */
module AgentLoop {
  import opened Text
  import opened Types
  import opened ConversationStore

  /** `inPlace` holds when a compressor is present and configured to compact the store. */
  datatype Config = Config(maxIterations: nat, hasStore: bool, autoPersist: bool, inPlace: bool)

  /** A row that reached the table: written by an append, or else by a compaction. */
  datatype Entry = Entry(conversation: string, message: Message, byAppend: bool)

  /** A moment at which history and store may have come apart: what active rows and waiting
      messages then were, and what the history was. */
  datatype Parting = Parting(stored: seq<Message>, live: seq<Message>)

  /** The state of the loop and its store. The last three fields are history variables the
      source does not have: every conversation message ever appended, every row written, and
      the last parting that no compaction, resume or clear has ended. */
  datatype Session = Session(
    history: seq<Message>,
    pending: seq<Message>,
    conversationId: string,
    db: Db,
    appended: seq<Message>,
    log: seq<Entry>,
    parting: Option<Parting>)

  /** What the steps of one turn do besides talking to the model. */
  datatype Action = AppendMessage(m: Message) | PushSystem(text: string)

  datatype Outcome = Failed | PlanApproved(m: Message) | Stopped | Continues

  /** One iteration as the steps drive it: an interrupt seen at its start, the history a
      compression put in place, the messages appended, and how the chain ended. */
  datatype Turn = Turn(interrupted: bool, replaced: Option<seq<Message>>, actions: seq<Action>, outcome: Outcome)

  /** The store's behaviour during one operation. */
  datatype Faults = Faults(create: Oracle, appends: nat -> Oracle, archive: Oracle)

  function AppendTo(s: Session, m: Message): Session {
    if m.role != System
    then s.(history := s.history + [m], pending := s.pending + [m], appended := s.appended + [m])
    else s.(history := s.history + [m])
  }

  function Act(s: Session, a: Action): Session {
    match a
    case AppendMessage(m) => AppendTo(s, m)
    case PushSystem(text) => s.(history := s.history + [Plain(System, text)])
  }

  function ActAll(s: Session, actions: seq<Action>): Session {
    if actions == [] then s else Act(ActAll(s, actions[..|actions| - 1]), actions[|actions| - 1])
  }

  /** The row of one append reaches the table. */
  predicate Lands(db: Db, c: string, ok: Oracle) { ok(Open) && Inserts(db, c, 0, ok) }

  /** Appending `ms` in order, each with its own faults; failures are logged and skipped. */
  function PersistAll(db: Db, log: seq<Entry>, c: string, ms: seq<Message>, appends: nat -> Oracle)
    : (Db, seq<Entry>)
  {
    if ms == [] then (db, log)
    else
      var n := |ms| - 1;
      var (d, w) := PersistAll(db, log, c, ms[..n], appends);
      var ok := appends(n);
      (Appended(d, c, ms[n], ok), if Lands(d, c, ok) then w + [Entry(c, ms[n], true)] else w)
  }

  /** The rows of one conversation, all written in the same way. */
  function Entries(c: string, ms: seq<Message>, byAppend: bool): seq<Entry> {
    seq(|ms|, i requires 0 <= i < |ms| => Entry(c, ms[i], byAppend))
  }

  predicate Persists(s: Session, cfg: Config) {
    cfg.hasStore && cfg.autoPersist && s.conversationId != ""
  }

  /** What the store holds for the history, and what is waiting to be added. */
  function Recorded(s: Session): seq<Message> { LoadRows(s.db, s.conversationId, true) + s.pending }

  function Parted(s: Session): Session { s.(parting := Some(Parting(Recorded(s), s.history))) }

  predicate AllLand(db: Db, c: string, n: nat, appends: nat -> Oracle) {
    forall i: nat :: i < n ==> Lands(db, c, appends(i))
  }

  predicate AllNumbered(n: nat, appends: nat -> Oracle) { forall i: nat :: i < n ==> appends(i)(ReadSeq(0)) }

  /** The waiting messages are written; where an append fails or a number is not read, the
      history may no longer be what the store holds. */
  function Persist(s: Session, cfg: Config, appends: nat -> Oracle): Session {
    if !Persists(s, cfg) then s
    else
      var (d, w) := PersistAll(s.db, s.log, s.conversationId, s.pending, appends);
      var next := s.(db := d, log := w, pending := []);
      if AllLand(s.db, s.conversationId, |s.pending|, appends) && AllNumbered(|s.pending|, appends) then next
      else Parted(next)
  }

  lemma PersistKeepsHistory(s: Session, cfg: Config, appends: nat -> Oracle)
    ensures Persist(s, cfg, appends).history == s.history
    ensures Persist(s, cfg, appends).conversationId == s.conversationId
  {
    hide PersistAll, AllLand, AllNumbered, LoadRows;
  }

  predicate ArchiveNumbered(n: nat, archive: Oracle) { forall i: nat :: i < n ==> archive(ReadSeq(i)) }

  /** The compaction of the store to the live history. */
  function Archived(s: Session, archive: Oracle): Option<Session> {
    var compacted := Compacted(s.db, s.conversationId, s.history, archive);
    if compacted.None? then None
    else
      var next := s.(db := compacted.value, pending := [], parting := None,
                     log := s.log + Entries(s.conversationId, s.history, false));
      Some(if ArchiveNumbered(|s.history|, archive) then next else Parted(next))
  }

  function PersistOrArchive(s: Session, cfg: Config, compressed: bool, f: Faults): Session {
    var persisted := Persist(s, cfg, f.appends);
    if compressed && Persists(s, cfg) && cfg.inPlace && Archived(persisted, f.archive).Some?
    then Archived(persisted, f.archive).value
    else persisted
  }

  /** The first run of a session creates its conversation. */
  function EnsureConversation(s: Session, cfg: Config, id: string, create: Oracle): Session {
    if cfg.hasStore && cfg.autoPersist && s.conversationId == ""
       && create(Open) && create(PrepCreate) && create(Create) && id !in s.db.conversations
    then s.(conversationId := id, db := s.db.(conversations := s.db.conversations + {id}))
    else s
  }

  function Compress(s: Session, replaced: Option<seq<Message>>): Session {
    if replaced.Some? then Parted(s.(history := replaced.value)) else s
  }

  /** Iteration `i` and those after it; `compressed` tells whether an earlier one of this
      run replaced the history. */
  function Iterate(s: Session, cfg: Config, turns: nat -> Turn, i: nat, compressed: bool, f: Faults): Session
    decreases cfg.maxIterations - i
  {
    if i >= cfg.maxIterations then PersistOrArchive(s, cfg, compressed, f)
    else
      var t := turns(i);
      if t.interrupted then s
      else
        var acted := ActAll(Compress(s, t.replaced), t.actions);
        var now := compressed || t.replaced.Some?;
        match t.outcome
        case Failed => acted
        case PlanApproved(m) => Iterate(AppendTo(acted, m), cfg, turns, i + 1, now, f)
        case Stopped => PersistOrArchive(acted, cfg, now, f)
        case Continues => Iterate(acted, cfg, turns, i + 1, now, f)
  }

  function RunSession(s: Session, cfg: Config, user: Message, id: string, turns: nat -> Turn, f: Faults): Session {
    Iterate(EnsureConversation(AppendTo(s, user), cfg, id, f.create), cfg, turns, 0, false, f)
  }

  /** The manual compression; `live` is the compressed list, absent when nothing was
      compressed. A failing compaction reports an error and keeps the history. */
  function CompressSession(s: Session, cfg: Config, live: Option<seq<Message>>, f: Faults): Session {
    if live.None? then s
    else if !(Persists(s, cfg) && cfg.inPlace)
    then Parted(s.(pending := [], history := live.value))
    else
      var persisted := Persist(s, cfg, f.appends);
      var next := Archived(persisted.(history := live.value), f.archive);
      if next.None? then persisted else next.value
  }

  // --- Restoring -------------------------------------------------------------------

  const MARKER: string := "[System note: This is the user's very first message ever."

  /** Older versions stored a directive at the end of the first user message. */
  function StripMessage(m: Message): Message {
    var pos := Find(m.content, MARKER, 0);
    if m.role != User || pos.None? then m
    else
      var p := pos.value;
      var start := if p >= 2 && m.content[p - 2..p] == "\n\n" then p - 2 else p;
      m.(content := m.content[..start])
  }

  function Strip(ms: seq<Message>): seq<Message> {
    if ms == [] then [] else Strip(ms[..|ms| - 1]) + [StripMessage(ms[|ms| - 1])]
  }

  /** Restoring what the store loads for `id`. */
  function ResumeSession(s: Session, id: string, load: Oracle): Session {
    if !(load(Open) && load(PrepCheck) && id in s.db.conversations && load(PrepLoad)) then s
    else
      var messages := LoadRows(s.db, id, true);
      var loaded := s.(conversationId := id, history := Strip(messages), pending := [], parting := None);
      if Strip(messages) == messages then loaded else Parted(loaded)
  }

  function ClearSession(s: Session): Session {
    s.(history := [], pending := [], conversationId := "", parting := None)
  }

  // --- The class -------------------------------------------------------------------

  class Loop {
    const cfg: Config
    const store: SqliteStore
    var history: seq<Message>
    var pendingPersist: seq<Message>
    var conversationId: string
    ghost var appended: seq<Message>
    ghost var log: seq<Entry>
    ghost var parting: Option<Parting>

    ghost function State(): Session
      reads this, store
    {
      Session(history, pendingPersist, conversationId, store.State(), appended, log, parting)
    }

    constructor (cfg: Config, store: SqliteStore)
      ensures this.cfg == cfg && this.store == store
      ensures State() == Session([], [], "", store.State(), [], [], None)
    {
      this.cfg := cfg;
      this.store := store;
      history, pendingPersist, conversationId := [], [], "";
      appended, log, parting := [], [], None;
    }

    method AppendToHistory(m: Message)
      modifies this
      ensures State() == AppendTo(old(State()), m)
    {
      if m.role != System {
        pendingPersist := pendingPersist + [m];
        appended := appended + [m];
      }
      history := history + [m];
    }

    method PersistNewMessages(appends: nat -> Oracle)
      modifies this, store
      ensures State() == Persist(old(State()), cfg, appends)
    {
      if !cfg.hasStore || !cfg.autoPersist || conversationId == "" { return; }
      var c := conversationId;
      ghost var db, w, n := store.State(), log, |pendingPersist|;
      for i := 0 to |pendingPersist|
        invariant history == old(history) && pendingPersist == old(pendingPersist) && conversationId == c
        invariant appended == old(appended) && parting == old(parting)
        invariant (store.State(), log) == PersistAll(db, w, c, pendingPersist[..i], appends)
      {
        ghost var before := store.State();
        var _ := store.Append(c, pendingPersist[i], appends(i));
        if appends(i)(Open) && Inserts(before, c, 0, appends(i)) {
          log := log + [Entry(c, pendingPersist[i], true)];
        }
        assert pendingPersist[..i + 1][..i] == pendingPersist[..i];
      }
      assert pendingPersist[..|pendingPersist|] == pendingPersist;
      pendingPersist := [];
      if !(AllLand(db, c, n, appends) && AllNumbered(n, appends)) {
        parting := Some(Parting(Recorded(State()), history));
      }
    }

    method PersistOrArchiveTurn(compressionApplied: bool, f: Faults)
      modifies this, store
      ensures State() == PersistOrArchive(old(State()), cfg, compressionApplied, f)
    {
      hide Persist, Compacted, CompactSucceeds, LoadRows, ArchiveNumbered, Entries;
      if compressionApplied && cfg.hasStore && cfg.autoPersist && conversationId != "" && cfg.inPlace {
        PersistNewMessages(f.appends);
        var archived := store.ArchiveAndCompact(conversationId, history, f.archive);
        if archived {
          pendingPersist := [];
          log := log + Entries(conversationId, history, false);
          parting := if ArchiveNumbered(|history|, f.archive) then None
                     else Some(Parting(Recorded(State()), history));
        }
        return;
      }
      PersistNewMessages(f.appends);
    }

    method Perform(actions: seq<Action>)
      modifies this
      ensures State() == ActAll(old(State()), actions)
    {
      for i := 0 to |actions|
        invariant State() == ActAll(old(State()), actions[..i])
      {
        assert actions[..i + 1][..i] == actions[..i];
        match actions[i] {
          case AppendMessage(m) => AppendToHistory(m);
          case PushSystem(text) => history := history + [Plain(System, text)];
        }
      }
      assert actions[..|actions|] == actions;
    }

    /** What the steps of one iteration do to the history. */
    method TakeTurn(t: Turn)
      modifies this
      ensures State() == ActAll(Compress(old(State()), t.replaced), t.actions)
    {
      if t.replaced.Some? {
        history := t.replaced.value;
        parting := Some(Parting(Recorded(State()), history));
      }
      Perform(t.actions);
    }

    /** One user input. The steps are an input: `turns(i)` is what they do in iteration `i`. */
    method Run(user: Message, id: string, turns: nat -> Turn, f: Faults)
      modifies this, store
      ensures State() == RunSession(old(State()), cfg, user, id, turns, f)
    {
      var compressionApplied := false;
      AppendToHistory(user);
      if cfg.hasStore && cfg.autoPersist && conversationId == "" {
        var created := store.CreateConversation(id, f.create);
        if created { conversationId := id; }
      }
      ghost var target := Iterate(State(), cfg, turns, 0, false, f);
      hide ActAll, Compress, PersistOrArchive;
      for i := 0 to cfg.maxIterations
        invariant Iterate(State(), cfg, turns, i, compressionApplied, f) == target
      {
        var t := turns(i);
        if t.interrupted { return; }
        TakeTurn(t);
        compressionApplied := compressionApplied || t.replaced.Some?;
        match t.outcome {
          case Failed => return;
          case PlanApproved(m) =>
            AppendToHistory(m);
          case Stopped =>
            PersistOrArchiveTurn(compressionApplied, f);
            return;
          case Continues =>
        }
      }
      PersistOrArchiveTurn(compressionApplied, f);
    }

    method CompressContext(live: Option<seq<Message>>, f: Faults) returns (success: bool)
      modifies this, store
      ensures State() == CompressSession(old(State()), cfg, live, f)
      ensures success <==>
                || live.None? || !(Persists(old(State()), cfg) && cfg.inPlace)
                || Archived(Persist(old(State()), cfg, f.appends).(history := live.value), f.archive).Some?
      ensures !success ==> history == old(history)
    {
      PersistKeepsHistory(State(), cfg, f.appends);
      hide Persist, Compacted, CompactSucceeds, LoadRows, ArchiveNumbered, Entries;
      if live.None? { return true; }
      if cfg.hasStore && cfg.autoPersist && conversationId != "" && cfg.inPlace {
        PersistNewMessages(f.appends);
        var archived := store.ArchiveAndCompact(conversationId, live.value, f.archive);
        if !archived { return false; }
        history, pendingPersist := live.value, [];
        log := log + Entries(conversationId, history, false);
        parting := if ArchiveNumbered(|history|, f.archive) then None
                   else Some(Parting(Recorded(State()), history));
      } else {
        history, pendingPersist := live.value, [];
        parting := Some(Parting(Recorded(State()), history));
      }
      success := true;
    }

    method StripLegacyDirective(messages: seq<Message>) returns (stripped: seq<Message>)
      ensures stripped == Strip(messages)
    {
      stripped := [];
      for i := 0 to |messages|
        invariant stripped == Strip(messages[..i])
      {
        assert messages[..i + 1][..i] == messages[..i];
        stripped := stripped + [StripMessage(messages[i])];
      }
      assert messages[..|messages|] == messages;
    }

    /** Load a conversation and restore it. */
    method Resume(id: string, load: Oracle) returns (success: bool)
      modifies this
      ensures State() == ResumeSession(old(State()), id, load)
      ensures success <==> load(Open) && load(PrepCheck) && id in store.conversations && load(PrepLoad)
      ensures success ==>
                && conversationId == id && pendingPersist == []
                && history == Strip(LoadRows(store.State(), id, true))
      ensures !success ==> unchanged(this)
    {
      var messages := store.Load(id, true, load);
      if messages.None? { return false; }
      conversationId := id;
      history := StripLegacyDirective(messages.value);
      pendingPersist := [];
      parting := if history == messages.value then None else Some(Parting(Recorded(State()), history));
      success := true;
    }

    method ClearHistory()
      modifies this
      ensures State() == ClearSession(old(State()))
    {
      history := [];
      conversationId := "";
      pendingPersist := [];
      parting := None;
    }
  }
}
