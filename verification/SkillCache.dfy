/** Discovery of skills with a cache that must agree with a fresh scan. */
module SkillCache {
  import opened Text

  /** What the manager reads from a skill file's frontmatter. */
  datatype Doc = Doc(name: string, description: string, version: string, tags: seq<string>, platforms: seq<string>)

  /** A skill file in scanning order; `doc` is absent when the file cannot be read. */
  datatype File = File(path: string, mtime: int, size: int, doc: Option<Doc>)

  /** What follows from a path and the configured roots alone: the directory relative to its
      root (absent when that fails), the absolute one, its last component, the category, and
      the prefix of a plugin root. */
  datatype Place = Place(relativeDir: Option<string>, directory: string, dirName: string, category: string,
                         prefix: string)

  datatype SkillInfo = SkillInfo(name: string, alias: string, description: string, version: string, category: string,
                                 directory: string, relativeDir: string, tags: seq<string>, platforms: seq<string>,
                                 enabled: bool)

  /** The roots and the host, fixed for the life of a manager. */
  datatype Host = Host(place: string -> Place, runsOn: seq<string> -> bool, matches: (SkillInfo, string) -> bool)

  // --- One scan --------------------------------------------------------------------

  function InfoOf(f: File, doc: Doc, disabled: seq<string>, host: Host): SkillInfo
    requires host.place(f.path).relativeDir.Some?
  {
    var p := host.place(f.path);
    var name := if doc.name == "" then p.dirName else doc.name;
    SkillInfo(name, if p.prefix == "" then name else p.prefix + ":" + name, doc.description, doc.version, p.category,
              p.directory, p.relativeDir.value, doc.tags, doc.platforms,
              name !in disabled && p.relativeDir.value !in disabled)
  }

  /** The skill a file offers to the list, if any. */
  function Candidate(f: File, disabled: seq<string>, filterDisabled: bool, host: Host): Option<SkillInfo> {
    if host.place(f.path).relativeDir.None? || f.doc.None? then None
    else
      var info := InfoOf(f, f.doc.value, disabled, host);
      if !host.runsOn(info.platforms) || (filterDisabled && !info.enabled) then None else Some(info)
  }

  function Candidates(files: seq<File>, disabled: seq<string>, filterDisabled: bool, host: Host): seq<SkillInfo> {
    if files == [] then []
    else
      var c := Candidate(files[|files| - 1], disabled, filterDisabled, host);
      Candidates(files[..|files| - 1], disabled, filterDisabled, host) + if c.Some? then [c.value] else []
  }

  predicate FirstOfName(cs: seq<SkillInfo>, i: nat)
    requires i < |cs|
  {
    forall k :: 0 <= k < i ==> cs[k].name != cs[i].name
  }

  /** Earlier roots win: no earlier candidate has the name, and no earlier candidate that was
      the first of its own name has the directory. */
  predicate Wins(cs: seq<SkillInfo>, i: nat)
    requires i < |cs|
  {
    FirstOfName(cs, i) && forall k :: 0 <= k < i && FirstOfName(cs, k) ==> cs[k].relativeDir != cs[i].relativeDir
  }

  function Winners(cs: seq<SkillInfo>): seq<SkillInfo> {
    if cs == [] then []
    else Winners(cs[..|cs| - 1]) + if Wins(cs, |cs| - 1) then [cs[|cs| - 1]] else []
  }

  // --- The order -------------------------------------------------------------------

  predicate TextLess(a: string, b: string) {
    b != "" && (a == "" || a[0] < b[0] || (a[0] == b[0] && TextLess(a[1..], b[1..])))
  }

  predicate InfoLess(a: SkillInfo, b: SkillInfo) {
    if a.category != b.category then TextLess(a.category, b.category) else TextLess(a.name, b.name)
  }

  function Insert(sorted: seq<SkillInfo>, info: SkillInfo): seq<SkillInfo> {
    if sorted == [] || !InfoLess(info, sorted[|sorted| - 1]) then sorted + [info]
    else Insert(sorted[..|sorted| - 1], info) + [sorted[|sorted| - 1]]
  }

  function Sorted(infos: seq<SkillInfo>): seq<SkillInfo> {
    if infos == [] then [] else Insert(Sorted(infos[..|infos| - 1]), infos[|infos| - 1])
  }

  function ScanImpl(files: seq<File>, disabled: seq<string>, filterDisabled: bool, host: Host): seq<SkillInfo> {
    Sorted(Winners(Candidates(files, disabled, filterDisabled, host)))
  }

  // --- The key ---------------------------------------------------------------------

  function Number(n: int): string { if n < 0 then "-" + Decimal(-n) else Decimal(n) }

  function KeyOf(files: seq<File>): string {
    if files == [] then ""
    else files[0].path + ":" + Number(files[0].mtime) + ":" + Number(files[0].size) + ";" + KeyOf(files[1..])
  }

  // --- The manager -----------------------------------------------------------------

  datatype State = State(disabled: seq<string>, cache: seq<SkillInfo>, cacheKey: string, cacheValid: bool)

  function Invalidated(s: State): State { s.(cache := [], cacheKey := "", cacheValid := false) }

  function Cached(s: State, files: seq<File>, host: Host): State {
    if s.cacheValid && s.cacheKey == KeyOf(files) then s
    else s.(cache := ScanImpl(files, s.disabled, true, host), cacheKey := KeyOf(files), cacheValid := true)
  }

  function Found(infos: seq<SkillInfo>, name: string, host: Host): Option<SkillInfo> {
    if infos == [] then None
    else if host.matches(infos[0], name) then Some(infos[0])
    else Found(infos[1..], name, host)
  }

  function Disabled(s: State, files: seq<File>, name: string, host: Host): State {
    var looked := Cached(s, files, host);
    var found := Found(looked.cache, name, host);
    if found.None? then looked
    else if found.value.name in s.disabled then Invalidated(looked)
    else Invalidated(looked.(disabled := s.disabled + [found.value.name]))
  }

  function Dropped(names: seq<string>, name: string): seq<string> {
    if names == [] then []
    else (if names[0] == name then [] else [names[0]]) + Dropped(names[1..], name)
  }

  lemma {:induction false} DroppedAre(names: seq<string>, name: string)
    ensures forall x :: x in Dropped(names, name) <==> x in names && x != name
  {
    if names != [] {
      DroppedAre(names[1..], name);
      assert names == [names[0]] + names[1..];
    }
  }

  function Enabled(s: State, files: seq<File>, name: string, host: Host): State {
    var found := Found(ScanImpl(files, s.disabled, false, host), name, host);
    if found.None? then s else Invalidated(s.(disabled := Dropped(s.disabled, found.value.name)))
  }

  /** An update or removal: it looks the skill up, changes files, and invalidates the cache
      when every change succeeded. */
  function Edited(s: State, files: seq<File>, name: string, success: bool, host: Host): State {
    var looked := Cached(s, files, host);
    if Found(looked.cache, name, host).Some? && success then Invalidated(looked) else looked
  }

  class SkillManager {
    const host: Host
    var disabled: seq<string>
    var cache: seq<SkillInfo>
    var cacheKey: string
    var cacheValid: bool

    function Now(): State
      reads this
    {
      State(disabled, cache, cacheKey, cacheValid)
    }

    constructor (host: Host, disabled: seq<string>)
      ensures this.host == host && Now() == State(disabled, [], "", false)
    {
      this.host, this.disabled := host, disabled;
      cache, cacheKey, cacheValid := [], "", false;
    }

    method Scan(files: seq<File>, filterDisabled: bool) returns (infos: seq<SkillInfo>)
      ensures infos == ScanImpl(files, disabled, filterDisabled, host)
    {
      var seenNames: set<string>, seenDirs: set<string> := {}, {};
      var result: seq<SkillInfo> := [];
      assert files[..|files|] == files;
      hide Candidates, Winners, NamesOf, FirstDirs, Candidate, Sorted;
      ScanStart(files, disabled, filterDisabled, host);
      for i := 0 to |files|
        invariant Scanned(Candidates(files[..i], disabled, filterDisabled, host), seenNames, seenDirs, result)
      {
        hide Scanned;
        CandidatesNext(files, i, disabled, filterDisabled, host);
        var c := Candidate(files[i], disabled, filterDisabled, host);
        if c.Some? {
          var info := c.value;
          ScanNext(Candidates(files[..i], disabled, filterDisabled, host), info, seenNames, seenDirs, result);
          if info.name !in seenNames {
            seenNames := seenNames + {info.name};
            if info.relativeDir !in seenDirs {
              seenDirs := seenDirs + {info.relativeDir};
              result := result + [info];
            }
          }
        }
      }
      infos := Sorted(result);
    }

    method ScanCached(files: seq<File>) returns (infos: seq<SkillInfo>)
      modifies this
      ensures Now() == Cached(old(Now()), files, host) && infos == cache
      ensures old(cacheValid) && old(cacheKey) == KeyOf(files) ==> unchanged(this)
      ensures !(old(cacheValid) && old(cacheKey) == KeyOf(files)) ==>
                cache == ScanImpl(files, disabled, true, host) && cacheKey == KeyOf(files)
      ensures cacheValid && disabled == old(disabled)
    {
      var key := KeyOf(files);
      if cacheValid && key == cacheKey { return cache; }
      cache := Scan(files, true);
      cacheKey := key;
      cacheValid := true;
      infos := cache;
    }

    method Find(infos: seq<SkillInfo>, name: string) returns (found: Option<SkillInfo>)
      ensures found == Found(infos, name, host)
      ensures found.None? <==> forall i :: 0 <= i < |infos| ==> !host.matches(infos[i], name)
      ensures found.Some? ==>
                exists i :: 0 <= i < |infos| && host.matches(infos[i], name) && found == Some(infos[i])
                            && forall k :: 0 <= k < i ==> !host.matches(infos[k], name)
    {
      assert infos[0..] == infos;
      for i := 0 to |infos|
        invariant Found(infos, name, host) == Found(infos[i..], name, host)
        invariant forall k :: 0 <= k < i ==> !host.matches(infos[k], name)
      {
        assert infos[i..][0] == infos[i] && infos[i..][1..] == infos[i + 1..];
        if host.matches(infos[i], name) { return Some(infos[i]); }
      }
      found := None;
    }

    method InvalidateCache()
      modifies this
      ensures Now() == Invalidated(old(Now()))
      ensures !cacheValid && cache == [] && disabled == old(disabled)
    {
      cache, cacheKey, cacheValid := [], "", false;
    }

    method Disable(name: string, files: seq<File>) returns (success: bool)
      modifies this
      ensures Now() == Disabled(old(Now()), files, name, host)
      ensures success <==> Found(Cached(old(Now()), files, host).cache, name, host).Some?
      ensures success ==>
                var found := Found(Cached(old(Now()), files, host).cache, name, host).value.name;
                && !cacheValid && found in disabled
                && disabled == if found in old(disabled) then old(disabled) else old(disabled) + [found]
      ensures !success ==> disabled == old(disabled) && cacheValid
    {
      var infos := ScanCached(files);
      var found := Find(infos, name);
      if found.None? { return false; }
      if found.value.name !in disabled { disabled := disabled + [found.value.name]; }
      InvalidateCache();
      success := true;
    }

    method Enable(name: string, files: seq<File>) returns (success: bool)
      modifies this
      ensures Now() == Enabled(old(Now()), files, name, host)
      ensures success <==> Found(ScanImpl(files, old(disabled), false, host), name, host).Some?
      ensures success ==>
                var found := Found(ScanImpl(files, old(disabled), false, host), name, host).value.name;
                !cacheValid && forall x :: x in disabled <==> x in old(disabled) && x != found
      ensures !success ==> unchanged(this)
    {
      var infos := Scan(files, false);
      var found := Find(infos, name);
      if found.None? { return false; }
      DroppedAre(disabled, found.value.name);
      disabled := Dropped(disabled, found.value.name);
      InvalidateCache();
      success := true;
    }

    /** `changed` tells whether the file operations on the skill's directory succeeded. */
    method Edit(name: string, files: seq<File>, changed: bool) returns (success: bool)
      modifies this
      ensures Now() == Edited(old(Now()), files, name, changed, host)
      ensures success <==> changed && Found(Cached(old(Now()), files, host).cache, name, host).Some?
      ensures disabled == old(disabled) && cacheValid == !success
    {
      var infos := ScanCached(files);
      var found := Find(infos, name);
      if found.None? || !changed { return false; }
      InvalidateCache();
      success := true;
    }

    /** Creating a skill looks nothing up. */
    method Create(created: bool) returns (success: bool)
      modifies this
      ensures success == created && Now() == if created then Invalidated(old(Now())) else old(Now())
    {
      if created { InvalidateCache(); }
      success := created;
    }
  }

  /** The sets of the scan: the names of all candidates so far, and the directories of those
      that were the first of their name. */
  function NamesOf(cs: seq<SkillInfo>): set<string> { set c | c in cs :: c.name }

  function FirstDirs(cs: seq<SkillInfo>): set<string> {
    if cs == [] then {}
    else FirstDirs(cs[..|cs| - 1]) + if FirstOfName(cs, |cs| - 1) then {cs[|cs| - 1].relativeDir} else {}
  }

  lemma FirstStable(cs: seq<SkillInfo>, info: SkillInfo)
    ensures forall k :: 0 <= k < |cs| ==> (FirstOfName(cs + [info], k) <==> FirstOfName(cs, k))
    ensures forall k :: 0 <= k < |cs| ==> (Wins(cs + [info], k) <==> Wins(cs, k))
  {
    var all := cs + [info];
    forall k | 0 <= k < |cs|
      ensures FirstOfName(all, k) <==> FirstOfName(cs, k)
    {
      assert forall j :: 0 <= j <= k ==> all[j] == cs[j];
    }
  }

  lemma CandidatesNext(files: seq<File>, i: nat, disabled: seq<string>, filterDisabled: bool, host: Host)
    requires i < |files|
    ensures var cs := Candidates(files[..i], disabled, filterDisabled, host);
            var c := Candidate(files[i], disabled, filterDisabled, host);
            Candidates(files[..i + 1], disabled, filterDisabled, host) == if c.Some? then cs + [c.value] else cs
  {
    hide Candidate;
    assert files[..i + 1][..i] == files[..i];
  }

  lemma {:induction false} FirstDirsAre(cs: seq<SkillInfo>)
    ensures forall d :: d in FirstDirs(cs) <==>
              exists k :: 0 <= k < |cs| && FirstOfName(cs, k) && cs[k].relativeDir == d
  {
    if cs != [] {
      var init, last := cs[..|cs| - 1], cs[|cs| - 1];
      assert cs == init + [last];
      FirstDirsAre(init);
      FirstStable(init, last);
      hide FirstOfName, Wins;
      forall d
        ensures d in FirstDirs(cs) <==> exists k :: 0 <= k < |cs| && FirstOfName(cs, k) && cs[k].relativeDir == d
      {
        if k :| 0 <= k < |init| && FirstOfName(init, k) && init[k].relativeDir == d {
          assert FirstOfName(cs, k) && cs[k].relativeDir == d;
        }
      }
    }
  }

  lemma NamesNext(cs: seq<SkillInfo>, info: SkillInfo)
    ensures NamesOf(cs + [info]) == NamesOf(cs) + {info.name}
    ensures FirstOfName(cs + [info], |cs|) <==> info.name !in NamesOf(cs)
  {
    var all := cs + [info];
    assert all[|cs|] == info && forall k :: 0 <= k < |cs| ==> all[k] == cs[k];
    if info.name in NamesOf(cs) {
      var c :| c in cs && c.name == info.name;
      var k :| 0 <= k < |cs| && cs[k] == c;
      assert all[k].name == all[|cs|].name;
    } else {
      assert forall k :: 0 <= k < |cs| ==> cs[k] in cs;
    }
  }

  lemma SeeNext(cs: seq<SkillInfo>, info: SkillInfo)
    ensures var all := cs + [info];
            && NamesOf(all) == NamesOf(cs) + {info.name}
            && FirstDirs(all) == FirstDirs(cs) + (if info.name in NamesOf(cs) then {} else {info.relativeDir})
            && Winners(all) == Winners(cs) +
                 if info.name !in NamesOf(cs) && info.relativeDir !in FirstDirs(cs) then [info] else []
  {
    hide *;
    NamesNext(cs, info);
    DirsSnoc(cs, info);
    WinnersSnoc(cs, info);
    WinsNext(cs, info);
    assert FirstDirs(cs) + {} == FirstDirs(cs) && Winners(cs) + [] == Winners(cs);
  }

  lemma DirsSnoc(cs: seq<SkillInfo>, info: SkillInfo)
    ensures FirstOfName(cs + [info], |cs|) ==> FirstDirs(cs + [info]) == FirstDirs(cs) + {info.relativeDir}
    ensures !FirstOfName(cs + [info], |cs|) ==> FirstDirs(cs + [info]) == FirstDirs(cs)
  {
    assert (cs + [info])[..|cs|] == cs;
    assert FirstDirs(cs) + {} == FirstDirs(cs);
    hide FirstOfName;
  }

  lemma WinnersSnoc(cs: seq<SkillInfo>, info: SkillInfo)
    ensures Wins(cs + [info], |cs|) ==> Winners(cs + [info]) == Winners(cs) + [info]
    ensures !Wins(cs + [info], |cs|) ==> Winners(cs + [info]) == Winners(cs)
  {
    assert (cs + [info])[..|cs|] == cs;
    assert Winners(cs) + [] == Winners(cs);
    hide Wins;
  }

  lemma WinsNext(cs: seq<SkillInfo>, info: SkillInfo)
    ensures Wins(cs + [info], |cs|) <==> FirstOfName(cs + [info], |cs|) && info.relativeDir !in FirstDirs(cs)
  {
    var all := cs + [info];
    FirstStable(cs, info);
    FirstDirsAre(cs);
    hide FirstOfName, FirstDirs;
    assert forall k :: 0 <= k < |cs| ==> all[k] == cs[k];
  }

  /** The state of the scan's loop after the candidates `cs`. */
  ghost predicate Scanned(cs: seq<SkillInfo>, names: set<string>, dirs: set<string>, result: seq<SkillInfo>) {
    names == NamesOf(cs) && dirs == FirstDirs(cs) && result == Winners(cs)
  }

  lemma ScanStart(files: seq<File>, disabled: seq<string>, filterDisabled: bool, host: Host)
    ensures Scanned(Candidates(files[..0], disabled, filterDisabled, host), {}, {}, [])
  {
  }

  lemma ScanNext(cs: seq<SkillInfo>, info: SkillInfo, names: set<string>, dirs: set<string>, result: seq<SkillInfo>)
    requires Scanned(cs, names, dirs, result)
    ensures var all := cs + [info];
            if info.name in names then Scanned(all, names, dirs, result)
            else if info.relativeDir in dirs then Scanned(all, names + {info.name}, dirs, result)
            else Scanned(all, names + {info.name}, dirs + {info.relativeDir}, result + [info])
  {
    SeeNext(cs, info);
    hide NamesOf, FirstDirs, Winners;
    assert info.name in names ==> names + {info.name} == names;
    assert info.relativeDir in dirs ==> dirs + {info.relativeDir} == dirs;
    assert result + [] == result;
  }

  // --- What a file offers -----------------------------------------------------------

  /** `info` is what the file and the list of disabled skills say. */
  ghost predicate Tells(info: SkillInfo, f: File, doc: Doc, disabled: seq<string>, p: Place) {
    && (doc.name != "" ==> info.name == doc.name) && (doc.name == "" ==> info.name == p.dirName)
    && (p.prefix == "" ==> info.alias == info.name)
    && (p.prefix != "" ==> info.alias == p.prefix + ":" + info.name)
    && info.description == doc.description && info.version == doc.version && info.category == p.category
    && info.directory == p.directory && Some(info.relativeDir) == p.relativeDir
    && info.tags == doc.tags && info.platforms == doc.platforms
    && (info.enabled <==> info.name !in disabled && info.relativeDir !in disabled)
  }

  /** A file offers a skill exactly when it can be read, lies under its root and is for this
      platform; a list that leaves out disabled skills offers those of the full list that are
      enabled. */
  lemma CandidateMeaning(f: File, disabled: seq<string>, host: Host)
    ensures var p, c := host.place(f.path), Candidate(f, disabled, false, host);
            && (c.Some? <==> p.relativeDir.Some? && f.doc.Some? && host.runsOn(f.doc.value.platforms))
            && (c.Some? ==> Tells(c.value, f, f.doc.value, disabled, p))
            && Candidate(f, disabled, true, host) == if c.Some? && c.value.enabled then c else None
  {
  }

  function EnabledOnly(infos: seq<SkillInfo>): seq<SkillInfo> {
    if infos == [] then []
    else EnabledOnly(infos[..|infos| - 1]) + if infos[|infos| - 1].enabled then [infos[|infos| - 1]] else []
  }

  lemma EnabledSnoc(infos: seq<SkillInfo>, info: SkillInfo)
    ensures info.enabled ==> EnabledOnly(infos + [info]) == EnabledOnly(infos) + [info]
    ensures !info.enabled ==> EnabledOnly(infos + [info]) == EnabledOnly(infos)
  {
    assert (infos + [info])[..|infos|] == infos;
    assert EnabledOnly(infos) + [] == EnabledOnly(infos);
  }

  /** Leaving out disabled skills drops exactly those from the candidates and keeps the order. */
  lemma {:induction false} FilterKeepsEnabled(files: seq<File>, disabled: seq<string>, host: Host)
    ensures Candidates(files, disabled, true, host) == EnabledOnly(Candidates(files, disabled, false, host))
  {
    if files == [] {
      assert Candidates(files, disabled, true, host) == [] == Candidates(files, disabled, false, host);
    } else {
      var n := |files| - 1;
      FilterKeepsEnabled(files[..n], disabled, host);
      CandidatesNext(files, n, disabled, true, host);
      CandidatesNext(files, n, disabled, false, host);
      CandidateMeaning(files[n], disabled, host);
      assert files[..n + 1] == files;
      hide *;
      var c := Candidate(files[n], disabled, false, host);
      if c.Some? { EnabledSnoc(Candidates(files[..n], disabled, false, host), c.value); }
    }
  }

  // --- What a scan lists -----------------------------------------------------------

  ghost predicate AllDistinct(infos: seq<SkillInfo>) {
    forall i, j :: 0 <= i < j < |infos| ==>
      infos[i].name != infos[j].name && infos[i].relativeDir != infos[j].relativeDir
  }

  ghost predicate IsWinner(cs: seq<SkillInfo>, w: SkillInfo) {
    exists k :: 0 <= k < |cs| && Wins(cs, k) && cs[k] == w
  }

  lemma {:induction false} WinnersAre(cs: seq<SkillInfo>)
    ensures forall w :: w in Winners(cs) <==> IsWinner(cs, w)
    ensures AllDistinct(Winners(cs))
  {
    if cs != [] {
      var init, last := cs[..|cs| - 1], cs[|cs| - 1];
      assert cs == init + [last];
      WinnersAre(init);
      FirstStable(init, last);
      var before := Winners(init);
      forall w | w in before
        ensures IsWinner(cs, w)
      {
        var k :| 0 <= k < |init| && Wins(init, k) && init[k] == w;
        assert Wins(cs, k) && cs[k] == w;
      }
      if Wins(cs, |cs| - 1) {
        forall i | 0 <= i < |before|
          ensures before[i].name != last.name && before[i].relativeDir != last.relativeDir
        {
          assert before[i] in before;
        }
      }
      forall k | 0 <= k < |cs| && Wins(cs, k)
        ensures cs[k] in Winners(cs)
      {
        if k < |init| { assert Wins(init, k) && init[k] == cs[k]; }
      }
    }
  }

  // --- Sorting ---------------------------------------------------------------------

  lemma {:induction false} TextOrder(a: string, b: string, c: string)
    ensures !TextLess(a, a) && (a != b ==> TextLess(a, b) || TextLess(b, a)) && !(TextLess(a, b) && TextLess(b, a))
    ensures TextLess(a, b) && TextLess(b, c) ==> TextLess(a, c)
    decreases |a|
  {
    if a != "" {
      TextOrder(a[1..], if b == "" then "" else b[1..], if c == "" then "" else c[1..]);
      if b != "" && a[0] == b[0] && a[1..] == b[1..] { assert a == [a[0]] + a[1..] && b == [b[0]] + b[1..]; }
    }
  }

  lemma InfoOrder(a: SkillInfo, b: SkillInfo, c: SkillInfo)
    ensures !InfoLess(a, a) && (a.name != b.name ==> InfoLess(a, b) || InfoLess(b, a))
    ensures !(InfoLess(a, b) && InfoLess(b, a))
    ensures InfoLess(a, b) && InfoLess(b, c) ==> InfoLess(a, c)
  {
    TextOrder(a.category, b.category, c.category);
    TextOrder(a.name, b.name, c.name);
    hide TextLess;
  }

  ghost predicate Ordered(infos: seq<SkillInfo>) {
    forall i, j :: 0 <= i < j < |infos| ==> InfoLess(infos[i], infos[j])
  }

  ghost predicate NamesDiffer(infos: seq<SkillInfo>) {
    forall i, j :: 0 <= i < j < |infos| ==> infos[i].name != infos[j].name
  }

  lemma {:induction false} InsertOrdered(sorted: seq<SkillInfo>, info: SkillInfo)
    requires Ordered(sorted) && forall x :: x in sorted ==> x.name != info.name
    ensures Ordered(Insert(sorted, info)) && multiset(Insert(sorted, info)) == multiset(sorted) + multiset{info}
  {
    hide *;
    if sorted == [] {
      InsertFirst(info);
    } else {
      var init, last := sorted[..|sorted| - 1], sorted[|sorted| - 1];
      assert sorted == init + [last] && last in sorted && forall x :: x in init ==> x in sorted;
      InsertSnoc(init, last, info);
      OrderedSplit(init, last);
      if InfoLess(info, last) {
        InsertOrdered(init, info);
        BelowAll(init, info, Insert(init, info), last);
        OrderedJoin(Insert(init, info), last);
        SameBag(Insert(init, info), init, info, last);
      } else {
        InfoOrder(info, last, last);
        BelowNext(init, last, info);
        OrderedJoin(sorted, info);
        BagSnoc(sorted, info);
      }
    }
  }

  lemma InsertFirst(info: SkillInfo)
    ensures Insert([], info) == [info] && Ordered([info]) && multiset([info]) == multiset([]) + multiset{info}
  {
    assert [] + [info] == [info];
  }

  lemma InsertSnoc(init: seq<SkillInfo>, last: SkillInfo, info: SkillInfo)
    ensures InfoLess(info, last) ==> Insert(init + [last], info) == Insert(init, info) + [last]
    ensures !InfoLess(info, last) ==> Insert(init + [last], info) == init + [last] + [info]
  {
    hide InfoLess;
    assert (init + [last])[..|init|] == init;
  }

  lemma BagSnoc<T>(s: seq<T>, x: T)
    ensures multiset(s + [x]) == multiset(s) + multiset{x}
  {
  }

  lemma SameBag<T>(inserted: seq<T>, init: seq<T>, x: T, last: T)
    requires multiset(inserted) == multiset(init) + multiset{x}
    ensures multiset(inserted + [last]) == multiset(init + [last]) + multiset{x}
  {
  }

  ghost predicate Below(infos: seq<SkillInfo>, x: SkillInfo) { forall y :: y in infos ==> InfoLess(y, x) }

  lemma OrderedSplit(init: seq<SkillInfo>, last: SkillInfo)
    requires Ordered(init + [last])
    ensures Ordered(init) && Below(init, last)
  {
    hide InfoLess;
    var all := init + [last];
    assert forall i :: 0 <= i < |init| ==> init[i] == all[i];
    assert all[|init|] == last;
  }

  lemma OrderedJoin(init: seq<SkillInfo>, last: SkillInfo)
    requires Ordered(init) && Below(init, last)
    ensures Ordered(init + [last])
  {
    hide InfoLess;
    assert forall i :: 0 <= i < |init| ==> init[i] in init;
  }

  lemma BelowAll(init: seq<SkillInfo>, info: SkillInfo, inserted: seq<SkillInfo>, last: SkillInfo)
    requires multiset(inserted) == multiset(init) + multiset{info} && Below(init, last) && InfoLess(info, last)
    ensures Below(inserted, last)
  {
    hide InfoLess;
    forall y | y in inserted
      ensures InfoLess(y, last)
    {
      assert y in multiset(inserted);
    }
  }

  lemma BelowNext(init: seq<SkillInfo>, last: SkillInfo, info: SkillInfo)
    requires Below(init, last) && InfoLess(last, info)
    ensures Below(init + [last], info)
  {
    forall y | y in init
      ensures InfoLess(y, info)
    {
      InfoOrder(y, last, info);
    }
    hide InfoLess;
  }

  /** Sorting orders skills with different names strictly and keeps them all. */
  lemma {:induction false} SortedOrdered(infos: seq<SkillInfo>)
    requires NamesDiffer(infos)
    ensures Ordered(Sorted(infos)) && multiset(Sorted(infos)) == multiset(infos)
  {
    if infos != [] {
      var init, last := infos[..|infos| - 1], infos[|infos| - 1];
      assert infos == init + [last] && Sorted(infos) == Insert(Sorted(init), last);
      NameIsNew(init, last);
      hide *;
      SortedOrdered(init);
      assert forall x :: x in Sorted(init) ==> x in multiset(init);
      InsertOrdered(Sorted(init), last);
    }
  }

  lemma NameIsNew(init: seq<SkillInfo>, last: SkillInfo)
    requires NamesDiffer(init + [last])
    ensures NamesDiffer(init) && forall x :: x in multiset(init) ==> x.name != last.name
  {
    var all := init + [last];
    assert forall i :: 0 <= i < |init| ==> init[i] == all[i];
    assert all[|init|] == last;
    forall x | x in multiset(init)
      ensures x.name != last.name
    {
      assert x in init;
    }
  }

  /** There is only one such order, so an unstable sort gives it too. */
  lemma {:induction false} OrderUnique(a: seq<SkillInfo>, b: seq<SkillInfo>)
    requires Ordered(a) && Ordered(b) && multiset(a) == multiset(b)
    ensures a == b
    decreases |a|
  {
    hide *;
    assert |a| == |multiset(a)| == |multiset(b)| == |b|;
    if a != [] {
      var n := |a| - 1;
      LastIsGreatest(a, b);
      DropLast(a);
      DropLast(b);
      OrderedInit(a);
      OrderedInit(b);
      OrderUnique(a[..n], b[..n]);
      assert a == a[..n] + [a[n]] && b == b[..n] + [b[n]];
    }
  }

  lemma OrderedInit(infos: seq<SkillInfo>)
    requires Ordered(infos) && infos != []
    ensures Ordered(infos[..|infos| - 1])
  {
    hide InfoLess;
  }

  lemma DropLast<T>(s: seq<T>)
    requires s != []
    ensures multiset(s[..|s| - 1]) == multiset(s) - multiset{s[|s| - 1]}
  {
    assert s == s[..|s| - 1] + [s[|s| - 1]];
  }

  lemma LastIsGreatest(a: seq<SkillInfo>, b: seq<SkillInfo>)
    requires Ordered(a) && Ordered(b) && multiset(a) == multiset(b) && a != [] && b != []
    ensures a[|a| - 1] == b[|b| - 1]
  {
    var x, y := a[|a| - 1], b[|b| - 1];
    hide InfoLess;
    assert x in multiset(b) && y in multiset(a);
    var i :| 0 <= i < |b| && b[i] == x;
    var j :| 0 <= j < |a| && a[j] == y;
    InfoOrder(x, y, x);
  }

  /** What every list shows: the winning candidates, strictly ordered by category and name,
      with distinct names and distinct directories. */
  lemma ScanLists(files: seq<File>, disabled: seq<string>, filterDisabled: bool, host: Host)
    ensures var infos := ScanImpl(files, disabled, filterDisabled, host);
            var cs := Candidates(files, disabled, filterDisabled, host);
            && Ordered(infos) && AllDistinct(infos)
            && (forall w :: w in infos <==> IsWinner(cs, w))
            && forall i, j :: 0 <= i < j < |infos| ==>
                 TextLess(infos[i].category, infos[j].category)
                 || (infos[i].category == infos[j].category && TextLess(infos[i].name, infos[j].name))
  {
    var cs := Candidates(files, disabled, filterDisabled, host);
    var ws := Winners(cs);
    var infos := Sorted(ws);
    WinnersAre(cs);
    SortedOrdered(ws);
    hide *;
    assert forall w :: w in infos <==> w in multiset(infos);
    assert forall w :: w in ws <==> w in multiset(ws);
    DistinctKept(ws, infos);
    OrderedMeans(infos);
  }

  lemma OrderedMeans(infos: seq<SkillInfo>)
    requires Ordered(infos)
    ensures forall i, j :: 0 <= i < j < |infos| ==>
              TextLess(infos[i].category, infos[j].category)
              || (infos[i].category == infos[j].category && TextLess(infos[i].name, infos[j].name))
  {
    hide TextLess;
    forall i, j | 0 <= i < j < |infos|
      ensures TextLess(infos[i].category, infos[j].category)
              || (infos[i].category == infos[j].category && TextLess(infos[i].name, infos[j].name))
    {
      assert InfoLess(infos[i], infos[j]);
    }
  }

  /** Texts compare by their first difference, and a beginning comes before the whole. */
  lemma {:induction false} TextByDifference(p: string, a: char, x: string, b: char, y: string)
    ensures a != b ==> (TextLess(p + [a] + x, p + [b] + y) <==> a < b)
    ensures TextLess(p, p + [a] + x)
  {
    if p != "" {
      TextByDifference(p[1..], a, x, b, y);
      assert (p + [a] + x)[1..] == p[1..] + [a] + x && (p + [b] + y)[1..] == p[1..] + [b] + y;
    }
  }

  lemma DistinctKept(ws: seq<SkillInfo>, infos: seq<SkillInfo>)
    requires AllDistinct(ws) && multiset(infos) == multiset(ws)
    ensures AllDistinct(infos)
  {
    forall i, j | 0 <= i < j < |infos|
      ensures infos[i].name != infos[j].name && infos[i].relativeDir != infos[j].relativeDir
    {
      var x, y := infos[i], infos[j];
      assert x in multiset(ws) && y in multiset(ws);
      if x == y {
        assert infos == infos[..j] + [y] + infos[j + 1..];
        assert x in infos[..j];
        assert multiset(infos)[x] >= 2;
        NoRepeats(ws, x);
      } else {
        var k :| 0 <= k < |ws| && ws[k] == x;
        var l :| 0 <= l < |ws| && ws[l] == y;
      }
    }
  }

  lemma {:induction false} NoRepeats(ws: seq<SkillInfo>, x: SkillInfo)
    requires AllDistinct(ws)
    ensures multiset(ws)[x] <= 1
  {
    if ws != [] {
      var init, last := ws[..|ws| - 1], ws[|ws| - 1];
      NoRepeats(init, x);
      assert ws == init + [last];
      if last == x {
        assert x !in init;
        assert x !in multiset(init);
      }
    }
  }

  // --- Names without a listed skill --------------------------------------------------

  /** An earlier candidate that was the first of its own name has the directory. */
  predicate DirTaken(cs: seq<SkillInfo>, i: nat)
    requires i < |cs|
  {
    exists k :: 0 <= k < i && FirstOfName(cs, k) && cs[k].relativeDir == cs[i].relativeDir
  }

  predicate Named(infos: seq<SkillInfo>, name: string) { exists info :: info in infos && info.name == name }

  /** A name that is offered has a first candidate. */
  lemma {:induction false} FirstExists(cs: seq<SkillInfo>, i: nat) returns (first: nat)
    requires i < |cs|
    ensures first <= i && cs[first].name == cs[i].name && FirstOfName(cs, first)
    decreases i
  {
    if FirstOfName(cs, i) {
      first := i;
    } else {
      var k :| 0 <= k < i && cs[k].name == cs[i].name;
      first := FirstExists(cs, k);
    }
  }

  lemma FirstUnique(cs: seq<SkillInfo>, i: nat, j: nat)
    requires i < |cs| && j < |cs| && FirstOfName(cs, i) && FirstOfName(cs, j) && cs[i].name == cs[j].name
    ensures i == j
  {
  }

  /** A name is listed exactly when its first candidate finds its directory free, and offered
      but hidden exactly when that one does not, whatever later candidates have the name. */
  lemma HiddenName(files: seq<File>, disabled: seq<string>, filterDisabled: bool, host: Host, name: string)
    ensures var cs := Candidates(files, disabled, filterDisabled, host);
            var infos := ScanImpl(files, disabled, filterDisabled, host);
            && (Named(infos, name) <==>
                exists i :: 0 <= i < |cs| && cs[i].name == name && FirstOfName(cs, i) && !DirTaken(cs, i))
            && (Named(cs, name) && !Named(infos, name) <==>
                exists i :: 0 <= i < |cs| && cs[i].name == name && FirstOfName(cs, i) && DirTaken(cs, i))
  {
    var cs, infos := Candidates(files, disabled, filterDisabled, host), ScanImpl(files, disabled, filterDisabled, host);
    ScanLists(files, disabled, filterDisabled, host);
    hide *;
    if i: nat :| i < |cs| && cs[i].name == name && FirstOfName(cs, i) {
      FirstDecides(cs, infos, i, name);
      OnlyCase(cs, i, name, true);
      OnlyCase(cs, i, name, false);
    } else {
      NotOffered(cs, infos, name);
    }
  }

  /** The first candidate with a name decides, whatever others there are. */
  lemma FirstDecides(cs: seq<SkillInfo>, infos: seq<SkillInfo>, i: nat, name: string)
    requires i < |cs| && cs[i].name == name && FirstOfName(cs, i) && forall w :: w in infos <==> IsWinner(cs, w)
    ensures Named(cs, name) && (Named(infos, name) <==> !DirTaken(cs, i))
    ensures forall j :: 0 <= j < |cs| && cs[j].name == name && FirstOfName(cs, j) ==> j == i
  {
    assert cs[i] in cs;
    WinsFree(cs);
    forall j | 0 <= j < |cs| && cs[j].name == name && FirstOfName(cs, j)
      ensures j == i
    {
      FirstUnique(cs, i, j);
    }
    hide FirstOfName, DirTaken, Wins;
    if !DirTaken(cs, i) { assert IsWinner(cs, cs[i]) && cs[i] in infos; }
    forall w | w in infos
      ensures w.name == name ==> !DirTaken(cs, i)
    {
      var k :| 0 <= k < |cs| && Wins(cs, k) && cs[k] == w;
      assert cs[k].name == name ==> k == i;
    }
  }

  lemma OnlyCase(cs: seq<SkillInfo>, i: nat, name: string, taken: bool)
    requires i < |cs| && cs[i].name == name && FirstOfName(cs, i)
    requires forall j :: 0 <= j < |cs| && cs[j].name == name && FirstOfName(cs, j) ==> j == i
    ensures (exists j :: 0 <= j < |cs| && cs[j].name == name && FirstOfName(cs, j) && DirTaken(cs, j) == taken)
            <==> DirTaken(cs, i) == taken
  {
    hide FirstOfName, DirTaken;
  }

  lemma NotOffered(cs: seq<SkillInfo>, infos: seq<SkillInfo>, name: string)
    requires forall i :: 0 <= i < |cs| && cs[i].name == name ==> !FirstOfName(cs, i)
    requires forall w :: w in infos <==> IsWinner(cs, w)
    ensures !Named(cs, name) && !Named(infos, name)
  {
    hide FirstOfName;
    forall j | 0 <= j < |cs|
      ensures cs[j].name != name
    {
      var i := FirstExists(cs, j);
    }
    forall w | w in infos
      ensures w.name != name
    {
      var k :| 0 <= k < |cs| && Wins(cs, k) && cs[k] == w;
    }
  }

  lemma WinsFree(cs: seq<SkillInfo>)
    ensures forall i :: 0 <= i < |cs| ==> (Wins(cs, i) <==> FirstOfName(cs, i) && !DirTaken(cs, i))
  {
  }

  /** Such a name: the second file loses its directory to the first, and its name, which no
      listed skill has, keeps the third from being listed. */
  lemma HiddenNameExample()
    ensures var a := SkillInfo("x", "x", "", "", "general", "/r1/d", "d", [], [], true);
            var b := a.(name := "y", directory := "/r2/d");
            var c := b.(directory := "/r2/e", relativeDir := "e");
            Winners([a, b, c]) == [a]
  {
    var a := SkillInfo("x", "x", "", "", "general", "/r1/d", "d", [], [], true);
    var b := a.(name := "y", directory := "/r2/d");
    var c := b.(directory := "/r2/e", relativeDir := "e");
    assert [a, b, c][..2] == [a, b] && [a, b][..1] == [a] && [a][..0] == [];
    assert Wins([a], 0) && Winners([a]) == [a];
    assert FirstOfName([a, b], 0) && !Wins([a, b], 1) && Winners([a, b]) == [a];
    assert [a, b, c][1].name == [a, b, c][2].name && !Wins([a, b, c], 2);
  }

  // --- The key tells files apart ---------------------------------------------------

  lemma NumberChars(n: int)
    ensures forall c :: c in Number(n) ==> c == '-' || '0' <= c <= '9'
  {
  }

  lemma NumberSign(n: int)
    ensures Number(n) != "" && (Number(n)[0] == '-' <==> n < 0)
    ensures n < 0 ==> Number(n)[1..] == Decimal(-n)
  {
    assert n >= 0 ==> Decimal(n)[0] in Decimal(n);
  }

  lemma NumberInjective(m: int, n: int)
    requires Number(m) == Number(n)
    ensures m == n
  {
    NumberSign(m);
    NumberSign(n);
    if m < 0 { DecimalInjective(-m, -n); } else { DecimalInjective(m, n); }
  }

  /** Two texts cut at their last separators. */
  lemma CutLast(x: string, u: string, y: string, v: string, sep: char)
    requires x + [sep] + u == y + [sep] + v && sep !in u && sep !in v
    ensures x == y && u == v
  {
    var s := x + [sep] + u;
    assert forall k :: 0 <= k < |u| ==> s[|x| + 1 + k] == u[k];
    assert forall k :: 0 <= k < |v| ==> s[|y| + 1 + k] == v[k];
    assert s[|x|] == sep && s[|y|] == sep;
    assert forall k :: |x| < k < |s| ==> s[k] == u[k - |x| - 1];
    assert forall k :: |y| < k < |s| ==> s[k] == v[k - |y| - 1];
    assert |x| == |y|;
    assert s[..|x|] == x && s[..|y|] == y && s[|x| + 1..] == u && s[|y| + 1..] == v;
  }

  function Stamped(f: File): string { f.path + [':'] + Number(f.mtime) + [':'] + Number(f.size) }

  lemma StampedInjective(f: File, g: File)
    requires Stamped(f) == Stamped(g)
    ensures f.path == g.path && f.mtime == g.mtime && f.size == g.size
  {
    NumberChars(f.mtime);
    NumberChars(g.mtime);
    NumberChars(f.size);
    NumberChars(g.size);
    hide Number;
    CutLast(f.path + [':'] + Number(f.mtime), Number(f.size), g.path + [':'] + Number(g.mtime), Number(g.size), ':');
    CutLast(f.path, Number(f.mtime), g.path, Number(g.mtime), ':');
    NumberInjective(f.mtime, g.mtime);
    NumberInjective(f.size, g.size);
  }

  /** What closes the entry of one file in the key. */
  function Closing(mtime: int, size: int): string { [':'] + Number(mtime) + [':'] + Number(size) + [';'] }

  /** The path does not itself hold the end of an entry, like ":1:2;". */
  ghost predicate PlainPath(path: string) { forall m, s :: !Contains(path, Closing(m, s)) }

  ghost predicate PlainPaths(files: seq<File>) { forall f :: f in files ==> PlainPath(f.path) }

  ghost predicate SameStamps(a: seq<File>, b: seq<File>) {
    |a| == |b| &&
    forall k :: 0 <= k < |a| ==> a[k].path == b[k].path && a[k].mtime == b[k].mtime && a[k].size == b[k].size
  }

  lemma KeyCons(files: seq<File>)
    requires files != []
    ensures KeyOf(files) == Stamped(files[0]) + [';'] + KeyOf(files[1..])
  {
    var f := files[0];
    hide Number;
    assert f.path + ":" + Number(f.mtime) + ":" + Number(f.size) + ";" + KeyOf(files[1..])
        == Stamped(f) + [';'] + KeyOf(files[1..]);
  }

  lemma EntryParts(f: File)
    ensures Stamped(f) + [';'] == f.path + Closing(f.mtime, f.size)
    ensures ';' !in Closing(f.mtime, f.size)[..|Closing(f.mtime, f.size)| - 1]
  {
    NumberChars(f.mtime);
    NumberChars(f.size);
    hide Number;
    var stamp := [':'] + Number(f.mtime) + [':'] + Number(f.size);
    assert Closing(f.mtime, f.size)[..|Closing(f.mtime, f.size)| - 1] == stamp;
    assert Stamped(f) == f.path + stamp;
  }

  /** Where two keys are equal and their first entries are not equally long, the path of the
      longer one holds the end of the shorter one. */
  lemma ShorterEntry(f: File, u: string, g: File, v: string)
    requires Stamped(f) + [';'] + u == Stamped(g) + [';'] + v && |Stamped(f)| < |Stamped(g)|
    ensures !PlainPath(g.path)
  {
    EntryParts(f);
    EntryParts(g);
    InPath(f.path, Closing(f.mtime, f.size), u, g.path, Closing(g.mtime, g.size), v);
  }

  lemma InPath(x: string, end: string, u: string, y: string, stop: string, v: string)
    requires x + end + u == y + stop + v && |x + end| < |y + stop|
    requires end != "" && end[|end| - 1] == ';' && stop != "" && ';' !in stop[..|stop| - 1]
    ensures Contains(y, end)
  {
    var s, k := x + end + u, |x| + |end| - 1;
    assert s[k] == ';';
    forall p | |y| <= p < |y| + |stop| - 1
      ensures s[p] != ';'
    {
      assert s[p] == stop[..|stop| - 1][p - |y|];
    }
    assert k < |y|;
    assert y[|x|..|x| + |end|] == s[|x|..|x| + |end|] == end;
    assert At(y, end, |x|);
  }

  lemma FirstEntry(f: File, u: string, g: File, v: string)
    requires Stamped(f) + [';'] + u == Stamped(g) + [';'] + v && |Stamped(f)| == |Stamped(g)|
    ensures f.path == g.path && f.mtime == g.mtime && f.size == g.size && u == v
  {
    var s := Stamped(f) + [';'] + u;
    assert s[..|Stamped(f)|] == Stamped(f) && s[..|Stamped(g)|] == Stamped(g);
    assert s[|Stamped(f)| + 1..] == u && s[|Stamped(g)| + 1..] == v;
    StampedInjective(f, g);
  }

  /** Equal keys come from equal lists of paths, times and sizes, as long as no path holds
      the end of an entry. */
  lemma {:induction false} KeyInjective(a: seq<File>, b: seq<File>)
    requires KeyOf(a) == KeyOf(b) && PlainPaths(a) && PlainPaths(b)
    ensures SameStamps(a, b)
  {
    hide *;
    KeyEmpty(a);
    KeyEmpty(b);
    if a != [] && b != [] {
      KeyCons(a);
      KeyCons(b);
      PlainTail(a);
      PlainTail(b);
      if |Stamped(a[0])| < |Stamped(b[0])| { ShorterEntry(a[0], KeyOf(a[1..]), b[0], KeyOf(b[1..])); }
      if |Stamped(b[0])| < |Stamped(a[0])| { ShorterEntry(b[0], KeyOf(b[1..]), a[0], KeyOf(a[1..])); }
      FirstEntry(a[0], KeyOf(a[1..]), b[0], KeyOf(b[1..]));
      KeyInjective(a[1..], b[1..]);
    }
    SameCons(a, b);
  }

  /** The key of one file stands for that file alone exactly when its path does not hold the
      end of an entry: otherwise two files, cut at that place, have the same key. */
  lemma KeyUnambiguous(f: File)
    ensures (forall b :: KeyOf(b) == KeyOf([f]) ==> SameStamps([f], b)) <==> PlainPath(f.path)
  {
    hide KeyOf, SameStamps, Closing, At;
    if PlainPath(f.path) {
      forall b | KeyOf(b) == KeyOf([f])
        ensures SameStamps([f], b)
      {
        KeyAlone(f, b);
      }
    } else {
      var m, s :| Contains(f.path, Closing(m, s));
      var i :| 0 <= i <= |f.path| - |Closing(m, s)| && At(f.path, Closing(m, s), i);
      KeySplits(f, m, s, i);
    }
  }

  lemma KeyAlone(f: File, b: seq<File>)
    requires PlainPath(f.path) && KeyOf(b) == KeyOf([f])
    ensures SameStamps([f], b)
  {
    hide *;
    KeyEmpty(b);
    KeyEmpty([f]);
    KeyEmpty([f][1..]);
    KeyCons(b);
    KeyCons([f]);
    if |Stamped(b[0])| < |Stamped(f)| { ShorterEntry(b[0], KeyOf(b[1..]), f, KeyOf([f][1..])); }
    assert [f][1..] == [];
    FirstEntry(b[0], KeyOf(b[1..]), f, KeyOf([f][1..]));
    KeyEmpty(b[1..]);
    assert SameStamps([f][1..], b[1..]) by { NoStamps([f][1..], b[1..]); }
    SameCons([f], b);
  }

  lemma NoStamps(a: seq<File>, b: seq<File>)
    requires a == b == []
    ensures SameStamps(a, b)
  {
  }

  lemma KeySplits(f: File, m: int, s: int, i: nat)
    requires i <= |f.path| - |Closing(m, s)| && At(f.path, Closing(m, s), i)
    ensures var b := [File(f.path[..i], m, s, None), f.(path := f.path[i + |Closing(m, s)|..])];
            KeyOf(b) == KeyOf([f]) && !SameStamps([f], b)
  {
    var end := Closing(m, s);
    var g, h := File(f.path[..i], m, s, None), f.(path := f.path[i + |end|..]);
    assert f.path == g.path + end + h.path;
    hide Closing, KeyOf;
    KeyMerges(g, h, []);
    assert [g, h] + [] == [g, h] && [Merged(g, h)] + [] == [f];
  }

  /** Two files in a row, written as one: their key reads the same. */
  function Merged(f: File, u: File): File { u.(path := f.path + Closing(f.mtime, f.size) + u.path) }

  lemma KeyMerges(f: File, u: File, rest: seq<File>)
    ensures KeyOf([f, u] + rest) == KeyOf([Merged(f, u)] + rest)
  {
    var g, more := Merged(f, u), [u] + rest;
    assert [f, u] + rest == [f] + more;
    assert ([f] + more)[1..] == more && more[1..] == rest && ([g] + rest)[1..] == rest;
    KeyCons([f] + more);
    KeyCons(more);
    KeyCons([g] + rest);
    EntryParts(f);
    EntryParts(u);
    EntryParts(g);
    hide Stamped, Closing, KeyOf;
    var a, b, c := f.path + Closing(f.mtime, f.size), u.path, Closing(u.mtime, u.size);
    AppendAssoc(a, b, c);
    AppendAssoc(a, b + c, KeyOf(rest));
  }

  /** A list of files is the only one with its key exactly when it is empty, or one file whose
      path does not hold the end of an entry. */
  lemma KeyDetermines(a: seq<File>)
    ensures (forall b :: KeyOf(b) == KeyOf(a) ==> SameStamps(a, b)) <==>
            a == [] || (|a| == 1 && PlainPath(a[0].path))
  {
    if a == [] {
      forall b | KeyOf(b) == KeyOf(a)
        ensures SameStamps(a, b)
      {
        KeyEmpty(a);
        KeyEmpty(b);
      }
    } else if |a| == 1 {
      assert a == [a[0]];
      hide *;
      KeyUnambiguous(a[0]);
    } else {
      hide KeyOf;
      var b := KeyShared(a);
    }
  }

  lemma KeyShared(a: seq<File>) returns (b: seq<File>)
    requires |a| >= 2
    ensures KeyOf(b) == KeyOf(a) && |b| != |a|
  {
    hide *;
    var f, u, rest := a[0], a[1], a[2..];
    assert a == [f, u] + rest;
    b := [Merged(f, u)] + rest;
    KeyMerges(f, u, rest);
  }

  lemma KeyEmpty(files: seq<File>)
    ensures KeyOf(files) == "" <==> files == []
  {
  }

  lemma PlainTail(files: seq<File>)
    requires files != [] && PlainPaths(files)
    ensures PlainPath(files[0].path) && PlainPaths(files[1..])
  {
  }

  lemma SameCons(a: seq<File>, b: seq<File>)
    requires a == [] <==> b == []
    requires a != [] ==>
               && SameStamps(a[1..], b[1..])
               && a[0].path == b[0].path && a[0].mtime == b[0].mtime && a[0].size == b[0].size
    ensures SameStamps(a, b)
  {
    if a != [] {
      assert forall k :: 0 < k < |a| ==> a[k] == a[1..][k - 1] && b[k] == b[1..][k - 1];
    }
  }

  // --- Every run -------------------------------------------------------------------

  /** Among the file lists that are met, equal keys mean equal scans. */
  ghost predicate KeysTell(met: iset<seq<File>>, host: Host) {
    forall a, b, disabled | a in met && b in met && KeyOf(a) == KeyOf(b) ::
      ScanImpl(a, disabled, true, host) == ScanImpl(b, disabled, true, host)
  }

  /** A valid cache holds what a scan of any of these lists with its key would give. */
  ghost predicate CacheAgrees(s: State, host: Host, met: iset<seq<File>>) {
    s.cacheValid ==>
      forall files :: files in met && KeyOf(files) == s.cacheKey ==>
        s.cache == ScanImpl(files, s.disabled, true, host)
  }

  /** A file's content is what its path, time and size say: a change of content always
      changes the time or the size. */
  ghost predicate Honest(files: seq<File>, truth: (string, int, int) -> Option<Doc>) {
    PlainPaths(files) && forall f :: f in files ==> f.doc == truth(f.path, f.mtime, f.size)
  }

  lemma SameFiles(a: seq<File>, b: seq<File>, truth: (string, int, int) -> Option<Doc>)
    requires Honest(a, truth) && Honest(b, truth) && KeyOf(a) == KeyOf(b)
    ensures a == b
  {
    KeyInjective(a, b);
    hide KeyOf, PlainPaths;
    forall k | 0 <= k < |a|
      ensures a[k] == b[k]
    {
      assert a[k] in a && b[k] in b;
    }
  }

  /** That is so for files that change in any way that shows in their times or sizes, under
      paths that do not hold the end of an entry. */
  lemma HonestKeysTell(met: iset<seq<File>>, host: Host, truth: (string, int, int) -> Option<Doc>)
    requires forall files :: files in met ==> Honest(files, truth)
    ensures KeysTell(met, host)
  {
    hide ScanImpl, Honest, KeyOf;
    forall a, b, disabled | a in met && b in met && KeyOf(a) == KeyOf(b)
      ensures ScanImpl(a, disabled, true, host) == ScanImpl(b, disabled, true, host)
    {
      SameFiles(a, b, truth);
    }
  }

  lemma CachedAgrees(s: State, files: seq<File>, host: Host, met: iset<seq<File>>)
    requires CacheAgrees(s, host, met) && KeysTell(met, host) && files in met
    ensures var next := Cached(s, files, host);
            && CacheAgrees(next, host, met) && next.disabled == s.disabled
            && next.cache == ScanImpl(files, s.disabled, true, host)
  {
    hide ScanImpl, KeyOf;
  }

  /** A call, and the files it finds. Files change freely between the calls. */
  datatype Op =
    | ListOp(files: seq<File>)
    | CreateOp(files: seq<File>, created: bool)
    | EditOp(files: seq<File>, name: string, changed: bool)
    | DisableOp(files: seq<File>, name: string)
    | EnableOp(files: seq<File>, name: string)

  function Do(s: State, op: Op, host: Host): State {
    match op
    case ListOp(files) => Cached(s, files, host)
    case CreateOp(_, created) => if created then Invalidated(s) else s
    case EditOp(files, name, changed) => Edited(s, files, name, changed, host)
    case DisableOp(files, name) => Disabled(s, files, name, host)
    case EnableOp(files, name) => Enabled(s, files, name, host)
  }

  function DoAll(s: State, ops: seq<Op>, host: Host): State
    decreases |ops|
  {
    if ops == [] then s else DoAll(Do(s, ops[0], host), ops[1..], host)
  }

  lemma DoAgrees(s: State, op: Op, host: Host, met: iset<seq<File>>)
    requires CacheAgrees(s, host, met) && KeysTell(met, host) && op.files in met
    ensures CacheAgrees(Do(s, op, host), host, met)
  {
    CachedAgrees(s, op.files, host, met);
    hide KeysTell, Cached, ScanImpl, Found, KeyOf;
  }

  /** In every run of lists, creations, updates, removals, enabling and disabling, with the
      files changing between the calls: each list is exactly what a fresh scan of the files it
      finds would give, as long as equal keys mean equal scans. */
  lemma {:induction false} ListsAgree(s: State, ops: seq<Op>, files: seq<File>, host: Host, met: iset<seq<File>>)
    requires CacheAgrees(s, host, met) && KeysTell(met, host)
    requires files in met && forall op :: op in ops ==> op.files in met
    ensures var end := DoAll(s, ops, host);
            Cached(end, files, host).cache == ScanImpl(files, end.disabled, true, host)
    decreases |ops|
  {
    if ops == [] {
      CachedAgrees(s, files, host, met);
    } else {
      DoAgrees(s, ops[0], host, met);
      hide CacheAgrees, KeysTell, Do, Cached, ScanImpl;
      ListsAgree(Do(s, ops[0], host), ops[1..], files, host, met);
    }
  }

  /** Every list of every run from a new manager over these file lists is fresh. */
  ghost predicate AlwaysFresh(met: iset<seq<File>>, host: Host) {
    forall disabled, ops: seq<Op>, files | files in met && forall op :: op in ops ==> op.files in met ::
      ListIsFresh(DoAll(State(disabled, [], "", false), ops, host), files, host)
  }

  ghost predicate ListIsFresh(s: State, files: seq<File>, host: Host) {
    Cached(s, files, host).cache == ScanImpl(files, s.disabled, true, host)
  }

  /** Two lists one after the other find a difference between scans with one key. */
  lemma TwoLists(disabled: seq<string>, a: seq<File>, b: seq<File>, host: Host)
    requires KeyOf(a) == KeyOf(b)
    ensures var s := DoAll(State(disabled, [], "", false), [ListOp(a)], host);
            ListIsFresh(s, b, host) <==> ScanImpl(a, disabled, true, host) == ScanImpl(b, disabled, true, host)
  {
    assert [ListOp(a)][1..] == [];
    hide KeyOf, ScanImpl;
  }

  /** Over all runs every list is fresh exactly when equal keys mean equal scans. */
  lemma ListsAgreeExactly(met: iset<seq<File>>, host: Host)
    ensures AlwaysFresh(met, host) <==> KeysTell(met, host)
  {
    hide KeyOf, ScanImpl, ListIsFresh, DoAll;
    if KeysTell(met, host) {
      forall disabled, ops: seq<Op>, files | files in met && forall op :: op in ops ==> op.files in met
        ensures ListIsFresh(DoAll(State(disabled, [], "", false), ops, host), files, host)
      {
        FreshInRun(disabled, ops, files, host, met);
      }
    }
    if AlwaysFresh(met, host) {
      forall a, b, disabled | a in met && b in met && KeyOf(a) == KeyOf(b)
        ensures ScanImpl(a, disabled, true, host) == ScanImpl(b, disabled, true, host)
      {
        TwoLists(disabled, a, b, host);
        var ops := [ListOp(a)];
        assert forall op :: op in ops ==> op.files in met;
      }
    }
  }

  lemma FreshInRun(disabled: seq<string>, ops: seq<Op>, files: seq<File>, host: Host, met: iset<seq<File>>)
    requires KeysTell(met, host) && files in met && forall op :: op in ops ==> op.files in met
    ensures ListIsFresh(DoAll(State(disabled, [], "", false), ops, host), files, host)
  {
    hide KeysTell, ScanImpl, DoAll, Cached;
    ListsAgree(State(disabled, [], "", false), ops, files, host, met);
  }

  /** A wrong list: an unreadable file under a path that reads like two entries is replaced by
      the two files, and the new skill stays unseen. */
  lemma WrongList(host: Host, doc: Doc)
    requires host.place("a").relativeDir.Some? && host.runsOn(doc.platforms)
    ensures var before := [File("a" + Closing(1, 2) + "b", 3, 4, None)];
            var after := [File("a", 1, 2, Some(doc)), File("b", 3, 4, None)];
            var s := DoAll(State([], [], "", false), [ListOp(before)], host);
            Cached(s, after, host).cache == [] != ScanImpl(after, [], true, host)
  {
    var f, u := File("a", 1, 2, Some(doc)), File("b", 3, 4, None);
    var before, after := [File("a" + Closing(1, 2) + "b", 3, 4, None)], [f, u];
    assert before == [Merged(f, u)] + [] && after == [f, u] + [];
    KeyMerges(f, u, []);
    assert before[..0] == [] && Candidates(before, [], true, host) == [];
    assert ScanImpl(before, [], true, host) == [];
    SomeListed(f, u, doc, host);
    hide KeyOf, ScanImpl, Closing;
    assert [ListOp(before)][1..] == [];
  }

  lemma SomeListed(f: File, u: File, doc: Doc, host: Host)
    requires f.doc == Some(doc) && host.place(f.path).relativeDir.Some? && host.runsOn(doc.platforms) && u.doc.None?
    ensures ScanImpl([f, u], [], true, host) != []
  {
    var files, info := [f, u], InfoOf(f, doc, [], host);
    assert Candidate(f, [], true, host) == Some(info) && Candidate(u, [], true, host) == None;
    assert files[..0] == [] && files[..2] == files && Candidates([], [], true, host) == [];
    FirstWins(info);
    hide *;
    CandidatesNext(files, 0, [], true, host);
    CandidatesNext(files, 1, [], true, host);
    assert Candidates(files, [], true, host) == [info];
    ScanLists(files, [], true, host);
  }

  lemma FirstWins(info: SkillInfo)
    ensures IsWinner([info], info)
  {
    assert Wins([info], 0) && [info][0] == info;
  }

  /** With a change that keeps time and size the list stays as it was. */
  lemma StaleList(s: State, before: seq<File>, after: seq<File>, host: Host)
    requires SameStamps(before, after)
    ensures Cached(Cached(s, before, host), after, host) == Cached(s, before, host)
  {
    SameKey(before, after);
    hide KeyOf, ScanImpl;
  }

  lemma {:induction false} SameKey(a: seq<File>, b: seq<File>)
    requires SameStamps(a, b)
    ensures KeyOf(a) == KeyOf(b)
  {
    if a != [] {
      hide Number;
      SameKey(a[1..], b[1..]);
    }
  }
}
