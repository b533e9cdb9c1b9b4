/** Seedings that were stopped by a failing write or a crash, and what later
    startups make of what they left. */
module StoppedSeeding {
  import opened Utf8
  import opened Credentials

  /** Whatever was stopped, a row is of a known team and has its original. */
  ghost predicate Rooted(s: Store, teams: seq<nat>) {
    forall k | k in s.creds :: k.team in teams && Orig(k) in s.originals
  }

  /** The rows written for a team before a write fails. */
  function SeedTeamUpTo(c: map<CredKey, Str>, o: map<OrigKey, Str>, team: nat, done: set<OrigKey>): map<CredKey, Str> {
    TeamCopy(map k | k in o && k in done :: o[k], team) + c
  }

  lemma InSeedTeamUpTo(c: map<CredKey, Str>, o: map<OrigKey, Str>, team: nat, done: set<OrigKey>, k: CredKey)
    ensures k in SeedTeamUpTo(c, o, team, done) <==> k in c || (k.team == team && Orig(k) in o && Orig(k) in done)
    ensures k in c ==> SeedTeamUpTo(c, o, team, done)[k] == c[k]
  {
    InCopy(map q | q in o && q in done :: o[q], team, k);
  }

  lemma StoppedTeamIsRooted(s: Store, teams: seq<nat>, team: nat, done: set<OrigKey>)
    requires Rooted(s, teams) && team in teams
    ensures Rooted(s.(creds := SeedTeamUpTo(s.creds, s.originals, team, done)), teams)
    ensures Extends(s.creds, SeedTeamUpTo(s.creds, s.originals, team, done))
  {
    forall k | k in SeedTeamUpTo(s.creds, s.originals, team, done) ensures k.team in teams && Orig(k) in s.originals {
      InSeedTeamUpTo(s.creds, s.originals, team, done, k);
    }
    forall k | k in s.creds
      ensures k in SeedTeamUpTo(s.creds, s.originals, team, done) && SeedTeamUpTo(s.creds, s.originals, team, done)[k] == s.creds[k]
    {
      InSeedTeamUpTo(s.creds, s.originals, team, done, k);
    }
  }

  /** A list of which the first n records were written. */
  lemma StoppedListIsRooted(s: Store, teams: seq<nat>, list: Str, rows: seq<seq<Str>>, n: nat)
    requires Rooted(s, teams) && n <= |rows|
    ensures Rooted(s.(originals := SeedOriginals(s.originals, list, rows[..n])), teams)
  {
    SeedOriginalsExtends(s.originals, list, rows[..n]);
  }

  // --------------------------------------------------------------- the teams

  ghost predicate NewList(o: map<OrigKey, Str>, lists: seq<Credlist>) { exists l | l in lists :: !HasList(o, l.path) }

  lemma {:induction false} NoNewList(s: Store, teams: seq<nat>, lists: seq<Credlist>)
    requires !NewList(s.originals, lists)
    ensures SeedNewLists(s, teams, lists) == Seeding(s, true)
  {
    if lists != [] {
      var n := |lists| - 1;
      assert forall l | l in lists[..n] :: l in lists;
      NoNewList(s, teams, lists[..n]);
      assert lists[n] in lists;
    }
  }

  lemma FirstNewListCompletes(s: Store, teams: seq<nat>, l: Credlist)
    requires Rooted(s, teams) && l.file.Records?
    ensures var o := SeedOriginals(s.originals, l.path, l.file.rows);
            Complete(s.(originals := o, creds := SeedTeams(s.creds, o, teams)), teams)
  {
    var o := SeedOriginals(s.originals, l.path, l.file.rows);
    SeedOriginalsExtends(s.originals, l.path, l.file.rows);
    forall k: CredKey ensures k in SeedTeams(s.creds, o, teams) <==> k.team in teams && Orig(k) in o {
      InSeedTeams(s.creds, o, teams, k);
      if k in s.creds { assert Orig(k) in s.originals; }
    }
  }

  lemma CompleteStays(s: Store, teams: seq<nat>, l: Credlist)
    requires Complete(s, teams) && l.file.Records?
    ensures var o := SeedOriginals(s.originals, l.path, l.file.rows);
            Complete(s.(originals := o, creds := SeedTeams(s.creds, o, teams)), teams)
  {
    FirstNewListCompletes(s, teams, l);
  }

  /** Reading any new list seeds every team with all originals. */
  lemma {:induction false} NewListCompletes(s: Store, teams: seq<nat>, lists: seq<Credlist>)
    requires Rooted(s, teams) && NewList(s.originals, lists) && SeedNewLists(s, teams, lists).ok
    ensures Complete(SeedNewLists(s, teams, lists).store, teams)
  {
    var n := |lists| - 1;
    var p, l := SeedNewLists(s, teams, lists[..n]), lists[n];
    assert lists == lists[..n] + [l];
    if NewList(s.originals, lists[..n]) {
      NewListCompletes(s, teams, lists[..n]);
      if !HasList(p.store.originals, l.path) { CompleteStays(p.store, teams, l); }
    } else {
      NoNewList(s, teams, lists[..n]);
      var x :| x in lists && !HasList(s.originals, x.path);
      assert x !in lists[..n] && x == l;
      FirstNewListCompletes(s, teams, l);
    }
  }

  lemma NewTeamsRooted(s: Store, teams: seq<nat>)
    requires Rooted(s, teams)
    ensures Rooted(s.(creds := SeedNewTeams(s.creds, s.originals, teams)), teams)
  {
    forall k | k in SeedNewTeams(s.creds, s.originals, teams) ensures k.team in teams && Orig(k) in s.originals {
      InSeedNewTeams(s.creds, s.originals, teams, k);
    }
  }

  /** A team with some of its rows is passed over. */
  lemma PartialTeamStays(s: Store, teams: seq<nat>)
    requires Rooted(s, teams) && !AllOrNone(s)
    ensures !Complete(s.(creds := SeedNewTeams(s.creds, s.originals, teams)), teams)
  {
    var k, q :| k in s.creds && q in s.originals && CredKey(k.team, q.list, q.user) !in s.creds;
    var missing := CredKey(k.team, q.list, q.user);
    InSeedNewTeams(s.creds, s.originals, teams, missing);
    assert HasCreds(s.creds, missing.team) && Orig(missing) == q;
  }

  /** Exactly when a startup that gets to its end leaves every team with the
      originals' users, whatever stopped the ones before: when no team had been
      left with a part of its rows, or a list is new. */
  lemma CompleteAgainIff(s: Store, teams: seq<nat>, lists: seq<Credlist>)
    requires Rooted(s, teams) && Startup(s, teams, lists).ok
    ensures Complete(Startup(s, teams, lists).store, teams) <==> AllOrNone(s) || NewList(s.originals, lists)
  {
    if AllOrNone(s) {
      StartupSeeds(s, teams, lists);
    } else {
      assert s.originals != map[] by {
        var k :| k in s.creds;
        assert Orig(k) in s.originals;
      }
      var s1 := s.(creds := SeedNewTeams(s.creds, s.originals, teams));
      NewTeamsRooted(s, teams);
      if NewList(s.originals, lists) {
        NewListCompletes(s1, teams, lists);
      } else {
        NoNewList(s1, teams, lists);
        PartialTeamStays(s, teams);
      }
    }
  }

  // --------------------------------------------------------------- the lists

  /** Every user a file names has an original. */
  predicate Read(o: map<OrigKey, Str>, l: Credlist)
    requires l.file.Records?
  {
    forall r | r in l.file.rows && IsRow(r) :: OrigKey(l.path, r[0]) in o
  }

  /** A path is one file. */
  predicate OneFileEach(lists: seq<Credlist>) { forall a, b | a in lists && b in lists && a.path == b.path :: a == b }

  lemma ReadNow(o: map<OrigKey, Str>, l: Credlist)
    requires l.file.Records?
    ensures Read(SeedOriginals(o, l.path, l.file.rows), l)
  {
    forall r | r in l.file.rows && IsRow(r) ensures OrigKey(l.path, r[0]) in SeedOriginals(o, l.path, l.file.rows) {
      FirstRecordWins(o, l.path, l.file.rows, OrigKey(l.path, r[0]));
    }
  }

  lemma ReadStays(o: map<OrigKey, Str>, o': map<OrigKey, Str>, l: Credlist)
    requires l.file.Records? && Read(o, l) && Extends(o, o')
    ensures Read(o', l)
  {
  }

  /** Reading one list adds originals of that list only. */
  lemma OtherListStays(o: map<OrigKey, Str>, l: Credlist, path: Str)
    requires l.file.Records? && l.path != path
    ensures HasList(SeedOriginals(o, l.path, l.file.rows), path) <==> HasList(o, path)
    ensures forall u: Str :: OrigKey(path, u) in SeedOriginals(o, l.path, l.file.rows) <==> OrigKey(path, u) in o
  {
    forall k: OrigKey | k.list == path ensures k in SeedOriginals(o, l.path, l.file.rows) <==> k in o {
      FirstRecordWins(o, l.path, l.file.rows, k);
    }
    forall u: Str ensures OrigKey(path, u) in SeedOriginals(o, l.path, l.file.rows) <==> OrigKey(path, u) in o {
      assert OrigKey(path, u).list == path;
    }
  }

  /** A list with any original is not read again. */
  lemma {:induction false} HalfListStays(s: Store, teams: seq<nat>, lists: seq<Credlist>, path: Str)
    requires HasList(s.originals, path)
    ensures var p := SeedNewLists(s, teams, lists);
            HasList(p.store.originals, path) && forall u: Str :: OrigKey(path, u) in p.store.originals <==> OrigKey(path, u) in s.originals
  {
    if lists != [] {
      var n := |lists| - 1;
      HalfListStays(s, teams, lists[..n], path);
      var p, l := SeedNewLists(s, teams, lists[..n]), lists[n];
      if p.ok && !HasList(p.store.originals, l.path) && l.file.Records? {
        OtherListStays(p.store.originals, l, path);
      }
    }
  }

  lemma {:induction false} ListsGrow(s: Store, teams: seq<nat>, lists: seq<Credlist>)
    ensures Extends(s.originals, SeedNewLists(s, teams, lists).store.originals)
  {
    if lists != [] {
      var n := |lists| - 1;
      ListsGrow(s, teams, lists[..n]);
      var p, l := SeedNewLists(s, teams, lists[..n]), lists[n];
      if p.ok && !HasList(p.store.originals, l.path) && l.file.Records? {
        SeedOriginalsExtends(p.store.originals, l.path, l.file.rows);
      }
    }
  }

  /** What a pass has come to for a list that is new to the store: met or with
      any original, it is read whole. */
  predicate MetIsRead(o: map<OrigKey, Str>, lists: seq<Credlist>, l: Credlist)
    requires l.file.Records?
  {
    l in lists || HasList(o, l.path) ==> Read(o, l)
  }

  lemma OtherListMet(o: map<OrigKey, Str>, lists: seq<Credlist>, x: Credlist, l: Credlist)
    requires l.file.Records? && x.file.Records? && x.path != l.path && MetIsRead(o, lists, l)
    ensures MetIsRead(SeedOriginals(o, x.path, x.file.rows), lists + [x], l)
  {
    OtherListStays(o, x, l.path);
    SeedOriginalsExtends(o, x.path, x.file.rows);
    if l in lists || HasList(o, l.path) { ReadStays(o, SeedOriginals(o, x.path, x.file.rows), l); }
  }

  /** One more list of a pass. */
  lemma NewListStep(s: Store, teams: seq<nat>, lists: seq<Credlist>, x: Credlist, l: Credlist)
    requires (x.path == l.path ==> x == l) && l.file.Records?
    requires SeedNewLists(s, teams, lists).ok && MetIsRead(SeedNewLists(s, teams, lists).store.originals, lists, l)
    requires HasList(SeedNewLists(s, teams, lists).store.originals, x.path) || x.file.Records?
    ensures var o := SeedNewLists(s, teams, lists).store.originals;
            MetIsRead(if HasList(o, x.path) then o else SeedOriginals(o, x.path, x.file.rows), lists + [x], l)
  {
    var o := SeedNewLists(s, teams, lists).store.originals;
    if !HasList(o, x.path) {
      if x.path == l.path { ReadNow(o, l); } else { OtherListMet(o, lists, x, l); }
    }
  }

  lemma {:induction false} NewListIsRead(s: Store, teams: seq<nat>, lists: seq<Credlist>, l: Credlist)
    requires (forall x | x in lists :: x.path == l.path ==> x == l)
    requires l.file.Records? && !HasList(s.originals, l.path) && SeedNewLists(s, teams, lists).ok
    ensures MetIsRead(SeedNewLists(s, teams, lists).store.originals, lists, l)
  {
    if lists != [] {
      var front, x := lists[..|lists| - 1], lists[|lists| - 1];
      assert forall y | y in front :: y in lists;
      assert x in lists;
      NewListIsRead(s, teams, front, l);
      NewListStep(s, teams, front, x, l);
      assert lists == front + [x];
    }
  }

  lemma {:induction false} FilesAreRead(s: Store, lists: seq<Credlist>, l: Credlist)
    requires SeedFiles(s, lists).ok && l in lists && l.file.Records?
    ensures Read(SeedFiles(s, lists).store.originals, l)
  {
    var n := |lists| - 1;
    var o, x := SeedFiles(s, lists[..n]).store.originals, lists[n];
    SeedOriginalsExtends(o, x.path, x.file.rows);
    if x == l {
      ReadNow(o, l);
    } else {
      assert lists == lists[..n] + [x];
      FilesAreRead(s, lists[..n], l);
    }
  }

  /** Exactly when a startup that gets to its end leaves a list with all its
      file's users: when nothing of it had been read, or all. */
  lemma ListReadIff(s: Store, teams: seq<nat>, lists: seq<Credlist>, l: Credlist)
    requires OneFileEach(lists) && l in lists && l.file.Records? && Startup(s, teams, lists).ok
    ensures Read(Startup(s, teams, lists).store.originals, l) <==> !HasList(s.originals, l.path) || Read(s.originals, l)
  {
    if s.originals == map[] {
      FilesAreRead(s, lists, l);
    } else {
      var s1 := s.(creds := SeedNewTeams(s.creds, s.originals, teams));
      if HasList(s.originals, l.path) {
        HalfListStays(s1, teams, lists, l.path);
      } else {
        NewListIsRead(s1, teams, lists, l);
      }
    }
  }

  // ----------------------------------------------------------- how far it gets

  lemma {:induction false} FilesOkIff(s: Store, lists: seq<Credlist>)
    ensures SeedFiles(s, lists).ok <==> forall l | l in lists :: l.file.Records?
  {
    if lists != [] {
      var n := |lists| - 1;
      FilesOkIff(s, lists[..n]);
      assert lists == lists[..n] + [lists[n]];
    }
  }

  /** Nothing is read from the first unreadable file on. */
  lemma {:induction false} FilesStopAt(s: Store, lists: seq<Credlist>, n: nat)
    requires n < |lists| && lists[n].file.Unreadable? && forall i | 0 <= i < n :: lists[i].file.Records?
    ensures SeedFiles(s, lists) == Seeding(SeedFiles(s, lists[..n]).store, false)
  {
    var last := |lists| - 1;
    if n < last {
      FilesStopAt(s, lists[..last], n);
      assert lists[..last][..n] == lists[..n];
    } else {
      FilesOkIff(s, lists[..n]);
    }
  }

  lemma StoppedStays(s: Store, teams: seq<nat>, lists: seq<Credlist>)
    requires lists != [] && !SeedNewLists(s, teams, lists[..|lists| - 1]).ok
    ensures SeedNewLists(s, teams, lists) == SeedNewLists(s, teams, lists[..|lists| - 1])
  {
  }

  lemma StopsHere(s: Store, teams: seq<nat>, lists: seq<Credlist>)
    requires lists != [] && lists[|lists| - 1].file.Unreadable?
    requires var p := SeedNewLists(s, teams, lists[..|lists| - 1]); p.ok && !HasList(p.store.originals, lists[|lists| - 1].path)
    ensures SeedNewLists(s, teams, lists) == Seeding(SeedNewLists(s, teams, lists[..|lists| - 1]).store, false)
  {
  }

  lemma ShorterPass(lists: seq<Credlist>, n: nat)
    requires n < |lists|
    ensures lists[..|lists| - 1][..n] == lists[..n]
  {
  }

  lemma {:induction false} NewListsStopAt(s: Store, teams: seq<nat>, lists: seq<Credlist>, n: nat)
    requires n < |lists| && SeedNewLists(s, teams, lists[..n]).ok
    requires lists[n].file.Unreadable? && !HasList(SeedNewLists(s, teams, lists[..n]).store.originals, lists[n].path)
    ensures SeedNewLists(s, teams, lists) == Seeding(SeedNewLists(s, teams, lists[..n]).store, false)
  {
    if n < |lists| - 1 {
      ShorterPass(lists, n);
      NewListsStopAt(s, teams, lists[..|lists| - 1], n);
      StoppedStays(s, teams, lists);
    } else {
      StopsHere(s, teams, lists);
    }
  }

  lemma LastListGains(s: Store, teams: seq<nat>, lists: seq<Credlist>, path: Str)
    requires lists != [] && (lists[|lists| - 1].path == path ==> lists[|lists| - 1].file.Unreadable?)
    ensures HasList(SeedNewLists(s, teams, lists).store.originals, path) <==>
            HasList(SeedNewLists(s, teams, lists[..|lists| - 1]).store.originals, path)
  {
    var p, l := SeedNewLists(s, teams, lists[..|lists| - 1]), lists[|lists| - 1];
    if p.ok && !HasList(p.store.originals, l.path) && l.file.Records? { OtherListStays(p.store.originals, l, path); }
  }

  lemma {:induction false} UnreadableGainsNothing(s: Store, teams: seq<nat>, lists: seq<Credlist>, path: Str)
    requires forall l | l in lists && l.path == path :: l.file.Unreadable?
    ensures HasList(SeedNewLists(s, teams, lists).store.originals, path) <==> HasList(s.originals, path)
  {
    if lists != [] {
      assert lists[|lists| - 1] in lists && forall x | x in lists[..|lists| - 1] :: x in lists;
      UnreadableGainsNothing(s, teams, lists[..|lists| - 1], path);
      LastListGains(s, teams, lists, path);
    }
  }

  lemma {:induction false} NewListsOkIff(s: Store, teams: seq<nat>, lists: seq<Credlist>)
    requires OneFileEach(lists)
    ensures SeedNewLists(s, teams, lists).ok <==> forall l | l in lists :: HasList(s.originals, l.path) || l.file.Records?
  {
    if lists != [] {
      var front, l := lists[..|lists| - 1], lists[|lists| - 1];
      assert lists == front + [l];
      NewListsOkIff(s, teams, front);
      ListsGrow(s, teams, front);
      if l.file.Unreadable? { UnreadableGainsNothing(s, teams, front, l.path); }
    }
  }

  /** Exactly when a startup gets to its end: when every file it needs can be
      read, the first time all of them, later those of the lists that are new. */
  lemma StartupOkIff(s: Store, teams: seq<nat>, lists: seq<Credlist>)
    requires OneFileEach(lists)
    ensures Startup(s, teams, lists).ok <==>
            forall l | l in lists :: l.file.Records? || (s.originals != map[] && HasList(s.originals, l.path))
  {
    if s.originals == map[] {
      FilesOkIff(s, lists);
    } else {
      NewListsOkIff(s.(creds := SeedNewTeams(s.creds, s.originals, teams)), teams, lists);
    }
  }

  /** A first startup that does not get there gives no team anything. */
  lemma StoppedFirstStartup(s: Store, teams: seq<nat>, lists: seq<Credlist>)
    requires s.originals == map[] && !Startup(s, teams, lists).ok
    ensures Startup(s, teams, lists).store.creds == s.creds && Startup(s, teams, lists).store.history == s.history
  {
    FilesGrowOriginals(s, lists);
  }

  // ------------------------------------------------------------- a case of each

  const SECOND: Str := [118]

  /** A list of two users. */
  function TwoUsers(): Credlist { Credlist(LIST, Records([[USER, OLD], [SECOND, OLD]])) }

  function TwoOriginals(): map<OrigKey, Str> { map[OrigKey(LIST, USER) := OLD, OrigKey(LIST, SECOND) := OLD] }

  lemma TwoRecords()
    ensures SeedOriginals(map[], LIST, TwoUsers().file.rows) == TwoOriginals()
    ensures SeedOriginals(map[], LIST, TwoUsers().file.rows[..1]) == OneOriginal()
  {
    var rows := TwoUsers().file.rows;
    assert rows[..1] == [[USER, OLD]];
    OneRecord();
    assert rows[1][0] == SECOND && SECOND != USER;
  }

  lemma Partial(s: Store, k: CredKey, q: OrigKey)
    requires k in s.creds && q in s.originals && CredKey(k.team, q.list, q.user) !in s.creds
    ensures !AllOrNone(s)
  {
  }

  lemma OneRowOfTwo(s: Store)
    requires s == EMPTY.(originals := TwoOriginals(), creds := SeedTeamUpTo(map[], TwoOriginals(), 1, {OrigKey(LIST, USER)}))
    ensures Rooted(s, [1]) && !AllOrNone(s)
  {
    var second := CredKey(1, LIST, SECOND);
    assert USER[0] != SECOND[0];
    StoppedTeamIsRooted(EMPTY.(originals := TwoOriginals()), [1], 1, {OrigKey(LIST, USER)});
    InSeedTeamUpTo(map[], TwoOriginals(), 1, {OrigKey(LIST, USER)}, ROW);
    InSeedTeamUpTo(map[], TwoOriginals(), 1, {OrigKey(LIST, USER)}, second);
    Partial(s, ROW, OrigKey(LIST, SECOND));
  }

  lemma NoneIsNew(s: Store, l: Credlist)
    requires HasList(s.originals, l.path) && s.originals != map[]
    ensures Startup(s, [1], [l]).ok && !NewList(s.originals, [l])
  {
    NoNewList(s.(creds := SeedNewTeams(s.creds, s.originals, [1])), [1], [l]);
  }

  lemma HasListOf(o: map<OrigKey, Str>, k: OrigKey)
    requires k in o
    ensures HasList(o, k.list) && o != map[]
  {
  }

  /** The write of team 1's second row fails; every later startup succeeds and
      leaves the team without it. */
  lemma PartialTeamIsForGood() returns (s: Store)
    ensures s == EMPTY.(originals := TwoOriginals(), creds := SeedTeamUpTo(map[], TwoOriginals(), 1, {OrigKey(LIST, USER)}))
    ensures Startup(s, [1], [TwoUsers()]).ok && !Complete(Startup(s, [1], [TwoUsers()]).store, [1])
  {
    s := EMPTY.(originals := TwoOriginals(), creds := SeedTeamUpTo(map[], TwoOriginals(), 1, {OrigKey(LIST, USER)}));
    OneRowOfTwo(s);
    HasListOf(s.originals, OrigKey(LIST, USER));
    NoneIsNew(s, TwoUsers());
    CompleteAgainIff(s, [1], [TwoUsers()]);
  }

  /** The write of a list's second record fails; every later startup succeeds and
      leaves the list without it. */
  lemma HalfListIsForGood() returns (s: Store)
    ensures s == EMPTY.(originals := SeedOriginals(map[], LIST, TwoUsers().file.rows[..1]))
    ensures Startup(s, [1], [TwoUsers()]).ok && !Read(Startup(s, [1], [TwoUsers()]).store.originals, TwoUsers())
  {
    TwoRecords();
    s := EMPTY.(originals := OneOriginal());
    HasListOf(s.originals, OrigKey(LIST, USER));
    NoneIsNew(s, TwoUsers());
    assert !Read(s.originals, TwoUsers()) by {
      var r := TwoUsers().file.rows[1];
      assert r in TwoUsers().file.rows && IsRow(r) && OrigKey(LIST, r[0]) !in s.originals;
    }
    ListReadIff(s, [1], [TwoUsers()], TwoUsers());
  }
}
