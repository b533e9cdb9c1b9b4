/** The credential tables: originals, each team's current passwords, and the
    history of changes. A table with a unique key is a map; the order in which
    a query returns its rows is a parameter where it can matter. */
module Credentials {
  import opened Utf8

  datatype OrigKey = OrigKey(list: Str, user: Str)
  datatype CredKey = CredKey(team: nat, list: Str, user: Str)

  /** A row of the history. */
  datatype Change = Change(key: CredKey, before: Str, after: Str, who: string)

  datatype Store = Store(originals: map<OrigKey, Str>, creds: map<CredKey, Str>, history: seq<Change>)

  const EMPTY := Store(map[], map[], [])

  function Orig(k: CredKey): OrigKey { OrigKey(k.list, k.user) }

  /** A configured list: its path, and its file's records if it can be read. */
  datatype File = Unreadable | Records(rows: seq<seq<Str>>)
  datatype Credlist = Credlist(path: Str, file: File)

  // ------------------------------------------------------------------- seeding

  predicate IsRow(r: seq<Str>) { |r| == 2 }

  /** FirstOrCreate for each record with two fields. */
  function SeedOriginals(o: map<OrigKey, Str>, list: Str, rows: seq<seq<Str>>): map<OrigKey, Str> {
    if rows == [] then o
    else
      var o1 := SeedOriginals(o, list, rows[..|rows| - 1]);
      var r := rows[|rows| - 1];
      if IsRow(r) && OrigKey(list, r[0]) !in o1 then o1[OrigKey(list, r[0]) := r[1]] else o1
  }

  /** The originals as one team's credentials. */
  function TeamCopy(o: map<OrigKey, Str>, team: nat): map<CredKey, Str> {
    map k | k in o.Keys :: CredKey(team, k.list, k.user) := o[k]
  }

  /** Rows that exist stay as they are. */
  function SeedTeam(c: map<CredKey, Str>, o: map<OrigKey, Str>, team: nat): map<CredKey, Str> {
    TeamCopy(o, team) + c
  }

  function SeedTeams(c: map<CredKey, Str>, o: map<OrigKey, Str>, teams: seq<nat>): map<CredKey, Str> {
    if teams == [] then c
    else SeedTeam(SeedTeams(c, o, teams[..|teams| - 1]), o, teams[|teams| - 1])
  }

  predicate HasCreds(c: map<CredKey, Str>, team: nat) { exists k | k in c :: k.team == team }

  predicate HasList(o: map<OrigKey, Str>, list: Str) { exists k | k in o :: k.list == list }

  /** Only teams without any credential are seeded. */
  function SeedNewTeams(c: map<CredKey, Str>, o: map<OrigKey, Str>, teams: seq<nat>): map<CredKey, Str> {
    if teams == [] then c
    else
      var c1 := SeedNewTeams(c, o, teams[..|teams| - 1]);
      var t := teams[|teams| - 1];
      if HasCreds(c1, t) then c1 else SeedTeam(c1, o, t)
  }

  /** How far the lists were read: all of them, or up to one that cannot be. */
  datatype Seeding = Seeding(store: Store, ok: bool)

  /** The first startup's pass over the files. */
  function SeedFiles(s: Store, lists: seq<Credlist>): Seeding {
    if lists == [] then Seeding(s, true)
    else
      var p := SeedFiles(s, lists[..|lists| - 1]);
      var l := lists[|lists| - 1];
      if !p.ok then p
      else if l.file.Unreadable? then Seeding(p.store, false)
      else Seeding(p.store.(originals := SeedOriginals(p.store.originals, l.path, l.file.rows)), true)
  }

  /** A later startup's pass: a list without originals is read, and every team
      gets what it adds. */
  function SeedNewLists(s: Store, teams: seq<nat>, lists: seq<Credlist>): Seeding {
    if lists == [] then Seeding(s, true)
    else
      var p := SeedNewLists(s, teams, lists[..|lists| - 1]);
      var l := lists[|lists| - 1];
      if !p.ok || HasList(p.store.originals, l.path) then p
      else if l.file.Unreadable? then Seeding(p.store, false)
      else
        var o := SeedOriginals(p.store.originals, l.path, l.file.rows);
        Seeding(p.store.(originals := o, creds := SeedTeams(p.store.creds, o, teams)), true)
  }

  function Startup(s: Store, teams: seq<nat>, lists: seq<Credlist>): Seeding {
    if s.originals == map[] then
      var p := SeedFiles(s, lists);
      if !p.ok then p
      else Seeding(p.store.(creds := SeedTeams(p.store.creds, p.store.originals, teams)), true)
    else
      SeedNewLists(s.(creds := SeedNewTeams(s.creds, s.originals, teams)), teams, lists)
  }

  // ------------------------------------------------------------------- changes

  function ChangeOne(s: Store, k: CredKey, password: Str, who: string): Store {
    if k !in s.creds then s
    else s.(creds := s.creds[k := password], history := s.history + [Change(k, s.creds[k], password, who)])
  }

  function ChangeAll(s: Store, team: nat, list: Str, users: seq<Str>, passwords: seq<Str>, who: string): Store
    requires |users| == |passwords|
  {
    if users == [] then s
    else
      var n := |users| - 1;
      ChangeOne(ChangeAll(s, team, list, users[..n], passwords[..n], who), CredKey(team, list, users[n]), passwords[n], who)
  }

  /** The users of a team's list, each once, in the order a query returns them. */
  ghost predicate Lists(users: seq<Str>, c: map<CredKey, Str>, team: nat, list: Str) {
    && (forall i, j | 0 <= i < j < |users| :: users[i] != users[j])
    && (forall u :: u in users <==> CredKey(team, list, u) in c)
  }

  /** A reset changes each user with an original back to it. */
  function ResetAll(s: Store, team: nat, list: Str, users: seq<Str>, who: string): Store {
    if users == [] then s
    else
      var n := |users| - 1;
      var s1 := ResetAll(s, team, list, users[..n], who);
      if OrigKey(list, users[n]) in s.originals
      then ChangeOne(s1, CredKey(team, list, users[n]), s.originals[OrigKey(list, users[n])], who)
      else s1
  }

  // ---------------------------------------------------------- seeding, by what
  // it gives

  /** The first record of a user. */
  function FirstRow(rows: seq<seq<Str>>, user: Str): (i: nat)
    requires exists r | r in rows :: IsRow(r) && r[0] == user
    ensures i < |rows| && IsRow(rows[i]) && rows[i][0] == user
    ensures forall j | 0 <= j < i :: !(IsRow(rows[j]) && rows[j][0] == user)
  {
    if IsRow(rows[0]) && rows[0][0] == user then 0 else FirstRow(rows[1..], user) + 1
  }

  predicate Named(rows: seq<seq<Str>>, user: Str) { exists r | r in rows :: IsRow(r) && r[0] == user }

  lemma NamedStep(front: seq<seq<Str>>, r: seq<Str>, user: Str)
    ensures Named(front + [r], user) <==> Named(front, user) || (IsRow(r) && r[0] == user)
  {
    assert forall x :: x in front + [r] <==> x in front || x == r;
  }

  /** A record added at the end is first only when the user was not named. */
  lemma FirstRowStep(front: seq<seq<Str>>, r: seq<Str>, user: Str)
    requires Named(front + [r], user)
    ensures FirstRow(front + [r], user) == if Named(front, user) then FirstRow(front, user) else |front|
  {
    var rows := front + [r];
    forall m | 0 <= m < |front| ensures rows[m] == front[m] && front[m] in front { }
    if Named(front, user) {
      var j := FirstRow(front, user);
      assert rows[j] == front[j];
    } else {
      forall m | 0 <= m < |front| ensures !(IsRow(rows[m]) && rows[m][0] == user) {
        assert front[m] in front;
      }
    }
  }

  /** Originals that exist are kept; a new user gets its first record; nothing
      else appears. */
  lemma {:induction false} FirstRecordWins(o: map<OrigKey, Str>, list: Str, rows: seq<seq<Str>>, k: OrigKey)
    ensures k in SeedOriginals(o, list, rows) <==> k in o || (k.list == list && Named(rows, k.user))
    ensures k in o ==> SeedOriginals(o, list, rows)[k] == o[k]
    ensures k !in o && k.list == list && Named(rows, k.user) ==>
            SeedOriginals(o, list, rows)[k] == rows[FirstRow(rows, k.user)][1]
  {
    if rows != [] {
      var front, r := rows[..|rows| - 1], rows[|rows| - 1];
      FirstRecordWins(o, list, front, k);
      assert rows == front + [r];
      NamedStep(front, r, k.user);
      if Named(rows, k.user) { FirstRowStep(front, r, k.user); }
    }
  }

  /** A record of any other number of fields than two is passed over. */
  lemma OddRecordIsSkipped(o: map<OrigKey, Str>, list: Str, rows: seq<seq<Str>>, r: seq<Str>)
    requires |r| != 2
    ensures SeedOriginals(o, list, rows + [r]) == SeedOriginals(o, list, rows)
  {
    assert (rows + [r])[..|rows|] == rows;
  }

  /** One of two fields is entered if its user has no original yet. */
  lemma RecordIsEntered(o: map<OrigKey, Str>, list: Str, rows: seq<seq<Str>>, user: Str, password: Str)
    ensures var before := SeedOriginals(o, list, rows);
            SeedOriginals(o, list, rows + [[user, password]]) ==
            if OrigKey(list, user) in before then before else before[OrigKey(list, user) := password]
  {
    assert (rows + [[user, password]])[..|rows|] == rows;
  }

  /** Growth: nothing there is touched. */
  ghost predicate Extends<K, V>(a: map<K, V>, b: map<K, V>) {
    forall k | k in a :: k in b && b[k] == a[k]
  }

  lemma SeedOriginalsExtends(o: map<OrigKey, Str>, list: Str, rows: seq<seq<Str>>)
    ensures Extends(o, SeedOriginals(o, list, rows))
  {
    forall k | k in o ensures k in SeedOriginals(o, list, rows) && SeedOriginals(o, list, rows)[k] == o[k] {
      FirstRecordWins(o, list, rows, k);
    }
  }

  lemma InCopy(o: map<OrigKey, Str>, team: nat, k: CredKey)
    ensures k in TeamCopy(o, team) <==> k.team == team && Orig(k) in o
    ensures k in TeamCopy(o, team) ==> TeamCopy(o, team)[k] == o[Orig(k)]
  {
    if k.team == team && Orig(k) in o {
      assert CredKey(team, Orig(k).list, Orig(k).user) == k;
      assert k in TeamCopy(o, team);
    }
  }

  lemma InSeedTeam(c: map<CredKey, Str>, o: map<OrigKey, Str>, team: nat, k: CredKey)
    ensures k in SeedTeam(c, o, team) <==> k in c || (k.team == team && Orig(k) in o)
    ensures k in SeedTeam(c, o, team) ==> SeedTeam(c, o, team)[k] == if k in c then c[k] else o[Orig(k)]
  {
    InCopy(o, team, k);
  }

  lemma {:induction false} InSeedTeams(c: map<CredKey, Str>, o: map<OrigKey, Str>, teams: seq<nat>, k: CredKey)
    ensures k in SeedTeams(c, o, teams) <==> k in c || (k.team in teams && Orig(k) in o)
    ensures k in SeedTeams(c, o, teams) ==> SeedTeams(c, o, teams)[k] == if k in c then c[k] else o[Orig(k)]
  {
    if teams != [] {
      var n := |teams| - 1;
      InSeedTeams(c, o, teams[..n], k);
      InSeedTeam(SeedTeams(c, o, teams[..n]), o, teams[n], k);
      assert teams == teams[..n] + [teams[n]];
    }
  }

  /** A team's credentials are all of the originals', or none at all. */
  ghost predicate AllOrNone(s: Store) {
    && (forall k | k in s.creds :: Orig(k) in s.originals)
    && (forall k, q | k in s.creds && q in s.originals :: CredKey(k.team, q.list, q.user) in s.creds)
  }

  ghost predicate TeamsKnown(s: Store, teams: seq<nat>) { forall k | k in s.creds :: k.team in teams }

  /** Every team has exactly the originals' users. */
  ghost predicate Complete(s: Store, teams: seq<nat>) {
    forall k: CredKey :: k in s.creds <==> k.team in teams && Orig(k) in s.originals
  }

  lemma {:induction false} InSeedNewTeams(c: map<CredKey, Str>, o: map<OrigKey, Str>, teams: seq<nat>, k: CredKey)
    ensures k in SeedNewTeams(c, o, teams) <==> k in c || (k.team in teams && !HasCreds(c, k.team) && Orig(k) in o)
    ensures k in SeedNewTeams(c, o, teams) ==> SeedNewTeams(c, o, teams)[k] == if k in c then c[k] else o[Orig(k)]
    decreases teams
  {
    if teams != [] {
      var n := |teams| - 1;
      var c1, t := SeedNewTeams(c, o, teams[..n]), teams[n];
      assert teams == teams[..n] + [t];
      InSeedNewTeams(c, o, teams[..n], k);
      InSeedTeam(c1, o, t, k);
      if HasCreds(c1, t) && k.team == t && k !in c1 {
        var q :| q in c1 && q.team == t;
        InSeedNewTeams(c, o, teams[..n], q);
        if q !in c { assert t in teams[..n]; }
      }
      if HasCreds(c, t) {
        var q :| q in c && q.team == t;
        InSeedNewTeams(c, o, teams[..n], q);
      }
    }
  }

  /** What every pass over the lists keeps, and what it promises when it gets to
      the end. */
  lemma {:induction false} FilesGrowOriginals(s: Store, lists: seq<Credlist>)
    ensures var p := SeedFiles(s, lists);
            p.store.creds == s.creds && p.store.history == s.history && Extends(s.originals, p.store.originals)
  {
    if lists != [] {
      var n := |lists| - 1;
      FilesGrowOriginals(s, lists[..n]);
      var p := SeedFiles(s, lists[..n]);
      if p.ok && lists[n].file.Records? {
        SeedOriginalsExtends(p.store.originals, lists[n].path, lists[n].file.rows);
      }
    }
  }

  lemma {:induction false} NewListsKeep(s: Store, teams: seq<nat>, lists: seq<Credlist>)
    requires Complete(s, teams)
    ensures var p := SeedNewLists(s, teams, lists);
            && Complete(p.store, teams)
            && p.store.history == s.history
            && Extends(s.originals, p.store.originals)
            && Extends(s.creds, p.store.creds)
            && (forall k | k in p.store.creds && k !in s.creds :: p.store.creds[k] == p.store.originals[Orig(k)])
  {
    if lists != [] {
      var n := |lists| - 1;
      NewListsKeep(s, teams, lists[..n]);
      var p := SeedNewLists(s, teams, lists[..n]);
      var l := lists[n];
      if p.ok && !HasList(p.store.originals, l.path) && l.file.Records? {
        NewListKeeps(s, p.store, teams, l);
      }
    }
  }

  lemma NewListKeeps(s: Store, s1: Store, teams: seq<nat>, l: Credlist)
    requires Complete(s1, teams) && l.file.Records?
    requires Extends(s.originals, s1.originals) && Extends(s.creds, s1.creds)
    requires forall k | k in s1.creds && k !in s.creds :: s1.creds[k] == s1.originals[Orig(k)]
    ensures var o := SeedOriginals(s1.originals, l.path, l.file.rows);
            var s2 := s1.(originals := o, creds := SeedTeams(s1.creds, o, teams));
            && Complete(s2, teams)
            && Extends(s.originals, s2.originals)
            && Extends(s.creds, s2.creds)
            && (forall k | k in s2.creds && k !in s.creds :: s2.creds[k] == s2.originals[Orig(k)])
  {
    var o := SeedOriginals(s1.originals, l.path, l.file.rows);
    SeedOriginalsExtends(s1.originals, l.path, l.file.rows);
    forall k: CredKey
      ensures k in SeedTeams(s1.creds, o, teams) <==> k in s1.creds || (k.team in teams && Orig(k) in o)
      ensures k in SeedTeams(s1.creds, o, teams) ==>
              SeedTeams(s1.creds, o, teams)[k] == if k in s1.creds then s1.creds[k] else o[Orig(k)]
    {
      InSeedTeams(s1.creds, o, teams, k);
    }
  }

  lemma NewTeamsComplete(s: Store, teams: seq<nat>)
    requires AllOrNone(s) && TeamsKnown(s, teams)
    ensures Complete(s.(creds := SeedNewTeams(s.creds, s.originals, teams)), teams)
  {
    var c := SeedNewTeams(s.creds, s.originals, teams);
    forall k: CredKey ensures k in c <==> k.team in teams && Orig(k) in s.originals {
      InSeedNewTeams(s.creds, s.originals, teams, k);
      if HasCreds(s.creds, k.team) && Orig(k) in s.originals {
        var q :| q in s.creds && q.team == k.team;
        assert CredKey(q.team, Orig(k).list, Orig(k).user) in s.creds;
      }
    }
  }

  lemma NewTeamsGrow(s: Store, teams: seq<nat>)
    ensures Extends(s.creds, SeedNewTeams(s.creds, s.originals, teams))
    ensures forall k | k in SeedNewTeams(s.creds, s.originals, teams) && k !in s.creds ::
              Orig(k) in s.originals && SeedNewTeams(s.creds, s.originals, teams)[k] == s.originals[Orig(k)]
  {
    forall k: CredKey
      ensures k in s.creds ==> k in SeedNewTeams(s.creds, s.originals, teams) && SeedNewTeams(s.creds, s.originals, teams)[k] == s.creds[k]
      ensures k in SeedNewTeams(s.creds, s.originals, teams) && k !in s.creds ==>
              Orig(k) in s.originals && SeedNewTeams(s.creds, s.originals, teams)[k] == s.originals[Orig(k)]
    {
      InSeedNewTeams(s.creds, s.originals, teams, k);
    }
  }

  /** Every startup, even one stopped by an unreadable file: no password is
      overwritten, no original changes, new rows start at their originals, and
      when it gets to the end every team has exactly the originals' users. */
  lemma StartupSeeds(s: Store, teams: seq<nat>, lists: seq<Credlist>)
    requires AllOrNone(s) && TeamsKnown(s, teams)
    ensures var p := Startup(s, teams, lists);
            && AllOrNone(p.store) && TeamsKnown(p.store, teams)
            && (p.ok ==> Complete(p.store, teams))
            && p.store.history == s.history
            && Extends(s.originals, p.store.originals) && Extends(s.creds, p.store.creds)
            && (forall k | k in p.store.creds && k !in s.creds :: p.store.creds[k] == p.store.originals[Orig(k)])
  {
    if s.originals == map[] {
      FilesGrowOriginals(s, lists);
      var f := SeedFiles(s, lists);
      assert s.creds == map[] by { assert forall k | k in s.creds :: Orig(k) in s.originals; }
      forall k: CredKey
        ensures k in SeedTeams(map[], f.store.originals, teams) <==> k.team in teams && Orig(k) in f.store.originals
        ensures k in SeedTeams(map[], f.store.originals, teams) ==>
                SeedTeams(map[], f.store.originals, teams)[k] == f.store.originals[Orig(k)]
      {
        InSeedTeams(map[], f.store.originals, teams, k);
      }
    } else {
      var s1 := s.(creds := SeedNewTeams(s.creds, s.originals, teams));
      NewTeamsComplete(s, teams);
      NewTeamsGrow(s, teams);
      NewListsKeep(s1, teams, lists);
    }
  }

  // ------------------------------------------------- a startup that found nothing

  predicate Settled(o: map<OrigKey, Str>, l: Credlist) {
    HasList(o, l.path) || (l.file.Records? && forall r | r in l.file.rows :: !IsRow(r))
  }

  lemma {:induction false} NoRecords(o: map<OrigKey, Str>, list: Str, rows: seq<seq<Str>>)
    requires forall r | r in rows :: !IsRow(r)
    ensures SeedOriginals(o, list, rows) == o
  {
    if rows != [] {
      assert rows == rows[..|rows| - 1] + [rows[|rows| - 1]];
      NoRecords(o, list, rows[..|rows| - 1]);
    }
  }

  lemma ReadIsSettled(o: map<OrigKey, Str>, l: Credlist)
    requires l.file.Records?
    ensures Settled(SeedOriginals(o, l.path, l.file.rows), l)
  {
    if r :| r in l.file.rows && IsRow(r) {
      FirstRecordWins(o, l.path, l.file.rows, OrigKey(l.path, r[0]));
    }
  }

  lemma SettledStays(o: map<OrigKey, Str>, o': map<OrigKey, Str>, lists: seq<Credlist>)
    requires Extends(o, o') && forall l | l in lists :: Settled(o, l)
    ensures forall l | l in lists :: Settled(o', l)
  {
  }

  lemma {:induction false} FilesSettle(s: Store, lists: seq<Credlist>)
    requires SeedFiles(s, lists).ok
    ensures forall l | l in lists :: Settled(SeedFiles(s, lists).store.originals, l)
  {
    if lists != [] {
      var n := |lists| - 1;
      var l, o := lists[n], SeedFiles(s, lists[..n]).store.originals;
      FilesSettle(s, lists[..n]);
      ReadIsSettled(o, l);
      SeedOriginalsExtends(o, l.path, l.file.rows);
      SettledStays(o, SeedFiles(s, lists).store.originals, lists[..n]);
      assert lists == lists[..n] + [l];
    }
  }

  lemma {:induction false} NewListsSettle(s: Store, teams: seq<nat>, lists: seq<Credlist>)
    requires SeedNewLists(s, teams, lists).ok
    ensures forall l | l in lists :: Settled(SeedNewLists(s, teams, lists).store.originals, l)
  {
    if lists != [] {
      var n := |lists| - 1;
      var l, o := lists[n], SeedNewLists(s, teams, lists[..n]).store.originals;
      NewListsSettle(s, teams, lists[..n]);
      if !HasList(o, l.path) {
        ReadIsSettled(o, l);
        SeedOriginalsExtends(o, l.path, l.file.rows);
      }
      SettledStays(o, SeedNewLists(s, teams, lists).store.originals, lists[..n]);
      assert lists == lists[..n] + [l];
    }
  }

  lemma {:induction false} SettledListsAddNothing(s: Store, teams: seq<nat>, lists: seq<Credlist>)
    requires Complete(s, teams) && forall l | l in lists :: Settled(s.originals, l)
    ensures SeedNewLists(s, teams, lists) == Seeding(s, true)
  {
    if lists != [] {
      var n := |lists| - 1;
      assert lists == lists[..n] + [lists[n]];
      SettledListsAddNothing(s, teams, lists[..n]);
      assert Settled(s.originals, lists[n]);
      if !HasList(s.originals, lists[n].path) {
        NoRecords(s.originals, lists[n].path, lists[n].file.rows);
        CompleteTeamsGainNothing(s, teams);
      }
    }
  }

  lemma CompleteTeamsGainNothing(s: Store, teams: seq<nat>)
    requires Complete(s, teams)
    ensures SeedTeams(s.creds, s.originals, teams) == s.creds
  {
    forall k: CredKey
      ensures k in SeedTeams(s.creds, s.originals, teams) <==> k in s.creds
      ensures k in s.creds ==> SeedTeams(s.creds, s.originals, teams)[k] == s.creds[k]
    {
      InSeedTeams(s.creds, s.originals, teams, k);
    }
  }

  lemma CompleteNewTeamsGainNothing(s: Store, teams: seq<nat>)
    requires Complete(s, teams)
    ensures SeedNewTeams(s.creds, s.originals, teams) == s.creds
  {
    forall k: CredKey
      ensures k in SeedNewTeams(s.creds, s.originals, teams) <==> k in s.creds
      ensures k in s.creds ==> SeedNewTeams(s.creds, s.originals, teams)[k] == s.creds[k]
    {
      InSeedNewTeams(s.creds, s.originals, teams, k);
    }
  }

  /** A second startup with the same teams and lists changes nothing. */
  lemma RestartSeedsNothing(s: Store, teams: seq<nat>, lists: seq<Credlist>)
    requires AllOrNone(s) && TeamsKnown(s, teams) && Startup(s, teams, lists).ok
    ensures Startup(Startup(s, teams, lists).store, teams, lists) == Startup(s, teams, lists)
  {
    var p := Startup(s, teams, lists);
    StartupSeeds(s, teams, lists);
    if p.store.originals == map[] {
      EmptyStays(s, p.store);
    } else {
      CompleteNewTeamsGainNothing(p.store, teams);
      if s.originals == map[] { FilesSettle(s, lists); }
      else { NewListsSettle(s.(creds := SeedNewTeams(s.creds, s.originals, teams)), teams, lists); }
      SettledListsAddNothing(p.store, teams, lists);
    }
  }

  lemma EmptyStays(s: Store, t: Store)
    requires AllOrNone(s) && AllOrNone(t) && t.originals == map[] && Extends(s.originals, t.originals) && s.history == t.history
    ensures s == t
  {
    assert s.originals == map[] by { assert forall k :: k !in s.originals; }
    assert s.creds == map[] by { assert forall k :: k !in s.creds; }
    assert t.creds == map[] by { assert forall k :: k !in t.creds; }
  }

  // ---------------------------------------------------------------- the audit

  /** What the table was before any change: its rows at their originals. */
  ghost function Seeded(s: Store): map<CredKey, Str>
    requires AllOrNone(s)
  {
    map k | k in s.creds :: s.originals[Orig(k)]
  }

  function Replay(base: map<CredKey, Str>, h: seq<Change>): map<CredKey, Str> {
    if h == [] then base else Replay(base, h[..|h| - 1])[h[|h| - 1].key := h[|h| - 1].after]
  }

  /** Each entry tells of a row there was and of its password then. */
  predicate Chained(base: map<CredKey, Str>, h: seq<Change>) {
    h == [] ||
    (var front, c := h[..|h| - 1], h[|h| - 1];
     Chained(base, front) && c.key in Replay(base, front) && c.before == Replay(base, front)[c.key])
  }

  ghost predicate Audited(s: Store) {
    AllOrNone(s) && Chained(Seeded(s), s.history) && s.creds == Replay(Seeded(s), s.history)
  }

  /** The last change of a key decides what replay gives it. */
  lemma {:induction false} ReplayIsLastChange(base: map<CredKey, Str>, h: seq<Change>, i: nat)
    requires i < |h| && forall j | i < j < |h| :: h[j].key != h[i].key
    ensures h[i].key in Replay(base, h) && Replay(base, h)[h[i].key] == h[i].after
  {
    var front := h[..|h| - 1];
    if i < |front| {
      assert forall j | 0 <= j < |front| :: front[j] == h[j];
      ReplayIsLastChange(base, front, i);
    }
  }

  lemma {:induction false} EntryTellsWhatItReplaced(base: map<CredKey, Str>, h: seq<Change>, i: nat)
    requires Chained(base, h) && i < |h|
    ensures h[i].key in Replay(base, h[..i]) && h[i].before == Replay(base, h[..i])[h[i].key]
  {
    var front := h[..|h| - 1];
    if i < |front| {
      EntryTellsWhatItReplaced(base, front, i);
      assert front[..i] == h[..i];
    }
  }

  /** An entry's old password is the new one of the entry before it for the same
      row, or the seeded one when there is none. */
  lemma OldPasswordIsPrevious(s: Store, i: nat)
    requires Audited(s) && i < |s.history|
    ensures forall j | 0 <= j < i && s.history[j].key == s.history[i].key && (forall m | j < m < i :: s.history[m].key != s.history[i].key) ::
              s.history[i].before == s.history[j].after
    ensures (forall j | 0 <= j < i :: s.history[j].key != s.history[i].key) ==>
            s.history[i].key in Seeded(s) && s.history[i].before == Seeded(s)[s.history[i].key]
  {
    var h, k := s.history[..i], s.history[i].key;
    EntryTellsWhatItReplaced(Seeded(s), s.history, i);
    forall j: nat | j < i && s.history[j].key == k && (forall m | j < m < i :: s.history[m].key != k)
      ensures s.history[i].before == s.history[j].after
    {
      assert forall m | 0 <= m < i :: h[m] == s.history[m];
      ReplayIsLastChange(Seeded(s), h, j);
    }
    if forall j | 0 <= j < i :: s.history[j].key != k {
      ReplayKeeps(Seeded(s), h, k);
    }
  }

  lemma {:induction false} ReplayKeeps(base: map<CredKey, Str>, h: seq<Change>, k: CredKey)
    requires forall c | c in h :: c.key != k
    ensures k in Replay(base, h) <==> k in base
    ensures k in base ==> Replay(base, h)[k] == base[k]
  {
    if h != [] {
      assert h == h[..|h| - 1] + [h[|h| - 1]];
      ReplayKeeps(base, h[..|h| - 1], k);
    }
  }

  /** A bigger table to begin with, the same history: the new rows stand by. */
  lemma {:induction false} ReplayBigger(a: map<CredKey, Str>, b: map<CredKey, Str>, h: seq<Change>)
    requires Extends(a, b) && Chained(a, h)
    ensures Chained(b, h) && Replay(a, h).Keys == a.Keys
    ensures forall k: CredKey :: k in Replay(b, h) <==> k in b
    ensures forall k: CredKey | k in b :: Replay(b, h)[k] == if k in a then Replay(a, h)[k] else b[k]
  {
    if h != [] { ReplayBigger(a, b, h[..|h| - 1]); }
  }

  lemma ReplayOne(base: map<CredKey, Str>, h: seq<Change>, c: Change)
    ensures Replay(base, h + [c]) == Replay(base, h)[c.key := c.after]
    ensures Chained(base, h + [c]) <==> Chained(base, h) && c.key in Replay(base, h) && c.before == Replay(base, h)[c.key]
  {
    assert (h + [c])[..|h|] == h;
  }

  lemma ChangeKeepsAudit(s: Store, k: CredKey, password: Str, who: string)
    requires Audited(s)
    ensures Audited(ChangeOne(s, k, password, who))
    ensures ChangeOne(s, k, password, who).creds.Keys == s.creds.Keys
    ensures ChangeOne(s, k, password, who).originals == s.originals
  {
    if k in s.creds {
      var s' := ChangeOne(s, k, password, who);
      assert s'.creds.Keys == s.creds.Keys;
      assert AllOrNone(s');
      assert Seeded(s') == Seeded(s);
      ReplayOne(Seeded(s), s.history, Change(k, s.creds[k], password, who));
    }
  }

  lemma {:induction false} ChangesKeepAudit(s: Store, team: nat, list: Str, users: seq<Str>, passwords: seq<Str>, who: string)
    requires Audited(s) && |users| == |passwords|
    ensures var s' := ChangeAll(s, team, list, users, passwords, who);
            Audited(s') && s'.creds.Keys == s.creds.Keys && s'.originals == s.originals
  {
    if users != [] {
      var n := |users| - 1;
      ChangesKeepAudit(s, team, list, users[..n], passwords[..n], who);
      ChangeKeepsAudit(ChangeAll(s, team, list, users[..n], passwords[..n], who), CredKey(team, list, users[n]), passwords[n], who);
    }
  }

  lemma {:induction false} ResetKeepsAudit(s: Store, team: nat, list: Str, users: seq<Str>, who: string)
    requires Audited(s)
    ensures var s' := ResetAll(s, team, list, users, who);
            Audited(s') && s'.creds.Keys == s.creds.Keys && s'.originals == s.originals
  {
    if users != [] {
      var n := |users| - 1;
      ResetKeepsAudit(s, team, list, users[..n], who);
      if OrigKey(list, users[n]) in s.originals {
        ChangeKeepsAudit(ResetAll(s, team, list, users[..n], who), CredKey(team, list, users[n]),
                         s.originals[OrigKey(list, users[n])], who);
      }
    }
  }

  lemma StartupKeepsAudit(s: Store, teams: seq<nat>, lists: seq<Credlist>)
    requires Audited(s) && TeamsKnown(s, teams)
    ensures Audited(Startup(s, teams, lists).store)
  {
    StartupSeeds(s, teams, lists);
    GrowthKeepsAudit(s, Startup(s, teams, lists).store);
  }

  lemma GrowthKeepsAudit(s: Store, t: Store)
    requires Audited(s) && AllOrNone(t) && t.history == s.history
    requires Extends(s.originals, t.originals) && Extends(s.creds, t.creds)
    requires forall k | k in t.creds && k !in s.creds :: t.creds[k] == t.originals[Orig(k)]
    ensures Audited(t)
  {
    SeededGrows(s, t);
    BiggerBase(s.creds, s.history, t.creds, Seeded(s), Seeded(t));
  }

  lemma SeededGrows(s: Store, t: Store)
    requires AllOrNone(s) && AllOrNone(t) && Extends(s.originals, t.originals) && Extends(s.creds, t.creds)
    ensures Extends(Seeded(s), Seeded(t))
  {
  }

  lemma BiggerBase(c: map<CredKey, Str>, h: seq<Change>, c': map<CredKey, Str>,
                   a: map<CredKey, Str>, b: map<CredKey, Str>)
    requires Chained(a, h) && c == Replay(a, h) && Extends(a, b) && Extends(c, c') && b.Keys == c'.Keys
    requires forall k | k in c' && k !in c :: c'[k] == b[k]
    ensures Chained(b, h) && c' == Replay(b, h)
  {
    ReplayBigger(a, b, h);
    SameMap(Replay(b, h), c', a, c, b);
  }

  lemma SameMap(r: map<CredKey, Str>, c: map<CredKey, Str>, a: map<CredKey, Str>, c0: map<CredKey, Str>, b: map<CredKey, Str>)
    requires a.Keys == c0.Keys && b.Keys == c.Keys == r.Keys && Extends(c0, c)
    requires forall k | k in b :: r[k] == if k in a then c0[k] else b[k]
    requires forall k | k in c && k !in c0 :: c[k] == b[k]
    ensures r == c
  {
  }

  // -------------------------------------------------------------------- whole runs

  /** newTeams: added to the teams table before this startup. users: the rows a
      reset's query returns, in its order. */
  datatype Event =
    | Started(newTeams: seq<nat>, lists: seq<Credlist>)
    | Changed(team: nat, list: Str, users: seq<Str>, passwords: seq<Str>, who: string)
    | WasReset(team: nat, list: Str, users: seq<Str>, who: string)

  datatype Site = Site(store: Store, teams: seq<nat>)

  ghost function Happen(w: Site, ev: Event): Site {
    match ev
    case Started(newTeams, lists) =>
      Site(Startup(w.store, w.teams + newTeams, lists).store, w.teams + newTeams)
    case Changed(team, list, users, passwords, who) =>
      if |users| == |passwords| then w.(store := ChangeAll(w.store, team, list, users, passwords, who)) else w
    case WasReset(team, list, users, who) =>
      if Lists(users, w.store.creds, team, list) then w.(store := ResetAll(w.store, team, list, users, who)) else w
  }

  ghost function Run(evs: seq<Event>): Site {
    if evs == [] then Site(EMPTY, []) else Happen(Run(evs[..|evs| - 1]), evs[|evs| - 1])
  }

  ghost predicate SiteAudited(w: Site) { Audited(w.store) && TeamsKnown(w.store, w.teams) }

  lemma StartedKeepsAudit(w: Site, newTeams: seq<nat>, lists: seq<Credlist>)
    requires SiteAudited(w)
    ensures SiteAudited(Site(Startup(w.store, w.teams + newTeams, lists).store, w.teams + newTeams))
  {
    assert TeamsKnown(w.store, w.teams + newTeams);
    StartupKeepsAudit(w.store, w.teams + newTeams, lists);
    StartupSeeds(w.store, w.teams + newTeams, lists);
  }

  lemma ChangedKeepsAudit(w: Site, team: nat, list: Str, users: seq<Str>, passwords: seq<Str>, who: string)
    requires SiteAudited(w) && |users| == |passwords|
    ensures SiteAudited(w.(store := ChangeAll(w.store, team, list, users, passwords, who)))
  {
    ChangesKeepAudit(w.store, team, list, users, passwords, who);
    SameTeams(w.store, ChangeAll(w.store, team, list, users, passwords, who), w.teams);
  }

  lemma WasResetKeepsAudit(w: Site, team: nat, list: Str, users: seq<Str>, who: string)
    requires SiteAudited(w)
    ensures SiteAudited(w.(store := ResetAll(w.store, team, list, users, who)))
  {
    ResetKeepsAudit(w.store, team, list, users, who);
    SameTeams(w.store, ResetAll(w.store, team, list, users, who), w.teams);
  }

  lemma SameTeams(s: Store, t: Store, teams: seq<nat>)
    requires TeamsKnown(s, teams) && t.creds.Keys == s.creds.Keys
    ensures TeamsKnown(t, teams)
  {
    forall k | k in t.creds ensures k.team in teams { assert k in s.creds; }
  }

  lemma HappenKeepsAudit(w: Site, ev: Event)
    requires SiteAudited(w)
    ensures SiteAudited(Happen(w, ev))
  {
    match ev
    case Started(newTeams, lists) => StartedKeepsAudit(w, newTeams, lists);
    case Changed(team, list, users, passwords, who) =>
      if |users| == |passwords| { ChangedKeepsAudit(w, team, list, users, passwords, who); }
    case WasReset(team, list, users, who) => WasResetKeepsAudit(w, team, list, users, who);
  }

  /** Over every run of startups, password changes and resets with no failing
      write: the history replayed over the seeded table is the current table,
      each entry's old password is the one it replaced, and a team has all of
      the originals' users or none. */
  lemma {:induction false} HistoryReplays(evs: seq<Event>)
    ensures Audited(Run(evs).store) && TeamsKnown(Run(evs).store, Run(evs).teams)
  {
    if evs == [] {
      assert Seeded(EMPTY) == map[];
    } else {
      HistoryReplays(evs[..|evs| - 1]);
      HappenKeepsAudit(Run(evs[..|evs| - 1]), evs[|evs| - 1]);
    }
  }

  /** After any run, a startup that gets to the end leaves every team with
      exactly the originals' users and no password overwritten, and the same
      startup again changes nothing. */
  lemma StartupCompletesAnyRun(evs: seq<Event>, newTeams: seq<nat>, lists: seq<Credlist>)
    ensures var w := Run(evs);
            var teams := w.teams + newTeams;
            var p := Startup(w.store, teams, lists);
            && Extends(w.store.creds, p.store.creds) && Extends(w.store.originals, p.store.originals)
            && (p.ok ==> Complete(p.store, teams) && Startup(p.store, teams, lists) == p)
  {
    var w := Run(evs);
    HistoryReplays(evs);
    StartupSeeds(w.store, w.teams + newTeams, lists);
    if Startup(w.store, w.teams + newTeams, lists).ok {
      RestartSeedsNothing(w.store, w.teams + newTeams, lists);
    }
  }

  // ------------------------------------------------------- one batch, one reset

  /** The last place a user is named. */
  function LastOf(users: seq<Str>, user: Str): (i: nat)
    requires user in users
    ensures i < |users| && users[i] == user && forall j | i < j < |users| :: users[j] != user
  {
    if users[|users| - 1] == user then |users| - 1 else LastOf(users[..|users| - 1], user)
  }

  predicate In(k: CredKey, team: nat, list: Str) { k.team == team && k.list == list }

  /** The named users with no row, as often as they are named. */
  function Missing(c: map<CredKey, Str>, team: nat, list: Str, users: seq<Str>): seq<Str> {
    if users == [] then []
    else
      var u := users[|users| - 1];
      Missing(c, team, list, users[..|users| - 1]) + (if CredKey(team, list, u) in c then [] else [u])
  }

  /** A batch gives each named user who exists the last password listed for it,
      writes one history row for each naming of such a user, and leaves every
      other row, list and team alone. */
  lemma {:induction false} BatchSetsLastPassword(s: Store, team: nat, list: Str, users: seq<Str>, passwords: seq<Str>, who: string, k: CredKey)
    requires |users| == |passwords|
    ensures var s' := ChangeAll(s, team, list, users, passwords, who);
            && s'.creds.Keys == s.creds.Keys && s'.originals == s.originals
            && (k in s.creds ==> s'.creds[k] == if In(k, team, list) && k.user in users then passwords[LastOf(users, k.user)] else s.creds[k])
            && |s'.history| + |Missing(s.creds, team, list, users)| == |s.history| + |users|
            && s.history <= s'.history
  {
    if users != [] {
      var n := |users| - 1;
      BatchSetsLastPassword(s, team, list, users[..n], passwords[..n], who, k);
      assert users == users[..n] + [users[n]];
    }
  }

  /** The users a batch skips are those without a row, as often as they are
      named, in order. */
  lemma MissingOfOne(c: map<CredKey, Str>, team: nat, list: Str, user: Str)
    ensures Missing(c, team, list, [user]) == if CredKey(team, list, user) in c then [] else [user]
  {
    assert [user][..0] == [];
  }

  lemma MissingInOrderStep(c: map<CredKey, Str>, team: nat, list: Str, a: seq<Str>, b: seq<Str>)
    requires b != []
    ensures Missing(c, team, list, a + b) == Missing(c, team, list, a + b[..|b| - 1]) + Missing(c, team, list, [b[|b| - 1]])
  {
    assert (a + b)[..|a + b| - 1] == a + b[..|b| - 1] && (a + b)[|a + b| - 1] == b[|b| - 1];
    MissingOfOne(c, team, list, b[|b| - 1]);
  }

  lemma {:induction false} MissingInOrder(c: map<CredKey, Str>, team: nat, list: Str, a: seq<Str>, b: seq<Str>)
    ensures Missing(c, team, list, a + b) == Missing(c, team, list, a) + Missing(c, team, list, b)
  {
    if b == [] {
      assert a + b == a && Missing(c, team, list, a) + [] == Missing(c, team, list, a);
    } else {
      var front, last := Missing(c, team, list, b[..|b| - 1]), Missing(c, team, list, [b[|b| - 1]]);
      MissingInOrder(c, team, list, a, b[..|b| - 1]);
      MissingInOrderStep(c, team, list, a, b);
      MissingOfOne(c, team, list, b[|b| - 1]);
      assert (Missing(c, team, list, a) + front) + last == Missing(c, team, list, a) + (front + last);
    }
  }

  /** An entry tells who made the change, of a row of that team and list, and a
      password that was listed for it. */
  lemma {:induction false} BatchEntries(s: Store, team: nat, list: Str, users: seq<Str>, passwords: seq<Str>, who: string, i: nat)
    requires |users| == |passwords|
    requires |s.history| <= i < |ChangeAll(s, team, list, users, passwords, who).history|
    ensures var e := ChangeAll(s, team, list, users, passwords, who).history[i];
            e.who == who && exists j | 0 <= j < |users| :: e.key == CredKey(team, list, users[j]) && e.after == passwords[j]
  {
    if users != [] {
      var n := |users| - 1;
      var before := ChangeAll(s, team, list, users[..n], passwords[..n], who);
      if i < |before.history| {
        BatchEntries(s, team, list, users[..n], passwords[..n], who, i);
        var j :| 0 <= j < n && before.history[i].key == CredKey(team, list, users[..n][j]) && before.history[i].after == passwords[..n][j];
        assert users[j] == users[..n][j] && passwords[j] == passwords[..n][j];
      }
    }
  }

  /** A reset writes an entry for each of its rows that has an original, changed
      or not, and signs it. */
  lemma {:induction false} ResetEntries(s: Store, team: nat, list: Str, users: seq<Str>, who: string)
    requires forall u | u in users :: CredKey(team, list, u) in s.creds
    ensures s.history <= ResetAll(s, team, list, users, who).history
    ensures var told := ResetAll(s, team, list, users, who).history[|s.history|..];
            && |told| == |WithOriginal(s.originals, list, users)|
            && forall i | 0 <= i < |told| ::
                 var u := WithOriginal(s.originals, list, users)[i];
                 && OrigKey(list, u) in s.originals
                 && told[i].key == CredKey(team, list, u) && told[i].after == s.originals[OrigKey(list, u)] && told[i].who == who
  {
    if users != [] {
      var n := |users| - 1;
      assert forall u | u in users[..n] :: u in users;
      assert users[n] in users;
      ResetEntries(s, team, list, users[..n], who);
      ResetSetsOriginals(s, team, list, users[..n], who, CredKey(team, list, users[n]));
    }
  }

  /** The users who have an original, in order. */
  function WithOriginal(o: map<OrigKey, Str>, list: Str, users: seq<Str>): seq<Str> {
    if users == [] then []
    else
      var u := users[|users| - 1];
      WithOriginal(o, list, users[..|users| - 1]) + (if OrigKey(list, u) in o then [u] else [])
  }

  lemma {:induction false} ResetSetsOriginals(s: Store, team: nat, list: Str, users: seq<Str>, who: string, k: CredKey)
    ensures var s' := ResetAll(s, team, list, users, who);
            && s'.creds.Keys == s.creds.Keys && s'.originals == s.originals
            && (k in s.creds ==> s'.creds[k] == if In(k, team, list) && k.user in users && Orig(k) in s.originals then s.originals[Orig(k)] else s.creds[k])
  {
    if users != [] {
      var n := |users| - 1;
      ResetSetsOriginals(s, team, list, users[..n], who, k);
      assert users == users[..n] + [users[n]];
    }
  }

  /** After any run, a reset makes the team's list what a fresh seeding would,
      and touches nothing else. */
  lemma ResetRestoresOriginals(evs: seq<Event>, team: nat, list: Str, users: seq<Str>, who: string, k: CredKey)
    requires Lists(users, Run(evs).store.creds, team, list) && HasCreds(Run(evs).store.creds, team)
    ensures var s := Run(evs).store;
            var s' := ResetAll(s, team, list, users, who);
            && (In(k, team, list) ==> (k in s'.creds <==> Orig(k) in s.originals))
            && (In(k, team, list) && k in s'.creds ==> s'.creds[k] == s.originals[Orig(k)])
            && (!In(k, team, list) ==> (k in s'.creds <==> k in s.creds) && (k in s.creds ==> s'.creds[k] == s.creds[k]))
  {
    var s := Run(evs).store;
    HistoryReplays(evs);
    ResetSetsOriginals(s, team, list, users, who, k);
    if In(k, team, list) && Orig(k) in s.originals {
      var q :| q in s.creds && q.team == team;
      assert CredKey(q.team, Orig(k).list, Orig(k).user) == k;
    }
  }

  // ---------------------------------------------------------- writes that fail

  /** The change is saved first and written to the history after. */
  datatype Fault = NoFault | SaveFails | HistoryFails

  function ChangeFaulty(s: Store, k: CredKey, password: Str, who: string, fault: Fault): Store {
    if k !in s.creds then s
    else match fault
      case NoFault => ChangeOne(s, k, password, who)
      case SaveFails => s
      case HistoryFails => s.(creds := s.creds[k := password])
  }

  /** A reset writes the history first and the row after. */
  function ResetFaulty(s: Store, k: CredKey, password: Str, who: string, fault: Fault): Store {
    if k !in s.creds then s
    else match fault
      case NoFault => ChangeOne(s, k, password, who)
      case HistoryFails => s
      case SaveFails => s.(history := s.history + [Change(k, s.creds[k], password, who)])
  }

  /** Exactly which failed write costs the audit: the history insert, when the
      password it should tell of is a new one. */
  lemma AuditSurvivesIff(s: Store, k: CredKey, password: Str, who: string, fault: Fault)
    requires Audited(s) && k in s.creds
    ensures Audited(ChangeFaulty(s, k, password, who, fault)) <==> !fault.HistoryFails? || password == s.creds[k]
  {
    var t := ChangeFaulty(s, k, password, who, fault);
    match fault
    case NoFault => ChangeKeepsAudit(s, k, password, who);
    case SaveFails =>
    case HistoryFails =>
      assert t.creds.Keys == s.creds.Keys;
      assert AllOrNone(t);
      assert Seeded(t) == Seeded(s);
      if password == s.creds[k] { assert t.creds == s.creds; }
      else { assert t.creds[k] != s.creds[k]; }
  }

  /** A reset breaks the audit the other way: by the save that fails after its
      history row, again when the password would have been a new one. */
  lemma ResetAuditSurvivesIff(s: Store, k: CredKey, password: Str, who: string, fault: Fault)
    requires Audited(s) && k in s.creds
    ensures Audited(ResetFaulty(s, k, password, who, fault)) <==> !fault.SaveFails? || password == s.creds[k]
  {
    var t := ResetFaulty(s, k, password, who, fault);
    match fault
    case NoFault => ChangeKeepsAudit(s, k, password, who);
    case HistoryFails =>
    case SaveFails =>
      assert AllOrNone(t);
      assert Seeded(t) == Seeded(s);
      ReplayOne(Seeded(s), s.history, Change(k, s.creds[k], password, who));
      if password == s.creds[k] { assert s.creds[k := password] == s.creds; }
      else { assert t.creds[k] != s.creds[k := password][k]; }
  }

  // ------------------------------------------------ what a failed write can do

  /** One team, one list, one user: seeded, and then changed. */
  const LIST: Str := [108]
  const USER: Str := [117]
  const OLD: Str := [111]
  const NEW: Str := [110]
  const ROW := CredKey(1, LIST, USER)

  function OneList(): seq<Credlist> { [Credlist(LIST, Records([[USER, OLD]]))] }

  function OneOriginal(): map<OrigKey, Str> { map[OrigKey(LIST, USER) := OLD] }

  function SeededRun(): seq<Event> { [Started([1], OneList())] }

  function ChangedRun(): seq<Event> { SeededRun() + [Changed(1, LIST, [USER], [NEW], "team1")] }

  lemma OneRecord()
    ensures SeedOriginals(map[], LIST, [[USER, OLD]]) == OneOriginal()
  {
    var rows := [[USER, OLD]];
    assert rows[..0] == [] && SeedOriginals(map[], LIST, rows[..0]) == map[];
  }

  lemma OneFile()
    ensures SeedFiles(EMPTY, OneList()) == Seeding(EMPTY.(originals := OneOriginal()), true)
  {
    var lists := OneList();
    assert lists[..0] == [] && SeedFiles(EMPTY, lists[..0]) == Seeding(EMPTY, true);
    OneRecord();
  }

  lemma OneStartup()
    ensures var s := Startup(EMPTY, [1], OneList()).store;
            s.originals == OneOriginal() && ROW in s.creds && s.creds[ROW] == OLD
  {
    OneFile();
    InSeedTeams(map[], OneOriginal(), [1], ROW);
  }

  lemma SeededRunSeeds()
    ensures var s := Run(SeededRun()).store;
            s.originals == OneOriginal() && ROW in s.creds && s.creds[ROW] == OLD
  {
    var evs := SeededRun();
    assert evs[..0] == [] && Run(evs[..0]) == Site(EMPTY, []);
    assert [] + [1] == [1];
    OneStartup();
  }

  lemma ChangedRunChanges()
    ensures var s := Run(ChangedRun()).store;
            s.originals == OneOriginal() && ROW in s.creds && s.creds[ROW] == NEW
  {
    SeededRunSeeds();
    RunStep(SeededRun(), Changed(1, LIST, [USER], [NEW], "team1"));
    OneChange(Run(SeededRun()).store);
  }

  lemma RunStep(evs: seq<Event>, ev: Event)
    ensures Run(evs + [ev]) == Happen(Run(evs), ev)
  {
    assert (evs + [ev])[..|evs|] == evs;
  }

  lemma OneChange(s: Store)
    ensures ChangeAll(s, 1, LIST, [USER], [NEW], "team1") == ChangeOne(s, ROW, NEW, "team1")
  {
    assert [USER][..0] == [] && [NEW][..0] == [];
    assert ChangeAll(s, 1, LIST, [USER][..0], [NEW][..0], "team1") == s;
  }

  /** A change whose history insert fails is in force and not told of. */
  lemma FailedHistoryBreaksAudit() returns (s: Store)
    ensures s == Run(SeededRun()).store && Audited(s)
    ensures !Audited(ChangeFaulty(s, ROW, NEW, "team1", HistoryFails))
  {
    s := Run(SeededRun()).store;
    HistoryReplays(SeededRun());
    SeededRunSeeds();
    AuditSurvivesIff(s, ROW, NEW, "team1", HistoryFails);
  }

  /** A reset whose save fails is told of and not in force. */
  lemma FailedSaveBreaksAudit() returns (s: Store)
    ensures s == Run(ChangedRun()).store && Audited(s) && OrigKey(LIST, USER) in s.originals
    ensures !Audited(ResetFaulty(s, ROW, s.originals[OrigKey(LIST, USER)], "admin", SaveFails))
  {
    s := Run(ChangedRun()).store;
    HistoryReplays(ChangedRun());
    ChangedRunChanges();
    ResetAuditSurvivesIff(s, ROW, OLD, "admin", SaveFails);
  }
}
