/** The credential tables changed in place, by the engine's own operations. */
module CredentialStore {
  import opened Utf8
  import opened Credentials

  /** What UpdateCredentials answers. NoMutex: the team was never seeded, and
      locking its missing mutex panics. */
  datatype Answer =
    | Updated(count: nat, skipped: seq<Str>)
    | InvalidList
    | NoMutex
    | Mismatched
    | WriteFailed(count: nat, skipped: seq<Str>)

  datatype ResetAnswer = ResetDone | BadList | Panicked | ResetFailed

  datatype Found = Saved | NotFound | Failed

  class Tables {
    var originals: map<OrigKey, Str>
    var creds: map<CredKey, Str>
    var history: seq<Change>
    var mutexes: set<nat>        // the teams with a mutex
    const lists: seq<Credlist>   // the configuration

    function Now(): Store
      reads this
    {
      Store(originals, creds, history)
    }

    predicate ValidList(list: Str) { exists l | l in lists :: l.path == list }

    constructor (lists: seq<Credlist>)
      ensures Now() == EMPTY && mutexes == {} && this.lists == lists
    {
      this.lists := lists;
      originals, creds, history, mutexes := map[], map[], [], {};
    }

    // ----------------------------------------------------------------- seeding

    method SeedOriginalCredentials(list: Str, rows: seq<seq<Str>>)
      modifies this`originals
      ensures originals == SeedOriginals(old(originals), list, rows)
    {
      for i := 0 to |rows|
        invariant originals == SeedOriginals(old(originals), list, rows[..i])
      {
        assert rows[..i + 1][..i] == rows[..i];
        if |rows[i]| != 2 {
          continue;
        }
        var k := OrigKey(list, rows[i][0]);
        if k !in originals {
          originals := originals[k := rows[i][1]];
        }
      }
      assert rows[..|rows|] == rows;
    }

    /** The originals come in any order. */
    method SeedTeamCredentials(team: nat)
      modifies this`creds
      ensures creds == SeedTeam(old(creds), originals, team)
    {
      var left := originals.Keys;
      while left != {}
        invariant left <= originals.Keys
        invariant forall k :: k in creds <==> k in old(creds) || (k.team == team && Orig(k) in originals && Orig(k) !in left)
        invariant forall k | k in creds :: creds[k] == if k in old(creds) then old(creds)[k] else originals[Orig(k)]
        decreases left
      {
        var o :| o in left;
        left := left - {o};
        var k := CredKey(team, o.list, o.user);
        assert forall q: CredKey | q.team == team && Orig(q) == o :: q == k;
        if k !in creds {
          creds := creds[k := originals[o]];
        }
      }
      ghost var want := SeedTeam(old(creds), originals, team);
      forall k: CredKey
        ensures k in creds <==> k in want
        ensures k in creds ==> creds[k] == want[k]
      {
        InSeedTeam(old(creds), originals, team, k);
      }
    }

    method SeedEveryTeam(teams: seq<nat>)
      modifies this`creds
      ensures creds == SeedTeams(old(creds), originals, teams)
    {
      for i := 0 to |teams|
        invariant creds == SeedTeams(old(creds), originals, teams[..i])
      {
        assert teams[..i + 1][..i] == teams[..i];
        SeedTeamCredentials(teams[i]);
      }
      assert teams[..|teams|] == teams;
    }

    method EnsureCredentialsSeeded(teams: seq<nat>) returns (ok: bool)
      modifies this
      ensures Seeding(Now(), ok) == Startup(old(Now()), teams, lists)
      ensures mutexes == old(mutexes) + set t | t in teams
    {
      for i := 0 to |teams|
        invariant mutexes == old(mutexes) + set t | t in teams[..i]
        invariant Now() == old(Now())
      {
        assert teams[..i + 1] == teams[..i] + [teams[i]];
        mutexes := mutexes + {teams[i]};
      }
      assert teams[..|teams|] == teams;
      if originals == map[] {
        ok := ReadFiles();
        if ok {
          SeedEveryTeam(teams);
        }
      } else {
        SeedTeamsWithout(teams);
        ok := ReadNewFiles(teams);
      }
    }

    method ReadFiles() returns (ok: bool)
      modifies this`originals
      ensures Seeding(Now(), ok) == SeedFiles(old(Now()), lists)
    {
      ok := true;
      for i := 0 to |lists|
        invariant ok && Seeding(Now(), true) == SeedFiles(old(Now()), lists[..i])
      {
        assert lists[..i + 1][..i] == lists[..i];
        if lists[i].file.Unreadable? {
          FilesStop(old(Now()), lists, i + 1);
          return false;
        }
        SeedOriginalCredentials(lists[i].path, lists[i].file.rows);
      }
      assert lists[..|lists|] == lists;
    }

    method SeedTeamsWithout(teams: seq<nat>)
      modifies this`creds
      ensures creds == SeedNewTeams(old(creds), originals, teams)
    {
      for i := 0 to |teams|
        invariant creds == SeedNewTeams(old(creds), originals, teams[..i])
      {
        assert teams[..i + 1][..i] == teams[..i];
        if !HasCreds(creds, teams[i]) {
          SeedTeamCredentials(teams[i]);
        }
      }
      assert teams[..|teams|] == teams;
    }

    method ReadNewFiles(teams: seq<nat>) returns (ok: bool)
      modifies this`originals, this`creds
      ensures Seeding(Now(), ok) == SeedNewLists(old(Now()), teams, lists)
    {
      ok := true;
      for i := 0 to |lists|
        invariant ok && Seeding(Now(), true) == SeedNewLists(old(Now()), teams, lists[..i])
      {
        assert lists[..i + 1][..i] == lists[..i];
        if !HasList(originals, lists[i].path) {
          if lists[i].file.Unreadable? {
            NewListsStop(old(Now()), teams, lists, i + 1);
            return false;
          }
          SeedOriginalCredentials(lists[i].path, lists[i].file.rows);
          SeedEveryTeam(teams);
        }
      }
      assert lists[..|lists|] == lists;
    }

    // ----------------------------------------------------------------- changes

    method UpdateCredential(k: CredKey, password: Str, who: string, fault: Fault) returns (r: Found)
      modifies this`creds, this`history
      ensures Now() == ChangeFaulty(old(Now()), k, password, who, fault)
      ensures r == if k !in old(creds) then NotFound else if fault.NoFault? then Saved else Failed
      ensures k !in old(creds) || fault.SaveFails? ==> creds == old(creds) && history == old(history)
      ensures k in old(creds) && !fault.SaveFails? ==> creds == old(creds)[k := password]
      ensures k in old(creds) && fault.HistoryFails? ==> history == old(history)
      ensures r.Saved? ==> history == old(history) + [Change(k, old(creds)[k], password, who)]
    {
      if k !in creds {
        return NotFound;
      }
      var oldPassword := creds[k];
      if fault.SaveFails? {
        return Failed;
      }
      creds := creds[k := password];
      if fault.HistoryFails? {
        return Failed;
      }
      history := history + [Change(k, oldPassword, password, who)];
      r := Saved;
    }

    /** The batch. It stops at the first write that fails, after `done` users. */
    method UpdateCredentials(team: nat, list: Str, users: seq<Str>, passwords: seq<Str>, who: string, faults: seq<Fault>)
      returns (r: Answer, done: nat)
      requires |faults| == |users|
      modifies this`creds, this`history
      ensures r.InvalidList? <==> forall l | l in lists :: l.path != list
      ensures r.NoMutex? <==> (exists l | l in lists :: l.path == list) && team !in mutexes
      ensures r.Mismatched? <==> (exists l | l in lists :: l.path == list) && team in mutexes && |users| != |passwords|
      ensures r.InvalidList? || r.NoMutex? || r.Mismatched? ==> Now() == old(Now())
      ensures r.Updated? ==>
              && |users| == |passwords| && (forall i | 0 <= i < |users| && CredKey(team, list, users[i]) in old(creds) :: faults[i].NoFault?)
              && Now() == ChangeAll(old(Now()), team, list, users, passwords, who)
              && r.skipped == Missing(old(creds), team, list, users) && r.count + |r.skipped| == |users|
      ensures r.WriteFailed? ==>
              && |users| == |passwords| && done < |users|
              && CredKey(team, list, users[done]) in old(creds) && !faults[done].NoFault?
              && (forall i | 0 <= i < done && CredKey(team, list, users[i]) in old(creds) :: faults[i].NoFault?)
              && Now() == ChangeFaulty(ChangeAll(old(Now()), team, list, users[..done], passwords[..done], who),
                                       CredKey(team, list, users[done]), passwords[done], who, faults[done])
              && r.skipped == Missing(old(creds), team, list, users[..done]) && r.count + |r.skipped| == done
    {
      done := 0;
      if !ValidList(list) {
        return InvalidList, 0;
      }
      if team !in mutexes {
        return NoMutex, 0;
      }
      if |users| != |passwords| {
        return Mismatched, 0;
      }
      var count: nat, skipped: seq<Str> := 0, [];
      while done < |users|
        invariant done <= |users|
        invariant forall i | 0 <= i < done && CredKey(team, list, users[i]) in old(creds) :: faults[i].NoFault?
        invariant Now() == ChangeAll(old(Now()), team, list, users[..done], passwords[..done], who)
        invariant skipped == Missing(old(creds), team, list, users[..done]) && count + |skipped| == done
      {
        BatchStep(old(Now()), team, list, users, passwords, who, done);
        var found := UpdateCredential(CredKey(team, list, users[done]), passwords[done], who, faults[done]);
        if found.Failed? {
          return WriteFailed(count, skipped), done;
        }
        if found.NotFound? {
          skipped := skipped + [users[done]];
        } else {
          count := count + 1;
        }
        done := done + 1;
      }
      assert users[..done] == users && passwords[..done] == passwords;
      r := Updated(count, skipped);
    }

    /** users: the rows of the team's list, as the query returns them. The
        history is written first here, then the row; the first write that fails
        ends the reset, after `done` rows. */
    method ResetTeamCredlist(team: nat, list: Str, users: seq<Str>, who: string, faults: seq<Fault>)
      returns (ok: bool, done: nat)
      requires |faults| == |users| && Lists(users, creds, team, list)
      modifies this`creds, this`history
      ensures ok ==>
              && (forall i | 0 <= i < |users| && OrigKey(list, users[i]) in originals :: faults[i].NoFault?)
              && Now() == ResetAll(old(Now()), team, list, users, who)
      ensures !ok ==>
              && done < |users| && OrigKey(list, users[done]) in originals && !faults[done].NoFault?
              && (forall i | 0 <= i < done && OrigKey(list, users[i]) in originals :: faults[i].NoFault?)
              && Now() == ResetFaulty(ResetAll(old(Now()), team, list, users[..done], who),
                                      CredKey(team, list, users[done]), originals[OrigKey(list, users[done])], who, faults[done])
    {
      done := 0;
      while done < |users|
        invariant done <= |users|
        invariant forall i | 0 <= i < done && OrigKey(list, users[i]) in originals :: faults[i].NoFault?
        invariant Now() == ResetAll(old(Now()), team, list, users[..done], who)
        invariant forall m | done <= m < |users| ::
                    CredKey(team, list, users[m]) in creds && creds[CredKey(team, list, users[m])] == old(creds)[CredKey(team, list, users[m])]
      {
        assert users[..done + 1][..done] == users[..done];
        var o, k := OrigKey(list, users[done]), CredKey(team, list, users[done]);
        if o in originals {
          if faults[done].HistoryFails? {
            return false, done;
          }
          history := history + [Change(k, creds[k], originals[o], who)];
          if faults[done].SaveFails? {
            return false, done;
          }
          creds := creds[k := originals[o]];
        }
        done := done + 1;
      }
      assert users[..done] == users;
      ok := true;
    }
  }

  /** The engine's reset: an unknown list or a team without a mutex changes
      nothing, and a write that fails ends it after `done` rows. */
  method ResetCredentials(tables: Tables, team: nat, list: Str, users: seq<Str>, who: string, faults: seq<Fault>)
    returns (r: ResetAnswer, done: nat)
    requires |faults| == |users| && Lists(users, tables.creds, team, list)
    modifies tables`creds, tables`history
    ensures r.BadList? <==> forall l | l in tables.lists :: l.path != list
    ensures r.Panicked? <==> (exists l | l in tables.lists :: l.path == list) && team !in tables.mutexes
    ensures r.BadList? || r.Panicked? ==> tables.Now() == old(tables.Now())
    ensures r.ResetDone? ==>
            && (forall i | 0 <= i < |users| && OrigKey(list, users[i]) in tables.originals :: faults[i].NoFault?)
            && tables.Now() == ResetAll(old(tables.Now()), team, list, users, who)
    ensures r.ResetFailed? ==>
            && done < |users| && OrigKey(list, users[done]) in tables.originals && !faults[done].NoFault?
            && (forall i | 0 <= i < done && OrigKey(list, users[i]) in tables.originals :: faults[i].NoFault?)
            && tables.Now() == ResetFaulty(ResetAll(old(tables.Now()), team, list, users[..done], who),
                                           CredKey(team, list, users[done]), tables.originals[OrigKey(list, users[done])],
                                           who, faults[done])
  {
    done := 0;
    if !tables.ValidList(list) {
      return BadList, done;
    }
    if team !in tables.mutexes {
      return Panicked, done;
    }
    var ok;
    ok, done := tables.ResetTeamCredlist(team, list, users, who, faults);
    r := if ok then ResetDone else ResetFailed;
  }

  lemma BatchStep(s: Store, team: nat, list: Str, users: seq<Str>, passwords: seq<Str>, who: string, i: nat)
    requires |users| == |passwords| && i < |users|
    ensures var before, k := ChangeAll(s, team, list, users[..i], passwords[..i], who), CredKey(team, list, users[i]);
            && (k in before.creds <==> k in s.creds)
            && ChangeAll(s, team, list, users[..i + 1], passwords[..i + 1], who) == ChangeOne(before, k, passwords[i], who)
            && Missing(s.creds, team, list, users[..i + 1]) ==
               Missing(s.creds, team, list, users[..i]) + (if k in s.creds then [] else [users[i]])
  {
    BatchSetsLastPassword(s, team, list, users[..i], passwords[..i], who, CredKey(team, list, users[i]));
    assert users[..i + 1][..i] == users[..i] && passwords[..i + 1][..i] == passwords[..i];
  }

  lemma {:induction false} FilesStop(s: Store, lists: seq<Credlist>, n: nat)
    requires n <= |lists| && !SeedFiles(s, lists[..n]).ok
    ensures SeedFiles(s, lists) == SeedFiles(s, lists[..n])
    decreases |lists| - n
  {
    if n == |lists| {
      assert lists[..n] == lists;
    } else {
      assert lists[..n + 1][..n] == lists[..n];
      FilesStop(s, lists, n + 1);
    }
  }

  lemma {:induction false} NewListsStop(s: Store, teams: seq<nat>, lists: seq<Credlist>, n: nat)
    requires n <= |lists| && !SeedNewLists(s, teams, lists[..n]).ok
    ensures SeedNewLists(s, teams, lists) == SeedNewLists(s, teams, lists[..n])
    decreases |lists| - n
  {
    if n == |lists| {
      assert lists[..n] == lists;
    } else {
      assert lists[..n + 1][..n] == lists[..n];
      NewListsStop(s, teams, lists, n + 1);
    }
  }
}
