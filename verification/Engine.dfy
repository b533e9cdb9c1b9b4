/** The scoring engine's own state, changed in place as the source does it, and
    tied to the functions whose laws Ledger proves. */
module Engine {
  import opened Utf8
  import opened Wire
  import opened Ledger
  import opened Numbering
  import Sla

  function Entries(results: seq<Result>, stored: seq<bool>): seq<Entry>
    requires |results| == |stored|
  {
    seq(|results|, i requires 0 <= i < |results| => Entry(results[i], stored[i]))
  }

  class ScoringEngine {
    const settings: Settings

    // the database
    var rounds: seq<nat>
    var checks: seq<CheckRow>
    var slas: seq<SlaRow>

    // memory
    var uptimePerService: map<nat, map<Str, Uptime>>
    var slaPerService: map<nat, map<Str, int>>
    var currentRound: nat
    var refreshing: bool

    function Now(): World
      reads this
    {
      World(rounds, checks, slas, uptimePerService, slaPerService)
    }

    /** A new process over an existing database. */
    constructor (settings: Settings, rounds: seq<nat>, checks: seq<CheckRow>, slas: seq<SlaRow>)
      ensures Now() == World(rounds, checks, slas, map[], map[])
      ensures this.settings == settings && currentRound == 0 && !refreshing
    {
      this.settings := settings;
      this.rounds, this.checks, this.slas := rounds, checks, slas;
      uptimePerService, slaPerService := map[], map[];
      currentRound, refreshing := 0, false;
    }

    /** The grouped query's rows, in whatever order they arrive, go over the
        entries already there. */
    method LoadUptimes(groups: seq<UptimeGroup>)
      requires GroupsOf(groups, LogSamples(checks))
      modifies this`uptimePerService
      ensures uptimePerService == Merge(old(uptimePerService), Table(LogSamples(checks), UptimeOf))
    {
      ghost var xs := LogSamples(checks);
      ghost var before := uptimePerService;
      MergeNone(before);
      for i := 0 to |groups|
        invariant uptimePerService == Merge(before, GroupTable(groups[..i]))
      {
        var g := groups[i];
        SetEntry(uptimePerService, g.team, g.service, Uptime(g.passed, g.total));
        if g.team !in uptimePerService {
          uptimePerService := uptimePerService[g.team := map[]];
        }
        uptimePerService := uptimePerService[g.team := uptimePerService[g.team][g.service := Uptime(g.passed, g.total)]];
        MergeStep(before, groups, i);
      }
      assert groups[..|groups|] == groups;
      AllGroups(groups, xs);
    }

    /** Rows in the order they were inserted. */
    method LoadSLAs()
      requires settings.threshold != 0
      modifies this`slaPerService
      ensures slaPerService == LoadCounters(old(slaPerService), LogSamples(checks), settings.threshold)
    {
      ghost var xs := LogSamples(checks);
      for i := 0 to |checks|
        invariant slaPerService == LoadCounters(old(slaPerService), xs[..i], settings.threshold)
      {
        var r := checks[i];
        assert xs[..i + 1][..i] == xs[..i] && xs[i] == SampleOf(r);
        ghost var m := slaPerService;
        if r.team !in slaPerService {
          slaPerService := slaPerService[r.team := map[]];
        }
        assert Row(slaPerService, r.team) == Row(m, r.team);
        if r.passed {
          SetEntry(m, r.team, r.service, 0);
          slaPerService := slaPerService[r.team := slaPerService[r.team][r.service := 0]];
        } else {
          var c := if r.service in slaPerService[r.team] then slaPerService[r.team][r.service] else 0;
          SetEntry(m, r.team, r.service, Sla.GoRem(c + 1, settings.threshold));
          slaPerService := slaPerService[r.team := slaPerService[r.team][r.service := Sla.GoRem(c + 1, settings.threshold)]];
        }
      }
      assert xs[..|checks|] == xs;
    }

    /** The beginning of Start: the number after the last recorded round, and
        memory from the log. On a process just made this is exactly Load. */
    method Start(groups: seq<UptimeGroup>)
      requires settings.threshold != 0 && GroupsOf(groups, LogSamples(checks))
      modifies this`currentRound, this`uptimePerService, this`slaPerService
      ensures currentRound >= 1 && (forall r | r in rounds :: r < currentRound)
      ensures currentRound == 1 || exists r | r in rounds :: r + 1 == currentRound
      ensures uptimePerService == Merge(old(uptimePerService), Table(LogSamples(checks), UptimeOf))
      ensures slaPerService == LoadCounters(old(slaPerService), LogSamples(checks), settings.threshold)
      ensures old(uptimePerService) == map[] && old(slaPerService) == map[] ==> Now() == Load(old(Now()), settings)
    {
      currentRound := MaxRound(rounds) + 1;
      LoadMemory(groups);
    }

    /** Start's two loads. */
    method LoadMemory(groups: seq<UptimeGroup>)
      requires settings.threshold != 0 && GroupsOf(groups, LogSamples(checks))
      modifies this`uptimePerService, this`slaPerService
      ensures uptimePerService == Merge(old(uptimePerService), Table(LogSamples(checks), UptimeOf))
      ensures slaPerService == LoadCounters(old(slaPerService), LogSamples(checks), settings.threshold)
      ensures old(uptimePerService) == map[] && old(slaPerService) == map[] ==> Now() == Load(old(Now()), settings)
    {
      ghost var w := Now();
      LoadUptimes(groups);
      LoadSLAs();
      if w.uptime == map[] && w.counters == map[] {
        StartIsLoad(w, Now(), settings);
      }
    }

    /** saved: the round's insert works if its number is free. stored: for each
        result, an SLA insert for it would work. */
    method ProcessCollectedResults(results: seq<Result>, saved: bool, stored: seq<bool>) returns (spawned: bool)
      requires |stored| == |results|
      modifies this`rounds, this`checks, this`slas, this`uptimePerService, this`slaPerService, this`refreshing
      ensures Now() == RecordRound(old(Now()), currentRound, Entries(results, stored), saved, settings)
      ensures |results| == 0 || !saved || currentRound in old(rounds) ==> Now() == old(Now()) && !spawned
      ensures |results| > 0 && saved && currentRound !in old(rounds) ==>
              && rounds == old(rounds) + [currentRound]
              && |checks| == |old(checks)| + |results|
              && spawned == !old(refreshing)
      ensures refreshing == (old(refreshing) || spawned)
    {
      ghost var es := Entries(results, stored);
      RecordedLog(Now(), currentRound, es, saved, settings);
      if |results| == 0 {
        return false;
      }
      var dbResults: seq<CheckRow> := [];
      for i := 0 to |results|
        invariant dbResults == RowsOf(currentRound, es[..i])
      {
        dbResults := dbResults + [CheckRow(currentRound, results[i].ticket.team, Sanitize(results[i].ticket.service),
                                           results[i].points, results[i].status,
                                           Sanitize(results[i].error), Sanitize(results[i].debug))];
      }
      assert es[..|results|] == es;
      if !saved || currentRound in rounds {
        return false;
      }
      rounds := rounds + [currentRound];
      checks := checks + dbResults;
      ghost var start := Now();
      for i := 0 to |results|
        invariant Now() == ObserveAll(start, currentRound, es[..i], settings)
        invariant refreshing == old(refreshing)
      {
        assert es[..i + 1][..i] == es[..i] && es[i] == Entry(results[i], stored[i]);
        Count(results[i], stored[i]);
      }
      if !refreshing {
        refreshing := true;
        spawned := true;
      } else {
        spawned := false;
      }
    }

    /** One result's turn under the lock. */
    method Count(r: Result, stored: bool)
      modifies this`slas, this`uptimePerService, this`slaPerService
      ensures Now() == Observe(old(Now()), currentRound, Entry(r, stored), settings)
    {
      CountUptime(r);
      CountSla(r, stored);
    }

    method CountUptime(r: Result)
      modifies this`uptimePerService
      ensures uptimePerService ==
              var u := Get(old(uptimePerService), r.ticket.team, r.ticket.service, Uptime(0, 0));
              Put(old(uptimePerService), r.ticket.team, r.ticket.service,
                  Uptime(u.passed + (if r.status then 1 else 0), u.total + 1))
    {
      var t, s := r.ticket.team, r.ticket.service;
      ghost var m := uptimePerService;
      if t !in uptimePerService {
        uptimePerService := uptimePerService[t := map[]];
      }
      if s !in uptimePerService[t] {
        uptimePerService := uptimePerService[t := uptimePerService[t][s := Uptime(0, 0)]];
      }
      MadeRoom(m, t, s, Uptime(0, 0));
      var u := uptimePerService[t][s];
      if r.status {
        u := u.(passed := u.passed + 1);
      }
      u := u.(total := u.total + 1);
      SetMade(m, t, s, Uptime(0, 0), u);
      uptimePerService := uptimePerService[t := uptimePerService[t][s := u]];
    }

    /** Back to zero on a pass; on a failure one more, and back to zero with a
        row when that reaches the threshold. */
    method CountSla(r: Result, stored: bool)
      modifies this`slas, this`slaPerService
      ensures var c := Get(old(slaPerService), r.ticket.team, r.ticket.service, 0) + 1;
              var due := !r.status && c >= settings.threshold;
              && slaPerService == Put(old(slaPerService), r.ticket.team, r.ticket.service, if r.status || due then 0 else c)
              && slas == old(slas) + if due && stored
                                     then [SlaRow(currentRound, r.ticket.team, r.ticket.service, settings.penalty)]
                                     else []
    {
      var t, s := r.ticket.team, r.ticket.service;
      ghost var m := slaPerService;
      if t !in slaPerService {
        slaPerService := slaPerService[t := map[]];
      }
      if s !in slaPerService[t] {
        slaPerService := slaPerService[t := slaPerService[t][s := 0]];
      }
      MadeRoom(m, t, s, 0);
      if r.status {
        SetMade(m, t, s, 0, 0);
        slaPerService := slaPerService[t := slaPerService[t][s := 0]];
      } else {
        SetMade(m, t, s, 0, slaPerService[t][s] + 1);
        slaPerService := slaPerService[t := slaPerService[t][s := slaPerService[t][s] + 1]];
        if slaPerService[t][s] >= settings.threshold {
          if stored {
            slas := slas + [SlaRow(currentRound, t, s, settings.penalty)];
          }
          PutAgain(m, t, s, slaPerService[t][s], 0);
          slaPerService := slaPerService[t := slaPerService[t][s := 0]];
        }
      }
    }
  }

  /** Reading into empty maps is a fresh process's view of the database. */
  lemma StartIsLoad(w: World, w': World, c: Settings)
    requires c.threshold != 0 && w.uptime == map[] && w.counters == map[]
    requires w'.rounds == w.rounds && w'.log == w.log && w'.slas == w.slas
    requires w'.uptime == Merge(w.uptime, Table(LogSamples(w.log), UptimeOf))
    requires w'.counters == LoadCounters(w.counters, LogSamples(w.log), c.threshold)
    ensures w' == Load(w, c)
  {
    MergeEmpty(Table(LogSamples(w.log), UptimeOf));
  }

  // ------------------------------------------------- an entry set step by step

  lemma SetEntry<V>(m: Nested<V>, t: nat, s: Str, v: V)
    ensures var m1 := if t in m then m else m[t := map[]];
            m1[t := m1[t][s := v]] == Put(m, t, s, v)
  {
  }

  /** The entry is there, at its default if it was not. */
  function MakeRoom<V>(m: Nested<V>, t: nat, s: Str, default: V): Nested<V> {
    var m1 := if t in m then m else m[t := map[]];
    if s in m1[t] then m1 else m1[t := m1[t][s := default]]
  }

  lemma MadeRoom<V>(m: Nested<V>, t: nat, s: Str, default: V)
    ensures var m1 := MakeRoom(m, t, s, default);
            t in m1 && s in m1[t] && m1[t][s] == Get(m, t, s, default)
  {
  }

  lemma SetMade<V>(m: Nested<V>, t: nat, s: Str, default: V, v: V)
    ensures t in MakeRoom(m, t, s, default)
    ensures var m1 := MakeRoom(m, t, s, default); m1[t := m1[t][s := v]] == Put(m, t, s, v)
  {
    assert Row(m, t)[s := default][s := v] == Row(m, t)[s := v];
  }

  lemma PutAgain<V>(m: Nested<V>, t: nat, s: Str, v: V, w: V)
    ensures var m1 := Put(m, t, s, v); m1[t := m1[t][s := w]] == Put(m, t, s, w)
  {
    assert Row(m, t)[s := v][s := w] == Row(m, t)[s := w];
  }

  // ------------------------------------------------------- groups make a table

  ghost function GroupTable(gs: seq<UptimeGroup>): Nested<Uptime> {
    if gs == [] then map[]
    else
      var g := gs[|gs| - 1];
      Put(GroupTable(gs[..|gs| - 1]), g.team, g.service, Uptime(g.passed, g.total))
  }

  lemma MergeStep(before: Nested<Uptime>, gs: seq<UptimeGroup>, i: nat)
    requires i < |gs|
    ensures Merge(before, GroupTable(gs[..i + 1])) ==
            Put(Merge(before, GroupTable(gs[..i])), gs[i].team, gs[i].service, Uptime(gs[i].passed, gs[i].total))
  {
    assert gs[..i + 1][..i] == gs[..i];
    MergePut(before, GroupTable(gs[..i]), gs[i].team, gs[i].service, Uptime(gs[i].passed, gs[i].total));
  }

  lemma MergeRow<V>(a: Nested<V>, b: Nested<V>, k: nat)
    ensures Row(Merge(a, b), k) == Row(a, k) + Row(b, k)
  {
    if k !in a && k !in b { assert Row(a, k) + Row(b, k) == Row(a, k); }
  }

  lemma PutRow<V>(m: Nested<V>, t: nat, s: Str, v: V, k: nat)
    ensures Row(Put(m, t, s, v), k) == if k == t then Row(m, t)[s := v] else Row(m, k)
  {
  }

  lemma AddPut<V>(a: map<Str, V>, b: map<Str, V>, s: Str, v: V)
    ensures a + b[s := v] == (a + b)[s := v]
  {
  }

  lemma SameRows<V>(a: Nested<V>, b: Nested<V>)
    requires a.Keys == b.Keys && forall k | k in a :: Row(a, k) == Row(b, k)
    ensures a == b
  {
    forall k | k in a ensures a[k] == b[k] {
      assert Row(a, k) == Row(b, k);
    }
  }

  lemma MergePut<V>(a: Nested<V>, b: Nested<V>, t: nat, s: Str, v: V)
    ensures Merge(a, Put(b, t, s, v)) == Put(Merge(a, b), t, s, v)
  {
    var l, r := Merge(a, Put(b, t, s, v)), Put(Merge(a, b), t, s, v);
    assert l.Keys == r.Keys;
    forall k | k in l ensures Row(l, k) == Row(r, k) {
      MergeRow(a, Put(b, t, s, v), k);
      MergeRow(a, b, k);
      PutRow(b, t, s, v, k);
      PutRow(Merge(a, b), t, s, v, k);
      AddPut(Row(a, t), Row(b, t), s, v);
    }
    SameRows(l, r);
  }

  lemma MergeNone<V>(m: Nested<V>)
    ensures Merge(m, map[]) == m
  {
    forall t | t in m ensures m[t] + map[] == m[t] { }
  }

  lemma MergeEmpty<V>(m: Nested<V>)
    ensures Merge(map[], m) == m
  {
    forall t | t in m ensures map[] + m[t] == m[t] { }
  }

  ghost predicate NamesTeam(gs: seq<UptimeGroup>, t: nat) { exists g | g in gs :: g.team == t }

  ghost predicate NamesKey(gs: seq<UptimeGroup>, t: nat, s: Str) { exists g | g in gs :: g.team == t && g.service == s }

  lemma NamesStep(front: seq<UptimeGroup>, last: UptimeGroup, t: nat, s: Str)
    ensures NamesTeam(front + [last], t) <==> NamesTeam(front, t) || last.team == t
    ensures NamesKey(front + [last], t, s) <==> NamesKey(front, t, s) || (last.team == t && last.service == s)
  {
    var gs := front + [last];
    assert forall g :: g in gs <==> g in front || g == last;
    if NamesTeam(front, t) { var g :| g in front && g.team == t; assert g in gs; }
    if NamesKey(front, t, s) { var g :| g in front && g.team == t && g.service == s; assert g in gs; }
    assert last in gs;
  }

  lemma {:induction false} GroupKeys(gs: seq<UptimeGroup>, t: nat, s: Str)
    ensures t in GroupTable(gs) <==> NamesTeam(gs, t)
    ensures s in Row(GroupTable(gs), t) <==> NamesKey(gs, t, s)
  {
    if gs != [] {
      var front, last := gs[..|gs| - 1], gs[|gs| - 1];
      GroupKeys(front, t, s);
      NamesStep(front, last, t, s);
      assert gs == front + [last];
      PutRow(GroupTable(front), last.team, last.service, Uptime(last.passed, last.total), t);
    }
  }

  /** Every entry comes from the one group that names it. */
  lemma {:induction false} GroupEntry(gs: seq<UptimeGroup>, i: nat)
    requires forall i, j | 0 <= i < j < |gs| :: (gs[i].team, gs[i].service) != (gs[j].team, gs[j].service)
    requires i < |gs|
    ensures gs[i].service in Row(GroupTable(gs), gs[i].team)
    ensures Row(GroupTable(gs), gs[i].team)[gs[i].service] == Uptime(gs[i].passed, gs[i].total)
  {
    var n := |gs| - 1;
    PutRow(GroupTable(gs[..n]), gs[n].team, gs[n].service, Uptime(gs[n].passed, gs[n].total), gs[i].team);
    if i < n {
      GroupEntry(gs[..n], i);
      assert (gs[i].team, gs[i].service) != (gs[n].team, gs[n].service);
    }
  }

  lemma NamesSampled(gs: seq<UptimeGroup>, xs: seq<Sample>, t: nat, s: Str)
    requires GroupsOf(gs, xs)
    ensures NamesTeam(gs, t) <==> t in Teams(xs)
    ensures NamesKey(gs, t, s) <==> s in Services(xs, t)
  {
    if x :| x in xs && x.team == t { var g :| g in gs && g.team == x.team; }
    if g :| g in gs && g.team == t { var x :| x in xs && x.team == t && x.service == g.service; }
    if x :| x in xs && x.team == t && x.service == s { var g :| g in gs && g.team == x.team && g.service == x.service; }
  }

  lemma NamedEntry(gs: seq<UptimeGroup>, xs: seq<Sample>, t: nat, s: Str)
    requires GroupsOf(gs, xs) && NamesKey(gs, t, s)
    ensures s in Row(GroupTable(gs), t)
    ensures Row(GroupTable(gs), t)[s] == UptimeOf(History(xs, t, s))
  {
    var g :| g in gs && g.team == t && g.service == s;
    var i :| 0 <= i < |gs| && gs[i] == g;
    GroupEntry(gs, i);
  }

  lemma GroupRow(gs: seq<UptimeGroup>, xs: seq<Sample>, t: nat)
    requires GroupsOf(gs, xs)
    ensures Row(GroupTable(gs), t) == TeamTable(xs, UptimeOf, t)
  {
    var a, b := Row(GroupTable(gs), t), TeamTable(xs, UptimeOf, t);
    forall s ensures (s in a <==> s in b) && (s in a ==> a[s] == b[s]) {
      GroupKeys(gs, t, s);
      NamesSampled(gs, xs, t, s);
      if s in a { NamedEntry(gs, xs, t, s); }
    }
  }

  lemma AllGroups(gs: seq<UptimeGroup>, xs: seq<Sample>)
    requires GroupsOf(gs, xs)
    ensures GroupTable(gs) == Table(xs, UptimeOf)
  {
    var a, b := GroupTable(gs), Table(xs, UptimeOf);
    forall t ensures (t in a <==> t in b) && Row(a, t) == Row(b, t) {
      GroupKeys(gs, t, []);
      NamesSampled(gs, xs, t, []);
      GroupRow(gs, xs, t);
      TableRow(xs, UptimeOf, t);
    }
    SameRows(a, b);
  }
}
