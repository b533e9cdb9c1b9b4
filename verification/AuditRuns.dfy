/** The audit over whole runs in which writes fail. */
module AuditRuns {
  import opened Utf8
  import opened Credentials

  /** One row's change, with what becomes of its two writes. historyFirst: it is
      part of a reset. */
  datatype Op = Op(k: CredKey, password: Str, who: string, historyFirst: bool, fault: Fault)

  function Do(s: Store, op: Op): Store {
    if op.historyFirst then ResetFaulty(s, op.k, op.password, op.who, op.fault)
    else ChangeFaulty(s, op.k, op.password, op.who, op.fault)
  }

  datatype Event = Started(newTeams: seq<nat>, lists: seq<Credlist>) | Written(op: Op)

  ghost function Happens(w: Site, ev: Event): Site {
    match ev
    case Started(newTeams, lists) => Site(Startup(w.store, w.teams + newTeams, lists).store, w.teams + newTeams)
    case Written(op) => w.(store := Do(w.store, op))
  }

  ghost function FaultyRun(evs: seq<Event>): Site {
    if evs == [] then Site(EMPTY, []) else Happens(FaultyRun(evs[..|evs| - 1]), evs[|evs| - 1])
  }

  // ----------------------------------------------------------- one row by itself

  /** What can be said of one row from its own writes: the password the history
      tells of, the one in force, and whether every entry told the truth about
      what it replaced. */
  datatype Row = Row(told: Str, now: Str, sound: bool)

  function Next(r: Row, op: Op): Row {
    match op.fault
    case NoFault => Row(op.password, op.password, r.sound && r.told == r.now)
    case HistoryFails => if op.historyFirst then r else r.(now := op.password)
    case SaveFails => if op.historyFirst then Row(op.password, r.now, r.sound && r.told == r.now) else r
  }

  predicate Fine(r: Row) { r.sound && r.told == r.now }

  /** A row from its seeding on. */
  ghost function RowAfter(evs: seq<Event>, k: CredKey): Row
    requires k in FaultyRun(evs).store.creds
  {
    var front, ev := evs[..|evs| - 1], evs[|evs| - 1];
    var now := FaultyRun(evs).store.creds[k];
    if k !in FaultyRun(front).store.creds then Row(now, now, true)
    else if ev.Written? && ev.op.k == k then Next(RowAfter(front, k), ev.op)
    else RowAfter(front, k)
  }

  // --------------------------------------------------- the history and the rows

  ghost predicate Known(s: Store) { forall c | c in s.history :: c.key in s.creds }

  ghost function Told(s: Store): map<CredKey, Str>
    requires AllOrNone(s)
  {
    Replay(Seeded(s), s.history)
  }

  lemma {:induction false} ReplayKeys(base: map<CredKey, Str>, h: seq<Change>)
    requires forall c | c in h :: c.key in base
    ensures Replay(base, h).Keys == base.Keys
  {
    if h != [] {
      var front, c := h[..|h| - 1], h[|h| - 1];
      assert c in h && forall x | x in front :: x in h;
      ReplayKeys(base, front);
    }
  }

  /** New rows in the table change nothing of what a history says. */
  lemma {:induction false} ReplayOverMore(a: map<CredKey, Str>, b: map<CredKey, Str>, h: seq<Change>)
    requires Extends(a, b) && forall c | c in h :: c.key in a
    ensures Chained(a, h) <==> Chained(b, h)
    ensures forall k | k in a :: k in Replay(a, h) && k in Replay(b, h) && Replay(b, h)[k] == Replay(a, h)[k]
    ensures forall k | k in b && k !in a :: k in Replay(b, h) && Replay(b, h)[k] == b[k]
  {
    if h != [] {
      var front, c := h[..|h| - 1], h[|h| - 1];
      assert c in h && forall x | x in front :: x in h;
      ReplayOverMore(a, b, front);
    }
  }

  /** Global facts a write keeps. */
  ghost predicate Sound(w: Site) { AllOrNone(w.store) && TeamsKnown(w.store, w.teams) && Known(w.store) }

  lemma WriteKeepsRows(s: Store, op: Op)
    ensures Do(s, op).creds.Keys == s.creds.Keys && Do(s, op).originals == s.originals
    ensures forall k | k in s.creds && k != op.k :: Do(s, op).creds[k] == s.creds[k]
  {
  }

  lemma SeededByKeys(s: Store, t: Store)
    requires AllOrNone(s) && t.creds.Keys == s.creds.Keys && t.originals == s.originals
    ensures AllOrNone(t) && Seeded(t) == Seeded(s)
  {
    forall k | k in t.creds ensures Orig(k) in t.originals { assert k in s.creds; }
    forall k, q | k in t.creds && q in t.originals ensures CredKey(k.team, q.list, q.user) in t.creds { assert k in s.creds; }
  }

  lemma WriteKeepsKnown(s: Store, op: Op)
    requires Known(s)
    ensures Known(Do(s, op))
  {
    WriteHistory(s, op);
    WriteKeepsRows(s, op);
    forall c | c in Do(s, op).history ensures c.key in Do(s, op).creds {
      if c !in s.history { assert c in Entry(s, op); }
    }
  }

  lemma WriteKeepsSound(w: Site, op: Op)
    requires Sound(w)
    ensures Sound(w.(store := Do(w.store, op)))
    ensures Seeded(Do(w.store, op)) == Seeded(w.store)
  {
    WriteKeepsRows(w.store, op);
    SeededByKeys(w.store, Do(w.store, op));
    SameTeams(w.store, Do(w.store, op), w.teams);
    WriteKeepsKnown(w.store, op);
  }

  lemma StartKeepsSound(w: Site, newTeams: seq<nat>, lists: seq<Credlist>)
    requires Sound(w)
    ensures Sound(Site(Startup(w.store, w.teams + newTeams, lists).store, w.teams + newTeams))
  {
    assert TeamsKnown(w.store, w.teams + newTeams);
    StartupSeeds(w.store, w.teams + newTeams, lists);
  }

  /** What a write adds to the history. */
  function Entry(s: Store, op: Op): seq<Change> {
    if op.k !in s.creds || op.fault.HistoryFails? || (op.fault.SaveFails? && !op.historyFirst) then []
    else [Change(op.k, s.creds[op.k], op.password, op.who)]
  }

  lemma WriteHistory(s: Store, op: Op)
    ensures Do(s, op).history == s.history + Entry(s, op)
  {
  }

  /** A row of the run, told by the store. */
  ghost predicate RowIs(s: Store, k: CredKey, r: Row)
    requires AllOrNone(s)
  {
    k in s.creds && k in Told(s) && r.now == s.creds[k] && r.told == Told(s)[k]
  }

  lemma ToldAfter(s: Store, op: Op)
    requires AllOrNone(s) && AllOrNone(Do(s, op)) && Seeded(Do(s, op)) == Seeded(s)
    ensures Told(Do(s, op)) == if Entry(s, op) == [] then Told(s) else Told(s)[op.k := op.password]
  {
    WriteHistory(s, op);
    if Entry(s, op) == [] {
      assert s.history + [] == s.history;
    } else {
      ReplayOne(Seeded(s), s.history, Entry(s, op)[0]);
    }
  }

  lemma NowAfter(s: Store, op: Op, r: Row)
    requires op.k in s.creds && r.now == s.creds[op.k]
    ensures op.k in Do(s, op).creds && Do(s, op).creds[op.k] == Next(r, op).now
    ensures Next(r, op).told == if Entry(s, op) == [] then r.told else op.password
  {
  }

  lemma WriteTold(s: Store, op: Op, k: CredKey, r: Row)
    requires AllOrNone(s) && AllOrNone(Do(s, op)) && Seeded(Do(s, op)) == Seeded(s) && RowIs(s, k, r)
    ensures RowIs(Do(s, op), k, if op.k == k then Next(r, op) else r)
  {
    ToldAfter(s, op);
    WriteKeepsRows(s, op);
    if op.k == k {
      NowAfter(s, op, r);
      assert Told(Do(s, op))[k] == Next(r, op).told;
    } else {
      assert Told(Do(s, op))[k] == Told(s)[k];
    }
  }

  /** Whether the chain of entries still holds after a write. */
  lemma WriteChain(s: Store, op: Op)
    requires AllOrNone(s) && Known(s)
    ensures Chained(Seeded(s), Do(s, op).history) <==>
            Chained(Seeded(s), s.history) && (Entry(s, op) != [] ==> op.k in Told(s) && Told(s)[op.k] == s.creds[op.k])
  {
    WriteHistory(s, op);
    if Entry(s, op) == [] {
      assert s.history + [] == s.history;
    } else {
      ReplayOne(Seeded(s), s.history, Entry(s, op)[0]);
    }
  }

  // ---------------------------------------------------------------- whole runs

  ghost predicate RowsAreTold(evs: seq<Event>)
    requires AllOrNone(FaultyRun(evs).store)
  {
    forall k | k in FaultyRun(evs).store.creds :: RowIs(FaultyRun(evs).store, k, RowAfter(evs, k))
  }

  ghost predicate AllSound(evs: seq<Event>) {
    forall k | k in FaultyRun(evs).store.creds :: RowAfter(evs, k).sound
  }

  ghost predicate ChainHolds(s: Store)
    requires AllOrNone(s)
  {
    Chained(Seeded(s), s.history)
  }

  ghost predicate Invariant(evs: seq<Event>) {
    && Sound(FaultyRun(evs))
    && RowsAreTold(evs)
    && (ChainHolds(FaultyRun(evs).store) <==> AllSound(evs))
  }

  lemma WrittenRow(evs: seq<Event>, k: CredKey)
    requires evs != [] && evs[|evs| - 1].Written? && k in FaultyRun(evs[..|evs| - 1]).store.creds
    ensures k in FaultyRun(evs).store.creds
    ensures var r := RowAfter(evs[..|evs| - 1], k);
            RowAfter(evs, k) == if evs[|evs| - 1].op.k == k then Next(r, evs[|evs| - 1].op) else r
  {
    WriteKeepsRows(FaultyRun(evs[..|evs| - 1]).store, evs[|evs| - 1].op);
  }

  lemma SoundNext(r: Row, op: Op)
    ensures Next(r, op).sound <==>
            r.sound && (!(op.fault.HistoryFails? || (op.fault.SaveFails? && !op.historyFirst)) ==> r.told == r.now)
  {
  }

  lemma WrittenInvariant(evs: seq<Event>)
    requires evs != [] && evs[|evs| - 1].Written? && Invariant(evs[..|evs| - 1])
    ensures Invariant(evs)
  {
    var front, op := evs[..|evs| - 1], evs[|evs| - 1].op;
    var w, s := FaultyRun(front), FaultyRun(front).store;
    WriteKeepsSound(w, op);
    WriteKeepsRows(s, op);
    assert FaultyRun(evs) == w.(store := Do(s, op));
    forall k | k in Do(s, op).creds ensures RowIs(Do(s, op), k, RowAfter(evs, k)) {
      WrittenRow(evs, k);
      WriteTold(s, op, k, RowAfter(front, k));
    }
    WriteChain(s, op);
    WrittenSoundness(evs);
  }

  lemma WrittenSoundness(evs: seq<Event>)
    requires evs != [] && evs[|evs| - 1].Written? && Invariant(evs[..|evs| - 1])
    ensures var front, op := evs[..|evs| - 1], evs[|evs| - 1].op;
            var s := FaultyRun(front).store;
            AllSound(evs) <==>
              AllSound(front) && (Entry(s, op) != [] ==> op.k in Told(s) && Told(s)[op.k] == s.creds[op.k])
  {
    var front, op := evs[..|evs| - 1], evs[|evs| - 1].op;
    var s := FaultyRun(front).store;
    WriteKeepsRows(s, op);
    assert FaultyRun(evs).store.creds.Keys == s.creds.Keys;
    forall k | k in s.creds
      ensures RowAfter(evs, k).sound <==> RowAfter(front, k).sound && (k == op.k && Entry(s, op) != [] ==> Told(s)[k] == s.creds[k])
    {
      WrittenRow(evs, k);
      assert RowIs(s, k, RowAfter(front, k));
      if op.k == k { SoundNext(RowAfter(front, k), op); }
    }
    if op.k in s.creds { assert RowIs(s, op.k, RowAfter(front, op.k)); }
  }

  lemma StartedRow(evs: seq<Event>, k: CredKey)
    requires evs != [] && evs[|evs| - 1].Started? && Sound(FaultyRun(evs[..|evs| - 1]))
    requires k in FaultyRun(evs).store.creds
    ensures var s, now := FaultyRun(evs[..|evs| - 1]).store, FaultyRun(evs).store.creds[k];
            RowAfter(evs, k) == if k in s.creds then RowAfter(evs[..|evs| - 1], k) else Row(now, now, true)
  {
  }

  lemma SeededRows(s: Store, k: CredKey)
    requires AllOrNone(s)
    ensures k in Seeded(s) <==> k in s.creds
    ensures k in s.creds ==> Orig(k) in s.originals && Seeded(s)[k] == s.originals[Orig(k)]
  {
  }

  lemma GrownTold(s: Store, t: Store)
    requires AllOrNone(s) && AllOrNone(t) && Known(s) && t.history == s.history
    requires Extends(s.originals, t.originals) && Extends(s.creds, t.creds)
    requires forall k | k in t.creds && k !in s.creds :: t.creds[k] == t.originals[Orig(k)]
    ensures ChainHolds(s) <==> ChainHolds(t)
    ensures forall k | k in s.creds :: k in Told(s) && k in Told(t) && Told(t)[k] == Told(s)[k]
    ensures forall k | k in t.creds && k !in s.creds :: k in Told(t) && Told(t)[k] == t.creds[k]
  {
    var a, b, h := Seeded(s), Seeded(t), s.history;
    SeededGrows(s, t);
    forall c | c in h ensures c.key in a { SeededRows(s, c.key); }
    ReplayOverMore(a, b, h);
    forall k | k in s.creds ensures k in Told(s) && k in Told(t) && Told(t)[k] == Told(s)[k] { SeededRows(s, k); }
    forall k | k in t.creds && k !in s.creds ensures k in Told(t) && Told(t)[k] == t.creds[k] {
      SeededRows(s, k);
      SeededRows(t, k);
    }
  }

  lemma StartedInvariant(evs: seq<Event>)
    requires evs != [] && evs[|evs| - 1].Started? && Invariant(evs[..|evs| - 1])
    ensures Invariant(evs)
  {
    var front, ev := evs[..|evs| - 1], evs[|evs| - 1];
    var w := FaultyRun(front);
    var s, t := w.store, FaultyRun(evs).store;
    StartKeepsSound(w, ev.newTeams, ev.lists);
    assert TeamsKnown(s, w.teams + ev.newTeams);
    StartupSeeds(s, w.teams + ev.newTeams, ev.lists);
    GrownTold(s, t);
    forall k | k in t.creds ensures RowIs(t, k, RowAfter(evs, k)) && (k in s.creds ==> RowAfter(evs, k).sound == RowAfter(front, k).sound) && (k !in s.creds ==> RowAfter(evs, k).sound) {
      StartedRow(evs, k);
      if k in s.creds { assert RowIs(s, k, RowAfter(front, k)); }
    }
  }

  lemma NothingYet()
    ensures Invariant([])
  {
    assert Seeded(EMPTY) == map[];
  }

  lemma {:induction false} RunKeepsInvariant(evs: seq<Event>)
    ensures Invariant(evs)
  {
    if evs == [] {
      NothingYet();
    } else {
      RunKeepsInvariant(evs[..|evs| - 1]);
      if evs[|evs| - 1].Written? { WrittenInvariant(evs); } else { StartedInvariant(evs); }
    }
  }

  lemma SameTold(s: Store)
    requires AllOrNone(s) && Known(s)
    ensures s.creds == Told(s) <==> forall k | k in s.creds :: k in Told(s) && Told(s)[k] == s.creds[k]
  {
    ReplayKeys(Seeded(s), s.history);
    assert Seeded(s).Keys == s.creds.Keys;
  }

  /** Exactly when the audit survives a run of startups, changes and resets, any
      of whose writes may fail: when each row, taken by itself, was told of
      truly by every entry it got and ends with the password it was last told
      of. */
  lemma AuditedIffEveryRowIsFine(evs: seq<Event>)
    ensures var s := FaultyRun(evs).store;
            Audited(s) <==> forall k | k in s.creds :: Fine(RowAfter(evs, k))
  {
    RunKeepsInvariant(evs);
    var s := FaultyRun(evs).store;
    SameTold(s);
    forall k | k in s.creds ensures k in Told(s) && (Fine(RowAfter(evs, k)) <==> RowAfter(evs, k).sound && Told(s)[k] == s.creds[k]) {
      assert RowIs(s, k, RowAfter(evs, k));
    }
  }

  // ------------------------------------------------ batches and resets as writes

  lemma RunOne(evs: seq<Event>, ev: Event)
    ensures FaultyRun(evs + [ev]) == Happens(FaultyRun(evs), ev)
  {
    assert (evs + [ev])[..|evs|] == evs;
  }

  /** A batch of changes, up to a write that fails. */
  function BatchWrites(team: nat, list: Str, users: seq<Str>, passwords: seq<Str>, who: string, faults: seq<Fault>): seq<Event>
    requires |users| == |passwords| == |faults|
  {
    if users == [] then []
    else
      var n := |users| - 1;
      BatchWrites(team, list, users[..n], passwords[..n], who, faults[..n]) +
      [Written(Op(CredKey(team, list, users[n]), passwords[n], who, false, faults[n]))]
  }

  /** A change with no fault, or for a user without a row, is the batch's. */
  lemma WriteIsChange(s: Store, op: Op)
    requires !op.historyFirst && (op.k in s.creds ==> op.fault.NoFault?)
    ensures Do(s, op) == ChangeOne(s, op.k, op.password, op.who)
  {
  }

  lemma OneMoreWrite(evs: seq<Event>, front: seq<Event>, op: Op)
    ensures FaultyRun(evs + (front + [Written(op)])).store == Do(FaultyRun(evs + front).store, op)
  {
    assert evs + (front + [Written(op)]) == (evs + front) + [Written(op)];
    RunOne(evs + front, Written(op));
  }

  lemma {:induction false} BatchIsWrites(evs: seq<Event>, team: nat, list: Str, users: seq<Str>, passwords: seq<Str>, who: string,
                                         faults: seq<Fault>)
    requires |users| == |passwords| == |faults|
    requires forall i | 0 <= i < |users| && CredKey(team, list, users[i]) in FaultyRun(evs).store.creds :: faults[i].NoFault?
    ensures FaultyRun(evs + BatchWrites(team, list, users, passwords, who, faults)).store ==
            ChangeAll(FaultyRun(evs).store, team, list, users, passwords, who)
  {
    if users == [] {
      assert evs + [] == evs;
    } else {
      BatchIsWrites(evs, team, list, users[..|users| - 1], passwords[..|users| - 1], who, faults[..|users| - 1]);
      LastOfBatch(evs, team, list, users, passwords, who, faults);
    }
  }

  lemma LastOfBatch(evs: seq<Event>, team: nat, list: Str, users: seq<Str>, passwords: seq<Str>, who: string, faults: seq<Fault>)
    requires |users| == |passwords| == |faults| && users != []
    requires var n := |users| - 1;
             && (CredKey(team, list, users[n]) in FaultyRun(evs).store.creds ==> faults[n].NoFault?)
             && FaultyRun(evs + BatchWrites(team, list, users[..n], passwords[..n], who, faults[..n])).store ==
                ChangeAll(FaultyRun(evs).store, team, list, users[..n], passwords[..n], who)
    ensures FaultyRun(evs + BatchWrites(team, list, users, passwords, who, faults)).store ==
            ChangeAll(FaultyRun(evs).store, team, list, users, passwords, who)
  {
    var n := |users| - 1;
    var front := BatchWrites(team, list, users[..n], passwords[..n], who, faults[..n]);
    var op := Op(CredKey(team, list, users[n]), passwords[n], who, false, faults[n]);
    BatchSetsLastPassword(FaultyRun(evs).store, team, list, users[..n], passwords[..n], who, op.k);
    WriteIsChange(FaultyRun(evs + front).store, op);
    OneMoreWrite(evs, front, op);
  }

  function ResetWrites(o: map<OrigKey, Str>, team: nat, list: Str, users: seq<Str>, who: string): seq<Event> {
    if users == [] then []
    else
      var n := |users| - 1;
      ResetWrites(o, team, list, users[..n], who) +
      (if OrigKey(list, users[n]) in o
       then [Written(Op(CredKey(team, list, users[n]), o[OrigKey(list, users[n])], who, true, NoFault))] else [])
  }

  lemma {:induction false} ResetIsWrites(evs: seq<Event>, team: nat, list: Str, users: seq<Str>, who: string)
    ensures var s := FaultyRun(evs).store;
            FaultyRun(evs + ResetWrites(s.originals, team, list, users, who)).store == ResetAll(s, team, list, users, who)
  {
    if users == [] {
      assert evs + [] == evs;
    } else {
      var s, n := FaultyRun(evs).store, |users| - 1;
      var front := ResetWrites(s.originals, team, list, users[..n], who);
      var all := ResetWrites(s.originals, team, list, users, who);
      ResetIsWrites(evs, team, list, users[..n], who);
      ResetSetsOriginals(s, team, list, users[..n], who, CredKey(team, list, users[n]));
      if OrigKey(list, users[n]) in s.originals {
        OneMoreWrite(evs, front, all[|front|].op);
      } else {
        assert all == front;
      }
    }
  }

  // -------------------------------------------------------------- a healed row

  const TEAM_NEW := Op(ROW, NEW, "team1", false, NoFault)
  const RESET_UNSAVED := Op(ROW, OLD, "admin", true, SaveFails)
  const TEAM_OLD := Op(ROW, OLD, "team1", false, HistoryFails)

  function SeededEvents(): seq<Event> { [Event.Started([1], OneList())] }

  lemma SeededRow()
    ensures ROW in FaultyRun(SeededEvents()).store.creds
    ensures forall k | k in FaultyRun(SeededEvents()).store.creds :: Fine(RowAfter(SeededEvents(), k))
    ensures RowAfter(SeededEvents(), ROW) == Row(OLD, OLD, true)
  {
    var evs := SeededEvents();
    assert evs[..0] == [] && FaultyRun(evs[..0]) == Site(EMPTY, []);
    assert [] + [1] == [1];
    OneStartup();
  }

  /** Only the row's own writes make it fine or not. */
  lemma OnlyRow(evs: seq<Event>, op: Op)
    requires op.k == ROW && ROW in FaultyRun(evs).store.creds
    requires forall k | k in FaultyRun(evs).store.creds && k != ROW :: Fine(RowAfter(evs, k))
    ensures var more := evs + [Written(op)];
            && ROW in FaultyRun(more).store.creds
            && RowAfter(more, ROW) == Next(RowAfter(evs, ROW), op)
            && forall k | k in FaultyRun(more).store.creds && k != ROW :: Fine(RowAfter(more, k))
  {
    var more := evs + [Written(op)];
    assert more[..|more| - 1] == evs && more[|more| - 1] == Written(op);
    RunOne(evs, Written(op));
    WriteKeepsRows(FaultyRun(evs).store, op);
    forall k | k in FaultyRun(evs).store.creds ensures RowAfter(more, k) == if k == ROW then Next(RowAfter(evs, k), op) else RowAfter(evs, k) {
      WrittenRow(more, k);
    }
  }

  /** A reset whose save fails costs the audit; a later change back to the
      original, its history insert failing too, makes it whole again. */
  lemma FailedSaveCanBeHealed() returns (evs: seq<Event>)
    ensures !Audited(FaultyRun(evs).store)
    ensures Audited(FaultyRun(evs + [Written(TEAM_OLD)]).store)
  {
    var seeded := SeededEvents();
    SeededRow();
    OnlyRow(seeded, TEAM_NEW);
    var changed := seeded + [Written(TEAM_NEW)];
    OnlyRow(changed, RESET_UNSAVED);
    evs := changed + [Written(RESET_UNSAVED)];
    assert OLD[0] != NEW[0];
    assert !Fine(RowAfter(evs, ROW));
    AuditedIffEveryRowIsFine(evs);
    OnlyRow(evs, TEAM_OLD);
    AuditedIffEveryRowIsFine(evs + [Written(TEAM_OLD)]);
  }
}
