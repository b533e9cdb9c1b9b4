/** The score reports: the exported totals, a team's own score and the last
    point of the series, three ways of adding up one log. */
module Reports {
  import opened Utf8
  import opened Ledger
  import opened Sums
  import opened Numbering
  import G = Graph

  type Key = (nat, Str)

  datatype ServiceScore = ServiceScore(key: Key, points: int, violations: int, penalty: int)

  /** A row of the SLA query that groups by team and service. */
  datatype SlaGroup = SlaGroup(key: Key, violations: int, penalty: int)

  function PointRows(log: seq<CheckRow>): seq<Cell<Key>> {
    seq(|log|, i requires 0 <= i < |log| => Cell((log[i].team, log[i].service), G.Earned(log[i])))
  }

  function CountRows(slas: seq<SlaRow>): seq<Cell<Key>> {
    seq(|slas|, i requires 0 <= i < |slas| => Cell((slas[i].team, slas[i].service), 1))
  }

  function PenaltyRows(slas: seq<SlaRow>): seq<Cell<Key>> {
    seq(|slas|, i requires 0 <= i < |slas| => Cell((slas[i].team, slas[i].service), slas[i].penalty))
  }

  function Counts(gs: seq<SlaGroup>): seq<Cell<Key>> {
    seq(|gs|, i requires 0 <= i < |gs| => Cell(gs[i].key, gs[i].violations))
  }

  function Penalties(gs: seq<SlaGroup>): seq<Cell<Key>> {
    seq(|gs|, i requires 0 <= i < |gs| => Cell(gs[i].key, gs[i].penalty))
  }

  /** The two grouped queries, their rows in any order. */
  ghost predicate Queried(points: seq<Cell<Key>>, gs: seq<SlaGroup>, log: seq<CheckRow>, slas: seq<SlaRow>) {
    Grouped(points, PointRows(log)) && Grouped(Counts(gs), CountRows(slas)) && Grouped(Penalties(gs), PenaltyRows(slas))
  }

  // ------------------------------------------------------- GetServiceScores

  function ScorePoints(d: seq<ServiceScore>): seq<Cell<Key>> {
    seq(|d|, i requires 0 <= i < |d| => Cell(d[i].key, d[i].points))
  }

  function ScoreCounts(d: seq<ServiceScore>): seq<Cell<Key>> {
    seq(|d|, i requires 0 <= i < |d| => Cell(d[i].key, d[i].violations))
  }

  function ScorePenalties(d: seq<ServiceScore>): seq<Cell<Key>> {
    seq(|d|, i requires 0 <= i < |d| => Cell(d[i].key, d[i].penalty))
  }

  /** The outer merge of the two groupings, looked up by key. */
  ghost predicate Merged(m: map<Key, ServiceScore>, points: seq<Cell<Key>>, gs: seq<SlaGroup>) {
    && (forall k :: k in m <==> (exists p | p in points :: p.key == k) || (exists g | g in gs :: g.key == k))
    && (forall k | k in m :: m[k].key == k)
    && (forall p | p in points :: m[p.key].points == p.value)
    && (forall g | g in gs :: m[g.key].violations == g.violations && m[g.key].penalty == g.penalty)
    && (forall k | k in m :: (forall p | p in points :: p.key != k) ==> m[k].points == 0)
    && (forall k | k in m :: (forall g | g in gs :: g.key != k) ==> m[k].violations == 0 && m[k].penalty == 0)
  }

  ghost predicate DistinctKeys(points: seq<Cell<Key>>, gs: seq<SlaGroup>) {
    && (forall i, j | 0 <= i < j < |points| :: points[i].key != points[j].key)
    && (forall i, j | 0 <= i < j < |gs| :: gs[i].key != gs[j].key)
  }

  method MergeGroups(points: seq<Cell<Key>>, gs: seq<SlaGroup>) returns (m: map<Key, ServiceScore>)
    requires DistinctKeys(points, gs)
    ensures Merged(m, points, gs)
  {
    m := map[];
    for i := 0 to |points|
      invariant Merged(m, points[..i], [])
    {
      var p := points[i];
      assert points[..i + 1] == points[..i] + [p];
      MergePoint(m, points[..i], p);
      m := m[p.key := ServiceScore(p.key, p.value, 0, 0)];
    }
    assert points[..|points|] == points;
    for i := 0 to |gs|
      invariant Merged(m, points, gs[..i])
    {
      var g := gs[i];
      assert gs[..i + 1] == gs[..i] + [g];
      MergeSla(m, points, gs[..i], g);
      var d := if g.key in m then m[g.key] else ServiceScore(g.key, 0, 0, 0);
      m := m[g.key := d.(violations := g.violations, penalty := g.penalty)];
    }
    assert gs[..|gs|] == gs;
  }

  lemma MergePoint(m: map<Key, ServiceScore>, points: seq<Cell<Key>>, p: Cell<Key>)
    requires Merged(m, points, []) && forall q | q in points :: q.key != p.key
    ensures Merged(m[p.key := ServiceScore(p.key, p.value, 0, 0)], points + [p], [])
  {
    var points' := points + [p];
    assert forall q :: q in points' <==> q in points || q == p;
    var m' := m[p.key := ServiceScore(p.key, p.value, 0, 0)];
    forall k ensures k in m' <==> exists q | q in points' :: q.key == k {
      if q :| q in points && q.key == k { assert q in points'; }
      assert p in points';
    }
  }

  lemma MergeSla(m: map<Key, ServiceScore>, points: seq<Cell<Key>>, gs: seq<SlaGroup>, g: SlaGroup)
    requires Merged(m, points, gs) && forall h | h in gs :: h.key != g.key
    ensures var d := if g.key in m then m[g.key] else ServiceScore(g.key, 0, 0, 0);
            Merged(m[g.key := d.(violations := g.violations, penalty := g.penalty)], points, gs + [g])
  {
    var gs' := gs + [g];
    assert forall h :: h in gs' <==> h in gs || h == g;
    var d := if g.key in m then m[g.key] else ServiceScore(g.key, 0, 0, 0);
    var m' := m[g.key := d.(violations := g.violations, penalty := g.penalty)];
    forall k ensures k in m' <==> (exists p | p in points :: p.key == k) || (exists h | h in gs' :: h.key == k) {
      if h :| h in gs && h.key == k { assert h in gs'; }
      assert g in gs';
    }
  }

  /** Each key once, with its values, in the order the map is walked. */
  method Flatten(m: map<Key, ServiceScore>) returns (data: seq<ServiceScore>)
    requires forall k | k in m :: m[k].key == k
    ensures forall i, j | 0 <= i < j < |data| :: data[i].key != data[j].key
    ensures forall d | d in data :: d.key in m && m[d.key] == d
    ensures forall k | k in m :: m[k] in data
  {
    data := [];
    var left := m.Keys;
    while left != {}
      invariant left <= m.Keys
      invariant forall i, j | 0 <= i < j < |data| :: data[i].key != data[j].key
      invariant forall d | d in data :: d.key in m && m[d.key] == d && d.key !in left
      invariant forall k | k in m && k !in left :: m[k] in data
      decreases left
    {
      var k :| k in left;
      data := data + [m[k]];
      left := left - {k};
    }
  }

  /** A key that has a row in the log or among the SLA rows. */
  ghost predicate Known(key: Key, log: seq<CheckRow>, slas: seq<SlaRow>) {
    (exists r | r in log :: (r.team, r.service) == key) || (exists r | r in slas :: (r.team, r.service) == key)
  }

  /** Each key with a row once, at its sums, and no other key. */
  ghost predicate IsServiceScores(data: seq<ServiceScore>, log: seq<CheckRow>, slas: seq<SlaRow>) {
    && (forall d | d in data :: Known(d.key, log, slas))
    && Covers(ScorePoints(data), PointRows(log))
    && Covers(ScoreCounts(data), CountRows(slas))
    && Covers(ScorePenalties(data), PenaltyRows(slas))
  }

  method GetServiceScores(points: seq<Cell<Key>>, gs: seq<SlaGroup>, ghost log: seq<CheckRow>, ghost slas: seq<SlaRow>)
    returns (data: seq<ServiceScore>)
    requires Queried(points, gs, log, slas)
    ensures IsServiceScores(data, log, slas)
  {
    QueriedKeys(points, gs, log, slas);
    var m := MergeGroups(points, gs);
    data := Flatten(m);
    CoverPoints(data, m, points, gs, log);
    CoverSlas(data, m, points, gs, slas);
    forall d | d in data ensures Known(d.key, log, slas) { KnownKey(points, gs, log, slas, d.key); }
  }

  lemma PointKeyKnown(log: seq<CheckRow>, c: Cell<Key>)
    requires c in PointRows(log)
    ensures exists r | r in log :: (r.team, r.service) == c.key
  {
    var i :| 0 <= i < |log| && PointRows(log)[i] == c;
    assert log[i] in log;
  }

  lemma CountKeyKnown(slas: seq<SlaRow>, c: Cell<Key>)
    requires c in CountRows(slas)
    ensures exists r | r in slas :: (r.team, r.service) == c.key
  {
    var i :| 0 <= i < |slas| && CountRows(slas)[i] == c;
    assert slas[i] in slas;
  }

  lemma KnownKey(points: seq<Cell<Key>>, gs: seq<SlaGroup>, log: seq<CheckRow>, slas: seq<SlaRow>, key: Key)
    requires Queried(points, gs, log, slas)
    requires (exists p | p in points :: p.key == key) || (exists g | g in gs :: g.key == key)
    ensures Known(key, log, slas)
  {
    if p :| p in points && p.key == key {
      var c :| c in PointRows(log) && c.key == p.key;
      PointKeyKnown(log, c);
    } else {
      var g :| g in gs && g.key == key;
      GroupCells(gs, g);
      var x := Cell(g.key, g.violations);
      assert x in Counts(gs) && x.key == key;
      var c :| c in CountRows(slas) && c.key == x.key;
      CountKeyKnown(slas, c);
    }
  }

  lemma QueriedKeys(points: seq<Cell<Key>>, gs: seq<SlaGroup>, log: seq<CheckRow>, slas: seq<SlaRow>)
    requires Queried(points, gs, log, slas)
    ensures DistinctKeys(points, gs)
  {
    forall i, j | 0 <= i < j < |gs| ensures gs[i].key != gs[j].key {
      assert Counts(gs)[i].key != Counts(gs)[j].key;
    }
  }

  /** data is m's values in some order. */
  ghost predicate Listed(data: seq<ServiceScore>, m: map<Key, ServiceScore>) {
    && (forall k | k in m :: m[k].key == k)
    && (forall i, j | 0 <= i < j < |data| :: data[i].key != data[j].key)
    && (forall d | d in data :: d.key in m && m[d.key] == d)
    && (forall k | k in m :: m[k] in data)
  }

  lemma AbsentSum(gs: seq<Cell<Key>>, rows: seq<Cell<Key>>, key: Key)
    requires Covers(gs, rows) && forall g | g in gs :: g.key != key
    ensures SumOf(rows, Is(key)) == 0
  {
    forall r | r in rows ensures !Is(key)(r.key) {
      var g :| g in gs && g.key == r.key;
    }
    SumNone(rows, Is(key));
  }

  lemma CoverPoints(data: seq<ServiceScore>, m: map<Key, ServiceScore>, points: seq<Cell<Key>>, gs: seq<SlaGroup>,
                    log: seq<CheckRow>)
    requires Listed(data, m) && Merged(m, points, gs) && Covers(points, PointRows(log))
    ensures Covers(ScorePoints(data), PointRows(log))
  {
    var cells, rows := ScorePoints(data), PointRows(log);
    forall c | c in cells ensures c.value == SumOf(rows, Is(c.key)) {
      var i :| 0 <= i < |data| && cells[i] == c;
      var k := data[i].key;
      assert data[i] in data && m[k] == data[i];
      if p :| p in points && p.key == k { } else { AbsentSum(points, rows, k); }
    }
    forall r | r in rows ensures exists c | c in cells :: c.key == r.key {
      var p :| p in points && p.key == r.key;
      var i :| 0 <= i < |data| && data[i] == m[p.key];
      assert cells[i] in cells;
    }
  }

  lemma CoverSlas(data: seq<ServiceScore>, m: map<Key, ServiceScore>, points: seq<Cell<Key>>, gs: seq<SlaGroup>,
                  slas: seq<SlaRow>)
    requires Listed(data, m) && Merged(m, points, gs)
    requires Covers(Counts(gs), CountRows(slas)) && Covers(Penalties(gs), PenaltyRows(slas))
    ensures Covers(ScoreCounts(data), CountRows(slas)) && Covers(ScorePenalties(data), PenaltyRows(slas))
  {
    CoverBy(data, m, points, gs, slas);
    KeysListed(data, m, points, gs, slas);
  }

  lemma GroupCells(gs: seq<SlaGroup>, g: SlaGroup)
    requires g in gs
    ensures Cell(g.key, g.violations) in Counts(gs) && Cell(g.key, g.penalty) in Penalties(gs)
  {
    var i :| 0 <= i < |gs| && gs[i] == g;
    assert Counts(gs)[i] in Counts(gs) && Penalties(gs)[i] in Penalties(gs);
  }

  lemma CoverBy(data: seq<ServiceScore>, m: map<Key, ServiceScore>, points: seq<Cell<Key>>, gs: seq<SlaGroup>,
                slas: seq<SlaRow>)
    requires Listed(data, m) && Merged(m, points, gs)
    requires Covers(Counts(gs), CountRows(slas)) && Covers(Penalties(gs), PenaltyRows(slas))
    ensures forall d | d in data :: d.violations == SumOf(CountRows(slas), Is(d.key)) && d.penalty == SumOf(PenaltyRows(slas), Is(d.key))
  {
    forall d | d in data ensures d.violations == SumOf(CountRows(slas), Is(d.key)) && d.penalty == SumOf(PenaltyRows(slas), Is(d.key)) {
      if g :| g in gs && g.key == d.key {
        GroupCells(gs, g);
      } else {
        AbsentSum(Counts(gs), CountRows(slas), d.key);
        AbsentSum(Penalties(gs), PenaltyRows(slas), d.key);
      }
    }
  }

  ghost predicate DataHas(data: seq<ServiceScore>, key: Key) { exists i: nat :: i < |data| && data[i].key == key }

  lemma ListedKey(data: seq<ServiceScore>, key: Key)
    requires DataHas(data, key)
    ensures exists c | c in ScoreCounts(data) :: c.key == key
    ensures exists c | c in ScorePenalties(data) :: c.key == key
  {
    var i: nat :| i < |data| && data[i].key == key;
    assert ScoreCounts(data)[i] in ScoreCounts(data) && ScoreCounts(data)[i].key == key;
    assert ScorePenalties(data)[i] in ScorePenalties(data) && ScorePenalties(data)[i].key == key;
  }

  lemma SlaKeyListed(data: seq<ServiceScore>, m: map<Key, ServiceScore>, points: seq<Cell<Key>>, gs: seq<SlaGroup>,
                     slas: seq<SlaRow>, n: nat)
    requires Listed(data, m) && Merged(m, points, gs) && Covers(Counts(gs), CountRows(slas)) && n < |slas|
    ensures DataHas(data, (slas[n].team, slas[n].service))
  {
    var key := (slas[n].team, slas[n].service);
    assert CountRows(slas)[n] in CountRows(slas) && CountRows(slas)[n].key == key;
    var c :| c in Counts(gs) && c.key == key;
    var j: nat :| j < |gs| && Counts(gs)[j] == c;
    assert gs[j] in gs && gs[j].key == key;
    assert key in m && m[key] in data && m[key].key == key;
    var i: nat :| i < |data| && data[i] == m[key];
  }

  lemma KeysListed(data: seq<ServiceScore>, m: map<Key, ServiceScore>, points: seq<Cell<Key>>, gs: seq<SlaGroup>,
                   slas: seq<SlaRow>)
    requires Listed(data, m) && Merged(m, points, gs) && Covers(Counts(gs), CountRows(slas))
    ensures forall r | r in CountRows(slas) :: exists c | c in ScoreCounts(data) :: c.key == r.key
    ensures forall r | r in PenaltyRows(slas) :: exists c | c in ScorePenalties(data) :: c.key == r.key
  {
    forall r | r in CountRows(slas) ensures exists c | c in ScoreCounts(data) :: c.key == r.key {
      var n: nat :| n < |slas| && CountRows(slas)[n] == r;
      SlaKeyListed(data, m, points, gs, slas, n);
      ListedKey(data, r.key);
    }
    forall r | r in PenaltyRows(slas) ensures exists c | c in ScorePenalties(data) :: c.key == r.key {
      var n: nat :| n < |slas| && PenaltyRows(slas)[n] == r;
      SlaKeyListed(data, m, points, gs, slas, n);
      ListedKey(data, r.key);
    }
  }

  // ------------------------------------------------------------ ExportScores

  datatype TeamScore = TeamScore(services: seq<ServiceScore>, net: int, gross: int, penalty: int, violations: int)

  function OfTeam(team: nat): Key -> bool { (k: Key) => k.0 == team }

  /** A team's scores among the data, in order. */
  function Mine(data: seq<ServiceScore>, team: nat): seq<ServiceScore> {
    if data == [] then []
    else
      var d := data[|data| - 1];
      Mine(data[..|data| - 1], team) + (if d.key.0 == team then [d] else [])
  }

  /** A team's scores are those of its number, all of them, in order. */
  lemma {:induction false} MineInOrder(a: seq<ServiceScore>, b: seq<ServiceScore>, team: nat)
    ensures Mine(a + b, team) == Mine(a, team) + Mine(b, team)
  {
    if b == [] {
      assert a + b == a && Mine(a, team) + [] == Mine(a, team);
    } else {
      MineInOrder(a, b[..|b| - 1], team);
      MineInOrderStep(a, b, team);
      MineLast(b, team);
      Regroup(Mine(a, team), Mine(b[..|b| - 1], team), Mine([b[|b| - 1]], team));
    }
  }

  lemma Regroup(a: seq<ServiceScore>, b: seq<ServiceScore>, c: seq<ServiceScore>)
    ensures (a + b) + c == a + (b + c)
  {
  }

  lemma MineLast(b: seq<ServiceScore>, team: nat)
    requires b != []
    ensures Mine(b, team) == Mine(b[..|b| - 1], team) + Mine([b[|b| - 1]], team)
  {
    MineOfOne(b[|b| - 1], team);
  }

  lemma MineInOrderStep(a: seq<ServiceScore>, b: seq<ServiceScore>, team: nat)
    requires b != []
    ensures Mine(a + b, team) == Mine(a + b[..|b| - 1], team) + Mine([b[|b| - 1]], team)
  {
    assert (a + b)[..|a + b| - 1] == a + b[..|b| - 1] && (a + b)[|a + b| - 1] == b[|b| - 1];
    MineOfOne(b[|b| - 1], team);
  }

  lemma MineOfOne(d: ServiceScore, team: nat)
    ensures Mine([d], team) == if d.key.0 == team then [d] else []
  {
    assert [d][..0] == [];
  }

  /** A team's totals over the data. */
  ghost predicate Totals(s: TeamScore, data: seq<ServiceScore>, t: nat) {
    && s.services == Mine(data, t)
    && s.gross == SumOf(ScorePoints(data), OfTeam(t))
    && s.penalty == SumOf(ScorePenalties(data), OfTeam(t))
    && s.violations == SumOf(ScoreCounts(data), OfTeam(t))
    && s.net == s.gross - s.penalty
  }

  function Scored(s: TeamScore, d: ServiceScore, t: nat): TeamScore {
    if d.key.0 != t then s
    else TeamScore(s.services + [d], s.net + (d.points - d.penalty), s.gross + d.points, s.penalty + d.penalty,
                   s.violations + d.violations)
  }

  ghost predicate AllTotals(scores: map<nat, TeamScore>, data: seq<ServiceScore>) {
    forall t | t in scores :: Totals(scores[t], data, t)
  }

  /** data: what GetServiceScores gave. */
  method ExportScores(teams: seq<nat>, data: seq<ServiceScore>, ghost log: seq<CheckRow>, ghost slas: seq<SlaRow>)
    returns (scores: map<nat, TeamScore>)
    requires IsServiceScores(data, log, slas)
    ensures forall t :: t in scores <==> t in teams
    ensures forall t | t in scores :: Totals(scores[t], data, t)
    ensures forall t | t in scores :: IsTeamScore(scores[t].gross, scores[t].violations, scores[t].penalty, log, slas, t)
  {
    scores := map[];
    for i := 0 to |teams|
      invariant forall t :: t in scores <==> t in teams[..i]
      invariant forall t | t in scores :: scores[t] == TeamScore([], 0, 0, 0, 0)
    {
      assert teams[..i + 1] == teams[..i] + [teams[i]];
      scores := scores[teams[i] := TeamScore([], 0, 0, 0, 0)];
    }
    assert teams[..|teams|] == teams;
    for i := 0 to |data|
      invariant forall t :: t in scores <==> t in teams
      invariant AllTotals(scores, data[..i])
    {
      var d := data[i];
      TotalsStep(scores, data, i);
      if d.key.0 in scores {
        var s := scores[d.key.0];
        scores := scores[d.key.0 := TeamScore(s.services + [d], s.net + (d.points - d.penalty), s.gross + d.points,
                                              s.penalty + d.penalty, s.violations + d.violations)];
      }
    }
    assert data[..|data|] == data;
    forall t | t in scores ensures IsTeamScore(scores[t].gross, scores[t].violations, scores[t].penalty, log, slas, t) {
      ExportIsTeamScore(data, log, slas, t);
    }
  }

  lemma TotalsStep(scores: map<nat, TeamScore>, data: seq<ServiceScore>, i: nat)
    requires i < |data| && AllTotals(scores, data[..i])
    ensures var d := data[i];
            AllTotals(if d.key.0 in scores then scores[d.key.0 := Scored(scores[d.key.0], d, d.key.0)] else scores, data[..i + 1])
  {
    assert data[..i + 1] == data[..i] + [data[i]];
    forall t | t in scores ensures Totals(Scored(scores[t], data[i], t), data[..i] + [data[i]], t) {
      ScoreStep(data[..i], data[i], t);
    }
  }

  lemma ScoreStep(data: seq<ServiceScore>, d: ServiceScore, t: nat)
    ensures Mine(data + [d], t) == Mine(data, t) + (if d.key.0 == t then [d] else [])
    ensures SumOf(ScorePoints(data + [d]), OfTeam(t)) == SumOf(ScorePoints(data), OfTeam(t)) + (if d.key.0 == t then d.points else 0)
    ensures SumOf(ScorePenalties(data + [d]), OfTeam(t)) == SumOf(ScorePenalties(data), OfTeam(t)) + (if d.key.0 == t then d.penalty else 0)
    ensures SumOf(ScoreCounts(data + [d]), OfTeam(t)) == SumOf(ScoreCounts(data), OfTeam(t)) + (if d.key.0 == t then d.violations else 0)
  {
    assert (data + [d])[..|data|] == data;
    assert ScorePoints(data + [d]) == ScorePoints(data) + [Cell(d.key, d.points)];
    assert ScorePenalties(data + [d]) == ScorePenalties(data) + [Cell(d.key, d.penalty)];
    assert ScoreCounts(data + [d]) == ScoreCounts(data) + [Cell(d.key, d.violations)];
    SumStep(ScorePoints(data), Cell(d.key, d.points), OfTeam(t));
    SumStep(ScorePenalties(data), Cell(d.key, d.penalty), OfTeam(t));
    SumStep(ScoreCounts(data), Cell(d.key, d.violations), OfTeam(t));
  }

  // ------------------------------------------------------------ GetTeamScore

  /** The sum of a team's passed points, straight from the log. */
  function Gross(log: seq<CheckRow>, team: nat): int {
    if log == [] then 0
    else
      var r := log[|log| - 1];
      Gross(log[..|log| - 1], team) + (if r.team == team && r.passed then r.points else 0)
  }

  function SlasOf(slas: seq<SlaRow>, team: nat): seq<SlaRow> {
    if slas == [] then []
    else
      var r := slas[|slas| - 1];
      SlasOf(slas[..|slas| - 1], team) + (if r.team == team then [r] else [])
  }

  function PenaltySum(slas: seq<SlaRow>): int {
    if slas == [] then 0 else PenaltySum(slas[..|slas| - 1]) + slas[|slas| - 1].penalty
  }

  lemma SlasOfStep(slas: seq<SlaRow>, r: SlaRow, team: nat)
    ensures SlasOf(slas + [r], team) == SlasOf(slas, team) + (if r.team == team then [r] else [])
    ensures PenaltySum(SlasOf(slas + [r], team)) ==
            PenaltySum(SlasOf(slas, team)) + (if r.team == team then r.penalty else 0)
  {
    assert (slas + [r])[..|slas|] == slas;
    var a, b := SlasOf(slas, team), SlasOf(slas + [r], team);
    if r.team == team { assert b[..|b| - 1] == a; } else { assert b == a; }
  }

  /** A team's score, straight from the log and the SLA rows. */
  ghost predicate IsTeamScore(points: int, violations: int, slaPoints: int, log: seq<CheckRow>, slas: seq<SlaRow>, team: nat) {
    points == Gross(log, team) && violations == |SlasOf(slas, team)| && slaPoints == PenaltySum(SlasOf(slas, team))
  }

  /** servicePoints is what the first query sums up; rows are those of the
      second, which asks for no order. */
  method GetTeamScore(servicePoints: int, rows: seq<SlaRow>, ghost log: seq<CheckRow>, ghost slas: seq<SlaRow>, ghost team: nat)
    returns (points: int, violations: nat, slaPoints: int)
    requires servicePoints == Gross(log, team) && multiset(rows) == multiset(SlasOf(slas, team))
    ensures IsTeamScore(points, violations, slaPoints, log, slas, team)
  {
    slaPoints := 0;
    for i := 0 to |rows|
      invariant slaPoints == PenaltySum(rows[..i])
    {
      assert rows[..i + 1][..i] == rows[..i];
      slaPoints := slaPoints + rows[i].penalty;
    }
    assert rows[..|rows|] == rows;
    AnyOrder(rows, SlasOf(slas, team));
    points, violations := servicePoints, |rows|;
  }

  lemma WithoutOne(rows: seq<SlaRow>, i: nat)
    requires i < |rows|
    ensures multiset(rows[..i] + rows[i + 1..]) == multiset(rows) - multiset{rows[i]}
  {
    assert rows == rows[..i] + [rows[i]] + rows[i + 1..];
  }

  lemma {:induction false} PenaltyWithoutOne(rows: seq<SlaRow>, i: nat)
    requires i < |rows|
    ensures PenaltySum(rows) == PenaltySum(rows[..i] + rows[i + 1..]) + rows[i].penalty
  {
    var n := |rows| - 1;
    var rest := rows[..i] + rows[i + 1..];
    if i == n {
      assert rest == rows[..n];
    } else {
      PenaltyWithoutOne(rows[..n], i);
      assert rest[..n - 1] == rows[..n][..i] + rows[..n][i + 1..];
    }
  }

  /** Rows add up to the same in any order. */
  lemma {:induction false} AnyOrder(a: seq<SlaRow>, b: seq<SlaRow>)
    requires multiset(a) == multiset(b)
    ensures PenaltySum(a) == PenaltySum(b) && |a| == |b|
    decreases |a|
  {
    assert |multiset(a)| == |a| && |multiset(b)| == |b|;
    if a != [] {
      var n := |a| - 1;
      assert a[n] in multiset(b);
      var i :| 0 <= i < |b| && b[i] == a[n];
      WithoutOne(a, n);
      WithoutOne(b, i);
      assert a[..n] + a[n + 1..] == a[..n];
      AnyOrder(a[..n], b[..i] + b[i + 1..]);
      PenaltyWithoutOne(b, i);
    }
  }

  // --------------------------------------------------------- the reports agree

  lemma {:induction false} TeamPoints(log: seq<CheckRow>, t: nat)
    ensures SumOf(PointRows(log), OfTeam(t)) == Gross(log, t)
  {
    if log != [] {
      TeamPoints(log[..|log| - 1], t);
      assert PointRows(log)[..|log| - 1] == PointRows(log[..|log| - 1]);
    }
  }

  lemma {:induction false} TeamSlas(slas: seq<SlaRow>, t: nat)
    ensures SumOf(CountRows(slas), OfTeam(t)) == |SlasOf(slas, t)|
    ensures SumOf(PenaltyRows(slas), OfTeam(t)) == PenaltySum(SlasOf(slas, t))
  {
    if slas != [] {
      var front, r := slas[..|slas| - 1], slas[|slas| - 1];
      TeamSlas(front, t);
      assert slas == front + [r];
      assert CountRows(slas)[..|slas| - 1] == CountRows(front);
      assert PenaltyRows(slas)[..|slas| - 1] == PenaltyRows(front);
      SlasOfStep(front, r, t);
    }
  }

  /** The export's totals for a team are the team's own score, for every log and
      whatever the order of the grouped rows. */
  lemma ExportIsTeamScore(data: seq<ServiceScore>, log: seq<CheckRow>, slas: seq<SlaRow>, t: nat)
    requires IsServiceScores(data, log, slas)
    ensures IsTeamScore(SumOf(ScorePoints(data), OfTeam(t)), SumOf(ScoreCounts(data), OfTeam(t)),
                        SumOf(ScorePenalties(data), OfTeam(t)), log, slas, t)
  {
    GroupsSumAlike(ScorePoints(data), PointRows(log), OfTeam(t));
    GroupsSumAlike(ScoreCounts(data), CountRows(slas), OfTeam(t));
    GroupsSumAlike(ScorePenalties(data), PenaltyRows(slas), OfTeam(t));
    TeamPoints(log, t);
    TeamSlas(slas, t);
  }

  /** Both reports of one log, made by the two methods: the same points, number
      of violations and penalties, and the exported net is their difference. */
  method BothReports(teams: seq<nat>, team: nat, points: seq<Cell<Key>>, gs: seq<SlaGroup>, servicePoints: int,
                     rows: seq<SlaRow>, ghost log: seq<CheckRow>, ghost slas: seq<SlaRow>)
    returns (score: TeamScore, own: (int, nat, int))
    requires team in teams && Queried(points, gs, log, slas)
    requires servicePoints == Gross(log, team) && multiset(rows) == multiset(SlasOf(slas, team))
    ensures (score.gross, score.violations, score.penalty) == own
    ensures score.net == own.0 - own.2
  {
    var data := GetServiceScores(points, gs, log, slas);
    var scores := ExportScores(teams, data, log, slas);
    score := scores[team];
    var p, v, l := GetTeamScore(servicePoints, rows, log, slas, team);
    own := (p, v, l);
  }

  /** Every row belongs to a recorded round. */
  predicate InRounds(log: seq<CheckRow>, slas: seq<SlaRow>, last: nat) {
    (forall r | r in log :: 1 <= r.round <= last) && (forall r | r in slas :: 1 <= r.round <= last)
  }

  lemma {:induction false} AllPoints(log: seq<CheckRow>, last: nat, t: nat)
    requires forall r | r in log :: r.round <= last
    ensures G.PointsUpTo(log, t, last) == Gross(log, t)
  {
    if log != [] {
      var front := log[..|log| - 1];
      assert log == front + [log[|log| - 1]];
      assert forall r | r in front :: r in log;
      AllPoints(front, last, t);
    }
  }

  lemma PenaltiesLast(slas: seq<SlaRow>, last: nat, t: nat)
    requires slas != []
    ensures var r := slas[|slas| - 1];
            G.PenaltiesUpTo(slas, t, last) ==
            G.PenaltiesUpTo(slas[..|slas| - 1], t, last) + (if r.team == t && 1 <= r.round <= last then r.penalty else 0)
  {
  }

  lemma SlasLast(slas: seq<SlaRow>, t: nat)
    requires slas != []
    ensures var r := slas[|slas| - 1];
            PenaltySum(SlasOf(slas, t)) == PenaltySum(SlasOf(slas[..|slas| - 1], t)) + (if r.team == t then r.penalty else 0)
  {
    SlasOfStep(slas[..|slas| - 1], slas[|slas| - 1], t);
    assert slas == slas[..|slas| - 1] + [slas[|slas| - 1]];
  }

  lemma {:induction false} AllPenalties(slas: seq<SlaRow>, last: nat, t: nat)
    requires forall r | r in slas :: 1 <= r.round <= last
    ensures G.PenaltiesUpTo(slas, t, last) == PenaltySum(SlasOf(slas, t))
  {
    if slas != [] {
      assert slas[|slas| - 1] in slas && forall x | x in slas[..|slas| - 1] :: x in slas;
      AllPenalties(slas[..|slas| - 1], last, t);
      PenaltiesLast(slas, last, t);
      SlasLast(slas, t);
    }
  }

  lemma {:induction false} InSlasOf(slas: seq<SlaRow>, t: nat)
    ensures SlasOf(slas, t) != [] <==> exists r | r in slas :: r.team == t
  {
    if slas != [] {
      var front, r := slas[..|slas| - 1], slas[|slas| - 1];
      InSlasOf(front, t);
      assert slas == front + [r];
      assert forall x :: x in slas <==> x in front || x == r;
    }
  }

  lemma SomePenalty(slas: seq<SlaRow>, last: nat, t: nat)
    requires forall r | r in slas :: 1 <= r.round <= last
    ensures G.Penalized(slas, last, t) <==> SlasOf(slas, t) != []
  {
    InSlasOf(slas, t);
  }

  /** When the last point of the graph is the team's net score: exactly when
      the team was checked in the last round, or has earned nothing and been
      penalized; otherwise the point is short of the earnings, or missing. */
  lemma LastPointIsNet(result: seq<map<nat, int>>, last: nat, log: seq<CheckRow>, slas: seq<SlaRow>, t: nat)
    requires G.IsGraph(result, last, log, slas) && last >= 1 && InRounds(log, slas, last)
    ensures (t in result[last - 1] && result[last - 1][t] == Gross(log, t) - PenaltySum(SlasOf(slas, t)))
            <==> G.Checked(log, last, t) || (Gross(log, t) == 0 && SlasOf(slas, t) != [])
  {
    AllPoints(log, last, t);
    AllPenalties(slas, last, t);
    SomePenalty(slas, last, t);
    var i: nat := last - 1;
    assert t in result[i] <==> G.Checked(log, i + 1, t) || G.Penalized(slas, i + 1, t);
  }

  /** Nothing is carried forward: a team that earned a point in the first round
      and was not checked in the second has no last point. */
  lemma LastPointCanBeMissing() returns (result: seq<map<nat, int>>, log: seq<CheckRow>, slas: seq<SlaRow>, t: nat)
    ensures G.IsGraph(result, 2, log, slas) && InRounds(log, slas, 2)
    ensures Gross(log, t) - PenaltySum(SlasOf(slas, t)) == 1 && !G.Checked(log, 2, t) && t !in result[1]
  {
    var first := CheckRow(1, 1, [119], 1, true, [], []);
    var second := CheckRow(2, 2, [119], 1, true, [], []);
    log, slas, t := [first, second], [], 1;
    result := [map[1 := 1], map[2 := 1]];
    assert log[..1] == [first] && [first][..0] == [];
    forall n | n in [1, 2] ensures G.Checked(log, n, 1) <==> n == 1 {
      assert first in log;
    }
    forall n | n in [1, 2] ensures G.Checked(log, n, 2) <==> n == 2 {
      assert second in log;
    }
    assert Gross([first], 1) == 1;
    assert G.PointsUpTo([first], 1, 1) == 1 && G.PointsUpTo([first], 2, 2) == 0;
  }

  // ------------------------------------------------------- rows and rounds

  /** Every row is of a recorded round, and numbers begin at one. */
  ghost predicate Booked(w: World) {
    && (forall r | r in w.log :: r.round in w.rounds)
    && (forall r | r in w.slas :: r.round in w.rounds)
    && (forall n | n in w.rounds :: n >= 1)
  }

  lemma ObservedRow(w: World, round: nat, e: Entry, c: Settings)
    ensures forall r | r in Observe(w, round, e, c).slas :: r in w.slas || r.round == round
    ensures Observe(w, round, e, c).log == w.log && Observe(w, round, e, c).rounds == w.rounds
  {
  }

  lemma {:induction false} ObservedRows(w: World, round: nat, es: seq<Entry>, c: Settings)
    ensures var w' := ObserveAll(w, round, es, c);
            w'.log == w.log && w'.rounds == w.rounds && forall r | r in w'.slas :: r in w.slas || r.round == round
  {
    if es != [] {
      ObservedRows(w, round, es[..|es| - 1], c);
      ObservedRow(ObserveAll(w, round, es[..|es| - 1], c), round, es[|es| - 1], c);
    }
  }

  lemma CountedIsBooked(w: World, round: nat, all: seq<Entry>, es: seq<Entry>, c: Settings)
    requires Booked(w) && round >= 1
    ensures Booked(ObserveAll(Insert(w, round, all), round, es, c))
  {
    ObservedRows(Insert(w, round, all), round, es, c);
    var rows := RowsOf(round, all);
    forall r | r in rows ensures r.round == round {
      var i :| 0 <= i < |rows| && rows[i] == r;
    }
  }

  lemma {:induction false} RunKeepsBooked(w: World, evs: seq<Event>, c: Settings)
    requires c.threshold != 0 && Booked(w) && forall ev | ev in evs :: ev.Restarted? || ev.round >= 1
    ensures Booked(Run(w, evs, c))
  {
    if evs != [] {
      var w1, ev := Run(w, evs[..|evs| - 1], c), evs[|evs| - 1];
      assert ev in evs;
      RunKeepsBooked(w, evs[..|evs| - 1], c);
      match ev
      case Recorded(round, es, saved) => CountedIsBooked(w1, round, es, es, c);
      case Crashed(round, es, done) => if done <= |es| { CountedIsBooked(w1, round, es, es[..done], c); }
      case Restarted =>
    }
  }

  /** Over every run of rounds, crashes and restarts, the series up to the
      largest recorded round ends in the net score under the same condition. */
  lemma RunLastPointIsNet(w: World, evs: seq<Event>, c: Settings, result: seq<map<nat, int>>, t: nat)
    requires c.threshold != 0 && Booked(w) && forall ev | ev in evs :: ev.Restarted? || ev.round >= 1
    requires var w' := Run(w, evs, c); w'.rounds != [] && G.IsGraph(result, MaxRound(w'.rounds), w'.log, w'.slas)
    ensures var w' := Run(w, evs, c);
            var last := MaxRound(w'.rounds);
            && last >= 1 && InRounds(w'.log, w'.slas, last)
            && ((t in result[last - 1] && result[last - 1][t] == Gross(w'.log, t) - PenaltySum(SlasOf(w'.slas, t)))
                <==> G.Checked(w'.log, last, t) || (Gross(w'.log, t) == 0 && SlasOf(w'.slas, t) != []))
  {
    RunKeepsBooked(w, evs, c);
    var w' := Run(w, evs, c);
    assert w'.rounds[0] in w'.rounds;
    LastPointIsNet(result, MaxRound(w'.rounds), w'.log, w'.slas, t);
  }
}
