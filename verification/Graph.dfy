/** The score series: a materialized running sum of points, and the loops that
    lay it out by round and take the penalties off. */
module Graph {
  import opened Ledger
  import opened Sums

  /** The points a row earns. */
  function Earned(r: CheckRow): int { if r.passed then r.points else 0 }

  /** What a team has earned in the rounds up to one, read off the log. */
  function PointsUpTo(log: seq<CheckRow>, team: nat, round: nat): int {
    if log == [] then 0
    else
      var r := log[|log| - 1];
      PointsUpTo(log[..|log| - 1], team, round) + (if r.team == team && r.round <= round then Earned(r) else 0)
  }

  /** What it has lost to SLA rows in the rounds from 1 up to one. */
  function PenaltiesUpTo(slas: seq<SlaRow>, team: nat, round: nat): int {
    if slas == [] then 0
    else
      var r := slas[|slas| - 1];
      PenaltiesUpTo(slas[..|slas| - 1], team, round) +
      (if r.team == team && 1 <= r.round <= round then r.penalty else 0)
  }

  // ------------------------------------------------------------------ the view

  datatype ViewRow = ViewRow(round: nat, team: nat, points: int)

  /** The window of row i: the rows of its team in its round or before. Rows of
      the same round are peers, so the frame ends after the last of them. */
  predicate InFrame(log: seq<CheckRow>, i: nat, j: nat)
    requires i < |log| && j < |log|
  {
    log[j].team == log[i].team && log[j].round <= log[i].round
  }

  function WindowSum(log: seq<CheckRow>, i: nat, upTo: nat): int
    requires i < |log| && upTo <= |log|
  {
    if upTo == 0 then 0
    else WindowSum(log, i, upTo - 1) + (if InFrame(log, i, upTo - 1) then Earned(log[upTo - 1]) else 0)
  }

  /** SELECT DISTINCT over the windows. */
  function CumulativeScores(log: seq<CheckRow>): set<ViewRow> {
    set i | 0 <= i < |log| :: ViewRow(log[i].round, log[i].team, WindowSum(log, i, |log|))
  }

  lemma {:induction false} WindowIsPrefix(log: seq<CheckRow>, i: nat, upTo: nat)
    requires i < |log| && upTo <= |log|
    ensures WindowSum(log, i, upTo) == PointsUpTo(log[..upTo], log[i].team, log[i].round)
  {
    if upTo > 0 {
      WindowIsPrefix(log, i, upTo - 1);
      assert log[..upTo][..upTo - 1] == log[..upTo - 1];
    }
  }

  /** The view holds one row for each round in which a team was checked, and no
      other, so its unique index can be built; the row holds the team's points
      up to that round. */
  lemma ViewIsOneRowPerRound(log: seq<CheckRow>)
    ensures forall v | v in CumulativeScores(log) :: v.points == PointsUpTo(log, v.team, v.round)
    ensures forall v, w | v in CumulativeScores(log) && w in CumulativeScores(log) ::
              v.round == w.round && v.team == w.team ==> v == w
    ensures forall r | r in log :: exists v | v in CumulativeScores(log) :: v.round == r.round && v.team == r.team
    ensures forall v | v in CumulativeScores(log) :: exists r | r in log :: v.round == r.round && v.team == r.team
  {
    assert log[..|log|] == log;
    forall v | v in CumulativeScores(log)
      ensures v.points == PointsUpTo(log, v.team, v.round)
      ensures exists r | r in log :: v.round == r.round && v.team == r.team
    {
      var i :| 0 <= i < |log| && v == ViewRow(log[i].round, log[i].team, WindowSum(log, i, |log|));
      WindowIsPrefix(log, i, |log|);
      assert log[i] in log;
    }
    forall r | r in log ensures exists v | v in CumulativeScores(log) :: v.round == r.round && v.team == r.team {
      var i :| 0 <= i < |log| && log[i] == r;
      assert ViewRow(log[i].round, log[i].team, WindowSum(log, i, |log|)) in CumulativeScores(log);
    }
  }

  // ----------------------------------------------------------------- the loops

  predicate Inside(round: nat, last: nat) { 1 <= round <= last }

  function Base(m: map<nat, int>, team: nat): int { if team in m then m[team] else 0 }

  /** A (round, team) group that counts against a team by a round. */
  function Due(team: nat, round: nat): ((nat, nat)) -> bool {
    (k: (nat, nat)) => k.1 == team && 1 <= k.0 <= round
  }

  predicate Touched(gs: seq<Cell<(nat, nat)>>, team: nat, round: nat) {
    exists g | g in gs :: Due(team, round)(g.key)
  }

  ghost predicate HasRow(view: seq<ViewRow>, round: nat, team: nat) {
    exists v | v in view :: v.round == round && v.team == team
  }

  ghost predicate OneRowEach(view: seq<ViewRow>) {
    forall v, w | v in view && w in view :: v.round == w.round && v.team == w.team ==> v == w
  }

  method LayOut(last: nat, view: seq<ViewRow>) returns (result: seq<map<nat, int>>)
    requires OneRowEach(view)
    ensures |result| == last
    ensures forall i: nat, t | i < last :: t in result[i] <==> HasRow(view, i + 1, t)
    ensures forall v | v in view && Inside(v.round, last) :: v.team in result[v.round - 1] && result[v.round - 1][v.team] == v.points
  {
    result := seq(last, _ => map[]);
    for n := 0 to |view|
      invariant |result| == last
      invariant forall i: nat, t | i < last :: t in result[i] <==> HasRow(view[..n], i + 1, t)
      invariant forall v | v in view[..n] && Inside(v.round, last) ::
                  v.team in result[v.round - 1] && result[v.round - 1][v.team] == v.points
    {
      var v := view[n];
      assert view[..n + 1] == view[..n] + [v];
      assert v in view && forall w | w in view[..n] :: w in view;
      ghost var before := result;
      if Inside(v.round, last) {
        var m: map<nat, int> := result[v.round - 1][v.team := v.points];
        result := result[v.round - 1 := m];
      }
      forall i: nat, t | i < last ensures t in result[i] <==> HasRow(view[..n + 1], i + 1, t) {
        HasRowStep(view[..n], v, i + 1, t);
      }
    }
    assert view[..|view|] == view;
  }

  lemma HasRowStep(view: seq<ViewRow>, v: ViewRow, round: nat, team: nat)
    ensures HasRow(view + [v], round, team) <==> HasRow(view, round, team) || (v.round == round && v.team == team)
  {
    assert forall w :: w in view + [v] <==> w in view || w == v;
  }

  /** One group: its penalty comes off its round and every later one. */
  method TakeOff(before: seq<map<nat, int>>, round: nat, team: nat, penalty: int) returns (result: seq<map<nat, int>>)
    requires Inside(round, |before|)
    ensures |result| == |before|
    ensures forall i | 0 <= i < |before| ::
              result[i] == if i + 1 >= round then before[i][team := Base(before[i], team) - penalty] else before[i]
  {
    result := before;
    for i := round - 1 to |before|
      invariant |result| == |before|
      invariant forall k | 0 <= k < i ::
                  result[k] == if k + 1 >= round then before[k][team := Base(before[k], team) - penalty] else before[k]
      invariant forall k | i <= k < |before| :: result[k] == before[k]
    {
      var m: map<nat, int> := result[i][team := Base(result[i], team) - penalty];
      result := result[i := m];
    }
  }

  /** What the series must be, given the view's rows and the penalty groups. */
  ghost predicate IsSeries(result: seq<map<nat, int>>, last: nat, base: seq<map<nat, int>>, gs: seq<Cell<(nat, nat)>>) {
    && |result| == |base| == last
    && (forall i: nat, t | i < last :: t in result[i] <==> t in base[i] || Touched(gs, t, i + 1))
    && (forall i: nat, t | i < last && t in result[i] :: result[i][t] == Base(base[i], t) - SumOf(gs, Due(t, i + 1)))
  }

  lemma SeriesStep(result: seq<map<nat, int>>, result': seq<map<nat, int>>, last: nat, base: seq<map<nat, int>>,
                   gs: seq<Cell<(nat, nat)>>, g: Cell<(nat, nat)>)
    requires IsSeries(result, last, base, gs)
    requires |result'| == last
    requires forall i: nat | i < last ::
               result'[i] == if Inside(g.key.0, last) && i + 1 >= g.key.0
                             then result[i][g.key.1 := Base(result[i], g.key.1) - g.value] else result[i]
    ensures IsSeries(result', last, base, gs + [g])
  {
    forall i: nat, t | i < last
      ensures t in result'[i] <==> t in base[i] || Touched(gs + [g], t, i + 1)
      ensures t in result'[i] ==> result'[i][t] == Base(base[i], t) - SumOf(gs + [g], Due(t, i + 1))
    {
      SumStep(gs, g, Due(t, i + 1));
      TouchedStep(gs, g, t, i + 1);
      if !Touched(gs, t, i + 1) { SumNone(gs, Due(t, i + 1)); }
    }
  }

  lemma TouchedStep(gs: seq<Cell<(nat, nat)>>, g: Cell<(nat, nat)>, team: nat, round: nat)
    ensures Touched(gs + [g], team, round) <==> Touched(gs, team, round) || Due(team, round)(g.key)
  {
    assert forall x :: x in gs + [g] <==> x in gs || x == g;
  }

  /** A team has a point in a round when it has a row or a penalty by then; with
      no row it is what the penalties take. */
  ghost predicate PointDrawn(result: seq<map<nat, int>>, view: seq<ViewRow>, gs: seq<Cell<(nat, nat)>>, i: nat, t: nat)
    requires i < |result|
  {
    && (t in result[i] <==> HasRow(view, i + 1, t) || Touched(gs, t, i + 1))
    && (t in result[i] && !HasRow(view, i + 1, t) ==> result[i][t] == -SumOf(gs, Due(t, i + 1)))
  }

  /** A row of the view gives its point, less the penalties by then. */
  ghost predicate RowDrawn(result: seq<map<nat, int>>, gs: seq<Cell<(nat, nat)>>, v: ViewRow) {
    Inside(v.round, |result|) ==>
      v.team in result[v.round - 1] && result[v.round - 1][v.team] == v.points - SumOf(gs, Due(v.team, v.round))
  }

  ghost predicate DrawnFrom(result: seq<map<nat, int>>, last: nat, view: seq<ViewRow>, gs: seq<Cell<(nat, nat)>>) {
    && |result| == last
    && (forall i: nat, t | i < last :: PointDrawn(result, view, gs, i, t))
    && (forall v | v in view :: RowDrawn(result, gs, v))
  }

  /** last: the number of the last recorded round, 0 when there is none. The
      view's rows and the groups come in any order. */
  method GetServiceCheckSumByRound(last: nat, view: seq<ViewRow>, gs: seq<Cell<(nat, nat)>>)
    returns (result: seq<map<nat, int>>)
    requires OneRowEach(view)
    ensures DrawnFrom(result, last, view, gs)
  {
    result := LayOut(last, view);
    ghost var base := result;
    SeriesStart(last, base);
    for n := 0 to |gs|
      invariant IsSeries(result, last, base, gs[..n])
    {
      var g := gs[n];
      ghost var before := result;
      if Inside(g.key.0, last) {
        result := TakeOff(result, g.key.0, g.key.1, g.value);
      }
      SeriesStep(before, result, last, base, gs[..n], g);
      assert gs[..n + 1] == gs[..n] + [g];
    }
    assert gs[..|gs|] == gs;
    SeriesIsDrawn(result, last, base, view, gs);
  }

  lemma SeriesIsDrawn(result: seq<map<nat, int>>, last: nat, base: seq<map<nat, int>>, view: seq<ViewRow>, gs: seq<Cell<(nat, nat)>>)
    requires IsSeries(result, last, base, gs)
    requires forall i: nat, t | i < last :: t in base[i] <==> HasRow(view, i + 1, t)
    requires forall v | v in view && Inside(v.round, last) :: v.team in base[v.round - 1] && base[v.round - 1][v.team] == v.points
    ensures DrawnFrom(result, last, view, gs)
  {
    forall i: nat, t | i < last ensures PointDrawn(result, view, gs, i, t) {
      assert t in result[i] <==> t in base[i] || Touched(gs, t, i + 1);
    }
    forall v | v in view ensures RowDrawn(result, gs, v) {
      if Inside(v.round, last) {
        var i: nat := v.round - 1;
        assert v.team in base[i] && v.team in result[i];
      }
    }
  }

  lemma SeriesStart(last: nat, base: seq<map<nat, int>>)
    requires |base| == last
    ensures IsSeries(base, last, base, [])
  {
  }

  // ------------------------------------------------------ the series is the truth

  function RoundPenalties(slas: seq<SlaRow>): seq<Cell<(nat, nat)>> {
    seq(|slas|, i requires 0 <= i < |slas| => Cell((slas[i].round, slas[i].team), slas[i].penalty))
  }

  lemma {:induction false} DueIsPenalties(slas: seq<SlaRow>, team: nat, round: nat)
    ensures SumOf(RoundPenalties(slas), Due(team, round)) == PenaltiesUpTo(slas, team, round)
  {
    if slas != [] {
      var front := slas[..|slas| - 1];
      DueIsPenalties(front, team, round);
      assert RoundPenalties(slas)[..|slas| - 1] == RoundPenalties(front);
    }
  }

  /** The view's rows in some order. */
  ghost predicate Fresh(view: seq<ViewRow>, log: seq<CheckRow>) {
    forall v :: v in view <==> v in CumulativeScores(log)
  }

  /** The groups the penalty query makes of the SLA rows, in some order. */
  ghost predicate PenaltyGroups(gs: seq<Cell<(nat, nat)>>, slas: seq<SlaRow>) {
    Grouped(gs, RoundPenalties(slas))
  }

  ghost predicate Checked(log: seq<CheckRow>, round: nat, team: nat) {
    exists r | r in log :: r.round == round && r.team == team
  }

  ghost predicate Penalized(slas: seq<SlaRow>, round: nat, team: nat) {
    exists r | r in slas :: r.team == team && 1 <= r.round <= round
  }

  ghost predicate IsGraph(result: seq<map<nat, int>>, last: nat, log: seq<CheckRow>, slas: seq<SlaRow>) {
    && |result| == last
    && (forall i: nat, t | i < last :: t in result[i] <==> Checked(log, i + 1, t) || Penalized(slas, i + 1, t))
    && (forall i: nat, t | i < last && t in result[i] ::
          result[i][t] == (if Checked(log, i + 1, t) then PointsUpTo(log, t, i + 1) else 0) - PenaltiesUpTo(slas, t, i + 1))
  }

  lemma TouchedIsPenalized(gs: seq<Cell<(nat, nat)>>, slas: seq<SlaRow>, team: nat, round: nat)
    requires PenaltyGroups(gs, slas)
    ensures Touched(gs, team, round) <==> Penalized(slas, round, team)
  {
    if g :| g in gs && Due(team, round)(g.key) {
      var c :| c in RoundPenalties(slas) && c.key == g.key;
      var i :| 0 <= i < |slas| && RoundPenalties(slas)[i] == c;
      assert slas[i] in slas;
    }
    if r :| r in slas && r.team == team && 1 <= r.round <= round {
      var i :| 0 <= i < |slas| && slas[i] == r;
      assert RoundPenalties(slas)[i] == Cell((r.round, r.team), r.penalty);
      assert RoundPenalties(slas)[i] in RoundPenalties(slas);
      var g :| g in gs && g.key == (r.round, r.team);
      assert Due(team, round)(g.key);
    }
  }

  lemma FreshRows(view: seq<ViewRow>, log: seq<CheckRow>)
    requires Fresh(view, log)
    ensures OneRowEach(view)
    ensures forall round, t :: HasRow(view, round, t) <==> Checked(log, round, t)
    ensures forall v | v in view :: v.points == PointsUpTo(log, v.team, v.round)
  {
    ViewIsOneRowPerRound(log);
    forall round, t ensures HasRow(view, round, t) <==> Checked(log, round, t) {
      if v :| v in view && v.round == round && v.team == t {
        var r :| r in log && v.round == r.round && v.team == r.team;
      }
      if r :| r in log && r.round == round && r.team == t {
        var v :| v in CumulativeScores(log) && v.round == r.round && v.team == r.team;
        assert v in view;
      }
    }
  }

  /** One point of a series, by the row the view has for it. */
  lemma DrawnPoint(result: seq<map<nat, int>>, last: nat, view: seq<ViewRow>, gs: seq<Cell<(nat, nat)>>, i: nat, t: nat, points: int)
    requires DrawnFrom(result, last, view, gs) && i < last
    ensures PointDrawn(result, view, gs, i, t)
    ensures ViewRow(i + 1, t, points) in view ==> t in result[i] && result[i][t] == points - SumOf(gs, Due(t, i + 1))
  {
    var v := ViewRow(i + 1, t, points);
    if v in view {
      assert RowDrawn(result, gs, v) && Inside(v.round, last) && v.round - 1 == i;
    }
  }

  lemma PointIsTrue(result: seq<map<nat, int>>, last: nat, view: seq<ViewRow>, gs: seq<Cell<(nat, nat)>>,
                    log: seq<CheckRow>, slas: seq<SlaRow>, i: nat, t: nat)
    requires Fresh(view, log) && PenaltyGroups(gs, slas) && DrawnFrom(result, last, view, gs) && i < last
    ensures t in result[i] <==> Checked(log, i + 1, t) || Penalized(slas, i + 1, t)
    ensures t in result[i] ==>
            result[i][t] == (if Checked(log, i + 1, t) then PointsUpTo(log, t, i + 1) else 0) - PenaltiesUpTo(slas, t, i + 1)
  {
    TouchedIsPenalized(gs, slas, t, i + 1);
    DueSum(gs, slas, t, i + 1);
    FreshPoint(view, log, i + 1, t);
    DrawnPoint(result, last, view, gs, i, t, PointsUpTo(log, t, i + 1));
  }

  lemma DueSum(gs: seq<Cell<(nat, nat)>>, slas: seq<SlaRow>, team: nat, round: nat)
    requires PenaltyGroups(gs, slas)
    ensures SumOf(gs, Due(team, round)) == PenaltiesUpTo(slas, team, round)
  {
    GroupsSumAlike(gs, RoundPenalties(slas), Due(team, round));
    DueIsPenalties(slas, team, round);
  }

  lemma FreshPoint(view: seq<ViewRow>, log: seq<CheckRow>, round: nat, team: nat)
    requires Fresh(view, log)
    ensures HasRow(view, round, team) <==> Checked(log, round, team)
    ensures HasRow(view, round, team) ==> ViewRow(round, team, PointsUpTo(log, team, round)) in view
  {
    FreshRows(view, log);
    if v :| v in view && v.round == round && v.team == team {
      assert v == ViewRow(round, team, PointsUpTo(log, team, round));
    }
  }

  /** Drawn from a fresh view, the series is the true one: what a team earned so
      far less what it lost so far, in every round it was checked in; where it
      was not, only what it lost, or no point at all. */
  lemma FreshSeriesIsTrue(result: seq<map<nat, int>>, last: nat, view: seq<ViewRow>, gs: seq<Cell<(nat, nat)>>,
                          log: seq<CheckRow>, slas: seq<SlaRow>)
    requires Fresh(view, log) && PenaltyGroups(gs, slas) && DrawnFrom(result, last, view, gs)
    ensures IsGraph(result, last, log, slas)
  {
    forall i: nat, t | i < last
      ensures t in result[i] <==> Checked(log, i + 1, t) || Penalized(slas, i + 1, t)
      ensures t in result[i] ==>
              result[i][t] == (if Checked(log, i + 1, t) then PointsUpTo(log, t, i + 1) else 0) - PenaltiesUpTo(slas, t, i + 1)
    {
      PointIsTrue(result, last, view, gs, log, slas, i, t);
    }
  }
}
