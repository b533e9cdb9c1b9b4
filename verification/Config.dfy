/** The part of checkConfig that gives every check its name, its boxes and its
    credential lists. */
module Config {
  import opened Utf8

  /** name: as Verify leaves it in a fresh load, empty before. sound: the
      type's own Verify finds nothing else wrong. */
  datatype Check = Check(name: Str, display: Str, kind: string, sound: bool, credlists: seq<Str>,
                         disabled: bool, launch: int, stop: int, attempts: int)

  /** checks: the sixteen check sets of the box, one after the other. */
  datatype Box = Box(name: Str, ip: Str, checks: seq<Check>)

  datatype Credlist = Credlist(name: Str, path: Str)

  const DASH: Str := [45]

  /** Verify's naming rule: box name, dash, display name, unless it has one. */
  function FullName(box: Str, c: Check): Str {
    if c.name == [] then box + DASH + c.display else c.name
  }

  /** The names of all checks of all boxes, in the order they are met. */
  function BoxNames(b: Box): seq<Str> {
    seq(|b.checks|, j requires 0 <= j < |b.checks| => FullName(b.name, b.checks[j]))
  }

  function Names(boxes: seq<Box>): seq<Str> {
    if boxes == [] then [] else Names(boxes[..|boxes| - 1]) + BoxNames(boxes[|boxes| - 1])
  }

  ghost predicate Distinct<T>(xs: seq<T>) {
    forall i, j | 0 <= i < j < |xs| :: xs[i] != xs[j]
  }

  /** The path a credential list is found under: by its name or its path, the
      last list in the file that has it. */
  function PathOf(lists: seq<Credlist>): map<Str, Str> {
    if lists == [] then map[]
    else
      var l := lists[|lists| - 1];
      PathOf(lists[..|lists| - 1])[l.name := l.path][l.path := l.path]
  }

  /** How a check may refer to a list. */
  predicate Called(l: Credlist, key: Str) { l.name == key || l.path == key }

  predicate LastCalled(lists: seq<Credlist>, i: nat, key: Str)
    requires i < |lists|
  {
    Called(lists[i], key) && forall j | i < j < |lists| :: !Called(lists[j], key)
  }

  /** A list is found by its name and by its path; of lists called the same, the
      last one in the file is; nothing else is found. */
  ghost predicate FindsLast(paths: map<Str, Str>, lists: seq<Credlist>) {
    && (forall key | key in paths :: exists l | l in lists :: Called(l, key))
    && (forall i: nat, key | i < |lists| && LastCalled(lists, i, key) :: key in paths && paths[key] == lists[i].path)
  }

  lemma {:induction false} LastListIsFound(lists: seq<Credlist>, key: Str, i: nat)
    requires i < |lists| && LastCalled(lists, i, key)
    ensures key in PathOf(lists) && PathOf(lists)[key] == lists[i].path
  {
    var n := |lists| - 1;
    if i < n {
      assert !Called(lists[n], key);
      LastListIsFound(lists[..n], key, i);
    }
  }

  lemma {:induction false} OnlyListsAreFound(lists: seq<Credlist>, key: Str)
    requires key in PathOf(lists)
    ensures exists l | l in lists :: Called(l, key)
  {
    var front, last := lists[..|lists| - 1], lists[|lists| - 1];
    assert last in lists;
    if !Called(last, key) {
      OnlyListsAreFound(front, key);
      var l :| l in front && Called(l, key);
      assert l in lists;
    }
  }

  lemma {:induction false} LastIndex(lists: seq<Credlist>, key: Str) returns (i: nat)
    requires exists l | l in lists :: Called(l, key)
    ensures i < |lists| && LastCalled(lists, i, key)
  {
    var n := |lists| - 1;
    if Called(lists[n], key) {
      i := n;
    } else {
      var l :| l in lists && Called(l, key);
      assert l in lists[..n];
      i := LastIndex(lists[..n], key);
    }
  }

  /** Finding the last list says all there is to say. */
  lemma FindsLastIsPathOf(paths: map<Str, Str>, lists: seq<Credlist>)
    ensures FindsLast(paths, lists) <==> paths == PathOf(lists)
  {
    forall key | key in PathOf(lists) ensures exists l | l in lists :: Called(l, key) { OnlyListsAreFound(lists, key); }
    forall i: nat, key | i < |lists| && LastCalled(lists, i, key)
      ensures key in PathOf(lists) && PathOf(lists)[key] == lists[i].path
    {
      LastListIsFound(lists, key, i);
    }
    if FindsLast(paths, lists) {
      forall key | key in paths || key in PathOf(lists)
        ensures key in paths && key in PathOf(lists) && paths[key] == PathOf(lists)[key]
      {
        var i := LastIndex(lists, key);
      }
      assert paths.Keys == PathOf(lists).Keys;
    }
  }

  predicate Resolvable(paths: map<Str, Str>, c: Check) { forall l | l in c.credlists :: l in paths }

  /** A check as the engine will run it. */
  function Finished(box: Str, paths: map<Str, Str>, c: Check): Check
    requires Resolvable(paths, c)
  {
    c.(name := FullName(box, c),
       credlists := seq(|c.credlists|, k requires 0 <= k < |c.credlists| => paths[c.credlists[k]]))
  }

  predicate BoxReady(b: Box, paths: map<Str, Str>) {
    b.name != [] && b.ip != [] && forall c | c in b.checks :: c.sound && Resolvable(paths, c)
  }

  function FinishedBox(b: Box, paths: map<Str, Str>): Box
    requires BoxReady(b, paths)
  {
    b.(checks := seq(|b.checks|, j requires 0 <= j < |b.checks| => Finished(b.name, paths, b.checks[j])))
  }

  /** A configuration that loads: every box ready, no check name twice. */
  ghost predicate Loads(boxes: seq<Box>, lists: seq<Credlist>) {
    (forall b | b in boxes :: BoxReady(b, PathOf(lists))) && Distinct(Names(boxes))
  }

  function LoadedBoxes(boxes: seq<Box>, lists: seq<Credlist>): seq<Box>
    requires Loads(boxes, lists)
  {
    seq(|boxes|, i requires 0 <= i < |boxes| => FinishedBox(boxes[i], PathOf(lists)))
  }

  // -------------------------------------------------- what it is to be loaded

  /** The name a box's j-th check ends up with: its own, or the box's and the
      display name joined by a dash. */
  function FinalName(b: Box, j: nat): Str
    requires j < |b.checks|
  {
    var c := b.checks[j];
    if |c.name| > 0 then c.name else b.name + [45] + c.display
  }

  lemma NamesAt(b: Box, j: nat)
    requires j < |b.checks|
    ensures BoxNames(b)[j] == FinalName(b, j)
  {
  }

  /** The place of a box's first name among all names. */
  function Offset(boxes: seq<Box>, i: nat): nat
    requires i <= |boxes|
  {
    if i == 0 then 0 else Offset(boxes, i - 1) + |boxes[i - 1].checks|
  }

  lemma {:induction false} OffsetsGrow(boxes: seq<Box>, i: nat, k: nat)
    requires i <= k <= |boxes|
    ensures Offset(boxes, i) <= Offset(boxes, k)
    ensures i < k ==> Offset(boxes, i) + |boxes[i].checks| <= Offset(boxes, k)
  {
    if i < k { OffsetsGrow(boxes, i, k - 1); }
  }

  lemma {:induction false} OffsetInPrefix(boxes: seq<Box>, n: nat, i: nat)
    requires i <= n <= |boxes|
    ensures Offset(boxes[..n], i) == Offset(boxes, i)
  {
    if i > 0 { OffsetInPrefix(boxes, n, i - 1); }
  }

  lemma {:induction false} NameInPlace(boxes: seq<Box>, i: nat, j: nat)
    requires i < |boxes| && j < |boxes[i].checks|
    ensures |Names(boxes)| == Offset(boxes, |boxes|)
    ensures Offset(boxes, i) + j < |Names(boxes)| && Names(boxes)[Offset(boxes, i) + j] == FinalName(boxes[i], j)
  {
    var n := |boxes| - 1;
    NamesLength(boxes[..n]);
    NamesLength(boxes);
    OffsetInPrefix(boxes, n, n);
    OffsetsGrow(boxes, i, |boxes|);
    if i < n {
      NameInPlace(boxes[..n], i, j);
      OffsetInPrefix(boxes, n, i);
    }
  }

  lemma {:induction false} NamesLength(boxes: seq<Box>)
    ensures |Names(boxes)| == Offset(boxes, |boxes|)
  {
    if boxes != [] {
      var n := |boxes| - 1;
      NamesLength(boxes[..n]);
      OffsetInPrefix(boxes, n, n);
    }
  }

  /** Two checks of a configuration that loads, in one box or in two, never have
      the same name. */
  lemma LoadedChecksDiffer(boxes: seq<Box>, lists: seq<Credlist>, i: nat, j: nat, k: nat, m: nat)
    requires Loads(boxes, lists) && (i, j) != (k, m)
    requires i < |boxes| && j < |boxes[i].checks| && k < |boxes| && m < |boxes[k].checks|
    ensures FinalName(boxes[i], j) != FinalName(boxes[k], m)
  {
    NameInPlace(boxes, i, j);
    NameInPlace(boxes, k, m);
    if i < k { OffsetsGrow(boxes, i, k); }
    if k < i { OffsetsGrow(boxes, k, i); }
    assert Offset(boxes, i) + j != Offset(boxes, k) + m;
  }

  lemma {:induction false} WhoseName(boxes: seq<Box>, a: nat) returns (i: nat, j: nat)
    requires a < |Names(boxes)|
    ensures i < |boxes| && j < |boxes[i].checks| && a == Offset(boxes, i) + j
  {
    var n := |boxes| - 1;
    NamesLength(boxes[..n]);
    OffsetInPrefix(boxes, n, n);
    if a < |Names(boxes[..n])| {
      i, j := WhoseName(boxes[..n], a);
      OffsetInPrefix(boxes, n, i);
    } else {
      i, j := n, a - |Names(boxes[..n])|;
    }
  }

  lemma UnknownList(lists: seq<Credlist>, l: Str)
    ensures l !in PathOf(lists) <==> forall x | x in lists :: !Called(x, l)
  {
    if l in PathOf(lists) {
      OnlyListsAreFound(lists, l);
    } else if exists x | x in lists :: Called(x, l) {
      var i := LastIndex(lists, l);
      LastListIsFound(lists, l, i);
      assert false;
    }
  }

  /** A box that the load accepts: named, with an address, its checks accepted by
      their own Verify, its lists configured. */
  ghost predicate Acceptable(b: Box, lists: seq<Credlist>) {
    b.name != [] && b.ip != [] && forall c | c in b.checks :: c.sound && forall l | l in c.credlists :: exists x | x in lists :: Called(x, l)
  }

  lemma AcceptableIsReady(b: Box, lists: seq<Credlist>)
    ensures Acceptable(b, lists) <==> BoxReady(b, PathOf(lists))
  {
    forall c | c in b.checks
      ensures (forall l | l in c.credlists :: exists x | x in lists :: Called(x, l)) <==> Resolvable(PathOf(lists), c)
    {
      forall l | l in c.credlists ensures l in PathOf(lists) <==> exists x | x in lists :: Called(x, l) { UnknownList(lists, l); }
    }
  }

  ghost predicate AllDiffer(boxes: seq<Box>) {
    forall i, j, k, m | 0 <= i < |boxes| && 0 <= j < |boxes[i].checks| && 0 <= k < |boxes| && 0 <= m < |boxes[k].checks| ::
      (i, j) != (k, m) ==> FinalName(boxes[i], j) != FinalName(boxes[k], m)
  }

  lemma AllDifferIsDistinct(boxes: seq<Box>)
    requires AllDiffer(boxes)
    ensures Distinct(Names(boxes))
  {
    forall a, b | 0 <= a < b < |Names(boxes)| ensures Names(boxes)[a] != Names(boxes)[b] {
      var i, j := WhoseName(boxes, a);
      var k, m := WhoseName(boxes, b);
      NameInPlace(boxes, i, j);
      NameInPlace(boxes, k, m);
      assert FinalName(boxes[i], j) != FinalName(boxes[k], m);
    }
  }

  /** Exactly which configurations load: those whose boxes are all acceptable and
      of which no two checks, in one box or in two, end up with the same name. */
  lemma LoadsIff(boxes: seq<Box>, lists: seq<Credlist>)
    ensures Loads(boxes, lists) <==> (forall b | b in boxes :: Acceptable(b, lists)) && AllDiffer(boxes)
  {
    forall b | b in boxes ensures Acceptable(b, lists) <==> BoxReady(b, PathOf(lists)) { AcceptableIsReady(b, lists); }
    if Loads(boxes, lists) {
      forall i, j, k, m | 0 <= i < |boxes| && 0 <= j < |boxes[i].checks| && 0 <= k < |boxes| && 0 <= m < |boxes[k].checks| && (i, j) != (k, m)
        ensures FinalName(boxes[i], j) != FinalName(boxes[k], m)
      {
        LoadedChecksDiffer(boxes, lists, i, j, k, m);
      }
    }
    if AllDiffer(boxes) { AllDifferIsDistinct(boxes); }
  }

  /** What a load makes of a box: each check under its final name, its lists by
      path, and nothing else touched. */
  ghost predicate IsLoaded(out: Box, b: Box, lists: seq<Credlist>) {
    && out == b.(checks := out.checks) && |out.checks| == |b.checks|
    && forall j | 0 <= j < |b.checks| ::
         && out.checks[j] == b.checks[j].(name := FinalName(b, j), credlists := out.checks[j].credlists)
         && |out.checks[j].credlists| == |b.checks[j].credlists|
         && forall m | 0 <= m < |b.checks[j].credlists| ::
              var l := b.checks[j].credlists[m]; l in PathOf(lists) && out.checks[j].credlists[m] == PathOf(lists)[l]
  }

  lemma FinishedIsLoaded(b: Box, lists: seq<Credlist>)
    requires BoxReady(b, PathOf(lists))
    ensures IsLoaded(FinishedBox(b, PathOf(lists)), b, lists)
  {
    forall j | 0 <= j < |b.checks| ensures Resolvable(PathOf(lists), b.checks[j]) { assert b.checks[j] in b.checks; }
    var out := FinishedBox(b, PathOf(lists));
    forall j, m | 0 <= j < |b.checks| && 0 <= m < |b.checks[j].credlists|
      ensures b.checks[j].credlists[m] in PathOf(lists) && out.checks[j].credlists[m] == PathOf(lists)[b.checks[j].credlists[m]]
    {
      assert b.checks[j].credlists[m] in b.checks[j].credlists;
    }
  }

  // --------------------------------------------------------------- the loops

  method CredMap(lists: seq<Credlist>) returns (paths: map<Str, Str>)
    ensures FindsLast(paths, lists)
  {
    paths := map[];
    for i := 0 to |lists|
      invariant paths == PathOf(lists[..i])
    {
      assert lists[..i + 1][..i] == lists[..i];
      paths := paths[lists[i].name := lists[i].path];
      paths := paths[lists[i].path := lists[i].path];
    }
    assert lists[..|lists|] == lists;
    FindsLastIsPathOf(paths, lists);
  }

  method Resolve(c: Check, paths: map<Str, Str>) returns (ok: bool, out: seq<Str>)
    ensures ok <==> forall l | l in c.credlists :: l in paths
    ensures ok <==> Resolvable(paths, c)
    ensures ok ==> |out| == |c.credlists| && forall k | 0 <= k < |out| :: out[k] == paths[c.credlists[k]]
  {
    ok, out := true, [];
    for k := 0 to |c.credlists|
      invariant ok <==> forall m | 0 <= m < k :: c.credlists[m] in paths
      invariant ok ==> |out| == k && forall m | 0 <= m < k :: out[m] == paths[c.credlists[m]]
    {
      if c.credlists[k] in paths {
        out := out + [paths[c.credlists[k]]];
      } else {
        ok := false;
      }
    }
  }

  /** The first j checks of a box load beside the names seen before it. */
  ghost predicate Fine(b: Box, paths: map<Str, Str>, seen: set<Str>, j: nat)
    requires j <= |b.checks|
  {
    && (forall m | 0 <= m < j :: b.checks[m].sound && Resolvable(paths, b.checks[m]))
    && Distinct(BoxNames(b)[..j])
    && (forall n | n in BoxNames(b)[..j] :: n !in seen)
  }

  lemma FineNext(b: Box, paths: map<Str, Str>, seen: set<Str>, j: nat)
    requires j < |b.checks|
    ensures var name := FullName(b.name, b.checks[j]);
            Fine(b, paths, seen, j + 1) <==>
              Fine(b, paths, seen, j) && b.checks[j].sound && Resolvable(paths, b.checks[j]) &&
              name !in seen && name !in BoxNames(b)[..j]
  {
    var names, name := BoxNames(b), FullName(b.name, b.checks[j]);
    assert names[..j + 1] == names[..j] + [name];
    NewName(names[..j], name);
  }

  lemma FineAll(b: Box, paths: map<Str, Str>, seen: set<Str>)
    requires b.name != [] && b.ip != []
    ensures Fine(b, paths, seen, |b.checks|) <==>
            BoxReady(b, paths) && Distinct(BoxNames(b)) && forall n | n in BoxNames(b) :: n !in seen
  {
    assert BoxNames(b)[..|b.checks|] == BoxNames(b);
  }

  /** One box: its checks named, their names entered in `seen`, their lists
      resolved. */
  method CheckBox(b: Box, paths: map<Str, Str>, seen: set<Str>)
    returns (ok: bool, seen': set<Str>, checks: seq<Check>)
    requires b.name != [] && b.ip != []
    ensures seen' == seen + set n | n in BoxNames(b)
    ensures ok <==> BoxReady(b, paths) && Distinct(BoxNames(b)) && forall n | n in BoxNames(b) :: n !in seen
    ensures ok ==> checks == FinishedBox(b, paths).checks
  {
    ok, seen', checks := true, seen, [];
    for j := 0 to |b.checks|
      invariant forall n :: n in seen' <==> n in seen || n in BoxNames(b)[..j]
      invariant ok <==> Fine(b, paths, seen, j)
      invariant |checks| == j
      invariant ok ==> forall m | 0 <= m < j :: checks[m] == Finished(b.name, paths, b.checks[m])
    {
      var name := FullName(b.name, b.checks[j]);
      FineNext(b, paths, seen, j);
      assert BoxNames(b)[..j + 1] == BoxNames(b)[..j] + [name];
      var found, lists := Resolve(b.checks[j], paths);
      if !b.checks[j].sound || !found || name in seen' {
        ok := false;
      }
      seen' := seen' + {name};
      var c := b.checks[j].(name := name);
      checks := checks + [if |lists| > 0 then c.(credlists := lists) else c];
    }
    assert BoxNames(b)[..|b.checks|] == BoxNames(b);
    FineAll(b, paths, seen);
  }

  lemma NewName(names: seq<Str>, name: Str)
    ensures Distinct(names + [name]) <==> Distinct(names) && name !in names
  {
    var all := names + [name];
    if Distinct(all) {
      assert forall i, j | 0 <= i < j < |names| :: all[i] == names[i] && all[j] == names[j];
      forall i | 0 <= i < |names| ensures names[i] != name {
        assert all[i] != all[|names|];
      }
    }
  }

  lemma DistinctAppend(a: seq<Str>, b: seq<Str>)
    ensures Distinct(a + b) <==> Distinct(a) && Distinct(b) && forall n | n in b :: n !in a
  {
    var all := a + b;
    if Distinct(all) {
      assert forall i, j | 0 <= i < j < |a| :: all[i] == a[i] && all[j] == a[j];
      forall i, j | 0 <= i < j < |b| ensures b[i] != b[j] {
        assert all[|a| + i] != all[|a| + j];
      }
      forall n | n in b ensures n !in a {
        var j :| 0 <= j < |b| && b[j] == n;
        forall i | 0 <= i < |a| ensures a[i] != n { assert all[i] != all[|a| + j]; }
      }
    }
    if Distinct(a) && Distinct(b) && forall n | n in b :: n !in a {
      forall i, j | 0 <= i < j < |all| ensures all[i] != all[j] {
        if i >= |a| { assert b[i - |a|] != b[j - |a|]; }
        else if j >= |a| { assert b[j - |a|] in b; }
      }
    }
  }

  /** The boxes are in the order the stable sort by IP gives. Success means
      what it should and nothing more: every box named, every check sound, all
      lists known, and no check name twice anywhere. */
  method CheckBoxes(boxes: seq<Box>, lists: seq<Credlist>) returns (ok: bool, out: seq<Box>)
    ensures ok <==> Loads(boxes, lists)
    ensures ok ==> out == LoadedBoxes(boxes, lists)
    ensures ok ==> |out| == |boxes| && forall i | 0 <= i < |boxes| :: IsLoaded(out[i], boxes[i], lists)
  {
    var paths := CredMap(lists);
    FindsLastIsPathOf(paths, lists);
    var seen: set<Str> := {};
    ok, out := true, [];
    for i := 0 to |boxes|
      invariant seen == set n | n in Names(boxes[..i])
      invariant ok <==> (forall m | 0 <= m < i :: BoxReady(boxes[m], paths)) && Distinct(Names(boxes[..i]))
      invariant ok ==> |out| == i && forall m | 0 <= m < i :: out[m] == FinishedBox(boxes[m], paths)
    {
      if boxes[i].name == [] || boxes[i].ip == [] {
        assert !BoxReady(boxes[i], paths);
        return false, [];
      }
      assert boxes[..i + 1][..i] == boxes[..i];
      DistinctAppend(Names(boxes[..i]), BoxNames(boxes[i]));
      var fine, checks;
      fine, seen, checks := CheckBox(boxes[i], paths, seen);
      ok := ok && fine;
      out := out + [boxes[i].(checks := checks)];
    }
    assert boxes[..|boxes|] == boxes;
    if ok {
      forall i | 0 <= i < |boxes| ensures IsLoaded(out[i], boxes[i], lists) { FinishedIsLoaded(boxes[i], lists); }
    }
  }

  /** AllChecks: one flat list. */
  function Flat(boxes: seq<Box>): seq<Check> {
    if boxes == [] then [] else Flat(boxes[..|boxes| - 1]) + boxes[|boxes| - 1].checks
  }

  /** One box's checks after another's. */
  lemma {:induction false} FlatInOrder(a: seq<Box>, b: seq<Box>)
    ensures Flat(a + b) == Flat(a) + Flat(b)
  {
    if b == [] {
      assert a + b == a && Flat(a) + [] == Flat(a);
    } else {
      var last := b[|b| - 1].checks;
      FlatInOrder(a, b[..|b| - 1]);
      FlatInOrderStep(a, b);
      assert (Flat(a) + Flat(b[..|b| - 1])) + last == Flat(a) + (Flat(b[..|b| - 1]) + last);
    }
  }

  lemma FlatInOrderStep(a: seq<Box>, b: seq<Box>)
    requires b != []
    ensures Flat(a + b) == Flat(a + b[..|b| - 1]) + b[|b| - 1].checks
  {
    assert (a + b)[..|a + b| - 1] == a + b[..|b| - 1] && (a + b)[|a + b| - 1] == b[|b| - 1];
  }

  lemma FlatOfOne(b: Box)
    ensures Flat([b]) == b.checks
  {
    assert [b][..0] == [];
  }

  method AllChecks(boxes: seq<Box>) returns (out: seq<Check>)
    ensures out == Flat(boxes)
  {
    out := [];
    for i := 0 to |boxes|
      invariant out == Flat(boxes[..i])
    {
      assert boxes[..i + 1][..i] == boxes[..i];
      out := out + boxes[i].checks;
    }
    assert boxes[..|boxes|] == boxes;
  }

  function CheckNames(cs: seq<Check>): seq<Str> {
    seq(|cs|, i requires 0 <= i < |cs| => cs[i].name)
  }

  lemma {:induction false} FlatNames(boxes: seq<Box>, out: seq<Box>, paths: map<Str, Str>)
    requires |out| == |boxes|
    requires forall b | b in boxes :: BoxReady(b, paths)
    requires forall i | 0 <= i < |out| :: out[i] == FinishedBox(boxes[i], paths)
    ensures CheckNames(Flat(out)) == Names(boxes)
  {
    if boxes != [] {
      var n := |boxes| - 1;
      FlatNames(boxes[..n], out[..n], paths);
      assert CheckNames(out[n].checks) == BoxNames(boxes[n]);
      assert CheckNames(Flat(out[..n]) + out[n].checks) == CheckNames(Flat(out[..n])) + CheckNames(out[n].checks);
    }
  }

  /** A configuration that loads gives the engine checks with distinct names,
      across all boxes. */
  lemma {:induction false} LoadedNamesAreDistinct(boxes: seq<Box>, lists: seq<Credlist>)
    requires Loads(boxes, lists)
    ensures Distinct(CheckNames(Flat(LoadedBoxes(boxes, lists))))
  {
    FlatNames(boxes, LoadedBoxes(boxes, lists), PathOf(lists));
  }

  /** Two boxes of one name, with a check each. */
  function TwinBoxes(): seq<Box> {
    [Box([97], [49], [Check([], [100], "Dns", true, [], false, 0, 0, 1)]),
     Box([97], [50], [Check([], [119], "Web", true, [], false, 0, 0, 1)])]
  }

  /** Box names need not be distinct: the map meant to catch a second box of
      the same name is never filled. */
  lemma TwinBoxesLoad()
    ensures TwinBoxes()[0].name == TwinBoxes()[1].name && Loads(TwinBoxes(), [])
  {
    var boxes := TwinBoxes();
    var a, b := boxes[0], boxes[1];
    assert boxes[..1] == [a] && [a][..0] == [];
    assert FullName(a.name, a.checks[0]) == [97, 45, 100] && FullName(b.name, b.checks[0]) == [97, 45, 119];
    assert BoxNames(a) == [[97, 45, 100]] && BoxNames(b) == [[97, 45, 119]];
    assert Names([a]) == BoxNames(a);
    assert Names(boxes) == [[97, 45, 100], [97, 45, 119]];
    assert Names(boxes)[0][2] != Names(boxes)[1][2];
  }
}
