/** Target templates: the underscore stands for a team's identifier. */
module Targets {

  predicate Digit(c: char) { '0' <= c <= '9' }

  /** ^[0-9]{1,3}$ */
  predicate IsValidIdentifier(id: string) {
    1 <= |id| <= 3 && forall c | c in id :: Digit(c)
  }

  /** strings.Replace(target, "_", id, -1) */
  function Substitute(target: string, id: string): string {
    if target == [] then []
    else (if target[0] == '_' then id else [target[0]]) + Substitute(target[1..], id)
  }

  /** The identifier stands where the blank was, whole, and nothing else moves. */
  lemma {:induction false} SubstituteAtBlank(before: string, after: string, id: string)
    ensures Substitute(before + "_" + after, id) == Substitute(before, id) + id + Substitute(after, id)
  {
    if before == [] {
      assert before + "_" + after == "_" + after && ("_" + after)[1..] == after;
      assert Substitute(before, id) + id == id;
    } else {
      SubstituteAtBlank(before[1..], after, id);
      SubstituteHead(before, "_" + after, id);
      assert before + "_" + after == before + ("_" + after);
      assert before[1..] + "_" + after == before[1..] + ("_" + after);
      Regroup(Shown(before[0], id), Substitute(before[1..], id), id, Substitute(after, id));
    }
  }

  /** What one character becomes. */
  function Shown(c: char, id: string): string { if c == '_' then id else [c] }

  lemma SubstituteHead(a: string, b: string, id: string)
    requires a != []
    ensures Substitute(a + b, id) == Shown(a[0], id) + Substitute(a[1..] + b, id)
    ensures Substitute(a, id) == Shown(a[0], id) + Substitute(a[1..], id)
  {
    assert (a + b)[0] == a[0] && (a + b)[1..] == a[1..] + b;
  }

  lemma Regroup(a: string, b: string, c: string, d: string)
    ensures a + (b + c + d) == (a + b) + c + d
  {
  }

  /** What a team's identifier can be. */
  lemma IdentifierCases(id: string)
    ensures IsValidIdentifier(id) ==> 1 <= |id| <= 3 && forall i | 0 <= i < |id| :: id[i] in "0123456789"
    ensures 1 <= |id| <= 3 && (forall i | 0 <= i < |id| :: id[i] in "0123456789") ==> IsValidIdentifier(id)
  {
    forall i | 0 <= i < |id| ensures id[i] in "0123456789" <==> Digit(id[i]) {
      DigitListed(id[i]);
    }
    if IsValidIdentifier(id) {
      forall i | 0 <= i < |id| ensures id[i] in "0123456789" { assert id[i] in id; }
    }
  }

  lemma DigitListed(c: char)
    ensures c in "0123456789" <==> '0' <= c <= '9'
  {
    var digits := "0123456789";
    if '0' <= c <= '9' {
      var n := (c as int) - ('0' as int);
      assert digits[n] == c;
    }
  }

  function Blanks(target: string): nat {
    if target == [] then 0 else (if target[0] == '_' then 1 else 0) + Blanks(target[1..])
  }

  lemma {:induction false} Length(target: string, id: string)
    ensures |Substitute(target, id)| == |target| - Blanks(target) + Blanks(target) * |id|
    ensures Blanks(target) > 0 <==> '_' in target
  {
    if target != [] {
      Length(target[1..], id);
      assert target == [target[0]] + target[1..];
      assert (1 + Blanks(target[1..])) * |id| == |id| + Blanks(target[1..]) * |id|;
    }
  }

  lemma {:induction false} NoBlankLeft(target: string, id: string)
    requires '_' !in id
    ensures '_' !in Substitute(target, id)
  {
    if target != [] { NoBlankLeft(target[1..], id); }
  }

  lemma {:induction false} Unchanged(target: string, id: string)
    requires '_' !in target
    ensures Substitute(target, id) == target
  {
    if target != [] { Unchanged(target[1..], id); }
  }

  lemma SameProduct(n: nat, a: int, b: int)
    requires n > 0 && n * a == n * b
    ensures a == b
  {
    if a < b { Grows(n, a, b); } else if b < a { Grows(n, b, a); }
  }

  lemma Grows(n: nat, a: int, b: int)
    requires n > 0 && a < b
    ensures n * a < n * b
  {
    assert n * b == n * a + n * (b - a);
  }

  /** The first blank shows the identifier. */
  lemma {:induction false} FirstBlank(target: string, a: string, b: string)
    requires '_' in target && |a| == |b| && Substitute(target, a) == Substitute(target, b)
    ensures a == b
  {
    var sa, sb := Substitute(target, a), Substitute(target, b);
    if target[0] == '_' {
      assert a == sa[..|a|] == sb[..|b|] == b;
    } else {
      assert Substitute(target[1..], a) == sa[1..] == sb[1..] == Substitute(target[1..], b);
      FirstBlank(target[1..], a, b);
    }
  }

  /** A check's own copy of its target; each attempt substitutes again. */
  class Service {
    var target: string

    constructor (target: string)
      ensures this.target == target
    {
      this.target := target;
    }

    /** However often an attempt substitutes, the first one decides. */
    method Aim(id: string)
      modifies this
      ensures target == Substitute(old(target), id)
      ensures '_' !in id ==> '_' !in target
      ensures '_' !in old(target) ==> target == old(target)
    {
      if '_' !in id { NoBlankLeft(target, id); }
      if '_' !in target { Unchanged(target, id); }
      target := Substitute(target, id);
    }
  }

  /** Two teams never share a target made from one template, and a substituted
      target is final, whoever substitutes again. */
  lemma TargetsAreDistinctAndFinal(target: string, a: string, b: string)
    requires '_' in target && IsValidIdentifier(a) && IsValidIdentifier(b)
    ensures Substitute(target, a) == Substitute(target, b) <==> a == b
    ensures '_' !in Substitute(target, a)
    ensures Substitute(Substitute(target, a), b) == Substitute(target, a)
  {
    NoBlankLeft(target, a);
    Unchanged(Substitute(target, a), b);
    if Substitute(target, a) == Substitute(target, b) {
      Length(target, a);
      Length(target, b);
      SameProduct(Blanks(target), |a|, |b|);
      FirstBlank(target, a, b);
    }
  }
}
