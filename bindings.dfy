// Variable bindings of generated values and check_against_others, the
// merge that enforces constraints across parameters. A generated value
// carries the (name, value) pairs of the configuration variables it was
// built from; a `None` name binds nothing.
module Bindings {
  import opened Wrappers

  datatype Name = Wild | Var(id: string)

  datatype Binding = Binding(name: Name, val: int)

  /**
   * The bindings of one candidate value: fixed pairs, or, for a value whose
   * size is the start or end of a variable range, the range variable with
   * every value it may still take (one single-pair option each).
   */
  datatype VarNames = Fixed(bindings: seq<Binding>) | Ranged(name: string, vals: seq<int>)

  /** The outcome of a merge: rejected, merged, or an exception. */
  datatype Merge = Conflict | Merged(bindings: seq<Binding>) | Raises(error: string)

  /** A name that constrains anything: Python's `not name` skips None and the empty string. */
  predicate Named(n: Name) {
    n.Var? && n.id != []
  }

  function NamesOf(bs: seq<Binding>): (r: seq<Name>)
    ensures |r| == |bs| && forall k :: 0 <= k < |bs| ==> r[k] == bs[k].name
  {
    seq(|bs|, k requires 0 <= k < |bs| => bs[k].name)
  }

  predicate HasName(bs: seq<Binding>, n: Name) {
    exists k :: 0 <= k < |bs| && bs[k].name == n
  }

  /** No constraining name is bound twice. */
  predicate NoDupNames(bs: seq<Binding>) {
    forall i, j :: 0 <= i < j < |bs| && Named(bs[i].name) ==> bs[i].name != bs[j].name
  }

  /** Some constraining name is bound in both with different values. */
  predicate Clash(mine: seq<Binding>, existing: seq<Binding>) {
    exists i, j :: 0 <= i < |mine| && 0 <= j < |existing|
      && Named(mine[i].name) && mine[i].name == existing[j].name && mine[i].val != existing[j].val
  }

  /** The candidate binding's name is also bound by the existing bindings. */
  predicate Bound(b: Binding, existing: seq<Binding>) {
    Named(b.name) && HasName(existing, b.name)
  }

  /** The candidate's bindings whose names the existing bindings share, in order. */
  function Matched(mine: seq<Binding>, existing: seq<Binding>): seq<Binding>
  {
    if mine == [] then []
    else
      var b := mine[|mine| - 1];
      Matched(mine[..|mine| - 1], existing) + (if Bound(b, existing) then [b] else [])
  }

  /** The candidate's remaining bindings, in order. */
  function Unmatched(mine: seq<Binding>, existing: seq<Binding>): seq<Binding>
  {
    if mine == [] then []
    else
      var b := mine[|mine| - 1];
      Unmatched(mine[..|mine| - 1], existing) + (if Bound(b, existing) then [] else [b])
  }

  /** The existing bindings whose names the candidate does not bind, in order. */
  function Leftover(existing: seq<Binding>, mine: seq<Binding>): seq<Binding>
  {
    if existing == [] then []
    else
      var e := existing[|existing| - 1];
      Leftover(existing[..|existing| - 1], mine) + (if HasName(mine, e.name) then [] else [e])
  }

  /**
   * The merge of fixed bindings: rejected on a clash; otherwise the
   * candidate's shared bindings, then its other bindings, then the existing
   * bindings of names the candidate does not bind.
   */
  function MergeFixed(mine: seq<Binding>, existing: seq<Binding>): Merge
  {
    if Clash(mine, existing) then Conflict
    else Merged(Matched(mine, existing) + Unmatched(mine, existing) + Leftover(existing, mine))
  }

  /** The options of a ranged candidate, one single-pair tuple per value. */
  function Options(name: string, vals: seq<int>): (r: seq<seq<Binding>>)
    ensures |r| == |vals| && forall k :: 0 <= k < |vals| ==> r[k] == [Binding(Var(name), vals[k])]
  {
    seq(|vals|, k requires 0 <= k < |vals| => [Binding(Var(name), vals[k])])
  }

  /**
   * The merge of a ranged candidate, as evidently intended: rejected when
   * its variable is already bound to a value it cannot take; the existing
   * bindings are kept as they are.
   */
  function MergeRanged(name: string, vals: seq<int>, existing: seq<Binding>): Merge
  {
    if vals == [] then Raises("IndexError")
    else if Named(Var(name))
      && exists j :: 0 <= j < |existing| && existing[j].name == Var(name) && existing[j].val !in vals
    then Conflict
    else Merged(existing)
  }

  function MergeSpec(mine: VarNames, existing: seq<Binding>): Merge
  {
    match mine
    case Fixed(bs) => MergeFixed(bs, existing)
    case Ranged(name, vals) => MergeRanged(name, vals, existing)
  }

  /**
   * The list branch of check_against_others as written: it compares the
   * first option's whole (name, value) pair with each existing name, which
   * never matches, so the merge never rejects.
   */
  function MergeRangedAsWritten(name: string, vals: seq<int>, existing: seq<Binding>): (r: Merge)
    ensures !r.Conflict?
    ensures vals != [] ==> r == Merged(existing)
  {
    if vals == [] then Raises("IndexError") else Merged(existing)
  }

  /** The ranged candidate with x in 1..2 is merged as written with x already bound to 3. */
  lemma RangedNeverRejects()
    ensures MergeRangedAsWritten("x", [1, 2], [Binding(Var("x"), 3)]) == Merged([Binding(Var("x"), 3)])
    ensures MergeRanged("x", [1, 2], [Binding(Var("x"), 3)]) == Conflict
  {
    var ex := [Binding(Var("x"), 3)];
    assert ex[0].name == Var("x") && ex[0].val !in [1, 2];
  }

  /** list.remove: drop the first occurrence, or fail when there is none. */
  function RemoveFirst(s: seq<Binding>, x: Binding): (r: Option<seq<Binding>>)
    ensures r.None? <==> x !in s
  {
    if s == [] then None
    else if s[0] == x then Some(s[1..])
    else match RemoveFirst(s[1..], x)
      case None => None
      case Some(t) => Some([s[0]] + t)
  }

  lemma {:induction false} RemoveFirstAt(s1: seq<Binding>, x: Binding, s2: seq<Binding>)
    requires x !in s1
    ensures RemoveFirst(s1 + [x] + s2, x) == Some(s1 + s2)
  {
    if s1 != [] {
      assert (s1 + [x] + s2)[1..] == s1[1..] + [x] + s2;
      RemoveFirstAt(s1[1..], x, s2);
      assert [s1[0]] + (s1[1..] + s2) == s1 + s2;
    } else {
      assert s1 + [x] + s2 == [x] + s2 && s1 + s2 == s2;
      assert ([x] + s2)[1..] == s2;
    }
  }

  lemma UnmatchedNotBound(mine: seq<Binding>, existing: seq<Binding>, b: Binding)
    requires b in Unmatched(mine, existing)
    ensures !Bound(b, existing)
  {
    if mine != [] {
      if b in Unmatched(mine[..|mine| - 1], existing) {
        UnmatchedNotBound(mine[..|mine| - 1], existing, b);
      }
    }
  }

  /** The state of the candidate loop of check_against_others after i candidate bindings. */
  ghost predicate FixedSoFar(mine: seq<Binding>, existing: seq<Binding>, i: int,
                             newVarnames: seq<Binding>, notAdded: seq<Binding>)
  {
    0 <= i <= |mine|
    && newVarnames == Matched(mine[..i], existing)
    && notAdded == Unmatched(mine[..i], existing) + mine[i..]
    && forall i', j :: (0 <= i' < i && 0 <= j < |existing| && Named(mine[i'].name)
                        && mine[i'].name == existing[j].name) ==> mine[i'].val == existing[j].val
  }

  /** Removing a shared candidate binding from the pending ones. */
  lemma MatchStep(prefix: seq<Binding>, b: Binding, rest: seq<Binding>, existing: seq<Binding>,
                  notAdded: seq<Binding>)
    requires Bound(b, existing)
    requires notAdded == Unmatched(prefix, existing) + ([b] + rest)
    ensures RemoveFirst(notAdded, b) == Some(Unmatched(prefix, existing) + rest)
  {
    var u := Unmatched(prefix, existing);
    if b in u {
      UnmatchedNotBound(prefix, existing, b);
    }
    assert notAdded == u + [b] + rest;
    RemoveFirstAt(u, b, rest);
  }

  /** The inner loop: existing bindings compared with one candidate binding. */
  method MatchOne(mine: seq<Binding>, existing: seq<Binding>, i: int,
                  newVarnames0: seq<Binding>, notAdded0: seq<Binding>)
    returns (r: Merge, newVarnames: seq<Binding>, notAdded: seq<Binding>)
    requires 0 <= i < |mine|
    ensures r.Conflict? ==> Clash(mine, existing)
    ensures NoDupNames(existing) && FixedSoFar(mine, existing, i, newVarnames0, notAdded0) ==>
      (r.Merged? && FixedSoFar(mine, existing, i + 1, newVarnames, notAdded)) || r.Conflict?
  {
    ghost var nd := NoDupNames(existing) && FixedSoFar(mine, existing, i, newVarnames0, notAdded0);
    var b := mine[i];
    newVarnames, notAdded := newVarnames0, notAdded0;
    r := Merged([]);
    ghost var prefix := mine[..i];
    assert mine[..i + 1] == prefix + [b];
    assert mine[i..] == [b] + mine[i + 1..];
    if !Named(b.name) {
      return;
    }
    ghost var found := false;
    var j := 0;
    while j < |existing|
      invariant 0 <= j <= |existing|
      invariant found <==> exists j' :: 0 <= j' < j && existing[j'].name == b.name
      invariant nd && !found ==> newVarnames == Matched(prefix, existing)
                                 && notAdded == Unmatched(prefix, existing) + mine[i..]
      invariant nd && found ==> newVarnames == Matched(prefix, existing) + [b]
                                && notAdded == Unmatched(prefix, existing) + mine[i + 1..]
      invariant forall j' :: 0 <= j' < j && existing[j'].name == b.name ==> existing[j'].val == b.val
    {
      var e := existing[j];
      if Named(e.name) && b.name == e.name {
        if b.val != e.val {
          return Conflict, newVarnames, notAdded;
        }
        newVarnames := newVarnames + [b];
        if nd {
          assert !found;
          assert Bound(b, existing) by { assert existing[j].name == b.name; }
          MatchStep(prefix, b, mine[i + 1..], existing, notAdded);
        }
        var rest := RemoveFirst(notAdded, b);
        if rest.None? {
          return Raises("ValueError"), newVarnames, notAdded;
        }
        notAdded := rest.value;
        found := true;
      }
      j := j + 1;
    }
    assert found ==> Bound(b, existing);
    assert !found ==> !Bound(b, existing);
  }

  /** The existing bindings of names not yet bound, appended in order. */
  method AddLeftover(existing: seq<Binding>, newVarnames: seq<Binding>) returns (r: seq<Binding>)
    ensures r == newVarnames + Leftover(existing, newVarnames)
  {
    r := newVarnames;
    var newNames := NamesOf(newVarnames);
    for k := 0 to |existing|
      invariant r == newVarnames + Leftover(existing[..k], newVarnames)
    {
      assert existing[..k + 1][..k] == existing[..k];
      if existing[k].name !in newNames {
        r := r + [existing[k]];
      }
      assert existing[k].name in newNames <==> HasName(newVarnames, existing[k].name);
    }
    assert existing[..|existing|] == existing;
  }

  /** The shared and the other candidate bindings together are the candidate's bindings. */
  lemma {:induction false} PartitionMembers(mine: seq<Binding>, existing: seq<Binding>)
    ensures forall x :: x in Matched(mine, existing) + Unmatched(mine, existing) <==> x in mine
  {
    if mine != [] {
      var p := mine[..|mine| - 1];
      var b := mine[|mine| - 1];
      PartitionMembers(p, existing);
      assert mine == p + [b];
    }
  }

  lemma HasNameMember(bs: seq<Binding>, n: Name)
    ensures HasName(bs, n) <==> exists x :: x in bs && x.name == n
  {
    if x :| x in bs && x.name == n {
      var k :| 0 <= k < |bs| && bs[k] == x;
    }
  }

  /** The merged candidate bindings bind exactly the candidate's names. */
  lemma PartitionNames(mine: seq<Binding>, existing: seq<Binding>, merged: seq<Binding>)
    requires merged == Matched(mine, existing) + Unmatched(mine, existing)
    ensures forall n :: HasName(merged, n) <==> HasName(mine, n)
  {
    PartitionMembers(mine, existing);
    forall n ensures HasName(merged, n) <==> HasName(mine, n) {
      HasNameMember(merged, n);
      HasNameMember(mine, n);
    }
  }

  lemma {:induction false} LeftoverSameNames(existing: seq<Binding>, a: seq<Binding>, b: seq<Binding>)
    requires forall n :: HasName(a, n) <==> HasName(b, n)
    ensures Leftover(existing, a) == Leftover(existing, b)
  {
    if existing != [] {
      LeftoverSameNames(existing[..|existing| - 1], a, b);
    }
  }

  /** check_against_others on fixed bindings: the candidate loop, then the leftover loop. */
  method CheckFixed(mine: seq<Binding>, existing: seq<Binding>) returns (r: Merge)
    ensures r.Conflict? ==> Clash(mine, existing)
    ensures NoDupNames(existing) ==> r == MergeFixed(mine, existing)
  {
    var newVarnames: seq<Binding> := [];
    var notAdded := mine;
    var i := 0;
    while i < |mine|
      invariant 0 <= i <= |mine|
      invariant NoDupNames(existing) ==> FixedSoFar(mine, existing, i, newVarnames, notAdded)
      decreases |mine| - i
    {
      var step;
      step, newVarnames, notAdded := MatchOne(mine, existing, i, newVarnames, notAdded);
      if !step.Merged? {
        return step;
      }
      i := i + 1;
    }
    newVarnames := newVarnames + notAdded;
    var all := AddLeftover(existing, newVarnames);
    if NoDupNames(existing) {
      assert mine[..i] == mine && mine[i..] == [];
      PartitionNames(mine, existing, newVarnames);
      LeftoverSameNames(existing, newVarnames, mine);
    }
    r := Merged(all);
  }

  /** check_against_others on a ranged candidate, with the name comparison as evidently intended. */
  method CheckRanged(name: string, vals: seq<int>, existing: seq<Binding>) returns (r: Merge)
    ensures r == MergeRanged(name, vals, existing)
  {
    if |vals| == 0 {
      return Raises("IndexError");
    }
    if Named(Var(name)) {
      for j := 0 to |existing|
        invariant forall j' :: 0 <= j' < j && existing[j'].name == Var(name) ==> existing[j'].val in vals
      {
        var e := existing[j];
        if e.name == Var(name) {
          var matched := false;
          for k := 0 to |vals|
            invariant matched <==> e.val in vals[..k]
          {
            if vals[k] == e.val {
              matched := true;
            }
          }
          assert vals[..|vals|] == vals;
          if !matched {
            return Conflict;
          }
        }
      }
    }
    r := Merged(existing);
  }

  /** check_against_others */
  method CheckAgainstOthers(mine: VarNames, existing: seq<Binding>) returns (r: Merge)
    ensures mine.Ranged? || NoDupNames(existing) ==> r == MergeSpec(mine, existing)
    ensures r.Conflict? ==> MergeSpec(mine, existing).Conflict?
  {
    match mine
    case Fixed(bs) => r := CheckFixed(bs, existing);
    case Ranged(name, vals) => r := CheckRanged(name, vals, existing);
  }

  // Properties of the merge.

  lemma LeftoverMembers(existing: seq<Binding>, mine: seq<Binding>)
    ensures forall x :: x in Leftover(existing, mine) <==> x in existing && !HasName(mine, x.name)
  {
    if existing != [] {
      LeftoverMembers(existing[..|existing| - 1], mine);
      assert existing == existing[..|existing| - 1] + [existing[|existing| - 1]];
    }
  }

  /**
   * A merge keeps every candidate binding, keeps the existing bindings of
   * names the candidate does not bind, adds nothing else, and (when no
   * existing name is bound twice) every name it binds agrees with the
   * existing bindings of that name.
   */
  lemma MergeFixedContents(mine: seq<Binding>, existing: seq<Binding>)
    requires MergeFixed(mine, existing).Merged?
    ensures var r := MergeFixed(mine, existing).bindings;
      && (forall x :: x in mine ==> x in r)
      && (forall e :: e in existing && !HasName(mine, e.name) ==> e in r)
      && (forall x :: x in r ==> x in mine || x in existing)
      && (forall x, e :: x in mine && e in existing && Named(x.name) && x.name == e.name ==> x.val == e.val)
  {
    PartitionMembers(mine, existing);
    LeftoverMembers(existing, mine);
    var r := MergeFixed(mine, existing).bindings;
    assert r == Matched(mine, existing) + Unmatched(mine, existing) + Leftover(existing, mine);
    forall x, e | x in mine && e in existing && Named(x.name) && x.name == e.name
      ensures x.val == e.val
    {
      var i :| 0 <= i < |mine| && mine[i] == x;
      var j :| 0 <= j < |existing| && existing[j] == e;
    }
  }

  lemma {:induction false} NoDupAppend(a: seq<Binding>, b: seq<Binding>)
    ensures NoDupNames(a + b) <==>
      NoDupNames(a) && NoDupNames(b) && forall x, y :: x in a && y in b && Named(x.name) ==> x.name != y.name
  {
    var c := a + b;
    if NoDupNames(c) {
      forall i, j | 0 <= i < j < |a| && Named(a[i].name) ensures a[i].name != a[j].name {
        assert c[i] == a[i] && c[j] == a[j];
      }
      forall i, j | 0 <= i < j < |b| && Named(b[i].name) ensures b[i].name != b[j].name {
        assert c[|a| + i] == b[i] && c[|a| + j] == b[j];
      }
      forall x, y | x in a && y in b && Named(x.name) ensures x.name != y.name {
        var i :| 0 <= i < |a| && a[i] == x;
        var j :| 0 <= j < |b| && b[j] == y;
        assert c[i] == x && c[|a| + j] == y;
      }
    }
    if NoDupNames(a) && NoDupNames(b) && forall x, y :: x in a && y in b && Named(x.name) ==> x.name != y.name {
      forall i, j | 0 <= i < j < |c| && Named(c[i].name) ensures c[i].name != c[j].name {
        if j < |a| {
          assert c[i] == a[i] && c[j] == a[j];
        } else if i >= |a| {
          assert c[i] == b[i - |a|] && c[j] == b[j - |a|];
        } else {
          assert c[i] == a[i] && c[j] == b[j - |a|];
        }
      }
    }
  }

  lemma {:induction false} MatchedNoDup(mine: seq<Binding>, existing: seq<Binding>)
    requires NoDupNames(mine)
    ensures NoDupNames(Matched(mine, existing)) && NoDupNames(Unmatched(mine, existing))
  {
    if mine != [] {
      var p := mine[..|mine| - 1];
      var b := mine[|mine| - 1];
      assert mine == p + [b];
      NoDupAppend(p, [b]);
      MatchedNoDup(p, existing);
      PartitionMembers(p, existing);
      NoDupAppend(Matched(p, existing), if Bound(b, existing) then [b] else []);
      NoDupAppend(Unmatched(p, existing), if Bound(b, existing) then [] else [b]);
    }
  }

  lemma {:induction false} LeftoverNoDup(existing: seq<Binding>, mine: seq<Binding>)
    requires NoDupNames(existing)
    ensures NoDupNames(Leftover(existing, mine))
  {
    if existing != [] {
      var p := existing[..|existing| - 1];
      var e := existing[|existing| - 1];
      assert existing == p + [e];
      NoDupAppend(p, [e]);
      LeftoverNoDup(p, mine);
      LeftoverMembers(p, mine);
      NoDupAppend(Leftover(p, mine), if HasName(mine, e.name) then [] else [e]);
    }
  }

  /** A merge of bindings that each bind every name at most once binds every name at most once. */
  lemma MergeFixedNoDup(mine: seq<Binding>, existing: seq<Binding>)
    requires NoDupNames(mine) && NoDupNames(existing)
    requires MergeFixed(mine, existing).Merged?
    ensures NoDupNames(MergeFixed(mine, existing).bindings)
  {
    var m := Matched(mine, existing);
    var u := Unmatched(mine, existing);
    var l := Leftover(existing, mine);
    MatchedNoDup(mine, existing);
    LeftoverNoDup(existing, mine);
    PartitionMembers(mine, existing);
    LeftoverMembers(existing, mine);
    forall x, y | x in m && y in u && Named(x.name) ensures x.name != y.name {
      UnmatchedNotBound(mine, existing, y);
      MatchedBound(mine, existing, x);
    }
    NoDupAppend(m, u);
    forall x, y | x in m + u && y in l && Named(x.name) ensures x.name != y.name {
      HasNameMember(mine, y.name);
    }
    NoDupAppend(m + u, l);
  }

  lemma MatchedBound(mine: seq<Binding>, existing: seq<Binding>, b: Binding)
    requires b in Matched(mine, existing)
    ensures Bound(b, existing)
  {
    if mine != [] {
      if b in Matched(mine[..|mine| - 1], existing) {
        MatchedBound(mine[..|mine| - 1], existing, b);
      }
    }
  }

  /** With no constraining name in the candidate, the merge appends what the candidate lacks. */
  lemma {:induction false} UnnamedMerge(mine: seq<Binding>, existing: seq<Binding>)
    requires forall k :: 0 <= k < |mine| ==> !Named(mine[k].name)
    ensures MergeFixed(mine, existing) == Merged(mine + Leftover(existing, mine))
  {
    UnnamedPartition(mine, existing);
  }

  lemma {:induction false} UnnamedPartition(mine: seq<Binding>, existing: seq<Binding>)
    requires forall k :: 0 <= k < |mine| ==> !Named(mine[k].name)
    ensures Matched(mine, existing) == [] && Unmatched(mine, existing) == mine
  {
    if mine != [] {
      UnnamedPartition(mine[..|mine| - 1], existing);
      assert mine == mine[..|mine| - 1] + [mine[|mine| - 1]];
    }
  }

  /**
   * A ranged candidate is rejected exactly when none of its values, taken
   * as a fixed binding, could be merged.
   */
  lemma RangedRejectsIffNoOption(name: string, vals: seq<int>, existing: seq<Binding>)
    requires NoDupNames(existing) && Named(Var(name)) && vals != []
    ensures MergeRanged(name, vals, existing).Conflict? <==>
      forall k :: 0 <= k < |vals| ==> MergeFixed(Options(name, vals)[k], existing).Conflict?
  {
    var opts := Options(name, vals);
    if MergeRanged(name, vals, existing).Conflict? {
      var j :| 0 <= j < |existing| && existing[j].name == Var(name) && existing[j].val !in vals;
      forall k | 0 <= k < |vals| ensures MergeFixed(opts[k], existing).Conflict? {
        assert opts[k][0] == Binding(Var(name), vals[k]);
      }
    } else if j :| 0 <= j < |existing| && existing[j].name == Var(name) {
      var k :| 0 <= k < |vals| && vals[k] == existing[j].val;
      assert opts[k] == [Binding(Var(name), existing[j].val)];
    } else {
      assert !Clash(opts[0], existing);
    }
  }
}
