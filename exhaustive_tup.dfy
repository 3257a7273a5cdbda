// Exhaustive tuple, list and set generation (_create_tup_perms and its
// helper): every container up to a length bound built from the element's
// possible values, with the sortedness and set rules, the variable
// bindings each container collects, and the length filters.
module ExhaustiveTup {
  import opened Wrappers
  import opened PyValues
  import opened BsgGlobals
  import opened Bindings
  import opened ArgLists
  import opened VarLookup

  /** One permutation (typestr, elements, bindings), the hashable key of all_tups. */
  datatype Perm = Perm(kind: string, elems: seq<Py>, names: seq<Binding>)

  /**
   * The arguments that stay fixed through the recursion: the minimum
   * length, the base variable name and its range, the element's possible
   * values with their bindings, the keywords, the variable as VAR_LOOKUP
   * returned it, and the container's type name.
   */
  datatype TupArgs = TupArgs(
    minLen: int, varname: Name, varrange: seq<int>, next: Param<Py>,
    keywords: seq<string>, full: VarName, kind: string)

  /** The element values and their bindings line up, as the process functions build them. */
  predicate Aligned(a: TupArgs) {
    |a.next.names| == |a.next.opts|
  }

  /** The empty containers: one per value of the variable's range, or one tagged (None, 0). */
  function Base(a: TupArgs): set<Perm> {
    if a.varrange != [] then set l | l in a.varrange :: Perm(a.kind, [], [Binding(a.varname, l)])
    else {Perm(a.kind, [], [Binding(Wild, 0)])}
  }

  /** An element may follow elems: always without "sorted" outside sets; else not below (sorted) or above (set) the last one. */
  predicate SortOK(a: TupArgs, elems: seq<Py>, e: Py) {
    (a.kind != "set" && Sorted !in a.keywords) || |elems| == 0
    || (Sorted in a.keywords && LessEq(elems[|elems| - 1], e))
    || (a.kind == "set" && Less(elems[|elems| - 1], e))
  }

  /** t extended by e under the merged bindings, if the merge succeeded and the order allows e. */
  function Grow(a: TupArgs, t: Perm, e: Py, m: Merge): set<Perm> {
    if m.Merged? && SortOK(a, t.elems, e) then {Perm(t.kind, t.elems + [e], m.bindings)} else {}
  }

  /** The extensions by e under the first n options of a ranged element. */
  function OptGrow(a: TupArgs, t: Perm, e: Py, name: string, vals: seq<int>, n: nat): set<Perm>
    requires n <= |vals|
  {
    if n == 0 then {}
    else OptGrow(a, t, e, name, vals, n - 1) + Grow(a, t, e, MergeFixed(t.names, [Binding(Var(name), vals[n - 1])]))
  }

  /** The extensions of t by the i-th possible element. */
  function ExtOne(a: TupArgs, t: Perm, i: nat): set<Perm>
    requires Aligned(a) && i < |a.next.opts|
  {
    var e := a.next.opts[i];
    match a.next.names[i]
    case Fixed(bs) => Grow(a, t, e, MergeFixed(t.names, bs))
    case Ranged(name, vals) => OptGrow(a, t, e, name, vals, |vals|)
  }

  /** The extensions of t by the first n possible elements. */
  function ExtUpTo(a: TupArgs, t: Perm, n: nat): set<Perm>
    requires Aligned(a) && n <= |a.next.opts|
  {
    if n == 0 then {} else ExtUpTo(a, t, n - 1) + ExtOne(a, t, n - 1)
  }

  function ExtAll(a: TupArgs, t: Perm): set<Perm>
    requires Aligned(a)
  {
    ExtUpTo(a, t, |a.next.opts|)
  }

  /** The shorter permutations that reach the minimum length. */
  function Kept(a: TupArgs, shorter: set<Perm>): set<Perm> {
    set t | t in shorter && |t.elems| >= a.minLen
  }

  /** Every extension of every shorter permutation. */
  function GrowAll(a: TupArgs, shorter: set<Perm>): set<Perm>
    requires Aligned(a)
  {
    set t, p | t in shorter && p in ExtAll(a, t) :: p
  }

  /** The binding the filter reads: the first one named varname, else the last one. */
  function Claim(names: seq<Binding>, varname: Name): (b: Binding)
    requires names != []
    ensures b in names
  {
    if names[0].name == varname || |names| == 1 then names[0] else Claim(names[1..], varname)
  }

  function ClaimOf(a: TupArgs, p: Perm): Binding {
    if p.names == [] then Binding(Wild, 0) else Claim(p.names, a.varname)
  }

  /**
   * The length filter as its comment describes it: keep an unnamed claim,
   * a claim above the current bound, and otherwise a claim the length
   * satisfies (equal for a whole variable, at most the length for a start
   * role, at least the length for an end role).
   */
  predicate Keep(a: TupArgs, p: Perm, maxLen: int) {
    Admits(a.full, ClaimOf(a, p), |p.elems|, maxLen)
  }

  /** The filter's described rule for a claim b on a container of the given length. */
  predicate Admits(full: VarName, b: Binding, length: int, maxLen: int) {
    !Named(b.name) || b.val > maxLen
    || match full
      case NoVar => true
      case Whole(_) => b.val == length
      case Endpoint(role, _) => if role == StartRole then b.val <= length else b.val >= length
  }

  /** The permutations of length at most maxLen that _create_tup_perms_helper returns. */
  function TupHelper(a: TupArgs, maxLen: nat): set<Perm>
    requires Aligned(a)
  {
    var keys :=
      if maxLen == 0 then Base(a)
      else
        KeptAndGrown(a, TupHelper(a, maxLen - 1));
    Filtered(a, keys, maxLen)
  }

  /** The shorter permutations that reach the minimum, and all their extensions. */
  function KeptAndGrown(a: TupArgs, shorter: set<Perm>): set<Perm>
    requires Aligned(a)
  {
    Kept(a, shorter) + GrowAll(a, shorter)
  }

  /** The keys the described length filter keeps. */
  function Filtered(a: TupArgs, keys: set<Perm>, maxLen: int): set<Perm> {
    set p | p in keys && Keep(a, p, maxLen)
  }

  /** _create_tup_perms: the helper's permutations that reach the minimum length. */
  function TupPerms(a: TupArgs, maxLen: int): Result<set<Perm>>
    requires Aligned(a)
  {
    if maxLen < 0 then Failure("RuntimeError")
    else Success(set p | p in TupHelper(a, maxLen) && |p.elems| >= a.minLen)
  }

  // The length filter as written.

  /**
   * The filter's condition as the source writes it: besides the claims the
   * comment describes it keeps every claim of at least the actual length,
   * and it indexes the variable VAR_LOOKUP returned, which fails for None.
   */
  function KeepAsWritten(a: TupArgs, p: Perm, maxLen: int): Result<bool> {
    AdmitsAsWritten(a.full, ClaimOf(a, p), |p.elems|, maxLen)
  }

  function AdmitsAsWritten(full: VarName, b: Binding, length: int, maxLen: int): Result<bool> {
    if !Named(b.name) || b.val > maxLen then Success(true)
    else if full.Whole? && b.val == length then Success(true)
    else match full
      case NoVar => Failure("TypeError")
      case Whole(n) => if n == [] then Failure("IndexError") else Success(b.val >= length)
      case Endpoint(role, _) => Success((role == StartRole && b.val <= length) || b.val >= length)
  }

  function FilterAsWritten(a: TupArgs, keys: set<Perm>, maxLen: int): Result<set<Perm>> {
    if exists p :: p in keys && KeepAsWritten(a, p, maxLen).Failure? then
      Failure(if a.full.NoVar? then "TypeError" else "IndexError")
    else Success(set p | p in keys && KeepAsWritten(a, p, maxLen).value)
  }

  /** _create_tup_perms_helper as written. */
  function TupHelperAsWritten(a: TupArgs, maxLen: nat): Result<set<Perm>>
    requires Aligned(a)
  {
    if maxLen == 0 then FilterAsWritten(a, Base(a), 0)
    else match TupHelperAsWritten(a, maxLen - 1)
      case Failure(e) => Failure(e)
      case Success(shorter) => FilterAsWritten(a, Kept(a, shorter) + GrowAll(a, shorter), maxLen)
  }

  /**
   * With a whole variable n ranging over 0 and 1, the filter as written
   * keeps the empty container bound to n = 1 at the last level, whose
   * claimed length is not its length; the described filter drops it.
   */
  lemma FilterKeepsShortClaim(a: TupArgs, v: string)
    requires Aligned(a) && v != [] && a.varname == Var(v) && a.full == Whole(v)
    requires 1 in a.varrange && a.minLen <= 0
    ensures var p := Perm(a.kind, [], [Binding(Var(v), 1)]);
      TupHelperAsWritten(a, 1).Success? ==> p in TupHelperAsWritten(a, 1).value
    ensures Perm(a.kind, [], [Binding(Var(v), 1)]) !in TupHelper(a, 1)
  {
    var p := Perm(a.kind, [], [Binding(Var(v), 1)]);
    assert p in Base(a);
    assert KeepAsWritten(a, p, 0) == Success(true);
    if TupHelperAsWritten(a, 0).Success? {
      assert p in TupHelperAsWritten(a, 0).value;
      assert p in Kept(a, TupHelperAsWritten(a, 0).value);
      assert KeepAsWritten(a, p, 1) == Success(true);
    }
    assert !Keep(a, p, 1);
  }

  /** Filtering never fails when the container is not governed by a variable: its (None, 0) binding is read. */
  lemma FilterAsWrittenUngoverned(a: TupArgs, keys: set<Perm>, maxLen: int)
    requires a.varname == Wild
    requires forall p :: p in keys ==> Binding(Wild, 0) in p.names
    ensures FilterAsWritten(a, keys, maxLen).Success?
  {
    forall p | p in keys ensures KeepAsWritten(a, p, maxLen).Success? {
      ClaimFindsName(p.names, Wild, Binding(Wild, 0));
    }
  }

  /** The claim is a binding with the searched name when one exists. */
  lemma {:induction false} ClaimFindsName(names: seq<Binding>, varname: Name, b: Binding)
    requires b in names && b.name == varname
    ensures Claim(names, varname).name == varname
  {
    if names[0].name != varname && |names| > 1 {
      assert b in names[1..];
      ClaimFindsName(names[1..], varname, b);
    }
  }

  // What every permutation looks like.

  /** p extends t by one element that may follow t's elements. */
  predicate Extends(a: TupArgs, t: Perm, p: Perm) {
    p.kind == t.kind && |p.elems| == |t.elems| + 1 && p.elems[..|t.elems|] == t.elems
    && p.elems[|t.elems|] in a.next.opts && SortOK(a, t.elems, p.elems[|t.elems|])
  }

  lemma {:induction false} OptGrowExtends(a: TupArgs, t: Perm, i: nat, name: string, vals: seq<int>, n: nat)
    requires Aligned(a) && i < |a.next.opts| && n <= |vals|
    ensures forall p :: p in OptGrow(a, t, a.next.opts[i], name, vals, n) ==> Extends(a, t, p)
  {
    if n > 0 {
      OptGrowExtends(a, t, i, name, vals, n - 1);
    }
  }

  lemma {:induction false} ExtUpToExtends(a: TupArgs, t: Perm, n: nat)
    requires Aligned(a) && n <= |a.next.opts|
    ensures forall p :: p in ExtUpTo(a, t, n) ==> Extends(a, t, p)
  {
    if n > 0 {
      ExtUpToExtends(a, t, n - 1);
      var i := n - 1;
      match a.next.names[i]
      case Fixed(bs) =>
      case Ranged(name, vals) => OptGrowExtends(a, t, i, name, vals, |vals|);
    }
  }

  /** The properties every permutation keeps. */
  predicate Shaped(a: TupArgs, p: Perm, maxLen: nat) {
    p.kind == a.kind && |p.elems| <= maxLen
    && (forall k :: 0 <= k < |p.elems| ==> p.elems[k] in a.next.opts)
    && (Sorted in a.keywords ==> NonDecreasing(p.elems))
    && (a.kind == "set" && Sorted !in a.keywords ==> Increasing(p.elems))
  }

  lemma ExtendsShaped(a: TupArgs, t: Perm, p: Perm, maxLen: nat)
    requires maxLen > 0 && Shaped(a, t, maxLen - 1) && Extends(a, t, p)
    ensures Shaped(a, p, maxLen)
  {
    var n := |t.elems|;
    assert p.elems == t.elems + [p.elems[n]];
    if Sorted in a.keywords && n > 0 {
      assert LessEq(t.elems[n - 1], p.elems[n]);
    }
  }

  /**
   * Every permutation has the container's type, at most maxLen elements,
   * all drawn from the element's possible values, non-decreasing when
   * "sorted" is asked for and strictly increasing for a set (hence without
   * repeats).
   */
  lemma {:induction false} HelperShaped(a: TupArgs, maxLen: nat)
    requires Aligned(a)
    ensures forall p :: p in TupHelper(a, maxLen) ==> Shaped(a, p, maxLen)
  {
    if maxLen > 0 {
      HelperShaped(a, maxLen - 1);
      var shorter := TupHelper(a, maxLen - 1);
      forall p | p in GrowAll(a, shorter) ensures Shaped(a, p, maxLen) {
        GrowAllShaped(a, shorter, p, maxLen);
      }
    }
  }

  lemma GrowAllShaped(a: TupArgs, shorter: set<Perm>, p: Perm, maxLen: nat)
    requires Aligned(a) && maxLen > 0 && p in GrowAll(a, shorter)
    requires forall t :: t in shorter ==> Shaped(a, t, maxLen - 1)
    ensures Shaped(a, p, maxLen)
  {
    var t :| t in shorter && p in ExtAll(a, t);
    ExtUpToExtends(a, t, |a.next.opts|);
    ExtendsShaped(a, t, p, maxLen);
  }

  /** A set permutation has no repeated element. */
  lemma SetPermDistinct(a: TupArgs, maxLen: nat, p: Perm)
    requires Aligned(a) && a.kind == "set" && Sorted !in a.keywords && p in TupHelper(a, maxLen)
    ensures Distinct(p.elems)
  {
    HelperShaped(a, maxLen);
    IncreasingDistinct(p.elems);
  }

  /** _create_tup_perms returns only containers of length between the minimum and the bound. */
  lemma TupPermsLengths(a: TupArgs, maxLen: int)
    requires Aligned(a) && maxLen >= 0
    ensures forall p :: p in TupPerms(a, maxLen).value ==> a.minLen <= |p.elems| <= maxLen && Shaped(a, p, maxLen)
  {
    HelperShaped(a, maxLen);
  }

  // Without variables and ordering rules the permutations are every sequence of elements.

  /** No variable governs the container or its elements, and no ordering rule applies. */
  predicate Unconstrained(a: TupArgs) {
    Aligned(a) && a.varrange == [] && a.full == NoVar && a.kind != "set" && Sorted !in a.keywords
    && forall i :: 0 <= i < |a.next.names| ==> OnlyWild(a.next.names[i])
  }

  predicate OnlyWild(v: VarNames) {
    v.Fixed? && forall k :: 0 <= k < |v.bindings| ==> v.bindings[k].name == Wild
  }

  lemma {:induction false} LeftoverCovered(existing: seq<Binding>, mine: seq<Binding>)
    requires forall k :: 0 <= k < |existing| ==> HasName(mine, existing[k].name)
    ensures Leftover(existing, mine) == []
  {
    if existing != [] {
      LeftoverCovered(existing[..|existing| - 1], mine);
    }
  }

  /** Merging only unnamed bindings into the (None, 0) binding leaves it alone. */
  lemma WildMerge(bs: seq<Binding>)
    requires forall k :: 0 <= k < |bs| ==> bs[k].name == Wild
    ensures MergeFixed([Binding(Wild, 0)], bs) == Merged([Binding(Wild, 0)])
  {
    var w := [Binding(Wild, 0)];
    assert Matched(w, bs) == Matched([], bs) + [] by { assert w[..0] == []; }
    assert Unmatched(w, bs) == Unmatched([], bs) + w by { assert w[..0] == []; }
    forall k | 0 <= k < |bs| ensures HasName(w, bs[k].name) {
      assert w[0].name == bs[k].name;
    }
    LeftoverCovered(bs, w);
  }

  /** The unnamed extensions of t by the first n elements: t followed by each of them. */
  lemma {:induction false} UnconstrainedExtUpTo(a: TupArgs, t: Perm, n: nat)
    requires Unconstrained(a) && n <= |a.next.opts| && t.names == [Binding(Wild, 0)]
    ensures forall p :: p in ExtUpTo(a, t, n) <==>
      exists i :: 0 <= i < n && p == Perm(t.kind, t.elems + [a.next.opts[i]], t.names)
  {
    if n > 0 {
      UnconstrainedExtUpTo(a, t, n - 1);
      assert OnlyWild(a.next.names[n - 1]);
      WildMerge(a.next.names[n - 1].bindings);
    }
  }

  /** An unconstrained permutation at bound maxLen: maxLen long, or between the minimum and maxLen. */
  predicate FreePerm(a: TupArgs, p: Perm, maxLen: nat) {
    p.kind == a.kind && p.names == [Binding(Wild, 0)]
    && (forall k :: 0 <= k < |p.elems| ==> p.elems[k] in a.next.opts)
    && |p.elems| <= maxLen && (|p.elems| == maxLen || |p.elems| >= a.minLen)
  }

  /**
   * Without variables and ordering rules the helper gives every sequence of
   * possible elements of length maxLen, and every shorter one that reaches
   * the minimum length.
   */
  lemma {:induction false} HelperUnconstrained(a: TupArgs, maxLen: nat)
    requires Unconstrained(a)
    ensures forall p :: p in TupHelper(a, maxLen) <==> FreePerm(a, p, maxLen)
  {
    if maxLen == 0 {
      forall p ensures p in TupHelper(a, 0) <==> FreePerm(a, p, 0) {
        HelperUnconstrainedBase(a, p);
      }
    } else {
      HelperUnconstrained(a, maxLen - 1);
      var shorter := TupHelper(a, maxLen - 1);
      forall p ensures p in TupHelper(a, maxLen) <==> FreePerm(a, p, maxLen) {
        HelperUnconstrainedStep(a, maxLen, shorter, p);
      }
    }
  }

  lemma HelperUnconstrainedBase(a: TupArgs, p: Perm)
    requires Unconstrained(a)
    ensures p in TupHelper(a, 0) <==> FreePerm(a, p, 0)
  {
    assert TupHelper(a, 0) == Filtered(a, Base(a), 0);
    assert Base(a) == {Perm(a.kind, [], [Binding(Wild, 0)])};
  }

  lemma HelperUnconstrainedStep(a: TupArgs, maxLen: nat, shorter: set<Perm>, p: Perm)
    requires Unconstrained(a) && maxLen > 0 && shorter == TupHelper(a, maxLen - 1)
    requires forall q :: q in shorter <==> FreePerm(a, q, maxLen - 1)
    ensures p in TupHelper(a, maxLen) <==> FreePerm(a, p, maxLen)
  {
    assert TupHelper(a, maxLen) == Filtered(a, KeptAndGrown(a, shorter), maxLen);
    assert Keep(a, p, maxLen);
    assert p in Kept(a, shorter) <==> FreePerm(a, p, maxLen - 1) && |p.elems| >= a.minLen;
    if p in GrowAll(a, shorter) {
      GrownFree(a, maxLen, shorter, p);
    }
    if FreePerm(a, p, maxLen) && |p.elems| == maxLen {
      FreeGrown(a, maxLen, shorter, p);
    }
  }

  lemma GrownFree(a: TupArgs, maxLen: nat, shorter: set<Perm>, p: Perm)
    requires Unconstrained(a) && maxLen > 0
    requires forall q :: q in shorter ==> FreePerm(a, q, maxLen - 1)
    requires p in GrowAll(a, shorter)
    ensures FreePerm(a, p, maxLen)
  {
    var t :| t in shorter && p in ExtAll(a, t);
    UnconstrainedExtUpTo(a, t, |a.next.opts|);
    var i :| 0 <= i < |a.next.opts| && p == Perm(t.kind, t.elems + [a.next.opts[i]], t.names);
    assert FreePerm(a, t, maxLen - 1);
  }

  lemma FreeGrown(a: TupArgs, maxLen: nat, shorter: set<Perm>, p: Perm)
    requires Unconstrained(a) && maxLen > 0
    requires forall q :: FreePerm(a, q, maxLen - 1) ==> q in shorter
    requires FreePerm(a, p, maxLen) && |p.elems| == maxLen
    ensures p in GrowAll(a, shorter)
  {
    var n := |p.elems|;
    var t := Perm(p.kind, p.elems[..n - 1], p.names);
    assert FreePerm(a, t, maxLen - 1);
    UnconstrainedExtUpTo(a, t, |a.next.opts|);
    var i :| 0 <= i < |a.next.opts| && a.next.opts[i] == p.elems[n - 1];
    assert p == Perm(t.kind, t.elems + [a.next.opts[i]], t.names);
    assert t in shorter && p in ExtAll(a, t);
  }

  /**
   * _create_tup_perms without variables and ordering rules: exactly the
   * sequences of possible elements whose length lies between the minimum
   * and the bound, each tagged (None, 0).
   */
  lemma TupPermsUnconstrained(a: TupArgs, maxLen: nat, p: Perm)
    requires Unconstrained(a)
    ensures p in TupPerms(a, maxLen).value <==>
      p.kind == a.kind && p.names == [Binding(Wild, 0)]
      && (forall k :: 0 <= k < |p.elems| ==> p.elems[k] in a.next.opts)
      && a.minLen <= |p.elems| <= maxLen
  {
    HelperUnconstrained(a, maxLen);
  }

  // With a whole-domain length variable every kept container claims its own length.

  /** The container's claim is its unique binding of the length variable, with a value from the range. */
  predicate ClaimInv(a: TupArgs, p: Perm) {
    p.names != [] && NoDupNames(p.names)
    && Claim(p.names, a.varname).name == a.varname && Claim(p.names, a.varname).val in a.varrange
  }

  lemma {:induction false} ClaimUnique(names: seq<Binding>, varname: Name, b: Binding)
    requires NoDupNames(names) && Named(varname) && b in names && b.name == varname
    ensures Claim(names, varname) == b
  {
    if names[0].name != varname && |names| > 1 {
      assert b in names[1..];
      assert NoDupNames(names[1..]) by {
        forall i, j | 0 <= i < j < |names[1..]| && Named(names[1..][i].name) ensures names[1..][i].name != names[1..][j].name {
          assert names[1..][i] == names[i + 1] && names[1..][j] == names[j + 1];
        }
      }
      ClaimUnique(names[1..], varname, b);
    }
  }

  lemma GrowClaim(a: TupArgs, t: Perm, e: Py, bs: seq<Binding>, p: Perm)
    requires Named(a.varname) && ClaimInv(a, t) && NoDupNames(bs)
    requires p in Grow(a, t, e, MergeFixed(t.names, bs))
    ensures ClaimInv(a, p)
  {
    var m := MergeFixed(t.names, bs);
    MergeFixedContents(t.names, bs);
    MergeFixedNoDup(t.names, bs);
    var c := Claim(t.names, a.varname);
    ClaimUnique(m.bindings, a.varname, c);
  }

  /** A permutation among the extensions under the first n options comes from one of them. */
  lemma {:induction false} OptGrowSome(a: TupArgs, t: Perm, e: Py, name: string, vals: seq<int>, n: nat, p: Perm)
    requires n <= |vals| && p in OptGrow(a, t, e, name, vals, n)
    ensures exists k :: 0 <= k < n && p in Grow(a, t, e, MergeFixed(t.names, [Binding(Var(name), vals[k])]))
  {
    if p in OptGrow(a, t, e, name, vals, n - 1) {
      OptGrowSome(a, t, e, name, vals, n - 1, p);
    }
  }

  /** A permutation among the extensions by the first n elements comes from one of them. */
  lemma {:induction false} ExtUpToSome(a: TupArgs, t: Perm, n: nat, p: Perm)
    requires Aligned(a) && n <= |a.next.opts| && p in ExtUpTo(a, t, n)
    ensures exists i :: 0 <= i < n && p in ExtOne(a, t, i)
  {
    if p in ExtUpTo(a, t, n - 1) {
      ExtUpToSome(a, t, n - 1, p);
    }
  }

  lemma ExtOneClaim(a: TupArgs, t: Perm, i: nat, p: Perm)
    requires Aligned(a) && i < |a.next.opts| && ParamNoDup(a.next) && Named(a.varname) && ClaimInv(a, t)
    requires p in ExtOne(a, t, i)
    ensures ClaimInv(a, p)
  {
    match a.next.names[i]
    case Fixed(bs) => GrowClaim(a, t, a.next.opts[i], bs, p);
    case Ranged(name, vals) =>
      var e := a.next.opts[i];
      OptGrowSome(a, t, e, name, vals, |vals|, p);
      var k :| 0 <= k < |vals| && p in Grow(a, t, e, MergeFixed(t.names, [Binding(Var(name), vals[k])]));
      GrowClaim(a, t, e, [Binding(Var(name), vals[k])], p);
  }

  lemma HelperClaims(a: TupArgs, maxLen: nat)
    requires Aligned(a) && ParamNoDup(a.next) && Named(a.varname) && a.varrange != []
    ensures forall p :: p in TupHelper(a, maxLen) ==> ClaimInv(a, p)
  {
    BaseClaims(a);
    var m := 0;
    while m < maxLen
      invariant m <= maxLen && forall p :: p in TupHelper(a, m) ==> ClaimInv(a, p)
    {
      LevelClaims(a, m + 1);
      m := m + 1;
    }
  }

  lemma LevelClaims(a: TupArgs, maxLen: nat)
    requires Aligned(a) && ParamNoDup(a.next) && Named(a.varname) && maxLen > 0
    requires forall p :: p in TupHelper(a, maxLen - 1) ==> ClaimInv(a, p)
    ensures forall p :: p in TupHelper(a, maxLen) ==> ClaimInv(a, p)
  {
    forall p | p in TupHelper(a, maxLen) ensures ClaimInv(a, p) {
      HelperClaimsStep(a, TupHelper(a, maxLen - 1), maxLen, p);
    }
  }

  lemma HelperClaimsStep(a: TupArgs, shorter: set<Perm>, maxLen: nat, p: Perm)
    requires Aligned(a) && ParamNoDup(a.next) && Named(a.varname)
    requires forall t :: t in shorter ==> ClaimInv(a, t)
    requires p in Filtered(a, KeptAndGrown(a, shorter), maxLen)
    ensures ClaimInv(a, p)
  {
    if p !in shorter {
      GrowAllClaim(a, shorter, p);
    }
  }

  lemma BaseClaims(a: TupArgs)
    requires Named(a.varname) && a.varrange != []
    ensures forall p :: p in Base(a) ==> ClaimInv(a, p)
  {
    forall p | p in Base(a) ensures ClaimInv(a, p) {
      var l :| l in a.varrange && p == Perm(a.kind, [], [Binding(a.varname, l)]);
    }
  }

  lemma GrowAllClaim(a: TupArgs, shorter: set<Perm>, p: Perm)
    requires Aligned(a) && ParamNoDup(a.next) && Named(a.varname)
    requires forall t :: t in shorter ==> ClaimInv(a, t)
    requires p in GrowAll(a, shorter)
    ensures ClaimInv(a, p)
  {
    var t :| t in shorter && p in ExtAll(a, t);
    ExtUpToSome(a, t, |a.next.opts|, p);
    var i :| 0 <= i < |a.next.opts| && p in ExtOne(a, t, i);
    ExtOneClaim(a, t, i, p);
  }

  /**
   * When the bound is the largest value of the length variable (the top
   * level), every container the helper keeps claims exactly its own length.
   */
  lemma TopLevelClaims(a: TupArgs, v: string, maxLen: nat)
    requires Aligned(a) && ParamNoDup(a.next) && v != [] && a.varname == Var(v) && a.full == Whole(v) && a.varrange != []
    requires forall l :: l in a.varrange ==> l <= maxLen
    ensures forall p :: p in TupHelper(a, maxLen) ==> p.names != [] && Claim(p.names, Var(v)).val == |p.elems|
  {
    HelperClaims(a, maxLen);
    forall p | p in TupHelper(a, maxLen) ensures p.names != [] && Claim(p.names, Var(v)).val == |p.elems| {
      assert ClaimInv(a, p) && Keep(a, p, maxLen);
    }
  }

  // No container binds a name twice, so it can serve as the element of another.

  lemma ExtOneNoDup(a: TupArgs, t: Perm, i: nat, p: Perm)
    requires Aligned(a) && i < |a.next.opts| && ParamNoDup(a.next) && NoDupNames(t.names)
    requires p in ExtOne(a, t, i)
    ensures NoDupNames(p.names)
  {
    match a.next.names[i]
    case Fixed(bs) => MergeFixedNoDup(t.names, bs);
    case Ranged(name, vals) =>
      OptGrowSome(a, t, a.next.opts[i], name, vals, |vals|, p);
      var k :| 0 <= k < |vals| && p in Grow(a, t, a.next.opts[i], MergeFixed(t.names, [Binding(Var(name), vals[k])]));
      MergeFixedNoDup(t.names, [Binding(Var(name), vals[k])]);
  }

  /** No container of ps binds a name twice. */
  predicate PermsNoDup(ps: set<Perm>) {
    forall p :: p in ps ==> NoDupNames(p.names)
  }

  lemma HelperNoDup(a: TupArgs, maxLen: nat)
    requires Aligned(a) && ParamNoDup(a.next)
    ensures PermsNoDup(TupHelper(a, maxLen))
  {
    BaseNoDup(a);
    var m := 0;
    while m < maxLen
      invariant m <= maxLen && PermsNoDup(TupHelper(a, m))
    {
      LevelNoDup(a, m + 1);
      m := m + 1;
    }
  }

  lemma BaseNoDup(a: TupArgs)
    requires Aligned(a)
    ensures PermsNoDup(TupHelper(a, 0))
  {
    forall p | p in TupHelper(a, 0) ensures NoDupNames(p.names) {
      assert p in Base(a);
      assert |p.names| == 1;
    }
  }

  lemma LevelNoDup(a: TupArgs, maxLen: nat)
    requires Aligned(a) && ParamNoDup(a.next) && maxLen > 0
    requires PermsNoDup(TupHelper(a, maxLen - 1))
    ensures PermsNoDup(TupHelper(a, maxLen))
  {
    forall p | p in TupHelper(a, maxLen) ensures NoDupNames(p.names) {
      HelperNoDupStep(a, TupHelper(a, maxLen - 1), maxLen, p);
    }
  }

  lemma HelperNoDupStep(a: TupArgs, shorter: set<Perm>, maxLen: nat, p: Perm)
    requires Aligned(a) && ParamNoDup(a.next)
    requires PermsNoDup(shorter)
    requires p in Filtered(a, KeptAndGrown(a, shorter), maxLen)
    ensures NoDupNames(p.names)
  {
    if p !in shorter {
      var t :| t in shorter && p in ExtAll(a, t);
      ExtUpToSome(a, t, |a.next.opts|, p);
      var i :| 0 <= i < |a.next.opts| && p in ExtOne(a, t, i);
      ExtOneNoDup(a, t, i, p);
    }
  }

  /** When no element binds a name twice, no container _create_tup_perms returns does. */
  lemma TupPermsNoDup(a: TupArgs, maxLen: int, p: Perm)
    requires Aligned(a) && ParamNoDup(a.next) && maxLen >= 0 && p in TupPerms(a, maxLen).value
    ensures NoDupNames(p.names)
  {
    HelperNoDup(a, maxLen);
  }

  // The helper's loops, over the all_tups dictionary as a set.

  /** _create_tup_perms: the helper's result without the containers shorter than the minimum. */
  method CreateTupPerms(a: TupArgs, maxLen: int) returns (r: Result<set<Perm>>)
    requires Aligned(a)
    ensures maxLen < 0 ==> r == Failure("RuntimeError")
    ensures ParamNoDup(a.next) ==> r == TupPerms(a, maxLen)
  {
    var perms := CreateTupPermsHelper(a, maxLen);
    if perms.Failure? {
      return perms;
    }
    var finalPerms := KeepMinimum(perms.value, a.minLen);
    r := Success(finalPerms);
  }

  /** The filter loop of _create_tup_perms. */
  method KeepMinimum(perms: set<Perm>, minLen: int) returns (finalPerms: set<Perm>)
    ensures finalPerms == set p | p in perms && |p.elems| >= minLen
  {
    finalPerms := {};
    var rest := perms;
    while rest != {}
      invariant rest <= perms
      invariant finalPerms == set p | p in perms - rest && |p.elems| >= minLen
      decreases |rest|
    {
      var p :| p in rest;
      if |p.elems| >= minLen {
        finalPerms := finalPerms + {p};
      }
      rest := rest - {p};
    }
    assert perms - rest == perms;
  }

  /** _create_tup_perms_helper. A negative bound never reaches the base case. */
  method CreateTupPermsHelper(a: TupArgs, maxLen: int) returns (r: Result<set<Perm>>)
    requires Aligned(a)
    ensures maxLen < 0 ==> r == Failure("RuntimeError")
    ensures maxLen >= 0 && ParamNoDup(a.next) ==> r == Success(TupHelper(a, maxLen))
    decreases if maxLen < 0 then 0 else maxLen, 1
  {
    if maxLen < 0 {
      return Failure("RuntimeError");
    }
    var keys := HelperKeys(a, maxLen);
    if keys.Failure? {
      return keys;
    }
    var filtered := FilterKeys(a, keys.value, maxLen);
    r := Success(filtered);
  }

  /** The keys before the filter: the base case, or the shorter permutations kept and extended. */
  method HelperKeys(a: TupArgs, maxLen: nat) returns (r: Result<set<Perm>>)
    requires Aligned(a)
    ensures maxLen == 0 ==> r == Success(Base(a))
    ensures maxLen > 0 && ParamNoDup(a.next) ==>
      r == Success(KeptAndGrown(a, TupHelper(a, maxLen - 1)))
    decreases maxLen, 0
  {
    if maxLen == 0 {
      var base := BaseKeys(a);
      return Success(base);
    }
    var shorter := CreateTupPermsHelper(a, maxLen - 1);
    if shorter.Failure? {
      return shorter;
    }
    r := KeepAndGrow(a, shorter.value);
  }

  /** The base case: one empty container per value of the range, or one tagged (None, 0). */
  method BaseKeys(a: TupArgs) returns (keys: set<Perm>)
    ensures keys == Base(a)
  {
    if a.varrange == [] {
      return {Perm(a.kind, [], [Binding(Wild, 0)])};
    }
    keys := {};
    for k := 0 to |a.varrange|
      invariant keys == set l | l in a.varrange[..k] :: Perm(a.kind, [], [Binding(a.varname, l)])
    {
      keys := keys + {Perm(a.kind, [], [Binding(a.varname, a.varrange[k])])};
      assert a.varrange[..k + 1] == a.varrange[..k] + [a.varrange[k]];
    }
    assert a.varrange[..|a.varrange|] == a.varrange;
  }

  /** The loop over shorter_tups: keep each long enough permutation and add all its extensions. */
  method KeepAndGrow(a: TupArgs, shorter: set<Perm>) returns (r: Result<set<Perm>>)
    requires Aligned(a)
    ensures ParamNoDup(a.next) ==> r == Success(KeptAndGrown(a, shorter))
  {
    var allTups: set<Perm> := {};
    var rest := shorter;
    ghost var done: set<Perm> := {};
    while rest != {}
      invariant done + rest == shorter
      invariant ParamNoDup(a.next) ==> allTups == KeptAndGrown(a, done)
      decreases |rest|
    {
      var t :| t in rest;
      var grown := KeepAndGrowOne(a, t, allTups);
      if grown.Failure? {
        return grown;
      }
      allTups := grown.value;
      KeepGrowStep(a, done, t);
      done := done + {t};
      rest := rest - {t};
    }
    r := Success(allTups);
  }

  /** One pass of that loop: t itself if it reaches the minimum, then its extensions. */
  method KeepAndGrowOne(a: TupArgs, t: Perm, init: set<Perm>) returns (r: Result<set<Perm>>)
    requires Aligned(a)
    ensures ParamNoDup(a.next) ==> r == Success(init + (if |t.elems| >= a.minLen then {t} else {}) + ExtAll(a, t))
  {
    var allTups := init;
    if t !in allTups && |t.elems| >= a.minLen {
      allTups := allTups + {t};
    }
    assert allTups == init + (if |t.elems| >= a.minLen then {t} else {});
    r := GrowTup(a, t, allTups);
  }

  lemma KeepGrowStep(a: TupArgs, ps: set<Perm>, t: Perm)
    requires Aligned(a)
    ensures KeptAndGrown(a, ps + {t}) == KeptAndGrown(a, ps) + (if |t.elems| >= a.minLen then {t} else {}) + ExtAll(a, t)
  {
    KeptAdd(a, ps, t);
    GrowAllAdd(a, ps, t);
  }

  lemma KeptAdd(a: TupArgs, ps: set<Perm>, t: Perm)
    ensures Kept(a, ps + {t}) == Kept(a, ps) + (if |t.elems| >= a.minLen then {t} else {})
  {
  }

  lemma GrowAllAdd(a: TupArgs, ps: set<Perm>, t: Perm)
    requires Aligned(a)
    ensures GrowAll(a, ps + {t}) == GrowAll(a, ps) + ExtAll(a, t)
  {
    forall p | p in ExtAll(a, t) ensures p in GrowAll(a, ps + {t}) {
      assert t in ps + {t} && p in ExtAll(a, t);
    }
  }

  /** The loop over next_vals: every extension of t by one possible element. */
  method GrowTup(a: TupArgs, t: Perm, init: set<Perm>) returns (r: Result<set<Perm>>)
    requires Aligned(a)
    ensures ParamNoDup(a.next) ==> r == Success(init + ExtAll(a, t))
  {
    var allTups := init;
    for i := 0 to |a.next.opts|
      invariant ParamNoDup(a.next) ==> allTups == init + ExtUpTo(a, t, i)
    {
      var grown := GrowElem(a, t, i, allTups);
      if grown.Failure? {
        return grown;
      }
      allTups := grown.value;
    }
    r := Success(allTups);
  }

  /** One pass of that loop: the extensions of t by the i-th element, if its bindings agree. */
  method GrowElem(a: TupArgs, t: Perm, i: nat, init: set<Perm>) returns (r: Result<set<Perm>>)
    requires Aligned(a) && i < |a.next.opts|
    ensures ParamNoDup(a.next) ==> r == Success(init + ExtOne(a, t, i))
  {
    var elem := a.next.opts[i];
    match a.next.names[i]
    case Fixed(bs) =>
      var m := CheckFixed(t.names, bs);
      if m.Raises? {
        return Failure(m.error);
      }
      var grown := AddGrown(a, t, elem, m, init);
      r := Success(grown);
    case Ranged(name, vals) =>
      var grown := GrowRanged(a, t, elem, name, vals, init);
      r := Success(grown);
  }

  /** The loop over a ranged element's options: at most one of them merges. */
  method GrowRanged(a: TupArgs, t: Perm, elem: Py, name: string, vals: seq<int>, init: set<Perm>)
    returns (allTups: set<Perm>)
    ensures allTups == init + OptGrow(a, t, elem, name, vals, |vals|)
  {
    allTups := init;
    for k := 0 to |vals|
      invariant allTups == init + OptGrow(a, t, elem, name, vals, k)
    {
      var m := CheckFixed(t.names, [Binding(Var(name), vals[k])]);
      allTups := AddGrown(a, t, elem, m, allTups);
    }
  }

  /** Add t extended by elem under a successful merge, when it is new and in order. */
  method AddGrown(a: TupArgs, t: Perm, elem: Py, m: Merge, init: set<Perm>) returns (allTups: set<Perm>)
    ensures allTups == init + Grow(a, t, elem, m)
  {
    allTups := init;
    if m.Merged? {
      var potentialKey := Perm(t.kind, t.elems + [elem], m.bindings);
      if potentialKey !in allTups && SortOK(a, t.elems, elem) {
        allTups := allTups + {potentialKey};
      }
    }
  }

  /** The loop over a container's bindings: the first named varname, else the last one read. */
  method FindClaim(names: seq<Binding>, varname: Name) returns (b: Binding)
    requires names != []
    ensures b == Claim(names, varname)
  {
    var i := 0;
    while true
      invariant 0 <= i < |names|
      invariant Claim(names, varname) == Claim(names[i..], varname)
      decreases |names| - i
    {
      b := names[i];
      if b.name == varname || i == |names| - 1 {
        return;
      }
      assert names[i..][1..] == names[i + 1..];
      i := i + 1;
    }
  }

  /** The filter loop: the keys whose claim the described rule admits. */
  method FilterKeys(a: TupArgs, keys: set<Perm>, maxLen: int) returns (filtered: set<Perm>)
    ensures filtered == Filtered(a, keys, maxLen)
  {
    filtered := {};
    var rest := keys;
    while rest != {}
      invariant rest <= keys
      invariant filtered == set p | p in keys - rest && Keep(a, p, maxLen)
      decreases |rest|
    {
      var p :| p in rest;
      var b := Binding(Wild, 0);
      if p.names != [] {
        b := FindClaim(p.names, a.varname);
      }
      if Admits(a.full, b, |p.elems|, maxLen) {
        filtered := filtered + {p};
      }
      rest := rest - {p};
    }
  }
}
