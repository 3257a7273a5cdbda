// Exhaustive dictionary generation (_create_dict_perms, its helper and
// add_to_dict): every dictionary up to a length bound built from the
// possible keys and values, keys kept in increasing order, with the
// variable bindings each dictionary collects and the length filters.
module ExhaustiveDict {
  import opened Wrappers
  import opened PyValues
  import opened Bindings
  import opened ArgLists
  import opened VarLookup
  import ExhaustiveTup

  /** One permutation ("dict", (keys, vals), bindings), the hashable key of all_dicts. */
  datatype DictPerm = DictPerm(keys: seq<Py>, vals: seq<Py>, names: seq<Binding>)

  /**
   * The arguments that stay fixed through the recursion: the minimum
   * length, the base variable name and its range, the possible keys and
   * values with their bindings, and the variable as VAR_LOOKUP returned it.
   */
  datatype DictArgs = DictArgs(
    minLen: int, varname: Name, varrange: seq<int>,
    keyParam: Param<Py>, valParam: Param<Py>, full: VarName)

  predicate DictAligned(a: DictArgs) {
    |a.keyParam.names| == |a.keyParam.opts| && |a.valParam.names| == |a.valParam.opts|
  }

  /** No fixed key or value binds a constraining name twice. */
  predicate DictNoDup(a: DictArgs) {
    ParamNoDup(a.keyParam) && ParamNoDup(a.valParam)
  }

  /** The empty dictionaries: one per value of the variable's range, or one tagged (None, 0). */
  function DictBase(a: DictArgs): set<DictPerm> {
    if a.varrange != [] then set l | l in a.varrange :: DictPerm([], [], [Binding(a.varname, l)])
    else {DictPerm([], [], [Binding(Wild, 0)])}
  }

  /** add_to_dict as a set: d extended by (key, val) when key is above the last key. */
  function AddOne(d: DictPerm, key: Py, val: Py, names: seq<Binding>): set<DictPerm> {
    if |d.keys| == 0 || Less(d.keys[|d.keys| - 1], key) then {DictPerm(d.keys + [key], d.vals + [val], names)}
    else {}
  }

  function Added(d: DictPerm, key: Py, val: Py, m: Merge): set<DictPerm> {
    if m.Merged? then AddOne(d, key, val, m.bindings) else {}
  }

  /** The extensions by (key, val) under the first n options of a ranged value, each checked against combined. */
  function ValOpts(d: DictPerm, key: Py, val: Py, combined: seq<Binding>, name: string, vals: seq<int>, n: nat): set<DictPerm>
    requires n <= |vals|
  {
    if n == 0 then {}
    else ValOpts(d, key, val, combined, name, vals, n - 1) + Added(d, key, val, MergeFixed(combined, [Binding(Var(name), vals[n - 1])]))
  }

  /** The extensions by key and the j-th possible value, whose bindings must agree with combined. */
  function ValExt(a: DictArgs, d: DictPerm, key: Py, combined: seq<Binding>, j: nat): set<DictPerm>
    requires DictAligned(a) && j < |a.valParam.opts|
  {
    var val := a.valParam.opts[j];
    match a.valParam.names[j]
    case Fixed(bs) => Added(d, key, val, MergeFixed(combined, bs))
    case Ranged(name, vals) => ValOpts(d, key, val, combined, name, vals, |vals|)
  }

  function ValsUpTo(a: DictArgs, d: DictPerm, key: Py, combined: seq<Binding>, n: nat): set<DictPerm>
    requires DictAligned(a) && n <= |a.valParam.opts|
  {
    if n == 0 then {} else ValsUpTo(a, d, key, combined, n - 1) + ValExt(a, d, key, combined, n - 1)
  }

  /** A key whose bindings merged: every possible value goes with it. */
  function WithKey(a: DictArgs, d: DictPerm, key: Py, m: Merge): set<DictPerm>
    requires DictAligned(a)
  {
    if m.Merged? then ValsUpTo(a, d, key, m.bindings, |a.valParam.opts|) else {}
  }

  function KeyOpts(a: DictArgs, d: DictPerm, key: Py, name: string, vals: seq<int>, n: nat): set<DictPerm>
    requires DictAligned(a) && n <= |vals|
  {
    if n == 0 then {}
    else KeyOpts(a, d, key, name, vals, n - 1) + WithKey(a, d, key, MergeFixed(d.names, [Binding(Var(name), vals[n - 1])]))
  }

  /** The extensions of d by the i-th possible key. */
  function KeyExt(a: DictArgs, d: DictPerm, i: nat): set<DictPerm>
    requires DictAligned(a) && i < |a.keyParam.opts|
  {
    var key := a.keyParam.opts[i];
    match a.keyParam.names[i]
    case Fixed(bs) => WithKey(a, d, key, MergeFixed(d.names, bs))
    case Ranged(name, vals) => KeyOpts(a, d, key, name, vals, |vals|)
  }

  function KeysUpTo(a: DictArgs, d: DictPerm, n: nat): set<DictPerm>
    requires DictAligned(a) && n <= |a.keyParam.opts|
  {
    if n == 0 then {} else KeysUpTo(a, d, n - 1) + KeyExt(a, d, n - 1)
  }

  function DictExtAll(a: DictArgs, d: DictPerm): set<DictPerm>
    requires DictAligned(a)
  {
    KeysUpTo(a, d, |a.keyParam.opts|)
  }

  function DictGrowAll(a: DictArgs, shorter: set<DictPerm>): set<DictPerm>
    requires DictAligned(a)
  {
    set d, p | d in shorter && p in DictExtAll(a, d) :: p
  }

  /** Every shorter dictionary (kept whatever its length) and all its extensions. */
  function KeptAndGrown(a: DictArgs, shorter: set<DictPerm>): set<DictPerm>
    requires DictAligned(a)
  {
    shorter + DictGrowAll(a, shorter)
  }

  /** The binding the filter reads. */
  function DictClaim(a: DictArgs, d: DictPerm): Binding {
    if d.names == [] then Binding(Wild, 0) else ExhaustiveTup.Claim(d.names, a.varname)
  }

  /** The length filter as its comment describes it, on the number of keys. */
  predicate DictKeep(a: DictArgs, d: DictPerm, maxLen: int) {
    ExhaustiveTup.Admits(a.full, DictClaim(a, d), |d.keys|, maxLen)
  }

  function DictFiltered(a: DictArgs, keys: set<DictPerm>, maxLen: int): set<DictPerm> {
    set d | d in keys && DictKeep(a, d, maxLen)
  }

  /** The dictionaries of at most maxLen keys that _create_dict_perms_helper returns. */
  function DictHelper(a: DictArgs, maxLen: nat): set<DictPerm>
    requires DictAligned(a)
  {
    var keys := if maxLen == 0 then DictBase(a) else KeptAndGrown(a, DictHelper(a, maxLen - 1));
    DictFiltered(a, keys, maxLen)
  }

  /** _create_dict_perms: the helper's dictionaries that reach the minimum length. */
  function DictPerms(a: DictArgs, maxLen: int): Result<set<DictPerm>>
    requires DictAligned(a)
  {
    if maxLen < 0 then Failure("RuntimeError")
    else Success(set d | d in DictHelper(a, maxLen) && |d.keys| >= a.minLen)
  }

  // Shape of the dictionaries.

  /** p is d extended by (key, val), with key above d's last key. */
  predicate ExtendsBy(d: DictPerm, key: Py, val: Py, p: DictPerm) {
    p.keys == d.keys + [key] && p.vals == d.vals + [val]
    && (|d.keys| == 0 || Less(d.keys[|d.keys| - 1], key))
  }

  lemma {:induction false} ValOptsExtends(d: DictPerm, key: Py, val: Py, combined: seq<Binding>, name: string, vals: seq<int>, n: nat, p: DictPerm)
    requires n <= |vals| && p in ValOpts(d, key, val, combined, name, vals, n)
    ensures ExtendsBy(d, key, val, p)
  {
    if p in ValOpts(d, key, val, combined, name, vals, n - 1) {
      ValOptsExtends(d, key, val, combined, name, vals, n - 1, p);
    }
  }

  lemma ValExtExtends(a: DictArgs, d: DictPerm, key: Py, combined: seq<Binding>, j: nat, p: DictPerm)
    requires DictAligned(a) && j < |a.valParam.opts| && p in ValExt(a, d, key, combined, j)
    ensures ExtendsBy(d, key, a.valParam.opts[j], p)
  {
    match a.valParam.names[j]
    case Fixed(bs) =>
    case Ranged(name, vals) => ValOptsExtends(d, key, a.valParam.opts[j], combined, name, vals, |vals|, p);
  }

  /** A member of ValsUpTo comes from one of the first n values. */
  lemma {:induction false} ValsUpToSome(a: DictArgs, d: DictPerm, key: Py, combined: seq<Binding>, n: nat, p: DictPerm)
    requires DictAligned(a) && n <= |a.valParam.opts| && p in ValsUpTo(a, d, key, combined, n)
    ensures exists j :: 0 <= j < n && p in ValExt(a, d, key, combined, j)
  {
    if n > 0 && p in ValsUpTo(a, d, key, combined, n - 1) {
      ValsUpToSome(a, d, key, combined, n - 1, p);
    }
  }

  lemma ValsUpToExtends(a: DictArgs, d: DictPerm, key: Py, combined: seq<Binding>, n: nat, p: DictPerm)
    requires DictAligned(a) && n <= |a.valParam.opts| && p in ValsUpTo(a, d, key, combined, n)
    ensures exists j :: 0 <= j < n && ExtendsBy(d, key, a.valParam.opts[j], p)
  {
    ValsUpToSome(a, d, key, combined, n, p);
    var j :| 0 <= j < n && p in ValExt(a, d, key, combined, j);
    ValExtExtends(a, d, key, combined, j, p);
  }

  lemma {:induction false} KeyOptsExtends(a: DictArgs, d: DictPerm, key: Py, name: string, vals: seq<int>, n: nat, p: DictPerm)
    requires DictAligned(a) && n <= |vals| && p in KeyOpts(a, d, key, name, vals, n)
    ensures exists j :: 0 <= j < |a.valParam.opts| && ExtendsBy(d, key, a.valParam.opts[j], p)
  {
    var m := MergeFixed(d.names, [Binding(Var(name), vals[n - 1])]);
    if p in KeyOpts(a, d, key, name, vals, n - 1) {
      KeyOptsExtends(a, d, key, name, vals, n - 1, p);
    } else {
      assert m.Merged? && p in ValsUpTo(a, d, key, m.bindings, |a.valParam.opts|);
      ValsUpToExtends(a, d, key, m.bindings, |a.valParam.opts|, p);
    }
  }

  lemma KeyExtExtends(a: DictArgs, d: DictPerm, i: nat, p: DictPerm)
    requires DictAligned(a) && i < |a.keyParam.opts| && p in KeyExt(a, d, i)
    ensures exists j :: 0 <= j < |a.valParam.opts| && ExtendsBy(d, a.keyParam.opts[i], a.valParam.opts[j], p)
  {
    var key := a.keyParam.opts[i];
    match a.keyParam.names[i]
    case Fixed(bs) => ValsUpToExtends(a, d, key, MergeFixed(d.names, bs).bindings, |a.valParam.opts|, p);
    case Ranged(name, vals) => KeyOptsExtends(a, d, key, name, vals, |vals|, p);
  }

  /** Each extension of d adds one possible key above d's last key, and one possible value. */
  predicate DictExtends(a: DictArgs, d: DictPerm, p: DictPerm) {
    exists i, j :: 0 <= i < |a.keyParam.opts| && 0 <= j < |a.valParam.opts|
      && ExtendsBy(d, a.keyParam.opts[i], a.valParam.opts[j], p)
  }

  /** A member of KeysUpTo comes from one of the first n keys. */
  lemma {:induction false} KeysUpToSome(a: DictArgs, d: DictPerm, n: nat, p: DictPerm)
    requires DictAligned(a) && n <= |a.keyParam.opts| && p in KeysUpTo(a, d, n)
    ensures exists i :: 0 <= i < n && p in KeyExt(a, d, i)
  {
    if n > 0 && p in KeysUpTo(a, d, n - 1) {
      KeysUpToSome(a, d, n - 1, p);
    }
  }

  lemma KeysUpToExtends(a: DictArgs, d: DictPerm, n: nat, p: DictPerm)
    requires DictAligned(a) && n <= |a.keyParam.opts| && p in KeysUpTo(a, d, n)
    ensures DictExtends(a, d, p)
  {
    KeysUpToSome(a, d, n, p);
    var i :| 0 <= i < n && p in KeyExt(a, d, i);
    KeyExtExtends(a, d, i, p);
    var j :| 0 <= j < |a.valParam.opts| && ExtendsBy(d, a.keyParam.opts[i], a.valParam.opts[j], p);
  }

  /**
   * A dictionary of at most maxLen keys: as many values as keys, keys
   * strictly increasing, every key and value one of the possible ones.
   */
  predicate DictShaped(a: DictArgs, d: DictPerm, maxLen: nat) {
    |d.keys| == |d.vals| && |d.keys| <= maxLen && Increasing(d.keys)
    && (forall k :: 0 <= k < |d.keys| ==> d.keys[k] in a.keyParam.opts)
    && (forall k :: 0 <= k < |d.vals| ==> d.vals[k] in a.valParam.opts)
  }

  lemma ExtendsShaped(a: DictArgs, d: DictPerm, p: DictPerm, maxLen: nat)
    requires maxLen > 0 && DictShaped(a, d, maxLen - 1) && DictExtends(a, d, p)
    ensures DictShaped(a, p, maxLen)
  {
    var i, j :| 0 <= i < |a.keyParam.opts| && 0 <= j < |a.valParam.opts|
      && ExtendsBy(d, a.keyParam.opts[i], a.valParam.opts[j], p);
    var n := |d.keys|;
    assert p.keys[n] == a.keyParam.opts[i] && p.vals[n] == a.valParam.opts[j];
    forall k | 0 < k < |p.keys| ensures Less(p.keys[k - 1], p.keys[k]) {
      if k < n {
        assert p.keys[k - 1] == d.keys[k - 1] && p.keys[k] == d.keys[k];
      }
    }
  }

  lemma DictGrowAllShaped(a: DictArgs, shorter: set<DictPerm>, maxLen: nat, p: DictPerm)
    requires DictAligned(a) && maxLen > 0
    requires forall d :: d in shorter ==> DictShaped(a, d, maxLen - 1)
    requires p in DictGrowAll(a, shorter)
    ensures DictShaped(a, p, maxLen)
  {
    var d :| d in shorter && p in DictExtAll(a, d);
    KeysUpToExtends(a, d, |a.keyParam.opts|, p);
    ExtendsShaped(a, d, p, maxLen);
  }

  lemma {:induction false} DictHelperShaped(a: DictArgs, maxLen: nat)
    requires DictAligned(a)
    ensures forall d :: d in DictHelper(a, maxLen) ==> DictShaped(a, d, maxLen)
  {
    if maxLen > 0 {
      DictHelperShaped(a, maxLen - 1);
      DictLevelShaped(a, DictHelper(a, maxLen - 1), maxLen);
    }
  }

  lemma DictLevelShaped(a: DictArgs, shorter: set<DictPerm>, maxLen: nat)
    requires DictAligned(a) && maxLen > 0 && shorter == DictHelper(a, maxLen - 1)
    requires forall d :: d in shorter ==> DictShaped(a, d, maxLen - 1)
    ensures forall d :: d in DictHelper(a, maxLen) ==> DictShaped(a, d, maxLen)
  {
    forall p | p in DictHelper(a, maxLen) ensures DictShaped(a, p, maxLen) {
      DictHelperShapedStep(a, shorter, maxLen, p);
    }
  }

  lemma DictHelperShapedStep(a: DictArgs, shorter: set<DictPerm>, maxLen: nat, p: DictPerm)
    requires DictAligned(a) && maxLen > 0
    requires forall d :: d in shorter ==> DictShaped(a, d, maxLen - 1)
    requires p in DictFiltered(a, KeptAndGrown(a, shorter), maxLen)
    ensures DictShaped(a, p, maxLen)
  {
    if p !in shorter {
      DictGrowAllShaped(a, shorter, maxLen, p);
    }
  }

  /**
   * _create_dict_perms returns dictionaries of between minLen and maxLen
   * keys, with one value per key and no key twice.
   */
  lemma DictPermsShaped(a: DictArgs, maxLen: int)
    requires DictAligned(a) && maxLen >= 0
    ensures forall d :: d in DictPerms(a, maxLen).value ==>
      a.minLen <= |d.keys| <= maxLen && DictShaped(a, d, maxLen) && Distinct(d.keys)
  {
    DictHelperShaped(a, maxLen);
    forall d | d in DictPerms(a, maxLen).value ensures Distinct(d.keys) {
      IncreasingDistinct(d.keys);
    }
  }

  /** With a range of natural numbers, the base case keeps one empty dictionary per value of the range. */
  lemma DictHelperBase(a: DictArgs)
    requires DictAligned(a) && forall l :: l in a.varrange ==> l >= 0
    ensures DictHelper(a, 0) == DictBase(a)
    ensures a.varrange != [] ==> forall d :: d in DictHelper(a, 0) <==>
      exists l :: l in a.varrange && d == DictPerm([], [], [Binding(a.varname, l)])
    ensures a.varrange == [] ==> DictHelper(a, 0) == {DictPerm([], [], [Binding(Wild, 0)])}
  {
    forall d | d in DictBase(a) ensures DictKeep(a, d, 0) {
      assert d.names != [] && DictClaim(a, d) == d.names[0];
    }
  }

  // No dictionary binds a name twice, so it can serve as an element.

  lemma {:induction false} ValOptsNoDup(d: DictPerm, key: Py, val: Py, combined: seq<Binding>, name: string, vals: seq<int>, n: nat, p: DictPerm)
    requires n <= |vals| && NoDupNames(combined) && p in ValOpts(d, key, val, combined, name, vals, n)
    ensures NoDupNames(p.names)
  {
    if p in ValOpts(d, key, val, combined, name, vals, n - 1) {
      ValOptsNoDup(d, key, val, combined, name, vals, n - 1, p);
    } else {
      MergeFixedNoDup(combined, [Binding(Var(name), vals[n - 1])]);
    }
  }

  lemma ValExtNoDup(a: DictArgs, d: DictPerm, key: Py, combined: seq<Binding>, j: nat, p: DictPerm)
    requires DictAligned(a) && ParamNoDup(a.valParam) && j < |a.valParam.opts| && NoDupNames(combined)
    requires p in ValExt(a, d, key, combined, j)
    ensures NoDupNames(p.names)
  {
    match a.valParam.names[j]
    case Fixed(bs) => MergeFixedNoDup(combined, bs);
    case Ranged(name, vals) => ValOptsNoDup(d, key, a.valParam.opts[j], combined, name, vals, |vals|, p);
  }

  lemma ValsUpToNoDup(a: DictArgs, d: DictPerm, key: Py, combined: seq<Binding>, n: nat, p: DictPerm)
    requires DictAligned(a) && ParamNoDup(a.valParam) && n <= |a.valParam.opts| && NoDupNames(combined)
    requires p in ValsUpTo(a, d, key, combined, n)
    ensures NoDupNames(p.names)
  {
    ValsUpToSome(a, d, key, combined, n, p);
    var j :| 0 <= j < n && p in ValExt(a, d, key, combined, j);
    ValExtNoDup(a, d, key, combined, j, p);
  }

  lemma {:induction false} KeyOptsNoDup(a: DictArgs, d: DictPerm, key: Py, name: string, vals: seq<int>, n: nat, p: DictPerm)
    requires DictAligned(a) && ParamNoDup(a.valParam) && n <= |vals| && NoDupNames(d.names)
    requires p in KeyOpts(a, d, key, name, vals, n)
    ensures NoDupNames(p.names)
  {
    var m := MergeFixed(d.names, [Binding(Var(name), vals[n - 1])]);
    if p in KeyOpts(a, d, key, name, vals, n - 1) {
      KeyOptsNoDup(a, d, key, name, vals, n - 1, p);
    } else {
      MergeFixedNoDup(d.names, [Binding(Var(name), vals[n - 1])]);
      ValsUpToNoDup(a, d, key, m.bindings, |a.valParam.opts|, p);
    }
  }

  lemma KeyExtNoDup(a: DictArgs, d: DictPerm, i: nat, p: DictPerm)
    requires DictAligned(a) && DictNoDup(a) && i < |a.keyParam.opts| && NoDupNames(d.names)
    requires p in KeyExt(a, d, i)
    ensures NoDupNames(p.names)
  {
    var key := a.keyParam.opts[i];
    match a.keyParam.names[i]
    case Fixed(bs) =>
      MergeFixedNoDup(d.names, bs);
      ValsUpToNoDup(a, d, key, MergeFixed(d.names, bs).bindings, |a.valParam.opts|, p);
    case Ranged(name, vals) => KeyOptsNoDup(a, d, key, name, vals, |vals|, p);
  }

  lemma KeysUpToNoDup(a: DictArgs, d: DictPerm, n: nat, p: DictPerm)
    requires DictAligned(a) && DictNoDup(a) && n <= |a.keyParam.opts| && NoDupNames(d.names)
    requires p in KeysUpTo(a, d, n)
    ensures NoDupNames(p.names)
  {
    KeysUpToSome(a, d, n, p);
    var i :| 0 <= i < n && p in KeyExt(a, d, i);
    KeyExtNoDup(a, d, i, p);
  }

  /** No dictionary of ds binds a name twice. */
  predicate DictsNoDup(ds: set<DictPerm>) {
    forall d :: d in ds ==> NoDupNames(d.names)
  }

  lemma {:induction false} DictHelperNoDup(a: DictArgs, maxLen: nat)
    requires DictAligned(a) && DictNoDup(a)
    ensures DictsNoDup(DictHelper(a, maxLen))
  {
    if maxLen == 0 {
      DictBaseNoDup(a);
    } else {
      DictHelperNoDup(a, maxLen - 1);
      DictLevelNoDup(a, maxLen);
    }
  }

  lemma DictBaseNoDup(a: DictArgs)
    requires DictAligned(a)
    ensures DictsNoDup(DictHelper(a, 0))
  {
    forall p | p in DictHelper(a, 0) ensures NoDupNames(p.names) {
      assert p in DictBase(a);
      assert |p.names| == 1;
    }
  }

  lemma DictLevelNoDup(a: DictArgs, maxLen: nat)
    requires DictAligned(a) && DictNoDup(a) && maxLen > 0
    requires DictsNoDup(DictHelper(a, maxLen - 1))
    ensures DictsNoDup(DictHelper(a, maxLen))
  {
    forall p | p in DictHelper(a, maxLen) ensures NoDupNames(p.names) {
      DictHelperNoDupStep(a, DictHelper(a, maxLen - 1), maxLen, p);
    }
  }

  lemma DictHelperNoDupStep(a: DictArgs, shorter: set<DictPerm>, maxLen: nat, p: DictPerm)
    requires DictAligned(a) && DictNoDup(a) && DictsNoDup(shorter)
    requires p in DictFiltered(a, KeptAndGrown(a, shorter), maxLen)
    ensures NoDupNames(p.names)
  {
    if p !in shorter {
      var d :| d in shorter && p in DictExtAll(a, d);
      KeysUpToNoDup(a, d, |a.keyParam.opts|, p);
    }
  }

  /** When no key or value binds a name twice, no dictionary _create_dict_perms returns does. */
  lemma DictPermsNoDup(a: DictArgs, maxLen: int, p: DictPerm)
    requires DictAligned(a) && DictNoDup(a) && maxLen >= 0 && p in DictPerms(a, maxLen).value
    ensures NoDupNames(p.names)
  {
    DictHelperNoDup(a, maxLen);
  }

  // The value loop as written. A ranged value assigns its merge to
  // combined_varnames, overwriting the key-combined bindings (with None on a
  // mismatch), and passes new_combined_varnames to add_to_dict: the bindings
  // of an earlier fixed value, or a variable never assigned.

  /** A local variable of the helper: never assigned, holding None, or holding bindings. */
  datatype Slot = Unbound | NoneSlot | Holds(bindings: seq<Binding>)

  /** all_dicts, combined_varnames and new_combined_varnames in the value loop. */
  datatype ValState = ValState(all: set<DictPerm>, combined: Slot, newNames: Slot)

  /** check_against_others on a variable's content: None cannot be copied (TypeError). */
  function CheckSlot(s: Slot, bs: seq<Binding>): Result<Merge> {
    match s
    case Unbound => Failure("UnboundLocalError")
    case NoneSlot => Failure("TypeError")
    case Holds(c) => Success(MergeFixed(c, bs))
  }

  /**
   * add_to_dict(all_dicts, adict, key, val, new_combined_varnames): reading
   * the unassigned variable fails; None bindings are stored, and the
   * helper's filter then fails iterating them (TypeError).
   */
  function AddAsWritten(st: ValState, d: DictPerm, key: Py, val: Py): Result<ValState> {
    match st.newNames
    case Unbound => Failure("UnboundLocalError")
    case NoneSlot => if AddOne(d, key, val, []) != {} then Failure("TypeError") else Success(st)
    case Holds(bs) => Success(st.(all := st.all + AddOne(d, key, val, bs)))
  }

  function OptsAsWritten(d: DictPerm, key: Py, val: Py, name: string, vals: seq<int>, k: nat, st: ValState): Result<ValState>
    requires k <= |vals|
    decreases |vals| - k
  {
    if k == |vals| then Success(st)
    else match CheckSlot(st.combined, [Binding(Var(name), vals[k])])
      case Failure(e) => Failure(e)
      case Success(m) =>
        if m.Merged? then
          match AddAsWritten(st.(combined := Holds(m.bindings)), d, key, val)
          case Failure(e) => Failure(e)
          case Success(st2) => OptsAsWritten(d, key, val, name, vals, k + 1, st2)
        else OptsAsWritten(d, key, val, name, vals, k + 1, st.(combined := NoneSlot))
  }

  /** The loop over possible_vals for one key as written, from value j on. */
  function ValsAsWritten(a: DictArgs, d: DictPerm, key: Py, j: nat, st: ValState): Result<ValState>
    requires DictAligned(a) && j <= |a.valParam.opts|
    decreases |a.valParam.opts| - j
  {
    if j == |a.valParam.opts| then Success(st)
    else
      var val := a.valParam.opts[j];
      var next := match a.valParam.names[j]
        case Ranged(name, vals) => OptsAsWritten(d, key, val, name, vals, 0, st)
        case Fixed(bs) =>
          match CheckSlot(st.combined, bs)
          case Failure(e) => Failure(e)
          case Success(m) =>
            if m.Merged? then AddAsWritten(st.(newNames := Holds(m.bindings)), d, key, val)
            else Success(st.(newNames := NoneSlot));
      match next
      case Failure(e) => Failure(e)
      case Success(st2) => ValsAsWritten(a, d, key, j + 1, st2)
  }

  /**
   * The first value tried is ranged and its option merges: as written the
   * helper fails reading new_combined_varnames, which was never assigned;
   * the intended loop adds the dictionary under the option's merge.
   */
  lemma RangedValueUnbound(a: DictArgs, d: DictPerm, key: Py, combined: seq<Binding>, name: string, v: int)
    requires DictAligned(a) && |a.valParam.opts| == 1 && a.valParam.names[0] == Ranged(name, [v])
    requires MergeFixed(combined, [Binding(Var(name), v)]).Merged? && d.keys == []
    ensures ValsAsWritten(a, d, key, 0, ValState({}, Holds(combined), Unbound)) == Failure("UnboundLocalError")
    ensures ValsUpTo(a, d, key, combined, 1)
      == {DictPerm([key], d.vals + [a.valParam.opts[0]], MergeFixed(combined, [Binding(Var(name), v)]).bindings)}
  {
    var val, m := a.valParam.opts[0], MergeFixed(combined, [Binding(Var(name), v)]);
    assert d.keys + [key] == [key];
    assert AddOne(d, key, val, m.bindings) == {DictPerm([key], d.vals + [val], m.bindings)};
    assert ValOpts(d, key, val, combined, name, [v], 1) == {} + Added(d, key, val, m);
    assert ValsUpTo(a, d, key, combined, 1) == {} + ValExt(a, d, key, combined, 0);
  }

  /**
   * A fixed value, then a ranged one: as written the ranged value's
   * dictionary carries the fixed value's bindings; the intended loop gives
   * it the bindings of its own merge.
   */
  lemma RangedValueStale(a: DictArgs, d: DictPerm, key: Py, combined: seq<Binding>, bs: seq<Binding>, name: string, v: int)
    requires DictAligned(a) && |a.valParam.opts| == 2 && d.keys == []
    requires a.valParam.names[0] == Fixed(bs) && a.valParam.names[1] == Ranged(name, [v])
    requires MergeFixed(combined, bs).Merged? && MergeFixed(combined, [Binding(Var(name), v)]).Merged?
    ensures var r := ValsAsWritten(a, d, key, 0, ValState({}, Holds(combined), Unbound));
      r.Success? && DictPerm([key], d.vals + [a.valParam.opts[1]], MergeFixed(combined, bs).bindings) in r.value.all
    ensures DictPerm([key], d.vals + [a.valParam.opts[1]], MergeFixed(combined, [Binding(Var(name), v)]).bindings)
      in ValsUpTo(a, d, key, combined, 2)
  {
    var val0, val1 := a.valParam.opts[0], a.valParam.opts[1];
    var opt := Binding(Var(name), v);
    var m1, m2 := MergeFixed(combined, bs), MergeFixed(combined, [opt]);
    var st0 := ValState({}, Holds(combined), Unbound);
    assert d.keys + [key] == [key];
    var st1 := ValState({} + AddOne(d, key, val0, m1.bindings), Holds(combined), Holds(m1.bindings));
    var st2 := ValState(st1.all + AddOne(d, key, val1, m1.bindings), Holds(m2.bindings), Holds(m1.bindings));
    assert CheckSlot(st0.combined, bs) == Success(m1);
    assert AddAsWritten(st0.(newNames := Holds(m1.bindings)), d, key, val0) == Success(st1);
    assert ValsAsWritten(a, d, key, 0, st0) == ValsAsWritten(a, d, key, 1, st1);
    assert CheckSlot(st1.combined, [opt]) == Success(m2);
    assert AddAsWritten(st1.(combined := Holds(m2.bindings)), d, key, val1) == Success(st2);
    assert OptsAsWritten(d, key, val1, name, [v], 0, st1) == OptsAsWritten(d, key, val1, name, [v], 1, st2) == Success(st2);
    assert ValsAsWritten(a, d, key, 1, st1) == ValsAsWritten(a, d, key, 2, st2) == Success(st2);
    assert ValsUpTo(a, d, key, combined, 1) == ValExt(a, d, key, combined, 0);
    assert ValsUpTo(a, d, key, combined, 2) == ValsUpTo(a, d, key, combined, 1) + ValExt(a, d, key, combined, 1);
    assert ValOpts(d, key, val1, combined, name, [v], 1) == Added(d, key, val1, m2);
  }

  // add_to_dict mutates the all_dicts dictionary of its caller.

  /** The all_dicts dictionary, as the set of its keys. */
  class DictPermSet {
    var perms: set<DictPerm>

    constructor()
      ensures perms == {}
    {
      perms := {};
    }

    /** add_to_dict: keys stay in increasing order, so each key set is generated once. */
    method AddToDict(d: DictPerm, key: Py, val: Py, names: seq<Binding>)
      modifies this
      ensures perms == old(perms) + AddOne(d, key, val, names)
    {
      if |d.keys| == 0 || Less(d.keys[|d.keys| - 1], key) {
        var potentialKey := DictPerm(d.keys + [key], d.vals + [val], names);
        if potentialKey !in perms {
          perms := perms + {potentialKey};
        }
      }
    }
  }

  /** add_to_dict only adds dictionaries whose keys are strictly increasing and as many as their values. */
  lemma AddOneShaped(d: DictPerm, key: Py, val: Py, names: seq<Binding>)
    requires |d.keys| == |d.vals| && Increasing(d.keys)
    ensures forall p :: p in AddOne(d, key, val, names) ==>
      |p.keys| == |p.vals| == |d.keys| + 1 && Increasing(p.keys) && Distinct(p.keys) && p.names == names
  {
    forall p | p in AddOne(d, key, val, names)
      ensures |p.keys| == |p.vals| == |d.keys| + 1 && Increasing(p.keys) && Distinct(p.keys)
    {
      var n := |d.keys|;
      forall k | 0 < k < |p.keys| ensures Less(p.keys[k - 1], p.keys[k]) {
        if k < n {
          assert p.keys[k - 1] == d.keys[k - 1] && p.keys[k] == d.keys[k];
        }
      }
      IncreasingDistinct(p.keys);
    }
  }

  // The helper's loops.

  /** _create_dict_perms: the helper's result without the dictionaries shorter than the minimum. */
  method CreateDictPerms(a: DictArgs, maxLen: int) returns (r: Result<set<DictPerm>>)
    requires DictAligned(a)
    ensures maxLen < 0 ==> r == Failure("RuntimeError")
    ensures DictNoDup(a) ==> r == DictPerms(a, maxLen)
  {
    var perms := CreateDictPermsHelper(a, maxLen);
    if perms.Failure? {
      return perms;
    }
    var finalPerms := KeepMinimum(perms.value, a.minLen);
    r := Success(finalPerms);
  }

  /** The filter loop of _create_dict_perms. */
  method KeepMinimum(perms: set<DictPerm>, minLen: int) returns (finalPerms: set<DictPerm>)
    ensures finalPerms == set d | d in perms && |d.keys| >= minLen
  {
    finalPerms := {};
    var rest := perms;
    while rest != {}
      invariant rest <= perms
      invariant finalPerms == set d | d in perms - rest && |d.keys| >= minLen
      decreases |rest|
    {
      var d :| d in rest;
      if |d.keys| >= minLen {
        finalPerms := finalPerms + {d};
      }
      rest := rest - {d};
    }
    assert perms - rest == perms;
  }

  /** _create_dict_perms_helper. A negative bound never reaches the base case. */
  method CreateDictPermsHelper(a: DictArgs, maxLen: int) returns (r: Result<set<DictPerm>>)
    requires DictAligned(a)
    ensures maxLen < 0 ==> r == Failure("RuntimeError")
    ensures maxLen >= 0 && DictNoDup(a) ==> r == Success(DictHelper(a, maxLen))
    decreases if maxLen < 0 then 0 else maxLen, 1
  {
    if maxLen < 0 {
      return Failure("RuntimeError");
    }
    var keys := DictHelperKeys(a, maxLen);
    if keys.Failure? {
      return keys;
    }
    var filtered := FilterDicts(a, keys.value, maxLen);
    r := Success(filtered);
  }

  /** The dictionaries before the filter: the base case, or the shorter ones kept and extended. */
  method DictHelperKeys(a: DictArgs, maxLen: nat) returns (r: Result<set<DictPerm>>)
    requires DictAligned(a)
    ensures maxLen == 0 ==> r == Success(DictBase(a))
    ensures maxLen > 0 && DictNoDup(a) ==> r == Success(KeptAndGrown(a, DictHelper(a, maxLen - 1)))
    decreases maxLen, 0
  {
    if maxLen == 0 {
      var base := BaseDicts(a);
      return Success(base);
    }
    var shorter := CreateDictPermsHelper(a, maxLen - 1);
    if shorter.Failure? {
      return shorter;
    }
    r := GrowDicts(a, shorter.value);
  }

  method BaseDicts(a: DictArgs) returns (keys: set<DictPerm>)
    ensures keys == DictBase(a)
  {
    if a.varrange == [] {
      return {DictPerm([], [], [Binding(Wild, 0)])};
    }
    keys := {};
    for k := 0 to |a.varrange|
      invariant keys == set l | l in a.varrange[..k] :: DictPerm([], [], [Binding(a.varname, l)])
    {
      keys := keys + {DictPerm([], [], [Binding(a.varname, a.varrange[k])])};
      assert a.varrange[..k + 1] == a.varrange[..k] + [a.varrange[k]];
    }
    assert a.varrange[..|a.varrange|] == a.varrange;
  }

  /** The loop over shorter_dicts: keep each dictionary and add all its extensions to all_dicts. */
  method GrowDicts(a: DictArgs, shorter: set<DictPerm>) returns (r: Result<set<DictPerm>>)
    requires DictAligned(a)
    ensures DictNoDup(a) ==> r == Success(KeptAndGrown(a, shorter))
  {
    var allDicts := new DictPermSet();
    var rest := shorter;
    ghost var done: set<DictPerm> := {};
    while rest != {}
      invariant done + rest == shorter
      invariant DictNoDup(a) ==> allDicts.perms == KeptAndGrown(a, done)
      decreases |rest|
    {
      var d :| d in rest;
      if d !in allDicts.perms {
        allDicts.perms := allDicts.perms + {d};
      }
      var err := GrowDict(a, d, allDicts);
      if err.Some? {
        return Failure(err.value);
      }
      KeptAndGrownStep(a, done, d);
      done := done + {d};
      rest := rest - {d};
    }
    r := Success(allDicts.perms);
  }

  lemma KeptAndGrownStep(a: DictArgs, ds: set<DictPerm>, d: DictPerm)
    requires DictAligned(a)
    ensures KeptAndGrown(a, ds + {d}) == KeptAndGrown(a, ds) + {d} + DictExtAll(a, d)
  {
    forall p | p in DictExtAll(a, d) ensures p in DictGrowAll(a, ds + {d}) {
      assert d in ds + {d} && p in DictExtAll(a, d);
    }
  }

  /** The loop over possible_keys for one dictionary. */
  method GrowDict(a: DictArgs, d: DictPerm, allDicts: DictPermSet) returns (err: Option<string>)
    requires DictAligned(a)
    modifies allDicts
    ensures DictNoDup(a) ==> err == None && allDicts.perms == old(allDicts.perms) + DictExtAll(a, d)
  {
    for i := 0 to |a.keyParam.opts|
      invariant DictNoDup(a) ==> allDicts.perms == old(allDicts.perms) + KeysUpTo(a, d, i)
    {
      err := GrowKey(a, d, i, allDicts);
      if err.Some? {
        return;
      }
    }
    err := None;
  }

  /** One key: merge its bindings with the dictionary's, then try every value with it. */
  method GrowKey(a: DictArgs, d: DictPerm, i: nat, allDicts: DictPermSet) returns (err: Option<string>)
    requires DictAligned(a) && i < |a.keyParam.opts|
    modifies allDicts
    ensures DictNoDup(a) ==> err == None && allDicts.perms == old(allDicts.perms) + KeyExt(a, d, i)
  {
    var key := a.keyParam.opts[i];
    match a.keyParam.names[i] {
      case Fixed(bs) =>
        var m := CheckFixed(d.names, bs);
        if m.Raises? {
          return Some(m.error);
        }
        err := GrowWithKey(a, d, key, m, allDicts);
      case Ranged(name, vals) =>
        err := None;
        for k := 0 to |vals|
          invariant DictNoDup(a) ==> err == None && allDicts.perms == old(allDicts.perms) + KeyOpts(a, d, key, name, vals, k)
        {
          var m := CheckFixed(d.names, [Binding(Var(name), vals[k])]);
          err := GrowWithKey(a, d, key, m, allDicts);
          if err.Some? {
            return;
          }
        }
    }
  }

  method GrowWithKey(a: DictArgs, d: DictPerm, key: Py, m: Merge, allDicts: DictPermSet) returns (err: Option<string>)
    requires DictAligned(a)
    modifies allDicts
    ensures DictNoDup(a) ==> err == None && allDicts.perms == old(allDicts.perms) + WithKey(a, d, key, m)
  {
    err := None;
    if m.Merged? {
      err := GrowVals(a, d, key, m.bindings, allDicts);
    }
  }

  /** The loop over possible_vals for one key, each value checked against the key-combined bindings. */
  method GrowVals(a: DictArgs, d: DictPerm, key: Py, combined: seq<Binding>, allDicts: DictPermSet)
    returns (err: Option<string>)
    requires DictAligned(a)
    modifies allDicts
    ensures DictNoDup(a) ==> err == None && allDicts.perms == old(allDicts.perms) + ValsUpTo(a, d, key, combined, |a.valParam.opts|)
  {
    for j := 0 to |a.valParam.opts|
      invariant DictNoDup(a) ==> allDicts.perms == old(allDicts.perms) + ValsUpTo(a, d, key, combined, j)
    {
      err := GrowValRound(a, d, key, combined, j, allDicts, old(allDicts.perms));
      if err.Some? {
        return;
      }
    }
    err := None;
  }

  /** One round of the value loop, stated against the values seen so far. */
  method GrowValRound(a: DictArgs, d: DictPerm, key: Py, combined: seq<Binding>, j: nat, allDicts: DictPermSet, ghost base: set<DictPerm>)
    returns (err: Option<string>)
    requires DictAligned(a) && j < |a.valParam.opts|
    requires DictNoDup(a) ==> allDicts.perms == base + ValsUpTo(a, d, key, combined, j)
    modifies allDicts
    ensures DictNoDup(a) ==> err == None && allDicts.perms == base + ValsUpTo(a, d, key, combined, j + 1)
  {
    err := GrowVal(a, d, key, combined, j, allDicts);
  }

  /** One value: a fixed value merges once, a ranged value once per option. */
  method GrowVal(a: DictArgs, d: DictPerm, key: Py, combined: seq<Binding>, j: nat, allDicts: DictPermSet)
    returns (err: Option<string>)
    requires DictAligned(a) && j < |a.valParam.opts|
    modifies allDicts
    ensures DictNoDup(a) ==> err == None && allDicts.perms == old(allDicts.perms) + ValExt(a, d, key, combined, j)
  {
    var val := a.valParam.opts[j];
    err := None;
    match a.valParam.names[j] {
      case Fixed(bs) =>
        var m := CheckFixed(combined, bs);
        if m.Raises? {
          return Some(m.error);
        }
        if m.Merged? {
          allDicts.AddToDict(d, key, val, m.bindings);
        }
      case Ranged(name, vals) =>
        GrowValOpts(d, key, val, combined, name, vals, allDicts);
    }
  }

  /** A ranged value: each option is checked against the key-combined bindings and adds under its own merge. */
  method GrowValOpts(d: DictPerm, key: Py, val: Py, combined: seq<Binding>, name: string, vals: seq<int>, allDicts: DictPermSet)
    modifies allDicts
    ensures allDicts.perms == old(allDicts.perms) + ValOpts(d, key, val, combined, name, vals, |vals|)
  {
    for k := 0 to |vals|
      invariant allDicts.perms == old(allDicts.perms) + ValOpts(d, key, val, combined, name, vals, k)
    {
      AddValOpt(d, key, val, combined, Binding(Var(name), vals[k]), allDicts);
    }
  }

  /** One option of a ranged value. */
  method AddValOpt(d: DictPerm, key: Py, val: Py, combined: seq<Binding>, opt: Binding, allDicts: DictPermSet)
    modifies allDicts
    ensures allDicts.perms == old(allDicts.perms) + Added(d, key, val, MergeFixed(combined, [opt]))
  {
    var m := CheckFixed(combined, [opt]);
    if m.Merged? {
      allDicts.AddToDict(d, key, val, m.bindings);
    }
  }

  /** The filter loop: the dictionaries whose claim the described rule admits. */
  method FilterDicts(a: DictArgs, keys: set<DictPerm>, maxLen: int) returns (filtered: set<DictPerm>)
    ensures filtered == DictFiltered(a, keys, maxLen)
  {
    filtered := {};
    var rest := keys;
    while rest != {}
      invariant rest <= keys
      invariant filtered == set d | d in keys - rest && DictKeep(a, d, maxLen)
      decreases |rest|
    {
      var d :| d in rest;
      var b := Binding(Wild, 0);
      if d.names != [] {
        b := ExhaustiveTup.FindClaim(d.names, a.varname);
      }
      if ExhaustiveTup.Admits(a.full, b, |d.keys|, maxLen) {
        filtered := filtered + {d};
      }
      rest := rest - {d};
    }
  }
}
