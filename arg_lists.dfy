// generate_arg_lists: the cartesian product of the parameters' candidate
// values, built from the last parameter to the first, keeping only the
// combinations whose variable bindings agree (check_against_others).
module ArgLists {
  import opened Wrappers
  import opened Bindings

  /** One parameter's candidates: the i-th value comes with the i-th binding option. */
  datatype Param<V> = Param(names: seq<VarNames>, opts: seq<V>)

  /** One argument list for the parameters from some index on, with its bindings. */
  datatype Combo<V> = Combo(bindings: seq<Binding>, args: seq<V>)

  /** What generate_arg_lists leaves behind: the exception it raised, if any, and the list. */
  datatype GenOut<V> = GenOut(err: Option<string>, lists: seq<Combo<V>>)

  /** The list the caller passes in and the callee refills in place. */
  class ArgLists<V> {
    var lists: seq<Combo<V>>

    constructor ()
      ensures lists == []
    {
      lists := [];
    }
  }

  /** The combinations a ranged candidate adds when its variable is still unbound: one per value. */
  function RangedCombos<V>(name: string, vals: seq<int>, bindings: seq<Binding>, args: seq<V>): (r: seq<Combo<V>>)
    ensures |r| == |vals|
    ensures forall k :: 0 <= k < |vals| ==> r[k] == Combo([Binding(Var(name), vals[k])] + bindings, args)
  {
    seq(|vals|, k requires 0 <= k < |vals| => Combo([Binding(Var(name), vals[k])] + bindings, args))
  }

  /** Prepending one candidate value to one combination. */
  function StepCombo<V>(names: VarNames, opt: V, c: Combo<V>): Result<seq<Combo<V>>>
  {
    match MergeSpec(names, c.bindings)
    case Conflict => Success([])
    case Raises(e) => Failure(e)
    case Merged(m) =>
      var args := [opt] + c.args;
      if names.Ranged? && Var(names.name) !in NamesOf(m) then Success(RangedCombos(names.name, names.vals, m, args))
      else Success([Combo(m, args)])
  }

  /** Prepending one candidate value to every combination, in order; the first exception wins. */
  function StepOpt<V>(names: VarNames, opt: V, combos: seq<Combo<V>>): Result<seq<Combo<V>>>
  {
    if combos == [] then Success([])
    else match StepOpt(names, opt, combos[..|combos| - 1])
      case Failure(e) => Failure(e)
      case Success(a) =>
        match StepCombo(names, opt, combos[|combos| - 1])
        case Failure(e) => Failure(e)
        case Success(b) => Success(a + b)
  }

  /** The combinations of the first k candidates of one parameter with the later parameters' combinations. */
  function ExtendFrom<V>(p: Param<V>, combos: seq<Combo<V>>, k: nat): Result<seq<Combo<V>>>
    requires k <= |p.opts|
  {
    if k == 0 then Success([])
    else match ExtendFrom(p, combos, k - 1)
      case Failure(e) => Failure(e)
      case Success(a) =>
        if k - 1 >= |p.names| then Failure("IndexError")
        else match StepOpt(p.names[k - 1], p.opts[k - 1], combos)
          case Failure(e) => Failure(e)
          case Success(b) => Success(a + b)
  }

  /**
   * generate_arg_lists(possible_args, idx, arg_lists): the base case appends
   * the empty combination to whatever the list holds; otherwise the list is
   * first filled for the later parameters and then replaced by their
   * extension with this parameter. An exception leaves the list as the
   * innermost unfinished call found it.
   */
  function Gen<V>(params: seq<Param<V>>, idx: nat, init: seq<Combo<V>>): GenOut<V>
    requires idx <= |params|
    decreases |params| - idx
  {
    if idx == |params| then GenOut(None, init + [Combo([], [])])
    else
      var rec := Gen(params, idx + 1, init);
      if rec.err.Some? then rec
      else match ExtendFrom(params[idx], rec.lists, |params[idx].opts|)
        case Failure(e) => GenOut(Some(e), rec.lists)
        case Success(l) => GenOut(None, l)
  }

  predicate AllNoDup<V>(combos: seq<Combo<V>>) {
    forall k :: 0 <= k < |combos| ==> NoDupNames(combos[k].bindings)
  }

  /** Every fixed binding option binds each name at most once. */
  predicate ParamNoDup<V>(p: Param<V>) {
    forall j :: 0 <= j < |p.names| && p.names[j].Fixed? ==> NoDupNames(p.names[j].bindings)
  }

  predicate ParamsNoDup<V>(params: seq<Param<V>>) {
    forall i :: 0 <= i < |params| ==> ParamNoDup(params[i])
  }

  /** The inner loop of generate_arg_lists: one candidate value against every combination. */
  method ExtendOpt<V>(names: VarNames, opt: V, combos: seq<Combo<V>>) returns (r: Result<seq<Combo<V>>>)
    ensures AllNoDup(combos) ==> r == StepOpt(names, opt, combos)
  {
    var acc: seq<Combo<V>> := [];
    for k := 0 to |combos|
      invariant AllNoDup(combos) ==> StepOpt(names, opt, combos[..k]) == Success(acc)
    {
      assert combos[..k + 1][..k] == combos[..k];
      var c := combos[k];
      var merged := CheckAgainstOthers(names, c.bindings);
      var step: seq<Combo<V>> := [];
      match merged {
        case Conflict =>
        case Raises(e) =>
          if AllNoDup(combos) {
            assert StepOpt(names, opt, combos[..k + 1]) == Failure(e);
            StepOptFails(names, opt, combos, k + 1);
          }
          return Failure(e);
        case Merged(m) =>
          var args := [opt] + c.args;
          if names.Ranged? && Var(names.name) !in NamesOf(m) {
            for v := 0 to |names.vals|
              invariant step == RangedCombos(names.name, names.vals[..v], m, args)
            {
              step := step + [Combo([Binding(Var(names.name), names.vals[v])] + m, args)];
            }
            assert names.vals[..|names.vals|] == names.vals;
          } else {
            step := [Combo(m, args)];
          }
      }
      assert AllNoDup(combos) ==> StepCombo(names, opt, c) == Success(step) by {
        if AllNoDup(combos) {
          assert NoDupNames(combos[k].bindings);
        }
      }
      if AllNoDup(combos) {
        assert StepOpt(names, opt, combos[..k + 1]) == Success(acc + step);
      }
      acc := acc + step;
    }
    assert combos[..|combos|] == combos;
    r := Success(acc);
  }

  /** The outer loop of generate_arg_lists: every candidate value of one parameter, in order. */
  method Extend<V>(p: Param<V>, combos: seq<Combo<V>>) returns (r: Result<seq<Combo<V>>>)
    ensures AllNoDup(combos) ==> r == ExtendFrom(p, combos, |p.opts|)
  {
    var acc: seq<Combo<V>> := [];
    for i := 0 to |p.opts|
      invariant AllNoDup(combos) ==> ExtendFrom(p, combos, i) == Success(acc)
    {
      if i >= |p.names| {
        if AllNoDup(combos) {
          ExtendFails(p, combos, i + 1, |p.opts|);
        }
        return Failure("IndexError");
      }
      var step := ExtendOpt(p.names[i], p.opts[i], combos);
      match step
      case Failure(e) =>
        if AllNoDup(combos) {
          ExtendFails(p, combos, i + 1, |p.opts|);
        }
        return Failure(e);
      case Success(b) =>
        acc := acc + b;
    }
    r := Success(acc);
  }

  /** An exception while prepending ends the loop: the first exception is the result. */
  lemma {:induction false} StepOptFails<V>(names: VarNames, opt: V, combos: seq<Combo<V>>, k: nat)
    requires k <= |combos| && StepOpt(names, opt, combos[..k]).Failure?
    ensures StepOpt(names, opt, combos) == StepOpt(names, opt, combos[..k])
    decreases |combos|
  {
    if k < |combos| {
      var init := combos[..|combos| - 1];
      assert init[..k] == combos[..k];
      StepOptFails(names, opt, init, k);
    } else {
      assert combos[..k] == combos;
    }
  }

  lemma {:induction false} ExtendFails<V>(p: Param<V>, combos: seq<Combo<V>>, k: nat, k': nat)
    requires k <= k' <= |p.opts| && ExtendFrom(p, combos, k).Failure?
    ensures ExtendFrom(p, combos, k') == ExtendFrom(p, combos, k)
    decreases k'
  {
    if k' > k {
      ExtendFails(p, combos, k, k' - 1);
    }
  }

  /** generate_arg_lists */
  method GenerateArgLists<V>(params: seq<Param<V>>, idx: nat, out: ArgLists<V>) returns (err: Option<string>)
    requires idx <= |params|
    modifies out
    ensures ParamsNoDup(params) && AllNoDup(old(out.lists)) ==>
      GenOut(err, out.lists) == Gen(params, idx, old(out.lists))
    decreases |params| - idx
  {
    if idx == |params| {
      out.lists := out.lists + [Combo([], [])];
      return None;
    }
    err := GenerateArgLists(params, idx + 1, out);
    if err.Some? {
      return;
    }
    if ParamsNoDup(params) && AllNoDup(old(out.lists)) {
      GenNoDup(params, idx + 1, old(out.lists));
    }
    var r := Extend(params[idx], out.lists);
    match r
    case Failure(e) =>
      err := Some(e);
    case Success(l) =>
      out.lists := l;
  }

  // Every combination binds each name at most once.

  lemma NamesOfMembers(bs: seq<Binding>)
    ensures forall x :: x in bs ==> x.name in NamesOf(bs)
  {
    forall x | x in bs ensures x.name in NamesOf(bs) {
      var k :| 0 <= k < |bs| && bs[k] == x;
      assert NamesOf(bs)[k] == x.name;
    }
  }

  lemma AllNoDupAppend<V>(a: seq<Combo<V>>, b: seq<Combo<V>>)
    requires AllNoDup(a) && AllNoDup(b)
    ensures AllNoDup(a + b)
  {
    forall k | 0 <= k < |a + b| ensures NoDupNames((a + b)[k].bindings) {
      if k >= |a| {
        assert (a + b)[k] == b[k - |a|];
      }
    }
  }

  lemma StepComboNoDup<V>(names: VarNames, opt: V, c: Combo<V>)
    requires names.Fixed? ==> NoDupNames(names.bindings)
    requires NoDupNames(c.bindings)
    requires StepCombo(names, opt, c).Success?
    ensures AllNoDup(StepCombo(names, opt, c).value)
  {
    match MergeSpec(names, c.bindings)
    case Conflict =>
    case Raises(_) =>
    case Merged(m) =>
      if names.Fixed? {
        MergeFixedNoDup(names.bindings, c.bindings);
      } else {
        assert m == c.bindings;
        if Var(names.name) !in NamesOf(m) {
          var args := [opt] + c.args;
          var r := RangedCombos(names.name, names.vals, m, args);
          forall k | 0 <= k < |r| ensures NoDupNames(r[k].bindings) {
            var b := Binding(Var(names.name), names.vals[k]);
            NamesOfMembers(m);
            NoDupAppend([b], m);
          }
        }
      }
  }

  lemma {:induction false} StepOptNoDup<V>(names: VarNames, opt: V, combos: seq<Combo<V>>)
    requires names.Fixed? ==> NoDupNames(names.bindings)
    requires AllNoDup(combos)
    requires StepOpt(names, opt, combos).Success?
    ensures AllNoDup(StepOpt(names, opt, combos).value)
  {
    if combos != [] {
      var last := combos[|combos| - 1];
      StepOptNoDup(names, opt, combos[..|combos| - 1]);
      StepComboNoDup(names, opt, last);
      AllNoDupAppend(StepOpt(names, opt, combos[..|combos| - 1]).value, StepCombo(names, opt, last).value);
    }
  }

  lemma {:induction false} ExtendNoDup<V>(p: Param<V>, combos: seq<Combo<V>>, k: nat)
    requires k <= |p.opts| && ParamNoDup(p) && AllNoDup(combos)
    requires ExtendFrom(p, combos, k).Success?
    ensures AllNoDup(ExtendFrom(p, combos, k).value)
  {
    if k > 0 {
      ExtendNoDup(p, combos, k - 1);
      StepOptNoDup(p.names[k - 1], p.opts[k - 1], combos);
      AllNoDupAppend(ExtendFrom(p, combos, k - 1).value, StepOpt(p.names[k - 1], p.opts[k - 1], combos).value);
    }
  }

  /** When no option binds a name twice, no generated combination binds a name twice. */
  lemma {:induction false} GenNoDup<V>(params: seq<Param<V>>, idx: nat, init: seq<Combo<V>>)
    requires idx <= |params| && ParamsNoDup(params) && AllNoDup(init)
    ensures AllNoDup(Gen(params, idx, init).lists)
    decreases |params| - idx
  {
    if idx == |params| {
      AllNoDupAppend(init, [Combo([], [])]);
    } else {
      GenNoDup(params, idx + 1, init);
      var rec := Gen(params, idx + 1, init);
      if rec.err.None? && ExtendFrom(params[idx], rec.lists, |params[idx].opts|).Success? {
        ExtendNoDup(params[idx], rec.lists, |params[idx].opts|);
      }
    }
  }

  // Every combination holds one candidate value per parameter, in parameter order.

  /** Each combination holds one candidate of each parameter from idx on. */
  ghost predicate Shaped<V>(combos: seq<Combo<V>>, params: seq<Param<V>>, idx: nat) {
    forall c :: c in combos ==>
      |c.args| == |params| - idx
      && forall k :: 0 <= k < |c.args| ==> idx + k < |params| && c.args[k] in params[idx + k].opts
  }

  lemma StepComboShaped<V>(params: seq<Param<V>>, idx: nat, names: VarNames, opt: V, c: Combo<V>)
    requires idx < |params| && opt in params[idx].opts && Shaped([c], params, idx + 1)
    requires StepCombo(names, opt, c).Success?
    ensures Shaped(StepCombo(names, opt, c).value, params, idx)
  {
    var args := [opt] + c.args;
    forall k | 0 <= k < |args| ensures idx + k < |params| && args[k] in params[idx + k].opts {
      if k > 0 {
        assert args[k] == c.args[k - 1];
      }
    }
  }

  lemma {:induction false} StepOptShaped<V>(params: seq<Param<V>>, idx: nat, names: VarNames, opt: V, combos: seq<Combo<V>>)
    requires idx < |params| && opt in params[idx].opts && Shaped(combos, params, idx + 1)
    requires StepOpt(names, opt, combos).Success?
    ensures Shaped(StepOpt(names, opt, combos).value, params, idx)
  {
    if combos != [] {
      var last := combos[|combos| - 1];
      StepOptShaped(params, idx, names, opt, combos[..|combos| - 1]);
      StepComboShaped(params, idx, names, opt, last);
    }
  }

  lemma {:induction false} ExtendShaped<V>(params: seq<Param<V>>, idx: nat, combos: seq<Combo<V>>, k: nat)
    requires idx < |params| && k <= |params[idx].opts| && Shaped(combos, params, idx + 1)
    requires ExtendFrom(params[idx], combos, k).Success?
    ensures Shaped(ExtendFrom(params[idx], combos, k).value, params, idx)
  {
    var p := params[idx];
    if k > 0 {
      ExtendShaped(params, idx, combos, k - 1);
      StepOptShaped(params, idx, p.names[k - 1], p.opts[k - 1], combos);
    }
  }

  /** Started from an empty list, every combination holds exactly one candidate per parameter. */
  lemma {:induction false} GenShaped<V>(params: seq<Param<V>>, idx: nat)
    requires idx <= |params|
    ensures Gen(params, idx, []).err.None? ==> Shaped(Gen(params, idx, []).lists, params, idx)
    decreases |params| - idx
  {
    if idx == |params| {
      assert Gen(params, idx, []).lists == [Combo([], [])];
    } else {
      GenShaped(params, idx + 1);
      var rec := Gen(params, idx + 1, []);
      if rec.err.None? && ExtendFrom(params[idx], rec.lists, |params[idx].opts|).Success? {
        ExtendShaped(params, idx, rec.lists, |params[idx].opts|);
      }
    }
  }

  // A combination is generated exactly when it takes one candidate per
  // parameter and its bindings come out of the merges.

  /**
   * What one step may make of a later combination c': the candidate is put
   * in front of the arguments, and the bindings are the merge, with the
   * variable of a ranged candidate bound to one of its values when the merge
   * left it unbound.
   */
  ghost predicate StepProduces<V>(names: VarNames, opt: V, c': Combo<V>, c: Combo<V>) {
    && c.args == [opt] + c'.args
    && match MergeSpec(names, c'.bindings)
       case Merged(m) =>
         if names.Ranged? && Var(names.name) !in NamesOf(m) then
           exists v :: v in names.vals && c.bindings == [Binding(Var(names.name), v)] + m
         else c.bindings == m
       case _ => false
  }

  /** The combinations for the parameters from idx on, one candidate (by position) per parameter. */
  ghost predicate Derivable<V(!new)>(params: seq<Param<V>>, idx: nat, c: Combo<V>)
    requires idx <= |params|
    decreases |params| - idx
  {
    if idx == |params| then c == Combo([], [])
    else exists j, c' ::
      (0 <= j < |params[idx].opts| && j < |params[idx].names|
       && Derivable(params, idx + 1, c') && StepProduces(params[idx].names[j], params[idx].opts[j], c', c))
  }

  lemma RangedCombosMembers<V>(name: string, vals: seq<int>, m: seq<Binding>, args: seq<V>, c: Combo<V>)
    ensures c in RangedCombos(name, vals, m, args) <==>
      c.args == args && exists v :: v in vals && c.bindings == [Binding(Var(name), v)] + m
  {
    var r := RangedCombos(name, vals, m, args);
    if c in r {
      var k :| 0 <= k < |r| && r[k] == c;
      assert vals[k] in vals;
    }
    if c.args == args && exists v :: v in vals && c.bindings == [Binding(Var(name), v)] + m {
      var v :| v in vals && c.bindings == [Binding(Var(name), v)] + m;
      var k :| 0 <= k < |vals| && vals[k] == v;
      assert r[k] == c;
    }
  }

  lemma StepComboMembers<V>(names: VarNames, opt: V, c': Combo<V>, c: Combo<V>)
    requires StepCombo(names, opt, c').Success?
    ensures c in StepCombo(names, opt, c').value <==> StepProduces(names, opt, c', c)
  {
    match MergeSpec(names, c'.bindings)
    case Merged(m) =>
      if names.Ranged? && Var(names.name) !in NamesOf(m) {
        RangedCombosMembers(names.name, names.vals, m, [opt] + c'.args, c);
      }
    case Conflict =>
    case Raises(_) =>
  }

  lemma {:induction false} StepOptMembers<V>(names: VarNames, opt: V, combos: seq<Combo<V>>, c: Combo<V>)
    requires StepOpt(names, opt, combos).Success?
    ensures c in StepOpt(names, opt, combos).value <==>
      exists i :: 0 <= i < |combos| && StepProduces(names, opt, combos[i], c)
  {
    if combos != [] {
      var init := combos[..|combos| - 1];
      var last := combos[|combos| - 1];
      StepOptMembers(names, opt, init, c);
      StepComboMembers(names, opt, last, c);
      if exists i :: 0 <= i < |combos| && StepProduces(names, opt, combos[i], c) {
        var i :| 0 <= i < |combos| && StepProduces(names, opt, combos[i], c);
        if i < |init| {
          assert init[i] == combos[i];
        }
      }
      if exists i :: 0 <= i < |init| && StepProduces(names, opt, init[i], c) {
        var i :| 0 <= i < |init| && StepProduces(names, opt, init[i], c);
        assert combos[i] == init[i];
      }
    }
  }

  lemma {:induction false} ExtendMembers<V>(p: Param<V>, combos: seq<Combo<V>>, k: nat, c: Combo<V>)
    requires k <= |p.opts| && ExtendFrom(p, combos, k).Success?
    ensures c in ExtendFrom(p, combos, k).value <==>
      exists j, i :: 0 <= j < k && j < |p.names| && 0 <= i < |combos| && StepProduces(p.names[j], p.opts[j], combos[i], c)
  {
    if k > 0 {
      ExtendMembers(p, combos, k - 1, c);
      StepOptMembers(p.names[k - 1], p.opts[k - 1], combos, c);
    }
  }

  /**
   * Started from an empty list and raising nothing, generate_arg_lists yields
   * exactly the combinations that take one candidate per parameter and whose
   * bindings every merge accepts.
   */
  lemma {:induction false} GenMembers<V(!new)>(params: seq<Param<V>>, idx: nat, c: Combo<V>)
    requires idx <= |params| && Gen(params, idx, []).err.None?
    ensures c in Gen(params, idx, []).lists <==> Derivable(params, idx, c)
    decreases |params| - idx
  {
    if idx < |params| {
      var p := params[idx];
      var rec := Gen(params, idx + 1, []);
      ExtendMembers(p, rec.lists, |p.opts|, c);
      if c in Gen(params, idx, []).lists {
        var j, i :| 0 <= j < |p.opts| && j < |p.names| && 0 <= i < |rec.lists| && StepProduces(p.names[j], p.opts[j], rec.lists[i], c);
        GenMembers(params, idx + 1, rec.lists[i]);
      }
      if Derivable(params, idx, c) {
        var j, c' :| 0 <= j < |p.opts| && j < |p.names| && Derivable(params, idx + 1, c') && StepProduces(p.names[j], p.opts[j], c', c);
        GenMembers(params, idx + 1, c');
        var i :| 0 <= i < |rec.lists| && rec.lists[i] == c';
      }
    }
  }

  // Without named variables the result is the full cartesian product.

  function Args<V>(combos: seq<Combo<V>>): (r: seq<seq<V>>)
    ensures |r| == |combos| && forall k :: 0 <= k < |combos| ==> r[k] == combos[k].args
  {
    seq(|combos|, k requires 0 <= k < |combos| => combos[k].args)
  }

  function PrependAll<V>(x: V, tails: seq<seq<V>>): (r: seq<seq<V>>)
    ensures |r| == |tails| && forall k :: 0 <= k < |tails| ==> r[k] == [x] + tails[k]
  {
    seq(|tails|, k requires 0 <= k < |tails| => [x] + tails[k])
  }

  /** Every x of xs, in order, before every tail, in order. */
  function Cross<V>(xs: seq<V>, tails: seq<seq<V>>): seq<seq<V>> {
    if xs == [] then [] else Cross(xs[..|xs| - 1], tails) + PrependAll(xs[|xs| - 1], tails)
  }

  /** The cartesian product, the first factor varying slowest. */
  function Product<V>(optss: seq<seq<V>>): seq<seq<V>> {
    if optss == [] then [[]] else Cross(optss[0], Product(optss[1..]))
  }

  function OptsFrom<V>(params: seq<Param<V>>, idx: nat): (r: seq<seq<V>>)
    requires idx <= |params|
    ensures |r| == |params| - idx && forall k :: 0 <= k < |r| ==> r[k] == params[idx + k].opts
  {
    seq(|params| - idx, k requires 0 <= k < |params| - idx => params[idx + k].opts)
  }

  /** Every option is a fixed binding tuple of unnamed bindings, one per candidate value. */
  predicate Unnamed<V>(params: seq<Param<V>>) {
    forall i :: 0 <= i < |params| ==> UnnamedParam(params[i])
  }

  predicate UnnamedParam<V>(p: Param<V>) {
    && |p.names| == |p.opts|
    && forall j :: 0 <= j < |p.names| ==> p.names[j].Fixed? && UnnamedBindings(p.names[j].bindings)
  }

  predicate UnnamedBindings(bs: seq<Binding>) {
    forall k :: 0 <= k < |bs| ==> !Named(bs[k].name)
  }

  lemma ArgsAppend<V>(a: seq<Combo<V>>, b: seq<Combo<V>>)
    ensures Args(a + b) == Args(a) + Args(b)
  {
  }

  lemma {:induction false} StepOptUnnamed<V>(bs: seq<Binding>, opt: V, combos: seq<Combo<V>>)
    requires UnnamedBindings(bs)
    ensures StepOpt(Fixed(bs), opt, combos).Success?
    ensures Args(StepOpt(Fixed(bs), opt, combos).value) == PrependAll(opt, Args(combos))
  {
    if combos != [] {
      var init := combos[..|combos| - 1];
      var last := combos[|combos| - 1];
      StepOptUnnamed(bs, opt, init);
      UnnamedMerge(bs, last.bindings);
      var a := StepOpt(Fixed(bs), opt, init).value;
      var b := StepCombo(Fixed(bs), opt, last).value;
      ArgsAppend(a, b);
      assert Args(combos) == Args(init) + [last.args];
    }
  }

  lemma {:induction false} ExtendUnnamed<V>(params: seq<Param<V>>, i: int, combos: seq<Combo<V>>, k: nat)
    requires Unnamed(params) && 0 <= i < |params| && k <= |params[i].opts|
    ensures ExtendFrom(params[i], combos, k).Success?
    ensures Args(ExtendFrom(params[i], combos, k).value) == Cross(params[i].opts[..k], Args(combos))
  {
    var p := params[i];
    if k > 0 {
      ExtendUnnamed(params, i, combos, k - 1);
      StepOptUnnamed(p.names[k - 1].bindings, p.opts[k - 1], combos);
      ArgsAppend(ExtendFrom(p, combos, k - 1).value, StepOpt(p.names[k - 1], p.opts[k - 1], combos).value);
      assert p.opts[..k][..k - 1] == p.opts[..k - 1];
    }
  }

  /**
   * With no named variable, generate_arg_lists started from an empty list
   * raises nothing and yields the full cartesian product, in parameter
   * order, the first parameter varying slowest.
   */
  lemma {:induction false} GenCartesian<V>(params: seq<Param<V>>, idx: nat)
    requires Unnamed(params) && idx <= |params|
    ensures Gen(params, idx, []).err.None?
    ensures Args(Gen(params, idx, []).lists) == Product(OptsFrom(params, idx))
    decreases |params| - idx
  {
    if idx == |params| {
      assert OptsFrom(params, idx) == [];
    } else {
      GenCartesian(params, idx + 1);
      var rec := Gen(params, idx + 1, []);
      var p := params[idx];
      ExtendUnnamed(params, idx, rec.lists, |p.opts|);
      var ext := ExtendFrom(p, rec.lists, |p.opts|);
      assert Gen(params, idx, []) == GenOut(None, ext.value);
      assert p.opts[..|p.opts|] == p.opts;
      var optss := OptsFrom(params, idx);
      assert optss[1..] == OptsFrom(params, idx + 1);
      assert Product(optss) == Cross(p.opts, Product(OptsFrom(params, idx + 1)));
    }
  }

  lemma CrossTwo<V>(a: V, b: V, tails: seq<seq<V>>)
    ensures Cross([a, b], tails) == PrependAll(a, tails) + PrependAll(b, tails)
  {
    assert [a, b][..1] == [a];
    assert [a][..0] == [];
    assert Cross([a], tails) == PrependAll(a, tails);
  }

  /** The docstring's example: [[1, 2], [3, 4]] gives (1, 3), (1, 4), (2, 3), (2, 4). */
  lemma DocstringExample()
    ensures var params := [Param([Fixed([]), Fixed([])], [1, 2]), Param([Fixed([]), Fixed([])], [3, 4])];
      Args(Gen(params, 0, []).lists) == [[1, 3], [1, 4], [2, 3], [2, 4]]
  {
    var params := [Param([Fixed([]), Fixed([])], [1, 2]), Param([Fixed([]), Fixed([])], [3, 4])];
    GenCartesian(params, 0);
    assert OptsFrom(params, 0) == [[1, 2], [3, 4]];
    ProductExample();
  }

  lemma ProductExample()
    ensures Product([[1, 2], [3, 4]]) == [[1, 3], [1, 4], [2, 3], [2, 4]]
  {
    assert [[1, 2], [3, 4]][1..] == [[3, 4]];
    assert Product([[3, 4]]) == [[3], [4]] by {
      assert [[3, 4]][1..] == [];
      CrossTwo(3, 4, [[]]);
      assert PrependAll(3, [[]])[0] == [3];
      assert PrependAll(4, [[]])[0] == [4];
    }
    CrossTwo(1, 2, [[3], [4]]);
    assert PrependAll(1, [[3], [4]])[0] == [1, 3] && PrependAll(1, [[3], [4]])[1] == [1, 4];
    assert PrependAll(2, [[3], [4]])[0] == [2, 3] && PrependAll(2, [[3], [4]])[1] == [2, 4];
  }
}
