// VAR_LOOKUP, IS_RANGE and POSSIBLE_VARNAMES: how a parameter's domain
// names a configuration variable, and the bindings each candidate value of
// the parameter then carries.
module VarLookup {
  import opened Wrappers
  import opened PyStrings
  import opened Bindings

  /** A domain as the configuration gives it: a string naming variables, or already a list of values. */
  datatype Domain = DVar(text: string) | DRange(vals: seq<int>)

  datatype Role = StartRole | EndRole

  /** No variable, a whole-domain variable, or a variable used as the start or end of a range. */
  datatype VarName = NoVar | Whole(name: string) | Endpoint(role: Role, name: string)

  datatype Lookup = Lookup(varname: VarName, varrange: Option<seq<int>>, vals: seq<int>)

  /** xrange(lo, hi) */
  function IntRange(lo: int, hi: int): (r: seq<int>)
    ensures |r| == (if hi > lo then hi - lo else 0)
    ensures forall k :: 0 <= k < |r| ==> r[k] == lo + k
  {
    if hi <= lo then [] else seq(hi - lo, k requires 0 <= k < hi - lo => lo + k)
  }

  lemma IntRangeMembers(lo: int, hi: int)
    ensures forall x :: x in IntRange(lo, hi) <==> lo <= x < hi
  {
    var r := IntRange(lo, hi);
    forall x | lo <= x < hi ensures x in r {
      assert r[x - lo] == x;
    }
  }

  /**
   * VAR_LOOKUP. A string domain holding a '-' is a range with one variable
   * endpoint: the try block reads "lo-v" (lo an integer literal) as the end
   * role and the range lo..last value of v; anything it cannot read falls
   * to the except block, which reads "v-hi" as the start role and the range
   * first value of v..hi. When lo parsed, the except block looks the parsed
   * integer up among the variables, which never holds it: KeyError.
   */
  function VarLookup(d: Domain, variables: map<string, seq<int>>): (r: Result<Lookup>)
    ensures d.DRange? ==> r == Success(Lookup(NoVar, None, d.vals))
    ensures r.Success? && d.DVar? ==> r.value.varname != NoVar
    ensures r.Success? && r.value.varname != NoVar ==>
      var v := r.value.varname.name;
      v in variables && r.value.varrange == Some(variables[v])
    ensures r.Success? && r.value.varname.Endpoint? ==> variables[r.value.varname.name] != []
  {
    match d
    case DRange(vals) => Success(Lookup(NoVar, None, vals))
    case DVar(text) =>
      if '-' in text then
        var parts := Split(text, '-');
        if |parts| != 2 then Failure("ValueError")
        else LookupEndpoint(Strip(parts[0]), Strip(parts[1]), variables)
      else if text in variables then Success(Lookup(Whole(text), Some(variables[text]), variables[text]))
      else Failure("KeyError")
  }

  /** The try and except blocks of VAR_LOOKUP on the stripped parts "lo" and "hi" of a range. */
  function LookupEndpoint(lo: string, hi: string, variables: map<string, seq<int>>): (r: Result<Lookup>)
    ensures r.Success? ==> r.value.varname.Endpoint?
    ensures r.Success? ==>
      var v := r.value.varname.name;
      v in variables && variables[v] != [] && r.value.varrange == Some(variables[v])
  {
    match ParseInt(lo)
    case Some(l) =>
      if hi in variables && variables[hi] != [] then
        var v := variables[hi];
        Success(Lookup(Endpoint(EndRole, hi), Some(v), IntRange(l, v[|v| - 1] + 1)))
      else Failure("KeyError")
    case None =>
      if lo !in variables then Failure("KeyError")
      else match ParseInt(hi)
        case None => Failure("ValueError")
        case Some(h) =>
          var v := variables[lo];
          if v == [] then Failure("IndexError")
          else Success(Lookup(Endpoint(StartRole, lo), Some(v), IntRange(v[0], h + 1)))
  }

  /** A range domain "a-b" with plain parts reaches the endpoint lookup on a and b. */
  lemma RangeDomain(a: string, b: string, variables: map<string, seq<int>>)
    requires PlainName(a) && PlainName(b)
    ensures VarLookup(DVar(a + "-" + b), variables) == LookupEndpoint(a, b, variables)
  {
    var s := a + "-" + b;
    SplitTwo(a, b, '-');
    assert '-' in s by { assert s[|a|] == '-'; }
    StripUnchanged(a);
    StripUnchanged(b);
  }

  /** A name with no '-' that is its own strip(). */
  predicate PlainName(v: string) {
    '-' !in v && (v == [] || (!IsSpace(v[0]) && !IsSpace(v[|v| - 1])))
  }

  lemma {:induction false} SplitTwo(a: string, b: string, sep: char)
    requires sep !in a && sep !in b
    ensures Split(a + [sep] + b, sep) == [a, b]
  {
    if a == [] {
      assert a + [sep] + b == [sep] + b;
      assert ([sep] + b)[1..] == b;
      SplitNone(b, sep);
    } else {
      assert (a + [sep] + b)[1..] == a[1..] + [sep] + b;
      SplitTwo(a[1..], b, sep);
      assert [a[0]] + a[1..] == a;
    }
  }

  lemma {:induction false} SplitNone(s: string, sep: char)
    requires sep !in s
    ensures Split(s, sep) == [s]
  {
    if s != [] {
      SplitNone(s[1..], sep);
      assert [s[0]] + s[1..] == s;
    }
  }

  lemma NatToStringPlain(n: nat)
    ensures PlainName(NatToString(n))
  {
    var s := NatToString(n);
    forall i | 0 <= i < |s| ensures s[i] != '-' {
      assert IsDigit(s[i]);
    }
  }

  /** A bare variable name looks up the whole variable: its name, its range and its values. */
  lemma LookupWhole(v: string, variables: map<string, seq<int>>)
    requires '-' !in v
    ensures v in variables ==> VarLookup(DVar(v), variables) == Success(Lookup(Whole(v), Some(variables[v]), variables[v]))
    ensures v !in variables ==> VarLookup(DVar(v), variables) == Failure("KeyError")
  {
  }

  /** "lo-v" with lo a natural number: v ends the range, which runs from lo to v's last value. */
  lemma LookupEnd(lo: nat, v: string, variables: map<string, seq<int>>)
    requires PlainName(v) && v in variables && variables[v] != []
    ensures var vs := variables[v];
      VarLookup(DVar(NatToString(lo) + "-" + v), variables)
        == Success(Lookup(Endpoint(EndRole, v), Some(vs), IntRange(lo, vs[|vs| - 1] + 1)))
  {
    NatToStringPlain(lo);
    RangeDomain(NatToString(lo), v, variables);
    ParseIntToString(lo);
    assert IntToString(lo) == NatToString(lo);
  }

  /** "v-hi" with v not an integer: v starts the range, which runs from v's first value to hi. */
  lemma LookupStart(v: string, hi: nat, variables: map<string, seq<int>>)
    requires PlainName(v) && ParseInt(v).None? && v in variables && variables[v] != []
    ensures VarLookup(DVar(v + "-" + NatToString(hi)), variables)
      == Success(Lookup(Endpoint(StartRole, v), Some(variables[v]), IntRange(variables[v][0], hi + 1)))
  {
    NatToStringPlain(hi);
    RangeDomain(v, NatToString(hi), variables);
    ParseIntToString(hi);
    assert IntToString(hi) == NatToString(hi);
  }

  /** An end variable's values run upward: the range then ends at the variable's largest value. */
  lemma LookupEndOfRange(lo: nat, v: string, a: int, b: int, variables: map<string, seq<int>>)
    requires PlainName(v) && v in variables && variables[v] == IntRange(a, b) && a < b
    ensures VarLookup(DVar(NatToString(lo) + "-" + v), variables)
      == Success(Lookup(Endpoint(EndRole, v), Some(IntRange(a, b)), IntRange(lo, b)))
  {
    var vs := IntRange(a, b);
    assert |vs| == b - a && vs[|vs| - 1] == b - 1;
    LookupEnd(lo, v, variables);
  }

  /** "lo-v" with a negative lo has a second '-' and is refused. */
  lemma LookupNegativeStart(lo: int, v: string, variables: map<string, seq<int>>)
    requires lo < 0 && PlainName(v)
    ensures VarLookup(DVar(IntToString(lo) + "-" + v), variables) == Failure("ValueError")
  {
    var p := NatToString(-lo);
    NatToStringPlain(-lo);
    var s := IntToString(lo) + "-" + v;
    assert s == [] + ['-'] + (p + "-" + v);
    SplitTwo(p, v, '-');
    assert s[0] == '-';
    assert Split(s, '-') == [""] + Split(s[1..], '-') by {
      assert s[1..] == p + "-" + v;
    }
  }

  /** IS_RANGE: the variable is a start or an end role. */
  predicate IsRange(v: VarName) {
    v.Endpoint?
  }

  /** filter(lambda x: x <= bound, vals) when atMost, else filter(lambda x: x >= bound, vals). */
  function Keep(vals: seq<int>, atMost: bool, bound: int): (r: seq<int>)
    ensures |r| <= |vals|
    ensures forall x :: x in r <==> x in vals && (if atMost then x <= bound else x >= bound)
  {
    if vals == [] then []
    else
      var x := vals[|vals| - 1];
      Keep(vals[..|vals| - 1], atMost, bound) + (if (if atMost then x <= bound else x >= bound) then [x] else [])
  }

  /** The name a variable binds: None when no variable governs. */
  function BaseName(v: VarName): Name {
    if v.NoVar? then Wild else Var(v.name)
  }

  /**
   * POSSIBLE_VARNAMES: one binding option per candidate argument. An
   * absolute variable binds exactly f(arg); a start variable may take any of
   * its values up to f(arg), an end variable any of its values from f(arg).
   */
  function PossibleVarnames<T>(v: VarName, varrange: seq<int>, args: seq<T>, f: T -> int): (r: seq<VarNames>)
    ensures |r| == |args|
    ensures !IsRange(v) ==> forall i :: 0 <= i < |args| ==> r[i] == Fixed([Binding(BaseName(v), f(args[i]))])
    ensures IsRange(v) ==> forall i :: 0 <= i < |args| ==>
      r[i].Ranged? && r[i].name == v.name
      && forall x :: x in r[i].vals <==> x in varrange && (if v.role == StartRole then x <= f(args[i]) else x >= f(args[i]))
  {
    if !v.Endpoint? then seq(|args|, i requires 0 <= i < |args| => Fixed([Binding(BaseName(v), f(args[i]))]))
    else seq(|args|, i requires 0 <= i < |args| => Ranged(v.name, Keep(varrange, v.role == StartRole, f(args[i]))))
  }

  /** A range-role option of a value keeps at least the values on the right side of it. */
  lemma RangedOptionsShrink<T>(v: VarName, varrange: seq<int>, args: seq<T>, f: T -> int, i: int, j: int)
    requires IsRange(v) && 0 <= i < |args| && 0 <= j < |args|
    requires if v.role == StartRole then f(args[i]) <= f(args[j]) else f(args[i]) >= f(args[j])
    ensures forall x :: x in PossibleVarnames(v, varrange, args, f)[i].vals ==> x in PossibleVarnames(v, varrange, args, f)[j].vals
  {
  }
}
