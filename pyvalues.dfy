// The values the test-value generator handles while it works: the hashable
// form in which every container is a tuple. A generated list is the pair
// ("list", elements), a dict is ("dict", ((keys, values),)), a class
// instance is the tuple of its fields.
module PyValues {

  datatype Py = PNone | PBool(b: bool) | PInt(i: int) | PStr(s: string) | PTuple(elems: seq<Py>)

  /** The container form (typestr, elements). */
  function Tagged(kind: string, elems: seq<Py>): Py {
    PTuple([PStr(kind), PTuple(elems)])
  }

  /** The dict form ("dict", ((keys, values),)). */
  function DictTagged(keys: seq<Py>, vals: seq<Py>): Py {
    PTuple([PStr("dict"), PTuple([PTuple([PTuple(keys), PTuple(vals)])])])
  }

  function Rank(a: Py): int {
    match a
    case PNone => 0
    case PBool(_) => 1
    case PInt(_) => 2
    case PStr(_) => 3
    case PTuple(_) => 4
  }

  function Sign(d: int): int {
    if d < 0 then -1 else if d > 0 then 1 else 0
  }

  /** Lexicographic comparison of character strings. */
  function CmpStr(x: string, y: string): int
  {
    if x == [] then (if y == [] then 0 else -1)
    else if y == [] then 1
    else if x[0] != y[0] then Sign(x[0] as int - y[0] as int)
    else CmpStr(x[1..], y[1..])
  }

  /**
   * Three-way comparison: values of one kind compare as Python compares
   * them (numbers by value, strings and tuples lexicographically); values of
   * different kinds compare by kind.
   */
  function Cmp(a: Py, b: Py): int
    decreases a, 1, 0
  {
    if Rank(a) != Rank(b) then Sign(Rank(a) - Rank(b))
    else match a
      case PNone => 0
      case PBool(x) => Sign((if x then 1 else 0) - (if b.b then 1 else 0))
      case PInt(x) => Sign(x - b.i)
      case PStr(x) => CmpStr(x, b.s)
      case PTuple(xs) => CmpSeqFrom(xs, b.elems, 0)
  }

  /** Lexicographic comparison of xs[k..] and ys[k..]. */
  function CmpSeqFrom(xs: seq<Py>, ys: seq<Py>, k: nat): int
    decreases PTuple(xs), 0, |xs| - k
  {
    if k >= |xs| then (if k >= |ys| then 0 else -1)
    else if k >= |ys| then 1
    else
      var c := Cmp(xs[k], ys[k]);
      if c != 0 then c else CmpSeqFrom(xs, ys, k + 1)
  }

  predicate Less(a: Py, b: Py) { Cmp(a, b) < 0 }
  predicate LessEq(a: Py, b: Py) { Cmp(a, b) <= 0 }

  /** Non-decreasing: every element is at least its predecessor. */
  predicate NonDecreasing(s: seq<Py>) {
    forall i :: 0 < i < |s| ==> LessEq(s[i - 1], s[i])
  }

  /** Strictly increasing: every element is greater than its predecessor. */
  predicate Increasing(s: seq<Py>) {
    forall i :: 0 < i < |s| ==> Less(s[i - 1], s[i])
  }

  predicate Distinct(s: seq<Py>) {
    forall i, j :: 0 <= i < j < |s| ==> s[i] != s[j]
  }

  lemma {:induction false} CmpStrFacts(x: string, y: string)
    ensures CmpStr(x, y) in {-1, 0, 1}
    ensures CmpStr(x, y) == -CmpStr(y, x)
    ensures CmpStr(x, y) == 0 <==> x == y
  {
    if x != [] && y != [] {
      if x[0] == y[0] {
        CmpStrFacts(x[1..], y[1..]);
        if x[1..] == y[1..] {
          assert x == [x[0]] + x[1..] && y == [y[0]] + y[1..];
        }
      }
    }
  }

  lemma {:induction false} CmpStrTrans(x: string, y: string, z: string)
    requires CmpStr(x, y) <= 0 && CmpStr(y, z) <= 0
    ensures CmpStr(x, z) <= 0
    ensures CmpStr(x, y) < 0 || CmpStr(y, z) < 0 ==> CmpStr(x, z) < 0
  {
    CmpStrFacts(x, y);
    CmpStrFacts(y, z);
    CmpStrFacts(x, z);
    if x != [] && y != [] && z != [] && x[0] == y[0] && y[0] == z[0] {
      CmpStrTrans(x[1..], y[1..], z[1..]);
    }
  }

  /** Cmp is a three-way comparison: antisymmetric, and zero exactly on equal values. */
  lemma {:induction false} CmpFacts(a: Py, b: Py)
    ensures Cmp(a, b) in {-1, 0, 1}
    ensures Cmp(a, b) == -Cmp(b, a)
    ensures Cmp(a, b) == 0 <==> a == b
    decreases a, 1, 0
  {
    if Rank(a) == Rank(b) {
      match a
      case PNone =>
      case PBool(_) =>
      case PInt(_) =>
      case PStr(x) => CmpStrFacts(x, b.s);
      case PTuple(xs) =>
        CmpSeqFacts(xs, b.elems, 0);
        if CmpSeqFrom(xs, b.elems, 0) == 0 {
          assert xs[0..] == xs && b.elems[0..] == b.elems;
        }
    }
  }

  lemma {:induction false} CmpSeqFacts(xs: seq<Py>, ys: seq<Py>, k: nat)
    ensures CmpSeqFrom(xs, ys, k) in {-1, 0, 1}
    ensures CmpSeqFrom(xs, ys, k) == -CmpSeqFrom(ys, xs, k)
    ensures k <= |xs| && k <= |ys| ==> (CmpSeqFrom(xs, ys, k) == 0 <==> xs[k..] == ys[k..])
    decreases PTuple(xs), 0, |xs| - k
  {
    if k < |xs| && k < |ys| {
      CmpFacts(xs[k], ys[k]);
      if xs[k] == ys[k] {
        CmpSeqFacts(xs, ys, k + 1);
        assert xs[k..] == [xs[k]] + xs[k + 1..] && ys[k..] == [ys[k]] + ys[k + 1..];
      } else {
        assert xs[k..][0] != ys[k..][0];
      }
    } else if k < |xs| {
      assert xs[k..] != [];
    } else if k < |ys| {
      assert ys[k..] != [];
    }
  }

  /** Cmp orders values transitively. */
  lemma {:induction false} CmpTrans(a: Py, b: Py, c: Py)
    requires Cmp(a, b) <= 0 && Cmp(b, c) <= 0
    ensures Cmp(a, c) <= 0
    ensures Cmp(a, b) < 0 || Cmp(b, c) < 0 ==> Cmp(a, c) < 0
    decreases a, 1, 0
  {
    CmpFacts(a, b);
    CmpFacts(b, c);
    CmpFacts(a, c);
    if Rank(a) == Rank(b) && Rank(b) == Rank(c) {
      match a
      case PNone =>
      case PBool(_) =>
      case PInt(_) =>
      case PStr(x) => CmpStrTrans(x, b.s, c.s);
      case PTuple(xs) => CmpSeqTrans(xs, b.elems, c.elems, 0);
    }
  }

  lemma {:induction false} CmpSeqTrans(xs: seq<Py>, ys: seq<Py>, zs: seq<Py>, k: nat)
    requires CmpSeqFrom(xs, ys, k) <= 0 && CmpSeqFrom(ys, zs, k) <= 0
    ensures CmpSeqFrom(xs, zs, k) <= 0
    ensures CmpSeqFrom(xs, ys, k) < 0 || CmpSeqFrom(ys, zs, k) < 0 ==> CmpSeqFrom(xs, zs, k) < 0
    decreases PTuple(xs), 0, |xs| - k
  {
    if k < |xs| && k < |ys| && k < |zs| {
      CmpFacts(xs[k], ys[k]);
      CmpFacts(ys[k], zs[k]);
      CmpFacts(xs[k], zs[k]);
      CmpTrans(xs[k], ys[k], zs[k]);
      if xs[k] == ys[k] && ys[k] == zs[k] {
        CmpSeqTrans(xs, ys, zs, k + 1);
      }
    }
  }

  /** A strictly increasing sequence has no repeated element. */
  lemma IncreasingDistinct(s: seq<Py>)
    requires Increasing(s)
    ensures Distinct(s)
    ensures NonDecreasing(s)
  {
    forall i, j | 0 <= i < j < |s| ensures Less(s[i], s[j]) {
      IncreasingFrom(s, i, j);
    }
    forall i, j | 0 <= i < j < |s| ensures s[i] != s[j] {
      assert Less(s[i], s[j]);
      CmpFacts(s[i], s[j]);
    }
  }

  lemma {:induction false} IncreasingFrom(s: seq<Py>, i: int, j: int)
    requires Increasing(s) && 0 <= i < j < |s|
    ensures Less(s[i], s[j])
    decreases j - i
  {
    if j > i + 1 {
      IncreasingFrom(s, i, j - 1);
      CmpTrans(s[i], s[j - 1], s[j]);
    }
  }
}
