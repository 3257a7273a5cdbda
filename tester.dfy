// Bookkeeping of the submission tester: the base test set is indexed, every submission
// is run on all of it, and the cases each submission fails and the
// submissions each case catches are recorded in two index tables, beside
// the sets of correct, wrong and removed submissions.
//
// Running code (the reference solution, a submission, the subprocess and
// its timeout) is not modelled: what a run produced comes in as a
// parameter, and deep equality is the one of module DeepEqual.
module Tester {
  import opened Wrappers
  import DeepEqual

  type Value = DeepEqual.Value

  /**
   * Whether a submission passes one case: its run returned a value (None
   * when it raised), and that value is deep-equal to the reference result
   * under the default strict typing. An exception of deep_equal itself is
   * caught like one of the submission.
   */
  predicate CaseCorrect(refResult: Value, run: Option<Value>) {
    run.Some? && DeepEqual.DeepEqual(refResult, run.value, DeepEqual.StrictBool(true)) == Success(true)
  }

  /** The indices of the cases a submission fails. */
  function Failed<C>(caseMap: map<nat, C>, results: map<nat, Value>, run: nat -> Option<Value>): set<nat>
    requires caseMap.Keys <= results.Keys
  {
    set ind | ind in caseMap && !CaseCorrect(results[ind], run(ind))
  }

  /** The elements of a list, as a set. */
  function Elems(s: seq<nat>): set<nat> {
    set j | 0 <= j < |s| :: s[j]
  }

  lemma ElemsSnoc(s: seq<nat>, k: nat)
    requires k < |s|
    ensures Elems(s[..k + 1]) == Elems(s[..k]) + {s[k]}
  {
    assert s[..k + 1] == s[..k] + [s[k]];
  }

  lemma UpdateUnchanged(m: map<nat, set<nat>>, key: nat, a: set<nat>)
    requires key in m && a == m[key]
    ensures m[key := a] == m
  {
    assert m[key := a].Keys == m.Keys;
  }

  lemma UpdateTwice(m: map<nat, set<nat>>, key: nat, a: set<nat>, b: set<nat>)
    ensures m[key := a][key := b] == m[key := b]
  {
    assert m[key := a][key := b].Keys == m[key := b].Keys;
  }

  /** Adds `x` to the set under `key`, creating the set if absent. */
  function AddTo(m: map<nat, set<nat>>, key: nat, x: nat): (r: map<nat, set<nat>>)
    ensures r.Keys == m.Keys + {key}
    ensures r[key] == (if key in m then m[key] else {}) + {x}
    ensures forall k :: k in m && k != key ==> r[k] == m[k]
  {
    m[key := (if key in m then m[key] else {}) + {x}]
  }

  /** case_file after `findex` was added under every case of `w`. */
  function AddFailures(caseFile: map<nat, set<nat>>, w: set<nat>, findex: nat): map<nat, set<nat>> {
    map ind | ind in caseFile.Keys + w ::
      (if ind in caseFile then caseFile[ind] else {}) + (if ind in w then {findex} else {})
  }

  lemma AddFailuresNone(caseFile: map<nat, set<nat>>, findex: nat)
    ensures AddFailures(caseFile, {}, findex) == caseFile
  {
    var a := AddFailures(caseFile, {}, findex);
    assert a.Keys == caseFile.Keys;
    forall k | k in a ensures a[k] == caseFile[k] {
    }
  }

  lemma AddFailuresStep(caseFile: map<nat, set<nat>>, w: set<nat>, findex: nat, ind: nat)
    ensures AddTo(AddFailures(caseFile, w, findex), ind, findex) == AddFailures(caseFile, w + {ind}, findex)
  {
    var a := AddTo(AddFailures(caseFile, w, findex), ind, findex);
    var b := AddFailures(caseFile, w + {ind}, findex);
    assert a.Keys == b.Keys;
    forall k | k in a ensures a[k] == b[k] {
    }
  }

  /** What a run of the reference solution on one case did. */
  datatype RefRun = Returned(value: Value) | TimedOut | Raised

  /** The first of the first n cases whose reference run raised, or n when none did. */
  function RefStop(refRun: nat -> RefRun, n: nat): (k: nat)
    ensures k <= n
    ensures forall i: nat :: i < k ==> !refRun(i).Raised?
    ensures k < n ==> refRun(k).Raised?
  {
    if n == 0 then 0
    else
      var k := RefStop(refRun, n - 1);
      if k < n - 1 || refRun(n - 1).Raised? then k else n
  }

  /** The first raising run is the one no earlier run precedes. */
  lemma RefStopAt(refRun: nat -> RefRun, n: nat, ind: nat)
    requires ind <= n && forall i: nat :: i < ind ==> !refRun(i).Raised?
    requires ind < n ==> refRun(ind).Raised?
    ensures RefStop(refRun, n) == ind
  {
  }

  /** The tables and sets a run of the tests updates. */
  datatype Books = Books(
    caseFile: map<nat, set<nat>>,
    fileCase: map<nat, set<nat>>,
    wrongSet: set<nat>,
    correctSet: set<nat>,
    removeSet: set<string>)

  const NoBooks := Books(map[], map[], {}, {}, {})

  /**
   * Whether test_fast never returns: the subprocess dies of a KeyError on a
   * case with no reference result, and the parent waits on an empty queue.
   */
  predicate Blocks<C>(caseMap: map<nat, C>, results: map<nat, Value>, hasFunction: bool, timedOut: bool) {
    hasFunction && !timedOut && !(caseMap.Keys <= results.Keys)
  }

  /**
   * test_fast on the books `b`, for the submission `fname`, numbered
   * `findex`: whether it defines the function under test, whether its run
   * timed out, and what each case's run returned. On a block, the books as
   * they were when the parent started waiting.
   */
  function AfterTest<C>(b: Books, caseMap: map<nat, C>, results: map<nat, Value>, fname: string, findex: nat,
                        hasFunction: bool, timedOut: bool, run: nat -> Option<Value>): Books
  {
    if !hasFunction then b.(removeSet := b.removeSet + {fname})
    else if timedOut then b.(fileCase := b.fileCase[findex := {}], removeSet := b.removeSet + {fname})
    else if !(caseMap.Keys <= results.Keys) then b.(fileCase := b.fileCase[findex := {}])
    else
      var w := Failed(caseMap, results, run);
      b.(fileCase := b.fileCase[findex := w],
         caseFile := AddFailures(b.caseFile, w, findex),
         wrongSet := if w != {} then b.wrongSet + {findex} else b.wrongSet,
         correctSet := if w == {} then b.correctSet + {findex} else b.correctSet)
  }

  /**
   * test_helper_fast: the subprocess's loop over the cases, in the order
   * the case table lists its keys (any order here); a case with no
   * reference result raises KeyError.
   */
  method TestHelperFast<C>(caseMap: map<nat, C>, results: map<nat, Value>, run: nat -> Option<Value>)
    returns (r: Result<(seq<nat>, bool)>)
    ensures r.Failure? <==> !(caseMap.Keys <= results.Keys)
    ensures r.Failure? ==> r.error == "KeyError"
    ensures r.Success? ==>
      && Elems(r.value.0) == Failed(caseMap, results, run)
      && (forall i, j :: 0 <= i < j < |r.value.0| ==> r.value.0[i] != r.value.0[j])
      && (r.value.1 <==> r.value.0 == [])
  {
    var testFlag := true;
    var todo := caseMap.Keys;
    var wronginds: seq<nat> := [];
    while todo != {}
      invariant todo <= caseMap.Keys
      invariant caseMap.Keys - todo <= results.Keys
      invariant forall ind :: ind in wronginds <==>
        ind in caseMap && ind !in todo && !CaseCorrect(results[ind], run(ind))
      invariant forall i, j :: 0 <= i < j < |wronginds| ==> wronginds[i] != wronginds[j]
      invariant testFlag <==> wronginds == []
      decreases |todo|
    {
      var ind :| ind in todo;
      if ind !in results {
        return Failure("KeyError");
      }
      if !CaseCorrect(results[ind], run(ind)) {
        wronginds := wronginds + [ind];
        testFlag := false;
      }
      todo := todo - {ind};
    }
    assert Elems(wronginds) == Failed(caseMap, results, run) by {
      forall ind | ind in Failed(caseMap, results, run) ensures ind in Elems(wronginds) {
        assert ind in wronginds;
      }
    }
    r := Success((wronginds, testFlag));
  }

  /** The Tester object. */
  class Tester<C> {
    var baseSet: seq<C>
    var results: map<nat, Value>
    var caseMap: map<nat, C>
    var caseFile: map<nat, set<nat>>
    var fileCase: map<nat, set<nat>>
    var wrongSet: set<nat>
    var correctSet: set<nat>
    var removeSet: set<string>

    function Ledger(): Books
      reads this
    {
      Books(caseFile, fileCase, wrongSet, correctSet, removeSet)
    }

    constructor (testSet: seq<C>)
      ensures baseSet == testSet && results == map[] && Ledger() == NoBooks
      ensures caseMap == map i | 0 <= i < |testSet| :: testSet[i]
    {
      baseSet := testSet;
      results := map[];
      caseFile := map[];
      fileCase := map[];
      wrongSet := {};
      correctSet := {};
      removeSet := {};
      caseMap := map[];
      new;
      CreateCaseMap();
    }

    /** create_case_map: every case under its position in the base set, and nothing else. */
    method CreateCaseMap()
      modifies this
      ensures forall i: nat :: i in caseMap <==> i < |baseSet|
      ensures forall i :: 0 <= i < |baseSet| ==> caseMap[i] == baseSet[i]
      ensures caseMap == map i | 0 <= i < |baseSet| :: baseSet[i]
      ensures baseSet == old(baseSet) && results == old(results) && Ledger() == old(Ledger())
    {
      caseMap := map[];
      var ind := 0;
      while ind < |baseSet|
        invariant ind <= |baseSet|
        invariant caseMap == map i | 0 <= i < ind :: baseSet[i]
        invariant baseSet == old(baseSet) && results == old(results) && Ledger() == old(Ledger())
      {
        caseMap := caseMap[ind := baseSet[ind]];
        ind := ind + 1;
      }
    }

    /**
     * solution_results: the reference results of the cases, in order. A run
     * that timed out leaves its case without a result; a run that raised (or
     * found no such function) puts nothing on the queue, so the parent waits
     * on it forever: `blocked`, with the results recorded before that case.
     */
    method SolutionResults(refRun: nat -> RefRun) returns (blocked: bool)
      modifies this
      ensures blocked <==> RefStop(refRun, |baseSet|) < |baseSet|
      ensures forall ind: nat :: ind in results <==>
        ind in old(results) || (ind < RefStop(refRun, |baseSet|) && refRun(ind).Returned?)
      ensures forall ind :: ind in results ==>
        results[ind] == if ind < RefStop(refRun, |baseSet|) && refRun(ind).Returned? then refRun(ind).value else old(results)[ind]
      ensures baseSet == old(baseSet) && caseMap == old(caseMap) && Ledger() == old(Ledger())
    {
      var ind := 0;
      while ind < |baseSet|
        invariant ind <= |baseSet|
        invariant forall i: nat :: i < ind ==> !refRun(i).Raised?
        invariant forall i: nat :: i in results <==> i in old(results) || (i < ind && refRun(i).Returned?)
        invariant forall i :: i in results ==>
          results[i] == if i < ind && refRun(i).Returned? then refRun(i).value else old(results)[i]
        invariant baseSet == old(baseSet) && caseMap == old(caseMap) && Ledger() == old(Ledger())
      {
        match refRun(ind) {
          case Raised =>
            RefStopAt(refRun, |baseSet|, ind);
            return true;
          case TimedOut =>
          case Returned(v) =>
            results := results[ind := v];
        }
        ind := ind + 1;
      }
      RefStopAt(refRun, |baseSet|, ind);
      return false;
    }

    /** update_file_case. */
    method UpdateFileCase(fname: nat, ind: nat)
      modifies this
      ensures Ledger() == old(Ledger()).(fileCase := AddTo(old(fileCase), fname, ind))
      ensures baseSet == old(baseSet) && results == old(results) && caseMap == old(caseMap)
    {
      if fname !in fileCase {
        fileCase := fileCase[fname := {}];
      }
      fileCase := fileCase[fname := fileCase[fname] + {ind}];
    }

    /** update_case_file. */
    method UpdateCaseFile(ind: nat, fname: nat)
      modifies this
      ensures Ledger() == old(Ledger()).(caseFile := AddTo(old(caseFile), ind, fname))
      ensures baseSet == old(baseSet) && results == old(results) && caseMap == old(caseMap)
    {
      if ind !in caseFile {
        caseFile := caseFile[ind := {}];
      }
      caseFile := caseFile[ind := caseFile[ind] + {fname}];
    }

    /** The loop of test_fast over the failed cases, recording each in both tables. */
    method RecordFailures(findex: nat, wronginds: seq<nat>)
      requires findex in fileCase
      modifies this
      ensures fileCase == old(fileCase)[findex := old(fileCase)[findex] + Elems(wronginds)]
      ensures caseFile == AddFailures(old(caseFile), Elems(wronginds), findex)
      ensures wrongSet == old(wrongSet) && correctSet == old(correctSet) && removeSet == old(removeSet)
      ensures baseSet == old(baseSet) && results == old(results) && caseMap == old(caseMap)
    {
      AddFailuresNone(caseFile, findex);
      assert Elems(wronginds[..0]) == {};
      UpdateUnchanged(fileCase, findex, fileCase[findex] + {});
      var k := 0;
      while k < |wronginds|
        invariant k <= |wronginds|
        invariant fileCase == old(fileCase)[findex := old(fileCase)[findex] + Elems(wronginds[..k])]
        invariant caseFile == AddFailures(old(caseFile), Elems(wronginds[..k]), findex)
        invariant wrongSet == old(wrongSet) && correctSet == old(correctSet) && removeSet == old(removeSet)
        invariant baseSet == old(baseSet) && results == old(results) && caseMap == old(caseMap)
      {
        ElemsSnoc(wronginds, k);
        AddFailuresStep(old(caseFile), Elems(wronginds[..k]), findex, wronginds[k]);
        ghost var before := fileCase;
        UpdateFileCase(findex, wronginds[k]);
        assert fileCase == before[findex := before[findex] + {wronginds[k]}];
        assert before[findex] + {wronginds[k]} == old(fileCase)[findex] + Elems(wronginds[..k + 1]);
        UpdateTwice(old(fileCase), findex, old(fileCase)[findex] + Elems(wronginds[..k]),
          old(fileCase)[findex] + Elems(wronginds[..k + 1]));
        UpdateCaseFile(wronginds[k], findex);
        k := k + 1;
      }
      assert wronginds[..k] == wronginds;
    }

    /** test_fast, from the lookup of the function under test on; `blocked` when it never returns. */
    method TestFast(fname: string, findex: nat, hasFunction: bool, timedOut: bool, run: nat -> Option<Value>)
      returns (blocked: bool)
      modifies this
      ensures Ledger() == AfterTest(old(Ledger()), caseMap, results, fname, findex, hasFunction, timedOut, run)
      ensures blocked == Blocks(caseMap, results, hasFunction, timedOut)
      ensures baseSet == old(baseSet) && results == old(results) && caseMap == old(caseMap)
    {
      if !hasFunction {
        removeSet := removeSet + {fname};
        return false;
      }
      fileCase := fileCase[findex := {}];
      if timedOut {
        removeSet := removeSet + {fname};
        return false;
      }
      var r := TestHelperFast(caseMap, results, run);
      if r.Failure? {
        return true;
      }
      var wronginds := r.value.0;
      ghost var w := Failed(caseMap, results, run);
      ghost var cleared := fileCase;
      RecordFailures(findex, wronginds);
      assert cleared[findex] + Elems(wronginds) == w;
      UpdateTwice(old(fileCase), findex, {}, w);
      assert fileCase == old(fileCase)[findex := w];
      if !r.value.1 {
        assert wronginds[0] in Elems(wronginds);
        wrongSet := wrongSet + {findex};
      } else {
        correctSet := correctSet + {findex};
      }
      blocked := false;
    }
  }

  // ---------------------------------------------------------------------
  // Properties of the books.

  /** The test ran to completion: the function exists, no timeout, every case has a reference result. */
  predicate Completes<C>(caseMap: map<nat, C>, results: map<nat, Value>, hasFunction: bool, timedOut: bool) {
    hasFunction && !timedOut && caseMap.Keys <= results.Keys
  }

  /**
   * After a completed test, file_case lists for the submission exactly the
   * cases it failed, each of those cases lists the submission in case_file,
   * and case_file is unchanged under every other case.
   */
  lemma AfterTestIndexes<C>(b: Books, caseMap: map<nat, C>, results: map<nat, Value>, fname: string, findex: nat,
                            hasFunction: bool, timedOut: bool, run: nat -> Option<Value>)
    requires Completes(caseMap, results, hasFunction, timedOut)
    ensures var a := AfterTest(b, caseMap, results, fname, findex, hasFunction, timedOut, run);
      && findex in a.fileCase
      && (forall ind :: ind in a.fileCase[findex] <==> ind in caseMap && !CaseCorrect(results[ind], run(ind)))
      && (forall ind :: ind in a.fileCase[findex] ==> ind in a.caseFile && findex in a.caseFile[ind])
      && (forall ind :: ind !in a.fileCase[findex] ==>
            (ind in a.caseFile <==> ind in b.caseFile) && (ind in b.caseFile ==> a.caseFile[ind] == b.caseFile[ind]))
      && (forall f :: f in b.fileCase && f != findex ==> f in a.fileCase && a.fileCase[f] == b.fileCase[f])
  {
  }

  /**
   * A completed test files a submission not classified before under exactly
   * one of wrong_set and correct_set: correct_set exactly when it passed
   * every case. A submission without the function, or whose run timed out,
   * is put in remove_set and not classified.
   */
  lemma AfterTestClassifies<C>(b: Books, caseMap: map<nat, C>, results: map<nat, Value>, fname: string, findex: nat,
                               hasFunction: bool, timedOut: bool, run: nat -> Option<Value>)
    requires findex !in b.wrongSet && findex !in b.correctSet
    ensures var a := AfterTest(b, caseMap, results, fname, findex, hasFunction, timedOut, run);
      Completes(caseMap, results, hasFunction, timedOut) ==>
        && ((findex in a.wrongSet) != (findex in a.correctSet))
        && (findex in a.correctSet <==> forall ind :: ind in caseMap ==> CaseCorrect(results[ind], run(ind)))
        && a.removeSet == b.removeSet
        && a.wrongSet - {findex} == b.wrongSet && a.correctSet - {findex} == b.correctSet
    ensures var a := AfterTest(b, caseMap, results, fname, findex, hasFunction, timedOut, run);
      !hasFunction || timedOut ==>
        fname in a.removeSet && a.wrongSet == b.wrongSet && a.correctSet == b.correctSet
  {
    var a := AfterTest(b, caseMap, results, fname, findex, hasFunction, timedOut, run);
    if Completes(caseMap, results, hasFunction, timedOut) {
      var w := Failed(caseMap, results, run);
      if findex in a.correctSet {
        assert w == {};
        forall ind | ind in caseMap ensures CaseCorrect(results[ind], run(ind)) {
          assert ind !in w;
        }
      }
    }
  }

  /**
   * The books agree with themselves: the two index tables are the same
   * relation read both ways, no submission is both wrong and correct, a
   * correct submission failed no case and a wrong one failed some.
   */
  ghost predicate Consistent(b: Books) {
    && (forall f, i :: f in b.fileCase && i in b.fileCase[f] <==> i in b.caseFile && f in b.caseFile[i])
    && b.wrongSet * b.correctSet == {}
    && (forall f :: f in b.correctSet ==> f in b.fileCase && b.fileCase[f] == {})
    && (forall f :: f in b.wrongSet ==> f in b.fileCase && b.fileCase[f] != {})
  }

  /** Testing a submission under a number not used before keeps the books consistent. */
  lemma {:induction false} AfterTestConsistent<C>(b: Books, caseMap: map<nat, C>, results: map<nat, Value>,
                                                  fname: string, findex: nat,
                                                  hasFunction: bool, timedOut: bool, run: nat -> Option<Value>)
    requires Consistent(b) && findex !in b.fileCase
    ensures Consistent(AfterTest(b, caseMap, results, fname, findex, hasFunction, timedOut, run))
  {
    forall i | i in b.caseFile ensures findex !in b.caseFile[i] {
    }
    if !hasFunction {
    } else if timedOut {
      NoFailuresConsistent(b, findex, b.removeSet + {fname});
    } else if !(caseMap.Keys <= results.Keys) {
      NoFailuresConsistent(b, findex, b.removeSet);
    } else {
      FailuresConsistent(b, findex, Failed(caseMap, results, run));
    }
  }

  /** A submission filed with no failed case keeps the books consistent. */
  lemma NoFailuresConsistent(b: Books, findex: nat, removeSet: set<string>)
    requires Consistent(b) && findex !in b.fileCase
    requires forall i :: i in b.caseFile ==> findex !in b.caseFile[i]
    ensures Consistent(b.(fileCase := b.fileCase[findex := {}], removeSet := removeSet))
  {
    var a := b.(fileCase := b.fileCase[findex := {}], removeSet := removeSet);
    forall f, i ensures f in a.fileCase && i in a.fileCase[f] <==> i in a.caseFile && f in a.caseFile[i] {
      if f != findex {
        assert f in a.fileCase && i in a.fileCase[f] <==> f in b.fileCase && i in b.fileCase[f];
      }
    }
  }

  /** A submission filed with its failed cases w, in both tables, keeps the books consistent. */
  lemma FailuresConsistent(b: Books, findex: nat, w: set<nat>)
    requires Consistent(b) && findex !in b.fileCase
    requires forall i :: i in b.caseFile ==> findex !in b.caseFile[i]
    ensures Consistent(b.(fileCase := b.fileCase[findex := w],
                          caseFile := AddFailures(b.caseFile, w, findex),
                          wrongSet := if w != {} then b.wrongSet + {findex} else b.wrongSet,
                          correctSet := if w == {} then b.correctSet + {findex} else b.correctSet))
  {
    var a := b.(fileCase := b.fileCase[findex := w],
                caseFile := AddFailures(b.caseFile, w, findex),
                wrongSet := if w != {} then b.wrongSet + {findex} else b.wrongSet,
                correctSet := if w == {} then b.correctSet + {findex} else b.correctSet);
    forall f, i ensures f in a.fileCase && i in a.fileCase[f] <==> i in a.caseFile && f in a.caseFile[i] {
      if f == findex {
        assert f in a.fileCase && i in a.fileCase[f] <==> i in w;
      } else {
        assert f in a.fileCase && i in a.fileCase[f] <==> f in b.fileCase && i in b.fileCase[f];
      }
    }
  }

  /** One file of the corpus, with what loading and running it produced. */
  datatype Submission = Submission(
    fname: string, imports: bool, hasFunction: bool, timedOut: bool, run: nat -> Option<Value>)

  /**
   * The loop of run_tests over the corpus, from file number `count` on: a
   * file that fails to import goes to remove_set, every other one is
   * tested under its number; a test that blocks ends the run.
   */
  function RunAll<C>(b: Books, caseMap: map<nat, C>, results: map<nat, Value>, files: seq<Submission>, count: nat): Books
    decreases |files|
  {
    if files == [] then b
    else
      var sub := files[0];
      if !sub.imports then
        RunAll(b.(removeSet := b.removeSet + {sub.fname}), caseMap, results, files[1..], count + 1)
      else
        var a := AfterTest(b, caseMap, results, sub.fname, count, sub.hasFunction, sub.timedOut, sub.run);
        if Blocks(caseMap, results, sub.hasFunction, sub.timedOut) then a
        else RunAll(a, caseMap, results, files[1..], count + 1)
  }

  /**
   * Over a whole corpus the books stay consistent, and every submission
   * numbered in them is one of the corpus.
   */
  lemma {:induction false} RunAllConsistent<C>(b: Books, caseMap: map<nat, C>, results: map<nat, Value>,
                                              files: seq<Submission>, count: nat)
    requires Consistent(b) && forall f :: f in b.fileCase ==> f < count
    ensures Consistent(RunAll(b, caseMap, results, files, count))
    ensures forall f :: f in RunAll(b, caseMap, results, files, count).fileCase ==> f < count + |files|
    decreases |files|
  {
    if files != [] {
      var sub := files[0];
      if !sub.imports {
        RunAllConsistent(b.(removeSet := b.removeSet + {sub.fname}), caseMap, results, files[1..], count + 1);
      } else {
        AfterTestConsistent(b, caseMap, results, sub.fname, count, sub.hasFunction, sub.timedOut, sub.run);
        var a := AfterTest(b, caseMap, results, sub.fname, count, sub.hasFunction, sub.timedOut, sub.run);
        if !Blocks(caseMap, results, sub.hasFunction, sub.timedOut) {
          RunAllConsistent(a, caseMap, results, files[1..], count + 1);
        }
      }
    }
  }
}
