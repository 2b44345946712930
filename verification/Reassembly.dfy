/** `reassembly_plan` of edc_translation/kafka_backend.py: what it depends on, and what it does not. */
module Reassembly {
  import opened Wrappers
  import opened SortedStrings
  import opened SegmentIds

  datatype SegmentResult = SegmentResult(jobId: string, segmentId: Option<string>, status: string)

  datatype Plan = Plan(
    jobId: string,
    expected: seq<string>,
    received: seq<string>,
    missing: seq<string>,
    failed: seq<string>,
    ready: bool)

  predicate About(r: SegmentResult, jobId: string, s: string) {
    r.jobId == jobId && r.segmentId == Some(s)
  }

  /** The dictionary comprehension: a later result for a segment replaces an earlier one. */
  function BySegment(jobId: string, results: seq<SegmentResult>): map<string, string> {
    if results == [] then map[] else
    var m, r := BySegment(jobId, results[..|results| - 1]), results[|results| - 1];
    if r.segmentId.Some? && r.jobId == jobId then m[r.segmentId.value := r.status] else m
  }

  function Missing(expected: seq<string>, received: set<string>): seq<string> {
    if expected == [] then [] else
    (if expected[0] in received then [] else [expected[0]]) + Missing(expected[1..], received)
  }

  function PlanOf(jobId: string, expected: seq<string>, bySegment: map<string, string>): Plan {
    var missing := Missing(expected, bySegment.Keys);
    var failed := Sorted(set s | s in bySegment && bySegment[s] != "succeeded");
    Plan(jobId, expected, Sorted(bySegment.Keys), missing, failed, missing == [] && failed == [])
  }

  function ReassemblyPlan(jobId: string, expected: seq<string>, results: seq<SegmentResult>): Plan {
    PlanOf(jobId, expected, BySegment(jobId, results))
  }

  // ---------------------------------------------------------------- readiness

  /** Result `i` is the last one for segment `s` of the job. */
  predicate IsLast(jobId: string, results: seq<SegmentResult>, s: string, i: int) {
    && 0 <= i < |results| && About(results[i], jobId, s)
    && forall j :: i < j < |results| ==> !About(results[j], jobId, s)
  }

  lemma {:induction false} BySegmentKeepsTheLast(jobId: string, results: seq<SegmentResult>, s: string)
    ensures s !in BySegment(jobId, results) ==> forall i :: 0 <= i < |results| ==> !About(results[i], jobId, s)
    ensures s in BySegment(jobId, results) ==>
      exists i :: IsLast(jobId, results, s, i) && BySegment(jobId, results)[s] == results[i].status
  {
    if results != [] {
      var init, last := results[..|results| - 1], results[|results| - 1];
      BySegmentKeepsTheLast(jobId, init, s);
      if About(last, jobId, s) {
        assert IsLast(jobId, results, s, |results| - 1);
      } else if s in BySegment(jobId, init) {
        var i :| IsLast(jobId, init, s, i) && BySegment(jobId, init)[s] == init[i].status;
        assert IsLast(jobId, results, s, i);
      }
    }
  }

  lemma {:induction false} MissingMembers(expected: seq<string>, received: set<string>, s: string)
    ensures s in Missing(expected, received) <==> s in expected && s !in received
  {
    if expected != [] {
      MissingMembers(expected[1..], received, s);
      assert expected == [expected[0]] + expected[1..];
    }
  }

  lemma EmptyIffNoMember(ss: seq<string>)
    ensures ss == [] <==> forall s :: s !in ss
  {
    if ss != [] { assert ss[0] in ss; }
  }

  lemma Assoc(a: seq<string>, b: seq<string>, c: seq<string>)
    ensures a + (b + c) == a + b + c
  {
  }

  /** The missing segments keep the order and the repetitions of the expected ones. */
  lemma {:induction false} MissingOfAppend(a: seq<string>, b: seq<string>, received: set<string>)
    ensures Missing(a + b, received) == Missing(a, received) + Missing(b, received)
  {
    if a == [] {
      assert a + b == b;
    } else {
      MissingOfAppend(a[1..], b, received);
      var head := if a[0] in received then [] else [a[0]];
      assert (a + b)[1..] == a[1..] + b;
      Assoc(head, Missing(a[1..], received), Missing(b, received));
    }
  }

  /** What each list of the plan says of a segment. */
  lemma PlanTells(jobId: string, expected: seq<string>, results: seq<SegmentResult>, s: string)
    ensures var plan := ReassemblyPlan(jobId, expected, results);
      && plan.jobId == jobId && plan.expected == expected
      && Ascending(plan.received) && Ascending(plan.failed)
      && (s in plan.received <==>
        exists i :: 0 <= i < |results| && results[i].jobId == jobId && results[i].segmentId == Some(s))
      && (s in plan.missing <==> s in expected && s !in plan.received)
      && (s in plan.failed <==> exists i ::
        && 0 <= i < |results| && results[i].jobId == jobId && results[i].segmentId == Some(s)
        && (forall j :: i < j < |results| && results[j].jobId == jobId ==> results[j].segmentId != Some(s))
        && results[i].status != "succeeded")
      && (plan.ready <==> plan.missing == [] && plan.failed == [])
  {
    var plan := ReassemblyPlan(jobId, expected, results);
    SegmentTells(jobId, expected, results, s);
    forall i, j | IsLast(jobId, results, s, i) && i < j < |results| && results[j].jobId == jobId
      ensures results[j].segmentId != Some(s)
    {
      assert !About(results[j], jobId, s);
    }
    if s in plan.failed {
      var i :| IsLast(jobId, results, s, i) && results[i].status != "succeeded";
      assert results[i].segmentId == Some(s);
    }
    forall i | 0 <= i < |results| && results[i].jobId == jobId && results[i].segmentId == Some(s)
        && (forall j :: i < j < |results| && results[j].jobId == jobId ==> results[j].segmentId != Some(s))
        && results[i].status != "succeeded"
      ensures s in plan.failed
    {
      assert IsLast(jobId, results, s, i);
    }
  }

  lemma SegmentTells(jobId: string, expected: seq<string>, results: seq<SegmentResult>, s: string)
    ensures var plan := ReassemblyPlan(jobId, expected, results);
      && (s in plan.received <==> exists i :: 0 <= i < |results| && About(results[i], jobId, s))
      && (s in plan.missing <==> s in expected && forall i :: 0 <= i < |results| ==> !About(results[i], jobId, s))
      && (s in plan.failed <==> exists i :: IsLast(jobId, results, s, i) && results[i].status != "succeeded")
  {
    BySegmentKeepsTheLast(jobId, results, s);
    MissingMembers(expected, BySegment(jobId, results).Keys, s);
  }

  /** Ready exactly when every expected segment has a result and every segment's last result is a success. */
  lemma ReadyIff(jobId: string, expected: seq<string>, results: seq<SegmentResult>)
    ensures ReassemblyPlan(jobId, expected, results).ready <==>
      && (forall s :: s in expected ==> exists i :: 0 <= i < |results| && About(results[i], jobId, s))
      && (forall s, i :: IsLast(jobId, results, s, i) ==> results[i].status == "succeeded")
  {
    var plan := ReassemblyPlan(jobId, expected, results);
    EmptyIffNoMember(plan.missing);
    EmptyIffNoMember(plan.failed);
    forall s
      ensures s in plan.missing <==> s in expected && !exists i :: 0 <= i < |results| && About(results[i], jobId, s)
      ensures s in plan.failed ==> exists i :: IsLast(jobId, results, s, i) && results[i].status != "succeeded"
    {
      SegmentTells(jobId, expected, results, s);
    }
    forall s, i | IsLast(jobId, results, s, i) && results[i].status != "succeeded"
      ensures s in plan.failed
    {
      SegmentTells(jobId, expected, results, s);
    }
    forall s | s in expected && s !in plan.missing
      ensures exists i :: 0 <= i < |results| && About(results[i], jobId, s)
    {
      SegmentTells(jobId, expected, results, s);
    }
  }

  // ---------------------------------------------------------------- order does not matter, iff

  /** The plan sees of the dictionary only which segments are there and which of them succeeded. */
  lemma PlanSeesOnlySuccess(jobId: string, expected: seq<string>, m: map<string, string>, m': map<string, string>)
    requires m.Keys == m'.Keys
    requires forall s :: s in m ==> (m[s] == "succeeded" <==> m'[s] == "succeeded")
    ensures PlanOf(jobId, expected, m) == PlanOf(jobId, expected, m')
  {
    assert (set s | s in m && m[s] != "succeeded") == (set s | s in m' && m'[s] != "succeeded");
  }

  /** Some result of the job for segment `s` is (`ok`) or is not a success. */
  ghost predicate Reported(jobId: string, results: seq<SegmentResult>, s: string, ok: bool) {
    exists i :: 0 <= i < |results| && About(results[i], jobId, s) && (results[i].status == "succeeded") == ok
  }

  /** No two results for one segment of the job disagree on success. */
  ghost predicate Agree(jobId: string, results: seq<SegmentResult>) {
    forall s :: !(Reported(jobId, results, s, true) && Reported(jobId, results, s, false))
  }

  /** The two lists report the same things of the job, in whatever order and however often. */
  ghost predicate SameReports(jobId: string, a: seq<SegmentResult>, b: seq<SegmentResult>) {
    forall s, ok :: Reported(jobId, a, s, ok) <==> Reported(jobId, b, s, ok)
  }

  /** When the results for a segment agree, the dictionary holds what was reported of it. */
  lemma AgreedEntry(jobId: string, results: seq<SegmentResult>, s: string)
    requires Agree(jobId, results)
    ensures var m := BySegment(jobId, results);
      && (s in m <==> Reported(jobId, results, s, true) || Reported(jobId, results, s, false))
      && (s in m ==> (m[s] == "succeeded" <==> Reported(jobId, results, s, true)))
  {
    var m := BySegment(jobId, results);
    BySegmentKeepsTheLast(jobId, results, s);
    if s in m {
      var i :| IsLast(jobId, results, s, i) && m[s] == results[i].status;
      assert Reported(jobId, results, s, results[i].status == "succeeded");
    }
  }

  /**
   Permuting or repeating results, or mixing in those of other jobs, leaves the plan as it is, as long
   as the results for each segment agree on success.
   */
  lemma SameReportsSamePlan(jobId: string, expected: seq<string>, a: seq<SegmentResult>, b: seq<SegmentResult>)
    requires Agree(jobId, a) && SameReports(jobId, a, b)
    ensures ReassemblyPlan(jobId, expected, a) == ReassemblyPlan(jobId, expected, b)
  {
    forall s
      ensures s in BySegment(jobId, a) <==> s in BySegment(jobId, b)
      ensures s in BySegment(jobId, a) ==>
        (BySegment(jobId, a)[s] == "succeeded" <==> BySegment(jobId, b)[s] == "succeeded")
    {
      AgreedEntry(jobId, a, s);
      AgreedEntry(jobId, b, s);
    }
    PlanSeesOnlySuccess(jobId, expected, BySegment(jobId, a), BySegment(jobId, b));
  }

  lemma PermutationReportsSame(jobId: string, a: seq<SegmentResult>, b: seq<SegmentResult>, s: string, ok: bool)
    requires multiset(a) == multiset(b) && Reported(jobId, a, s, ok)
    ensures Reported(jobId, b, s, ok)
  {
    var i :| 0 <= i < |a| && About(a[i], jobId, s) && (a[i].status == "succeeded") == ok;
    assert a[i] in multiset(b);
    var j :| 0 <= j < |b| && b[j] == a[i];
  }

  function MoveLast(results: seq<SegmentResult>, i: nat): seq<SegmentResult>
    requires i < |results|
  {
    results[..i] + results[i + 1..] + [results[i]]
  }

  lemma MoveLastPermutes(results: seq<SegmentResult>, i: nat)
    requires i < |results|
    ensures multiset(MoveLast(results, i)) == multiset(results)
  {
    assert results == results[..i] + [results[i]] + results[i + 1..];
  }

  lemma LastOneDecides(jobId: string, expected: seq<string>, results: seq<SegmentResult>, i: nat, s: string)
    requires i < |results| && About(results[i], jobId, s)
    ensures s in ReassemblyPlan(jobId, expected, MoveLast(results, i)).failed <==> results[i].status != "succeeded"
  {
    var moved := MoveLast(results, i);
    assert moved[..|moved| - 1] == results[..i] + results[i + 1..];
  }

  /** The order of the results matters for some permutation exactly when two results for a segment disagree. */
  lemma OrderIsIrrelevantIffResultsAgree(jobId: string, expected: seq<string>, results: seq<SegmentResult>)
    ensures Agree(jobId, results) <==>
      forall p :: multiset(p) == multiset(results) ==>
        ReassemblyPlan(jobId, expected, p) == ReassemblyPlan(jobId, expected, results)
  {
    if Agree(jobId, results) {
      forall p | multiset(p) == multiset(results)
        ensures ReassemblyPlan(jobId, expected, p) == ReassemblyPlan(jobId, expected, results)
      {
        forall s, ok
          ensures Reported(jobId, p, s, ok) <==> Reported(jobId, results, s, ok)
        {
          if Reported(jobId, p, s, ok) { PermutationReportsSame(jobId, p, results, s, ok); }
          if Reported(jobId, results, s, ok) { PermutationReportsSame(jobId, results, p, s, ok); }
        }
        SameReportsSamePlan(jobId, expected, results, p);
      }
    } else {
      var s :| Reported(jobId, results, s, true) && Reported(jobId, results, s, false);
      var i :| 0 <= i < |results| && About(results[i], jobId, s) && results[i].status == "succeeded";
      var j :| 0 <= j < |results| && About(results[j], jobId, s) && results[j].status != "succeeded";
      MoveLastPermutes(results, i);
      MoveLastPermutes(results, j);
      LastOneDecides(jobId, expected, results, i, s);
      LastOneDecides(jobId, expected, results, j, s);
    }
  }

  // ---------------------------------------------------------------- progress

  lemma {:induction false} BySegmentOnlyGrows(jobId: string, results: seq<SegmentResult>, more: seq<SegmentResult>)
    ensures BySegment(jobId, results).Keys <= BySegment(jobId, results + more).Keys
  {
    if more == [] {
      assert results + more == results;
    } else {
      var all := results + more;
      assert all[..|all| - 1] == results + more[..|more| - 1];
      BySegmentOnlyGrows(jobId, results, more[..|more| - 1]);
    }
  }

  lemma {:induction false} MissingOfMore(expected: seq<string>, received: set<string>, more: set<string>)
    requires received <= more
    ensures Missing(Missing(expected, received), more) == Missing(expected, more)
  {
    if expected != [] {
      MissingOfMore(expected[1..], received, more);
      var rest := Missing(expected[1..], received);
      if expected[0] !in received {
        assert ([expected[0]] + rest)[1..] == rest;
      } else {
        assert [] + rest == rest;
      }
    }
  }

  /** More results only ever strike segments off the missing list, keeping its order. */
  lemma AppendingShrinksMissing(jobId: string, expected: seq<string>, results: seq<SegmentResult>,
          more: seq<SegmentResult>)
    ensures var now, later := ReassemblyPlan(jobId, expected, results), ReassemblyPlan(jobId, expected, results + more);
      later.missing == Missing(now.missing, BySegment(jobId, results + more).Keys)
    ensures forall s :: s in ReassemblyPlan(jobId, expected, results + more).missing ==>
      s in ReassemblyPlan(jobId, expected, results).missing
  {
    BySegmentOnlyGrows(jobId, results, more);
    MissingOfMore(expected, BySegment(jobId, results).Keys, BySegment(jobId, results + more).Keys);
    forall s
      ensures s in ReassemblyPlan(jobId, expected, results + more).missing ==>
        s in ReassemblyPlan(jobId, expected, results).missing
    {
      MissingMembers(expected, BySegment(jobId, results).Keys, s);
      MissingMembers(expected, BySegment(jobId, results + more).Keys, s);
    }
  }

  // ---------------------------------------------------------------- fan-out and back

  lemma AllThereIsReady(jobId: string, expected: seq<string>, m: map<string, string>)
    requires forall s :: s in expected ==> s in m
    requires forall s :: s in m ==> m[s] == "succeeded"
    ensures PlanOf(jobId, expected, m).ready
  {
    var plan := PlanOf(jobId, expected, m);
    forall s
      ensures s !in plan.missing
    {
      MissingMembers(expected, m.Keys, s);
    }
    EmptyIffNoMember(plan.missing);
    EmptyIffNoMember(plan.failed);
  }

  /**
   When every result of the job is a success for a segment of its fan-out, and each segment has one, the
   plan is ready; and up to 999,999 segments it lists them in fan-out order.
   */
  lemma FanOutComesBackInOrder(jobId: string, count: nat, results: seq<SegmentResult>)
    requires forall s :: Reported(jobId, results, s, true) <==> s in Numbered(count)
    requires forall s :: !Reported(jobId, results, s, false)
    ensures ReassemblyPlan(jobId, Numbered(count), results).ready
    ensures count <= 999999 ==> ReassemblyPlan(jobId, Numbered(count), results).received == Numbered(count)
  {
    var ids, m := Numbered(count), BySegment(jobId, results);
    forall s
      ensures s in m <==> s in ids
      ensures s in m ==> m[s] == "succeeded"
    {
      AgreedEntry(jobId, results, s);
    }
    AllThereIsReady(jobId, ids, m);
    if count <= 999999 {
      TextOrderIsFanOutOrderIff(count);
      AscendingIsSorted(ids);
      assert m.Keys == Members(ids);
    }
  }
}
