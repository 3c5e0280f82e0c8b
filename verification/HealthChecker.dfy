/** Consecutive-failure counting (internal/gateway/healthchecker.go:84-97) against the history
    of check results. */
module HealthChecker {
  import opened Registry

  datatype Check = Check(id: string, ok: bool)

  /** What a check of an instance found, and when. */
  datatype Finding = Finding(instance: ServiceInstance, ok: bool, now: int)

  function ChecksOf(findings: seq<Finding>): seq<Check> {
    if findings == [] then [] else
    var last := findings[|findings| - 1];
    ChecksOf(findings[..|findings| - 1]) + [Check(last.instance.id, last.ok)]
  }

  /** No other route's instance shares this id. */
  ghost predicate OwnId(findings: seq<Finding>, route: string, id: string) {
    forall k :: 0 <= k < |findings| && findings[k].instance.id == id ==> findings[k].instance.route == route
  }

  /** The failed checks of `id` since its last good one. */
  function FailureRun(checks: seq<Check>, id: string): nat {
    if checks == [] then 0 else
    var last := checks[|checks| - 1];
    if last.id != id then FailureRun(checks[..|checks| - 1], id)
    else if last.ok then 0
    else FailureRun(checks[..|checks| - 1], id) + 1
  }

  lemma CheckCounts(checks: seq<Check>, id: string, ok: bool)
    ensures FailureRun(checks + [Check(id, ok)], id) == if ok then 0 else FailureRun(checks, id) + 1
    ensures forall other :: other != id ==> FailureRun(checks + [Check(id, ok)], other) == FailureRun(checks, other)
  {
    assert (checks + [Check(id, ok)])[..|checks|] == checks;
  }

  /** The label a check leaves, given the run of failures that ends with it. */
  function NextLabel(limit: int, health: string, ok: bool, run: nat): string {
    if ok then "healthy" else if run >= limit then "unhealthy" else health
  }

  class HealthChecker {
    const registry: ServiceRegistry
    const failureLimit: int
    var failures: map<string, int>
    ghost var checks: seq<Check>

    ghost predicate Valid()
      reads this, registry
    {
      && registry.Valid()
      && (forall id :: id in failures <==> FailureRun(checks, id) > 0)
      && (forall id :: id in failures ==> failures[id] == FailureRun(checks, id))
    }

    constructor (registry: ServiceRegistry, failureLimit: int)
      requires registry.Valid()
      ensures Valid() && this.registry == registry && this.failureLimit == failureLimit && checks == []
    {
      this.registry, this.failureLimit := registry, failureLimit;
      failures, checks := map[], [];
    }

    /** The instance that was checked may have been replaced or removed since; the result is
        entered for whatever is registered under its route and id now. */
    method UpdateServiceHealth(instance: ServiceInstance, isHealthy: bool, now: int)
      requires Valid()
      modifies this, registry.Instances()
      ensures Valid() && checks == old(checks) + [Check(instance.id, isHealthy)]
      ensures registry.services == old(registry.services)
      ensures forall r, id :: Lookup(registry.services, r, id).Some? ==>
        Lookup(registry.services, r, id).value.health ==
          if r == instance.route && id == instance.id
          then NextLabel(
            failureLimit, old(Lookup(registry.services, r, id).value.health), isHealthy, FailureRun(checks, id))
          else old(Lookup(registry.services, r, id).value.health)
    {
      hide FailureRun, Sound;
      CheckCounts(checks, instance.id, isHealthy);
      checks := checks + [Check(instance.id, isHealthy)];
      if isHealthy {
        failures := failures - {instance.id};
        var _ := registry.UpdateServiceHealth(instance.route, instance.id, "healthy", now);
      } else {
        failures := failures[instance.id := (if instance.id in failures then failures[instance.id] else 0) + 1];
        if failures[instance.id] >= failureLimit {
          var _ := registry.UpdateServiceHealth(instance.route, instance.id, "unhealthy", now);
        }
      }
    }

    /** Enters the findings of any number of checks, in the order they come in (lines 55 to 62).
        The label of a registered instance is then the one its own results call for. */
    method UpdateAll(findings: seq<Finding>)
      requires Valid()
      modifies this, registry.Instances()
      ensures Valid() && checks == old(checks) + ChecksOf(findings)
      ensures registry.services == old(registry.services)
      ensures forall r, id :: Lookup(registry.services, r, id).Some? && OwnId(findings, r, id) ==>
        Lookup(registry.services, r, id).value.health ==
          LabelAfter(failureLimit, old(Lookup(registry.services, r, id).value.health),
                     FailureRun(old(checks), id), ResultsOf(ChecksOf(findings), id))
    {
      hide FailureRun, LabelAfter, ResultsOf, NextLabel, Valid;
      ghost var past := checks;
      NothingChecked(failureLimit, past);
      for k := 0 to |findings|
        invariant Valid() && registry.services == old(registry.services)
        invariant checks == past + ChecksOf(findings[..k])
        invariant forall r, id :: Lookup(registry.services, r, id).Some? && OwnId(findings, r, id) ==>
          Lookup(registry.services, r, id).value.health ==
            LabelAfter(failureLimit, old(Lookup(registry.services, r, id).value.health),
                       FailureRun(past, id), ResultsOf(ChecksOf(findings[..k]), id))
      {
        var f := findings[k];
        OneMoreFinding(failureLimit, past, findings, k);
        UpdateServiceHealth(f.instance, f.ok, f.now);
      }
      assert findings[..|findings|] == findings;
    }
  }

  lemma NothingChecked(limit: int, past: seq<Check>)
    ensures ChecksOf([]) == [] && past + [] == past
    ensures forall start, id :: LabelAfter(limit, start, FailureRun(past, id), ResultsOf([], id)) == start
  {}

  lemma OneMoreCheck(findings: seq<Finding>, k: nat)
    requires k < |findings|
    ensures ChecksOf(findings[..k + 1]) == ChecksOf(findings[..k]) + [Check(findings[k].instance.id, findings[k].ok)]
  {
    assert findings[..k + 1][..k] == findings[..k];
  }

  lemma OneMoreLabel(limit: int, past: seq<Check>, checks: seq<Check>, last: Check, start: string, id: string)
    ensures var before := FailureRun(past, id);
      LabelAfter(limit, start, before, ResultsOf(checks + [last], id)) ==
        var was := LabelAfter(limit, start, before, ResultsOf(checks, id));
        if id == last.id then NextLabel(limit, was, last.ok, FailureRun(past + checks + [last], id)) else was
  {
    var results, results' := ResultsOf(checks, id), ResultsOf(checks + [last], id);
    assert (checks + [last])[..|checks|] == checks;
    if id == last.id {
      assert results' == results + [last.ok] && results'[..|results|] == results;
      RunsContinue(past, checks + [last], id);
      assert past + (checks + [last]) == past + checks + [last];
    } else {
      assert results' == results;
    }
  }

  /** One more finding relabels the instance with its id and nothing else. */
  lemma OneMoreFinding(limit: int, past: seq<Check>, findings: seq<Finding>, k: nat)
    requires k < |findings|
    ensures var f := findings[k];
      var checks, checks' := ChecksOf(findings[..k]), ChecksOf(findings[..k + 1]);
      && past + checks' == past + checks + [Check(f.instance.id, f.ok)]
      && forall start, id :: LabelAfter(limit, start, FailureRun(past, id), ResultsOf(checks', id)) ==
           var was := LabelAfter(limit, start, FailureRun(past, id), ResultsOf(checks, id));
           if id == f.instance.id then NextLabel(limit, was, f.ok, FailureRun(past + checks', id)) else was
  {
    hide ChecksOf, LabelAfter, ResultsOf, FailureRun, NextLabel;
    var checks, last := ChecksOf(findings[..k]), Check(findings[k].instance.id, findings[k].ok);
    OneMoreCheck(findings, k);
    assert past + (checks + [last]) == past + checks + [last];
    forall start, id
      ensures LabelAfter(limit, start, FailureRun(past, id), ResultsOf(checks + [last], id)) ==
              var was := LabelAfter(limit, start, FailureRun(past, id), ResultsOf(checks, id));
              if id == last.id then NextLabel(limit, was, last.ok, FailureRun(past + checks + [last], id)) else was
    {
      OneMoreLabel(limit, past, checks, last, start, id);
    }
  }

  // ---- Health agrees with history --------------------------------------------------------

  /** The label of an instance registered as `start` when its id had `before` failures in a row,
      after its own checks. */
  function LabelAfter(limit: int, start: string, before: nat, results: seq<bool>): string {
    if results == [] then start else
    var n := |results| - 1;
    NextLabel(limit, LabelAfter(limit, start, before, results[..n]), results[n], RunAfter(before, results))
  }

  function RunAfter(before: nat, results: seq<bool>): nat {
    if results == [] then before
    else if results[|results| - 1] then 0
    else RunAfter(before, results[..|results| - 1]) + 1
  }

  /** The results of one id among the checks of all. */
  function ResultsOf(checks: seq<Check>, id: string): seq<bool> {
    if checks == [] then [] else
    var last := checks[|checks| - 1];
    ResultsOf(checks[..|checks| - 1], id) + (if last.id == id then [last.ok] else [])
  }

  /** Whatever other ids are checked in between, the run counted for an id after more checks is
      the run before them continued by its own results. */
  lemma {:induction false} RunsContinue(past: seq<Check>, more: seq<Check>, id: string)
    ensures FailureRun(past + more, id) == RunAfter(FailureRun(past, id), ResultsOf(more, id))
  {
    hide FailureRun, ResultsOf, RunAfter;
    if more == [] {
      assert past + more == past;
      NoResult(FailureRun(past, id), id);
    } else {
      var front, last := more[..|more| - 1], more[|more| - 1];
      RunsContinue(past, front, id);
      assert past + more == past + front + [last] && last == Check(last.id, last.ok);
      CheckCounts(past + front, last.id, last.ok);
      OneMoreResult(FailureRun(past, id), more, id);
    }
  }

  lemma NoResult(before: nat, id: string)
    ensures RunAfter(before, ResultsOf([], id)) == before
  {}

  lemma OneMoreResult(before: nat, checks: seq<Check>, id: string)
    requires checks != []
    ensures var front, last := checks[..|checks| - 1], checks[|checks| - 1];
      RunAfter(before, ResultsOf(checks, id)) ==
        if last.id != id then RunAfter(before, ResultsOf(front, id))
        else if last.ok then 0 else RunAfter(before, ResultsOf(front, id)) + 1
  {
    var results := ResultsOf(checks[..|checks| - 1], id);
    assert results + [] == results;
    assert (results + [checks[|checks| - 1].ok])[..|results|] == results;
  }

  /** The label depends only on the run of failures at the end and on whether a check has ever
      succeeded: it is "unhealthy" at the limit, else "healthy" once there was a success, else
      still the one registered. A run inherited from an earlier registration counts in full. */
  lemma {:induction false} LabelFromHistory(limit: int, start: string, before: nat, results: seq<bool>)
    requires limit >= 1
    ensures LabelAfter(limit, start, before, results) ==
      if results == [] then start
      else if RunAfter(before, results) >= limit then "unhealthy"
      else if exists i :: 0 <= i < |results| && results[i] then "healthy"
      else start
  {
    if results != [] {
      var n := |results| - 1;
      LabelFromHistory(limit, start, before, results[..n]);
      if i :| 0 <= i < n && results[..n][i] { assert results[i]; }
      if !results[n] && n > 0 && RunAfter(before, results) < limit {
        assert (exists i :: 0 <= i < |results| && results[i]) ==> exists i :: 0 <= i < n && results[..n][i] by {
          if i :| 0 <= i < |results| && results[i] { assert results[..n][i]; }
        }
      }
    }
  }

  /** The run is the failed checks at the end: those after the last good one or, without a good
      one, all of them and those before. */
  lemma {:induction false} RunIsTheTail(before: nat, results: seq<bool>)
    ensures var n, r := |results|, RunAfter(before, results);
      if forall i :: 0 <= i < n ==> !results[i] then r == before + n
      else r < n && results[n - 1 - r] && forall i :: n - r <= i < n ==> !results[i]
  {
    if results != [] {
      var n := |results| - 1;
      RunIsTheTail(before, results[..n]);
      assert forall i :: 0 <= i < n ==> results[..n][i] == results[i];
    }
  }

  /** After its first success an instance is labelled healthy exactly while its run of failures
      is below the limit. */
  lemma {:induction false} HealthyIffRunBelowLimit(limit: int, start: string, before: nat, results: seq<bool>)
    requires limit >= 1 && exists i :: 0 <= i < |results| && results[i]
    ensures LabelAfter(limit, start, before, results) == "healthy" <==> RunAfter(before, results) < limit
  {
    LabelFromHistory(limit, start, before, results);
    assert "healthy"[0] != "unhealthy"[0];
  }
}
