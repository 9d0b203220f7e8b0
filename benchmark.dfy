/**
 * pkg/benchmark/benchmark.go: the names of the CIS Docker Benchmark
 * recommendations that are checked, and the report that collects, per
 * rule, the files (or "file: detail" strings) that violate it.
 */
module Benchmark {

  const CIS_4_1 := "CIS 4.1 Create a user for the container"
  const CIS_4_2 := "CIS 4.2 Use trusted base images for containers"
  const CIS_4_3 := "CIS 4.3 Do not install unnecessary packages in the container"
  const CIS_4_6 := "CIS 4.6 Add HEALTHCHECK instruction to the container image"
  const CIS_4_7 := "CIS 4.7 Do not use update instructions alone in the Dockerfile"
  const CIS_4_9 := "CIS 4.9 Use COPY instead of ADD in Dockerfile"
  const CIS_4_10 := "CIS 4.10 Do not store secrets in Dockerfiles"

  /** The seven rule names, in the order in which the benchmarker runs them. */
  const AllRules := [CIS_4_1, CIS_4_2, CIS_4_3, CIS_4_6, CIS_4_7, CIS_4_9, CIS_4_10]

  /** No two rules share a name, so a report entry identifies its rule. */
  lemma RuleNamesDistinct()
    ensures forall i, j :: 0 <= i < j < |AllRules| ==> AllRules[i] != AllRules[j]
  {
  }

  /** One entry of the report: a rule and what violates it. */
  datatype RuleViolation = RuleViolation(rule: string, violations: seq<string>)

  /** NewBenchmarkViolation: the entry for `rule` listing `violations`, as given. */
  function NewBenchmarkViolation(rule: string, violations: seq<string>): (v: RuleViolation)
    ensures v.rule == rule && v.violations == violations
  {
    RuleViolation(rule, violations)
  }

  class ViolationReport {
    var violations: seq<RuleViolation>

    /** NewBenchmarkViolationReport: a report with no entries. */
    constructor ()
      ensures violations == []
    {
      violations := [];
    }

    /** AddViolation appends one entry and keeps every earlier one. */
    method AddViolation(rule: string, files: seq<string>)
      modifies this
      ensures violations == old(violations) + [NewBenchmarkViolation(rule, files)]
    {
      var violation := NewBenchmarkViolation(rule, files);
      violations := violations + [violation];
    }
  }
}
