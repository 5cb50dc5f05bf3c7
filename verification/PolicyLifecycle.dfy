/** `db/repositories/policy.py` with the commands that drive it: reruns of candidates and human reviews. */
module PolicyLifecycle {
  import opened Basics
  import opened AuditRows
  import opened GovernedPolicy
  import opened PolicyEvidence

  datatype Status = Proposed | Backtested | Rejected | Approved

  /** The columns a rerun writes. */
  datatype RuleFields = RuleFields(
    affectedAction: string, sampleSize: nat, confidence: Option<real>, supporting: Evaluation)

  datatype Rule = Rule(fields: RuleFields, status: Status, approvedAt: Option<int>)

  datatype RuleCreate = RuleCreate(ruleId: string, fields: RuleFields, status: Status)

  /** What the candidate command stores for an evaluation. */
  function FromEvaluation(ruleId: string, spec: CandidateSpec, e: Evaluation): RuleCreate
  {
    RuleCreate(ruleId, RuleFields(spec.affectedAction, e.fullHistory.n, e.confidence, e),
               if e.status.Passing? then Backtested else Rejected)
  }

  // ------------------------------------------------------------------- steps

  /** What reaches the table: a draft from a rerun, or a human decision. */
  datatype Step =
    | Draft(data: RuleCreate)
    | Review(ruleId: string, approve: bool, now: int)

  function Drafted(rules: map<string, Rule>, data: RuleCreate): map<string, Rule>
  {
    if data.ruleId !in rules then rules[data.ruleId := Rule(data.fields, data.status, None)]
    else if rules[data.ruleId].status == Approved then rules
    else rules[data.ruleId := rules[data.ruleId].(fields := data.fields, status := data.status)]
  }

  /** The review gate refuses unknown rules and the approval of rejected ones. */
  predicate Refused(rules: map<string, Rule>, ruleId: string, approve: bool)
  {
    ruleId !in rules || (approve && rules[ruleId].status == Rejected)
  }

  function Reviewed(rules: map<string, Rule>, ruleId: string, approve: bool, now: int): map<string, Rule>
  {
    if Refused(rules, ruleId, approve) then rules
    else if approve then rules[ruleId := rules[ruleId].(status := Approved, approvedAt := Some(now))]
    else rules[ruleId := rules[ruleId].(status := Rejected)]
  }

  function Apply(rules: map<string, Rule>, step: Step): map<string, Rule>
  {
    match step
    case Draft(data) => Drafted(rules, data)
    case Review(ruleId, approve, now) => Reviewed(rules, ruleId, approve, now)
  }

  function RunFrom(rules: map<string, Rule>, steps: seq<Step>): map<string, Rule>
  {
    if steps == [] then rules else Apply(RunFrom(rules, steps[..|steps| - 1]), steps[|steps| - 1])
  }

  class CandidatePolicyRuleRepository {
    /** The table by its unique `rule_id`. */
    var rules: map<string, Rule>

    constructor ()
      ensures rules == map[]
    {
      rules := map[];
    }

    method CreateOrReplaceDraft(data: RuleCreate) returns (rule: Rule)
      modifies this
      ensures rules == Drafted(old(rules), data)
      ensures data.ruleId in rules && rule == rules[data.ruleId]
      ensures data.ruleId in old(rules) && old(rules)[data.ruleId].status == Approved ==> rules == old(rules)
    {
      if data.ruleId !in rules {
        rules := rules[data.ruleId := Rule(data.fields, data.status, None)];
        return rules[data.ruleId];
      }
      var existing := rules[data.ruleId];
      if existing.status == Approved {
        return existing;
      }
      rule := existing.(fields := data.fields, status := data.status);
      rules := rules[data.ruleId := rule];
    }

    method SetStatus(ruleId: string, status: Status, now: int) returns (rule: Rule)
      requires ruleId in rules
      modifies this
      ensures rules == old(rules)[ruleId := rule]
      ensures rule.fields == old(rules)[ruleId].fields && rule.status == status
      ensures rule.approvedAt == if status == Approved then Some(now) else old(rules)[ruleId].approvedAt
    {
      rule := rules[ruleId];
      if status == Approved {
        rule := rule.(approvedAt := Some(now));
      }
      rule := rule.(status := status);
      rules := rules[ruleId := rule];
    }

    /** The `policy-rule-review` command. */
    method ReviewRule(ruleId: string, approve: bool, now: int) returns (result: Result<Rule, string>)
      modifies this
      ensures rules == Reviewed(old(rules), ruleId, approve, now)
      ensures result.Err? <==> Refused(old(rules), ruleId, approve)
      ensures result.Ok? ==> ruleId in rules && result.value == rules[ruleId]
    {
      if ruleId !in rules {
        return Err("candidate rule not found");
      }
      if approve && rules[ruleId].status == Rejected {
        return Err("rejected candidates require a new validated backtest before approval");
      }
      var rule := SetStatus(ruleId, if approve then Approved else Rejected, now);
      result := Ok(rule);
    }
  }

  // ------------------------------------------------------------ whole runs

  /** The step drafts this rule with a verdict of its own. */
  predicate Drafts(step: Step, ruleId: string)
  {
    step.Draft? && step.data.ruleId == ruleId
  }

  predicate Passes(step: Step, ruleId: string)
  {
    Drafts(step, ruleId) && step.data.status == Backtested
  }

  /** Drafts only ever carry the two verdicts of an evaluation. */
  ghost predicate FromVerdicts(steps: seq<Step>)
  {
    forall n | 0 <= n < |steps| && steps[n].Draft? :: steps[n].data.status in {Backtested, Rejected}
  }

  /** The draft that wrote the rule's fields, a passing one unless the rule is rejected. */
  predicate Writes(step: Step, ruleId: string, rule: Rule)
  {
    && Drafts(step, ruleId) && step.data.fields == rule.fields
    && (rule.status != Rejected ==> step.data.status == Backtested)
  }

  ghost predicate Justified(rules: map<string, Rule>, steps: seq<Step>, ruleId: string)
  {
    ruleId in rules ==>
      rules[ruleId].status != Proposed && exists n | 0 <= n < |steps| :: Writes(steps[n], ruleId, rules[ruleId])
  }

  lemma JustifiedStep(rules: map<string, Rule>, steps: seq<Step>, step: Step, ruleId: string)
    requires Justified(rules, steps, ruleId)
    requires step.Draft? ==> step.data.status in {Backtested, Rejected}
    ensures Justified(Apply(rules, step), steps + [step], ruleId)
  {
    var all, after := steps + [step], Apply(rules, step);
    assert all[|steps|] == step;
    if ruleId in after {
      if Drafts(step, ruleId) && after[ruleId].fields == step.data.fields && after[ruleId].status == step.data.status {
        assert Writes(all[|steps|], ruleId, after[ruleId]);
      } else {
        var n :| 0 <= n < |steps| && Writes(steps[n], ruleId, rules[ruleId]);
        assert Writes(all[n], ruleId, after[ruleId]);
      }
    }
  }

  lemma {:induction false} RunsAreJustified(steps: seq<Step>, ruleId: string)
    requires FromVerdicts(steps)
    ensures Justified(RunFrom(map[], steps), steps, ruleId)
  {
    if steps != [] {
      var init, last := steps[..|steps| - 1], steps[|steps| - 1];
      RunsAreJustified(init, ruleId);
      JustifiedStep(RunFrom(map[], init), init, last, ruleId);
      assert steps == init + [last];
    }
  }

  /** While a rule is approved no step changes its fields, and only an explicit rejection ends the approval. */
  lemma ApprovedIsFrozen(rules: map<string, Rule>, step: Step, ruleId: string)
    requires ruleId in rules && rules[ruleId].status == Approved
    ensures var after := Apply(rules, step);
            && ruleId in after
            && after[ruleId].fields == rules[ruleId].fields
            && (after[ruleId].status != Approved <==> step.Review? && step.ruleId == ruleId && !step.approve)
  {
  }

  ghost predicate NeverRejects(steps: seq<Step>, ruleId: string)
  {
    forall n | 0 <= n < |steps| :: !(steps[n].Review? && steps[n].ruleId == ruleId && !steps[n].approve)
  }

  /** An approval and the fields it approved outlast any run of reruns and reviews that never rejects the rule. */
  lemma {:induction false} ApprovalLasts(rules: map<string, Rule>, steps: seq<Step>, ruleId: string)
    requires ruleId in rules && rules[ruleId].status == Approved && NeverRejects(steps, ruleId)
    ensures var after := RunFrom(rules, steps);
            ruleId in after && after[ruleId].status == Approved && after[ruleId].fields == rules[ruleId].fields
  {
    if steps != [] {
      var init := steps[..|steps| - 1];
      assert forall n | 0 <= n < |init| :: init[n] == steps[n];
      ApprovalLasts(rules, init, ruleId);
      ApprovedIsFrozen(RunFrom(rules, init), steps[|steps| - 1], ruleId);
    }
  }

  /** How a step can move a rule between rejection and approval. */
  lemma StatusMoves(rules: map<string, Rule>, step: Step, ruleId: string)
    requires ruleId in rules
    requires step.Draft? ==> step.data.status in {Backtested, Rejected}
    ensures var before, after := rules[ruleId].status, Apply(rules, step);
            && ruleId in after
            && (before == Rejected && after[ruleId].status != Rejected ==>
                  Passes(step, ruleId) && after[ruleId].status == Backtested)
            && (before != Approved && after[ruleId].status == Approved ==>
                  step.Review? && step.ruleId == ruleId && step.approve && before != Rejected)
  {
  }

  /** A rejected rule is approved again only after a rerun that passes, followed by an approving review. */
  lemma {:induction false} RejectedNeedsFreshBacktest(rules: map<string, Rule>, steps: seq<Step>, ruleId: string)
    requires ruleId in rules && rules[ruleId].status == Rejected && FromVerdicts(steps)
    ensures var after := RunFrom(rules, steps);
            && ruleId in after
            && (after[ruleId].status != Rejected ==> exists n | 0 <= n < |steps| :: Passes(steps[n], ruleId))
            && (after[ruleId].status == Approved ==>
                  exists n, m | 0 <= n < m < |steps| ::
                    Passes(steps[n], ruleId) && steps[m].Review? && steps[m].ruleId == ruleId && steps[m].approve)
  {
    if steps != [] {
      var init, last := steps[..|steps| - 1], steps[|steps| - 1];
      RejectedNeedsFreshBacktest(rules, init, ruleId);
      var before := RunFrom(rules, init);
      StatusMoves(before, last, ruleId);
      assert forall n | 0 <= n < |init| :: steps[n] == init[n];
      assert steps[|init|] == last;
    }
  }

  // ----------------------------------------------------- commands and evidence

  datatype Command =
    | Rerun(ruleId: string, rows: seq<AuditRow>, spec: CandidateSpec, kind: Benchmark)
    | Decide(ruleId: string, approve: bool, now: int)

  function StepOf(c: Command): Step
  {
    match c
    case Rerun(ruleId, rows, spec, kind) => Draft(FromEvaluation(ruleId, spec, Evaluate(rows, spec, kind)))
    case Decide(ruleId, approve, now) => Review(ruleId, approve, now)
  }

  function StepsOf(commands: seq<Command>): seq<Step>
  {
    Map(commands, (c: Command) => StepOf(c))
  }

  /** The fields are those of this rerun's evaluation, and its verdict was BACKTESTED. */
  predicate Carries(c: Command, f: RuleFields)
    requires c.Rerun?
  {
    var e := Evaluate(c.rows, c.spec, c.kind);
    && e.status.Passing?
    && f.affectedAction == c.spec.affectedAction && f.sampleSize == e.fullHistory.n
    && f.confidence == e.confidence && f.supporting == e
  }

  /** What a draft that passed says about the evidence behind it. */
  lemma PassingDraft(c: Command, ruleId: string)
    ensures Passes(StepOf(c), ruleId) ==>
            && c.Rerun? && c.ruleId == ruleId
            && var f := StepOf(c).data.fields;
            && f.sampleSize >= 15
            && f.confidence.Some? && 0.15 <= f.confidence.value <= 0.90
            && Carries(c, f)
            && Convincing(c.rows, c.spec, f.supporting)
  {
    if Passes(StepOf(c), ruleId) {
      BacktestedIsConvincing(c.rows, c.spec, c.kind);
    }
  }

  /**
   * Approval safety: in every state any interleaving of reruns and reviews can reach, a rule that is
   * BACKTESTED or APPROVED carries the fields of a rerun whose evaluation passed, and with them the
   * evidence that a passing verdict forces.
   */
  lemma ApprovalSafety(commands: seq<Command>, ruleId: string)
    ensures var rules := RunFrom(map[], StepsOf(commands));
            ruleId in rules && rules[ruleId].status in {Backtested, Approved} ==>
              var f := rules[ruleId].fields;
              && f.sampleSize >= 15
              && f.confidence.Some? && 0.15 <= f.confidence.value <= 0.90
              && exists c | c in commands && c.Rerun? && c.ruleId == ruleId ::
                   Carries(c, f) && Convincing(c.rows, c.spec, f.supporting)
  {
    var steps := StepsOf(commands);
    var rules := RunFrom(map[], steps);
    forall n | 0 <= n < |steps| && steps[n].Draft? ensures steps[n].data.status in {Backtested, Rejected} {
      assert steps[n] == StepOf(commands[n]);
    }
    RunsAreJustified(steps, ruleId);
    if ruleId in rules && rules[ruleId].status in {Backtested, Approved} {
      var n :| 0 <= n < |steps| && Writes(steps[n], ruleId, rules[ruleId]);
      assert steps[n] == StepOf(commands[n]);
      PassingDraft(commands[n], ruleId);
      assert commands[n] in commands;
    }
  }

  // ------------------------------------------------- what the steps write

  /**
   * A draft writes fields and status of its rule unless that is approved; an earlier approval stamp
   * and all other rules stay.
   */
  lemma DraftMeans(rules: map<string, Rule>, data: RuleCreate, ruleId: string)
    ensures var after := Apply(rules, Draft(data));
            && (ruleId in after <==> ruleId in rules || ruleId == data.ruleId)
            && (ruleId in rules && (ruleId != data.ruleId || rules[ruleId].status == Approved)
               ==> after[ruleId] == rules[ruleId])
            && (ruleId == data.ruleId && ruleId in rules && rules[ruleId].status != Approved ==>
                  after[ruleId] == Rule(data.fields, data.status, rules[ruleId].approvedAt))
            && (ruleId == data.ruleId && ruleId !in rules ==> after[ruleId] == Rule(data.fields, data.status, None))
  {
  }

  /** A review approves with a stamp or rejects, but never approves a rejected rule; fields and all other rules stay. */
  lemma ReviewMeans(rules: map<string, Rule>, reviewed: string, approve: bool, now: int, ruleId: string)
    ensures var after := Apply(rules, Review(reviewed, approve, now));
            && (ruleId in after <==> ruleId in rules)
            && (ruleId in rules && ruleId != reviewed ==> after[ruleId] == rules[ruleId])
            && (ruleId in rules && ruleId == reviewed ==>
                  && (!approve ==> after[ruleId] == rules[ruleId].(status := Rejected))
                  && (approve && rules[ruleId].status == Rejected ==> after[ruleId] == rules[ruleId])
                  && (approve && rules[ruleId].status != Rejected ==>
                        after[ruleId] == Rule(rules[ruleId].fields, Approved, Some(now))))
  {
  }
}
