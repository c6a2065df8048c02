// The access decision and its bookkeeping: which grant allows a request, and how often a grant
// can be used over a run of requests. Times are microseconds.
module Acl {
  import opened Arith
  import opened Base
  import Glob
  import Cron
  import Text

  const MICROS := 1_000_000

  datatype Action = Create | Read | Update | Delete

  function ActionBit(a: Action): nat {
    match a
    case Create => 1
    case Read => 2
    case Update => 4
    case Delete => 8
  }

  predicate HasBit(mask: int, bit: nat)
    requires bit > 0
  {
    (mask / bit) % 2 == 1
  }

  // `pattern` is None when it does not decrypt to text.
  datatype Rule = Rule(
    domain: string,
    clientId: Option<string>,
    groupDomain: Option<string>,
    pattern: Option<string>,
    actions: int,
    expiresAt: Option<int>,
    notBefore: Option<int>,
    schedule: Option<string>,
    maxUses: Option<int>,
    useCount: int,
    rateMax: Option<int>,
    ratePeriod: Option<int>,
    rateCount: int,
    windowStart: Option<int>)

  // A reading of the server's clock, and its calendar fields.
  datatype Reading = Reading(now: int, moment: Cron.Moment)

  // Who asks for what, and when: the database's clock, and the server's as it is read again for
  // each grant tried.
  datatype Query = Query(
    clientId: string,
    globalAdmin: bool,
    adminOf: set<string>,
    memberOf: set<string>,
    domain: string,
    resource: string,
    action: Action,
    dbNow: int,
    clock: nat -> Reading)

  datatype Decision = AllowedAdmin | AllowedDomainAdmin | Allowed(rule: nat) | Denied

  // ----- one rule --------------------------------------------------------------------

  // The database's part of the test.
  predicate Candidate(r: Rule, q: Query) {
    && r.domain == q.domain
    && (r.clientId == Some(q.clientId) || (r.groupDomain.Some? && r.groupDomain.value in q.memberOf))
    && HasBit(r.actions, ActionBit(q.action))
    && (r.expiresAt.None? || r.expiresAt.value > q.dbNow)
    && (r.notBefore.None? || r.notBefore.value <= q.dbNow)
    && (r.maxUses.None? || r.useCount < r.maxUses.value)
  }

  // A malformed schedule denies.
  predicate InSchedule(r: Rule, moment: Cron.Moment) {
    r.schedule.None? || Cron.ScanExpression(r.schedule.value, moment) == Ok(true)
  }

  predicate RateOk(r: Rule, now: int) {
    if r.rateMax.None? || r.ratePeriod.None? then true
    else if r.rateMax.value <= 0 || r.ratePeriod.value <= 0 then true
    else if r.windowStart.None? then true
    else if now - r.windowStart.value >= r.ratePeriod.value * MICROS then true
    else r.rateCount < r.rateMax.value
  }

  // Grant `k`, tried at its own reading of the clock.
  predicate Permits(r: Rule, q: Query, k: nat) {
    && Candidate(r, q)
    && r.pattern.Some? && Glob.SqlLike(r.pattern.value, q.resource)
    && InSchedule(r, q.clock(k).moment) && RateOk(r, q.clock(k).now)
  }

  // What the database does when a use is recorded.
  function Recorded(r: Rule, now: int): Rule {
    var used := r.(useCount := r.useCount + 1);
    if r.ratePeriod.None? then used
    else if r.windowStart.None? || r.windowStart.value + r.ratePeriod.value * MICROS <= now then
      used.(windowStart := Some(now), rateCount := 1)
    else used.(rateCount := r.rateCount + 1)
  }

  // The stored grants, updated as uses are recorded.
  class AclTable {
    var rules: seq<Rule>

    constructor (rules: seq<Rule>)
      ensures this.rules == rules
    {
      this.rules := rules;
    }

    // Only a grant that decided is charged: admins' requests are not counted anywhere.
    method RecordUse(d: Decision, now: int)
      modifies this`rules
      ensures d.Allowed? && d.rule < |old(rules)| ==> rules == old(rules)[d.rule := Recorded(old(rules)[d.rule], now)]
      ensures !(d.Allowed? && d.rule < |old(rules)|) ==> rules == old(rules)
    {
      if d.Allowed? && d.rule < |rules| {
        var r := rules[d.rule];
        var windowStart, rateCount := r.windowStart, r.rateCount;
        if r.ratePeriod.Some? {
          if r.windowStart.None? || r.windowStart.value + r.ratePeriod.value * MICROS <= now {
            windowStart, rateCount := Some(now), 1;
          } else {
            rateCount := r.rateCount + 1;
          }
        }
        rules := rules[d.rule := r.(useCount := r.useCount + 1, windowStart := windowStart, rateCount := rateCount)];
      }
    }
  }

  // ----- the decision ----------------------------------------------------------------

  function FirstPermitting(rules: seq<Rule>, q: Query, i: nat): Decision
    requires i <= |rules|
    decreases |rules| - i
  {
    if i == |rules| then Denied
    else if Permits(rules[i], q, i) then Allowed(i)
    else FirstPermitting(rules, q, i + 1)
  }

  // `rules` in the order they are tried, newest grant first.
  function Decide(rules: seq<Rule>, q: Query): Decision {
    if q.globalAdmin then AllowedAdmin
    else if q.domain in q.adminOf then AllowedDomainAdmin
    else FirstPermitting(rules, q, 0)
  }

  method AclCheck(rules: seq<Rule>, q: Query) returns (d: Decision)
    ensures d == Decide(rules, q)
  {
    if q.globalAdmin {
      return AllowedAdmin;
    }
    if q.domain in q.adminOf {
      return AllowedDomainAdmin;
    }
    var i := 0;
    while i < |rules|
      invariant 0 <= i <= |rules|
      invariant Decide(rules, q) == FirstPermitting(rules, q, i)
    {
      var r := rules[i];
      if Candidate(r, q) && r.pattern.Some? {
        var matched, _ := Glob.SqlLikeMatch(r.pattern.value, q.resource);
        var inWindow := true;
        if matched && r.schedule.Some? {
          var window := Cron.CronWindowMatches(r.schedule.value, q.clock(i).moment);
          inWindow := window == Ok(true);
        }
        if matched && inWindow && RateOk(r, q.clock(i).now) {
          return Allowed(i);
        }
      }
      i := i + 1;
    }
    return Denied;
  }

  // What a grant that allows a request has been checked for, in terms of what its pattern and
  // schedule mean; and a refusal to a client without a role means no grant passes.
  lemma {:induction false} FirstPermittingMeaning(rules: seq<Rule>, q: Query, i: nat)
    requires i <= |rules|
    ensures var d := FirstPermitting(rules, q, i);
            && (d.Allowed? ==> i <= d.rule < |rules| && Permits(rules[d.rule], q, d.rule)
                               && forall k :: i <= k < d.rule ==> !Permits(rules[k], q, k))
            && (d.Allowed? || (d.Denied? && forall k :: i <= k < |rules| ==> !Permits(rules[k], q, k)))
    decreases |rules| - i
  {
    if i < |rules| && !Permits(rules[i], q, i) {
      FirstPermittingMeaning(rules, q, i + 1);
    }
  }

  // The mask of a set of actions.
  function MaskOf(actions: set<Action>): int {
    (if Create in actions then 1 else 0) + (if Read in actions then 2 else 0)
    + (if Update in actions then 4 else 0) + (if Delete in actions then 8 else 0)
  }

  lemma MaskHasItsActions(actions: set<Action>, a: Action)
    ensures HasBit(MaskOf(actions), ActionBit(a)) <==> a in actions
  {
  }

  // All uses of the current window are gone.
  predicate UsedUp(r: Rule, now: int) {
    && r.rateMax.Some? && r.ratePeriod.Some? && r.rateMax.value > 0 && r.ratePeriod.value > 0
    && r.windowStart.Some? && now < r.windowStart.value + r.ratePeriod.value * MICROS
    && r.rateCount >= r.rateMax.value
  }

  predicate WellScheduled(r: Rule) {
    r.schedule.Some? ==> |Text.Words(r.schedule.value)| == 5 && Cron.AllWellFormed(Text.Words(r.schedule.value))
  }

  // What a grant of these actions says: whom, where, what, when, and how often.
  predicate Entitles(r: Rule, actions: set<Action>, q: Query, at: Reading) {
    && (r.clientId == Some(q.clientId) || (r.groupDomain.Some? && r.groupDomain.value in q.memberOf))
    && r.domain == q.domain && r.pattern.Some? && Glob.Matches(r.pattern.value, q.resource)
    && q.action in actions
    && (r.notBefore.Some? ==> r.notBefore.value <= q.dbNow) && (r.expiresAt.Some? ==> q.dbNow < r.expiresAt.value)
    && (r.schedule.Some? ==> |Text.Words(r.schedule.value)| == 5 && Cron.InWindow(Text.Words(r.schedule.value), at.moment))
    && (r.maxUses.Some? ==> r.useCount < r.maxUses.value) && !UsedUp(r, at.now)
  }

  // The database's part, in the grant's own fields.
  lemma CandidateMeaning(r: Rule, actions: set<Action>, q: Query)
    requires r.actions == MaskOf(actions)
    ensures Candidate(r, q)
            <==> && r.domain == q.domain && q.action in actions
                 && (r.clientId == Some(q.clientId) || (r.groupDomain.Some? && r.groupDomain.value in q.memberOf))
                 && (r.notBefore.Some? ==> r.notBefore.value <= q.dbNow) && (r.expiresAt.Some? ==> q.dbNow < r.expiresAt.value)
                 && (r.maxUses.Some? ==> r.useCount < r.maxUses.value)
  {
    MaskHasItsActions(actions, q.action);
  }

  lemma PatternMeaning(pattern: string, resource: string)
    ensures Glob.SqlLike(pattern, resource) ==> Glob.Matches(pattern, resource)
    ensures Glob.Starless(resource) ==> (Glob.SqlLike(pattern, resource) <==> Glob.Matches(pattern, resource))
  {
    if Glob.SqlLike(pattern, resource) {
      Glob.AcceptedIsMatch(pattern, resource);
    }
    if Glob.Starless(resource) {
      Glob.AgreesOnStarlessTexts(pattern, resource);
    }
  }

  lemma ScheduleMeaning(r: Rule, moment: Cron.Moment)
    ensures var inside := r.schedule.Some? ==> |Text.Words(r.schedule.value)| == 5 && Cron.InWindow(Text.Words(r.schedule.value), moment);
            && (InSchedule(r, moment) ==> inside)
            && (WellScheduled(r) ==> (InSchedule(r, moment) <==> inside))
  {
    if r.schedule.Some? {
      Cron.WindowMeaning(r.schedule.value, moment);
    }
  }

  lemma RateMeaning(r: Rule, now: int)
    ensures RateOk(r, now) <==> !UsedUp(r, now)
  {
  }

  // A grant permits only what it says; and all that, of a resource without '*' and with a schedule
  // that is well formed.
  lemma PermitsMeaning(r: Rule, actions: set<Action>, q: Query, k: nat)
    requires r.actions == MaskOf(actions)
    ensures Permits(r, q, k) ==> Entitles(r, actions, q, q.clock(k))
    ensures Glob.Starless(q.resource) && WellScheduled(r) ==> (Permits(r, q, k) <==> Entitles(r, actions, q, q.clock(k)))
  {
    CandidateMeaning(r, actions, q);
    if r.pattern.Some? {
      PatternMeaning(r.pattern.value, q.resource);
    }
    ScheduleMeaning(r, q.clock(k).moment);
    RateMeaning(r, q.clock(k).now);
  }

  // Administrators are allowed as such, and no one else; a grant that allows anyone entitles them.
  lemma AllowedMeaning(rules: seq<Rule>, q: Query, actions: set<Action>)
    ensures Decide(rules, q) == AllowedAdmin <==> q.globalAdmin
    ensures Decide(rules, q) == AllowedDomainAdmin <==> !q.globalAdmin && q.domain in q.adminOf
    ensures Decide(rules, q).Allowed? ==>
              var k := Decide(rules, q).rule;
              k < |rules| && (rules[k].actions == MaskOf(actions) ==> Entitles(rules[k], actions, q, q.clock(k)))
  {
    FirstPermittingMeaning(rules, q, 0);
    if Decide(rules, q).Allowed? && rules[Decide(rules, q).rule].actions == MaskOf(actions) {
      PermitsMeaning(rules[Decide(rules, q).rule], actions, q, Decide(rules, q).rule);
    }
  }

  // A grant that entitles is never passed over for a refusal, whatever the other grants hold.
  lemma EntitledIsNotDenied(rules: seq<Rule>, q: Query, actions: set<Action>, k: nat)
    requires k < |rules| && rules[k].actions == MaskOf(actions) && WellScheduled(rules[k]) && Glob.Starless(q.resource)
    requires Entitles(rules[k], actions, q, q.clock(k))
    ensures !Decide(rules, q).Denied?
  {
    PermitsMeaning(rules[k], actions, q, k);
    DeniedMeaning(rules, q);
  }

  // For a client without a role, a resource without '*', and well-formed grants: the first grant
  // that entitles it decides, and it is denied exactly if there is none.
  lemma DecisionMeaning(rules: seq<Rule>, granted: seq<set<Action>>, q: Query)
    requires |granted| == |rules| && forall k :: 0 <= k < |rules| ==> rules[k].actions == MaskOf(granted[k]) && WellScheduled(rules[k])
    requires !q.globalAdmin && q.domain !in q.adminOf && Glob.Starless(q.resource)
    ensures forall k: nat :: k < |rules| ==>
              (Decide(rules, q) == Allowed(k)
               <==> Entitles(rules[k], granted[k], q, q.clock(k))
                    && forall j: nat :: j < k ==> !Entitles(rules[j], granted[j], q, q.clock(j)))
    ensures Decide(rules, q) == Denied <==> forall k: nat :: k < |rules| ==> !Entitles(rules[k], granted[k], q, q.clock(k))
  {
    forall k: nat | k < |rules|
      ensures Permits(rules[k], q, k) <==> Entitles(rules[k], granted[k], q, q.clock(k))
    {
      PermitsMeaning(rules[k], granted[k], q, k);
    }
    FirstPermittingMeaning(rules, q, 0);
  }

  lemma DeniedMeaning(rules: seq<Rule>, q: Query)
    ensures Decide(rules, q).Denied?
            <==> !q.globalAdmin && q.domain !in q.adminOf && forall k :: 0 <= k < |rules| ==> !Permits(rules[k], q, k)
  {
    FirstPermittingMeaning(rules, q, 0);
  }

  // ----- runs of check-then-record ---------------------------------------------------

  // A request, and the time its use is recorded if the action succeeds.
  datatype Attempt = Attempt(query: Query, recordAt: int, succeeds: bool)

  function AttemptStep(rules: seq<Rule>, a: Attempt): (after: seq<Rule>)
    ensures |after| == |rules|
  {
    var d := Decide(rules, a.query);
    if d.Allowed? && d.rule < |rules| && a.succeeds
    then rules[d.rule := Recorded(rules[d.rule], a.recordAt)]
    else rules
  }

  function Run(rules: seq<Rule>, attempts: seq<Attempt>): (after: seq<Rule>)
    ensures |after| == |rules|
  {
    if attempts == [] then rules
    else AttemptStep(Run(rules, attempts[..|attempts| - 1]), attempts[|attempts| - 1])
  }

  predicate UsesRule(rules: seq<Rule>, a: Attempt, k: nat) {
    Decide(rules, a.query) == Allowed(k) && a.succeeds
  }

  // How often rule `k` was used with a recorded time in [from, until).
  function UsesIn(rules: seq<Rule>, attempts: seq<Attempt>, k: nat, from: int, until: int): nat {
    if attempts == [] then 0
    else
      var last := attempts[|attempts| - 1];
      UsesIn(rules, attempts[..|attempts| - 1], k, from, until)
      + if UsesRule(Run(rules, attempts[..|attempts| - 1]), last, k) && from <= last.recordAt < until then 1 else 0
  }

  function AllUses(rules: seq<Rule>, attempts: seq<Attempt>, k: nat): nat {
    if attempts == [] then 0
    else
      var last := attempts[|attempts| - 1];
      AllUses(rules, attempts[..|attempts| - 1], k)
      + if UsesRule(Run(rules, attempts[..|attempts| - 1]), last, k) then 1 else 0
  }

  // Sequential in time: each request is checked, then recorded, then the next one comes.
  ghost predicate Sequential(attempts: seq<Attempt>) {
    && (forall i, k: nat :: 0 <= i < |attempts| ==> attempts[i].query.clock(k).now <= attempts[i].recordAt)
    && (forall i, j, k: nat :: 0 <= i < j < |attempts| ==> attempts[i].recordAt <= attempts[j].query.clock(k).now)
  }

  // The grant's own terms, which recording a use does not touch.
  predicate SameTerms(r: Rule, s: Rule) {
    s.(useCount := r.useCount, rateCount := r.rateCount, windowStart := r.windowStart) == r
  }

  lemma UsedRuleIsPermitted(rules: seq<Rule>, a: Attempt, k: nat)
    requires UsesRule(rules, a, k)
    ensures k < |rules| && Permits(rules[k], a.query, k)
    ensures AttemptStep(rules, a) == rules[k := Recorded(rules[k], a.recordAt)]
  {
    FirstPermittingMeaning(rules, a.query, 0);
  }

  lemma UnusedRuleIsUntouched(rules: seq<Rule>, a: Attempt, k: nat)
    requires k < |rules| && !UsesRule(rules, a, k)
    ensures AttemptStep(rules, a)[k] == rules[k]
  {
  }

  // ----- how often a grant can be used -----------------------------------------------

  // Every use is counted, and no more than `maxUses` ever happen.
  lemma {:induction false} UsesAreCapped(rules: seq<Rule>, attempts: seq<Attempt>, k: nat)
    requires k < |rules|
    requires rules[k].maxUses.Some? ==> rules[k].useCount <= rules[k].maxUses.value
    ensures var r := Run(rules, attempts)[k];
            && SameTerms(rules[k], r)
            && r.useCount == rules[k].useCount + AllUses(rules, attempts, k)
            && (r.maxUses.Some? ==> r.useCount <= r.maxUses.value)
  {
    if attempts != [] {
      var init, last := attempts[..|attempts| - 1], attempts[|attempts| - 1];
      UsesAreCapped(rules, init, k);
      UseIsCounted(Run(rules, init), last, k);
    }
  }

  // One attempt adds one to the count exactly when it uses the rule, and only below the cap.
  lemma UseIsCounted(rules: seq<Rule>, a: Attempt, k: nat)
    requires k < |rules|
    requires rules[k].maxUses.Some? ==> rules[k].useCount <= rules[k].maxUses.value
    ensures var r := AttemptStep(rules, a)[k];
            && SameTerms(rules[k], r)
            && r.useCount == rules[k].useCount + (if UsesRule(rules, a, k) then 1 else 0)
            && (r.maxUses.Some? ==> r.useCount <= r.maxUses.value)
  {
    if UsesRule(rules, a, k) {
      UsedRuleIsPermitted(rules, a, k);
    } else {
      UnusedRuleIsUntouched(rules, a, k);
    }
  }

  predicate Limited(r: Rule) {
    r.rateMax.Some? && r.ratePeriod.Some? && r.rateMax.value > 0 && r.ratePeriod.value > 0
  }

  predicate WindowOpen(r: Rule, now: int)
    requires Limited(r)
  {
    r.windowStart.Some? && now < r.windowStart.value + r.ratePeriod.value * MICROS
  }

  // The check and the update see the same window: with one open, the check allows while the
  // count is below the limit and the update adds to it; without, both start afresh. So a use that
  // was allowed, recorded then or later, leaves the count between one and the limit.
  lemma CheckAndRecordAgree(r: Rule, checkAt: int, recordAt: int)
    requires Limited(r) && checkAt <= recordAt && 0 <= r.rateCount <= r.rateMax.value
    ensures RateOk(r, checkAt) <==> !WindowOpen(r, checkAt) || r.rateCount < r.rateMax.value
    ensures Recorded(r, recordAt).rateCount == (if WindowOpen(r, recordAt) then r.rateCount + 1 else 1)
    ensures Recorded(r, recordAt).windowStart == (if WindowOpen(r, recordAt) then r.windowStart else Some(recordAt))
    ensures RateOk(r, checkAt) ==> 1 <= Recorded(r, recordAt).rateCount <= r.rateMax.value
  {
  }

  lemma {:induction false} RateCountIsCapped(rules: seq<Rule>, attempts: seq<Attempt>, k: nat)
    requires k < |rules| && Limited(rules[k]) && 0 <= rules[k].rateCount <= rules[k].rateMax.value
    requires Sequential(attempts)
    ensures var r := Run(rules, attempts)[k];
            SameTerms(rules[k], r) && 0 <= r.rateCount <= r.rateMax.value
  {
    if attempts != [] {
      var init, last := attempts[..|attempts| - 1], attempts[|attempts| - 1];
      RateCountIsCapped(rules, init, k);
      var before := Run(rules, init);
      if UsesRule(before, last, k) {
        UsedRuleIsPermitted(before, last, k);
        CheckAndRecordAgree(before[k], last.query.clock(k).now, last.recordAt);
      } else {
        UnusedRuleIsUntouched(before, last, k);
      }
    }
  }

  // ----- any interval ----------------------------------------------------------------

  // How many windows of length `period` can start in the first `span` of an interval, and the
  // rounded-up quotient of the two.
  function Ceiling(span: int, period: int): int
    requires period > 0
  {
    (span + period - 1) / period
  }

  // Windows that can have started up to the current one, times the limit.
  function Budget(r: Rule, from: int): int
    requires Limited(r) && r.windowStart.Some?
  {
    ((r.windowStart.value - from) / (r.ratePeriod.value * MICROS) + 1) * r.rateMax.value
  }

  // Uses in [from, until) so far: within the current window's count if that window began before
  // the interval, and else within the budget of the windows begun inside plus that count.
  ghost predicate Accounted(r: Rule, uses: nat, from: int, until: int)
    requires Limited(r)
  {
    && uses <= (Ceiling(until - from, r.ratePeriod.value * MICROS) + 1) * r.rateMax.value
    && (r.windowStart.None? ==> uses == 0)
    && (r.windowStart.Some? && r.windowStart.value < from ==> uses <= r.rateCount)
    && (r.windowStart.Some? && from <= r.windowStart.value < until ==> uses <= Budget(r, from) + r.rateCount)
  }

  lemma BudgetFits(r: Rule, from: int, until: int)
    requires Limited(r) && r.windowStart.Some? && from <= r.windowStart.value < until
    ensures r.rateMax.value <= Budget(r, from) <= Ceiling(until - from, r.ratePeriod.value * MICROS) * r.rateMax.value
  {
    var p, w := r.ratePeriod.value * MICROS, r.windowStart.value - from;
    DivideMonotone(w, until - from - 1, p);
    DivideShift(until - from - 1, p);
    MultiplyMonotone(1, w / p + 1, r.rateMax.value);
    MultiplyMonotone(w / p + 1, Ceiling(until - from, p), r.rateMax.value);
  }

  lemma BudgetGrows(r: Rule, s: Rule, from: int)
    requires Limited(r) && SameTerms(r, s) && r.windowStart.Some? && s.windowStart.Some?
    requires from <= r.windowStart.value && r.windowStart.value + r.ratePeriod.value * MICROS <= s.windowStart.value
    ensures Budget(r, from) + r.rateMax.value <= Budget(s, from)
  {
    var p := r.ratePeriod.value * MICROS;
    var w, v := r.windowStart.value - from, s.windowStart.value - from;
    DivideMonotone(w + p, v, p);
    DivideShift(w, p);
    MultiplyMonotone(w / p + 2, v / p + 1, r.rateMax.value);
    assert (w / p + 2) * r.rateMax.value == (w / p + 1) * r.rateMax.value + r.rateMax.value;
  }

  ghost predicate StartedBy(r: Rule, t: int) {
    r.windowStart.Some? ==> r.windowStart.value <= t
  }

  // Recording one more use keeps the account.
  lemma UseIsAccounted(r: Rule, uses: nat, checkAt: int, recordAt: int, from: int, until: int)
    requires Limited(r) && checkAt <= recordAt && 0 <= r.rateCount <= r.rateMax.value && from < until
    requires Accounted(r, uses, from, until) && RateOk(r, checkAt)
    requires StartedBy(r, recordAt) && (recordAt < from ==> uses == 0)
    ensures Accounted(Recorded(r, recordAt), if from <= recordAt < until then uses + 1 else uses, from, until)
  {
    CheckAndRecordAgree(r, checkAt, recordAt);
    var s, m := Recorded(r, recordAt), r.rateMax.value;
    var c := Ceiling(until - from, r.ratePeriod.value * MICROS);
    DivideShift(until - from - 1, r.ratePeriod.value * MICROS);
    DivideMonotone(0, until - from - 1, r.ratePeriod.value * MICROS);
    assert (c + 1) * m == c * m + m;
    MultiplyMonotone(1, c, m);
    if s.windowStart.Some? && from <= s.windowStart.value < until {
      BudgetFits(s, from, until);
      if !WindowOpen(r, recordAt) && r.windowStart.Some? && from <= r.windowStart.value {
        BudgetGrows(r, s, from);
      }
    }
  }

  lemma {:induction false} NoUsesYet(rules: seq<Rule>, attempts: seq<Attempt>, k: nat, from: int, until: int)
    requires forall i :: 0 <= i < |attempts| ==> attempts[i].recordAt < from
    ensures UsesIn(rules, attempts, k, from, until) == 0
  {
    if attempts != [] {
      NoUsesYet(rules, attempts[..|attempts| - 1], k, from, until);
    }
  }

  lemma {:induction false} RunIsAccounted(rules: seq<Rule>, attempts: seq<Attempt>, k: nat, from: int, until: int)
    requires k < |rules| && Limited(rules[k]) && 0 <= rules[k].rateCount <= rules[k].rateMax.value && from < until
    requires Sequential(attempts)
    requires attempts != [] ==> StartedBy(rules[k], attempts[0].query.clock(k).now)
    ensures Limited(Run(rules, attempts)[k]) && SameTerms(rules[k], Run(rules, attempts)[k])
    ensures Accounted(Run(rules, attempts)[k], UsesIn(rules, attempts, k, from, until), from, until)
    ensures attempts != [] ==> StartedBy(Run(rules, attempts)[k], attempts[|attempts| - 1].recordAt)
  {
    if attempts == [] {
      StartIsAccounted(rules[k], from, until);
    } else {
      var init, last := attempts[..|attempts| - 1], attempts[|attempts| - 1];
      RunIsAccounted(rules, init, k, from, until);
      RateCountIsCapped(rules, init, k);
      if init != [] {
        assert init[|init| - 1].recordAt <= last.query.clock(k).now;
      }
      if last.recordAt < from {
        NoUsesYet(rules, init, k, from, until);
      }
      AttemptIsAccounted(Run(rules, init), last, k, UsesIn(rules, init, k, from, until), from, until);
    }
  }

  lemma AttemptIsAccounted(rules: seq<Rule>, a: Attempt, k: nat, uses: nat, from: int, until: int)
    requires k < |rules| && Limited(rules[k]) && 0 <= rules[k].rateCount <= rules[k].rateMax.value && from < until
    requires a.query.clock(k).now <= a.recordAt && StartedBy(rules[k], a.query.clock(k).now)
    requires Accounted(rules[k], uses, from, until) && (a.recordAt < from ==> uses == 0)
    ensures var r := AttemptStep(rules, a)[k];
            && SameTerms(rules[k], r) && StartedBy(r, a.recordAt)
            && Accounted(r, if UsesRule(rules, a, k) && from <= a.recordAt < until then uses + 1 else uses, from, until)
  {
    if UsesRule(rules, a, k) {
      UsedRuleIsPermitted(rules, a, k);
      UseIsAccounted(rules[k], uses, a.query.clock(k).now, a.recordAt, from, until);
    } else {
      UnusedRuleIsUntouched(rules, a, k);
    }
  }

  lemma StartIsAccounted(r: Rule, from: int, until: int)
    requires Limited(r) && 0 <= r.rateCount && from < until
    ensures Accounted(r, 0, from, until)
  {
    var p := r.ratePeriod.value * MICROS;
    DivideShift(until - from - 1, p);
    DivideMonotone(0, until - from - 1, p);
    MultiplyMonotone(0, Ceiling(until - from, p) + 1, r.rateMax.value);
    if r.windowStart.Some? && from <= r.windowStart.value < until {
      BudgetFits(r, from, until);
    }
  }

  // Over any sequential run, a grant is used in any half-open interval at most
  // (ceiling of its length over the period, plus one) times the limit.
  lemma UsesPerInterval(rules: seq<Rule>, attempts: seq<Attempt>, k: nat, from: int, until: int)
    requires k < |rules| && Limited(rules[k]) && 0 <= rules[k].rateCount <= rules[k].rateMax.value && from < until
    requires Sequential(attempts)
    requires attempts != [] ==> StartedBy(rules[k], attempts[0].query.clock(k).now)
    ensures UsesIn(rules, attempts, k, from, until)
            <= (Ceiling(until - from, rules[k].ratePeriod.value * MICROS) + 1) * rules[k].rateMax.value
  {
    RunIsAccounted(rules, attempts, k, from, until);
  }
}
