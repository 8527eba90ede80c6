/** What holds of every run of the hook pipeline, whatever is registered and however the handlers
    behave. */
module HookLaws {
  import opened Wrappers
  import opened Events
  import opened Hooks

  // ---------------------------------------------------------------- one hook at a time

  /** The handler raised, timed out, returned no decision, or changed what it had not declared. */
  predicate HasFailed(spec: Spec, response: Response) {
    match response
    case Returned(d) => d.kind == Modify && !(d.patch.Keys <= spec.mutable)
    case Nothing => false
    case _ => true
  }

  predicate Changes(spec: Spec, response: Response) {
    response.Returned? && response.decision.kind == Modify && !HasFailed(spec, response)
  }

  predicate Ends(spec: Spec, response: Response) {
    (HasFailed(spec, response) && spec.mode == FailClosed) || (response.Returned? && response.decision.kind.Stops())
  }

  /** What hook `i` is shown when its turn comes: the invocation with the changes of the hooks
      before it that did not fail. */
  function Shown(bucket: Bucket, inv: Invocation, answers: Answers, i: nat): Invocation
    requires i <= |bucket|
  {
    if i == 0 then inv
    else
      var before := Shown(bucket, inv, answers, i - 1);
      var response := answers(bucket[i - 1].number, before);
      if Changes(bucket[i - 1].spec, response) then Patched(before, response.decision.patch) else before
  }

  function AnswerOf(bucket: Bucket, inv: Invocation, answers: Answers, i: nat): Response
    requires i < |bucket|
  {
    answers(bucket[i].number, Shown(bucket, inv, answers, i))
  }

  predicate EndsAt(bucket: Bucket, inv: Invocation, answers: Answers, i: nat)
    requires i < |bucket|
  {
    Ends(bucket[i].spec, answers(bucket[i].number, Shown(bucket, inv, answers, i)))
  }

  /** A refusal that names the hook which failed closed, and why. */
  predicate Refuses(d: Decision, spec: Spec, response: Response) {
    && d.kind == Reject && d.patch == map[]
    && d.reason == if response.TimedOut? then TimeoutOf(spec.name) else FailureOf(spec.name, CauseOf(spec, response))
  }

  function CauseOf(spec: Spec, response: Response): Cause {
    match response
    case Raised(message) => Exception(message)
    case WrongType(t) => NotADecision(t)
    case Returned(d) => Undeclared(d.patch.Keys - spec.mutable)
    case _ => Exception("")
  }

  lemma AttemptMeans(spec: Spec, response: Response, current: Invocation)
    ensures var e := Attempt(spec, response, current);
            && (e.terminal.kind.Stops() <==> Ends(spec, response))
            && (!Ends(spec, response) ==> e.terminal == PROCEED)
            && e.current == (if Changes(spec, response) then Patched(current, response.decision.patch) else current)
            && (Ends(spec, response) ==> if HasFailed(spec, response) then Refuses(e.terminal, spec, response)
                                         else e.terminal == response.decision)
  {
    if response.Returned? {
      var patched, invalid := response.decision.patch.Keys, response.decision.patch.Keys - spec.mutable;
      if invalid == {} {
        forall k | k in patched ensures k in spec.mutable { assert k !in invalid; }
      }
    }
  }

  lemma {:induction false} ShownShift(bucket: Bucket, inv: Invocation, answers: Answers, i: nat)
    requires 0 < i <= |bucket|
    ensures Shown(bucket, inv, answers, i) == Shown(bucket[1..], Shown(bucket, inv, answers, 1), answers, i - 1)
  {
    if i > 1 { ShownShift(bucket, inv, answers, i - 1); }
  }

  /** Seen from the second hook on, everything is one place earlier. */
  lemma EndsShift(bucket: Bucket, inv: Invocation, answers: Answers)
    requires bucket != []
    ensures var next := Shown(bucket, inv, answers, 1);
            && (forall i | 0 < i <= |bucket| ::
                  Shown(bucket, inv, answers, i) == Shown(bucket[1..], next, answers, i - 1))
            && (forall i | 0 < i < |bucket| ::
                  EndsAt(bucket, inv, answers, i) == EndsAt(bucket[1..], next, answers, i - 1))
  {
    var next := Shown(bucket, inv, answers, 1);
    forall i | 0 < i <= |bucket|
      ensures Shown(bucket, inv, answers, i) == Shown(bucket[1..], next, answers, i - 1)
    {
      ShownShift(bucket, inv, answers, i);
    }
  }

  // ---------------------------------------------------------------- which hooks run

  /** The hooks that ran are the first ones of the stage, in order, up to the first that ends it,
      or all of them; the result is what the next one would have been shown. */
  ghost predicate RanInOrder(bucket: Bucket, inv: Invocation, answers: Answers, o: Outcome) {
    var n := |o.reports|;
    && n <= |bucket|
    && (forall i | 0 <= i < n :: o.reports[i].hook == bucket[i].spec.name && o.reports[i].number == bucket[i].number)
    && (forall i | 0 <= i < n - 1 :: !EndsAt(bucket, inv, answers, i))
    && o.invocation == Shown(bucket, inv, answers, n)
    && if o.decision.kind.Stops() then n > 0 && EndsAt(bucket, inv, answers, n - 1)
       else n == |bucket| && o.decision == PROCEED && (n > 0 ==> !EndsAt(bucket, inv, answers, n - 1))
  }

  lemma RanShift(bucket: Bucket, inv: Invocation, answers: Answers, first: Report, rest: Outcome)
    requires bucket != [] && !EndsAt(bucket, inv, answers, 0)
    requires first.hook == bucket[0].spec.name && first.number == bucket[0].number
    requires RanInOrder(bucket[1..], Shown(bucket, inv, answers, 1), answers, rest)
    ensures RanInOrder(bucket, inv, answers, rest.(reports := [first] + rest.reports))
  {
    EndsShift(bucket, inv, answers);
    var o := rest.(reports := [first] + rest.reports);
    forall i | 0 <= i < |o.reports| - 1 ensures !EndsAt(bucket, inv, answers, i) {
      if i > 0 { assert !EndsAt(bucket[1..], Shown(bucket, inv, answers, 1), answers, i - 1); }
    }
  }

  lemma {:induction false} HooksRunInOrder(bucket: Bucket, inv: Invocation, answers: Answers)
    ensures RanInOrder(bucket, inv, answers, Pipeline(bucket, inv, answers))
    decreases |bucket|
  {
    if bucket != [] {
      var response := answers(bucket[0].number, inv);
      var e := Attempt(bucket[0].spec, response, inv);
      AttemptMeans(bucket[0].spec, response, inv);
      assert Shown(bucket, inv, answers, 0) == inv && Shown(bucket, inv, answers, 1) == e.current;
      if !Ends(bucket[0].spec, response) {
        HooksRunInOrder(bucket[1..], e.current, answers);
        RanShift(bucket, inv, answers, ReportOf(bucket[0], e), Pipeline(bucket[1..], e.current, answers));
      }
    }
  }

  ghost predicate DecidedBy(d: Decision, bucket: Bucket, inv: Invocation, answers: Answers, i: nat)
    requires i < |bucket|
  {
    var response := answers(bucket[i].number, Shown(bucket, inv, answers, i));
    if HasFailed(bucket[i].spec, response) then Refuses(d, bucket[i].spec, response)
    else response.Returned? && d == response.decision
  }

  /** The decision is the one of the hook that ended the stage, a refusal if that one failed. */
  lemma {:induction false} DecisionIsTheLastHooks(bucket: Bucket, inv: Invocation, answers: Answers)
    ensures var o := Pipeline(bucket, inv, answers); var n := |o.reports|;
            o.decision.kind.Stops() ==> 0 < n <= |bucket| && DecidedBy(o.decision, bucket, inv, answers, n - 1)
    decreases |bucket|
  {
    if bucket != [] {
      var response := answers(bucket[0].number, inv);
      var e := Attempt(bucket[0].spec, response, inv);
      AttemptMeans(bucket[0].spec, response, inv);
      if !Ends(bucket[0].spec, response) {
        var n := |Pipeline(bucket, inv, answers).reports|;
        DecisionIsTheLastHooks(bucket[1..], e.current, answers);
        if Pipeline(bucket, inv, answers).decision.kind.Stops() { ShownShift(bucket, inv, answers, n - 1); }
      }
    }
  }

  // ---------------------------------------------------------------- what is told of a run

  /** How a hook's turn is reported. */
  function StatusOf(spec: Spec, response: Response): string {
    if response.TimedOut? then "timeout" else if HasFailed(spec, response) then "failed" else "success"
  }

  /** What it decided: a refusal if it failed closed, or its answer, applied or not. */
  function KindOf(spec: Spec, response: Response): Kind {
    if HasFailed(spec, response) && spec.mode == FailClosed then Reject
    else if response.Returned? then response.decision.kind else Continue
  }

  ghost predicate Reported(bucket: Bucket, inv: Invocation, answers: Answers, reports: seq<Report>) {
    |reports| <= |bucket| && forall i | 0 <= i < |reports| :: IsReport(bucket, inv, answers, i, reports[i])
  }

  ghost predicate IsReport(bucket: Bucket, inv: Invocation, answers: Answers, i: nat, report: Report)
    requires i < |bucket|
  {
    var spec, response := bucket[i].spec, AnswerOf(bucket, inv, answers, i);
    report == Report(spec.name, bucket[i].number, StatusOf(spec, response), KindOf(spec, response))
  }

  lemma ReportMeans(r: Registered, response: Response, current: Invocation)
    ensures ReportOf(r, Attempt(r.spec, response, current))
         == Report(r.spec.name, r.number, StatusOf(r.spec, response), KindOf(r.spec, response))
  {
    if response.Returned? {
      var invalid := response.decision.patch.Keys - r.spec.mutable;
      if invalid == {} {
        forall k | k in response.decision.patch.Keys ensures k in r.spec.mutable { assert k !in invalid; }
      }
    }
  }

  /** Every hook that ran is reported with its own name, status and decision, in order. */
  lemma {:induction false} ReportsTellTheRun(bucket: Bucket, inv: Invocation, answers: Answers)
    ensures Reported(bucket, inv, answers, Pipeline(bucket, inv, answers).reports)
    decreases |bucket|
  {
    if bucket != [] {
      var response := answers(bucket[0].number, inv);
      var e := Attempt(bucket[0].spec, response, inv);
      assert Shown(bucket, inv, answers, 0) == inv;
      ReportMeans(bucket[0], response, inv);
      AttemptMeans(bucket[0].spec, response, inv);
      if !Ends(bucket[0].spec, response) {
        assert Shown(bucket, inv, answers, 1) == e.current;
        var rest := Pipeline(bucket[1..], e.current, answers).reports;
        ReportsTellTheRun(bucket[1..], e.current, answers);
        ReportedShift(bucket, inv, answers, rest);
        ReportedCons(bucket, inv, answers, ReportOf(bucket[0], e), rest);
      }
    }
  }

  lemma ReportedCons(bucket: Bucket, inv: Invocation, answers: Answers, first: Report, rest: seq<Report>)
    requires |rest| < |bucket| && IsReport(bucket, inv, answers, 0, first)
    requires forall i | 0 <= i < |rest| :: i + 1 < |bucket| && IsReport(bucket, inv, answers, i + 1, rest[i])
    ensures Reported(bucket, inv, answers, [first] + rest)
  {
    var all := [first] + rest;
    forall i | 0 <= i < |all| ensures IsReport(bucket, inv, answers, i, all[i]) {
      if i > 0 { assert IsReport(bucket, inv, answers, (i - 1) + 1, rest[i - 1]); }
    }
  }

  lemma ReportedShift(bucket: Bucket, inv: Invocation, answers: Answers, reports: seq<Report>)
    requires bucket != [] && Reported(bucket[1..], Shown(bucket, inv, answers, 1), answers, reports)
    ensures forall i | 0 <= i < |reports| :: i + 1 < |bucket| && IsReport(bucket, inv, answers, i + 1, reports[i])
  {
    EndsShift(bucket, inv, answers);
    var next := Shown(bucket, inv, answers, 1);
    forall i | 0 <= i < |reports| ensures i + 1 < |bucket| && IsReport(bucket, inv, answers, i + 1, reports[i]) {
      assert Shown(bucket, inv, answers, i + 1) == Shown(bucket[1..], next, answers, i);
      assert IsReport(bucket[1..], next, answers, i, reports[i]);
    }
  }

  /** The usage records name the same hooks and outcomes. */
  lemma UsagesTellTheRun(bucket: Bucket, inv: Invocation, answers: Answers, i: nat)
    requires i < |Pipeline(bucket, inv, answers).reports|
    ensures i < |bucket|
    ensures UsagesOf(inv, Pipeline(bucket, inv, answers).reports)[i]
         == Usage(inv.runId, bucket[i].spec.name,
                  StatusOf(bucket[i].spec, AnswerOf(bucket, inv, answers, i)), Name(inv.stage))
  {
    ReportsTellTheRun(bucket, inv, answers);
    assert IsReport(bucket, inv, answers, i, Pipeline(bucket, inv, answers).reports[i]);
  }

  /** What `enforce` makes of a run: the changed invocation passes exactly if no hook that ran ended the
      stage; otherwise the hook that did says whether it is rejected or paused, and why. */
  lemma VerdictExactly(bucket: Bucket, inv: Invocation, answers: Answers)
    ensures var o := Pipeline(bucket, inv, answers); var v, n := VerdictOf(o), |o.reports|;
            && n <= |bucket|
            && (v == Passed(Shown(bucket, inv, answers, n)) <==> n == 0 || !EndsAt(bucket, inv, answers, n - 1))
            && (n > 0 && EndsAt(bucket, inv, answers, n - 1) ==>
                  var spec, response := bucket[n - 1].spec, AnswerOf(bucket, inv, answers, n - 1);
                  if response.Returned? && !HasFailed(spec, response) then
                    v == if response.decision.kind == Reject then HookRejected(response.decision.reason)
                         else HookPaused(response.decision.reason)
                  else v.HookRejected?)
  {
    HooksRunInOrder(bucket, inv, answers);
    DecisionIsTheLastHooks(bucket, inv, answers);
  }

  /** The event of an attempt, in plain values. */
  function Told(r: Report, latency: int): Value {
    Dict(map["hook" := Str(r.hook), "status" := Str(r.status), "decision" := Str(KindName(r.decision)),
             "latency_ms" := Number(latency)])
  }

  function Names(executed: seq<string>): Value {
    List(seq(|executed|, i requires 0 <= i < |executed| => Str(executed[i])))
  }

  /** The event of the end. */
  function ToldLast(decision: Kind, executed: seq<string>): Value {
    Dict(map["decision" := Str(KindName(decision)), "executed_hooks" := Names(executed)])
  }

  /** Plain values thaw to themselves. */
  lemma PlainFields(fields: map<string, Value>)
    requires forall k | k in fields :: Thaw(fields[k]) == fields[k]
    ensures Thaw(Freeze(Dict(fields))) == Dict(fields)
  {
    ThawOfFreeze(Dict(fields));
  }

  lemma NamesArePlain(executed: seq<string>)
    ensures Thaw(Names(executed)) == Names(executed)
  {
  }

  /** The event tells its run, stage, type and content. */
  ghost predicate Says(e: Event, inv: Invocation, eventType: string, content: Value) {
    e.runId == inv.runId && e.phase == Name(inv.stage) && e.eventType == eventType && Thaw(e.payload) == content
  }

  lemma StartTells(inv: Invocation)
    ensures Says(Started(inv), inv, "hook_stage_started", Dict(map["operation_name" := Str(inv.operation)]))
  {
    PlainFields(map["operation_name" := Str(inv.operation)]);
  }

  lemma AttemptTells(inv: Invocation, r: Report, latency: int)
    ensures Says(AttemptFinished(inv, r, latency), inv, "hook_attempt_finished", Told(r, latency))
  {
    PlainFields(Told(r, latency).fields);
  }

  lemma EndTells(inv: Invocation, decision: Kind, executed: seq<string>)
    ensures Says(Finished(inv, decision, executed), inv, "hook_stage_finished", ToldLast(decision, executed))
  {
    NamesArePlain(executed);
    PlainFields(ToldLast(decision, executed).fields);
  }

  function NamesOf(bucket: Bucket): seq<string> {
    seq(|bucket|, i requires 0 <= i < |bucket| => bucket[i].spec.name)
  }

  /** A run submits the start, one event for each hook that ran, in order, and the end with the names of
      all of them. */
  lemma EventsTellTheRun(bucket: Bucket, inv: Invocation, answers: Answers, latency: nat -> int)
    ensures var o := Pipeline(bucket, inv, answers); var n, events := |o.reports|, Submitted(inv, o, latency);
            && |events| == n + 2 && n <= |bucket|
            && Says(events[0], inv, "hook_stage_started", Dict(map["operation_name" := Str(inv.operation)]))
            && (forall i | 0 <= i < n ::
                  Says(events[i + 1], inv, "hook_attempt_finished", Told(o.reports[i], latency(bucket[i].number))))
            && Says(events[n + 1], inv, "hook_stage_finished", ToldLast(o.decision.kind, NamesOf(bucket[..n])))
  {
    var o := Pipeline(bucket, inv, answers);
    HooksRunInOrder(bucket, inv, answers);
    EndsAreTold(inv, o, latency);
    ExecutedAreNamed(bucket, o.reports);
    forall i | 0 <= i < |o.reports|
      ensures Says(Submitted(inv, o, latency)[i + 1], inv, "hook_attempt_finished",
                   Told(o.reports[i], latency(bucket[i].number)))
    {
      AttemptIsTold(inv, o, latency, i);
    }
  }

  lemma ExecutedAreNamed(bucket: Bucket, reports: seq<Report>)
    requires |reports| <= |bucket| && forall i | 0 <= i < |reports| :: reports[i].hook == bucket[i].spec.name
    ensures Executed(reports) == NamesOf(bucket[..|reports|])
  {
  }

  lemma AttemptIsTold(inv: Invocation, o: Outcome, latency: nat -> int, i: nat)
    requires i < |o.reports|
    ensures |Submitted(inv, o, latency)| == |o.reports| + 2
    ensures Says(Submitted(inv, o, latency)[i + 1], inv, "hook_attempt_finished",
                 Told(o.reports[i], latency(o.reports[i].number)))
  {
    SubmittedInOrder(inv, o, latency, i);
    AttemptTells(inv, o.reports[i], latency(o.reports[i].number));
  }

  lemma EndsAreTold(inv: Invocation, o: Outcome, latency: nat -> int)
    ensures var events, n := Submitted(inv, o, latency), |o.reports|;
            && |events| == n + 2
            && Says(events[0], inv, "hook_stage_started", Dict(map["operation_name" := Str(inv.operation)]))
            && Says(events[n + 1], inv, "hook_stage_finished", ToldLast(o.decision.kind, Executed(o.reports)))
  {
    SubmittedEnds(inv, o, latency);
    StartTells(inv);
    EndTells(inv, o.decision.kind, Executed(o.reports));
  }

  lemma SubmittedInOrder(inv: Invocation, o: Outcome, latency: nat -> int, i: nat)
    requires i < |o.reports|
    ensures |Submitted(inv, o, latency)| == |o.reports| + 2
    ensures Submitted(inv, o, latency)[i + 1] == AttemptFinished(inv, o.reports[i], latency(o.reports[i].number))
  {
  }

  lemma SubmittedEnds(inv: Invocation, o: Outcome, latency: nat -> int)
    ensures var events, n := Submitted(inv, o, latency), |o.reports|;
            |events| == n + 2 && events[0] == Started(inv)
            && events[n + 1] == Finished(inv, o.decision.kind, Executed(o.reports))
  {
  }

  // ---------------------------------------------------------------- what hooks can change

  /** The two invocations agree outside `fields`, up to freezing. */
  ghost predicate AgreeOutside(a: Invocation, b: Invocation, fields: set<string>) {
    && SameRun(a, b)
    && (forall k | k !in fields :: k in a.data <==> k in b.data)
    && (forall k | k !in fields && k in a.data :: Thaw(a.data[k]) == Thaw(b.data[k]))
  }

  ghost predicate FrozenData(inv: Invocation) {
    forall k | k in inv.data :: Frozen(inv.data[k])
  }

  lemma PatchedAgrees(inv: Invocation, patch: map<string, Value>, fields: set<string>)
    requires patch.Keys <= fields
    ensures AgreeOutside(inv, Patched(inv, patch), fields) && FrozenData(Patched(inv, patch))
  {
    var t := Patched(inv, patch);
    forall k | k in t.data
      ensures Frozen(t.data[k]) && (k !in patch ==> Thaw(t.data[k]) == Thaw(inv.data[k]))
    {
      var source := if k in patch then patch[k] else inv.data[k];
      FreezeOfThaw(source);
      ThawOfFreeze(source);
      FreezeFreezes(Thaw(source));
    }
  }

  lemma {:induction false} ShownAgrees(bucket: Bucket, inv: Invocation, answers: Answers, i: nat, fields: set<string>)
    requires i <= |bucket| && forall j | 0 <= j < i :: bucket[j].spec.mutable <= fields
    ensures AgreeOutside(inv, Shown(bucket, inv, answers, i), fields)
    ensures FrozenData(inv) ==> FrozenData(Shown(bucket, inv, answers, i))
  {
    if i > 0 {
      var before := Shown(bucket, inv, answers, i - 1);
      var response := answers(bucket[i - 1].number, before);
      ShownAgrees(bucket, inv, answers, i - 1, fields);
      if Changes(bucket[i - 1].spec, response) { PatchedAgrees(before, response.decision.patch, fields); }
    }
  }

  /** Two frozen values that thaw to the same are the same. */
  lemma FrozenDecided(a: Value, b: Value)
    requires Frozen(a) && Frozen(b) && Thaw(a) == Thaw(b)
    ensures a == b
  {
    FrozenRoundTrip(a);
    FrozenRoundTrip(b);
  }

  /** A field that none of the hooks that ran has declared is as it was; so over all stages only
      declared fields change. */
  lemma OnlyDeclaredFieldsChange(bucket: Bucket, inv: Invocation, answers: Answers, fields: set<string>)
    requires FrozenData(inv)
    requires forall j | 0 <= j < |Pipeline(bucket, inv, answers).reports| && j < |bucket| ::
      bucket[j].spec.mutable <= fields
    ensures var t := Pipeline(bucket, inv, answers).invocation;
            && SameRun(t, inv)
            && forall k | k !in fields ::
                 (k in t.data <==> k in inv.data) && (k in inv.data ==> t.data[k] == inv.data[k])
  {
    var o := Pipeline(bucket, inv, answers);
    HooksRunInOrder(bucket, inv, answers);
    ShownAgrees(bucket, inv, answers, |o.reports|, fields);
    forall k | k !in fields && k in inv.data ensures o.invocation.data[k] == inv.data[k] {
      FrozenDecided(o.invocation.data[k], inv.data[k]);
    }
  }

  /** At the stages where nothing may change nothing does. */
  lemma ReadOnlyStages(bus: HookBus, inv: Invocation, answers: Answers)
    requires bus.Valid() && FrozenData(inv) && Allowed(inv.stage) == {}
    ensures Pipeline(bus.BucketOf(inv.stage), inv, answers).invocation == inv
  {
    var bucket := bus.BucketOf(inv.stage);
    assert forall j | 0 <= j < |bucket| :: bucket[j] in bucket;
    OnlyDeclaredFieldsChange(bucket, inv, answers, {});
    var t := Pipeline(bucket, inv, answers).invocation;
    assert t.data == inv.data;
  }

  /** At any stage the fields outside the stage's own stay as they are. */
  lemma StageFieldsOnly(bus: HookBus, inv: Invocation, answers: Answers, k: string)
    requires bus.Valid() && FrozenData(inv) && k !in Allowed(inv.stage)
    ensures var t := Pipeline(bus.BucketOf(inv.stage), inv, answers).invocation;
            (k in t.data <==> k in inv.data) && (k in inv.data ==> t.data[k] == inv.data[k])
  {
    var bucket := bus.BucketOf(inv.stage);
    assert forall j | 0 <= j < |bucket| :: bucket[j] in bucket;
    OnlyDeclaredFieldsChange(bucket, inv, answers, Allowed(inv.stage));
  }

  // ---------------------------------------------------------------- what hooks achieve

  /** A modification sets the fields of its patch, whatever they were, and leaves the others. */
  lemma ModifyOverrides(inv: Invocation, patch: map<string, Value>, k: string)
    ensures var t := Patched(inv, patch);
            && (k in t.data <==> k in patch || k in inv.data)
            && (k in patch ==> Thaw(t.data[k]) == Thaw(patch[k]))
            && (k !in patch && k in inv.data ==> Thaw(t.data[k]) == Thaw(inv.data[k]))
  {
    if k in patch {
      FreezeOfThaw(patch[k]);
      ThawOfFreeze(patch[k]);
    } else if k in inv.data {
      FreezeOfThaw(inv.data[k]);
      ThawOfFreeze(inv.data[k]);
    }
  }

  /** Hook `i` sets this field: it answers MODIFY with a patch it may apply that has the field. */
  predicate Sets(bucket: Bucket, inv: Invocation, answers: Answers, i: nat, k: string)
    requires i < |bucket|
  {
    var response := AnswerOf(bucket, inv, answers, i);
    Changes(bucket[i].spec, response) && k in response.decision.patch
  }

  /** `i` is the last of the first `n` hooks that sets the field. */
  ghost predicate LastToSet(bucket: Bucket, inv: Invocation, answers: Answers, n: nat, k: string, i: nat)
    requires n <= |bucket|
  {
    i < n && Sets(bucket, inv, answers, i, k) && forall j: nat | i < j < n :: !Sets(bucket, inv, answers, j, k)
  }

  ghost predicate NobodySets(bucket: Bucket, inv: Invocation, answers: Answers, n: nat, k: string)
    requires n <= |bucket|
  {
    forall j: nat | j < n :: !Sets(bucket, inv, answers, j, k)
  }

  lemma {:induction false} ShownHasLastPatch(bucket: Bucket, inv: Invocation, answers: Answers, n: nat, k: string,
                                             i: nat)
    requires n <= |bucket| && LastToSet(bucket, inv, answers, n, k, i)
    ensures var t := Shown(bucket, inv, answers, n);
            k in t.data && Thaw(t.data[k]) == Thaw(AnswerOf(bucket, inv, answers, i).decision.patch[k])
    decreases n
  {
    var before, response := Shown(bucket, inv, answers, n - 1), AnswerOf(bucket, inv, answers, n - 1);
    if i < n - 1 {
      assert !Sets(bucket, inv, answers, n - 1, k);
      ShownHasLastPatch(bucket, inv, answers, n - 1, k, i);
    }
    if Changes(bucket[n - 1].spec, response) { ModifyOverrides(before, response.decision.patch, k); }
  }

  lemma {:induction false} ShownHasOriginal(bucket: Bucket, inv: Invocation, answers: Answers, n: nat, k: string)
    requires n <= |bucket| && NobodySets(bucket, inv, answers, n, k)
    ensures var t := Shown(bucket, inv, answers, n);
            (k in t.data <==> k in inv.data) && (k in inv.data ==> Thaw(t.data[k]) == Thaw(inv.data[k]))
    decreases n
  {
    if n > 0 {
      var before, response := Shown(bucket, inv, answers, n - 1), AnswerOf(bucket, inv, answers, n - 1);
      ShownHasOriginal(bucket, inv, answers, n - 1, k);
      assert !Sets(bucket, inv, answers, n - 1, k);
      if Changes(bucket[n - 1].spec, response) { ModifyOverrides(before, response.decision.patch, k); }
    }
  }

  /** Every field comes out as the last hook that ran and set it has set it, and as it went in if none
      did; a refused modification sets nothing. */
  lemma LastPatchWins(bucket: Bucket, inv: Invocation, answers: Answers, k: string)
    ensures var o := Pipeline(bucket, inv, answers); var n := |o.reports|; var t := o.invocation;
            && n <= |bucket|
            && (forall i | LastToSet(bucket, inv, answers, n, k, i) ::
                  k in t.data && Thaw(t.data[k]) == Thaw(AnswerOf(bucket, inv, answers, i).decision.patch[k]))
            && (NobodySets(bucket, inv, answers, n, k) ==>
                  (k in t.data <==> k in inv.data) && (k in inv.data ==> Thaw(t.data[k]) == Thaw(inv.data[k])))
  {
    HooksRunInOrder(bucket, inv, answers);
    var n := |Pipeline(bucket, inv, answers).reports|;
    forall i | LastToSet(bucket, inv, answers, n, k, i)
      ensures var t := Shown(bucket, inv, answers, n);
              k in t.data && Thaw(t.data[k]) == Thaw(AnswerOf(bucket, inv, answers, i).decision.patch[k])
    {
      ShownHasLastPatch(bucket, inv, answers, n, k, i);
    }
    if NobodySets(bucket, inv, answers, n, k) { ShownHasOriginal(bucket, inv, answers, n, k); }
  }

  // ---------------------------------------------------------------- failures are isolated

  /** A hook that neither changes anything nor ends the stage - one that fails open, among others -
      might as well not be registered. */
  lemma {:induction false} FailedHookDoesNotMatter(bucket: Bucket, inv: Invocation, answers: Answers, i: nat)
    requires i < |bucket|
    requires var response := answers(bucket[i].number, Shown(bucket, inv, answers, i));
             !Changes(bucket[i].spec, response) && !Ends(bucket[i].spec, response)
    ensures var with, without := Pipeline(bucket, inv, answers), Pipeline(bucket[..i] + bucket[i + 1..], inv, answers);
            with.invocation == without.invocation && with.decision == without.decision
    decreases |bucket|
  {
    var fewer := bucket[..i] + bucket[i + 1..];
    var response := answers(bucket[0].number, inv);
    var e := Attempt(bucket[0].spec, response, inv);
    AttemptMeans(bucket[0].spec, response, inv);
    if i == 0 {
      assert fewer == bucket[1..];
    } else {
      assert fewer[0] == bucket[0] && fewer[1..] == bucket[1..][..i - 1] + bucket[1..][i..];
      if !Ends(bucket[0].spec, response) {
        assert Shown(bucket, inv, answers, 0) == inv && Shown(bucket, inv, answers, 1) == e.current;
        ShownShift(bucket, inv, answers, i);
        FailedHookDoesNotMatter(bucket[1..], e.current, answers, i - 1);
      }
    }
  }

  // ---------------------------------------------------------------- observers do not interfere

  /** Two buses with the same hooks, and any stores, subscribers and usage recorders at all, failing,
      timing out or answering nonsense: as long as neither run is cut short, they end the same and
      submit the same events and usage records. */
  method RunTwice(a: HookBus, b: HookBus, inv: Invocation, answers: Answers, latency: nat -> int)
    returns (ra: RunResult, rb: RunResult)
    requires a.Valid() && b.Valid() && a.BucketOf(inv.stage) == b.BucketOf(inv.stage)
    requires a != b && a.sink != b.sink
    modifies a`usage, b`usage, a.sink, b.sink
    ensures ra.Completed? && rb.Completed? ==> ra == rb
    ensures ra.Completed? && rb.Completed? ==>
      var events, usages := Submitted(inv, ra.outcome, latency), UsagesOf(inv, ra.outcome.reports);
      && a.sink.memory == old(a.sink.memory) + RecordedAll(a.sink.observers, |old(a.sink.memory)|, events)
      && b.sink.memory == old(b.sink.memory) + RecordedAll(b.sink.observers, |old(b.sink.memory)|, events)
      && a.usage == Charged(a.recorder, old(a.usage), usages) && b.usage == Charged(b.recorder, old(b.usage), usages)
  {
    ghost var reached;
    ra, reached := a.Run(inv, answers, latency);
    rb, reached := b.Run(inv, answers, latency);
  }

  /** The store's call for an event lets the run go on: it does not escape, and what it returns can be
      read and copied if anybody is to be told of it. */
  predicate StoreFits(store: Option<Store>, subscribers: nat, position: nat, e: Event) {
    store.Some? ==>
      && store.value(position, Detached(e)) != Escaped
      && (subscribers > 0 ==> store.value(position, Detached(e)) != Unreadable)
  }

  /** No subscriber escapes when it is told of the record of this event. */
  predicate SubscribersFit(o: Observers, subscribers: nat, position: nat, e: Event) {
    Recorded(o, position, e).Kept? ==>
      forall i: nat | i < subscribers ::
        o.subscriber(i, position, Detached(Recorded(o, position, e).event)) != Escapes
  }

  lemma PassesIff(o: Observers, subscribers: nat, position: nat, e: Event)
    ensures Passes(o, subscribers, position, e)
       <==> StoreFits(o.store, subscribers, position, e) && SubscribersFit(o, subscribers, position, e)
  {
    var r := Recorded(o, position, e);
    if r.Kept? {
      assert forall i: nat | i < subscribers ::
        Tells(o, i, position, r.event) == (o.subscriber(i, position, Detached(r.event)) != Escapes);
      assert (forall i | 0 <= i < subscribers :: Tells(o, i, position, r.event))
        <==> SubscribersFit(o, subscribers, position, e);
    }
  }

  /** When observers interfere with a run, exactly, over all three kinds: if for one of the events it
      submits the store escapes, or returns something that cannot be read or copied while somebody
      subscribes, or a subscriber escapes; or if the recorder escapes on one of the usage records.
      Exceptions, timeouts and readable events of any content never do. */
  lemma InterferenceExactly(bus: HookBus, inv: Invocation, o: Outcome, latency: nat -> int,
                            memory: seq<Record>, used: seq<Usage>)
    ensures bus.Undisturbed(inv, o, latency, memory, used)
       <==> var events, n := Submitted(inv, o, latency), bus.sink.subscribers;
            && (forall i | 0 <= i < |events| ::
                  && StoreFits(bus.sink.observers.store, n, |memory| + i, events[i])
                  && SubscribersFit(bus.sink.observers, n, |memory| + i, events[i]))
            && (bus.recorder.Some? ==>
                  forall i | 0 <= i < |o.reports| ::
                    bus.recorder.value(|used| + i, UsageOf(inv, o.reports[i])) != Escapes)
  {
    var events := Submitted(inv, o, latency);
    forall i | 0 <= i < |events|
      ensures Passes(bus.sink.observers, bus.sink.subscribers, |memory| + i, events[i])
         <==> StoreFits(bus.sink.observers.store, bus.sink.subscribers, |memory| + i, events[i])
              && SubscribersFit(bus.sink.observers, bus.sink.subscribers, |memory| + i, events[i])
    {
      PassesIff(bus.sink.observers, bus.sink.subscribers, |memory| + i, events[i]);
    }
    assert forall i | 0 <= i < |o.reports| :: UsagesOf(inv, o.reports)[i] == UsageOf(inv, o.reports[i]);
  }
}
