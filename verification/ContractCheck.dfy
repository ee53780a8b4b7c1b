/** Comparing an adapter's observations with the security contract it claims to meet. */
module ContractCheck {
  import opened Options

  datatype Json =
    | Null
    | Bool(flag: bool)
    | Num(number: real)
    | Str(text: string)
    | List(items: seq<Json>)
    | Obj(fields: map<string, Json>)

  /** A JSON value up to the equality that compares true with 1 and false with 0. */
  function Plain(j: Json): Json {
    match j
    case Bool(flag) => Num(if flag then 1.0 else 0.0)
    case List(items) => List(seq(|items|, i requires 0 <= i < |items| => Plain(items[i])))
    case Obj(fields) => Obj(map key | key in fields :: Plain(fields[key]))
    case _ => j
  }

  predicate Same(a: Json, b: Json) {
    Plain(a) == Plain(b)
  }

  function Fields(j: Json): map<string, Json> {
    if j.Obj? then j.fields else map[]
  }

  /** A missing field reads as null. */
  function Get(fields: map<string, Json>, key: string): Json {
    if key in fields then fields[key] else Null
  }

  datatype Claim = Claim(status: Json, expected: Json)

  datatype Scenario = Scenario(id: string, expected: Json, claims: map<string, Claim>)

  /** The two runners: fan-out, and the session lifecycle with its result defaults. */
  datatype Runner = FanOut | Lifecycle(defaults: Json)

  const RESULT_FIELDS: set<string> := {
    "route", "status_code", "error", "fragment_count", "accepted_connections", "rejected_connections",
    "quota_recovered", "delivered_payloads", "resume_succeeded", "ownership_restored", "replay_rejected",
    "non_owner_refused", "pre_final_actions", "post_final_actions", "oversized_refused",
    "setup_rollback_verified", "policy_decision", "signed_request", "competing_owner_preserved",
    "handoff_completed", "stale_owner_refused", "successor_owner_accepted", "approval_expired",
    "late_approval_refused"
  }

  const OBSERVATION_FIELDS: set<string> := {"id", "status"} + RESULT_FIELDS

  datatype Mismatch =
    | NotAList
    | WithoutId
    | WrongFields(id: string)
    | Repeats(ids: set<string>)
    | Missing(ids: set<string>)
    | Extra(ids: set<string>)
    | Skipped(id: string)
    | StatusDiffers(id: string)
    | FieldDiffers(id: string, field: string)

  function ExpectedFor(runner: Runner, scenario: Scenario, backend: string): map<string, Json> {
    var claim := if backend in scenario.claims then scenario.claims[backend] else Claim(Null, Null);
    match runner
    case FanOut => Fields(scenario.expected) + Fields(claim.expected)
    case Lifecycle(defaults) =>
      var common := if claim.status == Str("unserved") then map[] else Fields(scenario.expected);
      Fields(defaults) + common + Fields(claim.expected)
  }

  /**
   An override of the backend's claim beats the scenario's common value, which beats a result default;
   for an unserved lifecycle claim the common values do not count.
   */
  lemma OverridesWin(runner: Runner, scenario: Scenario, backend: string, field: string)
    requires backend in scenario.claims
    ensures
      var claim, expected := scenario.claims[backend], ExpectedFor(runner, scenario, backend);
      var override, common := Fields(claim.expected), Fields(scenario.expected);
      var isCommon := field in common && (runner.FanOut? || claim.status != Str("unserved"));
      var isDefault := runner.Lifecycle? && field in Fields(runner.defaults);
      && (field in expected <==> field in override || isCommon || isDefault)
      && (field in override ==> expected[field] == override[field])
      && (field !in override && isCommon ==> expected[field] == common[field])
      && (field !in override && !isCommon && isDefault ==> expected[field] == Fields(runner.defaults)[field])
  {
  }

  predicate IsApplicable(scenario: Scenario, backend: string) {
    !(backend in scenario.claims && scenario.claims[backend].status == Str("unserved"))
  }

  function ApplicableIds(scenarios: seq<Scenario>, backend: string): set<string> {
    set s | s in scenarios && IsApplicable(s, backend) :: s.id
  }

  // ---- What the comparison promises ----

  function IdOf(observation: Json): Option<string> {
    var id := Get(Fields(observation), "id");
    if id.Str? then Some(id.text) else None
  }

  predicate FieldsFit(runner: Runner, observation: Json) {
    runner.Lifecycle? ==> Fields(observation).Keys == OBSERVATION_FIELDS
  }

  predicate Fits(runner: Runner, observation: Json) {
    IdOf(observation).Some? && FieldsFit(runner, observation)
  }

  predicate FieldAgrees(observation: map<string, Json>, expected: map<string, Json>, field: string) {
    field in expected ==> Same(Get(observation, field), expected[field])
  }

  predicate FieldsAgree(observation: map<string, Json>, expected: map<string, Json>) {
    forall field :: field in expected ==> FieldAgrees(observation, expected, field)
  }

  /** The observation is executable evidence for the scenario. */
  predicate Answers(runner: Runner, scenario: Scenario, backend: string, observation: map<string, Json>) {
    && Get(observation, "skipped") != Bool(true)
    && (backend in scenario.claims ==> Same(Get(observation, "status"), scenario.claims[backend].status))
    && FieldsAgree(observation, ExpectedFor(runner, scenario, backend))
  }

  predicate DistinctIds(scenarios: seq<Scenario>) {
    forall i, j :: 0 <= i < j < |scenarios| ==> scenarios[i].id != scenarios[j].id
  }

  /** What the contract validation has established before any comparison. */
  predicate IsClaimed(scenarios: seq<Scenario>, backend: string) {
    DistinctIds(scenarios) && forall s :: s in scenarios ==> backend in s.claims
  }

  predicate AllFit(runner: Runner, items: seq<Json>) {
    forall i :: 0 <= i < |items| ==> Fits(runner, items[i])
  }

  predicate NoIdTwice(items: seq<Json>) {
    forall i, j :: 0 <= i < j < |items| && IdOf(items[i]).Some? ==> IdOf(items[i]) != IdOf(items[j])
  }

  predicate Mentions(items: seq<Json>, id: string) {
    exists i :: 0 <= i < |items| && IdOf(items[i]) == Some(id)
  }

  ghost predicate IdsAreExactly(items: seq<Json>, ids: set<string>) {
    forall id :: Mentions(items, id) <==> id in ids
  }

  predicate EachAnswers(runner: Runner, scenarios: seq<Scenario>, backend: string, items: seq<Json>) {
    forall i, s :: 0 <= i < |items| && s in scenarios && IdOf(items[i]) == Some(s.id)
              ==> Answers(runner, s, backend, Fields(items[i]))
  }

  /** One fitting observation for every applicable scenario, none for another, and each one answers its scenario. */
  ghost predicate IsEvidence(runner: Runner, scenarios: seq<Scenario>, backend: string, items: seq<Json>) {
    && AllFit(runner, items)
    && NoIdTwice(items)
    && IdsAreExactly(items, ApplicableIds(scenarios, backend))
    && EachAnswers(runner, scenarios, backend, items)
  }

  // ---- What the first loop collects ----

  function Complaints(runner: Runner, items: seq<Json>): seq<Mismatch> {
    if items == [] then []
    else
      var earlier, last := Complaints(runner, items[..|items| - 1]), items[|items| - 1];
      if IdOf(last).None? then earlier + [WithoutId]
      else if !FieldsFit(runner, last) then earlier + [WrongFields(IdOf(last).value)]
      else earlier
  }

  function ById(items: seq<Json>): map<string, map<string, Json>> {
    if items == [] then map[]
    else
      var earlier, last := ById(items[..|items| - 1]), items[|items| - 1];
      if IdOf(last).None? then earlier else earlier[IdOf(last).value := Fields(last)]
  }

  function Repeated(items: seq<Json>): set<string> {
    if items == [] then {}
    else
      var earlier, last := items[..|items| - 1], items[|items| - 1];
      if IdOf(last).Some? && IdOf(last).value in ById(earlier) then Repeated(earlier) + {IdOf(last).value}
      else Repeated(earlier)
  }

  method Collect(runner: Runner, items: seq<Json>)
    returns (errors: seq<Mismatch>, byId: map<string, map<string, Json>>, duplicates: set<string>)
    ensures errors == Complaints(runner, items) && byId == ById(items) && duplicates == Repeated(items)
  {
    errors, byId, duplicates := [], map[], {};
    for n := 0 to |items|
      invariant errors == Complaints(runner, items[..n])
      invariant byId == ById(items[..n])
      invariant duplicates == Repeated(items[..n])
    {
      assert items[..n + 1][..n] == items[..n] && items[..n + 1][n] == items[n];
      var id := IdOf(items[n]);
      if id.None? {
        errors := errors + [WithoutId];
      } else {
        if !FieldsFit(runner, items[n]) {
          errors := errors + [WrongFields(id.value)];
        }
        if id.value in byId {
          duplicates := duplicates + {id.value};
        }
        byId := byId[id.value := Fields(items[n])];
      }
    }
    assert items[..|items|] == items;
  }

  lemma {:induction false} NoComplaintsWhenAllFit(runner: Runner, items: seq<Json>)
    ensures Complaints(runner, items) == [] <==> AllFit(runner, items)
  {
    if items != [] {
      NoComplaintsWhenAllFit(runner, items[..|items| - 1]);
      AllFitSplits(runner, items);
    }
  }

  lemma AllFitSplits(runner: Runner, items: seq<Json>)
    requires items != []
    ensures AllFit(runner, items) <==> AllFit(runner, items[..|items| - 1]) && Fits(runner, items[|items| - 1])
  {
  }

  lemma MentionsSplits(items: seq<Json>, id: string)
    requires items != []
    ensures Mentions(items, id) <==> Mentions(items[..|items| - 1], id) || IdOf(items[|items| - 1]) == Some(id)
  {
    var front := items[..|items| - 1];
    if Mentions(front, id) {
      var i :| 0 <= i < |front| && IdOf(front[i]) == Some(id);
      assert IdOf(items[i]) == Some(id);
    }
    if Mentions(items, id) {
      var i :| 0 <= i < |items| && IdOf(items[i]) == Some(id);
      assert i < |items| - 1 ==> IdOf(front[i]) == Some(id);
    }
  }

  lemma {:induction false} IdsAreMentioned(items: seq<Json>, id: string)
    ensures id in ById(items) <==> Mentions(items, id)
  {
    if items != [] {
      IdsAreMentioned(items[..|items| - 1], id);
      MentionsSplits(items, id);
    }
  }

  predicate LastIsNew(items: seq<Json>)
    requires items != []
  {
    var last := IdOf(items[|items| - 1]);
    last.Some? ==> !Mentions(items[..|items| - 1], last.value)
  }

  lemma NoIdTwiceSplits(items: seq<Json>)
    requires items != []
    ensures NoIdTwice(items) <==> NoIdTwice(items[..|items| - 1]) && LastIsNew(items)
  {
    var front := items[..|items| - 1];
    if NoIdTwice(front) && LastIsNew(items) {
      forall i, j | 0 <= i < j < |items| && IdOf(items[i]).Some?
        ensures IdOf(items[i]) != IdOf(items[j])
      {
        assert items[i] == front[i];
        assert j < |front| ==> items[j] == front[j];
      }
    }
  }

  lemma {:induction false} NoneRepeatedWhenDistinct(items: seq<Json>)
    ensures Repeated(items) == {} <==> NoIdTwice(items)
  {
    if items != [] {
      var front, last := items[..|items| - 1], IdOf(items[|items| - 1]);
      NoneRepeatedWhenDistinct(front);
      NoIdTwiceSplits(items);
      if last.Some? {
        IdsAreMentioned(front, last.value);
      }
    }
  }

  /** With distinct ids, each observation is found under its own. */
  lemma {:induction false} FoundUnderItsId(items: seq<Json>, i: nat)
    requires NoIdTwice(items) && i < |items| && IdOf(items[i]).Some?
    ensures IdOf(items[i]).value in ById(items) && ById(items)[IdOf(items[i]).value] == Fields(items[i])
  {
    var front := items[..|items| - 1];
    if i < |front| {
      NoIdTwiceSplits(items);
      assert front[i] == items[i];
      FoundUnderItsId(front, i);
    }
  }

  // ---- The comparison ----

  predicate IsAboutResult(e: Mismatch) {
    e.Skipped? || e.StatusDiffers? || e.FieldDiffers?
  }

  lemma {:induction false} ComplaintsAreAboutShape(runner: Runner, items: seq<Json>, e: Mismatch)
    requires e in Complaints(runner, items)
    ensures e.WithoutId? || e.WrongFields?
  {
    var earlier, last := Complaints(runner, items[..|items| - 1]), items[|items| - 1];
    if e in earlier {
      ComplaintsAreAboutShape(runner, items[..|items| - 1], e);
    }
  }

  /** The errors name these repeated, missing and extra ids, and name no sets that are empty. */
  ghost predicate Names(errors: seq<Mismatch>, repeats: set<string>, missing: set<string>, extra: set<string>) {
    && (forall ids :: Repeats(ids) in errors <==> ids == repeats && ids != {})
    && (forall ids :: Missing(ids) in errors <==> ids == missing && ids != {})
    && (forall ids :: Extra(ids) in errors <==> ids == extra && ids != {})
  }

  method CompareIds(expected: set<string>, found: set<string>, duplicates: set<string>) returns (errors: seq<Mismatch>)
    ensures errors == [] <==> duplicates == {} && expected - found == {} && found - expected == {}
    ensures Names(errors, duplicates, expected - found, found - expected)
  {
    errors := [];
    if duplicates != {} {
      errors := errors + [Repeats(duplicates)];
    }
    if expected - found != {} {
      errors := errors + [Missing(expected - found)];
    }
    if found - expected != {} {
      errors := errors + [Extra(found - expected)];
    }
  }

  lemma OtherErrorsNameNone(
    before: seq<Mismatch>, errors: seq<Mismatch>, after: seq<Mismatch>,
    repeats: set<string>, missing: set<string>, extra: set<string>)
    requires Names(errors, repeats, missing, extra)
    requires forall e :: e in before ==> e.WithoutId? || e.WrongFields?
    requires forall e :: e in after ==> IsAboutResult(e)
    ensures Names(before + errors + after, repeats, missing, extra)
  {
  }

  method CompareOne(
    runner: Runner, scenario: Scenario, backend: string, observation: map<string, Json>)
    returns (errors: seq<Mismatch>)
    requires backend in scenario.claims
    ensures errors == [] <==> Answers(runner, scenario, backend, observation)
    ensures Skipped(scenario.id) in errors <==> Get(observation, "skipped") == Bool(true)
    ensures StatusDiffers(scenario.id) in errors
       <==> !Same(Get(observation, "status"), scenario.claims[backend].status)
    ensures forall field :: FieldDiffers(scenario.id, field) in errors
              <==> (field in ExpectedFor(runner, scenario, backend)
                    && !FieldAgrees(observation, ExpectedFor(runner, scenario, backend), field))
    ensures forall e :: e in errors ==> IsAboutResult(e)
  {
    errors := [];
    if Get(observation, "skipped") == Bool(true) {
      errors := errors + [Skipped(scenario.id)];
    }
    if !Same(Get(observation, "status"), scenario.claims[backend].status) {
      errors := errors + [StatusDiffers(scenario.id)];
    }
    var expected := ExpectedFor(runner, scenario, backend);
    var found := CompareFields(scenario.id, observation, expected);
    errors := errors + found;
  }

  method CompareFields(id: string, observation: map<string, Json>, expected: map<string, Json>)
    returns (errors: seq<Mismatch>)
    ensures errors == [] <==> FieldsAgree(observation, expected)
    ensures forall field :: FieldDiffers(id, field) in errors <==> field in expected && !FieldAgrees(observation, expected, field)
    ensures forall e :: e in errors ==> e.FieldDiffers?
  {
    errors := [];
    var left := expected.Keys;
    while left != {}
      invariant left <= expected.Keys
      invariant forall field :: FieldDiffers(id, field) in errors
                  <==> field in expected && field !in left && !FieldAgrees(observation, expected, field)
      invariant errors != [] ==> !FieldsAgree(observation, expected)
      invariant forall e :: e in errors ==> e.FieldDiffers?
      decreases left
    {
      var field :| field in left;
      if !Same(Get(observation, field), expected[field]) {
        assert !FieldAgrees(observation, expected, field);
        errors := errors + [FieldDiffers(id, field)];
      }
      left := left - {field};
    }
  }

  /** The scenario of an id, in a contract with distinct ids. */
  function Scenarios(scenarios: seq<Scenario>): (r: map<string, Scenario>)
    ensures forall id :: id in r ==> r[id] in scenarios && r[id].id == id
    ensures forall s :: s in scenarios ==> s.id in r
  {
    if scenarios == [] then map[]
    else
      var last := scenarios[|scenarios| - 1];
      Scenarios(scenarios[..|scenarios| - 1])[last.id := last]
  }

  lemma ScenarioOfItsId(scenarios: seq<Scenario>, s: Scenario)
    requires DistinctIds(scenarios) && s in scenarios
    ensures Scenarios(scenarios)[s.id] == s
  {
  }

  predicate AnswersAt(
    runner: Runner, scenarios: map<string, Scenario>, backend: string, byId: map<string, map<string, Json>>, id: string) {
    id in scenarios && id in byId ==> Answers(runner, scenarios[id], backend, byId[id])
  }

  predicate AnswersAll(
    runner: Runner, scenarios: map<string, Scenario>, backend: string, byId: map<string, map<string, Json>>, ids: set<string>) {
    forall id :: id in ids ==> AnswersAt(runner, scenarios, backend, byId, id)
  }

  method CompareAll(
    runner: Runner, scenarios: map<string, Scenario>, backend: string,
    byId: map<string, map<string, Json>>, ids: set<string>)
    returns (errors: seq<Mismatch>)
    requires ids <= scenarios.Keys && ids <= byId.Keys
    requires forall id :: id in scenarios ==> backend in scenarios[id].claims
    ensures errors == [] <==> AnswersAll(runner, scenarios, backend, byId, ids)
    ensures forall e :: e in errors ==> IsAboutResult(e)
  {
    errors := [];
    var left := ids;
    while left != {}
      invariant left <= ids
      invariant errors == [] <==> AnswersAll(runner, scenarios, backend, byId, ids - left)
      invariant forall e :: e in errors ==> IsAboutResult(e)
      decreases left
    {
      var id :| id in left;
      var found := CompareOne(runner, scenarios[id], backend, byId[id]);
      assert found == [] <==> AnswersAt(runner, scenarios, backend, byId, id);
      assert ids - (left - {id}) == (ids - left) + {id};
      errors := errors + found;
      left := left - {id};
    }
    assert ids - left == ids;
  }

  /** The errors are empty exactly when the output is a list that is evidence for the contract. */
  method CompareObservations(runner: Runner, scenarios: seq<Scenario>, backend: string, output: Json)
    returns (errors: seq<Mismatch>)
    requires IsClaimed(scenarios, backend)
    ensures errors == [] <==> output.List? && IsEvidence(runner, scenarios, backend, output.items)
    ensures output.List? ==>
              var wanted, given := ApplicableIds(scenarios, backend), ById(output.items).Keys;
              Names(errors, Repeated(output.items), wanted - given, given - wanted)
  {
    if !output.List? {
      return [NotAList];
    }
    var expected := ApplicableIds(scenarios, backend);
    var complaints, byId, duplicates := Collect(runner, output.items);
    forall e | e in complaints
      ensures e.WithoutId? || e.WrongFields?
    {
      ComplaintsAreAboutShape(runner, output.items, e);
    }
    var about := CompareIds(expected, byId.Keys, duplicates);
    var found := CompareAll(runner, Scenarios(scenarios), backend, byId, expected * byId.Keys);
    OtherErrorsNameNone(complaints, about, found, duplicates, expected - byId.Keys, byId.Keys - expected);
    errors := complaints + about + found;
    VerdictIsExact(runner, scenarios, backend, output.items);
  }

  /** What the steps find, taken together. */
  predicate NothingFound(runner: Runner, scenarios: seq<Scenario>, backend: string, items: seq<Json>) {
    && Complaints(runner, items) == []
    && Repeated(items) == {}
    && ApplicableIds(scenarios, backend) - ById(items).Keys == {}
    && ById(items).Keys - ApplicableIds(scenarios, backend) == {}
    && AnswersAll(runner, Scenarios(scenarios), backend, ById(items), ApplicableIds(scenarios, backend) * ById(items).Keys)
  }

  lemma IdsMatch(items: seq<Json>, ids: set<string>)
    ensures IdsAreExactly(items, ids) <==> ids - ById(items).Keys == {} && ById(items).Keys - ids == {}
  {
    forall id
      ensures id in ById(items) <==> Mentions(items, id)
    {
      IdsAreMentioned(items, id);
    }
    if ids - ById(items).Keys == {} && ById(items).Keys - ids == {} {
      assert ids == ById(items).Keys;
    }
  }

  lemma AnswersMatch(runner: Runner, scenarios: seq<Scenario>, backend: string, items: seq<Json>)
    requires IsClaimed(scenarios, backend) && NoIdTwice(items)
    requires ApplicableIds(scenarios, backend) == ById(items).Keys
    ensures EachAnswers(runner, scenarios, backend, items)
       <==> AnswersAll(runner, Scenarios(scenarios), backend, ById(items), ById(items).Keys)
  {
    if AnswersAll(runner, Scenarios(scenarios), backend, ById(items), ById(items).Keys) {
      forall i, s | 0 <= i < |items| && s in scenarios && IdOf(items[i]) == Some(s.id)
        ensures Answers(runner, s, backend, Fields(items[i]))
      {
        FoundUnderItsId(items, i);
        ScenarioOfItsId(scenarios, s);
        assert AnswersAt(runner, Scenarios(scenarios), backend, ById(items), s.id);
      }
    }
    if EachAnswers(runner, scenarios, backend, items) {
      forall id | id in ById(items)
        ensures AnswersAt(runner, Scenarios(scenarios), backend, ById(items), id)
      {
        IdsAreMentioned(items, id);
        var i :| 0 <= i < |items| && IdOf(items[i]) == Some(id);
        FoundUnderItsId(items, i);
      }
    }
  }

  lemma VerdictIsExact(runner: Runner, scenarios: seq<Scenario>, backend: string, items: seq<Json>)
    requires IsClaimed(scenarios, backend)
    ensures NothingFound(runner, scenarios, backend, items) <==> IsEvidence(runner, scenarios, backend, items)
  {
    var ids, keys := ApplicableIds(scenarios, backend), ById(items).Keys;
    NoComplaintsWhenAllFit(runner, items);
    NoneRepeatedWhenDistinct(items);
    IdsMatch(items, ids);
    if NoIdTwice(items) && ids - keys == {} && keys - ids == {} {
      assert ids == keys && ids * keys == keys;
      AnswersMatch(runner, scenarios, backend, items);
    }
  }

  // ---- What accepted evidence amounts to ----

  lemma {:induction false} DistinctIdsCount(items: seq<Json>)
    requires NoIdTwice(items) && forall i :: 0 <= i < |items| ==> IdOf(items[i]).Some?
    ensures |ById(items).Keys| == |items|
  {
    if items != [] {
      var front, last := items[..|items| - 1], IdOf(items[|items| - 1]).value;
      NoIdTwiceSplits(items);
      DistinctIdsCount(front);
      IdsAreMentioned(front, last);
      assert ById(items).Keys == ById(front).Keys + {last};
    }
  }

  /** Accepted output has as many observations as there are applicable scenarios: nothing else can pad it. */
  lemma EvidenceHasNoPadding(runner: Runner, scenarios: seq<Scenario>, backend: string, items: seq<Json>)
    requires IsEvidence(runner, scenarios, backend, items)
    ensures |items| == |ApplicableIds(scenarios, backend)|
  {
    forall i | 0 <= i < |items|
      ensures IdOf(items[i]).Some?
    {
      assert Fits(runner, items[i]);
    }
    DistinctIdsCount(items);
    IdsMatch(items, ApplicableIds(scenarios, backend));
    assert ApplicableIds(scenarios, backend) == ById(items).Keys;
  }

  /** The one observation the contract leaves possible. */
  function Evidence(runner: Runner, scenario: Scenario, backend: string): map<string, Json>
    requires backend in scenario.claims
  {
    ExpectedFor(runner, scenario, backend)["id" := Str(scenario.id)]["status" := scenario.claims[backend].status]
  }

  predicate SameFields(a: map<string, Json>, b: map<string, Json>) {
    a.Keys == b.Keys && forall key :: key in b ==> Same(Get(a, key), b[key])
  }

  lemma SameObjects(a: Json, b: map<string, Json>)
    ensures Same(a, Obj(b)) <==> a.Obj? && SameFields(a.fields, b)
  {
    if a.Obj? {
      var plainA, plainB := Plain(a).fields, Plain(Obj(b)).fields;
      assert forall key :: key in a.fields ==> plainA[key] == Plain(a.fields[key]);
      assert forall key :: key in b ==> plainB[key] == Plain(b[key]);
      if SameFields(a.fields, b) {
        assert forall key :: key in b ==> Same(Get(a.fields, key), b[key]);
        assert plainA == plainB;
      }
      if plainA == plainB {
        assert a.fields.Keys == plainA.Keys == plainB.Keys == b.Keys;
      }
    }
  }

  lemma FieldsAreDetermined(
    fields: map<string, Json>, expected: map<string, Json>, id: string, status: Json)
    requires "id" !in expected && "status" !in expected
    requires fields.Keys == {"id", "status"} + expected.Keys
    ensures SameFields(fields, expected["id" := Str(id)]["status" := status])
       <==> fields["id"] == Str(id) && Same(fields["status"], status) && FieldsAgree(fields, expected)
  {
    var all := expected["id" := Str(id)]["status" := status];
    assert all.Keys == fields.Keys;
    assert Same(fields["id"], Str(id)) <==> fields["id"] == Str(id);
    assert forall key :: key in expected ==> all[key] == expected[key];
    if SameFields(fields, all) {
      assert all["id"] == Str(id) && all["status"] == status;
      forall key | key in expected
        ensures FieldAgrees(fields, expected, key)
      {
        assert Same(Get(fields, key), all[key]);
      }
    }
  }

  lemma ResultFieldsAreOther()
    ensures "id" !in RESULT_FIELDS && "status" !in RESULT_FIELDS && "skipped" !in OBSERVATION_FIELDS
  {
  }

  /**
   In the lifecycle runner an observation is accepted exactly when it is, field for field,
   the one the contract spells out.
   */
  lemma LifecycleEvidenceIsDetermined(
    runner: Runner, scenario: Scenario, backend: string, observation: Json)
    requires runner.Lifecycle? && backend in scenario.claims
    requires ExpectedFor(runner, scenario, backend).Keys == RESULT_FIELDS
    ensures Same(observation, Obj(Evidence(runner, scenario, backend)))
       <==> (&& IdOf(observation) == Some(scenario.id)
             && FieldsFit(runner, observation)
             && Answers(runner, scenario, backend, Fields(observation)))
  {
    var expected, evidence := ExpectedFor(runner, scenario, backend), Evidence(runner, scenario, backend);
    var fields := Fields(observation);
    ResultFieldsAreOther();
    SameObjects(observation, evidence);
    assert evidence.Keys == {"id", "status"} + expected.Keys;
    if observation.Obj? && fields.Keys == OBSERVATION_FIELDS {
      FieldsAreDetermined(fields, expected, scenario.id, scenario.claims[backend].status);
      assert IdOf(observation) == Some(scenario.id) <==> fields["id"] == Str(scenario.id);
    }
  }

  // ---- The parts, from the data ----

  /** Equality as the scripts compare: by structure, with true equal to 1 and false to 0. */
  predicate AreEqual(a: Json, b: Json) {
    match (a, b)
    case (Null, Null) => true
    case (Str(x), Str(y)) => x == y
    case (List(x), List(y)) => |x| == |y| && forall i :: 0 <= i < |x| ==> AreEqual(x[i], y[i])
    case (Obj(x), Obj(y)) => x.Keys == y.Keys && forall key :: key in x ==> AreEqual(x[key], y[key])
    case (Bool(x), Bool(y)) => x == y
    case (Num(x), Num(y)) => x == y
    case (Bool(x), Num(y)) => y == if x then 1.0 else 0.0
    case (Num(x), Bool(y)) => x == if y then 1.0 else 0.0
    case _ => false
  }

  lemma {:induction false} SameIsEqual(a: Json, b: Json)
    ensures Same(a, b) <==> AreEqual(a, b)
    decreases a, 1
  {
    match (a, b) {
      case (List(x), List(y)) => SameListsAreEqual(x, y);
      case (Obj(x), Obj(y)) => SameObjectsAreEqual(x, y);
      case _ =>
    }
  }

  lemma {:induction false} SameListsAreEqual(x: seq<Json>, y: seq<Json>)
    ensures Same(List(x), List(y)) <==> AreEqual(List(x), List(y))
    decreases List(x), 0
  {
    if |x| == |y| {
      forall i | 0 <= i < |x|
        ensures Plain(x[i]) == Plain(y[i]) <==> AreEqual(x[i], y[i])
      {
        SameIsEqual(x[i], y[i]);
      }
      ListsPlain(x, y);
    } else {
      assert |Plain(List(x)).items| != |Plain(List(y)).items|;
    }
  }

  lemma ListsPlain(x: seq<Json>, y: seq<Json>)
    requires |x| == |y|
    ensures Plain(List(x)) == Plain(List(y)) <==> forall i :: 0 <= i < |x| ==> Plain(x[i]) == Plain(y[i])
  {
    var p, q := Plain(List(x)).items, Plain(List(y)).items;
    assert forall i :: 0 <= i < |x| ==> p[i] == Plain(x[i]) && q[i] == Plain(y[i]);
  }

  lemma {:induction false} SameObjectsAreEqual(x: map<string, Json>, y: map<string, Json>)
    ensures Same(Obj(x), Obj(y)) <==> AreEqual(Obj(x), Obj(y))
    decreases Obj(x), 0
  {
    SameObjects(Obj(x), y);
    if x.Keys == y.Keys {
      forall key | key in x
        ensures Same(x[key], y[key]) <==> AreEqual(x[key], y[key])
      {
        SameIsEqual(x[key], y[key]);
      }
    }
  }

  /** The ids a backend must answer: of every scenario whose claim for it is not `unserved`. */
  lemma ApplicableMeansServed(scenarios: seq<Scenario>, backend: string, id: string)
    ensures id in ApplicableIds(scenarios, backend)
       <==> exists s :: s in scenarios && s.id == id
                && (backend !in s.claims || s.claims[backend].status != Str("unserved"))
  {
  }

  predicate MentionsTwice(items: seq<Json>, id: string) {
    exists i, j :: 0 <= i < j < |items| && IdOf(items[i]) == Some(id) && IdOf(items[j]) == Some(id)
  }

  lemma MentionsTwiceSplits(items: seq<Json>, id: string)
    requires items != []
    ensures var front, last := items[..|items| - 1], items[|items| - 1];
            MentionsTwice(items, id) <==> MentionsTwice(front, id) || (IdOf(last) == Some(id) && Mentions(front, id))
  {
    var front, n := items[..|items| - 1], |items| - 1;
    if MentionsTwice(items, id) {
      var i, j :| 0 <= i < j < |items| && IdOf(items[i]) == Some(id) && IdOf(items[j]) == Some(id);
      assert front[i] == items[i];
      assert j < n ==> front[j] == items[j];
    }
    if MentionsTwice(front, id) {
      var i, j :| 0 <= i < j < |front| && IdOf(front[i]) == Some(id) && IdOf(front[j]) == Some(id);
      assert items[i] == front[i] && items[j] == front[j];
    }
    if IdOf(items[n]) == Some(id) && Mentions(front, id) {
      var i :| 0 <= i < |front| && IdOf(front[i]) == Some(id);
      assert items[i] == front[i];
    }
  }

  /** The ids named as repeated are exactly those mentioned more than once. */
  lemma {:induction false} RepeatedMeansTwice(items: seq<Json>, id: string)
    ensures id in Repeated(items) <==> MentionsTwice(items, id)
  {
    if items != [] {
      RepeatedMeansTwice(items[..|items| - 1], id);
      IdsAreMentioned(items[..|items| - 1], id);
      MentionsTwiceSplits(items, id);
    }
  }

  predicate IsLastMention(items: seq<Json>, id: string, i: nat) {
    && i < |items| && IdOf(items[i]) == Some(id)
    && forall j :: i < j < |items| ==> IdOf(items[j]) != Some(id)
  }

  /** Under each id stands the observation last seen with it. */
  lemma {:induction false} LastMentionCounts(items: seq<Json>, id: string, i: nat)
    requires IsLastMention(items, id, i)
    ensures id in ById(items) && ById(items)[id] == Fields(items[i])
  {
    var front := items[..|items| - 1];
    if i < |front| {
      assert forall j :: 0 <= j < |front| ==> front[j] == items[j];
      LastMentionCounts(front, id, i);
      assert IdOf(items[|front|]) != Some(id);
    }
  }

  /** An observation is complained of for having no id exactly when some has none. */
  lemma {:induction false} NoIdIsReported(runner: Runner, items: seq<Json>)
    ensures WithoutId in Complaints(runner, items) <==> exists i :: 0 <= i < |items| && IdOf(items[i]) == None
  {
    if items != [] {
      var front, n := items[..|items| - 1], |items| - 1;
      NoIdIsReported(runner, front);
      assert forall i :: 0 <= i < n ==> front[i] == items[i];
      if exists i :: 0 <= i < |items| && IdOf(items[i]) == None {
        var i :| 0 <= i < |items| && IdOf(items[i]) == None;
        assert i < n ==> IdOf(front[i]) == None;
      }
      if exists i :: 0 <= i < |front| && IdOf(front[i]) == None {
        var i :| 0 <= i < |front| && IdOf(front[i]) == None;
        assert IdOf(items[i]) == None;
      }
    }
  }

  /** The fields an observation of the lifecycle runner must have, and no others. */
  predicate HasWrongFields(runner: Runner, item: Json, id: string) {
    IdOf(item) == Some(id) && runner.Lifecycle? && Fields(item).Keys != {"id", "status"} + RESULT_FIELDS
  }

  lemma {:induction false} WrongFieldsAreReported(runner: Runner, items: seq<Json>, id: string)
    ensures WrongFields(id) in Complaints(runner, items)
       <==> exists i :: 0 <= i < |items| && HasWrongFields(runner, items[i], id)
  {
    if items != [] {
      var front, n := items[..|items| - 1], |items| - 1;
      WrongFieldsAreReported(runner, front, id);
      assert forall i :: 0 <= i < n ==> front[i] == items[i];
      if exists i :: 0 <= i < |items| && HasWrongFields(runner, items[i], id) {
        var i :| 0 <= i < |items| && HasWrongFields(runner, items[i], id);
        assert i < n ==> HasWrongFields(runner, front[i], id);
      }
      if exists i :: 0 <= i < |front| && HasWrongFields(runner, front[i], id) {
        var i :| 0 <= i < |front| && HasWrongFields(runner, front[i], id);
        assert HasWrongFields(runner, items[i], id);
      }
    }
  }
}
