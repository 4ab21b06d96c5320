/**
The conformance matrix: what each engine leg did with each scenario, rendered so that a pass needs evidence, and the
local runner that produces the evidence.
*/
module ConformanceMatrix {
  import opened Text
  import opened Collections

  datatype Verdict = Pass | Fail | Skipped | Incomplete | NotRun | NoVerdict

  datatype SkipKind = NotInLeg | NotExecuted

  datatype LegEntry = LegEntry(status: string, runner: string, ciStep: string)

  datatype Scenario = Scenario(id: string, legs: map<string, LegEntry>)

  datatype Suite = Suite(scenarios: seq<Scenario>, enforcement: map<string, string>)

  datatype Cell = Cell(id: string, result: Verdict, planned: bool, skip: Option<SkipKind>, observed: string)

  datatype Leg = Leg(engine: string, enforcement: string, executed: bool, complete: bool, result: Verdict,
      cells: seq<Cell>)

  datatype Document = Document(result: Verdict, enforced: Verdict, complete: bool, legs: seq<Leg>,
      advisory: seq<string>)

  /** Leg to step to outcome; a leg that reported nothing is absent. */
  type Observations = map<string, map<string, string>>

  const RUN := "run"
  const NOT_RUN := "not_run"
  const SUCCESS := "success"
  const FAILURE := "failure"
  const REQUIRED := "required"
  const UNKNOWN := "unknown"

  /** The key CI records an outcome under. */
  function ObservationKey(sc: Scenario, entry: LegEntry): string {
    if entry.ciStep != "" then entry.ciStep else sc.id
  }

  predicate Planned(sc: Scenario, engine: string) {
    engine in sc.legs && sc.legs[engine].status == RUN
  }

  predicate Excused(sc: Scenario, engine: string) {
    engine in sc.legs && sc.legs[engine].status == NOT_RUN
  }

  /** The scenario was planned for the leg and this outcome was seen. */
  predicate Saw(sc: Scenario, engine: string, steps: map<string, string>, outcome: string) {
    Planned(sc, engine) && ObservationKey(sc, sc.legs[engine]) in steps
      && steps[ObservationKey(sc, sc.legs[engine])] == outcome
  }

  /** The outcome was recorded for a scenario that is to run, under its step, or under its id if it has none. */
  ghost predicate Observed(sc: Scenario, engine: string, steps: map<string, string>, outcome: string) {
    && engine in sc.legs && sc.legs[engine].status == "run"
    && var key := if sc.legs[engine].ciStep == "" then sc.id else sc.legs[engine].ciStep;
    key in steps && steps[key] == outcome
  }

  /** What a cell shows, said of the suite and the record. */
  lemma CellIs(sc: Scenario, engine: string, steps: map<string, string>, executed: bool)
    ensures var cell := BuildScenarioCell(sc, engine, steps, executed);
      && cell.id == sc.id
      && (cell.result == Pass <==> executed && Observed(sc, engine, steps, "success"))
      && (cell.result == Fail <==> executed && Observed(sc, engine, steps, "failure"))
      && (cell.skip == Some(NotInLeg) <==> engine in sc.legs && sc.legs[engine].status == "not_run")
      && (cell.planned <==> engine in sc.legs && sc.legs[engine].status == "run")
      && (cell.observed != "" ==> executed && Observed(sc, engine, steps, cell.observed))
  {
  }

  lemma ColoursAre(sc: Scenario, engine: string, steps: map<string, string>)
    ensures Saw(sc, engine, steps, SUCCESS) <==> Observed(sc, engine, steps, "success")
    ensures Saw(sc, engine, steps, FAILURE) <==> Observed(sc, engine, steps, "failure")
    ensures Green(sc, engine, steps) <==>
      Observed(sc, engine, steps, "success") || (engine in sc.legs && sc.legs[engine].status == "not_run")
  {
  }

  /** A cell passes on an observed success and on nothing else. */
  function BuildScenarioCell(sc: Scenario, engine: string, steps: map<string, string>, executed: bool): (cell: Cell)
    ensures cell.result == Pass <==> executed && Saw(sc, engine, steps, SUCCESS)
    ensures cell.result == Fail <==> executed && Saw(sc, engine, steps, FAILURE)
    ensures cell.result in {Pass, Fail, Skipped} && (cell.result == Skipped <==> cell.skip.Some?)
    ensures cell.skip == Some(NotInLeg) <==> Excused(sc, engine)
    ensures cell.planned <==> Planned(sc, engine)
  {
    if engine !in sc.legs || (sc.legs[engine].status != RUN && sc.legs[engine].status != NOT_RUN) then
      Cell(sc.id, Skipped, false, Some(NotExecuted), "")
    else if sc.legs[engine].status == NOT_RUN then
      Cell(sc.id, Skipped, false, Some(NotInLeg), "")
    else if !executed then
      Cell(sc.id, Skipped, true, Some(NotExecuted), "")
    else
      var key := ObservationKey(sc, sc.legs[engine]);
      var outcome := if key in steps then steps[key] else "";
      if outcome == SUCCESS then Cell(sc.id, Pass, true, None, outcome)
      else if outcome == FAILURE then Cell(sc.id, Fail, true, None, outcome)
      else Cell(sc.id, Skipped, true, Some(NotExecuted), outcome)
  }

  function Steps(engine: string, observed: Observations): map<string, string> {
    if engine in observed then observed[engine] else map[]
  }

  function CellOf(suite: Suite, i: nat, engine: string, observed: Observations): Cell
    requires i < |suite.scenarios|
  {
    BuildScenarioCell(suite.scenarios[i], engine, Steps(engine, observed), engine in observed)
  }

  /** A scenario the leg can pass with: seen to succeed, or declared not to run there. */
  ghost predicate Green(sc: Scenario, engine: string, steps: map<string, string>) {
    Saw(sc, engine, steps, SUCCESS) || Excused(sc, engine)
  }

  ghost predicate LegGreen(suite: Suite, engine: string, observed: Observations) {
    engine in observed && forall i :: 0 <= i < |suite.scenarios| ==> Green(suite.scenarios[i], engine, observed[engine])
  }

  ghost predicate LegRed(suite: Suite, engine: string, observed: Observations) {
    engine in observed && exists i ::
      0 <= i < |suite.scenarios| && Saw(suite.scenarios[i], engine, observed[engine], FAILURE)
  }

  /** Every scenario the leg was meant to run gave a success or a failure. */
  ghost predicate LegSettled(suite: Suite, engine: string, observed: Observations) {
    engine in observed && forall i :: 0 <= i < |suite.scenarios| ==>
      Green(suite.scenarios[i], engine, observed[engine]) || Saw(suite.scenarios[i], engine, observed[engine], FAILURE)
  }

  function EnforcementOf(suite: Suite, engine: string, trim: string -> string): string {
    var e := if engine in suite.enforcement then trim(suite.enforcement[engine]) else trim("");
    if e != "" then e else UNKNOWN
  }

  /** A leg's row: every cell, and a result that is green, red, absent or else incomplete. */
  ghost predicate Renders(leg: Leg, suite: Suite, engine: string, observed: Observations, trim: string -> string) {
    && leg.engine == engine && leg.enforcement == EnforcementOf(suite, engine, trim)
    && (leg.executed <==> engine in observed)
    && |leg.cells| == |suite.scenarios|
    && (forall i :: 0 <= i < |suite.scenarios| ==> leg.cells[i] == CellOf(suite, i, engine, observed))
    && (leg.result == Pass <==> LegGreen(suite, engine, observed))
    && (leg.result == Fail <==> LegRed(suite, engine, observed))
    && (leg.result == NotRun <==> engine !in observed)
    && (leg.complete <==> LegSettled(suite, engine, observed))
  }

  method BuildLegMatrix(suite: Suite, engine: string, observed: Observations, trim: string -> string) returns (leg: Leg)
    ensures Renders(leg, suite, engine, observed, trim)
  {
    hide BuildScenarioCell, Saw, Excused, EnforcementOf;
    var executed := engine in observed;
    var cells: seq<Cell> := [];
    var failed, notExecuted := false, false;
    for i := 0 to |suite.scenarios|
      invariant |cells| == i && forall j :: 0 <= j < i ==> cells[j] == CellOf(suite, j, engine, observed)
      invariant executed ==> (failed <==>
        exists j :: 0 <= j < i && Saw(suite.scenarios[j], engine, observed[engine], FAILURE))
      invariant executed ==> (!failed && !notExecuted <==>
        forall j :: 0 <= j < i ==> Green(suite.scenarios[j], engine, observed[engine]))
      invariant executed ==> (!notExecuted <==> forall j :: 0 <= j < i ==>
                                Green(suite.scenarios[j], engine, observed[engine])
                                  || Saw(suite.scenarios[j], engine, observed[engine], FAILURE))
    {
      var cell := BuildScenarioCell(suite.scenarios[i], engine, Steps(engine, observed), executed);
      CellColours(suite.scenarios[i], engine, Steps(engine, observed));
      failed := failed || cell.result == Fail;
      notExecuted := notExecuted || cell.skip == Some(NotExecuted);
      cells := cells + [cell];
    }
    var result :=
      if !executed then NotRun
      else if failed then Fail
      else if notExecuted then Incomplete
      else Pass;
    leg := Leg(engine, EnforcementOf(suite, engine, trim), executed, executed && !notExecuted, result, cells);
  }

  lemma CellColours(sc: Scenario, engine: string, steps: map<string, string>)
    ensures var cell := BuildScenarioCell(sc, engine, steps, true);
      && (cell.result == Fail <==> Saw(sc, engine, steps, FAILURE))
      && (cell.skip != Some(NotExecuted) <==> Green(sc, engine, steps) || Saw(sc, engine, steps, FAILURE))
      && !(Green(sc, engine, steps) && Saw(sc, engine, steps, FAILURE))
  {
  }

  function Overall(anyFail: bool, anyNotPass: bool): Verdict {
    if anyFail then Fail else if anyNotPass then Incomplete else Pass
  }

  predicate IsRequired(suite: Suite, engine: string, trim: string -> string) {
    EnforcementOf(suite, engine, trim) == REQUIRED
  }

  /**
  The suite passes exactly when every leg ran and every cell is an observed success or a declared exception; it fails
  exactly when some leg saw a failure; it is complete exactly when every leg settled everything it was meant to run. The
  enforced verdict is the same over the required legs.
  */
  method BuildMatrixDoc(suite: Suite, engines: seq<string>, observed: Observations, trim: string -> string)
      returns (doc: Document)
    ensures |doc.legs| == |engines| &&
      forall i :: 0 <= i < |engines| ==> Renders(doc.legs[i], suite, engines[i], observed, trim)
    ensures doc.advisory == Advisory(suite, engines, trim)
    ensures doc.result == Pass <==> forall i :: 0 <= i < |engines| ==> LegGreen(suite, engines[i], observed)
    ensures doc.result == Fail <==> exists i :: 0 <= i < |engines| && LegRed(suite, engines[i], observed)
    ensures doc.complete <==> forall i :: 0 <= i < |engines| ==> LegSettled(suite, engines[i], observed)
    ensures doc.enforced == NoVerdict <==> forall i :: 0 <= i < |engines| ==> !IsRequired(suite, engines[i], trim)
    ensures doc.enforced == Fail <==>
      exists i :: 0 <= i < |engines| && IsRequired(suite, engines[i], trim) && LegRed(suite, engines[i], observed)
    ensures doc.enforced in {Pass, NoVerdict} <==>
      forall i :: 0 <= i < |engines| && IsRequired(suite, engines[i], trim) ==> LegGreen(suite, engines[i], observed)
    ensures doc.result == Pass ==> doc.complete
    ensures doc.result == Pass ==> doc.enforced in {Pass, NoVerdict}
    ensures doc.enforced == Fail ==> doc.result == Fail
    ensures doc.enforced == Incomplete ==> doc.result != Pass
  {
    hide LegGreen, LegRed, LegSettled, EnforcementOf, IsRequired, Renders, Advisory;
    var legs: seq<Leg>, advisory: seq<string>, complete := [], [], true;
    var anyFail, anyNotPass := false, false;
    var reqFail, reqNotPass, anyRequired := false, false, false;
    assert engines[..0] == [];
    assert Advisory(suite, [], trim) == [] by { NoAdvisory(suite, trim); }
    for i := 0 to |engines|
      invariant |legs| == i && forall j :: 0 <= j < i ==> Renders(legs[j], suite, engines[j], observed, trim)
      invariant advisory == Advisory(suite, engines[..i], trim)
      invariant complete <==> forall j :: 0 <= j < i ==> LegSettled(suite, engines[j], observed)
      invariant anyFail <==> exists j :: 0 <= j < i && LegRed(suite, engines[j], observed)
      invariant !anyNotPass <==> forall j :: 0 <= j < i ==> LegGreen(suite, engines[j], observed)
      invariant anyRequired <==> exists j :: 0 <= j < i && IsRequired(suite, engines[j], trim)
      invariant reqFail <==> exists j ::
        0 <= j < i && IsRequired(suite, engines[j], trim) && LegRed(suite, engines[j], observed)
      invariant !reqNotPass <==>
        forall j :: 0 <= j < i && IsRequired(suite, engines[j], trim) ==> LegGreen(suite, engines[j], observed)
    {
      var leg := BuildLegMatrix(suite, engines[i], observed, trim);
      legs := legs + [leg];
      Settled(suite, engines[i], observed);
      RendersTells(leg, suite, engines[i], observed, trim);
      OneAdvisory(suite, engines, i, trim);
      if !leg.executed || !leg.complete {
        complete := false;
      }
      anyFail := anyFail || leg.result == Fail;
      anyNotPass := anyNotPass || leg.result != Pass;
      if leg.enforcement != REQUIRED {
        advisory := advisory + [leg.engine];
        continue;
      }
      anyRequired := true;
      reqFail := reqFail || leg.result == Fail;
      reqNotPass := reqNotPass || leg.result != Pass;
    }
    assert engines[..|engines|] == engines;
    forall j | 0 <= j < |engines|
      ensures LegGreen(suite, engines[j], observed) ==>
        LegSettled(suite, engines[j], observed) && !LegRed(suite, engines[j], observed)
    {
      Settled(suite, engines[j], observed);
    }
    doc := Document(Overall(anyFail, anyNotPass),
      if anyRequired then Overall(reqFail, reqNotPass) else NoVerdict, complete, legs, advisory);
  }

  /** A leg is required if the suite says so in that word; what it does not say is unknown. */
  lemma EnforcementIs(suite: Suite, engine: string, trim: string -> string)
    ensures var said := trim(if engine in suite.enforcement then suite.enforcement[engine] else "");
      && (IsRequired(suite, engine, trim) <==> said == "required")
      && EnforcementOf(suite, engine, trim) == if said == "" then "unknown" else said
  {
  }

  ghost function NotRequired(suite: Suite, engines: seq<string>, trim: string -> string): int -> bool {
    k => 0 <= k < |engines| && !IsRequired(suite, engines[k], trim)
  }

  ghost predicate NamesAt(engines: seq<string>, at: seq<int>, names: seq<string>) {
    |names| == |at| && forall i :: 0 <= i < |at| ==> 0 <= at[i] < |engines| && names[i] == engines[at[i]]
  }

  /** The advisory legs are those that are not required, in order. */
  lemma {:induction false} AdvisoryIs(suite: Suite, engines: seq<string>, n: nat, trim: string -> string)
    requires n <= |engines|
    ensures exists at ::
      && Selects(at, n, NotRequired(suite, engines, trim))
      && NamesAt(engines, at, Advisory(suite, engines[..n], trim))
  {
    hide IsRequired, Selects, Advisory;
    var wanted := NotRequired(suite, engines, trim);
    if n == 0 {
      assert engines[..0] == [];
      NoAdvisory(suite, trim);
      assert Selects([], 0, wanted) by { NoneSelected(wanted); }
      assert NamesAt(engines, [], []);
    } else {
      AdvisoryIs(suite, engines, n - 1, trim);
      var names := Advisory(suite, engines[..n - 1], trim);
      var at :| Selects(at, n - 1, wanted) && NamesAt(engines, at, names);
      SelectsNext(at, n - 1, wanted);
      OneAdvisory(suite, engines, n - 1, trim);
      if wanted(n - 1) {
        assert NamesAt(engines, at + [n - 1], names + [engines[n - 1]]);
      }
    }
  }

  /** The legs that block nothing. */
  function Advisory(suite: Suite, engines: seq<string>, trim: string -> string): seq<string> {
    if engines == [] then []
    else
      var last := engines[|engines| - 1];
      Advisory(suite, engines[..|engines| - 1], trim) + if IsRequired(suite, last, trim) then [] else [last]
  }

  lemma NoAdvisory(suite: Suite, trim: string -> string)
    ensures Advisory(suite, [], trim) == []
  {
  }

  lemma OneAdvisory(suite: Suite, engines: seq<string>, i: nat, trim: string -> string)
    requires i < |engines|
    ensures Advisory(suite, engines[..i + 1], trim) ==
            if IsRequired(suite, engines[i], trim) then Advisory(suite, engines[..i], trim)
              else Advisory(suite, engines[..i], trim) + [engines[i]]
  {
    hide IsRequired;
    assert engines[..i + 1][..i] == engines[..i];
  }

  lemma RendersTells(leg: Leg, suite: Suite, engine: string, observed: Observations, trim: string -> string)
    requires Renders(leg, suite, engine, observed, trim)
    ensures leg.engine == engine && (leg.enforcement == REQUIRED <==> IsRequired(suite, engine, trim))
    ensures leg.executed <==> engine in observed
    ensures leg.result == Pass <==> LegGreen(suite, engine, observed)
    ensures leg.result == Fail <==> LegRed(suite, engine, observed)
    ensures leg.complete <==> LegSettled(suite, engine, observed)
  {
  }

  lemma Settled(suite: Suite, engine: string, observed: Observations)
    ensures LegSettled(suite, engine, observed) ==> engine in observed
    ensures LegGreen(suite, engine, observed) ==>
      LegSettled(suite, engine, observed) && !LegRed(suite, engine, observed)
  {
    hide Saw, Excused;
    if LegGreen(suite, engine, observed) && LegRed(suite, engine, observed) {
      var i :| 0 <= i < |suite.scenarios| && Saw(suite.scenarios[i], engine, observed[engine], FAILURE);
      CellColours(suite.scenarios[i], engine, observed[engine]);
    }
  }

  /** A passing leg has an observed success to show exactly when some scenario is planned for it. */
  lemma PassHasEvidenceIff(suite: Suite, engine: string, observed: Observations)
    requires LegGreen(suite, engine, observed)
    ensures (exists i :: 0 <= i < |suite.scenarios| && Saw(suite.scenarios[i], engine, observed[engine], SUCCESS))
       <==> (exists i :: 0 <= i < |suite.scenarios| && Planned(suite.scenarios[i], engine))
  {
    if i :| 0 <= i < |suite.scenarios| && Planned(suite.scenarios[i], engine) {
      assert Green(suite.scenarios[i], engine, observed[engine]);
    }
  }

  /** A leg that reported an empty file and plans nothing passes with nothing seen. */
  lemma PassWithoutEvidence(engine: string, id: string)
    ensures var suite := Suite([Scenario(id, map[engine := LegEntry(NOT_RUN, "", "")])], map[]);
      LegGreen(suite, engine, map[engine := map[]]) && !exists i ::
        0 <= i < |suite.scenarios| && Planned(suite.scenarios[i], engine)
  {
  }

  // ---------------------------------------------------------------------------------------------------------------
  // Running a leg locally

  /** The scenarios the local runner executes for a leg. */
  predicate Runnable(sc: Scenario, leg: string) {
    Planned(sc, leg) && sc.legs[leg].runner != ""
  }

  function Outcome(succeeds: string -> bool, runner: string): string {
    if succeeds(runner) then SUCCESS else FAILURE
  }

  predicate Under(sc: Scenario, leg: string, key: string) {
    Runnable(sc, leg) && ObservationKey(sc, sc.legs[leg]) == key
  }

  /** The runner of the last runnable scenario that reports under `key`. */
  function LastUnder(scenarios: seq<Scenario>, leg: string, key: string): (r: Option<string>)
    ensures r.Some? ==> exists i ::
      0 <= i < |scenarios| && Under(scenarios[i], leg, key) && scenarios[i].legs[leg].runner == r.value
    ensures r.None? ==> forall i :: 0 <= i < |scenarios| ==> !Under(scenarios[i], leg, key)
  {
    if scenarios == [] then None
    else
      var sc := scenarios[|scenarios| - 1];
      if Under(sc, leg, key) then Some(sc.legs[leg].runner)
      else LastUnder(scenarios[..|scenarios| - 1], leg, key)
  }

  /** The runners to start: each once, in order of first use. */
  function Launches(scenarios: seq<Scenario>, leg: string): (r: seq<string>)
    ensures forall i, j :: 0 <= i < j < |r| ==> r[i] != r[j]
    ensures forall x :: x in r <==>
      exists i :: 0 <= i < |scenarios| && Runnable(scenarios[i], leg) && scenarios[i].legs[leg].runner == x
  {
    if scenarios == [] then []
    else
      var before, sc := Launches(scenarios[..|scenarios| - 1], leg), scenarios[|scenarios| - 1];
      if Runnable(sc, leg) && sc.legs[leg].runner !in before then before + [sc.legs[leg].runner] else before
  }

  lemma {:induction false} LastUnderIs(scenarios: seq<Scenario>, leg: string, key: string, i: nat)
    requires i < |scenarios| && Under(scenarios[i], leg, key)
    requires forall j :: i < j < |scenarios| ==> !Under(scenarios[j], leg, key)
    ensures LastUnder(scenarios, leg, key) == Some(scenarios[i].legs[leg].runner)
    decreases |scenarios|
  {
    hide Under;
    if i == |scenarios| - 1 {
    } else {
      LastUnderIs(scenarios[..|scenarios| - 1], leg, key, i);
    }
  }

  /** The runner is first used at `i`. */
  ghost predicate FirstUse(scenarios: seq<Scenario>, leg: string, runner: string, i: int) {
    && 0 <= i < |scenarios| && Runnable(scenarios[i], leg) && scenarios[i].legs[leg].runner == runner
    && forall j :: 0 <= j < i && Runnable(scenarios[j], leg) ==> scenarios[j].legs[leg].runner != runner
  }

  /** Runners are started in the order of their first use. */
  lemma {:induction false} LaunchesInOrder(scenarios: seq<Scenario>, leg: string, a: int, b: int, i: int, j: int)
    requires 0 <= a < b < |Launches(scenarios, leg)|
    requires FirstUse(scenarios, leg, Launches(scenarios, leg)[a], i)
      && FirstUse(scenarios, leg, Launches(scenarios, leg)[b], j)
    ensures i < j
    decreases |scenarios|
  {
    hide Runnable;
    var n := |scenarios| - 1;
    var front := scenarios[..n];
    var before := Launches(front, leg);
    assert before <= Launches(scenarios, leg);
    if b < |before| {
      assert before[a] in before && before[b] in before;
      UsedBefore(scenarios, leg, before[a], i);
      UsedBefore(scenarios, leg, before[b], j);
      LaunchesInOrder(front, leg, a, b, i, j);
    } else {
      assert before[a] in before;
      UsedBefore(scenarios, leg, before[a], i);
      assert j == n;
    }
  }

  lemma UsedBefore(scenarios: seq<Scenario>, leg: string, runner: string, i: int)
    requires scenarios != [] && runner in Launches(scenarios[..|scenarios| - 1], leg)
      && FirstUse(scenarios, leg, runner, i)
    ensures i < |scenarios| - 1 && FirstUse(scenarios[..|scenarios| - 1], leg, runner, i)
  {
    hide Launches;
    var front := scenarios[..|scenarios| - 1];
    var k :| 0 <= k < |front| && Runnable(front[k], leg) && front[k].legs[leg].runner == runner;
    assert scenarios[k] == front[k];
  }

  /** Under each key stands the outcome of the last scenario that reports there, and nothing else is recorded. */
  ghost predicate Records(outcomes: map<string, string>, scenarios: seq<Scenario>, leg: string,
      succeeds: string -> bool)
  {
    forall key ::
      && (key in outcomes <==> LastUnder(scenarios, leg, key).Some?)
      && (key in outcomes ==> outcomes[key] == Outcome(succeeds, LastUnder(scenarios, leg, key).value))
  }

  lemma OneScenario(scenarios: seq<Scenario>, i: nat, leg: string, key: string)
    requires i < |scenarios|
    ensures LastUnder(scenarios[..i + 1], leg, key) ==
            if Under(scenarios[i], leg, key) then Some(scenarios[i].legs[leg].runner)
              else LastUnder(scenarios[..i], leg, key)
  {
    hide Under;
    assert scenarios[..i + 1][..i] == scenarios[..i];
  }

  lemma RecordsStep(outcomes: map<string, string>, scenarios: seq<Scenario>, i: nat, leg: string,
      succeeds: string -> bool)
    requires i < |scenarios| && Records(outcomes, scenarios[..i], leg, succeeds)
    ensures !Runnable(scenarios[i], leg) ==> Records(outcomes, scenarios[..i + 1], leg, succeeds)
    ensures Runnable(scenarios[i], leg) ==>
      var entry := scenarios[i].legs[leg];
      Records(outcomes[ObservationKey(scenarios[i], entry) := Outcome(succeeds, entry.runner)], scenarios[..i + 1],
        leg, succeeds)
  {
    hide LastUnder, Outcome, ObservationKey;
    var sc := scenarios[i];
    if Runnable(sc, leg) {
      var k, outcome := ObservationKey(sc, sc.legs[leg]), Outcome(succeeds, sc.legs[leg].runner);
      var next := outcomes[k := outcome];
      forall key
        ensures key in next <==> LastUnder(scenarios[..i + 1], leg, key).Some?
        ensures key in next ==> next[key] == Outcome(succeeds, LastUnder(scenarios[..i + 1], leg, key).value)
      {
        OneScenario(scenarios, i, leg, key);
      }
    } else {
      forall key
        ensures LastUnder(scenarios[..i + 1], leg, key) == LastUnder(scenarios[..i], leg, key)
      {
        OneScenario(scenarios, i, leg, key);
      }
    }
  }

  lemma OneLaunch(scenarios: seq<Scenario>, i: nat, leg: string)
    requires i < |scenarios|
    ensures Launches(scenarios[..i + 1], leg) ==
            if Runnable(scenarios[i], leg) && scenarios[i].legs[leg].runner !in Launches(scenarios[..i], leg)
            then Launches(scenarios[..i], leg) + [scenarios[i].legs[leg].runner] else Launches(scenarios[..i], leg)
  {
    hide Runnable;
    assert scenarios[..i + 1][..i] == scenarios[..i];
  }

  lemma NothingRun(leg: string, succeeds: string -> bool)
    ensures Launches([], leg) == [] && Records(map[], [], leg, succeeds)
  {
  }

  /** Starts each runner once and records what every runnable scenario's runner did. */
  method RunLegRunners(scenarios: seq<Scenario>, leg: string, succeeds: string -> bool)
      returns (outcomes: map<string, string>, launched: seq<string>)
    ensures Records(outcomes, scenarios, leg, succeeds)
    ensures launched == Launches(scenarios, leg)
  {
    hide Launches, Records, LastUnder, ObservationKey, Outcome;
    outcomes, launched := map[], [];
    var byRunner: map<string, string> := map[];
    assert scenarios[..0] == [];
    NothingRun(leg, succeeds);
    for i := 0 to |scenarios|
      invariant Records(outcomes, scenarios[..i], leg, succeeds)
      invariant launched == Launches(scenarios[..i], leg)
      invariant forall r :: r in byRunner <==> r in launched
      invariant forall r :: r in byRunner ==> byRunner[r] == Outcome(succeeds, r)
    {
      var sc := scenarios[i];
      RecordsStep(outcomes, scenarios, i, leg, succeeds);
      OneLaunch(scenarios, i, leg);
      if leg !in sc.legs || sc.legs[leg].status != RUN || sc.legs[leg].runner == "" {
        continue;
      }
      var entry := sc.legs[leg];
      var key := ObservationKey(sc, entry);
      if entry.runner in byRunner {
        outcomes := outcomes[key := byRunner[entry.runner]];
        continue;
      }
      launched := launched + [entry.runner];
      var outcome := Outcome(succeeds, entry.runner);
      outcomes, byRunner := outcomes[key := outcome], byRunner[entry.runner := outcome];
    }
    assert scenarios[..|scenarios|] == scenarios;
  }

  /** The scenarios planned for a leg share a key only if they share a runner. */
  ghost predicate KeysAgree(scenarios: seq<Scenario>, leg: string) {
    forall i, j :: 0 <= i < |scenarios| && 0 <= j < |scenarios| && Planned(scenarios[i], leg)
      && Planned(scenarios[j], leg)
      && ObservationKey(scenarios[i], scenarios[i].legs[leg]) == ObservationKey(scenarios[j], scenarios[j].legs[leg])
      ==> scenarios[i].legs[leg].runner == scenarios[j].legs[leg].runner
  }

  lemma SawIffRan(scenarios: seq<Scenario>, i: nat, leg: string, succeeds: string -> bool,
      outcomes: map<string, string>)
    requires i < |scenarios| && KeysAgree(scenarios, leg) && Records(outcomes, scenarios, leg, succeeds)
    ensures Saw(scenarios[i], leg, outcomes, SUCCESS) <==>
      Runnable(scenarios[i], leg) && succeeds(scenarios[i].legs[leg].runner)
  {
    hide LastUnder, ObservationKey;
    var sc := scenarios[i];
    if Planned(sc, leg) {
      var key := ObservationKey(sc, sc.legs[leg]);
      var last := LastUnder(scenarios, leg, key);
      assert key in outcomes <==> last.Some?;
      if last.Some? {
        var j :| 0 <= j < |scenarios| && Under(scenarios[j], leg, key) && scenarios[j].legs[leg].runner == last.value;
        assert last.value == sc.legs[leg].runner;
      }
    }
  }

  /**
  A local run passes exactly when each scenario is excused or has a runner that succeeds, if shared keys share runners.
  */
  lemma LocalRunPassesIff(suite: Suite, leg: string, succeeds: string -> bool, outcomes: map<string, string>)
    requires KeysAgree(suite.scenarios, leg) && Records(outcomes, suite.scenarios, leg, succeeds)
    ensures LegGreen(suite, leg, map[leg := outcomes]) <==>
      forall i :: 0 <= i < |suite.scenarios| ==>
        || Excused(suite.scenarios[i], leg)
        || (Runnable(suite.scenarios[i], leg) && succeeds(suite.scenarios[i].legs[leg].runner))
  {
    hide Saw, Records, KeysAgree;
    forall i | 0 <= i < |suite.scenarios|
      ensures Saw(suite.scenarios[i], leg, outcomes, SUCCESS) <==>
        Runnable(suite.scenarios[i], leg) && succeeds(suite.scenarios[i].legs[leg].runner)
    {
      SawIffRan(suite.scenarios, i, leg, succeeds, outcomes);
    }
  }

  /**
  Exactly when a cell tells of its own scenario's runner, whatever the runners do: the key's last word is that runner's.
  */
  lemma CellTellsOfItsRunnerIff(scenarios: seq<Scenario>, i: nat, leg: string)
    requires i < |scenarios| && Runnable(scenarios[i], leg)
    ensures var runner := scenarios[i].legs[leg].runner;
      var last := LastUnder(scenarios, leg, ObservationKey(scenarios[i], scenarios[i].legs[leg]));
      && last.Some?
      && (last.value == runner ==> forall succeeds, outcomes :: Records(outcomes, scenarios, leg, succeeds) ==>
            (Saw(scenarios[i], leg, outcomes, SUCCESS) <==> succeeds(runner)))
      && (last.value != runner ==> forall outcomes :: Records(outcomes, scenarios, leg, r => r != runner) ==>
            Saw(scenarios[i], leg, outcomes, SUCCESS))
  {
    hide LastUnder, ObservationKey;
    var key := ObservationKey(scenarios[i], scenarios[i].legs[leg]);
    assert Under(scenarios[i], leg, key);
  }

  /** Two scenarios under one step with different runners: the first can fail and its cell pass. */
  lemma SharedStepHidesFailure(leg: string, step: string, first: string, second: string, outcomes: map<string, string>)
    requires step != "" && first != "" && second != "" && first != second
    requires var scenarios :=
      [Scenario("a", map[leg := LegEntry(RUN, first, step)]), Scenario("b", map[leg := LegEntry(RUN, second, step)])];
      Records(outcomes, scenarios, leg, r => r != first)
    ensures Saw(Scenario("a", map[leg := LegEntry(RUN, first, step)]), leg, outcomes, SUCCESS)
  {
    var scenarios := [Scenario("a", map[leg := LegEntry(RUN, first, step)]),
      Scenario("b", map[leg := LegEntry(RUN, second, step)])];
    assert Under(scenarios[1], leg, step);
    assert LastUnder(scenarios, leg, step) == Some(second);
  }
}
