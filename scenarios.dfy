/** The scenario page: a table of courtroom scenarios and a two-field stepper (the selected
    scenario's id and the current step) driven by the Start, Previous Step, Next Step, Complete
    Scenario and Back buttons. */
module Scenarios {
  import opened JsArray
  import AnswerSheet

  /** One exchange of a scenario; its spoken text is display text and is not modelled. */
  datatype Step = Step(speaker: string, challenges: seq<string>)

  /** A scenario; description, difficulty, duration and participants are display text. */
  datatype Scenario = Scenario(id: string, title: string, steps: seq<Step>)

  function ScenarioTable(): seq<Scenario> {
    [
      Scenario("civil-trial", "Civil Trial Proceedings", [
        Step("THE COURT", ["Proper case citation format", "Speaker identification"]),
        Step("MR. DAVIDSON", ["Attorney identification format"]),
        Step("MS. RODRIGUEZ", ["Consistent speaker format"]),
        Step("THE COURT", ["Court direction formatting"]),
        Step("MR. DAVIDSON", ["Witness calling procedure"])]),
      Scenario("criminal-arraignment", "Criminal Arraignment", [
        Step("THE COURT", ["Criminal case format", "Charge specification"]),
        Step("THE DEFENDANT", ["Defendant response format"]),
        Step("THE COURT", ["Plea acceptance notation", "Bail discussion format"])]),
      Scenario("deposition", "Expert Witness Deposition", [
        Step("MR. THOMPSON", ["Deposition opening format", "Name spelling protocol"]),
        Step("THE WITNESS", ["Spelling notation", "Professional title usage"]),
        Step("MR. THOMPSON", ["Professional questioning format"]),
        Step("THE WITNESS", ["Medical terminology accuracy"])])
    ]
  }

  /** Distinct ids, and every scenario has at least one step. */
  predicate WellFormedTable(table: seq<Scenario>) {
    && (forall i, j :: 0 <= i < j < |table| ==> table[i].id != table[j].id)
    && (forall i :: 0 <= i < |table| ==> |table[i].steps| > 0)
  }

  lemma ScenarioTableWellFormed()
    ensures WellFormedTable(ScenarioTable())
    ensures |ScenarioTable()[0].steps| == 5 && |ScenarioTable()[1].steps| == 3
    ensures |ScenarioTable()[2].steps| == 4
  {
  }

  /** `scenarios.find(s => s.id === id)`. */
  function FindScenario(table: seq<Scenario>, id: string): Option<Scenario> {
    Find(table, (s: Scenario) => s.id == id)
  }

  /** With distinct ids, the lookup returns the one scenario carrying the id, and nothing when
      no scenario carries it. */
  lemma FindScenarioUnique(table: seq<Scenario>, id: string)
    requires WellFormedTable(table)
    ensures forall i :: 0 <= i < |table| && table[i].id == id ==> FindScenario(table, id) == Some(table[i])
    ensures (forall i :: 0 <= i < |table| ==> table[i].id != id) <==> FindScenario(table, id) == None
  {
    var r := FindScenario(table, id);
    if r.Some? {
      var k :| 0 <= k < |table| && table[k] == r.value && table[k].id == id &&
               forall j :: 0 <= j < k ==> table[j].id != id;
      assert forall i :: 0 <= i < |table| && table[i].id == id ==> i == k;
    }
  }

  /** The transcript pane: `steps.slice(0, currentStep + 1)`. */
  function Transcript(steps: seq<Step>, currentStep: nat): (r: seq<Step>)
    ensures r <= steps
    ensures |r| == if currentStep < |steps| then currentStep + 1 else |steps|
  {
    Prefix(steps, currentStep + 1)
  }

  /** On a step of the scenario the transcript shows exactly the steps so far, in order, and ends
      with the current one; one Next Step later it has grown by exactly the next step. */
  lemma {:induction false} TranscriptShowsStepsSoFar(steps: seq<Step>, k: nat)
    requires k < |steps|
    ensures |Transcript(steps, k)| == k + 1
    ensures forall i :: 0 <= i <= k ==> Transcript(steps, k)[i] == steps[i]
    ensures Transcript(steps, k)[k] == steps[k]
    ensures k + 1 < |steps| ==> Transcript(steps, k + 1) == Transcript(steps, k) + [steps[k + 1]]
  {
    if k + 1 < |steps| {
      assert steps[..k + 2] == steps[..k + 1] + [steps[k + 1]];
    }
  }

  /** The stepper. */
  class Stepper {
    const scenarios: seq<Scenario>
    var selectedScenario: Option<string>
    var currentStep: int

    /** The scenario the step view looks up. */
    function Current(): Option<Scenario>
      reads this
    {
      if selectedScenario.Some? then FindScenario(scenarios, selectedScenario.value) else None
    }

    /** The step view renders: the selected id is found and `steps[currentStep]` exists (its
        challenges are read at line 185). The list view always renders. */
    predicate Renderable()
      reads this
    {
      selectedScenario.Some? ==> Current().Some? && 0 <= currentStep < |Current().value.steps|
    }

    /** What every handler keeps as written: a well-formed table, a selection taken from it, and a
        cursor that is never negative. */
    ghost predicate Reachable()
      reads this
    {
      && WellFormedTable(scenarios)
      && 0 <= currentStep
      && (selectedScenario.Some? ==> Current().Some?)
    }

    /** The invariant the page needs: in the list view the cursor is 0, in the step view it is a
        step of the selected scenario. */
    ghost predicate Valid()
      reads this
    {
      && Reachable()
      && Renderable()
      && (selectedScenario.None? ==> currentStep == 0)
    }

    constructor ()
      ensures scenarios == ScenarioTable()
      ensures selectedScenario == None && currentStep == 0
      ensures Valid()
    {
      scenarios := ScenarioTable();
      selectedScenario := None;
      currentStep := 0;
      ScenarioTableWellFormed();
    }

    /** Start Scenario on a card of the list (line 292): select its id; the cursor is left as it
        is. The step view renders exactly when that cursor is a step of the new scenario. */
    method Start(index: nat)
      requires Reachable() && selectedScenario.None? && index < |scenarios|
      modifies this`selectedScenario
      ensures selectedScenario == Some(scenarios[index].id) && Current() == Some(scenarios[index])
      ensures Reachable()
      ensures Renderable() <==> currentStep < |scenarios[index].steps|
      ensures old(Valid()) ==> Valid()
    {
      FindScenarioUnique(scenarios, scenarios[index].id);
      selectedScenario := Some(scenarios[index].id);
    }

    /** Previous Step: `Math.max(0, currentStep - 1)`. */
    method PreviousStep()
      requires Reachable() && Renderable() && selectedScenario.Some?
      modifies this`currentStep
      ensures currentStep == AnswerSheet.Previous(old(currentStep))
      ensures Reachable() && Renderable()
    {
      currentStep := AnswerSheet.Previous(currentStep);
    }

    /** Next Step, offered on every step but the last: `Math.min(steps.length - 1, currentStep + 1)`. */
    method NextStep()
      requires Reachable() && Renderable() && selectedScenario.Some?
      requires currentStep != |Current().value.steps| - 1
      modifies this`currentStep
      ensures currentStep == old(currentStep) + 1
      ensures Reachable() && Renderable()
    {
      currentStep := AnswerSheet.Next(currentStep, |Current().value.steps|);
    }

    /** Complete Scenario, offered on the last step: back to the list with the cursor at 0.
        Nothing is recorded in the progress record. */
    method Complete()
      requires Reachable() && Renderable() && selectedScenario.Some?
      requires currentStep == |Current().value.steps| - 1
      modifies this
      ensures selectedScenario == None && currentStep == 0
      ensures Valid()
    {
      selectedScenario := None;
      currentStep := 0;
    }

    /** Back to Scenarios as written (line 124): the selection is cleared, the cursor is kept. */
    method BackAsWritten()
      requires Reachable() && selectedScenario.Some?
      modifies this`selectedScenario
      ensures selectedScenario == None && currentStep == old(currentStep)
      ensures Reachable()
    {
      selectedScenario := None;
    }

    /** Back to Scenarios as evidently intended: like Complete Scenario, it also resets the cursor. */
    method Back()
      requires Reachable() && selectedScenario.Some?
      modifies this
      ensures selectedScenario == None && currentStep == 0
      ensures Valid()
    {
      selectedScenario := None;
      currentStep := 0;
    }
  }

  /** The hole in the stepper as written: walk to step 5 of the civil trial, go Back, start the
      criminal arraignment (3 steps). The cursor is 4, so `steps[currentStep]` is undefined and
      the step view cannot render. */
  method BackThenShorterScenario() returns (step: int, stepCount: nat, renderable: bool)
    ensures step == 4 && stepCount == 3 && !renderable
  {
    var s := new Stepper();
    ScenarioTableWellFormed();
    s.Start(0);
    assert |s.Current().value.steps| == 5;
    s.NextStep();
    s.NextStep();
    s.NextStep();
    s.NextStep();
    assert s.currentStep == 4;
    s.BackAsWritten();
    s.Start(1);
    step := s.currentStep;
    stepCount := |s.scenarios[1].steps|;
    renderable := s.Renderable();
  }

  /** The same walk with the corrected Back starts the arraignment on its first step. */
  method BackThenShorterScenarioCorrected() returns (step: int, renderable: bool)
    ensures step == 0 && renderable
  {
    var s := new Stepper();
    ScenarioTableWellFormed();
    s.Start(0);
    assert |s.Current().value.steps| == 5;
    s.NextStep();
    s.NextStep();
    s.NextStep();
    s.NextStep();
    assert s.currentStep == 4;
    s.Back();
    s.Start(1);
    step := s.currentStep;
    renderable := s.Renderable();
  }
}
