/**
 * The three-step wizard: 0 choose the situation, 1 choose the documents, 2 review
 * the checklist. It keeps the current step, the list of steps marked complete
 * (duplicate-free, in the order they were first completed) and the user's selection.
 */
module Wizard {
  import opened Wrappers
  import opened Collections
  import opened Registration

  /** The titles of the three steps, indexed by step number. */
  const Steps: seq<string> := ["Situation", "Documents", "Vérification"]

  /** The selection the wizard starts from and returns to on restart. */
  const EmptySelection: UserSelection := UserSelection("", [], false)

  class RegistrationWizard {
    var currentStep: int
    var completedSteps: seq<int>
    var userSelection: UserSelection

    /**
     * The step is one of the three, completed steps are distinct step numbers, and
     * a step can only be on screen once the steps before it were completed: the
     * documents step after the situation step, the review after the documents step
     * (marked when the selection became complete) and the review itself.
     */
    ghost predicate Valid()
      reads this
    {
      && 0 <= currentStep < |Steps|
      && NoDup(completedSteps)
      && (forall k :: 0 <= k < |completedSteps| ==> 0 <= completedSteps[k] < |Steps|)
      && (currentStep >= 1 ==> 0 in completedSteps)
      && (currentStep == 2 ==> 1 in completedSteps && 2 in completedSteps)
      && (userSelection.isComplete ==> 1 in completedSteps)
    }

    /** The state the wizard starts in. */
    predicate IsInitial()
      reads this
    {
      currentStep == 0 && completedSteps == [] && userSelection == EmptySelection
    }

    constructor ()
      ensures IsInitial()
      ensures Valid()
    {
      currentStep := 0;
      completedSteps := [];
      userSelection := EmptySelection;
    }

    /** `selectedType`: the catalog situation the selection names, if any. */
    function SelectedType(): (r: Option<RegistrationType>)
      reads this
      ensures r.Some? ==> r.value in RegistrationTypes && r.value.id == userSelection.registrationType
      ensures r.None? <==> forall k :: 0 <= k < |RegistrationTypes| ==> RegistrationTypes[k].id != userSelection.registrationType
    {
      FindType(RegistrationTypes, userSelection.registrationType)
    }

    /**
     * `handleTypeSelection`: records the situation, clears the selection and its
     * completeness, marks step 0 complete and moves to the documents step.
     */
    method HandleTypeSelection(typeId: string)
      requires Valid()
      modifies this
      ensures Valid()
      ensures userSelection == UserSelection(typeId, [], false)
      ensures completedSteps == SetAdd(old(completedSteps), 0)
      ensures old(completedSteps) <= completedSteps
      ensures currentStep == 1
      ensures forall k :: 0 <= k < |RegistrationTypes| && RegistrationTypes[k].id == typeId ==>
        SelectedType() == Some(RegistrationTypes[k])
    {
      userSelection := UserSelection(typeId, [], false);
      if 0 !in completedSteps {
        completedSteps := completedSteps + [0];
      }
      currentStep := 1;
      forall k | 0 <= k < |RegistrationTypes| && RegistrationTypes[k].id == typeId
        ensures FindType(RegistrationTypes, typeId) == Some(RegistrationTypes[k])
      {
        CatalogLookup(k);
      }
    }

    /**
     * `handleDocumentSelection`: stores the documents and the completeness flag, and
     * marks step 1 complete when the flag is set. The step does not change.
     */
    method HandleDocumentSelection(documents: seq<string>, isComplete: bool)
      requires Valid()
      modifies this
      ensures Valid()
      ensures userSelection == UserSelection(old(userSelection.registrationType), documents, isComplete)
      ensures completedSteps == if isComplete then SetAdd(old(completedSteps), 1) else old(completedSteps)
      ensures old(completedSteps) <= completedSteps
      ensures currentStep == old(currentStep)
    {
      userSelection := UserSelection(userSelection.registrationType, documents, isComplete);
      if isComplete && 1 !in completedSteps {
        completedSteps := completedSteps + [1];
      }
    }

    /**
     * `handleNext`: from the documents step with a complete selection, moves to the
     * review and marks it complete; in any other state nothing changes.
     */
    method HandleNext()
      requires Valid()
      modifies this
      ensures Valid()
      ensures old(currentStep == 1 && userSelection.isComplete) ==>
        currentStep == 2 && completedSteps == SetAdd(old(completedSteps), 2)
      ensures !old(currentStep == 1 && userSelection.isComplete) ==>
        currentStep == old(currentStep) && completedSteps == old(completedSteps)
      ensures old(completedSteps) <= completedSteps
      ensures userSelection == old(userSelection)
    {
      if currentStep == 1 && userSelection.isComplete {
        currentStep := 2;
        if 2 !in completedSteps {
          completedSteps := completedSteps + [2];
        }
      }
    }

    /** `handlePrevious`: goes back one step; on the first step nothing changes. */
    method HandlePrevious()
      requires Valid()
      modifies this`currentStep
      ensures Valid()
      ensures currentStep == if old(currentStep) > 0 then old(currentStep) - 1 else old(currentStep)
    {
      if currentStep > 0 {
        currentStep := currentStep - 1;
      }
    }

    /** `handleRestart`: back to exactly the initial state. */
    method HandleRestart()
      modifies this
      ensures Valid()
      ensures IsInitial()
    {
      currentStep := 0;
      completedSteps := [];
      userSelection := EmptySelection;
    }
  }
}
