/**
 * The hosting sub-step: the applicant says whether the host is a parent and, for a
 * parent, picks an age group; continuing turns these two answers into the age and
 * relation the sub-case resolver takes.
 */
module HostStep {
  import opened Wrappers
  import opened Housing

  /** The relation radio group: nothing chosen yet (`""`), `"parent"` or `"other"`. */
  datatype Relation = NoRelation | Parent | Other

  /** The age radio group: `"under26"` or `"over26"`. */
  datatype AgeGroup = Under26 | Over26

  /** What `onConfirm` receives. */
  datatype HostingFacts = HostingFacts(age: int, isParent: bool)

  /** `canContinue`: some relation has been chosen. */
  function CanContinue(relation: Relation): (r: bool)
    ensures r <==> relation != NoRelation
  {
    relation == Other || relation == Parent
  }

  /**
   * The facts `handleContinue` confirms: none before a relation is chosen; otherwise
   * a representative age for the answers given (20 or 26 for a parent host, by age
   * group, and 30 for another host) with the relation.
   */
  function ConfirmedFacts(relation: Relation, ageGroup: AgeGroup): (r: Option<HostingFacts>)
    ensures r.None? <==> !CanContinue(relation)
    ensures r.Some? ==> (r.value.isParent <==> relation == Parent)
    ensures relation == Parent && ageGroup == Under26 ==> r == Some(HostingFacts(20, true))
    ensures relation == Parent && ageGroup == Over26 ==> r == Some(HostingFacts(26, true))
    ensures relation == Other ==> r == Some(HostingFacts(30, false))
  {
    if !CanContinue(relation) then None
    else
      var isParent := relation == Parent;
      var age := if isParent then (if ageGroup == Under26 then 20 else 26) else 30;
      Some(HostingFacts(age, isParent))
  }

  /** The sub-case each pair of answers stands for. */
  function IntendedSubcase(relation: Relation, ageGroup: AgeGroup): string
    requires relation != NoRelation
  {
    if relation == Other then "hosted_by_other"
    else if ageGroup == Under26 then "adult_child_under_26"
    else "adult_child_26_plus"
  }

  /**
   * The confirmed facts resolve to the sub-case the answers stand for, and a parent
   * host always comes with an adult age, so the resolver's under-18 fallback is never
   * reached from this step.
   */
  lemma ConfirmedFactsSubcase(relation: Relation, ageGroup: AgeGroup)
    requires relation != NoRelation
    ensures var facts := ConfirmedFacts(relation, ageGroup).value;
      && GetHostingSubcase(facts.age, facts.isParent) == IntendedSubcase(relation, ageGroup)
      && (facts.isParent ==> facts.age >= 18)
  {
  }

  /** The confirmed age lies within the declared age restriction of the sub-case the answers stand for. */
  lemma ConfirmedAgeAdmitted(relation: Relation, ageGroup: AgeGroup)
    requires relation != NoRelation
    ensures var facts := ConfirmedFacts(relation, ageGroup).value;
      Admits(HostedSubcases[IntendedSubcase(relation, ageGroup)].ageRestriction, facts.age)
  {
    ConfirmedFactsSubcase(relation, ageGroup);
  }

  /** The step's two radio groups. */
  class HostSubcaseStep {
    var relation: Relation
    var ageGroup: AgeGroup

    constructor ()
      ensures relation == NoRelation && ageGroup == Under26
    {
      relation := NoRelation;
      ageGroup := Under26;
    }

    method SetRelation(value: Relation)
      modifies this`relation
      ensures relation == value
    {
      relation := value;
    }

    method SetAgeGroup(value: AgeGroup)
      modifies this`ageGroup
      ensures ageGroup == value
    {
      ageGroup := value;
    }

    /** `handleContinue`: the facts passed to `onConfirm`, or none when it returns early. */
    method HandleContinue() returns (confirmed: Option<HostingFacts>)
      ensures confirmed == ConfirmedFacts(relation, ageGroup)
      ensures confirmed.None? <==> relation == NoRelation
    {
      if !CanContinue(relation) {
        return None;
      }
      confirmed := ConfirmedFacts(relation, ageGroup);
    }
  }
}
