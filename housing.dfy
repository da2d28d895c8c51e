/**
 * The "hosted by a friend or relative" housing situation: its three sub-cases with
 * their documents, the choice of sub-case from the applicant's age and relation to
 * the host, and the lookup of the documents a sub-case requires.
 */
module Housing {
  import opened Wrappers

  datatype DocumentRequirement = DocumentRequirement(
    id: string,
    labelText: string,  // `label` in the source
    description: Option<string>,
    mandatory: bool)

  /** Inclusive age bounds; a missing bound does not restrict. */
  datatype AgeRestriction = AgeRestriction(min: Option<int>, max: Option<int>)

  datatype HousingSituation = HousingSituation(
    id: string,
    labelText: string,
    description: Option<string>,
    ageRestriction: Option<AgeRestriction>,
    requiredDocuments: seq<DocumentRequirement>)

  datatype HostedSubcase = HostedSubcase(
    id: string,
    labelText: string,
    ageRestriction: Option<AgeRestriction>,  // `null` in the source: any age
    requiredDocuments: seq<DocumentRequirement>,
    note: Option<string>)

  const HostedBySituationId: string := "hosted_by_friend_or_family"

  /** The grouped situation; its documents depend on the sub-case. */
  const HousingSituations: seq<HousingSituation> := [
    HousingSituation(
      HostedBySituationId,
      "Logé chez un ami ou un proche",
      Some("3 cas de figure selon votre âge et le lien avec l'hébergeant"),
      None,
      [])
  ]

  const HostedByOther: HostedSubcase := HostedSubcase(
    "hosted_by_other",
    "Logé chez une autre personne (tiers, autre qu'un parent)",
    None,
    [ DocumentRequirement("hosted_person_id", "Pièce d'identité du demandeur (hébergé)", None, true),
      DocumentRequirement("hosting_attestation",
        "Attestation d'hébergement manuscrite, signée et datée de moins de 3 mois",
        Some("Par la personne qui héberge"), true),
      DocumentRequirement("host_id_copy", "Copie de la pièce d'identité de l'hébergeant", None, true),
      DocumentRequirement("host_address_proof",
        "Justificatif de domicile récent (moins de 3 mois) au nom de l'hébergeant",
        Some("Facture eau, électricité, quittance, etc."), true) ],
    None)

  const AdultChildUnder26: HostedSubcase := HostedSubcase(
    "adult_child_under_26",
    "Enfant majeur logé chez un parent",
    Some(AgeRestriction(Some(18), Some(25))),
    [ DocumentRequirement("young_adult_id", "Pièce d'identité du jeune majeur", None, true),
      DocumentRequirement("parent_address_proof", "Justificatif de domicile du parent (moins de 3 mois)",
        Some("Facture, quittance, avis d'imposition dans la commune"), true),
      DocumentRequirement("filiation_proof", "Preuve du lien de filiation",
        Some("Copie du livret de famille ou acte de naissance mentionnant les parents"), true) ],
    Some("Aucune attestation d'hébergement manuscrite nécessaire car le lien familial suffit"))

  const AdultChild26Plus: HostedSubcase := HostedSubcase(
    "adult_child_26_plus",
    "Enfant majeur logé chez un parent",
    Some(AgeRestriction(Some(26), None)),
    [ DocumentRequirement("adult_child_id", "Pièce d'identité du demandeur", None, true),
      DocumentRequirement("parent_hosting_attestation", "Attestation d'hébergement manuscrite du parent",
        Some("Signée et datée de moins de 3 mois"), true),
      DocumentRequirement("municipality_link_proof", "Document prouvant votre lien avec la commune",
        Some("Bulletin de salaire récent, facture, relevé CAF à votre nom et à l'adresse"), true),
      DocumentRequirement("parent_id_copy", "Copie de la pièce d'identité du parent hébergeant", None, true) ],
    Some("Au-delà de 26 ans, le lien familial ne suffit plus. L'attestation d'hébergement est obligatoire."))

  /** `HOSTED_SUBCASES`, keyed by sub-case id. */
  const HostedSubcases: map<string, HostedSubcase> := map[
    "hosted_by_other" := HostedByOther,
    "adult_child_under_26" := AdultChildUnder26,
    "adult_child_26_plus" := AdultChild26Plus
  ]

  /** Whether `age` lies within the (inclusive, possibly open-ended) restriction. */
  predicate Admits(restriction: Option<AgeRestriction>, age: int) {
    match restriction
    case None => true
    case Some(r) =>
      (r.min.None? || r.min.value <= age) && (r.max.None? || age <= r.max.value)
  }

  predicate AllMandatory(docs: seq<DocumentRequirement>) {
    forall i :: 0 <= i < |docs| ==> docs[i].mandatory
  }

  predicate DistinctRequirementIds(docs: seq<DocumentRequirement>) {
    forall i, j :: 0 <= i < j < |docs| ==> docs[i].id != docs[j].id
  }

  /**
   * The sub-case table: three entries, each stored under its own id, each listing
   * distinct, all-mandatory documents (four, three and four of them).
   */
  lemma HostedSubcasesWellFormed()
    ensures HostedSubcases.Keys == {"hosted_by_other", "adult_child_under_26", "adult_child_26_plus"}
    ensures forall k :: k in HostedSubcases ==> HostedSubcases[k].id == k
    ensures forall k :: k in HostedSubcases ==> AllMandatory(HostedSubcases[k].requiredDocuments)
    ensures forall k :: k in HostedSubcases ==> DistinctRequirementIds(HostedSubcases[k].requiredDocuments)
    ensures |HostedSubcases["hosted_by_other"].requiredDocuments| == 4
    ensures |HostedSubcases["adult_child_under_26"].requiredDocuments| == 3
    ensures |HostedSubcases["adult_child_26_plus"].requiredDocuments| == 4
  {
    assert AllMandatory(HostedByOther.requiredDocuments);
    assert AllMandatory(AdultChildUnder26.requiredDocuments);
    assert AllMandatory(AdultChild26Plus.requiredDocuments);
  }

  /**
   * `getHostingSubcase`: without a parent as host, the other-person case; with a
   * parent, the under-26 case from 18 to 25, the 26-and-over case from 26, and the
   * other-person case below 18. The chosen sub-case always admits the age.
   */
  function GetHostingSubcase(age: int, isParent: bool): (key: string)
    ensures key in HostedSubcases && HostedSubcases[key].id == key
    ensures Admits(HostedSubcases[key].ageRestriction, age)
    ensures key == "hosted_by_other" <==> !isParent || age < 18
  {
    if !isParent then "hosted_by_other"
    else if age >= 18 && age < 26 then "adult_child_under_26"
    else if age >= 26 then "adult_child_26_plus"
    else "hosted_by_other"
  }

  /**
   * For a parent host of an adult, the sub-case chosen is the only parent sub-case
   * whose declared age restriction admits the age.
   */
  lemma ParentSubcaseMatchesRestriction(age: int, k: string)
    requires age >= 18
    requires k in HostedSubcases && k != "hosted_by_other"
    ensures Admits(HostedSubcases[k].ageRestriction, age) <==> k == GetHostingSubcase(age, true)
  {
    assert k == "adult_child_under_26" || k == "adult_child_26_plus";
  }

  /** The sub-case documents stored under `key`, or none for a key the table lacks. */
  function SubcaseDocuments(key: string): (r: seq<DocumentRequirement>)
    ensures key in HostedSubcases ==> r == HostedSubcases[key].requiredDocuments
    ensures key !in HostedSubcases ==> r == []
    ensures AllMandatory(r)
  {
    HostedSubcasesWellFormed();
    if key in HostedSubcases then HostedSubcases[key].requiredDocuments else []
  }

  /**
   * `getRequiredDocuments`: for the grouped situation with both the age and the
   * relation known, the documents of the sub-case they select; otherwise the
   * documents stored under `subcase`, or none. Every document returned is mandatory,
   * and the list is empty exactly when nothing is found.
   */
  function GetRequiredDocuments(subcase: string, age: Option<int>, isParent: Option<bool>)
    : (r: seq<DocumentRequirement>)
    ensures AllMandatory(r)
    ensures r != [] <==>
      (subcase in HostedSubcases || (subcase == HostedBySituationId && age.Some? && isParent.Some?))
  {
    HostedSubcasesWellFormed();
    if subcase == HostedBySituationId && age.Some? && isParent.Some? then
      SubcaseDocuments(GetHostingSubcase(age.value, isParent.value))
    else
      SubcaseDocuments(subcase)
  }

  /** With the age and the relation known, the grouped situation resolves to its sub-case's documents. */
  lemma RequiredDocumentsResolved(age: int, isParent: bool)
    ensures GetRequiredDocuments(HostedBySituationId, Some(age), Some(isParent)) ==
      HostedSubcases[GetHostingSubcase(age, isParent)].requiredDocuments
  {
  }

  /** A sub-case id asked for directly gives that sub-case's documents, whatever age and relation are passed. */
  lemma RequiredDocumentsDirect(key: string, age: Option<int>, isParent: Option<bool>)
    requires key in HostedSubcases
    ensures GetRequiredDocuments(key, age, isParent) == HostedSubcases[key].requiredDocuments
  {
  }

  /** Any other id, including the grouped situation with the age or the relation missing, gives no document. */
  lemma RequiredDocumentsUnknown(subcase: string, age: Option<int>, isParent: Option<bool>)
    requires subcase !in HostedSubcases
    requires subcase == HostedBySituationId ==> age.None? || isParent.None?
    ensures GetRequiredDocuments(subcase, age, isParent) == []
  {
  }
}
