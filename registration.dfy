/**
 * The data model of the electoral-roll registration checklist and its catalog of
 * six registration situations, each with an ordered list of supporting documents and,
 * for some, a minimum number of documents to select per category.
 */
module Registration {
  import opened Wrappers
  import opened Collections

  /** The six values of the document category union. */
  const Categories: set<string> := {"identity", "address", "fiscal", "activity", "hosting", "management"}

  /** A supporting document of a situation. */
  datatype Document = Document(
    id: string,
    labelText: string,  // `label` in the source; `label` is a Dafny keyword
    description: Option<string>,
    required: bool,
    category: string)

  /**
   * A registration situation. An absent `minRequiredFromCategory` record is the
   * empty map: no operation tells the two apart.
   */
  datatype RegistrationType = RegistrationType(
    id: string,
    title: string,
    description: string,
    icon: string,
    documents: seq<Document>,
    minRequiredFromCategory: map<string, nat>)

  /** The wizard's working state; the empty `registrationType` means that none is chosen yet. */
  datatype UserSelection = UserSelection(
    registrationType: string,
    selectedDocuments: seq<string>,
    isComplete: bool)

  const ResidencePrincipale: RegistrationType := RegistrationType(
    "residence_principale", "Résidence principale",
    "Vous habitez principalement dans cette commune", "🏠",
    [
      Document("identity", "Pièce d'identité",
        Some("Carte d'identité valide ou périmée depuis moins de 5 ans, ou passeport valide"), true, "identity"),
      Document("facture_eau", "Facture d'eau",
        Some("Facture à votre nom, datée de moins de 3 mois"), false, "address"),
      Document("facture_electricite", "Facture d'électricité",
        Some("Facture à votre nom, datée de moins de 3 mois"), false, "address"),
      Document("facture_gaz", "Facture de gaz",
        Some("Facture à votre nom, datée de moins de 3 mois"), false, "address"),
      Document("facture_telephone", "Facture téléphone fixe",
        Some("Facture à votre nom, datée de moins de 3 mois"), false, "address"),
      Document("facture_internet", "Facture internet",
        Some("Facture à votre nom, datée de moins de 3 mois"), false, "address"),
      Document("quittance_loyer", "Quittance de loyer",
        Some("Quittance non manuscrite, datée de moins de 3 mois"), false, "address"),
      Document("contrat_bail", "Contrat de bail",
        Some("Si bail de moins d'un an, joindre une quittance récente"), false, "address"),
      Document("assurance_habitation", "Attestation assurance habitation",
        Some("Attestation à votre nom, datée de moins de 3 mois"), false, "address"),
      Document("taxe_habitation", "Taxe d'habitation ou foncière",
        Some("Avis d'imposition ou attestation du rôle des impôts locaux"), false, "address"),
      Document("acte_propriete", "Acte de propriété + facture",
        Some("Acte de propriété accompagné d'une facture récente"), false, "address"),
      Document("releve_caf", "Relevé CAF",
        Some("Relevé de prestations CAF de moins d'un an"), false, "address"),
      Document("avis_imposition", "Avis d'imposition",
        Some("Dernier avis d'imposition sur le revenu"), false, "address")
    ],
    map["address" := 1])

  const ResidenceSecondaire: RegistrationType := RegistrationType(
    "residence_secondaire", "Résidence secondaire",
    "Propriétaire non résident permanent dans la commune", "🏡",
    [
      Document("identity", "Pièce d'identité",
        Some("Carte d'identité valide ou périmée depuis moins de 5 ans, ou passeport valide"), true, "identity"),
      Document("taxe_fonciere_n1", "Taxe foncière année N-1",
        Some("Avis de taxe foncière de l'année précédente"), false, "fiscal"),
      Document("taxe_fonciere_n2", "Taxe foncière année N-2",
        Some("Avis de taxe foncière d'il y a deux ans"), false, "fiscal"),
      Document("attestation_dgfip", "Attestation DGFIP",
        Some("Attestation DGFIP couvrant 2 années consécutives"), false, "fiscal")
    ],
    map["fiscal" := 1])

  const Commercant: RegistrationType := RegistrationType(
    "commercant", "Commerçant/Artisan",
    "Activité commerciale ou artisanale dans la commune", "🏪",
    [
      Document("identity", "Pièce d'identité",
        Some("Carte d'identité valide ou périmée depuis moins de 5 ans, ou passeport valide"), true, "identity"),
      Document("kbis", "Extrait Kbis",
        Some("Extrait Kbis de plus de 2 ans d'ancienneté"), false, "activity"),
      Document("registre_metiers", "Registre des métiers",
        Some("Inscription au registre des métiers de plus de 2 ans"), false, "activity"),
      Document("bail_commercial", "Bail commercial",
        Some("Bail commercial de plus de 2 ans"), false, "activity"),
      Document("cet_n1", "Contribution économique territoriale N-1",
        Some("Avis de contribution économique territoriale année précédente"), false, "fiscal"),
      Document("cet_n2", "Contribution économique territoriale N-2",
        Some("Avis de contribution économique territoriale d'il y a deux ans"), false, "fiscal"),
      Document("attestation_dgfip_pro", "Attestation DGFIP professionnelle",
        Some("Attestation DGFIP mentionnant 2 ans d'ancienneté minimum"), false, "fiscal")
    ],
    map["activity" := 1, "fiscal" := 1])

  const GerantSci: RegistrationType := RegistrationType(
    "gerant_sci", "Gérant(e) de SCI",
    "Gérant d'une SCI propriétaire dans la commune", "🏢",
    [
      Document("identity", "Pièce d'identité",
        Some("Carte d'identité valide ou périmée depuis moins de 5 ans, ou passeport valide"), true, "identity"),
      Document("attestation_gerance", "Attestation sur l'honneur de gérance",
        Some("Attestation sur l'honneur de gérance ininterrompue de plus de 2 ans"), true, "management"),
      Document("statuts_sci", "Statuts SCI",
        Some("Statuts nommant le gérant avec date de prise de fonction"), false, "management"),
      Document("decision_nomination", "Décision de nomination",
        Some("Décision de nomination ou procès-verbal avec date"), false, "management"),
      Document("taxe_fonciere_sci_n1", "Taxe foncière SCI année N-1",
        Some("Avis de taxe foncière de la SCI année précédente"), false, "fiscal"),
      Document("taxe_fonciere_sci_n2", "Taxe foncière SCI année N-2",
        Some("Avis de taxe foncière de la SCI d'il y a deux ans"), false, "fiscal"),
      Document("attestation_dgfip_sci", "Attestation DGFIP SCI",
        Some("Attestation DGFIP de la SCI sur 2 années consécutives"), false, "fiscal")
    ],
    map["management" := 1, "fiscal" := 1])

  const HebergeFamille: RegistrationType := RegistrationType(
    "heberge_famille", "Hébergé chez un parent/tiers",
    "Enfant majeur hébergé chez ses parents ou chez un tiers", "👨‍👩‍👧‍👦",
    [
      Document("identity", "Pièce d'identité du demandeur",
        Some("Votre carte d'identité valide ou périmée depuis moins de 5 ans"), true, "identity"),
      Document("attestation_hebergement", "Attestation d'hébergement",
        Some("Attestation signée par l'hébergeant, datée de moins de 3 mois"), true, "hosting"),
      Document("identity_hebergeant", "Pièce d'identité de l'hébergeant",
        Some("Carte d'identité ou passeport de la personne qui vous héberge"), true, "hosting"),
      Document("justificatif_hebergeant", "Justificatif de domicile de l'hébergeant",
        Some("Facture ou justificatif au nom de l'hébergeant, de moins de 3 mois"), true, "hosting"),
      Document("lien_parente", "Preuve du lien de parenté",
        Some("Livret de famille ou acte de naissance (si hébergement parental uniquement)"), false, "hosting")
    ],
    map[])

  const Foyer: RegistrationType := RegistrationType(
    "foyer", "Hébergé en foyer/structure",
    "Hébergement dans un foyer ou une structure spécialisée", "🏠",
    [
      Document("identity", "Pièce d'identité",
        Some("Carte d'identité valide ou périmée depuis moins de 5 ans, ou passeport valide"), true, "identity"),
      Document("attestation_structure", "Attestation d'hébergement de la structure",
        Some("Attestation délivrée par le foyer ou la structure d'hébergement"), true, "hosting"),
      Document("justificatif_structure", "Justificatif de domicile de la structure",
        Some("Justificatif de domicile au nom de la structure"), true, "hosting"),
      Document("identity_responsable", "Pièce d'identité du responsable",
        Some("Pièce d'identité du responsable du foyer (parfois demandée)"), false, "hosting")
    ],
    map[])
  /** The catalog, in display order. */
  const RegistrationTypes: seq<RegistrationType> :=
    [ResidencePrincipale, ResidenceSecondaire, Commercant, GerantSci, HebergeFamille, Foyer]

  predicate IsRequired(d: Document) {
    d.required
  }

  predicate IsOptional(d: Document) {
    !d.required
  }

  /** `doc => doc.category === c` */
  function InCategory(c: string): Document -> bool {
    (d: Document) => d.category == c
  }

  /** `documents.filter(doc => doc.required)`, in catalog order. */
  function RequiredDocuments(t: RegistrationType): (r: seq<Document>)
    ensures forall d :: d in r <==> d in t.documents && d.required
    ensures IsSubsequence(r, t.documents)
  {
    FilterIsSubsequence(t.documents, IsRequired);
    Filter(t.documents, IsRequired)
  }

  /** `documents.filter(doc => !doc.required)`, in catalog order. */
  function OptionalDocuments(t: RegistrationType): (r: seq<Document>)
    ensures forall d :: d in r <==> d in t.documents && !d.required
    ensures IsSubsequence(r, t.documents)
  {
    FilterIsSubsequence(t.documents, IsOptional);
    Filter(t.documents, IsOptional)
  }

  /** `documents.map(doc => doc.id)` */
  function Ids(docs: seq<Document>): (r: seq<string>)
    ensures |r| == |docs|
    ensures forall k :: 0 <= k < |docs| ==> r[k] == docs[k].id
    ensures forall x :: x in r <==> exists d :: d in docs && d.id == x
  {
    if docs == [] then []
    else
      var r := [docs[0].id] + Ids(docs[1..]);
      assert forall x :: x in r <==> exists d :: d in docs && d.id == x by {
        forall x ensures x in r <==> exists d :: d in docs && d.id == x {
          if x in r {
            var k :| 0 <= k < |r| && r[k] == x;
            assert docs[k] in docs;
          }
        }
      }
      r
  }

  /** The ids of the situation's required documents. */
  function RequiredIds(t: RegistrationType): (r: seq<string>)
    ensures forall x :: x in r <==> exists d :: d in t.documents && d.required && d.id == x
  {
    Ids(RequiredDocuments(t))
  }

  /** `types.find(type => type.id === id)`: the first situation with that id. */
  function FindType(types: seq<RegistrationType>, id: string): (r: Option<RegistrationType>)
    ensures r.Some? ==> r.value in types && r.value.id == id
    ensures r.None? <==> forall k :: 0 <= k < |types| ==> types[k].id != id
    ensures r.Some? ==>
      exists i :: 0 <= i < |types| && types[i] == r.value && (forall j :: 0 <= j < i ==> types[j].id != id)
  {
    if types == [] then None
    else if types[0].id == id then Some(types[0])
    else
      var r := FindType(types[1..], id);
      assert r.Some? ==>
        exists i :: 0 <= i < |types| && types[i] == r.value && (forall j :: 0 <= j < i ==> types[j].id != id) by {
        if r.Some? {
          var i :| 0 <= i < |types[1..]| && types[1..][i] == r.value &&
            (forall j :: 0 <= j < i ==> types[1..][j].id != id);
          forall j | 0 <= j < i + 1 ensures types[j].id != id {
            if j > 0 { assert types[j] == types[1..][j - 1]; }
          }
        }
      }
      assert r.None? <==> forall k :: 0 <= k < |types| ==> types[k].id != id by {
        if r.None? {
          forall k | 0 <= k < |types| ensures types[k].id != id {
            if k > 0 { assert types[k] == types[1..][k - 1]; }
          }
        } else {
          assert r.value in types[1..];
          var k :| 0 <= k < |types[1..]| && types[1..][k] == r.value;
          assert types[k + 1].id == id;
        }
      }
      r
  }

  /** With distinct situation ids, looking up the id of the k-th situation finds that situation. */
  lemma {:induction false} FindTypeFinds(types: seq<RegistrationType>, k: nat)
    requires k < |types|
    requires forall i, j :: 0 <= i < j < |types| ==> types[i].id != types[j].id
    ensures FindType(types, types[k].id) == Some(types[k])
  {
    if k > 0 {
      assert types[0].id != types[k].id;
      assert types[1..][k - 1] == types[k];
      FindTypeFinds(types[1..], k - 1);
    }
  }

  predicate DistinctDocumentIds(t: RegistrationType) {
    forall i, j :: 0 <= i < j < |t.documents| ==> t.documents[i].id != t.documents[j].id
  }

  predicate KnownCategories(t: RegistrationType) {
    forall i :: 0 <= i < |t.documents| ==> t.documents[i].category in Categories
  }

  predicate HasIdentityDocument(t: RegistrationType) {
    exists i :: 0 <= i < |t.documents| && t.documents[i].id == "identity"
      && t.documents[i].required && t.documents[i].category == "identity"
  }

  /** Each category minimum can be met: the category holds at least that many documents. */
  predicate MinimumsAttainable(t: RegistrationType) {
    forall c :: c in t.minRequiredFromCategory ==>
      |Filter(t.documents, InCategory(c))| >= t.minRequiredFromCategory[c]
  }

  predicate WellFormed(t: RegistrationType) {
    DistinctDocumentIds(t) && KnownCategories(t) && HasIdentityDocument(t) && MinimumsAttainable(t)
  }

  /** A category holding the k-th document is not empty. */
  lemma CategoryNotEmpty(t: RegistrationType, k: nat)
    requires k < |t.documents|
    ensures |Filter(t.documents, InCategory(t.documents[k].category))| >= 1
  {
    assert t.documents[k] in Filter(t.documents, InCategory(t.documents[k].category));
  }

  /** Minimums of at most one are attainable as soon as the category holds a document. */
  lemma AttainableByWitnesses(t: RegistrationType)
    requires forall c :: c in t.minRequiredFromCategory ==>
      (t.minRequiredFromCategory[c] <= 1 &&
       exists k :: 0 <= k < |t.documents| && t.documents[k].category == c)
    ensures MinimumsAttainable(t)
  {
    forall c | c in t.minRequiredFromCategory
      ensures |Filter(t.documents, InCategory(c))| >= t.minRequiredFromCategory[c]
    {
      var k :| 0 <= k < |t.documents| && t.documents[k].category == c;
      CategoryNotEmpty(t, k);
    }
  }

  lemma ResidencePrincipaleMinimumsAttainable()
    ensures MinimumsAttainable(ResidencePrincipale)
  {
    assert ResidencePrincipale.documents[1].category == "address";
    AttainableByWitnesses(ResidencePrincipale);
  }

  lemma ResidencePrincipaleDistinctIds()
    ensures DistinctDocumentIds(ResidencePrincipale)
  {
    var docs := ResidencePrincipale.documents;
    forall i, j | 0 <= i < j < |docs| ensures docs[i].id != docs[j].id {
      if docs[i].id[0] == 'f' {
        assert docs[j].id[0] == 'f' ==> 1 <= i < j <= 5;
      }
    }
  }

  lemma ResidencePrincipaleWellFormed()
    ensures WellFormed(ResidencePrincipale)
  {
    ResidencePrincipaleMinimumsAttainable();
    ResidencePrincipaleDistinctIds();
    assert HasIdentityDocument(ResidencePrincipale) by { assert ResidencePrincipale.documents[0].id == "identity"; }
  }

  lemma ResidenceSecondaireMinimumsAttainable()
    ensures MinimumsAttainable(ResidenceSecondaire)
  {
    assert ResidenceSecondaire.documents[1].category == "fiscal";
    AttainableByWitnesses(ResidenceSecondaire);
  }

  lemma ResidenceSecondaireWellFormed()
    ensures WellFormed(ResidenceSecondaire)
  {
    ResidenceSecondaireMinimumsAttainable();
    assert HasIdentityDocument(ResidenceSecondaire) by { assert ResidenceSecondaire.documents[0].id == "identity"; }
  }

  lemma CommercantMinimumsAttainable()
    ensures MinimumsAttainable(Commercant)
  {
    assert Commercant.documents[1].category == "activity";
    assert Commercant.documents[4].category == "fiscal";
    AttainableByWitnesses(Commercant);
  }

  lemma CommercantWellFormed()
    ensures WellFormed(Commercant)
  {
    CommercantMinimumsAttainable();
    CommercantDistinctIds();
    assert HasIdentityDocument(Commercant) by { assert Commercant.documents[0].id == "identity"; }
  }

  lemma GerantSciMinimumsAttainable()
    ensures MinimumsAttainable(GerantSci)
  {
    assert GerantSci.documents[1].category == "management";
    assert GerantSci.documents[4].category == "fiscal";
    AttainableByWitnesses(GerantSci);
  }

  lemma GerantSciWellFormed()
    ensures WellFormed(GerantSci)
  {
    GerantSciMinimumsAttainable();
    GerantSciDistinctIds();
    assert HasIdentityDocument(GerantSci) by { assert GerantSci.documents[0].id == "identity"; }
  }

  lemma HebergeFamilleWellFormed()
    ensures WellFormed(HebergeFamille)
  {
    HebergeFamilleDistinctIds();
    assert HasIdentityDocument(HebergeFamille) by { assert HebergeFamille.documents[0].id == "identity"; }
  }

  lemma FoyerWellFormed()
    ensures WellFormed(Foyer)
  {
    assert HasIdentityDocument(Foyer) by { assert Foyer.documents[0].id == "identity"; }
  }

  /**
   * The catalog holds six situations with pairwise distinct ids; every situation has
   * distinct document ids, only known categories, a required identity document and
   * attainable category minimums.
   */
  lemma CatalogWellFormed()
    ensures |RegistrationTypes| == 6
    ensures forall i, j :: 0 <= i < j < |RegistrationTypes| ==> RegistrationTypes[i].id != RegistrationTypes[j].id
    ensures forall k :: 0 <= k < |RegistrationTypes| ==> WellFormed(RegistrationTypes[k])
  {
    CatalogDistinctIds();
    ResidencePrincipaleWellFormed();
    ResidenceSecondaireWellFormed();
    CommercantWellFormed();
    GerantSciWellFormed();
    HebergeFamilleWellFormed();
    FoyerWellFormed();
  }

  /** The six situation ids are pairwise distinct. */
  lemma CatalogDistinctIds()
    ensures |RegistrationTypes| == 6
    ensures forall i, j :: 0 <= i < j < |RegistrationTypes| ==> RegistrationTypes[i].id != RegistrationTypes[j].id
  {
  }

  /** Looking up the id of any catalog situation finds exactly that situation. */
  lemma CatalogLookup(k: nat)
    requires k < |RegistrationTypes|
    ensures FindType(RegistrationTypes, RegistrationTypes[k].id) == Some(RegistrationTypes[k])
  {
    CatalogDistinctIds();
    FindTypeFinds(RegistrationTypes, k);
  }

  /** The category minimums of each situation of the catalog. */
  lemma CatalogMinimums()
    ensures ResidencePrincipale.minRequiredFromCategory == map["address" := 1]
    ensures ResidenceSecondaire.minRequiredFromCategory == map["fiscal" := 1]
    ensures Commercant.minRequiredFromCategory == map["activity" := 1, "fiscal" := 1]
    ensures GerantSci.minRequiredFromCategory == map["management" := 1, "fiscal" := 1]
    ensures HebergeFamille.minRequiredFromCategory == map[]
    ensures Foyer.minRequiredFromCategory == map[]
  {
  }

  lemma CommercantDistinctIds()
    ensures DistinctDocumentIds(Commercant)
  {
  }

  lemma GerantSciDistinctIds()
    ensures DistinctDocumentIds(GerantSci)
  {
  }

  lemma HebergeFamilleDistinctIds()
    ensures DistinctDocumentIds(HebergeFamille)
  {
  }

  lemma ResidenceSecondaireDistinctIds()
    ensures DistinctDocumentIds(ResidenceSecondaire)
  {
  }
}
