/**
 * The document-selection step: the completeness check of a selection against a
 * situation (required documents and per-category minimums), the selection the step
 * starts from, toggling one document, the grouping of optional documents by category
 * and the per-category status badge.
 */
module Selector {
  import opened Wrappers
  import opened Collections
  import opened Text
  import opened Registration

  /** `doc => selection.has(doc.id)` */
  function IsSelected(selection: seq<string>): Document -> bool {
    (d: Document) => d.id in selection
  }

  /** `doc => doc.category === c && selection.has(doc.id)` */
  function InCategorySelected(c: string, selection: seq<string>): Document -> bool {
    (d: Document) => d.category == c && d.id in selection
  }

  /** How many of the situation's documents of category `c` are selected, counted as the validator does. */
  function SelectedInCategory(t: RegistrationType, c: string, selection: seq<string>): (r: nat)
    ensures r == |Filter(t.documents, InCategorySelected(c, selection))|
    ensures r <= |Filter(t.documents, InCategory(c))|
  {
    FilterFilter(t.documents, InCategory(c), IsSelected(selection), InCategorySelected(c, selection));
    |Filter(Filter(t.documents, InCategory(c)), IsSelected(selection))|
  }

  predicate HasAllRequired(t: RegistrationType, selection: seq<string>) {
    forall d :: d in t.documents && d.required ==> d.id in selection
  }

  predicate MeetsMinimums(t: RegistrationType, selection: seq<string>) {
    forall c :: c in t.minRequiredFromCategory ==>
      SelectedInCategory(t, c, selection) >= t.minRequiredFromCategory[c]
  }

  /**
   * `validateSelection`: every required document is selected, then every category
   * minimum is met, counting only the situation's own documents.
   */
  function ValidateSelection(t: RegistrationType, selection: seq<string>): (ok: bool)
    ensures ok <==> HasAllRequired(t, selection) && MeetsMinimums(t, selection)
  {
    var requiredDocs := RequiredDocuments(t);
    var hasAllRequired := forall d | d in requiredDocs :: d.id in selection;
    if !hasAllRequired then false
    else
      forall c | c in t.minRequiredFromCategory ::
        SelectedInCategory(t, c, selection) >= t.minRequiredFromCategory[c]
  }

  /** A selection missing a required document is never complete, whatever else it holds. */
  lemma MissingRequiredFails(t: RegistrationType, selection: seq<string>, d: Document)
    requires d in t.documents && d.required && d.id !in selection
    ensures !ValidateSelection(t, selection)
  {
  }

  lemma SelectedInCategoryMono(t: RegistrationType, c: string, s1: seq<string>, s2: seq<string>)
    requires forall x :: x in s1 ==> x in s2
    ensures SelectedInCategory(t, c, s1) <= SelectedInCategory(t, c, s2)
  {
    FilterLengthMono(Filter(t.documents, InCategory(c)), IsSelected(s1), IsSelected(s2));
  }

  /** Completeness is monotone: selecting more ids never breaks a complete selection. */
  lemma ValidateMonotone(t: RegistrationType, s1: seq<string>, s2: seq<string>)
    requires forall x :: x in s1 ==> x in s2
    requires ValidateSelection(t, s1)
    ensures ValidateSelection(t, s2)
  {
    forall c | c in t.minRequiredFromCategory
      ensures SelectedInCategory(t, c, s2) >= t.minRequiredFromCategory[c]
    {
      SelectedInCategoryMono(t, c, s1, s2);
    }
  }

  /** Adding one id to a complete selection keeps it complete. */
  lemma ValidateAddKeeps(t: RegistrationType, selection: seq<string>, x: string)
    requires ValidateSelection(t, selection)
    ensures ValidateSelection(t, SetAdd(selection, x))
  {
    ValidateMonotone(t, selection, SetAdd(selection, x));
  }

  /** Removing one id can only turn a complete selection incomplete, never the reverse. */
  lemma ValidateDeleteNeverCompletes(t: RegistrationType, selection: seq<string>, x: string)
    requires ValidateSelection(t, SetDelete(selection, x))
    ensures ValidateSelection(t, selection)
  {
    ValidateMonotone(t, SetDelete(selection, x), selection);
  }

  /** Ids that name none of the situation's documents do not change the verdict. */
  lemma ValidateIgnoresForeignIds(t: RegistrationType, s1: seq<string>, s2: seq<string>)
    requires forall d :: d in t.documents ==> (d.id in s1 <==> d.id in s2)
    ensures ValidateSelection(t, s1) == ValidateSelection(t, s2)
  {
    forall c | c in t.minRequiredFromCategory
      ensures SelectedInCategory(t, c, s1) == SelectedInCategory(t, c, s2)
    {
      FilterCongruent(Filter(t.documents, InCategory(c)), IsSelected(s1), IsSelected(s2));
    }
  }

  /** When every minimum is attainable, selecting every document of the situation is complete. */
  lemma AllDocumentsComplete(t: RegistrationType)
    requires MinimumsAttainable(t)
    ensures ValidateSelection(t, Ids(t.documents))
  {
    var all := Ids(t.documents);
    forall c | c in t.minRequiredFromCategory
      ensures SelectedInCategory(t, c, all) >= t.minRequiredFromCategory[c]
    {
      FilterKeepsAll(Filter(t.documents, InCategory(c)), IsSelected(all));
    }
  }

  /** In every situation of the catalog, selecting every document is complete. */
  lemma CatalogAllDocumentsComplete()
    ensures forall k :: 0 <= k < |RegistrationTypes| ==>
      ValidateSelection(RegistrationTypes[k], Ids(RegistrationTypes[k].documents))
  {
    CatalogWellFormed();
    forall k | 0 <= k < |RegistrationTypes|
      ensures ValidateSelection(RegistrationTypes[k], Ids(RegistrationTypes[k].documents))
    {
      AllDocumentsComplete(RegistrationTypes[k]);
    }
  }

  /** No selected document of category `c` means a count of zero. */
  lemma SelectedInCategoryZero(t: RegistrationType, c: string, selection: seq<string>)
    requires forall i :: 0 <= i < |t.documents| && t.documents[i].category == c ==> t.documents[i].id !in selection
    ensures SelectedInCategory(t, c, selection) == 0
  {
    var inCategory := Filter(t.documents, InCategory(c));
    forall x | x in inCategory ensures !IsSelected(selection)(x) {
      var i :| 0 <= i < |t.documents| && t.documents[i] == x;
    }
    FilterDropsAll(inCategory, IsSelected(selection));
  }

  /** One selected document of category `c` means a count of at least one. */
  lemma SelectedInCategoryPositive(t: RegistrationType, c: string, selection: seq<string>, k: nat)
    requires k < |t.documents| && t.documents[k].category == c && t.documents[k].id in selection
    ensures SelectedInCategory(t, c, selection) >= 1
  {
    assert t.documents[k] in Filter(t.documents, InCategory(c));
    assert t.documents[k] in Filter(Filter(t.documents, InCategory(c)), IsSelected(selection));
  }

  /**
   * A situation whose minimum for `c` is positive is incomplete with its required
   * documents alone when no document of category `c` is required.
   */
  lemma RequiredOnlyIncomplete(t: RegistrationType, c: string)
    requires DistinctDocumentIds(t)
    requires c in t.minRequiredFromCategory && t.minRequiredFromCategory[c] >= 1
    requires forall i :: 0 <= i < |t.documents| && t.documents[i].category == c ==> !t.documents[i].required
    ensures !ValidateSelection(t, RequiredIds(t))
  {
    var req := RequiredIds(t);
    forall i | 0 <= i < |t.documents| && t.documents[i].category == c
      ensures t.documents[i].id !in req
    {
    }
    SelectedInCategoryZero(t, c, req);
  }

  /** `residence_principale` is incomplete with its required documents alone. */
  lemma ResidencePrincipaleNeedsOptional()
    ensures !ValidateSelection(ResidencePrincipale, RequiredIds(ResidencePrincipale))
  {
    ResidencePrincipaleDistinctIds();
    RequiredOnlyIncomplete(ResidencePrincipale, "address");
  }

  /** `residence_secondaire` is incomplete with its required documents alone. */
  lemma ResidenceSecondaireNeedsOptional()
    ensures !ValidateSelection(ResidenceSecondaire, RequiredIds(ResidenceSecondaire))
  {
    ResidenceSecondaireDistinctIds();
    RequiredOnlyIncomplete(ResidenceSecondaire, "fiscal");
  }

  /** `commercant` is incomplete with its required documents alone. */
  lemma CommercantNeedsOptional()
    ensures !ValidateSelection(Commercant, RequiredIds(Commercant))
  {
    CommercantDistinctIds();
    RequiredOnlyIncomplete(Commercant, "fiscal");
  }

  /** `gerant_sci` is incomplete with its required documents alone. */
  lemma GerantSciNeedsOptional()
    ensures !ValidateSelection(GerantSci, RequiredIds(GerantSci))
  {
    GerantSciDistinctIds();
    RequiredOnlyIncomplete(GerantSci, "fiscal");
  }

  /** Without category minimums, any selection holding the required documents is complete. */
  lemma NoMinimumsRequiredSuffice(t: RegistrationType, selection: seq<string>)
    requires t.minRequiredFromCategory == map[]
    requires HasAllRequired(t, selection)
    ensures ValidateSelection(t, selection)
  {
  }

  /** `heberge_famille` and `foyer` are complete exactly when their required documents are selected. */
  lemma HostedSituationsCompleteOnRequired(selection: seq<string>)
    ensures ValidateSelection(HebergeFamille, selection) <==> HasAllRequired(HebergeFamille, selection)
    ensures ValidateSelection(Foyer, selection) <==> HasAllRequired(Foyer, selection)
  {
    CatalogMinimums();
  }

  /** The count for `c` is positive exactly when some document of category `c` is selected. */
  lemma CountPositiveIff(t: RegistrationType, c: string, selection: seq<string>)
    ensures SelectedInCategory(t, c, selection) >= 1 <==>
      exists i :: 0 <= i < |t.documents| && t.documents[i].category == c && t.documents[i].id in selection
  {
    if exists i :: 0 <= i < |t.documents| && t.documents[i].category == c && t.documents[i].id in selection {
      var i :| 0 <= i < |t.documents| && t.documents[i].category == c && t.documents[i].id in selection;
      SelectedInCategoryPositive(t, c, selection, i);
    } else {
      SelectedInCategoryZero(t, c, selection);
    }
  }

  /** With a single minimum of one, completeness is: every required document, and one of category `c`. */
  lemma SingleMinimumCompleteness(t: RegistrationType, c: string, selection: seq<string>)
    requires t.minRequiredFromCategory == map[c := 1]
    ensures ValidateSelection(t, selection) <==>
      HasAllRequired(t, selection) &&
      exists i :: 0 <= i < |t.documents| && t.documents[i].category == c && t.documents[i].id in selection
  {
    CountPositiveIff(t, c, selection);
  }

  /** Minimums of one for `a` and `b` are met when each category has a selected document. */
  lemma TwoMinimumsMet(t: RegistrationType, a: string, b: string, selection: seq<string>)
    requires t.minRequiredFromCategory == map[a := 1, b := 1]
    ensures MeetsMinimums(t, selection) <==>
      SelectedInCategory(t, a, selection) >= 1 && SelectedInCategory(t, b, selection) >= 1
  {
    assert t.minRequiredFromCategory.Keys == {a, b};
  }

  /** With minimums of one for `a` and `b`, completeness needs a document of each. */
  lemma TwoMinimumsCompleteness(t: RegistrationType, a: string, b: string, selection: seq<string>)
    requires t.minRequiredFromCategory == map[a := 1, b := 1]
    ensures ValidateSelection(t, selection) <==>
      HasAllRequired(t, selection) &&
      (exists i :: 0 <= i < |t.documents| && t.documents[i].category == a && t.documents[i].id in selection) &&
      (exists i :: 0 <= i < |t.documents| && t.documents[i].category == b && t.documents[i].id in selection)
  {
    TwoMinimumsMet(t, a, b, selection);
    CountPositiveIff(t, a, selection);
    CountPositiveIff(t, b, selection);
  }

  /** A minimum of one for a category holding a required document is met by every selection holding the required documents. */
  lemma RequiredMeetsMinimum(t: RegistrationType, a: string, b: string, k: nat, selection: seq<string>)
    requires t.minRequiredFromCategory == map[a := 1, b := 1]
    requires k < |t.documents| && t.documents[k].required && t.documents[k].category == a
    ensures ValidateSelection(t, selection) <==>
      HasAllRequired(t, selection) &&
      exists i :: 0 <= i < |t.documents| && t.documents[i].category == b && t.documents[i].id in selection
  {
    if HasAllRequired(t, selection) {
      SelectedInCategoryPositive(t, a, selection, k);
    }
    CountPositiveIff(t, b, selection);
  }

  /** `residence_principale` is complete exactly when its required documents and one address document are selected. */
  lemma ResidencePrincipaleCompleteness(selection: seq<string>)
    ensures ValidateSelection(ResidencePrincipale, selection) <==>
      HasAllRequired(ResidencePrincipale, selection) &&
      exists i :: 0 <= i < |ResidencePrincipale.documents| &&
        ResidencePrincipale.documents[i].category == "address" && ResidencePrincipale.documents[i].id in selection
  {
    CatalogMinimums();
    SingleMinimumCompleteness(ResidencePrincipale, "address", selection);
  }

  /** `residence_secondaire` is complete exactly when its required documents and one fiscal document are selected. */
  lemma ResidenceSecondaireCompleteness(selection: seq<string>)
    ensures ValidateSelection(ResidenceSecondaire, selection) <==>
      HasAllRequired(ResidenceSecondaire, selection) &&
      exists i :: 0 <= i < |ResidenceSecondaire.documents| &&
        ResidenceSecondaire.documents[i].category == "fiscal" && ResidenceSecondaire.documents[i].id in selection
  {
    CatalogMinimums();
    SingleMinimumCompleteness(ResidenceSecondaire, "fiscal", selection);
  }

  /** `commercant` is complete exactly when its required documents, one activity and one fiscal document are selected. */
  lemma CommercantCompleteness(selection: seq<string>)
    ensures ValidateSelection(Commercant, selection) <==>
      HasAllRequired(Commercant, selection) &&
      (exists i :: 0 <= i < |Commercant.documents| &&
        Commercant.documents[i].category == "activity" && Commercant.documents[i].id in selection) &&
      (exists i :: 0 <= i < |Commercant.documents| &&
        Commercant.documents[i].category == "fiscal" && Commercant.documents[i].id in selection)
  {
    assert Commercant.minRequiredFromCategory == map["activity" := 1, "fiscal" := 1];
    TwoMinimumsCompleteness(Commercant, "activity", "fiscal", selection);
  }

  /**
   * `gerant_sci`: the required management attestation already meets the management
   * minimum, so past the required documents completeness only depends on a fiscal document.
   */
  lemma GerantSciCompleteness(selection: seq<string>)
    ensures ValidateSelection(GerantSci, selection) <==>
      HasAllRequired(GerantSci, selection) &&
      exists i :: 0 <= i < |GerantSci.documents| &&
        GerantSci.documents[i].category == "fiscal" && GerantSci.documents[i].id in selection
  {
    CatalogMinimums();
    assert GerantSci.documents[1].required && GerantSci.documents[1].category == "management";
    RequiredMeetsMinimum(GerantSci, "management", "fiscal", 1, selection);
  }

  /** Selecting only one document outside a category with a positive minimum is never complete. */
  lemma SingleDocumentOutsideCategory(t: RegistrationType, k: nat, c: string)
    requires DistinctDocumentIds(t)
    requires k < |t.documents| && t.documents[k].category != c
    requires c in t.minRequiredFromCategory && t.minRequiredFromCategory[c] >= 1
    ensures !ValidateSelection(t, [t.documents[k].id])
  {
    forall i | 0 <= i < |t.documents| && t.documents[i].category == c
      ensures t.documents[i].id !in [t.documents[k].id]
    {
      assert i != k;
    }
    SelectedInCategoryZero(t, c, [t.documents[k].id]);
  }

  /** `residence_principale`: the identity document alone is not enough. */
  lemma ResidencePrincipaleIdentityAlone()
    ensures !ValidateSelection(ResidencePrincipale, ["identity"])
  {
    ResidencePrincipaleDistinctIds();
    assert ResidencePrincipale.documents[0].id == "identity";
    SingleDocumentOutsideCategory(ResidencePrincipale, 0, "address");
  }

  /**
   * The selection the step starts from, and the one its effect resynchronises to:
   * `new Set([...selectedDocuments, ...requiredDocIds])`.
   */
  function InitialSelection(t: RegistrationType, selectedDocuments: seq<string>): (r: seq<string>)
    ensures NoDup(r)
    ensures forall x :: x in r <==> x in selectedDocuments || x in RequiredIds(t)
    ensures HasAllRequired(t, r)
  {
    FromIterable(selectedDocuments + RequiredIds(t))
  }

  /** Without category minimums, the step is complete from the moment it is entered. */
  lemma EntryCompleteWithoutMinimums(t: RegistrationType, selectedDocuments: seq<string>)
    requires t.minRequiredFromCategory == map[]
    ensures ValidateSelection(t, InitialSelection(t, selectedDocuments))
  {
  }

  /**
   * `getCategoryRequirement`: no badge for a category without a (non-zero) minimum;
   * otherwise a badge that starts with a check mark when the minimum is met and with
   * a warning sign when it is not.
   */
  function CategoryRequirement(t: RegistrationType, selection: seq<string>, category: string): (r: string)
    ensures r == "" <==> category !in t.minRequiredFromCategory || t.minRequiredFromCategory[category] == 0
    ensures r != "" ==> (r[0] == '✓' <==> SelectedInCategory(t, category, selection) >= t.minRequiredFromCategory[category])
    ensures r != "" ==> (r[0] == '✓' || r[0] == '⚠')
  {
    if category in t.minRequiredFromCategory && t.minRequiredFromCategory[category] != 0 then
      var minRequired := t.minRequiredFromCategory[category];
      var selectedCount := |Filter(t.documents, InCategorySelected(category, selection))|;
      assert selectedCount == SelectedInCategory(t, category, selection);
      if minRequired == 1 then
        (if selectedCount >= 1 then "✓ Au moins un requis" else "⚠️ Au moins un requis")
      else if selectedCount >= minRequired then
        "✓ Au moins " + NatToString(minRequired) + " requis"
      else
        "⚠️ Au moins " + NatToString(minRequired) + " requis"
    else
      ""
  }

  /** On a complete selection no category badge shows a warning. */
  lemma CompleteShowsNoWarning(t: RegistrationType, selection: seq<string>, category: string)
    requires ValidateSelection(t, selection)
    ensures CategoryRequirement(t, selection, category) == "" || CategoryRequirement(t, selection, category)[0] == '✓'
  {
  }

  /** The categories of `docs`, one per document, in order. */
  function CategoriesOf(docs: seq<Document>): (r: seq<string>)
    ensures |r| == |docs|
    ensures forall x :: x in r <==> exists d :: d in docs && d.category == x
  {
    if docs == [] then []
    else
      var init := docs[..|docs| - 1];
      var last := docs[|docs| - 1];
      assert docs == init + [last];
      CategoriesOf(init) + [last.category]
  }

  /**
   * `groups` and `order` group `docs` by category: `order` lists each category once, in
   * order of first appearance, the groups are keyed by exactly those categories, and each
   * group holds the documents of its category in their original order.
   */
  ghost predicate Grouped(docs: seq<Document>, groups: map<string, seq<Document>>, order: seq<string>) {
    && order == FromIterable(CategoriesOf(docs))
    && (forall c :: c in groups <==> c in order)
    && (forall c :: c in groups ==> groups[c] == Filter(docs, InCategory(c)))
  }

  /** The categories of `docs + [doc]` are those of `docs`, then `doc`'s. */
  lemma CategoriesOfSnoc(docs: seq<Document>, doc: Document)
    ensures CategoriesOf(docs + [doc]) == CategoriesOf(docs) + [doc.category]
  {
    assert (docs + [doc])[..|docs + [doc]| - 1] == docs;
  }

  /** A category that no document of `docs` has filters to an empty group. */
  lemma NewCategoryEmpty(docs: seq<Document>, c: string)
    requires c !in CategoriesOf(docs)
    ensures Filter(docs, InCategory(c)) == []
  {
    forall d | d in docs ensures !InCategory(c)(d) {
      assert d.category in CategoriesOf(docs);
    }
    FilterDropsAll(docs, InCategory(c));
  }

  /** Filtering `docs + [doc]` by category appends `doc` to its own category's group only. */
  lemma FilterCategorySnoc(docs: seq<Document>, doc: Document, c: string)
    ensures Filter(docs + [doc], InCategory(c)) ==
      Filter(docs, InCategory(c)) + (if doc.category == c then [doc] else [])
  {
    FilterConcat(docs, [doc], InCategory(c));
    assert Filter([doc], InCategory(c)) == if doc.category == c then [doc] else [];
  }

  lemma GroupStepOrder(docs: seq<Document>, doc: Document, groups: map<string, seq<Document>>, order: seq<string>,
                       order': seq<string>)
    requires Grouped(docs, groups, order)
    requires order' == if doc.category in groups then order else order + [doc.category]
    ensures order' == FromIterable(CategoriesOf(docs + [doc]))
  {
    CategoriesOfSnoc(docs, doc);
    FromIterableSnoc(CategoriesOf(docs), doc.category);
  }

  lemma GroupStepKeys(docs: seq<Document>, doc: Document, groups: map<string, seq<Document>>, order: seq<string>,
                      groups': map<string, seq<Document>>, order': seq<string>)
    requires Grouped(docs, groups, order)
    requires order' == FromIterable(CategoriesOf(docs + [doc]))
    requires groups' == groups[doc.category := (if doc.category in groups then groups[doc.category] else []) + [doc]]
    ensures forall c :: c in groups' <==> c in order'
  {
    CategoriesOfSnoc(docs, doc);
    FromIterableSnoc(CategoriesOf(docs), doc.category);
  }

  lemma GroupStepContents(docs: seq<Document>, doc: Document, groups: map<string, seq<Document>>, order: seq<string>,
                          groups': map<string, seq<Document>>)
    requires Grouped(docs, groups, order)
    requires groups' == groups[doc.category := (if doc.category in groups then groups[doc.category] else []) + [doc]]
    ensures forall c :: c in groups' ==> groups'[c] == Filter(docs + [doc], InCategory(c))
  {
    forall c | c in groups' ensures groups'[c] == Filter(docs + [doc], InCategory(c)) {
      FilterCategorySnoc(docs, doc, c);
      if c != doc.category {
        assert groups'[c] == groups[c];
      } else if c !in groups {
        assert c !in order;
        NewCategoryEmpty(docs, c);
      }
    }
  }

  /** One step of the `reduce`: `doc` is appended to its group (created first when missing). */
  lemma GroupStep(docs: seq<Document>, doc: Document, groups: map<string, seq<Document>>, order: seq<string>)
    requires Grouped(docs, groups, order)
    ensures Grouped(docs + [doc], AddToGroup(groups, order, doc).0, AddToGroup(groups, order, doc).1)
  {
    var next := AddToGroup(groups, order, doc);
    GroupStepOrder(docs, doc, groups, order, next.1);
    GroupStepKeys(docs, doc, groups, order, next.0, next.1);
    GroupStepContents(docs, doc, groups, order, next.0);
  }

  /** Every document lands in the group of its category, and a group holds only documents of its category. */
  lemma GroupedPlacement(docs: seq<Document>, groups: map<string, seq<Document>>, order: seq<string>)
    requires Grouped(docs, groups, order)
    ensures forall d :: d in docs ==> d.category in groups && d in groups[d.category]
    ensures forall c, d :: c in groups && d in groups[c] ==> d in docs && d.category == c
  {
    forall d | d in docs ensures d.category in groups && d in groups[d.category] {
      assert d.category in CategoriesOf(docs);
    }
  }

  /** For the optional documents of `t`: each one is in its category's group, and groups hold nothing else. */
  lemma GroupedOptionalPlacement(t: RegistrationType, groups: map<string, seq<Document>>, order: seq<string>)
    requires Grouped(OptionalDocuments(t), groups, order)
    ensures forall d :: d in t.documents && !d.required ==> d.category in groups && d in groups[d.category]
    ensures forall c, d :: c in groups && d in groups[c] ==> d in t.documents && !d.required && d.category == c
  {
    GroupedPlacement(OptionalDocuments(t), groups, order);
  }

  /** The `reduce` callback: `doc` is pushed onto its category's group, created (and ordered last) when missing. */
  function AddToGroup(groups: map<string, seq<Document>>, order: seq<string>, doc: Document)
    : (r: (map<string, seq<Document>>, seq<string>))
    ensures doc.category in r.0 && r.0[doc.category] == (if doc.category in groups then groups[doc.category] else []) + [doc]
    ensures forall c :: c != doc.category ==> (c in r.0 <==> c in groups) && (c in groups ==> r.0[c] == groups[c])
    ensures r.1 == if doc.category in groups then order else order + [doc.category]
  {
    var c := doc.category;
    (groups[c := (if c in groups then groups[c] else []) + [doc]], if c in groups then order else order + [c])
  }

  /** The grouping the `reduce` builds from `docs`, starting from an empty record. */
  function GroupByCategory(docs: seq<Document>): (r: (map<string, seq<Document>>, seq<string>))
    ensures forall c :: c in r.0 <==> c in r.1
    ensures NoDup(r.1)
  {
    if docs == [] then (map[], [])
    else
      var prev := GroupByCategory(docs[..|docs| - 1]);
      AddToGroup(prev.0, prev.1, docs[|docs| - 1])
  }

  /** Appending a document to the input adds one `reduce` step. */
  lemma GroupByCategorySnoc(docs: seq<Document>, doc: Document)
    ensures GroupByCategory(docs + [doc]) == AddToGroup(GroupByCategory(docs).0, GroupByCategory(docs).1, doc)
  {
    assert (docs + [doc])[..|docs|] == docs;
  }

  /** The `reduce` groups its input: see `Grouped`. */
  lemma {:induction false} GroupByCategoryGrouped(docs: seq<Document>)
    ensures Grouped(docs, GroupByCategory(docs).0, GroupByCategory(docs).1)
  {
    if docs == [] {
    } else {
      var init, last := docs[..|docs| - 1], docs[|docs| - 1];
      assert docs == init + [last];
      GroupByCategoryGrouped(init);
      GroupByCategorySnoc(init, last);
      GroupStep(init, last, GroupByCategory(init).0, GroupByCategory(init).1);
    }
  }

  /** One more element of a prefix is one more `reduce` step. */
  lemma GroupByCategoryPrefix(docs: seq<Document>, i: nat)
    requires i < |docs|
    ensures GroupByCategory(docs[..i + 1]) == AddToGroup(GroupByCategory(docs[..i]).0, GroupByCategory(docs[..i]).1, docs[i])
  {
    TakeSnoc(docs, i);
    GroupByCategorySnoc(docs[..i], docs[i]);
  }

  /** The grouping of the optional documents of `t` places each of them, and only them, in its category's group. */
  lemma GroupOptionalGrouped(t: RegistrationType)
    ensures var r := GroupByCategory(OptionalDocuments(t));
      && Grouped(OptionalDocuments(t), r.0, r.1)
      && (forall d :: d in t.documents && !d.required ==> d.category in r.0 && d in r.0[d.category])
      && (forall c, d :: c in r.0 && d in r.0[c] ==> d in t.documents && !d.required && d.category == c)
  {
    var r := GroupByCategory(OptionalDocuments(t));
    GroupByCategoryGrouped(OptionalDocuments(t));
    GroupedOptionalPlacement(t, r.0, r.1);
  }

  /**
   * `groupedOptionalDocs`: the optional documents grouped by category. `order` is the
   * order the record's keys were created in, which is the order the groups are shown in.
   */
  method GroupOptionalDocs(t: RegistrationType) returns (groups: map<string, seq<Document>>, order: seq<string>)
    ensures (groups, order) == GroupByCategory(OptionalDocuments(t))
    ensures Grouped(OptionalDocuments(t), groups, order)
    ensures forall d :: d in t.documents && !d.required ==> d.category in groups && d in groups[d.category]
    ensures forall c, d :: c in groups && d in groups[c] ==> d in t.documents && !d.required && d.category == c
  {
    var optionalDocs := OptionalDocuments(t);
    groups, order := map[], [];
    var i := 0;
    while i < |optionalDocs|
      invariant 0 <= i <= |optionalDocs|
      invariant (groups, order) == GroupByCategory(optionalDocs[..i])
    {
      var doc := optionalDocs[i];
      GroupByCategoryPrefix(optionalDocs, i);
      ghost var before := (groups, order);
      var group := [];
      if doc.category in groups {
        group := groups[doc.category];
      } else {
        order := order + [doc.category];
      }
      groups := groups[doc.category := group + [doc]];
      assert (groups, order) == AddToGroup(before.0, before.1, doc);
      i := i + 1;
    }
    assert optionalDocs[..i] == optionalDocs;
    GroupOptionalGrouped(t);
  }

  /**
   * The document step's local state: the situation shown and the current selection,
   * a JavaScript `Set` of document ids kept here in insertion order.
   */
  class DocumentSelector {
    var registrationType: RegistrationType
    var localSelection: seq<string>

    ghost predicate Valid()
      reads this
    {
      NoDup(localSelection)
    }

    /** Mounting the step: the selection passed in, plus every required document. */
    constructor (registrationType: RegistrationType, selectedDocuments: seq<string>)
      ensures Valid()
      ensures this.registrationType == registrationType
      ensures localSelection == InitialSelection(registrationType, selectedDocuments)
    {
      this.registrationType := registrationType;
      localSelection := InitialSelection(registrationType, selectedDocuments);
    }

    /**
     * The effect run when the props change: resynchronise to the selection passed in
     * plus the required documents, and report the new selection and its completeness.
     */
    method Resync(registrationType: RegistrationType, selectedDocuments: seq<string>)
      returns (documents: seq<string>, isComplete: bool)
      modifies this
      ensures Valid()
      ensures this.registrationType == registrationType
      ensures localSelection == InitialSelection(registrationType, selectedDocuments)
      ensures documents == localSelection
      ensures isComplete == ValidateSelection(registrationType, localSelection)
      ensures HasAllRequired(registrationType, documents)
    {
      this.registrationType := registrationType;
      var newSelection := InitialSelection(registrationType, selectedDocuments);
      localSelection := newSelection;
      documents := newSelection;
      isComplete := ValidateSelection(registrationType, newSelection);
    }

    /**
     * `handleDocumentToggle`: adds (checked) or removes (unchecked) exactly `documentId`,
     * then reports the new selection and its completeness.
     */
    method HandleDocumentToggle(documentId: string, checked: bool)
      returns (documents: seq<string>, isComplete: bool)
      requires Valid()
      modifies this`localSelection
      ensures Valid()
      ensures localSelection == if checked then SetAdd(old(localSelection), documentId)
                                else SetDelete(old(localSelection), documentId)
      ensures forall x :: x in localSelection <==> if x == documentId then checked else x in old(localSelection)
      ensures documents == localSelection
      ensures isComplete == ValidateSelection(registrationType, localSelection)
    {
      var newSelection := localSelection;
      if checked {
        newSelection := SetAdd(newSelection, documentId);
      } else {
        newSelection := SetDelete(newSelection, documentId);
      }
      localSelection := newSelection;
      documents := newSelection;
      isComplete := ValidateSelection(registrationType, newSelection);
    }
  }
}
