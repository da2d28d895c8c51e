# Dossier facile — electoral-roll registration checklist, modelled in Dafny

Dossier facile guides a voter through the documents a French town hall asks for
when registering on the electoral roll. The user picks a housing situation from a
fixed catalog of six, ticks the supporting documents they hold (required documents
are always ticked; some situations also ask for a minimum number of documents per
category), and downloads a plain-text checklist. A separate "hosted by a friend or
relative" situation splits into three sub-cases chosen from the applicant's age and
relation to the host.

The model has one module per source file:

| module | file | models |
|---|---|---|
| `Registration` | `registration.dfy` | the `Document`, `RegistrationType` and `UserSelection` types and the six-situation catalog, with its well-formedness facts |
| `Selector` | `selector.dfy` | the completeness check, the selection the document step starts from, toggling a document, grouping the optional documents by category, the per-category badge; a `DocumentSelector` class holds the step's local selection |
| `Wizard` | `wizard.dfy` | the three-step wizard as a `RegistrationWizard` class with its handlers and its invariant |
| `Summary` | `summary.dfy` | the required and selected-optional lists and the checklist text with its layout |
| `Housing` | `housing.dfy` | the three hosted sub-cases, the choice of sub-case and the lookup of their documents |
| `HostStep` | `host_step.dfy` | the hosting sub-step: its two answers and the facts it confirms |
| `Collections` | `collections.dfy` | `Array.prototype.filter` and a JavaScript `Set` of ids as an insertion-ordered, duplicate-free sequence |
| `Text` | `text.dfy` | `join` on a one-character separator with its inverse, and the decimal rendering of a natural number |
| `Wrappers` | `wrappers.dfy` | `Option` |

Modelling choices:

- A JavaScript `Set<string>` is a duplicate-free `seq<string>` in insertion order:
  `add` appends a new id, `delete` removes it in place, `Array.from` is the
  sequence itself. The order matters for the ids the document step reports back.
- `label` is a Dafny keyword; the field is called `labelText`.
- An absent `minRequiredFromCategory` is the empty map; no operation tells the two apart.
- A document's category stays a `string` (the minimum maps are keyed by strings);
  that the catalog only uses the six values of the category union is a proved fact.
- Ages are mathematical integers. The date printed on the checklist is a parameter.
- The grouped optional documents are a `map` from category to documents plus the
  order in which the record's keys were created, which is the order the groups are shown in.
- The catalog's situation ids are `residence_principale`, `commercant`, `gerant_sci`,
  `heberge_famille`, `residence_secondaire` and `foyer`; document ids are those of
  src/types/registration.ts (`facture_eau`, `avis_imposition`, …).
- The category union of src/types/registration.ts has six values.
- `RegistrationWizard` has three steps and does not use `HostSubcaseStep` or the
  sub-case resolver; those are modelled on their own and are not wired into the wizard.
- `handleTypeSelection` and `handleDocumentSelection` carry no step guard, in the
  code or in the model.

## Model

| member | source | states |
|---|---|---|
| `Registration.CatalogWellFormed` | src/types/registration.ts:24-357 | six situations with pairwise distinct ids; in each, distinct document ids, categories from the six-value union, a required `identity` document of category `identity`, and every category minimum attainable |
| `Registration.ResidencePrincipaleWellFormed` | src/types/registration.ts:25-124 | `residence_principale` is well formed (distinct ids, known categories, required identity document, address minimum attainable) |
| `Registration.ResidenceSecondaireWellFormed` | src/types/registration.ts:125-161 | `residence_secondaire` is well formed |
| `Registration.CommercantWellFormed` | src/types/registration.ts:162-219 | `commercant` is well formed |
| `Registration.GerantSciWellFormed` | src/types/registration.ts:220-277 | `gerant_sci` is well formed |
| `Registration.HebergeFamilleWellFormed` | src/types/registration.ts:278-320 | `heberge_famille` is well formed |
| `Registration.FoyerWellFormed` | src/types/registration.ts:321-356 | `foyer` is well formed |
| `Registration.ResidencePrincipaleDistinctIds` | src/types/registration.ts:30-121 | the thirteen document ids of `residence_principale` are pairwise distinct |
| `Registration.CommercantDistinctIds` | src/types/registration.ts:167-217 | the document ids of `commercant` are pairwise distinct |
| `Registration.GerantSciDistinctIds` | src/types/registration.ts:225-275 | the document ids of `gerant_sci` are pairwise distinct |
| `Registration.ResidenceSecondaireDistinctIds` | src/types/registration.ts:130-159 | the document ids of `residence_secondaire` are pairwise distinct |
| `Registration.HebergeFamilleDistinctIds` | src/types/registration.ts:283-319 | the document ids of `heberge_famille` are pairwise distinct |
| `Registration.CatalogDistinctIds` | src/types/registration.ts:24-357 | the catalog holds six situations with pairwise distinct ids |
| `Registration.AttainableByWitnesses` | src/types/registration.ts:123 | minimums of at most one are attainable when each minimum's category holds a document |
| `Registration.ResidencePrincipaleMinimumsAttainable` | src/types/registration.ts:123 | the address minimum of `residence_principale` can be met |
| `Registration.ResidenceSecondaireMinimumsAttainable` | src/types/registration.ts:160 | the fiscal minimum of `residence_secondaire` can be met |
| `Registration.CommercantMinimumsAttainable` | src/types/registration.ts:218 | the activity and fiscal minimums of `commercant` can be met |
| `Registration.GerantSciMinimumsAttainable` | src/types/registration.ts:276 | the management and fiscal minimums of `gerant_sci` can be met |
| `Registration.CatalogMinimums` | src/types/registration.ts:123-357 | the minimum map of each situation as written at :123, :160, :218 and :276: address 1 for `residence_principale`; fiscal 1 for `residence_secondaire`; activity 1 and fiscal 1 for `commercant`; management 1 and fiscal 1 for `gerant_sci`; and no map (so no minimum) for `heberge_famille` and `foyer` |
| `Registration.CatalogLookup` | src/components/RegistrationWizard.tsx:70 | looking up any catalog situation's id finds exactly that situation |
| `Registration.FindType` | src/components/RegistrationWizard.tsx:70 | `find` returns the first situation of the list with the id asked for, and nothing exactly when no situation has it |
| `Registration.FindTypeFinds` | src/components/RegistrationWizard.tsx:70 | with distinct ids, `find` on the k-th situation's id returns the k-th situation |
| `Registration.RequiredDocuments` | src/components/DocumentSelector.tsx:74 | exactly the required documents of the situation, in catalog order (a subsequence) |
| `Registration.OptionalDocuments` | src/components/DocumentSelector.tsx:75 | exactly the non-required documents of the situation, in catalog order (a subsequence) |
| `Registration.Ids` | src/components/DocumentSelector.tsx:25 | one id per document, position by position; an id is listed iff some document has it |
| `Registration.RequiredIds` | src/components/DocumentSelector.tsx:25 | an id is listed iff it is the id of a required document |
| `Selector.ValidateSelection` | src/components/DocumentSelector.tsx:54-71 | complete iff every required document is selected and, for every category minimum, the number of the situation's documents of that category that are selected reaches it |
| `Selector.MissingRequiredFails` | src/components/DocumentSelector.tsx:56-59 | a selection missing a required document is never complete |
| `Selector.ValidateIgnoresForeignIds` | src/components/DocumentSelector.tsx:56-65 | two selections that agree on the situation's own ids get the same verdict |
| `Selector.SelectedInCategory` | src/components/DocumentSelector.tsx:64-65 | the count of selected documents of a category, taken as a filter of the category's documents (:64), equals the single combined filter of :99-101 and is at most the category's size |
| `Selector.SelectedInCategoryMono` | src/components/DocumentSelector.tsx:64-65 | the count of selected documents of a category grows with the selection |
| `Selector.ValidateMonotone` | src/components/DocumentSelector.tsx:54-71 | a complete selection stays complete when ids are added |
| `Selector.ValidateAddKeeps` | src/components/DocumentSelector.tsx:54-71 | adding one id to a complete selection keeps it complete |
| `Selector.ValidateDeleteNeverCompletes` | src/components/DocumentSelector.tsx:54-71 | removing one id never turns an incomplete selection complete |
| `Selector.AllDocumentsComplete` | src/components/DocumentSelector.tsx:54-71 | when every minimum is attainable, selecting all documents is complete |
| `Selector.CatalogAllDocumentsComplete` | src/types/registration.ts:24-357 | in every catalog situation, selecting all documents is complete |
| `Selector.RequiredOnlyIncomplete` | src/components/DocumentSelector.tsx:61-67 | a positive minimum on a category without required documents makes the required documents alone incomplete |
| `Selector.ResidencePrincipaleNeedsOptional` | src/types/registration.ts:123 | `residence_principale` is incomplete with its required documents alone |
| `Selector.ResidenceSecondaireNeedsOptional` | src/types/registration.ts:160 | `residence_secondaire` is incomplete with its required documents alone |
| `Selector.CommercantNeedsOptional` | src/types/registration.ts:218 | `commercant` is incomplete with its required documents alone |
| `Selector.GerantSciNeedsOptional` | src/types/registration.ts:276 | `gerant_sci` is incomplete with its required documents alone |
| `Selector.SingleDocumentOutsideCategory` | src/components/DocumentSelector.tsx:61-67 | selecting a single document outside a category with a positive minimum is incomplete |
| `Selector.NoMinimumsRequiredSuffice` | src/components/DocumentSelector.tsx:62 | without category minimums, holding the required documents is complete |
| `Selector.HostedSituationsCompleteOnRequired` | src/types/registration.ts:278-356 | `heberge_famille` and `foyer` are complete exactly when their required documents are selected |
| `Selector.CountPositiveIff` | src/components/DocumentSelector.tsx:64-66 | a category's selected count is at least one iff some document of that category is selected |
| `Selector.SingleMinimumCompleteness` | src/components/DocumentSelector.tsx:54-71 | with a single minimum of one, complete iff all required documents and one document of that category are selected |
| `Selector.TwoMinimumsMet` | src/components/DocumentSelector.tsx:62-68 | minimums of one on two categories are met iff each category's selected count is at least one |
| `Selector.TwoMinimumsCompleteness` | src/components/DocumentSelector.tsx:54-71 | with two minimums of one, complete iff all required documents and one document of each category are selected |
| `Selector.RequiredMeetsMinimum` | src/components/DocumentSelector.tsx:54-71 | a minimum of one on a category holding a required document never decides the verdict |
| `Selector.ResidencePrincipaleCompleteness` | src/types/registration.ts:25-124 | `residence_principale` is complete iff its required documents and one address document are selected |
| `Selector.ResidenceSecondaireCompleteness` | src/types/registration.ts:125-161 | `residence_secondaire` is complete iff its required documents and one fiscal document are selected |
| `Selector.CommercantCompleteness` | src/types/registration.ts:162-219 | `commercant` is complete iff its required documents, one activity and one fiscal document are selected |
| `Selector.GerantSciCompleteness` | src/types/registration.ts:233-239 | the required management attestation meets the management minimum, so `gerant_sci` is complete iff its required documents and one fiscal document are selected |
| `Selector.ResidencePrincipaleIdentityAlone` | src/components/DocumentSelector.tsx:61-67 | `residence_principale` with only the identity document selected is incomplete |
| `Selector.InitialSelection` | src/components/DocumentSelector.tsx:24-27 | duplicate-free; holds exactly the ids passed in and the required ids; so every required document is selected |
| `Selector.EntryCompleteWithoutMinimums` | src/components/DocumentSelector.tsx:24-27 | without minimums, the step's starting selection is complete |
| `Selector.CategoryRequirement` | src/components/DocumentSelector.tsx:97-112 | empty iff the category has no or a zero minimum; otherwise starts with a check mark iff the category's selected count reaches the minimum, and with a warning sign otherwise |
| `Selector.CompleteShowsNoWarning` | src/components/DocumentSelector.tsx:97-112 | on a complete selection no badge shows a warning |
| `Selector.CategoriesOf` | src/components/DocumentSelector.tsx:78-79 | one category per document; a category is listed iff some document has it |
| `Selector.AddToGroup` | src/components/DocumentSelector.tsx:78-83 | the document is appended to its category's group, created last in the key order when missing; other groups unchanged |
| `Selector.GroupStep` | src/components/DocumentSelector.tsx:78-83 | one step of the `reduce` keeps the grouping invariant |
| `Selector.GroupByCategory` | src/components/DocumentSelector.tsx:78-84 | the `reduce`: the record's keys are exactly the categories in the creation order, with no category twice (its contents are stated by `GroupByCategoryGrouped`) |
| `Selector.GroupByCategorySnoc` | src/components/DocumentSelector.tsx:78-84 | the `reduce` over one more document is one more callback step |
| `Selector.GroupByCategoryGrouped` | src/components/DocumentSelector.tsx:78-84 | the `reduce` keys groups by the categories in order of first appearance, each holding its category's documents in order |
| `Selector.GroupedPlacement` | src/components/DocumentSelector.tsx:78-84 | every document is in its category's group; groups hold nothing else |
| `Selector.GroupByCategoryPrefix` | src/components/DocumentSelector.tsx:78-84 | the `reduce` over a prefix one element longer is one more callback step |
| `Selector.GroupOptionalGrouped` | src/components/DocumentSelector.tsx:75-84 | the grouping of the optional documents is the category grouping, and holds each optional document, and only those, in its category's group |
| `Selector.GroupOptionalDocs` | src/components/DocumentSelector.tsx:75-84 | the loop builds the `reduce`'s grouping of the optional documents; each optional document is in its category's group and no group holds a required document |
| `Selector.DocumentSelector.constructor` | src/components/DocumentSelector.tsx:24-27 | the step starts from the ids passed in plus the required ids |
| `Selector.DocumentSelector.Resync` | src/components/DocumentSelector.tsx:29-38 | the effect resets the selection to the ids passed in plus the required ids and reports it with its verdict |
| `Selector.DocumentSelector.HandleDocumentToggle` | src/components/DocumentSelector.tsx:40-52 | checking adds exactly the id, unchecking removes exactly it, every other id keeps its state; reports the new selection and its verdict |
| `Wizard.RegistrationWizard.constructor` | src/components/RegistrationWizard.tsx:11-17 | step 0, nothing completed, empty situation and selection, incomplete |
| `Wizard.RegistrationWizard.SelectedType` | src/components/RegistrationWizard.tsx:70 | the catalog situation named by the selection, or none when no situation has that id |
| `Wizard.RegistrationWizard.HandleTypeSelection` | src/components/RegistrationWizard.tsx:19-31 | records the situation, clears the selection, marks step 0 once, moves to step 1; for a catalog id the shown situation is that one |
| `Wizard.RegistrationWizard.HandleDocumentSelection` | src/components/RegistrationWizard.tsx:33-43 | stores documents and flag; marks step 1 once, and only when the flag is set; step unchanged |
| `Wizard.RegistrationWizard.HandleNext` | src/components/RegistrationWizard.tsx:45-52 | from step 1 with a complete selection moves to step 2 and marks it once; otherwise nothing changes |
| `Wizard.RegistrationWizard.HandlePrevious` | src/components/RegistrationWizard.tsx:54-58 | back one step; no change on step 0 |
| `Wizard.RegistrationWizard.HandleRestart` | src/components/RegistrationWizard.tsx:60-68 | back to exactly the initial state |
| `Summary.SelectedOptionalDocuments` | src/components/ResultSummary.tsx:20-24 | exactly the non-required documents whose id is selected, in catalog order; none of them is required |
| `Summary.SelectedOptionalIgnoresForeignIds` | src/components/ResultSummary.tsx:22-24 | selected ids outside the situation do not change the list |
| `Summary.PresentedDocuments` | src/components/ResultSummary.tsx:21-24 | a document is listed (required or selected optional) iff it is required or selected |
| `Summary.CheckedLines` | src/components/ResultSummary.tsx:39 | one checked line per document, `☑️ ` and its label, in order |
| `Summary.HeadLines` | src/components/ResultSummary.tsx:32-38 | seven lines precede the required documents |
| `Summary.AssembleLayout` | src/components/ResultSummary.tsx:31-47 | where each part of the checklist sits |
| `Summary.AssembleHead` | src/components/ResultSummary.tsx:32-38 | the header, situation, date and required heading sit on lines 0, 1, 2 and 6 |
| `Summary.AssembleRequired` | src/components/ResultSummary.tsx:38-41 | the required lines sit from line 7, followed by a blank line and the selected heading |
| `Summary.AssembleOptional` | src/components/ResultSummary.tsx:41-43 | the selected lines follow the selected heading, then a blank line |
| `Summary.CheckedRequired` | src/components/ResultSummary.tsx:39 | line 7 + i is the checked label of the i-th required document |
| `Summary.CheckedOptional` | src/components/ResultSummary.tsx:42 | line 9 + n + i is the checked label of the i-th selected optional document |
| `Summary.ChecklistLines` | src/components/ResultSummary.tsx:31-47 | 14 lines plus one per required and per selected optional document, the last four being the fixed reminder whatever the input |
| `Summary.ChecklistHead` | src/components/ResultSummary.tsx:32-38 | line 0 the header, line 1 the situation title, line 2 the date, line 6 the required heading |
| `Summary.ChecklistRequiredLines` | src/components/ResultSummary.tsx:38-41 | the required labels, checked and in catalog order, right after their heading, then a blank line and the selected heading |
| `Summary.ChecklistOptionalLines` | src/components/ResultSummary.tsx:41-43 | the selected optional labels, checked and in catalog order, right after their heading, then a blank line |
| `Summary.ChecklistSplitsBack` | src/components/ResultSummary.tsx:31-48 | when the title, the labels and the date are single lines, splitting the joined checklist at line breaks gives back exactly its lines |
| `Summary.HeadLinesSingle` | src/components/ResultSummary.tsx:32-38 | with a single-line title and date, the seven opening lines hold no line break |
| `Summary.FooterLineSingle` | src/components/ResultSummary.tsx:44-47 | the reminder lines hold no line break |
| `Summary.CheckedLinesSingle` | src/components/ResultSummary.tsx:39 | checked lines of single-line labels hold no line break |
| `Summary.ExportText` | src/components/ResultSummary.tsx:48 | the `join('\n')` of the checklist: with single-line title, labels and date, splitting the file's text at line breaks gives back exactly the checklist lines |
| `Text.Join` | src/components/ResultSummary.tsx:48 | one line joins to itself |
| `Text.SplitJoin` | src/components/ResultSummary.tsx:48 | joining lines free of the separator and splitting again gives the lines back |
| `Text.NatToString` | src/components/DocumentSelector.tsx:108-110 | at least one digit, all digits, no leading zero |
| `Text.NatToStringValue` | src/components/DocumentSelector.tsx:108-110 | the digits rendered denote the number |
| `Collections.SetAdd` | src/components/DocumentSelector.tsx:43 | `add`: membership gains exactly the id; a new id goes last; no duplicates |
| `Collections.SetDelete` | src/components/DocumentSelector.tsx:45 | `delete`: membership loses exactly the id; no duplicates; the remaining ids keep their insertion order |
| `Collections.FromIterable` | src/components/DocumentSelector.tsx:26 | `new Set(xs)`: duplicate-free, the same members as `xs` |
| `Housing.HostedSubcasesWellFormed` | src/types/housing-situations.ts:32-122 | three sub-cases stored under their own ids, with distinct, all-mandatory documents: four, three and four |
| `Housing.GetHostingSubcase` | src/types/housing-situations.ts:125-140 | always one of the three keys; its declared age restriction admits the age; the other-person case iff the host is not a parent or the age is below 18 |
| `Housing.ParentSubcaseMatchesRestriction` | src/types/housing-situations.ts:130-136 | for a parent host of an adult, the sub-case chosen is the only parent sub-case whose age restriction admits the age |
| `Housing.SubcaseDocuments` | src/types/housing-situations.ts:149 | the sub-case's documents for a key of the table, none otherwise; all mandatory |
| `Housing.GetRequiredDocuments` | src/types/housing-situations.ts:143-150 | every document returned is mandatory; the list is non-empty iff a sub-case id is given, or the grouped situation with both the age and the relation |
| `Housing.RequiredDocumentsResolved` | src/types/housing-situations.ts:144-147 | the grouped situation with age and relation gives the documents of the sub-case they select |
| `Housing.RequiredDocumentsDirect` | src/types/housing-situations.ts:149 | a sub-case id gives that sub-case's documents |
| `Housing.RequiredDocumentsUnknown` | src/types/housing-situations.ts:149 | any other id, including the grouped situation with the age or relation missing, gives no document |
| `HostStep.CanContinue` | src/components/HostSubcaseStep.tsx:16 | true iff a relation has been chosen |
| `HostStep.ConfirmedFacts` | src/components/HostSubcaseStep.tsx:18-23 | nothing before a relation is chosen; `isParent` iff the host is a parent; age 20, 26 or 30 for parent under 26, parent 26 or over, other host |
| `HostStep.ConfirmedFactsSubcase` | src/components/HostSubcaseStep.tsx:21 | the confirmed facts resolve to the under-26, 26-and-over and other-person sub-cases respectively; a parent host always comes with an age of 18 or more, so the under-18 fallback is unreachable |
| `HostStep.ConfirmedAgeAdmitted` | src/components/HostSubcaseStep.tsx:21 | the confirmed age lies within the age restriction of the resolved sub-case |
| `HostStep.HostSubcaseStep.constructor` | src/components/HostSubcaseStep.tsx:13-14 | no relation chosen, age group under 26 |
| `HostStep.HostSubcaseStep.SetRelation` | src/components/HostSubcaseStep.tsx:46 | the relation becomes the value chosen |
| `HostStep.HostSubcaseStep.SetAgeGroup` | src/components/HostSubcaseStep.tsx:76 | the age group becomes the value chosen |
| `HostStep.HostSubcaseStep.HandleContinue` | src/components/HostSubcaseStep.tsx:18-23 | returns early with nothing iff no relation is chosen; otherwise the facts `ConfirmedFacts` gives |

The wizard's class invariant `Valid()` (kept by every handler) states what the
source's guards ensure together: the step is 0, 1 or 2; completed steps are distinct
step numbers; on step 1 or 2, step 0 is completed; on step 2, steps 1 and 2 are
completed; a complete selection implies step 1 is completed. Every handler but
restart keeps the previously completed steps as a prefix of the new list.

## Left out

- React rendering, JSX, styling, `StepIndicator` (its progress bar width is a floating-point percentage), `RegistrationTypeSelector` (renders the catalog and forwards a click) and `DocumentCheckbox` (styling): presentation only.
- Re-render semantics: the effect in the document step is one `Resync` call, not a React effect re-run on every prop change; batching of state updates is not modelled, each handler updates the state in sequence.
- `getCategoryTitle` (src/components/DocumentSelector.tsx:86-95): a display-only lookup of section titles.
- `window.print`, `Blob`, `URL.createObjectURL` and the temporary download anchor (src/components/ResultSummary.tsx:26-28, 50-58): browser I/O; only the file name constant is kept.
- `new Date().toLocaleDateString('fr-FR')`: a clock and locale call; the date string is a parameter of the checklist.
- The wiring of the hosting sub-step into the wizard and the conversion of sub-case documents into catalog documents (with category inference from id substrings): not present in the code's wizard.
- The `icon` of a document, referenced by the document step's rendering but not declared on `Document`.
- Ages and minimums are integers: fractional, `NaN` or negative values of the TypeScript `number` type are not modelled, and `minRequiredFromCategory` values are natural numbers.
- `Summary.ExportText`: its split-back property is stated for situations whose title and labels contain no line break; that the six catalog situations satisfy this is not proved.
- `Selector.DocumentSelector.HandleDocumentToggle`: the source copies the `Set` before changing it; the model assigns a new sequence, which has the same effect since sequences are values.
