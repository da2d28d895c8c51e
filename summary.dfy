/**
 * The review step: the required documents, the optional documents the user selected,
 * and the text of the checklist file offered for download.
 */
module Summary {
  import opened Collections
  import opened Text
  import opened Registration

  const Header: string := "CHECKLIST INSCRIPTION ÉLECTORALE"
  const CheckMark: string := "☑️ "

  /**
   * The fixed reminder that ends every checklist. Each long reminder line is the
   * concatenation of two literals so that its freedom from line breaks can be shown
   * piece by piece (see `OriginalsSingle`); the text is the source's line unchanged.
   */
  const Footer: seq<string> := ["IMPORTANT :", ReminderOriginals, ReminderRecent, ReminderContact]
  const ReminderOriginals: string := OriginalsStart + OriginalsEnd
  const ReminderRecent: string := RecentStart + RecentEnd
  const ReminderContact: string := ContactStart + ContactEnd
  const OriginalsStart: string := "- Présentez les documents originaux "
  const OriginalsEnd: string := "ou des copies certifiées conformes"
  const RecentStart: string := "- Vérifiez que vos justificatifs sont "
  const RecentEnd: string := "datés de moins de 3 mois quand requis"
  const ContactStart: string := "- N'hésitez pas à contacter votre mairie "
  const ContactEnd: string := "pour toute question"

  /** The name the checklist file is downloaded under. */
  const ExportFileName: string := "checklist-inscription-electorale.txt"

  /**
   * `selectedOptionalDocs`: the situation's optional documents whose id is in
   * `new Set(selectedDocuments)`, in catalog order.
   */
  function SelectedOptionalDocuments(t: RegistrationType, selectedDocuments: seq<string>): (r: seq<Document>)
    ensures forall d :: d in r <==> d in t.documents && !d.required && d.id in selectedDocuments
    ensures forall d :: d in r ==> d !in RequiredDocuments(t)
    ensures IsSubsequence(r, t.documents)
  {
    var selectedDocsSet := FromIterable(selectedDocuments);
    var p := (d: Document) => !d.required && d.id in selectedDocsSet;
    FilterIsSubsequence(t.documents, p);
    Filter(t.documents, p)
  }

  /** Selected ids that name none of the situation's documents do not change the list. */
  lemma SelectedOptionalIgnoresForeignIds(t: RegistrationType, s1: seq<string>, s2: seq<string>)
    requires forall d :: d in t.documents ==> (d.id in s1 <==> d.id in s2)
    ensures SelectedOptionalDocuments(t, s1) == SelectedOptionalDocuments(t, s2)
  {
    var set1, set2 := FromIterable(s1), FromIterable(s2);
    FilterCongruent(t.documents,
      (d: Document) => !d.required && d.id in set1,
      (d: Document) => !d.required && d.id in set2);
  }

  /** Every required document, plus the selected optional ones, are all documents the user presents. */
  lemma PresentedDocuments(t: RegistrationType, selectedDocuments: seq<string>, d: Document)
    requires d in t.documents
    ensures d in RequiredDocuments(t) || d in SelectedOptionalDocuments(t, selectedDocuments) <==>
      d.required || d.id in selectedDocuments
  {
  }

  /** `docs.map(doc => `☑️ ${doc.label}`)` */
  function CheckedLines(docs: seq<Document>): (r: seq<string>)
    ensures |r| == |docs|
    ensures forall i :: 0 <= i < |docs| ==> r[i] == CheckMark + docs[i].labelText
  {
    if docs == [] then [] else [CheckMark + docs[0].labelText] + CheckedLines(docs[1..])
  }

  /** The seven lines before the required documents. */
  function HeadLines(title: string, date: string): (r: seq<string>)
    ensures |r| == 7
  {
    [ Header,
      "Situation : " + title,
      "Date : " + date,
      "",
      "DOCUMENTS À PRÉSENTER EN MAIRIE :",
      "",
      "Documents obligatoires :" ]
  }

  /** The checklist around the two lists of document lines. */
  function Assemble(title: string, date: string, req: seq<string>, opt: seq<string>): seq<string> {
    HeadLines(title, date) + req + ["", "Documents sélectionnés :"] + opt + [""] + Footer
  }

  /** The lines of the checklist, for a given rendering of today's date. */
  function ChecklistLines(t: RegistrationType, selectedDocuments: seq<string>, date: string): (r: seq<string>)
    ensures |r| == 14 + |RequiredDocuments(t)| + |SelectedOptionalDocuments(t, selectedDocuments)|
    ensures r[|r| - 4..] == Footer
  {
    AssembleLayout(t.title, date, CheckedLines(RequiredDocuments(t)),
                   CheckedLines(SelectedOptionalDocuments(t, selectedDocuments)));
    Assemble(t.title, date,
             CheckedLines(RequiredDocuments(t)),
             CheckedLines(SelectedOptionalDocuments(t, selectedDocuments)))
  }

  lemma AssembleLayout(title: string, date: string, req: seq<string>, opt: seq<string>)
    ensures var lines := Assemble(title, date, req, opt);
      && |lines| == 14 + |req| + |opt|
      && lines[..7] == HeadLines(title, date)
      && lines[7..7 + |req|] == req
      && lines[7 + |req|] == ""
      && lines[8 + |req|] == "Documents sélectionnés :"
      && lines[9 + |req|..9 + |req| + |opt|] == opt
      && lines[9 + |req| + |opt|] == ""
      && lines[|lines| - 4..] == Footer
  {
    var head := HeadLines(title, date);
    var a := head + req;
    var b := a + ["", "Documents sélectionnés :"];
    var c := b + opt;
    var d := c + [""];
    var lines := d + Footer;
    assert lines[..7] == head by { assert lines[..7] == a[..7] == head; }
    assert lines[7..7 + |req|] == req by { assert lines[7..7 + |req|] == a[7..]; }
    assert lines[9 + |req|..9 + |req| + |opt|] == opt by { assert lines[9 + |req|..9 + |req| + |opt|] == c[|b|..]; }
  }

  /** The lines the checklist opens with. */
  lemma AssembleHead(title: string, date: string, req: seq<string>, opt: seq<string>)
    ensures var lines := Assemble(title, date, req, opt);
      && |lines| >= 7
      && lines[0] == Header
      && lines[1] == "Situation : " + title
      && lines[2] == "Date : " + date
      && lines[6] == "Documents obligatoires :"
  {
    var head := HeadLines(title, date);
    var lines := Assemble(title, date, req, opt);
    assert lines == head + (req + ["", "Documents sélectionnés :"] + opt + [""] + Footer);
  }

  /** The required lines follow the seven opening lines, then a blank line and the selected heading. */
  lemma AssembleRequired(title: string, date: string, req: seq<string>, opt: seq<string>)
    ensures var lines := Assemble(title, date, req, opt);
      && 8 + |req| < |lines|
      && (forall i :: 0 <= i < |req| ==> lines[7 + i] == req[i])
      && lines[7 + |req|] == ""
      && lines[8 + |req|] == "Documents sélectionnés :"
  {
    var lines := Assemble(title, date, req, opt);
    assert lines == HeadLines(title, date) + (req + (["", "Documents sélectionnés :"] + opt + [""] + Footer));
  }

  /** The selected lines follow the selected heading, then a blank line. */
  lemma AssembleOptional(title: string, date: string, req: seq<string>, opt: seq<string>)
    ensures var lines := Assemble(title, date, req, opt);
      && 9 + |req| + |opt| < |lines|
      && (forall i :: 0 <= i < |opt| ==> lines[9 + |req| + i] == opt[i])
      && lines[9 + |req| + |opt|] == ""
  {
    var lines := Assemble(title, date, req, opt);
    var before := HeadLines(title, date) + req + ["", "Documents sélectionnés :"];
    assert |before| == 9 + |req|;
    assert lines == before + (opt + ([""] + Footer));
  }

  /** `AssembleRequired` for checked document lines. */
  lemma CheckedRequired(title: string, date: string, req: seq<Document>, opt: seq<Document>)
    ensures var lines := Assemble(title, date, CheckedLines(req), CheckedLines(opt));
      && 8 + |req| < |lines|
      && (forall i :: 0 <= i < |req| ==> lines[7 + i] == CheckMark + req[i].labelText)
      && lines[7 + |req|] == ""
      && lines[8 + |req|] == "Documents sélectionnés :"
  {
    AssembleRequired(title, date, CheckedLines(req), CheckedLines(opt));
  }

  /** `AssembleOptional` for checked document lines. */
  lemma CheckedOptional(title: string, date: string, req: seq<Document>, opt: seq<Document>)
    ensures var lines := Assemble(title, date, CheckedLines(req), CheckedLines(opt));
      && 9 + |req| + |opt| < |lines|
      && (forall i :: 0 <= i < |opt| ==> lines[9 + |req| + i] == CheckMark + opt[i].labelText)
      && lines[9 + |req| + |opt|] == ""
  {
    AssembleOptional(title, date, CheckedLines(req), CheckedLines(opt));
  }

  /** The checklist has 14 fixed lines and one line per required and per selected optional document. */
  /** The checklist opens with the header, the situation's title, the date and the required-documents heading. */
  lemma ChecklistHead(t: RegistrationType, selectedDocuments: seq<string>, date: string)
    ensures var lines := ChecklistLines(t, selectedDocuments, date);
      && lines[0] == Header
      && lines[1] == "Situation : " + t.title
      && lines[2] == "Date : " + date
      && lines[6] == "Documents obligatoires :"
  {
    AssembleHead(t.title, date, CheckedLines(RequiredDocuments(t)),
                 CheckedLines(SelectedOptionalDocuments(t, selectedDocuments)));
  }

  /** Right after its heading, one checked line per required document, in catalog order. */
  lemma ChecklistRequiredLines(t: RegistrationType, selectedDocuments: seq<string>, date: string)
    ensures var lines := ChecklistLines(t, selectedDocuments, date);
      var req := RequiredDocuments(t);
      && 7 + |req| < |lines|
      && (forall i :: 0 <= i < |req| ==> lines[7 + i] == CheckMark + req[i].labelText)
      && lines[7 + |req|] == ""
      && lines[8 + |req|] == "Documents sélectionnés :"
  {
    CheckedRequired(t.title, date, RequiredDocuments(t), SelectedOptionalDocuments(t, selectedDocuments));
  }

  /** Right after the selected-documents heading, one checked line per selected optional document, in catalog order. */
  lemma ChecklistOptionalLines(t: RegistrationType, selectedDocuments: seq<string>, date: string)
    ensures var lines := ChecklistLines(t, selectedDocuments, date);
      var n := |RequiredDocuments(t)|;
      var opt := SelectedOptionalDocuments(t, selectedDocuments);
      && 9 + n + |opt| < |lines|
      && (forall i :: 0 <= i < |opt| ==> lines[9 + n + i] == CheckMark + opt[i].labelText)
      && lines[9 + n + |opt|] == ""
  {
    CheckedOptional(t.title, date, RequiredDocuments(t), SelectedOptionalDocuments(t, selectedDocuments));
  }

  /** `checklist.join('\n')`: the text of the downloaded file. */
  function ExportText(t: RegistrationType, selectedDocuments: seq<string>, date: string): (r: string)
    ensures SingleLineTexts(t) && '\n' !in date ==> Split(r, '\n') == ChecklistLines(t, selectedDocuments, date)
  {
    ChecklistSplitsBack(t, selectedDocuments, date);
    Join(ChecklistLines(t, selectedDocuments, date), '\n')
  }

  /** A line break in neither piece is in neither the joined line. */
  lemma NoBreakConcat(a: string, b: string)
    requires '\n' !in a && '\n' !in b
    ensures '\n' !in a + b
  {
  }

  lemma OriginalsSingle()
    ensures '\n' !in ReminderOriginals
  {
    assert '\n' !in OriginalsStart;
    assert '\n' !in OriginalsEnd;
    NoBreakConcat(OriginalsStart, OriginalsEnd);
  }

  lemma RecentSingle()
    ensures '\n' !in ReminderRecent
  {
    assert '\n' !in RecentStart;
    assert '\n' !in RecentEnd;
    NoBreakConcat(RecentStart, RecentEnd);
  }

  lemma ContactSingle()
    ensures '\n' !in ReminderContact
  {
    assert '\n' !in ContactStart;
    assert '\n' !in ContactEnd;
    NoBreakConcat(ContactStart, ContactEnd);
  }

  /** The lines of the fixed reminder are single lines. */
  lemma FooterLineSingle(j: nat)
    requires j < |Footer|
    ensures '\n' !in Footer[j]
  {
    OriginalsSingle();
    RecentSingle();
    ContactSingle();
  }

  /** With a single-line title and date, the seven opening lines are single lines. */
  lemma HeadLinesSingle(title: string, date: string, k: nat)
    requires '\n' !in title && '\n' !in date
    requires k < 7
    ensures '\n' !in HeadLines(title, date)[k]
  {
    var head := HeadLines(title, date);
    if k == 0 {
      assert '\n' !in Header;
    } else if k == 1 {
      NoBreakConcat("Situation : ", title);
    } else if k == 2 {
      NoBreakConcat("Date : ", date);
    } else if k == 4 {
      assert '\n' !in head[4];
    } else if k == 6 {
      assert '\n' !in head[6];
    }
  }

  /** Assembled from single lines, every line of the checklist is a single line. */
  lemma SingleLines(title: string, date: string, req: seq<string>, opt: seq<string>)
    requires '\n' !in title && '\n' !in date
    requires forall k :: 0 <= k < |req| ==> '\n' !in req[k]
    requires forall k :: 0 <= k < |opt| ==> '\n' !in opt[k]
    ensures forall k :: 0 <= k < |Assemble(title, date, req, opt)| ==> '\n' !in Assemble(title, date, req, opt)[k]
  {
    var lines := Assemble(title, date, req, opt);
    AssembleLayout(title, date, req, opt);
    forall k | 0 <= k < |lines| ensures '\n' !in lines[k] {
      if k < 7 {
        HeadLinesSingle(title, date, k);
      } else if k == 8 + |req| {
        assert '\n' !in "Documents sélectionnés :";
      } else if k < 7 + |req| {
        assert lines[k] == lines[7..7 + |req|][k - 7];
      } else if 9 + |req| <= k < 9 + |req| + |opt| {
        assert lines[k] == lines[9 + |req|..9 + |req| + |opt|][k - 9 - |req|];
      } else if k >= |lines| - 4 {
        assert lines[k] == Footer[k - (|lines| - 4)];
        FooterLineSingle(k - (|lines| - 4));
      }
    }
  }

  /** Checking documents taken from `all`, whose labels are single lines, gives single lines. */
  lemma CheckedLinesSingle(docs: seq<Document>, all: seq<Document>)
    requires forall d :: d in docs ==> d in all
    requires forall i :: 0 <= i < |all| ==> '\n' !in all[i].labelText
    ensures forall k :: 0 <= k < |docs| ==> '\n' !in CheckedLines(docs)[k]
  {
    assert '\n' !in CheckMark;
    forall k | 0 <= k < |docs| ensures '\n' !in CheckedLines(docs)[k] {
      assert docs[k] in all;
      NoBreakConcat(CheckMark, docs[k].labelText);
    }
  }

  /** A situation whose title and document labels are single lines. */
  predicate SingleLineTexts(t: RegistrationType) {
    && '\n' !in t.title
    && forall i :: 0 <= i < |t.documents| ==> '\n' !in t.documents[i].labelText
  }

  /**
   * When the title, the labels and the date are single lines, the file holds exactly
   * the checklist lines: splitting its text at line breaks gives them back.
   */
  lemma ChecklistSplitsBack(t: RegistrationType, selectedDocuments: seq<string>, date: string)
    ensures SingleLineTexts(t) && '\n' !in date ==>
      var lines := ChecklistLines(t, selectedDocuments, date);
      Split(Join(lines, '\n'), '\n') == lines
  {
    if SingleLineTexts(t) && '\n' !in date {
      var lines := ChecklistLines(t, selectedDocuments, date);
      var req := CheckedLines(RequiredDocuments(t));
      var opt := CheckedLines(SelectedOptionalDocuments(t, selectedDocuments));
      AssembleLayout(t.title, date, req, opt);
      CheckedLinesSingle(RequiredDocuments(t), t.documents);
      CheckedLinesSingle(SelectedOptionalDocuments(t, selectedDocuments), t.documents);
      SingleLines(t.title, date, req, opt);
      SplitJoin(lines, '\n');
    }
  }
}
