/** The plain-text Strategy Map report and its download file name, both
    computed from the record alone. */
module StrategyMap {
  import opened Schema
  import opened Template

  const Banner := "================================================"
  const Rule := "------------------------------------------------"

  /** The fields the report shows, in the order it shows them. */
  const ReportFields: seq<Field> := [
    ClientName, Date,
    Hypothesis,
    BedrockValues, BedrockNotes,
    SedimentStatus, SedimentNotes,
    TopoCliff, TopoSlope, TopoNotes,
    RouteGoal, RouteAction,
    Summary
  ]

  /** The title block that opens the report. */
  const Title := "\n" + Banner + "\nLife Mapping Strategy Report\n" + Banner + "\n"
  const ClientLabel := "■ Client: "
  const Honorific := " 様"
  /** The banner line that closes the report. */
  const Closing := "\n\n" + Banner + "\n"

  /** The template's fixed text: piece j comes before field j, and the last
      piece closes the report. */
  const ReportText: seq<string> := [
    Title + ClientLabel,
    Honorific + "\n■ Date  : ",
    "\n■ Strategist: Nozomi Yoneyama\n\n" + Rule + "\n0. INITIAL HYPOTHESIS (当初の仮説)\n" + Rule + "\n",
    "\n\n" + Rule + "\n1. BEDROCK (地盤・価値観)\n" + Rule + "\n",
    "\n\n[Memo]\n",
    "\n\n" + Rule + "\n2. SEDIMENT (堆積物・現状)\n" + Rule + "\n",
    "\n\n[Memo]\n",
    "\n\n" + Rule + "\n3. TOPOGRAPHY (地形の再定義)\n" + Rule + "\n▼ 崖（恐怖の正体）:\n",
    "\n\n▼ 坂（具体的タスク）:\n",
    "\n\n[Memo]\n",
    "\n\n" + Rule + "\n4. ROUTES (航路・戦略)\n" + Rule + "\n🏁 3ヶ月後のゴール (Defined Destination):\n",
    "\n\n👟 Next Action (明日やること):\n",
    "\n\n" + Rule + "\n★ 参謀からのメッセージ\n" + Rule + "\n",
    Closing
  ]

  /** The record has every field the report shows. */
  predicate HasReportFields(r: Record) {
    forall f :: f in ReportFields ==> f in r
  }

  /** The values of the fields the report shows, in report order. */
  function ReportValues(r: Record): (vs: seq<string>)
    requires HasReportFields(r)
    ensures |vs| == |ReportFields|
  {
    seq(|ReportFields|, i requires 0 <= i < |ReportFields| => r[ReportFields[i]])
  }

  /** The preview and download text of the output phase. */
  function Report(r: Record): (s: string)
    requires HasReportFields(r)
    ensures |Title + ClientLabel| <= |s| && s[..|Title + ClientLabel|] == Title + ClientLabel
  {
    Interleave(ReportText, ReportValues(r))
  }

  /** Where field ReportFields[j] begins in the report. */
  function FieldStart(r: Record, j: nat): nat
    requires HasReportFields(r) && j < |ReportFields|
  {
    Offset(ReportText, ReportValues(r), j)
  }

  /** Every field of the schema is in the report except route_notes. */
  lemma ReportOmitsOnlyRouteNotes()
    ensures forall f: Field :: f in ReportFields <==> f != RouteNotes
  {
    forall f: Field | f != RouteNotes ensures f in ReportFields {
      match f
      case ClientName => assert ReportFields[0] == f;
      case Date => assert ReportFields[1] == f;
      case Hypothesis => assert ReportFields[2] == f;
      case BedrockValues => assert ReportFields[3] == f;
      case BedrockNotes => assert ReportFields[4] == f;
      case SedimentStatus => assert ReportFields[5] == f;
      case SedimentNotes => assert ReportFields[6] == f;
      case TopoCliff => assert ReportFields[7] == f;
      case TopoSlope => assert ReportFields[8] == f;
      case TopoNotes => assert ReportFields[9] == f;
      case RouteGoal => assert ReportFields[10] == f;
      case RouteAction => assert ReportFields[11] == f;
      case Summary => assert ReportFields[12] == f;
    }
  }

  /** Every well-formed record can be reported on. */
  lemma WellFormedHasReportFields(r: Record)
    requires WellFormed(r)
    ensures HasReportFields(r)
  {
  }

  /** Every fixed piece of the template has some text, so no two fields of
      the report run together. */
  lemma ReportTextNonEmpty(i: nat)
    requires i < |ReportText|
    ensures |ReportText[i]| > 0
  {
  }

  /** Field j of the report appears verbatim at FieldStart(r, j), followed at
      once by its fixed label text, and field j + 1 begins right after that
      text; field 0 begins right after the opening piece. Nothing else stands
      between the pieces. */
  lemma ReportLayout(r: Record, j: nat)
    requires HasReportFields(r) && j < |ReportFields|
    ensures OccursAt(Report(r), r[ReportFields[j]], FieldStart(r, j))
    ensures OccursAt(Report(r), ReportText[j + 1], FieldStart(r, j) + |r[ReportFields[j]]|)
    ensures j + 1 < |ReportFields| ==>
      FieldStart(r, j + 1) == FieldStart(r, j) + |r[ReportFields[j]]| + |ReportText[j + 1]|
    ensures FieldStart(r, 0) == |ReportText[0]|
  {
    var vs := ReportValues(r);
    assert vs[j] == r[ReportFields[j]];
    InterleaveAt(ReportText, vs, j);
    OffsetFirst(ReportText, vs);
  }

  /** The fields come in ReportFields order, each ending strictly before the
      next begins, since every fixed piece between them has some text. */
  lemma ReportFieldsOrdered(r: Record, j: nat)
    requires HasReportFields(r) && j + 1 < |ReportFields|
    ensures FieldStart(r, j) + |r[ReportFields[j]]| < FieldStart(r, j + 1)
  {
    ReportLayout(r, j);
    ReportTextNonEmpty(j + 1);
  }

  /** Every field the report shows appears in it verbatim. */
  lemma ReportShowsField(r: Record, f: Field)
    requires HasReportFields(r) && f in ReportFields
    ensures Contains(Report(r), r[f])
  {
    var j :| 0 <= j < |ReportFields| && ReportFields[j] == f;
    ReportLayout(r, j);
  }

  /** The report opens with the title block and the client label, and closes
      with the closing banner, right after the summary. */
  lemma ReportFrame(r: Record)
    requires HasReportFields(r)
    ensures OccursAt(Report(r), Title + ClientLabel, 0)
    ensures OccursAt(Report(r), Closing, |Report(r)| - |Closing|)
    ensures OccursAt(Report(r), r[Summary], |Report(r)| - |Closing| - |r[Summary]|)
    ensures |Report(r)| == FieldStart(r, 12) + |r[Summary]| + |Closing|
  {
    var vs := ReportValues(r);
    assert |vs| == 13 && vs[12] == r[Summary];
    assert ReportText[13] == Closing;
    InterleaveEnd(ReportText, vs);
  }

  /** The output phase's report shows the summary. */
  lemma ReportShowsSummary(r: Record)
    requires HasReportFields(r)
    ensures Contains(Report(r), r[Summary])
  {
    ReportFrame(r);
  }

  /** The header names the client with the honorific: the report contains
      "■ Client: <client_name> 様". */
  lemma ReportNamesClient(r: Record)
    requires HasReportFields(r)
    ensures Contains(Report(r), ClientLabel + r[ClientName] + Honorific)
  {
    var s, name := Report(r), r[ClientName];
    ReportFrame(r);
    ReportLayout(r, 0);
    var start := FieldStart(r, 0);
    assert start == |Title + ClientLabel|;
    OccursSuffix(s, Title, ClientLabel, 0);
    assert ReportText[1] == Honorific + "\n■ Date  : ";
    OccursPrefix(s, Honorific, "\n■ Date  : ", start + |name|);
    OccursJoin(s, ClientLabel, name, |Title|);
    OccursJoin(s, ClientLabel + name, Honorific, |Title|);
  }

  /** The report is a function of the shown fields alone: records that agree
      on them give the same text, whatever else they hold. */
  lemma ReportDependsOnlyOnShownFields(r1: Record, r2: Record)
    requires HasReportFields(r1) && HasReportFields(r2)
    requires forall f :: f in ReportFields ==> r1[f] == r2[f]
    ensures Report(r1) == Report(r2)
  {
    assert ReportValues(r1) == ReportValues(r2);
  }

  /** In particular the routes memo never reaches the report. */
  lemma ReportIgnoresRouteNotes(r: Record, notes: string)
    requires HasReportFields(r)
    ensures HasReportFields(r[RouteNotes := notes])
    ensures Report(r[RouteNotes := notes]) == Report(r)
  {
    ReportOmitsOnlyRouteNotes();
    ReportDependsOnlyOnShownFields(r[RouteNotes := notes], r);
  }

  /** The download file name, "StrategyMap_<client_name>_<date>.txt". */
  function FileName(r: Record): (n: string)
    requires ClientName in r && Date in r
    ensures 16 <= |n| && n[..12] == "StrategyMap_" && n[|n| - 4..] == ".txt"
  {
    "StrategyMap_" + r[ClientName] + "_" + r[Date] + ".txt"
  }

  /** The file name carries the fixed prefix and the .txt suffix, with the
      client name right after the prefix. */
  lemma FileNameShape(r: Record)
    requires ClientName in r && Date in r
    ensures |FileName(r)| == |r[ClientName]| + |r[Date]| + 17
    ensures FileName(r)[..12] == "StrategyMap_"
    ensures FileName(r)[12..12 + |r[ClientName]|] == r[ClientName]
    ensures FileName(r)[|FileName(r)| - 4..] == ".txt"
    ensures FileName(r)[12 + |r[ClientName]|..] == "_" + r[Date] + ".txt"
  {
  }

  /** Records with the same client name and date get the same file name. */
  lemma FileNameOfIdentity(r1: Record, r2: Record)
    requires ClientName in r1 && Date in r1 && ClientName in r2 && Date in r2
    requires r1[ClientName] == r2[ClientName] && r1[Date] == r2[Date]
    ensures FileName(r1) == FileName(r2)
  {
  }

  /** For a fixed date the file name determines the client name. */
  lemma FileNameDeterminesName(r1: Record, r2: Record)
    requires ClientName in r1 && Date in r1 && ClientName in r2 && Date in r2
    requires r1[Date] == r2[Date] && FileName(r1) == FileName(r2)
    ensures r1[ClientName] == r2[ClientName]
  {
    FileNameShape(r1);
    FileNameShape(r2);
  }

  /** Across dates it does not: the separator may itself occur in a name or
      a date, so two different identities can share one file name. */
  lemma FileNameCollides()
    ensures FileName(map[ClientName := "a_b", Date := "c"]) == FileName(map[ClientName := "a", Date := "b_c"])
  {
  }
}
