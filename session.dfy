/** One run of the questionnaire page over the session state: create the
    record if the session has none, apply the branch the menu selects, and
    in the output phase build the report and its file name. */
module Session {
  import opened Schema
  import opened Phases
  import opened Template
  import opened StrategyMap

  /** What the output phase offers for download. */
  datatype Download = Download(text: string, fileName: string)

  /** The record a run starts from: the session's record if it has one,
      otherwise a fresh default record dated today. */
  function StartRecord(existing: Option<Record>, today: string): (r: Record)
    requires existing.Some? ==> WellFormed(existing.value)
    ensures WellFormed(r)
    ensures existing.Some? ==> r == existing.value
    ensures existing.None? ==> r == DefaultRecord(today)
  {
    match existing
    case Some(rec) => rec
    case None => DefaultRecord(today)
  }

  /** The record after one run: the menu's phase overwrites its own fields
      with the widgets' values; a menu value matching no phase leaves the
      record as it was. */
  function NextRecord(r: Record, menu: string, answers: seq<string>): (r': Record)
    requires WellFormed(r) && |answers| == WidgetCount(menu)
    ensures WellFormed(r')
    ensures PhaseOf(menu).None? ==> r' == r
  {
    match PhaseOf(menu)
    case Some(p) =>
      PhaseUpdate(r, p, answers);
      Overwrite(r, PhaseFields(p), answers)
    case None => r
  }

  /** The session state of the page, holding the record `form_data`. */
  class Page {
    /** Whether the session state holds a record yet. */
    var hasFormData: bool
    var formData: Record

    /** Whenever the session holds a record, the record has the whole schema. */
    ghost predicate Invariant()
      reads this
    {
      hasFormData ==> WellFormed(formData)
    }

    /** The invariant holds and the record exists. */
    ghost predicate Valid()
      reads this
    {
      Invariant() && hasFormData
    }

    /** The record as a value, or None before the first run. */
    function Current(): (o: Option<Record>)
      reads this
      ensures o.Some? <==> hasFormData
    {
      if hasFormData then Some(formData) else None
    }

    /** A new session holds no record. */
    constructor ()
      ensures Invariant() && !hasFormData
    {
      hasFormData := false;
      formData := map[];
    }

    /** Creates the default record only when the session holds none. */
    method EnsureFormData(today: string)
      requires Invariant()
      modifies this
      ensures Valid()
      ensures formData == StartRecord(old(Current()), today)
      ensures old(hasFormData) ==> formData == old(formData)
    {
      if !hasFormData {
        hasFormData := true;
        formData := DefaultRecord(today);
      }
    }

    /** Phase 0: client name, date and initial hypothesis. */
    method EnterBasics(clientName: string, date: string, hypothesis: string)
      requires Valid()
      modifies this
      ensures Valid() && hasFormData == old(hasFormData)
      ensures formData == Overwrite(old(formData), PhaseFields(0), [clientName, date, hypothesis])
    {
      formData := formData[ClientName := clientName];
      formData := formData[Date := date];
      formData := formData[Hypothesis := hypothesis];
      PhaseUpdate(old(formData), 0, [clientName, date, hypothesis]);
    }

    /** Phase 1: the bedrock values and their memo. */
    method EnterBedrock(values: string, notes: string)
      requires Valid()
      modifies this
      ensures Valid() && hasFormData == old(hasFormData)
      ensures formData == Overwrite(old(formData), PhaseFields(1), [values, notes])
    {
      formData := formData[BedrockValues := values];
      formData := formData[BedrockNotes := notes];
      PhaseUpdate(old(formData), 1, [values, notes]);
    }

    /** Phase 2: the sediment status and its memo. */
    method EnterSediment(status: string, notes: string)
      requires Valid()
      modifies this
      ensures Valid() && hasFormData == old(hasFormData)
      ensures formData == Overwrite(old(formData), PhaseFields(2), [status, notes])
    {
      formData := formData[SedimentStatus := status];
      formData := formData[SedimentNotes := notes];
      PhaseUpdate(old(formData), 2, [status, notes]);
    }

    /** Phase 3: the cliff, its reframing as a slope, and a memo. */
    method EnterTopography(cliff: string, slope: string, notes: string)
      requires Valid()
      modifies this
      ensures Valid() && hasFormData == old(hasFormData)
      ensures formData == Overwrite(old(formData), PhaseFields(3), [cliff, slope, notes])
    {
      formData := formData[TopoCliff := cliff];
      formData := formData[TopoSlope := slope];
      formData := formData[TopoNotes := notes];
      PhaseUpdate(old(formData), 3, [cliff, slope, notes]);
    }

    /** Phase 4: shows the initial hypothesis, then records the goal, the
        next action and a memo. */
    method EnterRoutes(goal: string, action: string, notes: string) returns (recalled: string)
      requires Valid()
      modifies this
      ensures Valid() && hasFormData == old(hasFormData)
      ensures recalled == old(formData)[Hypothesis] == formData[Hypothesis]
      ensures formData == Overwrite(old(formData), PhaseFields(4), [goal, action, notes])
    {
      recalled := formData[Hypothesis];
      formData := formData[RouteGoal := goal];
      formData := formData[RouteAction := action];
      formData := formData[RouteNotes := notes];
      PhaseUpdate(old(formData), 4, [goal, action, notes]);
      RoutesKeepHypothesis(old(formData), [goal, action, notes]);
    }

    /** Phase 5: records the closing message, then builds the report and the
        file name from the updated record, so the report shows it. */
    method EnterOutput(summary: string) returns (download: Download)
      requires Valid()
      modifies this
      ensures Valid() && hasFormData == old(hasFormData)
      ensures formData == Overwrite(old(formData), PhaseFields(5), [summary])
      ensures download == Download(Report(formData), FileName(formData))
      ensures Contains(download.text, summary)
    {
      formData := formData[Summary := summary];
      assert Valid() && formData == Overwrite(old(formData), PhaseFields(5), [summary]) by {
        PhaseUpdate(old(formData), 5, [summary]);
      }
      assert HasReportFields(formData) && formData[Summary] == summary by {
        WellFormedHasReportFields(formData);
      }
      download := Download(Report(formData), FileName(formData));
      assert Contains(download.text, summary) by {
        ReportShowsSummary(formData);
      }
    }

    /** One run of the page: guarded creation of the record, then the branch
        the menu selects, fed with the values its widgets return. */
    method Run(menu: string, today: string, answers: seq<string>) returns (download: Option<Download>)
      requires Invariant()
      requires |answers| == WidgetCount(menu)
      modifies this
      ensures Valid()
      ensures formData == NextRecord(StartRecord(old(Current()), today), menu, answers)
      ensures download.Some? <==> PhaseOf(menu) == Some(5)
      ensures download.Some? ==> download.value == Download(Report(formData), FileName(formData))
    {
      EnsureFormData(today);
      ghost var start := formData;
      download := None;
      if menu == Menu[0] {
        assert PhaseOf(menu) == Some(0) && answers == [answers[0], answers[1], answers[2]];
        EnterBasics(answers[0], answers[1], answers[2]);
      } else if menu == Menu[1] {
        assert PhaseOf(menu) == Some(1) && answers == [answers[0], answers[1]];
        EnterBedrock(answers[0], answers[1]);
      } else if menu == Menu[2] {
        assert PhaseOf(menu) == Some(2) && answers == [answers[0], answers[1]];
        EnterSediment(answers[0], answers[1]);
      } else if menu == Menu[3] {
        assert PhaseOf(menu) == Some(3) && answers == [answers[0], answers[1], answers[2]];
        EnterTopography(answers[0], answers[1], answers[2]);
      } else if menu == Menu[4] {
        assert PhaseOf(menu) == Some(4) && answers == [answers[0], answers[1], answers[2]];
        var _ := EnterRoutes(answers[0], answers[1], answers[2]);
      } else if menu == Menu[5] {
        assert PhaseOf(menu) == Some(5) && answers == [answers[0]];
        var d := EnterOutput(answers[0]);
        download := Some(d);
      } else {
        assert PhaseOf(menu) == None;
      }
      assert formData == NextRecord(start, menu, answers);
    }
  }

  /** Running the page when a record exists never resets it: only the
      selected phase's fields can differ afterwards. */
  lemma RunKeepsOtherFields(r: Record, menu: string, answers: seq<string>, k: Field)
    requires WellFormed(r) && |answers| == WidgetCount(menu)
    requires PhaseOf(menu).None? || k !in PhaseFields(PhaseOf(menu).value)
    ensures NextRecord(r, menu, answers)[k] == r[k]
  {
  }

  /** The selected phase's fields take the values of its widgets, in the
      order the branch renders them. */
  lemma RunWritesPhaseFields(r: Record, menu: string, answers: seq<string>, i: nat)
    requires WellFormed(r) && |answers| == WidgetCount(menu)
    requires PhaseOf(menu).Some? && i < |answers|
    ensures NextRecord(r, menu, answers)[PhaseFields(PhaseOf(menu).value)[i]] == answers[i]
  {
    PhaseUpdate(r, PhaseOf(menu).value, answers);
  }

  /** Creating the record is idempotent: starting from the record a run has
      just produced gives that record back. */
  lemma StartRecordIdempotent(existing: Option<Record>, today: string, later: string)
    requires existing.Some? ==> WellFormed(existing.value)
    ensures StartRecord(Some(StartRecord(existing, today)), later) == StartRecord(existing, today)
  {
  }
}
