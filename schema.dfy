/** The questionnaire record `form_data` of the Life Mapping page: a dictionary
    with a fixed set of text fields, one group per phase of the session. */
module Schema {

  /** The record's fields, one constructor per dictionary key. */
  datatype Field =
    | ClientName | Date
    | Hypothesis
    | BedrockValues | BedrockNotes
    | SedimentStatus | SedimentNotes
    | TopoCliff | TopoSlope | TopoNotes
    | RouteGoal | RouteAction | RouteNotes
    | Summary

  /** The dictionary key under which the page stores each field: a lower-case
      name that begins and ends with a letter. */
  function Key(f: Field): (k: string)
    ensures 4 <= |k| && 'a' <= k[0] <= 'z' && 'a' <= k[|k| - 1] <= 'z'
  {
    match f
    case ClientName => "client_name"
    case Date => "date"
    case Hypothesis => "initial_hypothesis"
    case BedrockValues => "bedrock_values"
    case BedrockNotes => "bedrock_notes"
    case SedimentStatus => "sediment_status"
    case SedimentNotes => "sediment_notes"
    case TopoCliff => "topo_cliff"
    case TopoSlope => "topo_slope"
    case TopoNotes => "topo_notes"
    case RouteGoal => "route_goal"
    case RouteAction => "route_action"
    case RouteNotes => "route_notes"
    case Summary => "summary"
  }

  /** Distinct fields have distinct keys, so a map over Field is a faithful
      picture of the string-keyed dictionary. */
  lemma KeyInjective(f: Field, g: Field)
    requires Key(f) == Key(g)
    ensures f == g
  {
  }

  /** The fields, in the order the record's literal lists them. */
  const Fields: seq<Field> := [
    ClientName, Date,
    Hypothesis,
    BedrockValues, BedrockNotes,
    SedimentStatus, SedimentNotes,
    TopoCliff, TopoSlope, TopoNotes,
    RouteGoal, RouteAction, RouteNotes,
    Summary
  ]

  /** Where each field stands in Fields. */
  function Position(f: Field): (i: nat)
    ensures i < |Fields| && Fields[i] == f
  {
    match f
    case ClientName => 0
    case Date => 1
    case Hypothesis => 2
    case BedrockValues => 3
    case BedrockNotes => 4
    case SedimentStatus => 5
    case SedimentNotes => 6
    case TopoCliff => 7
    case TopoSlope => 8
    case TopoNotes => 9
    case RouteGoal => 10
    case RouteAction => 11
    case RouteNotes => 12
    case Summary => 13
  }

  /** Fields lists every field exactly once. */
  lemma FieldsEnumerate()
    ensures forall f: Field :: f in Fields
    ensures forall i, j :: 0 <= i < j < |Fields| ==> Fields[i] != Fields[j]
  {
    forall f: Field ensures f in Fields {
      assert Fields[Position(f)] == f;
    }
  }

  /** A record maps each field to the text entered for it. */
  type Record = map<Field, string>

  /** A record holds every field of the schema (and, by its type, no other). */
  ghost predicate WellFormed(r: Record) {
    forall f: Field :: f in r
  }

  /** A record holding every field that Fields lists is well formed. */
  lemma AllListedFields(r: Record)
    requires forall i :: 0 <= i < |Fields| ==> Fields[i] in r
    ensures WellFormed(r)
  {
    forall f: Field ensures f in r {
      assert Fields[Position(f)] == f;
    }
  }

  /** The record created when the session has none yet: every field empty
      except the date, which is today's date as the caller formats it. */
  function DefaultRecord(today: string): (r: Record)
    ensures WellFormed(r)
    ensures r[Date] == today
    ensures forall f :: f in r && f != Date ==> r[f] == ""
  {
    var r := map[
      ClientName := "",
      Date := today,
      Hypothesis := "",
      BedrockValues := "",
      BedrockNotes := "",
      SedimentStatus := "",
      SedimentNotes := "",
      TopoCliff := "",
      TopoSlope := "",
      TopoNotes := "",
      RouteGoal := "",
      RouteAction := "",
      RouteNotes := "",
      Summary := ""
    ];
    AllListedFields(r);
    r
  }

  /** The default record has exactly fourteen entries, under the keys listed
      in Fields. */
  lemma DefaultRecordSize(today: string)
    ensures |DefaultRecord(today)| == |Fields| == 14
    ensures forall f :: f in DefaultRecord(today) <==> f in Fields
  {
    var r := DefaultRecord(today);
    FieldsEnumerate();
    assert r.Keys == set f | f in Fields;
    SetOfDistinct(Fields);
  }

  /** A sequence without repetitions has as many distinct elements as entries. */
  lemma {:induction false} SetOfDistinct(s: seq<Field>)
    requires forall i, j :: 0 <= i < j < |s| ==> s[i] != s[j]
    ensures |set f | f in s| == |s|
  {
    if s != [] {
      SetOfDistinct(s[1..]);
      assert (set f | f in s) == (set f | f in s[1..]) + {s[0]};
      assert s[0] !in s[1..];
    }
  }
}
