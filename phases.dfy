/** The six phases of the session, selected by the sidebar menu, and the
    record fields each phase's widgets write. */
module Phases {
  import opened Schema

  datatype Option<T> = None | Some(value: T)

  /** The sidebar radio's options; phase p is at index p. */
  const Menu: seq<string> := [
    "0. 基本情報 & 仮説",
    "1. 地盤調査 (Bedrock)",
    "2. 堆積物確認 (Sediment)",
    "3. 地形測量 (Topography)",
    "4. 航路策定 (Routes)",
    "5. アウトプット生成"
  ]

  /** The phase whose branch a menu value selects, tried in the page's
      order; a value matching no option selects none. */
  function PhaseOf(menu: string): (p: Option<nat>)
    ensures p.Some? ==> p.value < |Menu| && Menu[p.value] == menu
    ensures p.None? <==> menu !in Menu
  {
    if menu == Menu[0] then Some(0)
    else if menu == Menu[1] then Some(1)
    else if menu == Menu[2] then Some(2)
    else if menu == Menu[3] then Some(3)
    else if menu == Menu[4] then Some(4)
    else if menu == Menu[5] then Some(5)
    else None
  }

  /** Choosing option p always selects phase p: the options are distinct. */
  lemma PhaseOfOption(p: nat)
    requires p < |Menu|
    ensures PhaseOf(Menu[p]) == Some(p)
  {
  }

  /** The fields phase p's widgets assign, in the order they are assigned. */
  function PhaseFields(p: nat): (fs: seq<Field>)
    requires p < |Menu|
    ensures 0 < |fs| <= 3
    ensures forall i :: 0 <= i < |fs| ==> fs[i] !in fs[i + 1..]
  {
    match p
    case 0 => [ClientName, Date, Hypothesis]
    case 1 => [BedrockValues, BedrockNotes]
    case 2 => [SedimentStatus, SedimentNotes]
    case 3 => [TopoCliff, TopoSlope, TopoNotes]
    case 4 => [RouteGoal, RouteAction, RouteNotes]
    case _ => [Summary]
  }

  /** How many widget values the branch a menu value selects stores in the
      record. The output branch also renders a preview text area, whose
      return value it discards. */
  function WidgetCount(menu: string): (n: nat)
    ensures n <= 3
    ensures n > 0 <==> menu in Menu
  {
    match PhaseOf(menu)
    case Some(p) => |PhaseFields(p)|
    case None => 0
  }

  /** The phases, taken in menu order, assign the schema's fields in the
      schema's own order, each exactly once. */
  lemma PhasesPartitionSchema()
    ensures Fields == PhaseFields(0) + PhaseFields(1) + PhaseFields(2)
                  + PhaseFields(3) + PhaseFields(4) + PhaseFields(5)
  {
  }

  /** The phase whose branch writes a field. */
  function Owner(f: Field): (p: nat)
    ensures p < |Menu| && f in PhaseFields(p)
  {
    match f
    case ClientName | Date | Hypothesis => 0
    case BedrockValues | BedrockNotes => 1
    case SedimentStatus | SedimentNotes => 2
    case TopoCliff | TopoSlope | TopoNotes => 3
    case RouteGoal | RouteAction | RouteNotes => 4
    case Summary => 5
  }

  /** A field is written by its owner's branch and by no other, so no field
      is written by two phases. */
  lemma PhaseFieldsOwned(p: nat, f: Field)
    requires p < |Menu|
    ensures f in PhaseFields(p) <==> Owner(f) == p
  {
  }

  /** The record after assigning vals[i] to field ks[i], one after another. */
  function Overwrite(r: Record, ks: seq<Field>, vals: seq<string>): (r': Record)
    requires |ks| == |vals|
    ensures forall k :: k in r' <==> k in r || k in ks
    ensures forall k :: k in r && k !in ks ==> r'[k] == r[k]
    ensures forall i :: 0 <= i < |ks| && ks[i] !in ks[i + 1..] ==> r'[ks[i]] == vals[i]
    decreases |ks|
  {
    if ks == [] then r
    else
      var r' := Overwrite(r[ks[0] := vals[0]], ks[1..], vals[1..]);
      assert forall i :: 1 <= i < |ks| ==> ks[1..][i - 1] == ks[i] && ks[1..][i..] == ks[i + 1..];
      r'
  }

  /** A phase update keeps the record well formed, writes each of its own
      fields with the value of the widget that edits it, and leaves every
      other field as it was. */
  lemma PhaseUpdate(r: Record, p: nat, vals: seq<string>)
    requires WellFormed(r) && p < |Menu| && |vals| == |PhaseFields(p)|
    ensures WellFormed(Overwrite(r, PhaseFields(p), vals))
    ensures forall i :: 0 <= i < |vals| ==> Overwrite(r, PhaseFields(p), vals)[PhaseFields(p)[i]] == vals[i]
    ensures forall k :: k in r && k !in PhaseFields(p) ==> Overwrite(r, PhaseFields(p), vals)[k] == r[k]
  {
  }

  /** The routes phase shows the initial hypothesis but never writes it. */
  lemma RoutesKeepHypothesis(r: Record, vals: seq<string>)
    requires WellFormed(r) && |vals| == |PhaseFields(4)|
    ensures Overwrite(r, PhaseFields(4), vals)[Hypothesis] == r[Hypothesis]
  {
    assert Hypothesis !in PhaseFields(4);
  }
}
