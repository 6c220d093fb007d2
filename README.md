# Life Mapping questionnaire page — Dafny model

This project models the deterministic core of the "Life Mapping Console" page in `app.py`. That page is a coaching questionnaire. It keeps one record, `form_data`, in the session state. A sidebar menu picks one of six phases. The widgets of that phase write their values into the record. The last phase builds a plain-text "Strategy Map" report and a download file name from the record.

The model has these parts:

- `Schema` (schema.dfy): the fourteen record fields and the dictionary key of each, in `Key`. A record is a `map<Field, string>`. `DefaultRecord` is the record the page creates. The current date is the parameter `today`, because the page reads the clock.
- `Phases` (phases.dfy): the six menu labels and the phase each label selects. `PhaseFields` gives the fields each phase's widgets assign, in assignment order. `Overwrite` specifies a run of dictionary assignments.
- `Template` (template.dfy): an f-string with `{expr}` placeholders, seen as fixed text pieces with one value between each two. Lemmas say where each value and each piece lands in the result.
- `StrategyMap` (report.dfy): the report template (14 fixed pieces and 13 shown fields), `Report`, `FileName`, and lemmas about their content, order and file-name shape.
- `Session` (session.dfy): the class `Page` holds the session state. The field `hasFormData` says whether `form_data` exists yet, and `formData` is the record. There is one method per phase branch, which assigns the fields in place. `Run` is one pass over the page: guarded creation, then the branch the menu selects. Pure counterparts `StartRecord` and `NextRecord` specify `Run`.

The report header writes `■ Client: {name} 様`, puts a `[Memo]` line right before each of the three notes fields it shows, and never shows `route_notes`.

## Model

| member | source | states |
|---|---|---|
| Schema.Key | app.py:8-29 | the dictionary key of each field; each key has at least four characters, its first and last characters are lower-case letters, and KeyInjective shows that no two fields share a key |
| Schema.Fields | app.py:8-29 | the fields in the order the dictionary literal lists them |
| Schema.KeyInjective | app.py:8-29 | distinct fields have distinct dictionary keys, so the field enumeration stands for the string keys faithfully |
| Schema.FieldsEnumerate | app.py:8-29 | the field list names every field of the record, each exactly once |
| Schema.AllListedFields | app.py:8-29 | a record holding every listed key holds the whole schema |
| Schema.DefaultRecord | app.py:8-29 | the created record holds every field; `date` is today's date; every other field is the empty string |
| Schema.DefaultRecordSize | app.py:8-29 | the created record has exactly fourteen entries, exactly under the listed keys |
| Phases.Menu | app.py:40 | the six sidebar labels, in order; phase p is label p |
| Phases.PhaseOf | app.py:40-214 | a menu value selects phase p exactly when it equals label p; a value outside the labels selects no phase |
| Phases.PhaseOfOption | app.py:40 | every label selects its own phase, because the labels are distinct |
| Phases.PhaseFields | app.py:76-223 | the fields each branch assigns, in assignment order: one to three fields, none assigned twice; PhaseUpdate states what assigning them does |
| Phases.WidgetCount | app.py:70-223 | how many widget values the selected branch stores in the record (the preview text area's value is discarded): at most three, and none exactly when the menu value matches no label |
| Phases.PhasesPartitionSchema | app.py:70-223 | the phases, in menu order, assign the record's fields in schema order, each exactly once |
| Phases.Owner | app.py:70-223 | every field is assigned by some phase's branch |
| Phases.PhaseFieldsOwned | app.py:70-223 | a field is assigned by its owner's branch and by no other branch |
| Phases.Overwrite | app.py:76-223 | sequential assignments add the assigned keys; unassigned keys keep their values; the last assignment to a key wins |
| Phases.PhaseUpdate | app.py:76-223 | a phase update keeps the record well formed, gives each of its fields its widget's value, and leaves every other field unchanged |
| Phases.RoutesKeepHypothesis | app.py:191-211 | the routes phase displays `initial_hypothesis` but does not change it |
| Template.Interleave | app.py:226-282 | how an f-string is evaluated: fixed pieces with one value between each two; it opens with the first piece, and InterleaveAt and InterleaveEnd say where every value and piece lands |
| Template.InterleaveSplit | app.py:226-282 | the f-string's result is the text before value j, then value j, then the rest of the template |
| Template.BeforeNext | app.py:226-282 | the text before value j+1 is the text before value j, then value j, then piece j+1 |
| Template.InterleaveAt | app.py:226-282 | value j is found verbatim where it begins, and the next fixed piece follows it at once |
| Template.InterleaveEnd | app.py:226-282 | the result ends with the last fixed piece, with the last value just before it; its length is the last value's offset plus that value and the last piece |
| Template.OffsetFirst | app.py:226-282 | value 0 begins right after the first fixed piece |
| Template.OccursExtend | app.py:226-282 | helper for the report lemmas, a general fact about strings: text added after a string keeps every occurrence in it |
| Template.OccursShift | app.py:226-282 | helper for the report lemmas, a general fact about strings: text added before a string moves every occurrence by its length |
| Template.OccursRight | app.py:226-282 | helper for the report lemmas, a general fact about strings: the right operand of a concatenation occurs right after the left one |
| Template.OccursPrefix | app.py:226-282 | helper for the report lemmas, a general fact about strings: an occurrence of a+b starts with an occurrence of a |
| Template.OccursSuffix | app.py:226-282 | helper for the report lemmas, a general fact about strings: an occurrence of a+b contains b right after a |
| Template.OccursJoin | app.py:226-282 | helper for the report lemmas, a general fact about strings: adjacent occurrences of a and b form an occurrence of a+b |
| Template.OccursMiddle | app.py:226-282 | helper for the report lemmas, a general fact about strings: in a+b+c, b follows a and the start of c follows b |
| Template.OccursLastTwo | app.py:226-282 | helper for the report lemmas, a general fact about strings: in a+b+c, c closes the string with b just before it |
| StrategyMap.ReportText | app.py:226-282 | the template's fourteen fixed pieces of text, character for character; piece j comes before shown field j |
| StrategyMap.ReportFields | app.py:230-279 | the fields the placeholders show, in template order: every field except `route_notes` |
| StrategyMap.Report | app.py:226-282 | the report text: it opens with the title banners and the client label; ReportLayout, ReportFrame and ReportNamesClient state its whole layout |
| StrategyMap.ReportValues | app.py:230-279 | the report fills one placeholder per shown field |
| StrategyMap.ReportOmitsOnlyRouteNotes | app.py:226-282 | the report shows every field of the record except `route_notes` |
| StrategyMap.WellFormedHasReportFields | app.py:226-282 | every record the page creates can be reported on |
| StrategyMap.ReportTextNonEmpty | app.py:226-282 | every fixed piece of the template is non-empty |
| StrategyMap.ReportLayout | app.py:226-282 | field 0 begins right after the opening piece; each shown field appears verbatim at its position, its fixed label text follows at once, and the next field begins right after that text, so nothing else stands between the pieces |
| StrategyMap.ReportFieldsOrdered | app.py:226-282 | the shown fields come strictly in the template's order, each separated from the next by non-empty fixed text |
| StrategyMap.ReportShowsField | app.py:230-279 | every shown field's value occurs in the report |
| StrategyMap.ReportFrame | app.py:226-282 | the report opens with the title banners and client label and closes with the banner, with the summary just before it; its length is the summary's position plus the summary and the closing banner, so nothing follows the banner |
| StrategyMap.ReportShowsSummary | app.py:279 | the report contains the summary |
| StrategyMap.ReportNamesClient | app.py:230 | the report contains "■ Client: ", then the client name, then " 様" |
| StrategyMap.ReportDependsOnlyOnShownFields | app.py:226-282 | records that agree on the shown fields give the same report |
| StrategyMap.ReportIgnoresRouteNotes | app.py:268-279 | changing `route_notes` never changes the report |
| StrategyMap.FileName | app.py:286 | the download file name: it starts with "StrategyMap_" and ends in ".txt"; FileNameShape states its whole layout |
| StrategyMap.FileNameShape | app.py:286 | the file name is "StrategyMap_", then the client name, then "_" and the date, then ".txt", with length 17 plus name and date |
| StrategyMap.FileNameOfIdentity | app.py:286 | equal client name and date give equal file names |
| StrategyMap.FileNameDeterminesName | app.py:286 | for one date, the file name determines the client name |
| StrategyMap.FileNameCollides | app.py:286 | across dates it does not: client "a_b" on date "c" and client "a" on date "b_c" get the same file name |
| Session.StartRecord | app.py:7-29 | a run starts from the stored record whenever one exists, and otherwise from the default record dated today |
| Session.NextRecord | app.py:70-223 | a phase update keeps the record well formed; a menu value matching no branch leaves it unchanged |
| Session.RunKeepsOtherFields | app.py:70-223 | a run changes no field outside the selected phase |
| Session.RunWritesPhaseFields | app.py:76-223 | a run gives each field of the selected phase its widget's value |
| Session.StartRecordIdempotent | app.py:7 | creation is guarded, so starting again from a created record returns that record unchanged |
| Session.Page.Current | app.py:7 | the record is present exactly when the session holds `form_data` |
| Session.Page.constructor | app.py:7 | a new session holds no record, and the session invariant holds |
| Session.Page.EnsureFormData | app.py:7-29 | creates the default record only when none exists; an existing record is left as it was |
| Session.Page.EnterBasics | app.py:76-94 | assigns client name, date and hypothesis and nothing else |
| Session.Page.EnterBedrock | app.py:109-119 | assigns the two bedrock fields and nothing else |
| Session.Page.EnterSediment | app.py:134-144 | assigns the two sediment fields and nothing else |
| Session.Page.EnterTopography | app.py:160-176 | assigns the three topography fields and nothing else |
| Session.Page.EnterRoutes | app.py:191-211 | returns the stored hypothesis for display, which stays unchanged, and assigns the three route fields |
| Session.Page.EnterOutput | app.py:218-286 | assigns the summary first, then builds report and file name from the updated record, so the report contains the new summary |
| Session.Page.Run | app.py:7-286 | one pass equals guarded creation followed by the selected phase's update; only the output phase offers a download, made of the report and the file name of the final record |

## Left out

- Streamlit rendering is not modelled: titles, info boxes, sidebar, columns, expanders, `section_header`, prompt and placeholder wording, and the reference card. Only the values the widgets return matter, and they are method parameters (`answers` in `Run`).
- `download_button` and the preview text area are not modelled. The output phase returns the text and file name they would receive, as a `Download` value.
- `datetime.now().strftime("%Y-%m-%d")` reads the clock. It is the parameter `today`, which is not checked to be a calendar date, like in the code.
- The line showing the hypothesis in the routes phase is not modelled as text. `Session.Page.EnterRoutes` returns the stored value that this line shows.
- Streamlit's rerun cycle and session lifetime are not modelled. One `Run` is a single pass over the page.
- The dictionary's string keys are the datatype `Schema.Field`, with `Schema.Key` giving each key string. Keys outside the schema cannot be written by this page, so they cannot occur.
- Persistence, autosave, the archive, loading and merging with defaults, deletion, CSV and PDF export, and badge splitting are not modelled, because this source has none of them.
