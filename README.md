# Travel planner, modelled in Dafny

This project models the core of a travel planner (`app.py`). For one request it:

- collects up to five places for each of the user's interests from a place-search service;
- enriches each place with a photo URL and with the distance and duration a distance service reports;
- hands the places out to the user's time slots in round-robin order;
- plans a map with one colored marker per place, centred on the first place;
- formats the places into a text block for a language model, and returns the model's
  reply as the itinerary, or a fixed message when the reply is empty.

The exceptions app.py itself raises on the replies' contents are part of the model, as the
`Err` of a `Result`:

- a `KeyError` or `IndexError` from a distance reply or a photo list that lacks an entry;
- the `ZeroDivisionError` of round robin over no time slots.

The modules are:

- `Wrappers` (wrappers.dfy): `Option` and `Result`, and the exceptions.
- `Records` (records.dfy): building records from the service replies.
- `TimeSlots` (time_slots.dfy): the time-slot dict and round robin.
- `MapPlan` (map_plan.dfy): the map's center, colors and markers, and a `TravelMap` class
  whose marker list the plotting loop extends in place.
- `Lines` (lines.dfy): Python's `str.join` and `str.split` on text, and how they undo each
  other.
- `Prompt` (prompt.dfy): the recommendations block and the itinerary fallback.
- `Planner` (planner.dfy): the whole request.

The loops of the code are methods proved against specification functions:

| method | specification function |
|---|---|
| `CollectRecommendations` | `Collect` |
| `BuildRecords` | `BuildAll` |
| `DivideIntoTimeSlots` | `Divide` |
| `FindCenter` | `CenterOf` |
| `PlotMap`, `AddAllMarkers` | `CenterOf`, `Markers` |

The properties are proved as lemmas about those functions.

A Python dict keeps its keys in insertion order. It is modelled as `Allocation(keys, slots)`:
the keys in order of first insertion (`Dedup`) and a map from key to list. Duplicate time
labels therefore collapse into one slot, as they do in the dict.

Behaviour of the code worth knowing:

- app.py never checks coordinates. In the model every record gets a marker and can be the
  center, whatever its latitude and longitude are (`MapPlan.OneMarkerPerRecord`,
  `MapPlan.CenterOfDivide`).
- An empty list of time slots is not rejected up front. With no records it yields an empty
  dict. With records, the first `i % len(times)` raises `ZeroDivisionError`
  (`TimeSlots.Divide`, `Planner.PlannerOutcome`).
- A missing rating becomes `"N/A"`.
- A failed distance lookup is not absorbed. A reply without `rows`, a first row without an
  `elements` key or with an empty one, or an element without `distance` or `duration` raises
  and ends the whole request (`Records.DistanceTexts`, `Records.CollectFailsFromPrefix`). Only
  a reply with an empty `rows` list gives `"N/A"`.
- An empty `photos` list raises `IndexError`. A missing `photos` key gives the placeholder
  image (`Records.PhotoReference`).

`DivideIntoTimeSlots` tests for an empty list of time slots before its loop. This is
equivalent to the code, whose loop raises on its first pass in that case and never runs
when there are no records.

## Model

| member | source | states |
|---|---|---|
| Records.PhotoReference | app.py:65 | The first photo entry's reference, `""` when the entry has none or `photos` is absent; `IndexError` exactly when `photos` is present but empty |
| Records.PhotoUrl | app.py:66-70 | The placeholder image exactly when the reference is empty; otherwise the photo endpoint URL followed by the reference, `&key=` and the key |
| Records.DistanceTexts | app.py:78-81 | Both texts `"N/A"` for empty rows, the first element's distance and duration texts otherwise; it raises exactly when `rows`, the first row's `elements`, the first element, or either text is missing: `IndexError` for an empty `elements` list, `KeyError` for a missing key |
| Records.BuildRecord | app.py:59-92 | Building one record raises exactly when the photo list is empty or the distance texts raise |
| Records.RecordDefaults | app.py:59-92 | A built record keeps name, address and coordinates; its rating is `"N/A"` when absent and the place's own otherwise; its photo is the placeholder iff the reference is empty, and otherwise the photo URL built from the reference and the key; its distance texts are as the reply gives them |
| Records.Capped | app.py:58 | `places[:5]`: a prefix of the places, of length five, or all of them when there are at most five |
| Records.BuildAll | app.py:58-92 | The batch succeeds iff no place raises, and then has one record per place |
| Records.BuildAllAt | app.py:58-92 | Record `j` of a batch is the record built from place `j` |
| Records.BuildRecords | app.py:58-92 | The inner loop over the first five places computes `BuildAll`, stopping at the first exception |
| Records.CollectInterest | app.py:55-58 | One interest adds nothing when the search did not answer 200, at most five records otherwise, and raises exactly when the search answered 200 and one of its first five places raises |
| Records.Collect | app.py:44-93 | The records of all interests, at most five per interest |
| Records.CollectSucceeds | app.py:49-93 | The collection succeeds exactly when every interest's step succeeds |
| Records.CollectRecommendations | app.py:44-93 | The loop over the interests computes `Collect`: each interest's records appended in order, the first exception ending it |
| Records.BuildAllFailsFromPrefix | app.py:58-92 | A place that raises makes the whole batch raise the same exception |
| Records.CollectFailsFromPrefix | app.py:49-93 | An interest that raises makes the whole collection raise the same exception |
| Records.CollectAppend | app.py:49-93 | Collecting two runs of interests gives the first run's records followed by the second's; the first exception wins |
| Records.FailedSearchContributesNothing | app.py:55 | A search that did not answer 200 adds no record and changes nothing, wherever it stands |
| Records.OneInterest | app.py:55-92 | One interest gives nothing for a failed search, otherwise one record per place among its first five, each built from that place, in result order |
| TimeSlots.Dedup | app.py:97 | The dict's keys: each label once, and exactly the labels |
| TimeSlots.DedupOfDistinct | app.py:97 | With distinct labels the keys are the labels in the given order |
| TimeSlots.DedupFirst | app.py:97 | The first label is the first key |
| TimeSlots.EmptySlots | app.py:97 | The comprehension maps every label, and only the labels, to an empty list |
| TimeSlots.Divide | app.py:96-101 | Round robin fails iff there are no time slots but there are records, and then with `ZeroDivisionError` |
| TimeSlots.DivideValid | app.py:96-101 | The returned dict lists each key once, and its keys are exactly the labels |
| TimeSlots.DivideIntoTimeSlots | app.py:96-101 | The comprehension and the loop compute `Divide`, including the `ZeroDivisionError` |
| TimeSlots.DivideKeys | app.py:97 | Every label is a key, also one that gets no record; with distinct labels the keys are the labels in order |
| TimeSlots.Partition | app.py:96-101 | The slots, flattened in key order, hold exactly the records as a multiset: none dropped, none duplicated |
| TimeSlots.DivideSlot | app.py:98-100 | `Divide`'s definition read at one slot: slot `t` holds the records whose round-robin label is `t` |
| TimeSlots.RecordPlacement | app.py:99-100 | Record `i` lands in slot `times[i % len(times)]`, right after the records that slot received before it |
| TimeSlots.Origins | app.py:98-99 | Exactly the input positions below `n` labelled `t`: every listed position is labelled `t`, every position labelled `t` is listed, in strictly increasing order |
| TimeSlots.PickedOrigins | app.py:98-100 | The records labelled `t` are the records at those positions, one each |
| TimeSlots.SlotOrder | app.py:98-100 | Entry `p` of slot `t` is the record at an input position `i` with `times[i % len(times)] == t`, of two entries `p < q` the first comes from the earlier input position, and every input position labelled `t` supplies an entry |
| TimeSlots.PickedRoundRobin | app.py:98-100 | With distinct labels, slot `j` of `m` receives records `j`, `j+m`, `j+2m`, ..., which makes `n / m` records, plus one when `j < n % m` |
| TimeSlots.RoundRobin | app.py:96-101 | With distinct labels the keys are the labels; each slot holds the floor or the ceiling of `n / m` records, and any two slots differ by at most one |
| TimeSlots.TwoSlotScenario | app.py:96-101 | Four records over Morning and Afternoon: the first and third go to Morning, the second and fourth to Afternoon |
| MapPlan.FirstFilled | app.py:107-110 | The position of the first non-empty slot in key order: every earlier slot is empty |
| MapPlan.CenterOf | app.py:106-114 | The default center when every slot is empty, otherwise the location of the first record of a non-empty slot |
| MapPlan.FindCenter | app.py:106-114 | The scan with `break` computes `CenterOf`: the first record of the first non-empty slot, else the default center (Rome) |
| MapPlan.CenterIsFirstRecord | app.py:106-114 | The center is the location of the first record in key order, and the default exactly when no slot holds a record |
| MapPlan.CenterOfDivide | app.py:106-114 | After round robin the map is centred on the first collected record, or on the default when nothing was collected |
| MapPlan.SlotColors | app.py:120-121 | Every slot, and only the slots, gets a palette color |
| MapPlan.SlotColorAt | app.py:120-121 | The slot at position `k` gets `colors[k % 4]` |
| MapPlan.SlotMarkers | app.py:125-142 | One marker per record of the slot, in list order, at the record's location, in the slot's color |
| MapPlan.Markers | app.py:120-142 | Every marker shows a record of its own slot, stands at that record's location and has a palette color |
| MapPlan.MarkersFollowRecords | app.py:124-142 | The markers show the records in slot order, one each |
| MapPlan.MarkersOfAllocation | app.py:120-142 | The markers show exactly the flattened records, and a marker in the slot at position `k` has color `colors[k % 4]` |
| MapPlan.OneMarkerPerRecord | app.py:124-142 | After round robin there are as many markers as collected records, showing each record as often as it was collected |
| MapPlan.TravelMap.constructor | app.py:117 | A new map has the given center, zoom 13 and no markers |
| MapPlan.TravelMap.AddMarker | app.py:138-142 | Adding a marker appends it and leaves center and zoom unchanged |
| MapPlan.AddSlotMarkers | app.py:125-142 | The inner loop appends the slot's markers and changes nothing else |
| MapPlan.AddAllMarkers | app.py:124-142 | The outer loop appends the markers of all slots in key order and changes nothing else |
| MapPlan.PlotMap | app.py:104-142 | The new map has the scanned center, zoom 13, and the markers of all slots in key order |
| Lines.JoinSplit | app.py:157-160 | Splitting a text at a character and joining it back gives the text |
| Lines.SplitJoin | app.py:157-160 | Lines without the character, joined by it, split back into the same lines |
| Prompt.RecLine | app.py:158 | A record's line is a list item (`- `), and it holds no line break when the printed fields hold none |
| Prompt.Section | app.py:158 | A slot's section starts with the header `slot:` and a newline, and is exactly that for a slot without records |
| Prompt.SectionLayout | app.py:158 | A section is its header and record lines joined by newlines |
| Prompt.FormatRecommendations | app.py:157-160 | The block is empty exactly when there is no time slot |
| Prompt.BlockLayout | app.py:157-160 | The block is the newline-join of all sections' lines, and it is empty exactly when there is no slot |
| Prompt.FormatReadsBack | app.py:157-160 | With single-line texts, the block split at newlines reads back, slot by slot in key order, as the header `slot:` and then one line per record, or one empty line for an empty slot |
| Prompt.Itinerary | app.py:168 | The itinerary is never empty: the model's reply when it has text, the fixed fallback message otherwise |
| Planner.Allocate | app.py:150-151 | The allocation of a request that does not raise is a well-formed dict |
| Planner.PlanOutcome | app.py:148-171 | A request returns texts exactly when collection and allocation do not raise, and its itinerary is then never empty and is the model's reply when that has text |
| Planner.PlannerOutcome | app.py:148-171 | A request fails iff collection raises, or records were collected but there is no time slot (then with `ZeroDivisionError`); otherwise the itinerary is not empty and the block is empty iff there is no time slot |
| Planner.TravelPlanner | app.py:148-171 | The request's steps in order compute `PlanOutcome`, and a map is produced exactly for a request that does not fail, with zoom 13 and centred and marked as the allocation says |

## Left out

- The HTTP requests to the search and distance services are left out. Their replies are
  inputs (`SearchReply` per interest, `DistanceReply` per place). The query strings, and with
  them the city, are not modelled.
- The language-model call and the prompt template are left out, including `", ".join(times)`.
  The reply's content is an input.
- The map library's rendering is left out: tiles, the popup HTML, `folium.Popup`/`Icon` and
  `_repr_html_`. A marker records the location, color, slot and record its popup shows.
- folium.Map and folium.Marker validate their location and raise `ValueError` for a `None`
  coordinate (app.py:117, app.py:138-139). The model treats map construction as total, so a
  place without coordinates still centres the map and gets a marker.
- The Gradio interface, `.env` loading and the unused `PlannerState` type are left out. The
  API key is a parameter.
- Exceptions that depend on more than the replies' keys and lists are left out, because the
  replies are modelled as already-decoded records of the expected shape. These are: a reply
  body that is not JSON (`.json()` at app.py:56 and app.py:79); a JSON value of an unexpected
  type, such as `"geometry": null`, which makes app.py:62 raise `AttributeError`; and the
  network errors of `requests.get`.
- Ratings are carried as their printed text. Latitude and longitude are carried as optional
  reals and never computed on, so floating point does not enter the model.
- Prompt.FormatReadsBack: states the block's layout only when no label or printed field holds
  a line break, because otherwise the newline-split does not separate the records.
