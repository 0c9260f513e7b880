/** `travel_planner`: collect the recommendations, divide them over the time slots, plan
    the map, format the recommendations for the language model and take its reply, or
    the fallback message when the reply is empty.

    The language model is not modelled: its reply text is an input. The city and the
    joined time labels only reach the prompt template and the search queries, which are
    not modelled either. */
module Planner {
  import opened Wrappers
  import opened Records
  import opened TimeSlots
  import opened MapPlan
  import opened Prompt

  /** The text results of one planning request: the itinerary shown to the user and the
      recommendations block that was put into the prompt. */
  datatype Plan = Plan(itinerary: string, recommendations: string)

  /** The allocation the planner computes, or the exception that ends it. */
  function Allocate(replies: seq<SearchReply>, times: seq<Label>, apiKey: string): (r: Result<Allocation>)
    ensures r.Ok? ==> r.value.Valid()
  {
    var recs :- Collect(replies, apiKey);
    var a :- Divide(recs, times);
    DivideValid(recs, times);
    Ok(a)
  }

  /** The texts the planner returns, or the exception that ends it. */
  function PlanOutcome(replies: seq<SearchReply>, times: seq<Label>, apiKey: string, content: string)
    : (r: Result<Plan>)
    ensures r.Ok? <==> Allocate(replies, times, apiKey).Ok?
    ensures r.Ok? ==> r.value.itinerary != "" && (content != "" ==> r.value.itinerary == content)
  {
    var a :- Allocate(replies, times, apiKey);
    Ok(Plan(Itinerary(content), FormatRecommendations(a)))
  }

  /** A request fails exactly when collection raises, or when records were collected but
      there is no time slot, which raises ZeroDivisionError; otherwise the itinerary is
      never empty, and the block is empty exactly when there is no time slot. */
  lemma PlannerOutcome(replies: seq<SearchReply>, times: seq<Label>, apiKey: string, content: string)
    ensures var r := PlanOutcome(replies, times, apiKey, content);
      && (r.Err? <==> Collect(replies, apiKey).Err? || (Collect(replies, apiKey).value != [] && times == []))
      && (Collect(replies, apiKey).Ok? && r.Err? ==> r.error == ZeroDivisionError)
      && (r.Ok? ==> r.value.itinerary != "" && (r.value.recommendations == "" <==> times == []))
  {
    var collected := Collect(replies, apiKey);
    if collected.Ok? && Divide(collected.value, times).Ok? {
      var a := Divide(collected.value, times).value;
      BlockLayout(a.keys, a.slots);
      if times != [] {
        assert times[0] in a.keys;
      }
    }
  }

  /** The whole request: each step runs only when the ones before it returned, and the
      map is produced only for a request that does not fail. */
  method TravelPlanner(replies: seq<SearchReply>, times: seq<Label>, apiKey: string, content: string)
    returns (r: Result<Plan>, m: TravelMap?)
    ensures r == PlanOutcome(replies, times, apiKey, content)
    ensures r.Ok? <==> m != null
    ensures m != null ==> var a := Allocate(replies, times, apiKey).value;
      && fresh(m) && m.center == CenterOf(a) && m.zoom == ZoomStart && m.markers == Markers(a)
  {
    m := null;
    var recs := CollectRecommendations(replies, apiKey);
    if recs.Err? {
      return Err(recs.error), m;
    }
    var slots := DivideIntoTimeSlots(recs.value, times);
    if slots.Err? {
      return Err(slots.error), m;
    }
    DivideValid(recs.value, times);
    m := PlotMap(slots.value);
    var block := FormatRecommendations(slots.value);
    r := Ok(Plan(Itinerary(content), block));
  }
}
