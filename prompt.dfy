/** The text the planner builds for the language model: one section per time slot with
    one line per recommendation, and the rule that turns an empty model reply into a
    fixed message. */
module Prompt {
  import opened Wrappers
  import opened Records
  import opened TimeSlots
  import opened Lines

  const NoItinerary: string := "The model could not generate an itinerary."
  const NewLine: char := '\n'

  // ---------------------------------------------------------------------------
  // The recommendations block
  // ---------------------------------------------------------------------------

  /** How an f-string renders a value that may be None. */
  function Show(s: Option<string>): string {
    match s
    case Some(v) => v
    case None => "None"
  }

  /** The line of one recommendation: a list item, single-line when the printed fields
      are. */
  function RecLine(rec: Recommendation): (line: string)
    ensures |line| >= 2 && line[..2] == "- "
    ensures (&& NewLine !in Show(rec.name) && NewLine !in Show(rec.address) && NewLine !in rec.rating
             && NewLine !in rec.distance && NewLine !in rec.duration) ==> NewLine !in line
  {
    "- " + Show(rec.name) + " (" + rec.rating + "/5): " + Show(rec.address)
      + " (Distance: " + rec.distance + ", Duration: " + rec.duration + ")"
  }

  function RecLines(recs: seq<Recommendation>): (lines: seq<string>)
    ensures |lines| == |recs|
  {
    seq(|recs|, i requires 0 <= i < |recs| => RecLine(recs[i]))
  }

  /** The section of one slot: its header line, then its records' lines. */
  function Section(slot: Label, recs: seq<Recommendation>): (section: string)
    ensures |section| >= |slot| + 2 && section[..|slot| + 2] == slot + ":\n"
    ensures recs == [] ==> section == slot + ":\n"
  {
    slot + ":\n" + Join("\n", RecLines(recs))
  }

  function Sections(keys: seq<Label>, slots: map<Label, seq<Recommendation>>): seq<string>
    requires forall t :: t in keys ==> t in slots
  {
    seq(|keys|, i requires 0 <= i < |keys| => Section(keys[i], slots[keys[i]]))
  }

  /** `formatted_recommendations`: the sections, in key order, joined by newlines. */
  function FormatRecommendations(a: Allocation): (block: string)
    requires a.Valid()
    ensures block == "" <==> a.keys == []
  {
    BlockLayout(a.keys, a.slots);
    Join("\n", Sections(a.keys, a.slots))
  }

  /** The lines of one section: the header `slot:`, then one line per record, or one
      empty line when the slot has no record (its header ends in a newline that nothing
      follows). */
  function SectionLines(slot: Label, recs: seq<Recommendation>): seq<string> {
    [slot + ":"] + (if recs == [] then [""] else RecLines(recs))
  }

  /** The lines of the whole block, section after section. */
  function BlockLines(keys: seq<Label>, slots: map<Label, seq<Recommendation>>): (lines: seq<string>)
    requires forall t :: t in keys ==> t in slots
    ensures keys == [] <==> lines == []
  {
    if keys == [] then []
    else
      var t := keys[|keys| - 1];
      BlockLines(keys[..|keys| - 1], slots) + SectionLines(t, slots[t])
  }

  /** A section is its lines joined by newlines. */
  lemma SectionLayout(slot: Label, recs: seq<Recommendation>)
    ensures Section(slot, recs) == Join("\n", SectionLines(slot, recs))
  {
    var lines, header := SectionLines(slot, recs), slot + ":";
    assert header + "\n" == slot + ":\n";
    if recs == [] {
      assert lines[..1] == [header];
      assert Join("\n", lines) == header + "\n" + "";
    } else {
      JoinConcat("\n", [header], RecLines(recs));
    }
  }

  /** The block is the newline-join of all its lines; it is empty exactly when there are
      no time slots. */
  lemma {:induction false} BlockLayout(keys: seq<Label>, slots: map<Label, seq<Recommendation>>)
    requires forall t :: t in keys ==> t in slots
    ensures Join("\n", Sections(keys, slots)) == Join("\n", BlockLines(keys, slots))
    ensures Join("\n", Sections(keys, slots)) == "" <==> keys == []
  {
    if keys != [] {
      var init, t := keys[..|keys| - 1], keys[|keys| - 1];
      var sections := Sections(keys, slots);
      assert sections[..|sections| - 1] == Sections(init, slots);
      SectionLayout(t, slots[t]);
      if init == [] {
        assert BlockLines(keys, slots) == SectionLines(t, slots[t]);
      } else {
        BlockLayout(init, slots);
        JoinConcat("\n", BlockLines(init, slots), SectionLines(t, slots[t]));
      }
    }
  }

  /** No slot label and no printed field of a record contains a line break. */
  predicate SingleLineTexts(a: Allocation)
    requires a.Valid()
  {
    && (forall t :: t in a.slots ==> NewLine !in t)
    && (forall t, rec :: t in a.slots && rec in a.slots[t] ==>
          && NewLine !in Show(rec.name) && NewLine !in Show(rec.address)
          && NewLine !in rec.rating && NewLine !in rec.distance && NewLine !in rec.duration)
  }

  /** Every line of the block is single-line when the texts are. */
  lemma {:induction false} BlockLinesSingle(keys: seq<Label>, a: Allocation)
    requires a.Valid() && SingleLineTexts(a)
    requires forall t :: t in keys ==> t in a.slots
    ensures forall i :: 0 <= i < |BlockLines(keys, a.slots)| ==> NewLine !in BlockLines(keys, a.slots)[i]
  {
    if keys != [] {
      var init, t := keys[..|keys| - 1], keys[|keys| - 1];
      BlockLinesSingle(init, a);
      var recs := a.slots[t];
      forall i | 0 <= i < |RecLines(recs)|
        ensures NewLine !in RecLines(recs)[i]
      {
        assert recs[i] in recs;
      }
      var lines := SectionLines(t, recs);
      assert NewLine !in lines[0];
    }
  }

  /** The exact layout of the block: split at line breaks it gives, slot by slot in key
      order, the header `slot:` and then one line per record of that slot, or one empty
      line for a slot without records. */
  lemma FormatReadsBack(a: Allocation)
    requires a.Valid() && SingleLineTexts(a) && a.keys != []
    ensures Split(NewLine, FormatRecommendations(a)) == BlockLines(a.keys, a.slots)
  {
    BlockLayout(a.keys, a.slots);
    BlockLinesSingle(a.keys, a);
    SplitJoin(NewLine, BlockLines(a.keys, a.slots));
  }

  // ---------------------------------------------------------------------------
  // The itinerary
  // ---------------------------------------------------------------------------

  /** The model's reply when it has text, else the fixed fallback message. */
  function Itinerary(content: string): (itinerary: string)
    ensures itinerary != ""
    ensures content != "" ==> itinerary == content
    ensures content == "" ==> itinerary == NoItinerary
  {
    if content != "" then content else NoItinerary
  }
}
