/** Map planning: the part of `plot_map_by_time_slots` that decides where the map is
    centred, which color each time slot gets and which markers are placed. The map
    library's rendering (tiles, popup HTML, the HTML export) is not modelled; a marker
    carries the record and slot its popup shows. */
module MapPlan {
  import opened Wrappers
  import opened Records
  import opened TimeSlots

  /** A map position as the record carries it; the code never checks or computes on it. */
  datatype Location = Location(lat: Option<real>, lng: Option<real>)

  /** Used when no slot holds a record (Rome). */
  const DefaultCenter: Location := Location(Some(41.9028), Some(12.4964))

  /** The marker colors, handed out to the slots in key order and repeating after four. */
  const Palette: seq<string> := ["red", "blue", "green", "purple"]

  /** The zoom level the map is created with. */
  const ZoomStart: nat := 13

  /** One map marker: where it stands, its icon color, and what its popup shows. */
  datatype Marker = Marker(location: Location, color: string, slot: Label, rec: Recommendation)

  function LocationOf(rec: Recommendation): Location {
    Location(rec.lat, rec.lng)
  }

  // ---------------------------------------------------------------------------
  // Center
  // ---------------------------------------------------------------------------

  /** The position in `keys` of the first slot with at least one record; `|keys|` when
      every slot is empty. */
  function FirstFilled(keys: seq<Label>, slots: map<Label, seq<Recommendation>>): (k: nat)
    requires forall t :: t in keys ==> t in slots
    ensures k <= |keys|
    ensures forall i :: 0 <= i < k ==> slots[keys[i]] == []
    ensures k < |keys| ==> slots[keys[k]] != []
  {
    if keys == [] then 0
    else if slots[keys[0]] != [] then 0
    else 1 + FirstFilled(keys[1..], slots)
  }

  /** The center the map gets: the first record of the first non-empty slot, else the
      default. */
  function CenterOf(a: Allocation): (center: Location)
    requires a.Valid()
    ensures (forall t :: t in a.keys ==> a.slots[t] == []) ==> center == DefaultCenter
    ensures (exists t :: t in a.keys && a.slots[t] != []) ==>
              exists t :: t in a.keys && a.slots[t] != [] && center == LocationOf(a.slots[t][0])
  {
    var k := FirstFilled(a.keys, a.slots);
    if k < |a.keys| then LocationOf(a.slots[a.keys[k]][0]) else DefaultCenter
  }

  /** The scan over the dict's values that stops at the first non-empty list. The list
      `[lat, lng]` it keeps is never empty, so the default is taken only when the scan
      finds nothing. */
  method FindCenter(a: Allocation) returns (center: Location)
    requires a.Valid()
    ensures center == CenterOf(a)
  {
    var first: Option<Location> := None;
    var i := 0;
    while i < |a.keys|
      invariant 0 <= i <= |a.keys|
      invariant first == None
      invariant forall j :: 0 <= j < i ==> a.slots[a.keys[j]] == []
    {
      var recs := a.slots[a.keys[i]];
      if recs != [] {
        first := Some(LocationOf(recs[0]));
        break;
      }
      i := i + 1;
    }
    center := if first.Some? then first.value else DefaultCenter;
  }

  /** The slots' lists up to position `i` in `keys` flatten to a prefix of the whole. */
  lemma {:induction false} FlattenPrefix(keys: seq<Label>, slots: map<Label, seq<Recommendation>>, i: nat)
    requires forall t :: t in keys ==> t in slots
    requires i <= |keys|
    ensures Flatten(keys[..i], slots) <= Flatten(keys, slots)
  {
    if i < |keys| {
      var init := keys[..|keys| - 1];
      assert init[..i] == keys[..i];
      FlattenPrefix(init, slots, i);
    } else {
      assert keys[..i] == keys;
    }
  }

  /** Slots that are all empty up to position `k` flatten to nothing there. */
  lemma {:induction false} FlattenLeadingEmpty(keys: seq<Label>, slots: map<Label, seq<Recommendation>>, k: nat)
    requires forall t :: t in keys ==> t in slots
    requires k <= |keys|
    requires forall i :: 0 <= i < k ==> slots[keys[i]] == []
    ensures Flatten(keys[..k], slots) == []
  {
    if k > 0 {
      assert keys[..k][..k - 1] == keys[..k - 1];
      FlattenLeadingEmpty(keys, slots, k - 1);
    }
  }

  /** The center is the position of the first record in key order, and the default
      exactly when no slot holds a record. */
  lemma CenterIsFirstRecord(a: Allocation)
    requires a.Valid()
    ensures a.Flattened() == [] ==> CenterOf(a) == DefaultCenter
    ensures a.Flattened() != [] ==> CenterOf(a) == LocationOf(a.Flattened()[0])
  {
    var k := FirstFilled(a.keys, a.slots);
    if k < |a.keys| {
      FlattenLeadingEmpty(a.keys, a.slots, k);
      FlattenPrefix(a.keys, a.slots, k + 1);
      assert a.keys[..k + 1][..k] == a.keys[..k];
      assert Flatten(a.keys[..k + 1], a.slots) == a.slots[a.keys[k]];
    } else {
      FlattenLeadingEmpty(a.keys, a.slots, k);
      assert a.keys[..k] == a.keys;
    }
  }

  /** For an allocation made by round robin, the map is centred on the very first
      collected record, or on the default when nothing was collected. */
  lemma CenterOfDivide(recs: seq<Recommendation>, times: seq<Label>)
    requires Divide(recs, times).Ok?
    ensures var a := Divide(recs, times).value;
      && a.Valid()
      && (recs == [] ==> CenterOf(a) == DefaultCenter)
      && (recs != [] ==> CenterOf(a) == LocationOf(recs[0]))
  {
    var a := Divide(recs, times).value;
    DivideValid(recs, times);
    CenterIsFirstRecord(a);
    Partition(recs, times);
    if recs != [] {
      DedupFirst(times);
      var labels := RoundRobinLabels(times, |recs|);
      var t := times[0];
      assert labels[0] == t;
      PickedGrows(recs, labels, t, 1, |recs|);
      assert a.slots[a.keys[0]][0] == recs[0];
      FlattenPrefix(a.keys, a.slots, 1);
      assert Flatten(a.keys[..1], a.slots) == a.slots[a.keys[0]];
    }
  }

  // ---------------------------------------------------------------------------
  // Colors
  // ---------------------------------------------------------------------------

  /** The dict comprehension that gives the slot at position `i` the color
      `Palette[i % 4]`; a repeated key keeps the color of its last position. */
  function SlotColors(keys: seq<Label>): (colors: map<Label, string>)
    ensures forall t :: t in colors <==> t in keys
    ensures forall t :: t in colors ==> colors[t] in Palette
  {
    if keys == [] then map[]
    else
      var n := |keys| - 1;
      SlotColors(keys[..n])[keys[n] := Palette[n % |Palette|]]
  }

  /** With distinct keys, the slot at position `k` gets `Palette[k % 4]`. */
  lemma {:induction false} SlotColorAt(keys: seq<Label>, k: nat)
    requires Distinct(keys) && k < |keys|
    ensures SlotColors(keys)[keys[k]] == Palette[k % |Palette|]
  {
    var n := |keys| - 1;
    if k < n {
      var init := keys[..n];
      assert Distinct(init) by {
        forall i, j | 0 <= i < j < |init|
          ensures init[i] != init[j]
        {
          assert init[i] == keys[i] && init[j] == keys[j];
        }
      }
      SlotColorAt(init, k);
      assert keys[k] != keys[n];
    }
  }

  // ---------------------------------------------------------------------------
  // Markers
  // ---------------------------------------------------------------------------

  /** The markers of one slot: one per record, in list order, in the slot's color. */
  function SlotMarkers(slot: Label, recs: seq<Recommendation>, color: string): (ms: seq<Marker>)
    ensures |ms| == |recs|
    ensures forall p :: 0 <= p < |ms| ==> ms[p] == Marker(LocationOf(recs[p]), color, slot, recs[p])
  {
    if recs == [] then []
    else
      var n := |recs| - 1;
      SlotMarkers(slot, recs[..n], color) + [Marker(LocationOf(recs[n]), color, slot, recs[n])]
  }

  /** The markers of the slots in `keys`, slot after slot. */
  function MarkersOf(keys: seq<Label>, slots: map<Label, seq<Recommendation>>, colors: map<Label, string>)
    : seq<Marker>
    requires forall t :: t in keys ==> t in slots && t in colors
  {
    if keys == [] then []
    else
      var t := keys[|keys| - 1];
      MarkersOf(keys[..|keys| - 1], slots, colors) + SlotMarkers(t, slots[t], colors[t])
  }

  /** Every marker the map receives, in the order they are added. */
  function Markers(a: Allocation): (ms: seq<Marker>)
    requires a.Valid()
    ensures forall m :: m in ms ==>
      && m.slot in a.slots && m.rec in a.slots[m.slot]
      && m.location == LocationOf(m.rec) && m.color in Palette
  {
    MarkerFacts(a.keys, a.slots, SlotColors(a.keys));
    MarkersOf(a.keys, a.slots, SlotColors(a.keys))
  }

  /** The records the markers show, in marker order. */
  function MarkedRecords(ms: seq<Marker>): (recs: seq<Recommendation>)
    ensures |recs| == |ms|
    ensures forall p :: 0 <= p < |ms| ==> recs[p] == ms[p].rec
  {
    seq(|ms|, p requires 0 <= p < |ms| => ms[p].rec)
  }

  /** The markers show exactly the flattened records, one each, in the same order. */
  lemma {:induction false} MarkersFollowRecords(
    keys: seq<Label>, slots: map<Label, seq<Recommendation>>, colors: map<Label, string>)
    requires forall t :: t in keys ==> t in slots && t in colors
    ensures MarkedRecords(MarkersOf(keys, slots, colors)) == Flatten(keys, slots)
  {
    if keys != [] {
      var init, t := keys[..|keys| - 1], keys[|keys| - 1];
      MarkersFollowRecords(init, slots, colors);
      var before, mine := MarkersOf(init, slots, colors), SlotMarkers(t, slots[t], colors[t]);
      assert MarkedRecords(before + mine) == MarkedRecords(before) + MarkedRecords(mine);
      assert MarkedRecords(mine) == slots[t];
    }
  }

  /** Marker `m` belongs to a slot among `keys`, shows a record of that slot, stands at
      that record's position and has that slot's color. */
  predicate WellPlaced(m: Marker, keys: seq<Label>, slots: map<Label, seq<Recommendation>>, colors: map<Label, string>)
    requires forall t :: t in keys ==> t in slots && t in colors
  {
    && m.slot in keys
    && m.rec in slots[m.slot]
    && m.location == LocationOf(m.rec)
    && m.color == colors[m.slot]
  }

  /** Every marker is well placed. */
  lemma {:induction false} MarkerFacts(
    keys: seq<Label>, slots: map<Label, seq<Recommendation>>, colors: map<Label, string>)
    requires forall t :: t in keys ==> t in slots && t in colors
    ensures forall m :: m in MarkersOf(keys, slots, colors) ==> WellPlaced(m, keys, slots, colors)
  {
    if keys != [] {
      var init, t := keys[..|keys| - 1], keys[|keys| - 1];
      MarkerFacts(init, slots, colors);
      var before, mine := MarkersOf(init, slots, colors), SlotMarkers(t, slots[t], colors[t]);
      forall m | m in before + mine
        ensures WellPlaced(m, keys, slots, colors)
      {
        if m in before {
          assert WellPlaced(m, init, slots, colors);
        } else {
          var p :| 0 <= p < |mine| && mine[p] == m;
        }
      }
    }
  }

  /** Exactly one marker per allocated record, in slot order; the marker of a record in
      the slot at position `k` of the keys is colored `Palette[k % 4]`. */
  lemma MarkersOfAllocation(a: Allocation)
    requires a.Valid()
    ensures MarkedRecords(Markers(a)) == a.Flattened()
    ensures forall p, k :: 0 <= p < |Markers(a)| && 0 <= k < |a.keys| && a.keys[k] == Markers(a)[p].slot ==>
              Markers(a)[p].color == Palette[k % |Palette|]
  {
    var colors := SlotColors(a.keys);
    MarkersFollowRecords(a.keys, a.slots, colors);
    MarkerFacts(a.keys, a.slots, colors);
    var ms := Markers(a);
    forall p, k | 0 <= p < |ms| && 0 <= k < |a.keys| && a.keys[k] == ms[p].slot
      ensures ms[p].color == Palette[k % |Palette|]
    {
      assert WellPlaced(ms[p], a.keys, a.slots, colors);
      SlotColorAt(a.keys, k);
    }
  }

  /** After round robin every collected record gets exactly one marker: the markers
      show the records as often as they were collected, no more and no fewer. */
  lemma OneMarkerPerRecord(recs: seq<Recommendation>, times: seq<Label>)
    requires Divide(recs, times).Ok?
    ensures var a := Divide(recs, times).value;
      && a.Valid()
      && |Markers(a)| == |recs|
      && multiset(MarkedRecords(Markers(a))) == multiset(recs)
  {
    var a := Divide(recs, times).value;
    DivideValid(recs, times);
    MarkersOfAllocation(a);
    Partition(recs, times);
  }

  // ---------------------------------------------------------------------------
  // The map object
  // ---------------------------------------------------------------------------

  /** The map the markers are added to. */
  class TravelMap {
    var center: Location
    var zoom: nat
    var markers: seq<Marker>

    constructor (center: Location)
      ensures this.center == center && zoom == ZoomStart && markers == []
    {
      this.center := center;
      zoom := ZoomStart;
      markers := [];
    }

    /** `Marker(...).add_to(map)`. */
    method AddMarker(m: Marker)
      modifies this
      ensures markers == old(markers) + [m]
      ensures center == old(center) && zoom == old(zoom)
    {
      markers := markers + [m];
    }
  }

  /** The markers of one more slot come after those of the slots before it. */
  lemma MarkersOfStep(keys: seq<Label>, slots: map<Label, seq<Recommendation>>, colors: map<Label, string>, i: nat)
    requires forall t :: t in keys ==> t in slots && t in colors
    requires i < |keys|
    ensures MarkersOf(keys[..i + 1], slots, colors) ==
      MarkersOf(keys[..i], slots, colors) + SlotMarkers(keys[i], slots[keys[i]], colors[keys[i]])
  {
    assert keys[..i + 1][..i] == keys[..i];
  }

  /** The inner loop of `plot_map_by_time_slots`: one marker per record of one slot. */
  method AddSlotMarkers(m: TravelMap, slot: Label, recs: seq<Recommendation>, color: string)
    modifies m
    ensures m.markers == old(m.markers) + SlotMarkers(slot, recs, color)
    ensures m.center == old(m.center) && m.zoom == old(m.zoom)
  {
    var j := 0;
    while j < |recs|
      invariant 0 <= j <= |recs|
      invariant m.center == old(m.center) && m.zoom == old(m.zoom)
      invariant m.markers == old(m.markers) + SlotMarkers(slot, recs[..j], color)
    {
      assert recs[..j + 1][..j] == recs[..j];
      m.AddMarker(Marker(LocationOf(recs[j]), color, slot, recs[j]));
      j := j + 1;
    }
    assert recs[..j] == recs;
  }

  /** The outer loop of `plot_map_by_time_slots`: the markers of every slot, slot after
      slot in key order. */
  method AddAllMarkers(m: TravelMap, keys: seq<Label>, slots: map<Label, seq<Recommendation>>,
                       colors: map<Label, string>)
    requires forall t :: t in keys ==> t in slots && t in colors
    modifies m
    ensures m.markers == old(m.markers) + MarkersOf(keys, slots, colors)
    ensures m.center == old(m.center) && m.zoom == old(m.zoom)
  {
    var i := 0;
    while i < |keys|
      invariant 0 <= i <= |keys|
      invariant m.center == old(m.center) && m.zoom == old(m.zoom)
      invariant m.markers == old(m.markers) + MarkersOf(keys[..i], slots, colors)
    {
      var slot := keys[i];
      MarkersOfStep(keys, slots, colors, i);
      AddSlotMarkers(m, slot, slots[slot], colors[slot]);
      i := i + 1;
    }
    assert keys[..i] == keys;
  }

  /** `plot_map_by_time_slots` up to the HTML export: the map centred by the scan, then
      one marker per record, slot by slot in key order. */
  method PlotMap(a: Allocation) returns (m: TravelMap)
    requires a.Valid()
    ensures fresh(m)
    ensures m.center == CenterOf(a) && m.zoom == ZoomStart
    ensures m.markers == Markers(a)
  {
    var center := FindCenter(a);
    m := new TravelMap(center);
    AddAllMarkers(m, a.keys, a.slots, SlotColors(a.keys));
  }
}
