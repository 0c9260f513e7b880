/** Round-robin allocation: `divide_into_time_slots`, which turns the ordered list of
    recommendations and the user's time-slot labels into a dict from label to the
    recommendations placed in that slot.

    A Python dict keeps its keys in insertion order; an `Allocation` is that dict, with
    `keys` the insertion order and `slots` the key-to-list mapping. */
module TimeSlots {
  import opened Wrappers
  import opened Records

  type Label = string

  predicate Distinct(labels: seq<Label>) {
    forall i, j :: 0 <= i < j < |labels| ==> labels[i] != labels[j]
  }

  datatype Allocation = Allocation(keys: seq<Label>, slots: map<Label, seq<Recommendation>>) {
    /** The keys are listed once each and are exactly the keys of the mapping. */
    predicate Valid() {
      && Distinct(keys)
      && (forall t :: t in keys ==> t in slots)
      && (forall t :: t in slots ==> t in keys)
    }

    /** The slots' records one slot after another, in key order. */
    function Flattened(): seq<Recommendation>
      requires Valid()
    {
      Flatten(keys, slots)
    }
  }

  /** The lists of `slots` at `keys`, concatenated in the order of `keys`. */
  function Flatten(keys: seq<Label>, slots: map<Label, seq<Recommendation>>): seq<Recommendation>
    requires forall t :: t in keys ==> t in slots
  {
    if keys == [] then [] else Flatten(keys[..|keys| - 1], slots) + slots[keys[|keys| - 1]]
  }

  /** The keys a dict gets when `labels` are inserted in order: each label once, at the
      place of its first occurrence. */
  function Dedup(labels: seq<Label>): (keys: seq<Label>)
    ensures Distinct(keys)
    ensures forall t :: t in keys <==> t in labels
  {
    if labels == [] then []
    else
      var keys := Dedup(labels[..|labels| - 1]);
      var last := labels[|labels| - 1];
      if last in keys then keys else keys + [last]
  }

  /** Labels that are already distinct keep their order: the dict's keys are the labels. */
  lemma {:induction false} DedupOfDistinct(labels: seq<Label>)
    requires Distinct(labels)
    ensures Dedup(labels) == labels
  {
    if labels != [] {
      var init := labels[..|labels| - 1];
      DedupOfDistinct(init);
      assert labels[|labels| - 1] !in init;
      assert init + [labels[|labels| - 1]] == labels;
    }
  }

  /** The first label is always the first key. */
  lemma {:induction false} DedupFirst(labels: seq<Label>)
    requires labels != []
    ensures Dedup(labels) != [] && Dedup(labels)[0] == labels[0]
  {
    var init := labels[..|labels| - 1];
    if init != [] {
      DedupFirst(init);
    }
  }

  /** The slot label the loop chooses for each of `n` records: record `i` goes to
      `times[i % |times|]`. */
  function RoundRobinLabels(times: seq<Label>, n: nat): seq<Label>
    requires |times| > 0
  {
    seq(n, i requires 0 <= i < n => times[i % |times|])
  }

  /** The records among the first `n` that are labelled `t`, in the order the loop
      appends them. */
  function Picked(recs: seq<Recommendation>, labels: seq<Label>, t: Label, n: nat): seq<Recommendation>
    requires n <= |recs| && n <= |labels|
  {
    if n == 0 then []
    else Picked(recs, labels, t, n - 1) + (if labels[n - 1] == t then [recs[n - 1]] else [])
  }

  /** The dict's lists after the first `n` records have been appended, record `i` to the
      list of `labels[i]`. */
  function SlotsAfter(recs: seq<Recommendation>, labels: seq<Label>, times: seq<Label>, n: nat)
    : map<Label, seq<Recommendation>>
    requires |labels| == |recs| && n <= |recs|
  {
    map t | t in times :: Picked(recs, labels, t, n)
  }

  /** The value `divide_into_time_slots` returns or the exception it raises: with no time
      slots, an empty dict for no records and a ZeroDivisionError otherwise. */
  function Divide(recs: seq<Recommendation>, times: seq<Label>): (r: Result<Allocation>)
    ensures r.Err? <==> times == [] && recs != []
    ensures r.Err? ==> r.error == ZeroDivisionError
  {
    if times == [] then
      if recs == [] then Ok(Allocation([], map[])) else Err(ZeroDivisionError)
    else
      Ok(Allocation(Dedup(times), SlotsAfter(recs, RoundRobinLabels(times, |recs|), times, |recs|)))
  }

  /** The dict returned lists each key once, and its keys are exactly the labels. */
  lemma DivideValid(recs: seq<Recommendation>, times: seq<Label>)
    requires Divide(recs, times).Ok?
    ensures Divide(recs, times).value.Valid()
    ensures forall t :: t in Divide(recs, times).value.slots <==> t in times
  {
  }

  /** Placing record `n` appends it to the list of its slot and changes no other list. */
  lemma SlotsStep(recs: seq<Recommendation>, labels: seq<Label>, times: seq<Label>, n: nat)
    requires |labels| == |recs| && n < |recs| && labels[n] in times
    ensures var t := labels[n];
      SlotsAfter(recs, labels, times, n + 1) ==
      SlotsAfter(recs, labels, times, n)[t := SlotsAfter(recs, labels, times, n)[t] + [recs[n]]]
  {
    var t := labels[n];
    var before, after := SlotsAfter(recs, labels, times, n), SlotsAfter(recs, labels, times, n + 1);
    var updated := before[t := before[t] + [recs[n]]];
    forall u | u in times
      ensures after[u] == updated[u]
    {
      assert after[u] == Picked(recs, labels, u, n + 1);
    }
    assert after.Keys == updated.Keys;
  }

  /** `{time: [] for time in times}`: every label mapped to an empty list, the keys in
      order of first occurrence. */
  function EmptySlots(times: seq<Label>): (a: Allocation)
    ensures a.Valid()
    ensures forall t :: t in a.slots ==> a.slots[t] == []
    ensures forall t :: t in a.slots <==> t in times
  {
    Allocation(Dedup(times), map t | t in times :: [])
  }

  /** `divide_into_time_slots`: the dict comprehension, then the loop that appends record
      `i` to the list of `times[i % len(times)]`. */
  method DivideIntoTimeSlots(recs: seq<Recommendation>, times: seq<Label>) returns (r: Result<Allocation>)
    ensures r == Divide(recs, times)
  {
    var slots := EmptySlots(times).slots;
    if times == [] {
      // The loop's first pass computes `0 % len(times)`; with no records it never runs.
      if recs == [] {
        return Ok(EmptySlots(times));
      }
      return Err(ZeroDivisionError);
    }
    ghost var labels := RoundRobinLabels(times, |recs|);
    assert slots == SlotsAfter(recs, labels, times, 0);
    var i := 0;
    while i < |recs|
      invariant 0 <= i <= |recs|
      invariant slots == SlotsAfter(recs, labels, times, i)
    {
      var slot := times[i % |times|];
      assert slot == labels[i];
      SlotsStep(recs, labels, times, i);
      slots := slots[slot := slots[slot] + [recs[i]]];
      i := i + 1;
    }
    r := Ok(Allocation(EmptySlots(times).keys, slots));
  }

  /** Every label is a key, also one that receives no record; with distinct labels the
      keys are the labels in their given order. */
  lemma DivideKeys(recs: seq<Recommendation>, times: seq<Label>)
    requires Divide(recs, times).Ok?
    ensures forall t :: t in times ==> t in Divide(recs, times).value.keys
    ensures Distinct(times) ==> Divide(recs, times).value.keys == times
  {
    if Distinct(times) {
      DedupOfDistinct(times);
    }
  }

  /** Flattening lists that are all empty gives no records. */
  lemma {:induction false} FlattenEmpty(keys: seq<Label>, slots: map<Label, seq<Recommendation>>)
    requires forall t :: t in keys ==> t in slots && slots[t] == []
    ensures Flatten(keys, slots) == []
  {
    if keys != [] {
      FlattenEmpty(keys[..|keys| - 1], slots);
    }
  }

  /** Changing the list of a label that is not among `keys` leaves their flattening alone. */
  lemma {:induction false} FlattenFrame(
    keys: seq<Label>, slots: map<Label, seq<Recommendation>>, t: Label, l: seq<Recommendation>)
    requires forall k :: k in keys ==> k in slots
    requires t !in keys
    ensures Flatten(keys, slots[t := l]) == Flatten(keys, slots)
  {
    if keys != [] {
      FlattenFrame(keys[..|keys| - 1], slots, t, l);
    }
  }

  /** Appending a record to the list of one key adds exactly that record to the
      flattening. */
  lemma {:induction false} FlattenAppend(
    keys: seq<Label>, slots: map<Label, seq<Recommendation>>, t: Label, x: Recommendation)
    requires forall k :: k in keys ==> k in slots
    requires Distinct(keys) && t in keys
    ensures multiset(Flatten(keys, slots[t := slots[t] + [x]])) ==
            multiset(Flatten(keys, slots)) + multiset{x}
  {
    var init, last := keys[..|keys| - 1], keys[|keys| - 1];
    var slots' := slots[t := slots[t] + [x]];
    if last == t {
      assert t !in init;
      FlattenFrame(init, slots, t, slots[t] + [x]);
    } else {
      FlattenAppend(init, slots, t, x);
    }
  }

  /** After `n` records, the slots listed in `keys` (the labels, each once) together
      hold exactly the first `n` records, whatever label of `times` each record is given. */
  lemma {:induction false} PartitionAfter(
    recs: seq<Recommendation>, labels: seq<Label>, times: seq<Label>, keys: seq<Label>, n: nat)
    requires |labels| == |recs| && n <= |recs|
    requires forall i :: 0 <= i < |labels| ==> labels[i] in times
    requires Distinct(keys) && forall t :: t in keys <==> t in times
    ensures multiset(Flatten(keys, SlotsAfter(recs, labels, times, n))) == multiset(recs[..n])
  {
    if n == 0 {
      FlattenEmpty(keys, SlotsAfter(recs, labels, times, 0));
    } else {
      PartitionAfter(recs, labels, times, keys, n - 1);
      PartitionStep(recs, labels, times, keys, n);
    }
  }

  /** The induction step of `PartitionAfter`: placing record `n - 1` adds exactly it. */
  lemma PartitionStep(
    recs: seq<Recommendation>, labels: seq<Label>, times: seq<Label>, keys: seq<Label>, n: nat)
    requires |labels| == |recs| && 0 < n <= |recs| && labels[n - 1] in times
    requires Distinct(keys) && forall t :: t in keys <==> t in times
    requires multiset(Flatten(keys, SlotsAfter(recs, labels, times, n - 1))) == multiset(recs[..n - 1])
    ensures multiset(Flatten(keys, SlotsAfter(recs, labels, times, n))) == multiset(recs[..n])
  {
    var t := labels[n - 1];
    var before, after := SlotsAfter(recs, labels, times, n - 1), SlotsAfter(recs, labels, times, n);
    SlotsStep(recs, labels, times, n - 1);
    FlattenGrows(keys, before, after, t, recs, n);
  }

  /** One placement step in terms of multisets: if the slots held the first `n - 1`
      records and record `n - 1` is appended to one of them, they hold the first `n`. */
  lemma FlattenGrows(
    keys: seq<Label>, before: map<Label, seq<Recommendation>>, after: map<Label, seq<Recommendation>>,
    t: Label, recs: seq<Recommendation>, n: nat)
    requires forall k :: k in keys ==> k in before
    requires Distinct(keys) && t in keys
    requires 0 < n <= |recs|
    requires after == before[t := before[t] + [recs[n - 1]]]
    requires multiset(Flatten(keys, before)) == multiset(recs[..n - 1])
    ensures multiset(Flatten(keys, after)) == multiset(recs[..n])
  {
    FlattenAppend(keys, before, t, recs[n - 1]);
    PrefixMultiset(recs, n);
  }

  /** The first `n` records are the first `n - 1` and record `n - 1`. */
  lemma PrefixMultiset(recs: seq<Recommendation>, n: nat)
    requires 0 < n <= |recs|
    ensures multiset(recs[..n]) == multiset(recs[..n - 1]) + multiset{recs[n - 1]}
  {
    assert recs[..n] == recs[..n - 1] + [recs[n - 1]];
  }

  /** Allocation is a partition: the slots, in key order, hold every record exactly as
      often as the input does, so none is dropped or duplicated and the sizes sum to the
      number of records. This holds for duplicate labels too. */
  lemma Partition(recs: seq<Recommendation>, times: seq<Label>)
    requires Divide(recs, times).Ok?
    ensures var a := Divide(recs, times).value;
      a.Valid() && multiset(a.Flattened()) == multiset(recs) && |a.Flattened()| == |recs|
  {
    DivideValid(recs, times);
    if times != [] {
      PartitionAfter(recs, RoundRobinLabels(times, |recs|), times, Dedup(times), |recs|);
      assert recs[..|recs|] == recs;
    }
  }

  /** `Divide`'s definition read at one slot: the list of slot `t` is the records
      labelled `t`. */
  lemma DivideSlot(recs: seq<Recommendation>, times: seq<Label>, t: Label)
    requires times != [] && t in times
    ensures Divide(recs, times).Ok? && t in Divide(recs, times).value.slots
    ensures Divide(recs, times).value.slots[t] == Picked(recs, RoundRobinLabels(times, |recs|), t, |recs|)
  {
  }

  /** A later prefix of the records gives each slot a longer list that starts with the
      earlier one. */
  lemma {:induction false} PickedGrows(recs: seq<Recommendation>, labels: seq<Label>, t: Label, i: nat, n: nat)
    requires i <= n <= |recs| && n <= |labels|
    ensures Picked(recs, labels, t, i) <= Picked(recs, labels, t, n)
    decreases n
  {
    if i < n {
      PickedGrows(recs, labels, t, i, n - 1);
    }
  }

  /** Record `i` lands in slot `times[i % |times|]`, at the position given by how many
      earlier records that slot received. */
  lemma RecordPlacement(recs: seq<Recommendation>, times: seq<Label>, i: nat)
    requires |times| > 0 && i < |recs|
    ensures var t := times[i % |times|];
      var slot := Divide(recs, times).value.slots[t];
      var p := |Picked(recs, RoundRobinLabels(times, |recs|), t, i)|;
      p < |slot| && slot[p] == recs[i]
  {
    var labels := RoundRobinLabels(times, |recs|);
    var t := labels[i];
    DivideSlot(recs, times, t);
    PickedGrows(recs, labels, t, i + 1, |recs|);
  }

  /** The positions among the first `n` whose label is `t`, in increasing order. */
  function Origins(labels: seq<Label>, t: Label, n: nat): (origin: seq<nat>)
    requires n <= |labels|
    ensures forall p :: 0 <= p < |origin| ==> origin[p] < n && labels[origin[p]] == t
    ensures forall p, q :: 0 <= p < q < |origin| ==> origin[p] < origin[q]
    ensures forall i :: 0 <= i < n && labels[i] == t ==> i in origin
  {
    if n == 0 then [] else Origins(labels, t, n - 1) + (if labels[n - 1] == t then [n - 1] else [])
  }

  /** The records labelled `t` are the records at the positions labelled `t`. */
  lemma {:induction false} PickedOrigins(recs: seq<Recommendation>, labels: seq<Label>, t: Label, n: nat)
    requires n <= |recs| && n <= |labels|
    ensures var picked, origin := Picked(recs, labels, t, n), Origins(labels, t, n);
      |picked| == |origin| && forall p :: 0 <= p < |picked| ==> picked[p] == recs[origin[p]]
  {
    if n > 0 {
      PickedOrigins(recs, labels, t, n - 1);
    }
  }

  /** Each slot keeps the collection order: entry `p` of slot `t` is the record at input
      position `origin[p]`, a position whose round-robin label is `t`, earlier entries come
      from earlier positions, and every position labelled `t` is among them. */
  lemma SlotOrder(recs: seq<Recommendation>, times: seq<Label>, t: Label)
    requires times != [] && t in times
    ensures var slot := Divide(recs, times).value.slots[t];
      var origin := Origins(RoundRobinLabels(times, |recs|), t, |recs|);
      && |origin| == |slot|
      && (forall p :: 0 <= p < |slot| ==>
            origin[p] < |recs| && times[origin[p] % |times|] == t && slot[p] == recs[origin[p]])
      && (forall p, q :: 0 <= p < q < |slot| ==> origin[p] < origin[q])
      && (forall i :: 0 <= i < |recs| && times[i % |times|] == t ==> i in origin)
  {
    DivideSlot(recs, times, t);
    PickedOrigins(recs, RoundRobinLabels(times, |recs|), t, |recs|);
  }

  /** A positive multiple of a positive number is at least that number. */
  lemma MulAtLeast(m: int, d: int)
    requires m > 0 && d >= 1
    ensures m * d >= m
  {
    if d > 1 {
      MulAtLeast(m, d - 1);
      assert m * d == m * (d - 1) + m;
    }
  }

  /** `n = q * m + r` with `0 <= r < m` fixes the quotient and the remainder. */
  lemma DivModUnique(n: int, m: int, q: int, r: int)
    requires m > 0 && 0 <= r < m && n == q * m + r
    ensures n / m == q && n % m == r
  {
    var q', r' := n / m, n % m;
    assert n == m * q' + r' && 0 <= r' < m;
    var d := q - q';
    assert m * d == r' - r by {
      assert m * d == m * q - m * q';
    }
    if d >= 1 {
      MulAtLeast(m, d);
    } else if d <= -1 {
      MulAtLeast(m, -d);
    }
  }

  /** One more record moves the remainder on by one, or wraps it to 0 and bumps the
      quotient. */
  lemma DivModStep(n: nat, m: nat)
    requires m > 0
    ensures n % m == m - 1 ==> (n + 1) / m == n / m + 1 && (n + 1) % m == 0
    ensures n % m < m - 1 ==> (n + 1) / m == n / m && (n + 1) % m == n % m + 1
  {
    if n % m == m - 1 {
      DivModUnique(n + 1, m, n / m + 1, 0);
    } else {
      DivModUnique(n + 1, m, n / m, n % m + 1);
    }
  }

  /** How many of `n` records round-robin gives to slot `j` of `m`. */
  function ShareOf(n: nat, m: nat, j: nat): nat
    requires m > 0
  {
    n / m + (if j < n % m then 1 else 0)
  }

  /** With distinct labels, slot `j` receives records `j`, `j + m`, `j + 2m`, ... of the
      first `n`, and so `ShareOf(n, m, j)` of them. */
  lemma {:induction false} PickedRoundRobin(recs: seq<Recommendation>, times: seq<Label>, j: nat, n: nat)
    requires Distinct(times) && j < |times| && n <= |recs|
    ensures var picked := Picked(recs, RoundRobinLabels(times, |recs|), times[j], n);
      && |picked| == ShareOf(n, |times|, j)
      && forall k :: 0 <= k < |picked| ==> j + k * |times| < n && picked[k] == recs[j + k * |times|]
  {
    var m := |times|;
    if n > 0 {
      var p := n - 1;
      PickedRoundRobin(recs, times, j, p);
      DivModStep(p, m);
      assert RoundRobinLabels(times, |recs|)[p] == times[p % m];
      if times[p % m] == times[j] {
        assert p % m == j;
        assert p == j + (p / m) * m;
      }
    }
  }

  /** The ceiling of `n / m`. */
  lemma CeilingDiv(n: nat, m: nat)
    requires m > 0
    ensures (n + m - 1) / m == n / m + (if n % m == 0 then 0 else 1)
  {
    if n % m == 0 {
      DivModUnique(n + m - 1, m, n / m, m - 1);
    } else {
      DivModUnique(n + m - 1, m, n / m + 1, n % m - 1);
    }
  }

  /** Round robin with distinct labels: the keys are the labels, each slot holds the floor
      or the ceiling of `n / m` records, and any two slots differ by at most one. */
  lemma RoundRobin(recs: seq<Recommendation>, times: seq<Label>)
    requires Distinct(times) && |times| > 0
    ensures var a := Divide(recs, times).value;
      var n, m := |recs|, |times|;
      && a.keys == times
      && (forall j :: 0 <= j < m ==>
            |a.slots[times[j]]| == ShareOf(n, m, j)
            && (|a.slots[times[j]]| == n / m || |a.slots[times[j]]| == (n + m - 1) / m))
      && (forall j, j' :: 0 <= j < m && 0 <= j' < m ==> |a.slots[times[j]]| <= |a.slots[times[j']]| + 1)
  {
    DivideKeys(recs, times);
    CeilingDiv(|recs|, |times|);
    var a := Divide(recs, times).value;
    forall j | 0 <= j < |times|
      ensures |a.slots[times[j]]| == ShareOf(|recs|, |times|, j)
    {
      DivideSlot(recs, times, times[j]);
      PickedRoundRobin(recs, times, j, |recs|);
    }
  }

  /** The two-slot case: four records over "Morning" and "Afternoon" give the first and
      third to the morning and the second and fourth to the afternoon. */
  lemma TwoSlotScenario(recs: seq<Recommendation>)
    requires |recs| == 4
    ensures Divide(recs, ["Morning", "Afternoon"]) ==
      Ok(Allocation(["Morning", "Afternoon"],
                    map["Morning" := [recs[0], recs[2]], "Afternoon" := [recs[1], recs[3]]]))
  {
    var times := ["Morning", "Afternoon"];
    assert Distinct(times);
    DedupOfDistinct(times);
    TwoSlotLists(recs);
  }

  /** The lists of the two-slot case, label by label. */
  lemma TwoSlotLists(recs: seq<Recommendation>)
    requires |recs| == 4
    ensures var times := ["Morning", "Afternoon"];
      SlotsAfter(recs, RoundRobinLabels(times, 4), times, 4) ==
      map["Morning" := [recs[0], recs[2]], "Afternoon" := [recs[1], recs[3]]]
  {
    var times := ["Morning", "Afternoon"];
    assert Distinct(times);
    PickedRoundRobin(recs, times, 0, 4);
    PickedRoundRobin(recs, times, 1, 4);
    var slots := SlotsAfter(recs, RoundRobinLabels(times, 4), times, 4);
    assert 4 / 2 == 2 && 4 % 2 == 0;
    assert slots["Morning"] == [recs[0], recs[2]];
    assert slots["Afternoon"] == [recs[1], recs[3]];
    assert slots.Keys == {"Morning", "Afternoon"};
  }
}
