/** Record collection: how `get_recommendations_with_distance` turns the place-search and
    distance-matrix replies into the ordered list of recommendation records.

    The two web services are not called here. Each interest's search reply is an input
    (its HTTP status and its `results` list), and every place in it carries the reply the
    distance service gave for that place. */
module Records {
  import opened Wrappers

  /** At most this many places are taken from each interest's search results. */
  const PlacesPerInterest: nat := 5

  const NotAvailable: string := "N/A"
  const PlaceholderPhoto: string := "https://via.placeholder.com/400x300?text=No+Image"
  const PhotoEndpoint: string :=
    "https://maps.googleapis.com/maps/api/place/photo?maxwidth=400&photo_reference="

  /** What the distance service answered for one place, reduced to what the code reads:
      `rows` absent, `rows` empty, the first row without an `elements` key, the first
      row with an empty `elements` list, or the first element with its distance and
      duration texts (each `None` when that key, or its `text`, is absent). */
  datatype DistanceReply =
    | MissingRows
    | NoRows
    | MissingElements
    | NoElements
    | FirstElement(distance: Option<string>, duration: Option<string>)

  /** One entry of a search reply's `results`. Absent keys are `None`; `rating` is the
      printed form of the service's number; `photos` is `None` when the key is absent,
      otherwise the list of photo entries, each with its optional `photo_reference`. */
  datatype Place = Place(
    name: Option<string>,
    address: Option<string>,
    rating: Option<string>,
    lat: Option<real>,
    lng: Option<real>,
    photos: Option<seq<Option<string>>>,
    distanceReply: DistanceReply)

  /** The search service's reply for one interest (`results` missing reads as empty). */
  datatype SearchReply = SearchReply(status: int, results: seq<Place>)

  /** One enriched point of interest, as the dict the code appends. */
  datatype Recommendation = Recommendation(
    name: Option<string>,
    address: Option<string>,
    rating: string,
    lat: Option<real>,
    lng: Option<real>,
    photoUrl: string,
    distance: string,
    duration: string)

  /** The photo reference the code reads: the first photo entry's reference, "" when
      there is none, and an IndexError when `photos` is present but empty. */
  function PhotoReference(photos: Option<seq<Option<string>>>): (r: Result<string>)
    ensures r.Err? <==> photos == Some([])
    ensures r.Err? ==> r.error == IndexError
    ensures photos.None? ==> r == Ok("")
    ensures photos.Some? && photos.value != [] ==> r == Ok(photos.value[0].GetOr(""))
  {
    match photos
    case None => Ok("")
    case Some(entries) => if entries == [] then Err(IndexError) else Ok(entries[0].GetOr(""))
  }

  /** The photo URL of a place whose photo reference is `reference`. */
  function PhotoUrl(reference: string, apiKey: string): (url: string)
    ensures url == PlaceholderPhoto <==> reference == ""
    ensures reference != "" ==> url == PhotoEndpoint + reference + "&key=" + apiKey
  {
    if reference != "" then
      var url := PhotoEndpoint + (reference + "&key=" + apiKey);
      assert |url| > |PlaceholderPhoto|;
      assert url[|PhotoEndpoint|..] == reference + ("&key=" + apiKey);
      url
    else
      PlaceholderPhoto
  }

  /** True when reading the distance and duration texts of `reply` raises. */
  predicate DistanceRaises(reply: DistanceReply) {
    match reply
    case MissingRows => true
    case NoRows => false
    case MissingElements => true
    case NoElements => true
    case FirstElement(d, t) => d.None? || t.None?
  }

  /** The (distance, duration) texts of a place: both "N/A" when the rows are empty,
      otherwise the first element's texts; a missing key or element raises. */
  function DistanceTexts(reply: DistanceReply): (r: Result<(string, string)>)
    ensures r.Err? <==> DistanceRaises(reply)
    ensures r.Err? ==> r.error == (if reply.NoElements? then IndexError else KeyError)
    ensures reply.NoRows? ==> r == Ok((NotAvailable, NotAvailable))
    ensures reply.FirstElement? && r.Ok? ==>
              r.value == (reply.distance.value, reply.duration.value)
  {
    match reply
    case MissingRows => Err(KeyError)
    case NoRows => Ok((NotAvailable, NotAvailable))
    case MissingElements => Err(KeyError)
    case NoElements => Err(IndexError)
    case FirstElement(d, t) =>
      if d.None? || t.None? then Err(KeyError) else Ok((d.value, t.value))
  }

  /** True when building the record of `place` raises. */
  predicate RecordRaises(place: Place) {
    place.photos == Some([]) || DistanceRaises(place.distanceReply)
  }

  /** Builds the record for one place (the body of the inner loop). */
  function BuildRecord(place: Place, apiKey: string): (r: Result<Recommendation>)
    ensures r.Err? <==> RecordRaises(place)
  {
    var reference :- PhotoReference(place.photos);
    var texts :- DistanceTexts(place.distanceReply);
    Ok(Recommendation(place.name, place.address, place.rating.GetOr(NotAvailable),
                      place.lat, place.lng, PhotoUrl(reference, apiKey), texts.0, texts.1))
  }

  /** The defaults a built record applies: "N/A" for a missing rating, the placeholder
      photo exactly when the photo reference is empty, "N/A" for distance and duration when
      the distance rows are empty, and the place's own fields otherwise. */
  lemma RecordDefaults(place: Place, apiKey: string)
    requires BuildRecord(place, apiKey).Ok?
    ensures var rec := BuildRecord(place, apiKey).value;
      && rec.name == place.name
      && rec.address == place.address
      && rec.lat == place.lat
      && rec.lng == place.lng
      && (place.rating.None? ==> rec.rating == NotAvailable)
      && (place.rating.Some? ==> rec.rating == place.rating.value)
      && (rec.photoUrl == PlaceholderPhoto <==> PhotoReference(place.photos) == Ok(""))
      && rec.photoUrl == PhotoUrl(PhotoReference(place.photos).value, apiKey)
      && (place.distanceReply.NoRows? ==>
            rec.distance == NotAvailable && rec.duration == NotAvailable)
      && (place.distanceReply.FirstElement? ==>
            rec.distance == place.distanceReply.distance.value &&
            rec.duration == place.distanceReply.duration.value)
  {
  }

  /** The first `PlacesPerInterest` places of a result list (`places[:5]`). */
  function Capped(places: seq<Place>): (top: seq<Place>)
    ensures top <= places
    ensures |top| == if |places| <= PlacesPerInterest then |places| else PlacesPerInterest
  {
    if |places| <= PlacesPerInterest then places else places[..PlacesPerInterest]
  }

  /** The records built from `places`, in order; the first place that raises ends it. */
  function BuildAll(places: seq<Place>, apiKey: string): (r: Result<seq<Recommendation>>)
    ensures r.Ok? <==> forall j :: 0 <= j < |places| ==> !RecordRaises(places[j])
    ensures r.Ok? ==> |r.value| == |places|
  {
    if places == [] then Ok([])
    else
      var init :- BuildAll(places[..|places| - 1], apiKey);
      var last :- BuildRecord(places[|places| - 1], apiKey);
      Ok(init + [last])
  }

  /** Record `j` of a batch is the record built from place `j`. */
  lemma {:induction false} BuildAllAt(places: seq<Place>, apiKey: string, j: nat)
    requires BuildAll(places, apiKey).Ok? && j < |places|
    ensures BuildRecord(places[j], apiKey) == Ok(BuildAll(places, apiKey).value[j])
  {
    var prefix := places[..|places| - 1];
    if j < |prefix| {
      BuildAllAt(prefix, apiKey, j);
    }
  }

  /** What one interest contributes: nothing unless the search answered 200, otherwise
      the records of its first five places. */
  function CollectInterest(reply: SearchReply, apiKey: string): (r: Result<seq<Recommendation>>)
    ensures reply.status != 200 ==> r == Ok([])
    ensures r.Err? <==>
      (reply.status == 200 &&
       exists j :: 0 <= j < |Capped(reply.results)| && RecordRaises(Capped(reply.results)[j]))
    ensures r.Ok? ==> |r.value| <= PlacesPerInterest
  {
    if reply.status == 200 then BuildAll(Capped(reply.results), apiKey) else Ok([])
  }

  /** Running one step after another: the first exception wins, otherwise the records
      of both steps in order. */
  function AndThen(first: Result<seq<Recommendation>>, second: Result<seq<Recommendation>>)
    : Result<seq<Recommendation>>
  {
    if first.Err? then first else if second.Err? then second else Ok(first.value + second.value)
  }

  lemma AndThenAssoc(x: Result<seq<Recommendation>>, y: Result<seq<Recommendation>>, z: Result<seq<Recommendation>>)
    ensures AndThen(AndThen(x, y), z) == AndThen(x, AndThen(y, z))
  {
    if x.Ok? && y.Ok? && z.Ok? {
      assert x.value + y.value + z.value == x.value + (y.value + z.value);
    }
  }

  /** The records of all interests, in interest order; the first exception ends it. */
  function Collect(replies: seq<SearchReply>, apiKey: string): (r: Result<seq<Recommendation>>)
    ensures r.Ok? ==> |r.value| <= PlacesPerInterest * |replies|
  {
    if replies == [] then Ok([])
    else AndThen(Collect(replies[..|replies| - 1], apiKey), CollectInterest(replies[|replies| - 1], apiKey))
  }

  /** The collection succeeds exactly when every interest's step succeeds. */
  lemma {:induction false} CollectSucceeds(replies: seq<SearchReply>, apiKey: string)
    ensures Collect(replies, apiKey).Ok? <==>
      forall i :: 0 <= i < |replies| ==> CollectInterest(replies[i], apiKey).Ok?
  {
    if replies != [] {
      var init := replies[..|replies| - 1];
      CollectSucceeds(init, apiKey);
      assert forall i :: 0 <= i < |init| ==> init[i] == replies[i];
    }
  }

  /** The inner loop of `get_recommendations_with_distance` for one interest: one record
      per place, stopping at the first exception. */
  method BuildRecords(places: seq<Place>, apiKey: string) returns (r: Result<seq<Recommendation>>)
    ensures r == BuildAll(places, apiKey)
  {
    var records: seq<Recommendation> := [];
    var j := 0;
    while j < |places|
      invariant 0 <= j <= |places|
      invariant BuildAll(places[..j], apiKey) == Ok(records)
    {
      assert places[..j + 1][..j] == places[..j];
      var record := BuildRecord(places[j], apiKey);
      if record.Err? {
        BuildAllFailsFromPrefix(places, j + 1, apiKey);
        return Err(record.error);
      }
      records := records + [record.value];
      j := j + 1;
    }
    assert places[..j] == places;
    r := Ok(records);
  }

  /** `get_recommendations_with_distance`: the loop over the interests, appending each
      interest's records, stopping at the first exception. */
  method CollectRecommendations(replies: seq<SearchReply>, apiKey: string)
    returns (r: Result<seq<Recommendation>>)
    ensures r == Collect(replies, apiKey)
  {
    var recommendations: seq<Recommendation> := [];
    var i := 0;
    while i < |replies|
      invariant 0 <= i <= |replies|
      invariant Collect(replies[..i], apiKey) == Ok(recommendations)
    {
      var reply := replies[i];
      assert replies[..i + 1][..i] == replies[..i];
      assert replies[..i + 1][i] == reply;
      if reply.status == 200 {
        var records := BuildRecords(Capped(reply.results), apiKey);
        if records.Err? {
          CollectFailsFromPrefix(replies, i + 1, apiKey);
          return Err(records.error);
        }
        recommendations := recommendations + records.value;
      } else {
        assert recommendations + [] == recommendations;
      }
      i := i + 1;
    }
    assert replies[..i] == replies;
    r := Ok(recommendations);
  }

  /** Once the first `k` places raise, so does the whole batch, with the same exception. */
  lemma {:induction false} BuildAllFailsFromPrefix(places: seq<Place>, k: nat, apiKey: string)
    requires k <= |places|
    ensures BuildAll(places[..k], apiKey).Err? ==> BuildAll(places, apiKey) == BuildAll(places[..k], apiKey)
    decreases |places| - k
  {
    if BuildAll(places[..k], apiKey).Ok? {
    } else if k < |places| {
      var longer := places[..k + 1];
      assert longer[..|longer| - 1] == places[..k];
      assert BuildAll(longer, apiKey) == BuildAll(places[..k], apiKey);
      BuildAllFailsFromPrefix(places, k + 1, apiKey);
    } else {
      assert places[..k] == places;
    }
  }

  /** Once the first `i` interests raise, so does the whole collection, with the same
      exception. */
  lemma {:induction false} CollectFailsFromPrefix(replies: seq<SearchReply>, i: nat, apiKey: string)
    requires i <= |replies| && Collect(replies[..i], apiKey).Err?
    ensures Collect(replies, apiKey) == Collect(replies[..i], apiKey)
    decreases |replies| - i
  {
    if i < |replies| {
      assert replies[..i + 1][..i] == replies[..i];
      CollectFailsFromPrefix(replies, i + 1, apiKey);
    } else {
      assert replies[..i] == replies;
    }
  }

  /** Interest order: collecting two runs of interests one after the other gives the first
      run's records followed by the second run's, and the first exception wins. */
  lemma {:induction false} CollectAppend(a: seq<SearchReply>, b: seq<SearchReply>, apiKey: string)
    ensures Collect(a + b, apiKey) == AndThen(Collect(a, apiKey), Collect(b, apiKey))
    decreases |b|
  {
    if b == [] {
      assert a + b == a;
      if Collect(a, apiKey).Ok? {
        assert Collect(a, apiKey).value + [] == Collect(a, apiKey).value;
      }
    } else {
      var b', last := b[..|b| - 1], b[|b| - 1];
      assert (a + b)[..|a + b| - 1] == a + b';
      assert (a + b)[|a + b| - 1] == last;
      CollectAppend(a, b', apiKey);
      AndThenAssoc(Collect(a, apiKey), Collect(b', apiKey), CollectInterest(last, apiKey));
    }
  }

  /** A search that did not answer 200 contributes nothing, wherever it stands. */
  lemma FailedSearchContributesNothing(
    a: seq<SearchReply>, reply: SearchReply, b: seq<SearchReply>, apiKey: string)
    requires reply.status != 200
    ensures Collect(a + [reply] + b, apiKey) == Collect(a + b, apiKey)
  {
    assert (a + [reply])[..|a|] == a;
    assert Collect(a + [reply], apiKey) == Collect(a, apiKey) by {
      if Collect(a, apiKey).Ok? {
        assert Collect(a, apiKey).value + [] == Collect(a, apiKey).value;
      }
    }
    CollectAppend(a + [reply], b, apiKey);
    CollectAppend(a, b, apiKey);
  }

  /** What a single interest contributes: nothing for a failed search, otherwise one
      record per place among its first five, built from that place, in result order. */
  lemma OneInterest(reply: SearchReply, apiKey: string)
    ensures reply.status != 200 ==> Collect([reply], apiKey) == Ok([])
    ensures reply.status == 200 && Collect([reply], apiKey).Ok? ==>
      var records := Collect([reply], apiKey).value;
      && |records| == |Capped(reply.results)|
      && forall j :: 0 <= j < |records| ==> BuildRecord(reply.results[j], apiKey) == Ok(records[j])
  {
    assert [reply][..0] == [];
    var top := Capped(reply.results);
    if reply.status == 200 && Collect([reply], apiKey).Ok? {
      assert Collect([reply], apiKey).value == [] + BuildAll(top, apiKey).value;
      forall j | 0 <= j < |top|
        ensures BuildRecord(reply.results[j], apiKey) == Ok(BuildAll(top, apiKey).value[j])
      {
        assert top[j] == reply.results[j];
        BuildAllAt(top, apiKey, j);
      }
    }
  }
}
