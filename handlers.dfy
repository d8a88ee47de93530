/**
 The request handlers of the booking directory over an in-memory store.
 Each query handler builds its view with the same loop the controller runs;
 each submission handler either commits its write or, when the form does not
 validate or the database rejects the write, leaves the store as it was.
 */
module Handlers {
  import opened Wrappers
  import opened Seqs
  import opened Text
  import opened Models
  import opened Queries

  /** A submitted venue form: each field's data, `None` when the field is absent or NULL. */
  datatype VenueForm = VenueForm(
    name: Option<string>,
    city: Option<string>,
    state: Option<string>,
    address: Option<string>,
    phone: Option<string>,
    website: Option<string>,
    genres: Option<seq<string>>,
    facebookLink: Option<string>,
    imageLink: Option<string>,
    seekingDescription: Option<string>)

  /** A submitted artist form. */
  datatype ArtistForm = ArtistForm(
    name: Option<string>,
    city: Option<string>,
    state: Option<string>,
    phone: Option<string>,
    genres: Option<seq<string>>,
    website: Option<string>,
    facebookLink: Option<string>,
    imageLink: Option<string>,
    seekingVenue: bool,
    seekingDescription: Option<string>)

  /** A submitted show form. */
  datatype ShowForm = ShowForm(artistId: Option<int>, venueId: Option<int>, startTime: Option<int>)

  /**
   What a submission did: committed the row with this id, failed and rolled
   back, or was refused by form validation before touching the store.
   */
  datatype Outcome = Saved(id: int) | Failed | Invalid

  /** `if seeking_description:`: a description that is neither NULL nor empty. */
  predicate Seeking(description: Option<string>)
  {
    description.Some? && description.value != ""
  }

  /** The columns a venue create or edit writes; seeking_talent follows the description. */
  function VenueValuesOf(f: VenueForm): VenueValues
  {
    VenueValues(f.name, f.city, f.state, f.address, f.phone, f.website, f.genres,
                f.facebookLink, f.imageLink, Some(Seeking(f.seekingDescription)), f.seekingDescription)
  }

  /** The columns an artist create writes; seeking_venue follows the description. */
  function NewArtistValues(f: ArtistForm): ArtistValues
  {
    ArtistValues(f.name, f.city, f.state, f.phone, f.website, f.genres, f.facebookLink,
                 f.imageLink, Some(Seeking(f.seekingDescription)), f.seekingDescription)
  }

  /** The columns an artist edit writes; seeking_venue is the submitted checkbox. */
  function EditedArtistValues(f: ArtistForm): ArtistValues
  {
    ArtistValues(f.name, f.city, f.state, f.phone, f.website, f.genres, f.facebookLink,
                 f.imageLink, Some(f.seekingVenue), f.seekingDescription)
  }

  /**
   The page loop of `show_venue`: each show the venue holds goes to the
   upcoming list when it starts at or after `now`, otherwise to the past
   list, with a counter beside each list.
   */
  method SplitVenuePage(artists: seq<Artist>, venues: seq<Venue>, held: seq<Show>, now: int)
    returns (upcoming: seq<ArtistShow>, past: seq<ArtistShow>, upcomingCount: int, pastCount: int)
    requires ShowsReference(held, venues, artists)
    ensures upcomingCount == |upcoming| && pastCount == |past| && upcomingCount + pastCount == |held|
    ensures ArtistShowsSplit(artists, venues, held, now, upcoming, past)
  {
    upcoming, past := [], [];
    upcomingCount, pastCount := 0, 0;
    for i := 0 to |held|
      invariant upcomingCount == |upcoming| && pastCount == |past|
      invariant ArtistShowsSplit(artists, venues, held[..i], now, upcoming, past)
    {
      var s := held[i];
      ArtistShowsSplitStep(artists, venues, held, i, now, upcoming, past);
      if s.startTime >= now {
        upcomingCount := upcomingCount + 1;
        upcoming := upcoming + [ArtistShowOf(artists, s)];
      } else {
        pastCount := pastCount + 1;
        past := past + [ArtistShowOf(artists, s)];
      }
    }
    assert held[..|held|] == held;
    SplitPartitions(held, now);
  }

  /** The page loop of `show_artist`, by the same rule, describing each show by its venue. */
  method SplitArtistPage(artists: seq<Artist>, venues: seq<Venue>, plays: seq<Show>, now: int)
    returns (upcoming: seq<VenueShow>, past: seq<VenueShow>, upcomingCount: int, pastCount: int)
    requires ShowsReference(plays, venues, artists)
    ensures upcomingCount == |upcoming| && pastCount == |past| && upcomingCount + pastCount == |plays|
    ensures VenueShowsSplit(artists, venues, plays, now, upcoming, past)
  {
    past, upcoming := [], [];
    pastCount, upcomingCount := 0, 0;
    for i := 0 to |plays|
      invariant upcomingCount == |upcoming| && pastCount == |past|
      invariant VenueShowsSplit(artists, venues, plays[..i], now, upcoming, past)
    {
      var s := plays[i];
      VenueShowsSplitStep(artists, venues, plays, i, now, upcoming, past);
      if s.startTime >= now {
        upcomingCount := upcomingCount + 1;
        upcoming := upcoming + [VenueShowOf(venues, s)];
      } else {
        past := past + [VenueShowOf(venues, s)];
        pastCount := pastCount + 1;
      }
    }
    assert plays[..|plays|] == plays;
    SplitPartitions(plays, now);
  }

  /** The three tables, with the next value of each table's id sequence. */
  class Store {
    var venues: seq<Venue>
    var artists: seq<Artist>
    var shows: seq<Show>
    var nextVenueId: int
    var nextArtistId: int
    var nextShowId: int

    function Db(): Tables
      reads this
    {
      Tables(venues, artists, shows)
    }

    /** The database's integrity, and every sequence ahead of the ids it has handed out. */
    ghost predicate Valid()
      reads this
    {
      && WellFormed(Db())
      && (forall i :: 0 <= i < |venues| ==> venues[i].id < nextVenueId)
      && (forall i :: 0 <= i < |artists| ==> artists[i].id < nextArtistId)
      && (forall i :: 0 <= i < |shows| ==> shows[i].id < nextShowId)
    }

    /** An empty database; serial ids start at 1. */
    constructor ()
      ensures Valid()
      ensures venues == [] && artists == [] && shows == []
    {
      venues, artists, shows := [], [], [];
      nextVenueId, nextArtistId, nextShowId := 1, 1, 1;
    }

    /**
     `venues()`: one area per distinct (city, state), each holding exactly
     the venues at that location, so every venue is in exactly one area.
     */
    method Venues() returns (areas: seq<Area>)
      ensures ListsAreas(venues, Locations(venues), areas)
      ensures forall i, j :: 0 <= i < j < |areas| ==>
                areas[i].city != areas[j].city || areas[i].state != areas[j].state
      ensures forall i :: 0 <= i < |areas| ==> |areas[i].venues| > 0
      ensures forall k :: 0 <= k < |venues| ==>
                exists i :: 0 <= i < |areas| && areas[i].city == venues[k].city
                              && areas[i].state == venues[k].state && venues[k] in areas[i].venues
      ensures forall i, j, v :: 0 <= i < |areas| && 0 <= j < |areas| && v in areas[i].venues && v in areas[j].venues ==> i == j
    {
      var locations := Locations(venues);
      areas := [];
      for i := 0 to |locations|
        invariant |areas| == i
        invariant forall k :: 0 <= k < i ==> areas[k] == AreaAt(venues, locations[k])
      {
        var loc := locations[i];
        var here := Filter(venues, AtLocation(loc));
        areas := areas + [Area(loc.city, loc.state, here)];
      }
      AreasDistinct(venues, areas);
      AreasCoverVenues(venues, areas);
      AreasDisjoint(venues, areas);
    }

    /**
     `search_venues(term)`: the venues whose name contains the term ignoring
     case, in store order, as (id, name), and their number.
     */
    method SearchVenues(term: string) returns (count: int, data: seq<Summary>)
      ensures count == |data|
      ensures data == MapSeq(Filter(venues, VenueNameILike(term)), VenueSummary)
      ensures forall k :: 0 <= k < |data| ==>
                exists v :: v in venues && data[k] == VenueSummary(v) && ILike(v.name, term)
      ensures forall v :: v in venues && ILike(v.name, term) ==> VenueSummary(v) in data
    {
      var results := Filter(venues, VenueNameILike(term));
      data := [];
      count := 0;
      for i := 0 to |results|
        invariant count == |data| == i
        invariant forall k :: 0 <= k < i ==> data[k] == VenueSummary(results[k])
      {
        count := count + 1;
        data := data + [VenueSummary(results[i])];
      }
      assert data == MapSeq(results, VenueSummary);
      forall v | v in venues && ILike(v.name, term) ensures VenueSummary(v) in data {
        var i :| 0 <= i < |venues| && venues[i] == v;
        assert VenueNameILike(term)(venues[i]);
        var k :| 0 <= k < |results| && results[k] == v;
        assert data[k] == VenueSummary(v);
      }
    }

    /**
     The artist search as its comment describes it: the artists whose own
     name contains the term ignoring case, in store order, and their number.
     */
    method SearchArtists(term: string) returns (count: int, data: seq<Summary>)
      ensures count == |data|
      ensures data == MapSeq(Filter(artists, ArtistNameILike(term)), ArtistSummary)
      ensures forall k :: 0 <= k < |data| ==>
                exists a :: a in artists && data[k] == ArtistSummary(a) && ILike(a.name, term)
      ensures forall a :: a in artists && ILike(a.name, term) ==> ArtistSummary(a) in data
    {
      var results := Filter(artists, ArtistNameILike(term));
      data := [];
      count := 0;
      for i := 0 to |results|
        invariant count == |data| == i
        invariant forall k :: 0 <= k < i ==> data[k] == ArtistSummary(results[k])
      {
        count := count + 1;
        data := data + [ArtistSummary(results[i])];
      }
      assert data == MapSeq(results, ArtistSummary);
      forall a | a in artists && ILike(a.name, term) ensures ArtistSummary(a) in data {
        var i :| 0 <= i < |artists| && artists[i] == a;
        assert ArtistNameILike(term)(artists[i]);
        var k :| 0 <= k < |results| && results[k] == a;
        assert data[k] == ArtistSummary(a);
      }
    }

    /**
     `show_venue(venue_id)`: the venue and its shows, those starting at or
     after `now` upcoming and the rest past, each list in store order and
     described by its artist, with the two counts. `None` when no venue has
     the id (reading `.name` of a missing venue raises).
     */
    method ShowVenue(venueId: int, now: int) returns (page: Option<VenuePage>)
      requires Valid()
      ensures page.Some? <==> venueId in VenueIds(venues)
      ensures page.Some? ==> page.value.venue in venues && page.value.venue.id == venueId
      ensures page.Some? ==>
                page.value.upcomingShowsCount == |page.value.upcomingShows|
                && page.value.pastShowsCount == |page.value.pastShows|
                && page.value.upcomingShowsCount + page.value.pastShowsCount == |Filter(shows, AtVenue(venueId))|
      ensures page.Some? ==>
                var up := Filter(Filter(shows, AtVenue(venueId)), StartsFrom(now));
                ShowsReference(up, venues, artists) && page.value.upcomingShows == ArtistShows(artists, up)
      ensures page.Some? ==>
                var past := Filter(Filter(shows, AtVenue(venueId)), StartsBefore(now));
                ShowsReference(past, venues, artists) && page.value.pastShows == ArtistShows(artists, past)
    {
      var venue := FindVenue(venues, venueId);
      var held := Filter(shows, AtVenue(venueId));
      FilterShowsReference(shows, AtVenue(venueId), venues, artists);
      var upcoming, past, upcomingCount, pastCount := SplitVenuePage(artists, venues, held, now);
      if venue.None? {
        page := None;
      } else {
        page := Some(VenuePage(venue.value, past, upcoming, pastCount, upcomingCount));
      }
    }

    /**
     `show_artist(artist_id)`: the artist and its shows split by the same
     rule, each described by its venue, with the two counts; `None` when no
     artist has the id.
     */
    method ShowArtist(artistId: int, now: int) returns (page: Option<ArtistPage>)
      requires Valid()
      ensures page.Some? <==> artistId in ArtistIds(artists)
      ensures page.Some? ==> page.value.artist in artists && page.value.artist.id == artistId
      ensures page.Some? ==>
                page.value.upcomingShowsCount == |page.value.upcomingShows|
                && page.value.pastShowsCount == |page.value.pastShows|
                && page.value.upcomingShowsCount + page.value.pastShowsCount == |Filter(shows, ByArtist(artistId))|
      ensures page.Some? ==>
                var up := Filter(Filter(shows, ByArtist(artistId)), StartsFrom(now));
                ShowsReference(up, venues, artists) && page.value.upcomingShows == VenueShows(venues, up)
      ensures page.Some? ==>
                var past := Filter(Filter(shows, ByArtist(artistId)), StartsBefore(now));
                ShowsReference(past, venues, artists) && page.value.pastShows == VenueShows(venues, past)
    {
      var artist := FindArtist(artists, artistId);
      var plays := Filter(shows, ByArtist(artistId));
      FilterShowsReference(shows, ByArtist(artistId), venues, artists);
      var upcoming, past, upcomingCount, pastCount := SplitArtistPage(artists, venues, plays, now);
      if artist.None? {
        page := None;
      } else {
        page := Some(ArtistPage(artist.value, past, upcoming, pastCount, upcomingCount));
      }
    }

    /** `artists()`: every artist as (id, name), ordered by name. */
    method Artists() returns (result: seq<Summary>)
      ensures multiset(result) == multiset(MapSeq(artists, ArtistSummary))
      ensures forall i :: 0 < i < |result| ==> LexLe(result[i - 1].name, result[i].name)
    {
      var sorted := SortBy(artists, NameNoLater);
      result := [];
      for i := 0 to |sorted|
        invariant |result| == i
        invariant forall k :: 0 <= k < i ==> result[k] == ArtistSummary(sorted[k])
      {
        result := result + [ArtistSummary(sorted[i])];
      }
      OrdersAreTotal();
      SortBySorted(artists, NameNoLater);
      MapSortBy(artists, NameNoLater, ArtistSummary);
      assert result == MapSeq(sorted, ArtistSummary);
    }

    /**
     `shows()`: every show ordered by start time, each with its venue's name
     and its artist's name and image.
     */
    method Shows() returns (data: seq<ShowListing>)
      requires Valid()
      ensures ShowsReference(SortBy(shows, StartsNoLater), venues, artists)
      ensures data == Listings(Db(), SortBy(shows, StartsNoLater))
    {
      var sorted := SortBy(shows, StartsNoLater);
      SortedShowsReference(Db());
      data := [];
      for i := 0 to |sorted|
        invariant data == Listings(Db(), sorted[..i])
      {
        var s := sorted[i];
        PrefixExtend(sorted, i);
        ListingsAppend(Db(), sorted[..i], s);
        data := data + [ListingOf(Db(), s)];
      }
      assert sorted[..|sorted|] == sorted;
    }

    /**
     `create_venue_submission`: a validated form becomes a new venue row with
     the next id, seeking_talent set exactly when a description is given; a
     failed validation or a rejected row leaves the store unchanged.
     */
    method CreateVenue(validated: bool, form: VenueForm) returns (outcome: Outcome)
      requires Valid()
      modifies this
      ensures Valid()
      ensures nextVenueId == old(nextVenueId) + (if outcome.Saved? then 1 else 0)
      ensures nextArtistId == old(nextArtistId) && nextShowId == old(nextShowId)
      ensures outcome == Invalid <==> !validated
      ensures outcome.Saved? <==> validated && VenueRow(old(nextVenueId), VenueValuesOf(form)).Some?
      ensures outcome.Saved? ==>
                && outcome.id == old(nextVenueId) && outcome.id !in VenueIds(old(venues))
                && venues == old(venues) + [VenueRow(outcome.id, VenueValuesOf(form)).value]
                && artists == old(artists) && shows == old(shows)
      ensures outcome.Saved? ==>
                && FindVenue(venues, outcome.id).Some?
                && VenueHolds(FindVenue(venues, outcome.id).value, VenueValuesOf(form))
                && FindVenue(venues, outcome.id).value.seekingTalent == Seeking(form.seekingDescription)
      ensures !outcome.Saved? ==> unchanged(this)
    {
      if !validated {
        return Invalid;
      }
      var row := VenueRow(nextVenueId, VenueValuesOf(form));
      if row.None? {
        return Failed;
      }
      var v := row.value;
      assert v.id !in VenueIds(venues);
      InsertVenueWellFormed(Db(), v);
      venues := venues + [v];
      nextVenueId := nextVenueId + 1;
      FindVenueUnique(venues, v);
      outcome := Saved(v.id);
    }

    /**
     `create_artist_submission`: a validated form becomes a new artist row
     with the next id, seeking_venue set exactly when a description is given.
     */
    method CreateArtist(validated: bool, form: ArtistForm) returns (outcome: Outcome)
      requires Valid()
      modifies this
      ensures Valid()
      ensures nextArtistId == old(nextArtistId) + (if outcome.Saved? then 1 else 0)
      ensures nextVenueId == old(nextVenueId) && nextShowId == old(nextShowId)
      ensures outcome == Invalid <==> !validated
      ensures outcome.Saved? <==> validated && ArtistRow(old(nextArtistId), NewArtistValues(form)).Some?
      ensures outcome.Saved? ==>
                && outcome.id == old(nextArtistId) && outcome.id !in ArtistIds(old(artists))
                && artists == old(artists) + [ArtistRow(outcome.id, NewArtistValues(form)).value]
                && venues == old(venues) && shows == old(shows)
      ensures outcome.Saved? ==>
                && FindArtist(artists, outcome.id).Some?
                && ArtistHolds(FindArtist(artists, outcome.id).value, NewArtistValues(form))
                && FindArtist(artists, outcome.id).value.seekingVenue == Seeking(form.seekingDescription)
      ensures !outcome.Saved? ==> unchanged(this)
    {
      if !validated {
        return Invalid;
      }
      var row := ArtistRow(nextArtistId, NewArtistValues(form));
      if row.None? {
        return Failed;
      }
      var a := row.value;
      assert a.id !in ArtistIds(artists);
      InsertArtistWellFormed(Db(), a);
      artists := artists + [a];
      nextArtistId := nextArtistId + 1;
      FindArtistUnique(artists, a);
      outcome := Saved(a.id);
    }

    /**
     `create_show_submission`: a validated form becomes a new show when its
     start time is given and its artist and venue exist; otherwise the
     insert is rolled back and nothing changes.
     */
    method CreateShow(validated: bool, form: ShowForm) returns (outcome: Outcome)
      requires Valid()
      modifies this
      ensures Valid()
      ensures nextShowId == old(nextShowId) + (if outcome.Saved? then 1 else 0)
      ensures nextVenueId == old(nextVenueId) && nextArtistId == old(nextArtistId)
      ensures outcome == Invalid <==> !validated
      ensures outcome.Saved? <==>
                && validated && form.startTime.Some? && form.artistId.Some? && form.venueId.Some?
                && form.artistId.value in ArtistIds(old(artists)) && form.venueId.value in VenueIds(old(venues))
      ensures outcome.Saved? ==>
                && outcome.id == old(nextShowId)
                && shows == old(shows) + [Show(outcome.id, form.startTime.value, form.artistId.value, form.venueId.value)]
                && venues == old(venues) && artists == old(artists)
      ensures !outcome.Saved? ==> unchanged(this)
    {
      if !validated {
        return Invalid;
      }
      var row := ShowRow(nextShowId, ShowValues(form.artistId, form.venueId, form.startTime), Db());
      if row.None? {
        return Failed;
      }
      var s := row.value;
      assert s.id !in Keys(shows, ShowKey);
      InsertShowWellFormed(Db(), s);
      shows := shows + [s];
      nextShowId := nextShowId + 1;
      outcome := Saved(s.id);
    }

    /**
     `edit_venue_submission(venue_id)`: a validated form overwrites the
     venue's columns in place and recomputes seeking_talent; the id, every
     other venue, the artists and the shows stay as they were. A missing
     venue or a rejected row rolls back.
     */
    method EditVenue(venueId: int, validated: bool, form: VenueForm) returns (outcome: Outcome)
      requires Valid()
      modifies this
      ensures Valid()
      ensures nextVenueId == old(nextVenueId) && nextArtistId == old(nextArtistId) && nextShowId == old(nextShowId)
      ensures outcome == Invalid <==> !validated
      ensures outcome.Saved? <==>
                validated && venueId in VenueIds(old(venues)) && VenueRow(venueId, VenueValuesOf(form)).Some?
      ensures outcome.Saved? ==>
                && outcome.id == venueId && |venues| == |old(venues)|
                && (forall i :: 0 <= i < |venues| ==>
                      venues[i] == if old(venues)[i].id == venueId then VenueRow(venueId, VenueValuesOf(form)).value
                                   else old(venues)[i])
                && artists == old(artists) && shows == old(shows)
      ensures outcome.Saved? ==>
                && FindVenue(venues, venueId).Some?
                && VenueHolds(FindVenue(venues, venueId).value, VenueValuesOf(form))
                && FindVenue(venues, venueId).value.seekingTalent == Seeking(form.seekingDescription)
      ensures !outcome.Saved? ==> unchanged(this)
    {
      if !validated {
        return Invalid;
      }
      var position := VenuePosition(venues, venueId);
      if position.None? {
        return Failed;
      }
      var row := VenueRow(venueId, VenueValuesOf(form));
      if row.None? {
        return Failed;
      }
      var k := position.value;
      forall i | 0 <= i < |venues| && venues[i].id == venueId ensures i == k {
        assert VenueKey(venues[i]) == VenueKey(venues[k]);
      }
      UpdateVenueWellFormed(Db(), k, row.value);
      var updated := venues[k := row.value];
      assert forall i :: 0 <= i < |updated| ==> updated[i].id < nextVenueId;
      venues := updated;
      FindVenueUnique(venues, row.value);
      outcome := Saved(venueId);
    }

    /**
     `edit_artist_submission(artist_id)`: a validated form overwrites the
     artist's columns in place, storing the submitted seeking_venue as given;
     everything else stays as it was. A missing artist or a rejected row
     rolls back.
     */
    method EditArtist(artistId: int, validated: bool, form: ArtistForm) returns (outcome: Outcome)
      requires Valid()
      modifies this
      ensures Valid()
      ensures nextVenueId == old(nextVenueId) && nextArtistId == old(nextArtistId) && nextShowId == old(nextShowId)
      ensures outcome == Invalid <==> !validated
      ensures outcome.Saved? <==>
                validated && artistId in ArtistIds(old(artists)) && ArtistRow(artistId, EditedArtistValues(form)).Some?
      ensures outcome.Saved? ==>
                && outcome.id == artistId && |artists| == |old(artists)|
                && (forall i :: 0 <= i < |artists| ==>
                      artists[i] == if old(artists)[i].id == artistId then ArtistRow(artistId, EditedArtistValues(form)).value
                                    else old(artists)[i])
                && venues == old(venues) && shows == old(shows)
      ensures outcome.Saved? ==>
                && FindArtist(artists, artistId).Some?
                && ArtistHolds(FindArtist(artists, artistId).value, EditedArtistValues(form))
                && FindArtist(artists, artistId).value.seekingVenue == form.seekingVenue
      ensures !outcome.Saved? ==> unchanged(this)
    {
      if !validated {
        return Invalid;
      }
      var position := ArtistPosition(artists, artistId);
      if position.None? {
        return Failed;
      }
      var row := ArtistRow(artistId, EditedArtistValues(form));
      if row.None? {
        return Failed;
      }
      var k := position.value;
      forall i | 0 <= i < |artists| && artists[i].id == artistId ensures i == k {
        assert ArtistKey(artists[i]) == ArtistKey(artists[k]);
      }
      UpdateArtistWellFormed(Db(), k, row.value);
      var updated := artists[k := row.value];
      assert forall i :: 0 <= i < |updated| ==> updated[i].id < nextArtistId;
      artists := updated;
      FindArtistUnique(artists, row.value);
      outcome := Saved(artistId);
    }

    /**
     `delete_venue(venue_id)`: removes the venue and, by the cascade, exactly
     the shows held at it; a missing venue rolls back and nothing changes.
     */
    method DeleteVenue(venueId: int) returns (outcome: Outcome)
      requires Valid()
      modifies this
      ensures Valid()
      ensures nextVenueId == old(nextVenueId) && nextArtistId == old(nextArtistId) && nextShowId == old(nextShowId)
      ensures outcome.Saved? <==> venueId in VenueIds(old(venues))
      ensures outcome.Saved? ==> outcome.id == venueId && Db() == CascadeDeleteVenue(old(Db()), venueId)
      ensures outcome.Saved? ==>
                && venueId !in VenueIds(venues)
                && (forall v :: v in venues <==> v in old(venues) && v.id != venueId)
                && (forall s :: s in shows <==> s in old(shows) && s.venueId != venueId)
                && artists == old(artists)
      ensures !outcome.Saved? ==> outcome == Failed && unchanged(this)
    {
      if venueId !in VenueIds(venues) {
        return Failed;
      }
      var t := CascadeDeleteVenue(Db(), venueId);
      CascadeDeleteVenueWellFormed(Db(), venueId);
      venues, shows := t.venues, t.shows;
      outcome := Saved(venueId);
    }
  }
}
