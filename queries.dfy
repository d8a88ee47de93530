/**
 The derived views the request handlers build: venues grouped by location,
 name search, a venue's or an artist's shows split into past and upcoming,
 the artist and show listings. This module holds the records the pages are
 given, the row selections the handlers query, and the facts about them.
 */
module Queries {
  import opened Wrappers
  import opened Seqs
  import opened Text
  import opened Models

  /** A (city, state) pair. */
  datatype Location = Location(city: string, state: string)

  /** One group of the venue listing: its location and the venues there. */
  datatype Area = Area(city: string, state: string, venues: seq<Venue>)

  /** `{"id", "name"}`: a search hit or an artist-listing entry. */
  datatype Summary = Summary(id: int, name: string)

  /** A show on a venue's page, described by its artist. */
  datatype ArtistShow = ArtistShow(artistId: int, artistName: string, artistImageLink: Option<string>, startTime: int)

  /** A show on an artist's page, described by its venue. */
  datatype VenueShow = VenueShow(venueId: int, venueName: string, venueImageLink: Option<string>, startTime: int)

  /** The venue page: the venue's columns, its shows split by time, and the two counts. */
  datatype VenuePage = VenuePage(
    venue: Venue,
    pastShows: seq<ArtistShow>,
    upcomingShows: seq<ArtistShow>,
    pastShowsCount: int,
    upcomingShowsCount: int)

  /** The artist page: the artist's columns, its shows split by time, and the two counts. */
  datatype ArtistPage = ArtistPage(
    artist: Artist,
    pastShows: seq<VenueShow>,
    upcomingShows: seq<VenueShow>,
    pastShowsCount: int,
    upcomingShowsCount: int)

  /** An entry of the show listing. */
  datatype ShowListing = ShowListing(
    venueId: int,
    venueName: string,
    artistId: int,
    artistName: string,
    artistImageLink: Option<string>,
    startTime: int)

  function LocationOf(v: Venue): Location { Location(v.city, v.state) }

  /** `Venue.city == loc.city, Venue.state == loc.state` */
  function AtLocation(loc: Location): Venue -> bool { (v: Venue) => v.city == loc.city && v.state == loc.state }

  /** `Venue.name.ilike('%term%')` */
  function VenueNameILike(term: string): Venue -> bool { (v: Venue) => ILike(v.name, term) }

  /** `Artist.name.ilike('%term%')` */
  function ArtistNameILike(term: string): Artist -> bool { (a: Artist) => ILike(a.name, term) }

  /** `filter_by(venue_id = id)` */
  function AtVenue(id: int): Show -> bool { (s: Show) => s.venueId == id }

  /** `filter_by(artist_id = id)` */
  function ByArtist(id: int): Show -> bool { (s: Show) => s.artistId == id }

  /** `show.start_time >= current_time`: the show is upcoming. */
  function StartsFrom(now: int): Show -> bool { (s: Show) => s.startTime >= now }

  /** The else branch of the same test: the show is past. */
  function StartsBefore(now: int): Show -> bool { (s: Show) => s.startTime < now }

  function VenueSummary(v: Venue): Summary { Summary(v.id, v.name) }
  function ArtistSummary(a: Artist): Summary { Summary(a.id, a.name) }

  /** `order_by(Artist.name)` */
  function NameNoLater(a: Artist, b: Artist): bool { LexLe(a.name, b.name) }

  /** `order_by('start_time')` */
  function StartsNoLater(a: Show, b: Show): bool { a.startTime <= b.startTime }

  /** What a listed show says about the show it lists: who plays, where, when. */
  function ListingLink(l: ShowListing): (int, int, int) { (l.artistId, l.venueId, l.startTime) }
  function ShowLink(s: Show): (int, int, int) { (s.artistId, s.venueId, s.startTime) }

  /**
   `Venue.query.distinct('city', 'state')`: every location of a venue,
   each once. The database's enumeration order is unspecified; this
   function fixes one.
   */
  function Locations(vs: seq<Venue>): seq<Location>
  {
    if |vs| == 0 then []
    else
      var rest := Locations(vs[1..]);
      if LocationOf(vs[0]) in rest then rest else [LocationOf(vs[0])] + rest
  }

  /** The distinct locations hold no location twice. */
  lemma {:induction false} LocationsDistinct(vs: seq<Venue>)
    ensures forall i, j :: 0 <= i < j < |Locations(vs)| ==> Locations(vs)[i] != Locations(vs)[j]
    decreases |vs|
  {
    if |vs| > 0 {
      var rest := Locations(vs[1..]);
      LocationsDistinct(vs[1..]);
      if LocationOf(vs[0]) !in rest {
        var r := Locations(vs);
        assert r == [LocationOf(vs[0])] + rest;
        assert forall j :: 0 < j < |r| ==> r[j] == rest[j - 1];
      }
    }
  }

  /** Every venue's location is among the distinct locations. */
  lemma {:induction false} LocationsCover(vs: seq<Venue>)
    ensures forall i :: 0 <= i < |vs| ==> LocationOf(vs[i]) in Locations(vs)
    decreases |vs|
  {
    if |vs| > 0 {
      LocationsCover(vs[1..]);
      assert forall i :: 1 <= i < |vs| ==> vs[i] == vs[1..][i - 1];
    }
  }

  /** Every location in `r` is some venue's location. */
  predicate FromVenues(vs: seq<Venue>, r: seq<Location>)
  {
    forall k :: 0 <= k < |r| ==> exists i :: 0 <= i < |vs| && LocationOf(vs[i]) == r[k]
  }

  /** Every distinct location is some venue's location. */
  lemma {:induction false} LocationsFromVenues(vs: seq<Venue>)
    ensures FromVenues(vs, Locations(vs))
    decreases |vs|
  {
    if |vs| > 0 {
      var rest := Locations(vs[1..]);
      LocationsFromVenues(vs[1..]);
      var r := Locations(vs);
      if LocationOf(vs[0]) !in rest {
        assert r == [LocationOf(vs[0])] + rest;
        forall k | 0 <= k < |r| ensures exists i :: 0 <= i < |vs| && LocationOf(vs[i]) == r[k] {
          if k > 0 {
            var i :| 0 <= i < |vs[1..]| && LocationOf(vs[1..][i]) == rest[k - 1];
            assert LocationOf(vs[i + 1]) == r[k];
          } else {
            assert LocationOf(vs[0]) == r[k];
          }
        }
      } else {
        forall k | 0 <= k < |r| ensures exists i :: 0 <= i < |vs| && LocationOf(vs[i]) == r[k] {
          var i :| 0 <= i < |vs[1..]| && LocationOf(vs[1..][i]) == rest[k];
          assert LocationOf(vs[i + 1]) == r[k];
        }
      }
    }
  }

  /** Where `Venue.query.get(id)` finds its row. */
  function VenuePosition(vs: seq<Venue>, id: int): (r: Option<nat>)
    ensures r.Some? ==> r.value < |vs| && vs[r.value].id == id
    ensures r.None? <==> id !in VenueIds(vs)
  {
    if |vs| == 0 then None
    else if vs[0].id == id then Some(0)
    else
      assert forall i :: 1 <= i < |vs| ==> vs[i] == vs[1..][i - 1];
      match VenuePosition(vs[1..], id)
      case Some(k) => Some(k + 1)
      case None => None
  }

  /** Where `Artist.query.get(id)` finds its row. */
  function ArtistPosition(rows: seq<Artist>, id: int): (r: Option<nat>)
    ensures r.Some? ==> r.value < |rows| && rows[r.value].id == id
    ensures r.None? <==> id !in ArtistIds(rows)
  {
    if |rows| == 0 then None
    else if rows[0].id == id then Some(0)
    else
      assert forall i :: 1 <= i < |rows| ==> rows[i] == rows[1..][i - 1];
      match ArtistPosition(rows[1..], id)
      case Some(k) => Some(k + 1)
      case None => None
  }

  /** `Venue.query.get(id)` */
  function FindVenue(vs: seq<Venue>, id: int): (r: Option<Venue>)
    ensures r.Some? ==> r.value in vs && r.value.id == id
    ensures r.None? <==> id !in VenueIds(vs)
  {
    match VenuePosition(vs, id)
    case Some(k) => Some(vs[k])
    case None => None
  }

  /** `Artist.query.get(id)` */
  function FindArtist(rows: seq<Artist>, id: int): (r: Option<Artist>)
    ensures r.Some? ==> r.value in rows && r.value.id == id
    ensures r.None? <==> id !in ArtistIds(rows)
  {
    match ArtistPosition(rows, id)
    case Some(k) => Some(rows[k])
    case None => None
  }

  /** Under a unique primary key, the row `get` finds is the only one with that id. */
  lemma {:induction false} FindVenueUnique(vs: seq<Venue>, v: Venue)
    requires UniqueBy(vs, VenueKey) && v in vs
    ensures FindVenue(vs, v.id) == Some(v)
  {
    var w := FindVenue(vs, v.id).value;
    var i :| 0 <= i < |vs| && vs[i] == v;
    var j :| 0 <= j < |vs| && vs[j] == w;
    assert VenueKey(vs[i]) == VenueKey(vs[j]);
  }

  lemma {:induction false} FindArtistUnique(rows: seq<Artist>, a: Artist)
    requires UniqueBy(rows, ArtistKey) && a in rows
    ensures FindArtist(rows, a.id) == Some(a)
  {
    var w := FindArtist(rows, a.id).value;
    var i :| 0 <= i < |rows| && rows[i] == a;
    var j :| 0 <= j < |rows| && rows[j] == w;
    assert ArtistKey(rows[i]) == ArtistKey(rows[j]);
  }

  /** The venue-page record of show `s`: the id, name and image of the artist `s.artist_id` names. */
  function ArtistShowOf(artists: seq<Artist>, s: Show): (r: ArtistShow)
    requires s.artistId in ArtistIds(artists)
    ensures r.artistId == s.artistId && r.startTime == s.startTime
    ensures exists a :: a in artists && a.id == s.artistId && r.artistName == a.name && r.artistImageLink == a.imageLink
  {
    var a := FindArtist(artists, s.artistId).value;
    ArtistShow(s.artistId, a.name, a.imageLink, s.startTime)
  }

  /** The artist-page record of show `s`: the id, name and image of the venue `s.venue_id` names. */
  function VenueShowOf(venues: seq<Venue>, s: Show): (r: VenueShow)
    requires s.venueId in VenueIds(venues)
    ensures r.venueId == s.venueId && r.startTime == s.startTime
    ensures exists v :: v in venues && v.id == s.venueId && r.venueName == v.name && r.venueImageLink == v.imageLink
  {
    var v := FindVenue(venues, s.venueId).value;
    VenueShow(s.venueId, v.name, v.imageLink, s.startTime)
  }

  /** A show-listing entry: the show's venue name and its artist's name and image. */
  function ListingOf(t: Tables, s: Show): (r: ShowListing)
    requires s.artistId in ArtistIds(t.artists) && s.venueId in VenueIds(t.venues)
    ensures ListingLink(r) == ShowLink(s)
    ensures exists v :: v in t.venues && v.id == s.venueId && r.venueName == v.name
    ensures exists a :: a in t.artists && a.id == s.artistId && r.artistName == a.name && r.artistImageLink == a.imageLink
  {
    var v := FindVenue(t.venues, s.venueId).value;
    var a := FindArtist(t.artists, s.artistId).value;
    ShowListing(s.venueId, v.name, s.artistId, a.name, a.imageLink, s.startTime)
  }

  /** The venue-page records of `ss`, one per show, in order. */
  function ArtistShows(artists: seq<Artist>, ss: seq<Show>): (r: seq<ArtistShow>)
    requires forall i :: 0 <= i < |ss| ==> ss[i].artistId in ArtistIds(artists)
    ensures |r| == |ss|
    ensures forall i :: 0 <= i < |ss| ==> r[i] == ArtistShowOf(artists, ss[i])
  {
    if |ss| == 0 then [] else [ArtistShowOf(artists, ss[0])] + ArtistShows(artists, ss[1..])
  }

  /** The artist-page records of `ss`, one per show, in order. */
  function VenueShows(venues: seq<Venue>, ss: seq<Show>): (r: seq<VenueShow>)
    requires forall i :: 0 <= i < |ss| ==> ss[i].venueId in VenueIds(venues)
    ensures |r| == |ss|
    ensures forall i :: 0 <= i < |ss| ==> r[i] == VenueShowOf(venues, ss[i])
  {
    if |ss| == 0 then [] else [VenueShowOf(venues, ss[0])] + VenueShows(venues, ss[1..])
  }

  /** The show-listing entries of `ss`, one per show, in order. */
  function Listings(t: Tables, ss: seq<Show>): (r: seq<ShowListing>)
    requires ShowsReference(ss, t.venues, t.artists)
    ensures |r| == |ss|
    ensures forall i :: 0 <= i < |ss| ==> r[i] == ListingOf(t, ss[i])
  {
    if |ss| == 0 then [] else [ListingOf(t, ss[0])] + Listings(t, ss[1..])
  }

  /** Describing one more show appends its record. */
  lemma {:induction false} ArtistShowsAppend(artists: seq<Artist>, ss: seq<Show>, s: Show)
    requires forall i :: 0 <= i < |ss| ==> ss[i].artistId in ArtistIds(artists)
    requires s.artistId in ArtistIds(artists)
    ensures ArtistShows(artists, ss + [s]) == ArtistShows(artists, ss) + [ArtistShowOf(artists, s)]
  {
    assert forall i :: 0 <= i < |ss| ==> (ss + [s])[i] == ss[i];
  }

  /** Describing one more show appends its record. */
  lemma {:induction false} VenueShowsAppend(venues: seq<Venue>, ss: seq<Show>, s: Show)
    requires forall i :: 0 <= i < |ss| ==> ss[i].venueId in VenueIds(venues)
    requires s.venueId in VenueIds(venues)
    ensures VenueShows(venues, ss + [s]) == VenueShows(venues, ss) + [VenueShowOf(venues, s)]
  {
    assert forall i :: 0 <= i < |ss| ==> (ss + [s])[i] == ss[i];
  }

  /** Listing one more show appends its entry. */
  lemma {:induction false} ListingsAppend(t: Tables, ss: seq<Show>, s: Show)
    requires ShowsReference(ss, t.venues, t.artists)
    requires s.artistId in ArtistIds(t.artists) && s.venueId in VenueIds(t.venues)
    ensures ShowsReference(ss + [s], t.venues, t.artists)
    ensures Listings(t, ss + [s]) == Listings(t, ss) + [ListingOf(t, s)]
  {
    assert forall i :: 0 <= i < |ss| ==> (ss + [s])[i] == ss[i];
  }

  /** Each listing entry carries its show's artist, venue and start time: the listing neither drops, adds nor alters a show. */
  lemma {:induction false} ListingsFollowShows(t: Tables, ss: seq<Show>)
    requires ShowsReference(ss, t.venues, t.artists)
    ensures MapSeq(Listings(t, ss), ListingLink) == MapSeq(ss, ShowLink)
  {
  }

  /** Listing shows sorted by start time: the entries are in start-time order and carry exactly the shows' links. */
  lemma {:induction false} ListingsOfSorted(t: Tables, ss: seq<Show>)
    requires ShowsReference(ss, t.venues, t.artists) && SortedBy(ss, StartsNoLater)
    ensures var d := Listings(t, ss);
      && (forall i :: 0 < i < |d| ==> d[i - 1].startTime <= d[i].startTime)
      && MapSeq(d, ListingLink) == MapSeq(ss, ShowLink)
  {
    var d := Listings(t, ss);
    forall i | 0 < i < |d| ensures d[i - 1].startTime <= d[i].startTime {
      assert ListingLink(d[i - 1]) == ShowLink(ss[i - 1]);
      assert ListingLink(d[i]) == ShowLink(ss[i]);
    }
  }

  /** Reordering the shows keeps every show's references resolvable. */
  lemma {:induction false} SortedShowsReference(t: Tables)
    requires ShowsReference(t.shows, t.venues, t.artists)
    ensures ShowsReference(SortBy(t.shows, StartsNoLater), t.venues, t.artists)
  {
    var sorted := SortBy(t.shows, StartsNoLater);
    SortByPermutes(t.shows, StartsNoLater);
    forall i | 0 <= i < |sorted|
      ensures sorted[i].artistId in ArtistIds(t.artists) && sorted[i].venueId in VenueIds(t.venues)
    {
      assert sorted[i] in multiset(t.shows);
      var j :| 0 <= j < |t.shows| && t.shows[j] == sorted[i];
    }
  }

  /** `shows()`'s listing has one entry per show, in start-time order. */
  lemma {:induction false} ShowListingsOrdered(t: Tables)
    requires ShowsReference(t.shows, t.venues, t.artists)
    ensures ShowsReference(SortBy(t.shows, StartsNoLater), t.venues, t.artists)
    ensures var d := Listings(t, SortBy(t.shows, StartsNoLater));
      |d| == |t.shows| && forall i :: 0 < i < |d| ==> d[i - 1].startTime <= d[i].startTime
  {
    var sorted := SortBy(t.shows, StartsNoLater);
    SortedShowsReference(t);
    OrdersAreTotal();
    SortBySorted(t.shows, StartsNoLater);
    ListingsOfSorted(t, sorted);
    SortByPermutes(t.shows, StartsNoLater);
    assert |sorted| == |multiset(t.shows)| == |t.shows|;
  }

  /** `shows()`'s listing carries exactly the shows' (artist, venue, start time) links: no show dropped, added or altered. */
  lemma {:induction false} ShowListingsPermute(t: Tables)
    requires ShowsReference(t.shows, t.venues, t.artists)
    ensures ShowsReference(SortBy(t.shows, StartsNoLater), t.venues, t.artists)
    ensures multiset(MapSeq(Listings(t, SortBy(t.shows, StartsNoLater)), ListingLink)) == multiset(MapSeq(t.shows, ShowLink))
  {
    SortedShowsReference(t);
    ListingsFollowShows(t, SortBy(t.shows, StartsNoLater));
    MapSortBy(t.shows, StartsNoLater, ShowLink);
  }

  /** Each entry of `shows()`'s listing names its show's venue, and its show's artist with that artist's image. */
  lemma {:induction false} ShowListingsNamed(t: Tables)
    requires ShowsReference(t.shows, t.venues, t.artists)
    ensures ShowsReference(SortBy(t.shows, StartsNoLater), t.venues, t.artists)
    ensures var d := Listings(t, SortBy(t.shows, StartsNoLater));
      && (forall k :: 0 <= k < |d| ==>
            exists v :: v in t.venues && v.id == d[k].venueId && d[k].venueName == v.name)
      && (forall k :: 0 <= k < |d| ==>
            exists a :: a in t.artists && a.id == d[k].artistId
                          && d[k].artistName == a.name && d[k].artistImageLink == a.imageLink)
  {
    SortedShowsReference(t);
  }

  /**
   The venue page's two lists once the handler has looked at the shows
   `done`: the upcoming ones and the past ones, described by their artists.
   */
  predicate ArtistShowsSplit(artists: seq<Artist>, venues: seq<Venue>, done: seq<Show>, now: int,
                             upcoming: seq<ArtistShow>, past: seq<ArtistShow>)
  {
    && ShowsReference(Filter(done, StartsFrom(now)), venues, artists)
    && ShowsReference(Filter(done, StartsBefore(now)), venues, artists)
    && upcoming == ArtistShows(artists, Filter(done, StartsFrom(now)))
    && past == ArtistShows(artists, Filter(done, StartsBefore(now)))
  }

  /** The artist page's two lists once the handler has looked at the shows `done`, described by their venues. */
  predicate VenueShowsSplit(artists: seq<Artist>, venues: seq<Venue>, done: seq<Show>, now: int,
                            upcoming: seq<VenueShow>, past: seq<VenueShow>)
  {
    && ShowsReference(Filter(done, StartsFrom(now)), venues, artists)
    && ShowsReference(Filter(done, StartsBefore(now)), venues, artists)
    && upcoming == VenueShows(venues, Filter(done, StartsFrom(now)))
    && past == VenueShows(venues, Filter(done, StartsBefore(now)))
  }

  /** Looking at one more show puts it, and only it, at the end of exactly one list. */
  lemma {:induction false} SplitStep(ss: seq<Show>, i: nat, now: int)
    requires i < |ss|
    ensures ss[i].startTime >= now ==>
              && Filter(ss[..i + 1], StartsFrom(now)) == Filter(ss[..i], StartsFrom(now)) + [ss[i]]
              && Filter(ss[..i + 1], StartsBefore(now)) == Filter(ss[..i], StartsBefore(now))
    ensures ss[i].startTime < now ==>
              && Filter(ss[..i + 1], StartsFrom(now)) == Filter(ss[..i], StartsFrom(now))
              && Filter(ss[..i + 1], StartsBefore(now)) == Filter(ss[..i], StartsBefore(now)) + [ss[i]]
  {
    var s := ss[i];
    assert ss[..i + 1] == ss[..i] + [s];
    SplitKeepsOrder(ss[..i], [s], now);
    assert [s][1..] == [];
  }

  /** The venue page's loop step: the show goes to the upcoming list when it starts at or after `now`, else to the past list. */
  lemma {:induction false} ArtistShowsSplitStep(artists: seq<Artist>, venues: seq<Venue>, ss: seq<Show>, i: nat, now: int,
                                                upcoming: seq<ArtistShow>, past: seq<ArtistShow>)
    requires i < |ss| && ShowsReference(ss, venues, artists)
    requires ArtistShowsSplit(artists, venues, ss[..i], now, upcoming, past)
    ensures ss[i].startTime >= now ==>
              ArtistShowsSplit(artists, venues, ss[..i + 1], now, upcoming + [ArtistShowOf(artists, ss[i])], past)
    ensures ss[i].startTime < now ==>
              ArtistShowsSplit(artists, venues, ss[..i + 1], now, upcoming, past + [ArtistShowOf(artists, ss[i])])
  {
    SplitStep(ss, i, now);
    var s := ss[i];
    assert s.artistId in ArtistIds(artists) && s.venueId in VenueIds(venues);
    var up, pa := Filter(ss[..i], StartsFrom(now)), Filter(ss[..i], StartsBefore(now));
    if s.startTime >= now {
      ShowsReferenceAppend(up, s, venues, artists);
      ArtistShowsAppend(artists, up, s);
    } else {
      ShowsReferenceAppend(pa, s, venues, artists);
      ArtistShowsAppend(artists, pa, s);
    }
  }

  /** The artist page's loop step, by the same rule. */
  lemma {:induction false} VenueShowsSplitStep(artists: seq<Artist>, venues: seq<Venue>, ss: seq<Show>, i: nat, now: int,
                                               upcoming: seq<VenueShow>, past: seq<VenueShow>)
    requires i < |ss| && ShowsReference(ss, venues, artists)
    requires VenueShowsSplit(artists, venues, ss[..i], now, upcoming, past)
    ensures ss[i].startTime >= now ==>
              VenueShowsSplit(artists, venues, ss[..i + 1], now, upcoming + [VenueShowOf(venues, ss[i])], past)
    ensures ss[i].startTime < now ==>
              VenueShowsSplit(artists, venues, ss[..i + 1], now, upcoming, past + [VenueShowOf(venues, ss[i])])
  {
    SplitStep(ss, i, now);
    var s := ss[i];
    assert s.artistId in ArtistIds(artists) && s.venueId in VenueIds(venues);
    var up, pa := Filter(ss[..i], StartsFrom(now)), Filter(ss[..i], StartsBefore(now));
    if s.startTime >= now {
      ShowsReferenceAppend(up, s, venues, artists);
      VenueShowsAppend(venues, up, s);
    } else {
      ShowsReferenceAppend(pa, s, venues, artists);
      VenueShowsAppend(venues, pa, s);
    }
  }

  /** The listing's group for `loc`: the venues there, filtered as the handler's inner query does. */
  function AreaAt(vs: seq<Venue>, loc: Location): Area
  {
    Area(loc.city, loc.state, Filter(vs, AtLocation(loc)))
  }

  /** The listing built from `locations`: one group per location, in that order. */
  predicate ListsAreas(vs: seq<Venue>, locations: seq<Location>, areas: seq<Area>)
  {
    |areas| == |locations| && forall k :: 0 <= k < |areas| ==> areas[k] == AreaAt(vs, locations[k])
  }

  /** A venue in the group for `loc` lies at `loc`. */
  lemma {:induction false} AreaMember(vs: seq<Venue>, loc: Location, v: Venue)
    requires v in AreaAt(vs, loc).venues
    ensures LocationOf(v) == loc
  {
    var r := Filter(vs, AtLocation(loc));
    var a :| 0 <= a < |r| && r[a] == v;
  }

  /** Distinct locations give distinct groups, and each group is non-empty. */
  lemma {:induction false} AreasDistinct(vs: seq<Venue>, areas: seq<Area>)
    requires ListsAreas(vs, Locations(vs), areas)
    ensures forall i, j :: 0 <= i < j < |areas| ==>
              areas[i].city != areas[j].city || areas[i].state != areas[j].state
    ensures forall i :: 0 <= i < |areas| ==> |areas[i].venues| > 0
  {
    var locations := Locations(vs);
    LocationsDistinct(vs);
    LocationsFromVenues(vs);
    forall i, j | 0 <= i < j < |areas| ensures areas[i].city != areas[j].city || areas[i].state != areas[j].state {
      assert locations[i] != locations[j];
    }
    forall i | 0 <= i < |areas| ensures |areas[i].venues| > 0 {
      var k :| 0 <= k < |vs| && LocationOf(vs[k]) == locations[i];
      assert AtLocation(locations[i])(vs[k]);
    }
  }

  /** Every venue lies in the group of its own location. */
  lemma {:induction false} AreasCoverVenues(vs: seq<Venue>, areas: seq<Area>)
    requires ListsAreas(vs, Locations(vs), areas)
    ensures forall k :: 0 <= k < |vs| ==>
              exists i :: 0 <= i < |areas| && areas[i].city == vs[k].city
                            && areas[i].state == vs[k].state && vs[k] in areas[i].venues
  {
    var locations := Locations(vs);
    LocationsCover(vs);
    forall k | 0 <= k < |vs|
      ensures exists i :: 0 <= i < |areas| && areas[i].city == vs[k].city
                            && areas[i].state == vs[k].state && vs[k] in areas[i].venues
    {
      var i :| 0 <= i < |locations| && locations[i] == LocationOf(vs[k]);
      assert AtLocation(locations[i])(vs[k]);
      assert vs[k] in areas[i].venues;
    }
  }

  /** No venue lies in two groups. */
  lemma {:induction false} AreasDisjoint(vs: seq<Venue>, areas: seq<Area>)
    requires ListsAreas(vs, Locations(vs), areas)
    ensures forall i, j, v :: 0 <= i < |areas| && 0 <= j < |areas| && v in areas[i].venues && v in areas[j].venues ==> i == j
  {
    var locations := Locations(vs);
    LocationsDistinct(vs);
    forall i, j, v | 0 <= i < |areas| && 0 <= j < |areas| && v in areas[i].venues && v in areas[j].venues
      ensures i == j
    {
      AreaMember(vs, locations[i], v);
      AreaMember(vs, locations[j], v);
    }
  }

  /** With unique artist ids, a venue-page record names the very artist the show references. */
  lemma {:induction false} ArtistShowNamesItsArtist(artists: seq<Artist>, s: Show, a: Artist)
    requires UniqueBy(artists, ArtistKey) && a in artists && a.id == s.artistId
    ensures ArtistShowOf(artists, s).artistName == a.name
    ensures ArtistShowOf(artists, s).artistImageLink == a.imageLink
  {
    FindArtistUnique(artists, a);
  }

  /** With unique venue ids, an artist-page record names the very venue the show references. */
  lemma {:induction false} VenueShowNamesItsVenue(venues: seq<Venue>, s: Show, v: Venue)
    requires UniqueBy(venues, VenueKey) && v in venues && v.id == s.venueId
    ensures VenueShowOf(venues, s).venueName == v.name
    ensures VenueShowOf(venues, s).venueImageLink == v.imageLink
  {
    FindVenueUnique(venues, v);
  }

  /**
   Splitting shows at `now`: every show is upcoming or past and not both, a
   show starting exactly at `now` is upcoming, and the two parts together are
   the shows split.
   */
  lemma {:induction false} SplitPartitions(ss: seq<Show>, now: int)
    ensures |Filter(ss, StartsFrom(now))| + |Filter(ss, StartsBefore(now))| == |ss|
    ensures multiset(Filter(ss, StartsFrom(now))) + multiset(Filter(ss, StartsBefore(now))) == multiset(ss)
    ensures forall s :: s in ss ==> (s in Filter(ss, StartsFrom(now)) <==> s !in Filter(ss, StartsBefore(now)))
    ensures forall s :: s in ss && s.startTime == now ==> s in Filter(ss, StartsFrom(now))
  {
    FilterSplit(ss, StartsFrom(now), StartsBefore(now));
    forall s | s in ss ensures s in Filter(ss, StartsFrom(now)) <==> s !in Filter(ss, StartsBefore(now)) {
      var i :| 0 <= i < |ss| && ss[i] == s;
      if s.startTime >= now {
        assert ss[i] in Filter(ss, StartsFrom(now));
      } else {
        assert ss[i] in Filter(ss, StartsBefore(now));
      }
    }
  }

  /** The split keeps the shows' relative order: splitting `a + b` is splitting `a`, then `b`. */
  lemma {:induction false} SplitKeepsOrder(a: seq<Show>, b: seq<Show>, now: int)
    ensures Filter(a + b, StartsFrom(now)) == Filter(a, StartsFrom(now)) + Filter(b, StartsFrom(now))
    ensures Filter(a + b, StartsBefore(now)) == Filter(a, StartsBefore(now)) + Filter(b, StartsBefore(now))
  {
    FilterAppend(a, b, StartsFrom(now));
    FilterAppend(a, b, StartsBefore(now));
  }

  /** The empty search term matches every row, so the search returns them all. */
  lemma {:induction false} SearchEmptyTerm(vs: seq<Venue>, rows: seq<Artist>)
    ensures Filter(vs, VenueNameILike("")) == vs
    ensures Filter(rows, ArtistNameILike("")) == rows
  {
    forall v | v in vs ensures VenueNameILike("")(v) { ILikeEmptyTerm(v.name); }
    FilterAll(vs, VenueNameILike(""));
    forall a | a in rows ensures ArtistNameILike("")(a) { ILikeEmptyTerm(a.name); }
    FilterAll(rows, ArtistNameILike(""));
  }

  /** Both orderings relate any two rows. */
  lemma {:induction false} OrdersAreTotal()
    ensures Total(NameNoLater)
    ensures Total(StartsNoLater)
  {
    forall a: Artist, b: Artist ensures NameNoLater(a, b) || NameNoLater(b, a) {
      LexLeTotal(a.name, b.name);
    }
  }

  /**
   As written, the artist search filters on `Venue.name`, so the query
   ranges over every (artist, venue) pair; the ORM keeps each artist once.
   The result is therefore every artist when some venue's name matches the
   term, and no artist otherwise.
   */
  function SearchArtistsAsWritten(t: Tables, term: string): (r: seq<Artist>)
    ensures r == [] || r == t.artists
  {
    if exists i :: 0 <= i < |t.venues| && ILike(t.venues[i].name, term) then t.artists else []
  }
}
