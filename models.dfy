/**
 The three tables of the booking directory (`Venue`, `Artist`, `Show`) as
 their columns declare them: which columns are NOT NULL, the varchar
 lengths, the column defaults, the primary keys, the foreign keys from
 `Show` to `Artist` and `Venue`, and the cascading deletes.
 */
module Models {
  import opened Wrappers
  import opened Seqs

  /** `db.String(120)`: city, state, address, phone. */
  const ShortText: nat := 120
  /** `db.String(500)`: website, facebook_link, image_link. */
  const LinkText: nat := 500
  /** `db.String(1000)`: seeking_description. */
  const LongText: nat := 1000

  /** A nullable varchar(n) column: NULL, or at most `n` characters. */
  predicate FitsOpt(o: Option<string>, n: nat)
  {
    o.None? || |o.value| <= n
  }

  /** Every character of `s` from position `n` on is a space. */
  predicate SpacesFrom(s: string, n: nat)
  {
    forall k :: n <= k < |s| ==> s[k] == ' '
  }

  /**
   PostgreSQL's rule for a value `s` written to a varchar(n) column: a value
   of at most `n` characters is stored as it is; a longer one whose excess
   is all spaces is stored cut to `n`; any other longer one is refused, so
   no `t` is stored for it.
   */
  predicate StoresText(t: string, s: string, n: nat)
  {
    if |s| <= n then t == s else t == s[..n] && SpacesFrom(s, n)
  }

  /** The same rule for a nullable column: NULL stays NULL. */
  predicate StoresOpt(t: Option<string>, s: Option<string>, n: nat)
  {
    if s.None? then t.None? else t.Some? && StoresText(t.value, s.value, n)
  }

  /** The value varchar(n) makes of `s`: cut to `n` when only spaces lie past `n`. */
  function Clip(s: string, n: nat): (t: string)
    ensures SpacesFrom(s, n) ==> StoresText(t, s, n) && |t| <= n
    ensures forall u :: StoresText(u, s, n) ==> u == t && |t| <= n
  {
    if |s| > n && SpacesFrom(s, n) then s[..n] else s
  }

  /** `Clip` on a nullable column. */
  function ClipOpt(o: Option<string>, n: nat): (r: Option<string>)
    ensures o.None? ==> r.None?
    ensures o.Some? && SpacesFrom(o.value, n) ==> StoresOpt(r, o, n) && FitsOpt(r, n)
    ensures forall u :: StoresOpt(u, o, n) ==> u == r && FitsOpt(r, n)
  {
    if o.None? then None else Some(Clip(o.value, n))
  }

  /** A stored `Venue` row. Nullable columns are `Option`s. */
  datatype Venue = Venue(
    id: int,
    name: string,
    city: string,
    state: string,
    address: string,
    phone: Option<string>,
    website: Option<string>,
    genres: seq<string>,
    facebookLink: Option<string>,
    imageLink: Option<string>,
    seekingTalent: bool,
    seekingDescription: Option<string>)

  /** A stored `Artist` row. */
  datatype Artist = Artist(
    id: int,
    name: string,
    city: string,
    state: string,
    phone: Option<string>,
    website: Option<string>,
    genres: seq<string>,
    facebookLink: string,
    imageLink: Option<string>,
    seekingVenue: bool,
    seekingDescription: Option<string>)

  /** A stored `Show` row; `startTime` is a timestamp. */
  datatype Show = Show(id: int, startTime: int, artistId: int, venueId: int)

  /** The column values handed to the ORM for a `Venue`; `None` is NULL (or, for seeking_talent, not supplied). */
  datatype VenueValues = VenueValues(
    name: Option<string>,
    city: Option<string>,
    state: Option<string>,
    address: Option<string>,
    phone: Option<string>,
    website: Option<string>,
    genres: Option<seq<string>>,
    facebookLink: Option<string>,
    imageLink: Option<string>,
    seekingTalent: Option<bool>,
    seekingDescription: Option<string>)

  /** The column values handed to the ORM for an `Artist`. */
  datatype ArtistValues = ArtistValues(
    name: Option<string>,
    city: Option<string>,
    state: Option<string>,
    phone: Option<string>,
    website: Option<string>,
    genres: Option<seq<string>>,
    facebookLink: Option<string>,
    imageLink: Option<string>,
    seekingVenue: Option<bool>,
    seekingDescription: Option<string>)

  /** The column values handed to the ORM for a `Show`. */
  datatype ShowValues = ShowValues(artistId: Option<int>, venueId: Option<int>, startTime: Option<int>)

  /** All three tables, each in store-iteration order. */
  datatype Tables = Tables(venues: seq<Venue>, artists: seq<Artist>, shows: seq<Show>)

  function VenueKey(v: Venue): int { v.id }
  function ArtistKey(a: Artist): int { a.id }
  function ShowKey(s: Show): int { s.id }

  function VenueIds(vs: seq<Venue>): set<int> { Keys(vs, VenueKey) }
  function ArtistIds(rows: seq<Artist>): set<int> { Keys(rows, ArtistKey) }

  /** The varchar bounds of a venue row. */
  predicate VenueFits(v: Venue)
  {
    && |v.city| <= ShortText && |v.state| <= ShortText && |v.address| <= ShortText
    && FitsOpt(v.phone, ShortText)
    && FitsOpt(v.website, LinkText) && FitsOpt(v.facebookLink, LinkText) && FitsOpt(v.imageLink, LinkText)
    && FitsOpt(v.seekingDescription, LongText)
  }

  /** The varchar bounds of an artist row. */
  predicate ArtistFits(a: Artist)
  {
    && |a.city| <= ShortText && |a.state| <= ShortText
    && FitsOpt(a.phone, ShortText)
    && FitsOpt(a.website, LinkText) && |a.facebookLink| <= LinkText && FitsOpt(a.imageLink, LinkText)
    && FitsOpt(a.seekingDescription, LongText)
  }

  /**
   Row `v` stores `vals`: name and genres as given, each varchar column as
   PostgreSQL stores the given value, and seeking_talent's default (False)
   when it was not supplied.
   */
  predicate VenueHolds(v: Venue, vals: VenueValues)
  {
    && vals.name == Some(v.name) && vals.genres == Some(v.genres)
    && vals.city.Some? && StoresText(v.city, vals.city.value, ShortText)
    && vals.state.Some? && StoresText(v.state, vals.state.value, ShortText)
    && vals.address.Some? && StoresText(v.address, vals.address.value, ShortText)
    && StoresOpt(v.phone, vals.phone, ShortText)
    && StoresOpt(v.website, vals.website, LinkText)
    && StoresOpt(v.facebookLink, vals.facebookLink, LinkText)
    && StoresOpt(v.imageLink, vals.imageLink, LinkText)
    && v.seekingTalent == GetOr(vals.seekingTalent, false)
    && StoresOpt(v.seekingDescription, vals.seekingDescription, LongText)
  }

  /** Row `a` stores `vals`, with seeking_venue's default (True) when it was not supplied. */
  predicate ArtistHolds(a: Artist, vals: ArtistValues)
  {
    && vals.name == Some(a.name) && vals.genres == Some(a.genres)
    && vals.city.Some? && StoresText(a.city, vals.city.value, ShortText)
    && vals.state.Some? && StoresText(a.state, vals.state.value, ShortText)
    && StoresOpt(a.phone, vals.phone, ShortText)
    && StoresOpt(a.website, vals.website, LinkText)
    && vals.facebookLink.Some? && StoresText(a.facebookLink, vals.facebookLink.value, LinkText)
    && StoresOpt(a.imageLink, vals.imageLink, LinkText)
    && a.seekingVenue == GetOr(vals.seekingVenue, true)
    && StoresOpt(a.seekingDescription, vals.seekingDescription, LongText)
  }

  /**
   The row the database writes for `vals` under primary key `id`, or `None`
   when a NOT NULL column (name, city, state, address, genres) is NULL or a
   value has a non-space character past its varchar length.
   */
  function VenueRow(id: int, vals: VenueValues): (r: Option<Venue>)
    ensures r.Some? ==> r.value.id == id && VenueHolds(r.value, vals) && VenueFits(r.value)
    ensures r.None? ==> forall v :: !VenueHolds(v, vals)
    ensures vals.name.None? || vals.city.None? || vals.state.None? || vals.address.None? || vals.genres.None? ==> r.None?
  {
    if vals.name.None? || vals.city.None? || vals.state.None? || vals.address.None? || vals.genres.None? then None
    else
      var v := Venue(id, vals.name.value, Clip(vals.city.value, ShortText), Clip(vals.state.value, ShortText),
                     Clip(vals.address.value, ShortText), ClipOpt(vals.phone, ShortText),
                     ClipOpt(vals.website, LinkText), vals.genres.value, ClipOpt(vals.facebookLink, LinkText),
                     ClipOpt(vals.imageLink, LinkText), GetOr(vals.seekingTalent, false),
                     ClipOpt(vals.seekingDescription, LongText));
      if VenueFits(v) then Some(v) else None
  }

  /**
   The row the database writes for `vals` under primary key `id`, or `None`
   when a NOT NULL column (name, city, state, genres, facebook_link) is NULL
   or a value has a non-space character past its varchar length.
   */
  function ArtistRow(id: int, vals: ArtistValues): (r: Option<Artist>)
    ensures r.Some? ==> r.value.id == id && ArtistHolds(r.value, vals) && ArtistFits(r.value)
    ensures r.None? ==> forall a :: !ArtistHolds(a, vals)
    ensures vals.name.None? || vals.city.None? || vals.state.None? || vals.genres.None? || vals.facebookLink.None? ==> r.None?
  {
    if vals.name.None? || vals.city.None? || vals.state.None? || vals.genres.None? || vals.facebookLink.None? then None
    else
      var a := Artist(id, vals.name.value, Clip(vals.city.value, ShortText), Clip(vals.state.value, ShortText),
                      ClipOpt(vals.phone, ShortText), ClipOpt(vals.website, LinkText), vals.genres.value,
                      Clip(vals.facebookLink.value, LinkText), ClipOpt(vals.imageLink, LinkText),
                      GetOr(vals.seekingVenue, true), ClipOpt(vals.seekingDescription, LongText));
      if ArtistFits(a) then Some(a) else None
  }

  /**
   Spaces typed after a city that already fills its column are cut off: the
   venue row is the one written without them, and the write still succeeds.
   */
  lemma {:induction false} VenueCityPadding(id: int, vals: VenueValues, pad: string)
    requires VenueRow(id, vals).Some? && vals.city.Some? && |vals.city.value| == ShortText
    requires forall k :: 0 <= k < |pad| ==> pad[k] == ' '
    ensures VenueRow(id, vals.(city := Some(vals.city.value + pad))) == VenueRow(id, vals)
  {
    var c := vals.city.value;
    assert (c + pad)[..ShortText] == c;
    assert SpacesFrom(c + pad, ShortText) by {
      forall k | ShortText <= k < |c + pad| ensures (c + pad)[k] == ' ' {
        assert (c + pad)[k] == pad[k - ShortText];
      }
    }
    assert Clip(c + pad, ShortText) == c == Clip(c, ShortText);
  }

  /** The same for an artist's facebook_link that already fills its column. */
  lemma {:induction false} ArtistLinkPadding(id: int, vals: ArtistValues, pad: string)
    requires ArtistRow(id, vals).Some? && vals.facebookLink.Some? && |vals.facebookLink.value| == LinkText
    requires forall k :: 0 <= k < |pad| ==> pad[k] == ' '
    ensures ArtistRow(id, vals.(facebookLink := Some(vals.facebookLink.value + pad))) == ArtistRow(id, vals)
  {
    var f := vals.facebookLink.value;
    assert (f + pad)[..LinkText] == f;
    assert SpacesFrom(f + pad, LinkText) by {
      forall k | LinkText <= k < |f + pad| ensures (f + pad)[k] == ' ' {
        assert (f + pad)[k] == pad[k - LinkText];
      }
    }
    assert Clip(f + pad, LinkText) == f == Clip(f, LinkText);
  }

  /**
   The row the database writes for `vals` under primary key `id`, or `None`
   when start_time, artist_id or venue_id is NULL or a foreign key names no
   existing row of `t`.
   */
  function ShowRow(id: int, vals: ShowValues, t: Tables): (r: Option<Show>)
    ensures r.Some? <==> vals.startTime.Some? && vals.artistId.Some? && vals.venueId.Some?
                         && vals.artistId.value in ArtistIds(t.artists) && vals.venueId.value in VenueIds(t.venues)
    ensures r.Some? ==> r.value == Show(id, vals.startTime.value, vals.artistId.value, vals.venueId.value)
  {
    if vals.startTime.None? || vals.artistId.None? || vals.venueId.None? then None
    else if vals.artistId.value !in ArtistIds(t.artists) || vals.venueId.value !in VenueIds(t.venues) then None
    else Some(Show(id, vals.startTime.value, vals.artistId.value, vals.venueId.value))
  }

  /** Every show references an existing artist and an existing venue. */
  predicate ShowsReference(shows: seq<Show>, venues: seq<Venue>, artists: seq<Artist>)
  {
    forall i :: 0 <= i < |shows| ==> shows[i].artistId in ArtistIds(artists) && shows[i].venueId in VenueIds(venues)
  }

  /** Any selection of shows whose references resolve still resolves. */
  lemma {:induction false} FilterShowsReference(ss: seq<Show>, p: Show -> bool, venues: seq<Venue>, artists: seq<Artist>)
    requires ShowsReference(ss, venues, artists)
    ensures ShowsReference(Filter(ss, p), venues, artists)
  {
    var r := Filter(ss, p);
    forall i | 0 <= i < |r| ensures r[i].artistId in ArtistIds(artists) && r[i].venueId in VenueIds(venues) {
      var j :| 0 <= j < |ss| && ss[j] == r[i];
    }
  }

  /** Adding a show whose references resolve keeps every reference resolvable. */
  lemma {:induction false} ShowsReferenceAppend(ss: seq<Show>, s: Show, venues: seq<Venue>, artists: seq<Artist>)
    requires ShowsReference(ss, venues, artists)
    requires s.artistId in ArtistIds(artists) && s.venueId in VenueIds(venues)
    ensures ShowsReference(ss + [s], venues, artists)
  {
    assert forall i :: 0 <= i < |ss| ==> (ss + [s])[i] == ss[i];
  }

  /** The database's integrity: unique primary keys, column constraints, and foreign keys. */
  predicate WellFormed(t: Tables)
  {
    && UniqueBy(t.venues, VenueKey) && UniqueBy(t.artists, ArtistKey) && UniqueBy(t.shows, ShowKey)
    && (forall i :: 0 <= i < |t.venues| ==> VenueFits(t.venues[i]))
    && (forall i :: 0 <= i < |t.artists| ==> ArtistFits(t.artists[i]))
    && ShowsReference(t.shows, t.venues, t.artists)
  }

  function NotVenue(id: int): Venue -> bool { (v: Venue) => v.id != id }
  function NotArtist(id: int): Artist -> bool { (a: Artist) => a.id != id }
  function NotAtVenue(id: int): Show -> bool { (s: Show) => s.venueId != id }
  function NotByArtist(id: int): Show -> bool { (s: Show) => s.artistId != id }

  /**
   Deleting venue `id`: the `cascade='all, delete'` relationship and the
   `ondelete='CASCADE'` foreign key remove exactly the shows held at it.
   */
  function CascadeDeleteVenue(t: Tables, id: int): (r: Tables)
    ensures r.artists == t.artists
    ensures forall v :: v in r.venues <==> v in t.venues && v.id != id
    ensures forall s :: s in r.shows <==> s in t.shows && s.venueId != id
  {
    Tables(Filter(t.venues, NotVenue(id)), t.artists, Filter(t.shows, NotAtVenue(id)))
  }

  /** Deleting artist `id` removes exactly the shows it plays. */
  function CascadeDeleteArtist(t: Tables, id: int): (r: Tables)
    ensures r.venues == t.venues
    ensures forall a :: a in r.artists <==> a in t.artists && a.id != id
    ensures forall s :: s in r.shows <==> s in t.shows && s.artistId != id
  {
    Tables(t.venues, Filter(t.artists, NotArtist(id)), Filter(t.shows, NotByArtist(id)))
  }

  /** The venue cascade leaves no show pointing at a deleted venue, so integrity survives it. */
  lemma {:induction false} CascadeDeleteVenueWellFormed(t: Tables, id: int)
    requires WellFormed(t)
    ensures WellFormed(CascadeDeleteVenue(t, id))
  {
    var r := CascadeDeleteVenue(t, id);
    FilterUnique(t.venues, NotVenue(id), VenueKey);
    FilterUnique(t.shows, NotAtVenue(id), ShowKey);
    forall i | 0 <= i < |r.venues| ensures VenueFits(r.venues[i]) {
      var k :| 0 <= k < |t.venues| && t.venues[k] == r.venues[i];
    }
    forall s | s in r.shows ensures s.venueId in VenueIds(r.venues) {
      var j :| 0 <= j < |t.venues| && t.venues[j].id == s.venueId;
      assert t.venues[j] in r.venues;
      var w :| 0 <= w < |r.venues| && r.venues[w] == t.venues[j];
    }
  }

  /** The artist cascade leaves no show pointing at a deleted artist, so integrity survives it. */
  lemma {:induction false} CascadeDeleteArtistWellFormed(t: Tables, id: int)
    requires WellFormed(t)
    ensures WellFormed(CascadeDeleteArtist(t, id))
  {
    var r := CascadeDeleteArtist(t, id);
    FilterUnique(t.artists, NotArtist(id), ArtistKey);
    FilterUnique(t.shows, NotByArtist(id), ShowKey);
    forall i | 0 <= i < |r.artists| ensures ArtistFits(r.artists[i]) {
      var k :| 0 <= k < |t.artists| && t.artists[k] == r.artists[i];
    }
    forall s | s in r.shows ensures s.artistId in ArtistIds(r.artists) {
      var j :| 0 <= j < |t.artists| && t.artists[j].id == s.artistId;
      assert t.artists[j] in r.artists;
      var w :| 0 <= w < |r.artists| && r.artists[w] == t.artists[j];
    }
  }

  /** Inserting a fitting venue under an unused id keeps integrity. */
  lemma {:induction false} InsertVenueWellFormed(t: Tables, v: Venue)
    requires WellFormed(t) && VenueFits(v) && v.id !in VenueIds(t.venues)
    ensures WellFormed(Tables(t.venues + [v], t.artists, t.shows))
  {
    AppendUnique(t.venues, v, VenueKey);
  }

  /** Inserting a fitting artist under an unused id keeps integrity. */
  lemma {:induction false} InsertArtistWellFormed(t: Tables, a: Artist)
    requires WellFormed(t) && ArtistFits(a) && a.id !in ArtistIds(t.artists)
    ensures WellFormed(Tables(t.venues, t.artists + [a], t.shows))
  {
    AppendUnique(t.artists, a, ArtistKey);
  }

  /** Inserting a show under an unused id whose foreign keys resolve keeps integrity. */
  lemma {:induction false} InsertShowWellFormed(t: Tables, s: Show)
    requires WellFormed(t) && s.id !in Keys(t.shows, ShowKey)
    requires s.artistId in ArtistIds(t.artists) && s.venueId in VenueIds(t.venues)
    ensures WellFormed(Tables(t.venues, t.artists, t.shows + [s]))
  {
    AppendUnique(t.shows, s, ShowKey);
  }

  /** Overwriting the venue at position `k` with a fitting row of the same id keeps integrity. */
  lemma {:induction false} UpdateVenueWellFormed(t: Tables, k: nat, v: Venue)
    requires WellFormed(t) && k < |t.venues| && VenueFits(v) && v.id == t.venues[k].id
    ensures WellFormed(Tables(t.venues[k := v], t.artists, t.shows))
    ensures VenueIds(t.venues[k := v]) == VenueIds(t.venues)
  {
    UpdateUnique(t.venues, k, v, VenueKey);
  }

  /** Overwriting the artist at position `k` with a fitting row of the same id keeps integrity. */
  lemma {:induction false} UpdateArtistWellFormed(t: Tables, k: nat, a: Artist)
    requires WellFormed(t) && k < |t.artists| && ArtistFits(a) && a.id == t.artists[k].id
    ensures WellFormed(Tables(t.venues, t.artists[k := a], t.shows))
    ensures ArtistIds(t.artists[k := a]) == ArtistIds(t.artists)
  {
    UpdateUnique(t.artists, k, a, ArtistKey);
  }
}
