# Fyyur booking directory — a Dafny model of its store logic

Fyyur is a directory of venues, artists and the shows that book an artist
at a venue. A Flask controller, present twice in near-identical copies
(`app/app.py` and `app.py`), reads and writes three SQLAlchemy tables
declared in `app/models.py`. This project models what those handlers do to
the stored rows, and proves what each handler's result means.

- `models.dfy` (module `Models`) covers the tables: `Venue`, `Artist` and
  `Show` rows, NOT NULL columns, varchar bounds (120/500/1000), column
  defaults (`seeking_talent` False, `seeking_venue` True), primary keys and
  foreign keys. It holds the database's integrity predicate `WellFormed`,
  the rows the database writes or rejects (`VenueRow`, `ArtistRow`, `ShowRow`),
  and both cascading deletes.
- `queries.dfy` (module `Queries`) covers the views the handlers build, as
  functions, with the lemmas about them:
  - the distinct (city, state) locations;
  - each page's records of its shows;
  - the show listing;
  - the partition, ordering and annotation lemmas.
- `handlers.dfy` (module `Handlers`) covers the handlers, as methods of a
  `Store` class. The class holds the three tables as sequence fields and
  the next value of each table's id sequence. Query handlers run the same
  `for` loops the controller runs. Submission handlers either commit or
  leave the store unchanged.
- `seqs.dfy`, `text.dfy` and `wrappers.dfy` hold generic helpers:
  - `Filter` (a `.filter(...)` or `filter_by(...)` query, in store order:
    the sequence order of a table, standing for the order PostgreSQL leaves
    open);
  - an insertion `SortBy` (`order_by`);
  - `ILike`, for `ILIKE '%term%'`, with ASCII case folding and the term
    taken as plain text;
  - lexicographic order on character codes;
  - `Option`.
- `samples.dfy` (modules `SampleNames` and `Samples`) takes the artists and
  venue quoted in the controller's comments and shows what the artist
  search returns for them.

Two behaviours of the handlers the model keeps:
- `edit_artist_submission` stores the submitted `seeking_venue` checkbox.
  It does not derive the flag from the description, as both creates and the
  venue edit do (app/app.py:589).
- `delete_venue` on a missing id raises inside its `try`, rolls back and
  still answers `'OK'` (app/app.py:338-356). The model reports `Failed` and
  leaves the store unchanged.

Inputs the handlers take from their environment are parameters:
- `now` is the clock (`datetime.datetime.now()`);
- `validated` is the result of `form.validate_on_submit()`;
- a form field's data is `Some(value)`, or `None` when it is NULL.

## Model

| member | source | states |
|---|---|---|
| Models.VenueRow | app/models.py:3-16 | A venue row is written exactly when some row can hold the values: name, city, state, address and genres non-NULL, and no varchar value with a non-space character past its length. Each varchar column holds its value as PostgreSQL stores it: unchanged when it fits, cut to the length when only spaces lie beyond. seeking_talent is False when not supplied. |
| Models.ArtistRow | app/models.py:19-31 | An artist row is written exactly when some row can hold the values: name, city, state, genres and facebook_link non-NULL, and the same varchar rule. seeking_venue defaults to True. |
| Models.VenueCityPadding | app/models.py:7 | A city that fills its 120 characters, followed by any number of spaces, gives the same venue row as the city alone: the spaces are cut and the write still succeeds. |
| Models.ArtistLinkPadding | app/models.py:28 | A facebook_link that fills its 500 characters, followed by spaces, gives the same artist row as the link alone. |
| Models.ShowRow | app/models.py:34-39 | A show row is written if and only if start_time, artist_id and venue_id are non-NULL and both foreign keys name existing rows. The row carries exactly those values. |
| Models.WellFormed | app/models.py:3-39 | The database's integrity: ids unique within each table, every venue and artist row within its varchar lengths, and every show's artist_id and venue_id naming an existing row. |
| Models.CascadeDeleteVenue | app/models.py:17 | Deleting a venue removes exactly that venue and exactly the shows held at it. Artists are untouched. |
| Models.CascadeDeleteArtist | app/models.py:32 | Deleting an artist removes exactly that artist and exactly the shows it plays. Venues are untouched. |
| Models.CascadeDeleteVenueWellFormed | app/models.py:17 | The venue cascade preserves integrity: unique keys, column bounds, and no show left pointing at a deleted venue. |
| Models.CascadeDeleteArtistWellFormed | app/models.py:32 | The artist cascade preserves integrity. |
| Models.InsertVenueWellFormed | app/models.py:5 | Inserting a fitting venue under an unused id preserves integrity. |
| Models.InsertArtistWellFormed | app/models.py:21 | Inserting a fitting artist under an unused id preserves integrity. |
| Models.InsertShowWellFormed | app/models.py:36-39 | Inserting a show under an unused id whose foreign keys resolve preserves integrity. |
| Models.UpdateVenueWellFormed | app/models.py:5 | Overwriting a venue with a fitting row of the same id preserves integrity and the set of venue ids. |
| Models.UpdateArtistWellFormed | app/models.py:21 | Overwriting an artist with a fitting row of the same id preserves integrity and the set of artist ids. |
| Models.FilterShowsReference | app/models.py:38-39 | Any selection of shows whose foreign keys resolve still resolves. |
| Models.ShowsReferenceAppend | app/models.py:38-39 | Adding a show whose foreign keys resolve keeps every show's references resolvable. |
| Queries.Locations | app/app.py:95 | `distinct('city','state')`: the (city, state) pairs of the venues, in an order the model fixes. `Queries.LocationsDistinct`, `Queries.LocationsCover` and `Queries.LocationsFromVenues` prove it lists each venue's pair once and nothing else. |
| Queries.FindVenue | app/app.py:220 | `Venue.query.get(id)`: a venue that carries the id, and `None` exactly when no venue has it. The same lookup serves app/app.py:339, 511-512 and 628. |
| Queries.FindArtist | app/app.py:234-235 | `Artist.query.get(id)`: an artist that carries the id, and `None` exactly when no artist has it. The same lookup serves app/app.py:577. |
| Queries.NameNoLater | app/app.py:380 | `order_by(Artist.name)`: artist `a` sorts no later than `b` when its name is no greater in `Text.LexLe`, code-point order. |
| Queries.StartsNoLater | app/app.py:780 | `order_by('start_time')`: show `a` sorts no later than `b` when it starts no later. |
| Queries.LocationsDistinct | app/app.py:95 | The distinct (city, state) pairs hold no pair twice. |
| Queries.LocationsCover | app/app.py:95 | Every venue's (city, state) is among the distinct pairs. |
| Queries.LocationsFromVenues | app/app.py:95 | Every distinct pair is some venue's (city, state). |
| Queries.AreaMember | app/app.py:98 | A venue in a location's group lies at that location. |
| Queries.AreasDistinct | app/app.py:94-104 | The venue listing has no two groups for the same (city, state), and no group is empty. |
| Queries.AreasCoverVenues | app/app.py:94-104 | Every venue lies in the group of its own city and state. |
| Queries.AreasDisjoint | app/app.py:94-104 | No venue lies in two groups, so the groups partition the venues. |
| Queries.FindVenueUnique | app/models.py:5 | With unique ids, `Venue.query.get(id)` finds the very row that carries the id. |
| Queries.FindArtistUnique | app/models.py:21 | With unique ids, `Artist.query.get(id)` finds the very row that carries the id. |
| Queries.ArtistShowOf | app/app.py:231-236 | A venue page's record of a show carries the show's artist id and start time, and the name and image of an existing artist with that id. |
| Queries.VenueShowOf | app/app.py:509-514 | An artist page's record of a show carries the show's venue id and start time, and the name and image of an existing venue with that id. |
| Queries.ListingOf | app/app.py:783-790 | A show-listing entry carries the show's artist and venue ids and start time, an existing venue's name, and an existing artist's name and image. |
| Queries.ArtistShowNamesItsArtist | app/app.py:234-235 | With unique artist ids, a venue page's record names the very artist the show references. |
| Queries.VenueShowNamesItsVenue | app/app.py:511-512 | With unique venue ids, an artist page's record names the very venue the show references. |
| Queries.SplitStep | app/app.py:229-247 | Looking at one more show appends it to the upcoming selection when it starts at or after `now`, and otherwise to the past selection. The other selection is unchanged. |
| Queries.ArtistShowsSplitStep | app/app.py:229-247 | One iteration of `show_venue`'s loop extends exactly one list, by the record of that show. |
| Queries.VenueShowsSplitStep | app/app.py:506-522 | One iteration of `show_artist`'s loop extends exactly one list, by the record of that show. |
| Queries.SplitPartitions | app/app.py:229-247 | The upcoming and past selections split the shows. Their sizes sum to the total, their multisets add up to the shows, each show is in exactly one, and a show starting exactly at `now` is upcoming. |
| Queries.SplitKeepsOrder | app/app.py:229-247 | Each selection of a concatenation is the concatenation of the selections, so both lists stay in store order. |
| Queries.ArtistShowsAppend | app/app.py:238 | Describing one more show appends its record. |
| Queries.VenueShowsAppend | app/app.py:509 | Describing one more show appends its record. |
| Queries.ListingsAppend | app/app.py:791 | Listing one more show appends its entry. |
| Queries.ListingsFollowShows | app/app.py:782-791 | The listing neither drops, adds nor alters a show's (artist, venue, start time). |
| Queries.ListingsOfSorted | app/app.py:780-791 | Listing shows sorted by start time yields entries in start-time order that carry the shows' links. |
| Queries.SortedShowsReference | app/app.py:780 | Ordering the shows keeps every foreign key resolvable. |
| Queries.ShowListingsOrdered | app/app.py:780-791 | `shows()` lists one entry per show, in ascending start time. |
| Queries.ShowListingsPermute | app/app.py:780-791 | `shows()`'s entries carry exactly the shows' links, as a multiset. |
| Queries.ShowListingsNamed | app/app.py:784-788 | Each `shows()` entry names its show's venue, and its show's artist with that artist's image. |
| Queries.SearchEmptyTerm | app/app.py:122-127 | The empty search term (the form default) matches every venue and every artist. |
| Queries.OrdersAreTotal | app/app.py:380 | Ordering by name and ordering by start time both relate any two rows, so the sorts are defined. |
| Queries.SearchArtistsAsWritten | app/app.py:408 | The artist query as written returns either every artist or none. |
| Text.ILike | app/app.py:127 | `name ILIKE '%term%'`: the lower-cased term occurs in the lower-cased name. `Text.ContainsIffOccurs`, `Text.ILikeEmptyTerm`, `Text.ILikeIgnoresCase` and `Text.ILikeAt` prove what that means. |
| Text.ContainsIffOccurs | app/app.py:127 | The substring scan succeeds exactly when the term occurs at some position of the name. |
| Text.ILikeEmptyTerm | app/app.py:127 | `ILIKE '%%'` matches every name. |
| Text.ILikeIgnoresCase | app/app.py:127 | Matching ignores the case of the name and of the term. |
| Text.ILikeAt | app/app.py:127 | A term occurring in the lower-cased name at some position matches. |
| Text.ILikeNeedsFirstChar | app/app.py:127 | A name holding no character that equals the term's first one, ignoring case, does not match. |
| Text.LexLeTotal | app/app.py:380 | Name order relates any two names. |
| Text.LexLeTransitive | app/app.py:380 | Name order is transitive. |
| Seqs.Filter | app/app.py:98 | A `.filter(...)` or `filter_by(...)` query: no longer than the table, every element kept satisfies the condition, and every element that satisfies it is kept. |
| Seqs.SortBy | app/app.py:380 | `order_by`: an insertion sort by the given order. `Seqs.SortBySorted` and `Seqs.SortByPermutes` prove it sorted and a permutation. |
| Seqs.SortBySorted | app/app.py:380 | Sorting by a total order yields a sorted sequence. |
| Seqs.SortByPermutes | app/app.py:380 | Sorting is a permutation. |
| Seqs.MapSortBy | app/app.py:380-383 | Mapping a record over the sorted rows gives a permutation of mapping it over the unsorted rows. |
| Handlers.Seeking | app/app.py:298-302 | `if seeking_description:`: true exactly when a description is given and it is not empty. |
| Handlers.VenueValuesOf | app/app.py:298-307 | The columns a venue create writes, and the same for the edit at app/app.py:642-646: each form field as submitted, with seeking_talent set by `Handlers.Seeking`. |
| Handlers.NewArtistValues | app/app.py:697-706 | The columns an artist create writes: each form field as submitted, with seeking_venue set by `Handlers.Seeking`. |
| Handlers.EditedArtistValues | app/app.py:581-590 | The columns an artist edit writes: each form field as submitted, with seeking_venue the submitted checkbox. |
| Handlers.SplitVenuePage | app/app.py:221-247 | `show_venue`'s loop produces counters equal to its lists' lengths and summing to the venue's show count. The upcoming list describes exactly the shows starting at or after `now`, in store order, and the past list the rest. |
| Handlers.SplitArtistPage | app/app.py:499-522 | `show_artist`'s loop produces the same split, each show described by its venue. |
| Handlers.Store.constructor | app/models.py:3-39 | An empty, well-formed store. |
| Handlers.Store.Venues | app/app.py:93-106 | `venues()` returns one group per distinct (city, state), in the order `Queries.Locations` fixes for the distinct query. Each group holds exactly the venues there. No location appears twice, no group is empty, every venue is in exactly one group. |
| Handlers.Store.SearchVenues | app/app.py:122-132 | `search_venues` returns a count equal to the number of results. The results are (id, name) for exactly the venues whose name contains the term ignoring case, in store order: sound and complete. |
| Handlers.Store.SearchArtists | app/app.py:389-413 | The artist search as intended returns exactly the artists whose own name contains the term, in store order, with their count. |
| Handlers.Store.ShowVenue | app/app.py:220-267 | `show_venue` returns `None` exactly when no venue has the id, and otherwise that venue. It splits the venue's shows into upcoming (start time at or after `now`) and past, each in store order and described by its artist. The two counts equal the list lengths and sum to the venue's show count. |
| Handlers.Store.ShowArtist | app/app.py:498-542 | `show_artist` is the same, for the artist's shows, each described by its venue. |
| Handlers.Store.Artists | app/app.py:378-385 | `artists()` returns (id, name) of every artist, a permutation of the artists ordered by name. |
| Handlers.Store.Shows | app/app.py:778-793 | `shows()` returns the listing of all shows sorted by start time, ties in the order the model's sort fixes. See `Queries.ShowListingsOrdered`, `Queries.ShowListingsPermute` and `Queries.ShowListingsNamed`. |
| Handlers.Store.CreateVenue | app/app.py:281-330 | `create_venue_submission` saves exactly when the form validates and the row is accepted. The venue is appended under the next id, and seeking_talent is set exactly when the description is non-empty. Otherwise the store is unchanged. Integrity is kept. The venue id sequence advances by one exactly on a save, and the other two sequences never move. The outcome is `Invalid` exactly when the form does not validate, so a validated write that rolls back is `Failed`. |
| Handlers.Store.CreateArtist | app/app.py:680-728 | `create_artist_submission` is the same for artists, with seeking_venue set exactly when the description is non-empty. Only the artist id sequence advances, by one, on a save. The outcome is `Invalid` exactly when the form does not validate, so a validated write that rolls back is `Failed`. |
| Handlers.Store.CreateShow | app/app.py:804-835 | `create_show_submission` saves exactly when the form validates, the start time is given and the artist and venue exist. The show is appended. Otherwise the store is unchanged. Only the show id sequence advances, by one, on a save. The outcome is `Invalid` exactly when the form does not validate, so a validated write that rolls back is `Failed`. |
| Handlers.Store.EditVenue | app/app.py:624-667 | `edit_venue_submission` saves exactly when the form validates, the venue exists and the row is accepted. Only that venue changes: it takes the submitted values and seeking_talent from the description. Otherwise the store is unchanged. No id sequence moves. The outcome is `Invalid` exactly when the form does not validate, so a validated write that rolls back is `Failed`. |
| Handlers.Store.EditArtist | app/app.py:572-610 | `edit_artist_submission` saves exactly when the form validates, the artist exists and the row is accepted. Only that artist changes, and seeking_venue is the submitted checkbox. No id sequence moves. The outcome is `Invalid` exactly when the form does not validate, so a validated write that rolls back is `Failed`. |
| Handlers.Store.DeleteVenue | app/app.py:333-356 | `delete_venue` saves exactly when the venue exists. The new store is the cascade delete of the old store. Otherwise it fails with the store unchanged. No id sequence moves. |
| Samples.SampleArtistSearch | app/app.py:391-392 | The intended artist search on the three sample artists: "A" finds all three, "band" finds only The Wild Sax Band. |
| Samples.SearchForA | app/app.py:391 | "A" finds Guns N Petals, Matt Quevedo and The Wild Sax Band. |
| Samples.SearchForBand | app/app.py:392 | "band" finds only The Wild Sax Band. |
| Samples.AsWrittenOneVenue | app/app.py:408 | With one venue stored, the query as written returns every artist exactly when that venue's name matches the term. |
| Samples.AsWrittenIgnoresArtistNames | app/app.py:408 | With no venue stored, the query as written returns nothing for "band", where the intended search returns The Wild Sax Band. |
| Samples.AsWrittenMatchesVenueNames | app/app.py:408 | With the venue "Park Square Live Music & Coffee" stored, the query as written returns every artist for "coffee", although no artist's name contains it. |

`app.py` holds the same handlers line for line. The cited ranges there are:
- venues 64-79, search_venues 83-98, show_venue 101-149;
- create_venue_submission 162-209, delete_venue 213-235, artists 244-252;
- search_artists 256-268, show_artist 274-321;
- edit_artist_submission 337-375, edit_venue_submission 389-432;
- create_artist_submission 445-493, shows 501-520;
- create_show_submission 531-562.

## Left out

- HTML rendering, flash messages, redirects, the GET form pages, the error
  handlers and logging: presentation only.
- `format_datetime` and `str(show.start_time)`: these are formatting, so
  start times are kept as integer timestamps.
- Form field definitions and validators: `form.validate_on_submit()` is the
  `validated` parameter, and its error-message list is not modelled.
- Database failures other than constraint violations, such as lost
  connections, timeouts and deadlocks: a commit fails only when a column is
  NULL against NOT NULL, a varchar value has a non-space character past its
  length, or a foreign key names no row. Excess trailing spaces are cut, as
  PostgreSQL does.
- Sequence values consumed by a failed insert: the model advances an id
  sequence only on commit, so ids stay gap-free, unlike PostgreSQL.
- Handlers.Store.Artists: orders names by character code, as PostgreSQL's
  "C" collation does, standing for the database's collation. Under a
  language collation such as en_US.UTF-8, "apple" sorts before "Zed"; in
  the model, "Zed" comes first.
- Collation, Unicode case folding, the `%`/`_` wildcards and the `\`
  escape character inside a search term: `ILike` uses ASCII folding and
  takes the term as plain text. For example, PostgreSQL reads the term
  `abc\` as the pattern `%abc\%`, which matches names ending in "abc%",
  while `ILike` matches names containing "abc\".
- The order of rows a query returns where PostgreSQL leaves it open: the
  searches, `filter_by`, the per-location venue query, the `DISTINCT`
  pairs, and ties under `ORDER BY`. "Store order" in the contracts stands
  for that unspecified order, and an edit keeps its row in place, though
  PostgreSQL usually returns an updated row at a new position. The
  contracts that name an order (`Handlers.Store.Venues` through
  `Queries.Locations`, `Handlers.Store.Shows` through `Seqs.SortBy`, the
  searches and page lists through `Seqs.Filter`) state the model's own
  choice. The properties proved about them do not depend on it: distinct,
  covering and disjoint groups; sorted, permuted and named listings; sound
  and complete searches; a partition of each page's shows.
- Deleting artists or shows through the web surface: no such endpoint
  exists. The artist cascade is still modelled and proved
  (`Models.CascadeDeleteArtist`).
- `show_venue`/`show_artist` on a missing id raise while reading `.name`.
  The model returns `None` instead.
- Queries.SearchArtistsAsWritten: does not model how many times the ORM
  repeats each artist for the cross join with `Venue`. SQLAlchemy returns
  each entity once, so this function returns every artist or none.

## Findings

| source | as written | input that shows it | evidently intended | confidence | as-written member | corrected member |
|---|---|---|---|---|---|---|
| app/app.py:408 (and app.py:263) | `Artist.query.filter(Venue.name.ilike(...))` filters on venue names, so the artist search returns all artists when some venue's name matches the term, and none otherwise | no venue and the term "band" gives no result; the venue "Park Square Live Music & Coffee" and the term "coffee" give all three sample artists | filter on `Artist.name`: "A" finds all three sample artists and "band" finds The Wild Sax Band, as the handler's own comment says | not executed | Queries.SearchArtistsAsWritten, Samples.AsWrittenIgnoresArtistNames, Samples.AsWrittenMatchesVenueNames | Handlers.Store.SearchArtists, Samples.SampleArtistSearch |
