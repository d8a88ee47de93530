/** Which sample names the terms "A", "band" and "coffee" match. */
module SampleNames {
  import opened Text

  /** "A" occurs in Guns N Petals. */
  lemma {:induction false} AInPetals()
    ensures ILike("Guns N Petals", "A")
  {
    ILikeAtChars("Guns N Petals", "A", 10);
  }

  /** "A" occurs in Matt Quevedo. */
  lemma {:induction false} AInQuevedo()
    ensures ILike("Matt Quevedo", "A")
  {
    ILikeAtChars("Matt Quevedo", "A", 1);
  }

  /** "A" occurs in The Wild Sax Band. */
  lemma {:induction false} AInSaxBand()
    ensures ILike("The Wild Sax Band", "A")
  {
    ILikeAtChars("The Wild Sax Band", "A", 10);
  }

  /** "band" occurs in The Wild Sax Band's name. */
  lemma {:induction false} BandInSaxBand()
    ensures ILike("The Wild Sax Band", "band")
  {
    var name, term := "The Wild Sax Band", "band";
    forall j | 0 <= j < |term| ensures LowerChar(name[13 + j]) == LowerChar(term[j]) {
      if j == 0 {} else if j == 1 {} else if j == 2 {} else {}
    }
    ILikeAtChars(name, term, 13);
  }

  /** Guns N Petals has no `b`, so "band" does not occur in it. */
  lemma {:induction false} BandNotInPetals()
    ensures !ILike("Guns N Petals", "band")
  {
    var name := "Guns N Petals";
    forall c | c in name ensures LowerChar(c) != 'b' { }
    ILikeNeedsFirstChar(name, "band");
  }

  /** Matt Quevedo has no `b`, so "band" does not occur in it. */
  lemma {:induction false} BandNotInQuevedo()
    ensures !ILike("Matt Quevedo", "band")
  {
    var name := "Matt Quevedo";
    forall c | c in name ensures LowerChar(c) != 'b' { }
    ILikeNeedsFirstChar(name, "band");
  }

  /** Guns N Petals has no `c`, so "coffee" does not occur in it. */
  lemma {:induction false} CoffeeNotInPetals()
    ensures !ILike("Guns N Petals", "coffee")
  {
    var name := "Guns N Petals";
    forall c | c in name ensures LowerChar(c) != 'c' { }
    ILikeNeedsFirstChar(name, "coffee");
  }

  /** Matt Quevedo has no `c`, so "coffee" does not occur in it. */
  lemma {:induction false} CoffeeNotInQuevedo()
    ensures !ILike("Matt Quevedo", "coffee")
  {
    var name := "Matt Quevedo";
    forall c | c in name ensures LowerChar(c) != 'c' { }
    ILikeNeedsFirstChar(name, "coffee");
  }

  /** The Wild Sax Band has no `c`, so "coffee" does not occur in it. */
  lemma {:induction false} CoffeeNotInSaxBand()
    ensures !ILike("The Wild Sax Band", "coffee")
  {
    var name := "The Wild Sax Band";
    forall c | c in name ensures LowerChar(c) != 'c' { }
    ILikeNeedsFirstChar(name, "coffee");
  }

  /** "coffee" occurs in the name of the venue Park Square Live Music & Coffee. */
  lemma {:induction false} CoffeeInParkSquare()
    ensures ILike("Park Square Live Music & Coffee", "coffee")
  {
    var name, term := "Park Square Live Music & Coffee", "coffee";
    forall j | 0 <= j < |term| ensures LowerChar(name[25 + j]) == LowerChar(term[j]) {
      if j == 0 {} else if j == 1 {} else if j == 2 {} else if j == 3 {} else if j == 4 {} else {}
    }
    ILikeAtChars(name, term, 25);
  }
}

/**
 The artist search on the directory's sample artists: what the search is
 meant to return, and two inputs on which the search as written returns
 something else.
 */
module Samples {
  import opened Wrappers
  import opened Seqs
  import opened Text
  import opened Models
  import opened Queries
  import opened SampleNames

  /** A sample artist row; only the id and the name matter to the search. */
  function SampleArtist(id: int, name: string, city: string, state: string): Artist
  {
    Artist(id, name, city, state, None, None, ["Rock n Roll"], "https://www.facebook.com/", None, true, None)
  }

  function GunsNPetals(): Artist { SampleArtist(4, "Guns N Petals", "San Francisco", "CA") }
  function MattQuevedo(): Artist { SampleArtist(5, "Matt Quevedo", "New York", "NY") }
  function WildSaxBand(): Artist { SampleArtist(6, "The Wild Sax Band", "San Francisco", "CA") }

  /** The three sample artists: ids 4, 5 and 6. */
  function SampleArtists(): seq<Artist>
  {
    [GunsNPetals(), MattQuevedo(), WildSaxBand()]
  }

  /** A sample venue whose name contains "coffee". */
  function CoffeeVenue(): Venue
  {
    Venue(3, "Park Square Live Music & Coffee", "San Francisco", "CA", "34 Whiskey Moore Ave",
          Some("415-000-1234"), None, ["Rock n Roll"], None, None, false, None)
  }

  /** Filtering three rows keeps exactly those the predicate accepts, in order. */
  lemma {:induction false} FilterThree<T>(a: T, b: T, c: T, p: T -> bool)
    ensures Filter([a, b, c], p) == (if p(a) then [a] else []) + (if p(b) then [b] else []) + (if p(c) then [c] else [])
  {
    assert [c][1..] == [];
    assert Filter([c], p) == (if p(c) then [c] else []);
    assert [b, c][1..] == [c];
    assert Filter([b, c], p) == (if p(b) then [b] else []) + Filter([c], p);
    assert [a, b, c][1..] == [b, c];
    assert Filter([a, b, c], p) == (if p(a) then [a] else []) + Filter([b, c], p);
  }

  /** Three rows the predicate all accepts are kept as they are. */
  lemma {:induction false} FilterThreeAll<T>(a: T, b: T, c: T, p: T -> bool)
    requires p(a) && p(b) && p(c)
    ensures Filter([a, b, c], p) == [a, b, c]
  {
    FilterThree(a, b, c, p);
    assert [a] + [b] + [c] == [a, b, c];
  }

  /** With a single venue stored, the search as written returns every artist exactly when that venue's name matches. */
  lemma {:induction false} AsWrittenOneVenue(v: Venue, rows: seq<Artist>, term: string)
    ensures SearchArtistsAsWritten(Tables([v], rows, []), term) == (if ILike(v.name, term) then rows else [])
  {
    var t := Tables([v], rows, []);
    if ILike(v.name, term) {
      assert 0 <= 0 < |t.venues| && ILike(t.venues[0].name, term);
    }
  }

  /**
   The search as meant: "A" finds all three sample artists and "band"
   finds only The Wild Sax Band.
   */
  lemma {:induction false} SampleArtistSearch()
    ensures Filter(SampleArtists(), ArtistNameILike("A")) == SampleArtists()
    ensures Filter(SampleArtists(), ArtistNameILike("band")) == [WildSaxBand()]
  {
    SearchForA();
    SearchForBand();
  }

  /** "A" finds all three sample artists. */
  lemma {:induction false} SearchForA()
    ensures Filter(SampleArtists(), ArtistNameILike("A")) == SampleArtists()
  {
    AInPetals();
    AInQuevedo();
    AInSaxBand();
    FilterThreeAll(GunsNPetals(), MattQuevedo(), WildSaxBand(), ArtistNameILike("A"));
  }

  /** "band" finds only The Wild Sax Band. */
  lemma {:induction false} SearchForBand()
    ensures Filter(SampleArtists(), ArtistNameILike("band")) == [WildSaxBand()]
  {
    BandInSaxBand();
    BandNotInPetals();
    BandNotInQuevedo();
    FilterThree(GunsNPetals(), MattQuevedo(), WildSaxBand(), ArtistNameILike("band"));
  }

  /**
   As written, the search looks at venue names, so with no venue stored it
   returns nothing for "band", where the meant search returns The Wild Sax Band.
   */
  lemma {:induction false} AsWrittenIgnoresArtistNames()
    ensures SearchArtistsAsWritten(Tables([], SampleArtists(), []), "band") == []
    ensures Filter(SampleArtists(), ArtistNameILike("band")) == [WildSaxBand()]
  {
    SampleArtistSearch();
  }

  /**
   As written, a venue named "... & Coffee" makes "coffee" return every
   artist, although no artist's name contains it.
   */
  lemma {:induction false} AsWrittenMatchesVenueNames()
    ensures SearchArtistsAsWritten(Tables([CoffeeVenue()], SampleArtists(), []), "coffee") == SampleArtists()
    ensures Filter(SampleArtists(), ArtistNameILike("coffee")) == []
  {
    CoffeeInParkSquare();
    CoffeeNotInPetals();
    CoffeeNotInQuevedo();
    CoffeeNotInSaxBand();
    FilterThree(GunsNPetals(), MattQuevedo(), WildSaxBand(), ArtistNameILike("coffee"));
    AsWrittenOneVenue(CoffeeVenue(), SampleArtists(), "coffee");
  }
}
