/**
 * `_top_genres`: a per-genre histogram over a page of artists (one count
 * per genre an artist lists) and its ten most frequent genres, equal counts
 * kept in the order the genres were first met.
 */
module Genres {
  import opened Catalog
  import Ranking

  /**
   * The genres in the order the nested loops visit them: artist by artist,
   * each artist's list in its own order, repeats included.
   */
  function GenreStream(artists: seq<Artist>): seq<string>
  {
    if artists == [] then [] else GenreStream(artists[..|artists| - 1]) + artists[|artists| - 1].genres
  }

  /** A genre is in the stream exactly when some artist lists it. */
  lemma {:induction false} GenreStreamMembers(artists: seq<Artist>, g: string)
    ensures g in GenreStream(artists) <==> exists a :: a in artists && g in a.genres
  {
    if artists != [] {
      var init, last := artists[..|artists| - 1], artists[|artists| - 1];
      assert artists == init + [last];
      GenreStreamMembers(init, g);
      assert forall a :: a in artists <==> a in init || a == last;
    }
  }

  /**
   * The distinct elements of `s` in order of first occurrence: the key order
   * of a Counter (a Python dict) fed with `s`.
   */
  function Distinct(s: seq<string>): (d: seq<string>)
    ensures forall x :: x in d <==> x in s
    ensures forall i, j :: 0 <= i < j < |d| ==> d[i] != d[j]
  {
    if s == [] then []
    else
      var init, x := s[..|s| - 1], s[|s| - 1];
      assert s == init + [x];
      if x in init then Distinct(init) else Distinct(init) + [x]
  }

  /**
   * `Distinct` lists elements in the order they are first met: an element
   * listed earlier occurs in `s` before any occurrence of one listed later.
   */
  lemma {:induction false} DistinctFirstMet(s: seq<string>, i: nat, j: nat, k: nat)
    requires i < j < |Distinct(s)| && k < |s| && s[k] == Distinct(s)[j]
    ensures Distinct(s)[i] in s[..k]
  {
    var init, x := s[..|s| - 1], s[|s| - 1];
    assert s == init + [x];
    var d := Distinct(s);
    if k == |s| - 1 {
      assert s[..k] == init;
      if x in init {
        assert d == Distinct(init);
        assert d[j] in init;
        var k' :| 0 <= k' < |init| && init[k'] == d[j];
        DistinctFirstMet(init, i, j, k');
      }
    } else {
      assert s[..k] == init[..k];
      assert j < |Distinct(init)|;
      DistinctFirstMet(init, i, j, k);
    }
  }

  /** One item of `Counter.items()`: a genre and how often it was counted. */
  datatype Entry = Entry(genre: string, count: nat)

  function CountOf(e: Entry): int
  {
    e.count
  }

  /** The genres of a list of entries, in order. */
  function GenresOf(es: seq<Entry>): (gs: seq<string>)
    ensures |gs| == |es|
    ensures forall i :: 0 <= i < |es| ==> gs[i] == es[i].genre
  {
    seq(|es|, i requires 0 <= i < |es| => es[i].genre)
  }

  /**
   * `Counter(s).items()`: one entry per distinct element of `s`, in order of
   * first occurrence, holding the number of times it occurs in `s`.
   */
  function Histogram(s: seq<string>): (h: seq<Entry>)
    ensures GenresOf(h) == Distinct(s)
    ensures forall i :: 0 <= i < |h| ==> h[i].count == multiset(s)[h[i].genre] > 0
  {
    var d := Distinct(s);
    assert forall i :: 0 <= i < |d| ==> d[i] in s;
    seq(|d|, i requires 0 <= i < |d| => Entry(d[i], multiset(s)[d[i]]))
  }

  /** `[g for g, _ in counter.most_common(n)]` for a Counter whose items are `h`. */
  function MostCommon(h: seq<Entry>, n: nat): (gs: seq<string>)
    ensures |gs| <= n
  {
    GenresOf(Ranking.Top(h, CountOf, n))
  }

  /** What `_top_genres` answers for a page of artists. */
  function TopGenresOf(artists: seq<Artist>): seq<string>
  {
    MostCommon(Histogram(GenreStream(artists)), 10)
  }

  /**
   * `order` and `counts` are a Counter fed with `fed`: its keys in insertion
   * order, and for each key the number of times it was fed.
   */
  ghost predicate Counts(fed: seq<string>, order: seq<string>, counts: map<string, nat>)
  {
    && order == Distinct(fed)
    && (forall g :: g in counts <==> g in order)
    && (forall g :: g in counts ==> counts[g] == multiset(fed)[g])
  }

  /** `counter[g] += 1`: a new key goes to the end of the key order, a known key keeps its place. */
  lemma CountOne(fed: seq<string>, order: seq<string>, counts: map<string, nat>, g: string)
    requires Counts(fed, order, counts)
    ensures g in counts ==> Counts(fed + [g], order, counts[g := counts[g] + 1])
    ensures g !in counts ==> Counts(fed + [g], order + [g], counts[g := 1])
  {
    if g in counts {
      CountKnown(fed, order, counts, g);
    } else {
      CountNew(fed, order, counts, g);
    }
  }

  lemma CountKnown(fed: seq<string>, order: seq<string>, counts: map<string, nat>, g: string)
    requires Counts(fed, order, counts) && g in counts
    ensures Counts(fed + [g], order, counts[g := counts[g] + 1])
  {
    var fed' := fed + [g];
    assert fed'[..|fed|] == fed && fed'[|fed|] == g;
    assert g in fed;
    assert Distinct(fed') == order;
    assert multiset(fed') == multiset(fed) + multiset{g};
  }

  lemma CountNew(fed: seq<string>, order: seq<string>, counts: map<string, nat>, g: string)
    requires Counts(fed, order, counts) && g !in counts
    ensures Counts(fed + [g], order + [g], counts[g := 1])
  {
    var fed' := fed + [g];
    assert fed'[..|fed|] == fed && fed'[|fed|] == g;
    assert g !in fed;
    assert Distinct(fed') == order + [g];
    assert multiset(fed') == multiset(fed) + multiset{g};
    assert multiset(fed)[g] == 0;
  }

  lemma PrefixSnoc<T>(seen: seq<T>, s: seq<T>, j: nat)
    requires j < |s|
    ensures seen + s[..j + 1] == (seen + s[..j]) + [s[j]]
  {
    assert s[..j + 1] == s[..j] + [s[j]];
  }

  lemma StreamSnoc(artists: seq<Artist>, i: nat)
    requires i < |artists|
    ensures GenreStream(artists[..i + 1]) == GenreStream(artists[..i]) + artists[i].genres
  {
    assert artists[..i + 1][..i] == artists[..i];
  }

  /** `counter.items()`: each key in insertion order with its count. */
  function Items(order: seq<string>, counts: map<string, nat>): (es: seq<Entry>)
    requires forall g :: g in order ==> g in counts
    ensures GenresOf(es) == order
    ensures forall k :: 0 <= k < |es| ==> es[k].count == counts[es[k].genre]
  {
    seq(|order|, k requires 0 <= k < |order| => Entry(order[k], counts[order[k]]))
  }

  /** The items of a Counter fed with `s` are exactly `Histogram(s)`. */
  lemma CounterItems(s: seq<string>, order: seq<string>, counts: map<string, nat>)
    requires Counts(s, order, counts)
    ensures Items(order, counts) == Histogram(s)
  {
  }

  /** The inner loop of `_top_genres`: one artist's genres fed to the Counter, in order. */
  method CountEach(genres: seq<string>, ghost fed: seq<string>, order0: seq<string>, counts0: map<string, nat>)
    returns (order: seq<string>, counts: map<string, nat>)
    requires Counts(fed, order0, counts0)
    ensures Counts(fed + genres, order, counts)
  {
    order, counts := order0, counts0;
    ghost var cur := fed;
    var j := 0;
    assert genres[..j] == [];
    while j < |genres|
      invariant 0 <= j <= |genres|
      invariant cur == fed + genres[..j]
      invariant Counts(cur, order, counts)
    {
      var g := genres[j];
      CountOne(cur, order, counts, g);
      if g in counts {
        counts := counts[g := counts[g] + 1];
      } else {
        counts := counts[g := 1];
        order := order + [g];
      }
      PrefixSnoc(fed, genres, j);
      cur := cur + [g];
      j := j + 1;
    }
    assert genres[..j] == genres;
  }

  /**
   * The outer loop of `_top_genres`: every genre of every artist is fed to a
   * Counter, one increment per listing.
   */
  method CountGenres(artists: seq<Artist>) returns (order: seq<string>, counts: map<string, nat>)
    ensures Counts(GenreStream(artists), order, counts)
  {
    order, counts := [], map[];
    var i := 0;
    while i < |artists|
      invariant 0 <= i <= |artists|
      invariant Counts(GenreStream(artists[..i]), order, counts)
    {
      order, counts := CountEach(artists[i].genres, GenreStream(artists[..i]), order, counts);
      StreamSnoc(artists, i);
      i := i + 1;
    }
    assert artists[..i] == artists;
  }

  /** `_top_genres`: the ten most common genres of the Counter built from `artists`. */
  method TopGenres(artists: seq<Artist>) returns (top: seq<string>)
    ensures top == TopGenresOf(artists)
  {
    var order, counts := CountGenres(artists);
    CounterItems(GenreStream(artists), order, counts);
    top := MostCommon(Items(order, counts), 10);
  }

  /** The entries `Top` keeps from a histogram, each with its genre and count. */
  lemma TopEntries(s: seq<string>, n: nat)
    ensures var h, top := Histogram(s), Ranking.Top(Histogram(s), CountOf, n);
      forall i :: 0 <= i < |top| ==> top[i] in h && top[i].genre in s && top[i].count == multiset(s)[top[i].genre]
  {
    var h, top := Histogram(s), Ranking.Top(Histogram(s), CountOf, n);
    Ranking.TopSize(h, CountOf, n);
    forall i | 0 <= i < |top|
      ensures top[i] in h && top[i].genre in s && top[i].count == multiset(s)[top[i].genre]
    {
      assert top[i] in multiset(top);
      var k :| 0 <= k < |h| && h[k] == top[i];
      assert GenresOf(h)[k] == top[i].genre;
    }
  }

  lemma TwiceInMultiset<T>(s: seq<T>, i: nat, j: nat)
    requires i < j < |s| && s[i] == s[j]
    ensures multiset(s)[s[i]] >= 2
  {
    assert s == s[..j] + s[j..];
    assert s[i] in s[..j];
    assert s[j] in s[j..];
  }

  lemma OnceInMultiset(h: seq<Entry>, e: Entry)
    requires forall i, j :: 0 <= i < j < |h| ==> h[i].genre != h[j].genre
    ensures multiset(h)[e] <= 1
  {
    if h != [] {
      assert h == [h[0]] + h[1..];
      OnceInMultiset(h[1..], e);
      if h[0] == e {
        assert e !in h[1..];
      }
    }
  }

  /** `_top_genres` answers at most ten genres. */
  lemma TopGenresAtMostTen(artists: seq<Artist>)
    ensures |TopGenresOf(artists)| <= 10
  {
    Ranking.TopSize(Histogram(GenreStream(artists)), CountOf, 10);
  }

  /** No genre has two entries in a histogram. */
  lemma HistogramDistinct(s: seq<string>)
    ensures var h := Histogram(s);
      forall i, j :: 0 <= i < j < |h| ==> h[i].genre != h[j].genre
  {
    var h, d := Histogram(s), Distinct(s);
    forall i, j | 0 <= i < j < |h| ensures h[i].genre != h[j].genre {
      assert h[i].genre == GenresOf(h)[i] == d[i];
      assert h[j].genre == GenresOf(h)[j] == d[j];
    }
  }

  /** `_top_genres` names no genre twice. */
  lemma TopGenresDistinct(artists: seq<Artist>)
    ensures var t := TopGenresOf(artists);
      forall i, j :: 0 <= i < j < |t| ==> t[i] != t[j]
  {
    var s := GenreStream(artists);
    var h := Histogram(s);
    var top := Ranking.Top(h, CountOf, 10);
    var t := TopGenresOf(artists);
    Ranking.TopSize(h, CountOf, 10);
    TopEntries(s, 10);
    HistogramDistinct(s);
    forall i, j | 0 <= i < j < |t| ensures t[i] != t[j] {
      if t[i] == t[j] {
        assert top[i] == top[j];
        TwiceInMultiset(top, i, j);
        OnceInMultiset(h, top[i]);
        assert false;
      }
    }
  }

  /** Every genre `_top_genres` names is listed by some artist of the page. */
  lemma TopGenresListed(artists: seq<Artist>)
    ensures forall g :: g in TopGenresOf(artists) ==> exists a :: a in artists && g in a.genres
  {
    var s := GenreStream(artists);
    TopEntries(s, 10);
    forall g | g in TopGenresOf(artists) ensures exists a :: a in artists && g in a.genres {
      GenreStreamMembers(artists, g);
    }
  }

  /** `_top_genres` runs from the most listed genre down. */
  lemma TopGenresDescending(artists: seq<Artist>)
    ensures var s, t := GenreStream(artists), TopGenresOf(artists);
      forall i, j :: 0 <= i < j < |t| ==> multiset(s)[t[i]] >= multiset(s)[t[j]]
  {
    var s := GenreStream(artists);
    var h := Histogram(s);
    var top := Ranking.Top(h, CountOf, 10);
    var t := TopGenresOf(artists);
    TopEntries(s, 10);
    Ranking.TopSorted(h, CountOf, 10);
    forall i, j | 0 <= i < j < |t| ensures multiset(s)[t[i]] >= multiset(s)[t[j]] {
      assert CountOf(top[i]) >= CountOf(top[j]);
    }
  }

  /** No genre `_top_genres` leaves out is listed more often than one it keeps. */
  lemma TopGenresKeepBest(artists: seq<Artist>)
    ensures var s, t := GenreStream(artists), TopGenresOf(artists);
      forall g, y :: g in s && g !in t && y in t ==> multiset(s)[g] <= multiset(s)[y]
  {
    var s := GenreStream(artists);
    var h := Histogram(s);
    var top := Ranking.Top(h, CountOf, 10);
    var t := TopGenresOf(artists);
    TopEntries(s, 10);
    forall g, y | g in s && g !in t && y in t ensures multiset(s)[g] <= multiset(s)[y] {
      var k := HistogramEntry(s, g);
      GenresOfMembers(top);
      assert h[k] !in top;
      var m :| 0 <= m < |t| && t[m] == y;
      Ranking.TopKeepsBest(h, CountOf, 10, h[k], top[m]);
    }
  }

  /** When the page lists at most ten distinct genres, `_top_genres` keeps them all. */
  lemma TopGenresAllWhenFew(artists: seq<Artist>)
    ensures var s, t := GenreStream(artists), TopGenresOf(artists);
      |Distinct(s)| <= 10 ==> forall g :: g in s ==> g in t
  {
    var s := GenreStream(artists);
    var h := Histogram(s);
    var top := Ranking.Top(h, CountOf, 10);
    var t := TopGenresOf(artists);
    if |Distinct(s)| <= 10 {
      Ranking.TopSize(h, CountOf, 10);
      forall g | g in s ensures g in t {
        var k := HistogramEntry(s, g);
        assert h[k] in multiset(top);
        var m :| 0 <= m < |top| && top[m] == h[k];
        assert t[m] == g;
      }
    }
  }

  lemma GenresOfMembers(es: seq<Entry>)
    ensures forall e :: e in es ==> e.genre in GenresOf(es)
  {
    forall e | e in es ensures e.genre in GenresOf(es) {
      var i :| 0 <= i < |es| && es[i] == e;
      assert GenresOf(es)[i] == e.genre;
    }
  }

  /** Where a genre of `s` sits in `Histogram(s)`. */
  lemma HistogramEntry(s: seq<string>, g: string) returns (k: nat)
    requires g in s
    ensures k < |Histogram(s)| && Histogram(s)[k].genre == g
  {
    var d := Distinct(s);
    k :| 0 <= k < |d| && d[k] == g;
    assert GenresOf(Histogram(s))[k] == g;
  }

  /**
   * Equal counts keep the order in which the genres were first met: for
   * each count, the kept entries with that count are the first entries of
   * the histogram with that count, in histogram order, and the histogram
   * lists genres in the order first met (`DistinctFirstMet`).
   */
  lemma TopGenresTies(artists: seq<Artist>, c: int)
    ensures var h := Histogram(GenreStream(artists));
      Ranking.WithKey(Ranking.Top(h, CountOf, 10), CountOf, c) <= Ranking.WithKey(h, CountOf, c)
  {
    Ranking.TopStable(Histogram(GenreStream(artists)), CountOf, 10, c);
  }
}
