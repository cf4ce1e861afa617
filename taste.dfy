/**
 * The taste comparison between two users: which top artists and top tracks
 * their pages share, the compatibility score derived from the artists, and
 * each side's top genres; and the handler that obtains both users' tokens
 * and the four pages before computing it.
 */
module Taste {
  import opened Wrappers
  import opened Catalog
  import Genres
  import Store

  /**
   * `{a["id"]: a["name"] for a in items}`: one entry per artist id on the
   * page; when an id is listed twice, the later name wins.
   */
  function ArtistIndex(items: seq<Artist>): (m: map<string, string>)
    ensures forall id :: id in m <==> exists i :: 0 <= i < |items| && items[i].id == id
  {
    if items == [] then map[]
    else
      var init, last := items[..|items| - 1], items[|items| - 1];
      assert forall i :: 0 <= i < |init| ==> items[i] == init[i];
      ArtistIndex(init)[last.id := last.name]
  }

  /** The name an id maps to is the one of its last listing on the page. */
  lemma {:induction false} ArtistIndexLastWins(items: seq<Artist>, i: nat)
    requires i < |items|
    requires forall j :: i < j < |items| ==> items[j].id != items[i].id
    ensures ArtistIndex(items)[items[i].id] == items[i].name
  {
    var init, last := items[..|items| - 1], items[|items| - 1];
    if i < |init| {
      assert init[i] == items[i];
      assert forall j :: i < j < |init| ==> init[j] == items[j];
      ArtistIndexLastWins(init, i);
      assert last.id != items[i].id;
    }
  }

  /** `{t["id"] for t in items}`: the distinct track ids on the page. */
  function TrackIds(items: seq<Track>): (ids: set<string>)
    ensures forall id :: id in ids <==> exists i :: 0 <= i < |items| && items[i].id == id
  {
    set i | 0 <= i < |items| :: items[i].id
  }

  /**
   * The compatibility score: `shared / (total / 2) * 100`, where `total` is
   * the sum of the two pages' distinct artist counts but at least 1, and
   * then at most 100.
   */
  function Score(shared: nat, mine: nat, theirs: nat): (r: real)
    ensures 0.0 <= r <= 100.0
    ensures shared == 0 ==> r == 0.0
  {
    var total := if mine + theirs > 1 then mine + theirs else 1;
    var raw := (200 * shared) as real / total as real;
    if raw < 100.0 then raw else 100.0
  }

  /** The score of two artist indexes: their common ids against both sizes. */
  function Compatibility(mine: map<string, string>, theirs: map<string, string>): (r: real)
    ensures 0.0 <= r <= 100.0
    ensures mine.Keys !! theirs.Keys ==> r == 0.0
  {
    assert mine.Keys !! theirs.Keys ==> mine.Keys * theirs.Keys == {};
    Score(|mine.Keys * theirs.Keys|, |mine|, |theirs|)
  }

  /** Sharing at most as many artists as either side has keeps the score below the cap. */
  lemma ScoreUncapped(shared: nat, mine: nat, theirs: nat)
    requires shared <= mine && shared <= theirs && mine + theirs > 0
    ensures Score(shared, mine, theirs) == (200 * shared) as real / (mine + theirs) as real
  {
    var total := (mine + theirs) as real;
    var raw := (200 * shared) as real / total;
    assert raw * total == (200 * shared) as real;
    assert (200 * shared) as real <= 100.0 * total;
  }

  /** The common part of two key sets is no larger than either. */
  lemma CommonBounded(a: set<string>, b: set<string>)
    ensures |a * b| <= |a| && |a * b| <= |b|
  {
    assert a == (a - b) + (a * b);
    assert (a - b) !! (a * b);
    assert b == (b - a) + (a * b);
    assert (b - a) !! (a * b);
  }

  /**
   * The `min(..., 100)` of the handler never takes effect: the score is
   * exactly twice the common artists over all artists, as a percentage.
   */
  lemma CompatibilityExact(mine: map<string, string>, theirs: map<string, string>)
    requires |mine| + |theirs| > 0
    ensures Compatibility(mine, theirs)
      == (200 * |mine.Keys * theirs.Keys|) as real / (|mine| + |theirs|) as real
  {
    CommonBounded(mine.Keys, theirs.Keys);
    assert |mine.Keys| == |mine| && |theirs.Keys| == |theirs|;
    ScoreUncapped(|mine.Keys * theirs.Keys|, |mine|, |theirs|);
  }

  /** The score does not depend on who asks. */
  lemma CompatibilitySymmetric(mine: map<string, string>, theirs: map<string, string>)
    ensures Compatibility(mine, theirs) == Compatibility(theirs, mine)
  {
    assert mine.Keys * theirs.Keys == theirs.Keys * mine.Keys;
  }

  /** Two pages with the same non-empty set of artists score 100; pages with none in common score 0. */
  lemma CompatibilityExtremes(mine: map<string, string>, theirs: map<string, string>)
    ensures mine.Keys == theirs.Keys && mine != map[] ==> Compatibility(mine, theirs) == 100.0
    ensures mine.Keys !! theirs.Keys ==> Compatibility(mine, theirs) == 0.0
  {
    if mine.Keys == theirs.Keys && mine != map[] {
      var n := |mine.Keys|;
      assert mine.Keys * theirs.Keys == mine.Keys;
      assert |mine| == n == |theirs| && n > 0;
      CompatibilityExact(mine, theirs);
      assert (200 * n) as real == 100.0 * (n + n) as real;
    }
    if mine.Keys !! theirs.Keys {
      assert mine.Keys * theirs.Keys == {};
    }
  }

  /** `[my_artists[aid] for aid in shared]`, keyed by artist id: the caller's name for each common artist. */
  function SharedArtists(mine: map<string, string>, theirs: map<string, string>): (r: map<string, string>)
    ensures r.Keys == mine.Keys * theirs.Keys
    ensures forall id :: id in r ==> r[id] == mine[id]
  {
    map id | id in mine.Keys * theirs.Keys :: mine[id]
  }

  /** The body the compare handler answers with. */
  datatype Comparison = Comparison(
    score: real,
    sharedArtists: map<string, string>,
    sharedTrackCount: nat,
    myTopGenres: seq<string>,
    theirTopGenres: seq<string>)

  /** The comparison computed from the four pages: the two top-artist pages and the two top-track pages. */
  function CompareOf(myArtists: seq<Artist>, theirArtists: seq<Artist>,
                     myTracks: seq<Track>, theirTracks: seq<Track>): (c: Comparison)
    ensures 0.0 <= c.score <= 100.0
    ensures forall id :: id in c.sharedArtists <==>
      (exists i :: 0 <= i < |myArtists| && myArtists[i].id == id)
      && (exists j :: 0 <= j < |theirArtists| && theirArtists[j].id == id)
    ensures |c.myTopGenres| <= 10 && |c.theirTopGenres| <= 10
  {
    var mine, theirs := ArtistIndex(myArtists), ArtistIndex(theirArtists);
    Genres.TopGenresAtMostTen(myArtists);
    Genres.TopGenresAtMostTen(theirArtists);
    Comparison(
      Compatibility(mine, theirs),
      SharedArtists(mine, theirs),
      |TrackIds(myTracks) * TrackIds(theirTracks)|,
      Genres.TopGenresOf(myArtists),
      Genres.TopGenresOf(theirArtists))
  }

  /**
   * Swapping the two users swaps the genre lists and keeps the score, the
   * count of shared tracks and the set of shared artist ids.
   */
  lemma CompareSwapped(myArtists: seq<Artist>, theirArtists: seq<Artist>,
                       myTracks: seq<Track>, theirTracks: seq<Track>)
    ensures var c, d := CompareOf(myArtists, theirArtists, myTracks, theirTracks),
                        CompareOf(theirArtists, myArtists, theirTracks, myTracks);
      && c.score == d.score
      && c.sharedTrackCount == d.sharedTrackCount
      && c.sharedArtists.Keys == d.sharedArtists.Keys
      && c.myTopGenres == d.theirTopGenres && c.theirTopGenres == d.myTopGenres
  {
    var mine, theirs := ArtistIndex(myArtists), ArtistIndex(theirArtists);
    var c := CompareOf(myArtists, theirArtists, myTracks, theirTracks);
    var d := CompareOf(theirArtists, myArtists, theirTracks, myTracks);
    assert c.score == Compatibility(mine, theirs) && d.score == Compatibility(theirs, mine);
    CompatibilitySymmetric(mine, theirs);
    var x, y := TrackIds(myTracks), TrackIds(theirTracks);
    assert c.sharedTrackCount == |x * y| && d.sharedTrackCount == |y * x|;
    assert x * y == y * x;
    assert c.sharedArtists.Keys == mine.Keys * theirs.Keys && d.sharedArtists.Keys == theirs.Keys * mine.Keys;
  }

  /**
   * Why the compare handler answers no comparison: a refresh the token
   * endpoint refused, the other user without a usable token (404), or a
   * page the music API refused.
   */
  datatype CompareError = RefreshRefused | OtherNotConnected | PageRefused

  datatype CompareOutcome = Compared(comparison: Comparison) | Failed(error: CompareError)

  /**
   * The token the handler sends: the one it obtained, or Python's `None`
   * formatted into the header when the caller has no record.
   */
  function Bearer(o: Store.TokenOutcome): (token: string)
    ensures o.Current? || o.Refreshed? ==> token == o.token
    ensures o.NotConnected? ==> token == "None"
  {
    if o.Current? || o.Refreshed? then o.token else "None"
  }

  /**
   * The compare handler over the users table: the caller's token, then the
   * other user's (404 when the other user has no record or an empty token),
   * then the caller's and the other's top artists, then their top tracks.
   * `artistsPage` and `tracksPage` are the music API's answers for a token
   * (`None` when it refuses).
   */
  function CompareFlow(users: map<Store.UserId, Store.UserRecord>, uid: Store.UserId, other: Store.UserId,
                       now: int, refresh: Option<string> -> Store.RefreshReply,
                       artistsPage: string -> Option<seq<Artist>>,
                       tracksPage: string -> Option<seq<Track>>)
    : (r: (CompareOutcome, map<Store.UserId, Store.UserRecord>))
    ensures r.1.Keys == users.Keys
    ensures forall u :: u in users && u != uid && u != other ==> r.1[u] == users[u]
    ensures Store.ValidToken(users, uid, now, refresh).0 == Store.RefreshFailed ==> r.0 == Failed(RefreshRefused)
    ensures other !in users && Store.ValidToken(users, uid, now, refresh).0 != Store.RefreshFailed ==>
      r.0 == Failed(OtherNotConnected)
    ensures r.0.Compared? ==> other in users
  {
    var (mine, users1) := Store.ValidToken(users, uid, now, refresh);
    if mine == Store.RefreshFailed then (Failed(RefreshRefused), users1)
    else
      var (theirs, users2) := Store.ValidToken(users1, other, now, refresh);
      if theirs == Store.RefreshFailed then (Failed(RefreshRefused), users2)
      else if theirs == Store.NotConnected || theirs.token == "" then (Failed(OtherNotConnected), users2)
      else
        var myToken, theirToken := Bearer(mine), theirs.token;
        match (artistsPage(myToken), artistsPage(theirToken), tracksPage(myToken), tracksPage(theirToken))
        case (Some(a), Some(b), Some(c), Some(d)) => (Compared(CompareOf(a, b, c, d)), users2)
        case _ => (Failed(PageRefused), users2)
  }

  /**
   * When both users hold tokens that need no refresh and the music API
   * serves all four pages, the handler answers the comparison of those
   * pages and writes nothing.
   */
  lemma CompareWithCurrentTokens(users: map<Store.UserId, Store.UserRecord>, uid: Store.UserId,
                                 other: Store.UserId, now: int, refresh: Option<string> -> Store.RefreshReply,
                                 artistsPage: string -> Option<seq<Artist>>,
                                 tracksPage: string -> Option<seq<Track>>)
    requires uid in users && !Store.NeedsRefresh(now, users[uid].expiresAt)
    requires other in users && !Store.NeedsRefresh(now, users[other].expiresAt)
    requires users[other].accessToken != ""
    requires var a, b := users[uid].accessToken, users[other].accessToken;
      artistsPage(a).Some? && artistsPage(b).Some? && tracksPage(a).Some? && tracksPage(b).Some?
    ensures var a, b := users[uid].accessToken, users[other].accessToken;
      CompareFlow(users, uid, other, now, refresh, artistsPage, tracksPage)
        == (Compared(CompareOf(artistsPage(a).value, artistsPage(b).value,
                               tracksPage(a).value, tracksPage(b).value)), users)
  {
  }

  /**
   * `compare`: obtains both tokens (refreshing and writing back as needed),
   * fetches the four pages and builds the comparison, counting genres with
   * the loops of `_top_genres`.
   */
  method Compare(db: Store.Database, uid: Store.UserId, other: Store.UserId, now: int,
                 refresh: Option<string> -> Store.RefreshReply,
                 artistsPage: string -> Option<seq<Artist>>,
                 tracksPage: string -> Option<seq<Track>>)
    returns (r: CompareOutcome)
    requires db.Valid()
    modifies db
    ensures db.Valid()
    ensures (r, db.users) == CompareFlow(old(db.users), uid, other, now, refresh, artistsPage, tracksPage)
    ensures db.shared == old(db.shared) && db.nextId == old(db.nextId) && db.reactions == old(db.reactions)
  {
    var mine := db.GetValidToken(uid, now, refresh);
    if mine == Store.RefreshFailed {
      return Failed(RefreshRefused);
    }
    var theirs := db.GetValidToken(other, now, refresh);
    if theirs == Store.RefreshFailed {
      return Failed(RefreshRefused);
    }
    if theirs == Store.NotConnected || theirs.token == "" {
      return Failed(OtherNotConnected);
    }
    var myToken, theirToken := Bearer(mine), theirs.token;
    var myTop := artistsPage(myToken);
    var theirTop := artistsPage(theirToken);
    var myTracks := tracksPage(myToken);
    var theirTracks := tracksPage(theirToken);
    if myTop.None? || theirTop.None? || myTracks.None? || theirTracks.None? {
      return Failed(PageRefused);
    }
    var myIndex, theirIndex := ArtistIndex(myTop.value), ArtistIndex(theirTop.value);
    var myGenres := Genres.TopGenres(myTop.value);
    var theirGenres := Genres.TopGenres(theirTop.value);
    r := Compared(Comparison(
      Compatibility(myIndex, theirIndex),
      SharedArtists(myIndex, theirIndex),
      |TrackIds(myTracks.value) * TrackIds(theirTracks.value)|,
      myGenres,
      theirGenres));
  }
}
