# MJ — a Dafny model of the music-sharing web service's core

MJ is a small web service over a music-streaming API. Users sign in through
the API's OAuth flow, share tracks with each other, react to shared tracks,
compare their listening taste, and see quotes from the lyrics of their top
tracks. This project models the logic of `main.py` that sits behind those
handlers and proves properties of it:

- **Credentials** (`store.dfy`, class `Store.Database`, field `users`). The
  token manager serves the stored access token. It refreshes the token once
  it is within 60 seconds of expiry, and then writes back only the access
  token, the refresh token (kept when the reply leaves it out, NULL when the reply sets it to `null`) and the expiry.
  The sign-in callback replaces a user's whole record.
- **Shares and reactions** (`store.dfy`, fields `shared`, `nextId` and
  `reactions`). Shares go to an append-only log with increasing ids.
  Reactions are upserted per (share, user). The shared-songs read filters the
  log to the caller's shares, joins the sender's name, attaches the caller's
  own reaction, and lists newest first.
- **Taste comparison** (`taste.dfy`). Dictionaries and sets of artist and
  track ids, the compatibility score with its floor-1 divisor and its cap of
  100, and the handler's sequence of token and page requests with their
  error paths.
- **Top genres** (`genres.dfy`, on `ranking.dfy`). The nested loops that
  fill a `Counter` become imperative methods proved against a histogram.
  `most_common(10)` is a stable descending sort of that histogram, cut to ten.
- **Projections** (`catalog.dfy`). The track and artist views: artists joined
  with `", "`, and the first image or `""`.
- **Lyrics helpers** (`lyrics.dfy`). Title cleaning, the credited artist, the
  filter that picks quotable lines, and the attribution line. These use the
  Python string operations in `text.dfy`.

Upstream calls are parameters: the token endpoint is `refresh` and the music
API pages are `artistsPage`/`tracksPage`. So are the results of the sign-in
exchange (`CodeGrant`, `Profile`) and the clock, as integer seconds `now`.

## Model

| member | source | states |
|---|---|---|
| Text.Join | main.py:229 | `", ".join(...)`: empty list gives "", one part gives that part, otherwise the total length with separators, starting with the first part |
| Text.JoinAppend | main.py:229 | joining two non-empty lists is joining each with one separator between, which places every part and separator |
| Text.Split | main.py:415 | `split("\n")`: at least one piece, no piece holds the separator, and joining the pieces gives the text back |
| Text.SplitJoin | main.py:415 | splitting a join of separator-free parts gives the parts back |
| Text.BeforeFirst | main.py:405 | `s.split(sep)[0]`: the prefix before the first occurrence of `sep`, or all of `s` when there is none |
| Text.Contains | main.py:420 | Python's `pat in s`: `pat` occurs at some index of `s` |
| Text.StartsWith | main.py:418-419 | Python's `s.startswith(p)`: `p` is a prefix of `s` |
| Text.IsSpace | main.py:415-419 | Python's `str.isspace` for one character, the set `strip()` removes |
| Text.Strip | main.py:415-419 | `strip()`: the slice between the outer whitespace; empty iff all whitespace; no whitespace at either end |
| Text.StripIdempotent | main.py:405 | stripping twice is stripping once |
| Catalog.FirstImage | main.py:173 | `images[0]["url"] if images else ""` |
| Catalog.ViewTrack | main.py:226-233 | id, name, preview and link copied; artist field is the `", "` join of the artist names (one artist gives that name, none gives ""); first album image or "" |
| Catalog.ViewArtist | main.py:246-251 | id, name and genres copied; first image or "" |
| Catalog.ViewTracks | main.py:225-235 | one view per page item, in page order |
| Catalog.ViewArtists | main.py:245-253 | one view per page item, in page order |
| Ranking.SortDesc | main.py:301 | `most_common` order: a permutation of its input, counts never increasing |
| Ranking.SortStable | main.py:301 | elements with equal counts keep their input order |
| Ranking.Top | main.py:301 | `most_common(n)`: at most n elements, by descending count |
| Ranking.TopSize | main.py:301 | `most_common(n)` keeps min(n, size) elements, all drawn from the input, all of them when there are at most n |
| Ranking.TopKeepsBest | main.py:301 | nothing left out outranks anything kept |
| Ranking.TopStable | main.py:301 | among equal counts, the kept ones are the earliest in input order |
| Genres.GenreStream | main.py:298-299 | the genres in the order the nested loops feed them, repeats included |
| Genres.GenreStreamMembers | main.py:298-299 | a genre is fed to the Counter iff some artist lists it |
| Genres.Distinct | main.py:297-300 | the Counter's key order: each fed genre exactly once |
| Genres.DistinctFirstMet | main.py:297-300 | keys are ordered by first occurrence |
| Genres.Histogram | main.py:297-300 | `Counter(...).items()`: the distinct genres with each one's number of occurrences |
| Genres.MostCommon | main.py:301 | `[g for g, _ in counter.most_common(n)]`: at most n genres |
| Genres.TopGenresOf | main.py:295-301 | what `_top_genres` answers: the ten most common genres of the histogram of the fed genres |
| Genres.CountOne | main.py:300 | `genres[g] += 1` keeps the Counter equal to the histogram of what it was fed |
| Genres.CountEach | main.py:299-300 | the inner loop feeds one artist's genres, in order |
| Genres.CountGenres | main.py:298-300 | the nested loops leave the Counter equal to the histogram of all listed genres |
| Genres.Items | main.py:301 | `counter.items()`: the keys in insertion order, each with its count |
| Genres.CounterItems | main.py:301 | the Counter's items are that histogram |
| Genres.TopGenres | main.py:295-301 | `_top_genres` answers the ten most common genres of that histogram |
| Genres.TopGenresAtMostTen | main.py:301 | at most ten genres |
| Genres.TopGenresDistinct | main.py:301 | no genre twice |
| Genres.TopGenresListed | main.py:298-301 | each answered genre is listed by some artist |
| Genres.TopGenresDescending | main.py:301 | ordered by occurrence count, most frequent first |
| Genres.TopGenresKeepBest | main.py:301 | no left-out genre occurs more often than a kept one |
| Genres.TopGenresAllWhenFew | main.py:301 | with at most ten distinct genres, all are answered |
| Genres.TopGenresTies | main.py:301 | equal counts are kept in first-encountered order |
| Store.NeedsRefresh | main.py:91 | a token is stale once the clock is past 60 seconds before its expiry |
| Store.KeptOrRotated | main.py:95 | `token_data.get("refresh_token", row["refresh_token"])`: the stored token when the member is absent, NULL when it is `null`, the rotated token otherwise |
| Store.AfterRefresh | main.py:93-98 | refreshed record: new access token, expiry `now + expires_in`, refresh token kept, rotated or NULL as the reply says, profile unchanged |
| Store.ValidToken | main.py:85-102 | no record gives absent and no change; fresh token returned with no change; stale token refreshed with the stored (possibly NULL) refresh token, written back and returned; refused refresh fails with no change; other users untouched |
| Store.NullRotationClearsRefreshToken | main.py:92-99 | a refresh reply with `"refresh_token": null` succeeds and writes NULL over the stored refresh token |
| Store.RefreshThenCurrent | main.py:91-100 | after a refresh granting more than 60 s, a call at the same instant serves the stored token |
| Store.RefreshAdvancesExpiry | main.py:91-94 | a refresh granting at least 60 s moves the expiry forward |
| Store.RefreshCanMoveExpiryBack | main.py:91-94 | a token 30 s from expiry is stale, and a refresh granting 10 s moves its expiry 20 s back |
| Store.Upsert | main.py:379-383 | insert-or-update: the key holds the new value, other keys unchanged |
| Store.UpsertTwice | main.py:380-382 | writing a key twice keeps one entry with the second value |
| Store.StoredNameAsWritten | main.py:171 | `profile.get("display_name", user_id)`: the name when present, the id when the member is absent, NULL exactly when it is `null` |
| Store.NullNameStoredAsNull | main.py:171 | a `null` display name makes the callback store NULL, where the intended name is the user id |
| Store.StoredName | main.py:171 | the display name, or the user id when it has none; agrees with the code except on `null` |
| Store.NewRecord | main.py:170-173 | the record the callback writes: name as `get` yields it (NULL for `null`, otherwise the intended name), first image or "", tokens and expiry |
| Store.StoredRefreshToken | main.py:162 | `token_data["refresh_token"]` of a grant with the member: the token, or NULL exactly when it is `null` |
| Store.Database.Authorize | main.py:160-186 | a grant without a `refresh_token` member writes nothing; otherwise the profile's record is replaced whole by `NewRecord` (a `null` refresh token stored as NULL), and other tables unchanged; share ids stay increasing |
| Store.Database.GetValidToken | main.py:82-104 | outcome and users table as in `ValidToken`; shares and reactions unchanged; share ids stay increasing |
| Store.Database.Share | main.py:332-345 | one share appended with the next id, the sender, the body's fields with "" defaults and the time; ids stay increasing |
| Store.Database.React | main.py:379-383 | the (share, user) reaction is upserted; nothing else changes; share ids stay increasing |
| Store.Involving | main.py:361-363 | exactly the log entries the caller sent or received whose sender has a record, each as many times as the log holds it |
| Store.MyReaction | main.py:360 | the caller's own reaction to that share, or none |
| Store.FeedOrder | main.py:361-364 | the caller's shares rearranged (same multiset), newest first |
| Store.FeedItems | main.py:359-360 | each row carries its share, the sender's display name and the caller's reaction |
| Store.FeedOrderMembers | main.py:361-363 | the feed's shares are exactly the log entries that involve the caller |
| Store.Feed | main.py:358-365 | every row involves the caller and carries the sender's name and the caller's own reaction, never another user's; the rows' shares are the involving log entries with their multiplicity, so a share the log holds once is listed once |
| Store.FeedNewestFirst | main.py:364 | rows ordered by creation time, newest first |
| Store.FeedComplete | main.py:358-365 | every share involving the caller is in the feed |
| Store.ShareThenFeed | main.py:336-363 | a share appears in both sender's and recipient's feed with the reader's own reaction |
| Store.Others | main.py:212 | every user but the caller, with name (NULL kept) and image |
| Store.Database.SharedWith | main.py:351-368 | `get_shared` over the current tables: each row involves the caller, is in the log and carries the sender's name and the caller's own reaction; the rows' shares are the involving entries with their multiplicity; newest first |
| Taste.ArtistIndex | main.py:270-271 | `{id: name}`: the keys are exactly the page's artist ids |
| Taste.ArtistIndexLastWins | main.py:270-271 | a repeated id keeps the name listed last |
| Taste.TrackIds | main.py:278-279 | the set of the page's track ids |
| Taste.Score | main.py:282-284 | the score lies in [0, 100] for any page sizes, two empty pages included, and is 0 with nothing shared |
| Taste.ScoreUncapped | main.py:282-284 | when sharing no more than either side has, the score is `200 * shared / total` |
| Taste.Compatibility | main.py:273-284 | the score of two artist indexes lies in [0, 100] and is 0 when they share no artist |
| Taste.CommonBounded | main.py:273 | the intersection is no larger than either set |
| Taste.CompatibilityExact | main.py:282-284 | the `min(..., 100)` never takes effect |
| Taste.CompatibilitySymmetric | main.py:273-283 | the score is the same whichever user asks |
| Taste.CompatibilityExtremes | main.py:273-283 | same non-empty artist sets give 100; disjoint ones give 0 |
| Taste.SharedArtists | main.py:288 | the common artist ids, each with the caller's name for it |
| Taste.CompareOf | main.py:270-291 | the comparison of four pages: score in [0, 100], shared artists exactly the ids on both artist pages, at most ten genres per side |
| Taste.CompareSwapped | main.py:270-291 | swapping the users keeps score, shared-track count and shared ids, and swaps the genre lists |
| Taste.Bearer | main.py:262-267 | the token sent: the one obtained, or "None" when the caller has no record |
| Taste.CompareFlow | main.py:262-292 | caller's refresh refused gives a refusal; other user without a record gives not-found; success needs the other's record; only the two users' records may change |
| Taste.CompareWithCurrentTokens | main.py:262-292 | with two current tokens and all pages served, the answer is the comparison of the four pages and nothing is written |
| Taste.Compare | main.py:256-292 | the handler's outcome and users table are those of `CompareFlow`; shares and reactions unchanged; share ids stay increasing |
| Lyrics.CutAt | main.py:405 | the chained `.split(marker)[0]`: a prefix of the title that is the whole title or ends where one of the markers cut so far starts |
| Lyrics.CutAtShape | main.py:405 | each cut keeps a prefix of the title free of the markers cut so far, ending at a marker unless it is the whole title, so the cut falls at the first marker |
| Lyrics.CutAtFree | main.py:405 | a title free of the markers is not cut |
| Lyrics.CleanTitle | main.py:405 | the cleaned title is no longer than the title |
| Lyrics.CleanTitleShape | main.py:405 | the cleaned title is a piece of the title, without outer whitespace and without " (", " -", " feat", " ft."; it is the stripped marker-free prefix that runs to a marker or to the end |
| Lyrics.CleanTitleIdempotent | main.py:405 | cleaning a cleaned title changes nothing |
| Lyrics.CreditedArtist | main.py:403 | the first artist, or "Unknown" |
| Lyrics.Quotable | main.py:416-420 | the filter of the comprehension: non-empty and over ten characters once stripped, opening with neither `[` nor `(`, raw line without "Paroles de" |
| Lyrics.Kept | main.py:414-421 | `[f(x) for x in xs if keep(x)]`: no longer than its input |
| Lyrics.KeptMembers | main.py:414-421 | the comprehension yields exactly the transformed kept elements |
| Lyrics.Quotes | main.py:414-421 | the comprehension over the split lines: stripped quotable lines, no more than there are lines |
| Lyrics.QuotesMembers | main.py:414-421 | a quote is exactly the stripped form of some quotable line |
| Lyrics.QuoteLines | main.py:414-421 | the comprehension over `lyrics_text.split("\n")`, filtered by `Quotable` and stripped |
| Lyrics.QuotableShape | main.py:416-420 | a quotable line strips to over ten characters, opening with neither `[` nor `(`, without "Paroles de" |
| Lyrics.QuoteLinesShape | main.py:414-421 | every offered line is long enough, stripped, opens with neither bracket, holds no line break and no "Paroles de" |
| Lyrics.QuoteLinesComplete | main.py:414-421 | every quotable line of the text is offered |
| Lyrics.AttributionAsWritten | main.py:426 | as written: the title, then the five characters " â€” ", then the artist |
| Lyrics.AttributionMisencoded | main.py:426 | the separator in the source is not an em dash: two characters too long, and shows no em dash |
| Lyrics.Attribution | main.py:426 | title, then " — ", then the artist |

## Left out

- Network calls are parameters of the model. These are `exchange_code`, `refresh_access_token`, `spotify_get`, the `/me` fetch and the lyrics fetch. Any refused reply is one error value (`RefreshError`, a page of `None`), and so is a reply missing a field that the source reads with `[...]`. A `refresh_token` member set to `null` is not an error: the source stores it as NULL, and so does the model (`Store.KeptOrRotated`, `Store.StoredRefreshToken`).
- Session cookies (`get_current_user_id`) are not modelled. Handlers take the resolved user id, and the 401 path for a missing session is not modelled.
- `make_auth_url`, routing, templates, redirects, logout, the table-creating middleware and the `__main__` block are not modelled.
- The database layer `main.py` runs on is not part of this model. `database.py` defines neither `ensure_tables` nor `release_db`, which `main.py:13` imports. Its schema is used only for keys: the users primary key and the reactions `UNIQUE` pair become map keys, and `AUTOINCREMENT` becomes `nextId`. Foreign keys are not enforced, so a share or reaction may name any id.
- Time is whole seconds passed in as `now`. `get_valid_token` reads the float clock twice, and the model uses one reading for both. `created_at`, which the database fills in, is the `now` passed to `Share`.
- Taste.Score: an exact rational, not Python's float division followed by `round(x, 1)`.
- Taste.SharedArtists: a map from id to name. The source returns a list in Python's set iteration order, which the model does not fix.
- Taste.CompareFlow: the page size (50) and time range of the four requests are not modelled. The caller's missing record is sent as the token text "None", which is what the source formats into the header.
- Store.Feed: `ORDER BY created_at DESC` leaves ties in an order the database chooses. The model keeps ties in log order.
- Store.Database.Share: a JSON `null` in an optional body field is stored as NULL in the source. The model's request fields are absent or a string, and absent becomes "". A body missing a required key fails in the source before any write; the model takes those keys as present.
- Store.Database.React: the body's `shared_song_id` is taken as an integer; JSON of another type is not modelled.
- Store.ValidToken: a `null` access token or lifetime in a refresh reply is not modelled; the reply's access token is a string and its lifetime an integer.
- Store.Database.Authorize: failures of the code exchange or the profile fetch happen before any write and are not modelled. The `error` redirect is not modelled either.
- Store.RefreshAdvancesExpiry: the expiry only moves forward when the granted lifetime is at least 60 seconds. The code does not guarantee it for shorter lifetimes.
- The lyrics handler's fetch, `random.choice`, `random.shuffle` and URL quoting are not modelled. Only title cleaning, the credited artist, the line filter and the attribution are.
- Concurrent refreshes of one user and connection lifetimes are not modelled.
- `main.py` has no handler for a combined ranked track list or a recently-played feed, so neither is modelled.

## Findings

| source | as written | input that shows it | evidently intended | confidence | as-written member | corrected member |
|---|---|---|---|---|---|---|
| main.py:426 | the separator between title and artist is the three characters `â€”`, the em dash's UTF-8 bytes read as Windows-1252 | title "Song", artist "Band" gives "Song â€” Band" | "Song — Band" | high (the file holds these three characters); not executed | Lyrics.AttributionMisencoded | Lyrics.Attribution |
| main.py:171 | `profile.get("display_name", user_id)` falls back to the id only when the member is absent; a `null` display name is stored as NULL | profile `{"id": "listener", "display_name": null}` | stored name "listener" | medium (the music API reports a missing display name as `null`); not executed | Store.NullNameStoredAsNull | Store.StoredName |
