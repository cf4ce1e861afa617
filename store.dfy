/**
 * The persistent state the handlers read and write, and the handlers'
 * bookkeeping over it: the users table (one credential record per user id,
 * refreshed by `get_valid_token`, replaced by the authorisation callback),
 * the append-only shared-songs log, and the reactions table keyed by
 * (shared song, reacting user).
 */
module Store {
  import opened Wrappers
  import Catalog
  import Ranking

  type UserId = string

  /**
   * A row of the users table. `displayName` and `refreshToken` are `None`
   * where the column holds NULL; `expiresAt` is the access token's expiry in
   * whole epoch seconds.
   */
  datatype UserRecord = UserRecord(
    displayName: Option<string>,
    imageUrl: string,
    accessToken: string,
    refreshToken: Option<string>,
    expiresAt: int)

  /** Seconds before expiry at which a token is already treated as stale. */
  const RefreshMargin: int := 60

  /** `time.time() > token_expires_at - 60`: the stored token must be refreshed. */
  predicate NeedsRefresh(now: int, expiresAt: int)
  {
    now > expiresAt - RefreshMargin
  }

  /**
   * The token endpoint's answer to a refresh-token grant: a new access
   * token, its lifetime in seconds and the `refresh_token` member, which the
   * server may leave out, set to `null` or set to a rotated token. Any
   * non-2xx answer, network fault or missing access token or lifetime is
   * `RefreshError`.
   */
  datatype RefreshReply =
    | Granted(accessToken: string, expiresIn: int, refreshToken: Field<string>)
    | RefreshError

  /**
   * What `get_valid_token` yields: no record (`None`), the stored token
   * unchanged, a freshly refreshed token, or the refresh call's failure
   * (raised to the caller, with no fallback to the stale token).
   */
  datatype TokenOutcome =
    | NotConnected
    | Current(token: string)
    | Refreshed(token: string)
    | RefreshFailed

  /**
   * `token_data.get("refresh_token", row["refresh_token"])`: the stored token
   * when the reply leaves the member out, NULL when the reply sets it to
   * `null`, the rotated token otherwise.
   */
  function KeptOrRotated(rotated: Field<string>, stored: Option<string>): (r: Option<string>)
    ensures rotated.Missing? ==> r == stored
    ensures rotated.Null? ==> r == None
    ensures rotated.Present? ==> r == Some(rotated.value)
  {
    match rotated
    case Missing => stored
    case Null => None
    case Present(t) => Some(t)
  }

  /**
   * The record after a successful refresh: the three token fields come from
   * the reply (the refresh token as `KeptOrRotated` picks it) and the expiry
   * is `now + expires_in`; the profile fields stay as they were.
   */
  function AfterRefresh(rec: UserRecord, now: int, accessToken: string, expiresIn: int,
                        rotated: Field<string>): (r: UserRecord)
    ensures r.accessToken == accessToken
    ensures r.expiresAt == now + expiresIn
    ensures rotated.Present? ==> r.refreshToken == Some(rotated.value)
    ensures rotated.Missing? ==> r.refreshToken == rec.refreshToken
    ensures rotated.Null? ==> r.refreshToken == None
    ensures r.displayName == rec.displayName && r.imageUrl == rec.imageUrl
  {
    rec.(accessToken := accessToken, refreshToken := KeptOrRotated(rotated, rec.refreshToken),
         expiresAt := now + expiresIn)
  }

  /**
   * `get_valid_token` as a function of the users table: the outcome and the
   * table afterwards. `refresh` is the token endpoint, applied to the stored
   * refresh token (NULL included: the source sends whatever the row holds).
   */
  function ValidToken(users: map<UserId, UserRecord>, uid: UserId, now: int,
                      refresh: Option<string> -> RefreshReply): (r: (TokenOutcome, map<UserId, UserRecord>))
    ensures r.1.Keys == users.Keys
    ensures forall u :: u in users && u != uid ==> r.1[u] == users[u]
    ensures r.0 == NotConnected <==> uid !in users
    ensures r.0.Current? <==> uid in users && !NeedsRefresh(now, users[uid].expiresAt)
    ensures r.0.Current? ==> r.0.token == users[uid].accessToken
    ensures r.0.Refreshed? || r.0 == RefreshFailed <==> uid in users && NeedsRefresh(now, users[uid].expiresAt)
    ensures r.0 == RefreshFailed <==>
      uid in users && NeedsRefresh(now, users[uid].expiresAt) && refresh(users[uid].refreshToken) == RefreshError
    ensures !r.0.Refreshed? ==> r.1 == users
    ensures r.0.Refreshed? ==>
      var reply := refresh(users[uid].refreshToken);
      && r.0.token == reply.accessToken == r.1[uid].accessToken
      && r.1[uid].expiresAt == now + reply.expiresIn
      && r.1[uid].refreshToken == KeptOrRotated(reply.refreshToken, users[uid].refreshToken)
      && r.1[uid].displayName == users[uid].displayName
      && r.1[uid].imageUrl == users[uid].imageUrl
  {
    if uid !in users then (NotConnected, users)
    else
      var rec := users[uid];
      if !NeedsRefresh(now, rec.expiresAt) then (Current(rec.accessToken), users)
      else
        match refresh(rec.refreshToken)
        case RefreshError => (RefreshFailed, users)
        case Granted(access, expiresIn, rotated) =>
          (Refreshed(access), users[uid := AfterRefresh(rec, now, access, expiresIn, rotated)])
  }

  /**
   * A refresh with the usual lifetime (more than the 60-second margin)
   * leaves a token that a call at the same instant serves as it is: no
   * second refresh follows.
   */
  lemma RefreshThenCurrent(users: map<UserId, UserRecord>, uid: UserId, now: int,
                           refresh: Option<string> -> RefreshReply)
    requires uid in users && NeedsRefresh(now, users[uid].expiresAt)
    requires refresh(users[uid].refreshToken).Granted?
    requires refresh(users[uid].refreshToken).expiresIn > RefreshMargin
    ensures var (first, users') := ValidToken(users, uid, now, refresh);
      ValidToken(users', uid, now, refresh) == (Current(first.token), users')
  {
  }

  /**
   * The expiry moves forward on a refresh whenever the granted lifetime is
   * at least the margin; a shorter lifetime can move it back.
   */
  lemma RefreshAdvancesExpiry(rec: UserRecord, now: int, access: string, expiresIn: int,
                              rotated: Field<string>)
    requires NeedsRefresh(now, rec.expiresAt) && expiresIn >= RefreshMargin
    ensures AfterRefresh(rec, now, access, expiresIn, rotated).expiresAt > rec.expiresAt
  {
  }

  /**
   * A token 30 seconds from expiry is stale; a refresh granting only 10
   * seconds leaves an expiry 20 seconds earlier than before.
   */
  lemma RefreshCanMoveExpiryBack(rec: UserRecord, now: int)
    requires rec.expiresAt == now + 30
    ensures NeedsRefresh(now, rec.expiresAt)
    ensures AfterRefresh(rec, now, rec.accessToken, 10, Missing).expiresAt == rec.expiresAt - 20
  {
  }

  /**
   * A refresh whose reply sets `refresh_token` to `null` succeeds and writes
   * NULL over the stored refresh token.
   */
  lemma NullRotationClearsRefreshToken(users: map<UserId, UserRecord>, uid: UserId, now: int,
                                       refresh: Option<string> -> RefreshReply)
    requires uid in users && NeedsRefresh(now, users[uid].expiresAt)
    requires refresh(users[uid].refreshToken).Granted? && refresh(users[uid].refreshToken).refreshToken.Null?
    ensures var (outcome, users') := ValidToken(users, uid, now, refresh);
      outcome.Refreshed? && users'[uid].refreshToken == None
  {
  }

  /** An insert-or-update keyed by `k`: the last write for a key wins. */
  function Upsert<K, V>(m: map<K, V>, k: K, v: V): (r: map<K, V>)
    ensures r.Keys == m.Keys + {k}
    ensures r[k] == v
    ensures forall k' :: k' in m && k' != k ==> r[k'] == m[k']
  {
    m[k := v]
  }

  /** Writing a key twice leaves one entry holding the second value. */
  lemma UpsertTwice<K, V>(m: map<K, V>, k: K, v1: V, v2: V)
    ensures Upsert(Upsert(m, k, v1), k, v2) == Upsert(m, k, v2)
  {
  }

  /** A member of a JSON object: absent, present with `null`, or present with a value. */
  datatype Field<T> = Missing | Null | Present(value: T)

  /** The `/me` profile fields the callback stores. */
  datatype Profile = Profile(id: UserId, displayName: Field<string>, images: seq<string>)

  /**
   * `profile.get("display_name", user_id)` as written: the user id only when
   * the member is absent; a `null` display name is stored as NULL (`None`).
   */
  function StoredNameAsWritten(p: Profile): (name: Option<string>)
    ensures name == None <==> p.displayName.Null?
    ensures p.displayName.Missing? ==> name == Some(p.id)
    ensures p.displayName.Present? ==> name == Some(p.displayName.value)
  {
    match p.displayName
    case Missing => Some(p.id)
    case Null => None
    case Present(name) => Some(name)
  }

  /**
   * A profile whose display name is `null` is stored without a name,
   * although its id is at hand and the intended name is that id.
   */
  lemma NullNameStoredAsNull(accessToken: string, refreshToken: Option<string>, expiresAt: int)
    ensures var p := Profile("listener", Null, []);
      && NewRecord(p, accessToken, refreshToken, expiresAt).displayName == None
      && StoredName(p) == "listener"
  {
  }

  /**
   * The name the callback evidently means to store: the profile's display
   * name when it has one, otherwise the user id. It agrees with the code
   * except on a `null` name.
   */
  function StoredName(p: Profile): (name: string)
    ensures p.displayName.Present? ==> name == p.displayName.value
    ensures !p.displayName.Present? ==> name == p.id
    ensures !p.displayName.Null? ==> StoredNameAsWritten(p) == Some(name)
  {
    if p.displayName.Present? then p.displayName.value else p.id
  }

  /**
   * The token endpoint's answer to the authorisation-code exchange. The
   * callback reads `refresh_token` without a default, so an answer without
   * the member fails the request; one with `null` passes and stores NULL.
   */
  datatype CodeGrant = CodeGrant(accessToken: string, refreshToken: Field<string>, expiresIn: int)

  /**
   * The record the callback writes: the display name as `get` yields it (the
   * user id when the member is absent, NULL when it is `null`), the first
   * profile image (or ""), and the granted tokens with expiry
   * `now + expires_in`.
   */
  function NewRecord(p: Profile, accessToken: string, refreshToken: Option<string>, expiresAt: int): (r: UserRecord)
    ensures p.displayName.Present? ==> r.displayName == Some(p.displayName.value)
    ensures p.displayName.Missing? ==> r.displayName == Some(p.id)
    ensures p.displayName.Null? ==> r.displayName == None
    ensures !p.displayName.Null? ==> r.displayName == Some(StoredName(p))
    ensures p.images == [] ==> r.imageUrl == ""
    ensures p.images != [] ==> r.imageUrl == p.images[0]
    ensures r.accessToken == accessToken && r.refreshToken == refreshToken && r.expiresAt == expiresAt
  {
    UserRecord(StoredNameAsWritten(p), Catalog.FirstImage(p.images), accessToken, refreshToken, expiresAt)
  }

  /** `token_data["refresh_token"]` of a grant that has the member: the token, or NULL for `null`. */
  function StoredRefreshToken(grant: CodeGrant): (t: Option<string>)
    requires !grant.refreshToken.Missing?
    ensures t == None <==> grant.refreshToken.Null?
    ensures grant.refreshToken.Present? ==> t == Some(grant.refreshToken.value)
  {
    if grant.refreshToken.Present? then Some(grant.refreshToken.value) else None
  }

  /** One row of the shared-songs log. */
  datatype SharedSong = SharedSong(
    id: nat,
    fromUser: UserId,
    toUser: UserId,
    trackId: string,
    trackName: string,
    artistName: string,
    albumImage: string,
    previewUrl: string,
    spotifyUrl: string,
    message: string,
    createdAt: int)

  /**
   * The JSON body of a share request. The first four fields are required;
   * the optional ones default to "".
   */
  datatype ShareRequest = ShareRequest(
    toUser: UserId,
    trackId: string,
    trackName: string,
    artistName: string,
    albumImage: Option<string>,
    previewUrl: Option<string>,
    spotifyUrl: Option<string>,
    message: Option<string>)

  /** One row of the shared-songs read: the share, its sender's name and the caller's own reaction. */
  datatype FeedItem = FeedItem(song: SharedSong, fromName: Option<string>, myReaction: Option<string>)

  type ReactionKey = (int, UserId)

  function CreatedAt(s: SharedSong): int
  {
    s.createdAt
  }

  /** The WHERE and JOIN of the shared-songs read: `uid` sends or receives, and the sender has a record. */
  predicate Involves(s: SharedSong, users: map<UserId, UserRecord>, uid: UserId)
  {
    (s.toUser == uid || s.fromUser == uid) && s.fromUser in users
  }

  /** The shares of `log` that the shared-songs read returns to `uid`, in log order. */
  function Involving(log: seq<SharedSong>, users: map<UserId, UserRecord>, uid: UserId): (r: seq<SharedSong>)
    ensures forall s :: s in r <==> s in log && Involves(s, users, uid)
    ensures forall s :: multiset(r)[s] == if Involves(s, users, uid) then multiset(log)[s] else 0
    ensures |r| <= |log|
  {
    if log == [] then []
    else
      var init, last := log[..|log| - 1], log[|log| - 1];
      assert log == init + [last];
      Involving(init, users, uid) + (if Involves(last, users, uid) then [last] else [])
  }

  /** The caller's own reaction to share `id`, if any (the correlated sub-select). */
  function MyReaction(reactions: map<ReactionKey, string>, id: int, uid: UserId): (r: Option<string>)
    ensures r.Some? <==> (id, uid) in reactions
    ensures r.Some? ==> r.value == reactions[(id, uid)]
  {
    if (id, uid) in reactions then Some(reactions[(id, uid)]) else None
  }

  /** The shares the shared-songs read returns to `uid`, newest first (a stable sort of the log order). */
  function FeedOrder(log: seq<SharedSong>, users: map<UserId, UserRecord>, uid: UserId): (songs: seq<SharedSong>)
    ensures multiset(songs) == multiset(Involving(log, users, uid))
    ensures forall i, j :: 0 <= i < j < |songs| ==> songs[i].createdAt >= songs[j].createdAt
  {
    Ranking.SortDesc(Involving(log, users, uid), CreatedAt)
  }

  /** One feed row per share: the share, its sender's display name and `uid`'s own reaction. */
  function FeedItems(songs: seq<SharedSong>, users: map<UserId, UserRecord>,
                     reactions: map<ReactionKey, string>, uid: UserId): (feed: seq<FeedItem>)
    requires forall i :: 0 <= i < |songs| ==> songs[i].fromUser in users
    ensures |feed| == |songs|
    ensures forall i :: 0 <= i < |feed| ==> feed[i].song == songs[i]
    ensures forall i :: 0 <= i < |feed| ==> feed[i].fromName == users[songs[i].fromUser].displayName
    ensures forall i :: 0 <= i < |feed| ==> feed[i].myReaction == MyReaction(reactions, songs[i].id, uid)
  {
    seq(|songs|, i requires 0 <= i < |songs| =>
      FeedItem(songs[i], users[songs[i].fromUser].displayName, MyReaction(reactions, songs[i].id, uid)))
  }

  /** The share column of a feed. */
  function Songs(feed: seq<FeedItem>): (songs: seq<SharedSong>)
    ensures |songs| == |feed|
    ensures forall i :: 0 <= i < |feed| ==> songs[i] == feed[i].song
  {
    seq(|feed|, i requires 0 <= i < |feed| => feed[i].song)
  }

  /** The songs of the feed are exactly the shares of the log that involve `uid`. */
  lemma FeedOrderMembers(log: seq<SharedSong>, users: map<UserId, UserRecord>, uid: UserId)
    ensures forall s :: s in FeedOrder(log, users, uid) <==> s in log && Involves(s, users, uid)
  {
    SameElements(FeedOrder(log, users, uid), Involving(log, users, uid));
  }

  /**
   * The shared-songs read for `uid`: every share `uid` sent or received
   * whose sender has a record, newest first, each with the sender's display
   * name and `uid`'s own reaction. Each such share fills as many rows as it
   * has entries in the log, and no more.
   */
  function Feed(log: seq<SharedSong>, users: map<UserId, UserRecord>,
                reactions: map<ReactionKey, string>, uid: UserId): (feed: seq<FeedItem>)
    ensures forall i :: 0 <= i < |feed| ==>
      && feed[i].song in log && Involves(feed[i].song, users, uid)
      && feed[i].fromName == users[feed[i].song.fromUser].displayName
      && feed[i].myReaction == MyReaction(reactions, feed[i].song.id, uid)
    ensures multiset(Songs(feed)) == multiset(Involving(log, users, uid))
  {
    var songs := FeedOrder(log, users, uid);
    FeedOrderMembers(log, users, uid);
    assert forall i :: 0 <= i < |songs| ==> songs[i] in songs;
    FeedItemsSongs(songs, users, reactions, uid);
    FeedItems(songs, users, reactions, uid)
  }

  /** The share column of `FeedItems` is the list it was given. */
  lemma FeedItemsSongs(songs: seq<SharedSong>, users: map<UserId, UserRecord>,
                       reactions: map<ReactionKey, string>, uid: UserId)
    requires forall i :: 0 <= i < |songs| ==> songs[i].fromUser in users
    ensures Songs(FeedItems(songs, users, reactions, uid)) == songs
  {
    var ss := Songs(FeedItems(songs, users, reactions, uid));
    assert forall i :: 0 <= i < |songs| ==> ss[i] == songs[i];
  }

  /** The feed runs from the newest share to the oldest. */
  lemma FeedNewestFirst(log: seq<SharedSong>, users: map<UserId, UserRecord>,
                        reactions: map<ReactionKey, string>, uid: UserId)
    ensures var feed := Feed(log, users, reactions, uid);
      forall i, j :: 0 <= i < j < |feed| ==> feed[i].song.createdAt >= feed[j].song.createdAt
  {
    var songs := FeedOrder(log, users, uid);
    assert Ranking.SortedDesc(songs, CreatedAt);
  }

  /** Every share of the log that involves `uid` appears in the feed. */
  lemma FeedComplete(log: seq<SharedSong>, users: map<UserId, UserRecord>,
                     reactions: map<ReactionKey, string>, uid: UserId, s: SharedSong)
    requires s in log && Involves(s, users, uid)
    ensures exists i :: 0 <= i < |Feed(log, users, reactions, uid)| && Feed(log, users, reactions, uid)[i].song == s
  {
    FeedOrderMembers(log, users, uid);
    var songs := FeedOrder(log, users, uid);
    var i := IndexOf(songs, s);
    assert Feed(log, users, reactions, uid)[i].song == s;
  }

  /** `FeedComplete` for every share at once. */
  lemma FeedCompleteAll(log: seq<SharedSong>, users: map<UserId, UserRecord>,
                        reactions: map<ReactionKey, string>, uid: UserId)
    ensures var feed := Feed(log, users, reactions, uid);
      forall s :: s in log && Involves(s, users, uid) ==> exists i :: 0 <= i < |feed| && feed[i].song == s
  {
    forall s | s in log && Involves(s, users, uid)
      ensures exists i :: 0 <= i < |Feed(log, users, reactions, uid)| && Feed(log, users, reactions, uid)[i].song == s
    {
      FeedComplete(log, users, reactions, uid, s);
    }
  }

  /**
   * A share from a user with a record shows up in both the sender's and the
   * recipient's feed, carrying the reader's own reaction.
   */
  lemma ShareThenFeed(log: seq<SharedSong>, users: map<UserId, UserRecord>,
                      reactions: map<ReactionKey, string>, song: SharedSong, uid: UserId)
    requires song.fromUser in users && (uid == song.fromUser || uid == song.toUser)
    ensures var feed := Feed(log + [song], users, reactions, uid);
      exists i :: 0 <= i < |feed| && feed[i].song == song
        && feed[i].myReaction == MyReaction(reactions, song.id, uid)
        && feed[i].fromName == users[song.fromUser].displayName
  {
    FeedComplete(log + [song], users, reactions, uid, song);
  }

  lemma SameElements<T>(a: seq<T>, b: seq<T>)
    requires multiset(a) == multiset(b)
    ensures forall x :: x in a <==> x in b
  {
    forall x ensures x in a <==> x in b {
      assert x in a <==> x in multiset(a);
      assert x in b <==> x in multiset(b);
    }
  }

  function IndexOf<T(==)>(s: seq<T>, x: T): (i: nat)
    requires x in s
    ensures i < |s| && s[i] == x
  {
    if s[0] == x then 0 else 1 + IndexOf(s[1..], x)
  }

  /** What `GET /api/users` lists: every user but the caller, with name and image. */
  function Others(users: map<UserId, UserRecord>, uid: UserId): (r: map<UserId, (Option<string>, string)>)
    ensures r.Keys == users.Keys - {uid}
    ensures forall u :: u in r ==> r[u] == (users[u].displayName, users[u].imageUrl)
  {
    map u | u in users && u != uid :: (users[u].displayName, users[u].imageUrl)
  }

  /**
   * The database: the users table keyed by user id, the shared-songs log in
   * insertion order with its AUTOINCREMENT counter, and the reactions table
   * keyed by (shared song id, reacting user).
   */
  class Database {
    var users: map<UserId, UserRecord>
    var shared: seq<SharedSong>
    var nextId: nat
    var reactions: map<ReactionKey, string>

    /** Share ids are handed out in increasing order and never reused. */
    ghost predicate Valid()
      reads this
    {
      && (forall i, j :: 0 <= i < j < |shared| ==> shared[i].id < shared[j].id)
      && (forall i :: 0 <= i < |shared| ==> shared[i].id < nextId)
    }

    constructor ()
      ensures Valid()
      ensures users == map[] && shared == [] && reactions == map[]
    {
      users, shared, nextId, reactions := map[], [], 1, map[];
    }

    /**
     * `get_valid_token`: reads `uid`'s record; when it is within the margin
     * of expiry, asks the token endpoint for a refresh with the stored
     * refresh token and writes back the three token fields.
     */
    method GetValidToken(uid: UserId, now: int, refresh: Option<string> -> RefreshReply)
      returns (outcome: TokenOutcome)
      requires Valid()
      modifies this
      ensures Valid()
      ensures (outcome, users) == ValidToken(old(users), uid, now, refresh)
      ensures shared == old(shared) && nextId == old(nextId) && reactions == old(reactions)
    {
      if uid !in users {
        return NotConnected;
      }
      var row := users[uid];
      if now > row.expiresAt - RefreshMargin {
        var reply := refresh(row.refreshToken);
        if reply.RefreshError? {
          return RefreshFailed;
        }
        var newAccess := reply.accessToken;
        var newExpires := now + reply.expiresIn;
        var newRefresh := row.refreshToken;
        match reply.refreshToken {
          case Present(t) => newRefresh := Some(t);
          case Null => newRefresh := None;
          case Missing =>
        }
        users := users[uid := row.(accessToken := newAccess, refreshToken := newRefresh,
                                   expiresAt := newExpires)];
        return Refreshed(newAccess);
      }
      return Current(row.accessToken);
    }

    /**
     * The callback's upsert: after a successful code exchange and profile
     * fetch, `profile.id`'s record is replaced whole by the new one. A grant
     * without a `refresh_token` member fails before anything is written; a
     * `null` one is stored as NULL.
     */
    method Authorize(grant: CodeGrant, profile: Profile, now: int) returns (signedIn: Option<UserId>)
      requires Valid()
      modifies this
      ensures Valid()
      ensures grant.refreshToken.Missing? ==> signedIn == None && users == old(users)
      ensures !grant.refreshToken.Missing? ==>
        && signedIn == Some(profile.id)
        && users == Upsert(old(users), profile.id,
                           NewRecord(profile, grant.accessToken, StoredRefreshToken(grant), now + grant.expiresIn))
      ensures shared == old(shared) && nextId == old(nextId) && reactions == old(reactions)
    {
      if grant.refreshToken.Missing? {
        return None;
      }
      var rec := NewRecord(profile, grant.accessToken, StoredRefreshToken(grant), now + grant.expiresIn);
      users := users[profile.id := rec];
      return Some(profile.id);
    }

    /** `share_song`: appends one share from `uid`, stamped `now`, with the next id. */
    method Share(uid: UserId, body: ShareRequest, now: int) returns (song: SharedSong)
      requires Valid()
      modifies this
      ensures Valid()
      ensures song.id == old(nextId) && nextId == old(nextId) + 1
      ensures song.fromUser == uid && song.toUser == body.toUser && song.createdAt == now
      ensures song.trackId == body.trackId && song.trackName == body.trackName
      ensures song.artistName == body.artistName
      ensures song.albumImage == body.albumImage.GetOr("") && song.previewUrl == body.previewUrl.GetOr("")
      ensures song.spotifyUrl == body.spotifyUrl.GetOr("") && song.message == body.message.GetOr("")
      ensures shared == old(shared) + [song]
      ensures users == old(users) && reactions == old(reactions)
    {
      song := SharedSong(nextId, uid, body.toUser, body.trackId, body.trackName, body.artistName,
                         body.albumImage.GetOr(""), body.previewUrl.GetOr(""),
                         body.spotifyUrl.GetOr(""), body.message.GetOr(""), now);
      shared := shared + [song];
      nextId := nextId + 1;
    }

    /** `react_to_song`: `uid`'s reaction to share `songId`, inserted or overwritten. */
    method React(uid: UserId, songId: int, reaction: string)
      requires Valid()
      modifies this
      ensures Valid()
      ensures reactions == Upsert(old(reactions), (songId, uid), reaction)
      ensures users == old(users) && shared == old(shared) && nextId == old(nextId)
    {
      reactions := reactions[(songId, uid) := reaction];
    }

    /**
     * `get_shared`: the shared-songs read for `uid` over the current tables.
     * Every share `uid` sent or received whose sender has a record, and no
     * other, newest first, each with the sender's name and `uid`'s own
     * reaction.
     */
    function SharedWith(uid: UserId): (feed: seq<FeedItem>)
      reads this
      ensures forall i :: 0 <= i < |feed| ==>
        && feed[i].song in shared && Involves(feed[i].song, users, uid)
        && feed[i].fromName == users[feed[i].song.fromUser].displayName
        && feed[i].myReaction == MyReaction(reactions, feed[i].song.id, uid)
      ensures forall s :: s in shared && Involves(s, users, uid) ==>
        exists i :: 0 <= i < |feed| && feed[i].song == s
      ensures forall i, j :: 0 <= i < j < |feed| ==> feed[i].song.createdAt >= feed[j].song.createdAt
      ensures multiset(Songs(feed)) == multiset(Involving(shared, users, uid))
    {
      FeedNewestFirst(shared, users, reactions, uid);
      FeedCompleteAll(shared, users, reactions, uid);
      Feed(shared, users, reactions, uid)
    }
  }
}
