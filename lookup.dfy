/**
 * One profile lookup (`getUser` followed by `getRepos`) as a function of the
 * response cache and of the replies the API would give. The cache is one map
 * for both endpoints, told apart by the `user:` and `repos:` key prefixes;
 * the API is asked only on a miss, and only a successful reply is stored.
 */
module Lookup {
  import opened Basics
  import opened Api
  import opened Errors
  import opened Languages
  import opened RepoList

  /** `user:${username}`: the prefix, then the name as given. */
  function UserKey(username: string): (k: string)
  {
    "user:" + username
  }

  /** `repos:${username}` */
  function ReposKey(username: string): (k: string)
  {
    "repos:" + username
  }

  /** A profile key and a repository key are never the same string. */
  lemma KeysNeverCollide(a: string, b: string)
    ensures UserKey(a) != ReposKey(b)
  {
    assert UserKey(a)[0] == 'u' && ReposKey(b)[0] == 'r';
  }

  /** A key names one username only. */
  lemma KeysDetermineUsername(a: string, b: string)
    ensures UserKey(a) == UserKey(b) ==> a == b
    ensures ReposKey(a) == ReposKey(b) ==> a == b
  {
    assert UserKey(a)[5..] == a && UserKey(b)[5..] == b;
    assert ReposKey(a)[6..] == a && ReposKey(b)[6..] == b;
  }

  /** A cached response body. */
  datatype Payload = Profile(user: User) | Repositories(repos: seq<Repo>)

  /** What each kind of key holds. */
  ghost predicate WellFormed(cache: map<string, Payload>)
  {
    (forall name :: UserKey(name) in cache ==> cache[UserKey(name)].Profile?) &&
    (forall name :: ReposKey(name) in cache ==> cache[ReposKey(name)].Repositories?)
  }

  /** Where the repositories go on the profile card. */
  datatype RepoArea = NotLoaded | Spinner | Loaded(panel: Panel)

  /** The contents of the `#main` region. */
  datatype Display =
    | Blank
    | Info(message: string)
    | ErrorCard(notice: Notice)
    | ProfileCard(user: User, chips: seq<LangCount>, repos: RepoArea)

  /** The result of a lookup: the new cache, what is displayed, and the keys
      whose requests went to the API, in order. */
  datatype Outcome = Outcome(cache: map<string, Payload>, display: Display, sent: seq<string>)

  datatype Consulted = Consulted(reply: Reply<Payload>, cache: map<string, Payload>, sent: seq<string>)

  /** `cache.has(key) ? cache.get(key) : await fetch` with `cache.set` after a
      successful fetch. */
  function Consult(cache: map<string, Payload>, key: string, reply: Reply<Payload>): (c: Consulted)
    ensures c.sent == if key in cache then [] else [key]
    ensures key in cache ==> c.reply == Ok(cache[key]) && c.cache == cache
    ensures key !in cache ==> c.reply == reply
    ensures c.cache == if key !in cache && reply.Ok? then cache[key := reply.data] else cache
  {
    if key in cache then Consulted(Ok(cache[key]), cache, [])
    else match reply
      case Ok(data) => Consulted(reply, cache[key := data], [key])
      case Failed(_) => Consulted(reply, cache, [key])
  }

  function AsProfile(reply: Reply<User>): (r: Reply<Payload>)
    ensures r.Ok? ==> r.data.Profile?
  {
    match reply
    case Ok(u) => Ok(Profile(u))
    case Failed(e) => Failed(e)
  }

  function AsRepositories(reply: Reply<seq<Repo>>): (r: Reply<Payload>)
    ensures r.Ok? ==> r.data.Repositories?
  {
    match reply
    case Ok(rs) => Ok(Repositories(rs))
    case Failed(e) => Failed(e)
  }

  lemma StoringProfileKeepsWellFormed(cache: map<string, Payload>, username: string, reply: Reply<User>)
    requires WellFormed(cache)
    ensures WellFormed(Consult(cache, UserKey(username), AsProfile(reply)).cache)
  {
    forall name ensures ReposKey(name) != UserKey(username) {
      KeysNeverCollide(username, name);
    }
  }

  lemma StoringReposKeepsWellFormed(cache: map<string, Payload>, username: string, reply: Reply<seq<Repo>>)
    requires WellFormed(cache)
    ensures WellFormed(Consult(cache, ReposKey(username), AsRepositories(reply)).cache)
  {
    forall name ensures UserKey(name) != ReposKey(username) {
      KeysNeverCollide(name, username);
    }
  }

  /** `getRepos` once the profile card for `user` is shown: on success the
      card gets the language chips and the repository list; any failure
      replaces the display with the one repository error card. */
  function ReposPhase(cache: map<string, Payload>, username: string, user: User,
                      reply: Reply<seq<Repo>>, now: int): (o: Outcome)
    requires WellFormed(cache)
    ensures WellFormed(o.cache)
  {
    StoringReposKeepsWellFormed(cache, username, reply);
    var c := Consult(cache, ReposKey(username), AsRepositories(reply));
    match c.reply
    case Failed(_) => Outcome(c.cache, ErrorCard(ReposFailed), c.sent)
    case Ok(payload) =>
      var repos := payload.repos;
      Outcome(c.cache, ProfileCard(user, TopLanguages(repos), Loaded(Listed(repos, now))), c.sent)
  }

  /** `getUser(username)`: the profile phase, then, only if a profile was
      obtained, the repository phase. `now` is `Date.now()`. */
  function LookUpUser(cache: map<string, Payload>, username: string, profileReply: Reply<User>,
                      reposReply: Reply<seq<Repo>>, now: int): (o: Outcome)
    requires WellFormed(cache)
    ensures WellFormed(o.cache)
  {
    StoringProfileKeepsWellFormed(cache, username, profileReply);
    var c := Consult(cache, UserKey(username), AsProfile(profileReply));
    match c.reply
    case Failed(e) => Outcome(c.cache, ErrorCard(ProfileNotice(e)), c.sent)
    case Ok(payload) =>
      var r := ReposPhase(c.cache, username, payload.user, reposReply, now);
      Outcome(r.cache, r.display, c.sent + r.sent)
  }

  /** The cache and the requests of a lookup, step by step: the profile step,
      then the repository step only when a profile was obtained. */
  lemma LookUpUserSteps(cache: map<string, Payload>, username: string, profileReply: Reply<User>,
                        reposReply: Reply<seq<Repo>>, now: int)
    requires WellFormed(cache)
    ensures var o := LookUpUser(cache, username, profileReply, reposReply, now);
      var c := Consult(cache, UserKey(username), AsProfile(profileReply));
      var d := Consult(c.cache, ReposKey(username), AsRepositories(reposReply));
      if c.reply.Ok? then o.cache == d.cache && o.sent == c.sent + d.sent
      else o.cache == c.cache && o.sent == c.sent
  {
  }

  /** A failed profile request ends the lookup: the classified error is shown,
      the cache is unchanged and the repository request is never sent. */
  lemma ProfileFailureIsTerminal(cache: map<string, Payload>, username: string, profileReply: Reply<User>,
                                 reposReply: Reply<seq<Repo>>, now: int)
    requires WellFormed(cache)
    requires UserKey(username) !in cache && profileReply.Failed?
    ensures LookUpUser(cache, username, profileReply, reposReply, now)
         == Outcome(cache, ErrorCard(ProfileNotice(profileReply.error)), [UserKey(username)])
  {
  }

  /** Requests go out only for absent keys, profile first, and the repository
      request only once a profile is in the cache. */
  lemma RequestsOnlyOnMiss(cache: map<string, Payload>, username: string, profileReply: Reply<User>,
                           reposReply: Reply<seq<Repo>>, now: int)
    requires WellFormed(cache)
    ensures var o := LookUpUser(cache, username, profileReply, reposReply, now);
      (forall k :: k in o.sent ==> k !in cache) &&
      (o.sent <= [UserKey(username), ReposKey(username)] || o.sent == [ReposKey(username)])
    ensures var o := LookUpUser(cache, username, profileReply, reposReply, now);
      ReposKey(username) in o.sent ==> UserKey(username) in o.cache
  {
    KeysNeverCollide(username, username);
    LookUpUserSteps(cache, username, profileReply, reposReply, now);
  }

  /** The cache only grows: every entry already present keeps its value, and
      each new entry is the body of a successful reply to a request this
      lookup sent. */
  lemma CacheOnlyStoresFetchedReplies(cache: map<string, Payload>, username: string, profileReply: Reply<User>,
                                      reposReply: Reply<seq<Repo>>, now: int)
    requires WellFormed(cache)
    ensures var o := LookUpUser(cache, username, profileReply, reposReply, now);
      forall k :: k in cache ==> k in o.cache && o.cache[k] == cache[k]
    ensures var o := LookUpUser(cache, username, profileReply, reposReply, now);
      forall k :: k in o.cache && k !in cache ==>
        k in o.sent &&
        ((k == UserKey(username) && profileReply == Ok(o.cache[k].user)) ||
         (k == ReposKey(username) && reposReply == Ok(o.cache[k].repos)))
  {
    KeysNeverCollide(username, username);
    LookUpUserSteps(cache, username, profileReply, reposReply, now);
  }

  /** After a lookup that showed a profile card, looking the same name up
      again sends no request, whatever the API would now reply, and shows the
      same card. */
  lemma RepeatLookupSendsNothing(cache: map<string, Payload>, username: string,
                                 profileReply: Reply<User>, reposReply: Reply<seq<Repo>>,
                                 profileReply': Reply<User>, reposReply': Reply<seq<Repo>>, now: int)
    requires WellFormed(cache)
    requires LookUpUser(cache, username, profileReply, reposReply, now).display.ProfileCard?
    ensures var o := LookUpUser(cache, username, profileReply, reposReply, now);
      var o' := LookUpUser(o.cache, username, profileReply', reposReply', now);
      o'.sent == [] && o'.cache == o.cache && o'.display == o.display
  {
    var o := LookUpUser(cache, username, profileReply, reposReply, now);
    ProfileCardShowsCache(cache, username, profileReply, reposReply, now);
    FullyCachedLookup(o.cache, username, profileReply', reposReply', now);
  }

  /** A profile card shows the cached profile and the chips and list of the
      cached repositories. */
  lemma ProfileCardShowsCache(cache: map<string, Payload>, username: string, profileReply: Reply<User>,
                              reposReply: Reply<seq<Repo>>, now: int)
    requires WellFormed(cache)
    requires LookUpUser(cache, username, profileReply, reposReply, now).display.ProfileCard?
    ensures var o := LookUpUser(cache, username, profileReply, reposReply, now);
      UserKey(username) in o.cache && ReposKey(username) in o.cache &&
      o.display == ProfileCard(o.cache[UserKey(username)].user, TopLanguages(o.cache[ReposKey(username)].repos),
                               Loaded(Listed(o.cache[ReposKey(username)].repos, now)))
  {
    KeysNeverCollide(username, username);
  }

  /** With both keys cached, a lookup sends nothing, leaves the cache alone
      and shows the card built from the cached entries, whatever the API
      would reply. */
  lemma FullyCachedLookup(cache: map<string, Payload>, username: string, profileReply: Reply<User>,
                          reposReply: Reply<seq<Repo>>, now: int)
    requires WellFormed(cache)
    requires UserKey(username) in cache && ReposKey(username) in cache
    ensures LookUpUser(cache, username, profileReply, reposReply, now)
         == Outcome(cache, ProfileCard(cache[UserKey(username)].user, TopLanguages(cache[ReposKey(username)].repos),
                                       Loaded(Listed(cache[ReposKey(username)].repos, now))), [])
  {
  }

  /** A failed repository request, whatever its status, shows the one
      repository error message; the profile it followed stays cached. */
  lemma RepositoryFailureMessage(cache: map<string, Payload>, username: string, profileReply: Reply<User>,
                                 reposReply: Reply<seq<Repo>>, now: int)
    requires WellFormed(cache)
    requires UserKey(username) in cache || profileReply.Ok?
    requires ReposKey(username) !in cache && reposReply.Failed?
    ensures var o := LookUpUser(cache, username, profileReply, reposReply, now);
      o.display == ErrorCard(ReposFailed) && UserKey(username) in o.cache && ReposKey(username) !in o.cache
  {
    KeysNeverCollide(username, username);
  }
}
