/**
 * The page's mutable state, held at module level by the script: the response
 * cache, the `#main` display region, the search field and the debounce timer.
 * Each handler and each lookup is a method proved against the functions of
 * the Lookup and Triggers modules.
 */
module App {
  import opened Basics
  import opened Api
  import opened Errors
  import opened Languages
  import opened RepoList
  import opened Lookup
  import opened Triggers

  class Page {
    var cache: map<string, Payload>
    var display: Display
    var searchValue: string
    var pending: Option<string>  // the user name the running debounce timer will look up
    ghost var sent: seq<string>  // every request sent to the API so far, by cache key

    ghost predicate Valid()
      reads this
    {
      WellFormed(cache)
    }

    constructor ()
      ensures Valid()
      ensures cache == map[] && display == Blank && searchValue == "" && pending == None && sent == []
    {
      cache := map[];
      display := Blank;
      searchValue := "";
      pending := None;
      sent := [];
    }

    /** `getRepos(username)`, called right after the card for `user` was rendered. */
    method GetRepos(username: string, user: User, reply: Reply<seq<Repo>>, now: int)
      requires Valid() && display == ProfileCard(user, [], NotLoaded)
      modifies this
      ensures Valid()
      ensures var o := ReposPhase(old(cache), username, user, reply, now);
        cache == o.cache && display == o.display && sent == old(sent) + o.sent
      ensures searchValue == old(searchValue) && pending == old(pending)
    {
      ghost var o := ReposPhase(cache, username, user, reply, now);
      display := display.(repos := Spinner);
      var key := ReposKey(username);
      var repos: seq<Repo>;
      if key in cache {
        repos := cache[key].repos;
        assert o.cache == cache && o.sent == [];
      } else {
        sent := sent + [key];
        match reply {
          case Failed(_) =>
            display := ErrorCard(ReposFailed);
            return;
          case Ok(data) =>
            StoringReposKeepsWellFormed(cache, username, reply);
            repos := data;
            cache := cache[key := Repositories(data)];
        }
        assert o.cache == cache && o.sent == [key];
      }
      assert o.display == ProfileCard(user, TopLanguages(repos), Loaded(Listed(repos, now)));
      var chips := RenderTopLanguages(repos);
      var panel := AddReposToCard(repos, now);
      display := ProfileCard(user, chips, Loaded(panel));
    }

    /** `getUser(username)`. */
    method GetUser(username: string, profileReply: Reply<User>, reposReply: Reply<seq<Repo>>, now: int)
      requires Valid()
      modifies this
      ensures Valid()
      ensures var o := LookUpUser(old(cache), username, profileReply, reposReply, now);
        cache == o.cache && display == o.display && sent == old(sent) + o.sent
      ensures searchValue == old(searchValue) && pending == old(pending)
    {
      ghost var o := LookUpUser(cache, username, profileReply, reposReply, now);
      display := Info("Loading profile for " + username + "...");
      var key := UserKey(username);
      ghost var c := Consult(cache, key, AsProfile(profileReply));
      StoringProfileKeepsWellFormed(cache, username, profileReply);
      var user: User;
      if key in cache {
        user := cache[key].user;
      } else {
        sent := sent + [key];
        match profileReply {
          case Failed(e) =>
            display := ErrorCard(ProfileNotice(e));
            assert o == Outcome(cache, display, [key]);
            return;
          case Ok(data) =>
            user := data;
            cache := cache[key := Profile(data)];
        }
      }
      assert cache == c.cache && c.reply == Ok(Profile(user)) && sent == old(sent) + c.sent;
      ghost var r := ReposPhase(cache, username, user, reposReply, now);
      assert o == Outcome(r.cache, r.display, c.sent + r.sent);
      display := ProfileCard(user, [], NotLoaded);
      GetRepos(username, user, reposReply, now);
    }

    /** The search field's `input` handler: cancel the timer, then clear the
        display for blank text or start a timer for the trimmed text. */
    method OnInput(text: string)
      requires Valid()
      modifies this
      ensures Valid()
      ensures var s := Next(Trigger(old(searchValue), old(pending)), Input(text));
        Trigger(searchValue, pending) == s.next &&
        display == (if s.effect == ClearDisplay then Blank else old(display))
      ensures cache == old(cache) && sent == old(sent)
    {
      var user := Trim(text);
      ghost var s := Next(Trigger(searchValue, pending), Input(text));
      assert s.next == Trigger(text, if user == "" then None else Some(user));
      assert s.effect == ClearDisplay <==> user == "";
      searchValue := text;
      pending := None;
      if user == "" {
        display := Blank;
        return;
      }
      pending := Some(user);
    }

    /** The debounce timer goes off and looks up the name it was started with. */
    method OnTimer(profileReply: Reply<User>, reposReply: Reply<seq<Repo>>, now: int)
      requires Valid()
      modifies this
      ensures Valid()
      ensures var s := Next(Trigger(old(searchValue), old(pending)), Fire);
        Trigger(searchValue, pending) == s.next &&
        if s.effect.LookUp? then
          var o := LookUpUser(old(cache), s.effect.username, profileReply, reposReply, now);
          cache == o.cache && display == o.display && sent == old(sent) + o.sent
        else
          cache == old(cache) && display == old(display) && sent == old(sent)
    {
      match pending {
        case None =>
        case Some(user) =>
          pending := None;
          GetUser(user, profileReply, reposReply, now);
      }
    }

    /** The form's `submit` handler: look up the field's value as it is, unless
        it is empty, then empty the field. The timer is left running. */
    method OnSubmit(profileReply: Reply<User>, reposReply: Reply<seq<Repo>>, now: int)
      requires Valid()
      modifies this
      ensures Valid()
      ensures var s := Next(Trigger(old(searchValue), old(pending)), Submit);
        Trigger(searchValue, pending) == s.next &&
        if s.effect.LookUp? then
          var o := LookUpUser(old(cache), s.effect.username, profileReply, reposReply, now);
          cache == o.cache && display == o.display && sent == old(sent) + o.sent
        else
          cache == old(cache) && display == old(display) && sent == old(sent)
    {
      var user := searchValue;
      if user != "" {
        GetUser(user, profileReply, reposReply, now);
        searchValue := "";
      }
    }
  }
}
