/** The repository list of the profile card (`addReposToCard`). */
module RepoList {
  import opened Basics
  import opened Api
  import opened Format

  const MaxListed := 8

  /** One `<a class="repo">` element: its link, its name, star and fork
      counts, language label and relative push time. */
  datatype RepoLink = RepoLink(
    href: string,
    name: string,
    stars: int,
    forks: int,
    language: Option<string>,
    pushed: Option<Ago>)

  /** The contents of the `#repos` element: the "No public repositories."
      placeholder, or the links. */
  datatype Panel = Placeholder | Links(links: seq<RepoLink>)

  /** `n || 0` for a count that may be missing. */
  function OrZero(n: Option<int>): int
  {
    match n
    case Some(v) => v
    case None => 0
  }

  /** The link for one repository, `now` being `Date.now()`. */
  function LinkFor(r: Repo, now: int): (l: RepoLink)
    ensures l.href == r.htmlUrl && l.name == r.name
    // `stargazers_count || 0`, `forks_count || 0`
    ensures l.stars == (if r.stars.Some? then r.stars.value else 0)
    ensures l.forks == (if r.forks.Some? then r.forks.value else 0)
    // the language label only for a truthy language
    ensures l.language.Some? <==> r.language.Some? && r.language.value != ""
    ensures l.language.Some? ==> l.language == r.language
    // the push-time label only when there is a push time, measured back from `now`
    ensures l.pushed.Some? <==> r.pushedAt.Some?
    ensures l.pushed.Some? ==> l.pushed.value == RelativeTime(now - r.pushedAt.value)
  {
    RepoLink(
      r.htmlUrl,
      r.name,
      OrZero(r.stars),
      OrZero(r.forks),
      if r.language.Some? && r.language.value != "" then r.language else None,
      if r.pushedAt.Some? then Some(RelativeTime(now - r.pushedAt.value)) else None)
  }

  /** What the list shows: the first eight repositories in API order, or the
      placeholder when there are none. */
  function Listed(repos: seq<Repo>, now: int): (p: Panel)
    ensures p == Placeholder <==> repos == []
    ensures p.Links? ==> |p.links| == Min(MaxListed, |repos|)
    ensures p.Links? ==> forall i :: 0 <= i < |p.links| ==> p.links[i] == LinkFor(repos[i], now)
  {
    var top := repos[..Min(MaxListed, |repos|)];
    if top == [] then Placeholder
    else Links(seq(|top|, i requires 0 <= i < |top| => LinkFor(top[i], now)))
  }

  /** `repos.slice(0, 8)`, then one link appended to the container per repository. */
  method AddReposToCard(repos: seq<Repo>, now: int) returns (p: Panel)
    ensures p == Listed(repos, now)
  {
    var top := repos[..Min(MaxListed, |repos|)];
    if |top| == 0 {
      return Placeholder;
    }
    var links: seq<RepoLink> := [];
    for i := 0 to |top|
      invariant |links| == i
      invariant forall k :: 0 <= k < i ==> links[k] == LinkFor(top[k], now)
    {
      links := links + [LinkFor(top[i], now)];
    }
    p := Links(links);
  }
}
