/**
 * The error messages of a lookup. A failed profile request is classified by
 * its HTTP status and rate-limit header; a failed repository request always
 * gives the same message.
 */
module Errors {
  import opened Basics
  import opened Api

  datatype Notice =
    | NoProfile                      // 404 on the profile request
    | RateLimitedUntil(reset: string) // 403 with a non-empty reset header
    | RateLimited                    // 403 without one
    | ProfileFailed                  // any other profile failure
    | ReposFailed                    // any failure of the repository request

  /** The header is used only when present and non-empty (a JavaScript truthy string). */
  predicate HasReset(e: FetchError)
  {
    e.HttpStatus? && e.resetHeader.Some? && e.resetHeader.value != ""
  }

  /** Classification of a failed profile request. */
  function ProfileNotice(e: FetchError): (n: Notice)
    ensures n == NoProfile <==> e.HttpStatus? && e.status == 404
    ensures n.RateLimitedUntil? <==> e.HttpStatus? && e.status == 403 && HasReset(e)
    ensures n.RateLimitedUntil? ==> n.reset == e.resetHeader.value
    ensures n == RateLimited <==> e.HttpStatus? && e.status == 403 && !HasReset(e)
    ensures n == ProfileFailed <==> e.NoResponse? || (e.status != 404 && e.status != 403)
    ensures n != ReposFailed
  {
    match e
    case NoResponse => ProfileFailed
    case HttpStatus(status, reset) =>
      if status == 404 then NoProfile
      else if status == 403 then
        if reset.Some? && reset.value != "" then RateLimitedUntil(reset.value) else RateLimited
      else ProfileFailed
  }

  /** The text of the error card. `localTime` renders the reset header (Unix
      seconds) as a local time of day; locale formatting is not modelled. */
  function Text(n: Notice, localTime: string -> string): (t: string)
    // both rate-limit messages, and no other, open with the same sentence
    ensures n.RateLimitedUntil? || n == RateLimited <==> |t| >= 27 && t[..27] == "GitHub rate limit reached. "
  {
    // The two texts long enough to share the opening sentence are told apart
    // from it by their first character; the asserts below supply that to the
    // ensures above and are not part of the computation.
    match n
    case NoProfile => assert "No profile with this username"[0] == 'N'; "No profile with this username"
    case RateLimitedUntil(reset) => "GitHub rate limit reached. Try again at " + localTime(reset) + "."
    case RateLimited => "GitHub rate limit reached. Please try again later."
    case ProfileFailed => assert "Something went wrong fetching the user"[0] == 'S'; "Something went wrong fetching the user"
    case ReposFailed => "Problem fetching repos"
  }

  predicate SameKind(a: Notice, b: Notice)
  {
    (a.RateLimitedUntil? && b.RateLimitedUntil?) || a == b
  }

  /** Different kinds of failure never show the same text, whatever the reset time renders as. */
  lemma TextsTellKindsApart(a: Notice, b: Notice, localTime: string -> string)
    requires !SameKind(a, b)
    ensures Text(a, localTime) != Text(b, localTime)
  {
    var ta, tb := Text(a, localTime), Text(b, localTime);
    if a.RateLimitedUntil? || b.RateLimitedUntil? {
      var timed := if a.RateLimitedUntil? then ta else tb;
      var other := if a.RateLimitedUntil? then tb else ta;
      if other == Text(RateLimited, localTime) {
        assert timed[27] == 'T' && other[27] == 'P';
      } else {
        assert timed[0] == 'G' && other[0] != 'G';
      }
    } else {
      assert |ta| != |tb|;
    }
  }
}
