/**
 * The data the lookup tool receives from the GitHub REST API, and the ways a
 * request can fail. The HTTP client itself is not modelled: a request is
 * represented by the reply it produces.
 */
module Api {
  import opened Basics

  /** A user profile as returned by `GET /users/{name}`. The profile card
      renders more fields; they play no part in the lookup. */
  datatype User = User(login: string, name: Option<string>, blog: string)

  /** One element of the array returned by `GET /users/{name}/repos`. */
  datatype Repo = Repo(
    name: string,
    htmlUrl: string,
    language: Option<string>,
    stars: Option<int>,
    forks: Option<int>,
    pushedAt: Option<int>)  // instant of the last push, in milliseconds since the epoch

  /** Why a request failed: an HTTP response with an error status, carrying the
      `x-ratelimit-reset` header when the response had one, or no response at
      all (network failure, timeout). */
  datatype FetchError = HttpStatus(status: int, resetHeader: Option<string>) | NoResponse

  /** What a request yields: the response body, or the error it was rejected with. */
  datatype Reply<T> = Ok(data: T) | Failed(error: FetchError)
}
