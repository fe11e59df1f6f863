/** The two string helpers of the renderer: website links and relative push times. */
module Format {
  /** ASCII lower-casing: a JavaScript regular expression with the `i` flag and
      without the `u` flag folds no non-ASCII character onto an ASCII letter. */
  function LowerAscii(c: char): char
  {
    if 'A' <= c <= 'Z' then (c as int + 32) as char else c
  }

  predicate StartsWithIgnoringCase(s: string, prefix: string)
  {
    |prefix| <= |s| && forall i :: 0 <= i < |prefix| ==> LowerAscii(s[i]) == LowerAscii(prefix[i])
  }

  /** `/^https?:\/\//i` */
  predicate HasHttpScheme(url: string)
    ensures HasHttpScheme(url) ==> 7 <= |url| && forall i :: 0 <= i < 4 ==> LowerAscii(url[i]) == "http"[i]
  {
    StartsWithIgnoringCase(url, "http://") || StartsWithIgnoringCase(url, "https://")
  }

  /** The `i` flag: URLs that differ only in the case of ASCII letters agree on having a scheme. */
  lemma SchemeIgnoresCase(url: string, other: string)
    requires |url| == |other| && forall i :: 0 <= i < |url| ==> LowerAscii(url[i]) == LowerAscii(other[i])
    ensures HasHttpScheme(url) <==> HasHttpScheme(other)
  {
  }

  /** The href of a profile's website link. An empty URL (the only falsy
      string) gives `#`; otherwise the result is the URL itself, prefixed with
      `https://` when it lacks an http(s) scheme. */
  function NormalizeUrl(url: string): (r: string)
    ensures url == "" ==> r == "#"
    ensures HasHttpScheme(url) ==> r == url
    ensures url != "" ==> HasHttpScheme(r) && |url| <= |r| && r[|r| - |url|..] == url
    ensures url != "" && !HasHttpScheme(url) ==> r[..|r| - |url|] == "https://"
  {
    if url == "" then "#"
    else if HasHttpScheme(url) then url
    else "https://" + url
  }

  /** Normalizing a non-empty URL twice changes nothing more. */
  lemma NormalizeUrlIdempotent(url: string)
    requires url != ""
    ensures NormalizeUrl(NormalizeUrl(url)) == NormalizeUrl(url)
  {
  }

  datatype TimeUnit = Days | Hours | Minutes | Seconds

  /** "`amount`<d|h|m|s> ago" */
  datatype Ago = Ago(amount: int, unit: TimeUnit)

  function UnitMs(u: TimeUnit): nat
  {
    match u
    case Days => 86_400_000
    case Hours => 3_600_000
    case Minutes => 60_000
    case Seconds => 1000
  }

  /** Bucketing of `Date.now() - pushedAt` (milliseconds). Each step is a
      `Math.floor` division; for a positive divisor Dafny's `/` is exactly that.
      The result is the largest unit of which at least one whole one has
      elapsed, and the amount is the whole number of that unit. */
  function RelativeTime(elapsedMs: int): (r: Ago)
    ensures r.amount == elapsedMs / UnitMs(r.unit)
    ensures r.unit == Days <==> 86_400_000 <= elapsedMs
    ensures r.unit == Hours <==> 3_600_000 <= elapsedMs < 86_400_000
    ensures r.unit == Minutes <==> 60_000 <= elapsedMs < 3_600_000
    ensures r.unit == Seconds <==> elapsedMs < 60_000
    ensures r.unit != Seconds ==> r.amount > 0
    ensures 0 <= elapsedMs ==> 0 <= r.amount * UnitMs(r.unit) <= elapsedMs < (r.amount + 1) * UnitMs(r.unit)
  {
    var sec := elapsedMs / 1000;
    var min := sec / 60;
    var hr := min / 60;
    var day := hr / 24;
    if day > 0 then Ago(day, Days)
    else if hr > 0 then Ago(hr, Hours)
    else if min > 0 then Ago(min, Minutes)
    else Ago(sec, Seconds)
  }
}
