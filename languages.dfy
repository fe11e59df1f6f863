/**
 * The "top languages" chips of the profile card: a frequency table of the
 * repositories' `language` values, built by a loop into a JavaScript object
 * (a map plus the insertion order of its keys), then ranked by a stable sort
 * on descending count and cut to five entries.
 */
module Languages {
  import opened Basics
  import opened Api

  /** A repository counts towards `language` when its language is that
      non-empty string; a missing or empty language is falsy and counts for nothing. */
  predicate Uses(r: Repo, language: string)
  {
    r.language == Some(language) && language != ""
  }

  /** The number of repositories using `language`. */
  function Occurrences(repos: seq<Repo>, language: string): nat
    decreases |repos|
  {
    if repos == [] then 0
    else
      var n := |repos| - 1;
      Occurrences(repos[..n], language) + (if Uses(repos[n], language) then 1 else 0)
  }

  function UsingIndices(repos: seq<Repo>, language: string): set<nat>
  {
    set i: nat | i < |repos| && Uses(repos[i], language)
  }

  /** The count is the number of positions holding a repository that uses the language. */
  lemma {:induction false} OccurrencesCountsUsingRepos(repos: seq<Repo>, language: string)
    ensures Occurrences(repos, language) == |UsingIndices(repos, language)|
  {
    if repos != [] {
      var n := |repos| - 1;
      OccurrencesCountsUsingRepos(repos[..n], language);
      if Uses(repos[n], language) {
        assert UsingIndices(repos, language) == UsingIndices(repos[..n], language) + {n};
      } else {
        assert UsingIndices(repos, language) == UsingIndices(repos[..n], language);
      }
    }
  }

  lemma {:induction false} OccurrencesPositive(repos: seq<Repo>, language: string)
    ensures Occurrences(repos, language) > 0 <==> exists i :: 0 <= i < |repos| && Uses(repos[i], language)
  {
    if repos != [] {
      var n := |repos| - 1;
      OccurrencesPositive(repos[..n], language);
      if exists i :: 0 <= i < |repos| && Uses(repos[i], language) {
        var i :| 0 <= i < |repos| && Uses(repos[i], language);
        if i < n { assert Uses(repos[..n][i], language); }
      }
    }
  }

  /** Index of the first repository using `language`; `|repos|` when there is none. */
  function FirstUse(repos: seq<Repo>, language: string): (k: nat)
    ensures k <= |repos|
    ensures k < |repos| ==> Uses(repos[k], language)
    ensures forall i :: 0 <= i < k ==> !Uses(repos[i], language)
    decreases |repos|
  {
    if repos == [] then 0
    else if Uses(repos[0], language) then 0
    else 1 + FirstUse(repos[1..], language)
  }

  lemma FirstUseAt(repos: seq<Repo>, language: string, k: nat)
    requires k < |repos| && Uses(repos[k], language)
    requires forall i :: 0 <= i < k ==> !Uses(repos[i], language)
    ensures FirstUse(repos, language) == k
  {
  }

  /** The languages in the insertion order of the counting object: each
      non-empty language once, when the first repository using it is met. */
  function FirstSeen(repos: seq<Repo>): seq<string>
    decreases |repos|
  {
    if repos == [] then []
    else
      var n := |repos| - 1;
      var seen := FirstSeen(repos[..n]);
      match repos[n].language
      case Some(l) => if l != "" && l !in seen then seen + [l] else seen
      case None => seen
  }

  /** The table holds exactly the languages some repository uses. */
  lemma {:induction false} FirstSeenListsUsedLanguages(repos: seq<Repo>, language: string)
    ensures language in FirstSeen(repos) <==> Occurrences(repos, language) > 0
  {
    if repos != [] {
      FirstSeenListsUsedLanguages(repos[..|repos| - 1], language);
    }
  }

  lemma FirstSeenAreUsed(repos: seq<Repo>)
    ensures forall l :: l in FirstSeen(repos) ==> l != "" && Occurrences(repos, l) > 0
  {
    forall l | l in FirstSeen(repos) ensures l != "" && Occurrences(repos, l) > 0 {
      FirstSeenListsUsedLanguages(repos, l);
      OccurrencesPositive(repos, l);
    }
  }

  predicate Distinct(s: seq<string>)
  {
    forall i, j :: 0 <= i < j < |s| ==> s[i] != s[j]
  }

  lemma {:induction false} FirstSeenDistinct(repos: seq<Repo>)
    ensures Distinct(FirstSeen(repos))
  {
    if repos != [] {
      FirstSeenDistinct(repos[..|repos| - 1]);
    }
  }

  /** Insertion order is the order of first use. */
  lemma {:induction false} FirstSeenInFirstUseOrder(repos: seq<Repo>)
    ensures forall i, j :: 0 <= i < j < |FirstSeen(repos)| ==>
      FirstUse(repos, FirstSeen(repos)[i]) < FirstUse(repos, FirstSeen(repos)[j])
  {
    if repos != [] {
      var n := |repos| - 1;
      var p := repos[..n];
      var ps, fs := FirstSeen(p), FirstSeen(repos);
      FirstSeenInFirstUseOrder(p);
      forall i | 0 <= i < |ps|
        ensures FirstUse(repos, ps[i]) == FirstUse(p, ps[i]) < n
      {
        FirstSeenListsUsedLanguages(p, ps[i]);
        OccurrencesPositive(p, ps[i]);
        FirstUseAt(repos, ps[i], FirstUse(p, ps[i]));
      }
      if |fs| != |ps| {
        var l := fs[|ps|];
        assert fs == ps + [l] && l !in ps;
        FirstSeenListsUsedLanguages(p, l);
        OccurrencesPositive(p, l);
        assert forall m :: 0 <= m < n ==> !Uses(repos[m], l) by {
          forall m | 0 <= m < n ensures !Uses(repos[m], l) { assert repos[m] == p[m]; }
        }
        FirstUseAt(repos, l, n);
      }
    }
  }

  /** Counting loop of `renderTopLanguages`: `counts[lang] = (counts[lang] || 0) + 1`
      for each repository with a truthy language. `order` is the insertion order
      of the object's keys, which `Object.entries` follows. */
  method TallyLanguages(repos: seq<Repo>) returns (counts: map<string, nat>, order: seq<string>)
    ensures order == FirstSeen(repos)
    ensures forall l :: l in counts <==> l in order
    ensures forall l :: l in counts ==> counts[l] == Occurrences(repos, l)
  {
    counts, order := map[], [];
    for i := 0 to |repos|
      invariant order == FirstSeen(repos[..i])
      invariant forall l :: l in counts <==> l in order
      invariant forall l :: l in counts ==> counts[l] == Occurrences(repos[..i], l)
    {
      assert repos[..i + 1][..i] == repos[..i];
      match repos[i].language {
        case Some(l) =>
          if l != "" {
            if l in counts {
              counts := counts[l := counts[l] + 1];
            } else {
              FirstSeenListsUsedLanguages(repos[..i], l);
              counts := counts[l := 1];
              order := order + [l];
            }
          }
        case None =>
      }
    }
    assert repos[..|repos|] == repos;
  }

  /** One entry of `Object.entries(counts)`. */
  datatype LangCount = LangCount(language: string, count: nat)

  /** `Object.entries(counts)` for the table the counting loop builds. */
  function Entries(repos: seq<Repo>): (r: seq<LangCount>)
    ensures |r| == |FirstSeen(repos)|
    ensures forall i :: 0 <= i < |r| ==> r[i].language == FirstSeen(repos)[i]
    ensures forall i :: 0 <= i < |r| ==>
      r[i].language != "" && r[i].count == Occurrences(repos, r[i].language) > 0
  {
    FirstSeenAreUsed(repos);
    var langs := FirstSeen(repos);
    seq(|langs|, i requires 0 <= i < |langs| => LangCount(langs[i], Occurrences(repos, langs[i])))
  }

  predicate NonIncreasing(s: seq<LangCount>)
  {
    forall i, j :: 0 <= i < j < |s| ==> s[i].count >= s[j].count
  }

  /** Places `e` after every entry of higher count and before the rest. */
  function InsertByCount(e: LangCount, sorted: seq<LangCount>): seq<LangCount>
    decreases |sorted|
  {
    if sorted == [] || sorted[0].count <= e.count then [e] + sorted
    else [sorted[0]] + InsertByCount(e, sorted[1..])
  }

  /** `entries.sort((a, b) => b[1] - a[1])`: a stable sort on descending count
      (`Array.prototype.sort` is stable). */
  function SortByCount(entries: seq<LangCount>): seq<LangCount>
    decreases |entries|
  {
    if entries == [] then [] else InsertByCount(entries[0], SortByCount(entries[1..]))
  }

  /** An entry at least as high as everything in a sorted list can go in front of it. */
  lemma ConsNonIncreasing(x: LangCount, s: seq<LangCount>)
    requires NonIncreasing(s)
    requires forall j :: 0 <= j < |s| ==> s[j].count <= x.count
    ensures NonIncreasing([x] + s)
  {
    var r := [x] + s;
    forall i, j | 0 <= i < j < |r| ensures r[i].count >= r[j].count {
      assert r[j] == s[j - 1];
      if i > 0 { assert r[i] == s[i - 1]; }
    }
  }

  lemma {:induction false} InsertByCountKeepsOrder(e: LangCount, s: seq<LangCount>)
    requires NonIncreasing(s)
    ensures NonIncreasing(InsertByCount(e, s))
    ensures multiset(InsertByCount(e, s)) == multiset(s) + multiset{e}
  {
    if s == [] || s[0].count <= e.count {
      ConsNonIncreasing(e, s);
    } else {
      var rest := s[1..];
      assert s == [s[0]] + rest;
      assert NonIncreasing(rest);
      InsertByCountKeepsOrder(e, rest);
      var t := InsertByCount(e, rest);
      assert InsertByCount(e, s) == [s[0]] + t;
      forall j | 0 <= j < |t| ensures t[j].count <= s[0].count {
        assert t[j] in multiset(t);
        if t[j] != e {
          assert t[j] in multiset(rest);
          var k :| 0 <= k < |rest| && rest[k] == t[j];
          assert s[k + 1] == t[j];
        }
      }
      ConsNonIncreasing(s[0], t);
    }
  }

  /** The sort orders by descending count and neither loses nor adds an entry. */
  lemma {:induction false} SortByCountSorts(entries: seq<LangCount>)
    ensures NonIncreasing(SortByCount(entries))
    ensures multiset(SortByCount(entries)) == multiset(entries)
    ensures |SortByCount(entries)| == |entries|
  {
    if entries != [] {
      SortByCountSorts(entries[1..]);
      InsertByCountKeepsOrder(entries[0], SortByCount(entries[1..]));
      assert entries == [entries[0]] + entries[1..];
    }
    assert |multiset(SortByCount(entries))| == |multiset(entries)|;
  }

  /** The subsequence of entries with count `c`, in order. */
  function WithCount(s: seq<LangCount>, c: nat): seq<LangCount>
    decreases |s|
  {
    if s == [] then [] else (if s[0].count == c then [s[0]] else []) + WithCount(s[1..], c)
  }

  lemma {:induction false} WithCountAppend(a: seq<LangCount>, b: seq<LangCount>, c: nat)
    ensures WithCount(a + b, c) == WithCount(a, c) + WithCount(b, c)
  {
    if a != [] {
      WithCountAppend(a[1..], b, c);
      assert (a + b)[1..] == a[1..] + b;
    } else {
      assert a + b == b;
    }
  }

  lemma WithCountCons(x: LangCount, s: seq<LangCount>, c: nat)
    ensures WithCount([x] + s, c) == (if x.count == c then [x] else []) + WithCount(s, c)
  {
    assert ([x] + s)[1..] == s;
  }

  lemma {:induction false} InsertByCountStable(e: LangCount, s: seq<LangCount>, c: nat)
    ensures WithCount(InsertByCount(e, s), c) == (if e.count == c then [e] else []) + WithCount(s, c)
  {
    var he := if e.count == c then [e] else [];
    if s == [] || s[0].count <= e.count {
      WithCountCons(e, s, c);
    } else {
      var rest := s[1..];
      var h0 := if s[0].count == c then [s[0]] else [];
      InsertByCountStable(e, rest, c);
      var t := InsertByCount(e, rest);
      assert InsertByCount(e, s) == [s[0]] + t;
      WithCountCons(s[0], t, c);
      assert s == [s[0]] + rest;
      WithCountCons(s[0], rest, c);
      // `s[0]` outranks `e`, so at most one of them has count `c`
      assert h0 == [] || he == [];
      assert he + h0 == h0 + he;
    }
  }

  /** Stability: entries of equal count keep their relative order. */
  lemma {:induction false} SortByCountStable(entries: seq<LangCount>, c: nat)
    ensures WithCount(SortByCount(entries), c) == WithCount(entries, c)
  {
    if entries != [] {
      SortByCountStable(entries[1..], c);
      InsertByCountStable(entries[0], SortByCount(entries[1..]), c);
    }
  }

  const MaxChips := 5

  /** `.sort(...).slice(0, 5)` */
  function Rank(entries: seq<LangCount>): (top: seq<LangCount>)
    ensures |top| == Min(MaxChips, |entries|)
    ensures top == [] <==> entries == []
    ensures NonIncreasing(top)
    ensures multiset(top) <= multiset(entries)
  {
    SortByCountSorts(entries);
    var sorted := SortByCount(entries);
    var k := Min(MaxChips, |entries|);
    assert sorted == sorted[..k] + sorted[k..];
    sorted[..k]
  }

  /** No entry is left out in favour of one with a lower count. */
  lemma RankKeepsHigherCounts(entries: seq<LangCount>, x: LangCount)
    requires x in entries && x !in Rank(entries)
    ensures |Rank(entries)| == MaxChips
    ensures forall y :: y in Rank(entries) ==> y.count >= x.count
  {
    SortByCountSorts(entries);
    var sorted := SortByCount(entries);
    var top := Rank(entries);
    assert top == sorted[..|top|];
    assert x in multiset(sorted);
    var k :| 0 <= k < |sorted| && sorted[k] == x;
    assert k >= |top| by {
      assert forall j :: 0 <= j < |top| ==> top[j] != x;
    }
    forall y | y in top ensures y.count >= x.count {
      var j :| 0 <= j < |top| && top[j] == y;
      assert sorted[j] == y;
    }
  }

  /** Ties keep table order: the chips of count `c` are the first entries of
      count `c` in the table, in table order. */
  lemma RankBreaksTiesByTableOrder(entries: seq<LangCount>, c: nat)
    ensures WithCount(Rank(entries), c) <= WithCount(entries, c)
  {
    SortByCountStable(entries, c);
    SortByCountSorts(entries);
    var sorted := SortByCount(entries);
    var k := Min(MaxChips, |entries|);
    WithCountAppend(sorted[..k], sorted[k..], c);
    assert sorted == sorted[..k] + sorted[k..];
  }

  /** The chips rendered by `renderTopLanguages`. */
  function TopLanguages(repos: seq<Repo>): (chips: seq<LangCount>)
    // one chip per used language, up to five
    ensures |chips| == Min(MaxChips, |FirstSeen(repos)|)
  {
    Rank(Entries(repos))
  }

  /** `renderTopLanguages`: the counting loop, `Object.entries` over the
      counts in key order, then the sort and the first five. */
  method RenderTopLanguages(repos: seq<Repo>) returns (chips: seq<LangCount>)
    ensures chips == TopLanguages(repos)
  {
    var counts, order := TallyLanguages(repos);
    var entries := seq(|order|, i requires 0 <= i < |order| => LangCount(order[i], counts[order[i]]));
    assert entries == Entries(repos);
    chips := Rank(entries);
  }

  predicate DistinctLanguages(s: seq<LangCount>)
  {
    forall i, j :: 0 <= i < j < |s| ==> s[i].language != s[j].language
  }

  lemma EntriesDistinct(repos: seq<Repo>)
    ensures DistinctLanguages(Entries(repos))
  {
    FirstSeenDistinct(repos);
  }

  lemma OnceInDistinctTable(table: seq<LangCount>, a: nat)
    requires DistinctLanguages(table) && a < |table|
    ensures multiset(table)[table[a]] == 1
  {
    var x := table[a];
    assert table == table[..a] + [x] + table[a + 1..];
    assert x !in table[..a];
    assert forall k :: a + 1 <= k < |table| ==> table[k] != x;
    assert x !in table[a + 1..];
  }

  /** Taking entries out of a table with distinct languages, at most once each, keeps them distinct. */
  lemma SubTableDistinct(sub: seq<LangCount>, table: seq<LangCount>)
    requires multiset(sub) <= multiset(table)
    requires DistinctLanguages(table)
    ensures DistinctLanguages(sub)
  {
    forall i, j | 0 <= i < j < |sub| ensures sub[i].language != sub[j].language {
      if sub[i].language == sub[j].language {
        assert sub[i] in multiset(table) && sub[j] in multiset(table);
        var a :| 0 <= a < |table| && table[a] == sub[i];
        var b :| 0 <= b < |table| && table[b] == sub[j];
        assert a == b;
        var x := sub[i];
        assert multiset(sub)[x] >= 2 by {
          assert sub == sub[..i] + [x] + sub[i + 1..j] + [x] + sub[j + 1..];
        }
        OnceInDistinctTable(table, a);
        assert false;
      }
    }
  }

  /** Every chip names a used, non-empty language with its exact count, and no language twice. */
  lemma TopLanguagesAreExactCounts(repos: seq<Repo>)
    ensures forall x :: x in TopLanguages(repos) ==>
      x.language != "" && x.count == Occurrences(repos, x.language) > 0
    ensures DistinctLanguages(TopLanguages(repos))
  {
    var es := Entries(repos);
    var top := TopLanguages(repos);
    forall x | x in top
      ensures x.language != "" && x.count == Occurrences(repos, x.language) > 0
    {
      assert x in multiset(top);
      assert x in multiset(es);
      var i :| 0 <= i < |es| && es[i] == x;
      FirstSeenListsUsedLanguages(repos, x.language);
      OccurrencesPositive(repos, x.language);
    }
    EntriesDistinct(repos);
    SubTableDistinct(top, es);
  }

  /** A used language missing from the chips means five chips, each with at least its count. */
  lemma TopLanguagesOmitOnlyLowerCounts(repos: seq<Repo>, language: string)
    requires Occurrences(repos, language) > 0
    requires forall x :: x in TopLanguages(repos) ==> x.language != language
    ensures |TopLanguages(repos)| == MaxChips
    ensures forall x :: x in TopLanguages(repos) ==> x.count >= Occurrences(repos, language)
  {
    var es := Entries(repos);
    FirstSeenListsUsedLanguages(repos, language);
    var i :| 0 <= i < |FirstSeen(repos)| && FirstSeen(repos)[i] == language;
    assert es[i] == LangCount(language, Occurrences(repos, language));
    RankKeepsHigherCounts(es, es[i]);
  }

  /** Equal counts are shown in order of first use: the chips of count `c` are
      the first table entries of count `c`, and the table is in first-use order. */
  lemma TopLanguagesTiesByFirstUse(repos: seq<Repo>, c: nat)
    ensures WithCount(TopLanguages(repos), c) <= WithCount(Entries(repos), c)
    ensures forall i, j :: 0 <= i < j < |Entries(repos)| ==>
      FirstUse(repos, Entries(repos)[i].language) < FirstUse(repos, Entries(repos)[j].language)
  {
    RankBreaksTiesByTableOrder(Entries(repos), c);
    FirstSeenInFirstUseOrder(repos);
  }

  /** No chips exactly when no repository has a non-empty language. */
  lemma NoChipsIffNoLanguages(repos: seq<Repo>)
    ensures TopLanguages(repos) == [] <==> forall i :: 0 <= i < |repos| ==> !repos[i].language.Some? || repos[i].language.value == ""
  {
    if TopLanguages(repos) == [] {
      forall i | 0 <= i < |repos| ensures !repos[i].language.Some? || repos[i].language.value == "" {
        if repos[i].language.Some? && repos[i].language.value != "" {
          var l := repos[i].language.value;
          OccurrencesPositive(repos, l);
          FirstSeenListsUsedLanguages(repos, l);
        }
      }
    } else {
      var l := FirstSeen(repos)[0];
      FirstSeenListsUsedLanguages(repos, l);
      OccurrencesPositive(repos, l);
    }
  }
}
