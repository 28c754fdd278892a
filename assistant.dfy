/** The job-search page (src/pages/Assistant.tsx): a case-insensitive
    substring filter over four fixed offers that falls back to the whole
    list, and the query/isSearching/hasSearched/results state around it.
    The 1.5 s timer becomes two steps: `StartSearch` runs the handler up to
    its `await`, `CompleteSearch` runs the rest. */
module Assistant {
  import opened Wrappers
  import opened Text
  import Seqs
  import JobCard

  datatype Job = Job(
    id: nat,
    title: string,
    company: string,
    location: string,
    date: string,
    matchScore: int,
    source: string,
    url: string)

  /** The four sample offers, in the order the page lists them. */
  const SampleJobs: seq<Job> := [Offer1, Offer2, Offer3, Offer4]

  const Offer1 := Job(1, "Développeur Full Stack", "Tech Morocco", "Casablanca", "Il y a 2 jours", 92, "LinkedIn", "#")
  const Offer2 := Job(2, "Data Analyst", "Finance Plus", "Rabat", "Il y a 3 jours", 85, "ReKrute", "#")
  const Offer3 := Job(3, "Chef de Projet Digital", "Digital Agency MA", "Marrakech", "Il y a 1 jour", 78, "Indeed", "#")
  const Offer4 := Job(4, "Ingénieur DevOps", "Cloud Solutions", "Casablanca", "Aujourd'hui", 88, "Stagiaires.ma", "#")

  /** The suggestion buttons shown before the first search. */
  const Suggestions: seq<string> := [
    "Développeur web à Casablanca",
    "Stage marketing digital Rabat",
    "Data scientist junior",
    "Chef de projet IT"
  ]

  /** The filter test: the lower-cased title, company or location includes
      the lower-cased query, the query taken as typed (not trimmed). */
  predicate Matches(query: string, job: Job) {
    var q := Lower(query);
    Contains(Lower(job.title), q) || Contains(Lower(job.company), q) || Contains(Lower(job.location), q)
  }

  /** Some offer of `jobs` matches the query. */
  predicate AnyMatch(jobs: seq<Job>, query: string) {
    exists k :: 0 <= k < |jobs| && Matches(query, jobs[k])
  }

  /** What a completed search over `jobs` (the page passes the sample
      offers) shows: the matching offers in their original order, or every
      offer when none matches. */
  function SearchResults(jobs: seq<Job>, query: string): (r: seq<Job>)
    ensures |jobs| > 0 ==> |r| > 0
    ensures Seqs.IsSubsequence(r, jobs)
    ensures AnyMatch(jobs, query) ==>
              (forall k :: 0 <= k < |r| ==> Matches(query, r[k]))
              && (forall k :: 0 <= k < |jobs| && Matches(query, jobs[k]) ==> jobs[k] in r)
    ensures !AnyMatch(jobs, query) ==> r == jobs
  {
    var filtered := Seqs.Filter(jobs, job => Matches(query, job));
    if |filtered| > 0 then
      filtered
    else
      Seqs.SubsequenceReflexive(jobs);
      jobs
  }

  /** The guard `!query.trim()`: the query is empty once trimmed. */
  predicate SearchBlocked(query: string) {
    Trim(query) == ""
  }

  /** The guard blocks exactly the queries made only of white space. */
  lemma SearchBlockedIff(query: string)
    ensures SearchBlocked(query) <==> AllWhitespace(query)
  {
    TrimEmptyIff(query);
  }

  /** The filter compares the query as typed, padding included, so an
      offer that matches the padded query also matches the trimmed one:
      padding can only lose matches, never add them. */
  lemma PaddingNeverAddsMatches(query: string, job: Job)
    ensures Matches(query, job) ==> Matches(Trim(query), job)
  {
    TrimIsInnerSlice(query);
    var i, j :| 0 <= i <= j <= |query| && Trim(query) == query[i..j];
    LowerSlice(query, i, j);
    var q := Lower(query);
    if Contains(Lower(job.title), q) {
      ContainsSlice(Lower(job.title), q, i, j);
    }
    if Contains(Lower(job.company), q) {
      ContainsSlice(Lower(job.company), q, i, j);
    }
    if Contains(Lower(job.location), q) {
      ContainsSlice(Lower(job.location), q, i, j);
    }
  }

  /** The props the page hands to each result card (`{...job}`). */
  function CardProps(job: Job): (p: JobCard.JobCardProps)
    ensures p.title == job.title && p.company == job.company && p.location == job.location
    ensures p.date == Some(job.date) && p.matchScore == Some(job.matchScore)
    ensures p.url == Some(job.url) && p.source == Some(job.source)
  {
    JobCard.JobCardProps(job.title, job.company, job.location, Some(job.date),
                         Some(job.matchScore), Some(job.url), Some(job.source))
  }

  /** Every card of a completed search shows its date, source, score badge
      and link, since every sample offer fills all of them. */
  lemma ResultCardsShowEveryField(query: string)
    ensures forall k :: 0 <= k < |SearchResults(SampleJobs, query)| ==>
              var v := JobCard.Render(CardProps(SearchResults(SampleJobs, query)[k]));
              v.date.Some? && v.source.Some? && v.badge.Some? && v.link.Some?
  {
    var r := SearchResults(SampleJobs, query);
    forall k | 0 <= k < |r|
      ensures var v := JobCard.Render(CardProps(r[k])); v.date.Some? && v.source.Some? && v.badge.Some? && v.link.Some?
    {
      assert r[k] in SampleJobs;
    }
  }

  /** The page's state. `pending` holds, oldest first, the query captured by
      each search whose timer has not fired yet: pressing Enter starts a
      search even while one is pending (only the button is disabled), and
      each timer completes with the query of its own call. */
  class AssistantPage {
    /** The offers searched: the page's sample list. */
    const jobs: seq<Job>
    var query: string
    var isSearching: bool
    var hasSearched: bool
    var results: seq<Job>
    var pending: seq<string>
    /** The query of the last search that completed. */
    ghost var lastSearched: string

    ghost predicate Valid()
      reads this`isSearching, this`hasSearched, this`results, this`pending, this`lastSearched
    {
      && |jobs| > 0
      && (isSearching ==> |pending| > 0)
      && (!hasSearched ==> results == [] && pending == [])
      && ResultsCurrent()
    }

    /** The results on screen are those of the last completed search. */
    ghost predicate ResultsCurrent()
      reads this`results, this`lastSearched
    {
      results != [] ==> results == SearchResults(jobs, lastSearched)
    }

    constructor()
      ensures Valid()
      ensures jobs == SampleJobs
      ensures query == "" && !isSearching && !hasSearched && results == [] && pending == []
    {
      jobs := SampleJobs;
      query := "";
      isSearching := false;
      hasSearched := false;
      results := [];
      pending := [];
      lastSearched := "";
    }

    /** The input's `onChange`. */
    method SetQuery(text: string)
      requires Valid()
      modifies this
      ensures Valid()
      ensures query == text
      ensures isSearching == old(isSearching) && hasSearched == old(hasSearched)
      ensures results == old(results) && pending == old(pending)
    {
      query := text;
    }

    /** A suggestion button; the buttons are shown only before the first
        search. */
    method PickSuggestion(k: nat)
      requires Valid() && !hasSearched && k < |Suggestions|
      modifies this
      ensures Valid()
      ensures query == Suggestions[k]
      ensures isSearching == old(isSearching) && hasSearched == old(hasSearched)
      ensures results == old(results) && pending == old(pending)
    {
      query := Suggestions[k];
    }

    /** The search button's `disabled` condition. */
    function SearchDisabled(): (d: bool)
      reads this
      ensures d <==> isSearching || AllWhitespace(query)
    {
      SearchBlockedIff(query);
      isSearching || SearchBlocked(query)
    }

    /** `handleSearch` up to its `await`: a query that trims to "" changes
        nothing; any other raises both flags and starts a timer holding the
        query as typed. */
    method StartSearch()
      requires Valid()
      modifies this
      ensures Valid()
      ensures SearchBlocked(old(query)) ==> unchanged(this)
      ensures !SearchBlocked(old(query)) ==>
                && isSearching && hasSearched
                && pending == old(pending) + [old(query)]
                && query == old(query) && results == old(results)
    {
      if Trim(query) == "" {
        return;
      }
      isSearching := true;
      hasSearched := true;
      pending := pending + [query];
    }

    /** The rest of `handleSearch`, when the oldest pending timer fires: the
        results for the query that search captured, and the spinner off. */
    method CompleteSearch()
      requires Valid() && |pending| > 0
      modifies this
      ensures Valid()
      ensures results == SearchResults(jobs, old(pending[0])) && |results| > 0
      ensures !isSearching && hasSearched
      ensures pending == old(pending[1..]) && query == old(query)
    {
      var q := pending[0];
      results := SearchResults(jobs, q);
      lastSearched := q;
      isSearching := false;
      pending := pending[1..];
    }
  }
}
module AssistantExamples {
  import opened Text
  import Seqs
  import opened Assistant

  /** An offer located exactly where the query says matches it. */
  lemma LocationMatches(query: string, job: Job)
    requires job.location == query
    ensures Matches(query, job)
  {
    ContainsSelf(Lower(query));
  }

  /** A field holding neither the letter `c` nor its capital `upper` does
      not include a lower-cased query that holds `c`. */
  lemma MissingLetterRulesOut(query: string, field: string, c: char, upper: char)
    requires 'a' <= c <= 'z' && upper as int == c as int - 32
    requires c in Lower(query)
    requires c !in field && upper !in field
    ensures !Contains(Lower(field), Lower(query))
  {
    assert forall d :: LowerChar(d) == c ==> d == c || d == upper;
    LowerOmits(field, c, upper);
    MissingCharRulesOut(Lower(field), Lower(query), c);
  }

  /** "Casablanca" finds the two offers located there, in list order. */
  lemma CasablancaFindsTwoOffers(query: string)
    requires query == "Casablanca"
    ensures SearchResults(SampleJobs, query) == [SampleJobs[0], SampleJobs[3]]
  {
    assert Lower(query)[4] == 'b' && Lower(query)[0] == 'c';
    assert SampleJobs[0].location == query && SampleJobs[3].location == query;
    CityOfFirstAndLastOffer(query);
  }

  /** A query naming the city of the first and last offers that lower-cases
      to something with a "b" and a "c" finds exactly those two. */
  lemma CityOfFirstAndLastOffer(query: string)
    requires SampleJobs[0].location == query && SampleJobs[3].location == query
    requires 'b' in Lower(query) && 'c' in Lower(query)
    ensures SearchResults(SampleJobs, query) == [SampleJobs[0], SampleJobs[3]]
  {
    LocationMatches(query, SampleJobs[0]);
    LocationMatches(query, SampleJobs[3]);
    SecondOfferRulesOut(query);
    ThirdOfferRulesOut(query);
    Seqs.FilterFirstAndLastOfFour(SampleJobs, job => Matches(query, job));
  }

  /** Nothing of "Data Analyst", "Finance Plus" or "Rabat" holds both a "b"
      and a "c". */
  lemma SecondOfferRulesOut(query: string)
    requires 'b' in Lower(query) && 'c' in Lower(query)
    ensures !Matches(query, SampleJobs[1])
  {
    var job := SampleJobs[1];
    SecondOfferLetters(job.title, job.company, job.location);
    MissingLetterRulesOut(query, job.title, 'b', 'B');
    MissingLetterRulesOut(query, job.company, 'b', 'B');
    MissingLetterRulesOut(query, job.location, 'c', 'C');
  }

  lemma SecondOfferLetters(title: string, company: string, location: string)
    requires title == "Data Analyst" && company == "Finance Plus" && location == "Rabat"
    ensures 'b' !in title && 'B' !in title && 'b' !in company && 'B' !in company
    ensures 'c' !in location && 'C' !in location
  {
  }

  /** "Chef de Projet Digital", "Digital Agency MA" and "Marrakech" have no
      "b". */
  lemma ThirdOfferRulesOut(query: string)
    requires 'b' in Lower(query)
    ensures !Matches(query, SampleJobs[2])
  {
    var job := SampleJobs[2];
    ThirdTitleHasNoB(job.title);
    ThirdCompanyHasNoB(job.company);
    ThirdLocationHasNoB(job.location);
    MissingLetterRulesOut(query, job.title, 'b', 'B');
    MissingLetterRulesOut(query, job.company, 'b', 'B');
    MissingLetterRulesOut(query, job.location, 'b', 'B');
  }

  lemma ThirdTitleHasNoB(title: string)
    requires title == "Chef de Projet Digital"
    ensures 'b' !in title && 'B' !in title
  {
  }

  lemma ThirdCompanyHasNoB(company: string)
    requires company == "Digital Agency MA"
    ensures 'b' !in company && 'B' !in company
  {
  }

  lemma ThirdLocationHasNoB(location: string)
    requires location == "Marrakech"
    ensures 'b' !in location && 'B' !in location
  {
  }

  /** The filter does not trim: "Casablanca " with a trailing space passes
      the guard and trims to "Casablanca", which finds two offers, yet no
      field includes "casablanca " (both "Casablanca" locations are one
      character short and no other field holds a "b"), so the search falls
      back to every offer. */
  lemma PaddedCityFallsBack(query: string)
    requires query == "Casablanca "
    ensures !SearchBlocked(query)
    ensures SearchResults(SampleJobs, Trim(query)) == [SampleJobs[0], SampleJobs[3]]
    ensures SearchResults(SampleJobs, query) == SampleJobs
  {
    PaddedCityTrims(query);
    CasablancaFindsTwoOffers(Trim(query));
    NoOfferMatchesPaddedCity(query);
  }

  lemma PaddedCityTrims(query: string)
    requires query == "Casablanca "
    ensures Trim(query) == "Casablanca"
  {
    var city := query[..10];
    assert city == "Casablanca" && query == city + [' '];
    TrimDropsTrailingSpace(city, ' ');
  }

  /** No sample offer matches "Casablanca " with its trailing space. */
  lemma NoOfferMatchesPaddedCity(query: string)
    requires query == "Casablanca "
    ensures !AnyMatch(SampleJobs, query)
  {
    assert Lower(query)[4] == 'b' && Lower(query)[0] == 'c';
    forall k | 0 <= k < |SampleJobs|
      ensures !Matches(query, SampleJobs[k])
    {
      if k == 1 {
        SecondOfferRulesOut(query);
      } else if k == 2 {
        ThirdOfferRulesOut(query);
      } else {
        CityOfferRulesOutLonger(query, k);
      }
    }
  }

  /** The two Casablanca offers do not match a query longer than ten
      characters that lower-cases to something with a "b". */
  lemma CityOfferRulesOutLonger(query: string, k: nat)
    requires k == 0 || k == 3
    requires |query| > 10 && 'b' in Lower(query)
    ensures !Matches(query, SampleJobs[k])
  {
    var job := SampleJobs[k];
    if k == 0 {
      FirstOfferNamesHaveNoB(job.title, job.company);
    } else {
      LastOfferNamesHaveNoB(job.title, job.company);
    }
    MissingLetterRulesOut(query, job.title, 'b', 'B');
    MissingLetterRulesOut(query, job.company, 'b', 'B');
    LongerRulesOut(Lower(job.location), Lower(query));
  }

  lemma FirstOfferNamesHaveNoB(title: string, company: string)
    requires title == "Développeur Full Stack" && company == "Tech Morocco"
    ensures 'b' !in title && 'B' !in title && 'b' !in company && 'B' !in company
  {
  }

  lemma LastOfferNamesHaveNoB(title: string, company: string)
    requires title == "Ingénieur DevOps" && company == "Cloud Solutions"
    ensures 'b' !in title && 'B' !in title && 'b' !in company && 'B' !in company
  {
  }
}
