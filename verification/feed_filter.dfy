/** The filter engine of src/services/feed-filter.ts.

    The regular-expression engine is not modelled: `matches(pattern, text)` stands for
    `new RegExp(pattern, 'i').test(text)`. The wall clock is not modelled either:
    `elapsed[i]` is the time, in milliseconds, that the match on the i-th item took. */
module FeedFilter {
  import opened Wrappers
  import opened Sequences
  import opened Strings
  import opened FeedModel
  import opened FilterModel
  import opened Errors

  /** The per-item matching budget. */
  const RegexTimeoutMs: int := 2000

  /** The test the keyword filter runs on one item, given the already lower-cased pattern:
      it occurs in the lower-cased title or in the lower-cased description. */
  predicate KeywordHit(item: FeedItem, lowerPattern: string) {
    Contains(Lower(item.title), lowerPattern) || Contains(Lower(item.description), lowerPattern)
  }

  /** What the keyword filter means for a pattern as the user wrote it. */
  predicate MentionsKeyword(item: FeedItem, pattern: string) {
    KeywordHit(item, Lower(pattern))
  }

  /** The keyword selection, as a predicate on items. */
  function KeywordTest(lowerPattern: string): FeedItem -> bool {
    item => KeywordHit(item, lowerPattern)
  }

  /** `applyKeywordFilter(items, pattern)`. */
  function ApplyKeywordFilter(items: seq<FeedItem>, pattern: string): (r: seq<FeedItem>)
    ensures IsSubsequence(r, items)
    ensures |r| <= |items|
    ensures forall i | 0 <= i < |r| :: MentionsKeyword(r[i], pattern)
    ensures forall x :: multiset(r)[x] == if MentionsKeyword(x, pattern) then multiset(items)[x] else 0
  {
    var lowerPattern := Lower(pattern);
    var r := Filter(items, KeywordTest(lowerPattern));
    SubsequenceLength(r, items);
    r
  }

  /** Patterns that lower-case alike select the same items (`news`, `NEWS`, `NeWs`). */
  lemma KeywordCaseInsensitive(items: seq<FeedItem>, p1: string, p2: string)
    requires Lower(p1) == Lower(p2)
    ensures ApplyKeywordFilter(items, p1) == ApplyKeywordFilter(items, p2)
  {
  }

  /** The text the regular expression is tested against. */
  function CombinedText(item: FeedItem): string {
    item.title + " " + item.description
  }

  /** The regular-expression selection, as a predicate on items. */
  function RegexHit(pattern: string, matches: (string, string) -> bool): FeedItem -> bool {
    item => matches(pattern, CombinedText(item))
  }

  /** The outcome of the regex filter together with the texts handed to the matcher, in order. */
  datatype RegexRun = RegexRun(outcome: Result<seq<FeedItem>, AppError>, probes: seq<string>)

  /** `applyRegexFilter`, step by step: each item is matched, then its elapsed time is checked,
      and the first item over budget aborts the whole filter. */
  function RunRegexFilter(items: seq<FeedItem>, pattern: string, matches: (string, string) -> bool,
                          elapsed: seq<int>): (run: RegexRun)
    requires |elapsed| == |items|
    ensures |run.probes| <= |items|
    ensures forall i | 0 <= i < |run.probes| :: run.probes[i] == CombinedText(items[i])
    ensures forall i | 0 <= i < |run.probes| - 1 :: elapsed[i] <= RegexTimeoutMs
    ensures run.outcome.Ok? <==> forall i | 0 <= i < |items| :: elapsed[i] <= RegexTimeoutMs
    ensures run.outcome.Ok? ==>
      |run.probes| == |items| && run.outcome.value == Filter(items, RegexHit(pattern, matches))
    ensures run.outcome.Err? ==>
      run.outcome.error == RegexTimeoutError(pattern) &&
      |run.probes| > 0 && elapsed[|run.probes| - 1] > RegexTimeoutMs
    decreases |items|
  {
    if |items| == 0 then RegexRun(Ok([]), [])
    else
      var text := CombinedText(items[0]);
      var hit := matches(pattern, text);
      if elapsed[0] > RegexTimeoutMs then
        RegexRun(Err(RegexTimeoutError(pattern)), [text])
      else
        var rest := RunRegexFilter(items[1..], pattern, matches, elapsed[1..]);
        assert forall i | 1 <= i < |items| :: elapsed[i] == elapsed[1..][i - 1];
        var outcome :=
          if rest.outcome.Err? then rest.outcome
          else if hit then Ok([items[0]] + rest.outcome.value)
          else rest.outcome;
        RegexRun(outcome, [text] + rest.probes)
  }

  /** `applyRegexFilter(items, pattern)`: all-or-nothing. */
  function ApplyRegexFilter(items: seq<FeedItem>, pattern: string, matches: (string, string) -> bool,
                            elapsed: seq<int>): (r: Result<seq<FeedItem>, AppError>)
    requires |elapsed| == |items|
    ensures r.Ok? <==> forall i | 0 <= i < |items| :: elapsed[i] <= RegexTimeoutMs
    ensures r.Err? ==> r.error == RegexTimeoutError(pattern)
    ensures r.Ok? ==> IsSubsequence(r.value, items)
    ensures r.Ok? ==> forall i | 0 <= i < |r.value| :: matches(pattern, CombinedText(r.value[i]))
    ensures r.Ok? ==> forall x :: multiset(r.value)[x] ==
                                  if matches(pattern, CombinedText(x)) then multiset(items)[x] else 0
  {
    RunRegexFilter(items, pattern, matches, elapsed).outcome
  }

  /** `applyFilter(items, criteria)`: dispatch on the criteria's type. */
  function ApplyFilter(items: seq<FeedItem>, criteria: FilterCriteria, matches: (string, string) -> bool,
                       elapsed: seq<int>): (r: Result<seq<FeedItem>, AppError>)
    requires |elapsed| == |items|
    ensures criteria.Keyword? ==> r == Ok(ApplyKeywordFilter(items, criteria.pattern))
    ensures criteria.Regex? ==> r == ApplyRegexFilter(items, criteria.pattern, matches, elapsed)
    ensures r.Err? ==> criteria.Regex? && r.error == RegexTimeoutError(criteria.pattern)
  {
    match criteria
    case Keyword(p) => Ok(ApplyKeywordFilter(items, p))
    case Regex(p) => ApplyRegexFilter(items, p, matches, elapsed)
  }
}
