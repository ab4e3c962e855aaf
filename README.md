# five-minute-brief, modelled in Dafny

five-minute-brief (5늘5분) collects Korean news and YouTube items, ranks them against trend
keywords, groups them into topics per category, has an LLM rewrite each topic into one short
briefing article (with a local fallback when every provider fails), gives each article a
thumbnail and stores it. A web client lets readers swipe through the briefings. Guests see
three. Signed-in users like, bookmark and comment, and get a daily push at a time of their
choosing.

This project models the core of that system and proves properties of the model. The model
has one Dafny module per source file:

- **Python pipeline**
  - `TrendScoring` (`phase3_trend_scoring.py`): keyword extraction, substring normalisation,
    time freshness, the three-stage news deduplication and the weighted keyword tally.
  - `NewsSample` (`step1_news_sample.py`): the time-window filter, the link dedup across
    search keywords and the sample keyword report.
  - `Briefing` (`generate_briefing.py`): flattening the stored news, fusing trend weights and
    matching articles against them.
  - `RunBatch` (`run_batch.py`): the lenient Korean date parser, the date filter, the
    categoriser, scoring, sorting and the four-category report.
  - `Clusterer` (`clusterer.py`): per-category target counts, the clustering driver, the
    split of oversized clusters and the representative flag.
  - `AiRewriter` (`ai_rewriter.py`): the retrying provider router and its counters, the
    prompt inputs, the backfill of required fields, the sentence-splitting fallback article
    and the driver over all clusters, which a decoded answer other than a JSON object stops
    with a TypeError, and a negative retry delay or request interval with the ValueError of
    `time.sleep`.
  - `ImageGenerator` (`image_generator.py`): the image prompt, the per-category file index,
    the thumbnail URL and the default-image fallback.
  - `DbLoader` (`db_loader.py`): row construction, the insert loop's transaction and
    accounting, and the JSON fallback without private keys.
  - `NewsCrawler` (`news_crawler.py`): the section list read from `크롤링.md`.
  - `YoutubeCrawler` (`youtube_crawler.py`): the config-line filter, the view-count parser,
    the quality score, the title blacklist and the once-per-id keyword search.
- **Express backend**
  - `AuthRoutes` (`app/backend/routes/auth.js`): the email-code and reset-code stores and
    their sweepers, the validators, sign-up, login and the refresh grace rule.
  - `UserRoutes` (`app/backend/routes/user.js`): the profile lookup, the profile edit
    sequence and account deletion.
  - `NewsRoutes` (`app/backend/routes/news.js`): paging, the category filter, the guest
    restriction and the detail route's id handling.
  - `InteractionRoutes` (`app/backend/routes/interaction.js`): like and bookmark toggles,
    and creating, editing and deleting comments.
  - `PushRoutes` (`app/backend/routes/push.js`): subscriptions, notification paging and
    read marks, and the test send.
  - `PushScheduler` (`app/backend/scheduler/pushScheduler.js`): the Korean-time schedule
    match and the send, deactivate and log loop.
  - `LegacyAuth` (`backend/routes/auth.js`): the older sign-up and login routes.
- **React clients**
  - `PushClient` (`lib/push.ts`): the VAPID key decoder.
  - `Settings` (`Settings.tsx`): the time picker and the settings page.
  - `SwipeDeck` (`SwipeDeck.tsx`): the card deck.
  - `AppState` (`App.tsx`): navigation history, read gating, filtering and paging.
  - `Helpers` (`utils/helpers.ts`): the display helpers.
  - `AdminDashboard` (`AdminDashboard.tsx`): the dashboard formats.
  - `LegacyApp` (`src/App.tsx`): the older single-file client.
- **Shared helpers**: `Util` (Option, string and sequence helpers, a stable descending
  sort) and `JsUtil` (JavaScript's `trim`, `parseInt`, UTF-16 length and the paging
  arithmetic) are shared by the other modules.

The model follows these conventions:

- **Computation**: pure computation is written as functions, with lemmas about it.
- **Mutation**: loops and in-place updates are written as methods proved against those
  functions.
- **Handlers and components**: objects whose fields the source updates, such as a route's
  tables or a component's state, are classes.
- **Foreign code** enters as function-valued parameters with stated contracts, or as
  sequences of outcomes. This covers LLM providers, the image API, the database server,
  `SequenceMatcher`, TF-IDF clustering, `strptime`, bcrypt, JWT and web-push.
- **Clocks and randomness** are also parameters: `datetime.now()`, `Date.now()`, the
  browser's `new Date` and `crypto.randomInt`.

## Model

| member | source | states |
|---|---|---|
| TrendScoring.ParticleMatch | phase3_trend_scoring.py:110 | the greedy first group of the particle pattern: the longest split the rest of the pattern accepts, or none |
| TrendScoring.ParticleStripsOneChar | phase3_trend_scoring.py:110-119 | the pattern matches exactly the all-Hangul words of two or more characters ending in a particle character, and then drops exactly that one character |
| TrendScoring.StripTags | phase3_trend_scoring.py:70 | removing `<...>` tags only deletes characters: the result is a subsequence of the text, no longer than it, and a text without `<` comes back unchanged |
| TrendScoring.StripAll | phase3_trend_scoring.py:115-119 | one stripped token per input token, each the particle-stripped token |
| TrendScoring.KeywordsOfWords | phase3_trend_scoring.py:115-126 | every kept token is a keyword (two or more Hangul letters not a stopword, or three or more capitals) and the kept tokens are a subsequence of the stripped tokens |
| TrendScoring.KeywordsOfWordsExact | phase3_trend_scoring.py:115-126 | the kept tokens are exactly the keyword tokens among the particle-stripped tokens, in token order, so no keyword token is lost |
| TrendScoring.ExtractKeywords | phase3_trend_scoring.py:67-128 | the loop returns exactly the keyword list of the tag-stripped, split text, and each entry is a keyword |
| TrendScoring.InsideOf | phase3_trend_scoring.py:156-159 | `to_remove` holds only kept keywords strictly contained in the new keyword |
| TrendScoring.IsContained | phase3_trend_scoring.py:147-152 | the flag is set iff some kept keyword strictly contains the current one |
| TrendScoring.AppendShorter | phase3_trend_scoring.py:164-165 | appending a keyword no longer than any kept one and inside none of them keeps the list free of strict substrings |
| TrendScoring.NothingInsideShorter | phase3_trend_scoring.py:156-162 | because keywords come longest first, `to_remove` is always empty |
| TrendScoring.NormalizeStep | phase3_trend_scoring.py:145-165 | one turn of the loop removes nothing and keeps the prefix invariant (skip when contained, append otherwise) |
| TrendScoring.NormalizeKeywords | phase3_trend_scoring.py:131-167 | empty in, empty out; the result has no duplicates, only input keywords, no keyword strictly inside another, and every input keyword is kept or lies inside a kept one |
| TrendScoring.SameMembers | phase3_trend_scoring.py:141 | after the set and the length sort, the kept keywords are input keywords and every input keyword is kept or covered |
| TrendScoring.TimeFreshness | phase3_trend_scoring.py:170-181 | the freshness is one of 1.0, 0.7, 0.4, 0.1 |
| TrendScoring.FreshnessNonIncreasing | phase3_trend_scoring.py:175-181 | older news is never fresher than younger news |
| TrendScoring.ItemFreshness | phase3_trend_scoring.py:288-289 | 0.5 when the date does not parse, else the freshness of the item's age |
| TrendScoring.ExtractDomain | phase3_trend_scoring.py:240-247 | an empty link has the empty domain, and a domain never contains '/' |
| TrendScoring.DedupByLink | phase3_trend_scoring.py:216-222 | the loop keeps exactly the first item of each non-empty link, in order |
| TrendScoring.LinkLoopStep | phase3_trend_scoring.py:218-222 | one turn keeps the item iff its link is non-empty and unseen, and adds the link to the seen set |
| TrendScoring.DedupByTitle | phase3_trend_scoring.py:225-236 | the loop keeps exactly the items whose title is less than 80% similar to every title kept before |
| TrendScoring.IsTitleDuplicate | phase3_trend_scoring.py:228-234 | the inner loop reports a duplicate iff some kept title is at least 80% similar |
| TrendScoring.CapPerDomain | phase3_trend_scoring.py:249-259 | the loop keeps an item while fewer than three kept items share its domain |
| TrendScoring.CapByKey | phase3_trend_scoring.py:254-259 | the same loop for any domain function and cap |
| TrendScoring.CapOne | phase3_trend_scoring.py:255-259 | one turn extends the greedy result and keeps `source_count` equal to the per-domain counts of the kept items |
| TrendScoring.RemoveDuplicateNews | phase3_trend_scoring.py:205-261 | the three loops compute the three greedy stages in order |
| TrendScoring.DedupIsSubsequence | phase3_trend_scoring.py:205-261 | the deduplicated list is the input with items deleted, in input order |
| TrendScoring.LinkStagePairwise | phase3_trend_scoring.py:218-222 | after stage 1 the links are pairwise distinct and non-empty |
| TrendScoring.TitleStagePairwise | phase3_trend_scoring.py:226-236 | after stage 2 every later title is less than 80% similar to every earlier one |
| TrendScoring.DedupLinksDistinct | phase3_trend_scoring.py:218-222 | no two kept items share a link, and items with neither link nor originallink are dropped |
| TrendScoring.DedupTitlesDissimilar | phase3_trend_scoring.py:229-234 | of two kept items the later title is less than 80% similar to the earlier: the earlier wins |
| TrendScoring.DedupDomainCap | phase3_trend_scoring.py:252-259 | at most three kept items share a domain |
| TrendScoring.LinkStageKeepsFirst | phase3_trend_scoring.py:218-222 | the first item carrying a given non-empty link survives stage 1 |
| TrendScoring.AddOccurrenceValid | phase3_trend_scoring.py:292-305 | one counted occurrence keeps the four mappings consistent |
| TrendScoring.AddOccurrenceFreq | phase3_trend_scoring.py:292-305 | one occurrence adds its weight to its own keyword's counter and nothing to any other |
| TrendScoring.AddAllFreq | phase3_trend_scoring.py:292-305 | a keyword list adds the weight times the keyword's number of occurrences |
| TrendScoring.TallyOfValid | phase3_trend_scoring.py:279-305 | the tally of any item list is consistent |
| TrendScoring.TallyFrequency | phase3_trend_scoring.py:279-305 | a keyword's `freq` is three times its title occurrences plus its description occurrences, over all items |
| TrendScoring.Candidate | phase3_trend_scoring.py:336-373 | a row exists only for a counted keyword with frequency at least 3 and some related news; it carries that frequency, the news and source counts, at most three top news and the weighted score |
| TrendScoring.CandidatesPassed | phase3_trend_scoring.py:335-373 | every appended row is the row of its own keyword |
| TrendScoring.TallyKeywords | phase3_trend_scoring.py:292-297 | the loop over one keyword list adds every occurrence at its weight |
| TrendScoring.CountOccurrence | phase3_trend_scoring.py:293-297 | the loop body bumps every counter of one keyword for one item |
| TrendScoring.TallyNews | phase3_trend_scoring.py:279-305 | the loop over the deduplicated items computes the tally of the list |
| TrendScoring.TallyItem | phase3_trend_scoring.py:280-305 | one item adds its title keywords at weight 3 and its description keywords at weight 1 |
| TrendScoring.RankKeywords | phase3_trend_scoring.py:335-373 | the loop over `most_common()` appends the row of each passing keyword in that order |
| TrendScoring.RankNext | phase3_trend_scoring.py:335-373 | one turn appends the keyword's row or nothing |
| TrendScoring.RankOne | phase3_trend_scoring.py:336-373 | the loop body computes the keyword's row or a skip |
| TrendScoring.AnalyzeTrends | phase3_trend_scoring.py:264-385 | the result is sorted by score, every row describes its keyword faithfully over the deduplicated news, and every keyword whose weighted count reaches 3 has a row |
| TrendScoring.AnalyzeRows | phase3_trend_scoring.py:335-376 | the ranked rows are sorted by score and each states its keyword's true frequency and related news |
| TrendScoring.SortedRowsPassed | phase3_trend_scoring.py:376 | sorting by score keeps every row the row of its keyword |
| TrendScoring.AnalyzeComplete | phase3_trend_scoring.py:335-373 | every keyword with weighted count at least 3 gets a row |
| TrendScoring.KeywordReported | phase3_trend_scoring.py:335-347 | in a consistent tally, a keyword counted at least three times has a ranked row |
| TrendScoring.CandidatesContain | phase3_trend_scoring.py:335-373 | a listed keyword that passes the filters has its row among the candidates |
| TrendScoring.AddAllRelated | phase3_trend_scoring.py:292-305 | an item joins the related list of each keyword it carries, once |
| TrendScoring.AddItemRelated | phase3_trend_scoring.py:292-305 | an item joins `news_mapping[kw]` iff it mentions `kw` and is not there yet |
| TrendScoring.TallyRelated | phase3_trend_scoring.py:275-305 | `news_mapping[kw]` is the distinct items mentioning `kw`, in order |
| TrendScoring.TopNewsLatest | phase3_trend_scoring.py:357-361 | the top news are min(3, n) of the related items, newest pubDate first, and no left-out item is newer than a kept one |
| NewsSample.FilterNewsByTime | step1_news_sample.py:99-116 | the loop keeps exactly the items whose date parses and lies in `[start, end]`, in order |
| NewsSample.FilterNewsByTimeExact | step1_news_sample.py:106-115 | the filtered list is a subsequence of the input, and an item is in it iff it is in the input and in the window |
| NewsSample.SampleKeywordsOfWords | step1_news_sample.py:164-170 | every kept token is a sample keyword (two or more Hangul letters not a stopword, or three or more capitals) |
| NewsSample.SampleKeywordsVerbatim | step1_news_sample.py:164-170 | tokens are kept verbatim and in order, and every keyword token is kept |
| NewsSample.ExtractSampleKeywords | step1_news_sample.py:119-172 | the loop returns exactly the keywords of the tag-stripped, split text |
| NewsSample.OccurrenceValid | step1_news_sample.py:188-197 | one counted occurrence keeps the counter, order and mapping consistent |
| NewsSample.OccurrencesValid | step1_news_sample.py:188-197 | a keyword list keeps the tally consistent |
| NewsSample.SampleTallyOfValid | step1_news_sample.py:180-197 | the tally of any item list is consistent |
| NewsSample.OccurrencesFreq | step1_news_sample.py:189-195 | a keyword list adds the weight times the keyword's number of occurrences |
| NewsSample.SampleFrequency | step1_news_sample.py:180-197 | a keyword's count is three times its title occurrences plus its description occurrences |
| NewsSample.OccurrencesRelated | step1_news_sample.py:190-197 | an item joins `mapping[k]` once, when it carries `k` |
| NewsSample.SampleNewsCount | step1_news_sample.py:180-197 | for distinct items, `len(mapping[k])` is the number of items mentioning `k`, all of them input items |
| NewsSample.ReportRow | step1_news_sample.py:203-223 | a row exists iff the count is at least 5 and at least two items are related; it carries the count, the news count and at most three related items, newest first |
| NewsSample.TakeSorted | step1_news_sample.py:214 | `[:3]` of a newest-first list is newest first |
| NewsSample.TakeMultiset | step1_news_sample.py:214 | `[:3]` takes only items of the list |
| NewsSample.ReportRowsPassed | step1_news_sample.py:203-223 | every appended row is the row of one of the listed keywords |
| NewsSample.TallySampleKeywords | step1_news_sample.py:188-197 | the loop over one keyword list adds every occurrence at its weight |
| NewsSample.CountSampleOccurrence | step1_news_sample.py:189-191 | the loop body bumps one keyword's counter and mapping |
| NewsSample.TallySampleNews | step1_news_sample.py:180-197 | the loop over the news computes the tally of the list |
| NewsSample.AnalyzeKeywords | step1_news_sample.py:175-225 | the method computes the ranked rows of the 20 most common keywords |
| NewsSample.ReportTop | step1_news_sample.py:202-223 | the loop over `top_raw` appends the row of each passing keyword in order |
| NewsSample.ReportOne | step1_news_sample.py:204-223 | the loop body computes the keyword's row or a skip |
| NewsSample.SampleRelatedMembers | step1_news_sample.py:180-197 | an item is in `mapping[kw]` iff it is an input item mentioning `kw` |
| NewsSample.Top20Highest | step1_news_sample.py:200 | `most_common(20)` gives min(20, n) counted keywords and no left-out keyword has a higher count than a kept one |
| NewsSample.ReportRowFor | step1_news_sample.py:203-223 | a reported row states its keyword's true weighted count, its number of mentioning items, and newest-first top news taken from them |
| NewsSample.AnalyzeKeywordsRows | step1_news_sample.py:175-225 | every row is for a top-20 keyword and describes it faithfully |
| NewsSample.ReportRowsContain | step1_news_sample.py:203-223 | a listed keyword that passes the filters has its row in the result |
| NewsSample.AnalyzeKeywordsComplete | step1_news_sample.py:199-223 | every top-20 keyword with count at least 5 and at least two mentioning items has a row |
| NewsSample.CollectNews | step1_news_sample.py:246-264 | the loop over the searches collects the windowed hits, keeping the first item of each non-empty link; a failed search adds nothing |
| NewsSample.WindowedHitsStep | step1_news_sample.py:251-257 | a failed search contributes nothing, a successful one its windowed items |
| NewsSample.AppendNewLinks | step1_news_sample.py:258-262 | the inner loop extends the greedy first-per-link list and keeps `seen_links` equal to its links |
| NewsSample.SeenStep | step1_news_sample.py:259-262 | an item is appended iff its link is non-empty and unseen, and then its link is seen |
| NewsSample.CollectedDistinct | step1_news_sample.py:246-264 | the collected items have distinct non-empty links and all come from the windowed hits |
| Briefing.LoadNews | pipeline/ranking_integrated/generate_briefing.py:166-177 | no file gives no articles, a file without `categories` gives none, otherwise the articles of every category block concatenated in order |
| Briefing.FlattenLength | pipeline/ranking_integrated/generate_briefing.py:173-176 | the loaded list is as long as all category blocks together |
| Briefing.FlattenMembers | pipeline/ranking_integrated/generate_briefing.py:175-176 | every article of every block is loaded |
| Briefing.AddFeedLoop | pipeline/ranking_integrated/generate_briefing.py:225-238 | the loop over one feed adds its weight once per occurrence of each keyword |
| Briefing.FuseTrends | pipeline/ranking_integrated/generate_briefing.py:221-238 | the four loops build the fused trend map in insertion order |
| Briefing.AddFeedValid | pipeline/ranking_integrated/generate_briefing.py:225-238 | adding a feed keeps the map's key order consistent with its keys |
| Briefing.ScaledIsProduct | pipeline/ranking_integrated/generate_briefing.py:226 | adding a weight n times adds weight times n |
| Briefing.AddFeedWeight | pipeline/ranking_integrated/generate_briefing.py:226 | a feed raises a keyword's weight by the feed weight times its occurrences |
| Briefing.AddFeedKeys | pipeline/ranking_integrated/generate_briefing.py:226 | the map's keys are the distinct keywords in first-insertion order |
| Briefing.FusedWeight | pipeline/ranking_integrated/generate_briefing.py:223-238 | a keyword weighs 1.5 per Google hit, 1.2 per Naver hit, 1.8 per rising hit and 1.5 per new hit |
| Briefing.FusedKeys | pipeline/ranking_integrated/generate_briefing.py:221-238 | the fused map's keys are the distinct keywords of the four feeds in order of first appearance |
| Briefing.DedupConcat | pipeline/ranking_integrated/generate_briefing.py:226 | inserting keys feed by feed orders them as inserting all feeds at once |
| Briefing.ScoreArticle | pipeline/ranking_integrated/generate_briefing.py:192-202 | the inner loop scores twice the weight for a title hit and the weight for a content-only hit, and lists the matched keywords in map order |
| Briefing.MatchTrends | pipeline/ranking_integrated/generate_briefing.py:179-213 | the method computes the matched rows, sorted by score, highest first |
| Briefing.MatchAllRows | pipeline/ranking_integrated/generate_briefing.py:189-209 | every row is an input article with a positive score and its matched keywords, and every positively scored article has a row |
| Briefing.MatchSpecRows | pipeline/ranking_integrated/generate_briefing.py:204-212 | after the sort, still exactly the positively scored articles, each with its score and keywords |
| Briefing.MatchedKeywordsShape | pipeline/ranking_integrated/generate_briefing.py:193-204 | the matched keywords are distinct and in map order, the score is never negative, and a positive score has a matched keyword |
| RunBatch.DigitRun | pipeline/ranking_integrated/run_batch.py:39 | the length of the leading digit run: digits up to it and a non-digit right after |
| RunBatch.FirstNumber | pipeline/ranking_integrated/run_batch.py:39 | `re.search(r'(\d+)')` finds no number exactly when the text has no digit |
| RunBatch.RemoveMeridiem | pipeline/ranking_integrated/run_batch.py:60 | removing 오전/오후 and the following spaces only deletes characters: the result is a subsequence of the text, and a text containing neither marker comes back unchanged |
| RunBatch.RStripDots | pipeline/ranking_integrated/run_batch.py:62 | `rstrip('.')` gives a prefix that does not end in a dot, and everything cut off after it is dots |
| RunBatch.AddHalfDay | pipeline/ranking_integrated/run_batch.py:67-68 | a morning-hour time plus `timedelta(hours=12)` |
| RunBatch.SubHalfDay | pipeline/ranking_integrated/run_batch.py:69-70 | a 12 o'clock time minus `timedelta(hours=12)` |
| RunBatch.RelativeMinutes | pipeline/ranking_integrated/run_batch.py:37-40 | a string with 분 and 전 and a first number n parses to now minus n minutes |
| RunBatch.RelativeHours | pipeline/ranking_integrated/run_batch.py:43-46 | without 분 but with 시간 and 전, now minus n hours |
| RunBatch.RelativeDays | pipeline/ranking_integrated/run_batch.py:49-52 | without 분 or 시간 but with 일 and 전, now minus n days |
| RunBatch.MeridiemHour | pipeline/ranking_integrated/run_batch.py:67-70 | an afternoon hour below 12 gains 12 hours and a morning 12 o'clock becomes hour 0 |
| RunBatch.DottedHour | pipeline/ranking_integrated/run_batch.py:57-72 | a dotted date is shifted by +12 hours for 오후 before noon, by -12 hours for 오전 12, and otherwise kept |
| RunBatch.Unparseable | pipeline/ranking_integrated/run_batch.py:83 | a string no branch accepts parses to `datetime.min` |
| RunBatch.FilterByDate | pipeline/ranking_integrated/run_batch.py:118-144 | the loop keeps the items whose date lies in `[start, end]`, each stamped with that date |
| RunBatch.ReadDate | pipeline/ranking_integrated/run_batch.py:121-136 | a news item's date is its parsed `published_time`, a video's its ISO `fetched_at`, and `datetime.min` when missing or invalid |
| RunBatch.FilterByDateExact | pipeline/ranking_integrated/run_batch.py:139-142 | every kept item carries a timestamp inside the period, and exactly the in-period items are kept, in input order |
| RunBatch.CategorizeItem | pipeline/ranking_integrated/run_batch.py:146-168 | Money iff a money keyword occurs in the lowercased text, Economy iff none does but an economy keyword does, Society likewise after both, otherwise Trend |
| RunBatch.GdpNeverMatches | pipeline/ranking_integrated/run_batch.py:161 | the keyword "GDP" can never occur in the lowercased text, so the economy test reduces to its other five keywords |
| RunBatch.NoUpperNoG | pipeline/ranking_integrated/run_batch.py:156-161 | a text without capitals does not contain "GDP" |
| RunBatch.ScoreText | pipeline/ranking_integrated/run_batch.py:234-240 | the inner loop sums the weights of the keywords found in the lowercased text (times 1.5 for a video) and lists them in map order |
| RunBatch.ScoreItems | pipeline/ranking_integrated/run_batch.py:233-263 | the loop scores every item and stamps its score, matched keywords and type |
| RunBatch.ScoreIsMatchedSum | pipeline/ranking_integrated/run_batch.py:237-240 | the score is the sum of the gains of exactly the matched keywords |
| RunBatch.ScoreNonNegative | pipeline/ranking_integrated/run_batch.py:237-240 | with non-negative weights the score is non-negative |
| RunBatch.TrendsSummary | pipeline/ranking_integrated/run_batch.py:269 | min(10, n) trend keywords, heaviest first, and no keyword left out weighs more than one kept |
| RunBatch.TrendsTop | pipeline/ranking_integrated/run_batch.py:269 | the first ten keys of the descending weight sort are min(10, n) keys of the map, heaviest first, and none left out outweighs a kept one |
| RunBatch.AssembleReport | pipeline/ranking_integrated/run_batch.py:266-283 | the report holds the score-sorted items split into the four categories |
| RunBatch.BucketsPartition | pipeline/ranking_integrated/run_batch.py:281-283 | the four buckets together are as long as all items |
| RunBatch.ReportShape | pipeline/ranking_integrated/run_batch.py:279-283 | the bucket lengths add up to the news and video counts, every bucket is sorted by score, and the money and economy buckets hold only their category |
| RunBatch.ReportBuckets | pipeline/ranking_integrated/run_batch.py:230-283 | the four buckets hold every scored item exactly once, and a bucket holds an item iff CategorizeItem assigns its category |
| RunBatch.SortedBucketMembers | pipeline/ranking_integrated/run_batch.py:279-283 | a bucket of the sorted items holds exactly the scored items of its category |
| RunBatch.BucketMembers | pipeline/ranking_integrated/run_batch.py:281-283 | a bucket holds exactly the items of its category |
| Clusterer.NewSettings | pipeline/reconstruction/clusterer.py:30-38 | the maximum cluster size defaults to 10; the targets are the configured ones unless missing, empty or all floats, in which case the default targets |
| Clusterer.TargetCount | pipeline/reconstruction/clusterer.py:64-71 | never more clusters than articles; an unknown category uses bounds 3 and 6, a bounds target the floor of the mean of min and max (3 and 6 where missing) |
| Clusterer.DefaultTargetCounts | pipeline/reconstruction/clusterer.py:19-24 | with the default targets and seven or more articles: Economy 6, Money 4, Society 3, Trend 5, any other category 4 |
| Clusterer.Labels | pipeline/reconstruction/clusterer.py:139 | one cluster label per article |
| Clusterer.GroupedPartition | pipeline/reconstruction/clusterer.py:145-152 | grouping by label uses every article exactly once, makes no empty group and orders the groups by size, largest first |
| Clusterer.ClusteredFallbacks | pipeline/reconstruction/clusterer.py:119-142 | a failed vectorisation, a target not below the article count or a failed clustering gives one cluster per article |
| Clusterer.ClusteredSingle | pipeline/reconstruction/clusterer.py:125-126 | a single article gives one cluster holding it |
| Clusterer.SingletonsSorted | pipeline/reconstruction/clusterer.py:123 | the one-per-article fallback is size-sorted |
| Clusterer.ClusteredPartition | pipeline/reconstruction/clusterer.py:100-152 | `_cluster_articles` partitions its input into non-empty clusters sorted by size |
| Clusterer.AddToGroup | pipeline/reconstruction/clusterer.py:146-147 | one `setdefault(...).append` step extends the label order and each label's group by one article |
| Clusterer.GroupLabels | pipeline/reconstruction/clusterer.py:145-147 | the loop groups the articles by label in order of first label |
| Clusterer.TextsOf | pipeline/reconstruction/clusterer.py:104-108 | the loop builds the title-plus-first-300-characters text of every article |
| Clusterer.ClusterArticles | pipeline/reconstruction/clusterer.py:100-152 | the clusters are exactly `Clustered`'s, with the vectoriser and clustering as an oracle |
| Clusterer.SplitOnePartition | pipeline/reconstruction/clusterer.py:77-83 | splitting one cluster keeps its articles exactly and makes no empty part |
| Clusterer.SplitAllFails | pipeline/reconstruction/clusterer.py:78-79 | splitting fails exactly when the maximum cluster size is 0 and some cluster is non-empty (division by zero) |
| Clusterer.SplitAllPartition | pipeline/reconstruction/clusterer.py:76-83 | splitting all clusters keeps every article exactly once and makes no empty cluster |
| Clusterer.SplitOversized | pipeline/reconstruction/clusterer.py:76-83 | the loop computes `SplitAll`'s split of every oversized cluster, or its failure |
| Clusterer.RepIndex | pipeline/reconstruction/clusterer.py:154-156 | the representative has the highest trend score, and it is the first one with that score |
| Clusterer.MarkAll | pipeline/reconstruction/clusterer.py:86-89 | marking keeps the number of clusters |
| Clusterer.MarkAllAt | pipeline/reconstruction/clusterer.py:86-89 | each cluster is marked on its own |
| Clusterer.Unmark | pipeline/reconstruction/clusterer.py:88-89 | dropping the marks keeps the number of clusters |
| Clusterer.MarkAllFlags | pipeline/reconstruction/clusterer.py:86-89 | marking changes no article but the flag, and the flag is true exactly on the representative |
| Clusterer.MarkRepresentatives | pipeline/reconstruction/clusterer.py:86-89 | the nested loop sets the flags `MarkAll` gives |
| Clusterer.SmallCategories | pipeline/reconstruction/clusterer.py:54-61 | an empty category gets no clusters, a one-article category one unmarked cluster |
| Clusterer.CategoryFails | pipeline/reconstruction/clusterer.py:58-80 | a category fails exactly when it has two or more articles and the maximum cluster size is 0 |
| Clusterer.CategoryPartition | pipeline/reconstruction/clusterer.py:53-91 | a category's clusters hold its articles exactly once, none is empty, and their sizes add up to the article count |
| Clusterer.CategoryRepresentatives | pipeline/reconstruction/clusterer.py:85-89 | with two or more articles every article is flagged, and exactly the representative of each cluster is flagged true |
| Clusterer.ClusterCategory | pipeline/reconstruction/clusterer.py:54-91 | the category's clusters are exactly `CategoryClusters`' |
| Clusterer.ClusterByCategory | pipeline/reconstruction/clusterer.py:40-98 | the call fails iff some category fails; otherwise the result has the same categories, each with its own clusters |
| AiRewriter.Pow2 | pipeline/reconstruction/ai_rewriter.py:121 | `2 ** attempt` is at least 1 |
| AiRewriter.Backoff | pipeline/reconstruction/ai_rewriter.py:121 | the wait is `base * 2 ** attempt` capped at 30, negative exactly when the base is |
| AiRewriter.FirstAnswer | pipeline/reconstruction/ai_rewriter.py:115-119 | the first attempt that answers, all earlier ones having failed, or none when all fail |
| AiRewriter.NoFirstAnswer | pipeline/reconstruction/ai_rewriter.py:115-125 | when every attempt fails there is no answer |
| AiRewriter.FirstAnswerAt | pipeline/reconstruction/ai_rewriter.py:115-119 | the answer is the attempt k that succeeds after k failures |
| AiRewriter.CallCountAppend | pipeline/reconstruction/ai_rewriter.py:114-140 | calls in a concatenated trace add up |
| AiRewriter.CallCountOne | pipeline/reconstruction/ai_rewriter.py:117 | one event is one call of its provider or none |
| AiRewriter.FailEventsCalls | pipeline/reconstruction/ai_rewriter.py:115-125 | k failed attempts make k calls of that provider and none of the other |
| AiRewriter.TryProviderCalls | pipeline/reconstruction/ai_rewriter.py:115-125 | one provider's phase calls it once per counted success or failure, at most `max_retries` times, and never calls the other |
| AiRewriter.RouteCalls | pipeline/reconstruction/ai_rewriter.py:110-142 | each provider is called exactly as often as its success and failure counters grow, at most `max_retries` times |
| AiRewriter.PrimaryAnswers | pipeline/reconstruction/ai_rewriter.py:114-125 | when the primary first answers at attempt k, that is the answer, k failures and one success are counted, and the fallback is never called; with a negative delay base and k > 0 the first wait raises ValueError instead, after one counted failure |
| AiRewriter.FallbackRescues | pipeline/reconstruction/ai_rewriter.py:114-134 | when every primary attempt fails and the fallback answers first time, its answer is returned with `max_retries` primary failures and one fallback success; with a retry left and a negative delay base, the primary's first wait raises ValueError and the fallback is never called |
| AiRewriter.RouteSleepRaises | pipeline/reconstruction/ai_rewriter.py:114-140 | `time.sleep` raises ValueError out of `generate` exactly when a retry is left, the delay base is negative and the first configured provider fails its first attempt |
| AiRewriter.RouteRaises | pipeline/reconstruction/ai_rewriter.py:110-142 | no answer exactly when the router raises: ValueError from a negative wait, or RuntimeError when every attempt of every configured provider fails |
| AiRewriter.FailEventsCallShape | pipeline/reconstruction/ai_rewriter.py:115-125 | failed attempts call their provider in attempt order, and the last attempt has no sleep after it |
| AiRewriter.FailEventsSleepShape | pipeline/reconstruction/ai_rewriter.py:121-125 | every sleep follows a failed call that is not the last attempt and lasts that attempt's backoff |
| AiRewriter.FailEventsWaits | pipeline/reconstruction/ai_rewriter.py:124-125 | every failed call before the last attempt is followed by its backoff sleep |
| AiRewriter.WaitsAppend | pipeline/reconstruction/ai_rewriter.py:114-140 | the primary and fallback phases together keep the sleep placement |
| AiRewriter.PhaseWaits | pipeline/reconstruction/ai_rewriter.py:115-125 | one provider's phase keeps the sleep placement and, when it fails without raising, ends with the call of the last attempt |
| AiRewriter.PhaseWaitsNonNegative | pipeline/reconstruction/ai_rewriter.py:121-125 | no sleep a phase records is negative: a negative one raises instead |
| AiRewriter.RouteWaits | pipeline/reconstruction/ai_rewriter.py:110-142 | in the whole `generate` trace sleeps sit exactly after failed non-final attempts, with the capped backoff, and none is negative |
| AiRewriter.PhaseAnswered | pipeline/reconstruction/ai_rewriter.py:115-125 | a phase answered at attempt k counts one success and k failures and traces k failures then the answering call; with a negative base and k > 0 it raises ValueError after one failure |
| AiRewriter.PhaseExhausted | pipeline/reconstruction/ai_rewriter.py:115-125 | a phase with no answer counts `max_retries` failures; with a retry left and a negative base it raises ValueError after the first |
| AiRewriter.LLMRouter.constructor | pipeline/reconstruction/ai_rewriter.py:95-108 | stores the providers, retries and delay base and zeroes the four counters |
| AiRewriter.LLMRouter.RunProvider | pipeline/reconstruction/ai_rewriter.py:115-125 | the retry loop's phase is `TryProvider`'s, including the ValueError of a negative wait, and its counters are added to the stats |
| AiRewriter.LLMRouter.Generate | pipeline/reconstruction/ai_rewriter.py:110-142 | returns the routed answer, whatever JSON value the provider decoded (None when it raises), whether a negative wait raised ValueError, the call and sleep trace, and the stats grown by the routed counts |
| AiRewriter.LLMRouter.GetStats | pipeline/reconstruction/ai_rewriter.py:144-145 | a copy of the counters |
| AiRewriter.Client | pipeline/reconstruction/ai_rewriter.py:317-334 | a client exists for a type iff it is "gemini" or "openai" and its construction succeeds |
| AiRewriter.CreateLlmRouter | pipeline/reconstruction/ai_rewriter.py:304-344 | a fresh router whose providers are the constructed clients of the configured types, with retries defaulting to 3 and delay base to 1, and zeroed counters |
| AiRewriter.DefaultProviders | pipeline/reconstruction/ai_rewriter.py:307-308 | without configuration, Gemini is the primary and OpenAI the fallback, whichever of them constructs |
| AiRewriter.Blocks | pipeline/reconstruction/ai_rewriter.py:150-159 | one block per article, numbered from 1 |
| AiRewriter.ArticleBlockParts | pipeline/reconstruction/ai_rewriter.py:152-158 | a block starts with its number header and contains the content cut to the character limit |
| AiRewriter.ArticlesBlockParts | pipeline/reconstruction/ai_rewriter.py:148-160 | the joined text contains every article's block, with its number and at most the limit of its content |
| AiRewriter.UserPromptShape | pipeline/reconstruction/ai_rewriter.py:201-215 | one article gives the single prompt with at most 2000 characters of its content, several give the merge prompt with their count and the article blocks |
| AiRewriter.HashtagsOf | pipeline/reconstruction/ai_rewriter.py:250 | one to five hashtags: the placeholder exactly when there are no matched keywords, otherwise the first min(5, n) of the n matched keywords |
| AiRewriter.Representative | pipeline/reconstruction/ai_rewriter.py:239 | an article of the cluster with the highest trend score |
| AiRewriter.Default | pipeline/reconstruction/ai_rewriter.py:237-251 | a missing title is at most 30 characters, a summary 200, a content 600, the bullets three items and the hashtags one to five |
| AiRewriter.Backfilled | pipeline/reconstruction/ai_rewriter.py:222-226 | the answer gains exactly the missing required fields, each at its default, and keeps every field it had |
| AiRewriter.Backfill | pipeline/reconstruction/ai_rewriter.py:223-226 | the loop over the required fields computes the backfilled answer |
| AiRewriter.StripKeeps | pipeline/reconstruction/ai_rewriter.py:259 | stripping adds no character |
| AiRewriter.SplitPartsShape | pipeline/reconstruction/ai_rewriter.py:259 | the kept sentences are non-empty, stripped and contain no '.' |
| AiRewriter.SentencesShape | pipeline/reconstruction/ai_rewriter.py:259 | the sentences of any content are non-empty, stripped and dot-free |
| AiRewriter.Bullet | pipeline/reconstruction/ai_rewriter.py:265-267 | a bullet is the sentence cut to 40 characters, or its placeholder |
| AiRewriter.FallbackBullets | pipeline/reconstruction/ai_rewriter.py:264-268 | always three bullets |
| AiRewriter.FallbackBulletsShape | pipeline/reconstruction/ai_rewriter.py:264-268 | the bullets are the first three sentences cut to 40 characters, each missing one replaced by its own placeholder |
| AiRewriter.FallbackSummaryShape | pipeline/reconstruction/ai_rewriter.py:263 | two or more sentences give the first two joined with ". " and a final dot, otherwise the content cut to 200 |
| AiRewriter.FallbackContentShape | pipeline/reconstruction/ai_rewriter.py:269 | six or more sentences give a text containing the first six, otherwise the content cut to 600 |
| AiRewriter.FallbackRecord | pipeline/reconstruction/ai_rewriter.py:261-273 | the fallback record has all required fields with the given values, the persona and the `_fallback` flag set |
| AiRewriter.FallbackArticle | pipeline/reconstruction/ai_rewriter.py:253-273 | the fallback article has every required field, the category's persona, the flag set, one to five hashtags and three bullets |
| AiRewriter.ClusterReplyCases | pipeline/reconstruction/ai_rewriter.py:218-233 | the router's ValueError passes through; otherwise a dict comes back exactly when the router raised RuntimeError or answered a JSON object; any other answer is passed on unchanged, and only when it is a list or string, or raises TypeError; null, a boolean, a number, an empty list and an empty string always raise |
| AiRewriter.MentionsAll | pipeline/reconstruction/ai_rewriter.py:223-230 | true exactly when a list or string answer contains every required field name and "persona", so that no item assignment is attempted on it |
| AiRewriter.ReconstructedFields | pipeline/reconstruction/ai_rewriter.py:195-235 | the reconstruction always has every required field and a persona; an answer's own fields are kept, and the persona is defaulted only when missing; a failed route gives the fallback article |
| AiRewriter.JobsLength | pipeline/reconstruction/ai_rewriter.py:278 | there are `total_clusters` jobs |
| AiRewriter.JobAt | pipeline/reconstruction/ai_rewriter.py:281-282 | the job at the flattened position is that category's cluster, in the nested loop order, and carries that position |
| AiRewriter.JobsStep | pipeline/reconstruction/ai_rewriter.py:281-282 | one category adds its clusters to the job list |
| AiRewriter.TotalClustersPrefix | pipeline/reconstruction/ai_rewriter.py:278 | a prefix of the categories has no more clusters than all |
| AiRewriter.PaceTraceShape | pipeline/reconstruction/ai_rewriter.py:283-296 | each reconstruction is followed by a pause of the request interval, except the last |
| AiRewriter.Pace | pipeline/reconstruction/ai_rewriter.py:284-296 | the progress step and the pause extend the trace, except that a negative interval before another cluster raises ValueError with no pause |
| AiRewriter.Annotated | pipeline/reconstruction/ai_rewriter.py:287-291 | the result gains the category, source count, source links (one per article, "" when missing) and the source articles, and keeps every other field |
| AiRewriter.AIRewriter.constructor | pipeline/reconstruction/ai_rewriter.py:175-179 | stores the router, the request interval defaulting to 0.5 and the persona map defaulting to the built-in one |
| AiRewriter.AIRewriter.ReconstructCluster | pipeline/reconstruction/ai_rewriter.py:195-235 | an empty cluster gives None and calls nothing; otherwise the router's trace, the stats grown by its counts, and the reply to its outcome: the completed object, the fallback article when the router raised RuntimeError, a list or string passed on, TypeError, or the router's ValueError |
| AiRewriter.AIRewriter.AbortsIffNoDict | pipeline/reconstruction/ai_rewriter.py:218-233 | a cluster with articles ends the run exactly when the reply to its outcome is no dict, that is, exactly when the router raised ValueError or answered a JSON value other than an object |
| AiRewriter.AIRewriter.ResultsInOrder | pipeline/reconstruction/ai_rewriter.py:281-292 | one result per non-empty cluster, in job order |
| AiRewriter.AIRewriter.ResultFields | pipeline/reconstruction/ai_rewriter.py:286-292 | each result of a job that does not end the run carries its job's category, source count, links and articles as well as all required fields and a persona |
| AiRewriter.AIRewriter.ProcessJob | pipeline/reconstruction/ai_rewriter.py:286-292 | one job ends the run exactly when its routing raised ValueError or answered no JSON object; otherwise it appends its annotated result unless its cluster is empty; its counts are added to the stats either way |
| AiRewriter.AIRewriter.Visit | pipeline/reconstruction/ai_rewriter.py:283-296 | one turn of the nested loop keeps the results, stats and pacing trace equal to those of the jobs done; a job that ends the run, or whose negative pause raises, has its counts added and no pause after it |
| AiRewriter.AIRewriter.RunJobs | pipeline/reconstruction/ai_rewriter.py:281-296 | the nested loop either visits every job, none of which or of whose pauses ends the run, or stops at the first job that does, with the results, counts and pacing of the jobs visited |
| AiRewriter.AIRewriter.ReconstructAll | pipeline/reconstruction/ai_rewriter.py:275-301 | a result list exactly when no cluster with articles gets a ValueError or a JSON answer other than an object from the router, and no pause is negative; then the results of all non-empty clusters in order, the stats grown by every job's counts and a pause between consecutive clusters; otherwise the run stops at the first cluster that raises or whose pause raises, with the counts of the clusters up to it and no pause after it; a negative interval with two clusters or more stops at the first |
| ImageGenerator.TranslateAgreesWithKr | pipeline/reconstruction/image_generator.py:18-34 | an English category and its Korean name translate to the same prompt phrase, never the "news" default |
| ImageGenerator.TagsMention | pipeline/reconstruction/image_generator.py:72 | no hashtags give the empty keywords text, otherwise each of the first three hashtags appears in it |
| ImageGenerator.PromptMentions | pipeline/reconstruction/image_generator.py:67-81 | the prompt contains the category phrase, the title and the keywords |
| ImageGenerator.ThumbUrlInjective | pipeline/reconstruction/image_generator.py:104-107 | within one date and category, different indices give different URLs |
| ImageGenerator.IndexOrder | pipeline/reconstruction/image_generator.py:129-132 | per category the index starts at 1, grows along the list, and grows by exactly 1 between consecutive articles of the category |
| ImageGenerator.IndexFirst | pipeline/reconstruction/image_generator.py:131-132 | the first article of a category gets index 1 |
| ImageGenerator.CounterStep | pipeline/reconstruction/image_generator.py:130-132 | the counter update gives the article's index and keeps the counters equal to the per-category counts so far |
| ImageGenerator.ThumbnailGenerator.constructor | pipeline/reconstruction/image_generator.py:38-54 | the model defaults to "gemini-2.5-flash-image", the interval to 1.0 and the default images to none, and the date is today's |
| ImageGenerator.ThumbnailGenerator.ThumbnailedAt | pipeline/reconstruction/image_generator.py:129-144 | each article keeps its fields and gains a URL: the saved thumbnail of its category and index, or else the default image of its Korean category name, or "" |
| ImageGenerator.ThumbnailGenerator.SharedKrNameCollision | pipeline/reconstruction/image_generator.py:90-131 | "Economy" and "경제" keep separate counters but share the prefix 경제, so their first articles both get the file 경제_1 |
| ImageGenerator.ThumbnailGenerator.DistinctFiles | pipeline/reconstruction/image_generator.py:104-107 | two saved thumbnails of the same category never share a file |
| ImageGenerator.ThumbnailGenerator.GenerateAll | pipeline/reconstruction/image_generator.py:117-151 | every article gains its URL in place, successes and fallbacks add up to the article count, and the loop pauses once per article when the interval is positive |
| DbLoader.PressNamesIn | pipeline/reconstruction/db_loader.py:63-65 | only non-empty press names are collected |
| DbLoader.InsertUniqueAscending | pipeline/reconstruction/db_loader.py:63 | inserting a name into an ascending list without duplicates keeps it ascending and adds exactly that name |
| DbLoader.SortedUniqueSpec | pipeline/reconstruction/db_loader.py:63 | `sorted(set(...))` is ascending with exactly the input's members |
| DbLoader.AscendingNoDup | pipeline/reconstruction/db_loader.py:63 | an ascending list is strictly increasing and has no duplicates |
| DbLoader.PressNamesMembers | pipeline/reconstruction/db_loader.py:63-65 | a name is collected iff some source article has it as a non-empty press string |
| DbLoader.SourceNameSorted | pipeline/reconstruction/db_loader.py:62-65 | the `source_name` column is the distinct non-empty press names, ascending, joined with ", " |
| DbLoader.CategoryColumn | pipeline/reconstruction/db_loader.py:68-71 | a missing category gives "", a mapped one its Korean name, any other value passes through |
| DbLoader.LinkAndCountColumns | pipeline/reconstruction/db_loader.py:80-83 | the source URL is the first source link or "", the source count defaults to 1 and the image URL to "" |
| DbLoader.RowFails | pipeline/reconstruction/db_loader.py:60-85 | building the row raises iff a required field is missing, the source articles are malformed, the category is an array or object, or the first source link is missing |
| DbLoader.StripPrivate | pipeline/reconstruction/db_loader.py:102 | exactly the keys not starting with "_" are kept, with their values |
| DbLoader.StripPrivateStable | pipeline/reconstruction/db_loader.py:102 | stripping twice is stripping once, and a stripped article builds the same row except for the source names |
| DbLoader.StripKeeps | pipeline/reconstruction/db_loader.py:102 | a public key reads the same after stripping |
| DbLoader.FallbackData | pipeline/reconstruction/db_loader.py:100-103 | the loop strips every article |
| DbLoader.Run | pipeline/reconstruction/db_loader.py:59-91 | unless an error escapes the loop, inserted plus failed is the number of articles tried |
| DbLoader.RunCounts | pipeline/reconstruction/db_loader.py:59-91 | savepoints change no counter, and the inserted count is the number of statements the server ran |
| DbLoader.EscapeStays | pipeline/reconstruction/db_loader.py:87-96 | once an error escapes the loop, nothing further happens |
| DbLoader.SavepointsKeepRows | pipeline/reconstruction/db_loader.py:73-91 | with a savepoint per insert, the open transaction holds exactly the rows written |
| DbLoader.StepKeepsSuffix | pipeline/reconstruction/db_loader.py:73-90 | one insert keeps the as-written pending rows a suffix of the savepoint ones |
| DbLoader.RollbackKeepsSuffix | pipeline/reconstruction/db_loader.py:89 | as written, the pending rows are only a suffix of the rows written: the rollback throws away earlier ones |
| DbLoader.NoFailureSameRows | pipeline/reconstruction/db_loader.py:59-91 | when no insert fails, both versions hold the same rows |
| DbLoader.Connection.constructor | pipeline/reconstruction/db_loader.py:53 | a fresh open connection over the table, with no pending rows |
| DbLoader.Connection.Execute | pipeline/reconstruction/db_loader.py:73-85 | a statement that is not refused succeeds; a written row joins the open transaction and nothing else changes |
| DbLoader.Connection.Rollback | pipeline/reconstruction/db_loader.py:89 | the whole open transaction is discarded, committed rows stay |
| DbLoader.Connection.Savepoint | pipeline/reconstruction/db_loader.py:73-89 | the savepoint marks the current pending rows |
| DbLoader.Connection.RollbackToSavepoint | pipeline/reconstruction/db_loader.py:89 | only the rows after the savepoint are discarded |
| DbLoader.Connection.Commit | pipeline/reconstruction/db_loader.py:93 | a successful commit appends the pending rows to the table and empties the transaction; a failed one changes nothing |
| DbLoader.Connection.Close | pipeline/reconstruction/db_loader.py:107-109 | closing discards the open transaction and keeps the table |
| DbLoader.Attempts | pipeline/reconstruction/db_loader.py:59-85 | one insert attempt per article |
| DbLoader.OutcomeAfterRun | pipeline/reconstruction/db_loader.py:52-106 | an escaped error or a failed commit saves the stripped articles as JSON, otherwise the counters are reported |
| DbLoader.AttemptsAt | pipeline/reconstruction/db_loader.py:59-85 | the k-th attempt is built from the k-th article |
| DbLoader.InsertArticle | pipeline/reconstruction/db_loader.py:60-91 | one loop turn is one `Step` of the run: raised iff an error escapes, otherwise one counter grows and the pending rows are the connection's |
| DbLoader.InsertAll | pipeline/reconstruction/db_loader.py:59-91 | the loop's counters and pending rows are `Run`'s over all articles, and it commits nothing |
| DbLoader.LoadToDb | pipeline/reconstruction/db_loader.py:32-109 | reports `LoadOutcome`, appends exactly the committed rows to the table and leaves no transaction open |
| DbLoader.LoadedAccountsAll | pipeline/reconstruction/db_loader.py:86-94 | a reported load accounts for every article, with inserted the number of statements run |
| DbLoader.FallbackSavesAll | pipeline/reconstruction/db_loader.py:96-106 | a failed connection or commit saves every article without its private keys and commits nothing |
| DbLoader.SavepointsCommitWritten | pipeline/reconstruction/db_loader.py:73-93 | with a savepoint per insert, the committed rows are exactly the rows written |
| DbLoader.RollbackLosesRows | pipeline/reconstruction/db_loader.py:86-94 | one good article followed by one that fails: the run reports one inserted, one failed, yet commits nothing; savepoints would commit the good row |
| NewsCrawler.H2GuardRedundant | pipeline/crawling_naver_news/news_crawler.py:39 | the `not line.startswith('###')` test excludes nothing: a `## ` line has a space where `###` has a `#` |
| NewsCrawler.ClassifyUrl | pipeline/crawling_naver_news/news_crawler.py:48-53 | a line is a section URL exactly when it starts with the Naver news prefix, and the URL is the whole line |
| NewsCrawler.UrlNotHeading | pipeline/crawling_naver_news/news_crawler.py:39-48 | a URL line is never taken for a heading |
| NewsCrawler.Lines | pipeline/crawling_naver_news/news_crawler.py:31 | splitting the stripped content gives at least one line |
| NewsCrawler.Kinds | pipeline/crawling_naver_news/news_crawler.py:35-36 | every line is stripped and classified, one kind per line |
| NewsCrawler.ReadAll | pipeline/crawling_naver_news/news_crawler.py:35-36 | one kind per line |
| NewsCrawler.ReadAllAt | pipeline/crawling_naver_news/news_crawler.py:35-36 | each line is read on its own |
| NewsCrawler.SectionsOf | pipeline/crawling_naver_news/news_crawler.py:35-53 | never more sections than lines read |
| NewsCrawler.ParseCrawlingMd | pipeline/crawling_naver_news/news_crawler.py:24-55 | the sections are exactly `SectionsOf` the content's classified lines |
| NewsCrawler.ParseLines | pipeline/crawling_naver_news/news_crawler.py:35-53 | the loop computes the sections of the lines read |
| NewsCrawler.Advance | pipeline/crawling_naver_news/news_crawler.py:39-53 | an H2 sets the main category and clears the sub-category, an H3 sets the sub-category, a URL appends a section with the headings in force |
| NewsCrawler.ParseStep | pipeline/crawling_naver_news/news_crawler.py:35-53 | one line extends the sections and headings as the loop body does |
| NewsCrawler.ReadLine | pipeline/crawling_naver_news/news_crawler.py:36-48 | the line is stripped and classified |
| NewsCrawler.SectionsFromUrls | pipeline/crawling_naver_news/news_crawler.py:48-53 | every section URL is one of the URL lines read |
| NewsCrawler.SectionUrls | pipeline/crawling_naver_news/news_crawler.py:31-53 | every section URL starts with the Naver prefix and is a line of the file |
| NewsCrawler.OneSectionPerUrl | pipeline/crawling_naver_news/news_crawler.py:48-53 | there is exactly one section per URL line |
| NewsCrawler.HeadingsUpdate | pipeline/crawling_naver_news/news_crawler.py:39-45 | an H3 changes only the sub-category, an H2 sets the main category and clears the sub-category, other lines change neither |
| NewsCrawler.HeadingsPersist | pipeline/crawling_naver_news/news_crawler.py:32-45 | headings stay in force until the next heading |
| NewsCrawler.NoHeadingNoMain | pipeline/crawling_naver_news/news_crawler.py:32-33 | sections before the first H2 have the empty main category |
| YoutubeCrawler.FirstConfigLine | pipeline/crawling_youtube/youtube_crawler.py:53-55 | the first line whose stripped text starts with `categories:`, or none |
| YoutubeCrawler.YamlLines | pipeline/crawling_youtube/youtube_crawler.py:50-57 | the kept lines are the suffix starting at the first `categories:` line, and none when there is no such line |
| YoutubeCrawler.YamlStep | pipeline/crawling_youtube/youtube_crawler.py:53-57 | one turn of the loop sets the flag at the first config line and keeps every line from there |
| YoutubeCrawler.LoadConfigText | pipeline/crawling_youtube/youtube_crawler.py:44-59 | the text handed to the YAML parser is the kept lines joined with newlines |
| YoutubeCrawler.DigitRunEnd | pipeline/crawling_youtube/youtube_crawler.py:202 | the end of a run of digits |
| YoutubeCrawler.SpaceRunEnd | pipeline/crawling_youtube/youtube_crawler.py:202 | the end of a run of spaces |
| YoutubeCrawler.FracEnd | pipeline/crawling_youtube/youtube_crawler.py:202 | the optional `\.\d+` part: a dot and at least one digit, taken greedily |
| YoutubeCrawler.UnitAt | pipeline/crawling_youtube/youtube_crawler.py:202 | a match at a position has leading digits, optional fraction digits and the unit after optional spaces; a non-digit position never matches |
| YoutubeCrawler.SearchUnit | pipeline/crawling_youtube/youtube_crawler.py:202 | `re.search` finds the leftmost matching position, or none |
| YoutubeCrawler.SearchMatch | pipeline/crawling_youtube/youtube_crawler.py:202-203 | a match exists iff some position matches |
| YoutubeCrawler.ScaledBounds | pipeline/crawling_youtube/youtube_crawler.py:204 | `int(float(x) * unit)` is at least the whole part times the unit, and exactly that without a fraction |
| YoutubeCrawler.FirstDigit | pipeline/crawling_youtube/youtube_crawler.py:210 | the first digit of the text, or none |
| YoutubeCrawler.GroupEnd | pipeline/crawling_youtube/youtube_crawler.py:210 | `\d+(?:,\d+)*` extends over digits and commas followed by a digit, ending on a digit |
| YoutubeCrawler.NoCommas | pipeline/crawling_youtube/youtube_crawler.py:212 | removing the commas from a digit group leaves only digits |
| YoutubeCrawler.NoDigitNoUnit | pipeline/crawling_youtube/youtube_crawler.py:202 | a text without digits has no unit match |
| YoutubeCrawler.NoDigitZero | pipeline/crawling_youtube/youtube_crawler.py:197-215 | a text without digits counts 0 views |
| YoutubeCrawler.ManTakesPrecedence | pipeline/crawling_youtube/youtube_crawler.py:201-204 | with 만 in the text, an unmatched pattern gives 0 and a match gives at least its whole part times 10000, exactly that without a fraction |
| YoutubeCrawler.CheonPattern | pipeline/crawling_youtube/youtube_crawler.py:205-208 | without 만 but with 천, likewise with 1000 |
| YoutubeCrawler.DocumentedExample | pipeline/crawling_youtube/youtube_crawler.py:198 | "조회수 15만회" counts 150000 views |
| YoutubeCrawler.PlainCountShape | pipeline/crawling_youtube/youtube_crawler.py:209-212 | without either unit, the count is the first comma-grouped number with its commas removed, or 0 |
| YoutubeCrawler.ViewScore | pipeline/crawling_youtube/youtube_crawler.py:264-272 | the view score is 40, 60, 80 or 100; 100 exactly from 100000 views, 40 exactly below 10000 |
| YoutubeCrawler.QualityScore | pipeline/crawling_youtube/youtube_crawler.py:259-285 | the quality score lies in [49, 77] |
| YoutubeCrawler.QualityMonotone | pipeline/crawling_youtube/youtube_crawler.py:259-285 | more views never lower the score, and a whitelisted channel scores exactly 10 more |
| YoutubeCrawler.FilterVideos | pipeline/crawling_youtube/youtube_crawler.py:288-310 | the loop keeps the videos whose title mentions no blacklisted keyword |
| YoutubeCrawler.FilterVideosExact | pipeline/crawling_youtube/youtube_crawler.py:294-308 | the kept videos are a subsequence of the input, and a video is kept iff its lowercased title contains no lowercased blacklist keyword |
| YoutubeCrawler.SelectKeywords | pipeline/crawling_youtube/youtube_crawler.py:387-391 | the keywords searched are the first three of the priority 1, 2 and 3 lists concatenated |
| YoutubeCrawler.CollectKeyword | pipeline/crawling_youtube/youtube_crawler.py:398-430 | the loop over one search keeps a video unless its id was collected or its title is excluded, and records its id |
| YoutubeCrawler.CollectCategory | pipeline/crawling_youtube/youtube_crawler.py:369-432 | a category's data is its key, its name (defaulting to the key) and its collected videos, and the seen ids grow by their ids |
| YoutubeCrawler.CrawlStep | pipeline/crawling_youtube/youtube_crawler.py:365-473 | a key missing from the configuration is skipped, any other appends its category data |
| YoutubeCrawler.CrawlYoutube | pipeline/crawling_youtube/youtube_crawler.py:313-489 | the categories are `CrawlSpec` over the target keys, and `total_videos` is the number of collected videos |
| YoutubeCrawler.GreedyKeepDistinct | pipeline/crawling_youtube/youtube_crawler.py:402-411 | the kept videos have distinct ids, none seen before and none excluded |
| YoutubeCrawler.CategoryVideosShape | pipeline/crawling_youtube/youtube_crawler.py:398-413 | a category's videos have distinct unseen ids, no excluded title, its key as category and the non-whitelist quality score |
| YoutubeCrawler.SeenIdsExact | pipeline/crawling_youtube/youtube_crawler.py:359-411 | `collected_ids` is exactly the ids of the collected videos |
| YoutubeCrawler.CrawlDistinct | pipeline/crawling_youtube/youtube_crawler.py:359-411 | no video is collected twice across all categories |
| AuthRoutes.ValidEmailMeaning | app/backend/routes/auth.js:38-39 | `/^[^\s@]+@[^\s@]+\.[^\s@]+$/` holds iff the address splits into a non-empty local part, '@', a non-empty domain part, '.', and a non-empty tail, all free of spaces and further '@' |
| AuthRoutes.ValidEmailSplit | app/backend/routes/auth.js:38 | a valid address splits at its first '@' |
| AuthRoutes.SplitValidEmail | app/backend/routes/auth.js:38 | any such split makes the address valid |
| AuthRoutes.EmailAtIndex | app/backend/routes/auth.js:38 | the first '@' is found where it stands |
| AuthRoutes.EmailAccepted | app/backend/routes/auth.js:38 | "a@b.c" is accepted |
| AuthRoutes.EmailNeedsDot | app/backend/routes/auth.js:38 | "a@bc" is refused: the domain needs a dot |
| AuthRoutes.EmailRefusesSpace | app/backend/routes/auth.js:38 | "a b@c.d" is refused: no spaces |
| AuthRoutes.SignupNeedsSpecial | app/backend/routes/auth.js:181 | a password of letters and digits only is refused at sign-up |
| AuthRoutes.SignupPasswordExample | app/backend/routes/auth.js:181 | "abcd123!" is accepted and the 6-character "abc12!" refused |
| AuthRoutes.SentCodeShape | app/backend/routes/auth.js:58-64 | a code drawn from [100000, 999999] is six digits |
| AuthRoutes.Unexpired | app/backend/routes/auth.js:20-25 | the sweep keeps exactly the entries not yet past their expiry, unchanged |
| AuthRoutes.CheckCode | app/backend/routes/auth.js:119-140 | no entry, an expired entry, a wrong code and a matching code are the four exclusive cases, each stated exactly |
| AuthRoutes.CodeStore.constructor | app/backend/routes/auth.js:17 | the store starts empty |
| AuthRoutes.CodeStore.Put | app/backend/routes/auth.js:62-65 | the address maps to the code, expiring five minutes from now |
| AuthRoutes.CodeStore.Delete | app/backend/routes/auth.js:129 | the address's entry is removed and nothing else |
| AuthRoutes.CodeStore.Sweep | app/backend/routes/auth.js:20-25 | the store keeps exactly its unexpired entries |
| AuthRoutes.RefreshReply | app/backend/routes/auth.js:476-538 | a refresh succeeds only for a valid token of an existing user, or an expired one whose claims decode, whose user exists and whose `exp` is at most seven days past |
| AuthRoutes.UserReply | app/backend/routes/auth.js:507-511 | the lookup succeeds iff a user has that id |
| AuthRoutes.RefreshGrace | app/backend/routes/auth.js:496-499 | an existing user's expired session is renewed within seven days of `exp` and refused after |
| AuthRoutes.AuthServer.constructor | app/backend/routes/auth.js:14-18 | the two code stores are fresh and empty, the user table as given |
| AuthRoutes.AuthServer.SweepVerificationCodes | app/backend/routes/auth.js:20-25 | the verification store keeps exactly its unexpired entries |
| AuthRoutes.AuthServer.SweepResetCodes | app/backend/routes/auth.js:365-370 | the reset store keeps exactly its unexpired entries |
| AuthRoutes.AuthServer.SendCode | app/backend/routes/auth.js:27-107 | the error replies for a missing, malformed or taken address, and otherwise success with the store holding the new code for five minutes; a failure leaves the store alone |
| AuthRoutes.AuthServer.VerifyCode | app/backend/routes/auth.js:109-149 | the reply follows the missing, absent, expired, wrong and matching cases; only an expired code is deleted |
| AuthRoutes.AuthServer.Signup | app/backend/routes/auth.js:151-265 | the checks in source order (fields, address, nickname length, password, taken address, taken nickname); success adds the user and issues a 14-day session for it, and only a success changes the user table or issues a session |
| AuthRoutes.SessionFor | app/backend/routes/auth.js:225-243 | the session carries the user's id, email, nickname and admin flag, and both the token and its cookie last 14 days |
| AuthRoutes.AuthServer.Login | app/backend/routes/auth.js:268-358 | missing fields, a malformed address and bad credentials are refused; success stamps the last login and issues a 14-day session for the stored user, nothing else changes, and a refusal issues none |
| AuthRoutes.AuthServer.ForgotPassword | app/backend/routes/auth.js:372-431 | a well-formed address always gets the same success reply; a code is stored only for a known address |
| AuthRoutes.AuthServer.ResetPassword | app/backend/routes/auth.js:434-473 | the code cases as in verification, then the sign-up password rule; success replaces the hash and deletes the code, an expired code is deleted too |
| UserRoutes.Profile | app/backend/routes/user.js:12-49 | an unknown id is not found (404); otherwise the id, email, nickname and both dates of that user |
| UserRoutes.ProfilePasswordIsSignupPassword | app/backend/routes/user.js:94 | a password the profile rule accepts is accepted at sign-up |
| UserRoutes.SignupPasswordNotProfile | app/backend/routes/user.js:94 | "abcd123^" passes the sign-up rule but not the narrower profile rule |
| UserRoutes.WithNickname | app/backend/routes/user.js:81 | only that user's nickname changes, and only for a non-empty nickname |
| UserRoutes.WithNicknameUnique | app/backend/routes/user.js:74-81 | a nickname no other user holds keeps nicknames unique |
| UserRoutes.UserDb.constructor | app/backend/routes/user.js:1-10 | the table as given, with unique nicknames |
| UserRoutes.UserDb.UpdateProfile | app/backend/routes/user.js:68-107 | a bad nickname length or a taken nickname changes nothing; the nickname is saved before the password checks, so a later password error keeps it; the password checks follow in source order |
| UserRoutes.UserDb.DeleteAccount | app/backend/routes/user.js:110-125 | the user is removed and the reply is success |
| LegacyAuth.LegacyPasswordRefusedNow | backend/routes/auth.js:39 | a password of the older rule (letters and digits only) is refused by the current sign-up rule |
| LegacyAuth.LegacyPasswordExample | backend/routes/auth.js:39 | "abcd1234" is accepted; "abcdefgh" (no digit) and "abcd123!" (a special character) are refused |
| LegacyAuth.SessionFor | backend/routes/auth.js:85-100 | the session carries the user's id, email and nickname and lasts 90 days |
| LegacyAuth.LegacyAuthServer.constructor | backend/routes/auth.js:1-8 | the user table as given |
| LegacyAuth.LegacyAuthServer.Signup | backend/routes/auth.js:9-122 | the checks in source order with the older password rule; success adds the user and returns a session, and only a success changes the user table |
| LegacyAuth.LegacyAuthServer.Login | backend/routes/auth.js:125-215 | missing fields, a malformed address and bad credentials are refused; success stamps the last login and returns a session |
| InteractionRoutes.Toggle | app/backend/routes/interaction.js:23-30 | the pair is present afterwards exactly when it was absent before; every other pair keeps its membership |
| InteractionRoutes.ToggleInvolution | app/backend/routes/interaction.js:23-30 | toggling twice restores the set |
| InteractionRoutes.ToggleCount | app/backend/routes/interaction.js:34 | the article's count drops by one on an unlike and rises by one on a like |
| InteractionRoutes.ToggleCountOther | app/backend/routes/interaction.js:34 | every other article's count is unchanged |
| InteractionRoutes.HasTextMeaning | app/backend/routes/interaction.js:212 | `content.trim().length > 0` holds iff some character is not white space |
| InteractionRoutes.ListComments | app/backend/routes/interaction.js:246-280 | one entry per row, in row order, carrying its fields; `isMine` holds iff the viewer wrote it |
| InteractionRoutes.AnonymousOwnsNothing | app/backend/routes/interaction.js:277 | an anonymous viewer owns no comment |
| InteractionRoutes.InteractionDb.constructor | app/backend/routes/interaction.js:1-6 | the tables as given, the comment serial above every id |
| InteractionRoutes.InteractionDb.ToggleLike | app/backend/routes/interaction.js:11-45 | `liked` iff there was no like before; the like set is toggled, the count is the article's new count, nothing else changes |
| InteractionRoutes.InteractionDb.ToggleBookmark | app/backend/routes/interaction.js:89-119 | the same for bookmarks |
| InteractionRoutes.InteractionDb.CreateComment | app/backend/routes/interaction.js:206-243 | blank content and content over 500 UTF-16 units are refused and change nothing; otherwise the trimmed comment is stored under a fresh id |
| InteractionRoutes.InteractionDb.UpdateComment | app/backend/routes/interaction.js:288-329 | blank, missing and someone else's comment are refused in that order; the author's edit stores the trimmed text and the time, only a success changes the table, and a comment of another user is never touched |
| InteractionRoutes.InteractionDb.DeleteComment | app/backend/routes/interaction.js:332-357 | a missing comment is 404 and someone else's 403; the author's comment is removed, only a success changes the table, and a comment of another user is never touched |
| NewsRoutes.CategoryFilter | app/backend/routes/news.js:33-36 | no filter exactly for an empty category or '전체'; otherwise the category itself |
| NewsRoutes.Matching | app/backend/routes/news.js:37-63 | the rows of that category, in table order; the whole table without a filter; newest-first order is kept |
| NewsRoutes.ShowItem | app/backend/routes/news.js:70-100 | an item is restricted iff the viewer is a guest and its overall position is at least three; a restricted item keeps only id, category, title, image and date |
| NewsRoutes.Cards | app/backend/routes/news.js:88 | each item is shown at its overall position, offset plus its index |
| NewsRoutes.ListAnswers | app/backend/routes/news.js:25-115 | the list succeeds iff the page parses to at least one; otherwise the handler's 500 |
| NewsRoutes.ListWindow | app/backend/routes/news.js:27-110 | the reply carries the page, the clamped limit, the total, the ceiling page count, and the window at `(page - 1) * limit` |
| NewsRoutes.ListNewestFirst | app/backend/routes/news.js:63 | a newest-first table lists newest first |
| NewsRoutes.GuestRestriction | app/backend/routes/news.js:88 | on every page, an item is restricted iff a guest sees it at overall position three or later |
| NewsRoutes.ListCategory | app/backend/routes/news.js:33-43 | a filtered list holds only that category; an unfiltered total counts the whole table |
| NewsRoutes.SecondPageRestricted | app/backend/routes/news.js:88 | a guest's second page of twenty is all restricted |
| NewsRoutes.PgInt4 | app/backend/routes/news.js:140-146 | what Postgres accepts as an `integer` parameter lies in the signed 32-bit range |
| NewsRoutes.PgInt4ParseInt | app/backend/routes/news.js:130-146 | where Postgres accepts the id, `parseInt` reads the same number |
| NewsRoutes.PgInt4Value | app/backend/routes/news.js:140-146 | an accepted id is its optional sign and its digits, between white space |
| NewsRoutes.TrailingTextIsServerError | app/backend/routes/news.js:130-196 | "12abc" passes the `parseInt` guard but is refused by Postgres, so the reply is the 500 |
| NewsRoutes.FindNews | app/backend/routes/news.js:135-150 | a hit is a row with that id; a miss means no row has it |
| NewsRoutes.NewsDb.constructor | app/backend/routes/news.js:1-6 | the tables as given |
| NewsRoutes.NewsDb.GetDetail | app/backend/routes/news.js:127-197 | 400 for an id `parseInt` refuses, 500 where Postgres refuses it, 404 when missing, else the full item with the viewer's like and bookmark flags; a view is logged only for a signed-in viewer's success |
| NewsRoutes.CategoriesListed | app/backend/routes/news.js:119-124 | five categories, '전체' first and unfiltered, every other one a filter on itself |
| JsUtil.TrimShape | app/backend/routes/interaction.js:212 | `trim()` keeps a contiguous middle of the string and drops only white space, and its ends are not white space |
| JsUtil.TrimEmpty | app/backend/routes/interaction.js:212 | the trimmed string is empty iff every character is white space |
| JsUtil.Utf16Length | app/backend/routes/interaction.js:216 | `length` counts UTF-16 units: at least the code points, and exactly them when none lies outside the basic plane |
| JsUtil.ParseIntNat | app/backend/routes/news.js:29 | `parseInt` reads a numeral back as its number |
| JsUtil.ParseIntNaN | app/backend/routes/news.js:29 | with no digit after the optional sign, `parseInt` is NaN |
| JsUtil.ParseIntDecimal | app/backend/routes/news.js:29 | a string starting with a digit (and not `0x`) reads as the value of its leading digits |
| JsUtil.CeilDiv | app/backend/routes/news.js:109 | `Math.ceil(total / limit)`: the least page count covering the total, zero only for no rows |
| JsUtil.PageLimit | app/backend/routes/news.js:28 | the clamped limit lies in [1, 100] |
| JsUtil.PageLimitCases | app/backend/routes/news.js:28 | NaN and zero fall back to the default, as `parseInt(raw) or 20` does, a negative limit gives 1, more than 100 gives 100, anything else is kept |
| JsUtil.Window | app/backend/routes/news.js:47-63 | `LIMIT limit OFFSET offset`: the rows from the offset on, at most `limit` of them, in order |
| JsUtil.PageOffset | app/backend/routes/news.js:29 | the offset is non-negative iff the page is at least 1 |
| PushRoutes.VapidKeyReply | app/backend/routes/push.js:10-16 | the key is served iff configured, else 503 |
| PushRoutes.FindEndpoint | app/backend/routes/push.js:30-33 | the `ON CONFLICT (endpoint)` lookup: a hit has that endpoint, a miss means no row does |
| PushRoutes.UpsertOneRow | app/backend/routes/push.js:29-35 | after the upsert exactly one row has the endpoint, active, with the new owner and keys; a new endpoint takes the next id |
| PushRoutes.Deactivated | app/backend/routes/push.js:217-222 | the rows with those ids become inactive and nothing else changes |
| PushRoutes.DeactivatedMore | app/backend/routes/push.js:217-222 | deactivating one more id is deactivating the union |
| PushRoutes.Unsubscribed | app/backend/routes/push.js:46-66 | the user's rows for that endpoint, or all the user's rows without one, become inactive; nothing else changes |
| PushRoutes.ActiveRows | app/backend/routes/push.js:173-176 | exactly the user's active rows |
| PushRoutes.UnsubscribeAll | app/backend/routes/push.js:58-62 | unsubscribing without an endpoint leaves the user nothing active and other users untouched |
| PushRoutes.UnsubscribeClears | app/backend/routes/push.js:58-62 | the user has no active row afterwards |
| PushRoutes.UnsubscribeOthers | app/backend/routes/push.js:52-62 | another user's active rows are unchanged |
| PushRoutes.UnsubscribeOne | app/backend/routes/push.js:52-56 | with an endpoint, only the user's row for that endpoint can change |
| PushRoutes.DeliveredCount | app/backend/routes/push.js:203-213 | the successes number at most the rows |
| PushRoutes.GoneIds | app/backend/routes/push.js:214-222 | exactly the ids of the rows whose delivery failed with 410 or 404 |
| PushRoutes.NewestFor | app/backend/routes/push.js:86-93 | exactly the user's notifications |
| PushRoutes.NewestForAppend | app/backend/routes/push.js:91 | `ORDER BY created_at DESC`: a notification logged last is listed first |
| PushRoutes.UnreadFor | app/backend/routes/push.js:97-101 | the unread count is at most the user's notifications |
| PushRoutes.ReadOne | app/backend/routes/push.js:131-146 | only that notification of that user is marked read |
| PushRoutes.ReadAll | app/backend/routes/push.js:149-163 | every notification of the user is marked read, and only those |
| PushRoutes.ReadAllCounts | app/backend/routes/push.js:149-163 | afterwards the user has nothing unread and other users' counts are unchanged |
| PushRoutes.ReadOneCounts | app/backend/routes/push.js:131-146 | the user's unread count never rises and other users' counts are unchanged |
| PushRoutes.Views | app/backend/routes/push.js:103-110 | one view per row, with the id as a string and the row's title, body, category and read flag |
| PushRoutes.NotificationsAnswer | app/backend/routes/push.js:74-128 | the list succeeds iff the page parses to at least one |
| PushRoutes.NotificationsWindow | app/backend/routes/push.js:76-122 | the reply carries the page, the clamped limit, the total, the ceiling page count, the unread count and the window at `(page - 1) * limit` |
| PushRoutes.NotificationsDefaults | app/backend/routes/push.js:76-79 | the defaults are page 1 of 30 |
| PushRoutes.SendTo | app/backend/routes/push.js:169-170 | `targetUserId or userId`: the target unless it is missing or 0 |
| PushRoutes.PushDb.constructor | app/backend/routes/push.js:1-8 | the tables as given |
| PushRoutes.PushDb.Subscribe | app/backend/routes/push.js:19-43 | incomplete keys are 400 and change nothing; otherwise the upsert, with a new id only for a new endpoint |
| PushRoutes.PushDb.Unsubscribe | app/backend/routes/push.js:46-71 | always success; the subscriptions become `Unsubscribed` |
| PushRoutes.PushDb.MarkRead | app/backend/routes/push.js:131-146 | the log becomes `ReadOne` and nothing else changes |
| PushRoutes.PushDb.MarkAllRead | app/backend/routes/push.js:149-163 | the log becomes `ReadAll` and nothing else changes |
| PushRoutes.PushDb.SendAll | app/backend/routes/push.js:203-226 | every row is counted once as sent or failed, the sent count is the deliveries, exactly the gone rows are deactivated |
| PushRoutes.PushDb.AddLog | app/backend/routes/push.js:229-234 | one unread notification is appended under the next id |
| PushRoutes.PushDb.SendTest | app/backend/routes/push.js:166-244 | no active subscription for the target is 404 and changes nothing; otherwise every row is tried, gone rows are deactivated and one notification is logged for the target |
| PushRoutes.SendTouchesOnlyRows | app/backend/routes/push.js:217-222 | a subscription outside the batch is never changed |
| PushScheduler.LocalHour | app/backend/scheduler/pushScheduler.js:25 | an hour of the day |
| PushScheduler.LocalMinute | app/backend/scheduler/pushScheduler.js:26 | a minute of the hour |
| PushScheduler.LocalDay | app/backend/scheduler/pushScheduler.js:27 | a day of the week |
| PushScheduler.KstIgnoresZone | app/backend/scheduler/pushScheduler.js:22-27 | adding nine hours and the zone offset makes the local clock read Korean time whatever the server's fixed offset |
| PushScheduler.DayName | app/backend/scheduler/pushScheduler.js:8 | the day's Korean name from `DAY_MAP` |
| PushScheduler.DayNamesDistinct | app/backend/scheduler/pushScheduler.js:8 | the seven names are distinct |
| PushScheduler.ClockTextShape | app/backend/scheduler/pushScheduler.js:28 | `HH:MM`, five characters, digits around a colon |
| PushScheduler.ClockTextInjective | app/backend/scheduler/pushScheduler.js:28-35 | two clock texts agree iff the hours and minutes do |
| PushScheduler.KstClock | app/backend/scheduler/pushScheduler.js:22-28 | the hour, minute and day are in range |
| PushScheduler.DueRows | app/backend/scheduler/pushScheduler.js:31-37 | exactly the enabled settings whose time text is the current one |
| PushScheduler.DueMeaning | app/backend/scheduler/pushScheduler.js:31-37 | a setting is due iff it is enabled and its hour and minute are now |
| PushScheduler.MoreNewsText | app/backend/scheduler/pushScheduler.js:56-58 | "외 N건…" with one less than the count, or the single-news text |
| PushScheduler.ScheduledBody | app/backend/scheduler/pushScheduler.js:55-78 | the first title, a space and that text |
| PushScheduler.ThreeNewsBody | app/backend/scheduler/pushScheduler.js:55-58 | three articles give "외 2건…" |
| PushScheduler.LogsFor | app/backend/scheduler/pushScheduler.js:111-121 | one unread log per notified user, in order, under consecutive ids |
| PushScheduler.Run | app/backend/scheduler/pushScheduler.js:14-130 | no keys, no due user or no news changes nothing; otherwise the sent and failed counts cover every send, gone rows are deactivated, each notified user was due on a listed day, and they are exactly the eligible users, each logged once; a run that reaches nobody leaves the log table as it was |
| PushScheduler.RunAt | app/backend/scheduler/pushScheduler.js:14-130 | the same run once the clock, the due rows and the latest news are known: an empty key, due list or news list changes nothing, otherwise every notified user is a due row's user on its weekday and, with distinct users, they are exactly the eligible ones; the log gains one row per notified user and none when nobody is reached |
| PushScheduler.DueFinished | app/backend/scheduler/pushScheduler.js:63-122 | after the loop every notified user comes from a due row on its weekday, and under distinct users the notified list is the eligible one |
| PushScheduler.NotifyAll | app/backend/scheduler/pushScheduler.js:63-122 | the loop leaves the run's state as the invariant states it for all due users |
| PushScheduler.NotifyOne | app/backend/scheduler/pushScheduler.js:64-121 | one due user: skipped for another day or no active subscription, else sent to and logged |
| PushClient.StdChar | app/frontend/src/lib/push.ts:50 | a sextet's standard base64 character is ASCII and never the pad |
| PushClient.UrlChar | app/frontend/src/lib/push.ts:49 | the URL-safe character maps back to the standard one |
| PushClient.StdValue | app/frontend/src/lib/push.ts:50 | a character's sextet, when it has one, encodes back to the character |
| PushClient.StdValueOfChar | app/frontend/src/lib/push.ts:50 | every sextet's character decodes back to it |
| PushClient.StdChars | app/frontend/src/lib/push.ts:50 | one standard character per sextet |
| PushClient.UrlChars | app/frontend/src/lib/push.ts:49 | one URL-safe character per sextet |
| PushClient.PaddingLength | app/frontend/src/lib/push.ts:48 | `(4 - len % 4) % 4`: under four, and brings the length to a multiple of four |
| PushClient.Equals | app/frontend/src/lib/push.ts:48 | `'='.repeat(n)`: n pad characters |
| PushClient.ToStandard | app/frontend/src/lib/push.ts:49 | the two `replace` calls map every character, and leave no `-` or `_` |
| PushClient.Padded | app/frontend/src/lib/push.ts:48-49 | the string followed by the padding for its UTF-16 length |
| PushClient.RemoveWhitespace | app/frontend/src/lib/push.ts:50 | `atob` drops ASCII white space first: none is left, and a string without any is kept |
| PushClient.Values | app/frontend/src/lib/push.ts:50 | the sextets of standard characters |
| PushClient.Ungroup | app/frontend/src/lib/push.ts:50 | four sextets give three bytes |
| PushClient.DecodeValues | app/frontend/src/lib/push.ts:50 | decoding yields bytes |
| PushClient.Atob | app/frontend/src/lib/push.ts:50 | a successful `atob` yields bytes; the exception is None |
| PushClient.UrlBase64ToUint8Array | app/frontend/src/lib/push.ts:47-56 | fails exactly when `atob` would throw; otherwise a fresh array whose bytes are the decoded string |
| PushClient.GroupRoundTrip | app/frontend/src/lib/push.ts:50 | three bytes grouped as four sextets ungroup to the same bytes |
| PushClient.EncodeLength | app/frontend/src/lib/push.ts:50 | an encoding is never one past a multiple of four |
| PushClient.DecodeEncode | app/frontend/src/lib/push.ts:50 | decoding an encoding gives the bytes back |
| PushClient.ToStandardUrl | app/frontend/src/lib/push.ts:49 | the replaces turn the URL-safe alphabet into the standard one |
| PushClient.ValuesOfStd | app/frontend/src/lib/push.ts:50 | reading standard characters back gives the sextets |
| PushClient.PaddedStandard | app/frontend/src/lib/push.ts:48-49 | padding then replacing a URL-safe encoding gives the standard encoding with its pad |
| PushClient.AtobPadded | app/frontend/src/lib/push.ts:50 | `atob` of a correctly padded standard encoding is its bytes |
| PushClient.AtobOf | app/frontend/src/lib/push.ts:50 | `atob` of any string that reduces to standard characters of a valid length is their bytes |
| PushClient.RoundTrip | app/frontend/src/lib/push.ts:47-56 | a VAPID key encoded as URL-safe base64 without padding decodes to the same bytes |
| Settings.SplitColon | app/frontend/src/components/Settings.tsx:48 | `split(':')` gives at least one part, and the whole string without a colon |
| Settings.JsNumber | app/frontend/src/components/Settings.tsx:48 | `Number('')` is 0 |
| Settings.TimeNumbersOfClock | app/frontend/src/components/Settings.tsx:48 | a stored `HH:MM` reads back as its hour and minute |
| Settings.PickerThenSave | app/frontend/src/components/Settings.tsx:47-61 | opening the picker on an hour and saving it gives the same hour, with the picker's hour in 1 to 12 |
| Settings.SaveThenPicker | app/frontend/src/components/Settings.tsx:47-61 | saving a choice and reopening shows the same half and hour |
| Settings.Range | app/frontend/src/components/Settings.tsx:66-67 | `Array.from({length: n}, (_, i) => i + lo)` |
| Settings.Choices | app/frontend/src/components/Settings.tsx:66-67 | the hours 1 to 12 and the minutes 0 to 59 are offered |
| Settings.TimePicker.constructor | app/frontend/src/components/Settings.tsx:42-44 | 오전 7:00 |
| Settings.TimePicker.Open | app/frontend/src/components/Settings.tsx:46-55 | the picker shows the stored time in twelve-hour form |
| Settings.TimePicker.ChooseHalf | app/frontend/src/components/Settings.tsx:110-120 | only the half changes |
| Settings.TimePicker.ChooseHour | app/frontend/src/components/Settings.tsx:126-139 | only the hour changes |
| Settings.TimePicker.ChooseMinute | app/frontend/src/components/Settings.tsx:145-158 | only the minute changes |
| Settings.TimePicker.Save | app/frontend/src/components/Settings.tsx:57-64 | the saved text is the 24-hour `HH:MM` of the choice |
| Settings.StoredTimeRoundTrip | app/frontend/src/components/Settings.tsx:46-64 | a stored time opened and saved unchanged is stored again as it was |
| Settings.ChosenTimeIsClock | app/frontend/src/components/Settings.tsx:57-67 | any choice saves a valid `HH:MM` |
| Settings.DisplayAgreesWithPicker | app/frontend/src/components/Settings.tsx:221-231 | the settings page labels a time as the picker shows it |
| Settings.Without | app/frontend/src/components/Settings.tsx:215 | `filter(d => d !== day)`: the other days, no more |
| Settings.ToggledFlips | app/frontend/src/components/Settings.tsx:214-216 | the day's membership flips and every other day's is kept |
| Settings.SettingsPage.constructor | app/frontend/src/components/Settings.tsx:167-170 | push off, 07:00, weekdays |
| Settings.SettingsPage.Load | app/frontend/src/components/Settings.tsx:174-190 | signed in with stored settings: those, with 07:00 and weekdays for missing ones; otherwise unchanged |
| Settings.SettingsPage.Send | app/frontend/src/components/Settings.tsx:193-200 | an update is sent iff signed in |
| Settings.SettingsPage.TogglePush | app/frontend/src/components/Settings.tsx:202-205 | the flag is set and sent; nothing else changes |
| Settings.SettingsPage.SaveTime | app/frontend/src/components/Settings.tsx:207-210 | the time is set and sent; nothing else changes |
| Settings.SettingsPage.ToggleDay | app/frontend/src/components/Settings.tsx:212-219 | ignored while push is off; otherwise the day is toggled and the new list sent |
| SwipeDeck.Slice | app/frontend/src/components/SwipeDeck.tsx:134-141 | `slice(a, b)` for a non-negative start: the elements from `a` up to `b` clipped to the length, a negative `b` counting back from the length, empty when the start is at or past that end |
| SwipeDeck.RenderWindowShape | app/frontend/src/components/SwipeDeck.tsx:134-141 | for the deck's non-negative index, at most four cards are drawn and the front card is among them |
| SwipeDeck.ScreenFor | app/frontend/src/components/SwipeDeck.tsx:74-132 | an end screen is shown iff a non-empty deck is past its last card |
| SwipeDeck.Deck.constructor | app/frontend/src/components/SwipeDeck.tsx:37 | the deck starts at `startIndex` |
| SwipeDeck.Deck.Reset | app/frontend/src/components/SwipeDeck.tsx:40-42 | a new `startIndex` resets the index |
| SwipeDeck.Deck.Swipe | app/frontend/src/components/SwipeDeck.tsx:44-72 | left advances while a card is in front, firing `onReachEnd` from the last card and `onLoadMore` from the last two; right steps back unless at the first; `onIndexChange` fires iff the index moved; the index stays in range |
| SwipeDeck.Deck.Restart | app/frontend/src/components/SwipeDeck.tsx:121-131 | back to the first card, announcing index 0 |
| SwipeDeck.DragEnd | app/frontend/src/components/SwipeDeck.tsx:250-271 | left iff pulled or flicked left past the threshold; right only off the first card and past the threshold; otherwise nothing |
| AppState.Navigated | app/frontend/src/App.tsx:165-172 | the new entry is on top; a repeat of the top entry changes nothing, otherwise it is pushed |
| AppState.Back | app/frontend/src/App.tsx:174-185 | a prefix one shorter, or the same single-entry history |
| AppState.BackUndoesNavigate | app/frontend/src/App.tsx:165-185 | going back after navigating somewhere new restores the history |
| AppState.RootSurvives | app/frontend/src/App.tsx:62 | the root entry is never lost |
| AppState.VisibleItemsExact | app/frontend/src/App.tsx:277-278 | an item is shown iff it matches the category and a guest sees only unrestricted items |
| AppState.RestrictedMeansHidden | app/frontend/src/App.tsx:279 | `hasRestrictedItems` iff some item of the category is hidden |
| AppState.App.constructor | app/frontend/src/App.tsx:39-62 | main view, home tab, a one-entry history, no reads, no items, page 1 |
| AppState.App.NavigateTo | app/frontend/src/App.tsx:165-172 | the view, tab and history as `Navigated` says; nothing else changes |
| AppState.App.GoBack | app/frontend/src/App.tsx:174-185 | the previous entry's view and tab; leaving the detail view drops the selected item |
| AppState.App.OpenArticle | app/frontend/src/App.tsx:187-207 | a signed-in user or a guest under three reads opens the detail and a guest's count rises; otherwise only the login prompt opens |
| AppState.App.ReadNotification | app/frontend/src/App.tsx:264-267 | that notification is marked read and the unread count drops, never below zero |
| AppState.App.ChangeCategory | app/frontend/src/App.tsx:160-163 | the category is set and the card index reset |
| AppState.App.LoadMoreNews | app/frontend/src/App.tsx:251-257 | hidden items ask for login; otherwise the next page is fetched only when there is more and nothing is loading |
| AppState.App.FetchDone | app/frontend/src/App.tsx:106-132 | a success replaces or appends the items and sets the page and `hasMore`; a failure empties a fresh list and keeps an appended one; loading ends |
| AppState.App.SetLoggedIn | app/frontend/src/App.tsx:64-104 | signing in closes the prompt; signing out clears the notifications |
| AppState.App.SignedOut | app/frontend/src/App.tsx:364 | the read count and the history are reset to the main view |
| Helpers.CategoryColor | app/frontend/src/utils/helpers.ts:1-8 | the grey default iff the category is none of the three known ones |
| Helpers.CategoryColorsDistinct | app/frontend/src/utils/helpers.ts:2-5 | the known categories get distinct colours |
| Helpers.NextDayNumber | app/frontend/src/utils/helpers.ts:23-27 | consecutive calendar days are one day number apart, across month and year ends and leap days |
| Helpers.DotDateReadsBack | app/frontend/src/utils/helpers.ts:33-36 | a `YYYY.MM.DD` label of a four-digit year has its dots in place and reads back as its month and day |
| Helpers.RelativeTime | app/frontend/src/utils/helpers.ts:10-37 | empty input gives empty; an invalid date gives the input; otherwise 오늘 iff the same local day, "N일 전" for one to six days, else the dotted date |
| Helpers.YesterdayIsOneDayAgo | app/frontend/src/utils/helpers.ts:23-30 | a date of yesterday is "1일 전" whatever the month or year boundary |
| Helpers.Tenths | app/frontend/src/utils/helpers.ts:42 | the tenths of `n / unit` rounded to nearest, halves up |
| Helpers.ToFixed1Shape | app/frontend/src/utils/helpers.ts:42 | `toFixed(1)` ends in a point and one digit |
| Helpers.FormatCountCases | app/frontend/src/utils/helpers.ts:39-45 | the `k` suffix iff the count is at least a thousand; a small count reads back as itself |
| AdminDashboard.FormatDate | app/frontend/src/components/AdminDashboard.tsx:52-56 | "-" without a date, the dotted local date, or the text of an invalid date |
| AdminDashboard.RelativeTimeBuckets | app/frontend/src/components/AdminDashboard.tsx:58-71 | the unit follows the elapsed milliseconds: just now under a minute, then minutes, hours and days floored, the date from thirty days |
| AdminDashboard.FormatNumberSuffix | app/frontend/src/components/AdminDashboard.tsx:73-77 | the 만 suffix iff at least ten thousand, 천 iff in the thousands |
| AdminDashboard.MaxUsers | app/frontend/src/components/AdminDashboard.tsx:386 | `Math.max(...users, 1)`: at least 1, at least every count, and either 1 or one of the counts |
| AdminDashboard.BarHeightsBounded | app/frontend/src/components/AdminDashboard.tsx:418-430 | every bar is between 2% and 100% tall and the busiest day's is 100% |
| LegacyApp.FormatCountSuffix | src/App.tsx:132-133 | the `k` suffix iff at least a thousand |
| LegacyApp.FormatCountSmall | src/App.tsx:132-133 | a count under a thousand reads back as itself |
| LegacyApp.FormatCountWholeThousands | src/App.tsx:132-133 | whole thousands drop the ".0" |
| LegacyApp.Deck.constructor | src/App.tsx:328-332 | the first card, not dragging, not animating |
| LegacyApp.Deck.Start | src/App.tsx:340-346 | a drag starts unless a card is flying out |
| LegacyApp.Deck.End | src/App.tsx:363-399 | a tap, a left exit while a next card exists, a right exit while a previous card exists, or a snap back, in that order; an exit sets its direction |
| LegacyApp.Deck.ExitDone | src/App.tsx:377-393 | the exit moves the index one card against its direction and clears the animation |
| LegacyApp.ScheduleHourAgrees | src/App.tsx:859-864 | the push settings' 24-hour conversion is the web client's |
| LegacyApp.ScheduleHourRange | src/App.tsx:859-864 | the hour is in [0, 24), distinct hours of one half stay distinct and the halves never meet |
| LegacyApp.PushSettings.constructor | src/App.tsx:830-837 | push off, weekdays, 오전 7:10, unsaved |
| LegacyApp.PushSettings.ToggleDay | src/App.tsx:839-844 | the day's membership flips, others are kept, and the saved mark clears |
| LegacyApp.PushSettings.Toggle | src/App.tsx:847-856 | the switch flips and the saved mark clears; the days and the time stay |
| LegacyApp.PushSettings.Save | src/App.tsx:867-897 | no day selected alerts and saves nothing; otherwise the schedule of the switch, days and 24-hour time is saved |
| LegacyApp.Client.constructor | src/App.tsx:1120-1129 | the home page, the first tab, nothing liked or bookmarked, the first-like hint pending |
| LegacyApp.Client.ToggleLike | src/App.tsx:1136-1148 | the like flips; the hint is shown once, on the first like; bookmarks, page, tab, sub-page and open article stay |
| LegacyApp.Client.ToggleBookmark | src/App.tsx:1150-1156 | the bookmark flips; likes, the pending hint, page, tab, sub-page and open article stay |
| LegacyApp.Client.OpenDetail | src/App.tsx:1162-1165 | the detail page of that article; tab, sub-page, likes, bookmarks and the pending hint stay |
| LegacyApp.Client.GoBack | src/App.tsx:1167-1172 | a sub-page closes first; the detail page returns home; anything else returns to the home tab; no sub-page remains open, and likes, bookmarks and the pending hint stay |

## Left out

- Floating point: these scores are exact reals in the model, and so are the tie orders derived from them. This covers trend weights, freshness, keyword scores, trend scores and the YouTube ×1.5 factor. Python adds IEEE doubles, so `1.2 + 1.2 + 1.2` is `3.5999999999999996` and sorts below `1.8 + 1.8` (`3.6`), while the model puts the two level. Where the source sorts by score (`sorted(..., reverse=True)`, `most_common`), equal reals keep input order even where the doubles would differ. Models of a weaker promise for this reason: `TrendScoring.RankKeywords`, `RunBatch.ScoreItems`, `RunBatch.ReportShape`, `Briefing.MatchTrends`.
- Unicode text handling: `Util.Lower` and `Util.LowerChar` lower only ASCII letters, and `Util.IsDigit`, the `\d` of the date and view-count regexes, accepts only ASCII digits. Python's `str.lower` lowers every cased letter and `re`'s `\d` matches every Unicode decimal digit, so full-width digits (`１２`) and cased non-ASCII letters are read differently by the model. Hangul has no case, so Korean text is unaffected by the lowering. White space is not affected: `Util.IsSpace`, and with it `Strip` and `Words`, is Python's `str.isspace` set, U+3000 and U+00A0 included.
- RunBatch.ParseKoreanDatetime: works on whole seconds between `datetime.min` and `datetime.max`. A relative time such as "99999999일 전" reaches past `datetime.min`, where Python raises `OverflowError`. The source's bare `except:` catches that error, and the model's `None` falls through to the next format in the same way.
- Microseconds of `datetime.now()` are not modelled.
- YoutubeCrawler.ParseViewCount: takes the decimal branch `int(float(x) * 10000)` (and `* 1000`) on the exact decimal value, the floor of x × scale. The double product can fall just below a whole number: for "1.13만", `float("1.13") * 10000` is `11299.999999999998`, so Python gives 11299 where the model gives 11300.
- YoutubeCrawler.QualityScore: an integer. Every part is a multiple of 10 times a fraction giving a whole number, so `round(score, 1)` of the float sum is assumed to be that same whole value.
- Helpers.Tenths: this and both `FormatCount`s round the exact decimal quotient half up. `toFixed(1)` rounds the binary double, so `(1150 / 1000).toFixed(1)` is "1.1" in a browser where the model gives "1.2". `AdminDashboard.FormatNumber` has the same limit.
- AdminDashboard.BarHeight: exact real division, not a double.
- AiRewriter.Backoff: the delay base is an integer, as its default and its annotation are. A fractional `retry_delay_base` from the config is not modelled; its waits would be doubles.
- `toLocaleString` is taken to add no separators below 1000.
- `parseInt` and `Number` are read as exact integers. Precision loss above 2^53 is not modelled.
- Settings.JsNumber: reads only digit strings and the empty string. Other inputs count as NaN: signs, white space, exponents, hex and decimals. `Settings.TimePicker.Open` takes the parsed numbers, so stored times that are not `HH:MM` are not modelled.
- PushClient.Atob: gives None where `window.atob` throws. Both `PushClient` and `JsUtil.Utf16Length` model characters as code points, with UTF-16 length counted from them.
- Sets and database order:
  - `normalize_keywords` iterates a Python `set`, whose order is arbitrary. The model fixes it to first occurrence before the stable length sort.
  - The order of `SELECT`s without `ORDER BY`, and of ties under `ORDER BY published_at DESC` or `created_at DESC`, is the order of the model's table sequence.
- NewsRoutes.PgInt4: models only Postgres's cast of the detail id to `integer`. Other server errors are not modelled, such as an id parameter of another route that does not cast. They are covered only by the handlers' generic 500.
- I/O and crawling:
  - Selenium and `requests` crawling are not modelled: article extraction, full-content fetch, the Naver and YouTube APIs and the trend feeds (`TrendCollector`). Their results are inputs.
  - An unreachable feed is an empty list.
  - YouTube transcripts and the channel crawl are not modelled.
- File system:
  - `load_json_data`, reading `크롤링.md` and `config.yaml`, and writing the JSON fallback file are not modelled; the texts and lists are inputs and outputs.
  - `yaml.safe_load` is not modelled; the parsed config is an input after the modelled line filter.
- Foreign libraries as parameters:
  - the LLM SDK clients (Gemini, OpenAI) and Gemini image generation are oracles that answer or fail per attempt; a provider's answers may differ from one cluster of a run to the next even for the same prompt;
  - a decoded answer that is no JSON object keeps only what `reconstruct_cluster` looks at: a list its string elements, a string its text, and null, booleans and numbers nothing. The elements of a list that are not strings are not modelled;
  - `difflib.SequenceMatcher` is a similarity function;
  - scikit-learn TF-IDF and agglomerative clustering are a labelling oracle that may fail;
  - `strptime` and `parsedate_to_datetime` are parser parameters;
  - bcrypt hashing and comparison, `jsonwebtoken` signing and verification, `crypto.randomInt`, Resend email and `webpush.sendNotification` are parameters or per-row outcomes.
- Timing:
  - No time passes in the model: a `time.sleep` is an event carrying its duration, and the ValueError it raises on a negative duration is modelled (`AiRewriter.RouteSleepRaises`, `AiRewriter.Pace`); `setTimeout` delays are not modelled, only the placement of the exit animation of `LegacyApp.Deck`.
  - The `setInterval` sweepers are methods called at a given time.
  - The cron schedule is not modelled; one run is `PushScheduler.Run` at a given instant.
- Helpers.RelativeTime: takes every local day as 24 hours, so its day difference is the calendar difference. The source divides the milliseconds between two local midnights by 86400000 and floors. In a browser zone with daylight saving, the 23-hour day of a spring-forward change then gives one day less: a date from the day before shows 오늘. KST, the service's zone, has no daylight saving.
- PushScheduler.KstClock: assumes the server's zone has a fixed offset at that instant. Daylight-saving transitions between `getTimezoneOffset` and `getHours` are not modelled.
- Routes not modelled:
  - logout, Kakao OAuth login, `/api/user/me` and `stats.js` (SQL only);
  - the interaction list routes (`/user/likes`, `/user/bookmarks`, `/user/comments`), which are SQL joins with no logic of their own.
- Not modelled in the clients:
  - the `api.ts` refresh queue;
  - the service worker and the push registration functions of `push.ts` other than `urlBase64ToUint8Array`;
  - card transforms, swipe offsets, velocities and opacity beyond the drag-end decision;
  - pull-to-refresh;
  - the request parameters `fetchNews` builds and its `?? 0` count defaults (the model receives the fetched items);
  - JSX rendering, `Header`, `BottomNav`, `MyPage`, `TermsPage`, `NewsCard`, `NewsList` and the mock state of `NewsDetail` and `LoginModal`;
  - the `design/` copies, `mockNews.ts` and `NEWS_DATA`.
- Orchestration not modelled: `reconstruct.py`'s main, `run_daily.py`, `run_batch.py`'s argparse and subprocess calls, `server.js`, the Sentry and web-push configuration and all logging.
- `validator.py` and `preprocessor.py` are absent from `pipeline/reconstruction/` (older copies exist under `pick news/AI Reconstruction/`); the validation and preprocessing stage is left out.

## Findings

| source | as written | input that shows it | evidently intended | confidence | as-written member | corrected member |
|---|---|---|---|---|---|---|
| pipeline/reconstruction/db_loader.py:89 | a failed insert calls `conn.rollback()`, which undoes every row of the transaction inserted before it, although those rows were already counted in `inserted`; the final `commit` then saves only the rows after the last failure | one article with all fields followed by one without a `title`: the report says one inserted and one failed, and nothing is committed | roll back only the failed row (a savepoint per article), so every counted row is committed | not executed | DbLoader.RollbackLosesRows | DbLoader.SavepointsCommitWritten |
