# Verified model of the OpenAPI generator and the uptime tracker

A Dafny model of the two parts of the repository that hold real state or algebra, with
proofs of what they keep, lose and promise.

**The OpenAPI generator** (`scripts/gen-openapi`) reads handler comments, normalises path
templates, files endpoints under their method and anonymised path, merges partial
parameter descriptions, extends the hand-written routes and builds the specification.

| module | what it models |
|---|---|
| `Strings`, `Sorting` | the parts of Go's `strings` and `sort` the generator uses; `sort.Slice` promises a permutation, and order only where the comparison is a weak order |
| `PathTemplates` | the two placeholder patterns as leftmost scanners, path normalisation, endpoint keys |
| `Params`, `MergeAlgebra`, `MergeLaws`, `MergeRepeats` | parameter definitions, the merge loop with its index map, its content, its laws, and what it does to keys that repeat |
| `Parameters`, `OperationLists` | path parameters from four sources; query parameters and the parameter list of an operation |
| `FunctionBodies`, `Handlers`, `HandlerFiles`, `PrintedHandlers` | function bodies by brace counting, announcements in comments, one handler file, and a printed handler read back |
| `EndpointParams`, `Accumulation`, `Discovery` | what one header tells of its parameters, what all headers of an endpoint add up to, a directory of handler files |
| `Routes`, `SpecBuilder`, `Generator` | augmentation, operation identifiers, paths and tags, the whole run |

**The uptime tracker** (`services/health-check-service`) keeps one record per service:
status, last sighting, accumulated uptime and downtime, incidents.

| module | what it models |
|---|---|
| `UptimeTracker` | one tracker, its tick and its probe, and every history of them |
| `UptimeHistory` | the incident log as a function of the whole tick history, and outages |
| `UptimeMonitor` | the shared objects and the methods that update them in place |
| `UptimeRuns` | the service as a state machine over interleaved steps, with a tick round that other steps may interrupt |

Two kinds of input are parameters. `Tables` stands for the name tables (types, formats,
examples and descriptions by parameter name, tags and security by path): any total
functions, with non-empty types and descriptions. `Classifiers` stands for the comment and
body patterns: any functions from a line or a body to what is found there. Every result
holds for all of them, so for the repository's own. Directory entries, file contents and
clock readings are parameters too.

## What the proofs found

- A route parameter whose `in` is blank is read as a query parameter when rendered, but
  never gets that far. It is not without effect, though: it hides an earlier path override
  of its name (`BlankParamErasesOverride`). Parameters that are neither `path` nor `query`
  change nothing exactly when they hide no override that would
  (`PathParamsIgnoreUnplacedIff`, `OperationIgnoresUnplacedIff`). The output loop's second
  application of path overrides never changes anything (`OverrideIsAbsorbed`).
- What a "Path param" comment says about a placeholder is overridden by the tables, except
  that where comments repeat a placeholder only the last of them is: nothing of the comments
  is left exactly when the others say what the tables say
  (`CommentsOnPlaceholdersAreOverriddenIff`). The order of what is left is then up to the
  sort (`ToldIsUniqueIff`).
- Parameters are sorted by name before a route reads them by position, so a route that
  renames placeholders gets the i-th name in alphabetical order for its i-th placeholder.
  That is the i-th one announced, for every i, exactly when they were announced in that
  order and as often as comments and template tell of each (`PositionsFollowTemplateIff`,
  `RenamedPlaceholderTakes`). When the order of the list matters at all is exactly known
  (`OrderDoesNotMatterIff`).
- The sort comparison is a weak order exactly when no two non-path locations mix in a
  certain way (`ComparisonIsWeakOrderIff`); a blank location beside `query` breaks it.
  The generator itself only merges lists on which it is one.
- Repeated parameters in comments survive discovery (`UniqueIffBaseUnique`), but not the
  parameter list of an operation, which has duplicates exactly when the path repeats a
  placeholder (`NoDuplicatesIffDistinctPlaceholders`). How many definitions of each are left
  is exactly known (`AccumulatedCount`); without such repetitions the generator has only
  one result (`GenerationIsDeterministic`).
- Operation identifiers are not unique (`IdentifiersCollide`): they agree exactly when the
  methods do up to case, and the paths do after erasing braces and reading slashes as
  underscores (`SameOperationIDIff`, `SameSlugIff`).
- The service's README calls uptime the share of time a service was available. The code
  counts everything since the last healthy probe as uptime when an outage ends, so an
  outage that no such probe saw is uptime in full (`OutageCountsAsUptime`). The model
  follows the code.
- From one healthy tick to the next, uptime and downtime together gain the time elapsed,
  and after an outage also the time since its last contact and what its ticks after the
  first book. So, in clock order, they fit in the time elapsed only if there was no outage,
  or its last contact is as late as its end and those ticks book nothing (`TotalsFitIff`).
  Each total has an exact ledger instead (`UptimeLedger`, `DowntimeLedger`).
- A tick round reads the clock once, so a healthy probe may overtake its visits. A total
  drops exactly at such a visit (`StepLowersTotalIff`, `RunNeverLowersIff`), though both are
  published as counters; uptime, downtime and the reported share can all fall below zero in
  runs of the service (`NegativeUptimeIsReachable`, `NegativeDowntimeIsReachable`). The
  share is below zero exactly when healthy probes have skipped more than the time reported
  on (`ReportsBelowZeroIff`); it never exceeds 100 percent.

## Model

| member | source | states |
|---|---|---|
| Sorting.SortSlice | scripts/gen-openapi/discover.go:376-381 | the sort keeps the elements, and orders them when the comparison is a weak order on them; ties may end up anywhere |
| Sorting.StrictOrderUnique | scripts/gen-openapi/discover.go:376-382 | a strictly ordered sequence is determined by its elements, however it was sorted |
| Strings.LexLessIff | scripts/gen-openapi/discover.go:376-381 | one string comes before another exactly when it is a proper prefix of it, or has the smaller character where they first differ |
| Strings.FieldsJoin | scripts/gen-openapi/discover.go:152-163 | joining words with spaces and splitting into fields gives the words back |
| Strings.FieldsOfSpaced | scripts/gen-openapi/discover.go:136 | so are words between gaps of any white space |
| Strings.AsciiSpaces | scripts/gen-openapi/discover.go:84 | which ASCII characters are white space |
| Strings.SplitJoin | scripts/gen-openapi/discover.go:80 | splitting loses nothing and leaves no separator in a piece |
| Strings.JoinSplit | scripts/gen-openapi/discover.go:164 | joining separator-free pieces and splitting gives the pieces back |
| Strings.TrimSpaceIs | scripts/gen-openapi/discover.go:84 | trimming removes all leading and trailing white space and nothing else |
| Strings.AffixesAre | scripts/gen-openapi/discover.go:37 | what prefixes and suffixes are, and what trimming a prefix leaves |
| Strings.CaseIs | scripts/gen-openapi/discover.go:302-304 | letters change case in alphabetical order, and nothing else changes |
| PathTemplates.MatchIsPlaceholder | scripts/gen-openapi/discover.go:26 | a match of the scanner is a `{name}` or `{name:regex}` the string begins with |
| PathTemplates.PlaceholderMatches | scripts/gen-openapi/discover.go:26 | a string that begins with a placeholder matches that placeholder, whatever follows |
| PathTemplates.NoMatchIsStable | scripts/gen-openapi/discover.go:284-286 | where nothing matched, nothing matches after the rest has been rewritten |
| PathTemplates.RewriteComposes | scripts/gen-openapi/discover.go:284-308 | for every string, rewriting twice is rewriting once, keeping names only if both passes do |
| PathTemplates.NormalFormsAreStable | scripts/gen-openapi/discover.go:284-308 | normalising and anonymising are idempotent, and normalising changes no endpoint key |
| PathTemplates.NormalizePrinted | scripts/gen-openapi/discover.go:284-286 | normalising a printed template drops the regular expressions and nothing else |
| PathTemplates.ExtractAfterNormalize | scripts/gen-openapi/main.go:614-624 | extraction after normalisation returns the placeholder names of a template in order |
| PathTemplates.ExtractUnnormalized | scripts/gen-openapi/main.go:614-624 | without normalisation, what is extracted is all that stands between braces |
| PathTemplates.EndpointKeyIs | scripts/gen-openapi/discover.go:302-308 | the key of a method and a template is the method in upper case, a colon, and the template with empty braces |
| PathTemplates.SameKeyIffSameEndpoint | scripts/gen-openapi/discover.go:302-308 | endpoint keys agree exactly when methods agree up to case and templates up to placeholder names and regular expressions |
| Params.KeyIs | scripts/gen-openapi/discover.go:385-391 | a key is the location, a colon and the name; a blank location is read as `query` |
| Params.KeyTellsApart | scripts/gen-openapi/discover.go:385-391 | for locations without a colon, keys agree exactly when names and effective locations do |
| Params.KeyIsStableIff | scripts/gen-openapi/discover.go:385-397 | overriding keeps the key exactly when the override is blank or means the same location |
| Params.ColonLocationLosesKey | scripts/gen-openapi/discover.go:385-391 | two definitions that share a key and lose it when merged |
| Params.ComparisonIsWeakOrderIff | scripts/gen-openapi/discover.go:376-381 | exactly which lists the comparison orders weakly, as sorting needs |
| Params.BlankLocationBreaksComparison | scripts/gen-openapi/discover.go:376-381 | a blank location beside `query` on which it does not |
| Params.MergeParamDefs | scripts/gen-openapi/discover.go:360-383 | the index-map loop and the sort return a permutation of the gathered definitions, for all inputs, ordered wherever the comparison is a weak order |
| MergeAlgebra.CombineIsIdempotentMonoid | scripts/gen-openapi/discover.go:393-414 | overriding is associative and idempotent, with "no definition" as unit |
| MergeAlgebra.LastSettingWins | scripts/gen-openapi/discover.go:393-414 | folded over a key's occurrences, the first gives the name and the last that sets a field gives the field |
| MergeAlgebra.GatherKeys | scripts/gen-openapi/discover.go:361-375 | the keys gathered are exactly those of both lists |
| MergeAlgebra.GatherContent | scripts/gen-openapi/discover.go:361-375 | over a base with unique keys, every key ends with its occurrences folded in order, and keys stay unique |
| MergeAlgebra.MergeContent | scripts/gen-openapi/discover.go:360-383 | the same of the sorted result, whatever happens to ties |
| MergeAlgebra.UniqueIffBaseUnique | scripts/gen-openapi/discover.go:363-375 | the result has unique keys exactly when the base has |
| MergeLaws.MergeLocations | scripts/gen-openapi/discover.go:360-383 | a merge brings in no location that neither list had |
| MergeLaws.CanonicalIsUnique | scripts/gen-openapi/discover.go:376-382 | ordered lists with unique keys and the same content are equal |
| MergeLaws.CanonicalIs | scripts/gen-openapi/discover.go:376-382 | in a merged list with unique keys, path parameters come first and names ascend in each place |
| MergeLaws.MergeIsUnique | scripts/gen-openapi/discover.go:360-383 | on path and query parameters over a base with unique keys, there is one possible result |
| MergeRepeats.MergeOccurrences | scripts/gen-openapi/discover.go:360-383 | whatever either list repeats: the definitions of each key are those of the base, the last one overridden by the fold of the extra ones |
| MergeRepeats.MergeIsUniqueIff | scripts/gen-openapi/discover.go:360-383 | on path and query parameters, there is one possible result exactly when no key ends with two different definitions |
| MergeLaws.MergeAssociative | scripts/gen-openapi/discover.go:360-383 | merging is associative |
| MergeLaws.MergeIdempotentWithUnit | scripts/gen-openapi/discover.go:360-383 | merging a list with itself, or with nothing on either side, only sorts it |
| MergeLaws.MergeOfCanonical | scripts/gen-openapi/discover.go:360-383 | and leaves a sorted list as it is |
| MergeLaws.MergeStreams | scripts/gen-openapi/discover.go:367-375 | a list may be merged in two parts even when keys repeat within and across them |
| MergeLaws.MergeIsRightBiased | scripts/gen-openapi/discover.go:360-414 | what one side defines is kept, what both define is overridden by the right |
| Parameters.IndexByName | scripts/gen-openapi/discover.go:324-327 | the index holds the last definition of each name, under that name |
| Parameters.ByNameIsLast | scripts/gen-openapi/main.go:417-420 | a name stands for the last definition that has it |
| Parameters.FirstOfPair | scripts/gen-openapi/discover.go:349-354 | the first of a path parameter merged with a namesake is overridden only by another path parameter |
| Parameters.MergeDiscoveredPathParams | scripts/gen-openapi/discover.go:318-358 | the loop with its three overlays computes the path parameters of the template |
| Parameters.OneParamPerPlaceholder | scripts/gen-openapi/discover.go:329-357 | one path parameter for each placeholder, in template order, with its name |
| Parameters.LastSourceWins | scripts/gen-openapi/discover.go:331-354 | each field is from the last of four sources that sets it: tables, position, name, override; named sources count only if they say `path` |
| Parameters.OrderDoesNotMatterIff | scripts/gen-openapi/discover.go:324-351 | the order of a discovered list with distinct names is irrelevant exactly when, at each position read, every field is set by name or agreed upon |
| Parameters.OrderDoesNotMatter | scripts/gen-openapi/discover.go:324-351 | in particular it is irrelevant when every placeholder is settled by name, despite the positional fallback |
| Parameters.OrderMattersWithoutTheName | scripts/gen-openapi/discover.go:337-348 | a template and a list whose order decides, the name being absent |
| OperationLists.OperationParametersAre | scripts/gen-openapi/main.go:416-505 | an operation lists a path parameter for each placeholder, in order, then query parameters, all with type and description |
| OperationLists.PathParametersAreRequiredIff | scripts/gen-openapi/main.go:484-487 | a path parameter is marked required exactly when no path parameter of its name denies it last |
| OperationLists.OverrideIsAbsorbed | scripts/gen-openapi/main.go:438-444 | applying an override to a path parameter a second time changes nothing |
| OperationLists.MergeQueryParams | scripts/gen-openapi/main.go:430-435 | merging query parameters one at a time is one merge of all of them |
| OperationLists.RenderPathParams | scripts/gen-openapi/main.go:437-444 | the output loop renders the path parameters as they were |
| OperationLists.OperationParametersAreListed | scripts/gen-openapi/main.go:416-505 | without going through the code: a path parameter for each placeholder in order, then one query parameter for each name that discovery or the route defines, names ascending; every field of each is the last that is set, or what the tables say |
| OperationLists.OperationIsListed | scripts/gen-openapi/discover.go:310-316 | what was found is that of the key of method and path, in any letter case; without an entry there, the lists of the route alone |
| OperationLists.BuildParameters | scripts/gen-openapi/main.go:416-450 | for every route, method and discovery whose query parameters say `query`, the list is the one above, and equal to the path parameters followed by one merge of the query parameters |
| OperationLists.NoDuplicatesIffDistinctPlaceholders | scripts/gen-openapi/main.go:429-449 | no two parameters share name and location exactly when no placeholder repeats |
| OperationLists.PathParamsIgnoreUnplacedIff | scripts/gen-openapi/main.go:416-428 | the path parameters are the same without route parameters that are neither `path` nor `query` exactly when none of those hides an override that says something new |
| OperationLists.OperationIgnoresUnplacedIff | scripts/gen-openapi/main.go:416-449 | so is the whole parameter list, exactly when what they hide would not change what is rendered |
| OperationLists.BlankParamErasesOverride | scripts/gen-openapi/main.go:417-420 | a blank parameter after a path override of the same name erases it |
| FunctionBodies.ExtractFunctionBody | scripts/gen-openapi/discover.go:249-282 | the nested loops cut out the braced text of the function, or nothing |
| FunctionBodies.BraceDepthCounts | scripts/gen-openapi/discover.go:264-271 | the depth of a line is its number of opening braces less that of closing ones |
| FunctionBodies.DepthAfterCounts | scripts/gen-openapi/discover.go:259-278 | the depth after some lines is that of their text |
| FunctionBodies.TextIsJoined | scripts/gen-openapi/discover.go:272-277 | the text of some lines is these lines joined by newlines, with one at the end |
| FunctionBodies.OnlyFunctionsHaveBodies | scripts/gen-openapi/discover.go:249-257 | only a line that begins with `func ` has a body |
| FunctionBodies.BodySpansBraces | scripts/gen-openapi/discover.go:259-281 | exactly these lines are cut out, joined by newlines: from the first that opens a brace, to the first after it up to which there are as many closing as opening braces, or to the end |
| Handlers.UniqueStrings | scripts/gen-openapi/discover.go:460-471 | the first occurrence of each value, in order |
| Handlers.Dedup | scripts/gen-openapi/discover.go:460-471 | the values kept are the same, without repetition |
| Handlers.VerbsOfWordsAre | scripts/gen-openapi/discover.go:162-170 | the methods read are exactly the pieces between spaces and slashes that name one in any case |
| Handlers.ParseMethodsAndPath | scripts/gen-openapi/discover.go:135-177 | the scanning, joining and splitting computes the parsed route, or rejects |
| Handlers.RejectedIff | scripts/gen-openapi/discover.go:135-177 | a route is rejected exactly when no word begins with `/api`, or no method is named before the first that does |
| Handlers.PunctuationIs | scripts/gen-openapi/discover.go:160 | which characters are sentence punctuation |
| Handlers.AnnouncementRoundTrip | scripts/gen-openapi/discover.go:135-177 | methods separated by slashes or spaces, a path under `/api` with sentence punctuation, and any further words, are read back as those methods, each once, and that path, whatever white space there is |
| Handlers.NormalizedApiPath | scripts/gen-openapi/discover.go:97-99 | normalisation keeps the `/api` prefix and brings in no trailing punctuation |
| Handlers.ParseQueryParamsComment | scripts/gen-openapi/discover.go:188-212 | the loop over the chunks of a comment computes the parameters of the chunks that are not blank |
| Handlers.MentionIsRead | scripts/gen-openapi/discover.go:192-203 | a name with or without a type hint in parentheses, and any white space around it, is read as that name and type |
| Handlers.QueryCommentRoundTrip | scripts/gen-openapi/discover.go:188-212 | parameters mentioned in a comment, separated by commas, are read back in order with their types |
| Handlers.HintIs | scripts/gen-openapi/discover.go:434-445 | which hints give which type, in any letter case |
| Handlers.DiscoverQueryParamsFromBody | scripts/gen-openapi/discover.go:214-247 | sorted by name, one parameter for each name read from the query or only from a form |
| Handlers.BodyQueryParamsAre | scripts/gen-openapi/discover.go:214-247 | every field of the parameter of each name read, and the order of names |
| Handlers.BodyQueryIsUnique | scripts/gen-openapi/discover.go:214-247 | that list depends on the names only, not on the order of matches |
| HandlerFiles.WindowIsLongestRun | scripts/gen-openapi/discover.go:103-122 | a window is the longest run of comment lines that fits in six |
| HandlerFiles.ReadWindow | scripts/gen-openapi/discover.go:103-122 | the inner loop finds the window and the parameters said in it |
| HandlerFiles.ParseHandlerFile | scripts/gen-openapi/discover.go:79-133 | one endpoint for each header of the file, with its parameters merged from comments, placeholders and body |
| HandlerFiles.WindowsAdvance | scripts/gen-openapi/discover.go:83-130 | windows advance without overlap |
| HandlerFiles.HeadersAreKept | scripts/gen-openapi/discover.go:83-130 | a header is passed over only inside an earlier window |
| HandlerFiles.AnnouncementsAreKept | scripts/gen-openapi/discover.go:79-133 | both of these for every file and every announcing line |
| HandlerFiles.AnnouncementIs | scripts/gen-openapi/discover.go:84-101 | what a line announces: the methods and path of its route, without regular expressions, and its summary |
| HandlerFiles.HeadersAnnounce | scripts/gen-openapi/discover.go:83-101 | every header of a file starts on a line that announces what it says |
| HandlerFiles.HeadersHaveWindows | scripts/gen-openapi/discover.go:103-122 | its window is the longest run of comment lines after that line, six at most |
| HandlerFiles.HeadersSay | scripts/gen-openapi/discover.go:110-120 | its parameters are what the lines of that window say, in order, field by field |
| HandlerFiles.HeadersHaveBodies | scripts/gen-openapi/discover.go:124 | its body is that of the function on the line after the window |
| PrintedHandlers.BodyOfFunction | scripts/gen-openapi/discover.go:249-282 | the body of a function that opens a brace on its first line, and closes the last one on its last, is all its text |
| PrintedHandlers.SourceHasHeader | scripts/gen-openapi/discover.go:79-133 | a file printed as an announcement, at most six comment lines and a function has a header with that announcement and the text of that function |
| PrintedHandlers.ReadNameIsTold | scripts/gen-openapi/discover.go:124-125 | every name that the body of a header reads has a query parameter |
| PrintedHandlers.HandlerRoundTrip | scripts/gen-openapi/discover.go:79-133 | so a printed handler is read as an endpoint with what its line announces and a query parameter for every name its function reads |
| HandlerFiles.AnnouncementIsSound | scripts/gen-openapi/discover.go:85-101 | some methods, none twice, all lower-case and allowed; a normal path under `/api` without trailing punctuation |
| EndpointParams.FoundIs | scripts/gen-openapi/discover.go:124-126 | what is found in the path or the body, key by key, and where it is located |
| EndpointParams.ToldParamsHaveKeys | scripts/gen-openapi/discover.go:110-126 | an endpoint's parameters are exactly those of its comments and of its placeholders or body |
| EndpointParams.ToldParamsAre | scripts/gen-openapi/discover.go:110-126 | whatever comments repeat: the parameters of each key are those of the comments, the last one overridden by the placeholder or the body |
| EndpointParams.ToldParamIs | scripts/gen-openapi/discover.go:110-126 | a parameter the comments do not repeat is what the comments say, overridden by the placeholder or the body |
| EndpointParams.ToldIsUniqueIff | scripts/gen-openapi/discover.go:124-126 | there is one possible result exactly when no key ends with two different parameters |
| EndpointParams.PositionsFollowTemplateIff | scripts/gen-openapi/discover.go:126 | the parameters come in template order exactly when the placeholders ascend and there are as many of each name as comments and template tell of |
| EndpointParams.PositionsFollowTemplateIfUnrepeated | scripts/gen-openapi/discover.go:126 | in particular, if no comments repeat a parameter, exactly when the placeholders are distinct and ascend, and comments add none |
| EndpointParams.ToldCountIs | scripts/gen-openapi/discover.go:110-126 | as many parameters of a key as the comments say, or one if only the path or the body tells of it |
| EndpointParams.RenamedPlaceholderTakes | scripts/gen-openapi/discover.go:337-348 | a renamed placeholder is given what the tables say of the name at its position in that order |
| EndpointParams.PlaceholdersAreCovered | scripts/gen-openapi/discover.go:126 | every placeholder has a path parameter |
| EndpointParams.CommentsOnPlaceholdersAreOverriddenIff | scripts/gen-openapi/discover.go:110-126 | nothing that comments say of a placeholder is left exactly when each of them but the last says what the tables say |
| Accumulation.AccumulatedParamsArePlaced | scripts/gen-openapi/discover.go:49-60 | merged contributions stay in their place, with unique keys exactly when the first one's comments have |
| Accumulation.AccumulatedParamsAreTold | scripts/gen-openapi/discover.go:49-60 | the parameters merged are exactly those some contribution tells of |
| Accumulation.AccumulatedCount | scripts/gen-openapi/discover.go:49-60 | exactly as many definitions of a parameter are left as the first contribution's comments have, or one if only other sources tell of it |
| Accumulation.AccumulatedParamIs | scripts/gen-openapi/discover.go:49-60 | a parameter that no comments repeat is there once, as what the contributions tell of it, folded in order |
| Accumulation.AccumulationIsUnique | scripts/gen-openapi/discover.go:49-60 | if no comments repeat a parameter, there is one possible result |
| Accumulation.FirstOfIs | scripts/gen-openapi/discover.go:49-58 | the first contribution of a key comes before all others of it |
| Accumulation.SummaryIs | scripts/gen-openapi/discover.go:61-63 | the summary is that of the first contribution of the key that has one |
| Accumulation.ToldByIs | scripts/gen-openapi/discover.go:49-60 | of all definitions that the contributions tell of a parameter, the last that sets a field gives the field |
| Discovery.Register | scripts/gen-openapi/discover.go:46-65 | one contribution more: first method and path, first summary that is not blank, its parameters merged over the earlier ones |
| Discovery.DiscoverHandlerEndpoints | scripts/gen-openapi/discover.go:29-69 | the map accounts for all contributions of all handler files; it fails exactly when the directory cannot be listed or one of them cannot be read |
| Discovery.IsHandlerFileIff | scripts/gen-openapi/discover.go:37 | a handler file is a file whose name ends in `.go` but not in `_test.go` |
| Discovery.DiscoveryLosesNothing | scripts/gen-openapi/discover.go:35-68 | an entry for exactly the announced endpoints, each under the key of its own method and path |
| Discovery.DirContributionsAreSound | scripts/gen-openapi/discover.go:35-68 | all headers of a directory announce sound endpoints and keep path and query parameters apart |
| Discovery.DiscoveredParamsAre | scripts/gen-openapi/discover.go:35-68 | an entry's parameters, path and query apart, are those its announcing headers tell of, in exactly known numbers, and each that no comments repeat is what they tell, folded in order |
| Routes.SortedKeys | scripts/gen-openapi/main.go:516-520 | the keys of a map in strictly ascending order, however it is visited |
| Routes.AugmentRoutesFromDiscovery | scripts/gen-openapi/main.go:507-537 | the routes, then one route for each unknown discovered endpoint in key order |
| Routes.AugmentationIsUnique | scripts/gen-openapi/main.go:516-534 | the visiting order of the map leaves no trace |
| Routes.AugmentationCovers | scripts/gen-openapi/main.go:507-537 | the routes stay a prefix, and exactly their keys and the discovered ones are covered |
| Routes.AugmentationAppendsNew | scripts/gen-openapi/main.go:522-534 | the routes appended have one key each, ascending, distinct and not known before; path, method, tag, summary and security of each |
| Routes.AugmentTwice | scripts/gen-openapi/main.go:507-537 | augmenting twice is augmenting once |
| SpecBuilder.SameOperationIDIff | scripts/gen-openapi/main.go:408-414 | for all paths, identifiers agree exactly when methods agree up to case and paths as slugs |
| SpecBuilder.SameSlugIff | scripts/gen-openapi/main.go:408-414 | slugs agree exactly when the paths do, up to braces and to slashes in the place of underscores |
| SpecBuilder.SameOperationIDUnderApi | scripts/gen-openapi/main.go:408-414 | under `/api/` and without underscores, identifiers agree exactly when methods agree up to case and paths up to braces |
| SpecBuilder.OperationIDIs | scripts/gen-openapi/main.go:408-414 | the identifier is the method in lower case, then the pieces of the path without `/api` and braces, joined by underscores |
| SpecBuilder.OperationIs | scripts/gen-openapi/main.go:174-194 | every field of an operation: tag, summary, identifier, security, whether it has a body, parameters |
| SpecBuilder.IdentifiersCollide | scripts/gen-openapi/main.go:408-414 | for every method and anywhere in a path, a slash collides with an underscore and a brace with nothing |
| SpecBuilder.BuildSpec | scripts/gen-openapi/main.go:162-204 | tags sorted without repetition, a path item for each route path, and at each path and method the last operation written |
| SpecBuilder.SpecIsUnique | scripts/gen-openapi/main.go:162-204 | routes and discovered endpoints determine the specification |
| SpecBuilder.OperationIffKnown | scripts/gen-openapi/main.go:166-196 | exactly the endpoints of the routes have an operation |
| SpecBuilder.HandWrittenOperationsStay | scripts/gen-openapi/main.go:166-196 | appended routes replace no hand-written operation |
| SpecBuilder.AppendedOperationsStay | scripts/gen-openapi/main.go:522-534 | each appended endpoint has its own operation, which nothing overwrites |
| Generator.Generate | scripts/gen-openapi/main.go:70-81 | an operation for exactly the endpoints of routes and handler comments, every field of it as the last route that has the endpoint and its discovered entry say; hand-written ones kept; every parameter list complete, and clean exactly when the path repeats no placeholder; failure exactly when the handler directory or a handler file cannot be read |
| Generator.DiscoveryIsDeterministic | scripts/gen-openapi/discover.go:29-69 | if no comments repeat a parameter, discovery has one possible result |
| Generator.GenerationIsDeterministic | scripts/gen-openapi/main.go:70-81 | then so has the generator, its whole specification included |
| UptimeTracker.LastSeenIs | services/health-check-service/main.go:372-377 | the last sighting is a past time, and for a healthy tracker the last tick |
| UptimeTracker.UptimeLedger | services/health-check-service/main.go:373-377 | uptime plus the time that healthy probes skip is exactly the time from creation to the last sighting |
| UptimeTracker.UptimeIsBounded | services/health-check-service/main.go:373-377 | uptime fits between first and last sighting, and is negative exactly when healthy probes skipped more than that |
| UptimeTracker.PercentageIsInRange | services/health-check-service/main.go:794-815 | the reported share is at most 100, and below 0 exactly when healthy probes skipped more than the time reported on, with the guard for no elapsed time, even if a probe is later than the reading of the clock |
| UptimeTracker.PercentageIs | services/health-check-service/main.go:794-815 | the reported share, exactly: the time reported on since creation, less what healthy probes skipped, out of the time since first sight, or of one second if there is none |
| UptimeTracker.AlwaysHealthyIsFull | services/health-check-service/main.go:794-815 | a service that every tick found healthy, with no healthy probe before the first, is reported with exactly 100 percent |
| UptimeTracker.InOrderIsFair | services/health-check-service/main.go:337-377 | if no event is earlier than one before it, no tick is overtaken, and totals and share are not negative |
| UptimeTracker.DowntimeLedger | services/health-check-service/main.go:357-382 | downtime is exactly resolved incident time plus what each unhealthy tick books since the last sighting |
| UptimeTracker.DowntimeIsNegativeIff | services/health-check-service/main.go:357-382 | downtime is negative exactly when unhealthy ticks have booked less than nothing beyond what was resolved |
| UptimeTracker.StepLowersIff | services/health-check-service/main.go:348-382 | uptime drops exactly at an overtaken healthy tick, downtime exactly at an overtaken unhealthy one; no incident is removed and settled ones never change |
| UptimeTracker.TotalsNeverDropIff | services/health-check-service/main.go:348-382 | over a whole history, the totals never drop exactly when no tick is overtaken |
| UptimeTracker.IncidentsAreWellFormed | services/health-check-service/main.go:350-369 | only the last incident may be open and only while unhealthy; the others are ordered, disjoint, and last from start to end |
| UptimeTracker.ResolvedTimeFits | services/health-check-service/main.go:357-369 | resolved incidents together fit between first and last sighting |
| UptimeHistory.IncidentsAreBatch | services/health-check-service/main.go:348-370 | the log is the batch of the tick history: one incident for each healthy-to-unhealthy edge, to the next healthy tick |
| UptimeHistory.BeforeFirstHealthyTick | services/health-check-service/main.go:348-382 | the whole state of a new tracker that no tick has found healthy: downtime is booked, no incident opened |
| UptimeHistory.FirstHealthyTick | services/health-check-service/main.go:348-382 | the first healthy tick counts everything since the last healthy probe as uptime and books no downtime |
| UptimeHistory.DuringOutage | services/health-check-service/main.go:348-382 | the whole state of a tracker during an outage with any ticks and probes |
| UptimeHistory.OutageThenRecovery | services/health-check-service/main.go:348-382 | what an outage and the tick that ends it add to uptime and downtime |
| UptimeHistory.OutageCountsAsUptime | services/health-check-service/main.go:373-377 | the recovering tick counts everything since the last contact, or the last healthy tick, as uptime |
| UptimeHistory.PeriodicOutageDowntime | services/health-check-service/main.go:357-381 | an outage of k periodic ticks books period * k * (k + 3) / 2 of downtime, whatever probes there are, if no healthy one falls between two ticks |
| UptimeHistory.TotalsFitIff | services/health-check-service/main.go:357-381 | uptime and downtime gained over any outage, exactly; in clock order at least the time elapsed and, after an outage, the time since its last contact; no more than the time elapsed exactly when there was no outage or its end is its last contact and its later ticks book nothing |
| UptimeMonitor.ServiceUptime.ApplyTick | services/health-check-service/main.go:348-382 | the in-place updates of a tick compute the next state of the tracker |
| UptimeMonitor.ServiceUptime.ApplyProbe | services/health-check-service/main.go:449-455 | so do those of a probe |
| UptimeMonitor.Monitor.TrackRound | services/health-check-service/main.go:336-387 | a round ticks every tracker once, on its own last published check, in any visiting order |
| UptimeMonitor.Monitor.GetOrCreate | services/health-check-service/main.go:390-407 | an existing tracker is returned untouched, a missing one is created and filed |
| UptimeMonitor.Monitor.RecordChecks | services/health-check-service/main.go:446-456 | the tracker updates of a health check, service by service |
| UptimeMonitor.Monitor.Publish | services/health-check-service/main.go:507-510 | the results of a check are published one after the other |
| UptimeMonitor.LastCheckIsPublished | services/health-check-service/main.go:507-510 | what is visible of a checked service is its last check |
| UptimeMonitor.UncheckedStay | services/health-check-service/main.go:507-510 | services that were not checked stay as they were |
| UptimeMonitor.ObservedIs | services/health-check-service/main.go:342-346 | a tick sees a service as it was last published, and as unhealthy before that |
| UptimeMonitor.Monitor.GetServiceAvailability | services/health-check-service/main.go:794-836 | the report of every tracker, in any visiting order |
| UptimeMonitor.AvailabilityIs | services/health-check-service/main.go:815-830 | which figure of the report is which: share, totals, number of incidents, status, last incident |
| UptimeRuns.StepKeepsInvariant | services/health-check-service/main.go:332-407 | every step keeps every tracker explained by its history, with visits no earlier than its last tick |
| UptimeRuns.ReachableIsExplained | services/health-check-service/main.go:332-456 | every reachable state has a history for each of its trackers |
| UptimeRuns.ReachableTrackersAreSound | services/health-check-service/main.go:332-456 | over all interleavings: uptime bounded, log well formed, resolved outages fit |
| UptimeRuns.ReachableTrackersAreAccounted | services/health-check-service/main.go:332-456 | over all interleavings: the batch log and both exact ledgers |
| UptimeRuns.StepLowersTotalIff | services/health-check-service/main.go:336-407 | a step of the service lowers a total of a tracker exactly when it is an overtaken visit of it |
| UptimeRuns.RunNeverLowersIff | services/health-check-service/main.go:336-407 | over a whole run, no total ever drops exactly when no visit is overtaken |
| UptimeRuns.ReportsBelowZeroIff | services/health-check-service/main.go:794-815 | in every reachable state, whatever falls between the reading of the clock and the visit of a tracker: at most 100 percent is reported, and a share below 0 exactly when healthy probes skipped more than the time reported on |
| UptimeRuns.ReportsAre | services/health-check-service/main.go:794-815 | and exactly which share is reported there |
| UptimeRuns.TotalsBelowZeroIff | services/health-check-service/main.go:336-456 | in every reachable state, exactly when each total is negative |
| UptimeRuns.NegativeUptimeIsReachable | services/health-check-service/main.go:336-456 | a run of the service to a negative uptime and a negative share |
| UptimeRuns.NegativeDowntimeIsReachable | services/health-check-service/main.go:336-456 | a run of the service to a negative downtime |
| UptimeRuns.PoliteRunsReportInRange | services/health-check-service/main.go:337-456 | a case of both: with no probe between a round's start and its visit, the report stays between 0 and 100 percent |
| UptimeRuns.FullRound | services/health-check-service/main.go:336-387 | visits in any order without interruption add up to the atomic round |
| UptimeRuns.RecordingIsARun | services/health-check-service/main.go:446-456 | recording a check without interruption is the steps of creating and probing, service by service |
| UptimeRuns.PublishingIsARun | services/health-check-service/main.go:507-510 | publishing a check is publishing its results one by one |

## Left out

- Accumulation.AccumulationIsUnique: a sufficient condition only; where comments repeat a parameter, a later header may override the difference that an earlier one left, or not, so an exact one would follow every later header. For one header and one merge it is exact (`ToldIsUniqueIff`, `MergeIsUniqueIff`).
- Accumulation.AccumulatedParamIs: says nothing of the content of a parameter that some comments repeat; the sort decides which of its definitions a later header overrides. Their number is exact (`AccumulatedCount`), and so is the content after one merge (`MergeOccurrences`, `ToldParamsAre`).
- OperationLists.OperationParametersAreListed: supposes that discovered query parameters say `query`; all that discovery can find do (`Discovery.DirContributionsAreSound`), and `Generator.Generate` needs no such condition.
- UptimeMonitor.Monitor.TrackRound: an atomic round; interruptions of a round are in `UptimeRuns`.
- Letter case outside ASCII, and strings that are not valid UTF-8.
- The regular expressions for comments and bodies: any classification of lines and bodies is allowed instead.
- The contents of the name, description, tag and security tables: any tables are allowed instead.
- Request bodies, responses and component schemas of the specification: constants and pass-through values.
- YAML reading and writing, environment lookup and the output file.
- Probing over TCP and HTTP, dependency checks, Prometheus output, logging.
- Durations are unbounded integers: the saturation of Go's `time.Duration` after 292 years is not modelled.
- Percentages are exact rationals, not 64-bit floats.
- The unsynchronised map of published checks: each publication is one atomic step, while the language leaves a concurrent read and write undefined.
- Services that share a Prometheus label, and the overall status of a health check: single branches.
