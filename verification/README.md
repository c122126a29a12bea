# prompt-plus-plus-mcp, modelled in Dafny

prompt-plus-plus-mcp serves prompt-refinement templates ("metaprompt strategies") to
clients over the Model Context Protocol. It has a Python server and a TypeScript server,
and a web UI that reaches the TypeScript server through a small HTTP bridge. This project
models the decision logic of those programs as pure Dafny functions and proves what the
code promises about them:

- the strategy catalog, its loading as a fold over parsed files, and its lookups and
  projections: the Python manager, and the TypeScript manager with its compiled
  JavaScript twin;
- the three auto-selection decision lists, with their alternatives tables and the
  detected-type classifier;
- the strategy-fit scorer and the comparison of candidates, with the two tie-breaking
  rules;
- template substitution, prompt and workflow dispatch by name, and the argument checks
  of the workflow handlers;
- the TTL cache and the LRU cache as state machines over an explicit clock;
- the collections manager, the usage counters, the error taxonomy and the error handler;
- the recursive JSON schema checker and the declarative argument schemas;
- the HTTP bridge's stdout framing, its table of pending request ids, strategy-list
  normalisation, enrichment and search, the parsing of refinement replies, and the order
  in which its routes are matched;
- the web client's derivation of a strategy key from a reply.

Each module follows one source file. Shared vocabulary lives in `Wrappers` (Option and
Result), `Text` (ASCII lower-casing, substring search, the two whitespace classes, split,
join and replace), `Json` (parsed values whose object fields keep document order), `Catalog`,
`Selection` (decision lists), `Scoring`, `ArgMax` and `Expiry`. Parsed JSON, `JSON.parse`,
the clock and the template processor are parameters.

## Model

| member | source | states |
|---|---|---|
| ArgMax.FirstMax | src/core/prompt_refiner.py:168 | Python's `max` with a key returns an index of a maximal score, and every earlier candidate scores strictly less. |
| ArgMax.LastMax | src/prompt-refiner.ts:247-249 | The `reduce` with strict `>` returns an index of a maximal score, and every later candidate scores strictly less. |
| ArgMax.FirstMaxIsLastMaxIffUnique | src/prompt-refiner.ts:247-249 | The two tie-breaking rules pick the same candidate exactly when the maximum is attained once. |
| ArgMax.TieBreaksDiffer | src/core/prompt_refiner.py:168 | On two equal scores Python keeps the first candidate and the TypeScript `reduce` keeps the second. |
| Selection.FirstMatch | src/core/prompt_refiner.py:76-99 | The rule found holds, no earlier rule holds, and None means no rule holds. |
| Selection.Decide | src/core/prompt_refiner.py:76-99 | The first rule whose condition holds decides, with its key and reason. When no rule holds, the default decides. |
| Selection.KeywordDecidesByRule | src/prompt-refiner.ts:259-261 | A text containing a keyword of rule i is decided by rule i or an earlier one. |
| Selection.ShadowedKeyword | src/prompt-refiner.ts:15 | A later keyword that contains an earlier rule's keyword can never select its own rule. (Also lines 30, 62, 68, 71, 91, 97.) |
| Selection.UnreachableNeverDecides | src/prompt-refiner.ts:15-145 | A rule all of whose keywords contain an earlier rule's keyword is never the first match, whatever the text. |
| Selection.CoveredDecisionHasAlternative | src/core/prompt_refiner.py:101-126 | When the table maps every rule key and the default to a different key, every decision has such an entry. |
| Text.JsVersusPyWordCount | src/prompt-refiner.ts:9 | `split(/\s+/).length` counts 1 for "" where Python's `len(split())` counts 0, and otherwise counts one more word per leading or trailing whitespace. |
| Scoring.Applied | src/core/prompt_refiner.py:200-228 | A bonus is applied exactly when its strategy gate opens and the prompt passes its test. |
| Scoring.Complexity | src/core/prompt_refiner.py:231-236 | Complexity is 80, 50 or 30, with 80 exactly above 50 words and 30 exactly below 20 words. |
| Scoring.Rate | src/core/prompt_refiner.py:195-242 | Suitability is 50 plus the points of the applied bonuses, capped at 100. The strengths are those of the applied bonuses in table order, or just "general purpose" when none applies. Every strength other than "general purpose" belongs to an applied bonus. |
| Scoring.RateOneMore | src/core/prompt_refiner.py:200-228 | A bonus in front of the table that applies raises the suitability by its points below the cap, or to 100 at the cap, and its strength comes first. One that does not apply changes nothing. |
| Scoring.RateWithExtraBonuses | src/prompt-refiner.ts:282-313 | Adding bonuses in front never lowers suitability. It changes nothing when none of the added bonuses applies. |
| Scoring.PutEntry | src/core/prompt_refiner.py:160-165 | Assigning a key keeps the key order, and appends the key when it is new. The new entry is present, every entry with another key is kept, and nothing else is added. |
| Scoring.Collect | src/core/prompt_refiner.py:154-165 | The compared keys are distinct and are exactly the candidates the catalog knows. Each entry carries its key, the catalog strategy's name and that strategy's rating. |
| Scoring.MaxEntryRatesBest | src/core/prompt_refiner.py:154-175 | An entry of maximal suitability among collected entries belongs to a known candidate that rates at least as well as every known candidate. |
| Scoring.RecommendedRatesBest | src/core/prompt_refiner.py:154-175 | The recommended key is known, and its rating is not below that of any known candidate, under either tie rule. |
| Scoring.Recommend | src/core/prompt_refiner.py:167-175 | No rows means failure, with Python's "max() arg is an empty sequence" or JavaScript's "Reduce of empty array with no initial value". Otherwise the recommendation has a maximal suitability, and the reasoning names it and its strengths. Ties break first-wins for Python and last-wins for TypeScript. |
| CoreRefiner.AlternativeOf | src/core/prompt_refiner.py:117 | The alternative is the table entry, or "star" when the key has none. |
| CoreRefiner.DetectType | src/core/prompt_refiner.py:177-188 | The type is one of five labels, decided by the first keyword group that occurs: "creative", then "technical", "mathematical" and "analytical". It is "general" exactly when no keyword of the four groups occurs. |
| CoreRefiner.NameOr | src/core/prompt_refiner.py:123-126 | The strategy's name when the catalog has the key, otherwise the key. |
| CoreRefiner.AutoSelect | src/core/prompt_refiner.py:63-131 | The recommendation and reason come from the eight-rule list over the lower-cased prompt and the `split()` word count. The alternative comes from the table, and the names from the catalog with the key as fallback. The type comes from the classifier. |
| CoreRefiner.AlternativesCoverRules | src/core/prompt_refiner.py:104-115 | Every key the list can recommend has a table entry different from itself. |
| CoreRefiner.AlternativeDiffers | src/core/prompt_refiner.py:117 | The alternative always comes from the table and never equals the recommendation, so the "star" fallback is dead. |
| CoreRefiner.EmptyPromptSelectsMorphosis | src/core/prompt_refiner.py:73-93 | The empty prompt has 0 words and selects "morphosis". |
| CoreRefiner.FictionIsStarButGeneral | src/core/prompt_refiner.py:76 | "fiction" selects "star" but is classified "general". (Also lines 177-188.) |
| CoreRefiner.Fit | src/core/prompt_refiner.py:190-248 | The fit is the shared scorer over the six-bonus table and the `split()` word count. So suitability lies in [50, 100], strengths are never empty, and complexity depends only on the word count. |
| CoreRefiner.DefaultCandidates | src/core/prompt_refiner.py:146-152 | Without keys the candidates are the recommendation, the alternative and "physics", deduplicated in first-seen order. That is one, two or three keys: one when all coincide, and "physics" last unless it is the recommendation or the alternative. |
| CoreRefiner.CompareKeys | src/core/prompt_refiner.py:154-175 | The comparison fails exactly when no candidate is known. Otherwise every compared entry holds its strategy's name and its `Fit` score for the prompt, and the recommendation is a known candidate of maximal suitability that no earlier candidate equals. The reasoning names it. |
| CoreRefiner.CompareKeysPicksBestFit | src/core/prompt_refiner.py:154-175 | The recommended strategy's fit for the prompt is at least that of every known candidate. |
| CoreRefiner.Compare | src/core/prompt_refiner.py:133-152 | Explicit keys are compared as given. Omitted keys are replaced by the default candidates of the auto-selection. |
| CoreRefiner.Refine | src/core/prompt_refiner.py:31-61 | An unknown key fails with "Strategy '<key>' not found". Otherwise every placeholder is replaced by the prompt, and the three answer fields are "". |
| TsRefiner.AlternativeOf | src/prompt-refiner.ts:202 | The alternative is the non-empty table entry, or "star". |
| TsRefiner.NameOr | src/prompt-refiner.ts:208-211 | A known key with a non-empty name gives the name. An unknown key or an empty name gives the key. |
| TsRefiner.AutoSelect | src/prompt-refiner.ts:7-217 | The recommendation comes from the 41-rule list over the lower-cased prompt and the `split(/\s+/)` count, which is at least 1. The alternative comes from the table, the names from the catalog with the key as fallback, and the type from the shared classifier. |
| TsRefiner.AlternativesCoverRules | src/prompt-refiner.ts:150-200 | Every key the list can recommend, and the default "done", has a non-empty table entry different from itself. |
| TsRefiner.AlternativeDiffers | src/prompt-refiner.ts:202 | The alternative is always the table entry and differs from the recommendation, so the `\|\| "star"` fallback is unreachable. |
| TsRefiner.PatternShadowed | src/prompt-refiner.ts:30 | Any text containing "pattern" is decided by rule 5 (line 30) or earlier, so "pattern" never selects the rules at lines 71 and 97. (Also lines 71, 97.) |
| TsRefiner.TestShadowed | src/prompt-refiner.ts:62-118 | Text containing "test", "stress test" or "testing" is decided by the rule at line 62 or earlier. |
| TsRefiner.AssumptionShadowed | src/prompt-refiner.ts:15 | Text containing "assumption" is decided by the first rule, never the one at line 91. (Also line 91.) |
| TsRefiner.ContainedKeywordsShadowed | src/prompt-refiner.ts:27 | "database" is caught by the "data" rule and "system design" by the "system" rule, both earlier. (Also lines 45, 112, 124.) |
| TsRefiner.Fit | src/prompt-refiner.ts:277-381 | The fit is the shared scorer over the ten-bonus table (four gated bonuses, then the six Python ones) and the `split(/\s+/)` word count. So suitability lies in [50, 100] and strengths default to "general purpose". |
| TsRefiner.FitExtendsPython | src/prompt-refiner.ts:287-313 | On equal word counts the TypeScript suitability is never below the Python one. The two scores are equal when no key-or-description gated bonus applies. |
| TsRefiner.CompareKeys | src/prompt-refiner.ts:232-256 | The comparison fails exactly when no candidate is known. Otherwise every compared entry holds its strategy's name and its TypeScript `Fit` score, and the recommendation is a known candidate of maximal suitability that no later candidate equals. |
| TsRefiner.CompareKeysPicksBestFit | src/prompt-refiner.ts:232-256 | The recommended strategy's TypeScript fit for the prompt is at least that of every known candidate. |
| TsRefiner.Compare | src/prompt-refiner.ts:219-230 | An explicit list, even an empty one, is used as given, without deduplication or cut. An omitted list becomes the deduplicated default candidates. |
| PyServer.Alternative | src/server.py:168 | The alternative is "verse" or "star" and never the recommendation. |
| PyServer.DetectType | src/server.py:171 | "creative" exactly when "story" occurs, "technical" exactly when "code" occurs without "story", "general" otherwise. |
| PyServer.AutoSelect | src/server.py:142-173 | The decision comes from the five-rule chain, with its word-count test between "math" and "physics". A recommendation the catalog lacks raises the `KeyError` text of that key. Otherwise the name is the catalog's and the reason names the key. |
| PyServer.DecisionIsRecommendable | src/server.py:150-162 | Every decision is one of five keys, and its reason names it. |
| PyServer.ShortPromptBeatsAnalysis | src/server.py:157-160 | A prompt under 10 words with no creative, technical or math keyword selects "morphosis", even when it asks to analyze. |
| PyServer.FallbackSelectionFails | src/server.py:166 | With the fallback catalog, auto-selection always raises the `KeyError` of a recommendable key, since "simple" is never recommended. (Also lines 243-250.) |
| PyServer.Suitability | src/server.py:205-217 | The score is 50, 70, 80 or 90, and each bonus is applied exactly when its key and prompt test hold. |
| PyServer.OtherStrategiesScoreBase | src/server.py:208-217 | A key other than "star", "morphosis" and "math" always scores 50. |
| PyServer.Complexity | src/server.py:219-227 | "low" exactly below 1000 characters, "high" exactly from 3000 characters, "medium" between. |
| PyServer.Rows | src/server.py:187-197 | The rows have distinct keys, which are exactly the listed keys the catalog knows. Each row holds that strategy's data and scores. |
| PyServer.RowsInListOrder | src/server.py:189-197 | The rows come in the order in which their keys first appear in the list, since re-assigning a dictionary key keeps its place. |
| PyServer.RowsListed | src/server.py:189-190 | Every row's key is one of the listed keys. |
| PyServer.KnownKeyHasRow | src/server.py:189-197 | A listed known key gives at least one row. |
| PyServer.Compare | src/server.py:185-204 | The comparison raises "max() arg is an empty sequence" exactly when no listed key is known. Otherwise it recommends a listed key of maximal suitability that no earlier row equals. |
| PyServer.Best | src/server.py:199-204 | `max` over the rows raises "max() arg is an empty sequence" exactly on no rows. Otherwise the recommendation is the key of a row that no row outscores and every earlier row scores below. |
| PyServer.CompareAllKeys | src/server.py:107 | With every catalog key as candidate, comparison fails exactly on an empty catalog. |
| PyServer.Refine | src/server.py:118-141 | An unknown key is answered with "Unknown strategy: <key>". Otherwise every placeholder is replaced, so the instruction contains the prompt exactly when the template had a placeholder. It is the template itself when there was none. The expected format lists the three answer fields. |
| PyServer.FallbackRefineEmbedsPrompt | src/server.py:243-250 | Refining with "simple" against the fallback catalog always embeds the prompt. |
| PyServer.ListStrategies | src/server.py:174-183 | One listing per catalog entry, in order, with its name, description and examples. |
| PyServer.ListingAgreesWithGet | src/server.py:177-182 | On a catalog with distinct keys, each listing agrees with the lookup of its key. |
| PyServer.CallTool | src/server.py:92-116 | Unknown tool names give "Unknown tool: <name>". A missing "prompt" or "strategy" argument raises `KeyError`. A raising auto-selection or comparison becomes "Error: " and the exception text. Comparison without a list uses every catalog key. |
| PyServer.FallbackAutoSelectToolErrors | src/server.py:100-101 | On the fallback catalog the auto-select tool always answers with an error text. (Also lines 114-116, 243-250.) |
| PyServer.FallbackCompareRecommendsSimple | src/server.py:104-108 | On the fallback catalog comparison without a list recommends "simple". (Also lines 243-250.) |
| PyStrategyManager.Insert | src/core/strategy_manager.py:39 | Inserting a file into a name-sorted list keeps it sorted and adds exactly that file. |
| PyStrategyManager.SortByName | src/core/strategy_manager.py:39 | `sorted` gives a name-ordered permutation of the listing. |
| PyStrategyManager.Stem | src/core/strategy_manager.py:43 | The stem followed by ".json" is the file name, except for the bare name ".json", which is its own stem. |
| PyStrategyManager.Record | src/core/strategy_manager.py:44-50 | A record exists exactly when the data is an object whose name, description and template are strings (or absent) and whose examples are a string array (or absent). A present field gives its value; an absent one defaults to the key, "", "" and [] (`data.get(field, default)`). |
| PyStrategyManager.Load | src/core/strategy_manager.py:34-52 | A missing directory raises "Strategies directory not found: <dir>". Otherwise the catalog has distinct keys. |
| PyStrategyManager.LoadGet | src/core/strategy_manager.py:39-52 | A key is loaded exactly when some listed `*.json` file yields a valid record with that stem. Failing files are skipped. |
| PyStrategyManager.LoadIgnoresListingOrder | src/core/strategy_manager.py:39 | Because files are sorted first, any order of the same directory listing loads the same catalog. |
| PyStrategyManager.DistinctNamesKept | src/core/strategy_manager.py:39 | Any rearrangement of files with distinct names keeps their names distinct. |
| PyStrategyManager.SortedUnique | src/core/strategy_manager.py:39 | Two name-sorted arrangements of the same distinct-named files are identical. |
| TsStrategyManager.KeyOfPlainName | src/strategy-manager.ts:51 | For a name whose only ".json" is its suffix, the key is the name without that suffix. |
| TsStrategyManager.KeyOfDoubledName | src/strategy-manager.ts:51 | `replace` removes the first ".json" only, so "v1.json.json" gets the key "v1.json". |
| TsStrategyManager.StrOr | src/strategy-manager.ts:55-58 | A truthy string field is kept. An absent, empty or otherwise falsy field gives the default. |
| TsStrategyManager.Record | src/strategy-manager.ts:50-59 | `null` content throws and is skipped. A primitive gives all defaults. For an object, each of name, description, template and examples is the field's value when truthy, else the key, "", "" and []. So the name is the key exactly when the name field is falsy or equals the key. |
| TsStrategyManager.Load | src/strategy-manager.ts:41-69 | An unreadable directory throws "Strategies directory not found: <dir>". Otherwise the catalog has distinct keys. |
| TsStrategyManager.LoadGet | src/strategy-manager.ts:43-65 | A key is loaded exactly when a listed ".json" file with parsed non-null content has that key. The record kept comes from the last such file in listing order, because `set` overwrites. |
| Catalog.Dedup | src/prompt-refiner.ts:229 | Each element once, with the same element set, starting with the first element. |
| Catalog.DedupOrder | src/prompt-refiner.ts:229 | The elements kept come in the order of their first positions. (Also src/core/prompt_refiner.py:152.) |
| Catalog.FirstIndex | src/core/prompt_refiner.py:152 | The position found holds the element, and no earlier position does. |
| Catalog.DedupThree | src/core/prompt_refiner.py:152 | Deduplicating three keys keeps, in order, each key not equal to an earlier one. |
| Catalog.IndexOf | src/core/strategy_manager.py:54-56 | The position holds the key, and None means the key is absent. |
| Catalog.Get | src/core/strategy_manager.py:54-56 | A record is found exactly when the key is present, and it is a stored record with that key. |
| Catalog.GetUnique | src/strategy-manager.ts:71-73 | With distinct keys, looking up any stored record's key finds that record. |
| Catalog.KnownKeys | src/server.py:189-190 | The known candidates are exactly the given keys the catalog holds. |
| Catalog.KnownKeysOrder | src/server.py:189-190 | Keeping only the known candidates keeps their order of first appearance. |
| Catalog.Put | src/strategy-manager.ts:61 | Setting a present key keeps the key order. Setting a new key appends it. |
| Catalog.PutGet | src/core/strategy_manager.py:44-50 | After a put, the key maps to the new record, every other key maps as before, and keys stay distinct. |
| Catalog.List | src/strategy-manager.ts:83-92 | One `(key, name, description)` entry per catalog entry, in insertion order. |
| Catalog.NamesAreKeys | src/strategy-manager.ts:79-81 | `getStrategyNames` lists a key exactly when some stored record carries it. (Also src/core/strategy_manager.py:68-70.) |
| Catalog.ListAgreesWithGet | src/core/strategy_manager.py:58-66 | The listing has the catalog's key set, and each entry agrees with the lookup of its key. |
| Catalog.ExamplesExact | src/strategy-manager.ts:94-102 | A pair `(example, key)` is listed exactly when strategy `key` holds that example, and there is one pair per example. (Also src/core/strategy_manager.py:72-78.) |
| Catalog.LoadAllValid | src/strategy-manager.js:37-64 | Loading by repeated `set` always yields distinct keys. |
| Catalog.LoadAllSkips | src/strategy-manager.js:56-58 | A file that yields no record changes nothing, wherever it stands in the listing. |
| Catalog.LoadAllGet | src/strategy-manager.js:41-59 | A key is loaded exactly when some file yields it, and the record kept is the one from the last such file. |
| Workflow.ArgOr | src/workflow-factory.ts:104 | A present non-empty argument is used. An absent or empty one gives the default. (Also line 311.) |
| Workflow.UserPrompt | src/workflow-factory.ts:40 | The user prompt is never empty: the argument when given, else "[User prompt will be inserted here]". (Also lines 104, 144, 395, 446.) |
| Workflow.CreateResponse | src/workflow-factory.ts:23-35 | A response is one message, from the user, carrying the body. |
| Workflow.RefineWith | src/workflow-factory.ts:102-134 | A missing key throws "strategy_key is required for RefineWithHandler" and an unknown key throws "Strategy '<key>' not found". Otherwise the response carries the strategy's name and description and the template with its first placeholder replaced. |
| Workflow.Pieces | src/workflow-factory.ts:152 | One trimmed piece per comma-separated part, and never none. |
| Workflow.ListedKeys | src/workflow-factory.ts:153 | The first five pieces, or all of them when there are fewer. |
| Workflow.SelectedInfo | src/workflow-factory.ts:153-163 | The shown keys are exactly the listed keys the catalog knows, each once, with their catalog name and description. |
| Workflow.SelectedInfoInListOrder | src/workflow-factory.ts:153-163 | The entries follow the first positions of their keys in the list, the property order that `JSON.stringify` renders. |
| Workflow.Compare | src/workflow-factory.ts:142-245 | With a list, the known keys among its first five are shown, at most five. Without one, the comparison offers all categories. |
| Workflow.Execute | src/workflow-factory.ts:309-342 | Missing results throw "metaprompt_results is required for execute_refinement". The original prompt falls back to the user prompt and then to "[Original prompt not provided]". |
| Workflow.Step2 | src/workflow-factory.ts:393-437 | A missing category name throws, and so does a name the metadata lacks. Otherwise the response carries that category's metadata. |
| Workflow.Step3 | src/workflow-factory.ts:444-493 | A missing or unknown strategy key throws, with this step's own message. Otherwise the template has its first placeholder replaced by the user prompt. |
| Workflow.HandlerOf | src/workflow-factory.ts:509-521 | A handler is found exactly for the eight registered names, and it is the one registered. |
| Workflow.AvailableWorkflows | src/workflow-factory.ts:577-579 | The eight registered names, in registration order. |
| Workflow.PrefixRouteKey | src/workflow-factory.ts:526-533 | A "refine_with_" name routes to the refine handler with exactly the rest of the name as key. |
| Workflow.GenericRouteAvoidsStepHandlers | src/workflow-factory.ts:535-560 | The generic `handle` of the two- and three-step handlers, which throws, is never reached. (Also lines 349-351, 500-502.) |
| Workflow.UnknownIffUnregistered | src/workflow-factory.ts:562-565 | A name is unknown exactly when it is neither registered nor prefixed "refine_with_". |
| Workflow.Handle | src/workflow-factory.ts:38-134 | The step handlers' `handle` throws "... requires specific step methods". The others answer as their handler does. (Also lines 349-351, 500-502.) |
| Workflow.HandleWorkflow | src/workflow-factory.ts:524-574 | An unknown name throws "Unknown workflow: <name>". Every success is one user message. |
| Workflow.PrefixOverridesArgument | src/workflow-factory.ts:532 | "refine_with_<key>" refines with `<key>` whatever `strategy_key` the arguments carry. It succeeds exactly when the catalog knows the key. |
| Workflow.BarePrefixFails | src/workflow-factory.ts:526-532 | The bare prefix "refine_with_" routes an empty key, which fails the required-argument check. (Also lines 107-108.) |
| Workflow.RegisteredRefineWithUsesArgument | src/workflow-factory.ts:568 | The registered name "refine_with" takes its key from the arguments. (Also lines 103-105.) |
| Dispatch.AutoRefine | src/index.ts:199-230 | Fails with "Strategy '<key>' not found" exactly when the catalog lacks the recommended key. Otherwise it carries that strategy's name, the selection's reason and the template with its first placeholder replaced. |
| Dispatch.RefineWith | src/index.ts:232-265 | The key is the rest of the name. An unknown key, the empty key included, fails with "not found". Otherwise the template has its first placeholder replaced. |
| Dispatch.Shown | src/index.ts:284-290 | Each known key is shown in order with its catalog name and description, so the shown keys are the known keys of the list. Repeats are kept and unknown keys are skipped. |
| Dispatch.Candidates | src/index.ts:270-279 | An explicit list is split and trimmed. Otherwise the candidates are the recommendation, its alternative and "physics". |
| Dispatch.DefaultCandidates | src/index.ts:273-278 | Exactly three candidates, in that order, without de-duplication. |
| Dispatch.CompareRefinements | src/index.ts:267-312 | The shown keys are exactly the known keys among the first three candidates, in order with repeats, so at most three are shown. |
| Dispatch.ShownKeepsRepeats | src/index.ts:284-290 | A known key listed twice is shown at both positions. |
| Dispatch.PhysicsShownTwice | src/index.ts:273-290 | When "physics" is recommended and known, the default comparison shows it twice. |
| Dispatch.Prepare | src/index.ts:314-351 | Fails exactly when the recommendation is unknown. Otherwise it carries the name, reason, alternative name, the substituted template and the user prompt. |
| Dispatch.ExecuteRefinement | src/index.ts:134 | Missing results throw. The original prompt falls back to the user prompt. (Also lines 353-356.) |
| Dispatch.GetPrompt | src/index.ts:121-137 | Each of the five prompt names answers as its handler: "auto_refine", "compare_refinements", "prepare_refinement", "execute_refinement", and a "refine_with_" name with its key. Every other name throws "Unknown prompt: <name>". |
| Dispatch.ExecuteFallbacksDiffer | src/index.ts:123-134 | Without an original prompt this path quotes the user-prompt default, where the workflow factory says "[Original prompt not provided]". |
| Dispatch.BarePrefixNotFound | src/index.ts:127-128 | The bare prefix looks up the empty key and fails with "Strategy '' not found". (Also lines 233-237.) |
| Dispatch.ListStrategies | src/index.ts:393-412 | One entry per strategy, with prompt name "refine_with_<key>" and exactly the first min(2, n) of its n examples, as `slice(0, 2)` keeps them. |
| Dispatch.ListedPromptNamesRoute | src/index.ts:125-128 | On a catalog with distinct keys, every listed prompt name routes back to its own strategy and succeeds. (Also line 400.) |
| Dispatch.Preview | src/index.ts:443-445 | Templates up to 200 characters are shown whole. Longer ones are cut to their first 200 characters followed by "...". |
| Dispatch.CallTool | src/index.ts:180-196 | A missing `strategy` argument and an unknown tool throw. An unknown key is answered with an error record, not a throw. Details carry the prompt name and the preview. (Also lines 419-450.) |
| JsSubstitution.ExpandWithoutDollar | src/workflow-factory.ts:118 | A replacement string without `$` is inserted exactly as written. |
| JsSubstitution.JsReplace | src/index.ts:207 | `String.prototype.replace` with a string pattern: without an occurrence the text is unchanged. Otherwise the first occurrence is replaced by the expansion of the replacement, with the text before and after it kept. (Also lines 240, 322.) |
| JsSubstitution.JsReplaceWithoutDollar | src/index.ts:207 | For a prompt without `$`, JavaScript's `replace` agrees with a literal first-occurrence replacement. (Also lines 240, 322.) |
| JsSubstitution.DollarAmpersandKeepsTemplate | src/workflow-factory.ts:118 | The replacement "$&" puts the matched text back, so the template comes back unchanged, unlike a literal replacement. (Also line 459.) |
| JsSubstitution.PromptDollarAmpersandIsLost | src/index.ts:207 | A user prompt of "$&" never reaches a template that holds the placeholder. (Also lines 240, 322.) |
| JsSubstitution.Substitute | src/workflow-factory.ts:118 | When the template holds the placeholder the result contains the prompt. Otherwise it is the template unchanged. It agrees with JavaScript whenever the prompt has no `$`. (Also line 459.) |
| Expiry.ExpiryIsMonotone | src/cache.ts:32-34 | With a positive time to live an entry is live up to and including its deadline and expired one millisecond later. Once expired it stays expired. |
| TtlCache.New | src/cache.ts:8-10 | A new cache is empty and keeps the given default time to live. |
| TtlCache.Set | src/cache.ts:12-21 | The entry is stamped with `now`, with the given time to live or the default when it is omitted or 0. No other key changes. |
| TtlCache.Get | src/cache.ts:23-42 | Data is returned exactly while the entry is live, so an age equal to the time to live still reads. An expired entry is deleted, and nothing else changes. |
| TtlCache.Has | src/cache.ts:44-57 | True exactly for a live entry. An expired entry is deleted. |
| TtlCache.HasAgreesWithGet | src/cache.ts:23-57 | `has` and `get` agree on liveness and leave the same cache behind. |
| TtlCache.GetAfterSet | src/cache.ts:12-42 | A value just set reads back exactly until its deadline. |
| TtlCache.Delete | src/cache.ts:59-65 | True exactly when the key was stored, expired or not. Only that key goes. |
| TtlCache.Clear | src/cache.ts:67-70 | No entries remain. |
| TtlCache.SizeCountsExpired | src/cache.ts:72-74 | The size counts stored entries, expired ones included: a fresh key adds one and a stored key adds none. |
| TtlCache.Size | src/cache.ts:72-74 | At any time the size is the number of live entries plus the number of expired ones. |
| TtlCache.Cleanup | src/cache.ts:77-94 | Exactly the expired entries are removed and counted. Every entry left is unchanged and live at `now`. |
| LruCache.New | src/lru-cache.ts:21-27 | A new cache is empty, with both counters at zero. |
| LruCache.SizeMatchesOrder | src/lru-cache.ts:29-71 | The recency list is exactly as long as the map is large. |
| LruCache.Unlink | src/lru-cache.ts:44-56 | Removing a node drops the key from both the map and the list, and keeps them in agreement. |
| LruCache.EvictLru | src/lru-cache.ts:65-71 | Only the tail, the least recently used key, is evicted, and an empty cache is untouched. |
| LruCache.Set | src/lru-cache.ts:73-99 | The key becomes the most recent, with a node stamped `now`. The tail is evicted exactly when the cache would exceed its capacity. No other entry and no counter changes, and a cache within capacity stays within it. |
| LruCache.SetStoredKeyEvictsNothing | src/lru-cache.ts:74-93 | Setting a stored key in a cache within capacity replaces its node, moves it to the front and evicts nothing. |
| LruCache.MoveToFront | src/lru-cache.ts:58-63 | The key ends up first and the rest keep their order. |
| LruCache.Get | src/lru-cache.ts:101-123 | A missing key is a miss. An expired entry is a miss and is removed. A live entry is a hit and moves to the front. Exactly one counter goes up. |
| LruCache.Has | src/lru-cache.ts:125-137 | True exactly for a live entry. It never counts and never changes recency, but removes an expired entry. |
| LruCache.HasAgreesWithGet | src/lru-cache.ts:101-137 | `has` and `get` agree on liveness. |
| LruCache.Delete | src/lru-cache.ts:139-146 | True exactly when the key was stored. Only that key goes, and the counters stay. |
| LruCache.Clear | src/lru-cache.ts:148-154 | No entries remain and both counters are zero. |
| LruCache.MGet | src/lru-cache.ts:174-176 | One answer per key, each the answer a `get` of that key would give on the starting cache. Hits plus misses grow by the number of keys. |
| LruCache.GetAfterGet | src/lru-cache.ts:101-123 | A read after another read at the same time answers as it would have on the earlier cache, because reads only drop expired entries and reorder. |
| LruCache.GetStats | src/lru-cache.ts:160-171 | The size reported is the length of the recency list, within the capacity of a bounded cache. The capacity and counters are the cache's own. |
| LruCache.MSet | src/lru-cache.ts:178-182 | A `set` per entry: the counters are unchanged and capacity is respected. The last entry is the most recent, holding its value and expiry. Every stored key is an old key or an entry's key, and a key no entry writes keeps its value. The recency list grows by at most one per entry, and with room for every entry no key is evicted. |
| LruCache.MSetStepKeys | src/lru-cache.ts:178-182 | After the first `set`, the remaining ones leave only old or written keys, and unwritten keys keep their values. |
| LruCache.MSetStepLast | src/lru-cache.ts:178-182 | After the first `set`, the remaining ones leave the last entry most recent with its value. |
| LruCache.MSetStepRoom | src/lru-cache.ts:178-182 | After the first `set`, the list grows by at most one per entry, and with room for all of them no old key is evicted. |
| LruCache.Apply | src/lru-cache.ts:73-182 | Every call keeps the map and list in agreement and the cache within capacity. `clear` zeroes the counters, and other calls add one per `get`. |
| LruCache.CountersCountLookups | src/lru-cache.ts:105 | Hits plus misses equal the `get` calls since the last `clear`, with an `mget` counting one per key. (Also lines 114, 120, 152-153, 174-176.) |
| LruCache.RunStaysBounded | src/lru-cache.ts:95-98 | Any sequence of calls keeps the cache within its capacity. |
| Collections.EmptyIsValid | src/collections-manager.ts:27-59 | The starting state keeps its key order and table in agreement, and no list repeats a strategy. |
| Collections.Get | src/collections-manager.ts:66-69 | A collection is found exactly for a stored key. |
| Collections.Strategies | src/collections-manager.ts:151-155 | An unknown key gives [], and a known one its list. |
| Collections.Create | src/collections-manager.ts:71-87 | An existing key throws "Collection '<key>' already exists". Otherwise the key is appended with an empty list and nothing else changes. |
| Collections.WithStrategies | src/collections-manager.ts:97-113 | Replacing one list leaves the keys, the other collections and this one's name and description alone. |
| Collections.Add | src/collections-manager.ts:89-102 | An unknown collection throws "not found". A listed strategy changes nothing, and a new one is appended. Only that list changes, and lists stay free of repeats. |
| Collections.AddIsIdempotent | src/collections-manager.ts:96 | Adding the same strategy twice is adding it once. |
| Collections.IndexOf | src/collections-manager.ts:111 | -1 exactly when the strategy is absent. Otherwise its first position. |
| Collections.SpliceOut | src/collections-manager.ts:113 | One element fewer, and the others keep their order. |
| Collections.SpliceOutDistinct | src/collections-manager.ts:113 | Splicing out of a repeat-free list leaves a repeat-free list without that element. |
| Collections.Remove | src/collections-manager.ts:104-118 | An unknown collection throws. Otherwise the first occurrence is spliced out, or nothing changes when there is none. No other collection changes. |
| Collections.RemoveKeepsNoRepeats | src/collections-manager.ts:104-118 | After a remove no list repeats a strategy, and the strategy is gone from that collection. |
| Collections.RemoveUndoesAdd | src/collections-manager.ts:89-118 | Removing a strategy that was just added restores the state. |
| Collections.Delete | src/collections-manager.ts:120-129 | An unknown key throws. Otherwise only that key disappears, from the table and the order. |
| Collections.Update | src/collections-manager.ts:131-144 | An unknown key throws. Only the given name and description change, never the strategies or another collection. |
| Collections.CollectionRoundTrip | src/collections-manager.ts:159-164 | Reading back a collection's JSON gives the collection. |
| Collections.EncodeFields | src/collections-manager.ts:159 | One field per key, in order, holding that collection's JSON. |
| Collections.Pick | src/collections-manager.ts:164 | The table restricted to exactly the listed keys. |
| Collections.DecodeEncoded | src/collections-manager.ts:158-164 | Decoding the encoded fields of distinct keys gives the same order and the same collections. |
| Collections.DecodeStep | src/collections-manager.ts:164 | Decoding one more field, for a new key, appends that collection. |
| Collections.Export | src/collections-manager.ts:157-160 | The export is a document with the one field "collections", and importing it restores the state exactly. (Also lines 162-167.) |
| Collections.Import | src/collections-manager.ts:162-167 | A value that is not an object, or whose "collections" field is missing or not an object, imports nothing. Whatever is imported keeps its key order and table in agreement. |
| Collections.Names | src/collections-manager.ts:146-149 | The keys, each once, in enumeration order. |
| Counters.CountAbsent | src/strategy-selector.ts:18 | A key never recorded reads 0, the `\|\| 0` start. |
| Counters.Bump | src/strategy-selector.ts:18 | Recording a key raises its count by exactly one and leaves every other count alone. |
| Counters.BumpShape | src/strategy-selector.ts:18 | A new key is appended to the key list and a known key keeps its place. |
| Counters.BumpKeys | src/strategy-selector.ts:18 | A new key is appended, a known key keeps its place, and no key repeats. |
| Counters.TotalBump | src/strategy-selector.ts:18 | Each recording adds exactly one to the total. |
| StrategySelector.RecordUsage | src/strategy-selector.ts:17-23 | The key's count goes up by one from 0, other counts and the error count stay, and the total grows by one. |
| StrategySelector.BumpPositive | src/strategy-selector.ts:18 | Every recorded count stays positive. |
| StrategySelector.RecordUsageKeepsValid | src/strategy-selector.ts:17-23 | Recording keeps the keys distinct and every count positive. |
| StrategySelector.RecordError | src/strategy-selector.ts:25-28 | The error count goes up by one and usage stays. |
| StrategySelector.Reset | src/strategy-selector.ts:34-42 | No usage and no errors remain. |
| StrategySelector.Insert | src/strategy-selector.ts:47 | Inserting into a list sorted by descending count keeps it sorted and adds exactly that entry. |
| StrategySelector.SortByUsage | src/strategy-selector.ts:47 | The sort is a permutation in non-increasing count order. |
| StrategySelector.SliceEnd | src/strategy-selector.ts:48 | `slice(0, limit)` ends at the limit capped by the length. A negative limit counts back from the end. |
| StrategySelector.TopStrategies | src/strategy-selector.ts:44-50 | min(limit, number of keys) entries for a non-negative limit (the default is 5), in non-increasing usage. The pairs returned are drawn from the recorded usage without repeats, and every recorded pair left out counts no more than the last one listed. |
| StrategySelector.TopStrategiesDistinct | src/strategy-selector.ts:44-50 | With distinct recorded keys, no strategy is listed twice. |
| StrategySelector.TopStrategiesComplete | src/strategy-selector.ts:44-50 | A limit covering every key lists each key with its count. |
| StrategySelector.CountAt | src/strategy-selector.ts:46 | With distinct keys, the count read for a key is the one stored at its entry. |
| Errors.SeverityNamed | src/errors.ts:16-21 | A name read back is the name of the severity found. |
| Errors.SeverityNamesRoundTrip | src/errors.ts:16-21 | Every severity is found again from its name. |
| Errors.SeverityOf | src/errors.ts:49 | The context's severity when it names one, otherwise MEDIUM. |
| Errors.Make | src/errors.ts:38-50 | The constructor keeps the class, message, code, context and cause it is given. |
| Errors.WithSeverity | src/errors.ts:101-135 | Writing a severity into the context makes it the one the constructor reads. |
| Errors.TimeoutOf | src/errors.ts:120-127 | A timeout error is always HIGH and records its timeout in the context. |
| Errors.Create | src/errors.ts:144-163 | The five codes with a class of their own get it, and every other code gives a `BaseError` carrying that code. The protocol error is HIGH and the configuration error CRITICAL whatever the caller asks. The others take the caller's severity and context. |
| Errors.PinnedSeverities | src/errors.ts:99-137 | A caller asking for LOW gets HIGH from the protocol and timeout errors, CRITICAL from the configuration error, and LOW from the cache error. |
| Errors.Wrap | src/errors.ts:165-178 | One of these errors passes through unchanged. A plain error keeps its message and becomes the cause. Any other value gives its `String` text and no cause. |
| Errors.WrapIdempotent | src/errors.ts:170-172 | Wrapping a wrapped error gives it back, whatever code is asked for. |
| Errors.SanitizeValue | src/errors.ts:76-86 | A sensitive key's value becomes "[REDACTED]". An object or array becomes the first min(100, length) characters of its JSON followed by "...". Anything else is kept. |
| Errors.Sanitize | src/errors.ts:72-90 | The same keys in the same order, each value sanitized. |
| Errors.SanitizeIdempotent | src/errors.ts:72-90 | Sanitizing twice changes nothing more, and no sensitive key keeps its value. |
| Errors.ToJson | src/errors.ts:61-70 | Exactly name, message, code, severity, timestamp and the sanitized context, in that order. |
| Errors.ToJsonOmitsStackAndCause | src/errors.ts:61-70 | The JSON form carries neither the stack nor the cause. |
| ErrorHandler.Normalize | src/error-handler.ts:70-92 | One of these errors is kept as it is. A plain error becomes UNKNOWN_ERROR with its message, its name and stack in the context, and itself as the cause. Any other value becomes UNKNOWN_ERROR with its `String` text and the value in the context. |
| ErrorHandler.NormalizeIdempotent | src/error-handler.ts:71-73 | Normalizing a normalized error changes nothing. |
| ErrorHandler.NormalizedSeverity | src/error-handler.ts:76-91 | A normalized plain error or value is MEDIUM, because its context names no severity. |
| ErrorHandler.UpdateMetrics | src/error-handler.ts:94-99 | The total, the count of the error's code and the count of its severity each grow by one, and the error becomes the last one. Consistent counters stay consistent. |
| ErrorHandler.LogOf | src/error-handler.ts:101-123 | CRITICAL and HIGH go to the error channel, CRITICAL with a "CRITICAL: " prefix. MEDIUM is a warning and LOW is information. |
| ErrorHandler.Handle | src/error-handler.ts:36-68 | The error is counted and logged first. A registered recovery that resolves decides the outcome. Otherwise the error is suppressed exactly when suppression is on in production, and rethrown normalized in every other case. |
| ErrorHandler.HandleKeepsConsistent | src/error-handler.ts:40-99 | Whatever the outcome, handling adds one to the total and keeps the counts by code and by severity summing to it. |
| ErrorHandler.HandleAll | src/error-handler.ts:36-68 | Handling errors never changes the registered recoveries or the suppression flag. |
| ErrorHandler.TotalCountsHandled | src/error-handler.ts:36-43 | After any run of handled errors the total grows by their number, and the counts by code and by severity each sum to it. (Also lines 94-99.) |
| ErrorHandler.Register | src/error-handler.ts:32-34 | A later registration for the same code replaces the earlier, and other codes keep theirs. |
| ErrorHandler.ResetMetrics | src/error-handler.ts:129-135 | Every counter is zero again, and recoveries and suppression stay. |
| ErrorHandler.SetSuppress | src/error-handler.ts:28-30 | Only the suppression flag changes. |
| ErrorHandler.OperationError | src/error-handler.ts:142-158 | A wrapped operation's error of the taxonomy is passed on as it is. Anything else becomes UNKNOWN_ERROR with the caller's context and no cause. |
| SchemaValidator.Missing | src/schema-validator.ts:71-77 | One message per required field the value lacks, each naming a listed field the value does not have, and every such field is named. |
| SchemaValidator.CheckValue | src/schema-validator.ts:100-153 | A value of the wrong type gets exactly one "expected …, got …" message and nothing else is checked. |
| SchemaValidator.Validate | src/schema-validator.ts:60-98 | Valid exactly when no message is collected. A non-object or `null` gets exactly "… must be an object". |
| SchemaValidator.MissingAgrees | src/schema-validator.ts:71-77 | Objects that read the same under every required name get the same missing-field messages. |
| SchemaValidator.TopPropertiesAgree | src/schema-validator.ts:80-87 | Objects that read the same under every declared property get the same property messages. |
| SchemaValidator.OnlyNamedFieldsMatter | src/schema-validator.ts:60-98 | Two objects that agree on the fields a schema names get the same verdict. |
| SchemaValidator.ExtraFieldIgnored | src/schema-validator.ts:80-86 | Adding a field the schema does not name leaves the verdict as it was. |
| SchemaValidator.MissingFieldsReported | src/schema-validator.ts:71-92 | An absent required field of an object is reported and makes it invalid. |
| SchemaValidator.RequiredOnly | src/schema-validator.ts:60-92 | Without property rules, an object is valid exactly when it has every required field. |
| SchemaValidator.NothingMissing | src/schema-validator.ts:72-76 | When every required field is present, no missing-field message is produced. |
| SchemaValidator.ItemsElementwise | src/schema-validator.ts:125-131 | The items of an array pass exactly when each item passes its own check. |
| SchemaValidator.TopClean | src/schema-validator.ts:80-87 | When every present declared property passes, the property loop adds no message and nothing throws. |
| SchemaValidator.MinimalStrategyValid | src/schema-validator.ts:4-17 | A strategy file with just a non-empty name and a non-empty template is valid. |
| SchemaValidator.NullStrategyEntryFails | src/schema-validator.ts:26-42 | A `null` entry in a category's strategy list makes the check throw at its first required field, so the only message is "Validation failed: …". (Also lines 135-139, 93-96.) |
| ValidationSchemas.SpecNames | src/validation-schemas.ts:113-133 | The names of a schema's fields, one per field, in declaration order. |
| ValidationSchemas.Failing | src/validation-schemas.ts:142-145 | Empty exactly when every declared field passes; it names every failing field and only failing fields. |
| ValidationSchemas.Output | src/validation-schemas.ts:147 | The parsed object holds only declared fields. |
| ValidationSchemas.Parse | src/validation-schemas.ts:142-147 | Accepted exactly when the input is an object whose declared fields all pass. A non-object is rejected at the top-level path, and an object is rejected with the failing paths. |
| ValidationSchemas.ToolSchema | src/validation-schemas.ts:113-122 | A schema exists exactly for the eight tool names. |
| ValidationSchemas.PromptSchema | src/validation-schemas.ts:125-133 | A schema exists exactly for the seven prompt names. |
| ValidationSchemas.ValidateToolInput | src/validation-schemas.ts:136-148 | "Unknown tool" exactly for a name outside the table. For a known tool the input passes exactly when its schema accepts it, and a rejection is prefixed "Validation failed: ". |
| ValidationSchemas.ValidatePromptArgs | src/validation-schemas.ts:150-167 | A `refine_with_` prompt is rejected with the parser's own error. Otherwise "Unknown prompt" comes exactly for a name outside the table, and other rejections are prefixed. |
| ValidationSchemas.SameLookups | src/validation-schemas.ts:142 | Inputs that read alike under every declared name get the same failures and the same parsed object. |
| ValidationSchemas.ExtraFieldIgnored | src/validation-schemas.ts:142-147 | Adding an undeclared field changes neither the verdict nor the parsed object. |
| ValidationSchemas.OutputAt | src/validation-schemas.ts:147 | The parsed object reads a declared field as the input has it, or as its default. |
| ValidationSchemas.SameResolved | src/validation-schemas.ts:147 | Inputs that resolve alike under every declared field parse to the same object. |
| ValidationSchemas.ParseIdempotent | src/validation-schemas.ts:142-147 | With distinct field names and defaults that pass, parsing the parsed object gives it back. |
| ValidationSchemas.RefineWithNeedsOnlyUserPrompt | src/validation-schemas.ts:152-154 | A `refine_with_` prompt passes exactly with a non-empty user prompt, and keeps only that field. (Also lines 33-35.) |
| ValidationSchemas.ExecuteRefinementNeedsBoth | src/validation-schemas.ts:52-55 | `execute_refinement` passes exactly with non-empty metaprompt results and a non-empty original prompt. |
| ValidationSchemas.ManageCollectionRule | src/validation-schemas.ts:24-30 | `manage_collection` passes exactly with one of the five actions, a valid collection key, optional string name and description, and an optional valid strategy key. |
| ValidationSchemas.CustomStrategyRule | src/validation-schemas.ts:72-87 | A custom strategy passes exactly with a non-empty name, a description of at least 10 characters, and a template of at least 50 characters holding the placeholder. It also needs at least one example string, levels from the four when given, and string lists and a string category when given. |
| ValidationSchemas.CustomRequiredFields | src/validation-schemas.ts:73-81 | The four required custom-strategy fields, rule by rule. |
| ValidationSchemas.CustomOptionalFields | src/validation-schemas.ts:82-86 | The five optional custom-strategy fields, rule by rule. |
| ValidationSchemas.CustomStrategyDefaultsComplexity | src/validation-schemas.ts:82 | A custom strategy without a complexity is parsed with complexity "Medium". |
| UiApi.SkipOthers | UI/prompt-plus-ui/src/services/api.ts:146 | Drops a suffix-preserving run so that what is left is empty or starts with a kept character. |
| UiApi.Collapse | UI/prompt-plus-ui/src/services/api.ts:146 | Keeps only `[a-z0-9_]`, never two underscores in a row, and empty exactly for an empty input. |
| UiApi.StripEdges | UI/prompt-plus-ui/src/services/api.ts:147 | Removes at most one underscore at each end; with no double underscore, none remains at either end. |
| UiApi.Slug | UI/prompt-plus-ui/src/services/api.ts:145-147 | The slug holds only `[a-z0-9_]`, no "__", and no underscore at either end. |
| UiApi.SlugFixedPoint | UI/prompt-plus-ui/src/services/api.ts:145-147 | A string is its own slug exactly when it is slug-shaped. |
| UiApi.CollapseKeepsShaped | UI/prompt-plus-ui/src/services/api.ts:146 | Collapsing a string of `[a-z0-9_]` without "__" changes nothing. |
| UiApi.SlugIdempotent | UI/prompt-plus-ui/src/services/api.ts:145-147 | Slugging twice gives the same as slugging once. |
| UiApi.KeyFromName | UI/prompt-plus-ui/src/services/api.ts:145-148 | The key is the slug when it is non-empty and 'arpe' otherwise, and it is always a valid strategy key. |
| UiApi.FindHeader | UI/prompt-plus-ui/src/services/api.ts:141 | The first case-insensitive "SELECTED STRATEGY:" at or after the start, or none when there is none. |
| UiApi.TakeLine | UI/prompt-plus-ui/src/services/api.ts:141 | A prefix without a newline that stops at the first newline. |
| UiApi.SelectedName | UI/prompt-plus-ui/src/services/api.ts:141-143 | No name when the reply has no header. |
| UiApi.RecommendedKey | UI/prompt-plus-ui/src/services/api.ts:116-149 | A structured recommendation's `key` is used as it is. Without one, the key comes from the reply text and is a valid key, 'arpe' when no header is found. |
| UiApi.StructuredKeyWins | UI/prompt-plus-ui/src/services/api.ts:120-121 | A structured key wins whatever the reply text says. |
| UiApi.NoHeaderGivesDefault | UI/prompt-plus-ui/src/services/api.ts:116-142 | Reply text without the header gives 'arpe'. |
| UiApi.SlugIgnoresCase | UI/prompt-plus-ui/src/services/api.ts:145 | Lower-casing first does not change the slug. |
| UiApi.KeyNamesItself | UI/prompt-plus-ui/src/services/api.ts:145-148 | A non-empty slug-shaped name is its own key. |
| HttpBridge.SplitLinesHaveNoNewline | UI/mcp-http-bridge.cjs:54 | No piece of a split on newlines holds a newline. |
| HttpBridge.SplitAppend | UI/mcp-http-bridge.cjs:51-55 | Splitting joined text gives the first part's complete lines and then the split of its last piece followed by the second part. |
| HttpBridge.Cut | UI/mcp-http-bridge.cjs:51-55 | The finished lines and the kept text hold no newline, and joined back with newlines they give the old buffer plus the chunk. |
| HttpBridge.ChunkBoundaries | UI/mcp-http-bridge.cjs:50-55 | Two chunks in a row give the same lines and the same kept text as their concatenation. |
| HttpBridge.Messages | UI/mcp-http-bridge.cjs:57-66 | At most one message per line. |
| HttpBridge.MessagesAppend | UI/mcp-http-bridge.cjs:57-66 | The messages of joined line runs are the messages of each run in order. |
| HttpBridge.SkippedLine | UI/mcp-http-bridge.cjs:58-64 | A blank or unparsable line adds no message. |
| HttpBridge.Send | UI/mcp-http-bridge.cjs:93-104 | The next id is handed out and registered as pending whether or not the process can be written to. It is reported as sent or as not connected. |
| HttpBridge.Handle | UI/mcp-http-bridge.cjs:116-129 | A reply acts exactly when its id is a pending non-zero number. It then settles that id once and removes it from the pending set. Any other reply changes nothing. |
| HttpBridge.HandleAll | UI/mcp-http-bridge.cjs:57-66 | Handling replies hands out no id, keeps the buffer, and only shrinks the pending set. |
| HttpBridge.OnData | UI/mcp-http-bridge.cjs:50-67 | A chunk leaves its unfinished tail as the buffer, hands out no id, and only shrinks the pending set. |
| HttpBridge.Expire | UI/mcp-http-bridge.cjs:107-112 | A timer times out its id exactly when the id is still pending, and removes it. |
| HttpBridge.Range | UI/mcp-http-bridge.cjs:95 | The consecutive ids from one bound up to the other. |
| HttpBridge.SettledAppend | UI/mcp-http-bridge.cjs:119-128 | The settled ids of joined outcomes are those of each part in order. |
| HttpBridge.SentAppend | UI/mcp-http-bridge.cjs:95 | The handed-out ids of joined outcomes are those of each part in order. |
| HttpBridge.IdsAppend | UI/mcp-http-bridge.cjs:95-128 | Both id lists split over joined outcomes. |
| HttpBridge.DistinctConcat | UI/mcp-http-bridge.cjs:121 | Two duplicate-free id lists with nothing in common join into a duplicate-free list. |
| HttpBridge.AccountedCompose | UI/mcp-http-bridge.cjs:98-121 | Two stretches that each settle only pending or newly handed-out ids, once each, compose into one such stretch. |
| HttpBridge.HandleAllSettles | UI/mcp-http-bridge.cjs:116-129 | Replies settle only pending ids, each at most once, and none of them stays pending. |
| HttpBridge.RangeConcat | UI/mcp-http-bridge.cjs:95 | Adjacent id ranges join into one range. |
| HttpBridge.SoundCompose | UI/mcp-http-bridge.cjs:93-129 | Two sound stretches in a row make a sound stretch. |
| HttpBridge.StepFacts | UI/mcp-http-bridge.cjs:50-67 | One event keeps the bridge sound: a request takes the next id, and replies and timers settle only pending ids. (Also lines 93-129.) |
| HttpBridge.RunFacts | UI/mcp-http-bridge.cjs:50-67 | Over any run, ids are handed out consecutively. Every settled id was pending or handed out during the run, is settled once, and is not pending afterwards. (Also lines 93-129.) |
| HttpBridge.Entries | UI/mcp-http-bridge.cjs:174-183 | Each key once, exactly the keys present, each with the value that reads for it. |
| HttpBridge.CategoryOf | UI/mcp-http-bridge.cjs:178-200 | A truthy category: the strategy's own, else its custom category, else 'uncategorized'. |
| HttpBridge.FromEntry | UI/mcp-http-bridge.cjs:174-179 | Fails exactly for a `null` value. Otherwise an object whose `id` and `key` are the entry's key and whose category has the fallback. |
| HttpBridge.FromEntries | UI/mcp-http-bridge.cjs:174-188 | Succeeds exactly when no value is `null`, one strategy per entry in order. |
| HttpBridge.Normalize | UI/mcp-http-bridge.cjs:163-193 | An array reply is taken as it is, and a parse failure or a primitive gives the empty list. |
| HttpBridge.NormalizeEntries | UI/mcp-http-bridge.cjs:168-189 | From an object of strategies without `null` values, one strategy per entry in order, with `id` and `key` the entry's key and a truthy category. |
| HttpBridge.NullEntryEmptiesList | UI/mcp-http-bridge.cjs:174-192 | One `null` strategy in an object of strategies empties the whole list. |
| HttpBridge.SkipSpace | UI/mcp-http-bridge.cjs:197 | Drops a leading whitespace run, leaving a suffix that is empty or starts with a non-space. |
| HttpBridge.Dashes | UI/mcp-http-bridge.cjs:197 | No whitespace remains, the text never grows, and it is empty exactly when the input is. |
| HttpBridge.DashesKeepsPlain | UI/mcp-http-bridge.cjs:197 | Text without whitespace is left as it is. |
| HttpBridge.MadeUpId | UI/mcp-http-bridge.cjs:197 | A made-up id is never empty and holds no whitespace. |
| HttpBridge.Enrich | UI/mcp-http-bridge.cjs:196-203 | Fails exactly for a `null` strategy. Otherwise the id, name, description and category are truthy, and every truthy field of the strategy is kept. |
| HttpBridge.EnrichStable | UI/mcp-http-bridge.cjs:196-203 | Enriching a card with a truthy content again gives it back. |
| HttpBridge.CardReadsLate | UI/mcp-http-bridge.cjs:196-203 | A card's examples, content and category read back from its JSON object. |
| HttpBridge.CardReadsEarly | UI/mcp-http-bridge.cjs:196-203 | A card's description, name and id read back from its JSON object. |
| HttpBridge.FieldSkip | UI/mcp-http-bridge.cjs:196-203 | A key other than the last one reads from the fields before it. |
| HttpBridge.EnrichAll | UI/mcp-http-bridge.cjs:196-203 | Succeeds exactly when no strategy is `null`, one card per strategy in order. |
| HttpBridge.ListStrategies | UI/mcp-http-bridge.cjs:148-210 | Succeeds exactly when no normalised strategy is `null`, and then card i is the enrichment of strategy i. Otherwise it fails with "Failed to list strategies". |
| HttpBridge.Query | UI/mcp-http-bridge.cjs:322 | The query is lower case, and empty when none is given. |
| HttpBridge.Mentions | UI/mcp-http-bridge.cjs:324-326 | The test throws exactly when the property is not a string. |
| HttpBridge.Hits | UI/mcp-http-bridge.cjs:323-327 | Found when name, then description, then category contains the query, each read only if the earlier ones miss. Fails when a property it reaches is not a string. |
| HttpBridge.Filter | UI/mcp-http-bridge.cjs:323-327 | Succeeds exactly when the test never throws, and keeps exactly the strategies it accepts. |
| HttpBridge.FilterCons | UI/mcp-http-bridge.cjs:323-327 | The first strategy's test decides whether it is kept in front of the filtered rest, and a throw anywhere throws. |
| HttpBridge.FilterAppend | UI/mcp-http-bridge.cjs:323-327 | Filtering a joined list joins the filtered parts, so the kept strategies stay in list order, as `Array.filter` keeps them. |
| HttpBridge.FilterOne | UI/mcp-http-bridge.cjs:323-327 | A single strategy is kept exactly when the test accepts it. |
| HttpBridge.EmptyQueryKeepsAll | UI/mcp-http-bridge.cjs:322-327 | With no query, every strategy whose name is a string is kept, in order. |
| HttpBridge.SearchMatches | UI/mcp-http-bridge.cjs:322-327 | With string fields, a strategy is found exactly when its name, description or category contains the query, ignoring case. |
| HttpBridge.SearchStrategies | UI/mcp-http-bridge.cjs:279-341 | Succeeds exactly when the filter does not throw, and then card i is the enrichment of the i-th kept strategy. Otherwise it fails with "Failed to search strategies". |
| HttpBridge.PromptReply | UI/mcp-http-bridge.cjs:587-637 | A processed template gives its output, and a failed one shows the template. A marker phrase passes the reply on. Any other reply is cut into three string sections. |
| HttpBridge.JoinStartsWithHead | UI/mcp-http-bridge.cjs:628 | A joined non-empty list starts with its first element. |
| HttpBridge.SectionsRoundTrip | UI/mcp-http-bridge.cjs:628-635 | When the first three blank-line sections are non-empty, the reply text begins with exactly those sections. |
| HttpBridge.SplitWithoutSeparator | UI/mcp-http-bridge.cjs:628 | Text without the separator splits into itself alone. |
| HttpBridge.NoBreakKeepsPrompt | UI/mcp-http-bridge.cjs:628-635 | A plain reply without a blank line is the evaluation, and the user's prompt is the refined prompt. |
| HttpBridge.ToolReply | UI/mcp-http-bridge.cjs:639-697 | Template and marker cases are those of a prompt reply. Unparsable text is the refined prompt, or the user's prompt when empty. A parsed reply has a truthy refined prompt exactly when it gives one or the user's prompt is non-empty. |
| HttpBridge.Dispatch | UI/mcp-http-bridge.cjs:141-717 | No handler exactly when no route matches. Otherwise the handler of a matching route with no earlier match. |
| HttpBridge.SearchShadowed | UI/mcp-http-bridge.cjs:212 | As registered, no request reaches the search handler. (Also line 279.) |
| HttpBridge.IdRouteCoversSearch | UI/mcp-http-bridge.cjs:212 | Every path the search route matches is matched by the `:id` route. (Also line 279.) |
| HttpBridge.EarlyRoutesDoNotSearch | UI/mcp-http-bridge.cjs:141-212 | The first three routes lead elsewhere. |
| HttpBridge.OnlyOneSearchRoute | UI/mcp-http-bridge.cjs:279 | The search handler is registered once. |
| HttpBridge.DispatchPrefix | UI/mcp-http-bridge.cjs:141-717 | When a route among the first n matches, the later ones play no part. |
| HttpBridge.SearchReached | UI/mcp-http-bridge.cjs:212 | With the search route first, `GET /strategies/search` reaches it and any other id reaches the lookup. (Also line 279.) |
| Text.ReplaceAllCases | src/core/prompt_refiner.py:36 | Python's `replace` is split-and-join on the placeholder: the prompt appears when the placeholder did, and a template without it is unchanged. |
| Text.ReplaceFirstCases | src/index.ts:207 | A first-occurrence replacement inserts the prompt when the placeholder occurs, and leaves a template without it unchanged. |
| Text.ReplaceFirstVersusAll | src/core/prompt_refiner.py:36 | The Python all-occurrences replacement and the JavaScript first-occurrence one agree when the placeholder occurs at most once. With two or more occurrences and a prompt of another length they differ. |
| Text.JoinSplit | src/core/prompt_refiner.py:36 | Joining the pieces of a split with the same separator gives the text back. |
| Text.SplitFirst | src/index.ts:207 | When a split has more than one piece, the first piece ends at the leftmost occurrence of the separator, and the other pieces join back to the text after it. |
| Text.LowerIsLower | src/core/prompt_refiner.py:72 | Lower-casing gives lower-case text and is idempotent. |

## Left out

- Transport and process plumbing: the MCP server wiring, stdio, `main` and the process handlers of src/index.ts, the handler registration and `run` of src/server.py, and the Express server, child-process spawn and sockets of the bridge. These are I/O and concurrency. The bridge's 30-second timers are modelled only as `Timer` events that may arrive in any order.
- External model calls: the Anthropic and inference clients and src/llm-client.ts are not part of this model. The bridge's template processor is a parameter, and its result (or its failure) is given.
- `JSON.parse` and `JSON.stringify` are parameters wherever the code calls them. Parsed values are the `Json` datatype, whose object fields keep document order. The engine's ordering of integer-like keys first is not modelled.
- Property reads that would hit `Object.prototype` (a key such as "constructor" or "__proto__") are plain field lookups here.
- Strings are sequences of characters, not UTF-16 code units. Lower-casing and the whitespace classes are ASCII and the listed space characters, not full Unicode case folding.
- Wall-clock time: `Date.now()` and `new Date()` for collection, error and log timestamps are left out, or passed in as a value. The caches take `now` as a parameter.
- Floating point: the LRU `hitRate` division, the `selectionTime` average of the strategy selector, and the output-comparison scores are left out. `LruCache.GetStats` reports counts only.
- File and environment I/O: directory scans and file reads of the strategy managers are replaced by lists of parsed files. The Python server's `load_metaprompts` is reduced to the loaded catalog or the fallback catalog. Collection persistence is left out, and so is the fact that state changes before a save can throw. `NODE_ENV` is a parameter of the error handler. The logger is modelled only as the channel a message would go to.
- `getAllCategoriesMetadata` is called by the workflow and index handlers but is defined nowhere in the managers. The category metadata is a parameter.
- Copies returned by `getAllStrategies`, `getAllCollections`, `getCollectionStrategies` and `getPerformanceMetrics`: Dafny values are immutable, so "a change to the copy leaves the manager unchanged" holds by construction and is not stated.
- Natural-language texts: the prose of prompt bodies, router prompts and the analysis markdown of the web client are kept as structured values, not literal strings. `generate_router_prompt` and the REASONING and KEY IMPROVEMENTS regexes of the web client are left out.
- The zod library's own error messages and its `datetime` check: a rejection carries the failing paths, and `created` and `updated` are plain strings.
- Bridge routes other than the list and search routes are left out. So are their 500 paths other than the listed failure messages, a repeated `q` parameter, and percent-decoding and trailing slashes in route matching. The reply for a result with neither `messages` nor `content` is also left out.
- Non-string message content in the bridge and the web client: the content is taken to be the text already extracted.
- TsStrategyManager.Load: requires every parsed file's truthy `name`, `description` and `template` to be strings and `examples` to be a string array, as the TypeScript types declare. A file with other truthy values is outside the model.
- Errors.SeverityOf: a truthy severity in the context that is not one of the four names, or not a string, gives MEDIUM here. The source keeps the raw value.
- Catalog.Strategy: the optional TypeScript fields (category, complexity and so on) are not carried, because no modelled operation reads them.
- StrategySelector.SortByUsage: the order among keys with equal usage is not stated. The engine's sort is stable, but the model only promises a permutation in non-increasing order.
- Collections.Import: the source installs any value it is given. Here a value that is not an object, or whose "collections" field is missing or not an object, or that holds a malformed collection, imports nothing (None). What the source would later do with such a state is not modelled.
- Workflow.RefineWith: the template gets the user prompt inserted literally at the first placeholder (`Substitute`), the corrected behaviour of the first row under "## Findings". The `String.replace` call at src/workflow-factory.ts:118 expands `$` patterns in the prompt (`JsReplace`). The two agree on every prompt without `$` (`JsSubstitution.JsReplaceWithoutDollar`).
- Workflow.Step3: the same literal insertion stands for the `replace` call at src/workflow-factory.ts:459. It agrees with `JsReplace` on every prompt without `$`.
- Dispatch.AutoRefine: the same literal insertion stands for the `replace` call at src/index.ts:207. It agrees with `JsReplace` on every prompt without `$`.
- Dispatch.RefineWith: the same literal insertion stands for the `replace` call at src/index.ts:240. It agrees with `JsReplace` on every prompt without `$`.
- Dispatch.Prepare: the same literal insertion stands for the `replace` call at src/index.ts:322. It agrees with `JsReplace` on every prompt without `$`.

## Findings

| source | as written | input that shows it | evidently intended | confidence | as-written member | corrected member |
|---|---|---|---|---|---|---|
| src/workflow-factory.ts:118,459 | The user's prompt is passed to `String.replace` as the replacement, so its `$&`, `$$`, `` $` `` and `$'` sequences are expanded as patterns | a user prompt of "$&" with a template that holds the placeholder: the template comes back unchanged and the prompt is lost | the prompt inserted literally at the first placeholder | not executed | JsSubstitution.PromptDollarAmpersandIsLost | JsSubstitution.Substitute |
| UI/mcp-http-bridge.cjs:212,279 | `GET /strategies/:id` is registered before `GET /strategies/search`, and the first matching route handles a request | `GET /strategies/search` is answered by the lookup of a strategy with id "search" | the search route reached for that path | not executed | HttpBridge.SearchShadowed | HttpBridge.SearchReached |
