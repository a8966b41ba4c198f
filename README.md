# Industry insight refresh — a verified model

This project models the deterministic core of the weekly "Generate Industry Insights"
job of a career-tooling web application (`lib/inngest/function.ts`). The job reads
every tracked industry from the database. For each one in turn it asks a
generative-AI model for labour-market insights, cleans the answer and parses it as
JSON. It then replaces the industry's salary ranges and overwrites its insight row.

The model has three modules:

- `Wrappers` (`wrappers.dfy`): an `Option` type for values that may be `undefined`.
- `ResponseCleaning` (`response_cleaning.dfy`): lines 59-61 as pure functions.
  - `ExtractText` follows the optional chain to the first part's text.
  - `StripFences` is the global replace of ```` /```(?:json)?\n?/g ```` by `""`.
    The scan goes left to right; each match is the longest of ```` ``` ````,
    ```` ```json ````, ```` ```\n ```` and ```` ```json\n ```` at that point.
  - `Trim` is `String.prototype.trim`, over the ECMAScript WhiteSpace and
    LineTerminator code points.
- `InsightRefresh` (`insight_refresh.dfy`): the database and the job.
  - The IndustryInsight table is a map from industry name to row. The SalaryRange
    table is a sequence of rows, each linked to an industry.
  - `Refresh` and `Run` are specification functions: one industry's
    delete-update-insert, and the in-order loop that stops at the first failure.
  - The class `Database` holds the two tables as fields. Its methods mirror the
    Prisma calls: `findMany`, `deleteMany`, and `update` with a nested `createMany`.
  - The method `ProcessIndustry` is the loop body for one industry, `RefreshInOrder`
    is the loop, and `GenerateIndustryInsights` is the whole handler: the fetch,
    then the loop. Each is proved to leave the database exactly as `Refresh` or
    `Run` says.

The lemmas prove what the job promises:

- The cleaned text is trimmed, is a subsequence of the raw text, and has no fence
  left in it. Cleaning is idempotent. A fenced body that has no backtick and no
  whitespace at either end comes back exactly.
- A refresh makes the industry's salary ranges exactly the parsed ones, in order.
  It sets the six insight fields and the two timestamps. Every other industry is
  left unchanged. A retried refresh leaves the store as a single one would.
- A run refreshes the fetched industries in fetch order. It stops at the first
  industry whose generation call or parse fails, or whose insight row is missing.
  Industries before that one hold their new data. The rest are untouched, except
  that the delete for a missing row has already run; under the foreign key it
  finds nothing.

External services are parameters of the job:

- `generate: string -> Option<Response>` is the answer of the generation service
  for an industry. `None` means the call threw.
- `parse: string -> Option<Insights>` is `JSON.parse`. `None` means it threw.
- `clock: string -> ClockReadings` gives the two clock readings taken while an
  industry is updated: `new Date()` on line 92 and `Date.now()` on line 93.

Each of the three is a function of the industry name, so a name that occurs twice
in a list gets the same answer and the same clock readings both times. The fetched
names are distinct, so this does not affect the job.

Two consequences of how the code is written are modelled as they are:

- `deleteMany` (line 68) and `update` (line 72) are two separate calls with no
  transaction, so `RefreshIndustry` runs `DeleteSalaryRanges` and then
  `UpdateInsight`. If the insight row is missing, the delete has already happened
  when the update throws, and the run ends there.
- `JSON.parse` (line 63) is not guarded, so the first parse failure ends the whole
  run.

## Model

| member | source | states |
|---|---|---|
| `ResponseCleaning.FirstPart` | lib/inngest/function.ts:59 | the optional chain yields a part exactly when candidates, the first candidate's content and its parts are present and non-empty, and then it is the first part |
| `ResponseCleaning.ExtractText` | lib/inngest/function.ts:59-60 | the text of the first part of the first candidate; "" when candidates, content, parts or the first part are missing, or when the part has no text |
| `ResponseCleaning.StripFences` | lib/inngest/function.ts:61 | the global replace never lengthens the text; its deletion and fence-freeness are the lemmas below |
| `ResponseCleaning.MatchLength` | lib/inngest/function.ts:61 | at a fence, the pattern's match is one of the four fence tokens and no longer token matches there (greedy optional groups) |
| `ResponseCleaning.StripFencesIsSubsequence` | lib/inngest/function.ts:61 | the global replace only deletes characters |
| `ResponseCleaning.StripFencesFenceFree` | lib/inngest/function.ts:61 | no three consecutive backticks remain after the global replace |
| `ResponseCleaning.FenceFreeUnchanged` | lib/inngest/function.ts:61 | text without three consecutive backticks is left unchanged by the replace |
| `ResponseCleaning.StripFencesIdempotent` | lib/inngest/function.ts:61 | applying the replace twice equals applying it once |
| `ResponseCleaning.PlainPrefix` | lib/inngest/function.ts:61 | a prefix without backticks passes through the replace unchanged |
| `ResponseCleaning.TaggedOpening` | lib/inngest/function.ts:61 | an opening "```json\n" is removed as one match, whatever follows it |
| `ResponseCleaning.UntaggedOpening` | lib/inngest/function.ts:61 | an opening "```\n" is removed as one match, whatever follows it |
| `ResponseCleaning.FinalFence` | lib/inngest/function.ts:61 | a lone closing "```" is removed entirely |
| `ResponseCleaning.LeadingWhitespace` | lib/inngest/function.ts:61 | the length of the maximal whitespace run that starts the string |
| `ResponseCleaning.TrailingWhitespace` | lib/inngest/function.ts:61 | the length of the maximal whitespace run that ends the string |
| `ResponseCleaning.Trim` | lib/inngest/function.ts:61 | trim yields the slice between the leading and trailing whitespace runs; that slice has no whitespace at either end |
| `ResponseCleaning.TrimUnique` | lib/inngest/function.ts:61 | trimming whitespace + t + whitespace yields exactly t whenever t has no whitespace at either end |
| `ResponseCleaning.MissingTextCleansToEmpty` | lib/inngest/function.ts:59-61 | a response without a first part, or whose first part has no text, cleans to "" |
| `ResponseCleaning.Clean` | lib/inngest/function.ts:61 | replace-then-trim never lengthens the text, and the result has no leading or trailing whitespace |
| `ResponseCleaning.CleanedResponse` | lib/inngest/function.ts:59-61 | the string handed to `JSON.parse` has no whitespace at either end and is no longer than the first part's text |
| `ResponseCleaning.CleanIsSubsequence` | lib/inngest/function.ts:61 | the cleaned text is a subsequence of the extracted text |
| `ResponseCleaning.CleanIsFenceFree` | lib/inngest/function.ts:61 | the cleaned text contains no three consecutive backticks |
| `ResponseCleaning.CleanIdempotent` | lib/inngest/function.ts:61 | cleaning twice equals cleaning once |
| `ResponseCleaning.CleanWithoutBacktick` | lib/inngest/function.ts:61 | text without a backtick is only trimmed |
| `ResponseCleaning.ClosingFence` | lib/inngest/function.ts:61 | a closing "\n```" after a backtick-free body is reduced to "\n" |
| `ResponseCleaning.JsonFencedBody` | lib/inngest/function.ts:61 | "```json\n" + B + "\n```" cleans to exactly B when B has no backtick and no surrounding whitespace |
| `ResponseCleaning.PlainFencedBody` | lib/inngest/function.ts:61 | "```\n" + B + "\n```" cleans to exactly B under the same conditions |
| `ResponseCleaning.JsonFencedBodyNoNewline` | lib/inngest/function.ts:61 | "```json\n" + B + "```", with no newline before the closing fence, also cleans to B |
| `InsightRefresh.RangesOf` | lib/inngest/function.ts:81-90 | an industry's salary ranges in table order; none when no row is linked to it |
| `InsightRefresh.Unlinked` | lib/inngest/function.ts:68-70 | after deleteMany no remaining row is linked to the industry |
| `InsightRefresh.Linked` | lib/inngest/function.ts:81-90 | createMany inserts one row per parsed range, in order, linked to the industry, copying role, min, max, median and location |
| `InsightRefresh.RangesOfUnlinked` | lib/inngest/function.ts:68-70 | after the delete the industry has no salary ranges, and every other industry keeps exactly its own |
| `InsightRefresh.RangesOfLinked` | lib/inngest/function.ts:81-90 | the inserted rows give the industry exactly the parsed ranges and give no other industry any |
| `InsightRefresh.UpdatedInsight` | lib/inngest/function.ts:74-94 | the update's data: the six parsed fields, `lastUpdated` from `new Date()` and `nextUpdate` one week (7 * 24 * 60 * 60 * 1000 ms) after `Date.now()` |
| `InsightRefresh.RefreshKeepsIndustries` | lib/inngest/function.ts:67-95 | the delete-update-insert of `Refresh` never adds or removes insight rows |
| `InsightRefresh.DeleteAfterRefresh` | lib/inngest/function.ts:68-70 | a second delete of an industry removes exactly the rows inserted for it since the first |
| `InsightRefresh.RefreshSetsIndustry` | lib/inngest/function.ts:68-95 | after a refresh the industry's six insight fields are the parsed values, lastUpdated is the first clock reading, nextUpdate is the second plus one week (`WeekMillis`, 604800000 ms), and its salary ranges are exactly the parsed ones with no old row left |
| `InsightRefresh.RefreshFrame` | lib/inngest/function.ts:68-95 | a refresh leaves every other industry's insight row and salary ranges unchanged |
| `InsightRefresh.RefreshMissing` | lib/inngest/function.ts:68-95 | refreshing an industry with no insight row changes nothing in a consistent store; the update fails after a delete that found no rows |
| `InsightRefresh.RefreshConsistent` | lib/inngest/function.ts:68-95 | after a refresh every salary row still belongs to an existing insight |
| `InsightRefresh.RefreshRetried` | lib/inngest/function.ts:67-96 | a second refresh of the same industry, with any insights and fresh clock readings, leaves the store exactly as the second alone would |
| `InsightRefresh.ParsedFor` | lib/inngest/function.ts:51-63 | no insights when the generation call fails; otherwise exactly what the parse of the cleaned answer gives, insights or a parse failure |
| `InsightRefresh.Run` | lib/inngest/function.ts:30-97 | a run refreshes no more industries than it was given |
| `InsightRefresh.RunEnds` | lib/inngest/function.ts:51-96 | an industry whose generation or parse fails, or whose insight row is missing, ends the run with nothing counted, in the store its step left (unchanged, or after the delete) |
| `InsightRefresh.RunAdvances` | lib/inngest/function.ts:30-96 | an industry that succeeds is counted, and the run goes on with the rest from the refreshed store |
| `InsightRefresh.RunStopsAtFirstFailure` | lib/inngest/function.ts:30-96 | every industry before the stopping point was generated, parsed and had an insight row; the run stops early only at an industry whose generation or parse failed or whose insight row is missing |
| `InsightRefresh.RunStopsExactlyAt` | lib/inngest/function.ts:30-96 | if the first failing industry is the k-th, or none fails and k is the list length, the run refreshes exactly k industries |
| `InsightRefresh.RunLeavesOthers` | lib/inngest/function.ts:30-96 | an industry the run did not refresh keeps its insight row and salary ranges, when it has an insight row or no salary rows |
| `InsightRefresh.MissingHasNoRanges` | lib/inngest/function.ts:68-70 | under the foreign key, an industry without an insight row has no salary ranges, so the delete before a failing update finds nothing |
| `InsightRefresh.RunRefreshesProcessed` | lib/inngest/function.ts:30-96 | with distinct names, each industry the run refreshed ends with its parsed fields, its own timestamps and exactly its parsed salary ranges |
| `InsightRefresh.RunKeepsIndustries` | lib/inngest/function.ts:72-73 | a run neither adds nor removes insight rows |
| `InsightRefresh.RunConsistent` | lib/inngest/function.ts:30-96 | a run keeps every salary row linked to an existing insight |
| `InsightRefresh.Database.FindIndustries` | lib/inngest/function.ts:24-28 | the fetch returns every industry key exactly once |
| `InsightRefresh.Database.DeleteSalaryRanges` | lib/inngest/function.ts:68-70 | the salary table loses exactly the industry's rows, the insight table is unchanged, and the foreign key still holds |
| `InsightRefresh.Database.UpdateInsight` | lib/inngest/function.ts:72-95 | if the insight row exists it is overwritten and the new ranges are appended; otherwise the call fails and nothing changes; the foreign key still holds |
| `InsightRefresh.Database.RefreshIndustry` | lib/inngest/function.ts:67-96 | the delete followed by the update leaves the store as `Refresh` describes and keeps the foreign key; it succeeds exactly when the insight row exists |
| `InsightRefresh.ProcessIndustry` | lib/inngest/function.ts:51-96 | the loop body succeeds exactly when the generation call and the parse succeed and the insight row exists; a failed call or parse changes nothing, and otherwise the store becomes the `Refresh` with the parsed insights |
| `InsightRefresh.RefreshInOrder` | lib/inngest/function.ts:30-97 | the loop over any list of names leaves the store and the number of refreshed industries exactly as `Run` gives them, stopping at the first failure |
| `InsightRefresh.GenerateIndustryInsights` | lib/inngest/function.ts:23-98 | the job fetches each industry once, then leaves the store and the count of refreshed industries exactly as `Run` over the fetch order gives them |

## Left out

- Inngest workflow behaviour is not modelled: the memoisation and retry of `step.run` and `step.ai.wrap`, and the `0 0 * * 0` cron trigger (lines 20-24, 51-57, 67). It belongs to the workflow engine, whose code is not part of this model.
- Creating the Gemini client and the `GEMINI_API_KEY` check (lines 14-18) are left out. They are environment and external-service setup.
- The prompt template (lines 31-49) is left out. It is a fixed string built from the industry name, so `generate` takes the name directly. The service's answer is not under the code's control.
- `JSON.parse` is the parameter `parse`; only its success or failure is modelled. A value that parses but does not match the expected shape is not modelled. In the code, a missing `salaryRanges` array would throw at line 83, after the delete on line 68 has run.
- `console.log` (line 65) is left out, because it is output only.
- JavaScript numbers (growthRate, min, max, median) are kept as opaque 64-bit patterns with no arithmetic. Enum strings are stored as given, with no validation; this includes the prompt's `"MEDUIM"` spelling.
- Concurrency is left out. Neither another process changing the tables during a run nor readers seeing the state between the delete and the insert is modelled. So in the job as a whole the update cannot fail, because every name comes from the fetch and nothing removes insight rows; `Run` and `RefreshInOrder` still model the failing update for any list of names.
- The model does not relate `lastUpdated` to `nextUpdate`. They come from two separate clock readings, and nothing is claimed about the time between them. JavaScript `Date`'s range limit of ±8.64e15 ms is not modelled.
- A part that has a `text` property whose value is not a string is left out; the code would throw in `replace`. In the model a part's text is either absent or a string.
- Strings are sequences of Unicode scalar values, not UTF-16 code units. Every character the cleaning inspects is a single code unit, so this does not change its result.
- Salary rows carry no database id. The table is kept in insertion order, and `RangesOf` reports each industry's ranges in that order.
