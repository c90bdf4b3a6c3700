# Skill matching and résumé skill extraction, modelled in Dafny

This project models the computational core of a job-readiness service built on
Express and MongoDB:

- **Skill matching** (`backend/routes/matching.js`). A candidate's free-form
  skill labels are compared with a job role's weighted requirements. Each
  requirement has a skill, an importance from 1 to 10 and a level. The service
  reports the importance-weighted compatibility percentage, the matched and
  missing requirements, and learning recommendations for the missing ones,
  ranked by importance. It also reports a learning path: the top three
  recommendations, their total learning time, and three lines of guidance
  chosen by percentage band. The quick-match endpoint ranks every job in the
  catalogue by compatibility.
- **Résumé skill extraction** (`backend/routes/resume.js`). The upload filter
  accepts PDF and Word documents only. The MIME type chooses a decoder. The
  decoded text is lower-cased and searched for each phrase of a fixed,
  ordered taxonomy of 99 skill phrases. The response carries the skills
  found, the text length and a 200-character preview.

Modules:

- `Wrappers` holds the `Option` and `Result` types.
- `Strings` models the JavaScript string operations the code relies on:
  ASCII `toLowerCase`, `includes`, and the decimal rendering of a number in a
  template literal.
- `StableSort` models `Array.prototype.sort` with a descending numeric
  comparator. The language guarantees this sort is stable. The module has a
  functional reference sort, its characterisation (sorted, and every key's
  elements in input order), a proof that this characterisation determines the
  output, and an in-place array insertion sort proved equal to the reference.
- `Matching` models `matching.js`. `calculateCompatibility` is a method with a
  loop, proved equal to specification functions. `generateRecommendations`
  and the quick-match ranking build an array and sort it in place. The rest
  are functions with lemmas.
- `Resume` models `resume.js`. The extractor is a method with a loop over the
  taxonomy, proved equal to a specification function. The filter, the decoder
  choice, the preview and the upload handler are functions.

`Math.round` on a non-negative ratio is written in exact integers:
`Math.round(u / t * 100)` becomes `(200u + t) / (2t)`, and
`Math.round(w / 4)` becomes `(w + 2) / 4`.

## Model

| member | source | states |
|---|---|---|
| `Strings.Lower` | backend/routes/matching.js:15 | lower-casing keeps the length, maps each ASCII capital to its small letter and leaves every other character unchanged |
| `Strings.LowerIdempotent` | backend/routes/resume.js:105-108 | lower-casing an already lower-cased string changes nothing |
| `Strings.LowerUnchanged` | backend/routes/resume.js:108 | a string without capitals is its own lower-case form |
| `Strings.Includes` | backend/routes/matching.js:22-25 | `includes` finds a needle only in a text at least as long as the needle |
| `Strings.OccursIncludes` | backend/routes/matching.js:22-25 | an occurrence of the needle at any offset is found by `includes` |
| `Strings.IncludesInSuffix` | backend/routes/resume.js:137 | a needle in the tail of a string is found in the whole string |
| `Strings.IncludesOccurs` | backend/routes/matching.js:22-25 | whatever `includes` finds occurs at some offset |
| `Strings.IncludesIffOccurs` | backend/routes/matching.js:22-25 | `includes` holds exactly when the needle occurs at some offset |
| `Strings.NotIncludesWithoutHead` | backend/routes/resume.js:108 | a needle whose first character starts no window of the text is not found |
| `Strings.IncludesEmpty` | backend/routes/matching.js:24 | the empty string is found in every string |
| `Strings.IncludesSelf` | backend/routes/matching.js:23 | every string includes itself |
| `Strings.DecimalString` | backend/routes/matching.js:195-196 | a number renders as a non-empty run of decimal digits with no leading zero |
| `Strings.ParseDecimalString` | backend/routes/matching.js:195-196 | the rendered digits read back as the same number |
| `Strings.DecimalStringInjective` | backend/routes/matching.js:195-196 | different week or month counts render differently |
| `StableSort.StableSortDesc` | backend/routes/matching.js:85 | the reference sort keeps the length; its order and stability are `StableSortDescCorrect` |
| `StableSort.BucketConcat` | backend/routes/matching.js:85 | the elements with a given key in a concatenation are those of each part, in order |
| `StableSort.SwapAdjacent` | backend/routes/matching.js:85 | swapping neighbours with different keys keeps every key's elements in their order |
| `StableSort.InsertSorted` | backend/routes/matching.js:85 | inserting into a sorted list keeps it sorted |
| `StableSort.InsertPermutes` | backend/routes/matching.js:85 | inserting adds exactly the new element and loses none |
| `StableSort.StableSortDescPermutes` | backend/routes/matching.js:85 | the reference sort is a permutation of its input |
| `StableSort.StableSortDescCorrect` | backend/routes/matching.js:85 | the reference sort is non-increasing in the key, keeps each key's elements in input order, and keeps the length |
| `StableSort.SortedSameBucketsUnique` | backend/routes/matching.js:85 | two sorted lists with the same per-key order are equal, so a stable descending sort has a single possible result |
| `StableSort.SortedSameBucketsIsSort` | backend/routes/matching.js:85 | any sorted rearrangement that keeps every key's elements in order is the reference sort |
| `StableSort.SameBucketsPermutation` | backend/routes/matching.js:85 | a stable sort's output is a permutation of its input |
| `StableSort.SortInPlace` | backend/routes/matching.js:85 | the in-place sort leaves the array equal to the reference stable descending sort of its old contents |
| `StableSort.SinkInto` | backend/routes/matching.js:85 | one insertion pass makes `a[..i + 1]` non-increasing with the same elements it held, leaves `a[i + 1..]` as it was, and keeps each key's elements in their old order |
| `StableSort.PrefixPermutes` | backend/routes/matching.js:85 | with each key's elements in the same order and the suffix unchanged, the prefix holds the same elements as before |
| `Matching.SkillMatches` | backend/routes/matching.js:22-25 | a label matches a requirement equal to its lower-cased form, and the empty label matches every requirement |
| `Matching.SkillMatchesIff` | backend/routes/matching.js:22-25 | a label matches exactly when the lower-cased label occurs in the requirement or the requirement occurs in it |
| `Matching.UserHasSkill` | backend/routes/matching.js:22-25 | `some` finds a match exactly when some candidate label matches the lower-cased requirement |
| `Matching.EmptyCandidateMeetsAll` | backend/routes/matching.js:22-25 | an empty candidate label meets every requirement |
| `Matching.NoCandidatesMeetNothing` | backend/routes/matching.js:22 | with no candidate labels, no requirement is met |
| `Matching.MatchingOf` | backend/routes/matching.js:27-34 | the matching list holds only requirements of the input that are met |
| `Matching.MissingOf` | backend/routes/matching.js:35-41 | the missing list holds only requirements of the input that are not met |
| `Matching.TotalWeight` | backend/routes/matching.js:16-19 | with importances in 1..10, the total is between the number of requirements and ten times it |
| `Matching.RoundedPercentage` | backend/routes/matching.js:46-48 | the percentage is 0 without weight, and within 0..100 for a score not above the total |
| `Matching.CompatibilityOf` | backend/routes/matching.js:7-57 | every requirement lands in one list, the score plus the missing weight is the total, the score is within 0..total and the percentage within 0..100 |
| `Matching.Partition` | backend/routes/matching.js:14-43 | every requirement lands in exactly one of the matching and missing lists, only met ones in the first and only unmet ones in the second |
| `Matching.TotalWeightAppend` | backend/routes/matching.js:19 | the total importance of a concatenation is the sum of the totals |
| `Matching.ScanStep` | backend/routes/matching.js:14-43 | one iteration extends the matching list, the missing list and the total exactly as the loop body does |
| `Matching.ScanAdvance` | backend/routes/matching.js:14-43 | the loop state after one more requirement is the state the specification gives for the longer prefix |
| `Matching.ScanComplete` | backend/routes/matching.js:45-56 | the state after the last requirement, with the rounded percentage, is the specified result |
| `Matching.WeightSplit` | backend/routes/matching.js:19-29 | the total is the user's score plus the weight of the missing requirements, so the score never exceeds the total |
| `Matching.RoundedPercentageIsNearest` | backend/routes/matching.js:46-48 | the integer percentage is within 0..100 and is the nearest integer to 100u/t, halves rounded up |
| `Matching.PercentageBounds` | backend/routes/matching.js:46-48 | the percentage is within 0..100; it is 0 for a job without requirements, and the total is 0 only then |
| `Matching.RoundedPercentageEnds` | backend/routes/matching.js:47 | a full score rounds to 100 and a zero score to 0 |
| `Matching.FullMatchIsHundred` | backend/routes/matching.js:46-48 | when nothing is missing the percentage is 100 |
| `Matching.NoMatchIsZero` | backend/routes/matching.js:46-48 | when nothing matches the percentage is 0 |
| `Matching.MeetsJavascript` | backend/routes/matching.js:22-25 | the label "javascript" meets the requirement "javascript" |
| `Matching.JavascriptAndReactDisjoint` | backend/routes/matching.js:23-24 | neither of "javascript" and "react" contains the other |
| `Matching.MissesReact` | backend/routes/matching.js:22-25 | the label "javascript" does not meet the requirement "react" |
| `Matching.ExampleLists` | backend/routes/matching.js:14-43 | for javascript (10) and react (9) against ["javascript"], javascript matches and react is missing |
| `Matching.ExampleJavascriptReact` | backend/routes/matching.js:7-57 | the same example scores 10 of 19, which rounds to 53 |
| `Matching.CalculateCompatibility` | backend/routes/matching.js:7-57 | the loop returns the percentage, score, total and both lists the specification functions define |
| `Matching.GetEstimatedLearningTime` | backend/routes/matching.js:89-97 | each level has its own estimate, and "1-2 months" is given exactly to levels outside the table |
| `Matching.ToRecommendation` | backend/routes/matching.js:61-82 | a recommendation keeps the requirement's skill, importance and level, uses the level's estimate, and has three videos and three courses |
| `Matching.ToRecommendations` | backend/routes/matching.js:61-82 | one recommendation per missing requirement, in the same order, each built from that requirement |
| `Matching.RecommendationsOf` | backend/routes/matching.js:60-86 | one recommendation per missing requirement, non-increasing in importance |
| `Matching.EstimatedLearningTimeTable` | backend/routes/matching.js:89-97 | the level table with its "1-2 months" fallback; the skill name plays no part |
| `Matching.BucketOfMapped` | backend/routes/matching.js:61-85 | building recommendations keeps each importance's requirements in their order |
| `Matching.ToRecommendationsAppend` | backend/routes/matching.js:61 | mapping a concatenation maps each part |
| `Matching.RecommendationsRanked` | backend/routes/matching.js:60-86 | recommendations are as many as the missing skills, ranked by importance, equal importances in input order, and a permutation of the unsorted list |
| `Matching.ExamplePythonSqlOrder` | backend/routes/matching.js:60-86 | missing python (10) then sql (7) keeps that order |
| `Matching.ExamplePythonSql` | backend/routes/matching.js:60-97 | missing python (10, advanced) and sql (7, intermediate) give python first ("3-6 months"), sql second ("1-3 months"), and a total of "7 months" |
| `Matching.GenerateRecommendations` | backend/routes/matching.js:60-86 | the array built and sorted in place equals the specified ranking |
| `Matching.WeeksFor` | backend/routes/matching.js:185-192 | every estimate counts 3, 8 or 18 weeks |
| `Matching.TotalWeeks` | backend/routes/matching.js:191-193 | the total is between 3 and 18 weeks per priority skill |
| `Matching.CalculateTotalLearningTime` | backend/routes/matching.js:184-197 | the text ends in " weeks" exactly when the total is under 8 weeks |
| `Matching.WeeksForEstimate` | backend/routes/matching.js:185-192 | each level's estimate counts 3, 8 or 18 weeks, and the fallback counts 8 |
| `Matching.TotalLearningTimeRendering` | backend/routes/matching.js:184-197 | under 8 weeks the text is the week count; otherwise it is the month count nearest to weeks/4, halves rounded up, at least 2 |
| `Matching.SevenMonths` | backend/routes/matching.js:184-197 | 18 weeks plus 8 weeks renders as "7 months" |
| `Matching.ExampleNoPrioritySkills` | backend/routes/matching.js:195 | no priority skills gives "0 weeks" |
| `Matching.GenerateNextSteps` | backend/routes/matching.js:200-226 | the guidance is always three lines |
| `Matching.Band` | backend/routes/matching.js:200-226 | the band is 3 exactly from 80, 2 exactly in 60..79, 1 exactly in 40..59, and 0 below 40 |
| `Matching.NextStepsLead` | backend/routes/matching.js:200-226 | guidance is three lines, and the first opens with the band's own mark |
| `Matching.NextStepsDistinguishBands` | backend/routes/matching.js:200-226 | percentages in different bands get different guidance |
| `Matching.NextStepsByBand` | backend/routes/matching.js:200-226 | guidance is equal exactly when the bands are equal, the band rises with the percentage, and the recommendations play no part |
| `Matching.LearningPathOf` | backend/routes/matching.js:159-163 | the plan holds the first min(3, n) recommendations, at most 54 weeks of learning, and three guidance lines |
| `Matching.PrioritySkillsAreTop` | backend/routes/matching.js:159-162 | the priority skills are the first min(3, n) recommendations, and none left out outranks one kept |
| `Matching.AnalysisOf` | backend/routes/matching.js:129-164 | the counts add up to the number of requirements, the percentage is within 0..100, the recommendations are as many as the missing skills and ranked, and the plan has min(3, missing) skills |
| `Matching.Analyze` | backend/routes/matching.js:100-181 | missing skills give 400 "User skills are required and must be an array", a missing or empty job id gives 400 "Job ID is required", an unknown id gives 404 "Job not found", and otherwise the full analysis of that job |
| `Matching.QuickMatchOf` | backend/routes/matching.js:245-256 | a job summary never matches more skills than required, and its percentage is within 0..100 |
| `Matching.QuickMatchesOf` | backend/routes/matching.js:245-259 | one summary per job |
| `Matching.QuickMatchesRanked` | backend/routes/matching.js:245-259 | one summary per job, ranked by percentage, equal percentages in catalogue order, every entry within bounds |
| `Matching.SummarizeJob` | backend/routes/matching.js:245-256 | the callback's summary of a job is the specified one |
| `Matching.QuickMatchAll` | backend/routes/matching.js:229-277 | missing skills give 400; otherwise the summaries stored one per job in a loop and sorted in place equal the specified ranking |
| `Resume.FoundSkills` | backend/routes/resume.js:104-116 | the extractor reports only taxonomy phrases, and never more than the taxonomy holds |
| `Resume.ExtractedSkills` | backend/routes/resume.js:72-117 | every reported skill is a taxonomy phrase, and none is reported twice |
| `Resume.ExtractSkillsFromText` | backend/routes/resume.js:72-117 | the loop over the taxonomy returns exactly the specified list of found skills |
| `Resume.FoundSkillsMembers` | backend/routes/resume.js:105-114 | a phrase is reported exactly when it is in the taxonomy and the lower-cased text contains it lower-cased |
| `Resume.FoundSkillsDistinct` | backend/routes/resume.js:110-112 | no phrase is reported twice |
| `Resume.FirstIndexPrefix` | backend/routes/resume.js:107 | a phrase's first position in the taxonomy is already fixed by any prefix holding it |
| `Resume.FoundSkillsInTaxonomyOrder` | backend/routes/resume.js:107-114 | the report follows the taxonomy's order, not the order of appearance in the text |
| `Resume.FoundSkillsInEmptyText` | backend/routes/resume.js:104-116 | with no empty phrase in the taxonomy, the empty text yields nothing |
| `Resume.TaxonomyPhrasesNonEmpty` | backend/routes/resume.js:74-102 | no phrase of the taxonomy is empty |
| `Resume.ExtractedFromEmptyText` | backend/routes/resume.js:74-116 | the empty text yields no skills |
| `Resume.ExtractionIgnoresCase` | backend/routes/resume.js:105-108 | a text and its lower-cased form yield the same skills |
| `Resume.ExtractedSkillsMembers` | backend/routes/resume.js:74-116 | the skills reported for a text are the taxonomy phrases its lower-cased form contains |
| `Resume.InTaxonomy` | backend/routes/resume.js:74-102 | "go", "mongodb", "java", "javascript" and "node.js" are taxonomy phrases |
| `Resume.MongoNames` | backend/routes/resume.js:108 | "MongoDB" lower-cased contains "go" and "mongodb" |
| `Resume.JavaScriptNames` | backend/routes/resume.js:108 | "JavaScript" lower-cased contains "java" and "javascript" |
| `Resume.SubstringExamples` | backend/routes/resume.js:104-116 | "MongoDB" yields "go" as well as "mongodb" |
| `Resume.SubstringExamplesJava` | backend/routes/resume.js:104-116 | "JavaScript" yields "java" as well as "javascript" |
| `Resume.SentenceLowered` | backend/routes/resume.js:105 | the example sentence lower-cases as expected |
| `Resume.SentenceNamesNode` | backend/routes/resume.js:108 | the example sentence contains "node.js" |
| `Resume.SentenceNamesMongo` | backend/routes/resume.js:108 | the example sentence contains "mongodb" |
| `Resume.SentenceLacksRust` | backend/routes/resume.js:108 | the example sentence does not contain "rust" |
| `Resume.SentenceExample` | backend/routes/resume.js:104-116 | "Built APIs with Node.js and MongoDB" yields "node.js" and "mongodb" but not "rust" |
| `Resume.FileFilter` | backend/routes/resume.js:28-40 | an upload is accepted exactly when its MIME type is PDF, msword or the OOXML word-processing document, and is otherwise rejected with "Only PDF and Word documents are allowed!" |
| `Resume.ExtractionBranch` | backend/routes/resume.js:135-139 | the PDF decoder exactly for the PDF type, the Word decoder exactly for other types containing "word", and no text otherwise |
| `Resume.AcceptedUploadsAreDecoded` | backend/routes/resume.js:28-40 | every accepted upload reaches a decoder: PDF to the PDF decoder, both Word types to the Word decoder |
| `Resume.DecoderErrorPrefix` | backend/routes/resume.js:57-67 | a decoder failure is reported with a non-empty prefix naming the decoder, and only when a decoder ran |
| `Resume.Preview` | backend/routes/resume.js:154 | a text of at most 200 characters is previewed whole, a longer one by its first 200 characters, and either way followed by "..." |
| `Resume.ProcessUpload` | backend/routes/resume.js:120-164 | no file gives "No file uploaded"; a decoder failure gives "Failed to process resume" with the decoder's prefixed message; every other upload succeeds, with the file's name and size and the skills, length and preview of the decoded text, or of the empty text when no decoder applies |

## Left out

- HTTP plumbing is not modelled: Express routing, console logging, response wrapping with success messages, and the 500 responses of the `catch` blocks in `/analyze` and `/quick-match`. The 400 and 404 answers are modelled as `Result` values.
- MongoDB access is not modelled. `JobRole.findById` is a lookup in a `map` parameter, and `JobRole.find({})` is a sequence parameter.
- The shape of a requirement follows the schema in `backend/models/JobRole.js` (importance an integer 1..10, level one of three words). Fractional importances, which the schema's `Number` type would admit, are not modelled.
- `Analyze` does not model falsy job ids other than an absent or empty one (such as `0` or `false`), nor `userSkills` elements that are not strings. For those, the source would throw or behave differently.
- Matching.RoundedPercentage: replaces floating-point `Math.round(u / t * 100)` by exact rational rounding, so cases where the floating-point product lands just below an exact half are not modelled. For example, importances 10, 10, 10, 7 and 3 with 10, 10 and 3 matched give a score of 23 out of 40. In double arithmetic `(23 / 40) * 100` is 57.49999999999999, so the source reports 57, while `RoundedPercentage(23, 40)` is 58.
- `Strings.Lower` folds only ASCII letters; JavaScript's full Unicode `toLowerCase` is not modelled. String lengths are counted in characters, not UTF-16 code units.
- Object-literal lookups such as `timeEstimates[level]` and `timeMap[...]` are modelled as plain tables. JavaScript prototype keys (such as "constructor"), which would find an inherited value, are not modelled.
- Multer is not modelled: disk storage, the unique file name, the 5 MB size limit, and how a filter rejection reaches the client. `FileFilter` models only the accept or reject decision.
- The PDF and Word decoders (`extractTextFromPDF`, `extractTextFromWord`) are foreign libraries. What they return, text or an error message, is an input of `ProcessUpload`.
- The `GET /skills` reference list in `resume.js`, authentication, the React frontend and the database seeding script are outside this model.
- Matching.FullMatchIsHundred: proves only that nothing missing gives 100. The converse does not hold: a score of 199 out of 200 also rounds to 100.
