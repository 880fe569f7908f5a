# Learning-progress store, verified model

This project models the client-side learning-progress store of a browser
code-explanation tool: the hook in `src/hooks/useLocalSession.tsx`. It has two parts.

- **Skill progression rules.** A cumulative explanation count maps to one of
  three tiers (beginner from 0, intermediate from 10, advanced from 50). A
  progress percentage interpolates between the floor of the current tier and
  the floor of the next one. A next-level query reports the next tier and how
  many explanations are still missing.
- **Session record.** The record holds counters, the stored tier, a dominant
  pattern label, the five most recent snippets and the date of the last
  submission. Four updaters change it: a code submission, a completed
  explanation, a direct tier override and the start-up load with its
  zero-valued fallback.

Every updater the hook hands to its state setter is a pure function from the
previous record to the next one. The calendar date (`today`) and the
millisecond clock (`now`) are parameters. The browser storage is a
`map<string, string>`, and the JSON parser and serializer are function
parameters.

Modules:

- `Wrappers` (`wrappers.dfy`): `Option`.
- `Decimal` (`decimal.dfy`): decimal rendering of the clock value used in snippet ids.
- `SkillProgression` (`skill_progression.dfy`): the threshold table, the tier
  function, the rounding of `Math.round`, progress and next-level queries.
- `LocalSession` (`local_session.dfy`): the record, load/save, and the
  hook's updaters and queries.
- `SessionRuns` (`session_runs.dfy`): runs of submissions, runs of
  explanations and mixed event traces.

Three behaviours of the code that are easy to misread:

- The load returns whatever the parser yields, without validation. Only a
  storage read that throws, a missing entry, an empty entry or a parse
  failure gives the default record.
  `LocalSession.LoadDoesNotValidate` shows that a stored record breaking the
  invariant is handed on as it is.
- The session count grows on every change of date between consecutive
  submissions. A sequence of dates A, B, A counts three sessions. This equals
  the number of distinct dates only while the clock moves forward.
- `totalPatterns` is incremented together with `totalExplanations`. Their
  difference is constant along every trace (`SessionRuns.TracePreservesInvariant`).

## Model

| member | source | states |
|---|---|---|
| `SkillProgression.MinOf` | src/hooks/useLocalSession.tsx:22-26 | the tier floors are 0, 10 and 50 in tier order, and only beginner starts at 0 |
| `SkillProgression.MaxOf` | src/hooks/useLocalSession.tsx:22-26 | only advanced has no upper bound (Infinity); every other tier's max is one below the next tier's floor (9 and 49) |
| `SkillProgression.Successor` | src/hooks/useLocalSession.tsx:37 | the next tier is one rank higher, and there is none exactly at advanced |
| `SkillProgression.CalculateSkillLevel` | src/hooks/useLocalSession.tsx:28-32 | the tier returned for a non-negative count is one whose [min, max] band holds the count; a negative count falls through to beginner |
| `SkillProgression.BandIsUnique` | src/hooks/useLocalSession.tsx:22-32 | every non-negative count lies in exactly one band, the one the tier function picks |
| `SkillProgression.CalculateSkillLevelMonotone` | src/hooks/useLocalSession.tsx:28-32 | more explanations never give a lower tier |
| `SkillProgression.RoundDiv` | src/hooks/useLocalSession.tsx:43 | the result is Math.round of the quotient: the nearest integer, with halves rounded up |
| `SkillProgression.RoundOfUnique` | src/hooks/useLocalSession.tsx:43 | the rounding of a quotient is unique, so any result with the rounding property is Math.round's |
| `SkillProgression.RoundDivMonotone` | src/hooks/useLocalSession.tsx:43 | rounding is monotone in the numerator |
| `SkillProgression.ProgressToNextLevel` | src/hooks/useLocalSession.tsx:34-44 | null exactly at advanced; otherwise at most 100; below 100 it is the rounding of 100·(e − floor)/(next floor − floor); 100 is returned only once that ratio reaches 99.5 |
| `SkillProgression.ProgressZeroAtFloor` | src/hooks/useLocalSession.tsx:34-44 | the progress is 0 at the floor of beginner and of intermediate |
| `SkillProgression.ProgressInRangeWhenConsistent` | src/hooks/useLocalSession.tsx:34-44 | when the tier matches the count, the progress is never negative and stays below 100 |
| `SkillProgression.ProgressMonotone` | src/hooks/useLocalSession.tsx:34-44 | for a fixed tier the progress never decreases as the count grows |
| `SkillProgression.NextLevel` | src/hooks/useLocalSession.tsx:136-149 | null exactly at advanced; otherwise the successor tier and its floor; remaining is 0 exactly when the count has reached the floor, and otherwise count + remaining equals the floor |
| `SkillProgression.NextLevelAgreesWithProgress` | src/hooks/useLocalSession.tsx:136-149 | when the tier matches the count, something is always still missing, and the progress is the rounded share of the band already covered |
| `Decimal.ToDecimal` | src/hooks/useLocalSession.tsx:88 | the rendering of the clock in the id is a non-empty string of digits without leading zeros |
| `Decimal.DecimalRoundTrip` | src/hooks/useLocalSession.tsx:88 | reading back the rendered digits gives the clock value again |
| `Decimal.ToDecimalInjective` | src/hooks/useLocalSession.tsx:88 | different clock values render differently |
| `LocalSession.SnippetId` | src/hooks/useLocalSession.tsx:88 | the id is "snippet_" followed by decimal digits without leading zeros that read back as the clock value |
| `LocalSession.SnippetIdInjective` | src/hooks/useLocalSession.tsx:88 | snippets submitted at different milliseconds get different ids |
| `LocalSession.DefaultData` | src/hooks/useLocalSession.tsx:46-54 | the default record has all counters 0, beginner, pattern "visual", no snippets and an empty date, and it satisfies the record invariant |
| `LocalSession.LoadFromStorage` | src/hooks/useLocalSession.tsx:56-66 | a storage read that throws, a missing entry, an empty entry or one that fails to parse gives the default record; otherwise the parsed record is returned unchanged |
| `LocalSession.SaveToStorage` | src/hooks/useLocalSession.tsx:68-74 | a successful save puts the serialized record under the storage key; a failed one leaves storage as it was; other keys are never changed and no other key is added |
| `LocalSession.SaveLoadRoundTrip` | src/hooks/useLocalSession.tsx:56-74 | saving a record and loading it back gives the same record when the parser reads the non-empty serialization back |
| `LocalSession.LoadDoesNotValidate` | src/hooks/useLocalSession.tsx:56-66 | some stored and parsed record breaks the invariant and is still returned by the load |
| `LocalSession.MakeSnippet` | src/hooks/useLocalSession.tsx:88-97 | the new entry's id is derived from the clock; its title is the language followed by " code"; its code is a prefix of the input of at most 100 characters, the whole input when that is shorter |
| `LocalSession.TrackCodeSubmit` | src/hooks/useLocalSession.tsx:83-106 | the session count goes up by one iff the stored date differs from today; the date becomes today; the new snippet is first, followed by the earlier snippets in order, and the length is min(old + 1, 5); counters, tier and pattern are unchanged |
| `LocalSession.TrackExplanation` | src/hooks/useLocalSession.tsx:108-130 | both counters go up by exactly one; the new tier matches the new count; the report says leveledUp iff the tier differs from the one stored before, and gives the new tier; no other field changes |
| `LocalSession.LevelUpOnlyOnEdge` | src/hooks/useLocalSession.tsx:111-119 | from a record whose tier matches its count, a level-up is reported exactly when the new count is 10 or 50 |
| `LocalSession.UpdateSkillLevel` | src/hooks/useLocalSession.tsx:151-156 | the tier becomes the given one and nothing else changes |
| `LocalSession.OnlyOverrideBreaksTier` | src/hooks/useLocalSession.tsx:99-156 | a submission keeps the tier invariant; an explanation restores it from any record; an override can break it |
| `LocalSession.GetProgress` | src/hooks/useLocalSession.tsx:132-134 | the current record's progress is null exactly at advanced, at most 100, and within [0, 100) when the tier matches the count |
| `LocalSession.GetNextLevelInfo` | src/hooks/useLocalSession.tsx:136-149 | the current record's next-level info is null exactly at advanced; otherwise the successor tier and its floor; remaining is 0 exactly when the count has reached the floor, and otherwise count + remaining equals the floor; when the tier matches the count, remaining is positive |
| `SessionRuns.SubmitAllSnippets` | src/hooks/useLocalSession.tsx:91-102 | after any non-empty run of submissions the list is the first five of (new snippets newest first, then the stored ones) |
| `SessionRuns.SubmitAllCounters` | src/hooks/useLocalSession.tsx:87-103 | along any run of submissions the session count grows by the number of date changes, the date becomes the latest one, and only count, list and date move |
| `SessionRuns.SameDayCountsOnce` | src/hooks/useLocalSession.tsx:87 | submissions all on one date add one session if the stored date is different and none otherwise |
| `SessionRuns.TwoSubmissionsSameDay` | src/hooks/useLocalSession.tsx:87-101 | two submissions on the same date raise the session count by at most one in total |
| `SessionRuns.SixSubmissions` | src/hooks/useLocalSession.tsx:102 | after six submissions the list holds five snippets and the sixth is first |
| `SessionRuns.ExplainAll` | src/hooks/useLocalSession.tsx:111-126 | n explanations raise both counters by exactly n and report at most n level-ups |
| `SessionRuns.LevelUpsCountFloorsCrossed` | src/hooks/useLocalSession.tsx:111-127 | from a record whose tier matches its count, a run of explanations reports one level-up per tier floor crossed and no other, and ends with the tier matching |
| `SessionRuns.AtMostTwoLevelUps` | src/hooks/useLocalSession.tsx:111-127 | from the default record at most two level-ups are ever reported, and exactly two by the 50th explanation |
| `SessionRuns.TracePreservesInvariant` | src/hooks/useLocalSession.tsx:83-156 | every trace without an override keeps the tier invariant and a list of at most five; counters never decrease; patterns minus explanations is constant |
| `SessionRuns.FromDefaultInvariant` | src/hooks/useLocalSession.tsx:46-156 | every override-free trace from the default record ends with the tier matching the count and at most five snippets |
| `SessionRuns.OverrideCanBreakInvariant` | src/hooks/useLocalSession.tsx:151-156 | one override of the default record already breaks the invariant |
| `SessionRuns.WorkedExamples` | src/hooks/useLocalSession.tsx:22-127 | tiers at 0, 9, 10, 49, 50 and 1000; progress 0 at (0, beginner), 90 at (9, beginner), 3 at (11, intermediate), null at advanced, capped at 100 for (15, beginner); 9→10 reports a level-up to intermediate; 10→11 reports none |

## Left out

- React state machinery. `useState` and `useEffect` are not modelled (lines 76-81). Each updater is a pure function, and every change is assumed to be saved right away.
- The value `trackExplanation` returns. It is captured inside the state-setter callback (lines 108-129), so what callers see depends on when React runs it. The model returns the record and the report together.
- Browser storage, JSON and the clock are parameters: a key-value map, a flag for whether reading storage succeeds, a parser that yields `None` where `JSON.parse` throws, a serializer, `today` and `now`. Console logging is not modelled.
- Number representation: the source's counters are JavaScript numbers (IEEE doubles); the model's are unbounded naturals. Past 2^53 `totalExplanations + 1` no longer changes the value in the source. A stored record can also carry negative or fractional counts, which `JSON.parse` accepts; the model cannot represent them.
- Parsed values that are not shaped like a record. `JSON.parse` can yield any JSON value; the model's parser yields records only.
- Unknown tier strings. The stored tier is an untyped string in the source; here it is an enumeration. A corrupted store could hold another string, which makes the progress query read the `min` of an undefined table entry. That case is outside the model.
- LocalSession.MakeSnippet: the source reads `Date.now()` twice, once for the id and once for the timestamp. The model uses one reading for both.
- LocalSession.MakeSnippet: `substring(0, 100)` counts UTF-16 code units. The model counts `char`s and does not model surrogate pairs.
- SkillProgression.ProgressToNextLevel: the source rounds the floating-point product `(progress / range) * 100`; the model rounds the exact rational value. They differ at (33, intermediate): the source computes (23/40)*100 = 57.49999999999999 and returns 57, while the model returns 58.
- Decimal.ToDecimal: clock values of 10^21 or more print in exponent form in the source; the model always prints plain digits.
- `dominantPattern` is only read. No operation of the store changes it, and the model carries it unchanged.
