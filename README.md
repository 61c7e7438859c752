# Survey dashboard aggregation, modelled in Dafny

The dashboard fetches survey answers and draws three charts. Each chart's
`fetchData` callback holds a small aggregation routine, wrapped in HTTP,
React state and Chart.js code. This project lifts out those routines and
models each one over a sequence of answer records
(`AnswerRecord(submissionId, answer)`). It then proves what they compute.

- `Survey` (survey.dfy): the record type and the counting functions the charts share.
- `AgeAndGender` (age_gender.dfy): the stacked age × gender chart. There are
  eight fixed age bands. `totalPeople` counts the age answers per band. Each age
  record is joined to the first gender record with the same `submissionId`
  (`Array.find`). `maleCounts` and `femaleCounts` count the exact answers "Male"
  and "Female". The two `forEach` callbacks are methods that update the three
  arrays in place. Each of the two passes over the age records is a method of
  its own, and `CrossTabulate` runs them in order.
- `Location` (location.dfy): the location chart. A JavaScript object is used as
  a dictionary from the raw answer to its count. It is modelled as
  `StringDict`, which holds the entries and the key insertion order. The tally
  is built in one pass and then projected into `labels` and `counts`.
- `AnswerRows` (answer_rows.dfy): the grouped answer chart. The upstream
  `{answer, count, percentage}` tuples become three parallel series: labels
  truncated to 25 characters, percentages, and table rows. `getRandomColor`
  builds a seven-character colour string.

Randomness is a parameter. The six `Math.random()` draws of one colour are
passed in as reals in [0, 1).

## Model

| member | source | states |
|---|---|---|
| `Survey.CountAnswer` | src/components/AgeAndGenderChajrt.tsx:13-18 | `filter(r => r.answer === ans).length`: at most the number of records; zero exactly when no record answers `ans`; all of them exactly when every record does |
| `AgeAndGender.AgeRangesDistinct` | src/components/AgeAndGenderChajrt.tsx:37-46 | the eight age-band labels are pairwise different |
| `AgeAndGender.IndexOf` | src/components/AgeAndGenderChajrt.tsx:59 | `indexOf`: -1 exactly when the label is absent, otherwise an index holding it with no earlier occurrence |
| `AgeAndGender.BandIndex` | src/components/AgeAndGenderChajrt.tsx:59-60 | an age answer's band index is `i` exactly when the answer is the `i`-th label; an answer outside the eight has no band |
| `AgeAndGender.Find` | src/components/AgeAndGenderChajrt.tsx:72-74 | `find`: none exactly when no gender record has the id; otherwise the position of a record with that id, with no earlier record having it (first match) |
| `AgeAndGender.GenderCount` | src/components/AgeAndGenderChajrt.tsx:69-86 | the number of age records of a band joined to a given gender is at most that band's total |
| `AgeAndGender.CountAge` | src/components/AgeAndGenderChajrt.tsx:57-63 | one age record adds one to its own band's total and changes no other slot; an unknown band changes nothing |
| `AgeAndGender.CountGender` | src/components/AgeAndGenderChajrt.tsx:69-86 | one age record adds one to the male or the female count of its own band, only when its first-matched gender is exactly "Male" or "Female"; at most one slot of the two series changes |
| `AgeAndGender.CountBandTotals` | src/components/AgeAndGenderChajrt.tsx:54-63 | the first pass: starting from eight zeros, slot `i` ends as the number of age records answering exactly the `i`-th band label |
| `AgeAndGender.CountBandGenders` | src/components/AgeAndGenderChajrt.tsx:65-86 | the second pass: starting from eight zeros each, slot `i` of the male (female) series ends as the number of age records of band `i` whose first-matched gender is exactly "Male" ("Female") |
| `AgeAndGender.CrossTabulate` | src/components/AgeAndGenderChajrt.tsx:37-86 | three series of eight slots each, starting from zero: the per-band number of age answers, and the per-band numbers joined to "Male" and to "Female" |
| `AgeAndGender.GenderCountsWithinBand` | src/components/AgeAndGenderChajrt.tsx:57-86 | in every band, male plus female count is at most the band total |
| `AgeAndGender.GenderCountsFillBand` | src/components/AgeAndGenderChajrt.tsx:75-83 | male plus female equals the band total exactly when every age record of the band is joined to a gender answering exactly "Male" or "Female" (records with no match or another gender are excluded from both) |
| `AgeAndGender.CrossTabSums` | src/components/AgeAndGenderChajrt.tsx:54-86 | sum of male counts plus sum of female counts is at most the sum of the band totals, which is at most the number of age records |
| `AgeAndGender.CrossTabFilled` | src/components/AgeAndGenderChajrt.tsx:57-86 | the male and female counts add up to the sum of the band totals exactly when every age record of a known band has, as its first gender match, a record answering exactly "Male" or "Female" |
| `AgeAndGender.UnknownBandDropped` | src/components/AgeAndGenderChajrt.tsx:77-78 | an age record whose answer is not one of the eight bands (such as "61-65") changes no total and no gender count |
| `AgeAndGender.FindIgnoresLaterRecords` | src/components/AgeAndGenderChajrt.tsx:72-74 | once a respondent has a matching gender record, later gender records with the same id are ignored |
| `AgeAndGender.GenderTotalsWithinRecords` | src/components/AgeAndGenderChajrt.tsx:13-18 | `totalMale + totalFemale` is at most the number of gender records |
| `AgeAndGender.TwoRespondentsExample` | src/components/AgeAndGenderChajrt.tsx:57-86 | ages [(1,"21-25"),(2,"21-25")] with genders [(1,"Male"),(2,"Female")] give band "21-25" a total of 2, one male and one female |
| `Location.Get` | src/components/LocationChart.tsx:30 | reading `locations[location]` of an own key: defined exactly for stored keys, and then their stored count |
| `Location.Put` | src/components/LocationChart.tsx:30 | assigning `locations[location]`: a new key goes to the end of the key order, an existing key keeps its place, keys stay distinct and match the entries |
| `Location.Increment` | src/components/LocationChart.tsx:30 | the loop body stores the old count (or 0 when undefined) plus one under the key and changes no other entry; a new key goes to the end of the key order, an existing key keeps its place; the dictionary stays well formed |
| `Location.IncrementTallies` | src/components/LocationChart.tsx:28-31 | one loop step keeps the dictionary a tally of the records seen so far: keys in first-seen order, each mapped to its number of occurrences |
| `Location.TallyStep` | src/components/LocationChart.tsx:28-31 | the loop step at index `i` turns a tally of the first `i` records into a tally of the first `i + 1` |
| `Location.Values` | src/components/LocationChart.tsx:34 | `Object.values`: one value per key, index-aligned with `Object.keys` |
| `Location.FirstSeen` | src/components/LocationChart.tsx:33 | the labels are distinct, and a string is a label exactly when some record answers it |
| `Location.FirstSeenExtends` | src/components/LocationChart.tsx:28-33 | later records never reorder the labels already seen; they only append new ones |
| `Location.TallyCoversAll` | src/components/LocationChart.tsx:26-31 | the counts of the distinct answers add up to the number of records |
| `Location.TallyProjection` | src/components/LocationChart.tsx:33-34 | from a finished tally, `Object.values` is index-aligned with `Object.keys`: each value is its key's number of occurrences, at least 1, and the values add up to the number of records |
| `Location.TallyLocations` | src/components/LocationChart.tsx:25-34 | `totalCount` is the number of records; labels are the distinct answers in first-seen order; `counts[k]` is the number of records answering `labels[k]`, and at least 1; the counts sum to `totalCount`; empty input gives no labels and no counts |
| `Location.Percentages` | src/components/LocationChart.tsx:37-39 | one percentage per count, each over `totalCount` |
| `Location.SharesWithinWhole` | src/components/LocationChart.tsx:37-39 | for a tally, `totalCount` is zero exactly when there are no counts, and every percentage numerator lies between 1 and its denominator |
| `Location.NewYorkLosAngelesExample` | src/components/LocationChart.tsx:28-34 | "NY", "NY", "LA" give labels ["NY", "LA"] with counts 2 and 1 |
| `Location.NoCaseFolding` | src/components/LocationChart.tsx:29-30 | "NY" and "ny" are two distinct labels |
| `AnswerRows.Substring` | src/components/AnswerChajrt.tsx:39 | `substring(0, n)` is a prefix of the answer, of length min(n, length) |
| `AnswerRows.SubstringKeepsShortAnswers` | src/components/AnswerChajrt.tsx:39 | an axis label has at most 25 characters, matches its answer character by character, and is the whole answer when that has 25 characters or fewer |
| `AnswerRows.BuildRows` | src/components/AnswerChajrt.tsx:34-46 | the three series have one entry per upstream tuple, in upstream order; each label is the answer's prefix of length min(25, length); each chart value is the upstream percentage; each table row holds the full answer and the upstream count and percentage |
| `AnswerRows.LongAnswerExample` | src/components/AnswerChajrt.tsx:39-43 | a 30-character answer becomes a 25-character axis label |
| `AnswerRows.DigitIndex` | src/components/AnswerChajrt.tsx:118 | `Math.floor(draw * 16)` for a draw in [0, 1) is a valid index into the sixteen hex digits |
| `AnswerRows.RandomColor` | src/components/AnswerChajrt.tsx:114-121 | the colour is "#" followed by six characters of "0123456789ABCDEF", the `i`-th chosen by the `i`-th draw |
| `AnswerRows.GenerateColors` | src/components/AnswerChajrt.tsx:49 | exactly one colour per bar, each of that shape |

## Left out

- HTTP fetching with axios, the `response.data?.data` unwrapping, the `if (ageData && genderData)` guards and the try/catch logging: network I/O. The routines take the fetched records as parameters.
- React state and lifecycle (`useState`, `useEffect`, `setLoading`, `setData`, `setGdata`, `setTableData`, `setColors`, `setQuestions`) and all JSX. This includes the "Other" options list and the table markup: UI only.
- Chart.js construction and destruction, tooltips, legends and `afterDraw` drawing: a foreign library plus UI.
- Percentage arithmetic and `toFixed(2)` formatting are floating point. For the location chart only the integer numerator and denominator of each percentage are modelled (`Location.Percentages`). The age chart's per-band percentages are not modelled. Their numerators and denominators are the cross-tab series, and `GenderCountsWithinBand` bounds them.
- `AnswerRows.BuildRows`: the table row keeps the upstream percentage as a value. The source stores `percentage.toFixed(2)`, a formatted string.
- `Math.random()`: each draw is a parameter, so every hex digit is arbitrary. Its distribution is not modelled.
- `Location.TallyLocations`: labels come out in first-seen order, which is the order `Object.keys` gives for answers that are not array-index-like strings. For integer-like keys such as "12", JavaScript lists them first, in ascending numeric order. That reordering is not modelled.
- `Location.Get`: a plain `{}` also answers reads of inherited `Object.prototype` members ("toString", "constructor", "hasOwnProperty", …). For such an answer `(locations[location] || 0) + 1` is not a count: it turns into a string ending in "1", and its percentage becomes `NaN%`. The model has no inherited keys, so these answers are outside it.
- `Location.Put`: assigning a number to `locations["__proto__"]` is ignored by JavaScript, so that answer never becomes a key. The model stores it like any other key.
- `Location.TallyLocations`: the labels, counts and sum promised here hold only when no answer names an `Object.prototype` member. For example, a single "__proto__" answer gives no labels and no counts in the source, yet `totalCount` is 1.
- `substring` counts UTF-16 code units; strings are modelled as sequences of characters.
- Values other than strings in `answer` or integers in `submissionId`. The source compares with `===` on untyped JSON. The model fixes the field types.
- src/app/page.tsx only composes the three components and has no logic.
