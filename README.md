# neo-objects: a verified model of the client-side NEO filtering core

This project models, in Dafny, the data logic of the neo-objects mobile app.
The app browses a daily feed of near-Earth objects (NEOs), filters the list
on the client, and shows a details page per object. The model covers seven
source files.

- **Filter engine** (`src/shared/utils/filters.ts`):
  - the filter factory, which wraps a raw value as a `{ value }` filter;
  - the settings builder, which drops `undefined` criteria;
  - the matcher, which dispatches on the runtime type of an object's field and of the filter's value;
  - the active-filter extractor, which drops filters that do not narrow the list;
  - the linear min/max finders;
  - the string-based equality of two settings objects.
- **Deep equality** (`src/shared/utils/deep-equal.ts`): `deepEqual` over JSON-like objects and arrays.
- **Filter form state** (`src/screens/filters/use-filters-state.ts`): the reducer of the filter screen and the hook's setters.
- **Slider bounds** (`src/core/hooks/use-min-max-object-values.ts`, `src/screens/filters/use-magnitude-values.ts`):
  floor and ceiling of the finders' results, 0 when there is none.
- **Mappers** (`src/shared/utils/map-neo-objects.ts`, `src/shared/utils/map-neo-object-details.ts`):
  - the projection of feed entries onto list entries;
  - the details mapper, which sorts the close approaches in place, picks
    the previous and next approach relative to today, and copies the rest.

## How the model is built

- **Values.** JavaScript values are one sum type, `JsValues.Value`:
  `undefined`, string, number (an exact real), boolean, or the number pair
  `[min, max]`. An object is a `map<string, Value>`, and a missing key reads
  as `undefined`. Filters and settings are `Filters.Filter` and
  `Filters.Settings`.
- **Loops.** Loops in the source are methods with loop invariants:
  `MapNEOFilters`, `IsObjectMatchingFilters`, `FilterNeoObjects`,
  `ExtractActiveNEOFilters`, `FindMinItem`/`FindMaxItem` and the in-place
  insertion sort of the details mapper. Each is proved equal to a function,
  and the source's promises are lemmas about that function.
- **Iteration order.** Loops over `Object.keys` / `Object.entries` pick
  their next key without a fixed order. The proofs show the order never
  changes the result.
- **Reducer and hook.** The reducer is a pure function. The hook
  (`FilterFormState.FilterStateHook`) is a class holding the reducer state,
  with one method per setter.
- **Details response.** The response keeps its close approaches in an
  `array`, because `sort` reorders them in place. `MapNeoObjectDetails`
  states both the new array contents and the record it returns.

Some behaviours of the code are easy to misread; the model follows the code:

- **Range filters.** A range filter is active only under the literal key
  `absolute_magnitude_h`; under any other key it is dropped. The maximum
  gets no `?? 0` fallback, because the `??` at `filters.ts:264-269` applies to the boolean comparison, not to the
  maximum. So with no objects, or no magnitudes, every magnitude range stays
  active (`ActiveFilters.RangeAlwaysActiveWithoutObjects`,
  `ActiveFilters.RangeAlwaysActiveWithoutMagnitudes`).
- **Number filters.** A number filter is active exactly when it is non-zero
  (`!!value`), which the doc comment at `filters.ts:233-243` sums up as
  "non-empty" (`ActiveFilters.ActiveNumberAndBoolean`).
- **Filter equality.** Settings equality compares `typeof` of two filter
  objects, which is always `'object'`. So only the text of the values is
  compared, not their kinds: a text filter `"true"` equals the boolean
  filter `true` (`FilterEquality.TextComparisonConflatesKinds`).
- **Magnitude bounds.** The magnitude hook returns `Math.ceil` of the
  minimum, not its floor, as `minMagnitude`
  (`MagnitudeValues.MinimumRoundedUp`).
- **Key mismatch.** The filter criteria of `screens/filters/index.tsx` use
  snake-case keys (`absolute_magnitude_h`, `is_potentially_hazardous_asteroid`), while
  `mapNeoObjects` produces camel-case fields (`absoluteMagnitudeH`, ...).
  So a filter under a snake-case key matches no mapped entry, and the
  magnitude bounds computed over mapped entries are all 0
  (`NeoMapping.SnakeCaseFiltersMatchNothing`,
  `NeoMapping.MagnitudeBoundsOfMappedAreZero`). A caller that keeps the range
  under the camel-case key `absoluteMagnitudeH` (`filters-screen.tsx:42`,
  `:103`) fares no better: the extractor never keeps a range under that key
  (`ActiveFilters.RangeActiveOnlyUnderMagnitude`), so in neither caller does
  a magnitude range reach `filterNeoObjects`, and
  `NeoMapping.CamelCaseRangeFilterTestsMagnitude` is not reachable through the
  extractor.

## Model

| member | source | states |
|---|---|---|
| Filters.CreateFilterByType | src/shared/utils/filters.ts:71-80 | no filter exactly for `undefined`; otherwise the value is wrapped unchanged, a string as a text filter and a boolean as a boolean filter |
| Filters.MapNEOFilters | src/shared/utils/filters.ts:95-113 | the result's keys are exactly the criteria keys whose transformed value is defined, each mapped to that transformed value, whatever order the keys are visited in |
| Filters.FilterSettingsOf | src/shared/utils/filters.ts:127-131 | the settings have exactly the criteria keys whose value is not `undefined`, each holding `createFilterByType` of the criterion |
| Filters.CreateNEOFilterSettings | src/shared/utils/filters.ts:127-131 | running the settings builder over the criteria yields exactly the defined criteria, each wrapped unchanged |
| Filters.IsFilterMatchCases | src/shared/utils/filters.ts:162-183 | a missing field never matches; string against string is a case-insensitive occurrence of the filter text; number against pair is `min <= v <= max`; boolean against boolean is equality; every other pairing fails |
| Filters.EmptyTextFilterMatchesStrings | src/shared/utils/filters.ts:171-174 | the empty text filter matches every string field |
| Filters.IsObjectMatchingFilters | src/shared/utils/filters.ts:150-157 | the early-exit loop returns true exactly when every filter of the settings matches the object |
| Filters.FilterNeoObjects | src/shared/utils/filters.ts:146-160 | the result is the input filtered by "every filter matches", in input order |
| Filters.MatchingIsSubsequence | src/shared/utils/filters.ts:159 | the result is an order-preserving subsequence of the input |
| Filters.MatchingExactly | src/shared/utils/filters.ts:146-160 | an object is kept exactly when it is in the input and matches every filter, with its multiplicity in the input |
| Filters.MatchingNoFilters | src/shared/utils/filters.ts:151-156 | empty settings keep the whole list |
| Filters.MatchingDisjointUnion | src/shared/utils/filters.ts:146-160 | filtering by two settings on disjoint keys one after the other equals filtering by their union |
| Filters.GetFilterValue | src/shared/utils/filters.ts:199-204 | the value of the filter under the key, `undefined` when the key is absent |
| Filters.GetFilterValueOfSettings | src/shared/utils/filters.ts:199-204 | reading a key back from settings built from criteria yields the criterion, `undefined` included |
| JsStrings.IncludesIff | src/shared/utils/filters.ts:172-174 | `includes` holds exactly when the text occurs at some position |
| JsStrings.TrimEmptyIff | src/shared/utils/filters.ts:252 | a string trims to empty exactly when all its characters are white space |
| FilterExtrema.FindMinItem | src/shared/utils/filters.ts:276-297 | `null` exactly for an empty list; otherwise the item the scan ends on, the first least one |
| FilterExtrema.FindMaxItem | src/shared/utils/filters.ts:299-320 | `null` exactly for an empty list; otherwise the first greatest item |
| FilterExtrema.FirstMinIndexIsFirstLeast | src/shared/utils/filters.ts:288-294 | over numbers, the chosen item's value is at most every value, and every earlier item's value is strictly greater, so ties keep the first |
| FilterExtrema.FirstMaxIndexIsFirstGreatest | src/shared/utils/filters.ts:311-317 | over numbers, the chosen value is at least every value, and earlier items are strictly smaller |
| FilterExtrema.NonNumberHeadWins | src/shared/utils/filters.ts:288-294 | when the first value is not a number, no later value compares smaller or greater, so the first item stays |
| FilterExtrema.FindMinValueByKey | src/shared/utils/filters.ts:329-332 | `undefined` for no objects; otherwise the key's value in the object the minimum scan ends on, a number or `undefined` under a numeric key |
| FilterExtrema.FindMaxValueByKey | src/shared/utils/filters.ts:341-344 | the same for the maximum scan |
| FilterExtrema.FindValueByKeyBounds | src/shared/utils/filters.ts:329-344 | over numeric values, the minimum and maximum are values of some objects and enclose every object's value |
| FilterExtrema.FindValueByMissingKey | src/shared/utils/filters.ts:329-344 | under a key no object has, both finders yield `undefined`, on any list |
| ActiveFilters.ActiveFiltersOf | src/shared/utils/filters.ts:218-231 | a sub-map of the settings with unchanged filters, holding exactly the active entries |
| ActiveFilters.ExtractActiveNEOFilters | src/shared/utils/filters.ts:218-231 | the loop yields that same sub-map: active entries only, filters unchanged |
| ActiveFilters.ActiveFiltersIdempotent | src/shared/utils/filters.ts:218-231 | extracting twice equals extracting once |
| ActiveFilters.ActiveText | src/shared/utils/filters.ts:252 | a text filter is active exactly when its text has a character that is not white space |
| ActiveFilters.ActiveNumberAndBoolean | src/shared/utils/filters.ts:253-254 | a number is active exactly when non-zero; a boolean is always active; `undefined` never is |
| ActiveFilters.RangeActiveOnlyUnderMagnitude | src/shared/utils/filters.ts:255-273 | a range filter under any key other than `absolute_magnitude_h` is never active |
| ActiveFilters.RangeActiveIffNarrowed | src/shared/utils/filters.ts:256-271 | over numeric magnitudes, a magnitude range is inactive exactly when it equals `[smallest, largest]` |
| ActiveFilters.RangeAlwaysActiveWithoutObjects | src/shared/utils/filters.ts:264-269 | with no objects every magnitude range is active, `[0, 0]` included, because `max` is compared with `undefined` |
| ActiveFilters.RangeAlwaysActiveWithoutMagnitudes | src/shared/utils/filters.ts:259-270 | when no object has the magnitude key, every magnitude range is active |
| ActiveFilters.FullRangeIsDropped | src/shared/utils/filters.ts:218-231 | a magnitude range spanning the data bounds is removed and every other entry is treated as without it |
| FilterEquality.SortedKeys | src/shared/utils/filters.ts:395-400 | the keys in strictly ascending order of their entries' sort text, each key once |
| FilterEquality.SortedEntries | src/shared/utils/filters.ts:395-400 | one entry per key, each pairing a key with its own filter, in strictly ascending sort order, so no key repeats |
| FilterEquality.SortedEntriesCoverKeys | src/shared/utils/filters.ts:395-400 | every key of the settings has an entry holding its own filter |
| FilterEquality.EntryBeforeTotal | src/shared/utils/filters.ts:395-400 | the sort order of entries is total on distinct keys |
| FilterEquality.LeastEntryUnique | src/shared/utils/filters.ts:395-400 | the first entry after sorting is determined |
| FilterEquality.SameFiltersSameKeys | src/shared/utils/filters.ts:402-407 | settings that are "the same" have the same key set |
| FilterEquality.SameFiltersIff | src/shared/utils/filters.ts:365-408 | settings are "the same" exactly when they have the same keys and, under every key, values with the same `${}` text |
| FilterEquality.SameFiltersReflexive | src/shared/utils/filters.ts:391-408 | every settings object is the same as itself |
| FilterEquality.SameFiltersSymmetric | src/shared/utils/filters.ts:391-408 | the comparison is symmetric |
| FilterEquality.SameFiltersNeedSameCount | src/shared/utils/filters.ts:402 | settings with different numbers of entries are never the same |
| FilterEquality.TextComparisonConflatesKinds | src/shared/utils/filters.ts:365-370 | `typeof` is `'object'` for every filter, so the text filter `"true"` and the boolean filter `true` compare equal |
| FilterExamples.NameFilterExample | src/shared/utils/filters.ts:171-174 | on the mapped list entries Eros and Apollo, the name filter `"ero"` keeps only Eros |
| FilterExamples.RangeFilterExample | src/shared/utils/filters.ts:175-177 | the range `[19, 21]` under `absoluteMagnitudeH` keeps only Apollo |
| FilterExamples.BooleanFilterExample | src/shared/utils/filters.ts:178-179 | the filter `true` under `isPotentiallyHazardousAsteroid` keeps only Apollo |
| FilterExamples.ExtremaExample | src/shared/utils/filters.ts:329-344 | the smallest magnitude is 18 and the largest 20 |
| DeepEqual.ParseIndexKey | src/shared/utils/deep-equal.ts:30 | reading back an array index's key yields the index, so distinct indices have distinct keys |
| DeepEqual.ArrayEntriesCount | src/shared/utils/deep-equal.ts:30-31 | an array has one key per element |
| DeepEqual.DeepEqualIsEntryEquality | src/shared/utils/deep-equal.ts:29-58 | `deepEqual(a, b)` holds exactly when `a` and `b` have the same own keys with equal members under them |
| DeepEqual.MemberEqualIsEquality | src/shared/utils/deep-equal.ts:44-54 | a pair of members passes exactly when the members are equal values |
| DeepEqual.DeepEqualSameKind | src/shared/utils/deep-equal.ts:29-58 | two plain objects, or two arrays, are deep-equal exactly when they are equal |
| DeepEqual.KeyCountsDiffer | src/shared/utils/deep-equal.ts:33-35 | different key counts give false |
| DeepEqual.DeepEqualSameKeys | src/shared/utils/deep-equal.ts:36-39 | a true result means both have the same key set |
| DeepEqual.NestedMismatch | src/shared/utils/deep-equal.ts:44-54 | different members under a shared key make the result false |
| DeepEqual.DeepEqualReflexive | src/shared/utils/deep-equal.ts:29-58 | every object or array is deep-equal to itself |
| DeepEqual.DeepEqualSymmetric | src/shared/utils/deep-equal.ts:29-58 | the comparison is symmetric |
| DeepEqual.ObjectMatchesArray | src/shared/utils/deep-equal.ts:30-42 | at the top level an object `{ "0": x }` is deep-equal to the array `[x]`, because only keys and members are compared |
| DeepEqual.MixedMembersDiffer | src/shared/utils/deep-equal.ts:44-54 | as members, an object and an array are never equal: they go to the strict `!==` |
| DeepEqual.DocumentedExample | src/shared/utils/deep-equal.ts:19-21 | the two Eros objects with the same nested `details` are deep-equal |
| FilterFormState.SetNameOnlyName | src/screens/filters/use-filters-state.ts:21-22 | `SET_NAME` replaces the name and keeps the other fields |
| FilterFormState.SetHazardousOnlyHazard | src/screens/filters/use-filters-state.ts:23-24 | `SET_HAZARDOUS` replaces only the hazard flag, possibly with `undefined` |
| FilterFormState.SetMagnitudeOnlyMagnitude | src/screens/filters/use-filters-state.ts:25-26 | `SET_MAGNITUDE` replaces only the magnitude range |
| FilterFormState.ResetReturnsPayload | src/screens/filters/use-filters-state.ts:27-28 | `RESET` returns its payload |
| FilterFormState.UnrecognizedIsIdentity | src/screens/filters/use-filters-state.ts:29-30 | any other action leaves the state unchanged |
| FilterFormState.ReducerIdempotent | src/screens/filters/use-filters-state.ts:16-32 | dispatching an action twice equals dispatching it once |
| FilterFormState.SettersCommute | src/screens/filters/use-filters-state.ts:21-26 | setters of different fields commute |
| FilterFormState.SettersBuildState | src/screens/filters/use-filters-state.ts:21-26 | setting the three fields yields exactly the record of those values |
| FilterFormState.ReduceAllAppend | src/screens/filters/use-filters-state.ts:35 | dispatching two action sequences one after the other equals dispatching their concatenation |
| FilterFormState.ResetForgetsHistory | src/screens/filters/use-filters-state.ts:27-28 | after a `RESET`, the state depends only on its payload and the later actions |
| FilterFormState.NameIsLastWritten | src/screens/filters/use-filters-state.ts:21-28 | the name is the one written by the last `SET_NAME` or `RESET` |
| FilterFormState.NameUntouched | src/screens/filters/use-filters-state.ts:23-30 | without `SET_NAME` or `RESET` the name stays as it was |
| FilterFormState.FilterStateHook.constructor | src/screens/filters/use-filters-state.ts:35 | the hook starts from the initial state |
| FilterFormState.FilterStateHook.Dispatch | src/screens/filters/use-filters-state.ts:35 | the new state is the reducer applied to the old state and the action |
| FilterFormState.FilterStateHook.SetName | src/screens/filters/use-filters-state.ts:37-39 | dispatches `SET_NAME` with the given name: only the name changes |
| FilterFormState.FilterStateHook.SetIsPotentiallyHazardous | src/screens/filters/use-filters-state.ts:41-46 | dispatches `SET_HAZARDOUS` with the given flag: only the flag changes |
| FilterFormState.FilterStateHook.SetAbsoluteMagnitude | src/screens/filters/use-filters-state.ts:48-50 | dispatches `SET_MAGNITUDE` with the given range: only the range changes |
| RangeValues.NumberOrZero | src/core/hooks/use-min-max-object-values.ts:17 | `undefined` becomes 0, a number stays |
| RangeValues.RangeOfNoObjects | src/core/hooks/use-min-max-object-values.ts:16-29 | no objects: both bounds 0 and the initial range `[0, 0]` |
| RangeValues.RangeEnclosesValues | src/core/hooks/use-min-max-object-values.ts:16-24 | the lower bound is at most, and the upper at least, every object's value, each less than one away from some value |
| RangeValues.InitialRangeIsBounds | src/core/hooks/use-min-max-object-values.ts:26-29 | both bounds are whole, so the initial range is exactly `[minValue, maxValue]` |
| RangeValues.RangeOrdered | src/core/hooks/use-min-max-object-values.ts:16-24 | on a non-empty numeric list the lower bound does not exceed the upper |
| RangeValues.InitialRangeKeepsAll | src/core/hooks/use-min-max-object-values.ts:26-29 | a range filter set to the initial range keeps every object |
| MagnitudeValues.MagnitudeOfNoObjects | src/screens/filters/use-magnitude-values.ts:11-34 | no objects: every returned number is 0 |
| MagnitudeValues.MagnitudeBoundsAgainstFilter | src/screens/filters/use-magnitude-values.ts:25-32 | the returned minimum lies between the initial filter's lower end and one above it; the returned maximum is the initial filter's upper end |
| MagnitudeValues.InitialFilterEnclosesMagnitudes | src/screens/filters/use-magnitude-values.ts:25-28 | the initial filter encloses every object's magnitude |
| MagnitudeValues.MinimumRoundedUp | src/screens/filters/use-magnitude-values.ts:31 | for magnitudes 17.5 and 20.2 the filter is `[17, 21]` but the returned minimum is 18 |
| NeoMapping.MapNeoObjects | src/shared/utils/map-neo-objects.ts:3-14 | one entry per feed entry, in order: id, name, magnitude and hazard flag copied, diameters from the metre range |
| NeoMapping.MapNeoObjectsAppend | src/shared/utils/map-neo-objects.ts:4 | entries are mapped one by one, so mapping distributes over concatenation |
| NeoMapping.MapNeoIgnoresDroppedFields | src/shared/utils/map-neo-objects.ts:9-12 | only the metre range reaches the result; the other units, links and approaches are dropped |
| NeoMapping.AsObject | src/shared/types/neo.ts:14-21 | a list entry seen by the filters has exactly the record's six camel-case field names |
| NeoMapping.CamelCaseRangeFilterTestsMagnitude | src/shared/utils/filters.ts:175-177 | a range filter under `absoluteMagnitudeH` tests the entry's magnitude |
| NeoMapping.SnakeCaseFiltersMatchNothing | src/shared/types/filters.ts:16-23 | a filter under `absolute_magnitude_h` or `is_potentially_hazardous_asteroid` matches no mapped entry |
| NeoMapping.MagnitudeBoundsOfMappedAreZero | src/screens/filters/use-magnitude-values.ts:11-34 | over mapped entries every magnitude bound is 0 |
| NeoDetails.InsertPermutes | src/shared/utils/map-neo-object-details.ts:9-12 | one insertion step adds exactly the inserted approach and loses none |
| NeoDetails.InsertSorted | src/shared/utils/map-neo-object-details.ts:9-12 | one insertion step keeps the approaches sorted and adds exactly the inserted one |
| NeoDetails.SortByDateSorted | src/shared/utils/map-neo-object-details.ts:9-12 | the sort yields the approaches in ascending date order, a permutation of the input |
| NeoDetails.InsertAt | src/shared/utils/map-neo-object-details.ts:9-12 | the insertion places the approach after every approach not later than it, so equal dates keep their order |
| NeoDetails.InsertInPlace | src/shared/utils/map-neo-object-details.ts:9-12 | shifting later approaches right in the array puts the prefix into the order of one insertion step |
| NeoDetails.SortApproaches | src/shared/utils/map-neo-object-details.ts:9-12 | the array is sorted in place into the stable date order |
| NeoDetails.InsertKeepsTies | src/shared/utils/map-neo-object-details.ts:9-12 | one insertion step appends the inserted approach to those of its own date and leaves every other date's approaches as they were |
| NeoDetails.SortByDateStable | src/shared/utils/map-neo-object-details.ts:9-12 | the sort is stable: for every date, the approaches of that date come out in their feed order |
| NeoDetails.CountBefore | src/shared/utils/map-neo-object-details.ts:14-15 | in a sorted list, the approaches before today form a prefix |
| NeoDetails.BeforeIsPrefix | src/shared/utils/map-neo-object-details.ts:14-16 | filtering a sorted list by "before today" keeps exactly that prefix |
| NeoDetails.PreviousIsLatestBefore | src/shared/utils/map-neo-object-details.ts:14-16 | in a sorted list the previous approach is the last of the prefix before today, so it is before today and none before today is later; none exactly when no approach is before today |
| NeoDetails.NextIsEarliestAfter | src/shared/utils/map-neo-object-details.ts:18-20 | the next approach is the first approach after today in list order, so no approach after today is earlier; none exactly when no approach is after today |
| NeoDetails.ApproachTodayIsNeither | src/shared/utils/map-neo-object-details.ts:15-19 | an approach dated exactly today is neither previous nor next |
| NeoDetails.MapNeoObjectDetails | src/shared/utils/map-neo-object-details.ts:4-45 | the response's array is left sorted by date, and the record is built from the sorted approaches |
| NeoDetails.SortKeepsMembers | src/shared/utils/map-neo-object-details.ts:9-12 | the sorted approaches are in date order, as many as the feed's, and exactly the feed's approaches |
| NeoDetails.EarliestIsFirstOfItsDate | src/shared/utils/map-neo-object-details.ts:9-40 | the first sorted approach is the first in feed order of those sharing its date |
| NeoDetails.PreviousIsLastOfItsDate | src/shared/utils/map-neo-object-details.ts:9-16 | of the feed's approaches sharing the previous approach's date, it is the last in feed order |
| NeoDetails.NextIsFirstOfItsDate | src/shared/utils/map-neo-object-details.ts:9-20 | of the feed's approaches sharing the next approach's date, it is the first in feed order |
| NeoDetails.PreviousApproachDate | src/shared/utils/map-neo-object-details.ts:14-31 | the previous date is the full date of a latest approach before today, the last in feed order of those with its date, and `'N/A'` when there is none |
| NeoDetails.NextApproachDate | src/shared/utils/map-neo-object-details.ts:18-34 | the next date is the full date of an earliest approach after today, the first in feed order of those with its date, and `'N/A'` when there is none |
| NeoDetails.EarliestApproachFields | src/shared/utils/map-neo-object-details.ts:37-40 | body, velocity and miss distance come from an earliest approach, the first in feed order of those with its date; an empty body text becomes `'Unknown'` |
| NeoDetails.NoApproaches | src/shared/utils/map-neo-object-details.ts:29-40 | no approaches: both dates `'N/A'`, body `'Unknown'`, velocity and distance absent |
| NeoDetails.ScalarFieldsCopied | src/shared/utils/map-neo-object-details.ts:23-43 | identity, flags, magnitude, diameters and orbital data are copied unchanged |

## Left out

- User interface, animation, gestures, navigation, network fetching, react-query caching and the zustand stores. They render or move data and hold no filter logic.
- The hooks' `useMemo`/`useCallback` memoisation. The model computes each memoised value directly.
- Dates and clocks. `dayjs(date)` is one caller-supplied function from a date text to an integer instant, used both for the sort and for the `isBefore`/`isAfter` tests. `today` is a parameter. The difference between seconds and milliseconds is not modelled.
- Number formatting. The text of `${number}` is a caller-supplied function, so settings equality does not fix how numbers render.
- NaN and floating point. Numbers are exact reals. A non-number operand of `<` or `>` compares false, as NaN does.
- Unicode. `toLocaleLowerCase`/`toLowerCase` lower only the letters A to Z, and `trim` removes only the ASCII white space characters space, tab, line feed, carriage return, vertical tab and form feed. `JsStrings.StrLess` orders strings by Unicode scalar value, where the default `sort()` uses UTF-16 code units; the two differ above U+FFFF, which does not change `areSelectedFiltersTheSame` (`FilterEquality.SameFiltersIff`).
- Filters.CreateFilterByType: a `null` value is not modelled; the `Value` type has no `null`.
- Undefined settings entries. An entry holding `undefined` is not modelled: a settings key always holds a filter. So the `val === undefined` test at `filters.ts:250` has no case in the model, and `areSelectedFiltersTheSame` is not modelled on such entries. In the source, an `undefined` on one side only compares false (its `typeof` is `'undefined'`), a differing key at that position short-circuits, and only an `undefined` under the same key at the same position on both sides throws, at `${undefined.value}`; the default sort would also order such an entry by the text `"k,"`.
- DeepEqual.StrictEquals: references are not modelled; a container member reaches `!==` only when the other member is of another kind, so it compares unequal, as in JavaScript. Only JSON-like values are modelled, without functions, prototypes or cycles.
- The `isObject` guard's body is not part of this model. It is taken to mean "a plain object, not an array and not `null`", as the comment at `deep-equal.ts:25` says.
- NeoDetails.PreviousApproach: `.pop()` is modelled as taking the last element of the filtered copy. The removal from that temporary copy is not observable and is not modelled.
- NeoDetails.SortApproaches: the engine's own sort algorithm is not modelled. The model uses an insertion sort proved stable (`NeoDetails.SortByDateStable`), and `Array.prototype.sort` is stable too, so the resulting order is the same.
- The declarations of `NeoObjectDetailsResponse` and `NeoObjectDetails` are not part of this model. Their fields are the ones `map-neo-object-details.ts` reads and writes; the field name `oribitalPeriod` keeps the source spelling.
- The `links` and `nasa_jpl_url` fields of feed entries are kept in `NeoTypes` but never read; no core operation uses them.
