# word-grain site helpers in Dafny

The word-grain site (a Next.js front end for the WordGrain vocabulary
format) hands schema validation to Ajv and structural diffing to
jsondiffpatch. What it computes by hand is a set of small, deterministic
helpers inside its components. This project models those helpers and
proves what they promise:

- **Schema `$ref` resolution and property indexing** (`SchemaRef`,
  `SchemaViewer`, `SchemaTree`).
  - A `#/…` reference is followed segment by segment from the root.
  - Every property is listed under its dotted name.
  - A dotted path is looked up again, one segment per step.
  - A property's detail card is built in a fixed constraint order.
  - The collapsible tree's rows show the type badge, the required flag and
    the initial expansion.
- **Definition tables** (`SchemaPropertyTable`): the type name and the
  constraint summary of a property, and one section per `$defs` entry that
  has properties.
- **Delta shapes** (`DiffDisplay`).
  - The six jsondiffpatch delta shapes and `DeltaNode`'s dispatch order.
  - Value formatting and truncation.
  - The lines a delta renders, with their depths.
  - The array identity hash.
- **Comparison statistics** (`StatsSummary`).
  - Grain count, averages kept as exact `sum / count` pairs, and sentiment
    buckets.
  - The common-word join: last-wins keys on the right, and a stable sort by
    combined frequency.
- **Sorting** (`Sorting`, `GrainDataTable`, `FrequencyChart`).
  - A stable insertion sort stands for `Array.prototype.sort`.
  - The table comparator and its column/direction state.
  - The top-twenty frequency chart.
- **Heading anchors** (`RfcRenderer`).
  - The `slugify` regular-expression chain, written as scanners.
  - `extractText`.
  - The heading collector with its `headingsRef`/`reportedRef` pair.
- **The landing page's JSON line highlighter** (`JsonLine`). The `while`
  loop is proved to produce the same tokens as a recursive tokenizer. The
  tokenizer is proved to give the line back, to key its tokens
  consecutively and to honour the matcher priority.

Shared modules:

- `Wrappers`: `Option`.
- `Strings`: `split`, `join`, `replace` with a string pattern, and decimal
  text.
- `Json`: JSON values whose objects keep their entries in stored order,
  with JavaScript own-property reads and truthiness.
- `Grains`: the `Grain` record.

The source's operations take these forms in the model:

- Loops that reassign locals or push onto arrays are `method`s proved
  against a specification function: `ResolveRef`, `CollectPropertyNames`,
  `ExtractDetail`, `FindPropertyInSchema`, `ConstraintText`,
  `ComputeStats`, `FindCommonWords` and `Highlight`.
- Component state that is updated in place is a `class`:
  `GrainDataTable.SortState` and `RfcRenderer.HeadingCollector`.
- Pure expressions are functions.

`JSON.stringify`, `toFixed`, `String.prototype.toLowerCase` and
`localeCompare` are function parameters.

## Model

| member | source | states |
|---|---|---|
| Strings.Split | site/components/explorer/SchemaViewer.tsx:22 | `split` always yields at least one piece |
| Strings.SplitPiecesFree | site/components/explorer/SchemaViewer.tsx:22 | no piece of a split contains the separator |
| Strings.JoinSplit | site/components/explorer/SchemaViewer.tsx:132 | joining the pieces of `s.split(sep)` with `sep` gives back `s` |
| Strings.SplitJoin | site/components/explorer/SchemaViewer.tsx:132 | splitting a join of separator-free pieces gives back the pieces |
| Strings.SplitNoSep | site/components/explorer/SchemaViewer.tsx:132 | a string without the separator splits into itself alone |
| Strings.SplitAppend | site/components/explorer/SchemaViewer.tsx:132 | a separator-free head followed by the separator is split off as the first piece |
| Strings.SplitAtSep | site/components/explorer/SchemaViewer.tsx:132 | splitting `s + sep + t` gives the pieces of `s` followed by those of `t` |
| Strings.IndexOf | site/components/spec/SchemaPropertyTable.tsx:40 | the result is the first occurrence of the pattern at or after `from`, and none means no occurrence there |
| Strings.ReplaceFirst | site/components/spec/SchemaPropertyTable.tsx:40 | only the first occurrence of a string pattern is replaced; without an occurrence the text is unchanged |
| Strings.ReplacePrefix | site/components/spec/SchemaPropertyTable.tsx:40 | removing a pattern that the text starts with leaves the rest |
| Strings.DigitRoundTrip | site/components/explorer/SchemaViewer.tsx:91 | a decimal digit's character reads back as that digit |
| Strings.NatToString | site/components/explorer/SchemaViewer.tsx:91 | `String(n)` is a non-empty run of digits with no leading zero except for 0 itself |
| Strings.IntToString | site/components/explorer/SchemaViewer.tsx:91 | `String(n)` of an integer is never empty |
| Strings.CanonicalIndex | site/components/explorer/SchemaViewer.tsx:25 | only non-empty digit strings name array elements |
| Strings.CanonicalIndexOfNat | site/components/explorer/SchemaViewer.tsx:25-26 | the text of an index names exactly that array element |
| Strings.DigitsOfNat | site/components/explorer/SchemaViewer.tsx:91 | the digits of `String(n)` read back as `n` |
| Json.LookupSpec | site/components/explorer/SchemaViewer.tsx:25-26 | a key is found iff some field has it, and the value found belongs to such a field |
| Json.LookupDistinct | site/components/explorer/SchemaViewer.tsx:25-26 | with distinct keys, each field's key reads back that field's value |
| Json.EntriesAreMembers | site/components/shared/SchemaTree.tsx:101 | each entry `Object.entries` yields reads back through a property access |
| Json.Coalesce | site/components/explorer/SchemaViewer.tsx:78-79 | `x ?? y` is `x` unless `x` is undefined or null |
| Json.StringMember | site/components/shared/SchemaTree.tsx:74 | a string-valued property is reported exactly when the property is present and a string |
| Json.RequiredNames | site/components/explorer/SchemaViewer.tsx:143 | the names in a `required` array are exactly its string elements, and anything else gives none |
| SchemaRef.StripFragmentPrefix | site/components/explorer/SchemaViewer.tsx:22 | one leading `#/` is removed when present, and nothing otherwise |
| SchemaRef.Segments | site/components/explorer/SchemaViewer.tsx:22 | a reference has at least one segment and no segment contains `/` |
| SchemaRef.ResolveRef | site/components/explorer/SchemaViewer.tsx:18-32 | the loop reaches the node that walking all segments from the root reaches, or undefined; the tree's copy (SchemaTree.tsx lines 9-23) is the same loop |
| SchemaRef.WalkAppend | site/components/explorer/SchemaViewer.tsx:24-30 | walking `p + q` is walking `p` and then `q` from where it led; undefined stays undefined |
| SchemaRef.WalkFailsIffSegmentMissing | site/components/explorer/SchemaViewer.tsx:25-29 | resolution fails iff some segment is missing, or its node is not an object, where the earlier segments led |
| SchemaRef.FailingSegment | site/components/shared/SchemaTree.tsx:16-20 | a failed resolution names the segment at which it stopped |
| SchemaRef.PointerSegments | site/components/explorer/SchemaViewer.tsx:22 | `#/` followed by slash-joined names splits back into those names |
| SchemaRef.DefinitionReference | site/components/explorer/SchemaViewer.tsx:18-32 | `#/$defs/<name>` resolves to that definition |
| SchemaRef.RefOf | site/components/explorer/SchemaViewer.tsx:42 | a `$ref` is followed only when it is a non-empty string |
| SchemaRef.ResolveNode | site/components/explorer/SchemaViewer.tsx:41-44 | the resolved node is the reference's target, or the node itself when the reference fails |
| SchemaRef.ItemsOf | site/components/explorer/SchemaViewer.tsx:55 | `items` is used only when it is a non-null object |
| SchemaViewer.QualifiedName | site/components/explorer/SchemaViewer.tsx:49 | a key at the root is bare; below a prefix it is `prefix.key` |
| SchemaViewer.CollectPropertyNames | site/components/explorer/SchemaViewer.tsx:34-64 | the pushes produce the names the recursive definition lists: properties first, then the resolved items' names under the same prefix |
| SchemaViewer.CollectFromProperties | site/components/explorer/SchemaViewer.tsx:46-53 | the loop over the keys produces each key's name followed by its subtree's names |
| SchemaViewer.PropertyNamesStep | site/components/explorer/SchemaViewer.tsx:48-52 | one more key appends its qualified name and then all names below it |
| SchemaViewer.NamesQualified | site/components/explorer/SchemaViewer.tsx:49-60 | every name collected below a non-empty prefix starts with `prefix.` |
| SchemaViewer.PropertyNamesQualified | site/components/explorer/SchemaViewer.tsx:46-53 | every name the property loop collects below a non-empty prefix starts with `prefix.` |
| SchemaViewer.PropertyNamesListEveryKey | site/components/explorer/SchemaViewer.tsx:48-50 | every key of `properties` is listed under its qualified name |
| SchemaViewer.NamesFuelMonotone | site/components/explorer/SchemaViewer.tsx:34-64 | once some fuel gives a complete list, every larger fuel gives the same list: the fuel only decides completeness, never the names |
| SchemaViewer.LastSegment | site/components/explorer/SchemaViewer.tsx:117 | the Items label of a `$ref` is its last `/` segment, which holds no `/` |
| SchemaViewer.CollectedAll | site/components/explorer/SchemaViewer.tsx:84-122 | the nine pushes list constraints in the fixed label order; a label appears iff its value is present with the right type; and each value is the one computed for its label |
| SchemaViewer.CollectedInOrder | site/components/explorer/SchemaViewer.tsx:84-122 | the first `k` label checks produce rows in label order, only for shown labels, and one row for each of them |
| SchemaViewer.ExtractDetail | site/components/explorer/SchemaViewer.tsx:66-125 | type is `type`, else "enum" with an enum, else "object"; description defaults to ""; required iff the name is in `parentRequired`; constraints are those of `CollectedAll` |
| SchemaViewer.PropertyNamed | site/components/explorer/SchemaViewer.tsx:145-148 | a property is taken only from an object of properties and only when its schema is truthy |
| SchemaViewer.FindPropertyInSchema | site/components/explorer/SchemaViewer.tsx:127-174 | the loop over the dotted segments gives what the step-by-step lookup gives, or null |
| SchemaViewer.FindStepsAppend | site/components/explorer/SchemaViewer.tsx:137-171 | looking up `p + q` is looking up `q` from where `p` led |
| SchemaViewer.LastSegmentOwns | site/components/explorer/SchemaViewer.tsx:137-173 | on success, the result and its `parentRequired` come from the last segment's step out of the node the earlier segments led to |
| SchemaViewer.FindStepsFailsIffStepFails | site/components/explorer/SchemaViewer.tsx:145-170 | the lookup returns null iff some segment is found neither among the properties nor among the resolved items' properties |
| SchemaViewer.FindsTopLevelProperty | site/components/explorer/SchemaViewer.tsx:143-149 | a dot-free top-level key is found with the root's `required` list |
| SchemaViewer.FindsNestedProperty | site/components/explorer/SchemaViewer.tsx:132-171 | extending a path by a dot-free key is one more step from what the path found |
| SchemaViewer.SelectProperty | site/components/explorer/SchemaViewer.tsx:196-216 | a detail is built iff the schema is loaded and the path is found; it is named after the last segment, its required flag comes from the owner's list, and its type, description and constraint rows (in label order, each label iff its value applies) are those of the found property's resolved schema |
| SchemaTree.EntryNodesListEntries | site/components/shared/SchemaTree.tsx:101-110 | one row per entry, in order: named after the key, required iff listed, badge and description from the resolved schema |
| SchemaTree.PropertiesComeFirst | site/components/shared/SchemaTree.tsx:95-113 | with an object of properties, the rows are one per property, whatever `items` holds |
| SchemaTree.ItemsAtSameDepth | site/components/shared/SchemaTree.tsx:115-125 | without properties, the resolved items' properties are listed at the same depth; with neither, nothing is listed |
| SchemaTree.PropertiesNodesWellFormed | site/components/shared/SchemaTree.tsx:38-80 | every row starts expanded iff its depth is below 2, and has children only when expanded and having children, one level down |
| SchemaTree.EntryNodesWellFormed | site/components/shared/SchemaTree.tsx:101-110 | the rows of a property list are at its depth and well formed |
| SchemaTree.WellFormedDepths | site/components/shared/SchemaTree.tsx:38 | a well-formed forest starting at depth 2 or less has no row deeper than 2 |
| SchemaTree.TreeShape | site/components/shared/SchemaTree.tsx:128-138 | the tree as first rendered is at most three levels deep, and its top level is one row per root property |
| SchemaTree.TreeFuelMonotone | site/components/shared/SchemaTree.tsx:128-138 | once some fuel gives a tree, every larger fuel gives the same tree: the fuel only decides completeness, never the rows |
| SchemaTree.UnresolvedRefShowsRef | site/components/shared/SchemaTree.tsx:42-45 | an unresolvable `$ref` without a `type` keeps the node and shows "ref" |
| SchemaPropertyTable.RefShowsDefinitionName | site/components/spec/SchemaPropertyTable.tsx:39-42 | a reference into `$defs` is shown as the definition's name, the name the reference resolves to |
| SchemaPropertyTable.ArrayTypeName | site/components/spec/SchemaPropertyTable.tsx:46-52 | an array with items is named `<item ref or type, default "any">[]`, ignoring its format and enum |
| SchemaPropertyTable.ScalarTypeName | site/components/spec/SchemaPropertyTable.tsx:44-62 | otherwise an enum shows "enum"; else the type (default "any"), with ` (<format>)` appended when there is a format |
| SchemaPropertyTable.ConstraintText | site/components/spec/SchemaPropertyTable.tsx:65-76 | the pushes join to the applicable pieces in order min, max, minLength, pattern, enum values, default, separated by "; " |
| SchemaPropertyTable.JoinEmpty | site/components/spec/SchemaPropertyTable.tsx:75 | a join is empty iff there is nothing, or a single empty piece |
| SchemaPropertyTable.ConstraintTextEmpty | site/components/spec/SchemaPropertyTable.tsx:65-75 | the summary is "" iff nothing applies, or only an enum whose values join to "" |
| SchemaPropertyTable.MaxLengthIgnored | site/components/spec/SchemaPropertyTable.tsx:68-71 | `maxLength` never changes the summary |
| SchemaPropertyTable.ZeroBoundsListed | site/components/spec/SchemaPropertyTable.tsx:68-69 | bounds of 0 are listed, as "min: 0" and "max: 0" |
| SchemaPropertyTable.DefinitionSection | site/components/spec/SchemaPropertyTable.tsx:87-89 | a section exists iff the definition has properties; it has one row per property, in order, required iff listed in `required` |
| SchemaPropertyTable.SectionsAreDefinitionsWithProperties | site/components/spec/SchemaPropertyTable.tsx:191-228 | the sections are the definitions with properties, in `$defs` order |
| DiffDisplay.ShapesDisjoint | site/components/playground/DiffDisplay.tsx:32-70 | added, modified, deleted/moved and array/object deltas exclude one another, and so do deleted and moved |
| DiffDisplay.ClassifyExact | site/components/playground/DiffDisplay.tsx:101-212 | each kind is chosen iff its shape test holds, and nothing is rendered iff no test holds |
| DiffDisplay.UnhandledShapes | site/components/playground/DiffDisplay.tsx:212 | a text-diff triple ending in 2 and an object whose `_t` is not "a" render nothing |
| DiffDisplay.ShortenBounds | site/components/playground/DiffDisplay.tsx:86-90 | text up to `maxLen` is kept whole; longer text becomes its first `maxLen` characters and "...", so never more than `maxLen + 3` |
| DiffDisplay.ShortenIdempotent | site/components/playground/DiffDisplay.tsx:88 | truncating twice is truncating once |
| DiffDisplay.FormatScalars | site/components/playground/DiffDisplay.tsx:72-84 | strings are quoted, numbers and booleans go through `String`, and null and undefined are told apart |
| DiffDisplay.RemovedAndInsertedShareLabel | site/components/playground/DiffDisplay.tsx:174-176 | the entries `_k` and `k` are both labelled `[k]` |
| DiffDisplay.ShownEntries | site/components/playground/DiffDisplay.tsx:166 | an array delta's shown entries are all its entries but `_t` |
| DiffDisplay.ShownEntriesAppend | site/components/playground/DiffDisplay.tsx:166 | the filter keeps order and multiplicity: the shown entries of `a + b` are those of `a` followed by those of `b` |
| DiffDisplay.ShownEntriesOne | site/components/playground/DiffDisplay.tsx:166 | one entry is shown once exactly when its key is not `_t`, and otherwise not at all |
| DiffDisplay.RenderDepths | site/components/playground/DiffDisplay.tsx:101-212 | a node's own line is at its depth, and every line below it is at depth 1 |
| DiffDisplay.ChildrenDepths | site/components/playground/DiffDisplay.tsx:173-206 | all lines of the children are at depth 1 |
| DiffDisplay.TopLevelOnlyObjects | site/components/playground/DiffDisplay.tsx:235-237 | a top-level delta that is not an object delta shows no entries |
| DiffDisplay.HashByWord | site/components/playground/DiffDisplay.tsx:21-25 | elements with the same string `word` hash alike; others hash to their serialisation |
| StatsSummary.NoValuesIffAbsentEverywhere | site/components/playground/StatsSummary.tsx:37-51 | an average is null iff no grain has the field |
| StatsSummary.MeanSumsPresentValues | site/components/playground/StatsSummary.tsx:40-43 | the average's numerator is the sum over all grains, an absent value counting 0 |
| StatsSummary.BucketCountsSentiment | site/components/playground/StatsSummary.tsx:53-63 | each bucket counts exactly the grains with that sentiment |
| StatsSummary.BucketsSumToCounted | site/components/playground/StatsSummary.tsx:59-63 | the buckets sum to the grains with a known sentiment, at most the grain count |
| StatsSummary.ComputeStats | site/components/playground/StatsSummary.tsx:33-66 | the count is the number of grains, the averages are those of the present values, and the counter loop yields the buckets |
| StatsSummary.NoFrequencyShowsDashes | site/components/playground/StatsSummary.tsx:100-101 | with no frequencies the average shows "--" |
| StatsSummary.KeyMapKeys | site/components/playground/StatsSummary.tsx:72-76 | the right-hand map has exactly the join keys of the right grains |
| StatsSummary.KeyMapLastWins | site/components/playground/StatsSummary.tsx:73-76 | a key maps to the last right grain with that key |
| StatsSummary.Matches | site/components/playground/StatsSummary.tsx:78-91 | there are no more shared words than left grains |
| StatsSummary.MatchesSound | site/components/playground/StatsSummary.tsx:79-91 | every shared word comes from a left grain whose key the right side has, paired with the right grain under that key |
| StatsSummary.MatchesComplete | site/components/playground/StatsSummary.tsx:79-91 | every left grain whose key the right side has contributes its entry |
| StatsSummary.CommonWords | site/components/playground/StatsSummary.tsx:93-97 | the sorted shared words are a permutation of the matches |
| StatsSummary.FindCommonWords | site/components/playground/StatsSummary.tsx:68-98 | the map loop, the push loop and the sort produce the specified shared words |
| StatsSummary.CommonWordsRanked | site/components/playground/StatsSummary.tsx:93-97 | shared words come by combined frequency, largest first, and equal ones keep their left order |
| Sorting.Insert | site/components/explorer/GrainDataTable.tsx:44 | inserting adds exactly one element |
| Sorting.SortBy | site/components/explorer/GrainDataTable.tsx:44 | the sorted copy is a permutation of the input |
| Sorting.InsertSorted | site/components/explorer/GrainDataTable.tsx:44 | under a total preorder, insertion into a sorted sequence keeps it sorted |
| Sorting.SortBySorted | site/components/explorer/GrainDataTable.tsx:44 | under a total preorder, the sorted copy is sorted |
| Sorting.SortByKeepsAll | site/components/explorer/GrainDataTable.tsx:44 | a property of every element survives the sort |
| Sorting.KeyDescIsTotalPreorder | site/components/explorer/FrequencyChart.tsx:39 | `(a, b) => key(b) - key(a)` is a total preorder |
| Sorting.WithKeyAppend | site/components/playground/StatsSummary.tsx:93-97 | the elements of one key in `a + b` are those in `a`, then those in `b` |
| Sorting.InsertStable | site/components/playground/StatsSummary.tsx:93-97 | inserting by key puts the new element after the earlier ones of its key |
| Sorting.SortByKeyDescStable | site/components/playground/StatsSummary.tsx:93-97 | sorting by key keeps each key's elements in their original order |
| Sorting.SortByKeyDescSorted | site/components/explorer/FrequencyChart.tsx:38-39 | sorting by key yields keys in non-increasing order |
| GrainDataTable.OrEmpty | site/components/explorer/GrainDataTable.tsx:26-27 | `v ?? ""` is never undefined and keeps a defined value |
| GrainDataTable.DescNegatesAsc | site/components/explorer/GrainDataTable.tsx:36 | "desc" is exactly the negation of "asc" |
| GrainDataTable.UndefinedIsEmpty | site/components/explorer/GrainDataTable.tsx:26-27 | an absent value compares as "" |
| GrainDataTable.NumbersByDifference | site/components/explorer/GrainDataTable.tsx:30-31 | two numbers compare by their difference |
| GrainDataTable.NumberAgainstAbsent | site/components/explorer/GrainDataTable.tsx:30-33 | a number against an absent value compares the number's text with "" |
| GrainDataTable.SlangAndCategoryKeys | site/components/explorer/GrainDataTable.tsx:56-67 | slang sorts as 1 iff `is_slang` is true, else 0; categories sort by their ", " join, or as absent |
| GrainDataTable.SortedGrains | site/components/explorer/GrainDataTable.tsx:43-72 | the sorted copy is a permutation of the grains |
| GrainDataTable.SlangFirst | site/components/explorer/GrainDataTable.tsx:62-67 | slang first (descending) puts every slang grain before every other |
| GrainDataTable.FrequencyDescending | site/components/explorer/GrainDataTable.tsx:50-51 | when every grain has a frequency, the default view lists frequencies non-increasing |
| GrainDataTable.FrequencyOrder | site/components/explorer/GrainDataTable.tsx:50-51 | between two grains with frequencies, the descending comparator is their difference |
| GrainDataTable.Toggle | site/components/explorer/GrainDataTable.tsx:76 | toggling always changes the direction |
| GrainDataTable.NextSort | site/components/explorer/GrainDataTable.tsx:74-81 | the clicked column becomes active; the same column flips the direction, a new one starts "asc" for word and "desc" otherwise |
| GrainDataTable.SelectTwiceRestores | site/components/explorer/GrainDataTable.tsx:75-76 | clicking the active column twice restores the direction |
| GrainDataTable.SortState.constructor | site/components/explorer/GrainDataTable.tsx:40-41 | the table opens sorted by frequency, descending |
| GrainDataTable.SortState.HandleSort | site/components/explorer/GrainDataTable.tsx:74-81 | the new field and direction are those of `NextSort` |
| FrequencyChart.Datum | site/components/explorer/FrequencyChart.tsx:41-45 | a bar keeps the word, with frequency 0 and sentiment "neutral" when absent |
| FrequencyChart.Ranked | site/components/explorer/FrequencyChart.tsx:38-39 | the ranking is a permutation of the grains |
| FrequencyChart.ChartData | site/components/explorer/FrequencyChart.tsx:38-45 | at most twenty bars, taken from the front of the ranking |
| FrequencyChart.ChartDataRanked | site/components/explorer/FrequencyChart.tsx:38-40 | bars run by frequency, highest first, and no grain left off is more frequent than a bar |
| FrequencyChart.ChartDataFromGrains | site/components/explorer/FrequencyChart.tsx:38 | each bar is one of the grains, and grains of equal frequency keep their order |
| FrequencyChart.ChartHeight | site/components/explorer/FrequencyChart.tsx:58 | the height is the larger of 300 and 32 per bar |
| FrequencyChart.ChartHeightBounds | site/components/explorer/FrequencyChart.tsx:40-58 | the height is between 300 and 640 |
| FrequencyChart.SentimentColors | site/components/explorer/FrequencyChart.tsx:15-24 | each sentiment has its colour; absent or unknown ones get the neutral colour |
| RfcRenderer.KeepAllowed | site/components/spec/RfcRenderer.tsx:18 | only word characters, whitespace and "-" are kept, in order; text made of them only is unchanged |
| RfcRenderer.CollapseSpacesShape | site/components/spec/RfcRenderer.tsx:19 | after collapsing, no whitespace is left, and each character is "-" or from the input |
| RfcRenderer.CollapseSpacesFixed | site/components/spec/RfcRenderer.tsx:19 | text without whitespace is unchanged |
| RfcRenderer.CollapseDashesShape | site/components/spec/RfcRenderer.tsx:20 | after collapsing, no two hyphens are adjacent, and each character is "-" or from the input |
| RfcRenderer.CollapseDashesFixed | site/components/spec/RfcRenderer.tsx:20 | text without adjacent hyphens is unchanged |
| RfcRenderer.TrimDash | site/components/spec/RfcRenderer.tsx:21 | one hyphen is dropped at each end; with no double hyphens, none is left at either end |
| RfcRenderer.SlugShape | site/components/spec/RfcRenderer.tsx:16-21 | a slug has only word characters and single hyphens, none at either end, each from the lower-cased text |
| RfcRenderer.SlugFixed | site/components/spec/RfcRenderer.tsx:16-21 | the chain leaves a slug unchanged |
| RfcRenderer.SlugifyIdempotent | site/components/spec/RfcRenderer.tsx:15-22 | slugifying a slug gives it back |
| RfcRenderer.ConcatAppend | site/components/spec/RfcRenderer.tsx:28 | `join("")` of two lists is the join of each, in order |
| RfcRenderer.ExtractTextConcat | site/components/spec/RfcRenderer.tsx:28 | the text of a list of children is the text of its front, then the text of its back |
| RfcRenderer.ExtractTextTransparent | site/components/spec/RfcRenderer.tsx:28-34 | wrapping in an element or a one-item list keeps the text |
| RfcRenderer.CollectKeepsIdsDistinct | site/components/spec/RfcRenderer.tsx:76-81 | collecting keeps ids pairwise distinct, and the heading's slug is then collected unless reporting has happened |
| RfcRenderer.ReportedOnce | site/components/spec/RfcRenderer.tsx:57-61 | a report hands over the non-empty headings and sets the flag; once set, nothing more is collected or reported |
| RfcRenderer.HeadingCollector.constructor | site/components/spec/RfcRenderer.tsx:47-48 | the collector starts with no headings, unreported |
| RfcRenderer.HeadingCollector.Reset | site/components/spec/RfcRenderer.tsx:51-54 | a markdown change clears both refs |
| RfcRenderer.HeadingCollector.RenderHeading | site/components/spec/RfcRenderer.tsx:72-81 | the anchor is the slug of the text, and the refs change as `Collect` says, keeping ids distinct |
| RfcRenderer.HeadingCollector.ReportHeadings | site/components/spec/RfcRenderer.tsx:57-61 | the effect delivers and flags as `Report` says |
| JsonLine.SkipSpacesSound | site/app/page.tsx:104 | `\s*` takes every whitespace character up to the first other one |
| JsonLine.SkipDigitsSound | site/app/page.tsx:126 | `\d+` takes every digit up to the first other character |
| JsonLine.ScanBodySound | site/app/page.tsx:116 | the body scan covers an escaped body and stops only at a quote, an unpaired backslash or the end |
| JsonLine.ScanBodyUnique | site/app/page.tsx:116 | the closing quote found is the first unescaped one |
| JsonLine.KeyMatch | site/app/page.tsx:104 | the opening group (whitespace and quote) and the closing group (`":` and whitespace) are non-empty; the key body may be empty (`"": 1`); the three groups are ordered and within the line |
| JsonLine.KeyMatchSound | site/app/page.tsx:104 | a key match is whitespace, a quote, an escaped body, `":`, and then all the whitespace that follows |
| JsonLine.KeyMatchComplete | site/app/page.tsx:104 | whenever the line starts like a key, the key pattern matches exactly that key |
| JsonLine.StringMatch | site/app/page.tsx:116 | a string match is at least two characters and within the line |
| JsonLine.StringMatchSound | site/app/page.tsx:116 | a string match is a quote, an escaped body and a quote |
| JsonLine.StringMatchComplete | site/app/page.tsx:116 | whenever the line starts with a quoted string, the match ends at its first unescaped quote |
| JsonLine.NumberMatch | site/app/page.tsx:126 | a number match is non-empty and within the line |
| JsonLine.NumberMatchSound | site/app/page.tsx:126 | the number pattern matches iff the line starts with a digit or "-" and a digit; the match is `-?\d+(\.\d+)?` and no digit follows it |
| JsonLine.KeywordMatch | site/app/page.tsx:136 | a keyword match is non-empty and within the line |
| JsonLine.KeywordMatchSound | site/app/page.tsx:136 | the match is "true", "false" or "null", and there is none iff the line starts with none of them |
| JsonLine.Step | site/app/page.tsx:102-150 | every pass consumes a non-empty prefix, so the loop ends |
| JsonLine.StepSpells | site/app/page.tsx:104-149 | the texts pushed in one pass spell the prefix it consumes |
| JsonLine.StepShapes | site/app/page.tsx:104-149 | each piece of one pass has the shape of its kind |
| JsonLine.StepPriority | site/app/page.tsx:104-149 | key first, then string, then number, then keyword, then one character |
| JsonLine.Numbered | site/app/page.tsx:107-147 | pushed tokens take consecutive keys `keyIdx++` |
| JsonLine.StepTokens | site/app/page.tsx:104-149 | the tokens one pass pushes, matcher by matcher |
| JsonLine.TokenizeStep | site/app/page.tsx:102-150 | the line's tokens are one pass's tokens, then those of the rest |
| JsonLine.KeyFirst | site/app/page.tsx:104-112 | a key yields three tokens: whitespace and quote, body, then quote, colon and whitespace |
| JsonLine.StringFirst | site/app/page.tsx:116-122 | a string that is not a key yields one string token |
| JsonLine.NumberFirst | site/app/page.tsx:126-132 | a number yields one number token |
| JsonLine.KeywordFirst | site/app/page.tsx:136-142 | a keyword yields one keyword token |
| JsonLine.CharFirst | site/app/page.tsx:146-149 | otherwise the first character is a token of its own |
| JsonLine.Highlight | site/app/page.tsx:97-153 | the `while` loop pushes exactly the tokens of the recursive tokenizer |
| JsonLine.OnePass | site/app/page.tsx:102-150 | one pass consumes a non-empty prefix and yields a non-empty list of consecutively keyed, well-shaped tokens that spell it |
| JsonLine.TokenizeRoundTrip | site/app/page.tsx:104-149 | the token texts, in order, give back the line |
| JsonLine.TokenizeEmpty | site/app/page.tsx:102 | an empty line has no tokens and any other line has some |
| JsonLine.TokenizeKeys | site/app/page.tsx:100-149 | the keys run 0, 1, 2, ... so React keys are distinct |
| JsonLine.TokenizeShapes | site/app/page.tsx:104-149 | every token has the shape of its kind: quoted escaped strings, `-?\d+(\.\d+)?` numbers, keywords, escaped key bodies |

## Left out

- Ajv validation and the jsondiffpatch diff computation are not modelled.
  - These libraries' code is not part of this model.
  - Only the repository's own classifier, formatting and `objectHash` are
    modelled.
  - A diff that throws shows the same "no differences" panel as an absent
    delta. `DiffView` takes the library's result as input.
- I/O is not modelled: fetching the schema and examples, file drops and the
  validation effects.
- React rendering, styling, the expand/collapse toggles after the first
  render, and the search box filter of SchemaViewer are not modelled.
- Cyclic `$ref` chains are bounded by a `fuel` parameter.
  - In the source, `collectPropertyNames` recurses forever on a cycle.
  - SchemaTree's first render stops at depth 2, because only rows above
    depth 2 start expanded. It loops only on a cycle through `items` whose
    nodes have a truthy `properties` that is not an object.
  - The model returns `None` when the fuel runs out. It does not model the
    stack overflow. `NamesFuelMonotone` and `TreeFuelMonotone` show that
    the fuel never changes a complete result.
- Numbers are unbounded integers. Fractional JSON numbers, the rounding of
  integers beyond 2^53 and IEEE special values are not modelled.
- Strings.NatToString: `String(n)` is modelled as plain decimal digits for
  every `n`. JavaScript prints numbers from 1e21 on in exponent form
  ("1e+21"), so the digits-only contract holds in the source only below
  1e21. `IntToString` and `ToJsString` inherit this.
- `toFixed` is a parameter of `FormatNum`.
- Averages are kept as exact `sum / count` pairs, since the division is
  floating point.
- `String.prototype.toLowerCase`, `localeCompare` and `JSON.stringify` are
  function parameters, since their results depend on Unicode tables and
  the host.
- Regular expressions are modelled as hand-written scanners with the same
  matches. Strings are sequences of characters, not UTF-16 code units.
- The JavaScript `in` operator is modelled on own keys only.
  - `g.sentiment in sentiment` is true in the source for inherited names
    such as "toString".
  - The model counts only the four buckets.
  - `resolveRef`'s `part in current` is modelled the same way.
- Json.Member: property reads see own keys only. In the source,
  `props[part]` in `findPropertyInSchema` and `SENTIMENT_COLORS[...]` in
  the frequency chart also read inherited members such as `constructor`.
- Json.Entries: an object's entries are listed in the order the model
  stores them. `Object.entries` and `Object.keys` list integer-like keys
  first, in ascending order, and then the other keys in insertion order.
  So for an array delta `{"_t":"a","_0":[x,0,0],"0":[y]}` the source
  renders the added `[0]` line before the deleted one, and `RenderNode`
  renders them in stored order. This also affects the order of the names
  `collectPropertyNames` lists, of the tree's rows and of the definition
  tables.
- Json.Lookup: an object with a duplicate key reads the first value.
  `JSON.parse` keeps the last value, at the first key's position, and
  lists the key once. Objects `JSON.parse` builds never have duplicate
  keys, but the model does not make distinct keys an invariant of `Json`.
  Only `EntriesAreMembers` and `LookupDistinct` require them.
- StatsSummary.ComputeStats: an average of present values
  is stated as the pair (sum, count). Its floating-point quotient is not
  modelled.
- RfcRenderer.SlugifyIdempotent: idempotence is proved on the condition that
  lower-casing leaves the slug unchanged. `toLowerCase` is a parameter, so
  this cannot be proved outright.
- RfcRenderer.SlugShape: the slug is not proved to be lower-case, since
  lower-casing is a parameter. What is proved is that each character comes
  from the lower-cased text.
- SchemaViewer.CollectPropertyNames: a property whose schema is `null`
  makes the source throw when it reads `schema.$ref`. The model reads such
  a node as having no keys, lists the property's own name and nothing
  below it. `Names` and `NamesQualified` inherit this.
- SchemaTree.EntryNodesListEntries: a property whose schema is `null`
  makes `SchemaProperty` throw when it reads `schema.$ref`, so the tree
  fails to render. The model builds a row for it, badged "object" and
  without children. `PropertiesComeFirst` and `TreeShape` inherit this.
- Json.RequiredNames: a `required` value that is not an array is read as
  empty. In the source, `?? []` keeps such a value, and `includes` on a
  string would then match substrings.
- SchemaViewer.FindPropertyInSchema: the lookup looks only one `items`
  level deep, as the source does. `collectPropertyNames` descends through
  nested arrays, so names under an array of arrays are listed but never
  found. The model reproduces this.
- SchemaPropertyTable works on the typed records the component declares
  (`PropertyObject`, `DefObject`), not on raw JSON. An `enum` or `items`
  of the wrong JSON type is outside the model.
- The landing page's code display, which splits text into lines and
  renders `JsonLine` per line, is not modelled. Only `JsonLine` is.
