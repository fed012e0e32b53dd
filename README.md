# Expense tracker — a verified model

This project models the core of a small personal expense tracker in Dafny. The
tracker is a single-page web application. Expenses are kept in the browser and
shown as a dashboard, a filterable list, charts and a map. A list can be
exported as CSV or shared as a compressed link. A pet on the page is cheered up
with treats.

The model covers:

- the expense store, with its add, update and delete operations and its
  derived figures (monthly spend, top category, daily average);
- the list's filters and sort;
- the expense form's validation;
- the export dialog and the CSV text it produces;
- the share-link encoder and decoder, including the base64 and UTF-8 steps
  they rely on;
- the spending, category and sentiment summaries;
- the map's markers, radius, centre and legend;
- the place search;
- the pet store, the pet's play panel and the pet's picture.

Components whose state changes in place are classes:

- the store, the form, the list view, the export dialog, the pickers, the
  panel and the pages;
- their methods have `modifies` clauses;
- the loops in the source are methods with invariants.

Derived values are functions. The lemmas beside them state what the
application promises.

Amounts are whole cents (`nat`). Strings are sequences of characters.

Things outside the program are parameters of the model:

- the JSON codec, the text decoder, the gzip streams and `parseFloat`;
- the place-search service;
- storage;
- the clock.

## Model

| member | source | states |
|---|---|---|
| Types.WithIdentity | src/types/index.ts:27-36 | a stored expense carries exactly the editable data plus the assigned id and creation time |
| Types.CategoriesEnumerated | src/types/index.ts:1-10 | the category list has six distinct entries, holds every category, and runs from Food to Other |
| Types.CategoryNamesExact | src/types/index.ts:1-8 | the categories are named by exactly the six strings of the list, in order, and no two share a name |
| Types.CategoryAdmitsExactlyTheNames | src/types/index.ts:10 | a string is a category's name exactly when it is one of the six listed strings |
| Types.SentimentsEnumerated | src/types/index.ts:12-19 | the four sentiments are distinct, all listed, and named "Essential", "Worth it", "Regret", "Skip next time" |
| Types.AllIsNoLabel | src/types/index.ts:38-44 | the filter sentinel "All" is the name of no category and no sentiment |
| Formatters.GetMonthKey | src/lib/formatters.ts:25-27 | the key is a prefix of the date, seven characters long or the whole date when shorter |
| Formatters.MonthKeyOfDate | src/lib/formatters.ts:25-27 | on a YYYY-MM-DD date the key is its YYYY-MM part and is a well-formed month key |
| Formatters.GetMonthKeyIdempotent | src/lib/formatters.ts:25-27 | taking the key of a key changes nothing |
| Formatters.StartsWithIffMonthKey | src/context/ExpenseContext.tsx:80 | for a seven-character key, a date starts with the key exactly when its month key is that key |
| Formatters.MonthKeyWellFormed | src/context/ExpenseContext.tsx:76 | the current-month key of a four-digit year is a well-formed YYYY-MM key |
| Formatters.NatToStringInjective | src/context/ExpenseContext.tsx:76 | `String(n)` of two naturals is equal only when the numbers are |
| Formatters.MonthKeyInjective | src/context/ExpenseContext.tsx:76 | two different months never produce the same key |
| Utf8.EncodeChar | src/lib/share.ts:6-7 | a character becomes one to four UTF-8 bytes, exactly one (itself) when it is ASCII |
| Utf8.Encode | src/lib/share.ts:6-7 | the UTF-8 encoding is at least as long as the text |
| Utf8.EncodeAppend | src/lib/share.ts:6-7 | encoding a concatenation concatenates the encodings |
| Utf8.Latin1 | src/lib/share.ts:38 | the Latin-1 bytes exist exactly when every character is below 256, and are then the character codes |
| Utf8.FromBytes | src/lib/share.ts:34 | `String.fromCharCode` of bytes gives one character per byte with that code |
| Utf8.Latin1FromBytes | src/lib/share.ts:34 | the Latin-1 bytes of `String.fromCharCode(...bytes)` are the bytes again |
| Utf8.AsciiEncodings | src/lib/share.ts:37-38 | on ASCII text the UTF-8 and Latin-1 bytes coincide |
| Utf8.NonAsciiLonger | src/lib/share.ts:37-38 | a character of 128 or above makes the UTF-8 encoding longer than the text |
| Base64.CharOf | src/lib/share.ts:34 | every 6-bit value maps to a letter of the base64 alphabet |
| Base64.IndexOf | src/lib/share.ts:44 | a character has a 6-bit value exactly when it is in the alphabet, and that value's letter is the character |
| Base64.IndexOfCharOf | src/lib/share.ts:44 | reading back the letter of a 6-bit value gives the value |
| Base64.EncodeGroup | src/lib/share.ts:34 | three bytes become four alphabet letters |
| Base64.Encode | src/lib/share.ts:34 | the encoding has length `ceil(n/3)*4` and holds only alphabet letters and '=' |
| Base64.GroupRoundTrip | src/lib/share.ts:44 | decoding the four letters of a group gives back its three bytes |
| Base64.OneByteRoundTrip | src/lib/share.ts:44 | a final single byte, padded with "==", decodes back to itself |
| Base64.TwoBytesRoundTrip | src/lib/share.ts:44 | two final bytes, padded with "=", decode back to themselves |
| Base64.GroupsRoundTrip | src/lib/share.ts:44 | a group followed by a round-tripping rest round-trips |
| Base64.DecodeEncode | src/lib/share.ts:44 | `atob(btoa(x))` is `x` for every byte string |
| Base64.DecodeStep | src/lib/share.ts:44 | a four-letter group followed by more text decodes group by group, and fails if either part fails |
| Base64.GroupCanonical | src/lib/share.ts:44 | four letters that decode to three bytes are the encoding of those bytes |
| Base64.LastCanonical | src/lib/share.ts:44 | a final group that decodes is the encoding of its one to three bytes |
| Base64.OnePadCanonical | src/lib/share.ts:44 | a final group ending in "==" that decodes holds one byte and is its encoding |
| Base64.TwoBytesCanonical | src/lib/share.ts:44 | a final group ending in a single "=" that decodes holds two bytes and is their encoding |
| Base64.EncodeDecode | src/lib/share.ts:44 | a string decodes only if it is the encoding of what it decodes to |
| Share.FlattenLength | src/lib/share.ts:25-27 | the buffer size `reduce(acc + chunk.length)` is the length of the concatenated chunks |
| Share.FlattenAppend | src/lib/share.ts:29-32 | concatenating two runs of chunks concatenates their contents |
| Share.Btoa | src/lib/share.ts:38 | `btoa` succeeds exactly when every character of its input is below 256 |
| Share.Atob | src/lib/share.ts:44 | `atob` succeeds exactly on strict base64, and its characters are the decoded bytes |
| Share.AtobBtoa | src/lib/share.ts:38-44 | `atob` gives back every string `btoa` accepts |
| Share.FromCharCodes | src/lib/share.ts:34 | the spread call gives one character per byte, and throws when the bytes outnumber the engine's argument limit |
| Share.ToUint8 | src/lib/share.ts:45-48 | the byte array has one entry per character, the character code modulo 256 |
| Share.ToUint8FromBytes | src/lib/share.ts:44-48 | reading back the characters `atob` produced gives the decoded bytes |
| Share.CompressedEncodingSucceeds | src/lib/share.ts:10-34 | with a compressor, encoding succeeds exactly when the compressed bytes fit in one call's arguments, and is then the base64 of the gzip of the UTF-8 of the JSON |
| Share.FallbackEncodingFails | src/lib/share.ts:37-38 | without a compressor, encoding throws exactly when the JSON holds a character above 255 |
| Share.DecodeFailsToEmpty | src/lib/share.ts:89-92 | decoding never throws: a token that is not base64, or whose bytes neither inflate nor parse as text, gives the empty list |
| Share.DecodeFallsBack | src/lib/share.ts:79-88 | when decompression is missing or fails, the raw bytes are read as UTF-8 JSON |
| Share.RoundTripCompressed | src/lib/share.ts:4-93 | with both streams, for a list whose JSON parses back, decoding inverts every encoding that does not throw |
| Share.JsonIsNotGzip | src/lib/share.ts:79-83 | the UTF-8 of a JSON array is non-empty, does not start with the gzip magic byte, and has no byte-order mark |
| Share.RoundTripUncompressed | src/lib/share.ts:4-93 | without a compressor, a list whose JSON is ASCII and parses back round-trips through the whole codec |
| Share.FallbackManglesLatin1 | src/lib/share.ts:37-38 | without a compressor, a character from 128 to 255 is encoded as one Latin-1 byte that the decoder does not read back as that character, and the decoded list is whatever parsing that other text gives |
| Share.EncodedFixedAgrees | src/lib/share.ts:37-38 | the corrected encoder agrees with the original on compressed input within the argument limit and on ASCII JSON |
| Share.OversizeEncodingFails | src/lib/share.ts:34 | a list whose compressed bytes exceed the argument limit fails to encode, while the corrected encoder round-trips it |
| Share.RoundTripFixed | src/lib/share.ts:34-38 | with the corrected encoder, decoding inverts encoding for every list whose JSON parses back, with or without compression |
| Share.EmptyIsAmbiguous | src/lib/share.ts:89-92 | the empty list and a malformed token both decode to the empty list |
| Share.ShareUrl | src/lib/share.ts:96-100 | the link is the origin (empty outside a browser), then "/shared#", then the token |
| Share.FragmentAfter | src/app/shared/page.tsx:51 | the hash after the first '#' is everything that follows it |
| Share.FragmentOfShareUrl | src/lib/share.ts:96-100 | the shared page reads back exactly the token when the origin has no '#' |
| Share.ShareLinkRoundTrip | src/lib/share.ts:96-100 | following a share link made by the corrected encoder gives back any list whose JSON parses back |
| Share.Drain | src/lib/share.ts:19-23 | the read loop collects every chunk of the stream, in order |
| Share.SetAt | src/lib/share.ts:30 | `set(chunk, offset)` writes the chunk at the offset and leaves the rest of the buffer unchanged |
| Share.ConcatChunks | src/lib/share.ts:25-32 | the buffer has the total length and holds the chunks one after another |
| Share.CopyBytes | src/lib/share.ts:45-48 | the copy loop fills a new array with the character codes modulo 256 |
| Share.EncodeExpenses | src/lib/share.ts:4-39 | the step-by-step encoder computes the specified encoding |
| Share.DecodeExpenses | src/lib/share.ts:42-93 | the step-by-step decoder, with each `catch` a branch, computes the specified decoding |
| ExpenseContext.UpdateById | src/context/ExpenseContext.tsx:57-64 | the list keeps its length; records with the id get the new data with id and creation time kept; others are unchanged |
| ExpenseContext.UpdateKeepsIds | src/context/ExpenseContext.tsx:59-61 | an update never changes which ids occur, nor their positions |
| ExpenseContext.RemoveById | src/context/ExpenseContext.tsx:66-68 | a record survives exactly when it was there and has another id; an absent id changes nothing |
| ExpenseContext.RemoveKeepsOrder | src/context/ExpenseContext.tsx:67 | deleting from a concatenation deletes from each part, so survivors keep their order |
| ExpenseContext.RemoveAccounts | src/context/ExpenseContext.tsx:67 | the amounts and the count removed are exactly those of the records with that id |
| ExpenseContext.FindById | src/context/ExpenseContext.tsx:70-73 | nothing is found exactly when no record has the id; a found record is in the list and has the id |
| ExpenseContext.ExpenseStore.constructor | src/context/ExpenseContext.tsx:31-37 | the store starts from the list loaded from storage |
| ExpenseContext.ExpenseStore.AddExpense | src/context/ExpenseContext.tsx:45-55 | the new record, with the given data, id and time, is prepended; the old ones follow unchanged; the total grows by its amount |
| ExpenseContext.ExpenseStore.UpdateExpense | src/context/ExpenseContext.tsx:57-64 | the list becomes the update of the old list |
| ExpenseContext.ExpenseStore.DeleteExpense | src/context/ExpenseContext.tsx:66-68 | the list becomes the old list without the records with that id |
| ExpenseContext.MonthlySpentIsMonthTotal | src/context/ExpenseContext.tsx:75-81 | the monthly figure is the total of the expenses in the current month's key, and never exceeds the total spent |
| ExpenseContext.EntriesOf | src/context/ExpenseContext.tsx:83-92 | each category that occurs is paired with its total, in first-appearance order |
| ExpenseContext.ByTotalDescPreorder | src/context/ExpenseContext.tsx:92 | the comparator `b - a` is a total preorder, so the sort is well defined |
| ExpenseContext.TopOfEntries | src/context/ExpenseContext.tsx:92 | the stable descending sort puts first the earliest entry with the largest total |
| ExpenseContext.TopEntry | src/context/ExpenseContext.tsx:91-94 | the top category is the earliest-appearing category whose total is largest |
| ExpenseContext.TopCategoryExists | src/context/ExpenseContext.tsx:91-94 | there is a top category exactly when there are expenses, and it is the category of one of them |
| ExpenseContext.TopCategoryIsMax | src/context/ExpenseContext.tsx:91-94 | no category has a larger total than the top category |
| ExpenseContext.TopCategoryTieBreak | src/context/ExpenseContext.tsx:91-94 | of two categories with equal totals, the one that appears first in the list wins |
| ExpenseContext.CategoryTotalsEntries | src/context/ExpenseContext.tsx:83-89 | the accumulating loop produces the category entries |
| ExpenseContext.ComputeTopCategory | src/context/ExpenseContext.tsx:83-94 | totals, stable sort and first key together compute the top category |
| ExpenseContext.Average | src/context/ExpenseContext.tsx:97 | with no days the average is 0; otherwise it is the exact mean, between 0 and the total |
| ExpenseContext.AverageAntitone | src/context/ExpenseContext.tsx:97 | the same total spread over more days gives a smaller average |
| ExpenseContext.DailyAverageSpec | src/context/ExpenseContext.tsx:96-97 | the day count is the number of distinct dates; no expenses give 0; otherwise the average is the total over that count |
| SharedPage.SettledView | src/app/shared/page.tsx:49-69 | the page settles on the listing exactly when the hash is non-empty and decodes to a non-empty list, showing that list and its total; otherwise on the error |
| SharedPage.ImportMessage | src/app/shared/page.tsx:82 | the toast reads "Imported n expense", with an "s" unless n is 1 |
| SharedPage.ImportedSpec | src/app/shared/page.tsx:74-84 | importing adds one new record per shared expense, keeps its data with a fresh id and time, puts it before the old records, and adds the shared amounts to the total |
| SharedPage.ImportedStep | src/app/shared/page.tsx:76-81 | importing one more shared expense prepends its new record |
| SharedPage.SharedView.constructor | src/app/shared/page.tsx:45-47 | the page starts loading, without error and with nothing shared |
| SharedPage.SharedView.LoadSharedExpenses | src/app/shared/page.tsx:50-69 | loading ends; an empty hash or an empty decoded list is an error; otherwise the decoded list is shown |
| SharedPage.SharedView.HandleImportAll | src/app/shared/page.tsx:74-84 | every shared expense is added to the store in order, the count is toasted, and the page goes to the expense list |
| PetContext.DefaultPetValid | src/context/PetContext.tsx:31-37 | the default pet is named Shiba, has 3 treats, 70 happiness and no plays, and is a valid pet |
| PetContext.Decay | src/context/PetContext.tsx:55-60 | the decay is the floor of five points per elapsed hour |
| PetContext.DecaySpec | src/context/PetContext.tsx:55-60 | no time gives no decay, an hour gives 5, and decay never shrinks as time passes |
| PetContext.RestoredSpec | src/context/PetContext.tsx:70-80 | the restored happiness is never negative and, unless the clock ran backwards, never above the saved one; only the happiness changes; a valid pet stays valid |
| PetContext.PlayedSpec | src/context/PetContext.tsx:99-110 | a game uses one treat, adds 15 happiness capped at 100, and counts one play; a valid pet with a treat stays valid |
| PetContext.PetName | src/context/PetContext.tsx:112-117 | the stored name is never empty and neither starts nor ends with whitespace |
| PetContext.PetNameSpec | src/context/PetContext.tsx:115 | the name is trimmed; text with non-blank content is kept, trimmed; a blank name becomes "Shiba" |
| PetContext.PetStore.constructor | src/context/PetContext.tsx:64-67 | the store starts with the default pet, not loaded and not excited |
| PetContext.PetStore.Load | src/context/PetContext.tsx:39-80 | the pet becomes the stored pet (or the default) with decay applied, and is marked loaded |
| PetContext.PetStore.AddTreat | src/context/PetContext.tsx:89-97 | the pet gains one treat, nothing else changes, and it becomes excited |
| PetContext.PetStore.CalmDown | src/context/PetContext.tsx:96 | the excitement timeout clears the excitement and nothing else |
| PetContext.PetStore.PlayFetch | src/context/PetContext.tsx:99-110 | a game is played exactly when there is a treat, and the pet becomes the played pet; otherwise nothing changes |
| PetContext.PetStore.SetName | src/context/PetContext.tsx:112-117 | only the name changes, to the trimmed input or "Shiba" |
| PetContext.ActionsKeepValid | src/context/PetContext.tsx:89-117 | adding a treat, playing with a treat and renaming all keep a valid pet valid |
| Dashboard.GreetingSpec | src/app/page.tsx:48-53 | morning before 12, afternoon from 12 to before 17, evening from 17; a later hour never gives an earlier greeting |
| Dashboard.HeroCountSpec | src/app/page.tsx:105-110 | the hero's count is the number of expenses in the current month, at most all of them, and zero only with zero monthly spend |
| Dashboard.HeroLine | src/app/page.tsx:97-116 | the figures are shown exactly when loaded with some expenses, and are the monthly spend and the month's count |
| Dashboard.NewerFirstMeaning | src/app/page.tsx:61-65 | the comparator puts `a` first exactly when its date is later, or equal with a later or equal creation time |
| Dashboard.NewerFirstPreorder | src/app/page.tsx:61-65 | the comparator is a total preorder, as `sort` requires |
| Dashboard.SortedNewestFirst | src/app/page.tsx:61-65 | the sorted copy runs from the most recent expense to the least recent |
| Dashboard.RecentSpec | src/app/page.tsx:61-66 | the recent list has five entries (or all when fewer), all taken from the store, newest first, and none left out is more recent than one shown |
| Dashboard.TakeSorted | src/app/page.tsx:66 | a prefix of a newest-first list is newest first, and nothing after it is more recent than anything in it |
| Dashboard.RecentExpenses | src/app/page.tsx:61-66 | sorting a copy computes the recent list and leaves the stored order untouched |
| Dashboard.DashboardPage.constructor | src/app/page.tsx:55-59 | the page starts with the modal closed and no toasts |
| Dashboard.DashboardPage.OpenModal | src/app/page.tsx:120 | the add button opens the modal |
| Dashboard.DashboardPage.HandleAdd | src/app/page.tsx:68-73 | the new expense is prepended to the store, the pet gets a treat and becomes excited, the modal closes and the success toast is queued |
| ExpenseForm.FractionText | src/components/ExpenseForm.tsx:93 | the cents part of `amount.toString()` is one or two digits |
| ExpenseForm.DollarsText | src/components/ExpenseForm.tsx:93 | the amount's text starts with a digit, is all digits for whole dollars, and otherwise does not end in '0' |
| ExpenseForm.FractionTextInjective | src/components/ExpenseForm.tsx:93 | different cents give different fraction digits |
| ExpenseForm.DollarsTextInjective | src/components/ExpenseForm.tsx:93 | different amounts are shown in the amount field as different texts |
| ExpenseForm.NoErrorsIff | src/components/ExpenseForm.tsx:120-139 | the form is accepted exactly when the amount text parses to a number in (0, 999999.99], the trimmed description has 1 to 200 characters and a date is set |
| ExpenseForm.RoundCents | src/components/ExpenseForm.tsx:151 | `Math.round(x * 100)` is the whole number of cents within half a cent of the amount, halves rounded up |
| ExpenseForm.AcceptedCents | src/components/ExpenseForm.tsx:123-151 | an accepted amount is stored as 0 to 99999999 cents, and as 0 exactly when it is below half a cent |
| ExpenseForm.SubmittedDataSpec | src/components/ExpenseForm.tsx:141-157 | an accepted submission carries the date, the rounded amount in range, the category, the trimmed description of 1 to 200 characters, the sentiment and the location |
| ExpenseForm.ToggledSentiment | src/components/ExpenseForm.tsx:276 | clicking the selected sentiment clears it; clicking another selects it |
| ExpenseForm.Form.constructor | src/components/ExpenseForm.tsx:92-107 | a new form is blank (today, no amount, Food, no description) or filled from the expense being edited, with no errors and nothing touched |
| ExpenseForm.Form.Refill | src/components/ExpenseForm.tsx:109-118 | the fields are reset from the expense passed in; errors and touched fields stay |
| ExpenseForm.Form.ClickSentiment | src/components/ExpenseForm.tsx:276 | only the sentiment changes, toggled |
| ExpenseForm.Form.Validate | src/components/ExpenseForm.tsx:120-139 | the sequential checks, a later message for a field replacing an earlier one, compute the field-by-field errors |
| ExpenseForm.Form.Blur | src/components/ExpenseForm.tsx:159-162 | leaving a field marks it touched and replaces the errors by a fresh validation; the fields stay |
| ExpenseForm.Form.Submit | src/components/ExpenseForm.tsx:141-157 | a rejected submit shows the errors, touches all three fields and hands over nothing; an accepted one hands over the submitted data |
| ExpenseList.Passing | src/components/ExpenseList.tsx:95-117 | an expense is kept exactly when it is in the list and passes the search, category, sentiment and both date filters |
| ExpenseList.PassingIsFilter | src/components/ExpenseList.tsx:98-117 | the successive filters together are one filter by the conjunction of their conditions, in list order |
| ExpenseList.EmptySearchMatches | src/components/ExpenseList.tsx:98-105 | an empty query matches every expense, so skipping the search step loses nothing |
| ExpenseList.SentimentFilterDropsUnlabeled | src/components/ExpenseList.tsx:109-111 | a sentiment filter drops every expense without a sentiment |
| ExpenseList.DateBoundsInclusive | src/components/ExpenseList.tsx:112-117 | an expense dated on a bound passes that bound |
| ExpenseList.CompareAntisymmetric | src/components/ExpenseList.tsx:119-131 | swapping the two expenses negates each column's comparison |
| ExpenseList.CompareTransitive | src/components/ExpenseList.tsx:119-131 | each column's comparison is transitive |
| ExpenseList.ComparatorPreorder | src/components/ExpenseList.tsx:119-133 | every column comparator, in either direction, is a total preorder, as `sort` requires |
| ExpenseList.ShownSpec | src/components/ExpenseList.tsx:95-136 | the shown list is a permutation of the passing expenses, holds exactly those, and is ordered by the column, ascending for "asc" and descending for "desc" |
| ExpenseList.ShownTotal | src/components/ExpenseList.tsx:193 | the shown total is the passing expenses' total, whatever the order, and at most the overall total |
| ExpenseList.Toggle | src/components/ExpenseList.tsx:138-145 | clicking a header always selects that column |
| ExpenseList.ToggleSpec | src/components/ExpenseList.tsx:138-145 | the current column flips its direction and flips back on a second click; another column starts descending |
| ExpenseList.ActiveIffNotDefault | src/components/ExpenseList.tsx:88-93 | filters are active exactly when they differ from the defaults, and the defaults pass every expense |
| ExpenseList.ListView.constructor | src/components/ExpenseList.tsx:74-83 | a fresh list has default filters and sorts by date, descending |
| ExpenseList.ListView.ToggleSort | src/components/ExpenseList.tsx:138-145 | the sort becomes the toggled one and the filters stay |
| ExpenseList.ListView.ClearAll | src/components/ExpenseList.tsx:325-332 | every filter returns to its default, so none is active, and the sort stays |
| ExpenseList.ListView.SetFilters | src/components/ExpenseList.tsx:221-317 | an input replaces the filters and the sort stays |
| ExpenseList.ListView.Filtered | src/components/ExpenseList.tsx:95-136 | narrowing a copy by each active filter in turn and then sorting it gives the shown list; the stored list is not touched |
| ExpenseList.ListView.FilteredTotal | src/components/ExpenseList.tsx:193 | the total over the shown rows is the passing expenses' total |
| CategoryChart.EntriesTotalIsKeySum | src/components/CategoryChart.tsx:54 | summing the entries' values sums the per-category totals |
| CategoryChart.TotalAllIsSum | src/components/CategoryChart.tsx:46-54 | `totalAll` is the sum of all amounts: every expense is in exactly one category total |
| CategoryChart.Pct | src/components/CategoryChart.tsx:60 | the percentage is 0 when the total is 0 and at most 100 for a part of the total |
| CategoryChart.ToSlices | src/components/CategoryChart.tsx:56-61 | each entry becomes one slice with its name, value and percentage of the total, in entry order |
| CategoryChart.ChartHoldsSlices | src/components/CategoryChart.tsx:56-62 | the sorted data is a permutation of the slices |
| CategoryChart.ChartEmptyIffNoExpenses | src/components/CategoryChart.tsx:64 | there is no data exactly when there are no expenses |
| CategoryChart.ChartValues | src/components/CategoryChart.tsx:56-61 | each slice holds its category's total and that total's rounded share of all spending, at most 100 |
| CategoryChart.ChartCovers | src/components/CategoryChart.tsx:46-62 | a category has a slice exactly when some expense has that category |
| CategoryChart.SlicesCover | src/components/CategoryChart.tsx:46-61 | before sorting there is a slice for exactly the categories that occur |
| CategoryChart.ChartOrdered | src/components/CategoryChart.tsx:62 | the data runs from the largest value down and no category has two slices |
| CategoryChart.SlicesDistinctNames | src/components/CategoryChart.tsx:56-61 | before sorting the slices are distinct and name distinct categories |
| CategoryChart.ComputeChartData | src/components/CategoryChart.tsx:46-62 | the accumulating loop, the sum, the mapping and the sort compute the chart data |
| SpendingChart.MonthsBack | src/components/SpendingChart.tsx:31 | `new Date(y, m - i, 1)` is the month exactly `i` months earlier, with a valid month number |
| SpendingChart.MonthsBackRollover | src/components/SpendingChart.tsx:31 | going back less than a year stays in the year while `back` is below the month, and otherwise moves into the previous year |
| SpendingChart.MonthIndexInjective | src/components/SpendingChart.tsx:31-32 | two different (year, month) pairs are different months |
| SpendingChart.WindowMonth | src/components/SpendingChart.tsx:30-32 | each bar's month number is between 1 and 12 |
| SpendingChart.Window | src/components/SpendingChart.tsx:29-37 | the window has exactly six keys, the `j`-th for the month `5 - j` months back |
| SpendingChart.WindowSpec | src/components/SpendingChart.tsx:29-37 | the window ends at the current month, its months are consecutive and chronological, and its keys are distinct |
| SpendingChart.WindowWellFormed | src/components/SpendingChart.tsx:32 | with four-digit years every key is a zero-padded "YYYY-MM" |
| SpendingChart.SixMonths | src/components/SpendingChart.tsx:29-37 | the `for` loop from 5 down to 0 pushes exactly the window's keys, oldest first |
| SpendingChart.BarsOf | src/components/SpendingChart.tsx:49-53 | one bar per key, holding that month's total (0 when absent) and marked current exactly for the current key |
| SpendingChart.ChartBarsSpec | src/components/SpendingChart.tsx:29-53 | six bars, oldest first, the last for the current month, each holding the total of the expenses in its month |
| SpendingChart.OnlyLastIsCurrent | src/components/SpendingChart.tsx:48-52 | only the last bar is marked current |
| SpendingChart.EmptyMonthIsZero | src/components/SpendingChart.tsx:51 | a month in which no expense is dated shows 0 |
| SpendingChart.BarsTotalIsKeySum | src/components/SpendingChart.tsx:49-53 | the bars' amounts add up to the sum of their months' totals |
| SpendingChart.ChartBarsTotal | src/components/SpendingChart.tsx:39-53 | the bars add up to the spending dated inside the window: expenses outside it contribute nothing |
| SpendingChart.HasDataIff | src/components/SpendingChart.tsx:55 | the chart has data exactly when some expense dated inside the window has a positive amount |
| SpendingChart.ComputeBars | src/components/SpendingChart.tsx:28-53 | the window loop, the per-month accumulation and the mapping compute the bars |
| SpendingChart.BarsFrom | src/components/SpendingChart.tsx:49-53 | looking each key up in the per-month dictionary, with 0 for a missing key, gives the bars |
| SentimentInsights.BuildTotals | src/components/SentimentInsights.tsx:84-93 | the two loops leave every sentiment with the count of the expenses carrying it and the sum of their amounts |
| SentimentInsights.OnlyLabeledCount | src/components/SentimentInsights.tsx:57 | untagged expenses are never counted: tallying all expenses or only the tagged ones gives the same |
| SentimentInsights.TallyIsFiltered | src/components/SentimentInsights.tsx:88-93 | a sentiment's count is the number of expenses tagged with it, and its amount is their sum |
| SentimentInsights.TalliesCover | src/components/SentimentInsights.tsx:84-95 | the four counts add up to the number of tagged expenses and the four amounts to `totalLabeled` |
| SentimentInsights.SavingsAreAvoidable | src/components/SentimentInsights.tsx:97-99 | the savings are exactly the total of the expenses tagged Regret or "Skip next time", at most the tagged total |
| SentimentInsights.MonthlySavingsSpec | src/components/SentimentInsights.tsx:102-104 | the month count is the number of distinct "YYYY-MM" prefixes; the monthly savings are the exact mean over them, 0 without tagged expenses |
| SentimentInsights.RowsOfSpec | src/components/SentimentInsights.tsx:144-153 | each row shown is the row of a listed sentiment with a positive count, every such sentiment has its row, and the rows keep the display order |
| SentimentInsights.RowsOfShow | src/components/SentimentInsights.tsx:144-153 | every row returned belongs to a listed sentiment with a positive count |
| SentimentInsights.RowsOfComplete | src/components/SentimentInsights.tsx:153 | no listed sentiment with a positive count is left without a row |
| SentimentInsights.RowsOfOrdered | src/components/SentimentInsights.tsx:144 | rows follow the order of the sentiment list |
| SentimentInsights.SentimentsRanked | src/types/index.ts:12-17 | the sentiment list is in display order |
| SentimentInsights.RowShownIff | src/components/SentimentInsights.tsx:153 | a sentiment has a row exactly when its count is positive, and the rows follow the display order |
| SentimentInsights.RowsSpec | src/components/SentimentInsights.tsx:148-153 | a sentiment has a row exactly when some expense carries it; its share is at most 100, and 0 when the tagged total is 0 |
| SentimentInsights.TaggedPercent | src/components/SentimentInsights.tsx:195 | the tagged share is at most 100, is 100 when every expense is tagged, and is 0 only when under half a percent is tagged |
| SentimentInsights.CardSpec | src/components/SentimentInsights.tsx:57-104 | the breakdown appears exactly when some expense is tagged; its share is then at most 100 (100 when all are tagged) and the savings are at most the tagged total |
| SentimentInsights.BuildRows | src/components/SentimentInsights.tsx:144-153 | the loop over the sentiments, reading the totals table, produces the rows |
| SentimentInsights.ComputeCard | src/components/SentimentInsights.tsx:57-153 | the step-by-step computation produces the card |
| ExpenseMap.LocatedSpec | src/components/ExpenseMap.tsx:39 | the located expenses are exactly those with a location; with the others they make up the whole list, in count and in amount |
| ExpenseMap.TotalLocated | src/components/ExpenseMap.tsx:55 | `totalLocated` is the sum of the located amounts and never exceeds the overall total |
| ExpenseMap.MaxAmount | src/components/ExpenseMap.tsx:54 | the maximum is at least one dollar and at least every amount, and is either one dollar or one of the amounts |
| ExpenseMap.RadiusSpec | src/components/ExpenseMap.tsx:80-83 | every radius lies in [8, 30]; the largest amount gets 30; a larger amount never gets a smaller circle; inside the bounds the radius is proportional to the amount |
| ExpenseMap.MarkersOf | src/components/ExpenseMap.tsx:79-89 | one marker per located expense, in order, with its clamped radius |
| ExpenseMap.SumLatBetween | src/components/ExpenseMap.tsx:49 | latitudes between two bounds add up to between `n` times each bound |
| ExpenseMap.SumLngBetween | src/components/ExpenseMap.tsx:50 | longitudes between two bounds add up to between `n` times each bound |
| ExpenseMap.MeanBetween | src/components/ExpenseMap.tsx:49-50 | a mean of values between two bounds lies between them |
| ExpenseMap.MeansBetween | src/components/ExpenseMap.tsx:46-51 | the mean latitude and longitude lie in every box that holds all the located points |
| ExpenseMap.LatMeanBetween | src/components/ExpenseMap.tsx:49 | the mean latitude lies between any bounds of the latitudes |
| ExpenseMap.LngMeanBetween | src/components/ExpenseMap.tsx:50 | the mean longitude lies between any bounds of the longitudes |
| ExpenseMap.CenterSpec | src/components/ExpenseMap.tsx:46-52 | with nothing located the centre is (39.8283, -98.5795); otherwise it lies in every box holding all the located points |
| ExpenseMap.LegendOfSpec | src/components/ExpenseMap.tsx:139-145 | each legend row is a listed category with its positive count, every listed category with a located expense has its row, and the counts add up |
| ExpenseMap.LegendTotalAppend | src/components/ExpenseMap.tsx:139-145 | the legend counts of two runs of rows add up |
| ExpenseMap.LegendSpec | src/components/ExpenseMap.tsx:139-145 | a category is in the legend exactly when a located expense has it, with the number of such expenses, and the counts sum to the number located |
| ExpenseMap.ViewOf | src/components/ExpenseMap.tsx:39-89 | nothing but "loading" until loaded; then the bounds are fitted exactly when something is located, with one marker per located expense and every radius in [8, 30] |
| ExportCsv.HeaderFieldsPlain | src/lib/export.ts:4 | no column name holds a comma or a newline |
| ExportCsv.HeaderColumns | src/lib/export.ts:4 | the header line is one line that splits back into exactly Date, Amount, Category, Sentiment, Location, Description |
| ExportCsv.AmountText | src/lib/export.ts:7 | the amount is digits, a point and exactly two decimals |
| ExportCsv.AmountTextInjective | src/lib/export.ts:7 | two decimals lose nothing for whole cents: different amounts print differently |
| ExportCsv.Escape | src/lib/export.ts:11 | escaping adds one character per double quote |
| ExportCsv.Quote | src/lib/export.ts:11 | the description field is wrapped in double quotes around the escaped text |
| ExportCsv.UnescapeEscape | src/lib/export.ts:11 | reading an escaped text back gives the original |
| ExportCsv.EscapeUnescape | src/lib/export.ts:11 | a text that reads back as `d` is exactly the escape of `d` |
| ExportCsv.UnquoteQuote | src/lib/export.ts:11 | unquoting the description field gives back the description |
| ExportCsv.QuoteUnquote | src/lib/export.ts:11 | a field that unquotes to `s` is the quoted `s`, so the quoting is one to one |
| ExportCsv.EscapeAvoids | src/lib/export.ts:11 | escaping adds no character other than the quote |
| ExportCsv.Fields | src/lib/export.ts:5-12 | a row has as many fields as the header |
| ExportCsv.Rows | src/lib/export.ts:5-12 | one row per expense, in input order |
| ExportCsv.GeneratedFieldsPlain | src/lib/export.ts:7-9 | the amount, category and sentiment fields never hold a comma or a newline |
| ExportCsv.AmountTextPlain | src/lib/export.ts:7 | the amount field never holds a comma or a newline |
| ExportCsv.NamesPlain | src/lib/export.ts:8-9 | category and sentiment names hold no comma or newline, and a missing sentiment is empty |
| ExportCsv.RowColumns | src/lib/export.ts:5-14 | when no free-text field holds a comma, a row splits into its six fields in header order |
| ExportCsv.LocationCommaAddsColumns | src/lib/export.ts:10 | each comma in a location name adds one column, since only the description is quoted |
| ExportCsv.RowHasNoNewline | src/lib/export.ts:5-14 | a row holds no newline when its free-text fields hold none |
| ExportCsv.CsvLines | src/lib/export.ts:14 | the text splits on newlines into the header and then one row per expense, in order |
| ExportCsv.RowsPlain | src/lib/export.ts:14 | no row holds a newline when no field does |
| ExportCsv.CsvNoTrailingNewline | src/lib/export.ts:14 | the text never ends with a newline; with rows it ends with the last closing quote |
| ExportCsv.LinesEnd | src/lib/export.ts:14 | lines joined by newlines end with the last character of the last line |
| ExportCsv.HeaderEnds | src/lib/export.ts:4 | the header ends with the last letter of "Description" |
| ExportCsv.RowEnds | src/lib/export.ts:11-14 | a row ends with the closing quote of its description |
| ExportModal.ToggledSpec | src/components/ExportModal.tsx:47-53 | toggling flips the clicked field's membership, leaves every other field's as it was, and appends an absent field at the end |
| ExportModal.ToggleTwice | src/components/ExportModal.tsx:47-53 | toggling the same field twice restores the selection as a set |
| ExportModal.FilterKeepsDistinct | src/components/ExportModal.tsx:50 | filtering a list without repeats leaves a list without repeats |
| ExportModal.ToggledDistinct | src/components/ExportModal.tsx:47-53 | a selection without repeats has none after a toggle either |
| ExportModal.CountInRange | src/components/ExportModal.tsx:36-45 | the count never exceeds the number of expenses |
| ExportModal.CountIsFilterLength | src/components/ExportModal.tsx:36-45 | the count is the length of the list filtered by both bounds |
| ExportModal.CountInRangeSpec | src/components/ExportModal.tsx:36-45 | without bounds every expense counts; the count is 0 exactly when no expense lies in the inclusive range |
| ExportModal.SameRangeAsList | src/components/ExportModal.tsx:38-43 | the dialog's range test is the expense list's date-range filter |
| ExportModal.OrAbsent | src/components/ExportModal.tsx:69-70 | an empty date is passed on as absent and any other date as itself |
| ExportModal.ExportDialog.constructor | src/components/ExportModal.tsx:30-34 | the dialog starts with CSV, every field in canonical order, no range and no summary |
| ExportModal.ExportDialog.ToggleField | src/components/ExportModal.tsx:47-53 | only the selection changes, toggled at the field |
| ExportModal.ExportDialog.SelectAllFields | src/components/ExportModal.tsx:55-57 | the selection becomes every field in canonical order; nothing else changes |
| ExportModal.ExportDialog.DeselectAllFields | src/components/ExportModal.tsx:59-61 | the selection becomes empty; nothing else changes |
| ExportModal.ExportDialog.SetRange | src/components/ExportModal.tsx:32-33 | only the range changes |
| ExportModal.ExportDialog.FilteredCount | src/components/ExportModal.tsx:36-45 | narrowing by each non-empty bound in turn counts the expenses in range |
| ExportModal.ExportDialog.ButtonEnabled | src/components/ExportModal.tsx:228 | export is enabled exactly when some field is selected and some expense is in range |
| ExportModal.ExportDialog.Export | src/components/ExportModal.tsx:63-76 | with no field selected nothing is exported; otherwise the request carries the format, the fields, the range with empty dates absent, and the summary flag |
| LocationPicker.PlaceName | src/components/LocationPicker.tsx:89 | the place name never holds more than two commas |
| LocationPicker.JoinPrefix | src/components/LocationPicker.tsx:89 | joining the first `k` parts gives the start of the whole join, followed by a comma when parts remain |
| LocationPicker.PlaceNameShort | src/components/LocationPicker.tsx:89 | a display name with at most two commas is only trimmed |
| LocationPicker.PlaceNameCut | src/components/LocationPicker.tsx:89 | otherwise the name is the trimmed text before the third comma |
| LocationPicker.HomeFrom | src/components/LocationPicker.tsx:16-23 | a missing, empty or unparsable stored home gives no home; a home comes from parsing the stored text |
| LocationPicker.Picker.constructor | src/components/LocationPicker.tsx:35-45 | the picker starts with an empty search and no results, and reads the home from storage |
| LocationPicker.Picker.SetSearch | src/components/LocationPicker.tsx:121 | only the search text changes |
| LocationPicker.Picker.DoSearch | src/components/LocationPicker.tsx:47-66 | a request is sent exactly when the trimmed query has at least three characters; a short query or a failed request clears the results; an answer replaces them and shows them |
| LocationPicker.Picker.DebounceFires | src/components/LocationPicker.tsx:68-74 | when the debounce timeout fires, the search runs on the current text |
| LocationPicker.Picker.Focus | src/components/LocationPicker.tsx:122 | focusing shows the results again when there are some |
| LocationPicker.Picker.ClickOutside | src/components/LocationPicker.tsx:77-85 | a click outside hides the results and changes nothing else |
| LocationPicker.Picker.SelectResult | src/components/LocationPicker.tsx:87-96 | the chosen location has the derived place name and the parsed coordinates; the search is cleared and the results hidden |
| LocationPicker.Picker.HandleUseHome | src/components/LocationPicker.tsx:98-102 | the home becomes the location exactly when there is one |
| LocationPicker.Picker.HandleSaveAsHome | src/components/LocationPicker.tsx:104-109 | only a selected location is stored and remembered as the home; otherwise nothing changes |
| PetPlayPanel.HappinessColorSpec | src/components/PetPlayPanel.tsx:67-72 | green above 70, amber above 40 up to 70, red at 40 and below; more happiness never gives a worse colour |
| PetPlayPanel.LabelOf | src/components/PetPlayPanel.tsx:213-219 | the button offers a throw exactly when not playing and a treat is left; "Playing..." shows exactly while playing |
| PetPlayPanel.Panel.ConsistentMeaning | src/components/PetPlayPanel.tsx:36-58 | in every reachable stage the pet plays exactly while a timeout is pending, and at most one picture is shown |
| PetPlayPanel.Panel.constructor | src/components/PetPlayPanel.tsx:14-19 | the panel starts idle, not editing, with the input holding the pet's name |
| PetPlayPanel.Panel.HandleThrowBall | src/components/PetPlayPanel.tsx:36-45 | a throw happens exactly when the button is enabled; it plays fetch, shows the ball and schedules the three steps; otherwise nothing changes |
| PetPlayPanel.Panel.TimerFires | src/components/PetPlayPanel.tsx:46-57 | the steps run ball, then run, then return, then idle, each hiding the previous picture; playing ends after the last |
| PetPlayPanel.Panel.StartEditing | src/components/PetPlayPanel.tsx:111 | clicking the name opens the editor and changes nothing else |
| PetPlayPanel.Panel.TypeName | src/components/PetPlayPanel.tsx:100-104 | the input takes the typed text cut to at most 20 characters |
| PetPlayPanel.Panel.HandleSaveName | src/components/PetPlayPanel.tsx:60-63 | the pet is renamed from the input, the editor closes, and the input follows a changed stored name |
| PetView.MoodMatchesBar | src/components/Pet.tsx:13 | happy above 70, content above 40 up to 70, sad otherwise; the same thresholds as the play panel's bar |
| PetView.TailOf | src/components/Pet.tsx:43 | the tail wags fast exactly when happy and not at all exactly when sad |
| PetView.Badge | src/components/Pet.tsx:25-31 | the badge is shown exactly when there is a treat, with the capped label |
| PetView.BadgeLabelSpec | src/components/Pet.tsx:31 | counts up to 99 are shown as their digits and told apart; counts above 99 read "99+"; a label has one to three characters |
| PetView.NatToStringDigits | src/components/Pet.tsx:31 | a count up to 99 is one or two digits |
| PetView.Render | src/components/Pet.tsx:11-43 | nothing is drawn until the pet is loaded; then the mood, tail and badge follow the pet's state |
| PetView.TreatShowsBadge | src/components/Pet.tsx:25-31 | after a treat is added the badge always shows, with the exact count up to 99 |
| Folds.FilterSpec | src/context/ExpenseContext.tsx:80 | `filter` keeps exactly the elements that pass the predicate, and only those |
| Folds.FilterAppend | src/components/SentimentInsights.tsx:57 | filtering a concatenation filters each part |
| Folds.FilterTwice | src/components/ExpenseList.tsx:97-116 | two filters in a row are one filter by both predicates |
| Folds.FilterMultiset | src/context/ExpenseContext.tsx:80 | a filter keeps a sub-multiset of its input |
| Folds.SumAppend | src/context/ExpenseContext.tsx:78 | the summed amount of a concatenation is the sum of the parts |
| Folds.SumPermutation | src/context/ExpenseContext.tsx:78 | reordering the expenses does not change their total |
| Folds.FilterSumBelow | src/context/ExpenseContext.tsx:80-81 | a filtered total never exceeds the full total |
| Folds.FilterSplitSum | src/components/SentimentInsights.tsx:57 | a predicate and its negation split the total and the count |
| Folds.KeyTotalIsFilteredSum | src/context/ExpenseContext.tsx:83-89 | the accumulated total of a key is the sum over exactly the expenses with that key, and its count their number |
| Folds.KeyTotalAbsent | src/components/SpendingChart.tsx:51 | a key no expense has totals 0 |
| Folds.KeyTotalBelowSum | src/components/CategoryChart.tsx:54-60 | a key's total is at most the total of all amounts |
| Folds.KeyCountPositive | src/context/ExpenseContext.tsx:83-89 | a key is counted exactly when some expense has it |
| Folds.KeyTotalPositive | src/components/CategoryChart.tsx:46-52 | a key's total is positive exactly when one of its expenses has a positive amount |
| Folds.KeyTotalFilterKeeps | src/components/SentimentInsights.tsx:57-68 | a filter that keeps every expense of a key keeps that key's total and count |
| Folds.FirstAppearance | src/context/ExpenseContext.tsx:83-92 | the keys of the accumulator object: each key once, exactly the keys that occur |
| Folds.FirstAppearanceOrder | src/context/ExpenseContext.tsx:92 | `Object.entries` lists the keys in the order of their first occurrence |
| Folds.CountDistinct | src/context/ExpenseContext.tsx:96 | `new Set(...).size` is at most the number of values and 0 only for none |
| Folds.CountDistinctIsSetSize | src/context/ExpenseContext.tsx:96 | the distinct count is the size of the set of values |
| Folds.SortDistinct | src/components/CategoryChart.tsx:56-62 | sorting entries with distinct keys keeps them distinct |
| Folds.GroupTotals | src/context/ExpenseContext.tsx:83-89 | the `reduce` into a dictionary: its keys in first-appearance order, each mapped to that key's total |
| Folds.LookupTotal | src/components/SpendingChart.tsx:51 | reading a key with `|| 0` gives its total, 0 for a missing key |
| Folds.SumKeysCover | src/components/CategoryChart.tsx:54 | the totals of all keys add up to the total of all amounts, and their counts to the number of expenses |
| Folds.SumKeysFiltered | src/components/SentimentInsights.tsx:95 | the totals of some keys add up to the total of the expenses with those keys |
| Folds.RoundPercent | src/components/CategoryChart.tsx:60 | `Math.round(100 * v / t)`: the nearest integer with halves rounded up; at most 100 when `v <= t`, 100 at `v == t`, 0 at 0 |
| Folds.RoundPercentBounds | src/components/CategoryChart.tsx:60 | the same facts for the integer formula the model computes |
| Sorting.SortBy | src/components/CategoryChart.tsx:62 | `sort` with a comparator returns a permutation of its input |
| Sorting.InsertPermutes | src/components/ExpenseList.tsx:119 | one insertion step adds exactly the inserted element |
| Sorting.InsertSorted | src/components/ExpenseList.tsx:119 | an insertion into a sorted sequence stays sorted under a total preorder |
| Sorting.SortSorted | src/components/ExpenseList.tsx:119-134 | the output is ordered by the comparator whenever it is a total preorder |
| Sorting.InsertHead | src/context/ExpenseContext.tsx:92 | an insertion keeps the head unless the new element compares strictly smaller |
| Sorting.SortHead | src/context/ExpenseContext.tsx:92 | the first element of the sorted output is a minimal element of the input |
| Text.Trim | src/components/ExpenseForm.tsx:129 | `trim` neither starts nor ends with whitespace and is no longer than its input |
| Text.TrimStartBlank | src/components/ExpenseForm.tsx:129 | what is trimmed at the start is whitespace |
| Text.TrimEndBlank | src/components/ExpenseForm.tsx:129 | what is trimmed at the end is whitespace |
| Text.TrimInfix | src/components/ExpenseForm.tsx:153 | the trimmed text is a contiguous piece of the input |
| Text.TrimEmptyIffBlank | src/components/ExpenseForm.tsx:129 | the trimmed text is empty exactly when the input is all whitespace |
| Text.TrimIdempotent | src/context/PetContext.tsx:115 | trimming twice is trimming once |
| Text.ToLower | src/components/ExpenseList.tsx:99 | lower-casing maps each character and keeps the length |
| Text.IncludesAt | src/components/ExpenseList.tsx:102-103 | `includes` holds exactly when the query occurs at some position |
| Text.LexCmp | src/components/ExpenseList.tsx:123 | the comparison answers -1, 0 or 1 |
| Text.LexCmpAntisymmetric | src/components/ExpenseList.tsx:123 | swapping the arguments negates the comparison, which is 0 only for equal strings |
| Text.LexCmpTransitive | src/components/ExpenseList.tsx:123 | the comparison is transitive |
| Text.LexCmpStrictTransitive | src/app/page.tsx:62-65 | a strict step after a non-strict one stays strict |
| Text.PrefixLe | src/components/ExpenseList.tsx:110-111 | a date sorts at or after each of its prefixes, so a start bound that is a prefix of the date lets it through |
| Text.NatToString | src/components/SpendingChart.tsx:32 | `String(n)` is a non-empty run of digits, one digit exactly below 10 |
| Text.NatToStringLength4 | src/components/SpendingChart.tsx:32 | four-digit years print as four characters |
| Text.Pad2 | src/components/SpendingChart.tsx:32 | `padStart(2, "0")` gives two digits |
| Text.Pad2Injective | src/components/SpendingChart.tsx:32 | different months pad to different texts |
| Text.Pad2Agrees | src/components/SpendingChart.tsx:32 | padding changes nothing from 10 up |
| Text.Split | src/components/LocationPicker.tsx:89 | `split` returns at least one piece |
| Text.CountChar | src/components/LocationPicker.tsx:89 | the count of a character is 0 exactly when it is absent |
| Text.JoinSplit | src/components/LocationPicker.tsx:89 | joining the pieces of a split gives the string back |
| Text.SplitJoin | src/components/LocationPicker.tsx:89 | splitting a join of separator-free pieces gives the pieces back |
| Text.SplitPieces | src/components/LocationPicker.tsx:89 | no piece of a split holds the separator |
| Text.SplitCount | src/components/LocationPicker.tsx:89 | a string splits into one more piece than it has separators |
| Text.JoinCount | src/components/LocationPicker.tsx:89 | a join of n separator-free pieces holds n - 1 separators |
| Text.JoinCountAll | src/lib/export.ts:14 | the separators of a join are those it inserts plus those in the pieces |
| Text.TrimCount | src/components/LocationPicker.tsx:89 | trimming never adds a character |

## Left out

- Browser storage: loading and saving the expense list, the pet and the home location are not modelled; a stored pet or home entry enters as an `Option` parameter, where None stands for a missing or unreadable entry.
- The file download after building the CSV text (the Blob, the object URL and the anchor click) is I/O and is not modelled.
- The export-options module (`exportExpenses`, `ExportOptions`, the full field list and the field labels) is not part of this model: the dialog takes the field type as a type parameter and returns the export request instead of performing it.
- JSON, the UTF-8 text decoder and the gzip streams are foreign code: they are fields of `Share.Runtime`, and only the laws in `Share.Lawful` are assumed of them; whether the browser offers the compression streams is a field of the same value.
- `JSON.parse` accepting objects with extra or missing fields is not modelled: a parsed value is either a list of expenses or a failure.
- The place search is a parameter mapping a query to its results or to a failure; the network request, the URL encoding of the query and the 600 ms debounce timer are not modelled, and the debounce is an event method (`LocationPicker.Picker.DebounceFires`).
- Timers are discrete events: the pet's excitement timeout and the three fetch-animation timeouts fire as method calls in their order, not at times.
- The clock, the current hour, year and month, fresh identifiers and creation timestamps are parameters.
- Intl formatting (`formatCurrency`, `formatDate`, `getMonthYear`, `todayISO`) and the chart's month labels are presentation and are not modelled; the form's default date is a parameter.
- Floating point: amounts are whole cents and coordinates and averages are exact reals, so `toFixed`, double rounding and NaN coordinates are not modelled; `parseFloat` is a parameter returning None for NaN.
- The map centre is the exact mean of the located coordinates; fitting the map to the bounds is rendering and is not modelled.
- `toLowerCase` folds only the ASCII letters, and `localeCompare` on dates and timestamps is code-unit order, which agrees with the locale order on the digit strings the app stores.
- The description's length limit counts characters, not UTF-16 code units; strings holding unpaired surrogates are not modelled.
- The Date constructor's mapping of years 0 to 99 onto 1900 to 1999 is not modelled: the six-month window requires a year of at least 100.
- The date field is checked only for being non-empty, as the form does; that a date is a real calendar date is not checked.
- The in-place `sort` of a copied array is modelled as a stable sort of a sequence (`Sorting.SortBy`); the copy means no caller's list is reordered, so the update in place is not observable.
- The shared page's `catch` branch cannot be taken in the model, because the decoder never fails; a failing decode is the empty list.
- The first part of a location name shown in the list rows (`split(",")[0]`) is presentation and is not modelled.
- JSX, styles and chart and map rendering are presentation and are not modelled.
- PetContext.RestoredSpec: bounds the restored happiness by the saved value only when the clock has not run backwards; when `lastPlayed` lies in the future the decay is negative and happiness rises, as in the source.
- LocationPicker.PlaceName: its own contract only bounds the number of commas; the exact name is stated by `LocationPicker.PlaceNameShort` and `LocationPicker.PlaceNameCut`.
- Share.EncodeExpenses: models the encoder as written, so on Latin-1 text beyond ASCII without compression its token does not decode back, and above the argument limit the compressed path throws; the share-link round trip is proved for the corrected encoder (see Findings).
- Share.Atob and Share.DecodeExpenses: decode strict base64 (section 4 of RFC 4648); the browser's forgiving decoding, which also drops ASCII whitespace, accepts a token without its final `=` and ignores non-zero leftover bits, is not modelled, so such a token decodes to the empty list in the model.
- The engine's argument limit is a field of `Share.Runtime` with no particular value; which sizes fail in which browser is not modelled.
- `JSON.stringify` followed by `JSON.parse` is not assumed to give back every list (a coordinate that is no double does not survive it); the round-trip lemmas require it of the list at hand (`Share.ParsesBack`).

## Findings

| source | as written | input that shows it | evidently intended | confidence | as-written member | corrected member |
|---|---|---|---|---|---|---|
| src/lib/share.ts:37-38 | without compression the token is `btoa(json)`, which stores each character below 256 as one byte, while the decoder reads the bytes as UTF-8 | a list whose JSON holds "é" (for example in a description): `btoa` gives the byte 0xE9, which UTF-8 decoding turns into U+FFFD, so the decoded text is not the JSON that was encoded | encode the UTF-8 bytes of the JSON on the fallback path too, so that decoding inverts encoding for every list | not executed | Share.FallbackManglesLatin1 | Share.RoundTripFixed |
| src/lib/share.ts:34 | the compressed bytes are turned into text by `String.fromCharCode(...compressed)`, one call argument per byte, and a call with more arguments than the engine allows throws a `RangeError` | a list large enough that its gzip output has more bytes than the engine's argument limit (tens to hundreds of thousands, depending on the engine): the promise rejects and no link is made | convert the bytes in pieces (or without a spread), so that every list can be shared | not executed | Share.OversizeEncodingFails | Share.RoundTripFixed |
