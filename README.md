# Procurement automation agent: bid parser, vendor scorer and stage pipeline

This project models the logic of the procurement front end `procurement-agentv3.py`
that is not UI, and proves properties of it:

- **Bid parser** (`analyze_bids`, module `Bids`). It cuts free bid text at every `Bid`
  and skips blank chunks. From each chunk it builds a record: the vendor from the
  first line, the price from the first `Total Cost:` line (0 when that line cannot
  be read), and the first `Lead Time:` line. It then sorts the records by price,
  with a missing price counting as +∞. It is written as a method with the
  source's loop and proved against the specification function `Bids.Records`.
- **Bid chart data** (`create_bid_visualization`, module `Bids`). No chart is drawn
  for an empty list, or when some record lacks a vendor or a price. Otherwise the
  chart gets aligned vendor and price series.
- **Bid text round trip** (module `BidRoundTrip`). Text written as canonical blocks
  (`Bid n: vendor`, then `Total Cost: $125,000`) parses back to exactly those
  vendors and amounts. This is the partner of the parser. The vendor names must
  be ones the layout can carry back (`PlainVendor`): no colon (so no `Total Cost:`
  or `Lead Time:`), no line break, no whitespace at either end, and no `Bid`
  inside. Each of these would change what the parser reads: the colon and the
  line break cut the vendor field, the ends are stripped, and `Bid` starts a new
  chunk. Names such as the sample's "Tech Solutions Ltd." qualify.
- **Vendor scorer** (`analyze_vendor_data`, module `VendorScores`). It groups rating
  rows by vendor and takes the mean of each of the three rating columns. The
  overall score is the mean of those three means, and vendors are ordered best
  first. All arithmetic is on exact reals.
- **Stage pipeline** (module `Pipeline`), which covers:
  - the seven stage keys and the button loop that picks the current stage;
  - template selection with its fallback;
  - the pre-filling of each stage's input from the results of earlier stages;
  - the guarded write of one stage's result into the `progress` map (class
    `Pipeline.Session`).

  The language-model chain is a function parameter that may fail (`None`).

Python's own text semantics are modelled in modules `Text` and `Numbers`:
- `str.strip` over Python's whitespace characters;
- `str.split` with a separator, cutting left to right without overlaps;
- `in` on strings as substring search;
- `str.replace(",", "")`;
- `float` on signed decimal numerals.

Prices and means are exact `real`s.

Two behaviours of the code are easy to misread:
- The vendor ranking is not a stable sort. `sort_values` uses pandas' default
  quicksort, so the model promises nothing about the order of vendors with equal
  overall scores.
- A bid with no `Total Cost:` line has no price and sorts last. A bid whose cost
  line cannot be read gets the price 0 and sorts before every bid with a
  positive price. A cost line such as `$-500` is read as the negative number
  (`Numbers.ParseFloatNegative`).

## Model

| member | source | states |
|---|---|---|
| Text.Split | procurement-agentv3.py:663 | `s.split(sep)` returns at least one piece, the pieces joined with `sep` give back `s`, and no piece contains `sep` |
| Text.SplitUnique | procurement-agentv3.py:663 | for a separator like `Bid` that has no border, any cut of `s` into pieces that join back to `s` and hold no separator is the result of `split`, so every occurrence cuts |
| Text.Strip | procurement-agentv3.py:664 | `str.strip()` leaves no whitespace at either end and turns all-whitespace text into the empty text |
| Text.StripInfix | procurement-agentv3.py:664 | what `strip` keeps is one run of the text, with only whitespace cut off before and after it |
| Text.Without | procurement-agentv3.py:679 | `replace(",", "")` leaves no comma and leaves text without commas unchanged; with `WithoutCount` and `WithoutConcat` this fixes the result on every input |
| Text.WithoutCount | procurement-agentv3.py:679 | every comma is deleted rather than replaced: the text shrinks by exactly the number of commas in it |
| Text.WithoutConcat | procurement-agentv3.py:679 | removing the commas works piece by piece: it distributes over concatenation |
| Text.LinesWith | procurement-agentv3.py:674 | the comprehension keeps exactly the lines that contain the pattern, and no others |
| Text.LinesWithFirst | procurement-agentv3.py:674-676 | the comprehension is empty exactly when no line contains the pattern; otherwise its first entry is the first such line |
| Text.StripPadded | procurement-agentv3.py:676 | `strip()` removes exactly the whitespace around a text that has no whitespace at its own ends |
| Text.StripIdempotent | procurement-agentv3.py:671 | stripping an already stripped text changes nothing |
| Text.Contains | procurement-agentv3.py:674 | Python's `pat in s`, as in `"Total Cost:" in line`; `ContainsIff` states its meaning |
| Text.ContainsIff | procurement-agentv3.py:674 | `pat in s` holds exactly when `pat` occurs at some index of `s` |
| Text.SplitSecondField | procurement-agentv3.py:671 | when `c` occurs, `s.split(c)` has a second piece and it is the text between the first and second `c` (used for `split(":")[1]` and `split("$")[1]`, line 679) |
| Text.StripEmptyIff | procurement-agentv3.py:664 | `bid.strip()` is empty exactly when the chunk is all whitespace |
| Numbers.ParseFloat | procurement-agentv3.py:680 | `float(text)` succeeds exactly when the stripped text, after an optional `+` or `-`, is a decimal numeral (digits, or digits around one point with at least one digit); blank text never parses; a negative value needs a leading `-` |
| Numbers.ParseFloatNegative | procurement-agentv3.py:679-680 | `float` reads a minus sign before digits, as in `-500`, as the negation of the number the digits spell |
| Numbers.ParseSigned | procurement-agentv3.py:680 | `float` on stripped text succeeds exactly on an optionally signed decimal numeral, and a negative value has a leading `-` |
| Numbers.ParseFloatSameStrip | procurement-agentv3.py:680 | two texts that strip to the same text read as the same value, or both fail |
| Numbers.ParseFloatPadded | procurement-agentv3.py:680 | whitespace around the text, as in ` 125000 `, does not change what `float` reads |
| Numbers.ParseFloatPoint | procurement-agentv3.py:679-680 | `float` reads digits around a point, as in `1234.56`, as the whole part plus the fraction digits over the matching power of ten |
| Numbers.ParseFloatNatString | procurement-agentv3.py:680 | `float` reads a plain numeral back as the number it spells |
| Numbers.ParseFloatGrouped | procurement-agentv3.py:679-680 | removing the commas from a thousands-grouped amount such as `125,000` and calling `float` gives the amount |
| Bids.LinesHead | procurement-agentv3.py:670 | `bid.split("\n")[0]` is the text before the first line break |
| Bids.Kept | procurement-agentv3.py:663-665 | the chunks that pass `if not bid.strip(): continue` are exactly the non-blank ones, and no more of them than there are chunks |
| Bids.KeptCounts | procurement-agentv3.py:663-665 | every non-blank chunk is kept as often as it occurs, and no blank one |
| Bids.KeptConcat | procurement-agentv3.py:663-665 | keeping commutes with concatenation, so no chunk moves past another |
| Bids.KeptOne | procurement-agentv3.py:664-665 | a single chunk is kept exactly when it is not blank |
| Bids.RecordsOfKept | procurement-agentv3.py:663-689 | the loop yields exactly one record per non-blank chunk, in chunk order, each parsed from its chunk |
| Bids.RecordsSkipBlank | procurement-agentv3.py:664-665 | a whitespace-only chunk adds no record |
| Bids.RawTextOfChunk | procurement-agentv3.py:667 | each record's raw text is `Bid` followed by its chunk |
| Bids.ParseChunk | procurement-agentv3.py:667-687 | the record of one chunk; its four fields are pinned down by `RawTextOfChunk`, `VendorField`, `PriceField` and `DeliveryField` |
| Bids.VendorOf | procurement-agentv3.py:670-671 | the vendor field of a first line; `VendorField` states when it is present and what it holds |
| Bids.PriceOf | procurement-agentv3.py:677-682 | the price read off a cost line; `PriceOfCases` states its cases and `PriceOfAmount` its value on a canonical line |
| Bids.Records | procurement-agentv3.py:662-689 | the `bids` list after the loop; `RecordsOfKept` and `RecordsSkipBlank` state what it holds |
| Bids.VendorField | procurement-agentv3.py:670-671 | the vendor is present exactly when the first line has a colon, and is then the trimmed text between the first and second colon |
| Bids.PriceField | procurement-agentv3.py:674-676 | the price is absent exactly when no line contains `Total Cost:`; otherwise it is read from the first such line, stripped |
| Bids.PriceOfCases | procurement-agentv3.py:676-682 | a cost line without `$` gives 0; otherwise the text between the first and second `$`, commas removed, is read by `float` and a failure gives 0 |
| Bids.PriceOfAmount | procurement-agentv3.py:676-680 | a line `...$125,000` with no `$` before the amount is read as exactly that amount |
| Bids.DeliveryField | procurement-agentv3.py:685-687 | the lead time is absent exactly when no line contains `Lead Time:`; otherwise it is the first such line, stripped |
| Bids.InsertSorted | procurement-agentv3.py:692 | inserting a record into a price-sorted list keeps it sorted, with a missing price counting as +∞ |
| Bids.InsertPermutes | procurement-agentv3.py:692 | inserting a record adds exactly that record to the multiset of records |
| Bids.SortByPrice | procurement-agentv3.py:692 | `sorted(..., key=price or inf)` returns a permutation of its input, sorted by price |
| Bids.SortStable | procurement-agentv3.py:692 | the sort is stable: records with the same price key keep their input order |
| Bids.AnalyzeBids | procurement-agentv3.py:658-694 | the loop's result is the sorted list of the per-chunk records: sorted by price, a permutation of the records, one per non-blank chunk |
| Bids.ChartData | procurement-agentv3.py:697-705 | a chart exists exactly when the list is non-empty and every record has a vendor and a price; its two series then have the list's length and follow its order |
| Bids.BidChart | procurement-agentv3.py:1118-1123 | the bid view charts the analysed input, and the charted prices ascend |
| BidRoundTrip.BlockRecord | procurement-agentv3.py:663-689 | a canonical block parses to its vendor, its amount and no lead time |
| BidRoundTrip.SplitBidText | procurement-agentv3.py:663 | `split("Bid")` cuts canonical bid text into an empty piece and the block bodies |
| BidRoundTrip.ParseBidText | procurement-agentv3.py:663-689 | text made of canonical blocks parses back to one record per block, with its vendor and amount, in text order |
| BidRoundTrip.TechSolutionsIsPlain | procurement-agentv3.py:968 | the sample vendor "Tech Solutions Ltd." is a name the round trip carries |
| BidRoundTrip.ApexIsPlain | procurement-agentv3.py:977 | the sample vendor "Apex Computers" is a name the round trip carries |
| BidRoundTrip.DigitalEdgeIsPlain | procurement-agentv3.py:986 | the sample vendor "Digital Edge" is a name the round trip carries |
| BidRoundTrip.TwoBids | procurement-agentv3.py:658-694 | with the dearer of two bids written first, the parser lists the cheaper one first and keeps both vendors and prices |
| VendorScores.RowsOf | procurement-agentv3.py:607 | a vendor's group holds only that vendor's rows and is non-empty exactly when the vendor occurs in the table |
| VendorScores.RowsOfCounts | procurement-agentv3.py:607-611 | a vendor's group holds every row of that vendor, as often as the table does, and no other row |
| VendorScores.Mean | procurement-agentv3.py:608-610 | the pandas `'mean'` of one column over a group: the column's sum divided by the group size; `MeanBounds` bounds it |
| VendorScores.ScoreOf | procurement-agentv3.py:607-618 | the result row of one group carries that group's vendor name; `ResultRows` states its means and overall score |
| VendorScores.Aggregate | procurement-agentv3.py:607-618 | one result row per distinct vendor, before sorting; `OneRowPerVendor`, `EveryVendorScored` and `OnlyVendorsScored` state which rows |
| VendorScores.Vendors | procurement-agentv3.py:607 | the group keys are distinct and are exactly the vendor names that occur in the table |
| VendorScores.InsertDescending | procurement-agentv3.py:621 | inserting a row into a list ordered by non-increasing overall score keeps it so ordered |
| VendorScores.InsertPermutes | procurement-agentv3.py:621 | inserting a row adds exactly that row to the multiset of rows |
| VendorScores.SortDescending | procurement-agentv3.py:621 | `sort_values('Overall_score', ascending=False)` returns a permutation ordered by non-increasing overall score |
| VendorScores.AnalyzeVendorData | procurement-agentv3.py:602-623 | the result is ordered by non-increasing overall score, is a permutation of the per-vendor rows, and is empty for an empty table |
| VendorScores.ResultRows | procurement-agentv3.py:607-618 | every result row holds its vendor's three column means, and its overall score is their sum divided by 3 |
| VendorScores.OneRowPerVendor | procurement-agentv3.py:607-611 | no vendor has two result rows |
| VendorScores.EveryVendorScored | procurement-agentv3.py:607-611 | every vendor named in the table has a result row |
| VendorScores.OnlyVendorsScored | procurement-agentv3.py:607-611 | every result row belongs to a vendor named in the table |
| VendorScores.MeanBounds | procurement-agentv3.py:608-610 | a column mean lies within the bounds of the ratings |
| VendorScores.ScoresInRange | procurement-agentv3.py:602-623 | when every rating lies in `[lo, hi]` (the sample data uses `[1, 10]`), so does every mean and every overall score |
| Pipeline.Key | procurement-agentv3.py:817-825 | the key each of the seven stages goes by; `KeyRoundTrip` and `StageOf` show that keys and stages correspond one to one |
| Pipeline.StageOf | procurement-agentv3.py:817-825 | a key that names a stage names the stage whose key it is |
| Pipeline.KeyRoundTrip | procurement-agentv3.py:817-825 | every stage is found again from its key, so no two stages share a key |
| Pipeline.Stages | procurement-agentv3.py:817-825 | the sidebar's button list, in the source's order; `StagesListed` states its contents |
| Pipeline.StagesListed | procurement-agentv3.py:817-825 | the button list has seven entries and names each stage exactly once |
| Pipeline.GetPromptTemplate | procurement-agentv3.py:431-582 | the template has the input variables `context` and `question`; a stage key gets that stage's body and any other key gets the business-to-technical body |
| Pipeline.TemplateOfStage | procurement-agentv3.py:579-582 | every stage gets its own template body |
| Pipeline.Predecessors | procurement-agentv3.py:891-1045 | the stages whose stored results pre-fill a stage's input; `EntryStages` states which stages have none |
| Pipeline.SampleBids | procurement-agentv3.py:967-994 | the sample bid text, character for character; `SeedBidSample` states when it seeds bid evaluation |
| Pipeline.SeedBidSample | procurement-agentv3.py:966-994 | bid evaluation starts with the sample bids exactly when the sample-bid box is ticked |
| Pipeline.Seed | procurement-agentv3.py:891-1045 | the text each stage's input box starts with; the `Seed*` and `Combined*` lemmas state what it reads and what it holds |
| Pipeline.SeedReadsPredecessors | procurement-agentv3.py:891-1045 | a stage's pre-filled input depends on `progress` only at that stage's predecessors |
| Pipeline.SeedNeedsPredecessors | procurement-agentv3.py:891-1045 | a stage with predecessors starts empty unless all of them have results |
| Pipeline.EntryStages | procurement-agentv3.py:891-1045 | a stage's input depends on no earlier result exactly when it is business-to-technical or bid evaluation |
| Pipeline.SeedCopiesPredecessor | procurement-agentv3.py:899-1016 | RFP generation, vendor matching and negotiation strategy start with their predecessor's stored result, verbatim (the blocks at lines 899-907, 915-925 and 1008-1016) |
| Pipeline.Combined | procurement-agentv3.py:944-950 | the two-result f-string (used again at lines 1027-1033), with `Opening`, `Middle` and the constant `Closing` as its fixed parts; `CombinedHoldsBoth` states where the results sit |
| Pipeline.Opening | procurement-agentv3.py:944-945 | the text before the first result: a line break, the indent, the first label, a line break and the indent |
| Pipeline.Middle | procurement-agentv3.py:946-948 | the text between the two results: the blank indented line and the second label |
| Pipeline.CombinedHoldsBoth | procurement-agentv3.py:944-1033 | the combined text holds both results verbatim at fixed offsets, under their labels (the f-strings at lines 944-950 and 1027-1033) |
| Pipeline.CombinedSeeds | procurement-agentv3.py:941-1033 | tender email and risk assessment start with both predecessors' results, in the order of the f-string (lines 941-950 and 1024-1033) |
| Pipeline.LastPressed | procurement-agentv3.py:827-829 | with no button pressed the current stage stays; otherwise it is the stage of the last pressed button |
| Pipeline.Displayed | procurement-agentv3.py:1070-1071 | a result is shown exactly when the current stage has one, and it is that stored result |
| Pipeline.AfterProcess | procurement-agentv3.py:1054-1064 | `progress` after one press of "Process"; `ProcessUpdates` and `ProcessStores` state what changes |
| Pipeline.ProcessUpdates | procurement-agentv3.py:1054-1064 | processing never removes a key and leaves every other stage's result unchanged |
| Pipeline.ProcessStores | procurement-agentv3.py:1054-1064 | `progress` changes only when a stage is shown, the button is pressed, the input is non-empty and the chain answers, and it then holds exactly that answer, which is shown |
| Pipeline.Session.constructor | procurement-agentv3.py:371-375 | the first run has no current stage and an empty `progress` |
| Pipeline.Session.SelectFromButtons | procurement-agentv3.py:827-829 | the button loop sets the current stage to the last pressed button's stage, and leaves it alone when none is pressed |
| Pipeline.Session.LoadSampleRequirements | procurement-agentv3.py:834-843 | the sample button stores the fixed sample requirements text |
| Pipeline.Session.Process | procurement-agentv3.py:1054-1064 | `progress` becomes `AfterProcess` of the old map; what is stored is reported, and nothing changes when nothing is stored |

## Left out

- Streamlit widgets, HTML and CSS, the sidebar and all rendering are UI. Button
  presses, the sample-bid checkbox and the text typed into an input box are
  parameters of the functions and methods that use them. `Pipeline.Seed` gives the value an input box starts with; the user
  may edit it.
- `initialize_rag` and the RetrievalQA, FAISS and Gemini internals of
  `process_procurement_stage` are network and library calls. The chain is the
  parameter `run`, which gets the stage's prompt template and the input and may
  fail. A failure leaves `progress` as it was, as the exception does in the source.
- The prompt template bodies are opaque: `body(s)` stands for a stage's template
  text.
- Plotly figure building, the radar chart's top five, the chart titles and the
  `f"${p:,.2f}"` labels are rendering and float formatting.
- `load_vendor_data` draws random ratings. The rating table is an input;
  `VendorScores.ScoresInRange` takes the `[1, 10]` range as its precondition.
- `_set_env`/`getpass`, `st.cache_*`, the progress-bar sleep loop and the
  commented-out next-stage navigation are environment, caching and cosmetic code.
- Numbers.ParseFloat: the model reads optionally signed decimal numerals. It
  rejects what Python's `float` would also accept: exponents, `_` digit
  separators, `inf`/`nan` and non-ASCII digits. Such prices count as unreadable,
  i.e. 0, where Python would read a value.
- VendorScores.AnalyzeVendorData: tie order among equal overall scores is not
  promised, because pandas' default sort is not stable. Pandas also orders the
  groups by key before sorting; the model forms the groups in order of first
  appearance, which can differ only among ties.
- BidRoundTrip.TwoBids: the parse of the 3-bid sample text (`Pipeline.SampleBids`:
  Digital Edge, Apex, Tech Solutions) is not proved on the literal text. The
  verifier's evaluation of the parser on a literal of that length does not fit
  within the proof budget. The ordering is proved instead for any text built from
  canonical blocks, the two-bid case of this kind and the general round trip.
- Prices and means are exact reals, not binary floats. Python reads a numeral
  beyond the float range as `inf`, which then ties with a missing price; the
  model gives it its exact value. Two prices that round to the same float keep
  their input order in Python's stable sort, while the model may order them by
  their exact values. Means and overall scores are exact, so float rounding
  never decides the vendor ranking in the model.
- Unicode normalisation, casing and encodings do not arise: text is `seq<char>`.
