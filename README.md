# FinancialIntelSuite core, modelled in Dafny

FinancialIntelSuite reads the annual reports of a listed company and turns them into a table of yearly figures. The figures are revenue, costs, profits, earnings per share (EPS), net asset value per share and shareholders. It derives margins and growth rates from them, filters them, writes short insights and a summary, and forecasts a metric a few years ahead. This project models that pipeline as values and proves what each step promises.

- **Common** (`common.dfy`): `Option`, `Result`, absolute value, powers, and compounding at a rate (`Grown`).
- **Text** (`text.dfy`): the string work the extractor does.
  - ASCII lower-casing and substring search.
  - `str(n)` and `int(s)` on digits.
  - The clean-up `re.sub(r'[^\d.]', '', s)` followed by `float`.
  - The `(\d+\.\d+)` capture.
- **Frame** (`frame.dfy`): the DataFrame the pipeline passes around.
  - Rows of a year, a quarter, an industry and optional cells; a table also records which columns it has.
  - Column assignment, boolean-mask selection, `sort_values('Year')` and the annual rows.
- **DataProcessor** (`data_processor.dfy`): `process_financial_data` and `add_growth_rates`.
  - `process_financial_data` derives gross profit, operating income and margins.
  - `add_growth_rates` computes year-over-year growth, with or without the Industry/Quarter grouping.
  - `filter_data` selects by year range and industry and converts LKR to USD.
- **ExtractorYear** (`extractor_year.dfy`): how `extract_data_from_pdf` settles the report's year. It tries the year patterns first, then the two date patterns, then years named in the file name, then the current year.
- **DataExtractor** (`data_extractor.dfy`): the extraction.
  - The `financial_data` and `shareholder_data` dictionaries are classes whose list fields the processors update in place.
  - Covered: the five table processors, the table loop, `extract_from_text` and `extract_data_from_pdf`.
- **EstimatedData** (`estimated_data.dfy`): `generate_estimated_data`.
  - Per-year growth rates with a file-dependent variation.
  - Projection from the reference year 2023 and noise around the projected values.
  - The estimated owners.
- **AiInsights** (`ai_insights.dfy`): `generate_insights` (at most five paragraphs) and `generate_summary`.
  - `generate_summary` produces highlights, a performance quadrant, margins and an outlook from counts of rising and falling indicators.
- **Forecasting** (`forecasting.dfy`): `forecast_metrics`.
  - The checks on the data and the forecast years.
  - The band around a fitted model's forecast.
  - The fallback that compounds the median historical growth rate.
- **Utils** (`utils.dfy`): currency and percentage formatting and the trend colour.

pandas and Python semantics are modelled where they change a result:
- NaN is `None`.
- Growth through `iloc` is a float64 quotient that may be infinite or NaN.
- Growth through `iterrows` raises on a zero divisor.
- `pct_change` fills NaN forward.
- A missing column raises `KeyError`, modelled as an error result or as the fallback output of the caller's `except`.

Every operation takes its input as a value and returns a new one, so "works on a copy of the data" holds by construction.

`extract_data_from_pdf` wraps the report's whole text in a one-column frame before it runs the table processors. With one column, no processor can find a value, so only the text search can produce data (`DataExtractor.NarrowTablesEffect`). When the text search also finds nothing, the code reaches a name that is never defined (`data_extractor.py:186`), and its `except` returns None. The model keeps that behaviour: `DataExtractor.ExtractedData` returns None exactly when no text value was found. `generate_estimated_data` is therefore modelled on its own.

## Model

| member | source | states |
|---|---|---|
| Common.GrownIsPower | FinancialIntelSuite/forecasting.py:202-209 | compounding n times at a rate is multiplying by the n-th power of 1 + rate |
| Common.PowPositive | FinancialIntelSuite/data_extractor.py:641-648 | a positive base has positive powers, so dividing by them is defined |
| Text.Lower | FinancialIntelSuite/data_extractor.py:157 | `str.lower()` on ASCII: upper-case letters move down by 32, every other character stays |
| Text.ContainsAt | FinancialIntelSuite/data_extractor.py:121 | a needle found at some position is contained |
| Text.DigitString | FinancialIntelSuite/data_extractor.py:121 | `str(y)` of a natural number is a non-empty string of digits |
| Text.ParseDigitString | FinancialIntelSuite/data_extractor.py:77 | reading back what `str(n)` printed gives n |
| Text.ParseInt | FinancialIntelSuite/data_extractor.py:76-82 | `int(s)` succeeds iff s is a non-empty string of digits, and is then non-negative |
| Text.CleanNumber | FinancialIntelSuite/data_extractor.py:215 | `re.sub(r'[^\d.]', '', s)` keeps only digits and points |
| Text.CleanNumberKeepsClean | FinancialIntelSuite/data_extractor.py:394 | cleaning a clean string changes nothing |
| Text.CleanNumberAppend | FinancialIntelSuite/data_extractor.py:215 | cleaning works character by character: it distributes over concatenation |
| Text.CleanNumberDrops | FinancialIntelSuite/data_extractor.py:215 | the clean-up drops any character other than a digit or a point, wherever it stands |
| Text.ParseDecimal | FinancialIntelSuite/data_extractor.py:215 | `float` of a cleaned string is non-negative when it succeeds |
| Text.ParseDecimalOfDigits | FinancialIntelSuite/data_extractor.py:395 | a printed natural number reads back as itself |
| Text.FindDecimal | FinancialIntelSuite/data_extractor.py:359 | the capture of `(\d+\.\d+)` is digits, one point and digits, with a digit on each side of the point |
| Text.FindDecimalParses | FinancialIntelSuite/data_extractor.py:359-362 | what the percentage search captures always converts with `float` |
| Frame.SetColumn | FinancialIntelSuite/data_processor.py:86 | assigning a column adds its field, keeps the rows, keys and well-formedness, and changes only that cell in each row |
| Frame.SetColumnCells | FinancialIntelSuite/data_processor.py:86 | every row differs from the input only in the assigned column |
| Frame.Filter | FinancialIntelSuite/data_processor.py:138 | a boolean-mask selection keeps exactly the rows satisfying the mask, as a sub-multiset of the input |
| Frame.FilterKeepsAll | FinancialIntelSuite/data_processor.py:137-142 | a mask every row passes selects the whole table |
| Frame.FilterTwice | FinancialIntelSuite/data_processor.py:136-142 | two successive selections are one selection by both conditions |
| Frame.InsertByYear | FinancialIntelSuite/data_processor.py:70 | inserting into year-ordered rows keeps them ordered and adds exactly that row |
| Frame.SortByYear | FinancialIntelSuite/data_processor.py:70 | `sort_values('Year')` gives the same rows, as a multiset, in year order |
| Frame.SortSorted | FinancialIntelSuite/data_processor.py:70 | sorting rows already in year order changes nothing |
| Frame.SortKeepsWellFormed | FinancialIntelSuite/data_processor.py:70 | sorting keeps the table well formed |
| Frame.AnnualRows | FinancialIntelSuite/ai_insights.py:19-20 | the annual rows are exactly the table's rows of quarter "Annual", in year order |
| DataProcessor.GrowthCell | FinancialIntelSuite/data_processor.py:97-102 | a growth value exists iff both cells are present and the previous one is non-zero; applying it to the previous value gives the current one |
| DataProcessor.Percent | FinancialIntelSuite/data_processor.py:101 | `(curr - prev) / prev * 100` is the rate g with curr = prev * (1 + g/100) |
| DataProcessor.LastWithKey | FinancialIntelSuite/data_processor.py:90-98 | the row before position n in the same Industry/Quarter group: same key, and no row of that key in between; none when the group has no earlier row |
| DataProcessor.IndicesWithKey | FinancialIntelSuite/data_processor.py:90-95 | the index of one group: ascending positions, every one of that key, and every row of that key listed |
| DataProcessor.GroupPredecessor | FinancialIntelSuite/data_processor.py:96-98 | within a group, the member listed before another is the nearest earlier row of that group |
| DataProcessor.GrowthColumn | FinancialIntelSuite/data_processor.py:83-111 | one growth cell per row, each measured against the row growth is taken against |
| DataProcessor.FillGroup | FinancialIntelSuite/data_processor.py:92-102 | one group's loop writes each member but the first with its growth against the member before it, and no cell outside the group |
| DataProcessor.NextGroup | FinancialIntelSuite/data_processor.py:90-102 | after one more group the cells of the groups done so far hold their final growth |
| DataProcessor.FillGroups | FinancialIntelSuite/data_processor.py:86-102 | the groupby loop leaves every group's cells final |
| DataProcessor.FillInOrder | FinancialIntelSuite/data_processor.py:103-111 | without grouping columns each row's growth is against the row before it |
| DataProcessor.GrowthColumnOf | FinancialIntelSuite/data_processor.py:84-111 | the column written cell by cell equals the growth column |
| DataProcessor.GrowthAgainstNearest | FinancialIntelSuite/data_processor.py:90-101 | growth at a row is its growth against the nearest earlier row of its group |
| DataProcessor.FirstOfGroupHasNoGrowth | FinancialIntelSuite/data_processor.py:86-96 | the first row of each group keeps NaN |
| DataProcessor.GrowthColumnSame | FinancialIntelSuite/data_processor.py:90-102 | growth depends only on the group keys and the metric's own column |
| DataProcessor.AddGrowthShape | FinancialIntelSuite/data_processor.py:83-86 | key columns and row count kept; exactly the growth column of each present metric is added |
| DataProcessor.AddGrowthKeepsCells | FinancialIntelSuite/data_processor.py:83-111 | no cell outside the growth columns changes |
| DataProcessor.AddGrowthCells | FinancialIntelSuite/data_processor.py:83-111 | each present metric's growth column is the growth column of its rows |
| DataProcessor.AddGrowthRates | FinancialIntelSuite/data_processor.py:62-117 | the metric-by-metric loop yields the sorted table with growth columns, or the input when sorting a group raises |
| DataProcessor.GrowthRatesOrder | FinancialIntelSuite/data_processor.py:68-70 | the rows are a permutation of the input's, sorted by year when there is a Year column, and stay well formed |
| DataProcessor.GrowthRatesCells | FinancialIntelSuite/data_processor.py:62-113 | only growth columns change, and each holds the growth against the previous row of its group (or the previous row) |
| DataProcessor.GrowthRatesCell | FinancialIntelSuite/data_processor.py:96-111 | one growth cell of the result is the growth at that position of the ordered rows |
| DataProcessor.GrowthSeriesExample | FinancialIntelSuite/data_processor.py:62-113 | revenue 100, 110, 121 in one group grows by NaN, 10 % and 10 % |
| DataProcessor.AtLabel | FinancialIntelSuite/data_processor.py:102-111 | `.at[label, column] = v` sets every row carrying the label and leaves the others |
| DataProcessor.GroupAtLabelsDistinct | FinancialIntelSuite/data_processor.py:92-102 | with distinct labels, one group's loop as written sets exactly its members that have a growth, and no row outside the group |
| DataProcessor.GroupsAtLabelsIsGrowth | FinancialIntelSuite/data_processor.py:86-102 | with distinct labels, the groupby loop as written, over each group key once, gives the growth column |
| DataProcessor.InOrderAtLabelsDistinct | FinancialIntelSuite/data_processor.py:103-111 | with distinct labels, the ungrouped loop as written gives the growth column |
| DataProcessor.SharedLabelWrites | FinancialIntelSuite/data_processor.py:96-102 | three rows of one group all labelled 0 all end up with the group's last growth |
| DataProcessor.ConcatenatedSeriesGrowth | FinancialIntelSuite/data_processor.py:86-102 | on the revenue series 100, 110, 121 with every row labelled 0, the loop as written gives 10 % in every row, where the first year's growth is NaN |
| DataProcessor.Minus | FinancialIntelSuite/data_processor.py:35 | a difference exists iff both cells do, and adding back the subtrahend gives the minuend |
| DataProcessor.PercentOf | FinancialIntelSuite/data_processor.py:43 | a margin exists iff both cells do and revenue is non-zero, and margin * revenue = part * 100 |
| DataProcessor.Differences | FinancialIntelSuite/data_processor.py:35 | the column difference, row by row |
| DataProcessor.Margins | FinancialIntelSuite/data_processor.py:42-51 | the column margin, row by row |
| DataProcessor.GrossStep | FinancialIntelSuite/data_processor.py:34-35 | Gross_Profit is added exactly when it is missing and Revenue and Cost_of_Sales exist |
| DataProcessor.OperatingStep | FinancialIntelSuite/data_processor.py:38-39 | Operating_Profit is added exactly when it is missing and Gross_Profit and Operating_Expenses exist |
| DataProcessor.MarginStep | FinancialIntelSuite/data_processor.py:42-51 | a margin column exists afterwards when its numerator and Revenue exist |
| DataProcessor.Derived | FinancialIntelSuite/data_processor.py:33-51 | derivation keeps the row count, the key columns and well-formedness |
| DataProcessor.DerivedColumns | FinancialIntelSuite/data_processor.py:33-51 | the columns afterwards: the input's, each profit iff derivable, each margin iff given or computable, nothing else |
| DataProcessor.DerivedKeepsReported | FinancialIntelSuite/data_processor.py:33-51 | reported non-margin cells, the year and the keys are never overwritten |
| DataProcessor.DerivedProfits | FinancialIntelSuite/data_processor.py:33-39 | a missing gross profit is revenue minus cost of sales; a missing operating profit is gross profit minus operating expenses |
| DataProcessor.DerivedMargins | FinancialIntelSuite/data_processor.py:41-51 | a computed margin is its row's numerator over revenue times 100; an uncomputed one keeps its value |
| DataProcessor.ProcessFinancialData | FinancialIntelSuite/data_processor.py:5-56 | derivation followed by add_growth_rates |
| DataProcessor.DeriveColumns | FinancialIntelSuite/data_processor.py:33-51 | the column assignments in order give the derived table |
| DataProcessor.DeriveProfits | FinancialIntelSuite/data_processor.py:33-39 | gross then operating profit |
| DataProcessor.DeriveMargins | FinancialIntelSuite/data_processor.py:41-51 | the three margins in order |
| DataProcessor.ToUsd | FinancialIntelSuite/data_processor.py:148-160 | a converted amount times 200 is the LKR amount; NaN stays NaN |
| DataProcessor.ConvertColumn | FinancialIntelSuite/data_processor.py:159-160 | only LKR rows' cells of that column are divided by the rate |
| DataProcessor.SetCurrency | FinancialIntelSuite/data_processor.py:163 | every row gets the selected currency and nothing else changes |
| DataProcessor.SelectRows | FinancialIntelSuite/data_processor.py:136-142 | the year filter then the industry filter give the selected rows |
| DataProcessor.FilterData | FinancialIntelSuite/data_processor.py:119-165 | selection followed by the conversion when USD is selected and some row is in LKR |
| DataProcessor.ConvertPrefixCell | FinancialIntelSuite/data_processor.py:156-160 | after converting some metric columns an LKR row's converted cell is divided by the rate and every other cell kept |
| DataProcessor.FilteredRows | FinancialIntelSuite/data_processor.py:136-165 | the rows kept are exactly the input rows passing both selections, as a sub-multiset, in the same number after conversion and with the same keys |
| DataProcessor.FilteredMatchesSelection | FinancialIntelSuite/data_processor.py:136-142 | every row left has a selected year and the selected industry, where those selections apply |
| DataProcessor.FilterWithoutSelection | FinancialIntelSuite/data_processor.py:132-165 | with no selection and no USD the table comes back unchanged |
| DataProcessor.FilteredConversion | FinancialIntelSuite/data_processor.py:144-163 | after conversion every row is in USD, LKR rows' metric cells are divided by the rate, every other cell is kept |
| ExtractorYear.PagesSearched | FinancialIntelSuite/data_extractor.py:51 | at most the first ten pages, all of them when there are fewer |
| ExtractorYear.Expand | FinancialIntelSuite/data_extractor.py:71-74 | a two-character capture gets "20" in front; any other is kept |
| ExtractorYear.Candidate | FinancialIntelSuite/data_extractor.py:76-82 | a capture gives a year iff its expansion parses as an integer in 2019..2024 |
| ExtractorYear.CandidateTwoDigits | FinancialIntelSuite/data_extractor.py:73-78 | a two-digit capture "dd" stands for 2000 + dd and is accepted iff 19 <= dd <= 24 |
| ExtractorYear.FirstCandidateIsEarliest | FinancialIntelSuite/data_extractor.py:67-88 | the scan gives the earliest acceptable capture's year and nothing only when no capture is acceptable |
| ExtractorYear.ScanCaptures | FinancialIntelSuite/data_extractor.py:51-88 | the three nested loops with their breaks give the first acceptable capture |
| ExtractorYear.DateYear | FinancialIntelSuite/data_extractor.py:103-110 | a date gives a year only from a four-digit third or first group in 2019..2024 |
| ExtractorYear.FirstDateYear | FinancialIntelSuite/data_extractor.py:102-110 | a page gives nothing iff none of its dates gives a year |
| ExtractorYear.ScanPagesFirst | FinancialIntelSuite/data_extractor.py:98-112 | starting with no year, the page loop gives nothing iff no page has a dated year, else the year of a searched page |
| ExtractorYear.DatesYearChoice | FinancialIntelSuite/data_extractor.py:91-112 | the year-first pattern is still tried after the day-first one found a year, on the first page only, and wins there |
| ExtractorYear.ScanDates | FinancialIntelSuite/data_extractor.py:91-112 | the two date loops as written give the date year |
| ExtractorYear.ScanPage | FinancialIntelSuite/data_extractor.py:100-110 | the capture loop of one page stops at its first dated year |
| ExtractorYear.NameYearFrom | FinancialIntelSuite/data_extractor.py:120-123 | the first year from 2019 on whose digits occur in the file name; none when no year does |
| ExtractorYear.ScanName | FinancialIntelSuite/data_extractor.py:120-123 | the loop over 2019..2024 gives the year found in the name |
| ExtractorYear.ResolvedYear | FinancialIntelSuite/data_extractor.py:114-128 | a detected year in 2019..2024 wins; any other result is in 2019..2024 or the clock's year, and one outside the range means no year was in the file name and the clock is before 2019 |
| ExtractorYear.ResolveYear | FinancialIntelSuite/data_extractor.py:49-128 | the whole detection chain gives the resolved year |
| ExtractorYear.ResolvedYearBounds | FinancialIntelSuite/data_extractor.py:114-128 | the year is never after 2024 and is outside 2019..2024 only when it is the clock's year |
| ExtractorYear.GivenYearWins | FinancialIntelSuite/data_extractor.py:49-50 | a supplied year of the dataset is used whatever the report says |
| ExtractorYear.GivenOutOfRange | FinancialIntelSuite/data_extractor.py:49-128 | a supplied year outside 2019..2024 skips the search: the file name or the clock decides |
| ExtractorYear.PatternYearWins | FinancialIntelSuite/data_extractor.py:50-88 | with no year supplied, the earliest acceptable year-pattern capture decides |
| ExtractorYear.FirstCandidateAt | FinancialIntelSuite/data_extractor.py:67-82 | a capture accepted with none accepted before it is the one found |
| DataExtractor.Empty | FinancialIntelSuite/data_extractor.py:22-35 | the dictionary starts with every list empty and aligned |
| DataExtractor.NewCell | FinancialIntelSuite/data_extractor.py:277-283 | a new row's metric cell holds a value iff that metric was found |
| DataExtractor.Appended | FinancialIntelSuite/data_extractor.py:404-412 | appending keeps the lists aligned and adds exactly one row |
| DataExtractor.AppendedRow | FinancialIntelSuite/data_extractor.py:404-412 | the new row is for the year, quarter "Annual", industry "All", currency "LKR", with the found values and NaN elsewhere; earlier rows are kept |
| DataExtractor.AppendedCells | FinancialIntelSuite/data_extractor.py:409-412 | a metric list gains the new row's cell and keeps the earlier ones |
| DataExtractor.IndexOf | FinancialIntelSuite/data_extractor.py:401 | `list.index(y)` is the first position holding y |
| DataExtractor.Upserted | FinancialIntelSuite/data_extractor.py:400-412 | after an upsert the year is present and at most one row was added |
| DataExtractor.UpsertExisting | FinancialIntelSuite/data_extractor.py:400-402 | for a year already present only the found metrics of its first row change |
| DataExtractor.UpsertNew | FinancialIntelSuite/data_extractor.py:403-412 | for a new year the upsert is the append |
| DataExtractor.UpsertedList | FinancialIntelSuite/data_extractor.py:264-269 | one metric list after an upsert into an existing year: the first row of the year takes the found value |
| DataExtractor.UpsertLastWins | FinancialIntelSuite/data_extractor.py:298-310 | a second upsert of the same metric for the same year overwrites the first |
| DataExtractor.UpsertKeepsYearsDistinct | FinancialIntelSuite/data_extractor.py:400-408 | upserts never repeat a year |
| DataExtractor.FinancialData.Append | FinancialIntelSuite/data_extractor.py:404-412 | the dictionary's lists gain the appended row |
| DataExtractor.FinancialData.Upsert | FinancialIntelSuite/data_extractor.py:400-412 | the dictionary becomes the upserted one |
| DataExtractor.ExtendLists | FinancialIntelSuite/data_extractor.py:410-412 | every metric list gets the found value or NaN appended |
| DataExtractor.AssignLists | FinancialIntelSuite/data_extractor.py:268-269 | the found metrics are assigned at the index and every other list is kept |
| DataExtractor.CellNumber | FinancialIntelSuite/data_extractor.py:215 | a cell's number after stripping everything but digits and points is never negative |
| DataExtractor.CleanedExample | FinancialIntelSuite/data_extractor.py:215 | "2.5%" reads as 2.5 |
| DataExtractor.SeparatorDropped | FinancialIntelSuite/data_extractor.py:215 | a character other than a digit or a point, a thousands separator say, never changes the number a cell reads as |
| DataExtractor.FirstPositive | FinancialIntelSuite/data_extractor.py:211-228 | the value found is positive, and a row of at most one cell gives none |
| DataExtractor.FirstPositiveIsFirst | FinancialIntelSuite/data_extractor.py:211-226 | the value is the number of a cell among columns 1 to 4, and no earlier cell there holds a positive number |
| DataExtractor.FirstPositiveCell | FinancialIntelSuite/data_extractor.py:211-228 | the column loop with its break gives the first positive number |
| DataExtractor.RowValue | FinancialIntelSuite/data_extractor.py:209-216 | a row gives a positive value only when it has two cells and mentions a keyword |
| DataExtractor.RowValueOf | FinancialIntelSuite/data_extractor.py:209-228 | the row body computes the row's value |
| DataExtractor.Hits | FinancialIntelSuite/data_extractor.py:208-228 | at most one positive value per row |
| DataExtractor.NarrowTableHits | FinancialIntelSuite/data_extractor.py:211 | a table of single cells yields no value |
| DataExtractor.AppendAllRows | FinancialIntelSuite/data_extractor.py:208-226 | one appended row per value, each for the year and holding that value, earlier rows kept |
| DataExtractor.RevenueTableRepeatsYear | FinancialIntelSuite/data_extractor.py:216-221 | the revenue table adds a second row for a year already present |
| DataExtractor.UpsertAllLast | FinancialIntelSuite/data_extractor.py:290-311 | repeated upserts of one metric for one year leave the last value only |
| DataExtractor.UpsertedHolds | FinancialIntelSuite/data_extractor.py:264-283 | after an upsert the first row of the year holds every found value |
| DataExtractor.HitsLast | FinancialIntelSuite/data_extractor.py:208 | the hits of a table are those of its rows but the last, then the last row's |
| DataExtractor.TableStoredAppends | FinancialIntelSuite/data_extractor.py:208-226 | the revenue row loop appends exactly the table's hits |
| DataExtractor.TableStoredUpserts | FinancialIntelSuite/data_extractor.py:290-311 | the EPS and net-asset row loops upsert exactly the table's hits, in order |
| DataExtractor.NarrowTableStored | FinancialIntelSuite/data_extractor.py:211 | a table of single cells stores nothing |
| DataExtractor.ProcessKeywordRows | FinancialIntelSuite/data_extractor.py:208-228 | the shared row loop leaves the dictionary as the stored table |
| DataExtractor.ProcessRevenueTable | FinancialIntelSuite/data_extractor.py:204-230 | every revenue hit appends a row |
| DataExtractor.ProcessEpsData | FinancialIntelSuite/data_extractor.py:287-315 | every EPS hit upserts the year's EPS |
| DataExtractor.ProcessNetAssetData | FinancialIntelSuite/data_extractor.py:317-345 | every net-asset hit upserts the year's net asset value per share |
| DataExtractor.RowItems | FinancialIntelSuite/data_extractor.py:247-259 | a row only adds or overwrites found line items |
| DataExtractor.FoundItemsPositive | FinancialIntelSuite/data_extractor.py:246-259 | every found line item is positive |
| DataExtractor.RowItemsPositive | FinancialIntelSuite/data_extractor.py:247-259 | a row's items are positive or carried over |
| DataExtractor.FindItems | FinancialIntelSuite/data_extractor.py:244-259 | the row and item loops build the found items |
| DataExtractor.IncomeStoredHolds | FinancialIntelSuite/data_extractor.py:261-283 | every found line item lands, positive, in the first row of the year |
| DataExtractor.ProcessIncomeStatement | FinancialIntelSuite/data_extractor.py:232-285 | the found items are upserted together, or nothing is stored |
| DataExtractor.NarrowTableItems | FinancialIntelSuite/data_extractor.py:250 | a table of single cells yields no line item |
| DataExtractor.ShareholderData.Append | FinancialIntelSuite/data_extractor.py:364-366 | the three lists gain the year, the name and the percentage |
| DataExtractor.Holding | FinancialIntelSuite/data_extractor.py:352-366 | a holding is the first cell's name with a percentage in (0, 100] from a row of two or more cells |
| DataExtractor.HoldingOf | FinancialIntelSuite/data_extractor.py:352-368 | the row body computes the row's holding |
| DataExtractor.HoldingsArePercentages | FinancialIntelSuite/data_extractor.py:359-363 | every holding is a valid percentage |
| DataExtractor.HoldersAfterRows | FinancialIntelSuite/data_extractor.py:351-368 | one entry per holding is appended for the year, earlier entries kept |
| DataExtractor.NarrowTableHolders | FinancialIntelSuite/data_extractor.py:352 | a table of single cells holds no shareholder |
| DataExtractor.ProcessShareholderData | FinancialIntelSuite/data_extractor.py:347-370 | the row loop leaves the holders as computed |
| DataExtractor.ProcessTable | FinancialIntelSuite/data_extractor.py:155-174 | one table goes through the processors its first column selects, in the source's order |
| DataExtractor.ProcessTables | FinancialIntelSuite/data_extractor.py:153-174 | the tables are processed in order |
| DataExtractor.NarrowTablesEffect | FinancialIntelSuite/data_extractor.py:140-174 | the one-column frame of the whole text changes neither dictionary |
| DataExtractor.Plausible | FinancialIntelSuite/data_extractor.py:388-418 | the value chosen lies within the plausibility range |
| DataExtractor.PlausibleIsEarliest | FinancialIntelSuite/data_extractor.py:388-418 | it comes from the earliest pattern whose capture converts and is in range |
| DataExtractor.SelectPlausible | FinancialIntelSuite/data_extractor.py:388-418 | the pattern loop stops at the first plausible value |
| DataExtractor.ExtractFromText | FinancialIntelSuite/data_extractor.py:372-540 | revenue, EPS, net profit and gross profit are upserted in turn; the result says whether any was found |
| DataExtractor.FromTextCell | FinancialIntelSuite/data_extractor.py:388-537 | from an empty dictionary the single row holds, per metric, the value the text gives |
| DataExtractor.FromTextSingleRow | FinancialIntelSuite/data_extractor.py:388-537 | from an empty dictionary there is one row for the year iff some value was found, and then it holds exactly the found values |
| DataExtractor.ExtractedData | FinancialIntelSuite/data_extractor.py:9-202 | a table that comes back has a list for every metric, all as long as the year list |
| DataExtractor.ExtractedDataRow | FinancialIntelSuite/data_extractor.py:9-202 | a table comes back iff a text search found a plausible value, with one row for the resolved year |
| DataExtractor.ExtractDataFromPdf | FinancialIntelSuite/data_extractor.py:9-202 | the year, the table loop and the text search give the extracted data |
| EstimatedData.Variation | FinancialIntelSuite/data_extractor.py:560-566 | the variation lies in [0.8, 1.2) and is 1.0 without a path |
| EstimatedData.YearRates | FinancialIntelSuite/data_extractor.py:579-621 | every rate keeps 1 + rate positive; all five rates are positive except in 2020, where all but the expense rate are negative |
| EstimatedData.ShrunkIsPower | FinancialIntelSuite/data_extractor.py:641-648 | the backward loop divides by the n-th power of 1 + rate |
| EstimatedData.ProjectedInverse | FinancialIntelSuite/data_extractor.py:633-648 | compounding d years back undoes compounding d years forward, and conversely |
| EstimatedData.GrowThenShrink | FinancialIntelSuite/data_extractor.py:634-648 | dividing n times undoes multiplying n times |
| EstimatedData.ShrinkThenGrow | FinancialIntelSuite/data_extractor.py:634-648 | multiplying n times undoes dividing n times |
| EstimatedData.ProjectedDirection | FinancialIntelSuite/data_extractor.py:633-648 | a positive value moves above the reference iff the rate and the direction of time have the same sign, and never stays on it |
| EstimatedData.Compound | FinancialIntelSuite/data_extractor.py:624-648 | the two loops update all five quantities together, once per year between 2023 and the year |
| EstimatedData.WithNoise | FinancialIntelSuite/data_extractor.py:650-668 | gross and operating profit are recomputed from the noisy values; net profit is 85 % of the noiseless operating profit times its own draw |
| EstimatedData.ReferenceYear | FinancialIntelSuite/data_extractor.py:569-577 | for 2023 without noise the record is the reference, with net profit 16.66 rather than the listed 16.8 |
| EstimatedData.RevenueAgainstReference | FinancialIntelSuite/data_extractor.py:579-648 | without noise revenue is above the 2023 reference iff the year is after 2023 or is 2020 |
| EstimatedData.EstimateValues | FinancialIntelSuite/data_extractor.py:671-682 | the generated row sets every metric |
| EstimatedData.EstimateRecord | FinancialIntelSuite/data_extractor.py:557-668 | the arithmetic step by step gives the estimate |
| EstimatedData.ApplyNoise | FinancialIntelSuite/data_extractor.py:650-668 | the derived metrics and the noise, in the source's order |
| EstimatedData.RatesOf | FinancialIntelSuite/data_extractor.py:557-621 | the variation and the rate table give the year's rates |
| EstimatedData.OwnerPercentage | FinancialIntelSuite/data_extractor.py:698-720 | a holding is never below 0.5 |
| EstimatedData.OwnerPercentageUnfloored | FinancialIntelSuite/data_extractor.py:698-709 | for 2019..2024 the floor never applies and a holding stays within five slopes below and 1.25 above its 2020 value |
| EstimatedData.EstimatedHoldings | FinancialIntelSuite/data_extractor.py:698-720 | ten holdings, in the order of the names, each at least 0.5 |
| EstimatedData.AppendHoldingsRows | FinancialIntelSuite/data_extractor.py:717-720 | the entries before are kept and the holdings follow, in order, for the year |
| EstimatedData.GenerateEstimatedData | FinancialIntelSuite/data_extractor.py:546-720 | one appended row holding the estimate and ten appended holdings |
| EstimatedData.AddShareholders | FinancialIntelSuite/data_extractor.py:716-720 | the loop appends the ten holdings |
| EstimatedData.EstimatedRow | FinancialIntelSuite/data_extractor.py:671-682 | the generated row is for the year and holds the estimate's value for every metric |
| AiInsights.FloatGrowth | FinancialIntelSuite/ai_insights.py:31-32 | on Python floats a growth exists iff both revenues do, and applying it to the previous revenue gives the current one |
| AiInsights.Growth | FinancialIntelSuite/ai_insights.py:249-252 | on float64 values a growth is finite iff both values are present and the previous one is non-zero, and is then the rate that turns prev into curr; NaN iff a value is missing or both are zero |
| AiInsights.PercentPositive | FinancialIntelSuite/ai_insights.py:32-33 | a percentage change is positive iff the value rose from a positive start or fell from a negative one |
| AiInsights.GrowthPositive | FinancialIntelSuite/ai_insights.py:351-357 | a float64 growth is above zero iff both values are present and the value rose from a positive start, fell from a negative one, or left zero upwards |
| AiInsights.StepIncreased | FinancialIntelSuite/ai_insights.py:31-34 | a step says "increased" iff revenue rose from a positive previous revenue or fell from a negative one; its size is the absolute growth, NaN iff a revenue is missing |
| AiInsights.RevenueTrend | FinancialIntelSuite/ai_insights.py:23-36 | the loop carrying the previous revenue gives the trend, or nothing when it divides by zero |
| AiInsights.SumOf | FinancialIntelSuite/ai_insights.py:48 | a sum is a number iff every term is, and is non-negative over non-negative terms |
| AiInsights.RevenueConsistentIff | FinancialIntelSuite/ai_insights.py:38-75 | the trend is consistent iff each of the last min(3, n) steps points the way the latest does; otherwise the latest step is reported |
| AiInsights.RevenueConsistentReports | FinancialIntelSuite/ai_insights.py:46-59 | a consistent trend names the latest direction and the years of the recent steps in order, with a mean that is a number iff each size is |
| AiInsights.ProfitabilityOf | FinancialIntelSuite/ai_insights.py:78-105 | the latest year's gross margin is called above the benchmark iff it exceeds 24.5, the net margin iff it exceeds 12.0 |
| AiInsights.Filled | FinancialIntelSuite/ai_insights.py:110 | the forward-filled cell is the last present value so far, missing only when every earlier cell is |
| AiInsights.EpsGrowthOf | FinancialIntelSuite/ai_insights.py:118-133 | no paragraph iff the growth is NaN; significant iff above 15, moderate iff above 0 and not above 15, a decline otherwise |
| AiInsights.EpsChange | FinancialIntelSuite/ai_insights.py:108-116 | with both years' EPS present it is the plain year-on-year growth; NaN when no earlier EPS exists; zero or NaN when the latest EPS is missing, as the forward fill repeats the previous value |
| AiInsights.RatioChange | FinancialIntelSuite/ai_insights.py:140-155 | a change exists iff both years have the cost and a non-zero revenue, and is positive iff the cost's share of revenue rose, zero iff it stayed |
| AiInsights.SameShareStable | FinancialIntelSuite/ai_insights.py:140-161 | a cost that grows in step with revenue reads as stable |
| AiInsights.CostStructureOf | FinancialIntelSuite/ai_insights.py:138-181 | the latest year, with cost of sales and operating expenses each stable under one point of change, an increase from one point up, and a decrease otherwise, NaN included |
| AiInsights.MovementOf | FinancialIntelSuite/ai_insights.py:160-178 | a ratio change under one point either way is stable, one point or more up an increase, anything else (NaN included) a decrease |
| AiInsights.NetAssetOf | FinancialIntelSuite/ai_insights.py:183-205 | a premium iff net assets per share exceed 85; the percentage is non-negative and is the distance from 85 as a share of 85 |
| AiInsights.RevenueSection | FinancialIntelSuite/ai_insights.py:23-75 | one revenue paragraph iff there is a Revenue column and a trend step |
| AiInsights.ProfitabilitySection | FinancialIntelSuite/ai_insights.py:78 | one profitability paragraph iff both margin columns exist and there is an annual row |
| AiInsights.CostSection | FinancialIntelSuite/ai_insights.py:138 | one cost paragraph iff the three columns exist and there are two annual rows |
| AiInsights.NetAssetSection | FinancialIntelSuite/ai_insights.py:183 | one net-asset paragraph iff the column exists and there is an annual row |
| AiInsights.GenerateInsights | FinancialIntelSuite/ai_insights.py:5-212 | the annual rows are selected and the paragraphs written |
| AiInsights.Paragraphs | FinancialIntelSuite/ai_insights.py:22-208 | appending paragraph by paragraph gives the insights of the annual rows |
| AiInsights.InsightsAtMostFive | FinancialIntelSuite/ai_insights.py:15-212 | at most five paragraphs; the fallback text comes alone and exactly when the trend loop raises |
| AiInsights.InsightsSections | FinancialIntelSuite/ai_insights.py:23-205 | each section's paragraph is present iff its columns and enough annual rows are, the EPS one also needing a growth that is a number |
| AiInsights.HighlightOf | FinancialIntelSuite/ai_insights.py:245-287 | the latest value and its currency ("LKR" without a Currency column); with a previous year, "increase" iff the growth is at least zero |
| AiInsights.HighlightMissingValue | FinancialIntelSuite/ai_insights.py:259-262 | a value missing in either year gives a NaN growth, which reads "decrease" |
| AiInsights.Highlights | FinancialIntelSuite/ai_insights.py:245-287 | one highlight per metric that is a column, in order, and no other |
| AiInsights.SignOf | FinancialIntelSuite/ai_insights.py:304-311 | a float64 growth compares above zero, at most zero, or neither; only NaN is neither |
| AiInsights.CellSign | FinancialIntelSuite/ai_insights.py:327-334 | a margin change is above zero or at most zero when it is a number, and neither when it is NaN |
| AiInsights.QuadrantOf | FinancialIntelSuite/ai_insights.py:304-334 | the first branch whose test holds: both above zero, the first only, the second only; every other pair, a NaN on either side included, falls to the last branch |
| AiInsights.PerformanceOf | FinancialIntelSuite/ai_insights.py:295-311 | a performance statement iff Net_Profit and Revenue are columns and there is a previous year |
| AiInsights.PerformanceQuadrants | FinancialIntelSuite/ai_insights.py:296-311 | each statement iff its pair of growth tests holds, NaN failing both `> 0` and `<= 0`; a NaN growth on either side gives "declines in both" |
| AiInsights.PerformanceMissingValue | FinancialIntelSuite/ai_insights.py:297-311 | a profit or revenue missing in either year gives "declines in both" |
| AiInsights.MarginsOf | FinancialIntelSuite/ai_insights.py:314-334 | a margin statement iff both margin columns exist, reporting the latest margins, with a trend iff there is a previous year |
| AiInsights.MarginQuadrants | FinancialIntelSuite/ai_insights.py:321-334 | each trend iff its pair of margin-change tests holds; a NaN change on either side gives "compression at both levels" |
| AiInsights.MarginMissingValue | FinancialIntelSuite/ai_insights.py:321-334 | a margin missing in either year gives "compression at both levels" |
| AiInsights.Present | FinancialIntelSuite/ai_insights.py:349-371 | the metrics counted are exactly the outlook metrics that are columns |
| AiInsights.OutlookOf | FinancialIntelSuite/ai_insights.py:382-393 | positive iff more positive indicators, challenging iff fewer, mixed iff as many |
| AiInsights.Rising | FinancialIntelSuite/ai_insights.py:354-376 | the rising metrics are exactly the columns whose latest growth is above zero |
| AiInsights.SummaryFor | FinancialIntelSuite/ai_insights.py:226-393 | the latest year; a highlight for each highlight metric that is a column and no other; the performance and margin statements exactly when their columns (and, for performance, a previous year) exist; the outlook from the counts |
| AiInsights.GenerateSummary | FinancialIntelSuite/ai_insights.py:214-405 | the fixed texts, or the summary of the latest annual row |
| AiInsights.CountIndicators | FinancialIntelSuite/ai_insights.py:344-379 | the counters incremented metric by metric give the indicator counts |
| AiInsights.CountsOutlook | FinancialIntelSuite/ai_insights.py:347-379 | the counts add up revenue, EPS and net asset value per share in turn |
| AiInsights.SummaryOutlook | FinancialIntelSuite/ai_insights.py:344-393 | at most three indicators, one per outlook column when there is a previous year and none otherwise, the positives being the rising metrics, and the outlook follows their balance |
| AiInsights.CountsRising | FinancialIntelSuite/ai_insights.py:347-379 | each outlook column adds exactly one indicator, a positive one iff it is rising |
| AiInsights.SummaryInsufficient | FinancialIntelSuite/ai_insights.py:224-405 | the "insufficient data" text iff the rows can be selected and there is no annual row; the error text iff they cannot |
| Forecasting.Points | FinancialIntelSuite/forecasting.py:32-35 | the values that are not NaN, never more than the rows |
| Forecasting.ForecastYears | FinancialIntelSuite/forecasting.py:63-64 | `periods` consecutive years starting right after the last year |
| Forecasting.Band | FinancialIntelSuite/forecasting.py:58-60 | a band symmetric about each forecast value, 1.96 spreads wide on each side |
| Forecasting.Ratios | FinancialIntelSuite/forecasting.py:187-193 | at most one rate per adjacent pair |
| Forecasting.RatiosAreRates | FinancialIntelSuite/forecasting.py:188-193 | every rate comes from an adjacent pair with a positive previous value and turns it into the next one |
| Forecasting.RatiosEmpty | FinancialIntelSuite/forecasting.py:187-199 | there is no rate iff no point but the last is positive |
| Forecasting.GrowthRates | FinancialIntelSuite/forecasting.py:187-193 | the loop collects the growth rates |
| Forecasting.Insert | FinancialIntelSuite/forecasting.py:197 | inserting into an ascending sequence keeps it ascending and adds exactly that rate |
| Forecasting.Sort | FinancialIntelSuite/forecasting.py:197 | the rates sorted ascending, as a permutation |
| Forecasting.MedianBetween | FinancialIntelSuite/forecasting.py:196-197 | the median lies between the smallest and the largest rate and is one of them for an odd count |
| Forecasting.Projection | FinancialIntelSuite/forecasting.py:205-209 | one value per period |
| Forecasting.ProjectionIsPower | FinancialIntelSuite/forecasting.py:201-209 | the k-th value is the last value times (1 + rate) to the power k + 1 |
| Forecasting.Compound | FinancialIntelSuite/forecasting.py:201-209 | the loop carrying the last value gives the projection |
| Forecasting.ForecastFrom | FinancialIntelSuite/forecasting.py:27-213 | a forecast iff there are three annual rows, three values and a period, too few rows being reported first; a forecast has one year and one value per period, from the model exactly when there is one |
| Forecasting.ForecastOf | FinancialIntelSuite/forecasting.py:19-25 | the key-column error iff Quarter or Year is missing, then the unknown-metric error iff the metric is not a column, otherwise the forecast of the annual rows |
| Forecasting.ForecastMetrics | FinancialIntelSuite/forecasting.py:7-326 | the checks, then the model's forecast or the fallback |
| Forecasting.ForecastRows | FinancialIntelSuite/forecasting.py:24-213 | the rest of forecast_metrics, with the fallback's loops as written, gives the forecast |
| Forecasting.ForecastChecks | FinancialIntelSuite/forecasting.py:19-38 | a forecast exists iff the key columns, the metric, three annual rows, three values and a period exist; otherwise the first failing check's error |
| Forecasting.ForecastYearsAfter | FinancialIntelSuite/forecasting.py:62-64 | a forecast covers the `periods` years right after the last annual year, each later than every annual row |
| Forecasting.ForecastBand | FinancialIntelSuite/forecasting.py:53-60 | the model's forecast comes with a band symmetric about it |
| Forecasting.ForecastFallback | FinancialIntelSuite/forecasting.py:182-213 | without the model, the forecast compounds the median rate (5 % without rates) from the last value |
| Forecasting.FallbackRateBounds | FinancialIntelSuite/forecasting.py:195-199 | the rate is 5 % when no previous value is positive, and otherwise lies between the smallest and the largest growth rate |
| Utils.FormatCurrency | FinancialIntelSuite/utils.py:67-88 | one unit or more unscaled, from a thousandth up to one in millions ("M"), anything smaller (NaN too) in thousands ("K") |
| Utils.FormatCurrencyRestores | FinancialIntelSuite/utils.py:79-85 | dividing the printed number by its suffix's factor gives the amount back; a scaled number is below 1000 in magnitude, an "M" one at least 1 |
| Utils.FormatCurrencyIgnoresCurrency | FinancialIntelSuite/utils.py:67-88 | the currency argument never changes the formatted result |
| Utils.FormatPercentage | FinancialIntelSuite/utils.py:90-103 | the value followed by "%" |
| Utils.ColorForTrend | FinancialIntelSuite/utils.py:105-120 | green iff above zero, red iff below, gray iff zero or NaN |

## Left out

- Reading PDFs (PyPDF2), the regular-expression engine and the page text are not modelled. The model takes each page's year captures and each pattern's captures as input.
- The MD5 digest of the file name and the `random` draws in `generate_estimated_data` are parameters.
- The fitted ARIMA forecast and `np.std` are parameters of `Forecasting.ForecastOf`.
- Streamlit messages (`st.warning`, `st.error`), logging and printing are not modelled.
- The Plotly figures, including the CAGR annotation, are not modelled.
- `app.py`, `visualizations.py` and `server.py` are not part of this model.
- `round(x, 2)` and the `:.1f`/`:.2f` renderings are not modelled. Numbers are kept exact, and texts are datatypes carrying the numbers they print.
- Floating point is modelled by exact reals. Rounding error and overflow are not modelled.
- Text.Lower: only ASCII letters are lower-cased. Python's `str.lower()` also lower-cases other Unicode letters. Every keyword the extractor searches for is ASCII, so the two differ only on a non-ASCII letter whose lower case is ASCII, such as the Kelvin sign.
- DataProcessor.FillGroup: writes by position, because a Table carries no row index. `.at[label, column]` writes the same way only when every row has its own label. On the callers' concatenated frames every row carries the label 0, and the source writes each value into every row (see Findings).
- DataProcessor.NextGroup: writes by position, because a Table carries no row index. `.at[label, column]` writes the same way only when every row has its own label. On the callers' concatenated frames every row carries the label 0, and the source writes each value into every row (see Findings).
- DataProcessor.FillGroups: writes by position, because a Table carries no row index. `.at[label, column]` writes the same way only when every row has its own label. On the callers' concatenated frames every row carries the label 0, and the source writes each value into every row (see Findings).
- DataProcessor.FillInOrder: writes by position, because a Table carries no row index. `.at[label, column]` writes the same way only when every row has its own label. On the callers' concatenated frames every row carries the label 0, and the source writes each value into every row (see Findings).
- DataProcessor.GrowthColumnOf: writes by position, because a Table carries no row index. `.at[label, column]` writes the same way only when every row has its own label. On the callers' concatenated frames every row carries the label 0, and the source writes each value into every row (see Findings).
- DataProcessor.FirstOfGroupHasNoGrowth: states the positional growth column. That is the source's result only on a frame whose row labels are all different; on the callers' concatenated frames every row carries the label 0 (see Findings).
- DataProcessor.AddGrowthCells: states the positional growth column. That is the source's result only on a frame whose row labels are all different; on the callers' concatenated frames every row carries the label 0 (see Findings).
- DataProcessor.AddGrowthRates: states the positional growth column. That is the source's result only on a frame whose row labels are all different; on the callers' concatenated frames every row carries the label 0 (see Findings).
- DataProcessor.GrowthRatesCells: states the positional growth column. That is the source's result only on a frame whose row labels are all different; on the callers' concatenated frames every row carries the label 0 (see Findings).
- DataProcessor.GrowthRatesCell: states the positional growth column. That is the source's result only on a frame whose row labels are all different; on the callers' concatenated frames every row carries the label 0 (see Findings).
- DataProcessor.GroupAtLabels: its own contract gives only the length. What it computes is stated by `GroupAtLabelsDistinct`, `GroupsAtLabelsIsGrowth`, `InOrderAtLabelsDistinct` and `ConcatenatedSeriesGrowth`.
- DataProcessor.GroupsAtLabels: its own contract gives only the length. What it computes is stated by `GroupAtLabelsDistinct`, `GroupsAtLabelsIsGrowth`, `InOrderAtLabelsDistinct` and `ConcatenatedSeriesGrowth`.
- DataProcessor.InOrderAtLabels: its own contract gives only the length. What it computes is stated by `GroupAtLabelsDistinct`, `GroupsAtLabelsIsGrowth`, `InOrderAtLabelsDistinct` and `ConcatenatedSeriesGrowth`.
- DataProcessor.PercentOf: a zero revenue gives NaN (`None`), where pandas gives an infinity. This affects the margins and the cost ratios in `AiInsights.RatioChange` and `AiInsights.CostStructureOf`.
- Frame.SortByYear: pandas' default quicksort is not stable. The model sorts stably, so rows of one year keep their input order.
- The `Source` column that `extract_data_from_pdf` sets to "Extracted" (`data_extractor.py:196`) is not modelled.
- DataExtractor.ExtractedData: `generate_estimated_data` is unreachable from here (see above). The estimated branch is modelled by `EstimatedData.GenerateEstimatedData` on its own.
- Forecasting.ForecastFrom: `periods < 1` is an error result (`NoForecastYears`). In the source, `forecast_years[-1]` raises an `IndexError` (`forecasting.py:159` and `294`), and the outer `except` turns it into an error figure.
- The error figure of `forecast_metrics` is not modelled. Its failures are the `ForecastError` values.
- Utils.FormatCurrency: the `except` branch that returns `str(value)`, and infinite amounts, are not modelled.

## Findings

| source | as written | input that shows it | evidently intended | confidence | as-written member | corrected member |
|---|---|---|---|---|---|---|
| FinancialIntelSuite/data_processor.py:102-111 | each growth value is stored with `.at[label, growth_col]`, which sets every row carrying that label; the frames built in `app.py` (line 466) and `server.py` (line 109) by `pd.concat` without `ignore_index` label every row 0 | three annual rows of one industry with revenue 100, 110 and 121, each from its own one-row frame (labels 0, 0, 0): every row gets 10 %, so the first year shows 10 % instead of NaN | each row's growth against the previous row of its group, written into that row only | not executed | DataProcessor.ConcatenatedSeriesGrowth | DataProcessor.GrowthColumnOf |
