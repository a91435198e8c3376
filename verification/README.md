# Flight delay pipeline: record-level data rules

This project models the record-level rules of a flight-delay analytics
dashboard and proves properties about them. The dashboard itself is a
Streamlit application over pandas, scikit-learn and MySQL. The rules modelled
are:

- **Raw-table preparation** (`scripts/prepare_flight_delay_from_raw.py`). It
  builds the flight-delay table from the raw flight, airline and airport
  tables. It casts the YEAR/MONTH/DAY parts, derives `flight_date` (falling
  back to other date columns) and strips the identifier columns. It defaults the
  cancelled/diverted flags to 0 and picks the airline-name column. It then does
  three left merges and assembles `out` with its "was missing" flags.
- **Cleaner** (`utils/data_cleaning.py`). `clean_flight_delay_data` and
  `clean_sales_data` are modelled as row filters with null-to-zero fills.
- **Feature and label preparation** (`utils/ml_utils.py`). This covers
  `find_col`, `extract_hour`, the `CATEGORICAL + NUMERIC` schema, and
  `train_delay_model` up to the point where `X` and `y` are handed to
  scikit-learn.
- **Sales derivation** (`scripts/prepare_sales_data_from_flightcsv.py`). It
  derives the date, route, flight number, constant seats, price and class, and
  the revenue.
- **Chunked upload** (`scripts/upload_clean_flights.py`). The table is
  passed to one upload call per slice of 50000 rows.
- **Prediction pages.** The delay page's inference row, reasons and risk
  factors (`app_pages/3_delay_prediction.py`). The cancellation page's feature
  vector, result box and reasons (`app_pages/7_cancellation_prediction.py`).
  The weather page's risk score, reasons and category
  (`app_pages/8_airport_weather_delay_insights.py`).

A table is a `Frame`: an ordered column list and a sequence of rows. Each row
maps column names to `Cell`s. A cell is missing (`Null`, for NaN/None/NaT), an
`Int`, a `Num` (a float, as a `real`), a `Text`, a `Day` or a `Bool`. The
pandas element-wise conversions are defined once in `Frames`:

- `to_numeric(errors="coerce")`
- `to_datetime(errors="coerce")`
- `astype(str)`
- `fillna`
- `astype("Int64")`

The left merge is defined there too. A `KeyError`, or a cast that raises,
becomes the `Failure` case of a `Result`.

The scripts change their frames step by step, so each is a method with loops.
Each method's postcondition ties its result to a specification function. The
properties are then proved about that function.

- The column-wise loops are written as row loops. Examples are the cleaner's
  `for col in ...` loops and the script's column assignments. Every assignment
  is element-wise, so the two orders compute the same table.
- The upload log is a class whose methods append to its fields.
- The prediction pages' reason lists are methods that append step by step.
  Their properties are proved through a shared rule-table module, `Rules`.

Where the code and its comments or documentation disagree, the model follows
the code:

- The identifier columns are only stripped, not upper-cased, although the
  comments at lines 55 and 80 of `scripts/prepare_flight_delay_from_raw.py`
  say so.
- `clean_flight_delay_data` does not require a non-null airline or origin. A
  missing airline becomes the text "nan" and the row is kept.
- The airport merges of `scripts/prepare_flight_delay_from_raw.py` add columns
  that `out` never reads. They change only how many rows there are: with
  duplicate codes they add rows, with unique codes they change nothing.
- In `scripts/prepare_sales_data_from_flightcsv.py`, `astype(str)` runs before
  `fillna("")`. A missing airport code therefore reads "nan", and the route
  begins "nan-" rather than "-" (`PrepareSales.MissingEndpointReadsNan`).
- The delay page's inference row matches the training schema in column names
  and order. The type of `crs_dep_hour` can differ. When the raw frame has no
  `crs_dep_hour` column, training derives the hour from `CRSDepTime`, so it is
  a number (or "UNK"). The page passes `str(hour)`, which never equals such a
  value (`DelayPrediction.HourTypeDiffersFromTraining`). A `crs_dep_hour`
  column already in the raw frame is passed through as it is and may hold
  text.

## Model

| member | source | states |
|---|---|---|
| Frames.FirstMissingColumn | scripts/prepare_sales_data_from_flightcsv.py:20-22 | reading the needed columns in turn raises on the first one absent, and on none iff all are present |
| Frames.FirstMissingColumnAt | scripts/prepare_sales_data_from_flightcsv.py:20-22 | the column that raises is the one at the first index whose column is absent |
| Frames.Int64Cell | scripts/prepare_sales_data_from_flightcsv.py:49 | `astype("Int64")` keeps a missing value missing; a number succeeds iff it is whole, and then becomes an int of the same value; a fraction or a non-number raises |
| Frames.ToNumeric | scripts/prepare_sales_data_from_flightcsv.py:20-22 | `to_numeric(errors="coerce")` always yields a number or a missing value, never an error |
| Frames.ToDatetime | utils/data_cleaning.py:32 | `to_datetime(errors="coerce")` always yields a real calendar day inside the Timestamp range, or NaT |
| Frames.NumericOrZero | utils/data_cleaning.py:45-47 | after coercion and `fillna(0)` the cell is a number: numbers are unchanged and unparsable or missing values become 0 |
| Frames.AsStrNan | utils/data_cleaning.py:96-100 | after `astype(str)` the text "nan" marks exactly the missing cells (and text that already read "nan") |
| Frames.PresentAt | utils/data_cleaning.py:100-104 | a row filter keeps a subsequence of the input: each kept row sits at an increasing input position, and every accepted row is kept |
| Frames.KeepCleaned | utils/data_cleaning.py:35-64 | the row loop returns the rows the cleaning step keeps, cleaned, in input order |
| Frames.LeftJoinKeepsRows | scripts/prepare_flight_delay_from_raw.py:102 | a left merge never loses a flight row |
| Frames.UniqueMatches | scripts/prepare_flight_delay_from_raw.py:102 | with unique lookup codes a key has at most one match, and exactly one iff some lookup row carries it |
| Frames.LeftJoinUnique | scripts/prepare_flight_delay_from_raw.py:102 | with unique codes the merge is row for row: row i is flight i extended by its match, or by nulls when the code has no match |
| Frames.LeftJoinRowsExtendLeft | scripts/prepare_flight_delay_from_raw.py:102 | every merged row is some flight row with the lookup's columns added and its own other fields unchanged |
| Frames.JoinRowExtends | scripts/prepare_flight_delay_from_raw.py:102 | each row one flight turns into has the flight's fields plus exactly the lookup's columns |
| Frames.LeftJoinRowOrigin | scripts/prepare_flight_delay_from_raw.py:102 | outside the lookup's columns a merged row reads exactly as some flight row |
| Frames.ChainedJoinRowOrigin | scripts/prepare_flight_delay_from_raw.py:102-117 | after the three merges a row reads as some flight row outside the three lookups' columns |
| Frames.LeftJoinUniqueKeeps | scripts/prepare_flight_delay_from_raw.py:102 | with unique codes merged row i keeps flight i's fields outside the lookup's columns |
| Frames.LeftJoinUniqueAdds | scripts/prepare_flight_delay_from_raw.py:102 | with unique codes merged row i holds its match's value of an added column, or null without a match |
| Frames.ChainedJoinUnique | scripts/prepare_flight_delay_from_raw.py:102-117 | three merges on unique codes keep the row count and each keeps the columns it does not add |
| Numbers.IntTextRoundTrip | scripts/prepare_flight_delay_from_raw.py:68 | `str()` of an integer parses back to the same number |
| Calendar.DaysInMonth | scripts/prepare_flight_delay_from_raw.py:32-35 | a month has 28 to 31 days, and 29 exactly for February of a leap year |
| Calendar.NextDay | utils/ml_utils.py:91 | the day after a valid date is a later valid date |
| Calendar.WeekdayOfNextDay | utils/ml_utils.py:91 | `.dt.weekday` advances by one from each day to the next, Sunday (6) wrapping to Monday (0) |
| Calendar.NewYear2015IsThursday | utils/ml_utils.py:91 | the weekday numbering is anchored correctly: 2015-01-01 is a Thursday (3) |
| Calendar.IsoRoundTrip | utils/data_cleaning.py:32 | a date written as ISO text and coerced back is the same date |
| Strings.SkipSpaces | scripts/prepare_flight_delay_from_raw.py:57 | the leading run of whitespace ends at the first non-space character |
| Strings.SkipSpacesBack | scripts/prepare_flight_delay_from_raw.py:57 | the trailing run of whitespace starts after the last non-space character |
| Strings.Strip | scripts/prepare_flight_delay_from_raw.py:57 | `str.strip()` removes only whitespace, only at the ends, and leaves no whitespace at either end |
| Strings.StripIdempotent | scripts/prepare_flight_delay_from_raw.py:57 | stripping twice is stripping once |
| Strings.Lower | utils/ml_utils.py:29 | `str.lower()` keeps the length, leaves no upper-case ASCII letter, turns each upper-case letter into its lower-case partner and keeps every other character |
| Strings.LowerIdempotent | utils/ml_utils.py:29 | lower-casing an already lower-cased name changes nothing |
| DataCleaning.ConvertColumns | utils/data_cleaning.py:27-29 | a conversion loop rewrites each listed column the frame has and leaves every other field as it was |
| DataCleaning.CleanFlightRowKept | utils/data_cleaning.py:32-64 | a flight row is kept iff its date coerces to a real day and its distance, coerced with 0 for missing, is at least 10 |
| DataCleaning.CleanFlightRowFields | utils/data_cleaning.py:27-64 | a kept row has a real date and a distance of at least 10; delay and numeric columns are coerced with 0 for missing; string columns are `astype(str)`; every other field is unchanged |
| DataCleaning.CleanedFlightRowsOk | utils/data_cleaning.py:32-64 | every row the flight cleaner keeps has a real date, a distance of at least 10 and numeric delays |
| DataCleaning.CleanedFlightRowsComplete | utils/data_cleaning.py:32-64 | every flight row the row filter accepts appears, cleaned, among the kept rows |
| DataCleaning.CleanFlightDelayData | utils/data_cleaning.py:8-66 | KeyError without `flight_date`, then without `distance`; otherwise the kept rows in order, each with a real date, distance at least 10 and non-null delays, and no accepted row missing |
| DataCleaning.MissingDistanceDropped | utils/data_cleaning.py:57-64 | a missing or unparsable distance becomes 0 and the row is dropped, never kept as null |
| DataCleaning.MissingDelayBecomesZero | utils/data_cleaning.py:45-47 | a missing delay in a kept row becomes 0 |
| DataCleaning.CleanSalesRowKept | utils/data_cleaning.py:83-104 | with revenue and tickets_sold present, a sales row is kept iff its date coerces, its airline and route `astype(str)` are not "nan", and revenue and tickets sold, coerced with 0 for missing, are not negative |
| DataCleaning.CleanSalesRowFields | utils/data_cleaning.py:83-104 | a kept sales row has a real date, airline and route other than "nan", non-negative revenue and tickets, and its numeric fields coerced with 0 for missing |
| DataCleaning.CleanedSalesRowsOk | utils/data_cleaning.py:83-104 | every row the sales cleaner keeps satisfies all of the above |
| DataCleaning.SalesMissingColumn | utils/data_cleaning.py:83-104 | the first column the sales cleaner reads that the frame lacks, if any; none iff all five are present |
| DataCleaning.CleanedSalesRowsComplete | utils/data_cleaning.py:83-104 | every sales row the row filter accepts appears, cleaned, among the kept rows |
| DataCleaning.CleanSalesData | utils/data_cleaning.py:72-106 | KeyError on the first missing column it reads; otherwise the rows the row filter accepts, in order, each valid as above, and no accepted row missing |
| DataCleaning.MissingAirlineDropped | utils/data_cleaning.py:96-100 | a sales row with a missing airline reads "nan" and is dropped |
| MlUtils.LowerMatch | utils/ml_utils.py:28-30 | the case-insensitive scan returns a column equal to the candidate up to case, and none iff no column is |
| MlUtils.LowerMatchFirst | utils/ml_utils.py:28-30 | it returns the first such column in column order |
| MlUtils.CandidateMatch | utils/ml_utils.py:25-30 | one candidate matches an exact column first, else the first case-insensitive one; none iff no column matches up to case |
| MlUtils.FindCol | utils/ml_utils.py:23-31 | the result is a column of the frame, taken from the first candidate that matches; None iff no candidate matches |
| MlUtils.ExtractHour | utils/ml_utils.py:47-52 | the hour h of an int, a float or parsable text satisfies 100·h ≤ trunc(value) < 100·h + 100; a boolean gives 0; missing, a date or unparsable text gives missing |
| MlUtils.HourOfDay | utils/ml_utils.py:47-52 | an HHMM time from 0 to 2359 gives an hour from 0 to 23 |
| MlUtils.ExtractHourExamples | utils/ml_utils.py:47-52 | 1430 gives 14, 45 gives 0, -0.5 gives 0, missing gives missing |
| MlUtils.LabelRows | utils/ml_utils.py:72-95 | the per-row preparation loop returns the labelled rows of the specification, in order |
| MlUtils.SampleRows | utils/ml_utils.py:98-99 | the sample is the specified draw when 0 < frac < 1, and the whole table otherwise |
| MlUtils.FeaturesAndLabels | utils/ml_utils.py:104-111 | `X` has exactly the columns `CATEGORICAL + NUMERIC` in order, one filled row per labelled row, and `y` holds the labels in the same order |
| MlUtils.PrepareDelayTraining | utils/ml_utils.py:67-111 | KeyError on the first missing input column, otherwise the training table of the specification |
| MlUtils.LabelRowSpec | utils/ml_utils.py:93-95 | a row is kept iff its arrival delay is a number, and its label is 1 iff that delay exceeds 15 |
| MlUtils.LabelBoundary | utils/ml_utils.py:95 | a delay of 15 is labelled 0 and 16 is labelled 1 |
| MlUtils.TrainingRowsFromInput | utils/ml_utils.py:94-105 | every training row and label come from one input row with a numeric arrival delay |
| MlUtils.FeatureRowFilled | utils/ml_utils.py:107-111 | no feature is missing: present values are unchanged, categoricals become "UNK" and numerics -1 |
| MlUtils.CalendarFeatures | utils/ml_utils.py:90-91 | for a valid date, month is 1..12 and dayofweek is its weekday 0..6; for an invalid date both are -1 after filling |
| MlUtils.HourFeature | utils/ml_utils.py:84-88 | an existing `crs_dep_hour` is kept; otherwise it is derived from `CRSDepTime`; with neither column it is "UNK" after filling |
| MlUtils.IdentifierFeatures | utils/ml_utils.py:74-76 | airline, origin and destination are the `astype(str)` text of the input |
| MlUtils.NumberFeatures | utils/ml_utils.py:79-81 | distance, dep_delay and taxi_out are the coerced input, -1 where missing |
| MlUtils.NoSamplingOutsideUnitInterval | utils/ml_utils.py:98-99 | with frac outside (0, 1) no sampling happens |
| PrepareFlightDelay.CastCell | scripts/prepare_flight_delay_from_raw.py:73-77 | a flag cast with `fillna(0)` is always an integer when it does not raise |
| PrepareFlightDelay.CastColumnRows | scripts/prepare_flight_delay_from_raw.py:30 | the cast of one column succeeds iff every row casts cleanly, and then gives the cast rows |
| PrepareFlightDelay.CastColumnsInTurn | scripts/prepare_flight_delay_from_raw.py:28-30 | the cast loop over the listed columns computes the specified result or the first failing cast |
| PrepareFlightDelay.CastColumnsFacts | scripts/prepare_flight_delay_from_raw.py:73-77 | the casts keep every row and every unlisted column; with fill and absent-default every flag is an integer |
| PrepareFlightDelay.FlagCastExamples | scripts/prepare_flight_delay_from_raw.py:73-77 | a missing or unparsable flag becomes 0, 1.0 becomes 1, and 0.5 makes the cast raise |
| PrepareFlightDelay.FirstIn | scripts/prepare_flight_delay_from_raw.py:37-39 | the first candidate present in the columns, in candidate order; none iff no candidate is present |
| PrepareFlightDelay.FirstInIs | scripts/prepare_flight_delay_from_raw.py:37-39 | the candidate found is the one at the first index that is present |
| PrepareFlightDelay.DateFromParts | scripts/prepare_flight_delay_from_raw.py:33-35 | the parts give that day iff they name a real day in the Timestamp range, otherwise NaT without raising |
| PrepareFlightDelay.DateFromPartsExamples | scripts/prepare_flight_delay_from_raw.py:33-35 | month 13, 29 February 2015 and a missing part give NaT; 29 February 2016 is a day |
| PrepareFlightDelay.FlightDate | scripts/prepare_flight_delay_from_raw.py:32-42 | `make_flight_date` always gives a valid Timestamp or NaT |
| PrepareFlightDelay.FlightDateFallback | scripts/prepare_flight_delay_from_raw.py:37-39 | without all three parts the date is the coerced value of the first present fallback column |
| PrepareFlightDelay.FlightDateNone | scripts/prepare_flight_delay_from_raw.py:40 | with no parts and no fallback column the date is NaT |
| PrepareFlightDelay.StrippedOrNull | scripts/prepare_flight_delay_from_raw.py:56-70 | an identifier is the stripped `astype(str)` text of its source column, or null when the column is absent |
| PrepareFlightDelay.StageFlights | scripts/prepare_flight_delay_from_raw.py:32-84 | the staging loop derives date and identifiers for every flight, row for row |
| PrepareFlightDelay.StageFlightFields | scripts/prepare_flight_delay_from_raw.py:42-84 | a staged flight's date, origin, destination, number and code are the derived values |
| PrepareFlightDelay.StageFlightKeeps | scripts/prepare_flight_delay_from_raw.py:42-84 | staging leaves every other column unchanged |
| PrepareFlightDelay.ChooseAirlineNameColumn | scripts/prepare_flight_delay_from_raw.py:88-96 | the first of AIRLINE, Airline, NAME, Name, airline present; otherwise the second column when there are at least two, else none |
| PrepareFlightDelay.AirlineNameFromCandidates | scripts/prepare_flight_delay_from_raw.py:89-92 | the chosen name column is the candidate at the first present index |
| PrepareFlightDelay.AirlineNameFallback | scripts/prepare_flight_delay_from_raw.py:94-96 | with no candidate present the choice is the second column, or none with fewer than two |
| PrepareFlightDelay.Project | scripts/prepare_flight_delay_from_raw.py:106-108 | the renamed airport lookup row has exactly the new column names |
| PrepareFlightDelay.NullRow | scripts/prepare_flight_delay_from_raw.py:111-117 | an unmatched airport gives a null for each added column and no other |
| PrepareFlightDelay.LookupShapes | scripts/prepare_flight_delay_from_raw.py:98-117 | every lookup row adds exactly the columns its null row has |
| PrepareFlightDelay.LookupError | scripts/prepare_flight_delay_from_raw.py:94-108 | the lookups can be built only when an airline-name column was chosen |
| PrepareFlightDelay.OutRecord | scripts/prepare_flight_delay_from_raw.py:122-144 | the airline is the joined name, or the code when the name is missing; delays and distance are numbers or missing; each `_missing_*` flag is true iff its field is null |
| PrepareFlightDelay.BuildOut | scripts/prepare_flight_delay_from_raw.py:122-147 | one `out` row per merged flight, in order |
| PrepareFlightDelay.PrepareFlightDelayTable | scripts/prepare_flight_delay_from_raw.py:27-147 | the script computes the specified table or stops with the specified error |
| PrepareFlightDelay.StagedFlightOk | scripts/prepare_flight_delay_from_raw.py:28-84 | a flight after the casts and staging has integer flags, the derived date and identifiers, and its raw measures |
| PrepareFlightDelay.PreparedFlightsFacts | scripts/prepare_flight_delay_from_raw.py:28-84 | preparation keeps every flight, and each prepared flight reads as above in terms of its raw row |
| PrepareFlightDelay.MergedRowOrigin | scripts/prepare_flight_delay_from_raw.py:102-117 | every merged row reads, outside the added columns, as some prepared flight |
| PrepareFlightDelay.MergedKeepsFlights | scripts/prepare_flight_delay_from_raw.py:102-117 | the three merges never drop a flight |
| PrepareFlightDelay.OutRecordFromFlight | scripts/prepare_flight_delay_from_raw.py:122-144 | an `out` row has integer flags, the stripped identifiers, the coerced delays and distance, and the derived date of its raw flight |
| PrepareFlightDelay.OutRowsFromFlights | scripts/prepare_flight_delay_from_raw.py:102-147 | the output has at least one row per flight, and every row comes from one raw flight |
| PrepareFlightDelay.MatchedAirlineName | scripts/prepare_flight_delay_from_raw.py:98-102 | a code with no airline row matches no name; a name found belongs to an airline row with that code |
| PrepareFlightDelay.MatchedAirlineNameUnique | scripts/prepare_flight_delay_from_raw.py:98-102 | with unique codes the name found is that of the one airline row with the code |
| PrepareFlightDelay.MergedUnique | scripts/prepare_flight_delay_from_raw.py:102-117 | with unique codes the merges keep the row count, keep every flight's own fields, and attach the matched airline name |
| PrepareFlightDelay.OutRowPerFlight | scripts/prepare_flight_delay_from_raw.py:102-147 | with unique codes `out` has one row per flight, in order, reading as its raw flight; its airline is the matched name, or the stripped code when none matches |
| PrepareSales.CoerceNumericColumns | scripts/prepare_sales_data_from_flightcsv.py:20-22 | the coercion loop gives the specified rows, or a KeyError on the first missing numeric column |
| PrepareSales.NumericUpToFacts | scripts/prepare_sales_data_from_flightcsv.py:20-22 | after k steps the first k numeric columns are coerced and every other column is unchanged |
| PrepareSales.CoercedFacts | scripts/prepare_sales_data_from_flightcsv.py:20-22 | exactly FLIGHT_NUMBER, YEAR, MONTH and DAY are coerced |
| PrepareSales.WholePart | scripts/prepare_sales_data_from_flightcsv.py:36-39 | a date part is usable iff it is a whole number, and it is then that number |
| PrepareSales.SalesDate | scripts/prepare_sales_data_from_flightcsv.py:36-39 | the parts give that day iff all three are whole and name a real day in the Timestamp range, otherwise NaT |
| PrepareSales.SalesDateExamples | scripts/prepare_sales_data_from_flightcsv.py:36-39 | month 1.5, month 13, 29 February 2015 and a missing year give NaT |
| PrepareSales.Endpoint | scripts/prepare_sales_data_from_flightcsv.py:42-43 | an airport code is its stripped text, and a missing code reads "nan" |
| PrepareSales.PrepareSalesData | scripts/prepare_sales_data_from_flightcsv.py:20-69 | the script computes the specified sales table or stops with the specified error |
| PrepareSales.SalesRecordFromFlight | scripts/prepare_sales_data_from_flightcsv.py:33-55 | a merged flight becomes a sales row: its date, number, origin and destination come from the raw flight, its airline is the joined name, and the route, seats, price, revenue and class are the fixed derivations |
| PrepareSales.SalesRowsFromFlights | scripts/prepare_sales_data_from_flightcsv.py:25-69 | no flight is filtered out; every sales row comes from a raw flight, with seats 100, price 200, revenue 20000 and class Economy |
| PrepareSales.MatchedAirline | scripts/prepare_sales_data_from_flightcsv.py:25-33 | a code with no airline row gets no name; a name found belongs to an airline row with that code |
| PrepareSales.MergedUniqueCodes | scripts/prepare_sales_data_from_flightcsv.py:25-33 | with unique IATA codes the merge is row for row and adds only the matched airline name |
| PrepareSales.SalesRowPerFlight | scripts/prepare_sales_data_from_flightcsv.py:25-69 | with unique codes there is exactly one sales row per flight, in order, with its matched airline name |
| PrepareSales.MissingEndpointReadsNan | scripts/prepare_sales_data_from_flightcsv.py:42-46 | a missing origin code gives origin "nan" and a route beginning "nan-" |
| UploadChunks.UploadLog.constructor | scripts/upload_clean_flights.py:12 | a fresh log holds no upload calls and no progress lines |
| UploadChunks.UploadLog.Append | scripts/upload_clean_flights.py:22 | one upload call records exactly its slice and nothing else |
| UploadChunks.UploadLog.Report | scripts/upload_clean_flights.py:21 | one progress line is appended and nothing else |
| UploadChunks.UploadInChunks | scripts/upload_clean_flights.py:15-22 | the loop makes one upload call per slice of the specification, in order, each preceded by its progress line |
| UploadChunks.ChunksFromCover | scripts/upload_clean_flights.py:19-22 | the slices from any start, put together, are exactly the rows from there on |
| UploadChunks.ChunksCoverTable | scripts/upload_clean_flights.py:19-22 | the slices passed to the upload calls, put together, are the whole table: every row goes to exactly one call, in order, with no gap or overlap |
| UploadChunks.ChunksFromCount | scripts/upload_clean_flights.py:19-21 | from any start there is one progress line per slice, every slice starts inside the table, and the slices reach its end |
| UploadChunks.ChunksFromAt | scripts/upload_clean_flights.py:19-20 | slice k from a start begins k chunk sizes later, inside the table, and holds the rows up to one chunk size further or the end |
| UploadChunks.ProgressFromAt | scripts/upload_clean_flights.py:19-21 | the progress line of slice k reports its first row and the row one chunk size further or the end |
| UploadChunks.ChunkLayout | scripts/upload_clean_flights.py:19-21 | slice k starts at row 50000·k, below the row count, and holds rows up to the next multiple or the end; its progress line reports i and i + len(chunk) |
| UploadChunks.ChunkAt | scripts/upload_clean_flights.py:20 | `df.iloc[i:i + size]` at a start inside the table holds the rows from `i` on, 1 to `size` of them, fewer only where the table ends |
| UploadChunks.ChunkSizes | scripts/upload_clean_flights.py:19-20 | every slice has 1 to 50000 rows, and only the last may have fewer than 50000 |
| UploadChunks.EmptyTableUploadsNothing | scripts/upload_clean_flights.py:19 | an empty table makes no upload and prints no progress line |
| UploadChunks.ChunkCount | scripts/upload_clean_flights.py:19 | the number of uploads is the row count divided by 50000, rounded up |
| Rules.FiredUpTo | app_pages/3_delay_prediction.py:158-182 | the reasons appended by the first n rules are exactly those whose condition holds, and no more than n |
| Rules.FiredUpToKeepsOrder | app_pages/3_delay_prediction.py:158-182 | a rule table in rank order appends its reasons in that order |
| Rules.FiredKeepsOrder | app_pages/3_delay_prediction.py:158-182 | the reasons of a whole table come out in rank order |
| Rules.FiredHas | app_pages/3_delay_prediction.py:158-182 | in a table without repeated reasons, a reason is given iff its condition holds |
| Rules.FiredNone | app_pages/3_delay_prediction.py:184 | no reason is given iff no condition holds |
| DelayPrediction.InferenceFrame | app_pages/3_delay_prediction.py:92-107 | the inference row has exactly the training columns `CATEGORICAL + NUMERIC`, in the same order |
| DelayPrediction.InferenceHour | app_pages/3_delay_prediction.py:96 | `crs_dep_hour` is passed as text spelling the chosen hour |
| DelayPrediction.InferenceNumbers | app_pages/3_delay_prediction.py:97-101 | distance, dep_delay and taxi_out are passed as floats and month and dayofweek as ints |
| DelayPrediction.HourTypeDiffersFromTraining | app_pages/3_delay_prediction.py:96 | when the raw frame has no `crs_dep_hour` column, the inference hour never equals the training hour, since one is text and the other a number derived from `CRSDepTime` (or "UNK") |
| DelayPrediction.PredictionLabel | app_pages/3_delay_prediction.py:145 | "Delayed" iff the label is 1, otherwise "On-time" |
| DelayPrediction.DelayReasons | app_pages/3_delay_prediction.py:158-188 | the appending steps produce the explained reasons |
| DelayPrediction.ReasonRulesRanked | app_pages/3_delay_prediction.py:158-182 | the page tests its four rules in a fixed order |
| DelayPrediction.ExplainedReasonsSpec | app_pages/3_delay_prediction.py:158-188 | each reason is given iff its condition holds, in the page's order; "Low-risk conditions" appears iff none holds, and then alone; one to four reasons |
| DelayPrediction.KeyRiskContributors | app_pages/3_delay_prediction.py:219-231 | the appending steps produce the fired risk factors |
| DelayPrediction.FactorRulesRanked | app_pages/3_delay_prediction.py:219-231 | the factors are tested in the order delay, taxi-out, peak hour, distance |
| DelayPrediction.KeyRiskContributorsSpec | app_pages/3_delay_prediction.py:219-238 | each factor is listed iff its condition holds, with its own input value, in the page's order; none is listed iff the reasons are "Low-risk conditions" alone |
| CancellationPrediction.Without | scripts/train_cancel_model.py:40 | `drop` removes exactly the named column and keeps the others |
| CancellationPrediction.VectorMatchesTraining | app_pages/7_cancellation_prediction.py:112-117 | the page's vector slots are the training features `X`, in the training order |
| CancellationPrediction.Transform | app_pages/7_cancellation_prediction.py:112-114 | an encoded label is the value's position among the classes, and an unseen label is an error |
| CancellationPrediction.FeatureVector | app_pages/7_cancellation_prediction.py:112-123 | the vector is built iff all three codes are known, otherwise the first unknown column is reported; it holds the three positions, then delay, distance, month and weekday |
| CancellationPrediction.VectorRoundTrip | app_pages/7_cancellation_prediction.py:112-117 | decoding the vector through the encoders gives back exactly the page's inputs |
| CancellationPrediction.StyleFor | app_pages/7_cancellation_prediction.py:126-138 | the red "High Risk" box iff the label is 1, otherwise the green "Low Risk" box |
| CancellationPrediction.CancellationReasons | app_pages/7_cancellation_prediction.py:166-183 | severe delay iff delay ≥ 60 and moderate iff 30 ≤ delay < 60, never both; short haul iff distance < 300; high confidence iff prob > 0.8; exactly one fallback iff no rule fired, worded by the label; 1 to 3 reasons |
| WeatherInsights.RiskScore | app_pages/8_airport_weather_delay_insights.py:37-50 | the accumulation gives the fired reasons and the sum of their weights |
| WeatherInsights.FiredWeather | app_pages/8_airport_weather_delay_insights.py:40-50 | the reasons are precipitation, wind and visibility, each included iff its condition holds |
| WeatherInsights.WeightOfFired | app_pages/8_airport_weather_delay_insights.py:37-50 | score = 2·[precip > 2] + 2·[wind > 40] + 1·[visibility < 5] |
| WeatherInsights.RiskReasonsSpec | app_pages/8_airport_weather_delay_insights.py:40-50 | each reason appears iff its condition holds, with missing fields read as 0, 0 and 10, in the order precipitation, wind, visibility |
| WeatherInsights.RiskScoreSpec | app_pages/8_airport_weather_delay_insights.py:37-57 | the score lies in 0..5; the category is Low with no reason, Moderate with exactly one, and High with two or more |
| WeatherInsights.EmptyRecordIsLowRisk | app_pages/8_airport_weather_delay_insights.py:40-57 | a record without the three fields scores 0 and is Low risk |

## Left out

- Reading and writing CSV files, the database engine and `upload_dataframe`, the progress `print`s as console output, and `save_cleaned` are left out. All are I/O. Frames are parameters, and the upload calls are recorded by the `UploadLog` class.
- A failed upload is swallowed and not modelled: `upload_dataframe` catches `SQLAlchemyError` and returns False (`utils/upload_to_sql.py`, lines 35-37), the loop ignores the result, and the final success line is printed anyway. `UploadLog` therefore records the upload calls made, not the rows that reached the table.
- Column-name stripping (lines 22-25 of `scripts/prepare_flight_delay_from_raw.py`, and the renames at 86 and 105) is left out. Frames come in with stripped names.
- The coercion of `num_cols` (lines 44-53 of `scripts/prepare_flight_delay_from_raw.py`) is not done in place. `out` applies the same coercion to the columns it reads. The coerced columns it drops are not modelled.
- pandas' dtype inference, float `repr` with exponents, NaN/inf values, and number text with exponents or surrounding whitespace are left out. `ParseNumber` accepts a sign, digits and an optional fraction.
- `to_datetime` parsing of formats other than ISO "YYYY-MM-DD" is left out. So are time of day and the way pandas packs YEAR/MONTH/DAY parts. A date-part combination is valid iff it names a real calendar day in the Timestamp range.
- `str.strip` covers the six C-locale whitespace characters (space, tab, newline, vertical tab, form feed, carriage return) and `str.lower` the letters A-Z. Python's `strip` also removes `\x1c`-`\x1f`, `\x85` and Unicode spaces, and `lower` folds non-ASCII letters. Those are left out.
- Merge column collisions other than AIRLINE/AIRLINE_x/AIRLINE_y are left out.
- pandas raises every missing column of a selection at once. The model reports the first one.
- A null merge key matches a null key. This is modelled as equality of cells.
- `df.sample` is random. The draw is a parameter `pick`, and `round(frac·n)` is not modelled.
- MlUtils.SampleRows: states only that the given draw is taken, not that it has `round(frac·n)` distinct rows, because the random draw is an input.
- The rest of `train_delay_model` is left out: ColumnTransformer, OneHotEncoder, StandardScaler, the random forest, `train_test_split`, fitting, the classification report and `joblib.dump`. These are foreign library calls.
- `train_revenue_prophet` is left out, apart from its `find_col` lookup: its groupby feeds Prophet, a foreign library.
- Prediction is left out. `predict`, `predict_proba` and the fitted `LabelEncoder`s are inputs: a label, a probability and each encoder's class list.
- The delay page's model loading and metadata panel, the widgets' value ranges, `st.stop` and the `try/except` around prediction are left out. These are Streamlit UI.
- The reasons' titles, descriptions, icons, HTML and CSS are left out. Each reason is a datatype constructor, and the cancellation page's result box is reduced to its colours and status text.
- The weather record is modelled as a map to numbers. A JSON null in a weather field (which would make the page's comparison raise) and fetching the record are left out.
- Integers are unbounded. No pandas value here reaches the 64-bit limits, so the Int64 cast is modelled only as integrality.
