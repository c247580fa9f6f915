# pucminas-paralelismo, modelled in Dafny

The repository is a teaching harness. It times the same workload twice, once
sequentially and once on threads, processes or asyncio, and logs which run was
faster. Under the concurrency there is plain sequential logic, and this project
models that logic and proves what it promises:

- **Paged sales API.** `get_sales` slices a month's cached records by page and
  computes the page count. The two clients stitch the pages back together.
- **Producer/consumer.** Producers share one FIFO queue with batching consumers.
  The consumers are shut down with one sentinel each.
- **Row partitioning.** `split_dataframe` comes in a loop form and a
  comprehension form. The per-part transform and the merges (`concat` +
  `sort_index`, and `groupby` over partial aggregates) are modelled with it.
- **Fan-in.** The ETL, download, conversion, log-analysis and page-fetch
  variants collect per-item outcomes. Some stop at the first failure in input
  order. Some drop failures and collect in completion order. Some re-raise the
  first failure to complete.
- **Names and paths.** This covers monthly file names, SQLite table names,
  `<stem>.csv` / `<stem>.parquet` outputs and the runner's exercise filter,
  sort and module names.
- **Small rules.** These are the "error" line counter, the quantity discount
  and the sequential-versus-parallel verdict.

How the model treats the parts it cannot run:

- **Outside world.** Reading, writing, fetching and importing are oracle
  functions that return `Outcome` (`Ok(v)` or `Err(message)`). An exception
  becomes an `Err`.
- **Concurrency.** The order in which futures complete is a permutation
  `order`, passed in as a parameter. The asyncio event loop is an arbitrary
  sequential schedule.
- **Data frames.** A frame is a sequence of rows, or a class whose columns are
  sequences when the source writes columns in place.
- **Money and times.** These are `real`.

One module per source file:

| module | source file |
|---|---|
| `SimulatedApi` | `src/utils/simulated_api.py` |
| `PagedClient` | `src/level_03/exercice_12.py` |
| `ProducerConsumer` | `src/level_03/exercice_13.py` |
| `Partitioning` | `src/level_02/exercice_07.py` and `split_dataframe` of `exercice_09.py` |
| `Aggregation` | `src/level_02/exercice_09.py` |
| `Datasets` | `src/utils/faker_create_datasets.py` |
| `LogAnalysis` | `src/level_03/exercice_15.py` |
| `Etl` | `src/level_03/exercice_11.py` |
| `Conversion` | `src/level_02/exercice_08.py` |
| `Downloads` | `src/level_01/exercice_04.py` |
| `Discount` | `src/level_03/exercice_14.py` |
| `CompareTimes` | `src/utils/compare_times.py` |
| `Runner` | `src/main.py` |

Shared modules:

- `Outcomes`: the result type.
- `Sequences`: `Concat`, `Map`, `Filter` and `Range`, with permutation lemmas.
- `Strings`: `f"{n}"`, `f"{n:02d}"`, ASCII `lower`, `startswith`/`endswith`, `in` and `replace`.
- `Paths`: POSIX `os.path.join`, `basename` and `splitext`.
- `FanIn`: the collection disciplines and their theorems.

## Model

| member | source | states |
|---|---|---|
| SimulatedApi.ILoc | src/utils/simulated_api.py:67 | `iloc[start:end]` holds positions start.. up to end clipped to the data length, each element taken from its position |
| SimulatedApi.PageSlice | src/utils/simulated_api.py:64-67 | page p holds the records from `(p-1)*per_page` on, never more than `per_page`; a full page when the data reaches its end; empty from the end of the data on |
| SimulatedApi.TotalPages | src/utils/simulated_api.py:71 | the ceiling of n / per_page: 0 for n = 0, otherwise `(t-1)*per_page < n <= t*per_page` |
| SimulatedApi.PastLastPageEmpty | src/utils/simulated_api.py:64-71 | a page past `total_pages` is empty rather than an error |
| SimulatedApi.PagesPrefix | src/utils/simulated_api.py:64-67 | pages 1..c together are exactly the first `c*per_page` records (all of them when fewer) |
| SimulatedApi.PagesCoverAll | src/utils/simulated_api.py:64-71 | pages 1..total_pages in order reproduce the record list, none lost or repeated |
| SimulatedApi.GetSales | src/utils/simulated_api.py:43-81 | a 422 exactly when a query parameter is out of its declared bounds; otherwise year, month, page and per_page echoed, `total_records` the full length whatever the page, `total_pages` the ceiling, `data` the page slice |
| SimulatedApi.SalesCache.CachedSalesData | src/utils/simulated_api.py:37-40 | a hit returns the cached list and leaves the cache alone; a miss generates the month's 100 records and stores them under (year, month) |
| SimulatedApi.SalesCache.HandleGetSales | src/utils/simulated_api.py:62-81 | validation happens before the cache is touched; a valid query is answered from the month's cached records, which are generated on a miss |
| SimulatedApi.CachedPagesFitTogether | src/utils/simulated_api.py:37-71 | while a month stays cached, all its pages succeed and together they are the cached list |
| PagedClient.FetchAllSalesSequential | src/level_03/exercice_12.py:49-72 | the result is page 1's data then pages 2..total_pages in ascending order, or the first failure; the pages requested are 1, then 2.. up to the failing page or to total_pages. A failure is the first failing page: every page before it succeeded |
| PagedClient.FetchAllSalesConcurrent | src/level_03/exercice_12.py:76-110 | page 1 failing propagates; otherwise each page 2..total_pages is requested exactly once and the result is page 1's data then the successful pages' data in completion order |
| PagedClient.FetchedBeforeIsFetched | src/level_03/exercice_12.py:68-70 | fetching pages one after the other and stopping at the first failure gives the in-order result over those pages |
| PagedClient.CollectedBeforeIsCollected | src/level_03/exercice_12.py:101-108 | reading completed futures one at a time and skipping failures collects exactly the successful pages' records in completion order |
| PagedClient.PageFailureStops | src/level_03/exercice_12.py:68-70 | a failing page after a run of successes is the result of the whole sequential fetch |
| PagedClient.SinglePage | src/level_03/exercice_12.py:65-98 | with `total_pages <= 1` in the first response, both fetches return page 1's data alone |
| PagedClient.FirstPageFailurePropagates | src/level_03/exercice_12.py:64-93 | a failure on page 1 is the result of both fetches |
| PagedClient.SequentialSucceedsIffAllPages | src/level_03/exercice_12.py:64-70 | the sequential fetch succeeds exactly when every page 2..total_pages succeeds |
| PagedClient.FailedPageContributesNothing | src/level_03/exercice_12.py:101-108 | in the concurrent fetch, taking a failed page out of the completion order leaves the result unchanged |
| PagedClient.SucceededPageCollected | src/level_03/exercice_12.py:101-108 | in the concurrent fetch every successful later page's records are in the result, whatever the other pages do |
| PagedClient.ConcurrentIsPermutationOfSequential | src/level_03/exercice_12.py:64-105 | with no failing page, both fetches succeed, both start with page 1's data, and the concurrent result is a rearrangement of the sequential one |
| PagedClient.SequentialAgainstServer | src/level_03/exercice_12.py:64-70 | against the simulated server's slicing, the sequential fetch returns exactly the month's full record list |
| ProducerConsumer.Step | src/level_03/exercice_13.py:89-102 | one message taken: an item is appended to what the consumer took; the consumer stops exactly on the sentinel |
| ProducerConsumer.StepKeepsGood | src/level_03/exercice_13.py:87-102 | every step keeps the consumer invariant. The flushed batches then the current batch are the items taken, in order. Loop flushes hold exactly `batch_size` items. The sentinel flush is the last one, non-empty and smaller. The current batch is never full |
| ProducerConsumer.DoneFlushedAll | src/level_03/exercice_13.py:90-95 | a consumer that saw its sentinel has persisted exactly the items it took, in order |
| ProducerConsumer.RunItemsThenSentinel | src/level_03/exercice_13.py:88-102 | fed items then a sentinel, a consumer stops at the sentinel having taken exactly those items and nothing after |
| ProducerConsumer.TaskQueue.Put | src/level_03/exercice_13.py:61 | `put` appends the message at the back and adds one unfinished task |
| ProducerConsumer.TaskQueue.Get | src/level_03/exercice_13.py:89 | `get` removes and returns the front message |
| ProducerConsumer.TaskQueue.TaskDone | src/level_03/exercice_13.py:94-102 | `task_done` takes one unfinished task off, and fails when none is left |
| ProducerConsumer.ConsumeData | src/level_03/exercice_13.py:76-104 | a consumer alone on the queue takes the messages up to and including the first sentinel, marks each done, and ends having persisted exactly the items it took |
| ProducerConsumer.Gen | src/level_03/exercice_13.py:58-61 | producer p generates `num_items` items, in its own order |
| ProducerConsumer.ProduceAndConsume | src/level_03/exercice_13.py:125-134 | under an arbitrary interleaving, every producer puts all its items in its own order and no consumer sees a sentinel before the producers finish |
| ProducerConsumer.PutSentinels | src/level_03/exercice_13.py:136-137 | exactly `num_consumers` sentinels are appended behind everything already put |
| ProducerConsumer.Drain | src/level_03/exercice_13.py:139-140 | under an arbitrary schedule, the consumers take messages until every one of them has seen its own sentinel |
| ProducerConsumer.RunAsyncio | src/level_03/exercice_13.py:108-142 | every producer enqueues `num_items` items in its order, then exactly `num_consumers` sentinels follow every item. `join` returns exactly when there is a consumer or nothing was put. With a consumer, every item is taken by exactly one consumer and every consumer stops at its sentinel, having flushed all it took |
| Partitioning.Part | src/level_02/exercice_07.py:61-63 | part i holds rows `i*(len//n)` up to the next part's start, the last one up to the end |
| Partitioning.Split | src/level_02/exercice_09.py:72-77 | exactly n parts for n >= 1, division by zero exactly for n = 0, no parts for n < 0 |
| Partitioning.PartSizes | src/level_02/exercice_07.py:58-62 | every part but the last has `len//n` rows; the last has `len - (n-1)*(len//n)`, at least as many |
| Partitioning.MorePartsThanRows | src/level_02/exercice_07.py:58-62 | with more parts than rows, every part but the last is empty and the last holds everything |
| Partitioning.PartsPrefix | src/level_02/exercice_07.py:57-64 | the first k parts together are the rows before part k's start |
| Partitioning.SplitCovers | src/level_02/exercice_09.py:74-77 | the parts in order are the rows, none lost or repeated |
| Partitioning.SplitDataFrame | src/level_02/exercice_07.py:46-64 | the loop form returns exactly what the comprehension form returns |
| Partitioning.ComplexRow | src/level_02/exercice_07.py:41-42 | `sum = A + B` and `product = A * B`; A, B, the index and every other column are unchanged |
| Partitioning.Complex | src/level_02/exercice_07.py:41-43 | the transform keeps the row count and transforms each row |
| Partitioning.ComplexOfConcat | src/level_02/exercice_07.py:85-94 | transforming the parts and putting them together is transforming the whole |
| Partitioning.Frame.ComplexFunction | src/level_02/exercice_07.py:28-43 | the caller's frame is updated in place to the transformed rows |
| Partitioning.ApplySequentially | src/level_02/exercice_07.py:100-117 | the function runs once, on the caller's whole frame |
| Partitioning.SortIndex | src/level_02/exercice_07.py:94 | `sort_index` gives the same rows, in label order |
| Partitioning.SortedUnique | src/level_02/exercice_07.py:94 | rows with distinct labels have only one label-sorted arrangement |
| Partitioning.ApplyInParallel | src/level_02/exercice_07.py:67-97 | n_workers = 0 is a division by zero and n_workers < 0 fails in the pool. Otherwise the result is the per-part results in completion order, concatenated and sorted by label. With distinct labels that equals the transform of the whole frame |
| Partitioning.ParallelMatchesWhole | src/level_02/exercice_07.py:85-114 | for a frame with distinct labels, any completion order gives the transform of the whole frame after `sort_index` |
| Aggregation.AggregateGroup | src/level_02/exercice_09.py:48-58 | one entry per group present; its sum is the sum of the group's values and every group has at least one value and its mean is that sum divided by the count |
| Aggregation.GroupPresent | src/level_02/exercice_09.py:58 | a group has an entry exactly when it has values |
| Aggregation.SumRPermutation | src/level_02/exercice_09.py:107-108 | a sum does not depend on the order of its terms |
| Aggregation.Merge | src/level_02/exercice_09.py:103-114 | the merge has one entry per group of any partial result |
| Aggregation.MergeOrderIndependent | src/level_02/exercice_09.py:100-114 | the merge does not depend on the order the partial results arrive in |
| Aggregation.MergedGroups | src/level_02/exercice_09.py:104-113 | the merged groups are exactly the groups present in the data |
| Aggregation.MergedSum | src/level_02/exercice_09.py:108 | each merged sum is the sum of the per-partition sums, which is the group's sum over all rows |
| Aggregation.AggregationSequential | src/level_02/exercice_09.py:120-133 | the whole-frame aggregate has one entry per group present |
| Aggregation.ApplyAggregationParallel | src/level_02/exercice_09.py:80-117 | n_workers parts are aggregated and merged. n_workers = 0 is a division by zero and n_workers < 0 fails in the pool. The merged groups are the data's groups, each merged sum equals the sequential sum, and the completion order does not matter |
| Aggregation.MergeTwo | src/level_02/exercice_09.py:109 | the merged mean of two partitions is the mean of their means |
| Aggregation.MeanOfMeansIsNotTheMean | src/level_02/exercice_09.py:108-110 | the merged mean is not recomputed globally: for parts [1] and [2, 3] it is 1.75, while the whole-frame mean is 2 |
| Datasets.GenerateSalesDataForMonth | src/utils/faker_create_datasets.py:10-39 | exactly `num_records` records, one per draw, each a valid record of that month when its draw is within the generators' ranges |
| Datasets.RecordInRange | src/utils/faker_create_datasets.py:24-29 | a record has a `{year}-{MM}-{DD}` date with day 1..28, quantity 1..20, a price in [10, 200] and total = quantity * price |
| Datasets.DateRoundTrip | src/utils/faker_create_datasets.py:25 | the date reads back as the year, the two-digit month and the two-digit day |
| Datasets.MonthlyPaths | src/utils/faker_create_datasets.py:69-79 | twelve paths, for months 1..12 in order |
| Datasets.SaveMonthlySalesData | src/utils/faker_create_datasets.py:42-81 | an unknown format is rejected before anything is created. Otherwise the directory is made and twelve files are written at `output_dir/sales_{year}_{mm}.{ext}`, month 1 first, and those twelve paths are returned |
| Datasets.MonthlyFileNamesDistinct | src/utils/faker_create_datasets.py:73-76 | two different months give two different file names |
| Datasets.MonthlyPathsDistinct | src/utils/faker_create_datasets.py:70-79 | the twelve returned paths are pairwise distinct |
| Datasets.TableName | src/utils/faker_create_datasets.py:107-109 | the file's stem with '-' and ' ' replaced by '_': same length, neither character left, every other character kept |
| Datasets.MonthlyTableName | src/utils/faker_create_datasets.py:107-109 | month m's CSV of a non-negative year lands in table `sales_{year}_{mm}` |
| Datasets.MonthlyTablesDistinct | src/utils/faker_create_datasets.py:105-109 | the twelve monthly CSV files land in twelve different tables, even with SQLite ignoring the case of table names |
| Datasets.SaveSalesDataToSqlite | src/utils/faker_create_datasets.py:84-137 | starting from the database already at db_path, files are loaded in order, each file's rows appended to the table named after it (names compared ignoring case), which is created if missing. A table name SQLite rejects stops the load before its table is created; a failed read stops it after. Either failure is re-raised |
| Datasets.LoadAppendsToExisting | src/utils/faker_create_datasets.py:112-130 | a table that already exists keeps its rows and gets the file's rows appended after them |
| Datasets.CaseVariantsShareTable | src/utils/faker_create_datasets.py:107-130 | two files whose table names differ only in case fill one table, the first file's rows then the second's |
| Datasets.RejectedNameStops | src/utils/faker_create_datasets.py:112-133 | a file whose table name SQLite rejects makes the whole load fail |
| Datasets.LoadDistinctTables | src/utils/faker_create_datasets.py:105-130 | when every name is accepted, every read succeeds and the table names differ even ignoring case, the load succeeds and each file's table holds exactly its rows |
| Datasets.LoadKeeps | src/utils/faker_create_datasets.py:105-130 | loading files into other tables leaves a table alone |
| LogAnalysis.ErrorCount | src/level_03/exercice_15.py:29-33 | the count never exceeds the number of lines |
| LogAnalysis.ErrorCountAppend | src/level_03/exercice_15.py:31-33 | counting two pieces of a file and adding gives the count of the whole |
| LogAnalysis.ErrorCountAll | src/level_03/exercice_15.py:29-33 | the count equals the number of lines exactly when every line matches |
| LogAnalysis.ErrorCountNone | src/level_03/exercice_15.py:29-33 | the count is zero exactly when no line matches |
| LogAnalysis.CaseInsensitive | src/level_03/exercice_15.py:32 | a line matches exactly when its lower-cased form does |
| LogAnalysis.UpperCaseMatches | src/level_03/exercice_15.py:15-32 | "ERROR" and "Error" both match |
| LogAnalysis.OncePerLine | src/level_03/exercice_15.py:32-33 | a line holding the pattern twice counts once |
| LogAnalysis.AnalyzeLogFile | src/level_03/exercice_15.py:18-35 | the count of matching lines, or the failure to read the file |
| LogAnalysis.AnalyzeLogsSequential | src/level_03/exercice_15.py:41-56 | each file is analysed once, in order; a failure is the first failing file, every earlier file having been analysed successfully, and nothing after it is analysed |
| LogAnalysis.AnalyzeLogsParallel | src/level_03/exercice_15.py:59-74 | `pool.map` succeeds exactly when every file can be read, giving each file's count in list order; otherwise it fails with some file's error |
| LogAnalysis.ParallelAgreesWithSequential | src/level_03/exercice_15.py:52-71 | both variants fail for the same inputs and give the same counts otherwise |
| LogAnalysis.LogFiles | src/level_03/exercice_15.py:78-80 | exactly the listing entries ending in ".log", joined under "logs" |
| LogAnalysis.LogFilesAreLogs | src/level_03/exercice_15.py:78-80 | every analysed path names a listing entry ending in ".log" |
| Etl.AddTotal | src/level_03/exercice_11.py:50-51 | with both `quantity` and `price`, each row gets `total = quantity * price` and nothing else changes; otherwise the frame passes through unchanged |
| Etl.AddTotalIdempotent | src/level_03/exercice_11.py:50-51 | transforming twice is transforming once |
| Etl.ParquetPathsDistinct | src/level_03/exercice_11.py:54-55 | two CSV inputs with different stems get different Parquet paths |
| Etl.WriteAllContents | src/level_03/exercice_11.py:55-57 | with distinct targets, each written path holds what was written there and every other path is kept |
| Etl.WriteAllOrderIndependent | src/level_03/exercice_11.py:94-106 | with distinct targets, the order in which the writes land does not matter |
| Etl.CsvFiles | src/level_03/exercice_11.py:22 | exactly the directory entries ending in ".csv" |
| Etl.ParquetStore.ProcessPartition | src/level_03/exercice_11.py:36-65 | on success the transformed table is written at `output_dir/<stem>.parquet` and that path is returned; a failure writes nothing and is re-raised |
| Etl.ParquetStore.EtlSequential | src/level_03/exercice_11.py:68-82 | one path per file, in file order; a failure is the first failing file, every earlier file having succeeded, and only those earlier files are written |
| Etl.ParquetStore.EtlParallel | src/level_03/exercice_11.py:85-108 | every file is processed once; the successful paths are collected in completion order and failures are omitted |
| Etl.ParallelMatchesSequential | src/level_03/exercice_11.py:76-106 | with no failure, the parallel paths are a rearrangement of the sequential ones and the output directory ends the same |
| Conversion.CsvPathOfParquet | src/level_02/exercice_08.py:64-65 | the output is `<stem>.csv` under the output directory, whose own stem is the input's stem |
| Conversion.CsvDirectory.ConvertParquetToCsv | src/level_02/exercice_08.py:28-41 | the table read is written at `csv_path`, and exactly `csv_path` is returned; a failure writes nothing and propagates |
| Conversion.CsvDirectory.ConvertOne | src/level_02/exercice_08.py:66-68 | one submitted job, stated as the write it performs at the job's CSV path |
| Conversion.MakeJob | src/level_02/exercice_08.py:64-65 | the job pairs the file with `<stem>.csv` under the output directory, as both variants derive it |
| Conversion.CsvDirectory.SequentialConversion | src/level_02/exercice_08.py:77-97 | each file converted once, in list order; a failure is the first failing file, every earlier file having converted, and only those earlier files are written |
| Conversion.CsvDirectory.ParallelConversion | src/level_02/exercice_08.py:44-74 | n_workers below 1 is refused by the pool before any job is submitted, and nothing is written. Otherwise one job per file, with the same path derivation as the sequential variant. Every conversion runs. The first failure to complete is re-raised, so there is no per-file isolation |
| Conversion.Submit | src/level_02/exercice_08.py:62-68 | exactly one (file, csv path) job per input file, in list order |
| Conversion.ParallelMatchesSequential | src/level_02/exercice_08.py:44-97 | both variants fail for the same inputs; with no failure and distinct paths they leave the same CSV files |
| Downloads.MessageInjective | src/level_01/exercice_04.py:31 | two downloads report the same message exactly when they are of the same file |
| Downloads.SimulateDownloadTime | src/level_01/exercice_04.py:24-31 | returns "Arquivo {i} baixado", or the download's failure |
| Downloads.SequentialDownload | src/level_01/exercice_04.py:34-49 | ids 1..10 in order, each message appended; the first failure propagates |
| Downloads.SequentialMessages | src/level_01/exercice_04.py:44-46 | with no failure, the list is the messages in id order |
| Downloads.ParallelDownload | src/level_01/exercice_04.py:52-73 | each id 1..10 once; messages collected in completion order, failures omitted |
| Downloads.ParallelIsPermutation | src/level_01/exercice_04.py:63-70 | with no failure, the parallel list is a rearrangement of the sequential one |
| Downloads.CollectedIffSucceeded | src/level_01/exercice_04.py:65-70 | a file's message is collected exactly when its download does not fail |
| Discount.Round2 | src/level_03/exercice_14.py:69 | `round(x, 2)` is a whole number of cents within half a cent of x; an exact half cent goes to the even number of cents |
| Discount.HalfCentToEven | src/level_03/exercice_14.py:69 | half cents round to the even cent: 0.125 to 0.12 and 0.135 to 0.14 |
| Discount.Round2OfCents | src/level_03/exercice_14.py:69 | a whole number of cents is kept as it is |
| Discount.Round2Monotone | src/level_03/exercice_14.py:69 | rounding never reverses the order of two amounts |
| Discount.DiscountedTotal | src/level_03/exercice_14.py:67-70 | below the threshold the total is kept; from the threshold on it is `total*(1-rate)` rounded to cents, a half cent to the even number of cents |
| Discount.DiscountNeverRaises | src/level_03/exercice_14.py:68-70 | a discount at a rate in [0, 1] never raises a total in cents |
| Discount.DefaultsExample | src/level_03/exercice_14.py:49-50 | with the defaults (threshold 10, rate 0.10), a total of 50.00 over 10 units is discounted to 45.00, and over 9 units the total is kept |
| Discount.DiscountFlags | src/level_03/exercice_14.py:67 | `discount_applied` is true exactly when quantity >= threshold |
| Discount.DiscountedTotals | src/level_03/exercice_14.py:68-70 | the column has one row per row, each the row rule |
| Discount.Where | src/level_03/exercice_14.py:68-70 | `where` keeps the column's value where the condition holds and takes the other's elsewhere |
| Discount.WithColumn | src/level_03/exercice_14.py:67-70 | assigning a column keeps every existing column and adds only that one |
| Discount.SalesFrame.TransformData | src/level_03/exercice_14.py:47-71 | the two columns are written into the caller's frame. Rows, quantity and total are unchanged, and `apply_month_name` has no effect |
| Discount.IngestData | src/level_03/exercice_14.py:29-44 | every file's rows in listing order, appended below the rows so far; an unreadable file propagates its failure |
| Discount.IngestKeepsEveryRow | src/level_03/exercice_14.py:38-41 | every row of every file is in the result, whose length is the sum of the files' lengths |
| CompareTimes.CompareExecutionTimes | src/utils/compare_times.py:4-31 | a zero sequential time fails whatever the parallel time. Otherwise exactly one verdict: sequential faster iff seq < par, parallel faster iff seq > par, equal iff equal. A winner's figure is positive and equals `abs(seq-par)/abs(seq)*100` |
| CompareTimes.QuotientScale | src/utils/compare_times.py:12-15 | the absolute percentage times the absolute sequential time is the absolute difference times 100 |
| CompareTimes.SavingBelowHundred | src/utils/compare_times.py:12-15 | for 0 < par <= seq, the verdict is equal or parallel faster, with a figure in [0, 100) |
| CompareTimes.UnitIndependent | src/utils/compare_times.py:12-31 | scaling both times by a positive factor does not change the result |
| Runner.ModuleName | src/main.py:61 | `file[:-3]` is the name without its last three characters |
| Runner.ExerciseModuleName | src/main.py:53-61 | an exercise file is its module name plus ".py", and the module name starts with "exercice_" |
| Runner.FullModuleInjective | src/main.py:61-62 | two exercise files of a level never get the same qualified module name |
| Runner.LexLeTotal | src/main.py:58 | any two names are ordered one way or the other |
| Runner.LexLeTrans | src/main.py:58 | the name order is transitive |
| Runner.LexLeAntisymmetric | src/main.py:58 | two names ordered both ways are equal |
| Runner.SortStrings | src/main.py:58 | sorting keeps exactly the same names |
| Runner.SortSorted | src/main.py:58 | the sorted list is in lexicographic order |
| Runner.SortedUnique | src/main.py:58 | there is only one sorted arrangement of a list of names |
| Runner.PaddedNamesSortNumerically | src/main.py:58 | with two-digit zero-padded numbers, lexicographic order is numeric order |
| Runner.UnpaddedNamesMisorder | src/main.py:58 | without padding, "exercice_10.py" sorts before "exercice_2.py" |
| Runner.LevelFilesSorted | src/main.py:53-58 | within an existing level, the files run in sorted order and are exactly the filtered listing |
| Runner.LevelFilesMembers | src/main.py:53-57 | a file runs for an existing level exactly when it is listed there, starts with "exercice_" and ends with ".py" |
| Runner.PlanAppend | src/main.py:46 | levels run in the order given: the modules of a longer level list extend those of a shorter one |
| Runner.PlanSound | src/main.py:46-62 | every module run is an exercise file of a level directory that exists |
| Runner.PlanComplete | src/main.py:46-62 | every exercise file of every existing level directory is run |
| Runner.MissingLevelSkipped | src/main.py:48-50 | a missing level directory contributes no module |
| Runner.MissingLevelsMembers | src/main.py:48-50 | a level is reported missing exactly when its directory does not exist |
| Runner.RunLevel | src/main.py:60-68 | each file of the level runs once, in order, with its own outcome; a failure does not stop the later files |
| Runner.RunLevelDirectory | src/main.py:47-68 | a missing directory is reported and skipped; an existing one runs its modules in order |
| Runner.RunExercises | src/main.py:38-68 | the skipped levels are exactly the missing ones. Every planned module runs, in order, each with its own outcome: a failed import or `main()` is reported and the loop goes on |
| Runner.RunProgram | src/main.py:71-76 | a set-up failure is re-raised with its error and nothing runs; otherwise the exercises of level_01, level_02 and level_03 run |
| FanIn.AllOrFirstError | src/level_03/exercice_11.py:76-82 | collecting in input order succeeds exactly when every item does, keeping every value in order; otherwise it gives the first failure |
| FanIn.Successes | src/level_03/exercice_11.py:100-106 | dropping failures keeps every success and nothing else |
| FanIn.CompletionOrderIsPermutation | src/level_03/exercice_11.py:77-104 | with no failing item, collecting in any completion order gives a rearrangement of the in-order result |
| FanIn.SuccessCollected | src/level_01/exercice_04.py:65-70 | every success is collected whatever the other items do |
| FanIn.SuccessesDropFailure | src/level_03/exercice_11.py:105-106 | taking a failed item out does not change what is collected |
| FanIn.AllOrFirstErrorStops | src/level_03/exercice_11.py:79 | a failure after a run of successes decides the in-order result, whatever follows |
| FanIn.FirstErrorByArrival | src/level_02/exercice_08.py:70-71 | waiting in completion order and re-raising succeeds exactly when every task does, and otherwise fails with some task's error |
| FanIn.FirstFailureIsDiscard | src/level_02/exercice_08.py:70-71 | calling `result()` on each future in turn ends with the failure that would stop an in-order run over the same outcomes, and succeeds when there is none |
| FanIn.OnlyFailureReraised | src/level_02/exercice_08.py:70-71 | with a single failing task, its failure is re-raised whatever the completion order |
| FanIn.CollectedByArrival | src/level_03/exercice_11.py:100-104 | collecting in completion order keeps exactly the successes, rearranged |
| Strings.ZeroPad2 | src/utils/faker_create_datasets.py:73 | `{m:02d}` for m < 100 is two digits that read back as m |
| Strings.ParseNatToString | src/utils/faker_create_datasets.py:25 | rendering a number and reading it back gives the number |
| Strings.IntToStringInjective | src/level_01/exercice_04.py:31 | different numbers render differently |
| Strings.ParseIntToString | src/level_01/exercice_04.py:31 | rendering any integer, sign included, and reading it back gives the integer |
| Paths.SplitExt | src/level_03/exercice_11.py:54 | `splitext` splits a path into a root and an extension that together are the path; the extension is empty or a dot with no further dot or '/' |
| Paths.BasenameOfJoin | src/level_03/exercice_15.py:79 | the base name of a joined path is the name that was joined |
| Paths.StemOfJoin | src/level_03/exercice_11.py:54-55 | the stem of `dir/stem.ext` is the stem |
| Paths.JoinInjective | src/level_03/exercice_11.py:78 | joining relative names under one directory is injective |

## Left out

- Real concurrency. Threads, process pools, `multiprocessing.Pool` and the asyncio event loop are not modelled. A completion order is a permutation passed in, and an interleaving is an arbitrary sequential schedule.
- Time. Every `time.time()` difference and `time.sleep` is left out.
- Downloads.SequentialDownload: returns the list the source builds; the source returns the elapsed time instead.
- Downloads.ParallelDownload: returns the list the source builds; the source returns the elapsed time instead.
- LogAnalysis.AnalyzeLogsSequential: returns the counts, or the first failure; the source discards the counts and returns the elapsed time.
- LogAnalysis.AnalyzeLogsParallel: returns the counts `pool.map` computes; the source discards them and returns the elapsed time.
- Partitioning.ApplyInParallel: returns the merged frame the source builds and discards; the source returns the elapsed time.
- Aggregation.ApplyAggregationParallel: returns the merged frame without the elapsed time the source also returns.
- Logging, loguru, `print` and `:.2f` rendering are left out. The verdict of `compare_execution_times` is a value instead of a log line.
- Randomness. Faker, `random` and `np.random` values are inputs ("draws"). Within the generators' ranges they give valid records. A price is drawn as a whole number of cents, so `round(quantity * price, 2)` is the exact product.
- Floating point. Money, times and statistics are `real`. `round(x, 2)` is exact half-to-even on reals.
- Aggregation.AggregateGroup: the `std` column's value is an arbitrary function of the group's values, because its numerics are not modelled.
- Aggregation.Merge: it is proved for sums, the group set and order independence. For `mean` and `std` it is proved only as a mean of the partial values.
- Aggregation.Merge: each partition's std counts in the mean of stds. pandas gives a single-row partition a NaN std, which `mean` skips; that case is not modelled.
- Partitioning.SortIndex: a stable sort. pandas `sort_index` defaults to quicksort, which is not stable, so with duplicate index labels the source may put equal labels in another order. The equality with the sequential result is proved only for frames whose labels are strictly increasing (`StrictlyLabelled`).
- Partitioning.ComplexRow: `A * B` is an unbounded integer product. The int64 wrap-around of the source's column is not modelled.
- Partitioning.ComplexRow: a frame without an `A` or `B` column raises KeyError in the source; the model's rows always have both.
- Discount.SalesFrame.TransformData: a frame without a `quantity` or `total` column raises KeyError in the source; the model's rows always have both.
- Datasets.SaveSalesDataToSqlite: which table names SQLite rejects is the oracle `exec`, not a grammar of SQLite identifiers and keywords. An INSERT that fails after its CREATE succeeded, such as one into an existing table of another shape, is not modelled; the tables in the database all hold sale records.
- Datasets.SaveMonthlySalesData: a failed write (disk full, permissions) is not modelled; every file is written.
- Strings.Lower: only 'A'..'Z' are lower-cased. Python's full Unicode `str.lower` is not modelled.
- Reading and writing files, Parquet and CSV are oracle functions, and a directory of outputs is a map from path to table. The SQLite database is a map from lower-cased table name to rows. Whether SQLite accepts the statements naming a table is an oracle; creating a table and appending rows are map updates. Line splitting of a log file is part of the read oracle.
- The HTTP layer of `fetch_page` and `raise_for_status` is an oracle returning the parsed response or an error.
- FastAPI and pydantic validation become the `ValidQuery` bounds check and a 422 error.
- `run_api` and uvicorn are left out.
- `lru_cache` eviction is left out. SimulatedApi.SalesCache never evicts, which the source's cache of 24 months matches while at most 24 months are requested.
- `importlib` is left out. Importing a module and running its `main()` are oracles.
- Exceptions are `Err` values. The distinction between `Exception` and `BaseException`, which `except Exception` in main.py does not catch, is not modelled.
- Runner.SortStrings sorts by code points. That is Python's `str` order.
- ProducerConsumer.TaskQueue.Get is called only when a message is waiting. An `await` on an empty queue blocks, and a schedule never picks that step.
- ProducerConsumer.RunAsyncio is proved with `consume_data`'s default `batch_size` of 5, which `run_asyncio` uses.
- ProducerConsumer.RunAsyncio models items only by their producer and position. Their random value and timestamp are left out.
- The pipeline of exercice_14.py, threads `ingest`, `transform` and `save` that busy-wait on a shared dict with no queue, is concurrency and is left out. Its sequential rules, `ingest_data` and `transform_data`, are modelled.

Where the documentation and the code disagree, the model follows the code:

- The download functions' docstrings describe the result lists, but the code returns the elapsed time. The model returns the lists the code builds, as the lines on Downloads.SequentialDownload and Downloads.ParallelDownload above say.
- `apply_month_name` has no effect in `transform_data`.
- `split_dataframe` with `n_parts = 0` is a division by zero.
