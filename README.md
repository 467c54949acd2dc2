# latencyconverter in Dafny

`latencyconverter` converts the latency records of seismic stations into
HDF5 archives. There are two sources:

- Guralp devices write CSV files with the columns `timestamp`, `channel`,
  `network latency` and `data latency`. The `data latency` cell encodes a
  sample count, a sample rate and an overhead as `=<samples>/<rate>+<overhead>`.
- The Nanometrics availability API returns JSON reports. A report is an
  `availability` list of channel entries, each with an `id` and a list of
  `intervals`.

From either source the writer creates one group per distinct channel, in
order of first appearance. A `None` channel is the exception: h5py's
`create_group(None)` makes an anonymous group that no name in the file
links to. Each group holds:

- a `sample rate` attribute;
- a `timestamp` dataset;
- a `network latency` dataset;
- a `samples` dataset.

A `bulk_store` loop sends every file of a list to the CSV or the JSON
converter by its name.

This project models these parts and proves properties of them:

- the decoder of the `data latency` cell (`strip('=')`, `split('/')`,
  `split('+')`);
- the two CSV writers: the current one stores latency as float32, the
  top-level `utilities` one as int32;
- `json_to_table`, which flattens a loaded report into an eight-column frame;
- the two JSON writers: the current one and the legacy one in `utilities`;
- `bulk_store`.

Python is modelled in Dafny's terms:

- Python values and exceptions are datatypes (`PyValues`).
- A pandas frame is a list of labelled columns (`Frames`).
- An h5py file is a class whose `groups` field the writer methods update in
  place (`Hdf5.File`).
- `strptime(...).timestamp()` is a function parameter `epoch` that returns
  `None` where strptime raises.
- A statement that raises ends its writer with `Fail(e)`. The groups written
  before that point stay in the file, as they do in the source.

Each writer is specified twice:

- a function of the frame, which gives the groups left in the file and how
  the run ended;
- a method with the source's loop over the distinct channels, proved to leave
  exactly what that function describes.

Lemmas then state, about the functions:

- when a run goes to the end (both directions);
- what each group holds;
- that group names are distinct and follow first-appearance order;
- how the legacy writers relate to the current ones.

`Reports` is an independent description of a report: typed entries and
intervals, and their encoding as the object `json.load` returns. `json_to_table`
is proved to flatten such a report into one row per interval, in document
order.

Where the names or comments suggest otherwise, the model follows the code:

- **JSON timestamps.** The JSON writer takes the `timestamp` dataset from
  `endTime[:26]`, not from `startTime`.
- **JSON latency.** Its latency dataset is the `avgLatency` column, not the
  maximum latency.
- **Latency of the whole frame.** In every writer the latency dataset of every
  group is the column of the WHOLE frame, not just the channel's rows.
- **Sample rate.** The CSV writers take the `sample rate` attribute from the
  channel's first row. The JSON writer takes it from row 0 of the whole frame,
  and uses `'100'` when the frame has no such column.
- **JSON samples.** The JSON `samples` dataset is not compressed.
- **Lenient cell grammar.** The cell decoder accepts cells without `=` or
  without `+overhead`, and never parses the rate or the samples as integers.
  In the decoder only a missing `/` raises, when the rate is read; whether
  h5py can then store the texts as integers is outside the model (see
  "Left out").
- **`None` channels.** `df['channel'] == None` selects no row, and the group
  h5py creates for `None` is anonymous. The pass still runs on that empty
  selection. The CSV writers then always raise, at the latest with IndexError
  at `sample_rates[0]`. The JSON writer completes when the frame has the
  columns its pass reads. The legacy JSON writer completes when the frame has
  a `timestamp` column. None of them adds a visible group.
- **Unhashable channels.** `unique()` raises TypeError on a list or dictionary
  channel cell, before any group exists.
- **Partial files.** A run that raises leaves the groups written so far; there
  is no all-or-nothing write.
- **Name test.** `bulk_store` tests `'.csv' in filename` and
  `'.json' in filename` anywhere in the name, not as a suffix.

## Model

| member | source | states |
|---|---|---|
| DataLatency.SamplesText | latencyconverter/utilities/csv_to_hdf5.py:84-86 | the samples text of a cell holds no `/` and is a prefix of the cell with its `=` stripped |
| DataLatency.RateText | latencyconverter/utilities/csv_to_hdf5.py:75-77 | reading the rate raises IndexError exactly when the cell holds no `/` |
| DataLatency.RateTextShape | latencyconverter/utilities/csv_to_hdf5.py:75-77 | the rate text is the longest prefix of what follows the first `/` that holds neither `/` nor `+` |
| DataLatency.DecodeEncoded | latencyconverter/utilities/csv_to_hdf5.py:75-86 | decoding `=samples/rate+overhead` gives back the samples and the rate texts (round trip) |
| DataLatency.StripEncoded | latencyconverter/utilities/csv_to_hdf5.py:76 | `strip('=')` removes only the leading `=` of an encoded cell |
| DataLatency.ExampleCell | latencyconverter/tests/csv_to_h5py/test_csv_to_h5py.py:13 | the cell `=556/100+2.3` decodes to samples `556` and rate `100` |
| DataLatency.MissingEqualsAccepted | latencyconverter/utilities/csv_to_hdf5.py:75-86 | a cell without the leading `=` decodes as if it had one |
| DataLatency.MissingPlusAccepted | latencyconverter/utilities/csv_to_hdf5.py:75-77 | a cell without `+overhead` is accepted, and its rate is all of what follows `/` |
| DataLatency.MissingSlashRaises | latencyconverter/utilities/csv_to_hdf5.py:76 | a cell without `/` raises IndexError, even if it has a `+` |
| DataLatency.CellRateOk | latencyconverter/utilities/csv_to_hdf5.py:75-77 | a cell gives a rate exactly when it is a string that holds `/`; a non-string cell raises AttributeError |
| DataLatency.RatesOf | latencyconverter/utilities/csv_to_hdf5.py:75-77 | the rates of a column of cells: one per cell when the map succeeds |
| DataLatency.RatesOfSpec | latencyconverter/utilities/csv_to_hdf5.py:75-77 | the rates exist exactly when every cell gives one; they are then in cell order; otherwise the error is that of the first failing cell |
| DataLatency.SamplesOf | latencyconverter/utilities/csv_to_hdf5.py:84-86 | the samples texts of a column, one per cell when the map succeeds |
| DataLatency.SamplesOfSpec | latencyconverter/utilities/csv_to_hdf5.py:84-86 | the samples exist exactly when every cell is a string; they are then the samples texts in order |
| DataLatency.RatesThenSamples | latencyconverter/utilities/csv_to_hdf5.py:75-86 | a column that gives rates also gives samples |
| PyStrings.Strip | latencyconverter/utilities/csv_to_hdf5.py:76 | the result of `strip(c)` neither starts nor ends with `c` |
| PyStrings.StripExact | latencyconverter/utilities/csv_to_hdf5.py:76 | stripping `c` from a core padded with `c` on both ends gives the core back |
| PyStrings.StripKeeps | latencyconverter/utilities/csv_to_hdf5.py:76 | stripping `c` keeps every other character |
| PyStrings.Split | latencyconverter/utilities/csv_to_hdf5.py:76 | `split(sep)` gives at least one piece, none holding `sep`, and joining the pieces gives `s` back |
| PyStrings.SplitJoin | latencyconverter/utilities/csv_to_hdf5.py:76 | split is the inverse of join on pieces free of the separator |
| PyStrings.SplitHeadIsMaximalPrefix | latencyconverter/utilities/csv_to_hdf5.py:85 | the first piece is the longest prefix free of the separator |
| PyStrings.SplitSecond | latencyconverter/utilities/csv_to_hdf5.py:76 | a second piece exists exactly when the separator occurs; it is the first piece of what follows the first separator |
| PyStrings.Contains | latencyconverter/utilities/bulk_store.py:30-32 | `sub in s` holds exactly when `sub` occurs at some index of `s` |
| PyStrings.Prefix | latencyconverter/utilities/json_to_hdf5.py:104 | `s[:n]` is the first `n` characters, or all of `s` when it is shorter |
| PyValues.Lookup | latencyconverter/utilities/json_to_hdf5.py:46 | `d[key]` succeeds exactly when the key is present, with a value paired with it; otherwise KeyError(key) |
| PyValues.Sub | latencyconverter/utilities/json_to_hdf5.py:34 | subscripting by a string works only on a dictionary that has the key; a non-dictionary raises TypeError, a missing key KeyError |
| PyValues.Iter | latencyconverter/utilities/json_to_hdf5.py:45-49 | `for x in v` visits a list's items, a dictionary's keys or a string's characters; numbers, booleans and None raise TypeError |
| PyValues.MapList | latencyconverter/utilities/csv_to_hdf5.py:56-57 | `list(map(f, xs))`, one value per element when it succeeds |
| PyValues.MapListSpec | latencyconverter/utilities/csv_to_hdf5.py:56-57 | the map succeeds exactly when `f` succeeds on every element; the values are then in order; otherwise the error is that of the first failing element |
| Timestamps.Epochs | latencyconverter/utilities/csv_to_hdf5.py:55-57 | the timestamps of a column, one per cell when the conversion succeeds |
| Timestamps.EpochsSpec | latencyconverter/utilities/csv_to_hdf5.py:55-57 | the timestamps exist exactly when every cell is a string the parse accepts; they are then the parsed times in order |
| Timestamps.EndEpochs | latencyconverter/utilities/json_to_hdf5.py:101-105 | the end timestamps of a column, one per cell when the conversion succeeds |
| Timestamps.EndEpochsSpec | latencyconverter/utilities/json_to_hdf5.py:101-105 | the end timestamps exist exactly when every cell is a string whose first 26 characters parse; they are then those parsed times in order |
| Timestamps.TruncationShape | latencyconverter/utilities/json_to_hdf5.py:104 | `[:26]` keeps a short time and cuts a longer one to 26 characters |
| Timestamps.TruncationExample | latencyconverter/tests/json_to_h5py/test_json_to_table.py:12 | the sample end time loses its last three nanosecond digits and the `Z` |
| Frames.Column | latencyconverter/utilities/csv_to_hdf5.py:69 | `df[name]` is the labelled column, of frame height, or KeyError(name) |
| Frames.FirstCell | latencyconverter/utilities/json_to_hdf5.py:93 | `col[0]` is the first cell, or KeyError("0") on an empty column |
| Frames.Mask | latencyconverter/utilities/csv_to_hdf5.py:50 | `col == v` marks exactly the cells equal to `v`, and no cell when `v` is `None` |
| Frames.Select | latencyconverter/utilities/csv_to_hdf5.py:50 | `df.loc[mask]` keeps every label and, in each column, the cells of the masked rows |
| Frames.KeepAtPositions | latencyconverter/utilities/csv_to_hdf5.py:50 | the kept cells are those at the mask's true positions, in row order |
| Frames.MaskCount | latencyconverter/utilities/csv_to_hdf5.py:50 | the rows selected for `v` number the occurrences of `v`, and none for `None` |
| Frames.SelectColumn | latencyconverter/utilities/csv_to_hdf5.py:50 | a column of the selected rows is the original column kept by the mask |
| Frames.ChannelRows | latencyconverter/utilities/csv_to_hdf5.py:50 | a column of a channel's rows holds that column's cells at the rows of the channel, in order, one per occurrence; none for `None` |
| Frames.ChannelFirstRow | latencyconverter/utilities/csv_to_hdf5.py:50 | the first of a channel's rows is the row where the channel first appears; `None` selects no row |
| Frames.Unique | latencyconverter/utilities/csv_to_hdf5.py:49 | on a hashable column, `unique()` has no repeats and holds exactly the cells of the column (the archive functions raise TypeError first when a cell is a list or a dictionary) |
| Frames.UniqueHashable | latencyconverter/utilities/csv_to_hdf5.py:49 | a column has no list or dictionary cell exactly when its distinct cells have none, so `unique()` raises on neither or on both |
| Frames.NoneSelectsNothing | latencyconverter/utilities/csv_to_hdf5.py:50 | `df.loc[df['channel'] == None]` has no row, and each of its columns is empty |
| Frames.UniqueOrder | latencyconverter/utilities/csv_to_hdf5.py:49 | the distinct cells are listed in order of first appearance |
| Frames.UniqueHead | latencyconverter/utilities/csv_to_hdf5.py:49 | the first distinct cell is the first cell |
| Frames.UniqueSnoc | latencyconverter/utilities/csv_to_hdf5.py:49 | appending a cell adds it to the distinct cells exactly when it is new |
| Hdf5.AddDataset | latencyconverter/utilities/csv_to_hdf5.py:60-65 | `create_dataset` appends the dataset, or raises ValueError when the name is taken; the group stays valid |
| Hdf5.SetAttribute | latencyconverter/utilities/csv_to_hdf5.py:79-81 | `attrs.create` keeps the name and the datasets, adds the attribute name only when it is new, keeps the group valid, and looking the name up gives the new attribute |
| Hdf5.DatasetOf | latencyconverter/tests/csv_to_h5py/test_csv_to_h5py.py:27 | `group[name]` finds the dataset of that name, or raises KeyError |
| Hdf5.AttrOf | latencyconverter/tests/csv_to_h5py/test_csv_to_h5py.py:22 | `group.attrs[name]` finds the attribute of that name, or raises KeyError |
| Hdf5.File.Create | latencyconverter/utilities/csv_to_hdf5.py:46 | a file opened with mode `'w'` starts empty |
| Hdf5.File.CreateGroup | latencyconverter/utilities/csv_to_hdf5.py:52 | `create_group` appends an empty group, or raises ValueError and changes nothing when the name is taken |
| Hdf5.File.CreateDataset | latencyconverter/utilities/csv_to_hdf5.py:60-65 | the group in the file becomes what AddDataset gives; the other groups are unchanged |
| Hdf5.File.CreateAttribute | latencyconverter/utilities/csv_to_hdf5.py:79-81 | the group in the file becomes what SetAttribute gives; the other groups are unchanged |
| Hdf5.WriteChannels | latencyconverter/utilities/csv_to_hdf5.py:49-52 | the loop over channels leaves at most one visible group per channel other than `None`, and exactly one per such channel when it runs to the end |
| Hdf5.Linked | latencyconverter/utilities/csv_to_hdf5.py:52 | the channels whose group the file links to: exactly those other than `None`, no more of them than channels |
| Hdf5.LinkedAll | latencyconverter/utilities/csv_to_hdf5.py:52 | without a `None` channel every channel's group is linked |
| Hdf5.LinkedOrder | latencyconverter/utilities/csv_to_hdf5.py:49-52 | leaving out `None` keeps the first-appearance order of the other channels |
| Hdf5.WriteChannel | latencyconverter/utilities/csv_to_hdf5.py:50-52 | one pass adds at most one group; a `None` channel adds none; any other channel that completes adds exactly one |
| Hdf5.WriteChannelsStops | latencyconverter/utilities/csv_to_hdf5.py:49-91 | once a pass raises, later channels change nothing |
| Hdf5.WriteChannelsGroups | latencyconverter/utilities/csv_to_hdf5.py:49-52 | group `i` is the body's group for the `i`-th channel other than `None`, which is a string |
| Hdf5.WriteChannelsAligned | latencyconverter/utilities/csv_to_hdf5.py:49-52 | when the pass for `None` raises, group `i` belongs to channel `i` itself, which is a string, and a complete loop has one group per channel |
| Hdf5.WriteChannelsPass | latencyconverter/utilities/csv_to_hdf5.py:49-52 | the loop runs to the end exactly when every channel is a string or `None` whose pass runs to the end, and no string comes twice |
| Hdf5.WriteChannelsDistinct | latencyconverter/utilities/csv_to_hdf5.py:52 | the group names in the file are distinct |
| Hdf5.WriteChannelsPassWhen | latencyconverter/utilities/csv_to_hdf5.py:49-52 | over distinct channels, the loop runs to the end exactly when every channel is a string or `None` whose pass runs to the end |
| Hdf5.WriteChannelsMap | utilities/csv_to_hdf5.py:36-85 | two bodies that differ by a name-keeping change of their groups give loops that end alike, with groups changed the same way |
| CsvToHdf5.CsvGroup | latencyconverter/utilities/csv_to_hdf5.py:52-91 | the pass for a channel leaves a group with that channel's name |
| CsvToHdf5.CsvTimesStep | latencyconverter/utilities/csv_to_hdf5.py:55-65 | the timestamp step runs to the end exactly when the rows' times parse; it then appends the float64 gzip-9 dataset of the parsed times |
| CsvToHdf5.CsvLatencyStep | latencyconverter/utilities/csv_to_hdf5.py:68-72 | the latency step runs to the end exactly when the frame has the column; it then appends the whole frame's column |
| CsvToHdf5.CsvRatesStep | latencyconverter/utilities/csv_to_hdf5.py:75-91 | the rate and samples steps run to the end exactly when the rows have at least one data-latency text and all hold `/`; they then set the first row's rate and append the samples texts |
| CsvToHdf5.CsvGroupPass | latencyconverter/utilities/csv_to_hdf5.py:52-91 | a channel's pass runs to the end exactly when its rows are ready |
| CsvToHdf5.CsvGroupContents | latencyconverter/utilities/csv_to_hdf5.py:52-91 | a finished group holds the first row's rate as `sample rate`, the channel's parsed times as float64, the whole frame's latency column and the channel's samples texts as uint16, all gzip 9, in that order |
| CsvToHdf5.CsvNoneRaises | latencyconverter/utilities/csv_to_hdf5.py:50-81 | the pass for a `None` channel always raises, because its selection has no row to read a sample rate from |
| CsvToHdf5.CsvArchivePass | latencyconverter/utilities/csv_to_hdf5.py:46-91 | the CSV archive is written to the end exactly when there is a channel column and every distinct channel is a string whose rows are ready |
| CsvToHdf5.CsvArchiveGroups | latencyconverter/utilities/csv_to_hdf5.py:49-52 | a list or dictionary channel cell leaves no group and raises TypeError; otherwise the archive's groups are the passes' groups for the distinct channels, in first-appearance order, one per channel when complete (a `None` channel's pass always raises, so no anonymous group shifts them) |
| CsvToHdf5.CsvChannelGroup | latencyconverter/utilities/csv_to_hdf5.py:49-91 | in a complete archive, group `i` is the channel's group, described on the whole frame: its timestamps and samples come from exactly the rows of its channel, in order |
| CsvToHdf5.DataAtPositions | latencyconverter/utilities/csv_to_hdf5.py:50-86 | data computed from a channel's rows is, entry by entry, data computed from the frame rows where the channel occurs |
| CsvToHdf5.MissingSlashAborts | latencyconverter/utilities/csv_to_hdf5.py:75-77 | one data-latency text without `/` anywhere in the frame aborts the archive |
| CsvToHdf5.OneRowArchive | latencyconverter/utilities/csv_to_hdf5.py:46-91 | a one-row frame whose time parses and whose cell holds `/` gives exactly one group, with the row's values |
| CsvToHdf5.OneRowLoop | latencyconverter/utilities/csv_to_hdf5.py:49-52 | the loop over a single string channel leaves exactly the one group its pass writes |
| CsvToHdf5.TestFrameArchive | latencyconverter/tests/csv_to_h5py/test_csv_to_h5py.py:8-27 | on the unit test's frame the archive is exactly one group `QW.QCN08.9J.HNZ`, with rate `100`, the parsed timestamp, latency `2.3` and samples `556` |
| CsvToHdf5.WriteCsv | latencyconverter/utilities/csv_to_hdf5.py:27-91 | the method leaves a fresh valid file whose groups and outcome are those of the archive function |
| CsvToHdf5.WriteCsvChannels | latencyconverter/utilities/csv_to_hdf5.py:49-91 | the loop leaves what WriteChannels gives for the channels |
| CsvToHdf5.WriteCsvChannel | latencyconverter/utilities/csv_to_hdf5.py:50-91 | one pass leaves what WriteChannel gives |
| CsvToHdf5.FillCsvGroup | latencyconverter/utilities/csv_to_hdf5.py:55-91 | the statements of a pass turn the new group into CsvGroup's group and outcome |
| CsvToHdf5.FillCsvTimes | latencyconverter/utilities/csv_to_hdf5.py:55-65 | the timestamp statements do what CsvTimes gives |
| CsvToHdf5.FillCsvLatency | latencyconverter/utilities/csv_to_hdf5.py:68-72 | the latency statements do what CsvLatency gives |
| CsvToHdf5.FillCsvRates | latencyconverter/utilities/csv_to_hdf5.py:75-91 | the rate and samples statements do what CsvRates gives |
| CsvToHdf5.CsvToH5py | latencyconverter/utilities/csv_to_hdf5.py:27-91 | the current CSV writer is the writer with float32 latency |
| LegacyCsvToHdf5.CsvToH5py | utilities/csv_to_hdf5.py:28-85 | the legacy CSV writer is the writer with int32 latency |
| LegacyCsvToHdf5.GroupRetype | utilities/csv_to_hdf5.py:55-59 | a pass with one latency type leaves the group of a pass with another type, with the latency dataset retyped, and ends the same way (the element type is a tag; see "Left out") |
| LegacyCsvToHdf5.LegacyIsRetyped | utilities/csv_to_hdf5.py:28-85 | the legacy archive is the current one with every latency dataset int32 instead of float32, in the same order and ending the same way (the element type is a tag; see "Left out") |
| JsonToHdf5.InitDataframe | latencyconverter/utilities/json_to_hdf5.py:20-25 | `init_dataframe` has the eight labels and no rows |
| JsonToHdf5.DataFrame | latencyconverter/utilities/json_to_hdf5.py:73 | `pd.DataFrame(df_dict)` has the eight labels in key order, the lists as columns |
| JsonToHdf5.ToFrame | latencyconverter/utilities/json_to_hdf5.py:73 | the frame of rows has one row per element and the eight labels |
| JsonToHdf5.IntervalRow | latencyconverter/utilities/json_to_hdf5.py:62-69 | an interval gives a row exactly when it holds every value the appends read; the row carries the entry's id and those values |
| JsonToHdf5.ReportRows | latencyconverter/utilities/json_to_hdf5.py:34-71 | a report that is not a dictionary raises TypeError; one without `availability` raises KeyError |
| JsonToHdf5.JsonTable | latencyconverter/utilities/json_to_hdf5.py:28-74 | `json_to_table` is the frame of the report's rows, or the exception raised |
| JsonToHdf5.JsonToTable | latencyconverter/utilities/json_to_hdf5.py:28-74 | the method with the nested loops gives the same result as JsonTable |
| JsonToHdf5.CollectEntries | latencyconverter/utilities/json_to_hdf5.py:45-73 | the outer loop gives the frame of the rows of the entries, or the first exception |
| JsonToHdf5.CollectEntry | latencyconverter/utilities/json_to_hdf5.py:45-71 | an outer pass appends the entry's rows to the lists and counts them in `df_index` |
| JsonToHdf5.CollectIntervals | latencyconverter/utilities/json_to_hdf5.py:49-71 | the inner loop appends one row per interval and counts each in `df_index` |
| JsonToHdf5.CountedSnoc | latencyconverter/utilities/json_to_hdf5.py:62-71 | one inner pass keeps the lists equal to the columns of the rows and `df_index` equal to their number |
| JsonToHdf5.IntervalsRowsSpec | latencyconverter/utilities/json_to_hdf5.py:49-69 | the intervals give rows exactly when each holds the needed values; there is then one row per interval, in order |
| JsonToHdf5.EntryRowsSpec | latencyconverter/utilities/json_to_hdf5.py:45-69 | an entry gives rows exactly when it is ready; there is then one row per interval carrying the entry's id |
| JsonToHdf5.EntriesRowsOk | latencyconverter/utilities/json_to_hdf5.py:45-69 | the entries give rows exactly when every entry does |
| JsonToHdf5.EntriesRowsConcat | latencyconverter/utilities/json_to_hdf5.py:45-69 | the rows of the entries are each entry's rows in document order |
| JsonToHdf5.ReportRowsSpec | latencyconverter/utilities/json_to_hdf5.py:28-74 | a report gives a table exactly when it is ready |
| JsonToHdf5.EntriesStop | latencyconverter/utilities/json_to_hdf5.py:45-69 | an entry that raises aborts the table with its exception |
| JsonToHdf5.FrameLabels | latencyconverter/utilities/json_to_hdf5.py:40-42 | the table has exactly the eight labels: no `sample rate`, `samples`, `timestamp` or `latency` column |
| JsonToHdf5.TableRow | latencyconverter/utilities/json_to_hdf5.py:45-73 | interval `j` of entry `i` sits at the row after all earlier intervals, with the entry's id, end time and average latency |
| JsonToHdf5.NoRowsFrame | latencyconverter/utilities/json_to_hdf5.py:20-25 | a report with no intervals gives the `init_dataframe` frame |
| JsonToHdf5.EmptyEntry | latencyconverter/utilities/json_to_hdf5.py:49 | an entry with an empty `intervals` list adds no rows |
| JsonToHdf5.OneIntervalTable | latencyconverter/tests/json_to_h5py/test_json_to_table.py:4-33 | a one-interval report gives one row whose channel is the entry's id and whose average latency is the interval's |
| JsonToHdf5.JsonRate | latencyconverter/utilities/json_to_hdf5.py:91-98 | the rate is `'100'` without a `sample rate` column; otherwise it is row 0 of the whole frame's column, or KeyError("0") on an empty frame |
| JsonToHdf5.JsonSamplesData | latencyconverter/utilities/json_to_hdf5.py:122-128 | the samples data is the whole frame's `samples` column, or empty without one |
| JsonToHdf5.JsonGroup | latencyconverter/utilities/json_to_hdf5.py:88-128 | the pass for a channel leaves a group with that channel's name |
| JsonToHdf5.JsonTimesStep | latencyconverter/utilities/json_to_hdf5.py:101-113 | the end-time step runs to the end exactly when the truncated end times parse; it then appends them as float64 gzip 9 |
| JsonToHdf5.JsonLatencyStep | latencyconverter/utilities/json_to_hdf5.py:116-120 | the latency step runs to the end exactly when the frame has `avgLatency`; it then appends the whole column as int32 gzip 9 |
| JsonToHdf5.JsonSamplesStep | latencyconverter/utilities/json_to_hdf5.py:122-128 | the samples step always runs to the end and appends an uncompressed uint16 dataset |
| JsonToHdf5.JsonGroupPass | latencyconverter/utilities/json_to_hdf5.py:88-128 | a channel's pass runs to the end exactly when its rows are ready |
| JsonToHdf5.JsonGroupContents | latencyconverter/utilities/json_to_hdf5.py:88-128 | a finished group holds the rate attribute, the channel's truncated end times, the whole frame's `avgLatency` and the whole frame's samples (or none), in that order |
| JsonToHdf5.JsonArchivePass | latencyconverter/utilities/json_to_hdf5.py:82-128 | the JSON archive is written to the end exactly when there is a channel column and every distinct channel is a string or `None` whose rows are ready |
| JsonToHdf5.JsonArchiveGroups | latencyconverter/utilities/json_to_hdf5.py:85-88 | a list or dictionary channel cell leaves no group and raises TypeError; otherwise the groups are the passes' groups for the distinct channels other than `None`, in first-appearance order, one per such channel when complete |
| JsonToHdf5.ArchiveReadyByRows | latencyconverter/utilities/json_to_hdf5.py:85-105 | on a frame without `sample rate`, every channel is ready exactly when every row has a `None` channel, or a string channel and an end time that parses |
| JsonToHdf5.RowReadyOfChannel | latencyconverter/utilities/json_to_hdf5.py:86-105 | every row of a ready channel other than `None` has a string channel and an end time whose first 26 characters parse |
| JsonToHdf5.ChannelReadyOfRows | latencyconverter/utilities/json_to_hdf5.py:86-105 | on a frame without `sample rate`, ready rows make every channel of the frame ready |
| JsonToHdf5.JsonChannelGroup | latencyconverter/utilities/json_to_hdf5.py:85-128 | in a complete archive, group `i` belongs to the `i`-th distinct channel other than `None` and holds the truncated end times of exactly the rows of that channel, in row order, and the whole frame's latency |
| JsonToHdf5.LinkedGroup | latencyconverter/utilities/json_to_hdf5.py:85-88 | in a complete archive, group `i` is the pass's group for the `i`-th distinct channel other than `None`, which is a ready string |
| JsonToHdf5.TableArchivePass | latencyconverter/utilities/json_to_hdf5.py:28-128 | the archive of a converted report is written to the end exactly when every row has a `None` id, or a string id and an end time whose first 26 characters parse |
| JsonToHdf5.TableArchiveGroups | latencyconverter/utilities/json_to_hdf5.py:28-128 | group `i` of a converted report's complete archive belongs to the `i`-th distinct id other than `None` and has rate `100`, its own channel's end times, the average latency of EVERY interval of the report, and empty samples |
| JsonToHdf5.ReportGroupOnFrame | latencyconverter/utilities/json_to_hdf5.py:28-128 | a channel's group described on the converted frame has rate `100`, that channel's end times, every row's average latency and empty samples, read on the interval rows |
| JsonToHdf5.JsonToHdf5 | latencyconverter/utilities/json_to_hdf5.py:77-128 | the method leaves a fresh valid file whose groups and outcome are those of the archive function |
| JsonToHdf5.WriteJsonChannels | latencyconverter/utilities/json_to_hdf5.py:85-128 | the loop leaves what WriteChannels gives |
| JsonToHdf5.WriteJsonChannel | latencyconverter/utilities/json_to_hdf5.py:86-128 | one pass leaves what WriteChannel gives |
| JsonToHdf5.FillJsonGroup | latencyconverter/utilities/json_to_hdf5.py:91-128 | the statements of a pass turn the new group into JsonGroup's group and outcome |
| JsonToHdf5.FillJsonTimes | latencyconverter/utilities/json_to_hdf5.py:101-113 | the end-time statements do what JsonTimes gives |
| JsonToHdf5.FillJsonLatency | latencyconverter/utilities/json_to_hdf5.py:116-120 | the latency statements do what JsonLatency gives |
| JsonToHdf5.FillJsonSamples | latencyconverter/utilities/json_to_hdf5.py:122-128 | the samples statements do what JsonSamples gives |
| LegacyJsonToHdf5.StartTimes | utilities/json_to_hdf5.py:92-96 | without a `timestamp` column the start times raise KeyError("timestamp"); otherwise there is one per row |
| LegacyJsonToHdf5.StartTimesSpec | utilities/json_to_hdf5.py:92-96 | the start times exist exactly when the column exists and every cell parses; they are then the parsed times in order |
| LegacyJsonToHdf5.LegacyGroup | utilities/json_to_hdf5.py:89-98 | the group stays empty; the pass runs to the end exactly when the start times convert, and otherwise raises their exception |
| LegacyJsonToHdf5.LegacyJsonToHdf5 | utilities/json_to_hdf5.py:78-98 | the method leaves a fresh valid file whose groups and outcome are those of the legacy archive function |
| LegacyJsonToHdf5.WriteLegacyChannels | utilities/json_to_hdf5.py:86-98 | the loop leaves what WriteChannels gives |
| LegacyJsonToHdf5.WriteLegacyChannel | utilities/json_to_hdf5.py:87-96 | one pass leaves what WriteChannel gives |
| LegacyJsonToHdf5.LegacyArchiveGroups | utilities/json_to_hdf5.py:86-89 | a list or dictionary channel cell leaves no group and raises TypeError; otherwise the groups are empty and named after the distinct channels other than `None`, in order |
| LegacyJsonToHdf5.LegacyArchivePass | utilities/json_to_hdf5.py:86-96 | the legacy archive is written to the end exactly when every distinct channel is a string or `None` whose start times convert |
| LegacyJsonToHdf5.LegacyOnTable | utilities/json_to_hdf5.py:28-98 | on `json_to_table`'s output the legacy writer writes nothing when there are no rows; when some `id` is a list or a dictionary it raises TypeError with no group; otherwise it leaves the first channel's empty group and raises KeyError("timestamp") when that channel is a string; when it is `None` it leaves no visible group and raises KeyError("timestamp"); any other first channel raises TypeError with no group |
| Reports.ReportTable | latencyconverter/utilities/json_to_hdf5.py:28-74 | `json_to_table` on an encoded report is the frame of the report's flattened rows |
| Reports.EncodeEntriesRows | latencyconverter/utilities/json_to_hdf5.py:45-69 | encoded entries give exactly the flattened rows |
| Reports.EncodeIntervalRow | latencyconverter/utilities/json_to_hdf5.py:62-69 | an encoded interval gives the row of its fields |
| Reports.FlattenCount | latencyconverter/utilities/json_to_hdf5.py:71 | the table has one row per interval of the report |
| Reports.FlattenAppend | latencyconverter/utilities/json_to_hdf5.py:45 | the rows of two reports concatenated are their rows one after the other |
| Reports.NoIntervals | latencyconverter/utilities/json_to_hdf5.py:49 | an entry without intervals adds no rows |
| Reports.FlattenRowsFromEntries | latencyconverter/utilities/json_to_hdf5.py:46-62 | every row is the row of an interval of some entry and carries that entry's id |
| BulkStore.WarningText | latencyconverter/utilities/bulk_store.py:35 | the warning is the fixed prefix followed by the file name |
| BulkStore.Dispatch | latencyconverter/utilities/bulk_store.py:30-35 | a store action carries the file name and the destination |
| BulkStore.Trace | latencyconverter/utilities/bulk_store.py:29 | one action per file |
| BulkStore.BulkStore | latencyconverter/utilities/bulk_store.py:16-35 | the loop's trace has one action per file, the dispatch of file `i` at position `i` |
| BulkStore.TraceAt | latencyconverter/utilities/bulk_store.py:29-35 | action `i` of the trace is the dispatch of file `i` |
| BulkStore.TraceAppend | latencyconverter/utilities/bulk_store.py:29 | storing two lists in turn does what storing their concatenation does |
| BulkStore.ExtensionAnywhere | latencyconverter/utilities/bulk_store.py:30-31 | a name with `.csv` anywhere goes to the CSV converter, whatever follows |
| BulkStore.OnlyWarnings | latencyconverter/utilities/bulk_store.py:34-35 | a list without CSV or JSON names gives only warnings, each naming its file |

## Left out

- File input and output are not modelled: `load_csv`, `load_json`, `writehdf5`, `main`, the h5py file on disk and gzip itself. A file is its list of groups. Compression is a tag `Gzip(9)` or `Uncompressed`.
- `strptime(...).timestamp()` is the parameter `epoch`. It depends on the local time zone, and its pattern matching is not modelled. Only where it is called, on what text, and that a parse failure raises are modelled.
- Numeric narrowing is not modelled: h5py converting cells to uint16, int32 or float32 (`sample rate` `'100'` stored as uint16 is a tag). Values stay as the frame holds them, with the dtype recorded beside them. The failures of that conversion are not modelled either: no pass condition in the model says that a cell must convert to its dataset's type.
- `store_csv` and `store_json` are not defined in the modules `bulk_store` imports. They are the actions `StoreCsv` and `StoreJson`, and `logging.warning` is the action `Warning`.
- BulkStore.BulkStore: because `store_csv` and `store_json` are missing from latencyconverter/utilities/csv_to_hdf5.py and json_to_hdf5.py, importing latencyconverter/utilities/bulk_store.py (lines 11-12) raises ImportError, so the loop as shipped never runs. The model describes the loop as written, as if those names existed.
- BulkStore.Trace: the trace is the dispatch of every file under the assumption that each store call returns. A store that raises ends the source loop (latencyconverter/utilities/bulk_store.py:29-33) and later files get no action; the model does not capture that early end.
- The legacy JSON writer's `print(start_timestamps)` (utilities/json_to_hdf5.py:98) is output only. The model keeps whether the conversion raises.
- The legacy `json_to_table` (utilities/json_to_hdf5.py:28-75) is the current one line for line. Both are modelled by `JsonToHdf5.JsonTable`.
- The JSON report test's check for a `latency` column (latencyconverter/tests/json_to_h5py/test_json_to_table.py:34) does not hold for the code: the table has `avgLatency` and no `latency` column. `JsonToHdf5.FrameLabels` states that column's absence.
- The `+overhead` part of a cell is never read by the source. No property about it is stated beyond its being ignored.
- NaN channel values are not modelled apart from their type: a list or dictionary channel makes `unique()` raise TypeError before any group exists, and a number or a boolean raises TypeError at `create_group`. `None` is modelled: its pass runs on the empty selection, and the anonymous group it gets is a scratch `File` that the output file does not link to. h5py's actual object for that group (its id, and whether it is kept after the file closes) is not modelled.
- A loaded JSON object has distinct keys. `Dict` keeps them in insertion order; duplicate keys, which `json.load` collapses, are not modelled.
- latencyconverter/utilities/file_search.py, the bin/ front ends and setup.py are not part of this model.
- Hdf5.File.CreateGroup: h5py reads a group name as a path. `create_group("a/b")` also creates the intermediate group `a`, and an empty name raises ValueError. The model treats a name as a flat label, so channel names that are empty or contain `/` are outside the model. For channels `a/b` then `a` the source raises ValueError at the second `create_group`, while the model creates two sibling groups.
- Hdf5.WriteChannels: "at most one visible group per channel" holds for flat names only; a channel containing `/` makes h5py create its intermediate groups as well (see Hdf5.File.CreateGroup).
- Hdf5.WriteChannelsPass: its pass condition ignores h5py's path rules, so empty channel names and ones whose `/`-prefix is already a group pass in the model but raise ValueError in the source.
- Hdf5.WriteChannelsPassWhen: same gap as Hdf5.WriteChannelsPass for empty or path-like channel names.
- CsvToHdf5.CsvArchivePass: its pass condition does not exclude empty or path-like channel names, on which `create_group` raises ValueError. It also ignores numeric-conversion failures (see the numeric narrowing line above).
- CsvToHdf5.OneRowArchive: for the channel `""` h5py raises ValueError, while the model gives one group; the lemma holds for non-empty names without `/`.
- JsonToHdf5.JsonArchivePass: same gap for empty or path-like channel ids, and for numeric-conversion failures.
- JsonToHdf5.TableArchivePass: same gap for empty or path-like channel ids in the report, and for numeric-conversion failures.
- LegacyJsonToHdf5.LegacyArchivePass: same gap for empty or path-like channel names.
- LegacyCsvToHdf5.LegacyIsRetyped: because the element type is only a tag, the legacy int32 writer ends like the float32 one. In the source, h5py fails with ValueError when it converts a text such as `'2.3'` to int32. The repository's own test frame (latencyconverter/tests/csv_to_h5py/test_csv_to_h5py.py:12, latency `'2.3'`) therefore completes in the current writer but raises in the legacy one at utilities/csv_to_hdf5.py:55-59.
- LegacyCsvToHdf5.GroupRetype: same gap as LegacyCsvToHdf5.LegacyIsRetyped; a pass ends the same way whatever the latency type.
- CsvToHdf5.CsvGroupPass: the pass condition ignores h5py's conversion failures. Examples are a samples or rate text that is not a number (`=556/abc+1`, `=556/+1`), a rate above 65535 stored as uint16, and a latency text stored as int32.
- JsonToHdf5.JsonGroupPass: the pass condition ignores h5py's conversion failures, such as a null `avgLatency` stored as int32.
- The listing order of groups in a file read back is not modelled. `File.groups` records the order in which groups are created. h5py lists a group's members by name unless `track_order` is set, and the converters never set it (latencyconverter/utilities/csv_to_hdf5.py:46, latencyconverter/utilities/json_to_hdf5.py:82).
- The concurrency of several conversions, and h5py's behaviour on an existing file beyond mode `'w'` truncating it, are not modelled.
