# context: a verified model of a daily-notes CLI

`context` keeps one plain-text note per topic and day in a fixed directory.
Every note file is called `YYYY-MM-DD-<name>.ctx`. The tool has five commands:

- `alloc` opens today's note of a name in the editor.
- `ls` lists the notes (optionally only the last N days), one line each.
- `reuse` copies yesterday's note of a name into today's note, unless today's already exists, and opens it.
- `view` opens a note read-only by its id.
- `fsearch` prints a one-line preview of every note.

The ids are not stored anywhere. Each run builds the repository again: it
parses every note file into a record, sorts the records by date, and writes
`id = place + 1` into each record.

This Dafny project models that core:

- `wrappers.dfy`: `Option` and `Result`.
- `text.dfy`: the Python string operations the tool relies on, with Python's
  semantics stated explicitly:
  - slicing with clamped and negative bounds;
  - `str.split` and `sep.join`, with round-trip lemmas in both directions;
  - `''.join(s.splitlines())` over Python's full set of line breaks;
  - `str(n)` and `int(s)`, with their round trip;
  - `pad_right`, both as the loop the program runs and as the function that specifies it.
- `dates.dfy`: dates as Python's day ordinals (`date.toordinal()`), so that
  `from_today(k)` is `today + k`.
  - A float day count is rounded to whole microseconds, half to even, and the date then moves by the whole days of that, rounded down, as `timedelta` does.
  - A date outside `date.min..date.max` is the OverflowError.
  - The `'%Y-%m-%d'` codec (strftime and strptime) is an abstract `Calendar`.
  - `ValidCalendar` states the three facts the model relies on:
    - from 1000-01-01 to 9999-12-31, a date's text is ten characters of the form `DDDD-DD-DD`;
    - over the same range, parsing that text gives the date back;
    - text that parses holds no tab.
  - A calendar that writes a day number as eight digits meets `ValidCalendar`, so the lemmas that require it are not vacuous.
- `paths.dfy`: the file-name codec.
  - The glob `*.ctx` over a directory listing.
  - `data_from_path`, which splits a base name into its date text, date and name.
  - `path_preview`, which builds a new note's path.
  - The round trip between the last two.
- `repository.dfy`: `build_contexts` and the lookups.
  - A record is a `Context` object: its parsed fields are constants, and its `id` is a field written in place.
  - The same objects sit in the enumeration-order list and in the sorted list.
  - The first loop parses every path into a new record.
  - The second loop walks the stably sorted records and numbers them.
  - What the numbering means is proved of the returned list, which is in enumeration order:
    - the ids are exactly 1..N, each used once;
    - an earlier date has a smaller id;
    - equal dates keep the order of the listing.
  - `find_context_by` is a first-match scan with `break`, proved against `FirstMatch`.
- `queries.dfy`: `list_contexts`, a filter of the sorted records.
  - The main lemma is that a stable sort commutes with the filter.
  - From it follow:
    - exactly the records of the range come back, in date order;
    - none come back when there are none;
    - a single day's records come back in listing order.
- `commands.dfy`: the five commands, each as the sequence of its effects.
  - An effect is a plain line, a green line, or the editor opened on a path.
  - `reuse` runs over a `FileSystem` object whose `files` map it updates.
  - Its copy-if-absent step never overwrites a file and adds at most today's note.

## Model

| member | source | states |
|---|---|---|
| Text.SliceBound | main.py:39 | the index that a Python slice bound denotes never exceeds the length (negative bounds count from the end) |
| Text.StripLineBreaks | main.py:83 | the flattened content has no line break of any kind `splitlines` knows, keeps every other character with its multiplicity, and leaves text without breaks unchanged |
| Text.StripLineBreaksConcat | main.py:83 | flattening keeps the order of the text: flattening `a + b` is flattening `a`, then flattening `b` |
| Text.StripLineBreaksChar | main.py:83 | a single character is dropped exactly when it is a line break, so with the lemma above the flattened text is the content's non-break characters in their order |
| Text.Padded | main.py:87-91 | for a non-negative count the result has exactly `count` characters, is `text` where `text` reaches and blanks after; a negative count drops characters from the end |
| Text.PaddedKeepsExactFit | main.py:88-90 | text that is already `count` characters long comes back unchanged |
| Text.PadRight | main.py:87-91 | the truncate-then-append-blanks loop computes `Padded(text, count)` |
| Text.NatText | main.py:85 | `str(n)` of a natural number is a non-empty run of decimal digits, starting with '0' only for 0 (no leading zeros) |
| Text.IntText | main.py:147 | `str(i)` is non-empty, all digits but for a leading minus sign, which is there exactly for negative numbers and is never followed by '0' (no "-0", no leading zeros) |
| Text.ParseInt | main.py:21 | `int(s)` succeeds exactly on an optionally signed non-empty run of ASCII digits |
| Text.NatTextValue | main.py:21 | the digits of `str(n)` have the value `n` |
| Text.IntTextRoundTrip | main.py:21 | `int(str(i)) == i` for every integer, so a printed id reads back as the same id |
| Text.Split | main.py:41 | `str.split` yields at least one piece, no piece holds the separator, and the first piece is the prefix up to the first separator |
| Text.JoinSplit | main.py:41 | joining the pieces of a split with the separator gives the string back |
| Text.SplitAfterPiece | main.py:41 | a piece free of the separator followed by the separator splits off as the first piece |
| Text.SplitWithoutSeparator | main.py:41 | a string without the separator splits into itself alone |
| Text.SplitJoin | main.py:85 | pieces free of the separator come back from splitting their join |
| Dates.FromToday | main.py:96-98 | the day `days` from today lies before today for negative offsets, after it for positive ones, and at offset `days` |
| Dates.RoundHalfEven | main.py:97 | the nearest integer, within a half, a tie going to the even neighbour |
| Dates.DeltaDays | main.py:97 | `timedelta(days=x)` moves a date by the whole days of `x` rounded to microseconds, so `x` lies from half a microsecond below that day count to half a microsecond below the next |
| Dates.FromTodayReal | main.py:96-98 | `from_today(x)` for a float fails exactly when the day lies outside 0001-01-01..9999-12-31; otherwise it is the day on which `today + x` falls, after rounding to whole microseconds |
| Dates.SomeValidCalendar | main.py:11-17 | some codec has every property the model assumes of strftime and strptime |
| Paths.Basename | main.py:38 | the base name of a path holds no '/' |
| Paths.BasenameOfEntry | main.py:35-38 | the base name of `dir/entry` is the entry when the entry holds no '/' |
| Paths.ContextsPaths | main.py:34-35 | the glob yields at most one path per directory entry |
| Paths.ContextsPathsSelectNotes | main.py:34-35 | the glob yields `dir/e` for every non-hidden entry ending in `.ctx` and nothing else |
| Paths.DataFromPath | main.py:37-49 | parsing fails exactly when the first ten characters of the base name are not a date, with that path as the error; otherwise the record holds the path, the base name, its first ten characters and their date, and a name that is the text after index 11 up to its first '.' |
| Paths.PathPreview | main.py:93-94 | the new note's path lies in the notes directory and ends in the note extension |
| Paths.PreviewListed | main.py:93-94 | for a day from 1000-01-01 on, the new note's file is one the glob `*.ctx` selects, and listing it yields exactly the path built |
| Paths.PreviewRoundTrip | main.py:93-94 | for a day from 1000-01-01 on, the path of today's note called `name` (no '.' or '/' in it) parses back to today's date text, today's date and `name` |
| Repository.Context.constructor | main.py:43-49 | a new record holds the parsed fields and no id yet |
| Repository.InsertPos | main.py:32 | a stable insertion goes after every record not later than the new one and before the first later one |
| Repository.InsertPerm | main.py:32 | insertion adds the record and keeps all others |
| Repository.InsertSorted | main.py:32 | insertion into a date-sorted list keeps it sorted |
| Repository.InsertDistinct | main.py:32 | insertion of a new record keeps the records distinct |
| Repository.SortByDate | main.py:31-32 | `sorted(contexts, key=date)` has the input's length and is sorted by date |
| Repository.SortPerm | main.py:31-32 | the sort is a permutation of its input |
| Repository.SortMembers | main.py:31-32 | the sort holds every record of the input and no other |
| Repository.SortDistinct | main.py:31-32 | sorting distinct records gives distinct records |
| Repository.SortKeepsOrder | main.py:31-32 | the sort is stable: an earlier date, or the same date earlier in the input, comes first in the output |
| Repository.IdsAreOneToN | main.py:58-59 | after numbering, the ids in use are exactly 1..N |
| Repository.IdsFollowDates | main.py:58-59 | the numbering uses each id once, gives an earlier date a smaller id, and gives equal dates ids in listing order |
| Repository.ParseAll | main.py:53-56 | every listed path parses, in order, or the result is the error of the first path that does not |
| Repository.MakeRecords | main.py:55-56 | one new, distinct, not yet numbered record per parsed note, in order |
| Repository.ParseContexts | main.py:53-56 | the first loop yields the first parse error, or one new distinct record per path holding that path's parsed fields |
| Repository.NumberByDate | main.py:58-59 | the second loop gives each record one more than its place in the stable sort, so the ids are 1..N, unique, and ordered by date and then by listing order |
| Repository.BuildContexts | main.py:51-61 | the records come back in listing order (not sorted), one per note file, each fresh and numbered by its place in date order; the first unparseable name is the error |
| Repository.FirstMatch | main.py:23-29 | none exactly when no record holds the field, otherwise the first record that does |
| Repository.FindContextBy | main.py:23-29 | the scan with `break` returns the first match |
| Repository.FindContext | main.py:20-21 | text that `int` rejects is an error; otherwise the first record with that id |
| Repository.FindListedId | main.py:20-21 | after numbering, looking up the text of a record's id finds that record |
| Queries.Filter | main.py:69-73 | filtering never lengthens the list |
| Queries.FilterConcat | main.py:73 | filtering distributes over concatenation |
| Queries.FilterMembers | main.py:69-73 | the filter keeps exactly the records dated within [begin, end] |
| Queries.FilterInsertIn | main.py:68-73 | filtering a sorted list after a stable insertion of a record in range is the stable insertion into the filtered list |
| Queries.FilterInsertOut | main.py:68-73 | inserting a record out of range does not change what the filter keeps |
| Queries.SortFilterCommute | main.py:68-73 | filtering the sorted records gives the stable sort of the records in range |
| Queries.SortSameDate | main.py:31-32 | records of a single date are already in sorted order |
| Queries.ListMembers | main.py:63-73 | the records in range of the sorted list are exactly the records in range |
| Queries.ListContexts | main.py:63-73 | `list_contexts(begin, end)` is the stable sort of the records dated within [begin, end]: sorted, holding each such record and no other, and empty for an empty repository |
| Queries.ListSingleDay | main.py:63-73 | the records of one day come back in listing order |
| Queries.Fsearch | main.py:75-76 | the search ignores its query and returns every record |
| Commands.FileSystem.constructor | main.py:172-173 | the file system holds the given files |
| Commands.FileSystem.CopyIfAbsent | main.py:172-173 | an existing target is left alone; otherwise the target gets the source's content, and a missing source is an error that changes nothing |
| Commands.Alloc | main.py:115-119 | alloc opens exactly one file, for editing |
| Commands.AllocOpensTodaysNote | main.py:115-119 | alloc opens the editor on a path that reads back as today's note called `name` |
| Commands.LsSelection | main.py:133-138 | without a maximum age all records in date order; with age `x` the OverflowError when `from_today(-x)` leaves the range of dates, else the records from that day up to today in date order |
| Commands.LsSelectionStart | main.py:136-138 | a positive age `x` starts the listing `x` days ago, rounded to whole microseconds and then up to whole days, never after today |
| Commands.LsSelectionStartExamples | main.py:136-138 | `--max-age 1.5` starts two days ago; `--max-age 1.000000000001` starts yesterday |
| Commands.LsLine | main.py:143-152 | `-sf` prints the file name whatever `-sn` says; otherwise `-sn` prints the name; with neither, the id, the date text and the name joined by tabs |
| Commands.LsDefaultLineFields | main.py:147 | the default line is the id, the date text and the name at its tabs, and its first field reads back as the id |
| Commands.LsLines | main.py:143-157 | one line per record in order, each being that record's line, green exactly when the record's date text is today's |
| Commands.Ls | main.py:128-157 | an age that leaves the range of dates crashes before any output; otherwise one line per selected record in date order, each being that record's line, green exactly when the record's date text is today's |
| Commands.Preview | main.py:83-84 | the preview is exactly 30 characters, has no line break, and is the flattened content cut to 30 characters, with blanks only past its end |
| Commands.FormatSearchResult | main.py:78-85 | the search line is the id, the date text, the 30-character preview and the name, joined with tabs |
| Commands.SearchLineFields | main.py:85 | a search line splits back at its tabs into the id, the date text, the preview and the name |
| Commands.FsearchCommand | main.py:121-126 | one search line per record in listing order; the first record whose file is missing ends the command with that error after the lines before it |
| Commands.FindYesterdays | main.py:162-164 | the note reuse starts from is the first note called `name` among yesterday's notes in date order |
| Commands.ReuseFound | main.py:166-175 | no note: a message and no change; otherwise today's note is opened, after copying the found note into it only when it does not exist; no file is overwritten |
| Commands.Reuse | main.py:159-175 | no note of that name yesterday: a message and nothing changes; otherwise today's note is opened, and it is first filled with yesterday's content only when it did not exist; no file is ever overwritten and only today's note can be added |
| Commands.View | main.py:177-185 | text that is not an integer is an error; an unknown id prints "Context not found"; otherwise the record's file is opened read-only |

## Left out

- The editor launches (`vim` and `view` through `subprocess.call`) are not executed. The model records them as `OpenEditor(path, readOnly)` effects.
- click's option parsing and command registration are not modelled. In particular:
  - the `--max-age` default of infinity is `None`, and the flag without a value is the caller's `Some(1)`;
  - alloc's default name `root` is the caller's argument.
- click's colouring is reduced to a green-or-plain tag on each printed line.
- Commands.LsSelection: `--max-age` is a float. The model takes it as the exact real number the float stands for. The values `inf` and `nan` are not reals: an explicit `inf` behaves like the default (all notes), and `nan` makes `timedelta` raise ValueError. Neither is modelled.
- `datetime.strptime`/`strftime` are an abstract `Calendar`, so the leap-year and range checks of real dates are not modelled. Only the properties in `ValidCalendar` are assumed, and only for the years 1000 to 9999. `str(today)` (used in `path_preview`) and `strftime('%Y-%m-%d')` are taken as one format, which also holds only for those years. So Paths.PreviewRoundTrip, Paths.PreviewListed and Commands.AllocOpensTodaysNote require today to lie in them.
- The wall clock: `today` is a parameter of every command that uses it.
- Text.ParseInt: Python's `int()` also accepts surrounding whitespace, underscores between digits and non-ASCII decimal digits. The model accepts only an optional sign followed by ASCII digits.
- Paths.ContextsPaths: `glob` also yields directories whose names match `*.ctx`, and its order is whatever the operating system lists. The model takes the listing as an input sequence of entry names and uses its order.
- Paths.Basename: the model states only that the base name holds no '/'. That it is the text after the last '/' is used only for a path built from a directory and an entry, through Paths.BasenameOfEntry.
- Reading a file and copying a file are a map from path to content. A missing file is the `FileNotFound` error; permissions and other I/O errors are not modelled.
- `functools.cache` on `build_contexts`: the model builds the records once and passes them to the commands that use them.
- Repository.ParseContexts: parsing every path happens before any record is allocated, instead of path by path. Records allocated before a parse error are never seen by anyone, so the results are the same.
- `find_context_by` is called only with the keys `id` and `name`, so Repository.Field has only those two.
- The name is the text after the date up to its first '.' (`split('.')[0]`). So the Paths.PreviewRoundTrip round trip holds only for names without a '.'.
- Ids of notes with the same date follow the order of the directory listing, because Python's sort is stable.
- reuse's `from_today(-1)` would raise OverflowError only when today is 0001-01-01. The model takes the clock's date as later than that and does not model that crash.
