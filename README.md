# UnixFileMappingReader in Dafny

A model of `Youwe\FileMapping\UnixFileMappingReader`, the PHP iterator that
turns list files (one relative path per line) into file mappings from a
source directory to a target directory. The reader is constructed with the
two directories and the paths of its list files; on the first iterator call
it reads every list file once, drops the raw lines PHP treats as falsy, trims
the rest, wraps each into a mapping, and caches the result in an
`ArrayIterator` to which every iterator method then delegates.

Files:

- `wrappers.dfy` — `Option`, `Result` and `Outcome`: a call's value or the
  exception it raised.
- `php.dfy` — the PHP runtime behaviour the reader depends on: string
  truthiness (`IsFalsy`: only `""` and `"0"`), `trim()` over its default
  character set, and integer-keyed arrays as ordered `Entry(key, value)`
  lists with the key behaviour of `array_merge` (renumbers), `array_filter`
  (keeps keys) and single-array `array_map` (keeps keys).
- `file_mappings.dfy` — the pure pipeline: `ReadAll` (the raw lines of all
  list files in order, or the first file that cannot be opened), `Build`
  (`array_map` of the mapping closure over `array_filter` of the merged
  lines) and the lemmas about them.
- `reader.dfy` — the classes: `ArrayIterator` (the part of SPL's iterator the
  reader uses) and `UnixFileMappingReader`, whose nullable `mappings` field is
  filled once by `GetMappings`, with a `while` loop that merges the files'
  lines as the source's `foreach` does. A client method at the end walks a
  reader whose list file has disappeared after the first call.

The files on disk are a parameter `fs: FileSystem` (path to raw lines) of
every iterator method: it is the state of the list files at the time of that
call. Once the cache exists, every later call ignores `fs`, which is how the
model shows that the files are read at most once.

Behaviour taken from the code:

- `key()` is not the rank of the mapping among the mappings. `array_merge`
  numbers the merged raw lines 0, 1, 2, ..., and `array_filter` and
  `array_map` keep those keys, so `key()` is the index of the mapping's line
  among all raw lines, with gaps where lines were dropped (`KeysKeepGaps`).
- The filter looks at the untrimmed line. A line of whitespace only survives
  and yields an empty relative path (`WhitespaceLineMapsToEmptyPath`); a raw
  line that is exactly `"0"` is dropped like an empty one.
- A list file that cannot be opened raises before the cache is assigned, so
  the cache stays null and the next iterator call reads the files again.
  "Loaded at most once" holds for successful loads.
- `key()` and `current()` past the end receive null from the `ArrayIterator`;
  their non-nullable return types make that a TypeError, modelled as the
  result `Failure(InvalidPosition)` rather than as a precondition.
- The constructor is variadic, so zero list files are accepted; the reader
  then yields nothing.

## Model

| member | source | states |
|---|---|---|
| `Reader.UnixFileMappingReader.constructor` | vendor/youwe/file-mapping/src/UnixFileMappingReader.php:37-45 | records the two directories and the list-file paths; no file is read and the cache is null |
| `Reader.UnixFileMappingReader.GetMappings` | vendor/youwe/file-mapping/src/UnixFileMappingReader.php:52-80 | once the cache exists it is returned unchanged whatever the files now hold; otherwise the cache becomes `Build` of the lines of all list files read in order, starting at the first mapping, or stays null and the first unopenable path is raised |
| `Reader.UnixFileMappingReader.Next` | vendor/youwe/file-mapping/src/UnixFileMappingReader.php:87-90 | loads at most once, then moves the cursor one mapping on (not past the end) |
| `Reader.UnixFileMappingReader.Key` | vendor/youwe/file-mapping/src/UnixFileMappingReader.php:97-100 | loads at most once, then returns the key of the cached entry under the cursor, or a TypeError past the end; the cursor does not move |
| `Reader.UnixFileMappingReader.Valid` | vendor/youwe/file-mapping/src/UnixFileMappingReader.php:107-110 | loads at most once, then answers whether the cursor is on a cached mapping |
| `Reader.UnixFileMappingReader.Rewind` | vendor/youwe/file-mapping/src/UnixFileMappingReader.php:117-120 | loads at most once, then puts the cursor on the first mapping without reading any file again |
| `Reader.UnixFileMappingReader.Current` | vendor/youwe/file-mapping/src/UnixFileMappingReader.php:127-130 | loads at most once, then returns the mapping under the cursor, or a TypeError past the end |
| `Reader.ArrayIterator.constructor` | vendor/youwe/file-mapping/src/UnixFileMappingReader.php:62 | the cache holds the built entries and its cursor starts on the first one |
| `Reader.ArrayIterator.Next` | vendor/youwe/file-mapping/src/UnixFileMappingReader.php:89 | the delegated `next()` advances by one and stays at the end once there |
| `Reader.ArrayIterator.Rewind` | vendor/youwe/file-mapping/src/UnixFileMappingReader.php:119 | the delegated `rewind()` resets the cursor to the first entry |
| `Reader.ArrayIterator.Valid` | vendor/youwe/file-mapping/src/UnixFileMappingReader.php:109 | the delegated `valid()` is true exactly when the cursor is on an entry |
| `Reader.ArrayIterator.Key` | vendor/youwe/file-mapping/src/UnixFileMappingReader.php:99 | the delegated `key()` gives the entry's own key, or null past the end |
| `Reader.ArrayIterator.Current` | vendor/youwe/file-mapping/src/UnixFileMappingReader.php:129 | the delegated `current()` gives the entry's value, or null past the end |
| `FileMappings.ReadAllSucceeds` | vendor/youwe/file-mapping/src/UnixFileMappingReader.php:57-60 | reading all list files succeeds exactly when every path can be opened |
| `FileMappings.ReadAllFirstFailure` | vendor/youwe/file-mapping/src/UnixFileMappingReader.php:57-58 | the error raised names the first path, in the given order, that cannot be opened |
| `FileMappings.ReadAllConcatenates` | vendor/youwe/file-mapping/src/UnixFileMappingReader.php:57-60 | the merged raw lines are the files' lines concatenated in the order of the paths, each file in its own line order |
| `FileMappings.BuildEntriesAreSurvivors` | vendor/youwe/file-mapping/src/UnixFileMappingReader.php:59-75 | every cached entry is keyed by the index of a non-falsy raw line in the merged lines and holds the mapping of that line, trimmed, between the configured directories |
| `FileMappings.BuildKeepsEverySurvivor` | vendor/youwe/file-mapping/src/UnixFileMappingReader.php:62-75 | a raw line has its entry in the cache exactly when it is not falsy |
| `FileMappings.BuildKeepsOrder` | vendor/youwe/file-mapping/src/UnixFileMappingReader.php:62-75 | cached keys increase, so mappings come in the order of their raw lines |
| `FileMappings.BuildCount` | vendor/youwe/file-mapping/src/UnixFileMappingReader.php:62-75 | the number of mappings is the number of non-falsy raw lines |
| `FileMappings.BuildEmpty` | vendor/youwe/file-mapping/src/UnixFileMappingReader.php:71-74 | the cache is empty, so `valid()` is false after `rewind()`, exactly when every raw line is falsy |
| `FileMappings.WhitespaceLineMapsToEmptyPath` | vendor/youwe/file-mapping/src/UnixFileMappingReader.php:64-74 | a whitespace-only raw line survives the filter and maps, under its own index, to an empty relative path |
| `FileMappings.BuildAppend` | vendor/youwe/file-mapping/src/UnixFileMappingReader.php:57-75 | the mappings of a later file follow those of the earlier lines, with keys moved on by the number of earlier raw lines |
| `FileMappings.KeysKeepGaps` | vendor/youwe/file-mapping/src/UnixFileMappingReader.php:59-74 | lines `x`, `""`, `y` give two mappings under keys 0 and 2, not 0 and 1 |
| `Php.ArrayMerge` | vendor/youwe/file-mapping/src/UnixFileMappingReader.php:59 | `array_merge` keeps the values of both arrays in order and renumbers the keys from 0 |
| `Php.ArrayFilter` | vendor/youwe/file-mapping/src/UnixFileMappingReader.php:72-74 | `array_filter` keeps exactly the elements whose value is not falsy, with their keys |
| `Php.ArrayFilterCount` | vendor/youwe/file-mapping/src/UnixFileMappingReader.php:72-74 | `array_filter` keeps one element per truthy value |
| `Php.ArrayFilterIncreasing` | vendor/youwe/file-mapping/src/UnixFileMappingReader.php:72-74 | `array_filter` keeps the order of the elements it keeps |
| `Php.ArrayFilterAppend` | vendor/youwe/file-mapping/src/UnixFileMappingReader.php:72-74 | filtering a concatenation filters each part |
| `Php.ArrayFilterShift` | vendor/youwe/file-mapping/src/UnixFileMappingReader.php:72-74 | filtering does not depend on keys |
| `Php.FirstKept` | vendor/youwe/file-mapping/src/UnixFileMappingReader.php:68 | `trim` skips only trim characters at the front, and stops at the first character that is not one |
| `Php.PastLastKept` | vendor/youwe/file-mapping/src/UnixFileMappingReader.php:68 | `trim` drops only trim characters at the back, and stops after the last character that is not one |
| `Php.TrimEnds` | vendor/youwe/file-mapping/src/UnixFileMappingReader.php:68 | `trim` leaves no trim character at either end, and gives `""` exactly for a line of trim characters only |
| `Php.TrimSplit` | vendor/youwe/file-mapping/src/UnixFileMappingReader.php:68 | a line is stripped characters, then its trimmed form, then stripped characters |
| `Php.TrimKeepsTrimmed` | vendor/youwe/file-mapping/src/UnixFileMappingReader.php:68 | a line already free of trim characters at both ends is unchanged |
| `Php.TrimIdempotent` | vendor/youwe/file-mapping/src/UnixFileMappingReader.php:68 | trimming twice is trimming once |

## Left out

- Opening and reading list files with `SplFileObject` (line 58): replaced by the `FileSystem` parameter. An absent path stands for every way opening can fail (missing, unreadable, a directory); the kind of exception is not distinguished, and errors while reading an opened file are not modelled.
- Line terminators: whether a raw line carries its newline is up to `SplFileObject`; the model takes the raw lines as given.
- `UnixFileMapping` is not part of this model: a mapping keeps its two directories and its relative path, and how they are joined into source and target paths is not modelled.
- `FileMappingReaderInterface` and `FileMappingInterface`: interfaces with no behaviour of their own.
- `ArrayIterator` methods the reader does not call (`count`, `seek`, changes to the array) are not modelled.
- PHP integers are 64-bit; keys are unbounded `nat` here, which only differs beyond 2^63 lines.
- Concurrent use of one reader is not modelled; the source has no locking.
