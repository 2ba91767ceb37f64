# strmr backend core in Dafny

This project models the core logic of the strmr (novastream) media-streaming backend and proves properties of it. The backend is written in Go, with one Python adapter. Each core source file has its own Dafny module, and the module follows the file's own form. Stateful objects are classes whose methods are proved against specification functions. Pure helpers are functions with lemmas.

The modules and what they cover:

- **UsenetRange, UsenetSegment** (`internal/usenet/range.go`, `segment.go`):
  - mapping an inclusive byte window of a file onto its ordered Usenet segments, with per-segment trim offsets;
  - the segment cursor;
  - segment length, completeness and the NNTP buffer limit;
  - the skip reader.
- **FsTypes, RemoteFile, MemoryFs** (`internal/nzb/filesystem/types.go`, `remote_file.go`, `internal/importer/memory_filesystem.go`):
  - the range tracker;
  - path normalisation and the open checks;
  - HTTP byte ranges clamped to the file, including suffix ranges (section 2.1 of RFC 7233);
  - the range-reader cache keyed by `"start-end"`;
  - the read loop and its cursor;
  - a seekable in-memory file.
- **UsenetFactory, MetadataProvider, Registry** (`services/streaming.old/`):
  - segment-window sizing;
  - container and content-type detection;
  - the 200/206 and Content-Range decision (section 4.2 of RFC 7233);
  - the range override;
  - NZB file selection, file-name sanitising, yEnc size extraction and the naming and size rules of registration.
- **UsenetUtils** (`internal/usenet/utils.go`): the extension helpers and the group summary.
- **LinkMapping, DebridStreaming, DebridPlayback, DebridProxy** (`services/debrid/`):
  - the restricted-link index mapping;
  - the `/debrid/{provider}/{torrent}[/file/{id}][/{name}]` path, and its parse;
  - the URL cache with its TTL;
  - the composite provider's fallback order;
  - resolution of a debrid result;
  - archive detection;
  - filtering of cached results;
  - the proxy's request checks.
- **PlaybackService** (`services/playback/service.go`):
  - NZB naming and Content-Disposition file names (a simplified section 4.1 of RFC 6266);
  - queue status and metadata;
  - the media-file choice of a completed download;
  - the resolution built from a queue item.
- **Filter, Language, Parsett, ParseTitleBatchScript** (`utils/filter`, `utils/language`, `utils/parsett`, `parse_title_batch.py`):
  - the search-result filter pipeline;
  - language-code normalisation and equivalence;
  - the batch title parse and the map built from it.
- **HlsHealth** (`handlers/hls_quorum_test.go`): the tiered session-health rule.
- **AdminUi, PlexAccounts** (`handlers/admin_ui.go`, `plex_accounts.go`):
  - the admin session store and login;
  - counters and the status summary;
  - Plex account visibility, creation, ownership, connection and history parameters.
- **Nntp** (`services/usenet/nntp.go`):
  - the status-line parse;
  - greeting and AUTHINFO authentication (RFC 3977, RFC 4643);
  - the STAT article check.
- **Trakt, MdbList** (`services/trakt/client.go`, `services/metadata/mdblist_client.go`):
  - credentials, headers, the token poll, pagination, IDs and media types;
  - rating scales, the ratings cache and its invalidation.
- **Config** (`config/adapter.go`): NNTP provider mapping and the configuration adapter.
- **Pin** (`utils/pin.go`): PIN validation and the arithmetic of generation.
- **Models** holds the shared records.
- **Wrappers, Strs and Paths** hold `Option`/`Result`, string helpers and a lexical `filepath.Clean`.

Clocks, random draws, HTTP and NNTP peers, the title parser, similarity scores and the metadata readers are parameters of the operations that use them.

## Model

| member | source | states |
|---|---|---|
| UsenetRange.OffsetMonotone | backend/internal/usenet/range.go:48-49 | the logical file position only grows from one loader entry to the next |
| UsenetRange.FromEntryBounds | backend/internal/usenet/range.go:77-92 | the trimmed read window stays inside the entry's usable bytes, and its length is the overlap of the entry with [start, end] |
| UsenetRange.StepAtMeaning | backend/internal/usenet/range.go:57-97 | an entry with no usable bytes is ignored; one ending before start is skipped; one beginning after end stops the loop; an overlapping one is taken |
| UsenetRange.RangePlanInvalid | backend/internal/usenet/range.go:40-43 | a negative start or an end below start gives no segments |
| UsenetRange.RangePlanBound | backend/internal/usenet/range.go:112-119 | with a positive limit, at most that many segments are built |
| UsenetRange.RangePlanOrigins | backend/internal/usenet/range.go:51-110 | segments come from loader entries in increasing index order, each exactly the part of its entry that overlaps [start, end] |
| UsenetRange.RangePlanLength | backend/internal/usenet/range.go:20-27 | with no limit and enough loader data, the trimmed lengths add up to end - start + 1 |
| UsenetRange.Int64AccumulatedLen | backend/internal/usenet/range.go:140-146 | the sum of End - Start + 1 over the segments |
| UsenetRange.CollectRange | backend/internal/usenet/range.go:45-132 | the loop builds exactly the planned windows, including the early stop on the accumulated length |
| UsenetRange.NewSegments | backend/internal/usenet/range.go:99-110 | one new open segment per window, in order, carrying that window |
| UsenetRange.GetSegmentsInRangeWithLimit | backend/internal/usenet/range.go:34-43 | the range keeps the requested start and end, starts at cursor 0, and holds the planned segments |
| UsenetRange.GetSegmentsInRange | backend/internal/usenet/range.go:28-30 | the same as the limited form with the limit 0 |
| UsenetSegment.Segment.constructor | backend/internal/usenet/segment.go:126-141 | a new segment shows the given window, with nothing read, nothing bound, and its pipes open |
| UsenetSegment.Segment.Length | backend/internal/usenet/segment.go:239-241 | End - Start + 1 of the window |
| UsenetSegment.Segment.AdjustToBytesRead | backend/internal/usenet/segment.go:243-274 | a negative total counts as 0; the bound, the read window and the length all become the total; the size becomes the decoder's part size when it is positive, else the total |
| UsenetSegment.Segment.AddBytesRead | backend/internal/usenet/segment.go:276-288 | a positive count is added to the bytes read; other counts change nothing |
| UsenetSegment.Segment.Close | backend/internal/usenet/segment.go:343-365 | the segment no longer holds its pipes |
| UsenetSegment.CompleteExcludesIncomplete | backend/internal/usenet/segment.go:294-310 | a segment is never complete and incomplete at once; incomplete means some but not all of a non-empty window was read |
| UsenetSegment.BufferLimitMeaning | backend/internal/usenet/segment.go:316-333 | the limit is hit exactly when a partial read reached the 2 MiB physical offset inside a segment that extends beyond it |
| UsenetSegment.SegmentRange.Get | backend/internal/usenet/segment.go:77-83 | the segment under the cursor, or ErrSegmentLimit exactly when the cursor is past the end |
| UsenetSegment.SegmentRange.Next | backend/internal/usenet/segment.go:85-96 | past the end: ErrSegmentLimit and nothing changes; otherwise the current segment is closed, the cursor advances and the result is the new current one; no other segment is opened or closed, and no segment's window, bytes read or bound bytes change |
| UsenetSegment.SegmentRange.Clear | backend/internal/usenet/segment.go:102-124 | every segment is closed, keeping its window, bytes read and bound bytes, and the list is emptied |
| UsenetSegment.DecodedSize | backend/internal/usenet/segment.go:429-448 | the precomputed window when there is one, else 97% of the encoded size with Go's truncating division, falling back to the encoded size when that is not positive |
| UsenetSegment.SortByStartCorrect | backend/internal/usenet/segment.go:422-426 | the builder visits the stored segments in ascending StartOffset order, each exactly once |
| UsenetSegment.ClampEnd | backend/internal/usenet/segment.go:398-400 | a negative end, or one at or past the file size, becomes the last byte |
| UsenetSegment.Place | backend/internal/usenet/segment.go:450-467 | a segment before the start is skipped; one that meets the range gets a window trimmed at the start and at the end |
| UsenetSegment.BuildPlanProperties | backend/internal/usenet/segment.go:392-515 | nil metadata gives no segments; a positive limit bounds their number; every window lies inside its segment with a zero read window |
| UsenetSegment.PlanPropertiesAnyOrder | backend/internal/usenet/segment.go:422-426 | for every StartOffset-sorted arrangement of the stored segments, as the unstable sort may give, at most maxSegments spans are built when that is positive, each inside its segment with a zero read window |
| UsenetSegment.BuildSegments | backend/internal/usenet/segment.go:428-515 | the loop builds one new open segment per planned window, in order |
| UsenetSegment.BuildSegmentRangeWithLimit | backend/internal/usenet/segment.go:392-534 | the range keeps the requested start and end and holds the planned segments; the error is ErrSegmentLimit exactly when the metadata is nil or no segment was built |
| UsenetSegment.SkipReader.Read | backend/internal/usenet/segment.go:30-55 | the first read discards skipBytes bytes once; too little data gives no data and EOF, or, when the stream fails, a skip failure naming the bytes skipped and requested; after that reads return the next bytes of the stream, at most as many as asked, and at its end the stream's own EOF or failure |
| UsenetSegment.SkipReader.EndError | backend/internal/usenet/segment.go:54 | the wrapped reader ends in its failure exactly when it is broken, else in EOF |
| UsenetSegment.SegmentRange.constructor | backend/internal/usenet/segment.go:70-75 | a new range holds the requested start and end and its segments, with the cursor on the first |
| UsenetSegment.SkipReader.constructor | backend/internal/usenet/segment.go:24-28 | a new skip reader wraps the whole stream, and whether it ends in a failure, and has not skipped yet |
| RemoteFile.NormalizePath | backend/internal/nzb/filesystem/remote_file.go:751-758 | a path that cleans to "." is the root "/"; otherwise the cleaned path without its leading '/' |
| RemoteFile.NormalizeRootForms | backend/internal/nzb/filesystem/remote_file.go:751-758 | "" normalises to the root "/", while "/" itself normalises to "" |
| RemoteFile.NewMetadataRemoteFile | backend/internal/nzb/filesystem/remote_file.go:50-55 | a non-positive streaming chunk becomes 32 MiB; everything else is kept |
| RemoteFile.EveryPathIsValidEmptyDirectory | backend/internal/nzb/filesystem/remote_file.go:151-170 | the walk towards the root always ends at the root, so every path counts as a valid empty directory |
| RemoteFile.OpenFile | backend/internal/nzb/filesystem/remote_file.go:58-116 | a missing metadata service or reader factory is an error; existing directories open as directories; a file opens only with readable, non-nil, non-corrupted metadata; ErrFileIsCorrupted exactly for corrupted metadata |
| RemoteFile.OpenMissingFileIsDirectory | backend/internal/nzb/filesystem/remote_file.go:77-87 | with both dependencies set, a path that is not a file opens as a directory |
| RemoteFile.InitWindowBounds | backend/internal/nzb/filesystem/remote_file.go:620-714 | the window lies inside a non-empty file and starts at 0 for an empty one; without a header it is the whole file; originalRangeEnd is the header's end when that is non-negative, else -1 |
| RemoteFile.SuffixRangeSelectsTail | backend/internal/nzb/filesystem/remote_file.go:651-665 | a suffix range of n bytes selects the last min(n, size) bytes |
| RemoteFile.InFileRangeKept | backend/internal/nzb/filesystem/remote_file.go:667-684 | a range that already lies in the file is kept as it is |
| RemoteFile.StatSizeOfWindow | backend/internal/nzb/filesystem/remote_file.go:466-494 | Stat reports the window length: between 1 and the file size for a non-empty file, the whole file without a header, 0 for an empty file |
| RemoteFile.RangeInfoBounds | backend/internal/nzb/filesystem/remote_file.go:716-738 | the total is the file size and the start is non-negative; the end is -1 for an empty file and otherwise clamped into [start-1, total-1]; an in-file window is reported unchanged |
| RemoteFile.RequestedRangeBounds | backend/internal/nzb/filesystem/remote_file.go:527-550 | the reader range starts at the cursor and ends inside the file and the window; without an explicit end it spans at most one streaming chunk |
| RemoteFile.CacheKeyInjective | backend/internal/nzb/filesystem/remote_file.go:553 | distinct non-negative ranges get distinct "start-end" cache keys |
| RemoteFile.LimitedRead | backend/internal/nzb/filesystem/remote_file.go:308-320 | a limited read never returns more than asked and never runs past the reader's range |
| RemoteFile.CacheOkHit | backend/internal/nzb/filesystem/remote_file.go:553-560 | a cache hit under the key of [s, e] is a reader for exactly [s, e] |
| RemoteFile.WithoutKey | backend/internal/nzb/filesystem/remote_file.go:612-617 | deleting the one entry that holds a reader removes every entry holding it, so the cache stays well formed |
| RemoteFile.MetadataVirtualFile.constructor | backend/internal/nzb/filesystem/remote_file.go:100-113 | a new file is open, has no reader and an empty reader cache, and its range is not initialised yet |
| RemoteFile.MetadataVirtualFile.InitRangeLocked | backend/internal/nzb/filesystem/remote_file.go:620-714 | the first call fixes the window and puts the cursor at its start; later calls change nothing |
| RemoteFile.MetadataVirtualFile.Stat | backend/internal/nzb/filesystem/remote_file.go:466-494 | initialises the range and returns the window's size |
| RemoteFile.MetadataVirtualFile.RangeInfo | backend/internal/nzb/filesystem/remote_file.go:716-738 | initialises the range and returns the clamped (start, end, total) |
| RemoteFile.MetadataVirtualFile.Seek | backend/internal/nzb/filesystem/remote_file.go:496-498 | always position 0 and ErrInvalidWhence |
| RemoteFile.MetadataVirtualFile.ReportError | backend/internal/nzb/filesystem/remote_file.go:740-749 | a failure after some bytes marks the file partial, one before any byte marks it corrupted, and without a reporter nothing happens |
| RemoteFile.MetadataVirtualFile.ReleaseCurrentReaderLocked | backend/internal/nzb/filesystem/remote_file.go:605-618 | the current reader is dropped together with the cache entry holding it, and nothing else |
| RemoteFile.MetadataVirtualFile.Close | backend/internal/nzb/filesystem/remote_file.go:448-464 | the file is closed, with no reader and an empty cache |
| RemoteFile.MetadataVirtualFile.OpenRangeReader | backend/internal/nzb/filesystem/remote_file.go:552-602 | a cache hit reuses the cached reader; a miss creates a fresh reader for [start, end] and caches it under its key; factory, missing-cipher and wrap failures are errors and change nothing |
| RemoteFile.MetadataVirtualFile.EnsureReader | backend/internal/nzb/filesystem/remote_file.go:509-603 | an existing reader is kept; EOF exactly for an empty file or a cursor past the file or the window; otherwise a reader for the requested range at the cursor |
| RemoteFile.MetadataVirtualFile.Read | backend/internal/nzb/filesystem/remote_file.go:345-446 | a closed file gives EOF and changes nothing; the cursor advances by the bytes returned; no error means the buffer was filled; EOF inside a non-empty file leaves the cursor just past the window; only a reader failure reports to the health reporter, once |
| FsTypes.NewReader | backend/internal/nzb/filesystem/types.go:32-37 | the adapter returns what the wrapped function returns for the same arguments |
| FsTypes.AdapterOfOpenReader | backend/internal/nzb/filesystem/remote_file.go:576-578 | the adapter the encryption wrapper is given returns the already open reader for any range |
| FsTypes.InWindow | backend/internal/nzb/filesystem/types.go:59-63 | with a non-negative end, start <= offset <= end; with a negative end, offset >= start |
| FsTypes.WindowShapes | backend/internal/nzb/filesystem/types.go:59-63 | a window whose end is below its start holds nothing; an open-ended one holds every offset from its start on |
| FsTypes.RangeTracker.constructor | backend/internal/nzb/filesystem/types.go:44-50 | a zero-valued tracker holds the window [0, 0] |
| FsTypes.RangeTracker.Reset | backend/internal/nzb/filesystem/types.go:52-57 | the tracked window becomes exactly [start, end] |
| FsTypes.RangeTracker.Contains | backend/internal/nzb/filesystem/types.go:59-63 | whether the tracked window holds the offset |
| FsTypes.ResetOpenEnded | backend/internal/nzb/filesystem/types.go:52-63 | after Reset(s, -1) the tracker holds exactly the offsets from s on |
| MemoryFs.SeekTarget | backend/internal/importer/memory_filesystem.go:108-135 | an unknown whence is ErrInvalid; a known one gives a position at most the size |
| MemoryFs.SeekTargetMeaning | backend/internal/importer/memory_filesystem.go:108-135 | the target is offset, pos + offset or size + offset by whence; it fails exactly when negative and is clamped to the size |
| MemoryFs.SeekFixedPoints | backend/internal/importer/memory_filesystem.go:108-135 | seeking by 0 from the current position or the end stays there, and re-seeking to where a seek landed changes nothing |
| MemoryFs.MemoryFile.constructor | backend/internal/importer/memory_filesystem.go:40-45 | a new file is open at position 0 with the given content |
| MemoryFs.MemoryFile.Stat | backend/internal/importer/memory_filesystem.go:73-78 | the file's name and content length |
| MemoryFs.MemoryFile.Read | backend/internal/importer/memory_filesystem.go:80-97 | a closed file gives ErrClosed; at the end, EOF with no bytes; otherwise the next min(len(p), remaining) bytes are copied, the position advances past them, and EOF comes exactly when the end is reached |
| MemoryFs.MemoryFile.Close | backend/internal/importer/memory_filesystem.go:99-105 | the file is closed |
| MemoryFs.MemoryFile.Seek | backend/internal/importer/memory_filesystem.go:108-135 | a closed file gives ErrClosed; otherwise the position becomes the seek target, or stays and the error is returned |
| MemoryFs.MemoryFileSystem.constructor | backend/internal/importer/memory_filesystem.go:31-35 | the file system holds the given contents |
| MemoryFs.MemoryFileSystem.Open | backend/internal/importer/memory_filesystem.go:38-53 | a known name gives a fresh open file at position 0 holding its content; any other name gives a PathError wrapping ErrNotExist |
| MemoryFs.MemoryFileSystem.Stat | backend/internal/importer/memory_filesystem.go:56-69 | the name and size of a known file, else a PathError wrapping ErrNotExist |
| MemoryFs.StatAgrees | backend/internal/importer/memory_filesystem.go:56-78 | the file system's Stat and the opened file's Stat agree |
| UsenetFactory.NewUsenetReaderFactory | backend/services/streaming.old/usenet_factory.go:23-28 | the factory keeps the pool flag; a positive worker count is kept and any other becomes 15 |
| UsenetFactory.MaxSegments | backend/services/streaming.old/usenet_factory.go:45-64 | the segment window is between 20 and 100 for ranges up to 50 MiB and between 30 and 150 for longer (streaming) ranges |
| UsenetFactory.MaxSegmentsIsClamp | backend/services/streaming.old/usenet_factory.go:45-64 | the window is 8 segments a worker clamped to [20, 100], or 12 a worker clamped to [30, 150] for a streaming range |
| UsenetFactory.MaxSegmentsMonotone | backend/services/streaming.old/usenet_factory.go:45-64 | more workers never give a smaller window, and a streaming range never gets a smaller window than a short one |
| UsenetFactory.NewReader | backend/services/streaming.old/usenet_factory.go:30-95 | no pool manager fails first, an unavailable pool next; a reader is made exactly when pool, segment build and reader construction all succeed, for the requested range with the computed window and the factory's worker count |
| MetadataProvider.ContainerKeysAreExtensions | backend/services/streaming.old/metadata_provider.go:250-262 | every key of the container table is a dot followed by at least one character |
| MetadataProvider.FirstMentionMeaning | backend/services/streaming.old/metadata_provider.go:284-293 | the container found by the name scan is one the name mentions (as suffix, or followed by '_', '.' or '-'); none is found only when no listed container is mentioned |
| MetadataProvider.DetectContainerExt | backend/services/streaming.old/metadata_provider.go:275-296 | a blank name gives ""; a name whose own extension is a container gives that extension; any other result is a container the lower-cased name mentions |
| MetadataProvider.DetectNothingMeansNoContainer | backend/services/streaming.old/metadata_provider.go:275-296 | when the whole table is visited, nothing is detected for a non-blank name only if its extension is no container and it mentions none |
| MetadataProvider.GuessIsKnownType | backend/services/streaming.old/metadata_provider.go:264-273 | the content type is one of the table's types or application/octet-stream, and octet-stream whenever no container is detected |
| MetadataProvider.DefaultHeaders | backend/services/streaming.old/metadata_provider.go:243-248 | the defaults are exactly Accept-Ranges: bytes and the guessed Content-Type |
| MetadataProvider.CleanRequestPath | backend/services/streaming.old/metadata_provider.go:38-41 | the cleaned path is the request path less at most one leading "/" and then at most one leading "streams/"; a path with neither is unchanged |
| MetadataProvider.CleanRequestPathOfStream | backend/services/streaming.old/metadata_provider.go:38-41 | "/streams/x" and "streams/x" both clean to x |
| MetadataProvider.MaybeOverrideRange | backend/services/streaming.old/metadata_provider.go:157-210 | no override without a remote, a positive finite seek and duration, a described positive size and a non-negative offset; none when the offset lies within 1 MiB of the requested start; the flag is set exactly when the new range differs |
| MetadataProvider.OverrideShape | backend/services/streaming.old/metadata_provider.go:191-209 | an override is "bytes=offset-end" when the requested end is not before the offset and "bytes=offset-" otherwise, with the offset more than 1 MiB past any requested start |
| MetadataProvider.BuildResponse | backend/services/streaming.old/metadata_provider.go:116-146 | Content-Length set exactly for a known size; Content-Range "bytes s-e/t" and 206 exactly when the file's range is partial or a range was asked for; 200 otherwise; no body for HEAD |
| MetadataProvider.Stream | backend/services/streaming.old/metadata_provider.go:33-155 | without a remote file the stream fails; it opens the cleaned path with the overriding range or the trimmed requested one, passes open errors on, reports a missing file, and otherwise answers as BuildResponse states |
| Registry.ReplaceSeparators | backend/services/streaming.old/registry.go:207 | every '/' and '\\' becomes '_', every other character is kept, and the length is unchanged |
| Registry.Collapse | backend/services/streaming.old/registry.go:208 | the result holds only characters of [a-zA-Z0-9._-], is empty exactly when the input is, is never longer, and leaves a string of allowed characters unchanged |
| Registry.SanitizeFileName | backend/services/streaming.old/registry.go:201-212 | a blank name gives ""; any result holds only allowed characters, does not start with '.', '_' or '-', and does not end with '_' |
| Registry.SanitizeKeepsClean | backend/services/streaming.old/registry.go:201-212 | a non-empty name of allowed characters that starts with none of '.', '_', '-' and does not end in '_' is its own sanitised form |
| Registry.SanitizeIdempotent | backend/services/streaming.old/registry.go:201-212 | sanitising a sanitised name changes nothing |
| Registry.YEncDigits | backend/services/streaming.old/registry.go:306-314 | the scanned characters are all decimal digits |
| Registry.YEncSize | backend/services/streaming.old/registry.go:293-326 | the size is between 0 and the largest 64-bit integer |
| Registry.ExtractYEncSize | backend/services/streaming.old/registry.go:293-326 | the character-by-character scan after "yEnc" returns the size YEncSize defines |
| Registry.YEncDigitsStep | backend/services/streaming.old/registry.go:306-314 | a digit is collected, a space, '(' or tab after a digit stops the scan, and any other character is skipped |
| Registry.YEncDigitsNone | backend/services/streaming.old/registry.go:316-318 | text without a digit yields no digits |
| Registry.YEncDigitsOfHeader | backend/services/streaming.old/registry.go:306-314 | non-digits before the number are skipped and the number ends at the first space, '(' or tab after it |
| Registry.DigitsThenStop | backend/services/streaming.old/registry.go:306-314 | a run of digits followed by a stop character yields exactly that run |
| Registry.YEncSizeOfHeader | backend/services/streaming.old/registry.go:293-326 | a subject whose text after "yEnc" is non-digits, the decimal form of n and then "(" reports n, for n within 64 bits |
| Registry.YEncSizeAbsent | backend/services/streaming.old/registry.go:295-298 | a subject without "yEnc", or without a digit after it, reports 0 |
| Registry.AnyFragmentMeaning | backend/services/streaming.old/registry.go:338-343 | the in-order fragment search succeeds exactly when some fragment occurs in the text |
| Registry.ShouldSkipMeaning | backend/services/streaming.old/registry.go:328-344 | a subject is skipped exactly when its lower-cased form contains ".par2", ".par", ".srr", ".sfv" or ".nfo" |
| Registry.SkipParity | backend/services/streaming.old/registry.go:328-344 | any subject whose lower-cased form contains ".par" is skipped |
| Registry.Rank | backend/services/streaming.old/registry.go:270-273 | a listed extension gets its position in the preference table (".mp4" 0 up to ".webm" 7), any other extension 9 |
| Registry.UsableSegments | backend/services/streaming.old/registry.go:254-260 | no more segments are kept than the file has |
| Registry.UsableSegmentsMeaning | backend/services/streaming.old/registry.go:254-260 | the kept segments are exactly the file's segments with a positive size and a non-blank id |
| Registry.SegTotalPositive | backend/services/streaming.old/registry.go:258-264 | a non-empty list of positive-sized segments has a positive total, and the empty list totals 0 |
| Registry.UsableWhenSegment | backend/services/streaming.old/registry.go:246-264 | a file whose subject is not skipped may be chosen exactly when it has a usable segment |
| Registry.Best | backend/services/streaming.old/registry.go:275-281 | the index picked so far is one already visited and usable |
| Registry.BestNext | backend/services/streaming.old/registry.go:275-281 | visiting a candidate moves the pick to it exactly when it is usable and there is no pick yet, or it ranks lower, or it ranks the same with more bytes |
| Registry.ChosenHasSegments | backend/services/streaming.old/registry.go:284-287 | the chosen file has at least one segment |
| Registry.BestStep | backend/services/streaming.old/registry.go:246-282 | one more visited file keeps the pick optimal: none picked exactly when none is usable, the pick of the lowest rank, the most bytes among those, and the first such |
| Registry.BestIsOptimal | backend/services/streaming.old/registry.go:246-282 | after any number of files, nothing is picked exactly when no visited file is usable, and a pick is the first usable file of lowest rank and, among those, of largest total |
| Registry.ChosenIsOptimal | backend/services/streaming.old/registry.go:246-287 | a file is chosen exactly when some file is usable; no usable file beats the chosen one, and the chosen one beats every usable file before it |
| Registry.FilterSegments | backend/services/streaming.old/registry.go:252-260 | the inner loop keeps exactly the usable segments and sums their sizes |
| Registry.UsableSegmentsConcat | backend/services/streaming.old/registry.go:254-260 | filtering a concatenation filters each part |
| Registry.UsableSegmentsSnoc | backend/services/streaming.old/registry.go:254-260 | filtering one more segment appends it exactly when it is usable |
| Registry.SegTotalConcat | backend/services/streaming.old/registry.go:258 | the byte total of a concatenation is the sum of the parts' totals |
| Registry.Visit | backend/services/streaming.old/registry.go:246-274 | one loop turn classifies the file as its summary does and, for a usable file, builds the file it would select |
| Registry.TracksDone | backend/services/streaming.old/registry.go:284-287 | after the last file the tracked selection is the chosen file's, with segments, or nothing when no file is chosen |
| Registry.Consider | backend/services/streaming.old/registry.go:246-282 | one loop turn keeps the running selection in step with the choice over one more file |
| Registry.Scan | backend/services/streaming.old/registry.go:240-282 | the loop over the files selects the chosen file's subject, usable segments and yEnc size, or nothing when no file is chosen |
| Registry.ParseNzb | backend/services/streaming.old/registry.go:232-288 | no files is an error, no usable file is an error, and otherwise the result is the chosen file with its usable segments |
| Registry.MovNeverRanked | backend/services/streaming.old/registry.go:269-273 | ".mov" is ranked 6 but never detected as a container, so no file ever gets rank 6 |
| Registry.PositiveTotal | backend/services/streaming.old/registry.go:64-68 | the sum of the positive segment sizes is never negative |
| Registry.SegmentDataOf | backend/services/streaming.old/registry.go:78-90 | every record has a positive size and a trimmed id, and there are no more records than segments |
| Registry.SafeName | backend/services/streaming.old/registry.go:99-105 | the stored name is never empty and holds only allowed characters; the sanitised subject is used whenever it is non-empty |
| Registry.NzbFileName | backend/services/streaming.old/registry.go:111-117 | the NZB name ends in ".nzb" in some letter case; an upload name already sanitised to such an ending is used as it is |
| Registry.SumPositive | backend/services/streaming.old/registry.go:64-68 | the fallback loop adds up exactly the positive segment sizes |
| Registry.BuildSegmentData | backend/services/streaming.old/registry.go:78-90 | the record loop builds exactly the records SegmentDataOf defines |
| Registry.Store | backend/services/streaming.old/registry.go:55-142 | no segments and an unknown size are errors; success only when cleanup, directory creation and both writes succeed, with the public path streams/id/name, a positive size, the NZB under root/id and the segment records stored |
| Registry.Register | backend/services/streaming.old/registry.go:43-143 | no metadata service, invalid XML, no files and no usable file are errors; otherwise the chosen file is stored as Store states, and an unknown size is reported exactly when the chosen file's size is not positive |
| UsenetUtils.MetadataExtensionsAreExts | backend/internal/usenet/utils.go:10-14 | ".nzb" and ".strm" are single extensions (a dot, then no dot or slash) |
| UsenetUtils.ExtOfAppend | backend/internal/usenet/utils.go:17-19 | appending a single extension to any name makes it that name's extension |
| UsenetUtils.GetRealFileExtension | backend/internal/usenet/utils.go:17-19 | the real extension is empty or a dot followed by a slash-free tail |
| UsenetUtils.ReplaceFileExtension | backend/internal/usenet/utils.go:39-42 | the result is the name without its extension, then the new extension; putting the old extension back gives the name |
| UsenetUtils.AddNzbExtension | backend/internal/usenet/utils.go:44-46 | the name is kept as a prefix and ".nzb" is appended |
| UsenetUtils.AddStrmExtension | backend/internal/usenet/utils.go:48-50 | the name is kept as a prefix and ".strm" is appended |
| UsenetUtils.ReplaceFileExtensionProperties | backend/internal/usenet/utils.go:39-42 | replacing the extension with itself is the identity, and a single extension put in place becomes the name's extension |
| UsenetUtils.TrimAppendedExt | backend/internal/usenet/utils.go:39-42 | a single extension appended to a name is that name's extension, and trimming it gives the name back |
| UsenetUtils.RealExtensionOfMetadataName | backend/internal/usenet/utils.go:17-19 | the real extension of name+".nzb" or name+".strm" is the extension of name |
| UsenetUtils.StoredNameStem | backend/internal/usenet/utils.go:23-26 | a name with one appended extension loses exactly that extension |
| UsenetUtils.RemoveMetadataExtension | backend/internal/usenet/utils.go:21-37 | a trailing ".nzb" or ".strm" is removed; the rest is kept when its extension has a MIME type or is the true extension, and the true extension is appended otherwise |
| UsenetUtils.RemoveMetadataExtensionRoundTrip | backend/internal/usenet/utils.go:21-37 | stripping the metadata extension from name+".nzb" or name+".strm", with the name's own extension as the true one, gives the name back |
| UsenetUtils.TallyCounts | backend/internal/usenet/utils.go:53-58 | the tally's keys are exactly the listed groups and each counts how often it is listed |
| UsenetUtils.TallySnoc | backend/internal/usenet/utils.go:55-57 | counting one more group increments its count, starting at 1 |
| UsenetUtils.Parts | backend/internal/usenet/utils.go:64-67 | one part per group visited |
| UsenetUtils.CountGroups | backend/internal/usenet/utils.go:55-57 | the inner loop adds one segment's groups to the tally |
| UsenetUtils.FormatParts | backend/internal/usenet/utils.go:64-67 | the formatting loop emits one "group:count" part per counted group, each group once, in the order visited |
| UsenetUtils.SummarizeGroups | backend/internal/usenet/utils.go:52-69 | "none" when no group is counted; otherwise the comma-joined parts, one for each distinct group, in the map's visiting order |
| UsenetUtils.SummaryCounts | backend/internal/usenet/utils.go:52-69 | the summary is "none" exactly when no segment lists a group, and each count is the number of times the group is listed |
| LinkMapping.SelectedCount | backend/services/debrid/link_mapping.go:32-43 | no more files take up a link than there are files |
| LinkMapping.FirstSelected | backend/services/debrid/link_mapping.go:19-24 | the index found is the first file with Selected == 1, and none is found only when no file has it |
| LinkMapping.FirstMatch | backend/services/debrid/link_mapping.go:32-41 | the index found is the first file that takes up a link and whose decimal id is the target, and none is found only when no such file exists |
| LinkMapping.ScanFirstSelected | backend/services/debrid/link_mapping.go:46-53 | the loop yields the path of the first file with Selected == 1, or "" |
| LinkMapping.ScanForTarget | backend/services/debrid/link_mapping.go:29-43 | the matching loop returns the link of the first selected file with the target id when its position among selected files is within the links, and nothing otherwise |
| LinkMapping.ResolveRestrictedLink | backend/services/debrid/link_mapping.go:11-55 | the method returns what Resolve defines for every info and id |
| LinkMapping.ResolveMeaning | backend/services/debrid/link_mapping.go:11-55 | a match names an existing link and the path of a selected file whose decimal id is the trimmed id, its index being the number of selected files before it; otherwise the index is 0 and the result is empty for a nil info or no links, else the first link with the first selected file's path |
| LinkMapping.UnselectedFileTakesNoLink | backend/services/debrid/link_mapping_test.go:5-28 | with file 2 unselected, asking for file 3 gives the second link, index 1, and file 3's path |
| LinkMapping.MissingIdFallsBack | backend/services/debrid/link_mapping_test.go:30-48 | an id no selected file has gives the first link, the first selected path, index 0, unmatched |
| DebridStreaming.CutAt | backend/services/debrid/streaming.go:34-40 | the result is a prefix of the input without the cut character |
| DebridStreaming.Segments | backend/services/debrid/streaming.go:45-49 | there is always at least one segment |
| DebridStreaming.ParseDebridPath | backend/services/debrid/streaming.go:32-59 | a path parses exactly when, with query and fragment cut off, it starts with "/debrid/" and has at least two segments; provider and torrent are the first two and the file id is the fourth when the third is "file", else "" |
| DebridStreaming.ParsedPartsHaveNoSlash | backend/services/debrid/streaming.go:32-59 | no parsed part holds a '/' |
| DebridStreaming.CacheKeyInjective | backend/services/debrid/streaming.go:61-66 | for torrent ids without ':', equal keys mean the same torrent, both file ids blank or neither, and equal file ids when not blank |
| DebridStreaming.ColonKeyNotPlain | backend/services/debrid/streaming.go:61-66 | a colon-free key (blank file id) never equals a "torrent:file" key |
| DebridStreaming.KeyPrefix | backend/services/debrid/streaming.go:61-66 | in "t:f" with t colon-free, the first ':' follows t |
| DebridStreaming.StoreThenHit | backend/services/debrid/streaming.go:95-111 | after storing an entry with a non-negative lifetime and pruning, that key is a hit at the same instant, every other key answers as before, and no expired entry is left |
| DebridStreaming.StreamingProvider.constructor | backend/services/debrid/streaming.go:69-75 | a new provider has an empty URL cache and a ten-minute lifetime |
| DebridStreaming.StreamingProvider.GetCachedUrl | backend/services/debrid/streaming.go:78-92 | a hit exactly when the key is present and its expiry is not before now, giving the stored URL and file name |
| DebridStreaming.StreamingProvider.SetCachedUrl | backend/services/debrid/streaming.go:95-111 | the entry is stored to expire one lifetime from now and every entry expired at now is deleted |
| DebridStreaming.StreamGate | backend/services/debrid/streaming.go:188-203 | not found exactly when the path, less a leading "/" and "webdav/", does not start with "debrid/"; otherwise the parse of the cleaned path, or an invalid-path error when it does not parse |
| DebridStreaming.CompositeStream | backend/services/debrid/streaming.go:397-418 | not found exactly when every member is nil or not found; otherwise the answer, response or error, of the first member that is neither |
| DebridStreaming.CompositeGetDirectUrl | backend/services/debrid/streaming.go:368-394 | nothing exactly when no member gives a non-empty URL without error; otherwise the URL of the first that does, past nil, non-direct and failing members |
| DebridPlayback.InfoHash | backend/services/debrid/playback.go:38-47 | the trimmed "infoHash" attribute when it is not blank; otherwise what the magnet extractor finds for a link starting with "magnet:" in any case; "missing info hash" exactly when both are empty; never an empty hash |
| DebridPlayback.FirstServing | backend/services/debrid/playback.go:56-67 | the index found is the first enabled provider that matches the requested name case-insensitively (any, when none is requested), and none is found only when no provider does |
| DebridPlayback.SelectProvider | backend/services/debrid/playback.go:56-74 | the selection loop returns the provider ProviderChoice defines, or its error |
| DebridPlayback.ProviderChoiceMeaning | backend/services/debrid/playback.go:56-74 | a chosen provider is configured, enabled and, when a name is requested, matches it case-insensitively; "none enabled" exactly when no name is requested and no provider is enabled; with a name, failure is "provider not enabled" and no enabled provider matches |
| DebridPlayback.ResolveSetup | backend/services/debrid/playback.go:35-84 | success carries the info hash and the chosen provider, which loaded settings give and the registry knows under its lower-cased name; a missing hash fails first |
| DebridPlayback.CutKeepsHead | backend/services/debrid/streaming.go:34-40 | cutting at a character a prefix lacks keeps that prefix |
| DebridPlayback.SplitFirst | backend/services/debrid/streaming.go:45 | a slash-free part followed by nothing or "/..." splits into that part and the splits of the rest |
| DebridPlayback.SegmentsWithId | backend/services/debrid/playback.go:175-178 | the segments of "t/file/id" and a name rest start with t, "file" and id |
| DebridPlayback.SegmentsWithoutId | backend/services/debrid/playback.go:175-182 | the segments of "t" and a name rest are t and at most one more |
| DebridPlayback.SegmentsOfCore | backend/services/debrid/playback.go:175-182 | the segments of a built path give back provider, torrent and the file id or "" |
| DebridPlayback.WebdavPathTrimmed | backend/services/debrid/playback.go:175-182 | a built path of plain ids, whose file name does not end in white space, has no white space to trim |
| DebridPlayback.PathPartOfShape | backend/services/debrid/streaming.go:33-39 | cutting the query and fragment off a built path keeps its ids part and leaves a name rest |
| DebridPlayback.IdsPartClean | backend/services/debrid/playback.go:175-178 | the ids part of plain ids holds no '?' or '#' |
| DebridPlayback.WebdavPathShape | backend/services/debrid/playback.go:175-182 | a built path is "/debrid/", the ids part "p/t[/file/id]" and "/filename" when a name is known |
| DebridPlayback.WebdavPathPart | backend/services/debrid/playback.go:175-182 | the part of a built path the parser reads is "/debrid/", the ids part and a name rest |
| DebridPlayback.WebdavPathRoundTrip | backend/services/debrid/playback.go:175-182 | a path built from a provider, a torrent id and a preferred file id without '/', '?', '#' or white space, and any slash-free file name, parses back to exactly those three |
| DebridPlayback.DetectArchiveExtensionAsWritten | backend/services/debrid/playback.go:234-249 | the result is "" or one of the six archive extensions, in which case it is the lower-cased last extension of the URL's path |
| DebridPlayback.TarGzNeverDetected | backend/services/debrid/playback.go:242-245 | the check as written never reports ".tar.gz", since a last extension holds only one '.' |
| DebridPlayback.LowerNoInnerDot | backend/services/debrid/playback.go:242 | a string with no '.' after its first character does not lower-case to ".tar.gz" |
| DebridPlayback.TarGzLetThrough | backend/services/debrid/playback.go:242-248 | every URL whose path ends in ".tar.gz", in any case, passes the check as written |
| DebridPlayback.TarGzLinkResolves | backend/services/debrid/playback.go:185-192 | a downloaded torrent whose link path ends in ".tar.gz" resolves without deleting the torrent when the HEAD check succeeds, since the archive check as written lets it through |
| DebridPlayback.FirstSuffixMeaning | backend/services/debrid/playback.go:243-245 | the suffix search finds one exactly when some listed extension ends the path, and what it finds does |
| DebridPlayback.DetectArchiveExtensionMeaning | backend/services/debrid/playback.go:234-249 | the intended check refuses exactly the non-blank, parseable URLs whose lower-cased path ends with an archive extension, and names that extension |
| DebridPlayback.TarGzPathDetected | backend/services/debrid/playback.go:234-249 | the intended check reports ".tar.gz" for every URL whose path ends so in any case |
| DebridPlayback.FirstSuffixSkip | backend/services/debrid/playback.go:243-245 | listed extensions that are not suffixes can be skipped |
| DebridPlayback.ResolutionShape | backend/services/debrid/playback.go:87-232 | a success leaves the torrent in place, needs every provider call to succeed, a "downloaded" status and some links, and has queue 0, the built path, health "cached", the candidate's size and the resolved restricted link as source |
| DebridPlayback.InternalReferencesPass | backend/services/debrid/playback.go:184-220 | archive and HEAD failures happen only for links starting with "http://" or "https://" |
| DebridPlayback.DeletesExactlyAfterInfo | backend/services/debrid/playback.go:87-232 | the torrent is deleted again exactly on the failures after its info was first read; a failed add or first info read leaves nothing to delete |
| DebridPlayback.ResolutionPathParses | backend/services/debrid/playback.go:152-182 | the path of a success parses back to the provider name, the torrent id and the preferred file id, for plain names, ids and file paths |
| DebridPlayback.FileNameIsAPath | backend/services/debrid/link_mapping.go:11-55 | a reported file name is the path of one of the torrent's files |
| DebridPlayback.FilterCachedResults | backend/services/debrid/playback.go:300-346 | the loop keeps what Filtered defines with at most 3 health checks |
| DebridPlayback.FilteredAt | backend/services/debrid/playback.go:300-346 | a non-debrid result is skipped unchecked, no budget ends the filter, and a debrid result costs one check and is kept exactly when its check is healthy and cached |
| DebridPlayback.FilteredMeaning | backend/services/debrid/playback.go:300-346 | the kept results are a subsequence of the input, at most the budget in number, all debrid and all passing their check |
| DebridPlayback.FilteredKeepsEarlyPasses | backend/services/debrid/playback.go:300-346 | every debrid result that passes its check and comes before the budget runs out is kept |
| DebridProxy.FindNormalized | backend/services/debrid/proxy.go:101-114 | the index found is the first enabled provider answering to the normalised name by its trimmed, lower-cased name or provider (any, for a blank name), and none is found only when no provider does |
| DebridProxy.FindProviderMeaning | backend/services/debrid/proxy.go:99-119 | a disabled provider is never chosen; a blank name picks the first enabled provider, any other name one whose name or provider matches it; "no enabled providers" exactly for a blank name with none enabled, "not configured" for any other failure |
| DebridProxy.NormalizeMethod | backend/services/debrid/proxy.go:57-60 | the method is never empty, and a blank one becomes GET |
| DebridProxy.ProxyHeadersMeaning | backend/services/debrid/proxy.go:70-78 | Range is set exactly when one is given, with its value; Authorization exactly for a non-blank key, as "Bearer " and the trimmed key; nothing else |
| DebridProxy.ProxyMeaning | backend/services/debrid/proxy.go:38-97 | no service or config fails first, then a blank URL; a success uses GET or HEAD and hands back the upstream headers, or empty headers when they are nil, of the request sent to the trimmed URL; any other method is refused by its normalised name |
| DebridProxy.HeadInAnyCase | backend/services/debrid/proxy.go:57-63 | " head " is accepted as HEAD |
| PlaybackService.EnsureNzbExtension | backend/services/playback/service.go:343-348 | the result ends in ".nzb" in some letter case; a name that already does is kept, any other gets ".nzb" appended |
| PlaybackService.EnsureNzbExtensionIdempotent | backend/services/playback/service.go:343-348 | ensuring the extension twice is ensuring it once |
| PlaybackService.FirstNameMeaning | backend/services/playback/service.go:329-340 | the name comes from the first part offering a non-empty one, and "" means no part offers one |
| PlaybackService.LowerCharKeeps | backend/services/playback/service.go:332 | lower-casing changes only upper-case letters, into lower-case ones |
| PlaybackService.ParamHead | backend/services/playback/service.go:331-332 | a parameter name reading "filename=" in any case starts with neither white space nor a quote |
| PlaybackService.ParamPart | backend/services/playback/service.go:331-332 | such a name followed by a non-empty value not ending in white space is left alone by trimming and is recognised as the file-name parameter |
| PlaybackService.UnquoteKeeps | backend/services/playback/service.go:334 | trimming quotes keeps a string that starts and ends with other characters |
| PlaybackService.MixedCaseParamKeptAsWritten | backend/services/playback/service.go:332-336 | as written, a part whose parameter name is spelled in upper or mixed case, such as FILENAME=movie.nzb, is taken whole as the file name, parameter name included |
| PlaybackService.ParamNameCaseInsensitive | backend/services/playback/service.go:328-341 | corrected, a parameter name in any letter case is cut off and the unquoted value is the name |
| PlaybackService.LowerKeeps | backend/services/playback/service.go:332 | a string without upper-case letters lower-cases to itself |
| PlaybackService.LowerParam | backend/services/playback/service.go:332 | "filename=" is its own lower-cased form |
| PlaybackService.LowerCaseParamUnchanged | backend/services/playback/service.go:328-341 | the correction reads a lower-case "filename=" part exactly as the code as written does |
| PlaybackService.SafeTitleAllSafe | backend/services/playback/service.go:303-319 | every character of the mapped title is an ASCII letter, digit, '.', '-' or '_' |
| PlaybackService.SafeTitleKeepsSafe | backend/services/playback/service.go:303-319 | a title made only of such characters is kept as it is |
| PlaybackService.SafeTitleIdempotent | backend/services/playback/service.go:303-319 | mapping a mapped title changes nothing |
| PlaybackService.DeriveFileNameAsWrittenMeaning | backend/services/playback/service.go:289-326 | as written, the name always ends in ".nzb" and comes from the first source offering one: the Content-Disposition name as the case-sensitive cut leaves it, then any URL path base other than "" and "/", then the safe title, then "novastream" |
| PlaybackService.DeriveFileNameMeaning | backend/services/playback/service.go:289-326 | corrected, the name always ends in ".nzb" and comes from the first source offering one: the Content-Disposition name, then a URL path base other than "", "/" and ".", then the safe title, then "novastream" |
| PlaybackService.EmptyUrlPathNamedDotAsWritten | backend/services/playback/service.go:296-301 | as written, a download URL with an empty path is named "..nzb" whatever the title |
| PlaybackService.EmptyUrlPathUsesTitle | backend/services/playback/service.go:289-326 | corrected, an empty URL path falls through to the safe title |
| PlaybackService.QueueStatusToHealth | backend/services/playback/service.go:542-555 | the five named statuses map to "queued", "processing", "healthy" or "failed"; any other status to its trimmed text |
| PlaybackService.QueueHealthDistinguishes | backend/services/playback/service.go:542-555 | among the named statuses only Completed reads "healthy", and exactly Processing and Retrying read "processing" |
| PlaybackService.ParseQueueMetadata | backend/services/playback/service.go:523-540 | nil or blank metadata gives the empty record |
| PlaybackService.ParseQueueMetadataMeaning | backend/services/playback/service.go:523-540 | a non-empty record is the decoding of the trimmed text; a decoding failure gives the empty record; a successful decoding of non-blank text is the result |
| PlaybackService.FileCandidates | backend/services/playback/service.go:399-420 | no more candidates than listed files |
| PlaybackService.FileCandidatesMeaning | backend/services/playback/service.go:399-420 | each candidate is a playable listed file, at its extension's priority, joined to the directory |
| PlaybackService.BestIndex | backend/services/playback/service.go:415-418 | the tracked index is -1 or a candidate's, and a candidate's whenever there is one |
| PlaybackService.BestIndexMeaning | backend/services/playback/service.go:415-418 | -1 exactly for no candidates; otherwise the candidate of lowest priority, with every earlier one of strictly higher priority |
| PlaybackService.BestIndexSnoc | backend/services/playback/service.go:415-418 | a new candidate becomes the best exactly when it is the first or of strictly lower priority than the best so far |
| PlaybackService.FileCandidatesSnoc | backend/services/playback/service.go:399-420 | one more listed file adds its candidate when it is playable |
| PlaybackService.AddFileCandidates | backend/services/playback/service.go:399-420 | the file loop appends the directory's playable files as candidates and keeps the best index in step |
| PlaybackService.ScanAllSnoc | backend/services/playback/service.go:431-436 | one more subdirectory adds what its scan finds |
| PlaybackService.ScanSubdirectories | backend/services/playback/service.go:431-436 | the subdirectory loop appends what their scans find, ignoring their errors, and keeps the best index in step |
| PlaybackService.ScanDirectory | backend/services/playback/service.go:384-439 | the recursive scan appends what Scan defines, fails exactly when it does, and keeps the best index in step |
| PlaybackService.FindBestMediaFile | backend/services/playback/service.go:378-475 | the method returns what BestMediaFile defines |
| PlaybackService.BestMediaFileMeaning | backend/services/playback/service.go:378-475 | the file chosen is always a found candidate; "no playable media" exactly when the scan succeeds and finds none; with the selector undecided among several, the first candidate of lowest priority |
| PlaybackService.QueueStatusMeaning | backend/services/playback/service.go:178-227 | a failed item reports its trimmed message or "unknown error"; an item still queued reports its id, mapped health, size and trimmed source; a completed item without storage path is an error; a completed item's resolution has its id, "healthy" without preflight health, and the WebDAV prefix |
| PlaybackService.CompletedFileServedDirectly | backend/services/playback/service.go:557-614 | a completed item whose storage path names a playable file is served at the prefix and that path, unscanned |
| PlaybackService.ExtOfLastElement | backend/services/playback/service.go:485-486 | the extension of a path is that of its last element |
| PlaybackService.BaseOfFile | backend/services/playback/service.go:485 | the base of a path not ending in '/' is what follows its last '/' |
| PlaybackService.BaseExt | backend/services/playback/service.go:485-486 | the extension of the base is the extension of the path |
| PlaybackService.IsLikelyDirectoryMeaning | backend/services/playback/service.go:477-494 | a blank path is no directory, one ending in "/" is, and any other is taken for a directory exactly when it has no playable extension |
| PlaybackService.LargestFileSize | backend/services/playback/service.go:150-161 | the size is never negative |
| PlaybackService.LargestFileSizeMeaning | backend/services/playback/service.go:150-161 | no file of the NZB is larger than the size, and a positive size is that of one of its files |
| PlaybackService.NzbFileSize | backend/services/playback/service.go:150-161 | the size loop computes the largest file total |
| PlaybackService.ReportedHealth | backend/services/playback/service.go:116-119 | the reported status is never empty |
| PlaybackService.ResolveMeaning | backend/services/playback/service.go:70-175 | a debrid result is handed to the debrid service; a usenet result without download URL or link fails; with the health check skipped no health failure occurs; a resolved usenet result is healthy, unqueued, of non-negative size and under the WebDAV prefix; an unhealthy report names its status; the NZB is processed under the name derived as written, the path is the prefix plus the processed path, and the source path is the health check's trimmed file name when a check ran and reported one, else the trimmed derived name |
| PlaybackService.ResolvedSizeIsLargestFile | backend/services/playback/service.go:149-161 | a resolved usenet result is no smaller than any file of its NZB |
| Models.Attr | backend/services/debrid/playback.go:38 | a present key gives its value and a missing key the empty string, as Go's map index does |
| Filter.Abs | backend/utils/filter/filter.go:356-361 | the result is x or -x and never negative |
| Filter.ResolutionToNumericMeaning | backend/utils/filter/filter.go:47-60 | the value is 0, 480, 720, 1080 or 2160; positive exactly for 480p, 720p, 1080p, 2160p and 4k in any case; 2160 exactly for 2160p and 4k |
| Filter.HasDolbyVisionMeaning | backend/utils/filter/filter.go:268-276 | true exactly when some format, lower-cased, is "dv", "dolby vision" or contains "dolby" |
| Filter.AddTitle | backend/utils/filter/filter.go:286-297 | the closure adds the trimmed value unless it is blank or already seen ignoring case, and keeps the seen set equal to the lowered titles |
| Filter.KeysSnoc | backend/utils/filter/filter.go:291-296 | adding a title adds its lower-cased form to the seen set |
| Filter.ContainsJapaneseRune | backend/utils/filter/filter.go:326-336 | the loop finds a Japanese character exactly when some character is in the Hiragana, Katakana or Han tables or is half-width Katakana U+FF66 to U+FF9D |
| Filter.RomanizeJapaneseMeaning | backend/utils/filter/filter.go:311-324 | a romanisation exists exactly when the value has a Japanese character and a non-blank transliteration; it is then the transliteration's fields joined by single spaces, and trimmed |
| Filter.AddWithRomanization | backend/utils/filter/filter.go:298-303 | the closure adds the value, then its romanisation when there is one, keeping the seen set equal to the lower-cased titles |
| Filter.AddAllExpandedSnoc | backend/utils/filter/filter.go:298-307 | adding one more value with its romanisation is `add` of the value and then of the romanisation |
| Filter.ExpandedPrefix | backend/utils/filter/filter.go:304-307 | the values handed to `add` for a prefix of the titles are a prefix of those for all of them |
| Filter.ExpandedHolds | backend/utils/filter/filter.go:298-307 | every title, and its romanisation when there is one, is handed to `add` |
| Filter.CandidateTitlesCover | backend/utils/filter/filter.go:283-309 | every non-blank expected or alternate title, and every romanisation of one, is among the candidate titles ignoring case |
| Filter.NormalizeCandidateTitles | backend/utils/filter/filter.go:283-309 | the method builds the titles CandidateTitles defines: the primary title, then each alternate, each followed by its romanisation |
| Filter.AddAllClean | backend/utils/filter/filter.go:286-297 | every candidate title is trimmed and not blank |
| Filter.AddAllDistinct | backend/utils/filter/filter.go:291-294 | no two candidate titles are equal ignoring case |
| Filter.AddAllPrefix | backend/utils/filter/filter.go:286-297 | adding values only ever appends |
| Filter.PrimaryFirst | backend/utils/filter/filter.go:298-304 | a non-blank primary title comes first, trimmed |
| Filter.AddAllCovers | backend/utils/filter/filter.go:286-297 | every non-blank value is represented, ignoring case, among the candidate titles |
| Filter.AddAllSources | backend/utils/filter/filter.go:286-297 | each candidate title is the trimmed spelling of the first value with its lower-cased form |
| Filter.FirstWithKeyExtends | backend/utils/filter/filter.go:286-297 | a first occurrence in a prefix of the values is a first occurrence in all of them |
| Filter.NewTitleIsFirst | backend/utils/filter/filter.go:286-297 | a value that adds a title appends its trimmed form and is the first value with that lower-cased form |
| Filter.FirstSpellingWins | backend/utils/filter/filter.go:286-297 | the candidate title takes the spelling of the first value with its lower-cased form |
| Filter.RejectedByTerms | backend/utils/filter/filter.go:101-115 | the term loop rejects a title exactly when some trimmed, lower-cased, non-blank term occurs in the lower-cased title |
| Filter.TitlesOf | backend/utils/filter/filter.go:84-89 | the titles handed to the parser are the results' titles, position by position |
| Filter.Results | backend/utils/filter/filter.go:65-265 | the method returns what FilterResults defines |
| Filter.CollectTitles | backend/utils/filter/filter.go:84-89 | the loop hands the parser the results' titles, in order |
| Filter.FilterAll | backend/utils/filter/filter.go:97-262 | the loop keeps, in order, what the verdict makes of each result it does not drop |
| Filter.FilterOne | backend/utils/filter/filter.go:99-246 | one loop turn keeps, drops or annotates a result as Verdict defines |
| Filter.FilterResultsUnchanged | backend/utils/filter/filter.go:65-95 | no results, a blank expected title or a failing batch parse return the results unchanged |
| Filter.KeptIndices | backend/utils/filter/filter.go:97-262 | every kept position is a position of the input |
| Filter.KeptAtIndices | backend/utils/filter/filter.go:97-262 | each output element is the verdict on the input at its kept position |
| Filter.KeptIndicesIncrease | backend/utils/filter/filter.go:97-262 | the kept positions strictly increase, so the output keeps the input's order |
| Filter.KeptIndicesExact | backend/utils/filter/filter.go:97-262 | the kept positions are exactly those whose verdict keeps the result |
| Filter.VerdictKeepsResult | backend/utils/filter/filter.go:117-245 | a kept result differs from its input only in its attributes; an unparsed result is kept unchanged; a parsed one gains "hdr" (joined formats), "hasDV" for Dolby Vision and "resolution", every other attribute kept |
| Filter.VerdictDrops | backend/utils/filter/filter.go:99-221 | a filter term in the title drops the result and an unparsed result is otherwise kept; a parsed one is dropped for a TV pattern in a movie search, none in a series search, a movie year more than one off, a resolution above the comparable maximum, or HDR when excluded |
| Filter.VerdictLenient | backend/utils/filter/filter.go:167-212 | a movie with no parsed year or within a year is judged as if no year were expected, and an unknown resolution on either side as if no maximum were set |
| Language.FlagsLeadToCodes | backend/utils/language/language.go:49-84 | every flag in the flag table maps to a known code |
| Language.FlagsAreNotAscii | backend/utils/language/language.go:49-84 | every flag in the table starts with a non-ASCII character |
| Language.NamesLeadToCodes | backend/utils/language/language.go:87-123 | every language name maps to a known code or to "mul" |
| Language.NamesAreLong | backend/utils/language/language.go:87-123 | every language name has at least four characters, so none is mistaken for a code |
| Language.NormalizeToCodeMeaning | backend/utils/language/language.go:127-153 | a blank input has no code; any code returned is a known code or "mul"; a known three-letter code normalises to itself lower-cased; surrounding white space changes nothing |
| Language.ShortUnknownHasNoCode | backend/utils/language/language.go:127-153 | an input of at most three ASCII characters that is not a known code has no code |
| Language.MultiExample | backend/utils/language/language_test.go:42 | "Multi" normalises to "mul" |
| Language.UpperCaseCodeExample | backend/utils/language/language_test.go:17 | "ENG" normalises to "eng" |
| Language.SwissFlagExample | backend/utils/language/language.go:62 | the Swiss flag normalises to "deu" |
| Language.EquivalentCodesMeaning | backend/utils/language/language.go:197-215 | a code is among its own equivalents, equivalence is symmetric, and a code outside the five pairs has only itself |
| Language.AnyEntryMatchesMeaning | backend/utils/language/language.go:171-189 | the scan succeeds exactly when some entry, trimmed and not blank, normalises to one of the valid codes |
| Language.NoPreferenceNoMatch | backend/utils/language/language.go:158-166 | no result list, or a blank preferred code, never matches |
| Language.HasPreferredLanguageMeaning | backend/utils/language/language.go:158-193 | otherwise a match exactly when some comma-separated entry normalises to a code equivalent to the trimmed, lower-cased preferred code |
| Language.HasPreferredLanguageScans | backend/utils/language/language.go:158-193 | with a list and a non-blank code, the answer is the entry scan for that code's equivalents |
| Language.RecognisedEntryMatches | backend/utils/language/language.go:158-215 | a recognised language matches a preference for any code equivalent to its own, such as "Chinese" for "chi" |
| Parsett.Outcome | backend/utils/parsett/parsett.go:113-118 | a record with an error contributes a nil parse, any other its parse |
| Parsett.BuildResultMap | backend/utils/parsett/parsett.go:111-119 | the loop builds the map ResultMap defines, storing the records in order |
| Parsett.ResultMapKeys | backend/utils/parsett/parsett.go:111-119 | the map's keys are exactly the record titles |
| Parsett.ResultMapLast | backend/utils/parsett/parsett.go:111-119 | a title maps to the outcome of the last record carrying it, so a later duplicate overwrites an earlier one |
| Parsett.ParseTitleBatchMeaning | backend/utils/parsett/parsett.go:77-122 | no titles give an empty map without running the parser; otherwise a failed run or decoding is an error, a successful one maps exactly the record titles, and a title whose last record carries an error maps to nil |
| ParseTitleBatchScript.RunScript | parse_title_batch.py:11-36 | fewer than one title prints the error object on standard error and exits 1; otherwise it exits 0 and prints one record per title, in argument order |
| ParseTitleBatchScript.Records | parse_title_batch.py:19-33 | one record per title, in order |
| ParseTitleBatchScript.RecordsMeaning | parse_title_batch.py:20-33 | every record names its own title and carries exactly one of a parse and an error: the exception's text when the parse raised one, the parse otherwise |
| ParseTitleBatchScript.DecodeAll | backend/utils/parsett/parsett.go:105-108 | decoding maps each printed record to its batch result, one for one |
| ParseTitleBatchScript.EveryTitleIsMapped | backend/utils/parsett/parsett.go:77-122 | when the batch run is this script on the titles, the map has every title as a key, and a title that parses maps to its parse |
| ParseTitleBatchScript.LastWithTitle | backend/utils/parsett/parsett.go:112-119 | each record has a last record with the same title at or after it |
| HlsHealth.HealthCheck | backend/handlers/hls_quorum_test.go:302-372 | the verdict is healthy exactly when the reference statement Alive holds; the reason is one of the seven of the rule, and it is "keepalive isolated" or "all signals stale" exactly when the session is unhealthy |
| HlsHealth.FreshSegmentsAreHealthy | backend/handlers/hls_quorum_test.go:319-322 | a segment request within 20 seconds makes the session healthy, whatever the other signals say |
| HlsHealth.FreshKeepalive | backend/handlers/hls_quorum_test.go:324-331 | with a keepalive within 15 seconds, segments within a minute make the session healthy; failing that, so does a session under two minutes old with more than three segments created |
| HlsHealth.KeepaliveQuorum | backend/handlers/hls_quorum_test.go:332-352 | with a fresh keepalive and a segment gap of one to two minutes, the session is healthy by quorum exactly when the playlist is recent, the segment index advances or a connection is open; after two minutes it is reported as an isolated keepalive |
| HlsHealth.QuorumWithoutFreshKeepalive | backend/handlers/hls_quorum_test.go:355-368 | without a fresh keepalive and with a gap under two minutes, the session is healthy exactly when two of the three weak signals hold, and then for that reason |
| HlsHealth.LongGapHealthyOnlyWhileInitializing | backend/handlers/hls_quorum_test.go:319-370 | after two minutes without a segment request, the session is healthy only when it has a fresh keepalive, is under two minutes old and has more than three segments |
| AdminUi.UnexpiredMeaning | backend/handlers/admin_ui.go:52-58 | the cleanup keeps exactly the sessions whose expiry is not before now, with their expiries unchanged; it only removes, and applying it twice is the same as once |
| AdminUi.SessionStore.constructor | backend/handlers/admin_ui.go:37-39 | the package's store starts with no sessions |
| AdminUi.SessionStore.Create | backend/handlers/admin_ui.go:41-61 | the returned token maps to now plus 24 hours, every session that expired before now is dropped, the rest are kept, and the new token validates at once |
| AdminUi.SessionStore.Revoke | backend/handlers/admin_ui.go:74-78 | only the given token is removed; it never validates afterwards, and every other token validates exactly as before |
| AdminUi.ValidateMeaning | backend/handlers/admin_ui.go:63-72 | a token validates exactly when it is present with an expiry after now, that is when cleanup would keep it and it does not expire at that very instant |
| AdminUi.AdminHandler.constructor | backend/handlers/admin_ui.go:282-401 | the handler keeps the configured PIN trimmed and shares the session store |
| AdminUi.AdminHandler.LoginSubmit | backend/handlers/admin_ui.go:752-788 | without a PIN, a redirect without a cookie; an unparsable form, a blank PIN or a wrong PIN give their three error messages and change no session; the right PIN creates a session and sets the 86400-second HttpOnly cookie on /admin, which then authenticates |
| AdminUi.IsAuthenticatedMeaning | backend/handlers/admin_ui.go:706-717 | without a configured PIN every request is authenticated; with one, exactly the requests whose cookie names a session that expires after now |
| AdminUi.CountWhereBounds | backend/handlers/admin_ui.go:288-334 | a count of enabled items never exceeds the number of items, equals it exactly when all are enabled, and is zero exactly when none is |
| AdminUi.CountEnabled | backend/handlers/admin_ui.go:297-334 | the loops of the typed counters compute the number of enabled items |
| AdminUi.CountEnabledItemsMeaning | backend/handlers/admin_ui.go:288-296 | items that are not objects, lack the "enabled" key or hold anything but the boolean true there are never counted |
| AdminUi.EnabledConnectionsConcat | backend/handlers/admin_ui.go:335-343 | the total of enabled connections is additive over a split of the provider list |
| AdminUi.EnabledConnectionsAtMostAll | backend/handlers/admin_ui.go:335-343 | with non-negative connection counts, the enabled total is between zero and the total over all providers |
| AdminUi.TotalConnections | backend/handlers/admin_ui.go:335-343 | the loop sums the connections of the enabled providers only |
| AdminUi.DebridStatusText | backend/handlers/admin_ui.go:602-611 | "N provider(s) configured" for N enabled debrid providers when N is positive, and "No providers enabled" exactly when none is |
| AdminUi.GetStatus | backend/handlers/admin_ui.go:587-614 | the backend is reported reachable, the Usenet total is the enabled connection sum, and the debrid line counts the enabled debrid providers |
| PlexAccounts.ResponseFor | backend/handlers/plex_accounts.go:69-75 | an account is reported connected exactly when it holds a token; ID, name and username are copied |
| PlexAccounts.ListAccounts | backend/handlers/plex_accounts.go:48-83 | a failed settings load answers 500 "Failed to load settings"; otherwise the loop lists, in settings order, the responses of the accounts the viewer may see |
| PlexAccounts.MasterSeesAll | backend/handlers/plex_accounts.go:55-77 | a master login sees every account, one response per account, in order |
| PlexAccounts.OthersSeeOwnAccounts | backend/handlers/plex_accounts.go:55-77 | any other viewer sees exactly the accounts whose owner is the session's account, and every one of them |
| PlexAccounts.NoSessionSeesUnowned | backend/handlers/plex_accounts.go:55-77 | without a session the viewer is no master and has the empty account ID, so only accounts with an empty owner are listed |
| PlexAccounts.AccountName | backend/handlers/plex_accounts.go:109-112 | a blank requested name becomes "Plex Account", any other is trimmed; the stored name is never empty |
| PlexAccounts.CreateAccount | backend/handlers/plex_accounts.go:87-136 | no session gives 401; success needs a session, a decoded body, loaded settings and a successful save, and appends an account with the drawn ID, the derived name, no token and the session's account as owner; a failed save gives 500 |
| PlexAccounts.CreateAccountAppends | backend/handlers/plex_accounts.go:114-120 | a created account is appended at the end, the accounts before it are unchanged, and the creator owns it without a token |
| PlexAccounts.AccountByID | backend/handlers/plex_accounts.go:160 | the account found is the first with that ID; none is found only when no account has it |
| PlexAccounts.Gate | backend/handlers/plex_accounts.go:140-170 | a per-account operation goes ahead exactly when there is a session, the IDs are given, the settings load, the account exists and the login account is master or its owner; a login account that may not manage it gives 403 |
| PlexAccounts.WithToken | backend/handlers/plex_accounts.go:311-322 | the account keeps its ID and owner and takes the token; with user info it takes the username and user ID, and its name changes only from empty or "Plex Account" to the username |
| PlexAccounts.ChosenNameKept | backend/handlers/plex_accounts.go:319-321 | a name the user chose survives connecting, and the account is then connected |
| PlexAccounts.Disconnected | backend/handlers/plex_accounts.go:371-373 | token and username are cleared, everything else is kept, and the account is no longer connected |
| PlexAccounts.DisconnectMeaning | backend/handlers/plex_accounts.go:339-384 | disconnecting twice is disconnecting once, and connecting again after a disconnect restores the connection |
| PlexAccounts.HistoryLimit | backend/handlers/plex_accounts.go:501-507 | the limit is the parsed value when it is an integer in 1..5000 and 500 otherwise, so it always lies in 1..5000 |
| PlexAccounts.PlexUserID | backend/handlers/plex_accounts.go:509-516 | the user filter is the parsed value when it is a positive integer that `strconv.Atoi` accepts within the 64-bit range, and 0 otherwise |
| PlexAccounts.QueryRoundTrip | backend/handlers/plex_accounts.go:501-516 | every in-range limit and every positive user ID up to 9223372036854775807 written in decimal is taken as given; a non-positive user ID, or one too large for a 64-bit int, gives 0 |
| PlexAccounts.HistoryResponseFor | backend/handlers/plex_accounts.go:526-543 | the common fields are copied; series title, season and episode are set from the item only for episodes and are empty otherwise |
| PlexAccounts.HistoryResponses | backend/handlers/plex_accounts.go:524-546 | the conversion gives one response per history item, in order |
| Nntp.ParseLine | backend/services/usenet/nntp.go:165-179 | a line shorter than three characters is malformed; a parsed code is the integer value of the first three characters, and three leading digits always parse to a code in 0..999 |
| Nntp.ResponseRoundTrip | backend/services/usenet/nntp.go:165-179 | a status line written as a three-digit code, a space or dash, and trimmed text reads back as exactly that code and text |
| Nntp.Connection.constructor | backend/services/usenet/nntp.go:27-65 | a connection starts with the lines the server will send and no command written |
| Nntp.Connection.ReadResponse | backend/services/usenet/nntp.go:155-180 | one line is consumed and parsed; a failed read or a closed connection is an error; nothing is written |
| Nntp.Connection.SendCommand | backend/services/usenet/nntp.go:140-153 | the command line is written, then exactly one reply is read |
| Nntp.Connection.Initialize | backend/services/usenet/nntp.go:67-101 | the commands written, the lines consumed and the outcome are those of the greeting-and-authentication exchange with the server's lines |
| Nntp.GreetingMeaning | backend/services/usenet/nntp.go:68-74 | initialisation succeeds only after a 200 or 201 greeting; without a username nothing is written and the greeting alone decides |
| Nntp.AuthMeaning | backend/services/usenet/nntp.go:76-98 | with a username, success means the USER reply is 381 followed by a 281 PASS reply, or is any other code below 400 |
| Nntp.AuthCommands | backend/services/usenet/nntp.go:76-98 | with a username, AUTHINFO USER is written first, and AUTHINFO PASS follows exactly when USER is answered with 381 |
| Nntp.DialAddress | backend/services/usenet/nntp.go:27-32 | a blank host is refused before dialling; otherwise the address is host:port |
| Nntp.NormalizeMessageID | backend/services/usenet/nntp.go:108-111 | the ID sent is trimmed and starts with "<": kept when it already does, wrapped in angle brackets otherwise |
| Nntp.NormalizeMessageIDIdempotent | backend/services/usenet/nntp.go:108-111 | normalising a normalised ID changes nothing |
| Nntp.BareIDBracketed | backend/services/usenet/nntp.go:108-111 | the bare ID "bare@test" is sent as "<bare@test>" |
| Nntp.ClassifyStat | backend/services/usenet/nntp.go:118-130 | a STAT reply of 223 means present; 503 is a bad-sequence error; any other code of 400 or more except 430, 411 and 412 is an error response; everything else means absent |
| Nntp.Connection.CheckArticle | backend/services/usenet/nntp.go:103-131 | a blank ID is refused without writing anything; otherwise STAT with the normalised ID is written, one reply is read, and the result is that reply's classification or the read's error |
| Trakt.Client.constructor | backend/services/trakt/client.go:107-113 | the client keeps the client ID and secret it is given |
| Trakt.Client.UpdateCredentials | backend/services/trakt/client.go:439-447 | both credentials are replaced, and the client then has credentials exactly when both new values are non-empty |
| Trakt.Client.Headers | backend/services/trakt/client.go:116-123 | every request carries the JSON content type, API version 2 and the client ID as API key; an Authorization header "Bearer " plus the token is added exactly when there is a token, and nothing else is set |
| Trakt.HeadersIgnoreSecret | backend/services/trakt/client.go:116-123 | the client secret is never sent, and without a token there is no Authorization header |
| Trakt.PollOutcome | backend/services/trakt/client.go:187-206 | 200 with a decodable body yields the token; 400 means still pending; 410, 409 and 429 are the expired, already-used and slow-down errors; any other status is a failure carrying that status |
| Trakt.GetAll | backend/services/trakt/client.go:315-337 | the pagination loop, starting at page 1 with nothing collected, returns what the listing's page sequence collects |
| Trakt.CollectMeaning | backend/services/trakt/client.go:315-337 | a successful collection is the items held followed by the items of every page read, in order, each page answered; the last page read was empty or brought the count to the server's total |
| Trakt.CollectStops | backend/services/trakt/client.go:329-331 | an empty page, or a page that brings the count to the total, ends the listing with its items appended |
| Trakt.CollectContinues | backend/services/trakt/client.go:329-334 | a non-empty page that leaves the count below the total is appended and the next page is asked for |
| Trakt.FirstPageFails | backend/services/trakt/client.go:321-324 | a failing request makes the whole listing fail |
| Trakt.SinglePage | backend/services/trakt/client.go:320-336 | a first page holding the whole listing is the result |
| Trakt.IDsToMap | backend/services/trakt/client.go:407-422 | the map holds the IMDB ID exactly when it is set, and each numeric ID in decimal exactly when it is non-zero, and no other key |
| Trakt.IDsToMapRoundTrip | backend/services/trakt/client.go:407-422 | every numeric ID in the map, a 64-bit int, reads back as the ID it came from |
| Trakt.NormalizeMediaType | backend/services/trakt/client.go:425-436 | "show" becomes "series" and every other type is kept |
| Trakt.NormalizeMediaTypeMeaning | backend/services/trakt/client.go:425-436 | normalising is idempotent, and a type normalises to "series" exactly when it is "show" or "series" |
| MdbList.SourceMax | backend/services/metadata/mdblist_client.go:34-46 | Letterboxd is out of 5, Rotten Tomatoes, RT Audience and Metacritic out of 100, and every other source, known or not, out of 10 |
| MdbList.FetchRating | backend/services/metadata/mdblist_client.go:170-213 | a failed request, status or decoding is an error; an empty answer or a zero first rating is no rating; otherwise the first rating, non-zero, tagged with its type and on that type's scale |
| MdbList.NormalizeImdbID | backend/services/metadata/mdblist_client.go:98-101 | the ID always starts with "tt": kept when it does, prefixed otherwise |
| MdbList.NormalizeImdbIDIdempotent | backend/services/metadata/mdblist_client.go:98-101 | normalising a normalised ID changes nothing |
| MdbList.CacheKey | backend/services/metadata/mdblist_client.go:104 | the key is the media type, one separator and the ID |
| MdbList.CacheKeyInjective | backend/services/metadata/mdblist_client.go:104 | for media types without a colon, two equal keys come from the same type and the same ID |
| MdbList.EnabledSet | backend/services/metadata/mdblist_client.go:56-59 | the enabled rating types are exactly the names in the list |
| MdbList.Client.constructor | backend/services/metadata/mdblist_client.go:55-69 | the client keeps the key and the flag, enables exactly the listed rating types and starts with an empty cache |
| MdbList.Client.UpdateSettings | backend/services/metadata/mdblist_client.go:72-89 | key, flag and enabled types are replaced; the cache is cleared exactly when the key or the flag changes and is kept otherwise |
| MdbList.Client.GetRatings | backend/services/metadata/mdblist_client.go:93-168 | a disabled client, a missing key or an empty ID gives no ratings and leaves the cache alone; a fresh cache entry under the normalised key is returned as it is; with no enabled type nothing is fetched; otherwise one rating per enabled type that answered with a non-zero rating, none twice, is returned and cached at now; settings never change |
| MdbList.FoundIncludes | backend/services/metadata/mdblist_client.go:128-152 | an enabled type whose answer holds a non-zero first rating is among the results, on its own scale |
| Config.ToNNTPProviders | backend/config/adapter.go:134-156 | the loop yields the providers of the usable settings, in order |
| Config.ProvidersConcat | backend/config/adapter.go:137-153 | the providers of two runs of settings are those of the first followed by those of the second |
| Config.ProvidersOfOne | backend/config/adapter.go:137-153 | one setting yields one provider exactly when it is enabled and has a host |
| Config.ProvidersMeaning | backend/config/adapter.go:127-156 | there are never more providers than settings; each comes from an enabled setting with a host, copies its fields, and carries the 120-second idle time and 900-second lifetime |
| Config.UsableSettingKept | backend/config/adapter.go:137-153 | every enabled setting with a host has its provider in the list |
| Config.GetConfig | backend/config/adapter.go:70-119 | a failed load gives the defaults (15 download workers, a 100 MB cache, and the import defaults); a successful load copies each streaming, import, SABnzbd and WebDAV value it reads, and the rclone part is always empty |
| Config.GetConfigLosesNothing | backend/config/adapter.go:70-119 | two loaded settings that give the same configuration are the same settings |
| Pin.ValidatePIN | backend/utils/pin.go:24-37 | a string is accepted exactly when it is six characters long and every character is a decimal digit |
| Pin.Format06 | backend/utils/pin.go:20 | the zero-padded decimal form is all digits, at least six long, and reads back as the number |
| Pin.GeneratePIN | backend/utils/pin.go:10-21 | a failed draw is an error; otherwise the PIN is valid and its value is the draw plus 100000 |
| Pin.GeneratedRange | backend/utils/pin_test.go:7-28 | every generated PIN lies between 100000 and 999999, so its first digit is never 0 |
| Pin.GeneratedInjective | backend/utils/pin.go:12-20 | distinct draws give distinct PINs |
| Pin.ValidationExamples | backend/utils/pin_test.go:30-51 | "123456", "000000" and "999999" are valid; "12345", "1234567", "12345a", "" and "abc123" are not |

## Left out

- Integers are unbounded. Go's `int64` arithmetic is modelled without overflow, since the file sizes, offsets and counts it computes are far from the limit. Parsing is where the limit shows: Strs.ParseInt fails outside the 64-bit range as `strconv.Atoi` does, so an oversized query parameter such as `plexUserId` is refused as in Go, and the Trakt IDs are 64-bit values.
- Strings are sequences of characters. `strings.ToLower` and `strings.TrimSpace` are modelled on ASCII, with U+0085 and U+00A0 also counted as space. Unicode case mapping is not modelled.
- Network, process and disk I/O are inputs that carry their outcome, never performed:
  - NNTP dialling, TLS and deadlines;
  - the Trakt, MDBList, Plex and debrid HTTP calls;
  - the `parsett` subprocess and JSON decoding;
  - `parseNZBGroups`;
  - registry directory creation and file writes;
  - touchStreamDirectory;
  - the metadata readers.
- Concurrency is modelled as sequential code. This covers the mutexes in the session store, the remote file, the streaming cache, the range tracker and the MDBList client. The atomics and pipes of `segment.go` are left out.
- UsenetSegment.SortByStart: fixes one order among stored segments with equal StartOffsets, an insertion sort that keeps their stored order. `sort.Slice` is not stable and may visit them in another order, so BuildPlan is exact only up to that order. The plan's bounds are proved for every sorted arrangement (UsenetSegment.PlanPropertiesAnyOrder).
- MdbList.Client.GetRatings: the goroutine fan-out's result order is not modelled. The ratings are returned in an unspecified order, none twice.
- The channel select with a timeout in `fetchNZB` is left out, as is persistQueueMetadata's disk write.
- Floating point is not modelled:
  - the approximate byte offset and seek-seconds arithmetic of `metadata_provider.go` is an input;
  - the GB size limits, the 0.90 similarity threshold and the similarity scores of the filter are inputs and verdicts;
  - MDBList rating values are exact reals.
- Foreign libraries are uninterpreted or abstract inputs:
  - the rapidyenc decoder;
  - `unidecode.Unidecode` and Go's Hiragana, Katakana and Han tables, which `romanizeJapanese` and `containsJapaneseRune` receive as a `Romanizer`;
  - `similarity.Similarity`;
  - `mediaresolve.SelectBestCandidate`;
  - `nzbparser`;
  - `PTT.parse_title`;
  - `url.Parse`, whose outcome is an input;
  - `mime.TypeByExtension`;
  - `crypto/rand`;
  - `uuid`.
- `subtle.ConstantTimeCompare` is modelled as equality.
- RemoteFile.MetadataVirtualFile.Read: a `fuel` bound stops a reader that keeps returning zero bytes without an error; the source would loop forever there. Byte contents are not modelled, only counts.
- UsenetRange.GetSegmentsInRangeWithLimit: the ranged segments are computed as values by the loop and allocated as objects after it, not inside it.
- Registry: the yEnc and sanitising examples of the tests are not restated as proofs on concrete strings; the general contracts cover them.
- Registry: NewRegistry and cleanupExpiredLocked, which walk the disk, are not modelled beyond a flag saying whether the clean-up ran.
- DebridStreaming: GetDirectURL and streamWithProvider are modelled only through the path gate, the cache and the composite fallback, not the providers' HTTP.
- PlexAccounts: `config/settings.go` is not part of this model. GetAccountByID is modelled as the first account with that ID, and the save after UpdateAccount is left out.
- PlexAccounts: DeleteAccount is modelled only through the shared Gate check. Its account removal (`settings.Plex.RemoveAccount` in `config/settings.go`, a 404 when it fails), the clearing of every user profile's link to the account (the users service) and the save of the settings (a 500 when it fails) are not modelled, because `config/settings.go` and the users service are not part of this model.
- PlexAccounts: CreatePIN, GetHomeUsers, GetServers and GetWatchlist are modelled only through the shared Gate check, because the rest is Plex HTTP.
- AdminUi.GetStatus: the timestamp is not modelled.
- AdminUi.SessionStore.Create: the two clock reads of `create` are modelled as one instant.
- DebridStreaming.StreamingProvider.SetCachedUrl: the two clock reads, for the stored expiry and the pruning test, are modelled as one instant.
- AdminUi: Logout, page rendering and templates are left out; they are HTTP plumbing around revoke.
- MdbList.Client.GetRatings: the two clock reads, for the cache test and the stored entry, are modelled as one instant.
- MdbList.Client: the enabled-ratings map is modelled as the set of names it maps to true.
- Nntp.Connection.SendCommand: write and flush errors are not modelled; only the reply read can fail.
- Trakt.GetAll: pagination runs over a finite list of answers, with empty pages after it.
- Trakt.PollOutcome: a request that fails before any status arrives, and the marshalling of the payload, are not modelled; the outcome starts from the status.
- Trakt: GetDeviceCode, RefreshAccessToken, GetUserProfile and the single-page requests are HTTP calls; only their headers and the pagination over them are modelled.
- Language.FlagsAreNotAscii is weaker than the source's tables: it states only that every flag of the table starts with a character outside ASCII, not which emoji it is.
- Filter: the attribute map that the source shares between a result and its copy is modelled as a value.
- Filter: ShouldFilter is the blank-title test that Filter.FilterResultsUnchanged covers; it has no row of its own.
- Pin.ValidatePIN: Go measures length in bytes and iterates runes. A six-byte string passes only when all its characters are ASCII digits, so counting characters gives the same verdict.
- ParseTitleBatchScript: the script's docstring says titles arrive on stdin, but the code reads them from the command line. The model follows the code.

## Findings

| source | as written | input that shows it | evidently intended | confidence | as-written member | corrected member |
|---|---|---|---|---|---|---|
| backend/services/debrid/playback.go:234-249 | the archive check compares the lower-cased `path.Ext` of the URL's path with a list that includes ".tar.gz", but `path.Ext` returns only the text from the last dot, so ".tar.gz" can never match | `https://host/file.tar.gz`: the extension is ".gz", which is not listed, so the archive is let through | a path ending in ".tar.gz" is reported as a ".tar.gz" archive | not executed | DebridPlayback.TarGzNeverDetected, DebridPlayback.TarGzLetThrough, DebridPlayback.TarGzLinkResolves | DebridPlayback.DetectArchiveExtension, DebridPlayback.DetectArchiveExtensionMeaning, DebridPlayback.TarGzPathDetected |
| backend/services/playback/service.go:328-341 | the part is matched against "filename=" case-insensitively, but the prefix is then removed case-sensitively | `attachment; FILENAME=movie.nzb` gives the file name "FILENAME=movie.nzb" | the value after the parameter name, "movie.nzb", whatever the case of the name | not executed | PlaybackService.MixedCaseParamKeptAsWritten, PlaybackService.DeriveFileNameAsWrittenMeaning | PlaybackService.ParamNameCaseInsensitive, PlaybackService.LowerCaseParamUnchanged, PlaybackService.DeriveFileNameMeaning |
| backend/services/playback/service.go:296-301 | an empty URL path has `path.Base` ".", which passes the test against "" and "/" | `https://host` with no Content-Disposition is saved as "..nzb" | fall through to the file name made from the title | not executed | PlaybackService.EmptyUrlPathNamedDotAsWritten, PlaybackService.DeriveFileNameAsWrittenMeaning | PlaybackService.EmptyUrlPathUsesTitle, PlaybackService.DeriveFileNameMeaning |
