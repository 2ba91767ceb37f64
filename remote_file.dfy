/**
 * Metadata-backed virtual files (backend/internal/nzb/filesystem/remote_file.go):
 * path normalisation, the open decision, and the `MetadataVirtualFile` read
 * cursor with its range initialisation, chunked range readers, reader cache
 * and health reporting.
 */
module RemoteFile {
  import opened Wrappers
  import opened Strs
  import opened Paths

  const RootPath: string := "/"
  const DefaultStreamingChunkSize: int := 32 * 1024 * 1024

  // ---------------------------------------------------------------------------
  // Paths and the open decision.
  // ---------------------------------------------------------------------------

  /** `normalizePath`: clean the path and drop its leading '/'; a path that
      cleans to "." is the root. */
  function NormalizePath(p: string): (r: string)
    ensures r == RootPath <==> Clean(p) == "."
    ensures r != RootPath ==> Clean(p) == (if p != [] && p[0] == '/' then "/" else "") + r
    ensures r != RootPath ==> r == [] || r[0] != '/'
  {
    var cleaned := TrimPrefix(Clean(p), "/");
    if cleaned == "." then RootPath else cleaned
  }

  /** The empty path is the root, while "/" itself normalises to the empty path. */
  lemma NormalizeRootForms()
    ensures NormalizePath("") == RootPath
    ensures NormalizePath("/") == ""
  {
    assert Split("/", '/') == ["", ""] by {
      assert IndexChar("/", '/') == 0;
      assert "/"[1..] == [];
    }
  }

  /** The parts of `RemoteFileConfig` the model sees. */
  datatype RemoteFileConfig = RemoteFileConfig(
    hasMetadataService: bool,
    hasReaderFactory: bool,
    hasEncryption: bool,
    hasHealthReporter: bool,
    streamingChunk: int)

  /** `NewMetadataRemoteFile`: a non-positive streaming chunk becomes 32 MiB. */
  function NewMetadataRemoteFile(cfg: RemoteFileConfig): (r: RemoteFileConfig)
    ensures r.streamingChunk > 0
    ensures cfg.streamingChunk > 0 ==> r == cfg
    ensures cfg.streamingChunk <= 0 ==> r == cfg.(streamingChunk := DefaultStreamingChunkSize)
  {
    if cfg.streamingChunk <= 0 then cfg.(streamingChunk := DefaultStreamingChunkSize) else cfg
  }

  datatype FileStatus = Healthy | Partial | Corrupted

  /** The stored metadata of one file. */
  datatype FileMeta = FileMeta(fileSize: int, status: FileStatus, encrypted: bool)

  /** The metadata service, as the answers it gives. */
  datatype Store = Store(
    dirExists: string -> bool,
    fileExists: string -> bool,
    readMeta: string -> Result<Option<FileMeta>, string>)

  datatype OpenError = NoMetadataService | NoReaderFactory | ReadMetadata(msg: string) | FileIsCorrupted

  /** `OpenFile`'s `(ok, file, err)`: a directory or a file (ok), nothing, or an error. */
  datatype OpenResult =
    | OpenedDirectory(name: string, normalized: string)
    | OpenedFile(name: string, meta: FileMeta)
    | NotFound
    | Failed(err: OpenError)
  {
    predicate Ok() { OpenedDirectory? || OpenedFile? }
  }

  /** `isValidEmptyDirectory`: walk from the path towards the root, asking
      whether each parent directory exists. */
  function IsValidEmptyDirectory(normalized: string, dirExists: string -> bool): bool
    decreases if normalized == RootPath then 0 else |normalized| + 1
  {
    if normalized == RootPath then true
    else
      var parent := if Dir(normalized) == "." then RootPath else Dir(normalized);
      DirShortens(normalized);
      if dirExists(parent) then true
      else if parent == normalized then false
      else IsValidEmptyDirectory(parent, dirExists)
  }

  /** The walk always ends at the root, which counts as valid: every path is a
      valid empty directory, whatever directories exist. */
  lemma {:induction false} EveryPathIsValidEmptyDirectory(normalized: string, dirExists: string -> bool)
    ensures IsValidEmptyDirectory(normalized, dirExists)
    decreases if normalized == RootPath then 0 else |normalized| + 1
  {
    if normalized != RootPath {
      var parent := if Dir(normalized) == "." then RootPath else Dir(normalized);
      DirShortens(normalized);
      if !dirExists(parent) {
        assert parent != normalized;
        EveryPathIsValidEmptyDirectory(parent, dirExists);
      }
    }
  }

  /** `OpenFile`. */
  function OpenFile(cfg: RemoteFileConfig, store: Store, name: string): (r: OpenResult)
    ensures !cfg.hasMetadataService ==> r == Failed(NoMetadataService)
    ensures cfg.hasMetadataService && !cfg.hasReaderFactory ==> r == Failed(NoReaderFactory)
    ensures r.OpenedDirectory? ==> r.name == name && r.normalized == NormalizePath(name)
    ensures r.OpenedFile? ==>
      var n := NormalizePath(name);
      && r.name == name && !store.dirExists(n) && store.fileExists(n)
      && store.readMeta(n) == Ok(Some(r.meta)) && r.meta.status != Corrupted
    ensures r == Failed(FileIsCorrupted) <==>
      var n := NormalizePath(name);
      && cfg.hasMetadataService && cfg.hasReaderFactory && !store.dirExists(n) && store.fileExists(n)
      && store.readMeta(n).Ok? && store.readMeta(n).value.Some? && store.readMeta(n).value.value.status == Corrupted
  {
    if !cfg.hasMetadataService then Failed(NoMetadataService)
    else if !cfg.hasReaderFactory then Failed(NoReaderFactory)
    else
      var n := NormalizePath(name);
      if store.dirExists(n) then OpenedDirectory(name, n)
      else if !store.fileExists(n) then
        if IsValidEmptyDirectory(n, store.dirExists) then OpenedDirectory(name, n) else NotFound
      else
        match store.readMeta(n)
        case Err(msg) => Failed(ReadMetadata(msg))
        case Ok(None) => NotFound
        case Ok(Some(meta)) =>
          if meta.status == Corrupted then Failed(FileIsCorrupted) else OpenedFile(name, meta)
  }

  /** With both dependencies configured, a path that is not a file opens as a
      directory: the "not found" answer comes only from missing metadata. */
  lemma OpenMissingFileIsDirectory(cfg: RemoteFileConfig, store: Store, name: string)
    requires cfg.hasMetadataService && cfg.hasReaderFactory
    requires !store.fileExists(NormalizePath(name))
    ensures OpenFile(cfg, store, name) == OpenedDirectory(name, NormalizePath(name))
  {
    EveryPathIsValidEmptyDirectory(NormalizePath(name), store.dirExists);
  }

  // ---------------------------------------------------------------------------
  // Range initialisation and the size arithmetic.
  // ---------------------------------------------------------------------------

  /** A parsed `Range` header; a negative start with a non-negative end is a
      suffix range of `end` bytes (section 2.1 of RFC 7233). */
  datatype RangeHeader = RangeHeader(start: int, end: int)

  /** The read window: `startOffset`, `endOffset` and `originalRangeEnd`. */
  datatype Window = Window(start: int, end: int, originalEnd: int)

  /** The window a range header selects in a file of `size` (already made non-negative). */
  function HeaderWindow(size: int, h: RangeHeader): Window
  {
    var start := if h.start < 0 && h.end >= 0 then Max(0, size - Min(h.end, size)) else h.start;
    var end := if h.start < 0 && h.end >= 0 then size - 1 else h.end;
    var s1 := if start >= 0 then (if size > 0 && start >= size then size - 1 else start) else 0;
    var e1 := if end >= 0 then (if size > 0 && end >= size then size - 1 else end) else size - 1;
    var s2 := if size == 0 then 0 else s1;
    var e2 := if size == 0 then -1 else e1;
    Window(s2, if e2 < s2 then s2 else e2, if h.end >= 0 then h.end else -1)
  }

  /** `initRangeLocked`'s window: the whole file, narrowed by the range header if any. */
  function InitWindow(fileSize: int, rh: Option<RangeHeader>): Window
  {
    var size := if fileSize < 0 then 0 else fileSize;
    var w := if rh.Some? then HeaderWindow(size, rh.value)
             else Window(0, if size > 0 then size - 1 else -1, -1);
    Window(if w.start < 0 then 0 else w.start,
           if size > 0 && w.end >= size then size - 1 else w.end,
           w.originalEnd)
  }

  /** For a non-empty file the window lies inside the file; for an empty one it
      starts at 0. Without a header it is the whole file. */
  lemma InitWindowBounds(fileSize: int, rh: Option<RangeHeader>)
    ensures var w := InitWindow(fileSize, rh);
      && (fileSize > 0 ==> 0 <= w.start <= w.end <= fileSize - 1)
      && (fileSize <= 0 ==> w.start == 0 && -1 <= w.end <= 0)
      && (rh == None ==> w.start == 0 && w.end == (if fileSize > 0 then fileSize - 1 else -1) && w.originalEnd == -1)
      && (rh.Some? ==> w.originalEnd == (if rh.value.end >= 0 then rh.value.end else -1))
  {
  }

  /** A suffix range of `n >= 1` bytes selects the last min(n, size) bytes. */
  lemma SuffixRangeSelectsTail(fileSize: int, n: int, s: int)
    requires fileSize > 0 && n >= 1 && s < 0
    ensures var w := InitWindow(fileSize, Some(RangeHeader(s, n)));
      w.end == fileSize - 1 && w.end - w.start + 1 == Min(n, fileSize)
  {
  }

  /** A range that already lies in the file is taken as it is. */
  lemma InFileRangeKept(fileSize: int, s: int, e: int)
    requires 0 <= s <= e < fileSize
    ensures InitWindow(fileSize, Some(RangeHeader(s, e))) == Window(s, e, e)
  {
  }

  /** `Stat`'s size: the window length with its end clamped into the file, or 0. */
  function StatSize(fileSize: int, start: int, end: int): int
  {
    if fileSize > 0 then
      var s := if start < 0 then 0 else start;
      var e := if end < 0 || end >= fileSize then fileSize - 1 else end;
      if e >= s then e - s + 1 else 0
    else 0
  }

  /** After initialisation `Stat` reports the window's length: at least one
      byte and at most the file for a non-empty file, the whole file when no
      range was asked for, and 0 for an empty file. */
  lemma StatSizeOfWindow(fileSize: int, rh: Option<RangeHeader>)
    ensures var w := InitWindow(fileSize, rh);
      && (fileSize > 0 ==> StatSize(fileSize, w.start, w.end) == w.end - w.start + 1)
      && (fileSize > 0 ==> 1 <= StatSize(fileSize, w.start, w.end) <= fileSize)
      && (fileSize > 0 && rh == None ==> StatSize(fileSize, w.start, w.end) == fileSize)
      && (fileSize <= 0 ==> StatSize(fileSize, w.start, w.end) == 0)
  {
    InitWindowBounds(fileSize, rh);
  }

  /** `RangeInfo`'s `(start, end, total)`. */
  function RangeInfoOf(total: int, start: int, end: int): (int, int, int)
  {
    var s := if start < 0 then 0 else start;
    if total <= 0 then (s, -1, total)
    else
      var e := if end < 0 || end >= total then total - 1 else end;
      (s, if e < s then s - 1 else e, total)
  }

  /** `RangeInfo` reports end -1 for an empty file, and otherwise an end
      clamped into [start-1, total-1]. */
  lemma RangeInfoBounds(total: int, start: int, end: int)
    ensures var (s, e, t) := RangeInfoOf(total, start, end);
      && t == total && s >= 0
      && (total <= 0 ==> e == -1)
      && (total > 0 ==> s - 1 <= e && (e <= total - 1 || e == s - 1))
      && (total > 0 && 0 <= start <= end < total ==> (s, e) == (start, end))
  {
  }

  // ---------------------------------------------------------------------------
  // Range readers.
  // ---------------------------------------------------------------------------

  /** The range `ensureReader` asks the factory for, at cursor `current`. */
  function RequestedRange(current: int, endOffset: int, fileSize: int, chunk: int, originalEnd: int): (int, int)
  {
    var start := if current < 0 then 0 else current;
    var maxEnd := fileSize - 1;
    var end0 := if endOffset < 0 || endOffset > maxEnd then maxEnd else endOffset;
    var end1 := if end0 < start then start else end0;
    if chunk > 0 && originalEnd == -1 then
      var chunkEnd := if start + chunk - 1 < start then start else start + chunk - 1;
      (start, if chunkEnd < end1 then chunkEnd else end1)
    else (start, end1)
  }

  /** With the cursor inside the file and window, the request starts at the
      cursor and ends inside both; without an explicit end it spans at most
      one streaming chunk, and exactly one when the window has that much left. */
  lemma RequestedRangeBounds(current: int, endOffset: int, fileSize: int, chunk: int, originalEnd: int)
    requires 0 <= current <= fileSize - 1
    requires endOffset < 0 || current <= endOffset
    ensures var (s, e) := RequestedRange(current, endOffset, fileSize, chunk, originalEnd);
      && s == current && s <= e <= fileSize - 1
      && (endOffset >= 0 ==> e <= endOffset)
      && (chunk > 0 && originalEnd == -1 ==> e <= s + chunk - 1)
      && (var limit := Min(if endOffset < 0 then fileSize - 1 else endOffset, fileSize - 1);
          chunk > 0 && originalEnd == -1 && s + chunk - 1 <= limit ==> e == s + chunk - 1)
      && (!(chunk > 0 && originalEnd == -1) ==> e == (if endOffset < 0 || endOffset > fileSize - 1 then fileSize - 1 else endOffset))
  {
  }

  /** The cache key `fmt.Sprintf("%d-%d", start, end)`. */
  function CacheKey(start: int, end: int): string
  {
    IntToString(start) + "-" + IntToString(end)
  }

  lemma DigitsHaveNoDash(s: string)
    requires AllDigits(s)
    ensures NoChar(s, '-')
  {
    assert forall k :: 0 <= k < |s| ==> IsDigit(s[k]);
  }

  /** Distinct non-negative ranges get distinct cache keys. */
  lemma CacheKeyInjective(a: nat, b: nat, c: nat, d: nat)
    requires CacheKey(a, b) == CacheKey(c, d)
    ensures a == c && b == d
  {
    var x, y, u, v := NatToString(a), NatToString(b), NatToString(c), NatToString(d);
    var k := x + "-" + y;
    DigitsHaveNoDash(x);
    DigitsHaveNoDash(u);
    assert k[|x|] == '-' && k[..|x|] == x;
    assert k[|u|] == '-' && k[..|u|] == u;
    assert |x| == |u|;
    assert x == u;
    assert y == k[|x| + 1..] == v;
  }

  /** An open range reader: its identity and the inclusive range it serves. */
  datatype RangeReader = RangeReader(id: nat, start: int, end: int)

  /** What one `Read` call on the underlying reader returns: `(n, nil)`,
      `(n, io.EOF)` or `(n, err)`. */
  datatype ReadOutcome = Data(n: nat) | DataEof(n: nat) | DataErr(n: nat)

  /** The environment a virtual file talks to: whether the reader factory and
      the encryption wrapper succeed for a range, and what the underlying
      reader with a given identity delivers at an offset for a buffer size. */
  datatype Env = Env(
    newReaderOk: (int, int) -> bool,
    wrapOk: (int, int) -> bool,
    read: (nat, int, nat) -> ReadOutcome)

  /** A reader never reports more bytes than the buffer holds. */
  ghost predicate WellBehaved(env: Env)
  {
    forall id, off, m :: env.read(id, off, m).n <= m
  }

  /** A read through the `io.LimitReader` that caps a range reader at its range. */
  function LimitedRead(env: Env, r: RangeReader, offset: int, max: nat): (o: ReadOutcome)
    requires WellBehaved(env)
    ensures o.n <= max && (o.n > 0 ==> offset + o.n <= r.end + 1)
  {
    var remaining := r.end + 1 - offset;
    if remaining <= 0 then DataEof(0)
    else env.read(r.id, offset, Min(max, remaining))
  }

  /** Whether `Read`'s loop goes on after one pass, or stops with an error or none. */
  datatype Step = Continue | Done(err: Option<ReadErr>)

  datatype ReadErr = EOF | FactoryFailed | NoCipherConfig | WrapFailed | ReaderFailed | Stalled

  datatype HealthReport = MarkPartial(path: string) | MarkCorrupted(path: string)

  /** Cached readers: identities below the next fresh one, one entry per
      identity, each under the key of its own range. */
  predicate CacheOk(cache: map<string, RangeReader>, nextId: nat)
  {
    && (forall k :: k in cache ==> cache[k].id < nextId && 0 <= cache[k].start <= cache[k].end)
    && (forall k :: k in cache ==> k == CacheKey(cache[k].start, cache[k].end))
    && (forall k1, k2 :: k1 in cache && k2 in cache && cache[k1].id == cache[k2].id ==> k1 == k2)
  }

  lemma CacheOkRemove(cache: map<string, RangeReader>, nextId: nat, k: string)
    requires CacheOk(cache, nextId)
    ensures CacheOk(cache - {k}, nextId)
  {
  }

  lemma CacheOkAdd(cache: map<string, RangeReader>, nextId: nat, s: nat, e: nat)
    requires CacheOk(cache, nextId) && s <= e && CacheKey(s, e) !in cache
    ensures CacheOk(cache[CacheKey(s, e) := RangeReader(nextId, s, e)], nextId + 1)
  {
  }

  /** A cache hit under the key of [s, e] is a reader for exactly [s, e]. */
  lemma CacheOkHit(cache: map<string, RangeReader>, nextId: nat, s: nat, e: nat)
    requires CacheOk(cache, nextId) && CacheKey(s, e) in cache
    ensures var r := cache[CacheKey(s, e)]; r.start == s && r.end == e && r.id < nextId
  {
    var r := cache[CacheKey(s, e)];
    CacheKeyInjective(r.start, r.end, s, e);
  }

  /** The cache without the entries that hold `r`. */
  function Without(cache: map<string, RangeReader>, r: Option<RangeReader>): map<string, RangeReader>
  {
    if r.None? then cache else map k | k in cache && cache[k] != r.value :: cache[k]
  }

  /** Identities are unique, so deleting the entry under `k` deletes every
      entry that holds its reader, and the cache stays well formed. */
  lemma WithoutKey(cache: map<string, RangeReader>, nextId: nat, k: string)
    requires CacheOk(cache, nextId) && k in cache
    ensures cache - {k} == Without(cache, Some(cache[k]))
    ensures CacheOk(cache - {k}, nextId)
  {
  }

  lemma WithoutMissing(cache: map<string, RangeReader>, r: RangeReader)
    requires forall k :: k in cache ==> cache[k] != r
    ensures Without(cache, Some(r)) == cache
  {
  }

  /** Window and cursor once initialised: the window is the initial one and,
      for a non-empty file, lies in the file with the cursor at most one past it. */
  predicate WindowOk(initialized: bool, fileSize: int, w: Window, cur: int, expected: Window)
  {
    && (initialized ==> w == expected && 0 <= w.start <= cur)
    && (initialized && fileSize > 0 ==> w.start <= w.end <= fileSize - 1 && cur <= w.end + 1)
  }

  /** A current reader exists only for a non-empty initialised file and has
      the cursor inside (or just past) its range. */
  predicate ReaderOk(reader: Option<RangeReader>, initialized: bool, fileSize: int, cur: int, nextId: nat)
  {
    reader.Some? ==>
      && initialized && fileSize > 0 && reader.value.id < nextId
      && reader.value.start <= cur <= reader.value.end + 1
  }

  /** The cache holds nothing but the current reader. */
  predicate Tracks(reader: Option<RangeReader>, cache: map<string, RangeReader>)
  {
    && (reader.None? ==> cache == map[])
    && (reader.Some? ==> forall k :: k in cache ==> cache[k] == reader.value)
  }

  /** Releasing the reader a tracking cache holds empties the cache. */
  lemma TracksRelease(reader: Option<RangeReader>, cache: map<string, RangeReader>)
    requires Tracks(reader, cache)
    ensures Without(cache, reader) == map[]
  {
    if reader.Some? {
      assert forall k :: k !in Without(cache, reader);
    }
  }

  class MetadataVirtualFile {
    const name: string
    const fileSize: int
    const encrypted: bool
    const rangeHeader: Option<RangeHeader>
    const streamingChunk: int
    const hasEncryption: bool
    const hasHealthReporter: bool

    var originalRangeEnd: int
    var reader: Option<RangeReader>
    var nextReaderId: nat
    var closed: bool
    var rangeInitialized: bool
    var startOffset: int
    var endOffset: int
    var currentOffset: int
    var readerCache: map<string, RangeReader>
    var reports: seq<HealthReport>

    ghost function CurrentWindow(): Window
      reads this
    {
      Window(startOffset, endOffset, originalRangeEnd)
    }

    /** The cursor after initialisation, whether or not it has happened yet. */
    ghost function StartCursor(): int
      reads this
    {
      if rangeInitialized then currentOffset else InitWindow(fileSize, rangeHeader).start
    }

    ghost predicate Valid()
      reads this
    {
      && WindowOk(rangeInitialized, fileSize, CurrentWindow(), currentOffset, InitWindow(fileSize, rangeHeader))
      && ReaderOk(reader, rangeInitialized, fileSize, currentOffset, nextReaderId)
      && CacheOk(readerCache, nextReaderId)
    }

    ghost predicate CacheTracksReader()
      reads this
    {
      Tracks(reader, readerCache)
    }

    /** A file as `OpenFile` builds it. */
    constructor (name: string, meta: FileMeta, rangeHeader: Option<RangeHeader>, cfg: RemoteFileConfig)
      ensures Valid() && CacheTracksReader()
      ensures this.name == name && fileSize == meta.fileSize && encrypted == meta.encrypted
      ensures this.rangeHeader == rangeHeader && streamingChunk == cfg.streamingChunk
      ensures hasEncryption == cfg.hasEncryption && hasHealthReporter == cfg.hasHealthReporter
      ensures !closed && reader == None && nextReaderId == 0 && readerCache == map[] && reports == []
      ensures !rangeInitialized
    {
      this.name := name;
      fileSize := meta.fileSize;
      encrypted := meta.encrypted;
      this.rangeHeader := rangeHeader;
      streamingChunk := cfg.streamingChunk;
      hasEncryption := cfg.hasEncryption;
      hasHealthReporter := cfg.hasHealthReporter;
      originalRangeEnd := 0;
      reader := None;
      nextReaderId := 0;
      closed := false;
      rangeInitialized := false;
      startOffset := 0;
      endOffset := 0;
      currentOffset := 0;
      readerCache := map[];
      reports := [];
    }

    /** `initRangeLocked`: the first call fixes the window and puts the cursor
        at its start; later calls change nothing. */
    method InitRangeLocked()
      requires Valid()
      modifies this`rangeInitialized, this`startOffset, this`endOffset, this`originalRangeEnd, this`currentOffset
      ensures Valid() && rangeInitialized
      ensures CurrentWindow() == InitWindow(fileSize, rangeHeader)
      ensures currentOffset == old(StartCursor())
    {
      if rangeInitialized {
        return;
      }
      InitWindowBounds(fileSize, rangeHeader);
      var w := InitWindow(fileSize, rangeHeader);
      rangeInitialized := true;
      startOffset := w.start;
      endOffset := w.end;
      originalRangeEnd := w.originalEnd;
      currentOffset := startOffset;
    }

    /** `Stat`'s size. */
    method Stat() returns (size: int)
      requires Valid()
      modifies this`rangeInitialized, this`startOffset, this`endOffset, this`originalRangeEnd, this`currentOffset
      ensures Valid() && rangeInitialized
      ensures CurrentWindow() == InitWindow(fileSize, rangeHeader) && currentOffset == old(StartCursor())
      ensures size == StatSize(fileSize, startOffset, endOffset)
    {
      InitRangeLocked();
      size := 0;
      if fileSize > 0 {
        var start := startOffset;
        if start < 0 {
          start := 0;
        }
        var end := endOffset;
        if end < 0 || end >= fileSize {
          end := fileSize - 1;
        }
        if end >= start {
          size := end - start + 1;
        }
      }
    }

    /** `RangeInfo`. */
    method RangeInfo() returns (start: int, end: int, total: int)
      requires Valid()
      modifies this`rangeInitialized, this`startOffset, this`endOffset, this`originalRangeEnd, this`currentOffset
      ensures Valid() && rangeInitialized
      ensures CurrentWindow() == InitWindow(fileSize, rangeHeader) && currentOffset == old(StartCursor())
      ensures (start, end, total) == RangeInfoOf(fileSize, startOffset, endOffset)
    {
      InitRangeLocked();
      total := fileSize;
      start := startOffset;
      end := endOffset;
      if start < 0 {
        start := 0;
      }
      if total <= 0 {
        return start, -1, total;
      }
      if end < 0 || end >= total {
        end := total - 1;
      }
      if end < start {
        end := start - 1;
      }
    }

    /** `Seek` is not supported: position 0 and `ErrInvalidWhence`, always. */
    method Seek(offset: int, whence: int) returns (pos: int, invalidWhence: bool)
      ensures pos == 0 && invalidWhence
    {
      return 0, true;
    }

    /** `reportError`: a failure after some bytes marks the file partial,
        one before any byte marks it corrupted; without a reporter nothing. */
    method ReportError(bytesRead: int)
      modifies this`reports
      ensures !hasHealthReporter ==> reports == old(reports)
      ensures hasHealthReporter ==>
        reports == old(reports) + [if bytesRead > 0 then MarkPartial(name) else MarkCorrupted(name)]
    {
      if !hasHealthReporter {
        return;
      }
      if bytesRead > 0 {
        reports := reports + [MarkPartial(name)];
      } else {
        reports := reports + [MarkCorrupted(name)];
      }
    }

    /** `releaseCurrentReaderLocked`: drop the current reader and the cache
        entry that holds it. */
    method ReleaseCurrentReaderLocked()
      requires Valid()
      modifies this`reader, this`readerCache
      ensures Valid() && reader == None
      ensures readerCache == Without(old(readerCache), old(reader))
      ensures old(CacheTracksReader()) ==> CacheTracksReader()
    {
      if Tracks(reader, readerCache) {
        TracksRelease(reader, readerCache);
      }
      if reader.None? {
        return;
      }
      var current := reader.value;
      reader := None;
      if k :| k in readerCache && readerCache[k] == current {
        WithoutKey(readerCache, nextReaderId, k);
        readerCache := readerCache - {k};
      } else {
        WithoutMissing(readerCache, current);
      }
    }

    /** `Close`: mark the file closed and drop every reader. */
    method Close()
      requires Valid()
      modifies this`closed, this`reader, this`readerCache
      ensures Valid() && closed && reader == None && readerCache == map[]
    {
      closed := true;
      ReleaseCurrentReaderLocked();
      var cache := readerCache;
      while cache.Keys != {}
        decreases cache.Keys
      {
        var k :| k in cache;
        cache := cache - {k};
      }
      readerCache := cache;
    }

    /** The cache lookup and reader creation for [start, end] at the cursor. */
    method OpenRangeReader(env: Env, start: nat, end: nat) returns (err: Option<ReadErr>)
      requires Valid() && reader == None && rangeInitialized && fileSize > 0
      requires start == currentOffset <= end
      modifies this`reader, this`readerCache, this`nextReaderId
      ensures Valid() && (err == None <==> reader.Some?)
      ensures reader.Some? ==> reader.value.start == start && reader.value.end == end
      ensures var key := CacheKey(start, end);
        && (key in old(readerCache) ==>
              err == None && reader == Some(old(readerCache)[key])
              && readerCache == old(readerCache) && nextReaderId == old(nextReaderId))
        && (key !in old(readerCache) && err == None ==>
              && reader == Some(RangeReader(old(nextReaderId), start, end))
              && readerCache == old(readerCache)[key := RangeReader(old(nextReaderId), start, end)]
              && nextReaderId == old(nextReaderId) + 1)
        && (err.Some? ==> key !in old(readerCache) && readerCache == old(readerCache) && nextReaderId == old(nextReaderId))
        && (err == Some(FactoryFailed) <==> key !in old(readerCache) && !env.newReaderOk(start, end))
        && (err == Some(NoCipherConfig) <==>
              key !in old(readerCache) && env.newReaderOk(start, end) && encrypted && !hasEncryption)
        && (err == Some(WrapFailed) <==>
              key !in old(readerCache) && env.newReaderOk(start, end) && encrypted && hasEncryption && !env.wrapOk(start, end))
        && (err.Some? ==> err == Some(FactoryFailed) || err == Some(NoCipherConfig) || err == Some(WrapFailed))
      ensures old(CacheTracksReader()) ==> CacheTracksReader()
    {
      var cacheKey := CacheKey(start, end);
      if cacheKey in readerCache {
        CacheOkHit(readerCache, nextReaderId, start, end);
        reader := Some(readerCache[cacheKey]);
        return None;
      }
      if !env.newReaderOk(start, end) {
        return Some(FactoryFailed);
      }
      if encrypted {
        if !hasEncryption {
          return Some(NoCipherConfig);
        }
        if !env.wrapOk(start, end) {
          return Some(WrapFailed);
        }
      }
      var r := RangeReader(nextReaderId, start, end);
      CacheOkAdd(readerCache, nextReaderId, start, end);
      readerCache := readerCache[cacheKey := r];
      nextReaderId := nextReaderId + 1;
      reader := Some(r);
      return None;
    }

    /** `ensureReader`: keep the current reader, or open one for the range
        `RequestedRange` gives at the cursor, or say why there is none. */
    method EnsureReader(env: Env) returns (err: Option<ReadErr>)
      requires Valid()
      modifies this`rangeInitialized, this`startOffset, this`endOffset, this`originalRangeEnd, this`currentOffset
      modifies this`reader, this`readerCache, this`nextReaderId
      ensures Valid() && rangeInitialized && (err == None <==> reader.Some?)
      ensures err != Some(ReaderFailed) && err != Some(Stalled)
      ensures CurrentWindow() == InitWindow(fileSize, rangeHeader) && currentOffset == old(StartCursor())
      ensures old(reader).Some? ==> err == None && reader == old(reader) && readerCache == old(readerCache)
      ensures old(reader).None? ==>
        (err == Some(EOF) <==> fileSize == 0 || currentOffset >= fileSize || (endOffset >= 0 && currentOffset > endOffset))
      ensures err == Some(EOF) ==> readerCache == old(readerCache)
      ensures old(reader).None? && reader.Some? ==>
        reader.value.start == currentOffset
        && reader.value.end == RequestedRange(currentOffset, endOffset, fileSize, streamingChunk, originalRangeEnd).1
      ensures old(CacheTracksReader()) ==> CacheTracksReader()
    {
      if reader.Some? {
        return None;
      }
      InitRangeLocked();
      if fileSize == 0 {
        return Some(EOF);
      }
      if currentOffset >= fileSize {
        return Some(EOF);
      }
      if endOffset >= 0 && currentOffset > endOffset {
        return Some(EOF);
      }
      RequestedRangeBounds(currentOffset, endOffset, fileSize, streamingChunk, originalRangeEnd);
      var (start, end) := RequestedRange(currentOffset, endOffset, fileSize, streamingChunk, originalRangeEnd);
      err := OpenRangeReader(env, start, end);
    }

    /** One pass of `Read`'s loop for a buffer with `want` bytes still free:
        make sure there is a reader, read at most what the window has left,
        and decide whether `Read` stops here and with what. */
    method ReadOnce(want: nat, env: Env) returns (got: nat, step: Step)
      requires Valid() && rangeInitialized && WellBehaved(env) && want > 0
      modifies this`rangeInitialized, this`startOffset, this`endOffset, this`originalRangeEnd, this`currentOffset
      modifies this`reader, this`readerCache, this`nextReaderId, this`reports
      ensures Valid() && rangeInitialized && CurrentWindow() == old(CurrentWindow())
      ensures got <= want && currentOffset == old(currentOffset) + got
      ensures step == Done(None) ==> got == want
      ensures step == Done(Some(EOF)) && fileSize > 0 ==> currentOffset == endOffset + 1
      ensures step != Done(Some(ReaderFailed)) ==> reports == old(reports)
      ensures step == Done(Some(ReaderFailed)) ==>
        if hasHealthReporter then |reports| == |old(reports)| + 1 && reports[..|old(reports)|] == old(reports)
        else reports == old(reports)
      ensures old(CacheTracksReader()) ==> CacheTracksReader()
    {
      var e := EnsureReader(env);
      if e.Some? {
        return 0, Done(e);
      }
      var maxReadable: nat := want;
      if endOffset >= 0 {
        var rangeRemaining := endOffset - currentOffset + 1;
        if rangeRemaining <= 0 {
          return 0, Done(Some(EOF));
        }
        if rangeRemaining < maxReadable {
          maxReadable := rangeRemaining;
        }
      }
      var o := LimitedRead(env, reader.value, currentOffset, maxReadable);
      got, step := Consume(o, want);
    }

    /** What `Read`'s loop does with one result of the underlying reader:
        advance the cursor, release the reader at its end, report a failure. */
    method Consume(o: ReadOutcome, want: nat) returns (got: nat, step: Step)
      requires Valid() && rangeInitialized && reader.Some? && o.n <= want
      requires currentOffset + o.n <= reader.value.end + 1
      requires endOffset >= 0 ==> currentOffset + o.n <= endOffset + 1
      modifies this`currentOffset, this`reader, this`readerCache, this`reports
      ensures Valid() && got == o.n && currentOffset == old(currentOffset) + got
      ensures step == Done(None) ==> got == want
      ensures step == Done(Some(EOF)) && fileSize > 0 ==> currentOffset == endOffset + 1
      ensures step != Done(Some(ReaderFailed)) ==> reports == old(reports)
      ensures step == Done(Some(ReaderFailed)) ==>
        if hasHealthReporter then |reports| == |old(reports)| + 1 && reports[..|old(reports)|] == old(reports)
        else reports == old(reports)
      ensures old(CacheTracksReader()) ==> CacheTracksReader()
    {
      got := 0;
      if o.n > 0 {
        currentOffset := currentOffset + o.n;
        got := o.n;
      }
      if o.DataEof? {
        ReleaseCurrentReaderLocked();
        if currentOffset >= fileSize || (endOffset >= 0 && currentOffset > endOffset) {
          return got, Done(Some(EOF));
        }
        if got == want {
          return got, Done(None);
        }
        return got, Continue;
      } else if o.DataErr? {
        ReportError(o.n);
        return got, Done(Some(ReaderFailed));
      }
      if endOffset >= 0 && currentOffset > endOffset {
        ReleaseCurrentReaderLocked();
        return got, Done(Some(EOF));
      }
      if currentOffset >= fileSize {
        // The window ends inside the file, so the test above has fired first.
        assert false;
      }
      return got, Continue;
    }

    /** `Read` of a buffer of `len` bytes. `fuel` bounds the reader calls that
        deliver nothing, after which the model gives up with `Stalled`. */
    method Read(len: nat, env: Env, fuel: nat) returns (n: nat, err: Option<ReadErr>)
      requires Valid() && WellBehaved(env)
      modifies this`rangeInitialized, this`startOffset, this`endOffset, this`originalRangeEnd, this`currentOffset
      modifies this`reader, this`readerCache, this`nextReaderId, this`reports
      ensures Valid() && n <= len
      ensures old(closed) ==> n == 0 && err == Some(EOF) && unchanged(this)
      ensures !closed ==> rangeInitialized && CurrentWindow() == InitWindow(fileSize, rangeHeader)
      ensures !closed ==> currentOffset == old(StartCursor()) + n
      ensures err == None ==> n == len
      ensures !closed && err == Some(EOF) && fileSize > 0 ==> currentOffset == endOffset + 1
      ensures err != Some(ReaderFailed) ==> reports == old(reports)
      ensures err == Some(ReaderFailed) ==>
        if hasHealthReporter then |reports| == |old(reports)| + 1 && reports[..|old(reports)|] == old(reports)
        else reports == old(reports)
      ensures old(CacheTracksReader()) ==> CacheTracksReader()
    {
      if closed {
        return 0, Some(EOF);
      }
      InitRangeLocked();
      if fileSize == 0 || (endOffset >= 0 && currentOffset > endOffset) {
        return 0, Some(EOF);
      }
      ghost var cursor0 := currentOffset;
      var total: nat := 0;
      var stalls := fuel;
      while total < len
        invariant Valid() && rangeInitialized
        invariant CurrentWindow() == InitWindow(fileSize, rangeHeader)
        invariant total <= len && currentOffset == cursor0 + total
        invariant reports == old(reports)
        invariant old(CacheTracksReader()) ==> CacheTracksReader()
        decreases len - total, stalls
      {
        var got, step := ReadOnce(len - total, env);
        total := total + got;
        if step.Done? {
          return total, step.err;
        }
        if got == 0 {
          if stalls == 0 {
            return total, Some(Stalled);
          }
          stalls := stalls - 1;
        }
      }
      return total, None;
    }
  }
}
