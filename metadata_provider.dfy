/**
 * The provider that streams files of the metadata-backed file system: container
 * detection, content types, the request path cleanup, the response status and
 * headers, and the seek-driven range override
 * (backend/services/streaming.old/metadata_provider.go).
 */
module MetadataProvider {
  import opened Wrappers
  import opened Strs
  import RemoteFile

  const OctetStream: string := "application/octet-stream"

  /** `containerContentTypes`, as a table of (extension, content type). */
  const ContainerTypes: seq<(string, string)> := [
    (".mp4", "video/mp4"),
    (".m4v", "video/mp4"),
    (".webm", "video/webm"),
    (".mkv", "video/x-matroska"),
    (".ts", "video/mp2t"),
    (".m2ts", "video/mp2t"),
    (".mts", "video/mp2t"),
    (".avi", "video/x-msvideo"),
    (".mpg", "video/mpeg"),
    (".mpeg", "video/mpeg"),
    (".m3u8", "application/vnd.apple.mpegurl")]

  /** The extension is a key of `containerContentTypes`. */
  predicate IsContainer(ext: string)
  {
    Lookup(ContainerTypes, ext).Some?
  }

  /** Every container key is a dot and at least one more character. */
  lemma ContainerKeysAreExtensions()
    ensures forall k :: IsContainer(k) ==> |k| >= 2 && k[0] == '.'
  {
    forall k | IsContainer(k)
      ensures |k| >= 2 && k[0] == '.'
    {
      var i :| 0 <= i < |ContainerTypes| && ContainerTypes[i] == (k, Lookup(ContainerTypes, k).value);
    }
  }

  /** The name ends with the container suffix, or carries it followed by
      '_', '.' or '-'. */
  predicate Mentions(lower: string, candidate: string)
  {
    HasSuffix(lower, candidate) || Contains(lower, candidate + "_")
    || Contains(lower, candidate + ".") || Contains(lower, candidate + "-")
  }

  /** The first known container in `order` that the name mentions, or "". */
  function FirstMention(lower: string, order: seq<string>): string
  {
    if order == [] then []
    else if IsContainer(order[0]) && Mentions(lower, order[0]) then order[0]
    else FirstMention(lower, order[1..])
  }

  /** The mention found is a container of `order` that the name mentions;
      none is found only when no container of `order` is mentioned. */
  lemma {:induction false} FirstMentionMeaning(lower: string, order: seq<string>)
    ensures var r := FirstMention(lower, order);
      r == [] || (IsContainer(r) && r in order && Mentions(lower, r))
    ensures FirstMention(lower, order) == [] ==>
      forall i :: 0 <= i < |order| && IsContainer(order[i]) ==> !Mentions(lower, order[i])
  {
    if order != [] && !(IsContainer(order[0]) && Mentions(lower, order[0])) {
      FirstMentionMeaning(lower, order[1..]);
      assert forall i :: 1 <= i < |order| ==> order[i] == order[1..][i - 1];
    }
  }

  /** `detectContainerExt`. The map is visited in an order Go leaves
      unspecified; `order` is that order. */
  function DetectContainerExt(name: string, order: seq<string>): (r: string)
    ensures IsBlank(name) ==> r == []
    ensures r == [] || IsContainer(r)
    ensures var lower := Lower(Trim(name)); var ext := Lower(Trim(Ext(lower)));
      && (!IsBlank(name) && IsContainer(ext) ==> r == ext)
      && (r != [] && r != ext ==> Mentions(lower, r))
  {
    var lower := Lower(Trim(name));
    if lower == [] then []
    else
      var ext := Lower(Trim(Ext(lower)));
      if IsContainer(ext) then ext
      else
        FirstMentionMeaning(lower, order);
        FirstMention(lower, order)
  }

  /** When every container is visited, nothing is detected for a non-blank
      name only when it neither ends in a container extension nor mentions one. */
  lemma DetectNothingMeansNoContainer(name: string, order: seq<string>)
    requires forall k :: IsContainer(k) ==> k in order
    requires !IsBlank(name) && DetectContainerExt(name, order) == []
    ensures var lower := Lower(Trim(name));
      && !IsContainer(Lower(Trim(Ext(lower))))
      && forall k :: IsContainer(k) ==> !Mentions(lower, k)
  {
    var lower := Lower(Trim(name));
    assert lower != [];
    ContainerKeysAreExtensions();
    assert FirstMention(lower, order) == [];
    NoMentionInOrder(lower, order);
  }

  lemma NoMentionInOrder(lower: string, order: seq<string>)
    requires forall k :: IsContainer(k) ==> k in order
    requires FirstMention(lower, order) == []
    ensures forall k :: IsContainer(k) ==> !Mentions(lower, k)
  {
    FirstMentionMeaning(lower, order);
    forall k | IsContainer(k)
      ensures !Mentions(lower, k)
    {
      var i :| 0 <= i < |order| && order[i] == k;
    }
  }

  /** `guessContentType`. */
  function GuessContentType(path: string, order: seq<string>): string
  {
    Lookup(ContainerTypes, DetectContainerExt(path, order)).GetOr(OctetStream)
  }

  /** Every guessed type is a container type or the octet-stream fallback,
      and a detected container gets its own type. */
  lemma GuessIsKnownType(path: string, order: seq<string>)
    ensures GuessContentType(path, order) == OctetStream
         || exists i :: 0 <= i < |ContainerTypes| && ContainerTypes[i].1 == GuessContentType(path, order)
    ensures DetectContainerExt(path, order) == [] ==> GuessContentType(path, order) == OctetStream
  {
    var ext := DetectContainerExt(path, order);
    var found := Lookup(ContainerTypes, ext);
    if found.Some? {
      var i :| 0 <= i < |ContainerTypes| && ContainerTypes[i] == (ext, found.value);
    }
    if ext == [] {
      ContainerKeysAreExtensions();
      assert !IsContainer(ext);
    }
  }

  /** The response headers `Stream` sets, by canonical name. */
  datatype HeaderName = AcceptRanges | ContentType | ContentLength | ContentRange

  /** `defaultHeaders`. */
  function DefaultHeaders(path: string, order: seq<string>): (h: map<HeaderName, string>)
    ensures AcceptRanges in h && ContentType in h && ContentLength !in h && ContentRange !in h
    ensures h[AcceptRanges] == "bytes" && h[ContentType] == GuessContentType(path, order)
  {
    map[AcceptRanges := "bytes", ContentType := GuessContentType(path, order)]
  }

  /** The request path with one leading "/" and then one leading "streams/" removed. */
  function CleanRequestPath(p: string): (r: string)
    ensures p == r || p == "/" + r || p == "streams/" + r || p == "/streams/" + r
    ensures !HasPrefix(p, "/") && !HasPrefix(p, "streams/") ==> r == p
  {
    TrimPrefix(TrimPrefix(p, "/"), "streams/")
  }

  lemma CleanRequestPathOfStream(x: string)
    ensures CleanRequestPath("/streams/" + x) == x
    ensures CleanRequestPath("streams/" + x) == x
    ensures !HasPrefix(x, "/") && !HasPrefix(x, "streams/") ==> CleanRequestPath("/" + x) == x
  {
    assert "/streams/" + x == "/" + ("streams/" + x);
    assert ("streams/" + x)[0] == 's';
    assert HasPrefix("streams/" + x, "streams/");
  }

  // ---------------------------------------------------------------------------
  // maybeOverrideRange.
  // ---------------------------------------------------------------------------

  const SeekOverrideThresholdBytes: int := 1024 * 1024

  /** What `maybeOverrideRange` learns before it decides: whether both the
      seek position and the duration are positive finite numbers, the
      described file size (None when describing fails), the approximate byte
      offset computed from the seek, and the parsed current range (None when
      it does not parse). */
  datatype SeekHint = SeekHint(
    finite: bool,
    describedSize: Option<int>,
    approxStart: int,
    parsed: Option<RemoteFile.RangeHeader>)

  function OriginalStart(h: SeekHint): int
  {
    if h.parsed.Some? && h.parsed.value.start >= 0 then h.parsed.value.start else -1
  }

  function OriginalEnd(h: SeekHint): int
  {
    if h.parsed.Some? && h.parsed.value.end >= 0 then h.parsed.value.end else -1
  }

  /** No override is considered at all. */
  predicate OverrideDisabled(configured: bool, h: SeekHint)
  {
    !configured || !h.finite || h.describedSize.None? || h.describedSize.value <= 0 || h.approxStart < 0
  }

  /** `maybeOverrideRange`: the range to open with and whether it replaces the
      current one. */
  function MaybeOverrideRange(configured: bool, currentRange: string, h: SeekHint): (r: (string, bool))
    ensures OverrideDisabled(configured, h) ==> r == (currentRange, false)
    ensures (!OverrideDisabled(configured, h) && OriginalStart(h) >= 0
             && h.approxStart <= OriginalStart(h) + SeekOverrideThresholdBytes) ==> r == (currentRange, false)
    ensures r.1 <==> r.0 != currentRange
  {
    if OverrideDisabled(configured, h) then (currentRange, false)
    else
      var originalStart := OriginalStart(h);
      var originalEnd := OriginalEnd(h);
      if originalStart >= 0 && h.approxStart <= originalStart + SeekOverrideThresholdBytes then (currentRange, false)
      else
        var newRange := if originalEnd >= h.approxStart && originalEnd >= 0
                        then "bytes=" + IntToString(h.approxStart) + "-" + IntToString(originalEnd)
                        else "bytes=" + IntToString(h.approxStart) + "-";
        (newRange, newRange != currentRange)
  }

  /** An override only ever moves the start more than 1 MiB past the
      requested start, keeps the requested end when that end is not before
      the new start, and is open-ended otherwise. */
  lemma OverrideShape(configured: bool, currentRange: string, h: SeekHint)
    requires MaybeOverrideRange(configured, currentRange, h).1
    ensures !OverrideDisabled(configured, h)
    ensures OriginalStart(h) >= 0 ==> h.approxStart > OriginalStart(h) + SeekOverrideThresholdBytes
    ensures var r := MaybeOverrideRange(configured, currentRange, h).0;
      if OriginalEnd(h) >= h.approxStart && OriginalEnd(h) >= 0
      then r == "bytes=" + IntToString(h.approxStart) + "-" + IntToString(OriginalEnd(h))
      else r == "bytes=" + IntToString(h.approxStart) + "-"
  {
  }

  // ---------------------------------------------------------------------------
  // Stream.
  // ---------------------------------------------------------------------------

  /** What opening the cleaned path with the chosen range gives: an error,
      a miss, or a file with its `Stat` size and, when the file reports one,
      its `RangeInfo` (start, end, total). */
  datatype OpenOutcome = OpenFailed(msg: string) | OpenMissed | Opened(size: int, rangeInfo: Option<(int, int, int)>)

  datatype StreamError = NotConfigured | OpenError(msg: string) | NotFound

  /** The response: status, headers, content length, and whether it
      carries the file as body (HEAD requests close it instead). */
  datatype Response = Response(status: int, headers: map<HeaderName, string>, contentLength: int, hasBody: bool)

  const StatusOK: int := 200
  const StatusPartialContent: int := 206

  /** The range the file reports makes `Stream` answer 206 with a
      Content-Range. */
  predicate PartialByRangeInfo(trimmedRange: string, info: Option<(int, int, int)>)
  {
    info.Some? && info.value.2 > 0 && info.value.1 >= info.value.0
    && (trimmedRange != [] || info.value.0 > 0 || (info.value.1 >= 0 && info.value.1 < info.value.2 - 1))
  }

  /** The Content-Range value "bytes start-end/total" (section 4.2 of RFC 7233). */
  function ContentRangeValue(start: int, end: int, total: int): string
  {
    "bytes " + IntToString(start) + "-" + IntToString(end) + "/" + IntToString(total)
  }

  /** The response `Stream` gives for an opened file: the file's size as
      content length, the default headers, a Content-Length for a known size,
      a Content-Range and 206 when the file's range is partial, 206 also for
      any requested range, 200 otherwise, and a body unless the request is HEAD. */
  predicate ResponseFits(resp: Response, contentType: string, trimmedRange: string, reqMethod: string,
                         size: int, info: Option<(int, int, int)>)
  {
    && resp.contentLength == size
    && resp.hasBody == (reqMethod != "HEAD")
    && AcceptRanges in resp.headers && resp.headers[AcceptRanges] == "bytes"
    && ContentType in resp.headers && resp.headers[ContentType] == contentType
    && (ContentLength in resp.headers <==> size >= 0)
    && (size >= 0 ==> resp.headers[ContentLength] == IntToString(size))
    && (ContentRange in resp.headers <==> PartialByRangeInfo(trimmedRange, info))
    && (PartialByRangeInfo(trimmedRange, info) ==>
          resp.headers[ContentRange] == ContentRangeValue(info.value.0, info.value.1, info.value.2))
    && (resp.status == StatusOK || resp.status == StatusPartialContent)
    && (resp.status == StatusPartialContent <==> trimmedRange != [] || PartialByRangeInfo(trimmedRange, info))
  }

  /** The header and status part of `Stream` for an opened file, starting
      from the default headers. */
  method BuildResponse(defaults: map<HeaderName, string>, trimmedRange: string, reqMethod: string,
                       size: int, info: Option<(int, int, int)>)
    returns (resp: Response)
    requires AcceptRanges in defaults && ContentType in defaults
    requires ContentLength !in defaults && ContentRange !in defaults && defaults[AcceptRanges] == "bytes"
    ensures ResponseFits(resp, defaults[ContentType], trimmedRange, reqMethod, size, info)
  {
    var headers := defaults;
    if size >= 0 {
      headers := headers[ContentLength := IntToString(size)];
    }
    var status := StatusOK;
    if info.Some? {
      var (start, end, total) := info.value;
      if total > 0 && end >= start {
        if trimmedRange != [] || start > 0 || (end >= 0 && end < total - 1) {
          headers := headers[ContentRange := ContentRangeValue(start, end, total)];
          status := StatusPartialContent;
        }
      }
    }
    if status == StatusOK && trimmedRange != [] {
      status := StatusPartialContent;
    }
    if reqMethod == "HEAD" {
      return Response(status, headers, size, false);
    }
    return Response(status, headers, size, true);
  }

  /** `Stream`. `order` is the container-map visiting order, `hint` what the
      override decision learns, and `open` the result of opening the cleaned
      path with a given range. */
  method Stream(configured: bool, reqPath: string, reqRange: string, reqMethod: string,
                hint: SeekHint, order: seq<string>, open: (string, string) -> OpenOutcome)
    returns (r: Result<Response, StreamError>)
    ensures !configured ==> r == Err(NotConfigured)
    ensures configured ==>
      var ov := MaybeOverrideRange(configured, Trim(reqRange), hint);
      var rangeHeader := if ov.1 then ov.0 else Trim(reqRange);
      match open(CleanRequestPath(reqPath), rangeHeader)
      case OpenFailed(msg) => r == Err(OpenError(msg))
      case OpenMissed => r == Err(NotFound)
      case Opened(size, info) => r.Ok? && ResponseFits(r.value, GuessContentType(reqPath, order), Trim(reqRange), reqMethod, size, info)
  {
    if !configured {
      return Err(NotConfigured);
    }
    var cleanPath := CleanRequestPath(reqPath);
    var originalRange := Trim(reqRange);
    var rangeHeader := originalRange;
    var ov := MaybeOverrideRange(configured, originalRange, hint);
    if ov.1 {
      rangeHeader := ov.0;
    }
    var outcome := open(cleanPath, rangeHeader);
    if outcome.OpenFailed? {
      return Err(OpenError(outcome.msg));
    }
    if outcome.OpenMissed? {
      return Err(NotFound);
    }
    var headers := DefaultHeaders(reqPath, order);
    var resp := BuildResponse(headers, originalRange, reqMethod, outcome.size, outcome.rangeInfo);
    return Ok(resp);
  }
}
