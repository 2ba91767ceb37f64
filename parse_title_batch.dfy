/**
 * The batch title parser script (parse_title_batch.py): one record per
 * command-line title, in order, with the parse or the error it raised. The
 * title parser itself is an input; printing becomes the outcome's fields.
 */
module ParseTitleBatchScript {
  import opened Wrappers
  import opened Parsett

  /** One element of the printed JSON array; `None` prints as null. */
  datatype Record = Record(title: string, parsed: Option<ParsedTitle>, error: Option<string>)

  /** What `main` leaves behind: the array it printed on standard output
      (`None`: nothing printed), what it printed on standard error, and the
      exit status. */
  datatype Outcome = Outcome(stdout: Option<seq<Record>>, stderr: string, exitCode: int)

  /** The usage error as `print` writes it: `json.dumps` output and a newline. */
  const NoTitlesMessage := "{\"error\": \"No titles provided\"}\n"

  /** The record for one title: `parse` gives the parse, or the text of the
      exception it raised. */
  function RecordFor(title: string, parse: string -> Result<ParsedTitle, string>): Record
  {
    match parse(title)
    case Ok(p) => Record(title, Some(p), None)
    case Err(e) => Record(title, None, Some(e))
  }

  /** `main`, for the argument vector `argv` (the script's name first). */
  method RunScript(argv: seq<string>, parse: string -> Result<ParsedTitle, string>) returns (out: Outcome)
    ensures |argv| < 2 ==> out == Outcome(None, NoTitlesMessage, 1)
    ensures |argv| >= 2 ==> out.exitCode == 0 && out.stderr == "" && out.stdout.Some?
    ensures |argv| >= 2 ==> |out.stdout.value| == |argv| - 1
    ensures |argv| >= 2 ==> forall i :: 0 <= i < |argv| - 1 ==> out.stdout.value[i] == RecordFor(argv[i + 1], parse)
  {
    if |argv| < 2 {
      return Outcome(None, NoTitlesMessage, 1);
    }
    var titles := argv[1..];
    var results: seq<Record> := [];
    var i := 0;
    while i < |titles|
      invariant 0 <= i <= |titles|
      invariant |results| == i
      invariant forall k :: 0 <= k < i ==> results[k] == RecordFor(titles[k], parse)
    {
      var title := titles[i];
      match parse(title) {
        case Ok(parsed) =>
          results := results + [Record(title, Some(parsed), None)];
        case Err(e) =>
          results := results + [Record(title, None, Some(e))];
      }
      i := i + 1;
    }
    return Outcome(Some(results), "", 0);
  }

  /** The records for a run of titles. */
  function Records(titles: seq<string>, parse: string -> Result<ParsedTitle, string>): (rs: seq<Record>)
    ensures |rs| == |titles|
    ensures forall i :: 0 <= i < |titles| ==> rs[i] == RecordFor(titles[i], parse)
  {
    seq(|titles|, i requires 0 <= i < |titles| => RecordFor(titles[i], parse))
  }

  /** Every record names its own title, carries exactly one of a parse and
      an error, and a title whose parse fails does not disturb the records
      of the titles after it. */
  lemma RecordsMeaning(titles: seq<string>, parse: string -> Result<ParsedTitle, string>)
    ensures forall i :: 0 <= i < |titles| ==> Records(titles, parse)[i].title == titles[i]
    ensures forall i :: 0 <= i < |titles| ==> (Records(titles, parse)[i].parsed.Some? <==> Records(titles, parse)[i].error.None?)
    ensures forall i :: 0 <= i < |titles| && parse(titles[i]).Err? ==>
      Records(titles, parse)[i].error == Some(parse(titles[i]).error)
    ensures forall i :: 0 <= i < |titles| && parse(titles[i]).Ok? ==>
      Records(titles, parse)[i].parsed == Some(parse(titles[i]).value)
  {
  }

  /** How Go decodes a record: a null error is the empty string. */
  function Decode(r: Record): BatchResult
  {
    BatchResult(r.title, r.parsed, r.error.GetOr(""))
  }

  function DecodeAll(rs: seq<Record>): (bs: seq<BatchResult>)
    ensures |bs| == |rs|
    ensures forall i :: 0 <= i < |rs| ==> bs[i] == Decode(rs[i])
  {
    seq(|rs|, i requires 0 <= i < |rs| => Decode(rs[i]))
  }

  /** When the Go side's batch run is this script run on the titles, every
      title is a key of the map, and a title with a successful parse maps
      to that parse. */
  lemma EveryTitleIsMapped(titles: seq<string>, parse: string -> Result<ParsedTitle, string>,
                           run: seq<string> -> Result<seq<BatchResult>, ()>)
    requires titles != []
    requires run(titles) == Ok(DecodeAll(Records(titles, parse)))
    ensures ParseTitleBatch(titles, run).Ok?
    ensures forall t :: t in titles ==> t in ParseTitleBatch(titles, run).value
    ensures forall t :: t in titles && parse(t).Ok? ==> ParseTitleBatch(titles, run).value[t] == Some(parse(t).value)
  {
    var records := DecodeAll(Records(titles, parse));
    ResultMapKeys(records);
    forall t | t in titles
      ensures t in ParseTitleBatch(titles, run).value
      ensures parse(t).Ok? ==> ParseTitleBatch(titles, run).value[t] == Some(parse(t).value)
    {
      var i :| 0 <= i < |titles| && titles[i] == t;
      assert records[i].title == t;
      if parse(t).Ok? {
        // The last record with title `t` is also a record for `t`, and every
        // record for `t` carries the same parse.
        var j := LastWithTitle(records, i);
        ResultMapLast(records, j);
        assert records[j] == Decode(RecordFor(titles[j], parse));
      }
    }
  }

  /** The last position at or after `i` with the same title as record `i`. */
  lemma LastWithTitle(records: seq<BatchResult>, i: nat) returns (j: nat)
    requires i < |records|
    ensures i <= j < |records| && records[j].title == records[i].title
    ensures forall k :: j < k < |records| ==> records[k].title != records[i].title
    decreases |records| - i
  {
    var k := i + 1;
    while k < |records| && records[k].title != records[i].title
      invariant i < k <= |records|
      invariant forall m :: i < m < k ==> records[m].title != records[i].title
    {
      k := k + 1;
    }
    if k == |records| {
      j := i;
    } else {
      j := LastWithTitle(records, k);
    }
  }
}
