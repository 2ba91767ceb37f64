/**
 * The Go side of batch title parsing (backend/utils/parsett/parsett.go):
 * one run of the batch parser over all titles, and the map from title to
 * parse built from its records. Running the subprocess and decoding its JSON
 * are one abstract step.
 */
module Parsett {
  import opened Wrappers

  /** `ParsedTitle`, the fields the filter reads. */
  datatype ParsedTitle = ParsedTitle(
    title: string,
    year: int,
    resolution: string,
    seasons: seq<int>,
    episodes: seq<int>,
    hdr: seq<string>)

  /** `BatchResult`: one decoded record of the batch parser's output. */
  datatype BatchResult = BatchResult(title: string, parsed: Option<ParsedTitle>, error: string)

  /** What a record contributes: nothing (a nil parse) when it carries an error. */
  function Outcome(r: BatchResult): (p: Option<ParsedTitle>)
    ensures r.error != "" ==> p.None?
    ensures r.error == "" ==> p == r.parsed
  {
    if r.error != "" then None else r.parsed
  }

  /** The map after storing every record in order. */
  function ResultMap(records: seq<BatchResult>): map<string, Option<ParsedTitle>>
  {
    if records == [] then map[]
    else
      var last := records[|records| - 1];
      ResultMap(records[..|records| - 1])[last.title := Outcome(last)]
  }

  /** The titles of a run of records. */
  function Titles(records: seq<BatchResult>): set<string>
  {
    set i | 0 <= i < |records| :: records[i].title
  }

  /** The loop of `ParseTitleBatch` that builds `resultMap`. */
  method BuildResultMap(records: seq<BatchResult>) returns (resultMap: map<string, Option<ParsedTitle>>)
    ensures resultMap == ResultMap(records)
  {
    resultMap := map[];
    var i := 0;
    while i < |records|
      invariant 0 <= i <= |records|
      invariant resultMap == ResultMap(records[..i])
    {
      var r := records[i];
      assert records[..i + 1][..i] == records[..i];
      if r.error != "" {
        resultMap := resultMap[r.title := None];
      } else {
        resultMap := resultMap[r.title := r.parsed];
      }
      i := i + 1;
    }
    assert records[..i] == records;
  }

  /** The keys of the map are exactly the record titles. */
  lemma {:induction false} ResultMapKeys(records: seq<BatchResult>)
    ensures ResultMap(records).Keys == Titles(records)
  {
    if records != [] {
      var init := records[..|records| - 1];
      var last := records[|records| - 1];
      ResultMapKeys(init);
      forall t | t in Titles(records)
        ensures t in Titles(init) + {last.title}
      {
        var i :| 0 <= i < |records| && records[i].title == t;
        if i < |init| {
          assert init[i].title == t;
        }
      }
      forall t | t in Titles(init)
        ensures t in Titles(records)
      {
        var i :| 0 <= i < |init| && init[i].title == t;
        assert records[i].title == t;
      }
    }
  }

  /** A title maps to the outcome of the last record that carries it: a
      later duplicate overwrites an earlier one. */
  lemma {:induction false} ResultMapLast(records: seq<BatchResult>, i: nat)
    requires i < |records|
    requires forall j :: i < j < |records| ==> records[j].title != records[i].title
    ensures records[i].title in ResultMap(records)
    ensures ResultMap(records)[records[i].title] == Outcome(records[i])
  {
    var init := records[..|records| - 1];
    if i < |init| {
      assert init[i] == records[i];
      forall j | i < j < |init|
        ensures init[j].title != init[i].title
      {
        assert init[j] == records[j];
      }
      ResultMapLast(init, i);
    }
  }

  /** `ParseTitleBatch`: `run` is the batch parser run on the titles with
      its output decoded (`Err`: the run or the decoding failed). */
  function ParseTitleBatch(titles: seq<string>, run: seq<string> -> Result<seq<BatchResult>, ()>): Result<map<string, Option<ParsedTitle>>, ()>
  {
    if titles == [] then Ok(map[])
    else match run(titles)
    case Err(e) => Err(e)
    case Ok(records) => Ok(ResultMap(records))
  }

  /** No titles gives an empty map whatever the parser would do; otherwise a
      failed run is an error, and a successful one maps exactly the record
      titles, a failed record's title to nothing. */
  lemma ParseTitleBatchMeaning(titles: seq<string>, run: seq<string> -> Result<seq<BatchResult>, ()>)
    ensures titles == [] ==> ParseTitleBatch(titles, run) == Ok(map[])
    ensures titles != [] ==> (ParseTitleBatch(titles, run).Err? <==> run(titles).Err?)
    ensures titles != [] && run(titles).Ok? ==> ParseTitleBatch(titles, run).value.Keys == Titles(run(titles).value)
    ensures titles != [] && run(titles).Ok? ==>
      forall i :: (0 <= i < |run(titles).value| && run(titles).value[i].error != ""
                   && (forall j :: i < j < |run(titles).value| ==> run(titles).value[j].title != run(titles).value[i].title)) ==>
        ParseTitleBatch(titles, run).value[run(titles).value[i].title].None?
  {
    if titles != [] && run(titles).Ok? {
      var records := run(titles).value;
      ResultMapKeys(records);
      forall i | 0 <= i < |records| && records[i].error != ""
                 && (forall j :: i < j < |records| ==> records[j].title != records[i].title)
        ensures ResultMap(records)[records[i].title].None?
      {
        ResultMapLast(records, i);
      }
    }
  }
}
