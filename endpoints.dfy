/**
 * The top-level run (`web_find_api_end_points`): the prefixed base URL, the
 * output path, the CSV rows and the status histogram of one batch. The
 * word list is given already read; the file system and the session are
 * outside the model.
 */
module EndPoints {
  import opened Wrappers
  import opened Executor
  import opened Dispatcher
  import opened Aggregator
  import OutputPath

  /** The base URL the words are appended to: the prefix, when given, is appended first. */
  function TargetBase(url: string, prefix: Option<string>): (r: string)
    ensures prefix.None? ==> r == url
    ensures prefix.Some? ==> r == url + prefix.value
  {
    match prefix
    case Some(p) => url + p
    case None => url
  }

  /** One CSV cell, before the CSV writer turns it into text. */
  datatype Cell =
    | Text(text: string)
    | StatusCell(status: Option<int>)
    | JsonCell(json: Option<Json>)
    | ContentCell(content: Option<seq<Byte>>)

  /** The header row written before any probe. */
  const Header: seq<Cell> := [Text("base_url"), Text("word_tested"), Text("url"),
                              Text("status_code"), Text("response_json"), Text("response_content")]

  /** A record read back from its six cells; `None` for anything else. */
  function FromRow(row: seq<Cell>): Option<Record> {
    if |row| == 6 && row[0].Text? && row[1].Text? && row[2].Text?
       && row[3].StatusCell? && row[4].JsonCell? && row[5].ContentCell?
    then Some(Record(row[0].text, row[1].text, row[2].text, row[3].status, row[4].json, row[5].content))
    else None
  }

  /** The row `csv.writer.writerows` emits for a record: one cell per header column, nothing lost. */
  function Row(r: Record): (row: seq<Cell>)
    ensures |row| == |Header|
    ensures FromRow(row) == Some(r)
  {
    [Text(r.baseUrl), Text(r.word), Text(r.url), StatusCell(r.status), JsonCell(r.json), ContentCell(r.content)]
  }

  /** The header followed by one row per record, in order. */
  function Rows(results: seq<Record>): (rows: seq<seq<Cell>>)
    ensures |rows| == |results| + 1 && rows[0] == Header
    ensures forall k :: 1 <= k < |rows| ==> FromRow(rows[k]) == Some(results[k - 1])
  {
    [Header] + seq(|results|, k requires 0 <= k < |results| => Row(results[k]))
  }

  /** The histogram of a batch does not depend on the order in which its probes complete. */
  lemma BatchHistogram(base: string, words: seq<string>, outcomes: seq<Transport>, order: seq<nat>)
    requires |outcomes| == |words|
    requires IsPermutation(order, |words|)
    ensures Histogram(Permute(PerWord(base, words, outcomes), order)) == Histogram(PerWord(base, words, outcomes))
  {
    var expected := PerWord(base, words, outcomes);
    var statuses := Statuses(Permute(expected, order));
    assert statuses == Permute(Statuses(expected), order);
    PermuteMultiset(Statuses(expected), order);
    TallyOrderIndependent(statuses, Statuses(expected));
  }

  /**
   * The histogram has the failure key `None` exactly when some transport call
   * failed, and the key of a status exactly when some response carried it.
   */
  lemma HistogramKeys(base: string, words: seq<string>, outcomes: seq<Transport>)
    requires |outcomes| == |words|
    ensures None in Histogram(PerWord(base, words, outcomes)) <==>
              exists i :: 0 <= i < |outcomes| && outcomes[i].Failed?
    ensures forall c :: Some(c) in Histogram(PerWord(base, words, outcomes)) <==>
              exists i :: 0 <= i < |outcomes| && outcomes[i].Response? && outcomes[i].status == c
  {
  }

  /** The bytes of the body `{"ok":true}`, which `response.read` returns after `response.json` has read them. */
  const OkBody: seq<Byte> := [123, 34, 111, 107, 34, 58, 116, 114, 117, 101, 125]

  /** Two words, the second of which times out: two records, and one count each for 200 and for the failure. */
  lemma TimeoutScenario()
    ensures var rs := PerWord("https://example.com/api/", ["foo", "bar"],
                              [Response(200, Decoded(JValue("{\"ok\":true}")), Read(OkBody)), Failed]);
            && |rs| == 2
            && rs[0] == Record("https://example.com/api/", "foo", "https://example.com/api/foo",
                               Some(200), Some(JValue("{\"ok\":true}")), Some(OkBody))
            && rs[1] == Record("https://example.com/api/", "bar", "https://example.com/api/bar", None, None, None)
            && Histogram(rs) == map[Some(200) := 1, None := 1]
  {
    var rs := PerWord("https://example.com/api/", ["foo", "bar"],
                      [Response(200, Decoded(JValue("{\"ok\":true}")), Read(OkBody)), Failed]);
    var ss: seq<Key> := [Some(200), None];
    assert Statuses(rs) == ss;
    assert ss[..1] == [Some(200)] && [Some(200)][..0] == [];
    assert Tally(ss) == Tally([Some(200)])[None := 1];
  }

  datatype RunOutcome =
      /** The batch ran: the CSV rows written and the histogram returned, with its keys in `Counter`'s order. */
    | Finished(outputPath: string, rows: seq<seq<Cell>>, histogram: map<Key, nat>, keyOrder: seq<Key>)
      /** `words[0]` raised `IndexError` after the header had been written. */
    | IndexError(outputPath: string, rows: seq<seq<Cell>>)

  /**
   * One run. The output path is `outputFile` or the default built from the
   * prefixed URL; an empty word list stops the run with only the header
   * written; otherwise there is one row per word after the header, each the
   * record of the word completing at that position and probed at the
   * prefixed base URL followed by the word, and the histogram counts the
   * per-word statuses whatever the completion order, its counts summing to
   * the number of words.
   */
  method Run(url: string, wordListFile: string, prefix: Option<string>, outputFile: Option<string>,
             words: seq<string>, outcomes: seq<Transport>, order: seq<nat>)
    returns (o: RunOutcome)
    requires |outcomes| == |words|
    requires IsPermutation(order, |words|)
    ensures o.outputPath == OutputPath.Path(TargetBase(url, prefix), wordListFile, outputFile)
    ensures o.IndexError? <==> words == []
    ensures o.IndexError? ==> o.rows == [Header]
    ensures o.Finished? ==> o.rows == Rows(Permute(PerWord(TargetBase(url, prefix), words, outcomes), order))
    ensures o.Finished? ==> o.keyOrder == Keys(Statuses(Permute(PerWord(TargetBase(url, prefix), words, outcomes), order)))
    ensures o.Finished? ==>
              && |o.rows| == |words| + 1
              && o.rows[0] == Header
              && (forall k :: 1 <= k < |o.rows| ==>
                    && FromRow(o.rows[k]).Some?
                    && FromRow(o.rows[k]).value.word == words[order[k - 1]]
                    && FromRow(o.rows[k]).value.url == TargetBase(url, prefix) + words[order[k - 1]])
              && o.histogram == Histogram(PerWord(TargetBase(url, prefix), words, outcomes))
              && (forall key :: key in o.histogram <==> key in o.keyOrder)
              && (forall i, j :: 0 <= i < j < |o.keyOrder| ==> o.keyOrder[i] != o.keyOrder[j])
              && Total(o.histogram, o.keyOrder) == |words|
  {
    var base := TargetBase(url, prefix);
    var path := OutputPath.Path(base, wordListFile, outputFile);
    if words == [] {
      return IndexError(path, [Header]);
    }
    var results := Dispatch(base, words, outcomes, order);
    var statuses := Statuses(results);
    HistogramCounts(results);
    BatchHistogram(base, words, outcomes, order);
    var rows := Rows(results);
    forall k | 1 <= k < |rows|
      ensures FromRow(rows[k]).Some? && FromRow(rows[k]).value.word == words[order[k - 1]]
      ensures FromRow(rows[k]).value.url == base + words[order[k - 1]]
    {
      assert FromRow(rows[k]) == Some(results[k - 1]);
    }
    o := Finished(path, rows, Tally(statuses), Keys(statuses));
  }
}
