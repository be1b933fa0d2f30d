# WebFindApiEndPoints — a Dafny model of the probe engine

WebFindApiEndPoints discovers hidden endpoints of an HTTP API. It appends each
word of a word list to a base URL, sends one GET per word, and records each
outcome as a row `base_url; word_tested; url; status_code; response_json;
response_content`. At the end it returns a histogram of the status codes.

This project models the data-shaping logic of that script. The network is
replaced by a value that says what the aiohttp calls would have produced.

- `Executor` (`executor.dfy`) covers `Wrapper.get` and `http_get_with_aiohttp`.
  The outcome of the GET is a `Transport`: `Failed`, or a `Response` with a
  status, the outcome of `response.json` and the outcome of `response.read`.
  `ProbeAsWritten` is the probe as written: it raises when `response.json`
  fails with anything but a JSON decode error. `Probe` is the corrected probe,
  which turns every outcome into the 6-field `Record` and never raises.
  `HttpGet` is the corrected probe written step by step, the way the source
  assigns its two optional fields.
- `Dispatcher` (`dispatcher.dfy`) covers `http_get_with_aiohttp_parallel`.
  `BuildTasks` is the loop that makes one request per word. `Dispatch` collects
  the records in completion order. That order is the parameter `order`, a
  permutation of the word indices given by the scheduler.
- `Aggregator` (`aggregator.dfy`) covers the `Counter` over field 3 of every
  record. `None` (a failed transport call) is a key of its own. `Keys` gives
  the dictionary's key order, which is the order of first occurrence.
- `OutputPath` (`outputpath.dfy`) covers the default output file name.
- `EndPoints` (`endpoints.dfy`) covers `web_find_api_end_points`. It builds the
  prefixed base URL, the output path, the CSV rows and the histogram.
  The word list is an input, already read from its file.

Where the code differs from what the tool is meant to do:

- The model follows the code for an empty word list. Such a list is meant to be legal and to give an empty batch. The code indexes is meant to be legal and to give an empty batch. The code indexes
  `words[0]` (line 83) after the CSV header is written and before any probe
  runs, so it raises `IndexError`. `EndPoints.Run` returns
  `IndexError(path, [Header])` in that case.
- A probe is meant never to raise, but the code catches only
  `JSONDecodeError` around `response.json`. Here the model has both halves,
  logged under "## Findings". `ProbeAsWritten`, `CollectAsWritten` and
  `BatchAsWritten` model the code: one such failure loses the whole batch.
  `Probe`, `HttpGet`, `Dispatch` and `Run` model the intended behaviour: the
  failure leaves `response_json` as `None`.
- The batch passes `timeout=10` to every probe, which overrides the probe's own
  default of 30. The timeout only reaches the network, which is not modelled.
- A JSON body `null` decodes to Python `None`. aiohttp also gives `None` for a
  body that is empty after stripping. Both are `Decoded(JNull)`, and both leave
  `response_json` as `None`.

## Model

| member | source | states |
|---|---|---|
| `Executor.JsonField` | web_find_api_end_points.py:128-132 | `response_json` is set exactly when decoding succeeded with a value other than `null`, and it is then that value. |
| `Executor.ContentField` | web_find_api_end_points.py:134-138 | `response_content` is set exactly when the read succeeded, and it is then the bytes read. |
| `Executor.Probe` | web_find_api_end_points.py:115-141 | The record keeps base_url, word and url unchanged. Its status is `None` exactly when the transport call failed, and otherwise it is the received status. A failure leaves json and content `None`. json depends only on the decode outcome, and content only on the read outcome. |
| `Dispatcher.PerWord` | web_find_api_end_points.py:99-100 | Word i gets the record of probing base URL + word i with its own outcome, and there is one record per word. |
| `Dispatcher.PerWordAsWritten` | web_find_api_end_points.py:99-100 | Word i gets the as-written probe outcome (record or raised exception) for base URL + word i, one per word. |
| `Executor.HttpGet` | web_find_api_end_points.py:123-141 | The step-by-step assignments of `response_json` and `response_content` yield exactly the record `Probe` specifies. |
| `Executor.OutcomesIndependent` | web_find_api_end_points.py:127-139 | Changing the read outcome does not change the JSON field. Changing the decode outcome does not change the content field. Neither changes the status. |
| `Executor.ProbeAsWritten` | web_find_api_end_points.py:127-141 | As written, a probe raises exactly when `response.json` fails with something other than a JSON decode error. Otherwise it returns `Probe`'s record. |
| `Executor.ProbeAsWrittenRaises` | web_find_api_end_points.py:129-132 | A 200 response whose body cannot be read inside `response.json` makes the probe as written raise. |
| `Dispatcher.PermuteMultiset` | web_find_api_end_points.py:103-106 | Collecting in any completion order that lists each task once keeps the multiset of results. |
| `Dispatcher.BuildTasks` | web_find_api_end_points.py:98-101 | There is one request per word, in word order, and its URL is the base URL followed by the word. |
| `Dispatcher.Dispatch` | web_find_api_end_points.py:97-107 | The batch holds exactly `len(words)` records, whatever fails. The k-th record is the record of the word completing k-th. Every record has url = base_url + word. The records are a permutation of the per-word records, and each input word appears as often as it occurs in the list. |
| `Dispatcher.CollectAsWritten` | web_find_api_end_points.py:103-106 | Awaiting the tasks in completion order gives nothing when some task raised. Otherwise it gives every task's record in that order. |
| `Dispatcher.BatchAsWritten` | web_find_api_end_points.py:97-107 | As written, the whole batch is lost exactly when some response's JSON step raises a non-decode error. Otherwise it equals the dispatcher's batch. |
| `Aggregator.Tally` | web_find_api_end_points.py:91 | The keys of `Counter` are exactly the values that occur, and each count is that value's number of occurrences. |
| `Aggregator.Statuses` | web_find_api_end_points.py:90 | The list comprehension keeps one entry per record, in order, and entry k is record k's status. |
| `Aggregator.Histogram` | web_find_api_end_points.py:90-91 | The histogram's keys are exactly the statuses carried by some record, `None` included, and each count is the number of records carrying that status. |
| `Aggregator.Keys` | web_find_api_end_points.py:91 | The dictionary's keys, listed without repetition, are exactly the values that occur. |
| `Aggregator.FirstIndex` | web_find_api_end_points.py:91 | The first position of a value is a position holding it, with no earlier occurrence. |
| `Aggregator.KeysInFirstOccurrenceOrder` | web_find_api_end_points.py:91 | The dictionary lists its keys in the order of their first occurrence, as `dict(Counter(...))` inserts them. |
| `Aggregator.TotalIsLength` | web_find_api_end_points.py:90-91 | The counts over all keys sum to the number of values counted. |
| `Aggregator.TallyOrderIndependent` | web_find_api_end_points.py:90-91 | Two sequences with the same multiset of statuses give the same histogram. |
| `Aggregator.HistogramCounts` | web_find_api_end_points.py:90-91 | A key is in a batch's histogram exactly when some record carries that status. Its count is the number of such records. The counts sum to the batch size. |
| `OutputPath.ReplaceChar` | web_find_api_end_points.py:73 | Each `/` becomes `_`, every other character stays, and the length is kept. |
| `OutputPath.RemoveChar` | web_find_api_end_points.py:73 | No `:` is left, and every other character keeps its number of occurrences. |
| `OutputPath.RemoveCharAbsent` | web_find_api_end_points.py:73 | Removing `:` from a string without `:` leaves it unchanged. |
| `OutputPath.RemoveCharConcat` | web_find_api_end_points.py:73 | Removal distributes over concatenation, so the kept characters stay in order. |
| `OutputPath.Basename` | web_find_api_end_points.py:73 | `os.path.basename` is the longest suffix without `/`. It is either the whole path or it follows a `/`. |
| `OutputPath.Stem` | web_find_api_end_points.py:73 | `split(".")[0]` is the longest prefix without `.`. It is either the whole string or it is followed by a `.`. |
| `OutputPath.Sanitize` | web_find_api_end_points.py:73 | The URL segment of the file name contains no `/` and no `:`. |
| `OutputPath.SanitizeClean` | web_find_api_end_points.py:73 | A URL without `/` or `:` is used unchanged. |
| `OutputPath.DefaultPath` | web_find_api_end_points.py:73 | The default path starts with `outputs/` and ends with `_results.csv`. Its only `/` is the one closing `outputs`, so the file lies directly in that folder. |
| `OutputPath.Path` | web_find_api_end_points.py:72-73 | A given `output_file` is used unchanged. Otherwise the path is the default built from the URL and the word-list path. |
| `EndPoints.TargetBase` | web_find_api_end_points.py:69-70 | Without a prefix the base URL is the given URL. With one, it is the URL followed by the prefix. |
| `EndPoints.Row` | web_find_api_end_points.py:81-88 | A record's CSV row has one cell per header column, and the record can be read back from it unchanged. |
| `EndPoints.Rows` | web_find_api_end_points.py:81-88 | The rows written are the header followed by one row per record, in the batch's order. |
| `EndPoints.BatchHistogram` | web_find_api_end_points.py:86-91 | The histogram of the collected batch is the histogram of the per-word records, whatever the completion order. |
| `EndPoints.HistogramKeys` | web_find_api_end_points.py:90-91 | `None` is a key exactly when some transport call failed. A status is a key exactly when some response carried it. |
| `EndPoints.TimeoutScenario` | web_find_api_end_points.py:90-91 | Take two words where the second times out. There are two records, the failed one has `None` status, json and content and keeps its base_url, word and url, and the histogram is `{200: 1, None: 1}`. |
| `EndPoints.Run` | web_find_api_end_points.py:68-94 | The output path is built from the prefixed URL. An empty word list stops the run with IndexError after only the header was written. Otherwise the rows are the header followed by the row of each record of the collected batch, that is, of each word's probe record at prefix-extended base + word, in completion order. The histogram equals that of the per-word records, its keys are listed once each in order of first occurrence in the collected batch, and its counts sum to `len(words)`. |

## Left out

- Argument parsing, logging configuration and the exit code (lines 23-65) are process plumbing.
- The logging calls (lines 83, 93, 119) only write to the log. Line 83 is still modelled for the `IndexError` it raises on an empty word list.
- Reading the word-list file and opening, writing and closing the CSV file (lines 75-81, 88, 92) are file I/O. The model returns the rows as cells.
- The CSV writer's text rendering of cells is library behaviour: `None` written as an empty string, `str` of every other value, the `;` delimiter and quoting. So is the `json.dumps` rendering of the histogram (line 91). `Run` returns the histogram and its key order instead.
- JSON parsing is library behaviour. A decoded document is opaque except for `null`.
- `ClientSession`, the GET, `response.json` and `response.read` (lines 85-87, 117, 130, 136) are network calls. So are the headers, proxy and timeout handed to them. They are replaced by the `Transport` outcome, and the JSON and read outcomes are taken as independent, as the code treats them.
- Task creation, `as_completed` scheduling and the tqdm progress bar (lines 99-106) are concurrency and display. Only their result is modelled: a completion order given as a permutation.
- `os.path.basename` is modelled as the part after the last `/`.
- `EndPoints.Run` uses the corrected probe (see "## Findings"), so the exception that the as-written batch raises is not carried through the top-level run. Its effect on a batch is stated by `Dispatcher.BatchAsWritten`.

## Findings

| source | as written | input that shows it | evidently intended | confidence | as-written member | corrected member |
|---|---|---|---|---|---|---|
| web_find_api_end_points.py:129-132 | Only `json.decoder.JSONDecodeError` is caught around `response.json`. Any other exception from that call leaves the probe. When its task is awaited (lines 103-106) it aborts the whole batch, and the script then writes no result rows. | A 200 response whose body breaks off before its announced length. The read inside `response.json` raises a payload error. | Every failure of the JSON step leaves `response_json` as `None`, as the bare `except` does for the read step, so that one probe never affects the others. | medium; not executed | `Executor.ProbeAsWritten`, `Dispatcher.BatchAsWritten` | `Executor.Probe`, `Dispatcher.Dispatch` |
