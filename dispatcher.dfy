/**
 * The batch dispatcher (`http_get_with_aiohttp_parallel`): one probe task per
 * word, results collected in completion order. The scheduler's completion
 * order is the parameter `order`: `order[k]` is the index of the word whose
 * probe completed k-th.
 */
module Dispatcher {
  import opened Wrappers
  import opened Executor

  /** `order` lists each of the indices `0 .. n-1` exactly once. */
  predicate IsPermutation(order: seq<nat>, n: nat) {
    && |order| == n
    && (forall k :: 0 <= k < |order| ==> order[k] < n)
    && (forall j, k :: 0 <= j < k < |order| ==> order[j] != order[k])
    && (forall i :: 0 <= i < n ==> i in order)
  }

  /** The elements of `s` taken in the order that `order` lists their indices. */
  function Permute<T>(s: seq<T>, order: seq<nat>): (r: seq<T>)
    requires forall k :: 0 <= k < |order| ==> order[k] < |s|
    ensures |r| == |order|
    ensures forall k :: 0 <= k < |order| ==> r[k] == s[order[k]]
  {
    seq(|order|, k requires 0 <= k < |order| => s[order[k]])
  }

  /**
   * Dropping the last entry `j` of a permutation of `0 .. n-1` and closing the
   * gap it leaves gives a permutation of `0 .. n-2`.
   */
  lemma DropLast(order: seq<nat>, n: nat) returns (shifted: seq<nat>)
    requires IsPermutation(order, n) && n > 0
    ensures IsPermutation(shifted, n - 1)
    ensures forall k :: 0 <= k < n - 1 ==>
              && order[k] != order[n - 1]
              && shifted[k] == if order[k] < order[n - 1] then order[k] else order[k] - 1
  {
    var j := order[n - 1];
    forall k | 0 <= k < n - 1 ensures order[k] != j {
      assert order[k] != order[n - 1];
    }
    shifted := seq(n - 1, k requires 0 <= k < n - 1 => if order[k] < j then order[k] else order[k] - 1);
    forall a, b | 0 <= a < b < n - 1 ensures shifted[a] != shifted[b] {
      assert order[a] != order[b];
    }
    forall v | 0 <= v < n - 1 ensures v in shifted {
      var w := if v < j then v else v + 1;
      assert w in order;
      var k :| 0 <= k < n && order[k] == w;
      assert k < n - 1 && shifted[k] == v;
    }
  }

  /** Reordering a sequence by a permutation of its indices keeps its multiset of elements. */
  lemma {:induction false} PermuteMultiset<T>(s: seq<T>, order: seq<nat>)
    requires IsPermutation(order, |s|)
    ensures multiset(Permute(s, order)) == multiset(s)
  {
    var n := |order|;
    if n > 0 {
      var j := order[n - 1];
      var front := order[..n - 1];
      var rest := s[..j] + s[j + 1..];
      var shifted := DropLast(order, n);
      PermuteMultiset(rest, shifted);
      assert Permute(rest, shifted) == Permute(s, front);
      assert Permute(s, order) == Permute(s, front) + [s[j]];
      assert s == s[..j] + [s[j]] + s[j + 1..];
    }
  }

  /** The record each word gets, in input order. */
  function PerWord(base: string, words: seq<string>, outcomes: seq<Transport>): (r: seq<Record>)
    requires |outcomes| == |words|
    ensures |r| == |words|
    ensures forall i :: 0 <= i < |words| ==>
              r[i] == Probe(Request(base, words[i], base + words[i]), outcomes[i])
  {
    seq(|words|, i requires 0 <= i < |words| => Probe(Request(base, words[i], base + words[i]), outcomes[i]))
  }

  /** The `word` field of each record, in order. */
  function Words(rs: seq<Record>): (r: seq<string>)
    ensures |r| == |rs| && forall k :: 0 <= k < |rs| ==> r[k] == rs[k].word
  {
    seq(|rs|, k requires 0 <= k < |rs| => rs[k].word)
  }

  /** The loop that creates one task per word, the probe URL being the base URL followed by the word. */
  method BuildTasks(base: string, words: seq<string>) returns (tasks: seq<Request>)
    ensures |tasks| == |words|
    ensures forall i :: 0 <= i < |words| ==> tasks[i] == Request(base, words[i], base + words[i])
  {
    tasks := [];
    for i := 0 to |words|
      invariant |tasks| == i
      invariant forall j :: 0 <= j < i ==> tasks[j] == Request(base, words[j], base + words[j])
    {
      tasks := tasks + [Request(base, words[i], base + words[i])];
    }
  }

  /**
   * The whole batch: exactly one record per word whatever fails, each the
   * record of its own word, in completion order; so the result is a
   * permutation of the per-word records, and every input word appears as
   * often as it occurs in the input.
   */
  method Dispatch(base: string, words: seq<string>, outcomes: seq<Transport>, order: seq<nat>)
    returns (results: seq<Record>)
    requires |outcomes| == |words|
    requires IsPermutation(order, |words|)
    ensures |results| == |words|
    ensures results == Permute(PerWord(base, words, outcomes), order)
    ensures forall k :: 0 <= k < |results| ==>
              && results[k].baseUrl == base
              && results[k].word == words[order[k]]
              && results[k].url == base + results[k].word
    ensures multiset(results) == multiset(PerWord(base, words, outcomes))
    ensures multiset(Words(results)) == multiset(words)
  {
    var tasks := BuildTasks(base, words);
    ghost var expected := PerWord(base, words, outcomes);
    results := [];
    var k := 0;
    while k < |order|
      invariant 0 <= k <= |order|
      invariant results == Permute(expected, order[..k])
    {
      var i := order[k];
      var r := HttpGet(tasks[i], outcomes[i]);
      results := results + [r];
      k := k + 1;
    }
    assert order[..k] == order;
    PermuteMultiset(expected, order);
    assert Words(results) == Permute(words, order);
    PermuteMultiset(words, order);
  }

  // ---------------------------------------------------------------------
  // Collection as written: the list comprehension awaits the tasks in
  // completion order and stops at the first one that raised.

  /** Awaiting the probe tasks in completion order: the records, or `None` when some task raised. */
  function CollectAsWritten(ps: seq<Probed>): (r: Option<seq<Record>>)
    ensures r.None? <==> exists k :: 0 <= k < |ps| && ps[k].Raised?
    ensures r.Some? ==> |r.value| == |ps| && forall k :: 0 <= k < |ps| ==> r.value[k] == ps[k].record
  {
    if ps == [] then Some([])
    else if ps[0].Raised? then None
    else
      match CollectAsWritten(ps[1..])
      case None => None
      case Some(tail) => Some([ps[0].record] + tail)
  }

  /** The per-word probe outcomes as written, in input order. */
  function PerWordAsWritten(base: string, words: seq<string>, outcomes: seq<Transport>): (r: seq<Probed>)
    requires |outcomes| == |words|
    ensures |r| == |words|
    ensures forall i :: 0 <= i < |words| ==>
              r[i] == ProbeAsWritten(Request(base, words[i], base + words[i]), outcomes[i])
  {
    seq(|words|, i requires 0 <= i < |words| => ProbeAsWritten(Request(base, words[i], base + words[i]), outcomes[i]))
  }

  /**
   * As written, one probe whose `response.json` raises anything but a JSON
   * decode error loses the records of the whole batch; when none does, the
   * batch is the same as the dispatcher's.
   */
  lemma BatchAsWritten(base: string, words: seq<string>, outcomes: seq<Transport>, order: seq<nat>)
    requires |outcomes| == |words|
    requires IsPermutation(order, |words|)
    ensures var got := CollectAsWritten(Permute(PerWordAsWritten(base, words, outcomes), order));
            && (got.None? <==> exists i :: 0 <= i < |outcomes| && outcomes[i].Response? && outcomes[i].json.OtherError?)
            && (got.Some? ==> got.value == Permute(PerWord(base, words, outcomes), order))
  {
    var probed := Permute(PerWordAsWritten(base, words, outcomes), order);
    var got := CollectAsWritten(probed);
    if got.None? {
      var k :| 0 <= k < |probed| && probed[k].Raised?;
      assert outcomes[order[k]].Response? && outcomes[order[k]].json.OtherError?;
    } else {
      forall i | 0 <= i < |outcomes|
        ensures !(outcomes[i].Response? && outcomes[i].json.OtherError?)
      {
        assert i in order;
        var k :| 0 <= k < |order| && order[k] == i;
        assert !probed[k].Raised?;
      }
    }
  }

}
