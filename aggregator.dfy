/**
 * The aggregator: `Counter` over the status field of every record, `None`
 * (a failed transport call) being a key of its own.
 */
module Aggregator {
  import opened Wrappers
  import opened Executor

  /** A histogram key: an HTTP status, or `None` for a failed transport call. */
  type Key = Option<int>

  /** The list comprehension `[result[3] for result in results]`. */
  function Statuses(rs: seq<Record>): (r: seq<Key>)
    ensures |r| == |rs| && forall k :: 0 <= k < |rs| ==> r[k] == rs[k].status
  {
    seq(|rs|, k requires 0 <= k < |rs| => rs[k].status)
  }

  /**
   * `Counter(s)`, built as `Counter` builds it, one increment per element:
   * the keys are the values that occur, and each count is the number of
   * occurrences of its key.
   */
  function Tally(s: seq<Key>): (m: map<Key, nat>)
    ensures forall k :: k in m <==> k in s
    ensures forall k :: k in m ==> m[k] == multiset(s)[k]
  {
    if s == [] then map[]
    else
      var front, x := s[..|s| - 1], s[|s| - 1];
      assert s == front + [x];
      var m := Tally(front);
      m[x := if x in m then m[x] + 1 else 1]
  }

  /** The position at which `k` first occurs in `s`. */
  function FirstIndex(s: seq<Key>, k: Key): (p: nat)
    requires k in s
    ensures p < |s| && s[p] == k && k !in s[..p]
  {
    var front := s[..|s| - 1];
    if k in front then
      var p := FirstIndex(front, k);
      assert s[..p] == front[..p];
      p
    else
      assert s == front + [s[|s| - 1]];
      |s| - 1
  }

  /** The keys of `Counter(s)` in the dictionary's order, that is, in order of first occurrence. */
  function Keys(s: seq<Key>): (ks: seq<Key>)
    ensures forall k :: k in ks <==> k in s
    ensures forall i, j :: 0 <= i < j < |ks| ==> ks[i] != ks[j]
  {
    if s == [] then []
    else
      var ks := Keys(s[..|s| - 1]);
      var x := s[|s| - 1];
      assert forall k :: k in s <==> k in s[..|s| - 1] || k == x;
      if x in ks then ks else ks + [x]
  }

  /** `Keys` lists the keys in the order in which they first occur. */
  lemma {:induction false} KeysInFirstOccurrenceOrder(s: seq<Key>)
    ensures forall i, j :: 0 <= i < j < |Keys(s)| ==> FirstIndex(s, Keys(s)[i]) < FirstIndex(s, Keys(s)[j])
  {
    if s != [] {
      var front := s[..|s| - 1];
      KeysInFirstOccurrenceOrder(front);
      var kf, ks := Keys(front), Keys(s);
      assert ks == kf || ks == kf + [s[|s| - 1]];
      forall i, j | 0 <= i < j < |ks| ensures FirstIndex(s, ks[i]) < FirstIndex(s, ks[j]) {
        assert ks[i] == kf[i] && ks[i] in front;
        assert FirstIndex(s, ks[i]) == FirstIndex(front, kf[i]);
        if j < |kf| {
          assert ks[j] == kf[j] && ks[j] in front;
          assert FirstIndex(s, ks[j]) == FirstIndex(front, kf[j]);
        } else {
          assert ks[j] == s[|s| - 1] && ks[j] !in front;
          assert FirstIndex(s, ks[j]) == |s| - 1;
        }
      }
    }
  }

  /** The sum of the counts of the listed keys. */
  function Total(m: map<Key, nat>, ks: seq<Key>): nat
    requires forall k :: k in ks ==> k in m
  {
    if ks == [] then 0 else Total(m, ks[..|ks| - 1]) + m[ks[|ks| - 1]]
  }

  /** The status histogram of a batch: each status carried by some record, with the number of records carrying it. */
  function Histogram(rs: seq<Record>): (h: map<Key, nat>)
    ensures forall key :: key in h <==> key in Statuses(rs)
    ensures forall key :: key in h ==> h[key] == multiset(Statuses(rs))[key]
  {
    Tally(Statuses(rs))
  }

  /** Updating a key that is not listed does not change the total. */
  lemma {:induction false} TotalOther(m: map<Key, nat>, ks: seq<Key>, x: Key, v: nat)
    requires forall k :: k in ks ==> k in m
    requires x !in ks
    ensures Total(m[x := v], ks) == Total(m, ks)
  {
    if ks != [] {
      TotalOther(m, ks[..|ks| - 1], x, v);
    }
  }

  /** Adding one to the count of a key listed once adds one to the total. */
  lemma {:induction false} TotalBump(m: map<Key, nat>, ks: seq<Key>, x: Key)
    requires forall k :: k in ks ==> k in m
    requires forall i, j :: 0 <= i < j < |ks| ==> ks[i] != ks[j]
    requires x in ks
    ensures Total(m[x := m[x] + 1], ks) == Total(m, ks) + 1
  {
    var front, last := ks[..|ks| - 1], ks[|ks| - 1];
    if last == x {
      assert x !in front;
      TotalOther(m, front, x, m[x] + 1);
    } else {
      assert x in front;
      TotalBump(m, front, x);
    }
  }

  /** The counts sum to the number of elements counted. */
  lemma {:induction false} TotalIsLength(s: seq<Key>)
    ensures Total(Tally(s), Keys(s)) == |s|
  {
    if s != [] {
      var front, x := s[..|s| - 1], s[|s| - 1];
      TotalIsLength(front);
      var m := Tally(front);
      if x in Keys(front) {
        TotalBump(m, Keys(front), x);
      } else {
        assert x !in m;
        TotalOther(m, Keys(front), x, 1);
      }
    }
  }

  /** The histogram depends on the multiset of the elements only, not on their order. */
  lemma TallyOrderIndependent(s: seq<Key>, t: seq<Key>)
    requires multiset(s) == multiset(t)
    ensures Tally(s) == Tally(t)
  {
  }

  /** A batch's histogram counts, for each status key, the records that carry it; its counts sum to the batch size. */
  lemma HistogramCounts(rs: seq<Record>)
    ensures forall key :: key in Histogram(rs) <==> exists k :: 0 <= k < |rs| && rs[k].status == key
    ensures forall key :: key in Histogram(rs) ==> Histogram(rs)[key] == multiset(Statuses(rs))[key]
    ensures Total(Histogram(rs), Keys(Statuses(rs))) == |rs|
  {
    var ss := Statuses(rs);
    forall key ensures key in ss <==> exists k :: 0 <= k < |rs| && rs[k].status == key {
      if key in ss {
        var k :| 0 <= k < |ss| && ss[k] == key;
        assert rs[k].status == key;
      }
    }
    TotalIsLength(ss);
  }
}
