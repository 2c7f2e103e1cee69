/**
 * The `Memory` record of the agent ledger: a text, the time it was stored,
 * its embedding (empty until computed) and whether it is a rollup summary.
 * Records compare by value, field by field, as the dataclass does.
 */
module MemoryRecord {
  import opened Py

  /** Seconds since the epoch, as `time.time()` returns them. */
  type Timestamp = real

  /** An embedding vector; the empty vector means "not computed yet". */
  type Embedding = seq<real>

  datatype Memory = Memory(text: string, timestamp: Timestamp, embedding: Embedding, isSummary: bool)

  /** The texts of a list of records, in order. */
  function Texts(mems: seq<Memory>): (r: seq<string>)
    ensures |r| == |mems|
    ensures forall i :: 0 <= i < |mems| ==> r[i] == mems[i].text
  {
    seq(|mems|, i requires 0 <= i < |mems| => mems[i].text)
  }

  /** The raw (non-summary) records, in order. */
  function Raw(mems: seq<Memory>): (r: seq<Memory>)
    ensures |r| <= |mems|
    ensures forall m :: m in r <==> m in mems && !m.isSummary
  {
    if mems == [] then []
    else Raw(mems[..|mems| - 1]) + (if mems[|mems| - 1].isSummary then [] else [mems[|mems| - 1]])
  }

  function RawCount(mems: seq<Memory>): nat {
    |Raw(mems)|
  }

  lemma RawAppend(mems: seq<Memory>, m: Memory)
    ensures Raw(mems + [m]) == Raw(mems) + (if m.isSummary then [] else [m])
  {
    assert (mems + [m])[..|mems|] == mems;
  }

  /** A suffix holds no more raw records than the whole list. */
  lemma {:induction false} RawSuffix(mems: seq<Memory>, k: nat)
    requires k <= |mems|
    ensures RawCount(mems[k..]) <= RawCount(mems)
    decreases |mems|
  {
    if k < |mems| {
      var init, last, tail := mems[..|mems| - 1], mems[|mems| - 1], mems[k..];
      assert tail[..|tail| - 1] == init[k..];
      assert tail[|tail| - 1] == last;
      var extra := if last.isSummary then [] else [last];
      assert Raw(tail) == Raw(init[k..]) + extra;
      assert Raw(mems) == Raw(init) + extra;
      RawSuffix(init, k);
    } else {
      assert mems[k..] == [];
    }
  }

  /** `[m for m in mems if m not in removed]`: records are compared by value. */
  function Without(mems: seq<Memory>, removed: seq<Memory>): (r: seq<Memory>)
    ensures |r| <= |mems|
    ensures forall m :: m in r <==> m in mems && m !in removed
  {
    if mems == [] then []
    else
      var last := mems[|mems| - 1];
      Without(mems[..|mems| - 1], removed) + (if last in removed then [] else [last])
  }

  lemma WithoutAppend(mems: seq<Memory>, m: Memory, removed: seq<Memory>)
    ensures Without(mems + [m], removed) == Without(mems, removed) + (if m in removed then [] else [m])
  {
    assert (mems + [m])[..|mems|] == mems;
  }

  lemma {:induction false} RawWithout(mems: seq<Memory>, removed: seq<Memory>)
    ensures Raw(Without(mems, removed)) == Without(Raw(mems), removed)
    decreases |mems|
  {
    if mems != [] {
      var init, last := mems[..|mems| - 1], mems[|mems| - 1];
      var w := Without(init, removed);
      var ri := Raw(init);
      RawWithout(init, removed);
      assert Raw(w) == Without(ri, removed);
      var wm := Without(mems, removed);
      var rm := Raw(mems);
      assert wm == w + (if last in removed then [] else [last]);
      assert rm == ri + (if last.isSummary then [] else [last]);
      if last in removed {
        assert wm == w;
        if !last.isSummary {
          WithoutAppend(ri, last, removed);
          assert Without(rm, removed) == Without(ri, removed);
        } else {
          assert rm == ri;
        }
        assert Raw(wm) == Without(rm, removed);
      } else {
        RawAppend(w, last);
        if !last.isSummary {
          WithoutAppend(ri, last, removed);
          assert Without(rm, removed) == Without(ri, removed) + [last];
          assert Raw(wm) == Raw(w) + [last];
        } else {
          assert rm == ri;
          assert Raw(wm) == Raw(w);
        }
        assert Raw(wm) == Without(rm, removed);
      }
    }
  }

  /** Removing a list whose first `k` elements are all among `removed` drops at least `k`. */
  lemma {:induction false} WithoutBound(s: seq<Memory>, removed: seq<Memory>, k: nat)
    requires k <= |s|
    requires forall i :: 0 <= i < k ==> s[i] in removed
    ensures |Without(s, removed)| <= |s| - k
    decreases |s|
  {
    if s != [] {
      var init := s[..|s| - 1];
      if k < |s| {
        WithoutBound(init, removed, k);
      } else {
        WithoutBound(init, removed, k - 1);
      }
    }
  }

  lemma {:induction false} WithoutAll(s: seq<Memory>, removed: seq<Memory>)
    requires forall i :: 0 <= i < |s| ==> s[i] in removed
    ensures Without(s, removed) == []
    decreases |s|
  {
    if s != [] {
      WithoutAll(s[..|s| - 1], removed);
    }
  }

  /** When the records are pairwise distinct, removing the first `k` by value
      removes exactly them. */
  lemma {:induction false} WithoutDistinctPrefix(s: seq<Memory>, k: nat)
    requires k <= |s|
    requires forall i, j :: 0 <= i < j < |s| ==> s[i] != s[j]
    ensures Without(s, s[..k]) == s[k..]
    decreases |s|
  {
    if k == |s| {
      WithoutAll(s, s[..k]);
    } else {
      var init, last := s[..|s| - 1], s[|s| - 1];
      WithoutDistinctPrefix(init, k);
      assert init[..k] == s[..k];
      assert last !in s[..k];
      assert s == init + [last];
      WithoutAppend(init, last, s[..k]);
      DropSnoc(s, k);
    }
  }

  lemma TextsAppend(mems: seq<Memory>, m: Memory)
    ensures Texts(mems + [m]) == Texts(mems) + [m.text]
  {
  }

  lemma TextsConcat(a: seq<Memory>, b: seq<Memory>)
    ensures Texts(a + b) == Texts(a) + Texts(b)
  {
  }

  /** Removing records never introduces a text. */
  lemma TextsWithout(mems: seq<Memory>, removed: seq<Memory>)
    ensures forall t :: t in Texts(Without(mems, removed)) ==> t in Texts(mems)
  {
    var w := Without(mems, removed);
    forall t | t in Texts(w) ensures t in Texts(mems) {
      var i :| 0 <= i < |w| && Texts(w)[i] == t;
      assert w[i] in mems;
      var j :| 0 <= j < |mems| && mems[j] == w[i];
      assert Texts(mems)[j] == t;
    }
  }
}
