/**
 * Top-k retrieval over the agent's ledger (core/agent.py, `retrieve_memories`):
 * a stable sort of the records by descending similarity, the first `top_k`
 * texts, and the merge of remote and local results.
 */
module Retrieval {
  import opened Py
  import opened MemoryRecord

  /** A record's similarity score and its position in the ledger. */
  datatype Scored = Scored(score: real, pos: nat)

  /** The scores of the records against the query vector, in ledger order. */
  function ScoresOf(mems: seq<Memory>, queryVec: Embedding, sim: (Embedding, Embedding) -> real): (r: seq<Scored>)
    ensures |r| == |mems|
    ensures forall i :: 0 <= i < |r| ==> r[i] == Scored(sim(queryVec, mems[i].embedding), i)
  {
    seq(|mems|, i requires 0 <= i < |mems| => Scored(sim(queryVec, mems[i].embedding), i))
  }

  /** `x` comes before `y` in a stable descending sort. */
  predicate Before(x: Scored, y: Scored) {
    x.score > y.score || (x.score == y.score && x.pos < y.pos)
  }

  predicate SortedDesc(s: seq<Scored>) {
    forall i, j :: 0 <= i < j < |s| ==> Before(s[i], s[j])
  }

  /** Inserts `x` before the first element with a strictly lower score. */
  function InsertDesc(ys: seq<Scored>, x: Scored): (r: seq<Scored>)
    ensures |r| == |ys| + 1
  {
    if ys == [] then [x]
    else if ys[0].score < x.score then [x] + ys
    else [ys[0]] + InsertDesc(ys[1..], x)
  }

  lemma {:induction false} InsertDescPerm(ys: seq<Scored>, x: Scored)
    ensures multiset(InsertDesc(ys, x)) == multiset(ys) + multiset{x}
    decreases |ys|
  {
    if ys != [] && ys[0].score >= x.score {
      InsertDescPerm(ys[1..], x);
      assert ys == [ys[0]] + ys[1..];
    }
  }

  /** `list.sort(key=score, reverse=True)`, specified as insertion in input order. */
  function Ranked(xs: seq<Scored>): (r: seq<Scored>)
    ensures |r| == |xs|
  {
    if xs == [] then [] else InsertDesc(Ranked(xs[..|xs| - 1]), xs[|xs| - 1])
  }

  lemma {:induction false} InsertDescSorted(ys: seq<Scored>, x: Scored)
    requires SortedDesc(ys)
    requires forall i :: 0 <= i < |ys| ==> ys[i].pos < x.pos
    ensures SortedDesc(InsertDesc(ys, x))
    decreases |ys|
  {
    if ys != [] && ys[0].score >= x.score {
      var rest := InsertDesc(ys[1..], x);
      InsertDescSorted(ys[1..], x);
      InsertDescPerm(ys[1..], x);
      assert multiset(rest) == multiset(ys[1..]) + multiset{x};
      forall j | 0 <= j < |rest|
        ensures Before(ys[0], rest[j])
      {
        assert rest[j] in multiset(rest);
        if rest[j] != x {
          assert rest[j] in ys[1..];
        }
      }
    }
  }

  /** The ranking is a permutation, ordered by descending score, ties in ledger order. */
  lemma {:induction false} RankedSorted(xs: seq<Scored>)
    requires forall i :: 0 <= i < |xs| ==> xs[i].pos == i
    ensures SortedDesc(Ranked(xs))
    ensures multiset(Ranked(xs)) == multiset(xs)
    decreases |xs|
  {
    if xs != [] {
      var init := xs[..|xs| - 1];
      RankedSorted(init);
      var r := Ranked(init);
      InsertDescPerm(r, xs[|xs| - 1]);
      assert xs == init + [xs[|xs| - 1]];
      forall i | 0 <= i < |r|
        ensures r[i].pos < xs[|xs| - 1].pos
      {
        assert r[i] in multiset(init);
      }
      InsertDescSorted(r, xs[|xs| - 1]);
    }
  }

  lemma {:induction false} InsertAt(ys: seq<Scored>, x: Scored, p: nat)
    requires p <= |ys|
    requires forall k :: 0 <= k < p ==> ys[k].score >= x.score
    requires p == |ys| || ys[p].score < x.score
    ensures InsertDesc(ys, x) == ys[..p] + [x] + ys[p..]
    decreases p
  {
    if p > 0 {
      var tail := ys[1..];
      InsertAt(tail, x, p - 1);
      assert InsertDesc(ys, x) == [ys[0]] + InsertDesc(tail, x);
      assert ys[..p] == [ys[0]] + tail[..p - 1];
      assert ys[p..] == tail[p - 1..];
    }
  }

  /** The in-place sort of the scored list: insertion before the first strictly
      lower score. */
  method SortByScore(xs: seq<Scored>) returns (ys: seq<Scored>)
    ensures ys == Ranked(xs)
  {
    ys := [];
    for i := 0 to |xs|
      invariant ys == Ranked(xs[..i])
    {
      var x := xs[i];
      var p := 0;
      while p < |ys| && ys[p].score >= x.score
        invariant p <= |ys|
        invariant forall k :: 0 <= k < p ==> ys[k].score >= x.score
      {
        p := p + 1;
      }
      InsertAt(ys, x, p);
      TakeNext(xs, i);
      ys := ys[..p] + [x] + ys[p..];
    }
    TakeAll(xs);
  }

  /** `scored[:top_k]`: the first `topK` scores in rank order. */
  function Best(mems: seq<Memory>, queryVec: Embedding, topK: int,
                sim: (Embedding, Embedding) -> real): seq<Scored> {
    SliceTo(Ranked(ScoresOf(mems, queryVec, sim)), topK)
  }

  /** The texts of the best `topK` records, best first. */
  function LocalResults(mems: seq<Memory>, queryVec: Embedding, topK: int,
                        sim: (Embedding, Embedding) -> real): (r: seq<string>)
  {
    var best := Best(mems, queryVec, topK, sim);
    seq(|best|, i requires 0 <= i < |best| => if best[i].pos < |mems| then mems[best[i].pos].text else "")
  }

  /** Each kept score belongs to a held record, whose text is reported. */
  lemma BestRecords(mems: seq<Memory>, queryVec: Embedding, topK: int,
                    sim: (Embedding, Embedding) -> real)
    ensures var best := Best(mems, queryVec, topK, sim);
      |LocalResults(mems, queryVec, topK, sim)| == |best|
      && (topK >= 0 ==> |best| == if topK <= |mems| then topK else |mems|)
      && forall i :: 0 <= i < |best| ==>
           best[i].pos < |mems| && LocalResults(mems, queryVec, topK, sim)[i] == mems[best[i].pos].text
           && best[i].score == sim(queryVec, mems[best[i].pos].embedding)
  {
    var xs := ScoresOf(mems, queryVec, sim);
    var rk := Ranked(xs);
    RankedSorted(xs);
    var best := Best(mems, queryVec, topK, sim);
    forall i | 0 <= i < |best|
      ensures best[i].pos < |mems| && best[i].score == sim(queryVec, mems[best[i].pos].embedding)
    {
      assert best[i] == rk[i];
      assert rk[i] in multiset(xs);
      var j :| 0 <= j < |xs| && xs[j] == rk[i];
    }
  }

  /** The kept scores are in rank order, and every record that is left out
      scores no higher than any record kept. */
  lemma BestIsTop(mems: seq<Memory>, queryVec: Embedding, topK: int,
                  sim: (Embedding, Embedding) -> real)
    ensures SortedDesc(Best(mems, queryVec, topK, sim))
    ensures var best := Best(mems, queryVec, topK, sim);
      forall p, i :: 0 <= p < |mems| && 0 <= i < |best|
        && (forall k :: 0 <= k < |best| ==> best[k].pos != p)
        ==> sim(queryVec, mems[p].embedding) <= best[i].score
  {
    var xs := ScoresOf(mems, queryVec, sim);
    var rk := Ranked(xs);
    RankedSorted(xs);
    var best := Best(mems, queryVec, topK, sim);
    forall p, i | 0 <= p < |mems| && 0 <= i < |best|
        && (forall k :: 0 <= k < |best| ==> best[k].pos != p)
      ensures sim(queryVec, mems[p].embedding) <= best[i].score
    {
      assert xs[p] in multiset(rk);
      var k :| 0 <= k < |rk| && rk[k] == xs[p];
      assert rk[k].pos == p;
      assert forall k' :: 0 <= k' < |best| ==> rk[k'].pos != p by {
        forall k' | 0 <= k' < |best| ensures rk[k'].pos != p {
          assert best[k'] == rk[k'];
        }
      }
      assert k >= |best|;
      assert Before(rk[i], rk[k]);
    }
  }

  /** No record scores higher against the query than record `p`. */
  ghost predicate BestScoring(mems: seq<Memory>, queryVec: Embedding, sim: (Embedding, Embedding) -> real, p: int) {
    0 <= p < |mems| && forall q :: 0 <= q < |mems| ==> sim(queryVec, mems[q].embedding) <= sim(queryVec, mems[p].embedding)
  }

  /** The first local result is the text of a best-scoring record. */
  lemma FirstIsBest(mems: seq<Memory>, queryVec: Embedding, topK: int,
                    sim: (Embedding, Embedding) -> real)
    requires mems != [] && topK >= 1
    ensures LocalResults(mems, queryVec, topK, sim) != []
    ensures BestScoring(mems, queryVec, sim, Best(mems, queryVec, topK, sim)[0].pos)
    ensures LocalResults(mems, queryVec, topK, sim)[0] == mems[Best(mems, queryVec, topK, sim)[0].pos].text
  {
    var best := Best(mems, queryVec, topK, sim);
    BestRecords(mems, queryVec, topK, sim);
    BestIsTop(mems, queryVec, topK, sim);
    var p := best[0].pos;
    forall q | 0 <= q < |mems|
      ensures sim(queryVec, mems[q].embedding) <= sim(queryVec, mems[p].embedding)
    {
      if k :| 0 <= k < |best| && best[k].pos == q {
        if k > 0 {
          assert Before(best[0], best[k]);
        }
      }
    }
  }

  /** The merge loop: new texts are appended in order until `topK` are held;
      the bound is checked after each append, so `topK <= 0` still admits one. */
  function Merged(xs: seq<string>, topK: int): (r: seq<string>)
    ensures forall i, j :: 0 <= i < j < |r| ==> r[i] != r[j]
    ensures forall t :: t in r ==> t in xs
    ensures topK >= 1 ==> |r| <= topK
    ensures |r| <= 1 || |r| <= topK
  {
    var d := Dedup(xs);
    var cap := if topK >= 1 then topK else 1;
    if |d| <= cap then d else d[..cap]
  }

  /** The merge loop as written in `retrieve_memories`. */
  method MergeResults(remote: seq<string>, local: seq<string>, topK: int) returns (merged: seq<string>)
    ensures merged == Merged(remote + local, topK)
  {
    var xs := remote + local;
    merged := [];
    var i := 0;
    while i < |xs|
      invariant i <= |xs|
      invariant merged == Dedup(xs[..i])
      invariant i > 0 ==> |merged| < topK
      invariant i > 0 ==> merged != []
    {
      TakeNext(xs, i);
      if xs[i] !in merged {
        merged := merged + [xs[i]];
      }
      i := i + 1;
      if |merged| >= topK {
        break;
      }
    }
    DedupPrefix(xs, i);
    if i == |xs| {
      TakeAll(xs);
    }
  }

  /** Remote results come first: the merge starts with the de-duplicated remote
      list, cut at the bound. */
  lemma RemoteFirst(remote: seq<string>, local: seq<string>, topK: int)
    ensures var m := Merged(remote + local, topK);
      var d := Dedup(remote);
      |m| <= |d| ==> m == d[..|m|]
    ensures var m := Merged(remote + local, topK);
      var d := Dedup(remote);
      |d| <= |m| ==> m[..|d|] == d
  {
    var xs := remote + local;
    DedupPrefix(xs, |remote|);
    assert xs[..|remote|] == remote;
  }

  /** The merge starts with the first text offered. */
  lemma MergedFirst(xs: seq<string>, topK: int)
    requires xs != []
    ensures Merged(xs, topK) != [] && Merged(xs, topK)[0] == xs[0]
  {
    DedupPrefix(xs, 1);
    assert xs[..1] == [xs[0]];
    assert Dedup([xs[0]]) == [xs[0]];
  }

  /** With `topK >= 1` the merge keeps exactly the first `topK` distinct texts. */
  lemma MergedLength(xs: seq<string>, topK: int)
    ensures topK >= 1 ==> |Merged(xs, topK)| == if |Dedup(xs)| <= topK then |Dedup(xs)| else topK
    ensures topK <= 0 && xs != [] ==> |Merged(xs, topK)| == 1
  {
    if xs != [] {
      assert xs[0] in Dedup(xs);
    }
  }
}
