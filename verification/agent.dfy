/**
 * The digital-twin agent of core/agent.py: an episodic ledger of `Memory`
 * records with a relation graph beside it, periodic persistence, a rollup
 * that folds the oldest raw records into an LLM summary, and top-k retrieval.
 *
 * The ledger's evolution is specified on values (`Ledger`, `Added`,
 * `RolledUp`, ...); the `Agent` class updates its fields in place and each of
 * its methods is proved to perform the matching transition.
 */
module AgentCore {
  import opened Wrappers
  import opened Py
  import opened PyJson
  import opened MemoryRecord
  import opened MemoryUtils
  import opened RelationGraph
  import opened Retrieval
  import Utterance

  /** `_sync_every`: the ledger is saved after this many additions. */
  const SyncEvery := 5
  /** `_MAX_RAW`: more raw records than this trigger a rollup. */
  const MaxRaw := 200
  /** `_CHUNK`: the number of oldest raw records a rollup folds. */
  const Chunk := 50
  const SummaryPrefix := "(summary) "
  /** The `top_k` that `generate_response` retrieves with. */
  const ReplyTopK := 5

  /** The agent's mutable state, with the file system it saves to. */
  datatype Ledger = Ledger(memory: seq<Memory>, graph: Graph, unsynced: int, files: map<string, Json>)

  /** What the environment supplies: the clock reading, the embedder and the LLM. */
  datatype Oracles = Oracles(now: Timestamp, embed: string -> Embedding, llm: string -> string)

  // ================================================================ specification

  /** The record `add_memory` builds. */
  function Record(text: string, isSummary: bool, env: Oracles): Memory {
    Memory(text, env.now, env.embed(text), isSummary)
  }

  /** `sync_memories`: save the ledger and reset the counter. */
  function Synced(st: Ledger, name: string): Ledger {
    st.(files := Saved(st.files, name, st.memory), unsynced := 0)
  }

  /** `_maybe_sync`: count one addition; save when the count reaches `SyncEvery`. */
  function MaybeSynced(st: Ledger, name: string): Ledger {
    var c := st.unsynced + 1;
    if c >= SyncEvery then Synced(st.(unsynced := c), name) else st.(unsynced := c)
  }

  /** The append and graph update at the start of `add_memory`. */
  function Appended(st: Ledger, text: string, isSummary: bool, env: Oracles): Ledger {
    st.(memory := st.memory + [Record(text, isSummary, env)], graph := GraphUpdate(st.graph, text))
  }

  /** `raw[:_CHUNK]`: the oldest raw records. */
  function Oldest(mems: seq<Memory>): seq<Memory>
    requires RawCount(mems) > MaxRaw
  {
    Raw(mems)[..Chunk]
  }

  /** The text of the summary record that replaces `oldest`. */
  function SummaryText(oldest: seq<Memory>, name: string, llm: string -> string): string {
    SummaryPrefix + SummariseBlock(Join("\n", Texts(oldest)), name, llm)
  }

  /** A rollup removes at least `Chunk` raw records. */
  lemma RollupShrinks(mems: seq<Memory>)
    requires RawCount(mems) > MaxRaw
    ensures RawCount(Without(mems, Oldest(mems))) <= RawCount(mems) - Chunk
  {
    RawWithout(mems, Oldest(mems));
    WithoutBound(Raw(mems), Oldest(mems), Chunk);
  }

  /** `add_memory(text, is_summary)`: append, update the graph, maybe sync, roll up. */
  function Added(st: Ledger, name: string, text: string, isSummary: bool, env: Oracles): Ledger
    decreases RawCount(st.memory) + (if isSummary then 0 else 1), 1
  {
    RawAppend(st.memory, Record(text, isSummary, env));
    RolledUp(MaybeSynced(Appended(st, text, isSummary, env), name), name, env)
  }

  /** `_auto_rollup`: while more than `MaxRaw` raw records are held, drop the
      oldest `Chunk` of them (by value) and add their summary. */
  function RolledUp(st: Ledger, name: string, env: Oracles): Ledger
    decreases RawCount(st.memory), 0
  {
    if RawCount(st.memory) <= MaxRaw then st
    else
      var oldest := Oldest(st.memory);
      RollupShrinks(st.memory);
      Added(st.(memory := Without(st.memory, oldest)), name, SummaryText(oldest, name, env.llm), true, env)
  }

  // ================================================================ ledger invariants

  /** Every addition leaves at most `MaxRaw` raw records. */
  lemma {:induction false} AddedRawBound(st: Ledger, name: string, text: string, isSummary: bool, env: Oracles)
    ensures RawCount(Added(st, name, text, isSummary, env).memory) <= MaxRaw
    decreases RawCount(st.memory) + (if isSummary then 0 else 1), 1
  {
    RawAppend(st.memory, Record(text, isSummary, env));
    RolledUpRawBound(MaybeSynced(Appended(st, text, isSummary, env), name), name, env);
  }

  lemma {:induction false} RolledUpRawBound(st: Ledger, name: string, env: Oracles)
    ensures RawCount(RolledUp(st, name, env).memory) <= MaxRaw
    decreases RawCount(st.memory), 0
  {
    if RawCount(st.memory) > MaxRaw {
      var oldest := Oldest(st.memory);
      RollupShrinks(st.memory);
      AddedRawBound(st.(memory := Without(st.memory, oldest)), name, SummaryText(oldest, name, env.llm), true, env);
    }
  }

  /** While there is room, an addition appends exactly one record and one graph
      update, and rolls nothing up. */
  lemma AddedAppends(st: Ledger, name: string, text: string, isSummary: bool, env: Oracles)
    requires RawCount(st.memory) + (if isSummary then 0 else 1) <= MaxRaw
    ensures var r := Added(st, name, text, isSummary, env);
      r.memory == st.memory + [Record(text, isSummary, env)]
      && r.graph == GraphUpdate(st.graph, text)
      && r.unsynced == (if st.unsynced + 1 >= SyncEvery then 0 else st.unsynced + 1)
  {
    RawAppend(st.memory, Record(text, isSummary, env));
  }

  /** One rollup: the oldest `Chunk` raw records are gone and one summary
      record of them is appended; with distinct raw records the raw list loses
      exactly its first `Chunk` elements. */
  lemma RollupOnce(st: Ledger, name: string, env: Oracles)
    requires MaxRaw < RawCount(st.memory) <= MaxRaw + Chunk
    ensures var r := RolledUp(st, name, env);
      var oldest := Raw(st.memory)[..Chunk];
      r.memory == Without(st.memory, oldest) + [Record(SummaryText(oldest, name, env.llm), true, env)]
      && r.memory[|r.memory| - 1].isSummary
  {
    var oldest := Oldest(st.memory);
    RollupShrinks(st.memory);
    AddedAppends(st.(memory := Without(st.memory, oldest)), name, SummaryText(oldest, name, env.llm), true, env);
  }

  /** With distinct raw records, one rollup leaves exactly the raw records
      after the oldest `Chunk`. */
  lemma RollupOnceDistinct(st: Ledger, name: string, env: Oracles)
    requires MaxRaw < RawCount(st.memory) <= MaxRaw + Chunk
    requires forall i, j :: 0 <= i < j < |Raw(st.memory)| ==> Raw(st.memory)[i] != Raw(st.memory)[j]
    ensures Raw(RolledUp(st, name, env).memory) == Raw(st.memory)[Chunk..]
  {
    var oldest := Oldest(st.memory);
    RollupOnce(st, name, env);
    RawAppend(Without(st.memory, oldest), Record(SummaryText(oldest, name, env.llm), true, env));
    RawWithout(st.memory, oldest);
    WithoutDistinctPrefix(Raw(st.memory), Chunk);
  }

  /** The sync counter stays in `0 .. SyncEvery - 1`. */
  predicate CounterOk(st: Ledger) {
    0 <= st.unsynced < SyncEvery
  }

  /** Every `SyncEvery`-th addition saves the ledger as it stands after the
      append, so that loading gives it back; the others save nothing. */
  lemma MaybeSyncedSaves(st: Ledger, name: string)
    requires CounterOk(st)
    ensures CounterOk(MaybeSynced(st, name))
    ensures MaybeSynced(st, name).memory == st.memory
    ensures st.unsynced == SyncEvery - 1 ==> Loaded(MaybeSynced(st, name).files, name) == Ok(st.memory)
    ensures st.unsynced < SyncEvery - 1 ==> MaybeSynced(st, name).files == st.files
  {
    if st.unsynced == SyncEvery - 1 {
      SaveLoadRoundTrip(st.files, name, name, st.memory);
    }
  }

  lemma {:induction false} AddedCounter(st: Ledger, name: string, text: string, isSummary: bool, env: Oracles)
    requires CounterOk(st)
    ensures CounterOk(Added(st, name, text, isSummary, env))
    decreases RawCount(st.memory) + (if isSummary then 0 else 1), 1
  {
    RawAppend(st.memory, Record(text, isSummary, env));
    MaybeSyncedSaves(Appended(st, text, isSummary, env), name);
    RolledUpCounter(MaybeSynced(Appended(st, text, isSummary, env), name), name, env);
  }

  lemma {:induction false} RolledUpCounter(st: Ledger, name: string, env: Oracles)
    requires CounterOk(st)
    ensures CounterOk(RolledUp(st, name, env))
    decreases RawCount(st.memory), 0
  {
    if RawCount(st.memory) > MaxRaw {
      var oldest := Oldest(st.memory);
      RollupShrinks(st.memory);
      AddedCounter(st.(memory := Without(st.memory, oldest)), name, SummaryText(oldest, name, env.llm), true, env);
    }
  }

  /** The graph only grows: rollups remove records but never edges. */
  lemma {:induction false} AddedGrows(st: Ledger, name: string, text: string, isSummary: bool, env: Oracles)
    ensures Subgraph(st.graph, Added(st, name, text, isSummary, env).graph)
    ensures forall a, b :: ParseEdge(text) == Some((a, b)) ==> HasEdge(Added(st, name, text, isSummary, env).graph, a, b)
    decreases RawCount(st.memory) + (if isSummary then 0 else 1), 1
  {
    RawAppend(st.memory, Record(text, isSummary, env));
    UpdateEdges(st.graph, text);
    RolledUpGrows(MaybeSynced(Appended(st, text, isSummary, env), name), name, env);
  }

  lemma {:induction false} RolledUpGrows(st: Ledger, name: string, env: Oracles)
    ensures Subgraph(st.graph, RolledUp(st, name, env).graph)
    decreases RawCount(st.memory), 0
  {
    if RawCount(st.memory) > MaxRaw {
      var oldest := Oldest(st.memory);
      RollupShrinks(st.memory);
      AddedGrows(st.(memory := Without(st.memory, oldest)), name, SummaryText(oldest, name, env.llm), true, env);
    }
  }

  /** Every edge stated by a held record is in the graph. */
  ghost predicate Covers(st: Ledger) {
    Subgraph(GraphOf(Texts(st.memory)), st.graph)
  }

  lemma AppendedCovers(st: Ledger, text: string, isSummary: bool, env: Oracles)
    requires Covers(st)
    ensures Covers(Appended(st, text, isSummary, env))
  {
    var ts := Texts(st.memory + [Record(text, isSummary, env)]);
    TextsAppend(st.memory, Record(text, isSummary, env));
    assert ts[..|ts| - 1] == Texts(st.memory);
    UpdateMonotone(GraphOf(Texts(st.memory)), st.graph, text);
  }

  lemma {:induction false} AddedCovers(st: Ledger, name: string, text: string, isSummary: bool, env: Oracles)
    requires Covers(st)
    ensures Covers(Added(st, name, text, isSummary, env))
    decreases RawCount(st.memory) + (if isSummary then 0 else 1), 1
  {
    RawAppend(st.memory, Record(text, isSummary, env));
    AppendedCovers(st, text, isSummary, env);
    RolledUpCovers(MaybeSynced(Appended(st, text, isSummary, env), name), name, env);
  }

  lemma {:induction false} RolledUpCovers(st: Ledger, name: string, env: Oracles)
    requires Covers(st)
    ensures Covers(RolledUp(st, name, env))
    decreases RawCount(st.memory), 0
  {
    if RawCount(st.memory) > MaxRaw {
      var oldest := Oldest(st.memory);
      RollupShrinks(st.memory);
      var kept := Without(st.memory, oldest);
      TextsWithout(st.memory, oldest);
      GraphOfSubset(Texts(kept), Texts(st.memory));
      AddedCovers(st.(memory := kept), name, SummaryText(oldest, name, env.llm), true, env);
    }
  }

  /** Summary records are never rolled up: every summary held before an
      addition is still held after it. */
  lemma {:induction false} AddedKeepsSummaries(st: Ledger, name: string, text: string, isSummary: bool, env: Oracles)
    ensures forall m :: m in st.memory && m.isSummary ==> m in Added(st, name, text, isSummary, env).memory
    decreases RawCount(st.memory) + (if isSummary then 0 else 1), 1
  {
    RawAppend(st.memory, Record(text, isSummary, env));
    RolledUpKeepsSummaries(MaybeSynced(Appended(st, text, isSummary, env), name), name, env);
  }

  lemma {:induction false} RolledUpKeepsSummaries(st: Ledger, name: string, env: Oracles)
    ensures forall m :: m in st.memory && m.isSummary ==> m in RolledUp(st, name, env).memory
    decreases RawCount(st.memory), 0
  {
    if RawCount(st.memory) > MaxRaw {
      var oldest := Oldest(st.memory);
      RollupShrinks(st.memory);
      var kept := Without(st.memory, oldest);
      assert forall m :: m in oldest ==> !m.isSummary;
      AddedKeepsSummaries(st.(memory := kept), name, SummaryText(oldest, name, env.llm), true, env);
    }
  }

  /** The ledger invariant kept by every operation of the agent. */
  ghost predicate Valid(st: Ledger) {
    RawCount(st.memory) <= MaxRaw && CounterOk(st) && Covers(st)
  }

  lemma AddedValid(st: Ledger, name: string, text: string, isSummary: bool, env: Oracles)
    requires Valid(st)
    ensures Valid(Added(st, name, text, isSummary, env))
  {
    AddedRawBound(st, name, text, isSummary, env);
    AddedCounter(st, name, text, isSummary, env);
    AddedCovers(st, name, text, isSummary, env);
  }

  // ================================================================ trimming

  /** `trim_memory(limit)` as written: `memory[-limit:]`, which for `limit == 0`
      is the whole list. */
  function TrimmedAsWritten(st: Ledger, name: string, limit: int): Ledger {
    if |st.memory| > limit then Synced(st.(memory := SliceFrom(st.memory, -limit)), name) else st
  }

  /** `trim_memory(0)` on a non-empty ledger keeps every record. */
  lemma TrimZeroKeepsAll(st: Ledger, name: string)
    requires st.memory != []
    ensures TrimmedAsWritten(st, name, 0).memory == st.memory
  {
    MinusZeroIsWhole(st.memory);
  }

  /** `trim_memory(limit)` with a negative limit drops the oldest `-limit`
      records and keeps the rest, where keeping the last `limit` keeps none. */
  lemma TrimNegativeDropsOldest(st: Ledger, name: string, limit: int)
    requires limit < 0 && |st.memory| > -limit
    ensures TrimmedAsWritten(st, name, limit).memory == st.memory[-limit..]
    ensures |TrimmedAsWritten(st, name, limit).memory| > 0 && Trimmed(st, name, limit).memory == []
  {
  }

  /** The last `n` records (none when `n <= 0`). */
  function LastN(mems: seq<Memory>, n: int): (r: seq<Memory>)
    ensures |r| == if n <= 0 then 0 else if n <= |mems| then n else |mems|
    ensures r == mems[|mems| - |r|..]
  {
    if n <= 0 then [] else mems[|mems| - (if n <= |mems| then n else |mems|)..]
  }

  /** `trim_memory(limit)` as documented: keep only the most recent `limit`
      records, and sync when something was dropped. */
  function Trimmed(st: Ledger, name: string, limit: int): Ledger {
    if |st.memory| > limit then Synced(st.(memory := LastN(st.memory, limit)), name) else st
  }

  /** The two agree for every positive limit. */
  lemma TrimAgreesForPositive(st: Ledger, name: string, limit: int)
    requires limit >= 1
    ensures TrimmedAsWritten(st, name, limit) == Trimmed(st, name, limit)
  {
    LastK(st.memory, limit);
  }

  /** After trimming at most `limit` records remain, they are the most recent
      ones, and the ledger is saved exactly when something was dropped. */
  lemma TrimKeepsRecent(st: Ledger, name: string, limit: int)
    ensures var r := Trimmed(st, name, limit);
      |r.memory| <= (if limit <= 0 then 0 else limit) || r == st
    ensures var r := Trimmed(st, name, limit);
      r.memory == st.memory[|st.memory| - |r.memory|..]
    ensures |st.memory| > limit ==> Loaded(Trimmed(st, name, limit).files, name) == Ok(Trimmed(st, name, limit).memory)
    ensures |st.memory| <= limit ==> Trimmed(st, name, limit) == st
  {
    if |st.memory| > limit {
      SaveLoadRoundTrip(st.files, name, name, LastN(st.memory, limit));
    }
  }

  /** Dropping older records keeps every remaining edge covered. */
  lemma SuffixCovered(mems: seq<Memory>, j: nat, g: Graph)
    requires j <= |mems| && Subgraph(GraphOf(Texts(mems)), g)
    ensures Subgraph(GraphOf(Texts(mems[j..])), g)
  {
    forall t | t in Texts(mems[j..])
      ensures t in Texts(mems)
    {
      var i :| 0 <= i < |mems| - j && Texts(mems[j..])[i] == t;
      assert Texts(mems)[j + i] == t;
    }
    GraphOfSubset(Texts(mems[j..]), Texts(mems));
  }

  /** Trimming keeps the ledger invariant: fewer raw records, the same graph. */
  lemma TrimmedValid(st: Ledger, name: string, limit: int)
    requires Valid(st)
    ensures Valid(Trimmed(st, name, limit))
  {
    if |st.memory| > limit {
      var kept := LastN(st.memory, limit);
      var j := |st.memory| - |kept|;
      RawSuffix(st.memory, j);
      SuffixCovered(st.memory, j, st.graph);
      var r := Trimmed(st, name, limit);
      assert r.memory == kept && r.graph == st.graph && r.unsynced == 0;
    }
  }

  // ================================================================ embeddings and retrieval

  /** A record with its embedding computed if it had none. */
  function Filled(m: Memory, embed: string -> Embedding): Memory {
    if m.embedding == [] then m.(embedding := embed(m.text)) else m
  }

  /** `_ensure_embeddings(mems)`: every record without an embedding gets one. */
  function WithEmbeddings(mems: seq<Memory>, embed: string -> Embedding): (r: seq<Memory>)
    ensures |r| == |mems|
    ensures forall i :: 0 <= i < |mems| ==> r[i] == Filled(mems[i], embed)
  {
    seq(|mems|, i requires 0 <= i < |mems| => Filled(mems[i], embed))
  }

  lemma FilledSnoc(mems: seq<Memory>, embed: string -> Embedding)
    requires mems != []
    ensures WithEmbeddings(mems, embed)
            == WithEmbeddings(mems[..|mems| - 1], embed) + [Filled(mems[|mems| - 1], embed)]
  {
  }

  /** Filling embeddings keeps the number of raw records. */
  lemma {:induction false} FilledRawCount(mems: seq<Memory>, embed: string -> Embedding)
    ensures RawCount(WithEmbeddings(mems, embed)) == RawCount(mems)
  {
    if mems != [] {
      var init := mems[..|mems| - 1];
      var w := WithEmbeddings(mems, embed);
      FilledRawCount(init, embed);
      FilledSnoc(mems, embed);
      assert w[..|w| - 1] == WithEmbeddings(init, embed);
    }
  }

  /** Filling embeddings changes nothing but empty embeddings, and when the
      embedder never returns an empty vector a second pass does nothing. */
  lemma EmbeddingsOnly(mems: seq<Memory>, embed: string -> Embedding)
    ensures Texts(WithEmbeddings(mems, embed)) == Texts(mems)
    ensures RawCount(WithEmbeddings(mems, embed)) == RawCount(mems)
    ensures forall i :: 0 <= i < |mems| ==>
              WithEmbeddings(mems, embed)[i].timestamp == mems[i].timestamp
              && WithEmbeddings(mems, embed)[i].isSummary == mems[i].isSummary
              && (mems[i].embedding != [] ==> WithEmbeddings(mems, embed)[i] == mems[i])
    ensures (forall t :: embed(t) != []) ==>
              WithEmbeddings(WithEmbeddings(mems, embed), embed) == WithEmbeddings(mems, embed)
  {
    FilledRawCount(mems, embed);
  }

  /** `retrieve_memories(query, top_k)` with the remote search disabled: the
      local top-k texts, de-duplicated and capped. */
  function Retrieved(mems: seq<Memory>, queryVec: Embedding, topK: int,
                     sim: (Embedding, Embedding) -> real): seq<string> {
    Merged([] + LocalResults(mems, queryVec, topK, sim), topK)
  }

  /** No text is retrieved twice, at most `topK` are, and each is the text of
      a held record. */
  lemma RetrievedShape(mems: seq<Memory>, queryVec: Embedding, topK: int,
                       sim: (Embedding, Embedding) -> real)
    ensures var r := Retrieved(mems, queryVec, topK, sim);
      (forall i, j :: 0 <= i < j < |r| ==> r[i] != r[j])
      && (forall t :: t in r ==> t in Texts(mems))
      && (topK >= 1 ==> |r| <= topK)
  {
    var local := LocalResults(mems, queryVec, topK, sim);
    var best := Best(mems, queryVec, topK, sim);
    BestRecords(mems, queryVec, topK, sim);
    assert [] + local == local;
    forall t | t in local ensures t in Texts(mems) {
      var i :| 0 <= i < |local| && local[i] == t;
      assert Texts(mems)[best[i].pos] == t;
    }
  }

  /** The first text retrieved is that of a best-scoring record. */
  lemma RetrievedBest(mems: seq<Memory>, queryVec: Embedding, topK: int,
                      sim: (Embedding, Embedding) -> real)
    requires mems != [] && topK >= 1
    ensures Retrieved(mems, queryVec, topK, sim) != []
    ensures exists p :: BestScoring(mems, queryVec, sim, p) && Retrieved(mems, queryVec, topK, sim)[0] == mems[p].text
  {
    var local := LocalResults(mems, queryVec, topK, sim);
    FirstIsBest(mems, queryVec, topK, sim);
    assert [] + local == local;
    MergedFirst(local, topK);
    assert BestScoring(mems, queryVec, sim, Best(mems, queryVec, topK, sim)[0].pos);
  }

  // ================================================================ the agent

  /** The text `generate_response` records for one exchange. */
  function ExchangeText(userMsg: string, name: string, response: string): string {
    "User: " + userMsg + "\n" + name + ": " + response
  }

  class Agent {
    const name: string
    const personality: string
    const voiceId: string
    /** Where `save_memories` writes. */
    const disk: Disk
    var memory: seq<Memory>
    var graph: Graph
    var unsynced: int

    function State(): Ledger
      reads this, disk
    {
      Ledger(memory, graph, unsynced, disk.files)
    }

    constructor (name: string, personality: string, voiceId: string, disk: Disk)
      ensures this.name == name && this.personality == personality && this.voiceId == voiceId
      ensures this.disk == disk
      ensures State() == Ledger([], map[], 0, disk.files)
      ensures Valid(State())
    {
      this.name := name;
      this.personality := personality;
      this.voiceId := voiceId;
      this.disk := disk;
      memory := [];
      graph := map[];
      unsynced := 0;
    }

    /** `sync_memories` */
    method SyncMemories()
      modifies this, disk
      ensures State() == Synced(old(State()), name)
    {
      disk.SaveMemories(name, memory);
      unsynced := 0;
    }

    /** `_maybe_sync` */
    method MaybeSync()
      modifies this, disk
      ensures State() == MaybeSynced(old(State()), name)
    {
      unsynced := unsynced + 1;
      if unsynced >= SyncEvery {
        SyncMemories();
      }
    }

    /** `trim_memory(limit)`, keeping the last `limit` records. */
    method TrimMemory(limit: int)
      modifies this, disk
      ensures State() == Trimmed(old(State()), name, limit)
    {
      if |memory| > limit {
        memory := LastN(memory, limit);
        SyncMemories();
      }
    }

    /** `_update_graph(text)` */
    method UpdateGraph(text: string)
      modifies this
      ensures State() == old(State()).(graph := GraphUpdate(old(graph), text))
    {
      var edge := ParseEdge(text);
      if edge.Some? {
        var (a, b) := edge.value;
        var succ := if a in graph then graph[a] else {};
        graph := graph[a := succ + {b}];
      }
    }

    /** `rebuild_graph`: the graph of the held texts, built afresh. */
    method RebuildGraph()
      modifies this
      ensures State() == old(State()).(graph := GraphOf(Texts(memory)))
      ensures Covers(State())
    {
      graph := map[];
      var i := 0;
      while i < |memory|
        invariant 0 <= i <= |memory|
        invariant memory == old(memory) && unsynced == old(unsynced)
        invariant graph == GraphOf(Texts(memory[..i]))
      {
        var ts := Texts(memory[..i + 1]);
        assert ts[..i] == Texts(memory[..i]);
        UpdateGraph(memory[i].text);
        i := i + 1;
      }
      TakeAll(memory);
    }

    /** `add_memory(text, is_summary)` */
    method AddMemory(text: string, isSummary: bool, env: Oracles)
      modifies this, disk
      ensures State() == Added(old(State()), name, text, isSummary, env)
      decreases RawCount(memory) + (if isSummary then 0 else 1), 1
    {
      ghost var st0 := State();
      var mem := Record(text, isSummary, env);
      RawAppend(memory, mem);
      memory := memory + [mem];
      UpdateGraph(text);
      assert State() == Appended(st0, text, isSummary, env);
      MaybeSync();
      AutoRollup(env);
    }

    /** `_auto_rollup` */
    method AutoRollup(env: Oracles)
      modifies this, disk
      ensures State() == RolledUp(old(State()), name, env)
      decreases RawCount(memory), 0
    {
      var raw := Raw(memory);
      if |raw| > MaxRaw {
        var oldest := raw[..Chunk];
        var summary := SummariseBlock(Join("\n", Texts(oldest)), name, env.llm);
        RollupShrinks(memory);
        memory := Without(memory, oldest);
        AddMemory(SummaryPrefix + summary, true, env);
      }
    }

    /** `_ensure_embeddings(self.memory)` */
    method EnsureEmbeddings(embed: string -> Embedding)
      modifies this
      ensures State() == old(State()).(memory := WithEmbeddings(old(memory), embed))
    {
      var filled: seq<Memory> := [];
      var i := 0;
      while i < |memory|
        invariant 0 <= i <= |memory|
        invariant filled == WithEmbeddings(memory[..i], embed)
      {
        filled := filled + [Filled(memory[i], embed)];
        i := i + 1;
      }
      TakeAll(memory);
      memory := filled;
    }

    /** `retrieve_memories(query, top_k)` */
    method RetrieveMemories(query: string, topK: int, embed: string -> Embedding,
                            sim: (Embedding, Embedding) -> real) returns (r: seq<string>)
      modifies this
      ensures State() == old(State()).(memory := WithEmbeddings(old(memory), embed))
      ensures r == Retrieved(memory, embed(query), topK, sim)
    {
      var local: seq<string> := [];
      if memory != [] {
        EnsureEmbeddings(embed);
        var qVec := embed(query);
        var ranked := SortByScore(ScoresOf(memory, qVec, sim));
        var best := SliceTo(ranked, topK);
        var mems := memory;
        local := seq(|best|, i requires 0 <= i < |best| =>
                          if best[i].pos < |mems| then mems[best[i].pos].text else "");
      }
      r := MergeResults([], local, topK);
    }

    /** `generate_response(user_msg)`: retrieve, look up the graph, ask the LLM,
        and record the exchange. */
    method GenerateResponse(userMsg: string, env: Oracles, sim: (Embedding, Embedding) -> real,
                            transcripts: map<string, Utterance.TextFile>, show: Json -> string)
      returns (response: string)
      modifies this, disk
      ensures var filled := WithEmbeddings(old(memory), env.embed);
        exists nodes: seq<string> ::
          (forall n :: n in nodes <==> n in Succ(old(graph), Seeds(old(graph), userMsg)))
          && response == Utterance.GenerateUtterance(
               name, personality, userMsg, Join("\n", Retrieved(filled, env.embed(userMsg), ReplyTopK, sim)),
               Join(", ", nodes), transcripts, show, env.llm)
    ensures State() == Added(old(State()).(memory := WithEmbeddings(old(memory), env.embed)),
                             name, ExchangeText(userMsg, name, response), false, env)
    {
      var relevant := RetrieveMemories(userMsg, ReplyTopK, env.embed, sim);
      var nodes := Context(graph, userMsg, 1);
      response := Utterance.GenerateUtterance(name, personality, userMsg, Join("\n", relevant),
                                              Join(", ", nodes), transcripts, show, env.llm);
      AddMemory(ExchangeText(userMsg, name, response), false, env);
    }
  }

  /** Every method of the agent keeps the ledger invariant. */
  lemma OperationsKeepValid(st: Ledger, name: string, text: string, isSummary: bool, limit: int, env: Oracles)
    requires Valid(st)
    ensures Valid(Added(st, name, text, isSummary, env))
    ensures Valid(Synced(st, name))
    ensures Valid(MaybeSynced(st, name))
    ensures Valid(Trimmed(st, name, limit))
    ensures Valid(st.(memory := WithEmbeddings(st.memory, env.embed)))
    ensures Valid(st.(graph := GraphUpdate(st.graph, text)))
    ensures Valid(st.(graph := GraphOf(Texts(st.memory))))
  {
    AddedValid(st, name, text, isSummary, env);
    TrimmedValid(st, name, limit);
    UpdateEdges(st.graph, text);
    MaybeSyncedSaves(st, name);
    EmbeddingsOnly(st.memory, env.embed);
  }
}
