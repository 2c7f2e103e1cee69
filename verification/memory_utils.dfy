/**
 * Disk persistence of an agent's memory list and the summarisation prompts
 * (core/memory_utils.py). The file system is the `Disk` object: a map from
 * path to the parsed JSON document stored there. The language model is the
 * parameter `llm`, the reply text for a given prompt.
 */
module MemoryUtils {
  import opened Wrappers
  import opened Py
  import opened PyJson
  import opened MemoryRecord

  const StorageDir := "memories/"
  const StorageSuffix := "_memories.json"

  /** `_path(name)`: one file per lower-cased agent name. */
  function PathOf(name: string): string {
    StorageDir + Lower(name) + StorageSuffix
  }

  /** Two names share a storage file exactly when they agree up to case. */
  lemma PathSharedIffSameLower(a: string, b: string)
    ensures PathOf(a) == PathOf(b) <==> Lower(a) == Lower(b)
  {
    if PathOf(a) == PathOf(b) {
      var n := |StorageDir|;
      assert |Lower(a)| == |Lower(b)|;
      assert Lower(a) == PathOf(a)[n..n + |Lower(a)|];
      assert Lower(b) == PathOf(b)[n..n + |Lower(b)|];
    }
  }

  // ------------------------------------------------------------ JSON mapping

  const MemoryFields: set<string> := {"text", "timestamp", "embedding", "is_summary"}

  function NumList(e: Embedding): seq<Json> {
    seq(|e|, i requires 0 <= i < |e| => JNum(e[i]))
  }

  function NumsOf(items: seq<Json>): Option<Embedding> {
    if items == [] then Some([])
    else match (items[0], NumsOf(items[1..]))
      case (JNum(x), Some(rest)) => Some([x] + rest)
      case _ => None
  }

  /** `m.__dict__` */
  function ToDict(m: Memory): map<string, Json> {
    map["text" := JStr(m.text), "timestamp" := JNum(m.timestamp),
        "embedding" := JList(NumList(m.embedding)), "is_summary" := JBool(m.isSummary)]
  }

  /** `Memory(**d)`: the required fields must be present, no unknown field may
      be, and `embedding`/`is_summary` take their defaults when absent. A value
      of the wrong JSON kind is refused (None) rather than stored. */
  function FromDict(d: map<string, Json>): (r: Option<Memory>)
    ensures r.Some? ==> "text" in d && "timestamp" in d && d.Keys <= MemoryFields
    ensures r.Some? ==> d["text"] == JStr(r.value.text) && d["timestamp"] == JNum(r.value.timestamp)
    ensures r.Some? && "is_summary" !in d ==> !r.value.isSummary
    ensures r.Some? && "embedding" !in d ==> r.value.embedding == []
  {
    if !("text" in d && "timestamp" in d && d.Keys <= MemoryFields) then None
    else match (d["text"], d["timestamp"], Get(d, "embedding", JList([])), Get(d, "is_summary", JBool(false)))
      case (JStr(t), JNum(ts), JList(items), JBool(b)) =>
        (match NumsOf(items)
         case Some(e) => Some(Memory(t, ts, e, b))
         case None => None)
      case _ => None
  }

  lemma {:induction false} NumsRoundTrip(e: Embedding)
    ensures NumsOf(NumList(e)) == Some(e)
    decreases |e|
  {
    if e != [] {
      var l := NumList(e);
      assert l[0] == JNum(e[0]) && l[1..] == NumList(e[1..]);
      NumsRoundTrip(e[1..]);
      assert e == [e[0]] + e[1..];
    }
  }

  /** A JSON list reads as an embedding exactly when every item is a number,
      and then it is that embedding written out. */
  lemma {:induction false} NumsOfExact(items: seq<Json>)
    ensures NumsOf(items).Some? <==> forall i :: 0 <= i < |items| ==> items[i].JNum?
    ensures NumsOf(items).Some? ==> NumList(NumsOf(items).value) == items
    decreases |items|
  {
    if items != [] {
      NumsOfExact(items[1..]);
      assert forall i :: 1 <= i < |items| ==> items[i] == items[1..][i - 1];
      if NumsOf(items).Some? {
        var e := NumsOf(items).value;
        assert NumList(e)[0] == items[0];
        assert NumList(e)[1..] == NumList(e[1..]);
        assert e[1..] == NumsOf(items[1..]).value;
        assert NumList(e) == [NumList(e)[0]] + NumList(e)[1..];
        assert items == [items[0]] + items[1..];
      }
    }
  }

  /** `Memory(**d)` accepts exactly the dictionaries with a string text, a
      numeric timestamp, no unknown key, an optional list of numbers as
      embedding and an optional boolean flag, and keeps every given value. */
  lemma FromDictExact(d: map<string, Json>)
    ensures FromDict(d).Some? <==>
      "text" in d && d["text"].JStr? && "timestamp" in d && d["timestamp"].JNum? && d.Keys <= MemoryFields
      && ("embedding" in d ==>
            d["embedding"].JList? && forall i :: 0 <= i < |d["embedding"].items| ==> d["embedding"].items[i].JNum?)
      && ("is_summary" in d ==> d["is_summary"].JBool?)
    ensures FromDict(d).Some? && "embedding" in d ==> d["embedding"] == JList(NumList(FromDict(d).value.embedding))
    ensures FromDict(d).Some? && "is_summary" in d ==> d["is_summary"] == JBool(FromDict(d).value.isSummary)
  {
    if "embedding" in d && d["embedding"].JList? {
      NumsOfExact(d["embedding"].items);
    }
    NumsOfExact([]);
  }

  lemma DictRoundTrip(m: Memory)
    ensures FromDict(ToDict(m)) == Some(m)
  {
    NumsRoundTrip(m.embedding);
  }

  /** The JSON array `save_memories` writes. */
  function Encode(mems: seq<Memory>): Json {
    JList(seq(|mems|, i requires 0 <= i < |mems| => JObj(ToDict(mems[i]))))
  }

  function DecodeItems(items: seq<Json>): Result<seq<Memory>> {
    if items == [] then Ok([])
    else match (items[0], DecodeItems(items[1..]))
      case (JObj(d), Ok(rest)) =>
        (match FromDict(d)
         case Some(m) => Ok([m] + rest)
         case None => Err("TypeError"))
      case (JObj(_), Err(e)) => Err(e)
      case _ => Err("TypeError")
  }

  /** `[Memory(**d) for d in data]`. Iterating a dict visits its keys and a
      string its characters, so an empty dict or string loads as no records
      while a non-empty one raises at `Memory(**key)`; a number, a boolean or
      null is not iterable. */
  function Decode(doc: Json): (r: Result<seq<Memory>>)
    ensures doc == JList([]) || doc == JObj(map[]) || doc == JStr("") ==> r == Ok([])
    ensures doc.JNull? || doc.JBool? || doc.JNum? ==> r.Err?
    ensures (doc.JObj? && doc.fields != map[]) || (doc.JStr? && doc.s != "") ==> r.Err?
  {
    match doc
    case JList(items) => DecodeItems(items)
    case JObj(fields) => if fields == map[] then Ok([]) else Err("TypeError")
    case JStr(s) => if s == "" then Ok([]) else Err("TypeError")
    case _ => Err("TypeError")
  }

  // ------------------------------------------------------------ file state

  /** The files after `save_memories`: the agent's file is overwritten. */
  function Saved(files: map<string, Json>, name: string, mems: seq<Memory>): map<string, Json> {
    files[PathOf(name) := Encode(mems)]
  }

  /** What `load_memories` returns for the given file state. */
  function Loaded(files: map<string, Json>, name: string): (r: Result<seq<Memory>>)
    ensures PathOf(name) !in files ==> r == Ok([])
  {
    if PathOf(name) !in files then Ok([]) else Decode(files[PathOf(name)])
  }

  lemma {:induction false} DecodeEncoded(mems: seq<Memory>)
    ensures Decode(Encode(mems)) == Ok(mems)
    decreases |mems|
  {
    if mems != [] {
      DictRoundTrip(mems[0]);
      var items := Encode(mems).items;
      assert items[0] == JObj(ToDict(mems[0]));
      assert items[1..] == Encode(mems[1..]).items;
      DecodeEncoded(mems[1..]);
      assert DecodeItems(items[1..]) == Ok(mems[1..]);
      assert mems == [mems[0]] + mems[1..];
    }
  }

  /** Saving then loading (under any spelling of the name that agrees up to
      case) gives back exactly the saved list, in order. */
  lemma SaveLoadRoundTrip(files: map<string, Json>, name: string, other: string, mems: seq<Memory>)
    requires Lower(other) == Lower(name)
    ensures Loaded(Saved(files, name, mems), other) == Ok(mems)
  {
    DecodeEncoded(mems);
  }

  /** A save discards the earlier content of the file, and no other agent's file changes. */
  lemma SaveOverwrites(files: map<string, Json>, name: string, other: string, before: seq<Memory>, mems: seq<Memory>)
    ensures Loaded(Saved(Saved(files, name, before), name, mems), name) == Ok(mems)
    ensures Lower(other) != Lower(name) ==> Loaded(Saved(files, name, mems), other) == Loaded(files, other)
  {
    SaveLoadRoundTrip(Saved(files, name, before), name, name, mems);
    PathSharedIffSameLower(name, other);
  }

  /** The file system as seen by the persistence helpers. */
  class Disk {
    var files: map<string, Json>

    constructor (initial: map<string, Json>)
      ensures files == initial
    {
      files := initial;
    }

    /** `save_memories(agent)` */
    method SaveMemories(name: string, mems: seq<Memory>)
      modifies this
      ensures files == Saved(old(files), name, mems)
    {
      files := files[PathOf(name) := Encode(mems)];
    }

    /** `load_memories(name)`: an error result stands for the exception raised
        on a malformed file. */
    method LoadMemories(name: string) returns (r: Result<seq<Memory>>)
      ensures r == Loaded(files, name)
      ensures PathOf(name) !in files ==> r == Ok([])
    {
      var p := PathOf(name);
      if p !in files {
        return Ok([]);
      }
      r := Decode(files[p]);
    }
  }

  // ------------------------------------------------------------ summaries

  /** The prompt `llm_summarise_block` sends. */
  function SummarisePrompt(agentName: string, block: string): string {
    "You are helping " + agentName + " condense memories.\n"
    + "Rewrite the following block into 3\U{2013}4 concise sentences:\n\n"
    + block + "\n\nSummary:"
  }

  lemma SummarisePromptMentions(agentName: string, block: string)
    ensures Contains(SummarisePrompt(agentName, block), agentName)
    ensures Contains(SummarisePrompt(agentName, block), block)
  {
    var p := SummarisePrompt(agentName, block);
    var head := "You are helping ";
    var mid := " condense memories.\n" + "Rewrite the following block into 3\U{2013}4 concise sentences:\n\n";
    var tail := "\n\nSummary:";
    assert p == head + agentName + (mid + block + tail);
    ContainsInfix(head, agentName, mid + block + tail);
    assert p == (head + agentName + mid) + block + tail;
    ContainsInfix(head + agentName + mid, block, tail);
  }

  /** `llm_summarise_block(block, agent_name=...)` */
  function SummariseBlock(block: string, agentName: string, llm: string -> string): string {
    llm(SummarisePrompt(agentName, block))
  }

  /** `summarize_recent(agent, window)` */
  function SummarizeRecent(agentName: string, mems: seq<Memory>, window: int, llm: string -> string): (r: string)
    ensures mems == [] ==> r == "No memories yet."
  {
    if mems == [] then "No memories yet."
    else SummariseBlock(Join("\n", Texts(SliceFrom(mems, -window))), agentName, llm)
  }

  /** For a positive window the block is the newline-join of the last
      `min(window, |mems|)` texts, oldest first; a window of 0 takes them all. */
  lemma SummarizeRecentWindow(agentName: string, mems: seq<Memory>, window: int, llm: string -> string)
    requires mems != [] && window >= 0
    ensures var k := if window == 0 || window > |mems| then |mems| else window;
            SummarizeRecent(agentName, mems, window, llm)
            == llm(SummarisePrompt(agentName, Join("\n", Texts(mems[|mems| - k..]))))
  {
  }
}
