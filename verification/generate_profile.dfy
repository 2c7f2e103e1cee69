/**
 * The transcript-to-profile pipeline of generate_profile.py: a greedy
 * sentence chunker under a token budget, memory extraction over the chunks
 * with first-occurrence de-duplication on a normalised key, the tail trim of
 * a text to a token budget, and the fallback for a malformed style guide.
 *
 * The tokenizer (`count`, `encode`, `decode`), the sentence splitter, the
 * chat model and JSON parsing are parameters.
 */
module GenerateProfile {
  import opened Wrappers
  import opened Py
  import opened PyJson
  import Utterance

  const MaxModelTokens := 8192
  const DefaultChunkTokens := 6000

  const MemoryPromptSystem :=
    "You are a knowledge engineer. Extract atomic factual memories about the speaker. "
    + "Each memory must be a single declarative sentence about a stable fact, preference, skill, event, or belief. "
    + "Return ONLY valid JSON in the following schema: "
    + "[{\"memory\": <string>, \"type\": <'biographical'|'preference'|'skill'|'belief'|'event'>, \"tags\": [<string>, ...]}]"

  // ================================================================ chunking

  /** The summed token counts of a group of sentences. */
  function Tokens(g: seq<string>, count: string -> nat): nat {
    if g == [] then 0 else Tokens(g[..|g| - 1], count) + count(g[|g| - 1])
  }

  function Flatten(gs: seq<seq<string>>): seq<string> {
    if gs == [] then [] else Flatten(gs[..|gs| - 1]) + gs[|gs| - 1]
  }

  /** Each group as the chunk text `" ".join(group)`. */
  function Joined(gs: seq<seq<string>>): (r: seq<string>)
    ensures |r| == |gs|
  {
    seq(|gs|, i requires 0 <= i < |gs| => Join(" ", gs[i]))
  }

  /** The chunker's loop state: emitted groups, the open group and its tokens. */
  datatype Scan = Scan(done: seq<seq<string>>, current: seq<string>, tokens: int)

  /** One sentence: close the open group when the sentence would overflow it. */
  function Step(s: Scan, sentence: string, maxTokens: int, count: string -> nat): Scan {
    var t := count(sentence);
    if s.tokens + t > maxTokens && s.current != [] then Scan(s.done + [s.current], [sentence], t)
    else Scan(s.done, s.current + [sentence], s.tokens + t)
  }

  function Scanned(sentences: seq<string>, maxTokens: int, count: string -> nat): Scan {
    if sentences == [] then Scan([], [], 0)
    else Step(Scanned(sentences[..|sentences| - 1], maxTokens, count), sentences[|sentences| - 1], maxTokens, count)
  }

  /** The groups `chunk_text` joins into chunks. */
  function Groups(sentences: seq<string>, maxTokens: int, count: string -> nat): seq<seq<string>> {
    var s := Scanned(sentences, maxTokens, count);
    s.done + (if s.current != [] then [s.current] else [])
  }

  /** Within budget, or a single sentence. */
  predicate Fits(g: seq<string>, maxTokens: int, count: string -> nat) {
    Tokens(g, count) <= maxTokens || |g| <= 1
  }

  function NextGroup(s: Scan, i: nat): seq<string>
    requires i < |s.done|
  {
    if i + 1 < |s.done| then s.done[i + 1] else s.current
  }

  /** What the chunker's loop keeps true after reading `sentences`. */
  ghost predicate ScanOk(s: Scan, sentences: seq<string>, maxTokens: int, count: string -> nat) {
    && Flatten(s.done) + s.current == sentences
    && s.tokens == Tokens(s.current, count)
    && (s.current == [] <==> sentences == [])
    && (forall i :: 0 <= i < |s.done| ==> s.done[i] != [] && Fits(s.done[i], maxTokens, count))
    && Fits(s.current, maxTokens, count)
    && (forall i :: 0 <= i < |s.done| ==>
          NextGroup(s, i) != [] && Tokens(s.done[i], count) + count(NextGroup(s, i)[0]) > maxTokens)
  }

  lemma TokensSingle(x: string, count: string -> nat)
    ensures Tokens([x], count) == count(x)
  {
    assert [x][..0] == [];
  }

  lemma StepOk(s: Scan, sentences: seq<string>, x: string, maxTokens: int, count: string -> nat)
    requires ScanOk(s, sentences, maxTokens, count)
    ensures ScanOk(Step(s, x, maxTokens, count), sentences + [x], maxTokens, count)
  {
    if s.tokens + count(x) > maxTokens && s.current != [] {
      StepCloses(s, sentences, x, maxTokens, count);
    } else {
      StepExtends(s, sentences, x, maxTokens, count);
    }
  }

  /** An overflowing sentence closes the open group and opens a new one. */
  lemma StepCloses(s: Scan, sentences: seq<string>, x: string, maxTokens: int, count: string -> nat)
    requires ScanOk(s, sentences, maxTokens, count)
    requires s.tokens + count(x) > maxTokens && s.current != []
    ensures ScanOk(Scan(s.done + [s.current], [x], count(x)), sentences + [x], maxTokens, count)
  {
    var s' := Scan(s.done + [s.current], [x], count(x));
    TokensSingle(x, count);
    assert (s.done + [s.current])[..|s.done|] == s.done;
    assert Flatten(s'.done) == Flatten(s.done) + s.current;
    assert Flatten(s'.done) + s'.current == sentences + [x];
    forall i | 0 <= i < |s'.done|
      ensures NextGroup(s', i) != [] && Tokens(s'.done[i], count) + count(NextGroup(s', i)[0]) > maxTokens
    {
      if i < |s.done| {
        assert NextGroup(s', i) == NextGroup(s, i);
      }
    }
  }

  /** A sentence that fits, or the first one, joins the open group. */
  lemma StepExtends(s: Scan, sentences: seq<string>, x: string, maxTokens: int, count: string -> nat)
    requires ScanOk(s, sentences, maxTokens, count)
    requires !(s.tokens + count(x) > maxTokens && s.current != [])
    ensures ScanOk(Scan(s.done, s.current + [x], s.tokens + count(x)), sentences + [x], maxTokens, count)
  {
    var s' := Scan(s.done, s.current + [x], s.tokens + count(x));
    assert (s.current + [x])[..|s.current|] == s.current;
    assert Flatten(s'.done) + s'.current == sentences + [x];
    forall i | 0 <= i < |s'.done|
      ensures NextGroup(s', i) != [] && Tokens(s'.done[i], count) + count(NextGroup(s', i)[0]) > maxTokens
    {
      if i + 1 == |s.done| {
        assert NextGroup(s', i)[0] == NextGroup(s, i)[0];
      }
    }
  }

  lemma {:induction false} ScannedOk(sentences: seq<string>, maxTokens: int, count: string -> nat)
    ensures ScanOk(Scanned(sentences, maxTokens, count), sentences, maxTokens, count)
    decreases |sentences|
  {
    if sentences != [] {
      var init := sentences[..|sentences| - 1];
      ScannedOk(init, maxTokens, count);
      StepOk(Scanned(init, maxTokens, count), init, sentences[|sentences| - 1], maxTokens, count);
      assert init + [sentences[|sentences| - 1]] == sentences;
    }
  }

  /** `chunk_text`'s groups hold every sentence once, in order; none is empty;
      each is within budget unless it is one sentence; and each was closed
      only because the next sentence would have overflowed it. */
  lemma ChunkGroups(sentences: seq<string>, maxTokens: int, count: string -> nat)
    ensures Flatten(Groups(sentences, maxTokens, count)) == sentences
    ensures (Groups(sentences, maxTokens, count) == []) == (sentences == [])
    ensures var gs := Groups(sentences, maxTokens, count);
      forall i :: 0 <= i < |gs| ==> gs[i] != [] && Fits(gs[i], maxTokens, count)
    ensures var gs := Groups(sentences, maxTokens, count);
      forall i :: 0 <= i < |gs| - 1 ==> Tokens(gs[i], count) + count(gs[i + 1][0]) > maxTokens
  {
    var s := Scanned(sentences, maxTokens, count);
    ScannedOk(sentences, maxTokens, count);
    var gs := Groups(sentences, maxTokens, count);
    if s.current != [] {
      assert gs[..|s.done|] == s.done;
      forall i | 0 <= i < |gs| - 1 ensures Tokens(gs[i], count) + count(gs[i + 1][0]) > maxTokens {
        assert gs[i + 1] == NextGroup(s, i);
      }
    }
  }

  lemma {:induction false} JoinConcat(sep: string, a: seq<string>, b: seq<string>)
    requires a != [] && b != []
    ensures Join(sep, a + b) == Join(sep, a) + sep + Join(sep, b)
    decreases |b|
  {
    if |b| == 1 {
      assert b == [b[0]];
      JoinAppend(sep, a, b[0]);
    } else {
      var init, last := b[..|b| - 1], b[|b| - 1];
      assert a + b == (a + init) + [last];
      JoinAppend(sep, a + init, last);
      JoinConcat(sep, a, init);
      JoinAppend(sep, init, last);
      assert init + [last] == b;
    }
  }

  lemma {:induction false} JoinFlatten(gs: seq<seq<string>>)
    requires forall i :: 0 <= i < |gs| ==> gs[i] != []
    ensures Join(" ", Joined(gs)) == Join(" ", Flatten(gs))
    decreases |gs|
  {
    if gs != [] {
      var init, last := gs[..|gs| - 1], gs[|gs| - 1];
      JoinFlatten(init);
      assert Joined(gs) == Joined(init) + [Join(" ", last)];
      if init == [] {
        assert Flatten(gs) == last;
      } else {
        JoinAppend(" ", Joined(init), Join(" ", last));
        FlattenNonEmpty(init);
        JoinConcat(" ", Flatten(init), last);
      }
    }
  }

  lemma {:induction false} FlattenNonEmpty(gs: seq<seq<string>>)
    requires gs != [] && forall i :: 0 <= i < |gs| ==> gs[i] != []
    ensures Flatten(gs) != []
  {
  }

  /** Joining the chunks with " " gives back the sentences joined with " ". */
  lemma ChunksRejoin(sentences: seq<string>, maxTokens: int, count: string -> nat)
    ensures Join(" ", Joined(Groups(sentences, maxTokens, count))) == Join(" ", sentences)
  {
    ChunkGroups(sentences, maxTokens, count);
    JoinFlatten(Groups(sentences, maxTokens, count));
  }

  /** `chunk_text(text, max_tokens)`; `split` is the sentence splitter. */
  method ChunkText(text: string, maxTokens: int, split: string -> seq<string>, count: string -> nat)
    returns (chunks: seq<string>)
    ensures chunks == Joined(Groups(split(text), maxTokens, count))
  {
    var sentences := split(text);
    chunks := [];
    var current: seq<string> := [];
    var tokensSoFar := 0;
    ghost var done: seq<seq<string>> := [];
    var i := 0;
    while i < |sentences|
      invariant 0 <= i <= |sentences|
      invariant Scanned(sentences[..i], maxTokens, count) == Scan(done, current, tokensSoFar)
      invariant chunks == Joined(done)
    {
      TakeNext(sentences, i);
      var t := count(sentences[i]);
      if tokensSoFar + t > maxTokens && current != [] {
        chunks := chunks + [Join(" ", current)];
        done := done + [current];
        current, tokensSoFar := [sentences[i]], t;
      } else {
        current := current + [sentences[i]];
        tokensSoFar := tokensSoFar + t;
      }
      i := i + 1;
    }
    TakeAll(sentences);
    if current != [] {
      chunks := chunks + [Join(" ", current)];
    }
  }

  // ================================================================ memory extraction

  /** `str(m.get("memory", "")).strip()` */
  function MemoryText(d: map<string, Json>, show: Json -> string): string {
    Strip(Show(Get(d, "memory", JStr("")), show))
  }

  /** The de-duplication key: whitespace runs collapsed, lower-cased. */
  function MemoryKey(d: map<string, Json>, show: Json -> string): string {
    Lower(CollapseSpaces(MemoryText(d, show)))
  }

  /** The de-duplication loop over entries with text `text` and key `key`:
      the entries kept and the keys seen. */
  function Deduped<T>(ds: seq<T>, text: T -> string, key: T -> string): (seq<T>, set<string>) {
    if ds == [] then ([], {})
    else
      var prev := Deduped(ds[..|ds| - 1], text, key);
      var d := ds[|ds| - 1];
      if text(d) != "" && key(d) !in prev.1 then (prev.0 + [d], prev.1 + {key(d)})
      else prev
  }

  /** The keys seen are the keys of the entries with a text. */
  ghost predicate SeenKeys<T>(ds: seq<T>, seen: set<string>, text: T -> string, key: T -> string) {
    forall k :: k in seen <==> exists q :: 0 <= q < |ds| && text(ds[q]) != "" && key(ds[q]) == k
  }

  lemma DedupedSnoc<T>(ds: seq<T>, d: T, text: T -> string, key: T -> string)
    ensures var prev := Deduped(ds, text, key);
      Deduped(ds + [d], text, key) ==
        if text(d) != "" && key(d) !in prev.1 then (prev.0 + [d], prev.1 + {key(d)})
        else prev
  {
    assert (ds + [d])[..|ds|] == ds;
  }

  /** The keys seen are exactly the keys of the entries with a text. */
  lemma {:induction false} DedupedSeen<T>(ds: seq<T>, text: T -> string, key: T -> string)
    ensures SeenKeys(ds, Deduped(ds, text, key).1, text, key)
    decreases |ds|
  {
    if ds != [] {
      var init, d := ds[..|ds| - 1], ds[|ds| - 1];
      DedupedSeen(init, text, key);
      assert init + [d] == ds;
      DedupedSnoc(init, d, text, key);
      var prev := Deduped(init, text, key);
      forall k ensures k in Deduped(ds, text, key).1 <==>
        exists q :: 0 <= q < |ds| && text(ds[q]) != "" && key(ds[q]) == k
      {
        if exists q :: 0 <= q < |ds| && text(ds[q]) != "" && key(ds[q]) == k {
          var q :| 0 <= q < |ds| && text(ds[q]) != "" && key(ds[q]) == k;
          if q < |init| {
            assert init[q] == ds[q];
          }
        }
        if k in prev.1 {
          var q :| 0 <= q < |init| && text(init[q]) != "" && key(init[q]) == k;
          assert ds[q] == init[q];
        }
      }
    }
  }

  /** The kept entries are an in-order subsequence of the input. */
  lemma {:induction false} DedupedSubseq<T>(ds: seq<T>, text: T -> string, key: T -> string)
    ensures IsSubseq(Deduped(ds, text, key).0, ds)
    decreases |ds|
  {
    if ds != [] {
      var init, d := ds[..|ds| - 1], ds[|ds| - 1];
      DedupedSubseq(init, text, key);
      assert init + [d] == ds;
      DedupedSnoc(init, d, text, key);
      var prev := Deduped(init, text, key);
      if text(d) != "" && key(d) !in prev.1 {
        SubseqSnoc(prev.0, init, d);
      } else {
        SubseqExtend(prev.0, init, d);
      }
    }
  }

  /** Every kept entry has a text, its key is seen, and no two share a key. */
  lemma {:induction false} DedupedDistinct<T>(ds: seq<T>, text: T -> string, key: T -> string)
    ensures var kept := Deduped(ds, text, key).0;
      forall i :: 0 <= i < |kept| ==> text(kept[i]) != "" && key(kept[i]) in Deduped(ds, text, key).1
    ensures var kept := Deduped(ds, text, key).0;
      forall i, j :: 0 <= i < j < |kept| ==> key(kept[i]) != key(kept[j])
    decreases |ds|
  {
    if ds != [] {
      var init, d := ds[..|ds| - 1], ds[|ds| - 1];
      DedupedDistinct(init, text, key);
      assert init + [d] == ds;
      DedupedSnoc(init, d, text, key);
      var prev := Deduped(init, text, key);
      var kept := Deduped(ds, text, key).0;
      if text(d) != "" && key(d) !in prev.1 {
        forall i, j | 0 <= i < j < |kept| ensures key(kept[i]) != key(kept[j]) {
          if j == |kept| - 1 {
            assert kept[i] == prev.0[i];
          } else {
            assert kept[i] == prev.0[i] && kept[j] == prev.0[j];
          }
        }
      }
    }
  }

  /** The first entry with a text under each key is kept. */
  lemma {:induction false} DedupedKeepsFirst<T>(ds: seq<T>, text: T -> string, key: T -> string)
    ensures forall p :: 0 <= p < |ds| && text(ds[p]) != ""
                        && (forall q :: 0 <= q < p && text(ds[q]) != "" ==> key(ds[q]) != key(ds[p]))
                        ==> ds[p] in Deduped(ds, text, key).0
    decreases |ds|
  {
    if ds != [] {
      var init, d := ds[..|ds| - 1], ds[|ds| - 1];
      DedupedKeepsFirst(init, text, key);
      DedupedSeen(init, text, key);
      assert init + [d] == ds;
      DedupedSnoc(init, d, text, key);
      var prev := Deduped(init, text, key);
      var kept := Deduped(ds, text, key).0;
      assert forall m :: m in prev.0 ==> m in kept;
      forall p | 0 <= p < |ds| && text(ds[p]) != ""
                 && (forall q :: 0 <= q < p && text(ds[q]) != "" ==> key(ds[q]) != key(ds[p]))
        ensures ds[p] in kept
      {
        if p < |init| {
          assert init[p] == ds[p];
          assert forall q :: 0 <= q < p ==> init[q] == ds[q];
        } else {
          forall q | 0 <= q < |init| && text(init[q]) != "" ensures key(init[q]) != key(d) {
            assert init[q] == ds[q];
          }
        }
      }
    }
  }

  /** `all_memories`: the items of every batch that parsed to a list, in chunk
      order; a batch that did not parse (`None`) or is not a list is skipped. */
  function Collected(batches: seq<Option<Json>>): seq<Json> {
    if batches == [] then []
    else
      var last := batches[|batches| - 1];
      Collected(batches[..|batches| - 1]) + (if last.Some? && last.value.JList? then last.value.items else [])
  }

  lemma CollectedNext(batches: seq<Option<Json>>, i: nat)
    requires i < |batches|
    ensures Collected(batches[..i + 1]) == Collected(batches[..i])
      + (if batches[i].Some? && batches[i].value.JList? then batches[i].value.items else [])
  {
    TakeNext(batches, i);
  }

  /** The entries as dicts; None when one is not a dict (`m.get` raises). */
  function Dicts(items: seq<Json>): (r: Option<seq<map<string, Json>>>)
    ensures r.Some? ==> |r.value| == |items| && forall i :: 0 <= i < |items| ==> items[i] == JObj(r.value[i])
    ensures r.None? <==> exists j :: j in items && !j.JObj?
  {
    if items == [] then Some([])
    else
      var last := items[|items| - 1];
      match Dicts(items[..|items| - 1])
      case None => None
      case Some(ds) => if last.JObj? then Some(ds + [last.fields]) else None
  }

  /** The de-duplication of memory dicts by their text and key. */
  function Unique(ds: seq<map<string, Json>>, show: Json -> string): (seq<map<string, Json>>, set<string>) {
    Deduped(ds, d => MemoryText(d, show), d => MemoryKey(d, show))
  }

  lemma UniqueSnoc(ds: seq<map<string, Json>>, d: map<string, Json>, show: Json -> string)
    ensures var prev := Unique(ds, show);
      Unique(ds + [d], show) ==
        if MemoryText(d, show) != "" && MemoryKey(d, show) !in prev.1
        then (prev.0 + [d], prev.1 + {MemoryKey(d, show)})
        else prev
  {
    DedupedSnoc(ds, d, d => MemoryText(d, show), d => MemoryKey(d, show));
  }

  /** The result of `extract_memories` from the collected entries. */
  function ExtractedFrom(all: seq<Json>, show: Json -> string): Result<seq<map<string, Json>>> {
    match Dicts(all)
    case None => Err("'memory' entry is not a dict")
    case Some(ds) => Ok(Unique(ds, show).0)
  }

  /** `extract_memories` from the parsed reply to each chunk. */
  function Extracted(batches: seq<Option<Json>>, show: Json -> string): Result<seq<map<string, Json>>> {
    ExtractedFrom(Collected(batches), show)
  }

  /** The parsed reply of the chat model to each chunk. */
  function BatchesOf(chunks: seq<string>, chat: (string, string) -> string, parse: string -> Option<Json>)
    : (r: seq<Option<Json>>)
    ensures |r| == |chunks|
  {
    seq(|chunks|, i requires 0 <= i < |chunks| => parse(chat(MemoryPromptSystem, chunks[i])))
  }

  /** `extract_memories(transcript, chunk_tokens)`: `chat(system, user)` is the
      model call and `parse` is `json.loads` (`None` for a decode error). */
  method ExtractMemories(transcript: string, chunkTokens: int, split: string -> seq<string>,
                         count: string -> nat, chat: (string, string) -> string,
                         parse: string -> Option<Json>, show: Json -> string)
    returns (r: Result<seq<map<string, Json>>>)
    ensures r == Extracted(BatchesOf(Joined(Groups(split(transcript), chunkTokens, count)), chat, parse), show)
  {
    var chunks := ChunkText(transcript, chunkTokens, split, count);
    ghost var batches := BatchesOf(chunks, chat, parse);
    var all: seq<Json> := [];
    var i := 0;
    while i < |chunks|
      invariant 0 <= i <= |chunks|
      invariant all == Collected(batches[..i])
    {
      var batch := parse(chat(MemoryPromptSystem, chunks[i]));
      assert batches[i] == batch;
      CollectedNext(batches, i);
      if batch.Some? && batch.value.JList? {
        all := all + batch.value.items;
      }
      i := i + 1;
    }
    TakeAll(batches);
    r := Deduplicate(all, show);
  }

  /** The de-duplication loop of `extract_memories`. */
  method Deduplicate(all: seq<Json>, show: Json -> string) returns (r: Result<seq<map<string, Json>>>)
    ensures r == ExtractedFrom(all, show)
  {
    var seen: set<string> := {};
    var unique: seq<map<string, Json>> := [];
    var i := 0;
    while i < |all|
      invariant 0 <= i <= |all|
      invariant Dicts(all[..i]).Some?
      invariant Unique(Dicts(all[..i]).value, show) == (unique, seen)
    {
      TakeNext(all, i);
      var m := all[i];
      if !m.JObj? {
        assert m in all;
        return Err("'memory' entry is not a dict");
      }
      ghost var ds := Dicts(all[..i]).value;
      assert Dicts(all[..i + 1]).value == ds + [m.fields];
      UniqueSnoc(ds, m.fields, show);
      var text := MemoryText(m.fields, show);
      var key := MemoryKey(m.fields, show);
      if text != "" && key !in seen {
        seen := seen + {key};
        unique := unique + [m.fields];
      }
      i := i + 1;
    }
    TakeAll(all);
    r := Ok(unique);
  }

  // ================================================================ trimming and fallback

  /** `trim_to_token_limit(text, max_tokens)` */
  function TrimToTokenLimit(text: string, maxTokens: int, encode: string -> seq<int>,
                            decode: seq<int> -> string): string {
    var tokens := encode(text);
    if |tokens| <= maxTokens then text else decode(SliceFrom(tokens, -maxTokens))
  }

  /** Within budget the text is kept as it is; over a positive budget it is
      the decoding of exactly its last `maxTokens` tokens; a zero budget
      slices from `-0`, which keeps every token. */
  lemma TrimKeepsTail(text: string, maxTokens: int, encode: string -> seq<int>, decode: seq<int> -> string)
    ensures |encode(text)| <= maxTokens ==> TrimToTokenLimit(text, maxTokens, encode, decode) == text
    ensures maxTokens >= 1 && |encode(text)| > maxTokens ==>
      var tokens := encode(text);
      TrimToTokenLimit(text, maxTokens, encode, decode) == decode(tokens[|tokens| - maxTokens..])
    ensures maxTokens == 0 && |encode(text)| > 0 ==>
      TrimToTokenLimit(text, maxTokens, encode, decode) == decode(encode(text))
  {
    if maxTokens >= 1 {
      LastK(encode(text), maxTokens);
    } else if maxTokens == 0 {
      MinusZeroIsWhole(encode(text));
    }
  }

  /** The utterance guide of `main`: the parsed reply, or the stripped raw
      reply as the style guide with no sample phrases. */
  function UtteranceGuide(raw: string, parse: string -> Option<Json>): Json {
    match parse(raw)
    case Some(j) => j
    case None => JObj(map["style_guide" := JStr(Strip(raw)), "sample_phrases" := JList([])])
  }

  lemma StripNewline(t: string)
    requires t == [] || (!IsSpace(t[0]) && !IsSpace(t[|t| - 1]))
    ensures Strip(t + "\n") == t
  {
    assert IsSpace('\n');
    if t == [] {
      assert LStrip("\n") == LStrip("\n"[1..]);
    } else {
      assert LStrip(t + "\n") == t + "\n";
      assert (t + "\n")[..|t|] == t;
      assert RStrip(t + "\n") == RStrip(t);
    }
  }

  /** A malformed guide becomes a document that the transcript loader reads
      back as the stripped raw reply. */
  lemma FallbackGuideLoads(raw: string, parse: string -> Option<Json>, show: Json -> string)
    requires parse(raw).None?
    ensures UtteranceGuide(raw, parse).JObj?
    ensures UtteranceGuide(raw, parse).fields.Keys == {"style_guide", "sample_phrases"}
    ensures UtteranceGuide(raw, parse).fields["sample_phrases"] == JList([])
    ensures Utterance.StyleText(UtteranceGuide(raw, parse), show) == Some(Strip(raw))
  {
    var doc := map["style_guide" := JStr(Strip(raw)), "sample_phrases" := JList([])];
    assert UtteranceGuide(raw, parse) == JObj(doc);
    Utterance.StyleDocumentBare(Strip(raw), show);
    StripNewline(Strip(raw));
  }
}
