# AugTwins core, modelled in Dafny

AugTwins builds conversational "digital twins": agents that keep an episodic
memory of what they were told, recall it when they answer, and speak their
replies. This project models the core of that system and proves its
properties.

- **The agent memory ledger** (`core/agent.py`): an append-only list of
  memory records with a sync counter that saves every five additions, a
  rollup that folds the oldest fifty raw records into one summary once more
  than two hundred exist, a relation graph parsed from "A -> B" and "A is B"
  texts with a bounded-depth neighbour lookup, and top-k retrieval that ranks
  records by similarity, takes the best and merges them with remote results.
  `AgentCore.Agent` is a class whose methods update the memory, graph and
  counter in place. Each method is proved to perform the transition that
  the value-level functions (`Added`, `RolledUp`, `Trimmed`, ...) specify.
  The ledger invariant (raw-count bound, counter range, graph covering the
  memory texts) is proved to be preserved by add, sync, maybe-sync, trim,
  embedding fill, graph update and graph rebuild.
- **Realtime speech** (`core/tts_utils.py`): a websocket session per voice and
  a job manager that frames each job as `audio_start`, numbered `audio_data`
  chunks and exactly one final `audio_end`. The websocket is an abstract
  queue of incoming frames.
- **Reply helpers** (`core/utterance_utils.py`): the style-drift detector with
  its fixed priority order, transcript loading, prompt assembly and the
  clean-up of the model's reply.
- **Persistence** (`core/memory_utils.py`): the file name per agent, the
  save/load round trip over a map from path to document, and window
  summarisation.
- **The Mem0 backend's local fallback** (`core/mem0_backend.py`): a store
  keyed by the lower-cased agent name with a bounded substring search.
- **The Lars agent** (`agents/Lars/lars.py`): local-only insertion, loading
  once from Mem0 or the local file, retrieval that prefers Mem0, and the
  reflection fallbacks.
- **Profile generation** (`generate_profile.py`): the greedy token-budget
  chunker, first-occurrence de-duplication on a normalised key, the token
  trim and the malformed style-guide fallback.
- **Cloud sync** (`sync_memories_to_mem0.py`): categorisation, upload
  selection and upload metadata.
- **Mode routing** (`router.py`) and **the code assistant's chat history**
  (`documentation_agent.py`).

External services are parameters of the model: the language model, the
embedder, the similarity score, the Mem0 client's answers, the tokenizer,
the sentence splitter, JSON parsing and the websocket's frames. Where the
source catches a failing call (the Mem0 client, the Lars reflection, the
cloud upload), the call's outcome is an `Option`/`Result` given to the model;
the language-model, embedder and file-save calls that the source does not
catch are modelled as always succeeding (see "Left out").
Python's string built-ins are written out in `Py`, with the edge cases of
negative slice indices and of `split` with and without a separator. Case
mapping and whitespace in `Py` are restricted to ASCII, which is narrower
than Python's Unicode-aware `lower`, `strip` and `split` (see "Left out").

## Model

| member | source | states |
|---|---|---|
| MemoryRecord.Texts | core/agent.py:174 | one text per record, in order |
| MemoryRecord.Raw | core/agent.py:170 | the raw records are exactly the held records that are not summaries, in order |
| MemoryRecord.Without | core/agent.py:176 | a record survives exactly when it is held and not equal (by value) to a removed one |
| MemoryRecord.RawWithout | core/agent.py:170-176 | removing records then taking the raw ones equals taking the raw ones then removing |
| MemoryRecord.WithoutBound | core/agent.py:176 | removing a list that covers the first `k` records drops at least `k` |
| MemoryRecord.WithoutDistinctPrefix | core/agent.py:172-176 | on pairwise-distinct records, removing the first `k` by value leaves exactly the rest |
| MemoryRecord.TextsWithout | core/agent.py:176 | removing records introduces no new text |
| AgentCore.RollupShrinks | core/agent.py:170-176 | removing the oldest `_CHUNK` raw records by value leaves at most `raw - 50` raw records |
| AgentCore.AddedRawBound | core/agent.py:136-177 | after `add_memory` at most `_MAX_RAW` (200) raw records are held, whatever the state before |
| AgentCore.RolledUpRawBound | core/agent.py:169-177 | after `_auto_rollup` at most 200 raw records are held |
| AgentCore.AddedAppends | core/agent.py:139-153 | below the rollup threshold, `add_memory` appends exactly one record with the given text and flag, updates the graph with the text and counts one unsynced addition (reset to 0 on the fifth) |
| AgentCore.RollupOnce | core/agent.py:169-177 | when the raw count is just over 200, one rollup removes the first 50 raw records (by value) and appends one summary record, flagged `is_summary`, whose text is `"(summary) "` plus the LLM summary of their joined texts |
| AgentCore.RollupOnceDistinct | core/agent.py:170-177 | with pairwise-distinct raw records, the rollup drops exactly the first 50 raw records, in order, and the summary record is not counted as raw |
| AgentCore.MaybeSyncedSaves | core/agent.py:73-81 | `_maybe_sync` keeps the counter in `0..4`; the fifth addition saves the ledger so that loading gives it back, the others write nothing |
| AgentCore.AddedCounter | core/agent.py:139-177 | `add_memory` (with any nested rollup) keeps the counter in `0..4` |
| AgentCore.RolledUpCounter | core/agent.py:169-177 | `_auto_rollup` keeps the counter in `0..4` |
| AgentCore.AddedGrows | core/agent.py:139-177 | `add_memory` never removes an edge, and the edge parsed from the added text is in the graph afterwards |
| AgentCore.RolledUpGrows | core/agent.py:169-177 | a rollup never removes an edge (records dropped by it keep theirs) |
| AgentCore.AppendedCovers | core/agent.py:151-152 | appending a record and updating the graph with its text keeps every held record's edge in the graph |
| AgentCore.AddedCovers | core/agent.py:139-177 | after `add_memory` every edge stated by a held record is in the graph |
| AgentCore.RolledUpCovers | core/agent.py:169-177 | after a rollup every edge stated by a held record is in the graph |
| AgentCore.AddedKeepsSummaries | core/agent.py:139-177 | summary records are never removed by `add_memory` |
| AgentCore.RolledUpKeepsSummaries | core/agent.py:170-176 | summary records are never removed by a rollup, since only raw records are in `oldest` |
| AgentCore.AddedValid | core/agent.py:136-177 | `add_memory` keeps the ledger invariant: raw count at most 200, counter in `0..4`, every stated edge in the graph |
| AgentCore.TrimZeroKeepsAll | core/agent.py:83-87 | `trim_memory(0)` as written keeps every record, since `memory[-0:]` is the whole list |
| AgentCore.LastN | core/agent.py:86 | the last `n` records: `min(n, len)` of them for positive `n`, none otherwise, as a suffix of the list |
| AgentCore.TrimAgreesForPositive | core/agent.py:83-87 | for every `limit >= 1` the code as written and the corrected trim agree |
| AgentCore.TrimKeepsRecent | core/agent.py:83-87 | the corrected trim keeps a suffix of at most `limit` records and saves it when something was dropped; otherwise nothing changes |
| AgentCore.WithEmbeddings | core/agent.py:90-98 | every record keeps its position; each is replaced by its filled copy |
| AgentCore.FilledRawCount | core/agent.py:90-98 | filling embeddings changes no record's summary flag, so the raw count is unchanged |
| AgentCore.EmbeddingsOnly | core/agent.py:90-98 | `_ensure_embeddings` changes only empty embeddings: texts, timestamps and flags stay, records with an embedding stay as they are, and a second call (with a non-empty embedder) changes nothing |
| AgentCore.RetrievedShape | core/agent.py:180-213 | `retrieve_memories` returns no text twice, at most `top_k` texts for `top_k >= 1`, each the text of a held record |
| AgentCore.RetrievedBest | core/agent.py:198-213 | on a non-empty store with `top_k >= 1` the first text returned is that of a best-scoring record |
| AgentCore.Agent.constructor | core/agent.py:63-71 | a new agent has no records, an empty graph, a zero counter, and satisfies the ledger invariant |
| AgentCore.Agent.SyncMemories | core/agent.py:73-76 | saves the records to the agent's file and resets the counter |
| AgentCore.Agent.MaybeSync | core/agent.py:78-81 | performs the `_maybe_sync` transition |
| AgentCore.Agent.TrimMemory | core/agent.py:83-87 | performs the corrected trim transition |
| AgentCore.Agent.UpdateGraph | core/agent.py:101-110 | changes only the graph, to the update of the old graph with the text |
| AgentCore.Agent.RebuildGraph | core/agent.py:112-116 | the graph becomes the fold of `_update_graph` over the held texts from an empty graph, and every stated edge is then covered |
| AgentCore.Agent.AddMemory | core/agent.py:139-167 | performs the `add_memory` transition, rollup included |
| AgentCore.Agent.AutoRollup | core/agent.py:169-177 | performs the `_auto_rollup` transition |
| AgentCore.Agent.EnsureEmbeddings | core/agent.py:90-98 | changes only the records, to their filled copies |
| AgentCore.Agent.RetrieveMemories | core/agent.py:180-213 | fills the embeddings, then returns the de-duplicated local top-k texts |
| AgentCore.Agent.GenerateResponse | core/agent.py:216-229 | prompts with the retrieved memories and the graph neighbours of the message, then records the exchange `"User: …\n{name}: …"` through `add_memory` |
| AgentCore.OperationsKeepValid | core/agent.py:73-153 | add, sync, maybe-sync, trim, embedding fill, graph update and graph rebuild each keep the ledger invariant |
| AgentCore.TrimmedValid | core/agent.py:83-87 | the corrected trim keeps the ledger invariant |
| AgentCore.TrimNegativeDropsOldest | core/agent.py:83-87 | with a negative limit the code as written drops the oldest `-limit` records and keeps the rest, where the corrected trim keeps none |
| RelationGraph.Side | core/agent.py:104-108 | a side of an edge is stripped and lower-cased, so lower-casing it again changes nothing |
| RelationGraph.ParseEdge | core/agent.py:103-110 | a parsed edge has two non-empty lower-case ends, and a text with neither "->" nor " is " states no edge |
| RelationGraph.ArrowFirst | core/agent.py:103-106 | a text holding "->" is split at its first "->" only (never at " is "), and states an edge exactly when both stripped sides are non-empty |
| RelationGraph.UpdateEdges | core/agent.py:101-110 | `_update_graph` adds exactly the parsed edge and nothing else, removes none, leaves the graph unchanged when no edge is parsed, and adds at most the source node as a key |
| RelationGraph.AddEdgeEdges | core/agent.py:106-110 | `setdefault(a, set()).add(b)` adds exactly the edge `a -> b` and the key `a` |
| RelationGraph.UpdateMonotone | core/agent.py:101-110 | updating a larger graph with the same text gives a larger graph |
| RelationGraph.StatedLast | core/agent.py:115-116 | an edge is stated by a list of texts exactly when the shorter list states it or the last text parses to it |
| RelationGraph.UpdateEdge | core/agent.py:101-110 | one update gains an edge exactly when the text parses to it |
| RelationGraph.GraphOfEdge | core/agent.py:112-116 | the graph rebuilt from a list of texts has an edge exactly when one of the texts states it |
| RelationGraph.GraphOfEdges | core/agent.py:112-116 | the same, for every pair of nodes at once |
| RelationGraph.GraphOfSubset | core/agent.py:112-116 | rebuilding from fewer texts gives a subgraph |
| RelationGraph.SuccMono | core/agent.py:127-131 | one hop from a larger node set reaches a larger set |
| RelationGraph.ReachMono | core/agent.py:125-132 | `k` hops from a larger node set reach a larger set |
| RelationGraph.SuccAdd | core/agent.py:127-128 | the successors of a set with one more node add exactly that node's successors |
| RelationGraph.Seeds | core/agent.py:121-122 | the seeds are exactly the lower-cased whitespace tokens of the query that are graph keys |
| RelationGraph.ExpandLevel | core/agent.py:126-131 | one level adds every successor of the frontier to `found`; the next frontier is the successors not found before |
| RelationGraph.VisitSeed | core/agent.py:123-132 | visiting a seed only adds nodes, each within `depth` hops of the seed, and for `depth >= 1` adds every direct successor of the seed |
| RelationGraph.Context | core/agent.py:118-133 | `graph_context` returns no node twice, nothing for `depth <= 0`, only nodes within `depth` hops of a seed, every direct neighbour of a seed when `depth >= 1`, and exactly the neighbours of the seeds when `depth == 1` |
| Retrieval.ScoresOf | core/agent.py:202 | one score per record, in ledger order, each the similarity of the query vector to that record's embedding |
| Retrieval.InsertDescPerm | core/agent.py:203 | inserting into the ranking loses and invents no element |
| Retrieval.InsertDescSorted | core/agent.py:203 | inserting a later record into a stably sorted ranking keeps it stably sorted (descending score, ties by position) |
| Retrieval.RankedSorted | core/agent.py:203 | `scored.sort(key=score, reverse=True)` gives a permutation of the scores in non-increasing order, ties kept in ledger order |
| Retrieval.InsertAt | core/agent.py:203 | an element lands right after every element scoring at least as high |
| Retrieval.SortByScore | core/agent.py:203 | the sort step returns the stable descending ranking |
| Retrieval.BestRecords | core/agent.py:202-204 | `scored[:top_k]` holds `min(top_k, len)` entries for `top_k >= 0`, each naming a held record, and the local results are those records' texts |
| Retrieval.BestIsTop | core/agent.py:203-204 | the kept entries are sorted, and no record left out scores higher than any kept one |
| Retrieval.FirstIsBest | core/agent.py:202-204 | with records and `top_k >= 1`, the first local result is the text of a best-scoring record |
| Retrieval.Merged | core/agent.py:207-213 | the merge has no duplicates and only input texts; it holds at most `top_k` texts for `top_k >= 1` and at most one otherwise, because the bound is checked after appending |
| Retrieval.MergeResults | core/agent.py:207-213 | the merge loop computes `Merged(remote + local, top_k)` |
| Retrieval.RemoteFirst | core/agent.py:208 | the de-duplicated remote texts come first in the merge, in order |
| Retrieval.MergedFirst | core/agent.py:208-213 | the first input text is always the first merged text |
| Retrieval.MergedLength | core/agent.py:207-213 | the merge holds `min(top_k, distinct texts)` for `top_k >= 1`, and exactly one text for `top_k <= 0` on non-empty input |
| Tts.React | core/tts_utils.py:97-134 | a non-empty binary frame is yielded unchanged and an empty one skipped; only binary and text frames yield audio; a timeout or clean close ends the loop leaving the connection flag alone; an abnormal close or any other exception ends it and clears the flag |
| Tts.Chunks | core/tts_utils.py:94-134 | the loop yields at most one chunk per frame |
| Tts.Leftover | core/tts_utils.py:94-134 | the frames left unread are a suffix no longer than the input |
| Tts.ChunksAppend | core/tts_utils.py:94-134 | chunks come out in arrival order, and nothing after the end condition is read |
| Tts.ChunksSkip | core/tts_utils.py:99-119 | a frame that yields nothing and ends nothing changes neither the chunks nor the disconnect outcome |
| Tts.Pull | core/tts_utils.py:94-134 | each pull from the generator consumes at least one frame |
| Tts.PullThenRest | core/tts_utils.py:94-134 | pulling chunk by chunk gives the same chunks, disconnect outcome and unread frames as reading the loop in one go; a pull without a chunk ends the loop |
| Tts.Session.constructor | core/tts_utils.py:27-31 | a new session has no websocket, is not connected and has sent nothing |
| Tts.Session.Connect | core/tts_utils.py:33-72 | a no-op when already connected; otherwise a successful dial leaves the session connected with the configuration message (speed 1, stability 0.55, similarity boost 0.8, the API key) as the only message sent; a failed dial changes nothing and reports failure |
| Tts.Session.Open | core/tts_utils.py:75-91 | connects when needed, then sends exactly the text with `try_trigger_generation` and then the empty end-of-input text, before anything is read |
| Tts.Session.Close | core/tts_utils.py:138-143 | with a websocket, drops it and clears the connection flag; without one, changes nothing |
| Tts.PcmStream.constructor | core/tts_utils.py:75 | a new generator is not finished and reads the given session |
| Tts.PcmStream.Next | core/tts_utils.py:94-134 | one step of the generator yields the next chunk as `Pull` specifies, clears the connection flag only on an abnormal end, and sends nothing |
| Tts.AudioEvents | core/tts_utils.py:175-183 | one `audio_data` event per chunk, in order, with `chunk_index` counting from 0 |
| Tts.AudioEventsNext | core/tts_utils.py:177-183 | the next chunk gets the next index |
| Tts.FramedShape | core/tts_utils.py:160-193 | a job's events end with exactly one `audio_end`; `audio_start` (pcm_s16le, 22050 Hz, 1 channel) comes first and only when the session was obtained; data indices run 0, 1, 2, … with the chunks in order; every event carries the job id |
| Tts.ConsumedPrefix | core/tts_utils.py:176-186 | a cancelled job yields at most one chunk, and always a prefix of the chunks the loop would yield |
| Tts.PullStep | core/tts_utils.py:94-134 | one pull advances the reading of the frames by exactly one chunk |
| Tts.Relay | core/tts_utils.py:175-186 | relaying the generator to the job gives the `audio_data` events of the consumed chunks, and leaves the session's connection flag cleared exactly when the loop ended abnormally |
| Tts.Speak | core/tts_utils.py:75-186 | opening the session and relaying its audio give the data events of the consumed chunks when the session is open, none otherwise, and the matching connection flag |
| Tts.Manager.constructor | core/tts_utils.py:149-151 | a new manager has no sessions and no active jobs |
| Tts.Manager.GetOrCreate | core/tts_utils.py:153-158 | one session per voice id: an existing one is returned untouched; a new one is pooled before it connects, so a failed connect leaves it pooled and disconnected |
| Tts.Manager.StreamTts | core/tts_utils.py:160-193 | the events are the framing of the consumed chunks, started only when the session lookup succeeded; only this voice's session changes; the job id is removed from the active jobs |
| Tts.Manager.CancelJob | core/tts_utils.py:233-238 | returns true exactly when the job is active, and then marks it cancelled; sessions are untouched |
| Tts.Manager.CloseAll | core/tts_utils.py:240-247 | closes every session, and leaves both the session pool and the active jobs empty |
| Utterance.AgentUtterances | core/utterance_utils.py:25-30 | at most one utterance per line: only lines that mention the agent's marker contribute |
| Utterance.RecentLines | core/utterance_utils.py:21-22 | the detector never looks past the last eight lines of the memories |
| Utterance.Windows | core/utterance_utils.py:51-54 | one three-word phrase per window position, none when there are fewer than three words, each being the three words joined by a space |
| Utterance.FirstRepeated | core/utterance_utils.py:73-75 | a reported phrase occurs at least twice; nothing is reported exactly when no phrase repeats |
| Utterance.PhrasesHaveThreeWords | core/utterance_utils.py:51-54 | every counted phrase splits back into exactly three words, so the word-count guard of the report never rejects one |
| Utterance.FirstRepeatedAt | core/utterance_utils.py:73-75 | the reported phrase is the earliest (in insertion order) whose count reaches two |
| Utterance.PhraseRepetitionReported | core/utterance_utils.py:70-83 | with three or more utterances and fewer than three questions, the detector names the first phrase seen twice, and falls through to the structure and drilling checks only when none repeats |
| Utterance.RepetitionByCount | core/utterance_utils.py:73-83 | the phrase verdict is decided by the phrase counts alone: first twice-seen phrase, otherwise the style checks |
| Utterance.FirstRepeatedByCount | core/utterance_utils.py:73-75 | iterating the count table in insertion order finds the first phrase whose total count is at least two |
| Utterance.SameRecentLines | core/utterance_utils.py:21-22 | two memory texts with the same last eight lines get the same verdict |
| Utterance.OlderLinesIgnored | core/utterance_utils.py:21-22 | prepending older lines to eight recent ones never changes the verdict |
| Utterance.FirstRepeatedDedup | core/utterance_utils.py:55 | looking through distinct keys (the dictionary) finds the same phrase as looking through every occurrence |
| Utterance.FirstRepeatedExtend | core/utterance_utils.py:73-75 | once a repeated phrase is found, later entries cannot change the answer |
| Utterance.ExtractUtterances | core/utterance_utils.py:25-30 | the loop collects exactly the agent's utterances of the recent lines, in order |
| Utterance.CountQuestions | core/utterance_utils.py:44-46 | the loop counts exactly the utterances containing a question mark |
| Utterance.AddPhrase | core/utterance_utils.py:55 | bumping a phrase's count (or inserting it at one) keeps the table equal to the multiset of phrases seen, with new keys appended to the insertion order |
| Utterance.AddSeenPhrase | core/utterance_utils.py:55 | incrementing a known phrase keeps every count exact and the key order unchanged |
| Utterance.AddNewPhrase | core/utterance_utils.py:55 | inserting a new phrase at one keeps every count exact and appends it to the key order |
| Utterance.CountWindows | core/utterance_utils.py:50-55 | after the inner loop the table counts every phrase of the utterance on top of the earlier counts |
| Utterance.ScanStep | core/utterance_utils.py:49-67 | one more utterance adds its phrases, and adds one to the structure or drilling counter exactly when it and the previous utterance match |
| Utterance.ScanUtterances | core/utterance_utils.py:48-67 | the scan yields exact phrase counts in first-seen order plus the structure and drilling counters |
| Utterance.FindRepeated | core/utterance_utils.py:73-75 | the dictionary walk returns the first repeated phrase, or none |
| Utterance.DetectFixation | core/utterance_utils.py:16-83 | the imperative detector returns exactly the verdict of the specification, including no verdict for empty memories or fewer than three utterances |
| Utterance.LoadTranscript | core/utterance_utils.py:86-102 | the style text is empty or stripped at both ends |
| Utterance.TranscriptJsonFirst | core/utterance_utils.py:88-102 | when the JSON transcript exists, adding, replacing or removing the text transcript never changes the style |
| Utterance.TranscriptOwnFilesOnly | core/utterance_utils.py:88-102 | two file systems that agree on the agent's two transcript paths give the same style |
| Utterance.TranscriptFallbacks | core/utterance_utils.py:88-102 | a JSON transcript that does not parse is read as its stripped raw text, a lone text transcript as its stripped text, and no transcript gives "" |
| Utterance.TranscriptRoundTrip | core/utterance_utils.py:88-102 | a style document saved as the JSON transcript reads back as its guide followed by one "- " line per sample phrase |
| Utterance.StyleDocument | core/utterance_utils.py:91-95 | a JSON transcript yields its style guide followed by one "- " line per sample phrase, stripped |
| Utterance.StyleDocumentBare | core/utterance_utils.py:94-95 | an empty phrase list yields just the stripped style guide |
| Utterance.QuestionsMentionQuestions | core/utterance_utils.py:71-132 | the questions verdict contains the word the prompt builder tests for |
| Utterance.GuidanceQuestions | core/utterance_utils.py:132-133 | the questions verdict selects the questions guidance |
| Utterance.PhraseMentionsPhrases | core/utterance_utils.py:75-134 | a phrase verdict contains "repeating phrases" |
| Utterance.GuidancePhrase | core/utterance_utils.py:132-135 | a phrase verdict selects the phrase guidance quoting the verdict, unless the phrase itself mentions questions |
| Utterance.StructureLacksQuestions | core/utterance_utils.py:78-132 | the structure verdict does not trip the questions branch |
| Utterance.StructureLacksPhrases | core/utterance_utils.py:78-134 | the structure verdict does not trip the phrases branch |
| Utterance.StructureMentionsStructures | core/utterance_utils.py:78-136 | the structure verdict contains the words its branch tests for |
| Utterance.GuidanceStructure | core/utterance_utils.py:136-137 | the structure verdict selects the sentence-pattern guidance |
| Utterance.PromptParts | core/utterance_utils.py:121-148 | a prompt built by concatenation starts with its head and ends with its last part |
| Utterance.PromptFrame | core/utterance_utils.py:121-148 | every prompt starts with the persona header and ends with the user's message and the agent's name as speaker cue |
| Utterance.CleanReply | core/utterance_utils.py:154-158 | the cleaned reply is a suffix of the model's answer with no leading whitespace |
| Utterance.CleanReplyPrefix | core/utterance_utils.py:154-158 | whitespace, the agent's name in any letter case, a colon and more whitespace in front of a reply are all removed, leaving exactly the reply |
| Utterance.CleanReplyNoPrefix | core/utterance_utils.py:154-158 | a reply not opening with the agent's name and a colon only loses the whitespace in front of it |
| Utterance.GenerateUtterance | core/utterance_utils.py:105-158 | the reply never starts with whitespace |
| MemoryUtils.PathSharedIffSameLower | core/memory_utils.py:26-27 | two agent names share a memory file exactly when they agree after lower-casing |
| MemoryUtils.FromDict | core/agent.py:55-60 | a record is rebuilt only from a dictionary with a text and a timestamp and no unknown field, carrying those values, with the dataclass defaults for missing optional fields |
| MemoryUtils.FromDictExact | core/agent.py:55-60 | a dictionary is accepted exactly when it has a string text, a numeric timestamp, no unknown key, an optional list of numbers as embedding and an optional boolean flag, and every given value is kept |
| MemoryUtils.NumsOfExact | core/agent.py:55-60 | a JSON list reads as an embedding exactly when every item is a number, and then it is that embedding written out |
| MemoryUtils.NumsRoundTrip | core/memory_utils.py:34 | an embedding written as a JSON number list reads back unchanged |
| MemoryUtils.DictRoundTrip | core/memory_utils.py:34-48 | rebuilding a record from its field dictionary gives back the same record |
| MemoryUtils.Decode | core/memory_utils.py:46-48 | an empty list, dict or string loads as no records; a non-empty dict or string, a number, a boolean or null raises |
| MemoryUtils.Loaded | core/memory_utils.py:43-45 | loading an agent with no memory file gives the empty list |
| MemoryUtils.DecodeEncoded | core/memory_utils.py:32-48 | decoding the saved document gives back the saved list, in order |
| MemoryUtils.SaveLoadRoundTrip | core/memory_utils.py:32-48 | after saving, loading under any spelling of the same name (up to case) returns exactly the saved memories |
| MemoryUtils.SaveOverwrites | core/memory_utils.py:32-34 | a second save replaces the first; saving one agent leaves what every differently named agent loads unchanged |
| MemoryUtils.Disk.constructor | core/memory_utils.py:22-23 | the store starts with the given files |
| MemoryUtils.Disk.SaveMemories | core/memory_utils.py:32-34 | the store afterwards holds the agent's file rewritten with the encoded memories and nothing else changed |
| MemoryUtils.Disk.LoadMemories | core/memory_utils.py:37-48 | returns what the current files decode to, the empty list when the agent's file is absent |
| MemoryUtils.SummarisePromptMentions | core/memory_utils.py:59-63 | the summarisation prompt names the agent and contains the whole block |
| MemoryUtils.SummarizeRecent | core/memory_utils.py:67-69 | an agent without memories gets the fixed "No memories yet." answer without a model call |
| MemoryUtils.SummarizeRecentWindow | core/memory_utils.py:67-72 | otherwise the model is asked to summarise the newline-joined texts of the last window memories (all of them when the window is 0 or larger than the list), oldest first |
| Router.PickModel | router.py:11-15 | every configuration allows at least one completion token; the storytelling configuration is chosen exactly for the mode "storytelling", the conversation configuration for every other mode |
| Mem0Backend.SearchSound | core/mem0_backend.py:45-51 | a successful local search returns at most the cap and at most the stored number of memories, each of them stored, with a string text containing the query case-insensitively |
| Mem0Backend.SearchIsPrefixOfMatches | core/mem0_backend.py:45-51 | when every stored text is a string, the local search returns exactly the first cap matches in store order |
| Mem0Backend.LocalSearch | core/mem0_backend.py:45-51 | the loop with its early break returns exactly the specified search, a non-positive k still letting the first match through |
| Mem0Backend.SearchAt | core/mem0_backend.py:46-50 | one loop step: a non-string text raises, a non-match is skipped, a match is kept and either stops the search at the cap or is followed by the rest |
| Mem0Backend.PrefixedEmpty | core/mem0_backend.py:45 | searching with no results collected yet is the plain search |
| Mem0Backend.PrefixedAppend | core/mem0_backend.py:48 | appending a match to the collected results and then the rest is the same as collecting the match first |
| Mem0Backend.Backend.constructor | core/mem0_backend.py:12-14 | the module starts with no client, an empty store and no remote calls |
| Mem0Backend.Backend.InitClient | core/mem0_backend.py:17-22 | a client exists afterwards exactly when one existed or the SDK and a key are available, and is then reused; the local store is untouched |
| Mem0Backend.Backend.AddMemory | core/mem0_backend.py:25-33 | the memory is appended to the agent's local list under the lower-cased name, whether or not a client exists, and is also sent to the client when one exists |
| Mem0Backend.Backend.SearchMemory | core/mem0_backend.py:36-51 | with a client the remote answer (or the empty list on failure) is returned; without one the local search is; nothing is stored |
| Mem0Backend.Backend.GetAllMemories | core/mem0_backend.py:54-62 | with a client the remote answer (or the empty list on failure); without one a copy of the agent's local list; nothing is stored |
| LarsAgent.EnhancedPersonalityPhrases | agents/Lars/lars.py:208 | the reply personality keeps the stored personality as a prefix and quotes the sample phrases comma-joined, at most the first five: phrases beyond the fifth make no difference |
| LarsAgent.Accepted | agents/Lars/lars.py:78-85 | a loading loop adds at most one text per stored entry |
| LarsAgent.AcceptedSound | agents/Lars/lars.py:78-124 | every added text comes from an entry that yields it; the loop raises exactly when some entry raises; without a raise every entry with a text is added |
| LarsAgent.AcceptedNext | agents/Lars/lars.py:78-124 | one loop step: a raising entry ends the loop with the texts so far, a skipped entry adds nothing, a taken entry appends its text |
| LarsAgent.ReadEntry | agents/Lars/lars.py:79-124 | reading one entry classifies it exactly as the specified loop step does |
| LarsAgent.AcceptedStops | agents/Lars/lars.py:71-93 | once an entry raised, later entries change nothing |
| LarsAgent.LocalRecords | agents/Lars/lars.py:106-111 | one record per text, in order, each a non-summary record of that text |
| LarsAgent.AddedLocallySnoc | agents/Lars/lars.py:83-85 | adding one more text locally is one more local append |
| LarsAgent.AddedAllSnoc | agents/Lars/lars.py:123-124 | adding one more text through add_memory is one more full addition |
| LarsAgent.AddedLocallyShape | agents/Lars/lars.py:95-113 | local-only insertion appends exactly the texts' records and touches neither the unsynced counter nor the files, so it never syncs or rolls up |
| LarsAgent.LocalRecordsLast | agents/Lars/lars.py:106-112 | the records of a text list end with the record of its last text |
| LarsAgent.AddedLocallyRaw | agents/Lars/lars.py:95-113 | local-only insertion adds exactly one raw record per text, with no rollup |
| LarsAgent.AddedLocallyGrows | agents/Lars/lars.py:113 | local-only insertion never removes an edge and adds the edge of every relation text |
| LarsAgent.AddedAllValid | agents/Lars/lars.py:115-124 | loading through add_memory keeps the ledger invariants (raw bound, counter range, graph covering the texts) |
| LarsAgent.StartupSources | agents/Lars/lars.py:181-195 | a successful Mem0 load leaves exactly the old texts followed by the accepted Mem0 texts; without a client or with a raising Mem0 call only the local file is read |
| LarsAgent.Hits | agents/Lars/lars.py:137-144 | at most one text per search hit |
| LarsAgent.HitsSound | agents/Lars/lars.py:137-144 | every returned text comes from a hit; the result is empty exactly when no hit carries a text |
| LarsAgent.ReflectionDict | agents/Lars/lars.py:311-315 | the fallback reflection holds the given text under "reflection" and exactly the four documented keys |
| LarsAgent.ReflectAsWrittenRaises | agents/Lars/lars.py:290-292 | as written, every non-empty history raises an import error before generation, because the cleaning helper is not defined |
| LarsAgent.ReflectOutcomes | agents/Lars/lars.py:257-315 | with the helper available: an empty history gives "" as written does, a failed generation gives the failure dict, a non-JSON reply is kept as the reflection text with empty lists |
| LarsAgent.Lars.constructor | agents/Lars/lars.py:52-63 | the agent is named Lars with its voice; the personality is description, style guide and, only when given, the personality type; memory and graph start empty; not loaded and no client |
| LarsAgent.Lars.GetClient | agents/Lars/lars.py:155-179 | a client exists afterwards exactly when one existed or the SDK is present and the setup got as far as assigning it; an existing client is reused |
| LarsAgent.Lars.AddLocalOnly | agents/Lars/lars.py:95-113 | the ledger afterwards is exactly the local append of one non-summary record plus its graph update |
| LarsAgent.Lars.LoadMem0 | agents/Lars/lars.py:65-93 | the ledger and result are those of the specified Mem0 load: False without a client, on an empty list or on a raise, texts added locally in order |
| LarsAgent.Lars.LoadLocal | agents/Lars/lars.py:115-124 | the ledger and raise flag are those of the specified file load: only dict entries with a non-empty "memory" are added, through add_memory |
| LarsAgent.Lars.EnsureMemoriesLoaded | agents/Lars/lars.py:181-195 | afterwards the load flag is set, even when loading raised; a second call changes nothing; the first call performs the specified startup load |
| LarsAgent.Lars.RetrieveMemories | agents/Lars/lars.py:126-153 | non-empty Mem0 hits are returned as they are and local memory is not consulted; otherwise the base agent's local retrieval is returned |
| LarsAgent.Lars.GenerateResponse | agents/Lars/lars.py:197-225 | the reply is the utterance generated from the retrieved memories, the graph context and at most five sample phrases; the memory texts, graph and counter are unchanged |
| GenerateProfile.Joined | generate_profile.py:117-124 | one chunk text per sentence group |
| GenerateProfile.TokensSingle | generate_profile.py:118 | a group of one sentence costs that sentence's tokens |
| GenerateProfile.StepOk | generate_profile.py:114-121 | one sentence step keeps the chunker's invariant: groups flatten to the sentences read, every group fits the budget or is a single sentence, each closed group would have overflowed with the next sentence |
| GenerateProfile.StepCloses | generate_profile.py:116-118 | closing the open group when the next sentence would overflow keeps the invariant |
| GenerateProfile.StepExtends | generate_profile.py:119-121 | extending the open group (within budget, or when it is empty) keeps the invariant |
| GenerateProfile.ScannedOk | generate_profile.py:114-121 | the invariant holds after any number of sentences |
| GenerateProfile.ChunkGroups | generate_profile.py:107-125 | the groups hold every sentence exactly once in order, there is at least one group exactly when there is a sentence, no group is empty, each is within budget unless a single sentence, and each closed group would have overflowed with the next group's first sentence |
| GenerateProfile.JoinConcat | generate_profile.py:117 | space-joining two non-empty lists is joining each and putting a space between |
| GenerateProfile.JoinFlatten | generate_profile.py:117-124 | space-joining the chunk texts equals space-joining all the sentences of non-empty groups |
| GenerateProfile.FlattenNonEmpty | generate_profile.py:123-124 | non-empty groups hold at least one sentence |
| GenerateProfile.ChunksRejoin | generate_profile.py:107-125 | joining the chunks with a space gives back the sentences joined with a space |
| GenerateProfile.ChunkText | generate_profile.py:107-125 | the greedy loop returns exactly the specified groups' texts |
| GenerateProfile.DedupedSnoc | generate_profile.py:173-178 | one more entry is kept exactly when it has a text and an unseen key, and its key is then recorded |
| GenerateProfile.DedupedSeen | generate_profile.py:171-177 | the seen set is exactly the keys of the entries with a text |
| GenerateProfile.DedupedSubseq | generate_profile.py:172-178 | the kept entries are an in-order subsequence of the input |
| GenerateProfile.DedupedDistinct | generate_profile.py:171-178 | every kept entry has a non-empty text, and no two kept entries share a key |
| GenerateProfile.DedupedKeepsFirst | generate_profile.py:173-178 | the first entry with a text for each key is kept |
| GenerateProfile.CollectedNext | generate_profile.py:161-168 | one more batch adds its items when it parsed to a list and nothing otherwise |
| GenerateProfile.Dicts | generate_profile.py:173-174 | the entries are read as dicts, one per entry, exactly when none of them is a non-dict (on which the key lookup raises) |
| GenerateProfile.UniqueSnoc | generate_profile.py:174-178 | the memory de-duplication step keeps an entry exactly when its stripped text is non-empty and its collapsed lower-cased key is new |
| GenerateProfile.BatchesOf | generate_profile.py:152-162 | one parsed reply per chunk |
| GenerateProfile.ExtractMemories | generate_profile.py:146-179 | the pipeline returns the de-duplicated entries of the list batches, in chunk order, of the replies to the specified chunks |
| GenerateProfile.Deduplicate | generate_profile.py:170-179 | the loop returns exactly the first-occurrence de-duplication, raising on a non-dict entry |
| GenerateProfile.TrimKeepsTail | generate_profile.py:182-187 | a text within budget is returned unchanged; over a positive budget the result decodes exactly the last max_tokens tokens; a zero budget keeps every token |
| GenerateProfile.StripNewline | generate_profile.py:257 | a stripped text followed by a newline strips back to itself |
| GenerateProfile.FallbackGuideLoads | generate_profile.py:253-257 | a malformed guide becomes a dict of exactly the style guide (the stripped reply) and an empty phrase list, which the transcript loader reads back as the stripped reply |
| SyncToMem0.CategorizeOrder | sync_memories_to_mem0.py:79-95 | the category is one of the six kinds with that kind's fixed tags, and a kind is chosen exactly when its word group matches and no earlier group does |
| SyncToMem0.CategorizeIgnoresCase | sync_memories_to_mem0.py:81 | lower-casing the text first never changes the category |
| SyncToMem0.CloudTextsExact | sync_memories_to_mem0.py:187-197 | the cloud text set never holds the empty text and holds exactly the texts some cloud entry yields |
| SyncToMem0.CollectCloudTexts | sync_memories_to_mem0.py:187-197 | the loop builds exactly the specified cloud text set, or fails as the specification does |
| SyncToMem0.CloudTextsFail | sync_memories_to_mem0.py:188-197 | once an entry raised, later entries change nothing |
| SyncToMem0.SelectionNext | sync_memories_to_mem0.py:201-220 | one selection step: an unreadable entry raises, a kept text appends its queued entry, any other entry is skipped |
| SyncToMem0.SelectionSound | sync_memories_to_mem0.py:201-220 | every queued entry comes from a local entry whose text is kept |
| SyncToMem0.SelectionReadsAll | sync_memories_to_mem0.py:201-202 | a selection that succeeds read every entry's text |
| SyncToMem0.SelectionHas | sync_memories_to_mem0.py:215-220 | every entry whose text is kept is queued |
| SyncToMem0.SelectionFail | sync_memories_to_mem0.py:201-202 | once an entry raised, later entries change nothing |
| SyncToMem0.SelectedExact | sync_memories_to_mem0.py:200-220 | the queue holds exactly the stripped local texts that are non-empty, not summaries and whose first 100 characters occur in no cloud text, each with its timestamp and summary flag |
| SyncToMem0.RollupSummariesSkipped | sync_memories_to_mem0.py:205-206 | a summary record written by the agent's rollup is never uploaded |
| SyncToMem0.SelectUploads | sync_memories_to_mem0.py:200-220 | the loop returns exactly the specified queue, or fails as the specification does |
| SyncToMem0.Strs | sync_memories_to_mem0.py:274 | the tags as JSON strings, one per tag |
| SyncToMem0.UploadMetadataShape | sync_memories_to_mem0.py:119-142 | the uploaded metadata always has source "local_sync" and a category: "summary" for a summary, else the given type, else "conversational"; the timestamp falls back to original_timestamp; tags only when given |
| SyncToMem0.MainMetadataKeys | sync_memories_to_mem0.py:269-287 | the sync's metadata carries the categorised (or summary) type and tags and the timestamp exactly when one is set |
| SyncToMem0.UploadedMetadata | sync_memories_to_mem0.py:269-290 | what reaches the service: source "local_sync", type and category both the kind (or "summary" with the consolidated tags for a summary), the kind's tags, and the timestamp exactly when one is set |
| SyncToMem0.UploadMemory | sync_memories_to_mem0.py:112-156 | the service receives the specified metadata, and the result reports whether it accepted the memory |
| SyncToMem0.OutgoingAll | sync_memories_to_mem0.py:263-290 | one outgoing request per queued memory, in queue order |
| SyncToMem0.AcceptedNext | sync_memories_to_mem0.py:290-295 | one more request adds one success exactly when the service accepts it |
| SyncToMem0.SendOne | sync_memories_to_mem0.py:269-290 | one upload sends the specified text and metadata and reports the service's answer |
| SyncToMem0.UploadAll | sync_memories_to_mem0.py:254-295 | every queued memory is sent once, in order; successes count the accepted requests and successes plus failures equal the queue length |
| SyncToMem0.RunSync | sync_memories_to_mem0.py:158-301 | an empty local file ends the run; an empty queue reports everything synced; no confirmation cancels; a missing client stops; otherwise every queued memory is uploaded once in order with counts that add up |
| DocumentationAgent.Names | documentation_agent.py:33-39 | the file names of the code map, one per entry, in insertion order |
| DocumentationAgent.Put | documentation_agent.py:37-39 | assigning a key keeps the entry count and position of an existing key and appends a new key at the end; other entries are untouched |
| DocumentationAgent.Entries | documentation_agent.py:34-39 | one entry per name with its contents, or the not-found marker for a missing file |
| DocumentationAgent.PutSame | documentation_agent.py:37-39 | reassigning a key its current value changes nothing |
| DocumentationAgent.LoadedEntries | documentation_agent.py:31-40 | the code map has one entry per distinct file name, in first-occurrence order, holding that file's contents or the not-found marker |
| DocumentationAgent.EntriesNext | documentation_agent.py:34-39 | one more name adds its entry at the end |
| DocumentationAgent.NamesOfEntries | documentation_agent.py:33-39 | the entries' names are the given names |
| DocumentationAgent.LoadCode | documentation_agent.py:31-40 | the loop builds exactly the specified code map |
| DocumentationAgent.Sections | documentation_agent.py:45-47 | one "### FILE:" section per code-map entry, in map order |
| DocumentationAgent.SystemPromptGrows | documentation_agent.py:43-52 | an empty map gives the bare preamble; one more entry adds its section after a newline |
| DocumentationAgent.SystemPromptHasEverySection | documentation_agent.py:43-52 | the prompt starts with the preamble and contains every file's section |
| DocumentationAgent.JoinHas | documentation_agent.py:51 | a newline-joined text contains each of its parts |
| DocumentationAgent.AskAppends | documentation_agent.py:55-66 | history entries are only appended: three on the first question (system prompt first), two later, ending with the question and the model's reply to the history so far |
| DocumentationAgent.History.constructor | documentation_agent.py:72 | the history starts empty |
| DocumentationAgent.History.AskCodebase | documentation_agent.py:55-66 | the history becomes the specified appended history and the returned reply is its last entry |
| DocumentationAgent.ConversedShape | documentation_agent.py:69-85 | after n questions the history is the system prompt followed by alternating question and reply entries, 2n+1 in all |
| DocumentationAgent.Classify | documentation_agent.py:75-81 | a blank line is skipped, "chao" in any case after stripping quits, any other line is asked stripped |
| DocumentationAgent.ScanNext | documentation_agent.py:74-83 | one more input line updates the scan by that line alone |
| DocumentationAgent.ConversedNext | documentation_agent.py:83 | one more question is one more ask on the history so far |
| DocumentationAgent.ScanAsksQuestions | documentation_agent.py:75-83 | every question asked comes from an input line classified as a question |
| DocumentationAgent.ScanStops | documentation_agent.py:78-80 | after "chao", later lines are ignored |
| DocumentationAgent.AnsweredNext | documentation_agent.py:83-84 | each ask adds the reply it returns at the expected place in the history |
| DocumentationAgent.Repl | documentation_agent.py:69-87 | the loop asks exactly the scanned questions in order, one answer per question, each answer recorded in the history |

## Left out

- The websocket, SSL, base64 decoding, asyncio scheduling and timeouts are left out. A receive timeout is the end of the abstract frame queue. `stream_tts_sync` (its thread pool and fresh event loop) and the ElevenLabs REST `speak` are not part of this model.
- Tts.Manager.StreamTts: the cancel flag of a job is read once when the job starts. The source polls the task object after every chunk; nothing in the source inserts into `active_jobs`, so the flag can never change while a job runs.
- The OpenAI, Mem0 and sentence-transformer clients are uninterpreted function parameters. So are the tokenizer and the sentence-split regular expression. Retries, rate-limit sleeps and printed progress are left out.
- Similarity scores are `real` values given by a parameter. Cosine similarity, embedding arithmetic and floating-point rounding are not modelled.
- Timestamps are parameters; `time.time()` and `uuid4()` are not modelled.
- JSON parsing and printing are opaque. The model receives the parsed value, or `None` for a decode error. `str()` of a non-string JSON value is a parameter `show`.
- Aliasing of memory records is not modelled. In `_ensure_embeddings` the source mutates record objects that `memory` shares. The model replaces the list with records carrying the filled embedding, which has the same effect on `memory`.
- The remote Mem0 REST calls in `add_memory` and `retrieve_memories` of `core/agent.py` are commented out in the source. Retrieval therefore merges an empty remote list, and the model does the same.
- SyncToMem0.CloudTexts: a truthy non-string cloud text is an error as soon as it is collected. In the source it fails later, at the set insertion or at the first substring test against it.
- The sync's final verification fetch and its per-type report are left out: they only print. `validate_config`, `get_mem0_client` and `load_local_memories` are replaced by their outcomes.
- The code assistant's model name and temperature are folded into the chat parameter. `KeyboardInterrupt` and end of input both end the loop, so they are the end of the input line sequence.
- LarsAgent.Reflect takes the utterance generator as a parameter (`ReflectionGenerator` builds it), and whether that call raised as a flag.
- The module-level loading in `agents/Lars/lars.py` (seed memories, persona and utterance files) is left out. Its results are constructor parameters.
- `Lars.add_memory_to_mem0` and `Lars.get_memory_graph` are left out: they only forward to the remote client or return a constant.
- A Mem0 answer that is not a list is not modelled. Every remote answer is a sequence of JSON values or a raised exception.
- MemoryUtils.Disk: the file system holds parsed JSON documents. Encoding to UTF-8 text and `indent=2` formatting are not modelled.
- The Router's result dictionary is a datatype with the model name and the token limit.
- AgentCore.Added, AgentCore.RolledUp and AgentCore.Synced assume that the language model, the embedder and the file save always succeed. In the source a raising summary call leaves the ledger with more than 200 raw records (the new record is appended first) and raises out of `add_memory`; a raising save leaves the counter at 5 without resetting it. Neither failure is modelled.
- GenerateProfile.ExtractMemories assumes that every chat call succeeds; the source lets a raising call end the whole extraction.
- DocumentationAgent.Repl assumes that every chat call succeeds; the source does not catch a failing `gen_oai`, which ends the loop with the exception.
- Utterance.GenerateUtterance assumes that the language-model call succeeds; a raising call propagates out of the source.
- AgentCore.Added: one clock reading `now` serves a whole operation. The summary record a rollup adds shares the timestamp of the record whose addition triggered it, and a Lars batch (LarsAgent.AddedAll) gives all its records one timestamp. The source reads `time.time()` per record, so two equal texts added in one batch are equal records in the model, and the rollup's `m not in oldest` removes both where the source's distinct timestamps would keep the newer one.
- Py.Lower and Py.IsSpace cover ASCII only, where Python's `lower`, `strip`, `lstrip` and `split()` are Unicode-aware. RelationGraph.Side, RelationGraph.Seeds, MemoryUtils.PathOf, GenerateProfile.MemoryKey, SyncToMem0.Categorize, Mem0Backend.Search, Utterance.CleanReply and DocumentationAgent.Classify therefore agree with the source on ASCII text only: a non-ASCII capital letter is not lower-cased, and non-ASCII whitespace (such as a no-break space) is not stripped or split on.
- MemoryUtils.FromDict refuses a field of the wrong JSON kind: `{"text": "a", "timestamp": "x"}` gives None. The source's `Memory(**d)` stores any value, because dataclass fields are not type-checked. The model's record holds only a string text, a number timestamp, a list of numbers and a boolean.
- MemoryUtils.Disk.LoadMemories inherits that: a saved file holding a record with a mistyped field is an error in the model and a record in the source.
- Utterance.LoadTranscript: a dict `sample_phrases` is treated as not iterable, so the style falls back to the raw file, where the source lists the dict's keys. The model's JSON object is a map and keeps no key order, so the listing cannot be reproduced (Utterance.Iterated).
- LarsAgent.TextEntry: a truthy memory text that is a list or a dict (a Mem0 entry or local-file entry such as `{"memory": ["a", "b"]}`) is modelled as raising, because a record's text is a string. The source embeds it, appends it and updates the graph without error (`"->" in [...]` is a membership test), so loading succeeds. LarsAgent.Accepted, LarsAgent.ReadEntry, LarsAgent.Lars.LoadMem0, LarsAgent.Lars.LoadLocal, LarsAgent.StartupSources and LarsAgent.Lars.EnsureMemoriesLoaded inherit this. In the model, Mem0 loading stops and returns false, and startup falls back to the local file, where the source keeps the Mem0 records. A truthy number or boolean text does raise in the source, at that same `in` test, as modelled.
- LarsAgent.Lars.RetrieveMemories: a Mem0 dict hit whose `memory`/`text` is truthy but not a string is dropped (LarsAgent.Hit), and dropping it can trigger the local fallback; the source returns the value itself, and `generate_response` would then raise joining it.

## Findings

| source | as written | input that shows it | evidently intended | confidence | as-written member | corrected member |
|---|---|---|---|---|---|---|
| core/agent.py:83-87 | `trim_memory(limit)` keeps `memory[-limit:]` | `trim_memory(0)` on a non-empty ledger keeps every record (and saves), because `-0` slices from the start; `trim_memory(-2)` on three records drops the oldest two instead of keeping none | keep only the most recent `limit` records, none for `limit <= 0` | not executed | AgentCore.TrimZeroKeepsAll | AgentCore.TrimKeepsRecent |
| agents/Lars/lars.py:290-292 | `reflect_on_conversation` imports `clean_json_response` from `generate_profile`, which does not define it, outside the `try` | any non-empty conversation history raises `ImportError` before generation | the reflection, or the documented fallback dicts | not executed | LarsAgent.ReflectAsWrittenRaises | LarsAgent.ReflectOutcomes |
