/**
 * The Lars twin of agents/Lars/lars.py: the general agent with a personality
 * built from a persona profile, memories loaded once (from Mem0, else from
 * the local memories file), retrieval that prefers the Mem0 search, replies
 * that do not record the exchange, and a reflection on a conversation.
 *
 * Lars wraps an `AgentCore.Agent` (the agent it extends) and adds the load
 * flag and the Mem0 client. The Mem0 service's answers are parameters
 * (`None` standing for a raised exception).
 */
module LarsAgent {
  import opened Wrappers
  import opened Py
  import opened PyJson
  import opened MemoryRecord
  import opened MemoryUtils
  import opened RelationGraph
  import opened Retrieval
  import opened AgentCore
  import Utterance

  const LarsName := "Lars"
  const LarsVoice := "5epn2vbuws8S5MRzxJH8"
  /** How many sample phrases the reply prompt quotes. */
  const PhraseLimit := 5

  /** The personality handed to the base agent: description, style guide and,
      when known, the personality type. */
  function FullPersonality(description: string, styleGuide: string, personalityType: string): string {
    description + "\n\nCommunication Style: " + styleGuide
    + (if personalityType != "" then " (Personality Type: " + personalityType + ")" else "")
  }

  /** The personality a reply is generated with: the first five sample phrases added. */
  function EnhancedPersonality(personality: string, phrases: seq<string>): string {
    personality + "\n\nSpeech Patterns: Use phrases like: " + Join(", ", SliceTo(phrases, PhraseLimit))
  }

  /** The personality is kept as a prefix and at most the first five phrases
      are listed: beyond five, later phrases make no difference. */
  lemma EnhancedPersonalityPhrases(personality: string, phrases: seq<string>)
    ensures personality <= EnhancedPersonality(personality, phrases)
    ensures |phrases| <= PhraseLimit ==>
      EnhancedPersonality(personality, phrases) == personality + "\n\nSpeech Patterns: Use phrases like: " + Join(", ", phrases)
    ensures |phrases| > PhraseLimit ==>
      EnhancedPersonality(personality, phrases) == EnhancedPersonality(personality, phrases[..PhraseLimit])
  {
    var head := personality + "\n\nSpeech Patterns: Use phrases like: ";
    assert EnhancedPersonality(personality, phrases) == head + Join(", ", SliceTo(phrases, PhraseLimit));
    if |phrases| <= PhraseLimit {
      assert SliceTo(phrases, PhraseLimit) == phrases;
    } else {
      assert SliceTo(phrases, PhraseLimit) == phrases[..PhraseLimit] == SliceTo(phrases[..PhraseLimit], PhraseLimit);
    }
  }

  // ================================================================ the Mem0 client

  /** How an attempt to create the Mem0 client ends. */
  datatype ClientSetup =
    | MissingCredentials   // some of the three credentials is empty
    | ConfigMissing        // the config module cannot be imported
    | ConstructionFailed   // the client constructor raises
    | ProjectLookupFailed  // the client exists, then the project lookup raises
    | Created
  {
    /** The client field is assigned before the project lookup, so a failing
        lookup still leaves a client behind. */
    predicate SetsClient() {
      this == ProjectLookupFailed || this == Created
    }
  }

  // ================================================================ stored entries

  /** What a loading loop does with one stored entry. */
  datatype Entry = Take(text: string) | Skip | Raise

  /** An entry's text is taken when it is a non-empty string. A truthy
      non-string text is modelled as making the addition raise: a number or
      boolean does so in the source at the graph update's `in` test, while a
      list or dict would be stored, which a record's string text cannot hold. */
  function TextEntry(t: Json): Entry {
    if !Truthy(t) then Skip
    else if t.JStr? then Take(t.s)
    else Raise
  }

  /** An entry of the Mem0 list: a dict gives its "memory" (else "text")
      value, a string is taken as it is, even when empty. */
  function Mem0Entry(j: Json): Entry {
    match j
    case JObj(f) => TextEntry(Get(f, "memory", Get(f, "text", JStr(""))))
    case JStr(s) => Take(s)
    case _ => Skip
  }

  /** An entry of the local memories file: only dicts, with a "memory" value. */
  function LocalEntry(j: Json): Entry {
    match j
    case JObj(f) => TextEntry(Get(f, "memory", JStr("")))
    case _ => Skip
  }

  function EntryOf(j: Json, local: bool): Entry {
    if local then LocalEntry(j) else Mem0Entry(j)
  }

  /** A loading loop over `items`: the texts added before the first entry that
      raises, and whether one raised. */
  function Accepted(items: seq<Json>, local: bool): (r: (seq<string>, bool))
    ensures |r.0| <= |items|
  {
    if items == [] then ([], false)
    else
      var prev := Accepted(items[..|items| - 1], local);
      if prev.1 then prev
      else match EntryOf(items[|items| - 1], local)
        case Raise => (prev.0, true)
        case Skip => prev
        case Take(t) => (prev.0 + [t], false)
  }

  /** Every added text is the text of a stored entry; the loop raises exactly
      when some entry raises, and otherwise adds every entry's text. */
  lemma {:induction false} AcceptedSound(items: seq<Json>, local: bool)
    ensures forall t :: t in Accepted(items, local).0 ==> exists j :: j in items && EntryOf(j, local) == Take(t)
    ensures Accepted(items, local).1 <==> exists j :: j in items && EntryOf(j, local) == Raise
    ensures !Accepted(items, local).1 ==>
      forall j :: j in items && EntryOf(j, local).Take? ==> EntryOf(j, local).text in Accepted(items, local).0
  {
    if items != [] {
      var init, last := items[..|items| - 1], items[|items| - 1];
      AcceptedSound(init, local);
      assert forall j :: j in init ==> j in items;
      var prev := Accepted(init, local);
      if !prev.1 && EntryOf(last, local) == Raise {
        assert last in items;
      }
      if !prev.1 && EntryOf(last, local) != Raise {
        forall j | j in items ensures EntryOf(j, local) != Raise {
          assert j in init || j == last;
        }
        forall j | j in items && EntryOf(j, local).Take? ensures EntryOf(j, local).text in Accepted(items, local).0 {
          assert j in init || j == last;
        }
      }
    }
  }

  /** One more entry read by a loading loop that has not raised yet. */
  lemma AcceptedNext(items: seq<Json>, local: bool, i: nat, done: seq<string>)
    requires i < |items| && Accepted(items[..i], local) == (done, false)
    ensures EntryOf(items[i], local).Raise? ==> Accepted(items[..i + 1], local) == (done, true)
    ensures EntryOf(items[i], local).Skip? ==> Accepted(items[..i + 1], local) == (done, false)
    ensures EntryOf(items[i], local).Take? ==>
      Accepted(items[..i + 1], local) == (done + [EntryOf(items[i], local).text], false)
  {
    TakeNext(items, i);
  }

  /** Reads the entry at `i` of a loading loop that has not raised yet, and
      says how the loop's outcome extends. */
  method ReadEntry(items: seq<Json>, local: bool, i: nat, ghost done: seq<string>) returns (e: Entry)
    requires i < |items| && Accepted(items[..i], local) == (done, false)
    ensures e.Raise? ==> Accepted(items[..i + 1], local) == (done, true)
    ensures e.Skip? ==> Accepted(items[..i + 1], local) == (done, false)
    ensures e.Take? ==> Accepted(items[..i + 1], local) == (done + [e.text], false)
  {
    e := EntryOf(items[i], local);
    AcceptedNext(items, local, i, done);
  }

  /** Once an entry has raised, the loop reads nothing further. */
  lemma {:induction false} AcceptedStops(items: seq<Json>, local: bool, k: nat)
    requires k <= |items|
    requires Accepted(items[..k], local).1
    ensures Accepted(items, local) == Accepted(items[..k], local)
    decreases |items| - k
  {
    if k < |items| {
      TakeNext(items, k);
      AcceptedStops(items, local, k + 1);
    } else {
      assert items[..k] == items;
    }
  }

  // ================================================================ loading, on values

  /** `_add_memory_local_only` for each text: append and update the graph,
      with no sync and no rollup. */
  function AddedLocally(st: Ledger, texts: seq<string>, env: Oracles): Ledger {
    if texts == [] then st
    else Appended(AddedLocally(st, texts[..|texts| - 1], env), texts[|texts| - 1], false, env)
  }

  /** `add_memory` for each text. */
  function AddedAll(st: Ledger, name: string, texts: seq<string>, env: Oracles): Ledger {
    if texts == [] then st
    else Added(AddedAll(st, name, texts[..|texts| - 1], env), name, texts[|texts| - 1], false, env)
  }

  /** The records `_add_memory_local_only` builds for `texts`. */
  function LocalRecords(texts: seq<string>, env: Oracles): (r: seq<Memory>)
    ensures |r| == |texts|
    ensures forall i :: 0 <= i < |texts| ==> r[i] == Record(texts[i], false, env) && !r[i].isSummary
  {
    seq(|texts|, i requires 0 <= i < |texts| => Record(texts[i], false, env))
  }

  lemma AddedLocallySnoc(st: Ledger, texts: seq<string>, t: string, env: Oracles)
    ensures AddedLocally(st, texts + [t], env) == Appended(AddedLocally(st, texts, env), t, false, env)
  {
    assert (texts + [t])[..|texts|] == texts;
  }

  lemma AddedAllSnoc(st: Ledger, name: string, texts: seq<string>, t: string, env: Oracles)
    ensures AddedAll(st, name, texts + [t], env) == Added(AddedAll(st, name, texts, env), name, t, false, env)
  {
    assert (texts + [t])[..|texts|] == texts;
  }

  /** Loading from Mem0 appends one raw record per text, in order, and nothing
      else: the counter and the files stay. */
  lemma {:induction false} AddedLocallyShape(st: Ledger, texts: seq<string>, env: Oracles)
    ensures AddedLocally(st, texts, env).memory == st.memory + LocalRecords(texts, env)
    ensures AddedLocally(st, texts, env).unsynced == st.unsynced
    ensures AddedLocally(st, texts, env).files == st.files
    decreases |texts|
  {
    if texts != [] {
      var init, last := texts[..|texts| - 1], texts[|texts| - 1];
      AddedLocallyShape(st, init, env);
      var prev := AddedLocally(st, init, env);
      var r := Record(last, false, env);
      LocalRecordsLast(texts, env);
      calc {
        AddedLocally(st, texts, env).memory;
        prev.memory + [r];
        (st.memory + LocalRecords(init, env)) + [r];
        { assert (st.memory + LocalRecords(init, env)) + [r] == st.memory + (LocalRecords(init, env) + [r]); }
        st.memory + LocalRecords(texts, env);
      }
    } else {
      assert st.memory + LocalRecords(texts, env) == st.memory;
    }
  }

  lemma LocalRecordsLast(texts: seq<string>, env: Oracles)
    requires texts != []
    ensures LocalRecords(texts, env) == LocalRecords(texts[..|texts| - 1], env) + [Record(texts[|texts| - 1], false, env)]
  {
    var init := texts[..|texts| - 1];
    var a, b := LocalRecords(texts, env), LocalRecords(init, env) + [Record(texts[|texts| - 1], false, env)];
    forall i | 0 <= i < |a| ensures a[i] == b[i] {
      if i < |init| {
        assert init[i] == texts[i];
      }
    }
  }

  /** No rollup bounds a Mem0 load: every text adds a raw record. */
  lemma {:induction false} AddedLocallyRaw(st: Ledger, texts: seq<string>, env: Oracles)
    ensures RawCount(AddedLocally(st, texts, env).memory) == RawCount(st.memory) + |texts|
    decreases |texts|
  {
    if texts != [] {
      var init, last := texts[..|texts| - 1], texts[|texts| - 1];
      AddedLocallyRaw(st, init, env);
      RawAppend(AddedLocally(st, init, env).memory, Record(last, false, env));
    }
  }

  /** A Mem0 load only adds edges, among them every edge a loaded text states. */
  lemma {:induction false} AddedLocallyGrows(st: Ledger, texts: seq<string>, env: Oracles)
    ensures Subgraph(st.graph, AddedLocally(st, texts, env).graph)
    ensures forall t, a, b :: t in texts && ParseEdge(t) == Some((a, b)) ==> HasEdge(AddedLocally(st, texts, env).graph, a, b)
    decreases |texts|
  {
    if texts != [] {
      var init, last := texts[..|texts| - 1], texts[|texts| - 1];
      AddedLocallyGrows(st, init, env);
      UpdateEdges(AddedLocally(st, init, env).graph, last);
      assert forall t :: t in texts ==> t in init || t == last;
    }
  }

  /** Loading the local file goes through `add_memory`, so it keeps the
      ledger invariant: at most `MaxRaw` raw records afterwards. */
  lemma {:induction false} AddedAllValid(st: Ledger, name: string, texts: seq<string>, env: Oracles)
    requires Valid(st)
    ensures Valid(AddedAll(st, name, texts, env))
    decreases |texts|
  {
    if texts != [] {
      AddedAllValid(st, name, texts[..|texts| - 1], env);
      AddedValid(AddedAll(st, name, texts[..|texts| - 1], env), name, texts[|texts| - 1], false, env);
    }
  }

  /** `_load_mem0_memories` on the ledger `st`, with or without a client:
      the new ledger and the boolean it returns. */
  function Mem0Loaded(st: Ledger, client: bool, remote: Option<seq<Json>>, env: Oracles): (Ledger, bool) {
    if !client || remote.None? then (st, false)
    else
      var acc := Accepted(remote.value, false);
      (AddedLocally(st, acc.0, env), remote.value != [] && !acc.1)
  }

  /** The local memories file as the loader finds it. */
  datatype LocalFile = Missing | Unparsable | Entries(items: seq<Json>)

  /** `_load_local_memories`: the new ledger and whether it raised. */
  function LocalLoaded(st: Ledger, name: string, file: LocalFile, env: Oracles): (Ledger, bool) {
    match file
    case Missing => (st, false)
    case Unparsable => (st, true)
    case Entries(items) =>
      var acc := Accepted(items, true);
      (AddedAll(st, name, acc.0, env), acc.1)
  }

  /** The first-use load: Mem0, and the local file when Mem0 did not succeed. */
  function StartupLoaded(st: Ledger, name: string, client: bool, remote: Option<seq<Json>>,
                         file: LocalFile, env: Oracles): Ledger {
    var m := Mem0Loaded(st, client, remote, env);
    if m.1 then m.0 else LocalLoaded(m.0, name, file, env).0
  }

  /** A successful Mem0 load holds exactly the Mem0 texts after the old
      records; a failed one leaves any records it added, then reads the file. */
  lemma StartupSources(st: Ledger, name: string, client: bool, remote: Option<seq<Json>>,
                       file: LocalFile, env: Oracles)
    ensures Mem0Loaded(st, client, remote, env).1 ==>
      client && remote.Some? && remote.value != []
      && Texts(StartupLoaded(st, name, client, remote, file, env).memory)
         == Texts(st.memory) + Accepted(remote.value, false).0
    ensures !client || remote.None? ==>
      StartupLoaded(st, name, client, remote, file, env) == LocalLoaded(st, name, file, env).0
  {
    var m := Mem0Loaded(st, client, remote, env);
    if m.1 {
      var texts := Accepted(remote.value, false).0;
      AddedLocallyShape(st, texts, env);
      assert Texts(LocalRecords(texts, env)) == texts;
      TextsConcat(st.memory, LocalRecords(texts, env));
    }
  }

  // ================================================================ retrieval, on values

  /** The text of one Mem0 search hit, if it is kept. */
  function Hit(j: Json): Option<string> {
    match j
    case JObj(f) =>
      var t := Get(f, "memory", Get(f, "text", JStr("")));
      if t.JStr? && t.s != "" then Some(t.s) else None
    case JStr(s) => Some(s)
    case _ => None
  }

  /** The kept texts of a Mem0 answer, in order. */
  function Hits(items: seq<Json>): (r: seq<string>)
    ensures |r| <= |items|
  {
    if items == [] then []
    else Hits(items[..|items| - 1]) + (match Hit(items[|items| - 1]) case Some(t) => [t] case None => [])
  }

  lemma {:induction false} HitsSound(items: seq<Json>)
    ensures forall t :: t in Hits(items) ==> exists j :: j in items && Hit(j) == Some(t)
    ensures Hits(items) == [] <==> forall j :: j in items ==> Hit(j).None?
  {
    if items != [] {
      var init, last := items[..|items| - 1], items[|items| - 1];
      HitsSound(init);
      assert forall j :: j in init ==> j in items;
      assert last in items;
      if Hits(items) == [] {
        forall j | j in items ensures Hit(j).None? {
          assert j in init || j == last;
        }
      }
    }
  }

  /** What a Mem0 search contributes: nothing without a client or when it raised. */
  function SearchHits(client: bool, remote: Option<seq<Json>>): seq<string> {
    if client && remote.Some? then Hits(remote.value) else []
  }

  // ================================================================ reflection

  /** One exchange of a conversation history. */
  datatype Turn = Turn(user: string, agent: string)

  function ConversationText(history: seq<Turn>): string {
    Join("\n", seq(|history|, i requires 0 <= i < |history| =>
                     "User: " + history[i].user + "\nLars: " + history[i].agent))
  }

  const ReflectionHead := "\nAs Lars, reflect on this conversation and identify what you learned about yourself, the user, or new insights you gained.\n\nConversation:\n"
  const ReflectionTail := "\n\nInstructions:\n1. Write a brief reflection from Lars' perspective (100-150 words)\n2. Note any new insights about yourself or the user\n3. Identify topics you'd like to explore further\n4. Use Lars' authentic voice and speaking style\n\nFormat your response as a JSON object:\n{\n    \"reflection\": \"Your reflection as Lars...\",\n    \"new_insights\": [\"insight 1\", \"insight 2\", ...],\n    \"topics_to_explore\": [\"topic 1\", \"topic 2\", ...],\n    \"user_observations\": \"What you learned about the user...\"\n}\n"

  function ReflectionPrompt(history: seq<Turn>): string {
    ReflectionHead + ConversationText(history) + ReflectionTail
  }

  /** The reflection dict with empty insight lists. */
  function ReflectionDict(text: string): (r: Json)
    ensures r.JObj? && "reflection" in r.fields && r.fields["reflection"] == JStr(text)
    ensures r.JObj? && r.fields.Keys == {"reflection", "new_insights", "topics_to_explore", "user_observations"}
  {
    JObj(map["reflection" := JStr(text), "new_insights" := JList([]),
             "topics_to_explore" := JList([]), "user_observations" := JStr("")])
  }

  const MissingHelper := "ImportError: cannot import name 'clean_json_response' from 'generate_profile'"

  /** `reflect_on_conversation` as written: the cleaning helper it imports
      outside its `try` is not defined by generate_profile.py, so every
      non-empty history raises. */
  function ReflectAsWritten(history: seq<Turn>): Result<Json> {
    if history == [] then Ok(JStr(""))
    else Err(MissingHelper)
  }

  lemma ReflectAsWrittenRaises(history: seq<Turn>)
    requires history != []
    ensures ReflectAsWritten(history) == Err(MissingHelper)
  {
  }

  /** The utterance generator as `reflect_on_conversation` calls it: Lars's
      name and the agent's personality, no memories and no graph context. */
  function ReflectionGenerator(personality: string, transcripts: map<string, Utterance.TextFile>,
                               show: Json -> string, llm: string -> string): string -> string {
    prompt => Utterance.GenerateUtterance(LarsName, personality, prompt, "", "", transcripts, show, llm)
  }

  /** `reflect_on_conversation` with the cleaning helper available: `generate`
      is the utterance generator (`ReflectionGenerator`), `failed` says
      whether calling it raised, and `parse` is cleaning plus `json.loads`
      (`None` for a decode error). */
  function Reflect(history: seq<Turn>, generate: string -> string, failed: bool, parse: string -> Option<Json>): Json {
    if history == [] then JStr("")
    else if failed then ReflectionDict("Reflection generation failed")
    else
      var raw := generate(ReflectionPrompt(history));
      match parse(raw)
      case Some(j) => j
      case None => ReflectionDict(raw)
  }

  /** The corrected reflection never raises: it agrees with the code as
      written on the empty history, where the code as written does not raise;
      a failed generation gives the fallback dict; a reply that is not JSON is
      kept as the reflection text with empty lists. */
  lemma ReflectOutcomes(history: seq<Turn>, generate: string -> string, failed: bool, parse: string -> Option<Json>)
    ensures history == [] ==> ReflectAsWritten(history) == Ok(Reflect(history, generate, failed, parse))
    ensures history != [] ==> ReflectAsWritten(history).Err?
    ensures history != [] && failed ==> Reflect(history, generate, failed, parse) == ReflectionDict("Reflection generation failed")
    ensures var raw := generate(ReflectionPrompt(history));
      history != [] && !failed ==>
        Reflect(history, generate, failed, parse) == (if parse(raw).Some? then parse(raw).value else ReflectionDict(raw))
  {
  }

  // ================================================================ the agent

  class Lars {
    /** The base agent Lars extends. */
    const agent: Agent
    const samplePhrases: seq<string>
    /** Whether the Mem0 SDK imported. */
    const mem0Available: bool
    var memoriesLoaded: bool
    var hasClient: bool

    constructor (description: string, personalityType: string, styleGuide: string,
                 samplePhrases: seq<string>, mem0Available: bool, disk: Disk)
      ensures agent.name == LarsName && agent.voiceId == LarsVoice && agent.disk == disk
      ensures agent.personality == FullPersonality(description, styleGuide, personalityType)
      ensures agent.State() == Ledger([], map[], 0, disk.files) && Valid(agent.State())
      ensures this.samplePhrases == samplePhrases && this.mem0Available == mem0Available
      ensures !memoriesLoaded && !hasClient
      ensures fresh(agent)
    {
      agent := new Agent(LarsName, FullPersonality(description, styleGuide, personalityType), LarsVoice, disk);
      this.samplePhrases := samplePhrases;
      this.mem0Available := mem0Available;
      memoriesLoaded := false;
      hasClient := false;
    }

    /** `_get_mem0_client`: created at most once, and kept once created. */
    method GetClient(setup: ClientSetup) returns (client: bool)
      modifies this
      ensures hasClient == (old(hasClient) || (mem0Available && setup.SetsClient()))
      ensures client == hasClient
      ensures memoriesLoaded == old(memoriesLoaded)
    {
      if !hasClient && mem0Available {
        if setup.SetsClient() {
          hasClient := true;
        }
      }
      client := hasClient;
    }

    /** `_add_memory_local_only(text)` */
    method AddLocalOnly(text: string, env: Oracles)
      modifies agent
      ensures agent.State() == Appended(old(agent.State()), text, false, env)
    {
      agent.memory := agent.memory + [Record(text, false, env)];
      agent.UpdateGraph(text);
    }

    /** `_load_mem0_memories`; `remote` is the client's `get_all` answer. */
    method LoadMem0(setup: ClientSetup, remote: Option<seq<Json>>, env: Oracles) returns (ok: bool)
      modifies this, agent
      ensures hasClient == (old(hasClient) || (mem0Available && setup.SetsClient()))
      ensures memoriesLoaded == old(memoriesLoaded)
      ensures (agent.State(), ok) == Mem0Loaded(old(agent.State()), hasClient, remote, env)
    {
      var client := GetClient(setup);
      if !client || remote.None? {
        return false;
      }
      var items := remote.value;
      ghost var st0 := agent.State();
      ghost var done: seq<string> := [];
      var i := 0;
      assert items[..0] == [];
      while i < |items|
        invariant 0 <= i <= |items|
        invariant Accepted(items[..i], false) == (done, false)
        invariant agent.State() == AddedLocally(st0, done, env)
        invariant hasClient && memoriesLoaded == old(memoriesLoaded)
      {
        var e := ReadEntry(items, false, i, done);
        if e.Raise? {
          AcceptedStops(items, false, i + 1);
          return false;
        }
        if e.Take? {
          AddedLocallySnoc(st0, done, e.text, env);
          AddLocalOnly(e.text, env);
          done := done + [e.text];
        }
        i := i + 1;
      }
      TakeAll(items);
      ok := items != [];
    }

    /** `_load_local_memories`: each accepted text goes through `add_memory`;
        `raised` says the load raised part-way (or could not parse the file). */
    method LoadLocal(file: LocalFile, env: Oracles) returns (raised: bool)
      modifies agent, agent.disk
      ensures (agent.State(), raised) == LocalLoaded(old(agent.State()), agent.name, file, env)
    {
      if !file.Entries? {
        return file.Unparsable?;
      }
      var items := file.items;
      ghost var st0 := agent.State();
      ghost var done: seq<string> := [];
      var i := 0;
      assert items[..0] == [];
      while i < |items|
        invariant 0 <= i <= |items|
        invariant Accepted(items[..i], true) == (done, false)
        invariant agent.State() == AddedAll(st0, agent.name, done, env)
      {
        var e := ReadEntry(items, true, i, done);
        if e.Raise? {
          AcceptedStops(items, true, i + 1);
          return true;
        }
        if e.Take? {
          AddedAllSnoc(st0, agent.name, done, e.text, env);
          agent.AddMemory(e.text, false, env);
          done := done + [e.text];
        }
        i := i + 1;
      }
      TakeAll(items);
      raised := false;
    }

    /** `_ensure_memories_loaded`: loads once; the flag is set even when the
        load raised. */
    method EnsureMemoriesLoaded(setup: ClientSetup, remote: Option<seq<Json>>, file: LocalFile, env: Oracles)
      modifies this, agent, agent.disk
      ensures memoriesLoaded
      ensures old(memoriesLoaded) ==> agent.State() == old(agent.State()) && hasClient == old(hasClient)
      ensures !old(memoriesLoaded) ==>
        hasClient == (old(hasClient) || (mem0Available && setup.SetsClient()))
        && agent.State() == StartupLoaded(old(agent.State()), agent.name, hasClient, remote, file, env)
    {
      if !memoriesLoaded {
        var ok := LoadMem0(setup, remote, env);
        if !ok {
          var raised := LoadLocal(file, env);
        }
        memoriesLoaded := true;
      }
    }

    /** `retrieve_memories(query, top_k)`: the Mem0 hits when there are any,
        else the base agent's retrieval. */
    method RetrieveMemories(query: string, topK: int, setup: ClientSetup, remote: Option<seq<Json>>,
                            embed: string -> Embedding, sim: (Embedding, Embedding) -> real)
      returns (r: seq<string>)
      modifies this, agent
      ensures hasClient == (old(hasClient) || (mem0Available && setup.SetsClient()))
      ensures memoriesLoaded == old(memoriesLoaded)
      ensures SearchHits(hasClient, remote) != [] ==>
        r == SearchHits(hasClient, remote) && agent.State() == old(agent.State())
      ensures SearchHits(hasClient, remote) == [] ==>
        r == Retrieved(WithEmbeddings(old(agent.memory), embed), embed(query), topK, sim)
        && agent.State() == old(agent.State()).(memory := WithEmbeddings(old(agent.memory), embed))
    {
      var client := GetClient(setup);
      r := [];
      if client && remote.Some? {
        var items := remote.value;
        var i := 0;
        while i < |items|
          invariant 0 <= i <= |items|
          invariant r == Hits(items[..i])
        {
          assert items[..i + 1][..i] == items[..i];
          var h := Hit(items[i]);
          if h.Some? {
            r := r + [h.value];
          }
          i := i + 1;
        }
        TakeAll(items);
      }
      if r == [] {
        r := agent.RetrieveMemories(query, topK, embed, sim);
      }
    }

    /** `generate_response(user_msg)`: retrieve, look up the graph and reply
        with the enhanced personality; the exchange is not recorded. */
    method GenerateResponse(userMsg: string, setup: ClientSetup, remote: Option<seq<Json>>, env: Oracles,
                            sim: (Embedding, Embedding) -> real,
                            transcripts: map<string, Utterance.TextFile>, show: Json -> string)
      returns (response: string, ghost nodes: seq<string>)
      modifies this, agent
      ensures hasClient == (old(hasClient) || (mem0Available && setup.SetsClient()))
      ensures forall n :: n in nodes <==> n in Succ(old(agent.graph), Seeds(old(agent.graph), userMsg))
      ensures var hits := SearchHits(hasClient, remote);
        var relevant := if hits != [] then hits
                        else Retrieved(WithEmbeddings(old(agent.memory), env.embed), env.embed(userMsg), ReplyTopK, sim);
        response == Utterance.GenerateUtterance(
          agent.name, EnhancedPersonality(agent.personality, samplePhrases), userMsg,
          Join("\n", relevant), Join(", ", nodes), transcripts, show, env.llm)
      ensures Texts(agent.memory) == Texts(old(agent.memory))
      ensures agent.graph == old(agent.graph) && agent.unsynced == old(agent.unsynced)
      ensures memoriesLoaded == old(memoriesLoaded)
    {
      ghost var g0 := agent.graph;
      var relevant := RetrieveMemories(userMsg, ReplyTopK, setup, remote, env.embed, sim);
      EmbeddingsOnly(old(agent.memory), env.embed);
      assert agent.graph == g0;
      var found := Context(agent.graph, userMsg, 1);
      nodes := found;
      response := Utterance.GenerateUtterance(agent.name, EnhancedPersonality(agent.personality, samplePhrases),
                                              userMsg, Join("\n", relevant), Join(", ", found),
                                              transcripts, show, env.llm);
    }
  }
}
