/**
 * The local-to-cloud memory sync of sync_memories_to_mem0.py: categorising a
 * memory by keyword groups, collecting the texts already in the cloud,
 * selecting the local memories to upload, and the metadata each upload
 * carries. The Mem0 client's answers are parameters.
 */
module SyncToMem0 {
  import opened Wrappers
  import opened Py
  import opened PyJson
  import MemoryRecord
  import MemoryUtils
  import AgentCore

  // ================================================================ categorising

  const BiographicalWords := ["i am", "my name", "years old", "born", "from"]
  const PreferenceWords := ["i like", "i prefer", "i enjoy", "favorite", "love"]
  const SkillWords := ["i can", "i know", "i learned", "experienced in"]
  const BeliefWords := ["i believe", "i think", "my opinion", "i feel"]
  const EventWords := ["i went", "i did", "happened", "i visited"]

  /** The `{"type": ..., "tags": [...]}` result of `categorize_memory`. */
  datatype Category = Category(kind: string, tags: seq<string>)

  /** `any(word in text for word in words)` */
  predicate Mentions(text: string, words: seq<string>) {
    exists k :: 0 <= k < |words| && Contains(text, words[k])
  }

  /** The fixed tags of each type. */
  function TagsOf(kind: string): seq<string> {
    match kind
    case "biographical" => ["personal", "identity"]
    case "preference" => ["preferences", "likes"]
    case "skill" => ["skills", "abilities"]
    case "belief" => ["beliefs", "opinions"]
    case "event" => ["events", "experiences"]
    case _ => ["general"]
  }

  /** `categorize_memory(text)`: the first keyword group found in the
      lower-cased text decides the type. */
  function Categorize(text: string): Category {
    var low := Lower(text);
    var kind :=
      if Mentions(low, BiographicalWords) then "biographical"
      else if Mentions(low, PreferenceWords) then "preference"
      else if Mentions(low, SkillWords) then "skill"
      else if Mentions(low, BeliefWords) then "belief"
      else if Mentions(low, EventWords) then "event"
      else "general";
    Category(kind, TagsOf(kind))
  }

  /** Every text gets one of six types with that type's tags, and a group wins
      exactly when it matches and no earlier group does. */
  lemma CategorizeOrder(text: string)
    ensures var c := Categorize(text);
      c.kind in {"biographical", "preference", "skill", "belief", "event", "general"} && c.tags == TagsOf(c.kind)
    ensures var low := Lower(text);
      && (Categorize(text).kind == "biographical" <==> Mentions(low, BiographicalWords))
      && (Categorize(text).kind == "preference" <==>
            !Mentions(low, BiographicalWords) && Mentions(low, PreferenceWords))
      && (Categorize(text).kind == "skill" <==>
            !Mentions(low, BiographicalWords) && !Mentions(low, PreferenceWords) && Mentions(low, SkillWords))
      && (Categorize(text).kind == "belief" <==>
            !Mentions(low, BiographicalWords) && !Mentions(low, PreferenceWords) && !Mentions(low, SkillWords)
            && Mentions(low, BeliefWords))
      && (Categorize(text).kind == "event" <==>
            !Mentions(low, BiographicalWords) && !Mentions(low, PreferenceWords) && !Mentions(low, SkillWords)
            && !Mentions(low, BeliefWords) && Mentions(low, EventWords))
  {
  }

  /** Matching ignores case: a text and its lower-cased form get the same category. */
  lemma CategorizeIgnoresCase(text: string)
    ensures Categorize(Lower(text)) == Categorize(text)
  {
    LowerIdempotent(text);
  }

  // ================================================================ cloud texts

  /** The text one cloud memory contributes (`None` for an empty one); `Err`
      when a dict's text is a truthy non-string, which the set cannot hold or
      the substring test cannot search. */
  function CloudText(mem: Json, show: Json -> string): Result<Option<string>> {
    var t := match mem
      case JObj(f) => Get(f, "memory", Get(f, "text", JStr("")))
      case JStr(_) => mem
      case _ => JStr(show(mem));
    if !Truthy(t) then Ok(None)
    else if t.JStr? then Ok(Some(t.s))
    else Err("TypeError")
  }

  /** `cloud_memory_texts`, built over the cloud list. */
  function CloudTexts(mems: seq<Json>, show: Json -> string): Result<set<string>> {
    if mems == [] then Ok({})
    else match CloudTexts(mems[..|mems| - 1], show)
      case Err(e) => Err(e)
      case Ok(texts) =>
        match CloudText(mems[|mems| - 1], show)
        case Err(e) => Err(e)
        case Ok(None) => Ok(texts)
        case Ok(Some(t)) => Ok(texts + {t})
  }

  /** The set holds exactly the non-empty texts of the cloud memories. */
  lemma {:induction false} CloudTextsExact(mems: seq<Json>, show: Json -> string)
    requires CloudTexts(mems, show).Ok?
    ensures "" !in CloudTexts(mems, show).value
    ensures forall t :: t in CloudTexts(mems, show).value <==> exists m :: m in mems && CloudText(m, show) == Ok(Some(t))
    decreases |mems|
  {
    if mems != [] {
      var init, last := mems[..|mems| - 1], mems[|mems| - 1];
      CloudTextsExact(init, show);
      assert mems == init + [last];
      var prev, c := CloudTexts(init, show).value, CloudText(last, show).value;
      assert CloudTexts(mems, show).value == prev + (if c.Some? then {c.value} else {});
      forall t ensures t in CloudTexts(mems, show).value <==> exists m :: m in mems && CloudText(m, show) == Ok(Some(t)) {
        if t in prev {
          var m :| m in init && CloudText(m, show) == Ok(Some(t));
          assert m in mems;
        }
        if exists m :: m in mems && CloudText(m, show) == Ok(Some(t)) {
          var m :| m in mems && CloudText(m, show) == Ok(Some(t));
          assert m in init || m == last;
        }
      }
    }
  }

  /** The loop of `main` that fills `cloud_memory_texts`. */
  method CollectCloudTexts(mems: seq<Json>, show: Json -> string) returns (r: Result<set<string>>)
    ensures r == CloudTexts(mems, show)
  {
    var texts: set<string> := {};
    var i := 0;
    while i < |mems|
      invariant 0 <= i <= |mems|
      invariant CloudTexts(mems[..i], show) == Ok(texts)
    {
      TakeNext(mems, i);
      var mem := mems[i];
      var text: Json;
      if mem.JObj? {
        text := Get(mem.fields, "memory", Get(mem.fields, "text", JStr("")));
      } else if mem.JStr? {
        text := mem;
      } else {
        text := JStr(show(mem));
      }
      assert CloudText(mem, show) == (if !Truthy(text) then Ok(None) else if text.JStr? then Ok(Some(text.s)) else Err("TypeError"));
      if Truthy(text) {
        if !text.JStr? {
          assert CloudTexts(mems[..i + 1], show) == Err("TypeError");
          CloudTextsFail(mems, show, i + 1);
          return Err("TypeError");
        }
        assert CloudTexts(mems[..i + 1], show) == Ok(texts + {text.s});
        texts := texts + {text.s};
      } else {
        assert CloudTexts(mems[..i + 1], show) == Ok(texts);
      }
      i := i + 1;
    }
    TakeAll(mems);
    r := Ok(texts);
  }

  lemma {:induction false} CloudTextsFail(mems: seq<Json>, show: Json -> string, k: nat)
    requires k <= |mems| && CloudTexts(mems[..k], show).Err?
    ensures CloudTexts(mems, show) == CloudTexts(mems[..k], show)
    decreases |mems| - k
  {
    if k < |mems| {
      TakeNext(mems, k);
      CloudTextsFail(mems, show, k + 1);
    } else {
      assert mems[..k] == mems;
    }
  }

  // ================================================================ selection

  /** What `main` queues for one local memory. */
  datatype Upload = Upload(text: string, timestamp: Json, isSummary: Json)

  /** `mem.get("text", "").strip()`; `None` when that raises. */
  function LocalText(mem: Json): Option<string> {
    if !mem.JObj? then None
    else match Get(mem.fields, "text", JStr(""))
      case JStr(s) => Some(Strip(s))
      case _ => None
  }

  /** Empty texts and rollup summaries are never uploaded. */
  predicate Skipped(text: string) {
    text == "" || "(summary)" <= text
  }

  /** The first 100 characters occur in some cloud text. */
  predicate InCloud(text: string, cloud: set<string>) {
    exists c :: c in cloud && Contains(c, SliceTo(text, 100))
  }

  /** The queued entry for a memory: its text, its "timestamp" (`None` when
      missing) and its "is_summary" (false when missing). */
  function Queued(mem: Json, text: string): Upload {
    var fields := if mem.JObj? then mem.fields else map[];
    Upload(text, Get(fields, "timestamp", JNull), Get(fields, "is_summary", JBool(false)))
  }

  /** A filtering pass that reads a text from each item, fails on the first
      unreadable one, and turns every kept text into an entry. */
  function Selection<T, U>(items: seq<T>, read: T -> Option<string>, keep: string -> bool, make: (T, string) -> U)
    : Result<seq<U>>
  {
    if items == [] then Ok([])
    else match Selection(items[..|items| - 1], read, keep, make)
      case Err(e) => Err(e)
      case Ok(done) =>
        var item := items[|items| - 1];
        match read(item)
        case None => Err("AttributeError")
        case Some(t) => if keep(t) then Ok(done + [make(item, t)]) else Ok(done)
  }

  /** One more item read by a selection that has not failed yet. */
  lemma SelectionNext<T, U>(items: seq<T>, read: T -> Option<string>, keep: string -> bool,
                            make: (T, string) -> U, i: nat)
    requires i < |items| && Selection(items[..i], read, keep, make).Ok?
    ensures Selection(items[..i + 1], read, keep, make) == match read(items[i])
      case None => Err("AttributeError")
      case Some(t) =>
        if keep(t) then Ok(Selection(items[..i], read, keep, make).value + [make(items[i], t)])
        else Selection(items[..i], read, keep, make)
  {
    TakeNext(items, i);
  }

  lemma {:induction false} SelectionSound<T, U>(items: seq<T>, read: T -> Option<string>, keep: string -> bool,
                                                 make: (T, string) -> U)
    requires Selection(items, read, keep, make).Ok?
    ensures forall u :: u in Selection(items, read, keep, make).value ==>
      exists i :: 0 <= i < |items| && read(items[i]).Some? && keep(read(items[i]).value)
                  && u == make(items[i], read(items[i]).value)
    decreases |items|
  {
    if items != [] {
      var init := items[..|items| - 1];
      SelectionSound(init, read, keep, make);
      forall u | u in Selection(items, read, keep, make).value
        ensures exists i :: 0 <= i < |items| && read(items[i]).Some? && keep(read(items[i]).value)
                            && u == make(items[i], read(items[i]).value)
      {
        if u in Selection(init, read, keep, make).value {
          var i :| 0 <= i < |init| && read(init[i]).Some? && keep(read(init[i]).value)
                   && u == make(init[i], read(init[i]).value);
          assert init[i] == items[i];
        } else {
          assert u == make(items[|items| - 1], read(items[|items| - 1]).value);
        }
      }
    }
  }

  lemma {:induction false} SelectionReadsAll<T, U>(items: seq<T>, read: T -> Option<string>, keep: string -> bool,
                                                    make: (T, string) -> U, j: nat)
    requires Selection(items, read, keep, make).Ok? && j < |items|
    ensures read(items[j]).Some?
    decreases |items|
  {
    if j < |items| - 1 {
      assert items[..|items| - 1][j] == items[j];
      SelectionReadsAll(items[..|items| - 1], read, keep, make, j);
    }
  }

  lemma {:induction false} SelectionHas<T, U>(items: seq<T>, read: T -> Option<string>, keep: string -> bool,
                                               make: (T, string) -> U, j: nat)
    requires Selection(items, read, keep, make).Ok? && j < |items|
    requires read(items[j]).Some? && keep(read(items[j]).value)
    ensures make(items[j], read(items[j]).value) in Selection(items, read, keep, make).value
    decreases |items|
  {
    var init := items[..|items| - 1];
    if j < |items| - 1 {
      assert init[j] == items[j];
      SelectionHas(init, read, keep, make, j);
      assert Selection(init, read, keep, make).value <= Selection(items, read, keep, make).value;
    }
  }

  lemma {:induction false} SelectionFail<T, U>(items: seq<T>, read: T -> Option<string>, keep: string -> bool,
                                                make: (T, string) -> U, k: nat)
    requires k <= |items| && Selection(items[..k], read, keep, make).Err?
    ensures Selection(items, read, keep, make) == Selection(items[..k], read, keep, make)
    decreases |items| - k
  {
    if k < |items| {
      TakeNext(items, k);
      SelectionFail(items, read, keep, make, k + 1);
    } else {
      assert items[..k] == items;
    }
  }

  /** Keeps a local text: neither empty nor a summary, and not in the cloud. */
  predicate Kept(text: string, cloud: set<string>) {
    !Skipped(text) && !InCloud(text, cloud)
  }

  /** `memories_to_upload`, built over the local list. */
  function Selected(local: seq<Json>, cloud: set<string>): Result<seq<Upload>> {
    Selection(local, LocalText, t => Kept(t, cloud), Queued)
  }

  /** Every queued memory is a kept local memory, queued with its own fields;
      a selection that succeeds read every local text; and every kept local
      memory is queued. */
  lemma SelectedExact(local: seq<Json>, cloud: set<string>)
    requires Selected(local, cloud).Ok?
    ensures forall u :: u in Selected(local, cloud).value ==>
      exists i :: 0 <= i < |local| && LocalText(local[i]) == Some(u.text) && Kept(u.text, cloud) && u == Queued(local[i], u.text)
    ensures forall i :: 0 <= i < |local| ==> LocalText(local[i]).Some?
    ensures forall i :: 0 <= i < |local| && LocalText(local[i]).Some? && Kept(LocalText(local[i]).value, cloud) ==>
      Queued(local[i], LocalText(local[i]).value) in Selected(local, cloud).value
  {
    var keep := t => Kept(t, cloud);
    SelectionSound(local, LocalText, keep, Queued);
    forall i | 0 <= i < |local| ensures LocalText(local[i]).Some? {
      SelectionReadsAll(local, LocalText, keep, Queued, i);
    }
    forall i | 0 <= i < |local| && LocalText(local[i]).Some? && Kept(LocalText(local[i]).value, cloud)
      ensures Queued(local[i], LocalText(local[i]).value) in Selected(local, cloud).value
    {
      SelectionHas(local, LocalText, keep, Queued, i);
    }
  }

  /** A record the agent's rollup wrote, saved by the agent, is never queued. */
  lemma RollupSummariesSkipped(m: MemoryRecord.Memory)
    requires AgentCore.SummaryPrefix <= m.text
    ensures LocalText(JObj(MemoryUtils.ToDict(m))).Some? && Skipped(LocalText(JObj(MemoryUtils.ToDict(m))).value)
  {
    var s := m.text;
    assert s[0] == '(' && !IsSpace(s[0]);
    var l := LStrip(s);
    assert l == s;
    var r := RStrip(l);
    assert s[8] == ')' && !IsSpace(s[8]);
    assert |r| >= 9;
    assert r[..9] == s[..9];
  }

  /** The selection loop of `main`. */
  method SelectUploads(local: seq<Json>, cloud: set<string>) returns (r: Result<seq<Upload>>)
    ensures r == Selected(local, cloud)
  {
    var queue: seq<Upload> := [];
    var i := 0;
    while i < |local|
      invariant 0 <= i <= |local|
      invariant Selected(local[..i], cloud) == Ok(queue)
    {
      SelectionNext(local, LocalText, t => Kept(t, cloud), Queued, i);
      var mem := local[i];
      var text := LocalText(mem);
      if text.None? {
        SelectionFail(local, LocalText, t => Kept(t, cloud), Queued, i + 1);
        return Err("AttributeError");
      }
      var t := text.value;
      if Kept(t, cloud) {
        assert Selected(local[..i + 1], cloud) == Ok(queue + [Queued(mem, t)]);
        queue := queue + [Queued(mem, t)];
      } else {
        assert Selected(local[..i + 1], cloud) == Ok(queue);
      }
      i := i + 1;
    }
    TakeAll(local);
    r := Ok(queue);
  }

  // ================================================================ metadata

  /** The metadata `main` prepares for one queued memory. */
  function MainMetadata(u: Upload): map<string, Json> {
    var c := Categorize(u.text);
    var base := map["type" := JStr(c.kind), "tags" := JList(Strs(c.tags)),
                    "source" := JStr("local_sync"), "category" := JStr(c.kind)];
    var stamped := if Truthy(u.timestamp) then base["timestamp" := u.timestamp] else base;
    if Truthy(u.isSummary) then
      stamped["type" := JStr("summary")]["category" := JStr("summary")]
             ["tags" := JList([JStr("summary"), JStr("consolidated")])]
    else stamped
  }

  function Strs(ss: seq<string>): (r: seq<Json>)
    ensures |r| == |ss| && forall i :: 0 <= i < |ss| ==> r[i] == JStr(ss[i])
  {
    seq(|ss|, i requires 0 <= i < |ss| => JStr(ss[i]))
  }

  /** The metadata `upload_memory` hands to the client, given the caller's
      metadata (`None` when it passed none). */
  function UploadMetadata(metadata: Option<map<string, Json>>): map<string, Json> {
    var m := map["source" := JStr("local_sync"), "category" := JStr("conversational")];
    if metadata.None? || metadata.value == map[] then m
    else
      var d := metadata.value;
      var typed := if Truthy(Get(d, "type", JNull)) then m["type" := d["type"]]["category" := d["type"]] else m;
      var tagged := if Truthy(Get(d, "tags", JNull)) then typed["tags" := d["tags"]] else typed;
      var ts := Get(d, "timestamp", JNull);
      var stamped := if Truthy(ts) then tagged["timestamp" := ts]
                     else if Truthy(Get(d, "original_timestamp", JNull)) then tagged["timestamp" := d["original_timestamp"]]
                     else tagged;
      if Truthy(Get(d, "is_summary", JNull)) then stamped["type" := JStr("summary")]["category" := JStr("summary")]
      else stamped
  }

  /** The upload metadata always names the sync as source; the category is
      "conversational" unless a type is given, and a summary overrides both;
      the timestamp comes from "timestamp", else "original_timestamp". */
  lemma UploadMetadataShape(metadata: Option<map<string, Json>>)
    ensures var r := UploadMetadata(metadata);
      "source" in r && r["source"] == JStr("local_sync") && "category" in r
    ensures var r := UploadMetadata(metadata);
      var d := if metadata.Some? then metadata.value else map[];
      && (Truthy(Get(d, "is_summary", JNull)) ==> r["category"] == JStr("summary") && r["type"] == JStr("summary"))
      && (!Truthy(Get(d, "is_summary", JNull)) && Truthy(Get(d, "type", JNull)) ==> r["category"] == d["type"] && r["type"] == d["type"])
      && (!Truthy(Get(d, "is_summary", JNull)) && !Truthy(Get(d, "type", JNull)) ==>
            r["category"] == JStr("conversational") && "type" !in r)
    ensures var r := UploadMetadata(metadata);
      var d := if metadata.Some? then metadata.value else map[];
      && (Truthy(Get(d, "timestamp", JNull)) ==> r["timestamp"] == d["timestamp"])
      && (!Truthy(Get(d, "timestamp", JNull)) && Truthy(Get(d, "original_timestamp", JNull)) ==>
            r["timestamp"] == d["original_timestamp"])
      && (!Truthy(Get(d, "timestamp", JNull)) && !Truthy(Get(d, "original_timestamp", JNull)) ==> "timestamp" !in r)
    ensures var r := UploadMetadata(metadata);
      var d := if metadata.Some? then metadata.value else map[];
      && (Truthy(Get(d, "tags", JNull)) ==> r["tags"] == d["tags"])
      && (!Truthy(Get(d, "tags", JNull)) ==> "tags" !in r)
  {
  }

  /** The dict `main` prepares: its category (or "summary") as type, its tags
      (or the summary tags), the timestamp when there is one, and no
      "is_summary" or "original_timestamp" key. */
  lemma MainMetadataKeys(u: Upload)
    ensures var d := MainMetadata(u);
      var c := Categorize(u.text);
      && "is_summary" !in d && "original_timestamp" !in d && "type" in d && "tags" in d && d != map[]
      && d["type"] == (if Truthy(u.isSummary) then JStr("summary") else JStr(c.kind))
      && d["tags"] == (if Truthy(u.isSummary) then JList([JStr("summary"), JStr("consolidated")]) else JList(Strs(c.tags)))
      && Truthy(d["type"]) && Truthy(d["tags"])
      && ("timestamp" in d <==> Truthy(u.timestamp))
      && ("timestamp" in d ==> d["timestamp"] == u.timestamp)
  {
    CategorizeOrder(u.text);
    assert Categorize(u.text).kind != "";
  }

  /** What reaches the client for a queued memory: its category (or "summary")
      as type and category, its tags (or the summary tags), the sync source,
      and its timestamp when it has one. */
  lemma UploadedMetadata(u: Upload)
    ensures var r := UploadMetadata(Some(MainMetadata(u)));
      var c := Categorize(u.text);
      && "source" in r && "type" in r && "category" in r && "tags" in r
      && r["source"] == JStr("local_sync")
      && (Truthy(u.isSummary) ==>
            r["type"] == JStr("summary") && r["category"] == JStr("summary")
            && r["tags"] == JList([JStr("summary"), JStr("consolidated")]))
      && (!Truthy(u.isSummary) ==>
            r["type"] == JStr(c.kind) && r["category"] == JStr(c.kind) && r["tags"] == JList(Strs(c.tags)))
      && (Truthy(u.timestamp) <==> "timestamp" in r)
      && (Truthy(u.timestamp) ==> r["timestamp"] == u.timestamp)
  {
    MainMetadataKeys(u);
    UploadMetadataShape(Some(MainMetadata(u)));
  }

  /** `upload_memory(text, user_id, metadata, client)` with a client: builds the
      metadata key by key and hands it over; `added` is whether `client.add`
      succeeded. */
  method UploadMemory(text: string, metadata: Option<map<string, Json>>, added: bool)
    returns (ok: bool, sent: map<string, Json>)
    ensures sent == UploadMetadata(metadata)
    ensures ok == added
  {
    sent := map["source" := JStr("local_sync"), "category" := JStr("conversational")];
    if metadata.Some? && metadata.value != map[] {
      var d := metadata.value;
      if Truthy(Get(d, "type", JNull)) {
        sent := sent["type" := d["type"]];
        sent := sent["category" := d["type"]];
      }
      if Truthy(Get(d, "tags", JNull)) {
        sent := sent["tags" := d["tags"]];
      }
      if Truthy(Get(d, "timestamp", JNull)) || Truthy(Get(d, "original_timestamp", JNull)) {
        sent := sent["timestamp" := if Truthy(Get(d, "timestamp", JNull)) then d["timestamp"] else d["original_timestamp"]];
      }
      if Truthy(Get(d, "is_summary", JNull)) {
        sent := sent["type" := JStr("summary")];
        sent := sent["category" := JStr("summary")];
      }
    }
    ok := added;
  }

  /** The call `main` makes for a queued memory: its text and the metadata
      that reaches the client. */
  function Outgoing(u: Upload): (string, map<string, Json>) {
    (u.text, UploadMetadata(Some(MainMetadata(u))))
  }

  /** How many of `sent` the client accepted. */
  function Accepted(sent: seq<(string, map<string, Json>)>, add: (string, map<string, Json>) -> bool): nat {
    if sent == [] then 0
    else Accepted(sent[..|sent| - 1], add) + (if add(sent[|sent| - 1].0, sent[|sent| - 1].1) then 1 else 0)
  }

  /** Every queued memory as it goes out, in order. */
  function OutgoingAll(queue: seq<Upload>): (r: seq<(string, map<string, Json>)>)
    ensures |r| == |queue|
    ensures forall i :: 0 <= i < |queue| ==> r[i] == Outgoing(queue[i])
  {
    if queue == [] then []
    else OutgoingAll(queue[..|queue| - 1]) + [Outgoing(queue[|queue| - 1])]
  }

  lemma AcceptedNext(sent: seq<(string, map<string, Json>)>, out: (string, map<string, Json>),
                      add: (string, map<string, Json>) -> bool)
    ensures Accepted(sent + [out], add) == Accepted(sent, add) + (if add(out.0, out.1) then 1 else 0)
  {
    assert (sent + [out])[..|sent|] == sent;
  }

  /** One call of `upload_memory` from the loop of `main`. */
  method SendOne(u: Upload, add: (string, map<string, Json>) -> bool)
    returns (ok: bool, out: (string, map<string, Json>))
    ensures out == Outgoing(u) && ok == add(out.0, out.1)
  {
    var metadata := MainMetadata(u);
    var meta;
    ok, meta := UploadMemory(u.text, Some(metadata), add(u.text, UploadMetadata(Some(metadata))));
    out := (u.text, meta);
  }

  /** The upload loop of `main`: every queued memory is sent once, in order,
      with its metadata; `add` is the client's outcome for each call. */
  method UploadAll(queue: seq<Upload>, add: (string, map<string, Json>) -> bool)
    returns (success: nat, fail: nat, sent: seq<(string, map<string, Json>)>)
    ensures sent == OutgoingAll(queue)
    ensures success == Accepted(sent, add) && success + fail == |queue|
  {
    success, fail, sent := 0, 0, [];
    var i := 0;
    while i < |queue|
      invariant 0 <= i <= |queue|
      invariant sent == OutgoingAll(queue[..i])
      invariant success == Accepted(sent, add) && success + fail == i
    {
      var ok, out := SendOne(queue[i], add);
      AcceptedNext(sent, out, add);
      TakeNext(queue, i);
      sent := sent + [out];
      if ok {
        success := success + 1;
      } else {
        fail := fail + 1;
      }
      i := i + 1;
    }
    TakeAll(queue);
  }

  // ================================================================ the sync run

  /** How a sync run ends. */
  datatype Outcome =
    | NoLocalMemories
    | Failed(error: string)
    | AlreadySynced
    | Cancelled
    | NoClient
    | Uploaded(success: nat, fail: nat, sent: seq<(string, map<string, Json>)>)

  /** `main` after the configuration check: `local` is the local file's list,
      `cloud` the fetched cloud list (empty when fetching failed), `confirmed`
      the user's answer and `clientOk` whether the client could be created. */
  method RunSync(local: seq<Json>, cloud: seq<Json>, show: Json -> string, confirmed: bool, clientOk: bool,
                 add: (string, map<string, Json>) -> bool)
    returns (outcome: Outcome)
    ensures local == [] ==> outcome == NoLocalMemories
    ensures local != [] && CloudTexts(cloud, show).Err? ==> outcome == Failed(CloudTexts(cloud, show).error)
    ensures local != [] && CloudTexts(cloud, show).Ok? ==>
      var sel := Selected(local, CloudTexts(cloud, show).value);
      && (sel.Err? ==> outcome == Failed(sel.error))
      && (sel == Ok([]) ==> outcome == AlreadySynced)
      && (sel.Ok? && sel.value != [] && !confirmed ==> outcome == Cancelled)
      && (sel.Ok? && sel.value != [] && confirmed && !clientOk ==> outcome == NoClient)
      && (sel.Ok? && sel.value != [] && confirmed && clientOk ==>
            && outcome.Uploaded? && |outcome.sent| == |sel.value|
            && outcome.success + outcome.fail == |sel.value|
            && forall i :: 0 <= i < |sel.value| ==> outcome.sent[i] == Outgoing(sel.value[i]))
  {
    if local == [] {
      return NoLocalMemories;
    }
    var texts := CollectCloudTexts(cloud, show);
    if texts.Err? {
      return Failed(texts.error);
    }
    var queue := SelectUploads(local, texts.value);
    if queue.Err? {
      return Failed(queue.error);
    }
    if queue.value == [] {
      return AlreadySynced;
    }
    if !confirmed {
      return Cancelled;
    }
    if !clientOk {
      return NoClient;
    }
    var success, fail, sent := UploadAll(queue.value, add);
    outcome := Uploaded(success, fail, sent);
  }
}
