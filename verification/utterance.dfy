/**
 * Reply generation helpers (core/utterance_utils.py): the style-drift
 * ("fixation") detector over the agent's recent lines, transcript loading,
 * prompt assembly and the clean-up of the model's reply.
 */
module Utterance {
  import opened Wrappers
  import opened Py
  import opened PyJson

  // ================================================================ fixation: specification

  /** The agent's reply part of a line: the text after the first `marker`,
      stripped and lower-cased. */
  function UtteranceOf(line: string, marker: string): string
    requires Contains(line, marker)
  {
    Lower(Strip(SplitOnce(line, marker).1))
  }

  /** The utterances of the lines that contain `marker`, in line order. */
  function AgentUtterances(lines: seq<string>, marker: string): (r: seq<string>)
    ensures |r| <= |lines|
  {
    if lines == [] then []
    else
      var last := lines[|lines| - 1];
      AgentUtterances(lines[..|lines| - 1], marker)
      + (if Contains(last, marker) then [UtteranceOf(last, marker)] else [])
  }

  /** Only the last eight lines of the memory block are examined. */
  function RecentLines(relevant: string): (r: seq<string>)
    ensures |r| <= 8
  {
    SliceFrom(SplitOn(relevant, '\n'), -8)
  }

  function RecentUtterances(relevant: string, agentName: string): seq<string> {
    AgentUtterances(RecentLines(relevant), agentName + ":")
  }

  function QuestionCount(us: seq<string>): nat {
    if us == [] then 0
    else QuestionCount(us[..|us| - 1]) + (if Contains(us[|us| - 1], "?") then 1 else 0)
  }

  /** The 3-word windows of a word list, each joined with single spaces. */
  function Windows(ws: seq<string>): (r: seq<string>)
    ensures |r| == if |ws| >= 3 then |ws| - 2 else 0
    ensures forall j :: 0 <= j < |r| ==> r[j] == Join(" ", ws[j..j + 3])
  {
    if |ws| < 3 then [] else seq(|ws| - 2, j requires 0 <= j < |ws| - 2 => Join(" ", ws[j..j + 3]))
  }

  /** Every 3-word window of every utterance, utterance by utterance. */
  function Phrases(us: seq<string>): seq<string> {
    if us == [] then [] else Phrases(us[..|us| - 1]) + Windows(Words(us[|us| - 1]))
  }

  predicate OpensLikeQuestion(u: string) {
    "what" <= u || "how" <= u || "why" <= u || "can you" <= u || "tell me" <= u
  }

  /** Consecutive utterances that both open like a question. */
  function SimilarCount(us: seq<string>): nat {
    if |us| <= 1 then 0
    else SimilarCount(us[..|us| - 1])
         + (if OpensLikeQuestion(us[|us| - 1]) && OpensLikeQuestion(us[|us| - 2]) then 1 else 0)
  }

  /** Some word longer than four characters of `cur` also occurs in `prev`. */
  predicate Drills(prev: string, cur: string) {
    var ws := Words(cur);
    exists k :: 0 <= k < |ws| && |ws[k]| > 4 && Contains(cur, ws[k]) && Contains(prev, ws[k])
  }

  function DrillCount(us: seq<string>): nat {
    if |us| <= 1 then 0
    else DrillCount(us[..|us| - 1]) + (if Drills(us[|us| - 2], us[|us| - 1]) then 1 else 0)
  }

  /** A phrase is reported when it occurs at least twice and has three words. */
  predicate Repeated(all: seq<string>, p: string) {
    multiset(all)[p] >= 2 && |Words(p)| >= 3
  }

  /** The first element of `s` that is `Repeated` in `all`. */
  function FirstRepeated(s: seq<string>, all: seq<string>): (r: Option<string>)
    ensures r.Some? ==> r.value in s && Repeated(all, r.value)
    ensures r.None? <==> forall j :: 0 <= j < |s| ==> !Repeated(all, s[j])
  {
    if s == [] then None
    else
      var earlier := FirstRepeated(s[..|s| - 1], all);
      if earlier.Some? then earlier
      else if Repeated(all, s[|s| - 1]) then Some(s[|s| - 1])
      else None
  }

  /** The words the guidance step looks for in the detector's message. */
  const QuestionsKey := "questions"
  const PhrasesKey := "repeating phrases"
  const StructuresKey := "repetitive sentence structures"
  const DrillingKey := "drilling down"

  const QuestionsFixation := "asking too many " + QuestionsKey
  const StructureFixation := "using " + StructuresKey
  const DrillingFixation := DrillingKey + " on the same topics"

  function PhraseFixation(p: string): string {
    PhrasesKey + " like '" + p + "'"
  }

  /** `_detect_fixation_patterns(relevant, agent_name)`, stated declaratively. */
  function Fixation(relevant: string, agentName: string): Option<string> {
    if relevant == "" then None
    else
      var us := RecentUtterances(relevant, agentName);
      if |us| < 3 then None
      else if QuestionCount(us) >= 3 then Some(QuestionsFixation)
      else RepetitionFixation(us)
  }

  /** The phrase rule, and the last two rules when no phrase repeats. */
  function RepetitionFixation(us: seq<string>): Option<string> {
    var ps := Phrases(us);
    match FirstRepeated(ps, ps)
    case Some(p) => Some(PhraseFixation(p))
    case None => StyleFixation(us)
  }

  /** The last two rules: similar openings, then drilling down on one topic. */
  function StyleFixation(us: seq<string>): Option<string> {
    if SimilarCount(us) >= 2 then Some(StructureFixation)
    else if DrillCount(us) >= 3 then Some(DrillingFixation)
    else None
  }

  // ================================================================ fixation: properties

  lemma {:induction false} PhrasesHaveThreeWords(us: seq<string>)
    ensures forall k :: 0 <= k < |Phrases(us)| ==> |Words(Phrases(us)[k])| == 3
    decreases |us|
  {
    if us != [] {
      PhrasesHaveThreeWords(us[..|us| - 1]);
      var ws := Words(us[|us| - 1]);
      var win := Windows(ws);
      forall j | 0 <= j < |win|
        ensures |Words(win[j])| == 3
      {
        WordsOfJoin(ws[j..j + 3]);
      }
    }
  }

  lemma {:induction false} FirstRepeatedAt(s: seq<string>, all: seq<string>, i: nat)
    requires i < |s| && Repeated(all, s[i])
    requires forall j :: 0 <= j < i ==> !Repeated(all, s[j])
    ensures FirstRepeated(s, all) == Some(s[i])
  {
    TakeNext(s, i);
    FirstRepeatedExtend(s[..i + 1], s[i + 1..], all);
    assert s[..i + 1] + s[i + 1..] == s;
  }

  /** A 3-word phrase said at least twice in the recent utterances is reported
      unless the question rule fires first, and it is the earliest such phrase;
      with no repeated phrase the phrase rule never fires. */
  lemma PhraseRepetitionReported(relevant: string, agentName: string)
    requires relevant != ""
    requires |RecentUtterances(relevant, agentName)| >= 3
    requires QuestionCount(RecentUtterances(relevant, agentName)) < 3
    ensures var ps := Phrases(RecentUtterances(relevant, agentName));
      forall i :: 0 <= i < |ps| && multiset(ps)[ps[i]] >= 2
                  && (forall j :: 0 <= j < i ==> multiset(ps)[ps[j]] < 2)
        ==> Fixation(relevant, agentName) == Some(PhraseFixation(ps[i]))
    ensures var ps := Phrases(RecentUtterances(relevant, agentName));
      (forall i :: 0 <= i < |ps| ==> multiset(ps)[ps[i]] < 2)
        ==> Fixation(relevant, agentName) == StyleFixation(RecentUtterances(relevant, agentName))
  {
    var us := RecentUtterances(relevant, agentName);
    assert Fixation(relevant, agentName) == RepetitionFixation(us);
    RepetitionByCount(us);
  }

  lemma RepetitionByCount(us: seq<string>)
    ensures var ps := Phrases(us);
      forall i :: 0 <= i < |ps| && multiset(ps)[ps[i]] >= 2
                  && (forall j :: 0 <= j < i ==> multiset(ps)[ps[j]] < 2)
        ==> RepetitionFixation(us) == Some(PhraseFixation(ps[i]))
    ensures var ps := Phrases(us);
      (forall i :: 0 <= i < |ps| ==> multiset(ps)[ps[i]] < 2) ==> RepetitionFixation(us) == StyleFixation(us)
  {
    PhrasesHaveThreeWords(us);
    FirstRepeatedByCount(Phrases(us));
  }

  /** Among three-word phrases, the first repeated one is the first counted twice. */
  lemma FirstRepeatedByCount(ps: seq<string>)
    requires forall k :: 0 <= k < |ps| ==> |Words(ps[k])| == 3
    ensures forall i :: 0 <= i < |ps| && multiset(ps)[ps[i]] >= 2
                        && (forall j :: 0 <= j < i ==> multiset(ps)[ps[j]] < 2)
              ==> FirstRepeated(ps, ps) == Some(ps[i])
    ensures (forall i :: 0 <= i < |ps| ==> multiset(ps)[ps[i]] < 2) ==> FirstRepeated(ps, ps) == None
  {
    forall i | 0 <= i < |ps| && multiset(ps)[ps[i]] >= 2 && (forall j :: 0 <= j < i ==> multiset(ps)[ps[j]] < 2)
      ensures FirstRepeated(ps, ps) == Some(ps[i])
    {
      FirstRepeatedAt(ps, ps, i);
    }
    if forall i :: 0 <= i < |ps| ==> multiset(ps)[ps[i]] < 2 {
      assert forall j :: 0 <= j < |ps| ==> !Repeated(ps, ps[j]);
    }
  }

  lemma SameRecentLines(a: string, b: string, agentName: string)
    requires a != "" && b != "" && RecentLines(a) == RecentLines(b)
    ensures Fixation(a, agentName) == Fixation(b, agentName)
  {
  }

  /** Only the last eight lines count: lines before them never change the verdict. */
  lemma OlderLinesIgnored(older: seq<string>, recent: seq<string>, agentName: string)
    requires |recent| == 8
    requires forall k :: 0 <= k < |older| ==> '\n' !in older[k]
    requires forall k :: 0 <= k < |recent| ==> '\n' !in recent[k]
    ensures Fixation(Join("\n", older + recent), agentName) == Fixation(Join("\n", recent), agentName)
  {
    var all := older + recent;
    SplitOnJoin(all, '\n');
    SplitOnJoin(recent, '\n');
    assert Join("\n", all) != "" && Join("\n", recent) != "" by {
      assert SplitOn("", '\n') == [""];
    }
    LastK(all, 8);
    LastK(recent, 8);
    assert all[|all| - 8..] == recent;
    SameRecentLines(Join("\n", all), Join("\n", recent), agentName);
  }

  // ================================================================ fixation: the detector

  lemma {:induction false} FirstRepeatedDedup(s: seq<string>, all: seq<string>)
    ensures FirstRepeated(Dedup(s), all) == FirstRepeated(s, all)
    decreases |s|
  {
    if s != [] {
      var init, x := s[..|s| - 1], s[|s| - 1];
      FirstRepeatedDedup(init, all);
      var d := Dedup(init);
      if x !in d {
        assert (d + [x])[..|d|] == d;
      }
    }
  }

  lemma {:induction false} FirstRepeatedExtend(s: seq<string>, t: seq<string>, all: seq<string>)
    requires FirstRepeated(s, all).Some?
    ensures FirstRepeated(s + t, all) == FirstRepeated(s, all)
    decreases |t|
  {
    if t == [] {
      assert s + t == s;
    } else {
      FirstRepeatedExtend(s, t[..|t| - 1], all);
      assert (s + t)[..|s + t| - 1] == s + t[..|t| - 1];
    }
  }

  /** The first loop of the detector: the agent's utterances among `lines`. */
  method ExtractUtterances(lines: seq<string>, marker: string) returns (us: seq<string>)
    ensures us == AgentUtterances(lines, marker)
  {
    us := [];
    for k := 0 to |lines|
      invariant us == AgentUtterances(lines[..k], marker)
    {
      TakeNext(lines, k);
      if Contains(lines[k], marker) {
        us := us + [UtteranceOf(lines[k], marker)];
      }
    }
    TakeAll(lines);
  }

  method CountQuestions(us: seq<string>) returns (questions: nat)
    ensures questions == QuestionCount(us)
  {
    questions := 0;
    for k := 0 to |us|
      invariant questions == QuestionCount(us[..k])
    {
      TakeNext(us, k);
      if Contains(us[k], "?") {
        questions := questions + 1;
      }
    }
    TakeAll(us);
  }

  /** The phrase dict as counts plus its keys in insertion order. */
  ghost predicate CountsOf(counts: map<string, nat>, order: seq<string>, phrases: seq<string>) {
    && order == Dedup(phrases)
    && (forall p :: p in counts <==> p in order)
    && (forall p :: p in counts ==> counts[p] == multiset(phrases)[p])
  }

  /** One dict update `counts[p] = counts.get(p, 0) + 1`. */
  lemma AddPhrase(counts: map<string, nat>, order: seq<string>, done: seq<string>, p: string)
    requires CountsOf(counts, order, done)
    ensures p in counts ==> CountsOf(counts[p := counts[p] + 1], order, done + [p])
    ensures p !in counts ==> CountsOf(counts[p := 1], order + [p], done + [p])
  {
    if p in counts {
      AddSeenPhrase(counts, order, done, p);
    } else {
      AddNewPhrase(counts, order, done, p);
    }
  }

  lemma AddSeenPhrase(counts: map<string, nat>, order: seq<string>, done: seq<string>, p: string)
    requires CountsOf(counts, order, done) && p in counts
    ensures CountsOf(counts[p := counts[p] + 1], order, done + [p])
  {
    var all := done + [p];
    assert all[..|done|] == done;
    assert multiset(all) == multiset(done) + multiset{p};
  }

  lemma AddNewPhrase(counts: map<string, nat>, order: seq<string>, done: seq<string>, p: string)
    requires CountsOf(counts, order, done) && p !in counts
    ensures CountsOf(counts[p := 1], order + [p], done + [p])
  {
    var all := done + [p];
    assert all[..|done|] == done;
    assert multiset(all) == multiset(done) + multiset{p};
    assert p !in done;
  }

  /** Adds each 3-word window of `words` to the phrase dict. */
  method CountWindows(words: seq<string>, counts0: map<string, nat>, order0: seq<string>, ghost done: seq<string>)
    returns (counts: map<string, nat>, order: seq<string>)
    requires CountsOf(counts0, order0, done)
    ensures CountsOf(counts, order, done + Windows(words))
  {
    counts, order := counts0, order0;
    var windows := Windows(words);
    if |words| < 3 {
      AppendNone(done, windows);
      return;
    }
    ghost var seen := done;
    AppendNone(done, windows[..0]);
    for j := 0 to |words| - 2
      invariant seen == done + windows[..j]
      invariant CountsOf(counts, order, seen)
    {
      var phrase := Join(" ", words[j..j + 3]);
      AppendNext(done, windows, j);
      AddPhrase(counts, order, seen, phrase);
      if phrase in counts {
        counts := counts[phrase := counts[phrase] + 1];
      } else {
        counts := counts[phrase := 1];
        order := order + [phrase];
      }
      seen := seen + [phrase];
    }
    TakeAll(windows);
  }

  lemma AppendNone<T>(a: seq<T>, b: seq<T>)
    requires |b| == 0
    ensures a + b == a
  {
  }

  /** Growing a prefix of `b` appended to `a` by one element. */
  lemma AppendNext<T>(a: seq<T>, b: seq<T>, j: nat)
    requires j < |b|
    ensures a + b[..j + 1] == (a + b[..j]) + [b[j]]
  {
    assert b[..j + 1] == b[..j] + [b[j]];
  }

  /** What one more utterance adds to the phrases and the two counters. */
  lemma ScanStep(us: seq<string>, i: nat)
    requires i < |us|
    ensures Phrases(us[..i + 1]) == Phrases(us[..i]) + Windows(Words(us[i]))
    ensures SimilarCount(us[..i + 1]) == SimilarCount(us[..i])
      + (if i > 0 && OpensLikeQuestion(us[i]) && OpensLikeQuestion(us[i - 1]) then 1 else 0)
    ensures DrillCount(us[..i + 1]) == DrillCount(us[..i])
      + (if i > 0 && Drills(us[i - 1], us[i]) then 1 else 0)
  {
    TakeNext(us, i);
  }

  /** The second loop of the detector: phrase counts, similar openings and drilling. */
  method ScanUtterances(us: seq<string>)
    returns (counts: map<string, nat>, order: seq<string>, similar: nat, drilling: nat)
    ensures CountsOf(counts, order, Phrases(us))
    ensures similar == SimilarCount(us) && drilling == DrillCount(us)
  {
    counts, order, similar, drilling := map[], [], 0, 0;
    for i := 0 to |us|
      invariant CountsOf(counts, order, Phrases(us[..i]))
      invariant similar == SimilarCount(us[..i]) && drilling == DrillCount(us[..i])
    {
      ScanStep(us, i);
      counts, order := CountWindows(Words(us[i]), counts, order, Phrases(us[..i]));
      if i > 0 {
        if OpensLikeQuestion(us[i]) && OpensLikeQuestion(us[i - 1]) {
          similar := similar + 1;
        }
        if Drills(us[i - 1], us[i]) {
          drilling := drilling + 1;
        }
      }
    }
    TakeAll(us);
  }

  /** The last loop: the first key, in insertion order, counted twice or more. */
  method FindRepeated(counts: map<string, nat>, order: seq<string>, ghost all: seq<string>)
    returns (r: Option<string>)
    requires CountsOf(counts, order, all)
    ensures r == FirstRepeated(all, all)
  {
    FirstRepeatedDedup(all, all);
    for k := 0 to |order|
      invariant FirstRepeated(order[..k], all).None?
    {
      var p := order[k];
      KeyCounted(counts, order, all, k);
      if counts[p] >= 2 && |Words(p)| >= 3 {
        NoneBefore(order, all, k);
        FirstRepeatedAt(order, all, k);
        return Some(p);
      }
      FirstRepeatedNoneStep(order, all, k);
    }
    TakeAll(order);
    return None;
  }

  lemma KeyCounted(counts: map<string, nat>, order: seq<string>, all: seq<string>, k: nat)
    requires CountsOf(counts, order, all) && k < |order|
    ensures order[k] in counts && counts[order[k]] == multiset(all)[order[k]]
  {
  }

  lemma FirstRepeatedNoneStep(s: seq<string>, all: seq<string>, k: nat)
    requires k < |s| && FirstRepeated(s[..k], all).None? && !Repeated(all, s[k])
    ensures FirstRepeated(s[..k + 1], all).None?
  {
    assert forall j :: 0 <= j < k ==> s[..k][j] == s[j];
    assert forall j :: 0 <= j <= k ==> s[..k + 1][j] == s[j];
  }

  lemma NoneBefore(s: seq<string>, all: seq<string>, k: nat)
    requires k <= |s| && FirstRepeated(s[..k], all).None?
    ensures forall j :: 0 <= j < k ==> !Repeated(all, s[j])
  {
    assert forall j :: 0 <= j < k ==> s[..k][j] == s[j];
  }

  /** `_detect_fixation_patterns`: the counting loops of the source, proved to
      compute `Fixation`. */
  method DetectFixation(relevant: string, agentName: string) returns (r: Option<string>)
    ensures r == Fixation(relevant, agentName)
  {
    if relevant == "" {
      return None;
    }
    var us := ExtractUtterances(RecentLines(relevant), agentName + ":");
    assert us == RecentUtterances(relevant, agentName);
    if |us| < 3 {
      return None;
    }
    var questions := CountQuestions(us);
    var counts, order, similar, drilling := ScanUtterances(us);
    if questions >= 3 {
      return Some(QuestionsFixation);
    }
    assert Fixation(relevant, agentName) == RepetitionFixation(us);
    var repeated := FindRepeated(counts, order, Phrases(us));
    if repeated.Some? {
      return Some(PhraseFixation(repeated.value));
    }
    assert Fixation(relevant, agentName) == StyleFixation(us);
    if similar >= 2 {
      return Some(StructureFixation);
    }
    if drilling >= 3 {
      return Some(DrillingFixation);
    }
    return None;
  }

  // ================================================================ transcripts

  /** A file on disk: its text, and what `json.loads` makes of it (None: it raises). */
  datatype TextFile = TextFile(raw: string, parsed: Option<Json>)

  const TranscriptDir := "transcripts/"

  function TranscriptJsonPath(name: string): string { TranscriptDir + Lower(name) + ".json" }
  function TranscriptTxtPath(name: string): string { TranscriptDir + Lower(name) + ".txt" }

  /** What `for p in v` visits; None when iterating raises. A dict is listed
      here as failing: the map-based value does not keep key order. */
  function Iterated(v: Json): Option<seq<Json>> {
    match v
    case JList(items) => Some(items)
    case JStr(s) => Some(seq(|s|, i requires 0 <= i < |s| => JStr([s[i]])))
    case _ => None
  }

  /** The "- phrase" lines, or None when the code raises. */
  function PhraseBlock(phrases: Json, show: Json -> string): Option<string> {
    if !Truthy(phrases) then Some("")
    else match Iterated(phrases)
      case None => None
      case Some(items) => Some(Join("\n", seq(|items|, i requires 0 <= i < |items| => "- " + Show(items[i], show))))
  }

  /** The try block of `load_transcript` on a parsed document; None when it raises. */
  function StyleText(data: Json, show: Json -> string): Option<string> {
    if !data.JObj? then None
    else
      var style := Get(data.fields, "style_guide", JStr(""));
      var block := PhraseBlock(Get(data.fields, "sample_phrases", JList([])), show);
      if block.None? then None else Some(Strip(Show(style, show) + "\n" + block.value))
  }

  /** `load_transcript(name)` over the files present in the transcript directory. */
  function LoadTranscript(name: string, files: map<string, TextFile>, show: Json -> string): (r: string)
    ensures r == [] || (!IsSpace(r[0]) && !IsSpace(r[|r| - 1]))
  {
    var jp, tp := TranscriptJsonPath(name), TranscriptTxtPath(name);
    if jp in files then
      var f := files[jp];
      if f.parsed.Some? && StyleText(f.parsed.value, show).Some? then StyleText(f.parsed.value, show).value
      else Strip(f.raw)
    else if tp in files then Strip(files[tp].raw)
    else ""
  }

  lemma TranscriptPathsDiffer(name: string)
    ensures TranscriptJsonPath(name) != TranscriptTxtPath(name)
  {
    assert |TranscriptJsonPath(name)| != |TranscriptTxtPath(name)|;
  }

  /** When the JSON transcript exists, the text transcript never matters:
      adding, replacing or removing it leaves the style unchanged. */
  lemma TranscriptJsonFirst(name: string, files: map<string, TextFile>, txt: TextFile, show: Json -> string)
    requires TranscriptJsonPath(name) in files
    ensures LoadTranscript(name, files[TranscriptTxtPath(name) := txt], show) == LoadTranscript(name, files, show)
    ensures LoadTranscript(name, files - {TranscriptTxtPath(name)}, show) == LoadTranscript(name, files, show)
  {
    TranscriptPathsDiffer(name);
    var jp := TranscriptJsonPath(name);
    assert files[TranscriptTxtPath(name) := txt][jp] == files[jp];
    assert (files - {TranscriptTxtPath(name)})[jp] == files[jp];
  }

  /** Only the agent's own two transcript files are read: two file systems that
      agree on them give the same style. */
  lemma TranscriptOwnFilesOnly(name: string, files: map<string, TextFile>, other: map<string, TextFile>,
                               show: Json -> string)
    requires TranscriptJsonPath(name) in files <==> TranscriptJsonPath(name) in other
    requires TranscriptJsonPath(name) in files ==> files[TranscriptJsonPath(name)] == other[TranscriptJsonPath(name)]
    requires TranscriptTxtPath(name) in files <==> TranscriptTxtPath(name) in other
    requires TranscriptTxtPath(name) in files ==> files[TranscriptTxtPath(name)] == other[TranscriptTxtPath(name)]
    ensures LoadTranscript(name, files, show) == LoadTranscript(name, other, show)
  {
  }

  /** The fallbacks: a JSON file that does not parse is read as plain text, a
      lone text transcript is read stripped, and with no transcript the style is empty. */
  lemma TranscriptFallbacks(name: string, files: map<string, TextFile>, raw: string, parsed: Option<Json>,
                            show: Json -> string)
    ensures LoadTranscript(name, files[TranscriptJsonPath(name) := TextFile(raw, None)], show) == Strip(raw)
    ensures LoadTranscript(name, (files - {TranscriptJsonPath(name)})[TranscriptTxtPath(name) := TextFile(raw, parsed)], show)
      == Strip(raw)
    ensures LoadTranscript(name, map[], show) == ""
  {
    TranscriptPathsDiffer(name);
  }

  /** A style document saved as the JSON transcript reads back as its guide
      followed by one "- " line per sample phrase, whatever else is on disk. */
  lemma TranscriptRoundTrip(name: string, files: map<string, TextFile>, raw: string, style: string,
                            phrases: seq<string>, show: Json -> string)
    ensures var items := seq(|phrases|, i requires 0 <= i < |phrases| => JStr(phrases[i]));
      var doc := JObj(map["style_guide" := JStr(style), "sample_phrases" := JList(items)]);
      LoadTranscript(name, files[TranscriptJsonPath(name) := TextFile(raw, Some(doc))], show)
      == Strip(style + "\n" + Join("\n", seq(|phrases|, i requires 0 <= i < |phrases| => "- " + phrases[i])))
  {
    StyleDocument(style, phrases, show);
  }

  /** A well-formed style document: the style guide, then one "- " line per phrase. */
  lemma StyleDocument(style: string, phrases: seq<string>, show: Json -> string)
    ensures var items := seq(|phrases|, i requires 0 <= i < |phrases| => JStr(phrases[i]));
      StyleText(JObj(map["style_guide" := JStr(style), "sample_phrases" := JList(items)]), show)
      == Some(Strip(style + "\n" + Join("\n", seq(|phrases|, i requires 0 <= i < |phrases| => "- " + phrases[i]))))
  {
    var items := seq(|phrases|, i requires 0 <= i < |phrases| => JStr(phrases[i]));
    var lines := seq(|phrases|, i requires 0 <= i < |phrases| => "- " + phrases[i]);
    var doc := map["style_guide" := JStr(style), "sample_phrases" := JList(items)];
    assert Get(doc, "style_guide", JStr("")) == JStr(style);
    assert Get(doc, "sample_phrases", JList([])) == JList(items);
    var shown := seq(|items|, i requires 0 <= i < |items| => "- " + Show(items[i], show));
    assert shown == lines;
    if phrases == [] {
      assert PhraseBlock(JList(items), show) == Some("");
      assert Join("\n", lines) == "";
    } else {
      assert PhraseBlock(JList(items), show) == Some(Join("\n", lines));
    }
  }

  /** A style document with no sample phrases reads back as its stripped guide line. */
  lemma StyleDocumentBare(style: string, show: Json -> string)
    ensures StyleText(JObj(map["style_guide" := JStr(style), "sample_phrases" := JList([])]), show)
      == Some(Strip(style + "\n"))
  {
    var doc := map["style_guide" := JStr(style), "sample_phrases" := JList([])];
    assert Get(doc, "style_guide", JStr("")) == JStr(style);
    assert Get(doc, "sample_phrases", JList([])) == JList([]);
    assert PhraseBlock(JList([]), show) == Some("");
    assert style + "\n" + "" == style + "\n";
  }

  // ================================================================ the prompt

  const StyleInstructions :=
    "Speak naturally and conversationally. Keep responses concise and flowing. "
    + "Use fragments, statements, and natural pauses. Avoid ending every response with questions. "
    + "When you do ask questions, make them feel organic to the conversation. "
    + "Don't fixate on single topics - let conversations evolve naturally. "
    + "Respond like you would in a casual chat with a friend.\n"

  const QuestionsGuidance :=
    "IMPORTANT: You've been asking many questions lately. Try making statements, sharing thoughts, or responding more directly instead of always asking follow-ups.\n"
  const StructureGuidance :=
    "IMPORTANT: You've been using similar sentence patterns. Mix up your responses - use different sentence types, lengths, and styles.\n"
  const DrillingGuidance :=
    "IMPORTANT: You've been focusing intensely on the same topics. Try acknowledging what was said and naturally moving to related but different aspects.\n"

  /** The guidance line chosen by substring tests on the detector's message, in the source's order. */
  function Guidance(fixation: Option<string>): string {
    match fixation
    case None => ""
    case Some(f) =>
      if f == "" then ""
      else if Contains(f, QuestionsKey) then QuestionsGuidance
      else if Contains(f, PhrasesKey) then "IMPORTANT: You've been " + f + ". Vary your language and try expressing ideas differently.\n"
      else if Contains(f, StructuresKey) then StructureGuidance
      else if Contains(f, DrillingKey) then DrillingGuidance
      else "IMPORTANT: You've been " + f + ". Try to vary your conversational approach and let the discussion flow more naturally.\n"
  }

  function PromptHeader(agentName: string, personality: string): string {
    "You are " + agentName + ". Personality: " + personality + "\n" + StyleInstructions
  }

  function PromptTail(agentName: string, userMsg: string, relevant: string, graphInfo: string): string {
    MemoryContext(relevant, graphInfo) + Handover(agentName, userMsg)
  }

  function MemoryContext(relevant: string, graphInfo: string): string {
    "Relevant memories:\n" + relevant + "\n" + "Graph context: " + graphInfo + "\n\n"
  }

  /** The user's message, then the agent's name to hand it the turn. */
  function Handover(agentName: string, userMsg: string): string {
    "User: " + userMsg + "\n" + agentName + ":"
  }

  /** The system prompt of `generate_utterance`. */
  function UtterancePrompt(agentName: string, personality: string, userMsg: string, relevant: string,
                           graphInfo: string, transcript: string, fixation: Option<string>): string
  {
    PromptHeader(agentName, personality)
    + Guidance(fixation)
    + (if transcript == "" then "" else "Example speech from transcript:\n" + transcript + "\n\n")
    + PromptTail(agentName, userMsg, relevant, graphInfo)
  }

  lemma QuestionsMentionQuestions()
    ensures Contains(QuestionsFixation, QuestionsKey)
  {
    ContainsInfix("asking too many ", QuestionsKey, "");
    assert QuestionsFixation == "asking too many " + QuestionsKey + "";
  }

  lemma GuidanceQuestions()
    ensures Guidance(Some(QuestionsFixation)) == QuestionsGuidance
  {
    QuestionsMentionQuestions();
  }

  lemma PhraseMentionsPhrases(p: string)
    ensures Contains(PhraseFixation(p), PhrasesKey)
  {
    ContainsInfix("", PhrasesKey, " like '" + p + "'");
    assert PhraseFixation(p) == "" + PhrasesKey + (" like '" + p + "'");
  }

  /** A repeated phrase is named in its guidance line, unless it mentions
      "questions", in which case the question line is used. */
  lemma GuidancePhrase(p: string)
    ensures !Contains(PhraseFixation(p), QuestionsKey)
            ==> Guidance(Some(PhraseFixation(p)))
                == "IMPORTANT: You've been " + PhraseFixation(p) + ". Vary your language and try expressing ideas differently.\n"
    ensures Contains(PhraseFixation(p), QuestionsKey) ==> Guidance(Some(PhraseFixation(p))) == QuestionsGuidance
  {
    PhraseMentionsPhrases(p);
  }

  lemma StructureLacksQuestions()
    ensures !Contains(StructureFixation, QuestionsKey)
  {
    NotContainsChar(StructureFixation, QuestionsKey, 0);
  }

  lemma StructureLacksPhrases()
    ensures !Contains(StructureFixation, PhrasesKey)
  {
    NotContainsChar(StructureFixation, PhrasesKey, 11);
  }

  lemma StructureMentionsStructures()
    ensures Contains(StructureFixation, StructuresKey)
  {
    ContainsInfix("using ", StructuresKey, "");
    assert StructureFixation == "using " + StructuresKey + "";
  }

  lemma GuidanceStructure()
    ensures Guidance(Some(StructureFixation)) == StructureGuidance
  {
    StructureLacksQuestions();
    StructureLacksPhrases();
    StructureMentionsStructures();
  }

  lemma PromptParts(head: string, guide: string, example: string, mid: string, last: string)
    ensures var p := head + guide + example + (mid + last);
      head <= p && |last| <= |p| && p[|p| - |last|..] == last
  {
    var tail := mid + last;
    var p := head + guide + example + tail;
    assert p == (head + guide + example + mid) + last;
    assert p == head + (guide + example + tail);
  }

  /** The prompt opens with who the agent is and ends by handing the turn to the agent. */
  lemma PromptFrame(agentName: string, personality: string, userMsg: string, relevant: string,
                    graphInfo: string, transcript: string, fixation: Option<string>)
    ensures var p := UtterancePrompt(agentName, personality, userMsg, relevant, graphInfo, transcript, fixation);
      var last := Handover(agentName, userMsg);
      && PromptHeader(agentName, personality) <= p
      && |last| <= |p| && p[|p| - |last|..] == last
  {
    PromptParts(PromptHeader(agentName, personality), Guidance(fixation),
                if transcript == "" then "" else "Example speech from transcript:\n" + transcript + "\n\n",
                MemoryContext(relevant, graphInfo), Handover(agentName, userMsg));
  }

  // ================================================================ the reply

  /** Drops leading whitespace and at most one leading "<agent_name>:" (any letter case). */
  function CleanReply(answer: string, agentName: string): (r: string)
    ensures r == [] || !IsSpace(r[0])
    ensures |r| <= |answer| && r == answer[|answer| - |r|..]
  {
    var cleaned := LStrip(answer);
    var prefix := agentName + ":";
    if Lower(prefix) <= Lower(cleaned) then LStrip(cleaned[|prefix|..]) else cleaned
  }

  /** A reply that opens with the agent's name (in any letter case) and a colon,
      with whitespace around them, is cleaned down to what follows. */
  lemma CleanReplyPrefix(w1: string, spoken: string, w2: string, rest: string, agentName: string)
    requires forall i :: 0 <= i < |w1| ==> IsSpace(w1[i])
    requires forall i :: 0 <= i < |w2| ==> IsSpace(w2[i])
    requires Lower(spoken) == Lower(agentName)
    requires spoken == [] || !IsSpace(spoken[0])
    requires rest == [] || !IsSpace(rest[0])
    ensures CleanReply(w1 + spoken + ":" + w2 + rest, agentName) == rest
  {
    var said := spoken + ":";
    assert w1 + spoken + ":" + w2 + rest == w1 + (said + (w2 + rest));
    LowerConcat(spoken, ":");
    LowerConcat(agentName, ":");
    CleanReplyOpens(w1, said, w2 + rest, agentName);
    LStripSkipsSpace(w2, rest);
  }

  lemma CleanReplyOpens(w1: string, said: string, after: string, agentName: string)
    requires forall i :: 0 <= i < |w1| ==> IsSpace(w1[i])
    requires said != [] && !IsSpace(said[0])
    requires Lower(said) == Lower(agentName + ":")
    ensures CleanReply(w1 + (said + after), agentName) == LStrip(after)
  {
    var tail := said + after;
    LStripSkipsSpace(w1, tail);
    assert tail[0] == said[0];
    assert LStrip(tail) == tail;
    LowerConcat(said, after);
    assert tail[|said|..] == after;
  }

  /** A reply that does not open with the agent's name and a colon only loses
      its leading whitespace. */
  lemma CleanReplyNoPrefix(w1: string, rest: string, agentName: string)
    requires forall i :: 0 <= i < |w1| ==> IsSpace(w1[i])
    requires rest == [] || !IsSpace(rest[0])
    requires !(Lower(agentName + ":") <= Lower(rest))
    ensures CleanReply(w1 + rest, agentName) == rest
  {
    LStripSkipsSpace(w1, rest);
  }

  /** `generate_utterance`: transcript, detector, prompt, one model call, clean-up. */
  function GenerateUtterance(agentName: string, personality: string, userMsg: string, relevant: string,
                             graphInfo: string, files: map<string, TextFile>, show: Json -> string,
                             llm: string -> string): (r: string)
    ensures r == [] || !IsSpace(r[0])
  {
    var transcript := LoadTranscript(agentName, files, show);
    var prompt := UtterancePrompt(agentName, personality, userMsg, relevant, graphInfo, transcript,
                                  Fixation(relevant, agentName));
    CleanReply(llm(prompt), agentName)
  }
}
