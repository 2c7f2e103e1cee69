/**
 * The command-line code assistant (documentation_agent.py): the file map it
 * reads, the system prompt built from it, the chat history each question
 * extends, and the read-eval loop's skip and exit rule. Reading files and
 * the chat model are parameters.
 */
module DocumentationAgent {
  import opened Wrappers
  import opened Py

  const SourceFiles: seq<string> :=
    ["app.py", "settings.py", "core/llm_utils.py", "core/agent.py", "core/memory_utils.py", "agents/Lars/lars.py"]

  const Preamble :=
    "You are a helpful assistant with full knowledge of the codebase. "
    + "Answer questions by referring only to the provided code.\n\n"

  // ================================================================ the file map

  /** An insertion-ordered dict from file name to contents. */
  type CodeMap = seq<(string, string)>

  function Names(m: CodeMap): (r: seq<string>)
    ensures |r| == |m| && forall i :: 0 <= i < |m| ==> r[i] == m[i].0
  {
    seq(|m|, i requires 0 <= i < |m| => m[i].0)
  }

  /** `code_map[k] = v`: replaces the value of an existing key in place,
      otherwise appends the key. */
  function Put(m: CodeMap, k: string, v: string): (r: CodeMap)
    ensures |r| == if k in Names(m) then |m| else |m| + 1
    ensures k !in Names(m) ==> r == m + [(k, v)]
    ensures forall i :: 0 <= i < |m| && m[i].0 != k ==> r[i] == m[i]
    ensures Names(r) == if k in Names(m) then Names(m) else Names(m) + [k]
  {
    if m == [] then [(k, v)]
    else if m[0].0 == k then [(k, v)] + m[1..]
    else
      assert Names(m) == [m[0].0] + Names(m[1..]);
      [m[0]] + Put(m[1..], k, v)
  }

  /** What `load_code` stores for one file name; `read` is the file's text,
      `None` when the path does not exist. */
  function Content(name: string, read: string -> Option<string>): string {
    match read(name)
    case Some(text) => text
    case None => "# ERROR: '" + name + "' not found\n"
  }

  /** The map `load_code(files)` builds, one assignment per file name. */
  function Loaded(files: seq<string>, read: string -> Option<string>): CodeMap {
    if files == [] then []
    else Put(Loaded(files[..|files| - 1], read), files[|files| - 1], Content(files[|files| - 1], read))
  }

  /** Each name paired with its contents, in order. */
  function Entries(names: seq<string>, read: string -> Option<string>): (r: CodeMap)
    ensures |r| == |names| && forall i :: 0 <= i < |names| ==> r[i] == (names[i], Content(names[i], read))
  {
    seq(|names|, i requires 0 <= i < |names| => (names[i], Content(names[i], read)))
  }

  /** Assigning a key the value each of its entries already holds changes nothing. */
  lemma {:induction false} PutSame(m: CodeMap, k: string, v: string)
    requires forall i :: 0 <= i < |m| && m[i].0 == k ==> m[i].1 == v
    ensures k in Names(m) ==> Put(m, k, v) == m
    decreases |m|
  {
    if m != [] && m[0].0 != k {
      assert Names(m) == [m[0].0] + Names(m[1..]);
      PutSame(m[1..], k, v);
    }
  }

  /** The map has one entry per distinct file name, in order of first
      appearance, holding that file's contents or the not-found marker. */
  lemma {:induction false} LoadedEntries(files: seq<string>, read: string -> Option<string>)
    ensures Loaded(files, read) == Entries(Dedup(files), read)
    ensures Names(Loaded(files, read)) == Dedup(files)
    decreases |files|
  {
    if files != [] {
      var init, last := files[..|files| - 1], files[|files| - 1];
      LoadedEntries(init, read);
      var d := Dedup(init);
      var m := Entries(d, read);
      assert Names(m) == d;
      if last in d {
        PutSame(m, last, Content(last, read));
        assert Dedup(files) == d;
      } else {
        assert Dedup(files) == d + [last];
        EntriesNext(d, last, read);
      }
    }
    NamesOfEntries(Dedup(files), read);
  }

  lemma EntriesNext(names: seq<string>, last: string, read: string -> Option<string>)
    ensures Entries(names + [last], read) == Entries(names, read) + [(last, Content(last, read))]
  {
  }

  lemma NamesOfEntries(names: seq<string>, read: string -> Option<string>)
    ensures Names(Entries(names, read)) == names
  {
  }

  /** `load_code(files)`. */
  method LoadCode(files: seq<string>, read: string -> Option<string>) returns (codeMap: CodeMap)
    ensures codeMap == Loaded(files, read)
  {
    codeMap := [];
    var i := 0;
    while i < |files|
      invariant 0 <= i <= |files|
      invariant codeMap == Loaded(files[..i], read)
    {
      TakeNext(files, i);
      var fn := files[i];
      var text := read(fn);
      if text.Some? {
        codeMap := Put(codeMap, fn, text.value);
      } else {
        codeMap := Put(codeMap, fn, "# ERROR: '" + fn + "' not found\n");
      }
      i := i + 1;
    }
    TakeAll(files);
  }

  // ================================================================ the system prompt

  /** One file's section of the system prompt. */
  function Section(entry: (string, string)): string {
    "### FILE: " + entry.0 + "\n" + entry.1 + "\n"
  }

  function Sections(m: CodeMap): (r: seq<string>)
    ensures |r| == |m| && forall i :: 0 <= i < |m| ==> r[i] == Section(m[i])
  {
    seq(|m|, i requires 0 <= i < |m| => Section(m[i]))
  }

  /** `make_system_prompt(code_map)`. */
  function SystemPrompt(m: CodeMap): string {
    Preamble + Join("\n", Sections(m))
  }

  /** The prompt is the preamble followed by the files' sections in map order,
      separated by newlines. */
  lemma SystemPromptGrows(m: CodeMap, e: (string, string))
    ensures SystemPrompt([]) == Preamble
    ensures SystemPrompt([e]) == Preamble + Section(e)
    ensures m != [] ==> SystemPrompt(m + [e]) == SystemPrompt(m) + "\n" + Section(e)
  {
    assert Sections([e]) == [Section(e)];
    if m != [] {
      assert Sections(m + [e]) == Sections(m) + [Section(e)];
      JoinAppend("\n", Sections(m), Section(e));
    }
  }

  /** Every file's section appears in the prompt. */
  lemma SystemPromptHasEverySection(m: CodeMap, i: nat)
    requires i < |m|
    ensures Preamble <= SystemPrompt(m)
    ensures Contains(SystemPrompt(m), Section(m[i]))
  {
    var ss := Sections(m);
    JoinHas("\n", ss, i);
    ContainsAfter(Preamble, Join("\n", ss), ss[i]);
  }

  lemma {:induction false} JoinHas(sep: string, parts: seq<string>, i: nat)
    requires i < |parts|
    ensures Contains(Join(sep, parts), parts[i])
    decreases |parts|
  {
    if |parts| == 1 {
      assert OccursAt(Join(sep, parts), parts[0], 0);
    } else if i == 0 {
      ContainsInfix([], parts[0], sep + Join(sep, parts[1..]));
      assert [] + parts[0] + (sep + Join(sep, parts[1..])) == Join(sep, parts);
    } else {
      JoinHas(sep, parts[1..], i - 1);
      assert Join(sep, parts) == (parts[0] + sep) + Join(sep, parts[1..]);
      ContainsAfter(parts[0] + sep, Join(sep, parts[1..]), parts[i]);
    }
  }

  // ================================================================ the chat history

  datatype Message = Message(role: string, content: string)

  /** The history after one `ask_codebase` call; `chat` is the model's reply
      to the history it is shown. */
  function Ask(h: seq<Message>, m: CodeMap, question: string, chat: seq<Message> -> string): seq<Message> {
    var started := if h == [] then [Message("system", SystemPrompt(m))] else h;
    var asked := started + [Message("user", question)];
    asked + [Message("assistant", chat(asked))]
  }

  /** A call only appends: the old entries stay as they were, the system
      message comes first on an empty history, and the call adds three entries
      then and two otherwise, ending with the question and the reply to it. */
  lemma AskAppends(h: seq<Message>, m: CodeMap, question: string, chat: seq<Message> -> string)
    ensures var r := Ask(h, m, question, chat);
      && h <= r
      && |r| == |h| + (if h == [] then 3 else 2)
      && (h == [] ==> r[0] == Message("system", SystemPrompt(m)))
      && r[|r| - 2] == Message("user", question)
      && r[|r| - 1] == Message("assistant", chat(r[..|r| - 1]))
  {
    var r := Ask(h, m, question, chat);
    assert r[..|r| - 1] == (if h == [] then [Message("system", SystemPrompt(m))] else h) + [Message("user", question)];
  }

  /** The `history` list the read-eval loop passes to every call. */
  class History {
    var messages: seq<Message>

    constructor ()
      ensures messages == []
    {
      messages := [];
    }

    /** `ask_codebase(history, code_map, question, model, temp)`. */
    method AskCodebase(m: CodeMap, question: string, chat: seq<Message> -> string) returns (reply: string)
      modifies this
      ensures messages == Ask(old(messages), m, question, chat)
      ensures messages[|messages| - 1] == Message("assistant", reply)
    {
      if messages == [] {
        messages := [Message("system", SystemPrompt(m))];
      }
      messages := messages + [Message("user", question)];
      reply := chat(messages);
      messages := messages + [Message("assistant", reply)];
    }
  }

  /** The history after asking `questions` in turn, starting from `h`. */
  function Conversed(h: seq<Message>, questions: seq<string>, m: CodeMap, chat: seq<Message> -> string): seq<Message> {
    if questions == [] then h
    else Ask(Conversed(h, questions[..|questions| - 1], m, chat), m, questions[|questions| - 1], chat)
  }

  /** From an empty history, `n` questions give the system message followed
      by `n` question-reply pairs, the k-th question at position 2k+1. */
  lemma {:induction false} ConversedShape(qs: seq<string>, m: CodeMap, chat: seq<Message> -> string)
    ensures var h := Conversed([], qs, m, chat);
      && |h| == (if qs == [] then 0 else 2 * |qs| + 1)
      && (qs != [] ==> h[0] == Message("system", SystemPrompt(m)))
      && forall k :: 0 <= k < |qs| ==> h[2 * k + 1] == Message("user", qs[k]) && h[2 * k + 2].role == "assistant"
    decreases |qs|
  {
    if qs != [] {
      var init := qs[..|qs| - 1];
      ConversedShape(init, m, chat);
      var h0 := Conversed([], init, m, chat);
      AskAppends(h0, m, qs[|qs| - 1], chat);
      var h := Conversed([], qs, m, chat);
      assert h == Ask(h0, m, qs[|qs| - 1], chat);
      assert |h| == 2 * |qs| + 1;
      forall k | 0 <= k < |qs|
        ensures h[2 * k + 1] == Message("user", qs[k]) && h[2 * k + 2].role == "assistant"
      {
        if k < |init| {
          assert init[k] == qs[k];
          assert h0 == h[..|h0|];
          assert h[2 * k + 1] == h0[2 * k + 1] && h[2 * k + 2] == h0[2 * k + 2];
        } else {
          assert 2 * k + 2 == |h| - 1;
        }
      }
    }
  }

  // ================================================================ the read-eval loop

  /** What the loop does with one line of input. */
  datatype Action = Skip | Quit | Question(text: string)

  /** Blank input is skipped and "chao", in any case, ends the session; the
      question asked is the stripped line. */
  function Classify(line: string): (r: Action)
    ensures r == Skip <==> Strip(line) == []
    ensures r == Quit <==> Strip(line) != [] && Lower(Strip(line)) == "chao"
    ensures r.Question? ==> r.text == Strip(line) && r.text != [] && Lower(r.text) != "chao"
  {
    var q := Strip(line);
    if q == [] then Skip
    else if Lower(q) == "chao" then Quit
    else Question(q)
  }

  /** The questions asked over the input lines, and whether the loop quit. */
  function Scan(lines: seq<string>): (seq<string>, bool) {
    if lines == [] then ([], false)
    else ScanLine(Scan(lines[..|lines| - 1]), lines[|lines| - 1])
  }

  /** One turn of the loop: nothing once it has quit, else act on `line`. */
  function ScanLine(st: (seq<string>, bool), line: string): (seq<string>, bool) {
    var (qs, quit) := st;
    if quit then (qs, true)
    else match Classify(line)
      case Skip => (qs, false)
      case Quit => (qs, true)
      case Question(q) => (qs + [q], false)
  }

  lemma ScanNext(lines: seq<string>, i: nat)
    requires i < |lines|
    ensures Scan(lines[..i + 1]) == ScanLine(Scan(lines[..i]), lines[i])
  {
    TakeNext(lines, i);
  }

  lemma ConversedNext(qs: seq<string>, q: string, m: CodeMap, chat: seq<Message> -> string)
    ensures Conversed([], qs + [q], m, chat) == Ask(Conversed([], qs, m, chat), m, q, chat)
  {
    assert (qs + [q])[..|qs|] == qs;
  }

  /** Every question asked comes from an input line classified as a question:
      its stripped text, neither blank nor "chao". */
  lemma {:induction false} ScanAsksQuestions(lines: seq<string>)
    ensures forall q :: q in Scan(lines).0 ==> exists l :: l in lines && Classify(l) == Question(q)
    decreases |lines|
  {
    if lines != [] {
      var init := lines[..|lines| - 1];
      ScanAsksQuestions(init);
      assert forall l :: l in init ==> l in lines;
    }
  }

  /** Once the loop has quit, later lines change nothing. */
  lemma {:induction false} ScanStops(lines: seq<string>, k: nat)
    requires k <= |lines| && Scan(lines[..k]).1
    ensures Scan(lines) == Scan(lines[..k])
    decreases |lines| - k
  {
    if k < |lines| {
      TakeNext(lines, k);
      ScanStops(lines, k + 1);
    } else {
      assert lines[..k] == lines;
    }
  }

  /** `h` holds the system message and one question-reply pair per answer,
      the k-th reply at position 2k+2. */
  predicate Answered(h: seq<Message>, answers: seq<string>) {
    && |h| == (if answers == [] then 0 else 2 * |answers| + 1)
    && forall k :: 0 <= k < |answers| ==> h[2 * k + 2] == Message("assistant", answers[k])
  }

  lemma AnsweredNext(h: seq<Message>, answers: seq<string>, m: CodeMap, q: string, chat: seq<Message> -> string)
    requires Answered(h, answers)
    ensures var r := Ask(h, m, q, chat);
      Answered(r, answers + [r[|r| - 1].content])
  {
    AskAppends(h, m, q, chat);
    var r := Ask(h, m, q, chat);
    var a := answers + [r[|r| - 1].content];
    forall k | 0 <= k < |a| ensures r[2 * k + 2] == Message("assistant", a[k]) {
      if k < |answers| {
        assert r[2 * k + 2] == h[2 * k + 2];
      }
    }
  }

  /** `repl(code_map, model, temp)` over the lines read before end of input:
      asks each question in turn on one shared history and returns the
      answers it prints, with the final history. */
  method Repl(m: CodeMap, lines: seq<string>, chat: seq<Message> -> string)
    returns (answers: seq<string>, transcript: seq<Message>)
    ensures transcript == Conversed([], Scan(lines).0, m, chat)
    ensures |answers| == |Scan(lines).0|
    ensures Answered(transcript, answers)
  {
    var history := new History();
    answers := [];
    ghost var qs: seq<string> := [];
    var i := 0;
    while i < |lines|
      invariant 0 <= i <= |lines|
      invariant Scan(lines[..i]) == (qs, false)
      invariant history.messages == Conversed([], qs, m, chat)
      invariant |answers| == |qs|
      invariant Answered(history.messages, answers)
    {
      ScanNext(lines, i);
      var action := Classify(lines[i]);
      if action == Quit {
        assert Scan(lines[..i + 1]) == (qs, true);
        ScanStops(lines, i + 1);
        break;
      }
      if action.Question? {
        assert Scan(lines[..i + 1]) == (qs + [action.text], false);
        AnsweredNext(history.messages, answers, m, action.text, chat);
        ConversedNext(qs, action.text, m, chat);
        var answer := history.AskCodebase(m, action.text, chat);
        answers := answers + [answer];
        qs := qs + [action.text];
      } else {
        assert Scan(lines[..i + 1]) == (qs, false);
      }
      i := i + 1;
    }
    if i == |lines| {
      TakeAll(lines);
    }
    transcript := history.messages;
  }
}
