/**
 * Realtime speech synthesis (core/tts_utils.py): one websocket session per
 * voice, a generator that turns the server's frames into PCM chunks, and a
 * manager that frames each job as `audio_start`, `audio_data`..., `audio_end`.
 *
 * The websocket is abstract: a session keeps the messages it has sent on its
 * current socket and the frames the server has yet to deliver. Opening a
 * socket is an oracle outcome, the server's reply to a text is a parameter,
 * and an empty frame queue stands for the receive timeout.
 */
module Tts {
  import opened Wrappers

  type Bytes = seq<bv8>

  const Encoding := "pcm_s16le"
  const SampleRate := 22050
  const Channels := 1
  /** The voice settings sent when a socket is configured. */
  const Speed: real := 1.0
  const Stability: real := 0.55
  const SimilarityBoost: real := 0.8

  /** A text frame, parsed: its base64 "audio" field ("" when absent or empty),
      whether "isFinal" is truthy and whether an "error" key is present. */
  datatype TextFrame = TextFrame(audio: string, isFinal: bool, hasError: bool)

  /** What one receive on the socket produces. */
  datatype Incoming =
    | Binary(data: Bytes)
    | Text(frame: Option<TextFrame>)   // None: the text is not a JSON object
    | OtherType                        // neither bytes nor text
    | TimedOut
    | ClosedOk
    | ClosedError
    | Failure                          // any other exception

  datatype Outgoing =
    | Configure(apiKey: string, speed: real, stability: real, similarityBoost: real)
    | Say(text: string, tryTrigger: bool)
    | EndOfInput

  // ================================================================ the frame loop

  /** What the receive loop does with one frame: skip it, yield a chunk (and
      perhaps end), or end (perhaps marking the session disconnected). */
  datatype Reaction = Skip | Emit(chunk: Bytes, last: bool) | Stop(disconnect: bool)

  function React(m: Incoming, decode: string -> Option<Bytes>): (r: Reaction)
    ensures r.Emit? ==> m.Binary? || m.Text?
    ensures m.Binary? ==> r == (if |m.data| > 0 then Emit(m.data, false) else Skip)
    ensures (m.TimedOut? || m.ClosedOk?) ==> r == Stop(false)
    ensures (m.ClosedError? || m.Failure?) ==> r == Stop(true)
  {
    match m
    case Binary(b) => if |b| > 0 then Emit(b, false) else Skip
    case Text(None) => Stop(true)
    case Text(Some(f)) =>
      if f.audio != [] then
        match decode(f.audio)
        case None => Stop(true)
        case Some(b) => Emit(b, f.isFinal || f.hasError)
      else if f.isFinal || f.hasError then Stop(false)
      else Skip
    case OtherType => Skip
    case TimedOut => Stop(false)
    case ClosedOk => Stop(false)
    case ClosedError => Stop(true)
    case Failure => Stop(true)
  }

  /** Every chunk the loop yields when it reads `frames` to its end condition. */
  function Chunks(frames: seq<Incoming>, decode: string -> Option<Bytes>): (r: seq<Bytes>)
    ensures |r| <= |frames|
  {
    if frames == [] then []
    else match React(frames[0], decode)
      case Skip => Chunks(frames[1..], decode)
      case Emit(b, last) => [b] + (if last then [] else Chunks(frames[1..], decode))
      case Stop(_) => []
  }

  /** Whether the loop ends by marking the session disconnected. */
  function Drops(frames: seq<Incoming>, decode: string -> Option<Bytes>): bool {
    if frames == [] then false
    else match React(frames[0], decode)
      case Skip => Drops(frames[1..], decode)
      case Emit(_, last) => !last && Drops(frames[1..], decode)
      case Stop(d) => d
  }

  /** The frames left unread when the loop ends. */
  function Leftover(frames: seq<Incoming>, decode: string -> Option<Bytes>): (r: seq<Incoming>)
    ensures |r| <= |frames|
  {
    if frames == [] then []
    else match React(frames[0], decode)
      case Skip => Leftover(frames[1..], decode)
      case Emit(_, last) => if last then frames[1..] else Leftover(frames[1..], decode)
      case Stop(_) => frames[1..]
  }

  /** The loop ends somewhere inside `frames` (not by running out of them). */
  predicate Terminated(frames: seq<Incoming>, decode: string -> Option<Bytes>) {
    frames != [] &&
    match React(frames[0], decode)
    case Skip => Terminated(frames[1..], decode)
    case Emit(_, last) => last || Terminated(frames[1..], decode)
    case Stop(_) => true
  }

  /** Chunks come out in arrival order, and nothing after the end condition is read. */
  lemma {:induction false} ChunksAppend(frames: seq<Incoming>, more: seq<Incoming>, decode: string -> Option<Bytes>)
    ensures Chunks(frames + more, decode)
            == Chunks(frames, decode) + (if Terminated(frames, decode) then [] else Chunks(more, decode))
  {
    if frames != [] {
      assert (frames + more)[0] == frames[0];
      assert (frames + more)[1..] == frames[1..] + more;
      ChunksAppend(frames[1..], more, decode);
    } else {
      assert frames + more == more;
    }
  }

  /** Frames that yield no audio and end nothing are invisible. */
  lemma ChunksSkip(frames: seq<Incoming>, decode: string -> Option<Bytes>)
    requires frames != [] && React(frames[0], decode) == Skip
    ensures Chunks(frames, decode) == Chunks(frames[1..], decode)
    ensures Drops(frames, decode) == Drops(frames[1..], decode)
  {
  }

  /** The result of pulling one chunk from the generator. */
  datatype Pulled = Pulled(chunk: Option<Bytes>, rest: seq<Incoming>, disconnect: bool, ended: bool)

  function Pull(frames: seq<Incoming>, decode: string -> Option<Bytes>): (r: Pulled)
    ensures |r.rest| <= |frames|
    ensures frames != [] ==> |r.rest| < |frames|
  {
    if frames == [] then Pulled(None, [], false, true)
    else match React(frames[0], decode)
      case Skip => Pull(frames[1..], decode)
      case Emit(b, last) => Pulled(Some(b), frames[1..], false, last)
      case Stop(d) => Pulled(None, frames[1..], d, true)
  }

  /** Reading the loop chunk by chunk gives the same chunks, end state and
      leftover as reading it in one go. */
  lemma {:induction false} PullThenRest(frames: seq<Incoming>, decode: string -> Option<Bytes>)
    ensures var p := Pull(frames, decode);
      Chunks(frames, decode) == (if p.chunk.Some? then [p.chunk.value] + (if p.ended then [] else Chunks(p.rest, decode)) else [])
      && Drops(frames, decode) == (if p.chunk.None? then p.disconnect else !p.ended && Drops(p.rest, decode))
      && Leftover(frames, decode) == (if p.chunk.None? || p.ended then p.rest else Leftover(p.rest, decode))
      && (p.chunk.None? ==> p.ended)
  {
    if frames != [] && React(frames[0], decode) == Skip {
      PullThenRest(frames[1..], decode);
    }
  }

  // ================================================================ sessions

  /** `ElevenLabsRealtimeSession` */
  class Session {
    const voiceId: string
    const apiKey: string
    /** `websocket is not None` */
    var hasSocket: bool
    var connected: bool
    /** The messages sent on the current socket. */
    var sent: seq<Outgoing>
    /** The frames the server has yet to deliver on the current socket. */
    var inbox: seq<Incoming>

    predicate Valid()
      reads this
    {
      connected ==> hasSocket
    }

    constructor (voiceId: string, apiKey: string)
      ensures this.voiceId == voiceId && this.apiKey == apiKey
      ensures !hasSocket && !connected && sent == [] && inbox == []
      ensures Valid()
    {
      this.voiceId := voiceId;
      this.apiKey := apiKey;
      hasSocket := false;
      connected := false;
      sent := [];
      inbox := [];
    }

    /** `connect()`: a no-op on a live socket; otherwise open a socket (the
        `dialOk` outcome; `ok == false` is the exception) and send the
        configuration before the session counts as connected. */
    method Connect(dialOk: bool) returns (ok: bool)
      requires Valid()
      modifies this
      ensures Valid()
      ensures old(connected) ==> ok && unchanged(this)
      ensures !old(connected) && dialOk ==>
                ok && connected && hasSocket && inbox == []
                && sent == [Configure(apiKey, Speed, Stability, SimilarityBoost)]
      ensures !old(connected) && !dialOk ==> !ok && unchanged(this)
    {
      if connected && hasSocket {
        return true;
      }
      if !dialOk {
        return false;
      }
      hasSocket, inbox, sent := true, [], [];
      sent := sent + [Configure(apiKey, Speed, Stability, SimilarityBoost)];
      connected := true;
      ok := true;
    }

    /** The start of `stream_text_to_pcm(text)`: connect if needed, then send
        the text and the end-of-input marker; `reply` is what the server
        answers with. */
    method Open(text: string, reply: seq<Incoming>, dialOk: bool) returns (ok: bool)
      requires Valid()
      modifies this
      ensures Valid()
      ensures ok == (old(connected) || dialOk)
      ensures ok ==> connected
      ensures ok ==> sent == (if old(connected) then old(sent) else [Configure(apiKey, Speed, Stability, SimilarityBoost)])
                              + [Say(text, true), EndOfInput]
      ensures ok ==> inbox == (if old(connected) then old(inbox) else []) + reply
      ensures !ok ==> unchanged(this)
    {
      ok := true;
      if !connected {
        ok := Connect(dialOk);
        if !ok {
          return;
        }
      }
      sent := sent + [Say(text, true)];
      sent := sent + [EndOfInput];
      inbox := inbox + reply;
    }

    /** `close()` */
    method Close()
      requires Valid()
      modifies this
      ensures Valid()
      ensures old(hasSocket) ==> !connected && !hasSocket && sent == [] && inbox == []
      ensures !old(hasSocket) ==> unchanged(this)
    {
      if hasSocket {
        connected := false;
        hasSocket, sent, inbox := false, [], [];
      }
    }
  }

  /** The generator `stream_text_to_pcm` returns, after its sends. */
  class PcmStream {
    const session: Session
    const decode: string -> Option<Bytes>
    var done: bool

    constructor (session: Session, decode: string -> Option<Bytes>)
      ensures this.session == session && this.decode == decode && !done
    {
      this.session := session;
      this.decode := decode;
      done := false;
    }

    /** Resume the receive loop until it yields a chunk or ends. */
    method Next() returns (chunk: Option<Bytes>)
      modifies this, session
      ensures session.hasSocket == old(session.hasSocket) && session.sent == old(session.sent)
      ensures old(done) ==> chunk.None? && done && unchanged(session)
      ensures !old(done) ==>
        var p := Pull(old(session.inbox), decode);
        chunk == p.chunk && session.inbox == p.rest
        && done == (p.chunk.None? || p.ended)
        && session.connected == (old(session.connected) && !(p.chunk.None? && p.disconnect))
      ensures chunk.Some? ==> |session.inbox| < |old(session.inbox)|
    {
      if done {
        return None;
      }
      while true
        invariant session.hasSocket == old(session.hasSocket) && session.sent == old(session.sent)
        invariant session.connected == old(session.connected)
        invariant !done
        invariant Pull(session.inbox, decode) == Pull(old(session.inbox), decode)
        invariant |session.inbox| <= |old(session.inbox)|
        decreases |session.inbox|
      {
        if session.inbox == [] {
          // the receive times out
          done := true;
          return None;
        }
        var m := session.inbox[0];
        session.inbox := session.inbox[1..];
        match m
        case Binary(b) =>
          if |b| > 0 {
            return Some(b);
          }
        case Text(None) =>
          session.connected := false;
          done := true;
          return None;
        case Text(Some(f)) =>
          if f.audio != [] {
            var audio := decode(f.audio);
            if audio.None? {
              session.connected := false;
              done := true;
              return None;
            }
            done := f.isFinal || f.hasError;
            return audio;
          }
          if f.isFinal || f.hasError {
            done := true;
            return None;
          }
        case OtherType =>
        case TimedOut =>
          done := true;
          return None;
        case ClosedOk =>
          done := true;
          return None;
        case ClosedError =>
          session.connected := false;
          done := true;
          return None;
        case Failure =>
          session.connected := false;
          done := true;
          return None;
      }
    }
  }

  // ================================================================ the manager

  datatype Event =
    | AudioStart(id: string, encoding: string, sampleRate: int, channels: int)
    | AudioData(id: string, data: Bytes, index: nat)
    | AudioEnd(id: string)

  /** `job_id or str(uuid4())` */
  function JobId(jobId: string, freshId: string): string {
    if jobId != [] then jobId else freshId
  }

  /** The events of a job that yielded `chunks`, with `audio_start` only when
      the session was obtained. */
  function Framed(id: string, started: bool, chunks: seq<Bytes>): seq<Event> {
    (if started then [AudioStart(id, Encoding, SampleRate, Channels)] else [])
    + AudioEvents(id, chunks)
    + [AudioEnd(id)]
  }

  /** One `audio_data` event per chunk, with `chunk_index` counting from 0. */
  function AudioEvents(id: string, chunks: seq<Bytes>): (r: seq<Event>)
    ensures |r| == |chunks|
    ensures forall i :: 0 <= i < |r| ==> r[i] == AudioData(id, chunks[i], i)
  {
    seq(|chunks|, i requires 0 <= i < |chunks| => AudioData(id, chunks[i], i))
  }

  lemma AudioEventsNext(id: string, chunks: seq<Bytes>, c: Bytes)
    ensures AudioEvents(id, chunks + [c]) == AudioEvents(id, chunks) + [AudioData(id, c, |chunks|)]
  {
  }

  /** Exactly one `audio_end`, and it is last; `audio_start` only first; data
      indices run 0, 1, 2, ... and carry the chunks in order; one job id throughout. */
  lemma FramedShape(id: string, started: bool, chunks: seq<Bytes>)
    ensures var e := Framed(id, started, chunks);
      var off := if started then 1 else 0;
      |e| == |chunks| + off + 1
      && e[|e| - 1] == AudioEnd(id)
      && (forall i :: 0 <= i < |e| - 1 ==> !e[i].AudioEnd?)
      && (forall i :: 0 <= i < |e| ==> e[i].id == id)
      && (started ==> e[0] == AudioStart(id, Encoding, SampleRate, Channels))
      && (forall i :: off <= i < |e| ==> !e[i].AudioStart?)
      && (forall i :: 0 <= i < |e| && e[i].AudioData? ==>
            e[i].index == i - off && e[i].data == chunks[i - off])
  {
  }

  /** What the receive loop delivers to `stream_tts`: all of it, or, when the
      job is cancelled, up to the first chunk. Returns the chunks, the unread
      frames and whether the session was marked disconnected. */
  function Consumed(frames: seq<Incoming>, decode: string -> Option<Bytes>, cancelled: bool)
    : (seq<Bytes>, seq<Incoming>, bool)
  {
    if !cancelled then (Chunks(frames, decode), Leftover(frames, decode), Drops(frames, decode))
    else
      var p := Pull(frames, decode);
      if p.chunk.Some? then ([p.chunk.value], p.rest, false) else ([], p.rest, p.disconnect)
  }

  /** A cancelled job yields at most one chunk, and always a prefix of the full stream. */
  lemma ConsumedPrefix(frames: seq<Incoming>, decode: string -> Option<Bytes>, cancelled: bool)
    ensures Consumed(frames, decode, cancelled).0 <= Chunks(frames, decode)
    ensures cancelled ==> |Consumed(frames, decode, cancelled).0| <= 1
  {
    PullThenRest(frames, decode);
  }

  /** One pull advances the reading of `frames` by one chunk. */
  lemma PullStep(frames: seq<Incoming>, before: seq<Incoming>, chunks: seq<Bytes>, decode: string -> Option<Bytes>)
    requires Chunks(frames, decode) == chunks + Chunks(before, decode)
    requires Drops(frames, decode) == Drops(before, decode)
    requires Leftover(frames, decode) == Leftover(before, decode)
    ensures var p := Pull(before, decode);
      p.chunk.None? ==>
        Chunks(frames, decode) == chunks && Drops(frames, decode) == p.disconnect && Leftover(frames, decode) == p.rest
    ensures var p := Pull(before, decode);
      p.chunk.Some? && p.ended ==>
        Chunks(frames, decode) == chunks + [p.chunk.value] && !Drops(frames, decode) && Leftover(frames, decode) == p.rest
    ensures var p := Pull(before, decode);
      p.chunk.Some? && !p.ended ==>
        Chunks(frames, decode) == (chunks + [p.chunk.value]) + Chunks(p.rest, decode)
        && Drops(frames, decode) == Drops(p.rest, decode) && Leftover(frames, decode) == Leftover(p.rest, decode)
  {
    PullThenRest(before, decode);
    var p := Pull(before, decode);
    if p.chunk.Some? && !p.ended {
      assert chunks + ([p.chunk.value] + Chunks(p.rest, decode)) == (chunks + [p.chunk.value]) + Chunks(p.rest, decode);
    }
  }

  /** The `async for` loop of `stream_tts`: one `audio_data` event per chunk,
      numbered from 0, stopping after a chunk when the job is cancelled. */
  method Relay(stream: PcmStream, id: string, cancelled: bool) returns (data: seq<Event>, ghost chunks: seq<Bytes>)
    requires stream.session.connected && !stream.done
    modifies stream, stream.session
    ensures stream.session.hasSocket == old(stream.session.hasSocket)
    ensures stream.session.sent == old(stream.session.sent)
    ensures var c := Consumed(old(stream.session.inbox), stream.decode, cancelled);
      chunks == c.0 && stream.session.inbox == c.1 && stream.session.connected == !c.2
    ensures data == AudioEvents(id, chunks)
  {
    var s := stream.session;
    var decode := stream.decode;
    ghost var frames := s.inbox;
    chunks := [];
    data := [];
    var count := 0;
    PullThenRest(frames, decode);
    while true
      invariant count == |chunks|
      invariant data == AudioEvents(id, chunks)
      invariant s.hasSocket == old(s.hasSocket) && s.sent == old(s.sent)
      invariant cancelled ==> chunks == [] && !stream.done && s.inbox == frames && s.connected
      invariant !stream.done ==> s.connected
      invariant !cancelled && !stream.done ==>
                  Chunks(frames, decode) == chunks + Chunks(s.inbox, decode)
                  && Drops(frames, decode) == Drops(s.inbox, decode)
                  && Leftover(frames, decode) == Leftover(s.inbox, decode)
      invariant !cancelled && stream.done ==>
                  Chunks(frames, decode) == chunks && s.connected == !Drops(frames, decode)
                  && s.inbox == Leftover(frames, decode)
      decreases |s.inbox| + (if stream.done then 0 else 1)
    {
      if !cancelled && !stream.done {
        PullStep(frames, s.inbox, chunks, decode);
      }
      var c := stream.Next();
      if c.None? {
        break;
      }
      AudioEventsNext(id, chunks, c.value);
      data := data + [AudioData(id, c.value, count)];
      chunks := chunks + [c.value];
      count := count + 1;
      if cancelled {
        break;
      }
    }
  }

  /** The part of `stream_tts` after the session is obtained: send the text,
      then relay the audio of the reply. */
  method Speak(s: Session, id: string, text: string, reply: seq<Incoming>, dialOk: bool,
               decode: string -> Option<Bytes>, cancelled: bool)
    returns (data: seq<Event>)
    requires s.Valid()
    modifies s
    ensures s.Valid()
    ensures var isOpen := old(s.connected) || dialOk;
      var frames := (if old(s.connected) then old(s.inbox) else []) + reply;
      var c := Consumed(frames, decode, cancelled);
      data == (if isOpen then AudioEvents(id, c.0) else [])
      && s.connected == (isOpen && !c.2)
      && (isOpen ==> s.inbox == c.1)
  {
    data := [];
    var isOpen := s.Open(text, reply, dialOk);
    if isOpen {
      var stream := new PcmStream(s, decode);
      ghost var chunks;
      data, chunks := Relay(stream, id, cancelled);
    }
  }

  /** `RealtimeTTSManager`: `sessions` maps voice ids to sessions; `activeJobs`
      maps job ids to whether cancellation was requested. */
  class Manager {
    var sessions: map<string, Session>
    var activeJobs: map<string, bool>

    /** One session per voice id, each keyed by its own voice. */
    ghost predicate Valid()
      reads this, sessions.Values
    {
      forall v :: v in sessions ==> sessions[v].voiceId == v && sessions[v].Valid()
    }

    constructor ()
      ensures sessions == map[] && activeJobs == map[]
      ensures Valid()
    {
      sessions := map[];
      activeJobs := map[];
    }

    /** `get_or_create_session(voice_id)`: an existing session is returned
        untouched; a new one is pooled before it connects, so a failed connect
        (`!ok`) leaves it pooled and disconnected. */
    method GetOrCreate(voiceId: string, apiKey: string, dialOk: bool) returns (s: Session, ok: bool)
      requires Valid()
      modifies this
      ensures Valid()
      ensures activeJobs == old(activeJobs)
      ensures voiceId in sessions && s == sessions[voiceId]
      ensures sessions.Keys == old(sessions.Keys) + {voiceId}
      ensures forall v :: v in old(sessions) ==> sessions[v] == old(sessions[v])
      ensures voiceId in old(sessions) ==> ok && unchanged(s)
      ensures voiceId !in old(sessions) ==>
                fresh(s) && s.apiKey == apiKey && ok == dialOk && s.connected == dialOk && s.inbox == []
                && s.sent == (if dialOk then [Configure(apiKey, Speed, Stability, SimilarityBoost)] else [])
    {
      if voiceId !in sessions {
        s := new Session(voiceId, apiKey);
        sessions := sessions[voiceId := s];
        ok := s.Connect(dialOk);
      } else {
        s := sessions[voiceId];
        ok := true;
      }
    }

    /** `stream_tts(text, voice_id, job_id)`, collecting the events it yields. */
    method StreamTts(text: string, voiceId: string, jobId: string, freshId: string, apiKey: string,
                     dialOk: bool, reply: seq<Incoming>, decode: string -> Option<Bytes>)
      returns (events: seq<Event>)
      requires Valid()
      modifies this, sessions.Values
      ensures Valid()
      ensures sessions.Keys == old(sessions.Keys) + {voiceId}
      ensures forall v :: v in old(sessions) ==> sessions[v] == old(sessions[v])
      ensures forall v :: v in old(sessions) && v != voiceId ==> unchanged(sessions[v])
      ensures activeJobs == old(activeJobs) - {JobId(jobId, freshId)}
      ensures var id := JobId(jobId, freshId);
        var known := voiceId in old(sessions);
        var live := known && old(sessions[voiceId].connected);
        var started := known || dialOk;
        var isOpen := live || dialOk;
        var frames := (if live then old(sessions[voiceId].inbox) else []) + reply;
        var c := Consumed(frames, decode, id in old(activeJobs) && old(activeJobs[id]));
        events == Framed(id, started, if isOpen then c.0 else [])
        && sessions[voiceId].connected == (isOpen && !c.2)
        && (isOpen ==> sessions[voiceId].inbox == c.1)
    {
      var id := JobId(jobId, freshId);
      var cancelled := id in activeJobs && activeJobs[id];
      events := [];
      var s, ok := GetOrCreate(voiceId, apiKey, dialOk);
      if ok {
        events := [AudioStart(id, Encoding, SampleRate, Channels)];
        var data := Speak(s, id, text, reply, dialOk, decode, cancelled);
        events := events + data;
      }
      events := events + [AudioEnd(id)];
      if id in activeJobs {
        activeJobs := activeJobs - {id};
      }
    }

    /** `cancel_job(job_id)`: true exactly when the job is active. */
    method CancelJob(jobId: string) returns (r: bool)
      modifies this
      ensures r == (jobId in old(activeJobs))
      ensures activeJobs == if r then old(activeJobs)[jobId := true] else old(activeJobs)
      ensures sessions == old(sessions)
    {
      if jobId in activeJobs {
        activeJobs := activeJobs[jobId := true];
        return true;
      }
      return false;
    }

    /** `close_all()`: every session closed, both tables empty. */
    method CloseAll()
      requires Valid()
      modifies this, sessions.Values
      ensures sessions == map[] && activeJobs == map[]
      ensures Valid()
      ensures forall s :: s in old(sessions.Values) ==> !s.connected && !s.hasSocket
    {
      var pending := sessions.Values;
      while pending != {}
        invariant pending <= old(sessions.Values) && sessions == old(sessions)
        invariant forall s :: s in pending ==> s.Valid()
        invariant forall s :: s in old(sessions.Values) && s !in pending ==> !s.connected && !s.hasSocket
        decreases pending
      {
        var s :| s in pending;
        s.Close();
        pending := pending - {s};
      }
      sessions := map[];
      activeJobs := map[];
    }
  }
}
