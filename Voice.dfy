/**
 * The live voice assistant's turn logic.
 *
 * Microphone frames pass through an adaptive voice-activity gate: a frame whose RMS
 * level is below the threshold (five times higher while the assistant is speaking) is
 * silenced in place. Reply audio is scheduled back to back on the output clock from
 * `nextStartTime`, restarting a small lookahead after the clock when the queue has run
 * dry; the set of playing buffers empties as buffers end, and a barge-in interruption
 * stops them all. `navigate` tool calls move the app to a page and are answered, and
 * search sources are collected without repeating a URI already shown.
 *
 * Playing buffers are named by natural numbers; the clock, the RMS level and the
 * decoded reply length are parameters. Navigations and tool responses are recorded in
 * the order they are issued.
 */
module Voice {
  import opened Wrappers
  import opened Sequences

  const PlaybackLookahead: real := 0.15
  const VadThreshold: real := 0.008
  const OutputSampleRate: real := 24000.0

  // ------------------------------------------------------------ voice-activity gate

  /** `adaptiveThreshold`: five times `VAD_THRESHOLD` while any reply buffer is playing. */
  function Threshold(aiSpeaking: bool): real
  {
    if aiSpeaking then VadThreshold * 5.0 else VadThreshold
  }

  /** The raised threshold is in force exactly while the assistant is speaking. */
  lemma ThresholdRaisedIff(aiSpeaking: bool)
    ensures Threshold(aiSpeaking) == 5.0 * VadThreshold <==> aiSpeaking
    ensures Threshold(aiSpeaking) == VadThreshold <==> !aiSpeaking
    ensures Threshold(aiSpeaking) > 0.0
  {
  }

  /** Silencing a frame in place: `for (i...) inputData[i] = 0`. */
  method ZeroFrame(frame: array<real>)
    modifies frame
    ensures forall i :: 0 <= i < frame.Length ==> frame[i] == 0.0
  {
    for i := 0 to frame.Length
      invariant forall j :: 0 <= j < i ==> frame[j] == 0.0
    {
      frame[i] := 0.0;
    }
  }

  // ------------------------------------------------------------ playback scheduling

  /** The start time of a new buffer: `nextStart`, or `currentTime + PLAYBACK_LOOKAHEAD` once that has passed. */
  function StartTime(nextStart: real, currentTime: real): (s: real)
    ensures s >= currentTime
    ensures s >= nextStart
  {
    if nextStart < currentTime then currentTime + PlaybackLookahead else nextStart
  }

  /** `buffer.duration` for a reply of that many bytes of 16-bit mono samples at 24 kHz. */
  function Duration(bytes: nat): (d: real)
    ensures d >= 0.0
  {
    (bytes / 2) as real / OutputSampleRate
  }

  /**
   * Two buffers scheduled one after the other, with no reset between them, do not
   * overlap: the second starts when the first ends, or later if the clock has passed,
   * and an overdue queue restarts exactly one lookahead after the clock.
   */
  lemma SchedulesDoNotOverlap(nextStart: real, t1: real, d1: real, t2: real)
    ensures StartTime(StartTime(nextStart, t1) + d1, t2) >= StartTime(nextStart, t1) + d1
    ensures StartTime(nextStart, t1) + d1 < t2 ==> StartTime(StartTime(nextStart, t1) + d1, t2) == t2 + PlaybackLookahead
    ensures StartTime(nextStart, t1) + d1 >= t2 ==> StartTime(StartTime(nextStart, t1) + d1, t2) == StartTime(nextStart, t1) + d1
  {
  }

  /** After a reset the next buffer starts one lookahead after the clock. */
  lemma IdleQueueWaitsLookahead(currentTime: real)
    requires currentTime > 0.0
    ensures StartTime(0.0, currentTime) == currentTime + PlaybackLookahead
  {
  }

  // ------------------------------------------------------------ tool calls

  datatype FunctionCall = FunctionCall(id: string, name: string, page: string)

  datatype ToolResponse = ToolResponse(id: string, name: string, result: string)

  /** A call that moves the app: `navigate` with a non-empty `page`. */
  predicate IsNavigation(fc: FunctionCall)
  {
    fc.name == "navigate" && fc.page != ""
  }

  function ResponseTo(fc: FunctionCall): ToolResponse
  {
    ToolResponse(fc.id, fc.name, "Navigated to " + fc.page)
  }

  /** The pages visited for the calls of one message, in order. */
  function Navigations(calls: seq<FunctionCall>): seq<string>
  {
    if calls == [] then []
    else
      var last := calls[|calls| - 1];
      Navigations(calls[..|calls| - 1]) + (if IsNavigation(last) then [last.page] else [])
  }

  /** The tool responses for the calls of one message, in order. */
  function Responses(calls: seq<FunctionCall>): seq<ToolResponse>
  {
    if calls == [] then []
    else
      var last := calls[|calls| - 1];
      Responses(calls[..|calls| - 1]) + (if IsNavigation(last) then [ResponseTo(last)] else [])
  }

  /** The `for (const fc of message.toolCall.functionCalls)` loop. */
  method DispatchCalls(calls: seq<FunctionCall>) returns (pages: seq<string>, responses: seq<ToolResponse>)
    ensures pages == Navigations(calls) && responses == Responses(calls)
  {
    pages := [];
    responses := [];
    for i := 0 to |calls|
      invariant pages == Navigations(calls[..i]) && responses == Responses(calls[..i])
    {
      assert calls[..i + 1][..i] == calls[..i];
      var fc := calls[i];
      if fc.name == "navigate" {
        if fc.page != "" {
          pages := pages + [fc.page];
          responses := responses + [ResponseTo(fc)];
        }
      }
    }
    assert calls[..|calls|] == calls;
  }

  function NavigationCalls(calls: seq<FunctionCall>): seq<FunctionCall>
  {
    Filter(calls, IsNavigation)
  }

  /**
   * Each navigation call yields exactly one navigation to its page and exactly one
   * response carrying its id and name, in call order; every other call yields nothing.
   */
  lemma {:induction false} DispatchOneEach(calls: seq<FunctionCall>)
    ensures |Navigations(calls)| == |Responses(calls)| == |NavigationCalls(calls)|
    ensures forall i :: 0 <= i < |NavigationCalls(calls)| ==>
              Navigations(calls)[i] == NavigationCalls(calls)[i].page
              && Responses(calls)[i] == ToolResponse(NavigationCalls(calls)[i].id, NavigationCalls(calls)[i].name,
                                                     "Navigated to " + NavigationCalls(calls)[i].page)
  {
    if calls != [] {
      var init := calls[..|calls| - 1];
      var last := calls[|calls| - 1];
      DispatchOneEach(init);
      assert calls == init + [last];
      FilterAppend(init, [last], IsNavigation);
      assert [last][1..] == [];
    }
  }

  // ------------------------------------------------------------ search sources

  datatype GroundingSource = GroundingSource(title: string, uri: string)

  /** A grounding chunk; `web` is absent for chunks that are not web pages. */
  datatype GroundingChunk = GroundingChunk(web: Option<GroundingSource>)

  /** `groundingChunks.filter(chunk => chunk.web).map(chunk => ({ title, uri }))`. */
  function WebSources(chunks: seq<GroundingChunk>): (r: seq<GroundingSource>)
    ensures |r| <= |chunks|
  {
    if chunks == [] then []
    else (if chunks[0].web.Some? then [chunks[0].web.value] else []) + WebSources(chunks[1..])
  }

  predicate HasUri(sources: seq<GroundingSource>, uri: string)
  {
    exists i :: 0 <= i < |sources| && sources[i].uri == uri
  }

  function NotShown(prev: seq<GroundingSource>): GroundingSource -> bool
  {
    (s: GroundingSource) => !HasUri(prev, s.uri)
  }

  /** The `setSources` update: the previous list followed by the new sources whose URI it lacks. */
  function MergeSources(prev: seq<GroundingSource>, chunks: seq<GroundingChunk>): (r: seq<GroundingSource>)
    ensures |r| >= |prev| && r[..|prev|] == prev
  {
    var added := Filter(WebSources(chunks), NotShown(prev));
    assert (prev + added)[..|prev|] == prev;
    prev + added
  }

  /**
   * The previous sources are an unchanged prefix; what follows is exactly the web
   * chunks' sources whose URI is not already listed, in order, with repeats inside the
   * batch kept.
   */
  lemma MergeSourcesEffect(prev: seq<GroundingSource>, chunks: seq<GroundingChunk>, s: GroundingSource)
    ensures var r := MergeSources(prev, chunks);
            (s in r[|prev|..]) <==> (s in WebSources(chunks) && !HasUri(prev, s.uri))
    ensures forall s :: s in MergeSources(prev, chunks)[|prev|..] ==> !HasUri(prev, s.uri)
  {
    var added := Filter(WebSources(chunks), NotShown(prev));
    assert MergeSources(prev, chunks)[|prev|..] == added;
    FilterMembers(WebSources(chunks), NotShown(prev), s);
    forall s' | s' in added ensures !HasUri(prev, s'.uri) {
      FilterMembers(WebSources(chunks), NotShown(prev), s');
    }
  }

  /**
   * Repeats inside one batch are kept: every source whose URI was not listed before is
   * appended as many times as the batch's web chunks carry it, whatever else the batch
   * holds; a source whose URI was listed is appended not at all.
   */
  lemma MergeKeepsBatchRepeats(prev: seq<GroundingSource>, chunks: seq<GroundingChunk>, s: GroundingSource)
    ensures var added := multiset(MergeSources(prev, chunks)[|prev|..]);
            added[s] == (if HasUri(prev, s.uri) then 0 else multiset(WebSources(chunks))[s])
  {
    var added := Filter(WebSources(chunks), NotShown(prev));
    assert MergeSources(prev, chunks)[|prev|..] == added;
    FilterCount(WebSources(chunks), NotShown(prev), s);
  }

  /** The smallest case: a batch naming the same new page twice lists it twice. */
  lemma MergeKeepsBatchRepeatsPair(src: GroundingSource)
    ensures MergeSources([], [GroundingChunk(Some(src)), GroundingChunk(Some(src))]) == [src, src]
  {
    var chunks := [GroundingChunk(Some(src)), GroundingChunk(Some(src))];
    assert chunks[1..][1..] == [];
    assert WebSources(chunks) == [src, src];
    assert NotShown([])(src);
    assert [src, src][1..] == [src] && [src][1..] == [];
    assert Filter([src], NotShown([])) == [src];
    assert Filter([src, src], NotShown([])) == [src, src];
  }

  /** Sources from the web chunks, none of whose URIs is listed yet, are all appended. */
  lemma MergeAllNew(prev: seq<GroundingSource>, chunks: seq<GroundingChunk>)
    requires forall s :: s in WebSources(chunks) ==> !HasUri(prev, s.uri)
    ensures MergeSources(prev, chunks) == prev + WebSources(chunks)
  {
    var ws := WebSources(chunks);
    forall i | 0 <= i < |ws| ensures NotShown(prev)(ws[i]) {
      assert ws[i] in ws;
    }
    FilterKeepsAll(ws, NotShown(prev));
  }

  // ------------------------------------------------------------ status

  datatype Status = Connecting | Connected | Failed

  /** The caption under the orb. */
  function StatusLabel(status: Status, isUserTalking: bool): (s: string)
    ensures status == Connecting ==> s == "Calibrating..."
    ensures status == Failed ==> s == "Error"
    ensures status == Connected ==> s == (if isUserTalking then "Listening Carefully" else "Listening...")
  {
    match status
    case Connecting => "Calibrating..."
    case Failed => "Error"
    case Connected => if isUserTalking then "Listening Carefully" else "Listening..."
  }

  // ------------------------------------------------------------ one message

  /**
   * A server message: its function calls, its grounding chunks (absent when there
   * is no grounding metadata), the byte length of its decoded reply audio (absent when
   * it carries none), and whether it reports an interruption.
   */
  datatype ServerMessage = ServerMessage(
    calls: seq<FunctionCall>,
    chunks: Option<seq<GroundingChunk>>,
    audioBytes: Option<nat>,
    interrupted: bool)

  /** Reply audio decodes into a buffer when it is a non-empty whole number of 16-bit samples. */
  predicate Decodes(bytes: nat)
  {
    bytes > 0 && bytes % 2 == 0
  }

  /** The assistant session: its status, the gate's outputs, the player and what it has done. */
  class VoiceSession {
    var status: Status
    var errorMessage: string
    var volume: real
    var isUserTalking: bool
    var sources: seq<GroundingSource>
    var nextStartTime: real
    var active: set<nat>
    var nextBuffer: nat
    var stopped: set<nat>
    var outputReady: bool
    var navigations: seq<string>
    var toolResponses: seq<ToolResponse>

    /**
     * The player's invariant: the next start time is never negative and is 0 whenever
     * nothing plays; every playing buffer has a name already issued; and a failed
     * session carries a message.
     */
    predicate Valid()
      reads this
    {
      nextStartTime >= 0.0
      && (active == {} ==> nextStartTime == 0.0)
      && (forall b :: b in active ==> b < nextBuffer)
      && (status == Failed ==> errorMessage != "")
    }

    /** The component's initial state; `outputReady` says whether the output audio context exists. */
    constructor (outputReady: bool)
      ensures Valid()
      ensures status == Connecting && errorMessage == "" && volume == 0.0 && !isUserTalking
      ensures sources == [] && nextStartTime == 0.0 && active == {} && stopped == {}
      ensures navigations == [] && toolResponses == [] && this.outputReady == outputReady
    {
      status := Connecting;
      errorMessage := "";
      volume := 0.0;
      isUserTalking := false;
      sources := [];
      nextStartTime := 0.0;
      active := {};
      nextBuffer := 0;
      stopped := {};
      this.outputReady := outputReady;
      navigations := [];
      toolResponses := [];
    }

    /** `onopen`: connected, then failed if the microphone cannot be opened. */
    method OnOpen(microphoneOk: bool)
      requires Valid()
      modifies this`status, this`errorMessage
      ensures Valid()
      ensures microphoneOk ==> status == Connected && errorMessage == old(errorMessage)
      ensures !microphoneOk ==> status == Failed && errorMessage == "Could not access microphone."
    {
      status := Connected;
      if !microphoneOk {
        errorMessage := "Could not access microphone.";
        status := Failed;
      }
    }

    /** `onerror`. */
    method OnError()
      requires Valid()
      modifies this`status, this`errorMessage
      ensures Valid() && status == Failed && errorMessage == "Connection lost."
    {
      errorMessage := "Connection lost.";
      status := Failed;
    }

    /** The session could not be started. */
    method OnStartFailure()
      requires Valid()
      modifies this`status, this`errorMessage
      ensures Valid() && status == Failed && errorMessage == "Failed to start session."
    {
      errorMessage := "Failed to start session.";
      status := Failed;
    }

    /** `onaudioprocess`'s gate, with `rms` the frame's measured level. */
    method Gate(frame: array<real>, rms: real)
      modifies frame, this`volume, this`isUserTalking
      ensures volume == rms
      ensures rms < Threshold(active != {}) ==>
                !isUserTalking && forall i :: 0 <= i < frame.Length ==> frame[i] == 0.0
      ensures rms >= Threshold(active != {}) ==> isUserTalking && frame[..] == old(frame[..])
    {
      volume := rms;
      var threshold := Threshold(|active| > 0);
      assert (|active| > 0) == (active != {});
      if rms < threshold {
        isUserTalking := false;
        ZeroFrame(frame);
      } else {
        isUserTalking := true;
      }
    }

    /** Scheduling one reply buffer of `duration` seconds at output clock `currentTime`. */
    method Schedule(currentTime: real, duration: real) returns (buffer: nat, start: real)
      requires Valid() && currentTime >= 0.0 && duration >= 0.0
      modifies this`nextStartTime, this`active, this`nextBuffer
      ensures Valid()
      ensures start == StartTime(old(nextStartTime), currentTime) && start >= currentTime
      ensures nextStartTime == start + duration
      ensures buffer !in old(active) && active == old(active) + {buffer}
    {
      if nextStartTime < currentTime {
        nextStartTime := currentTime + PlaybackLookahead;
      }
      start := nextStartTime;
      nextStartTime := start + duration;
      buffer := nextBuffer;
      nextBuffer := nextBuffer + 1;
      active := active + {buffer};
    }

    /** A buffer's `onended`: it leaves the set, and an empty set resets the queue. */
    method OnEnded(buffer: nat)
      requires Valid()
      modifies this`active, this`nextStartTime
      ensures Valid()
      ensures active == old(active) - {buffer}
      ensures nextStartTime == (if active == {} then 0.0 else old(nextStartTime))
    {
      active := active - {buffer};
      if |active| == 0 {
        nextStartTime := 0.0;
      }
    }

    /** A barge-in: every playing buffer is stopped, the set is cleared and the queue reset. */
    method Interrupt()
      requires Valid()
      modifies this`active, this`stopped, this`nextStartTime
      ensures Valid()
      ensures stopped == old(stopped) + old(active)
      ensures active == {} && nextStartTime == 0.0
    {
      var rest := active;
      while rest != {}
        invariant active == old(active) && rest <= active
        invariant stopped == old(stopped) + (active - rest)
        decreases |rest|
      {
        var b :| b in rest;
        stopped := stopped + {b};
        rest := rest - {b};
      }
      assert active - rest == active;
      active := {};
      nextStartTime := 0.0;
    }

    /**
     * `onmessage`: tool calls first, then sources; then, if the output context exists,
     * the reply audio is scheduled and an interruption is applied after it, so that
     * the buffer just scheduled is stopped as well.
     */
    method OnMessage(msg: ServerMessage, currentTime: real) returns (scheduled: Option<nat>)
      requires Valid() && currentTime >= 0.0
      modifies this`navigations, this`toolResponses, this`sources
      modifies this`nextStartTime, this`active, this`nextBuffer, this`stopped
      ensures Valid()
      ensures navigations == old(navigations) + Navigations(msg.calls)
      ensures toolResponses == old(toolResponses) + Responses(msg.calls)
      ensures sources == (if msg.chunks.Some? then MergeSources(old(sources), msg.chunks.value) else old(sources))
      ensures scheduled.Some? <==> outputReady && msg.audioBytes.Some? && Decodes(msg.audioBytes.value)
      ensures scheduled.Some? ==> scheduled.value !in old(active)
      ensures !outputReady ==>
                active == old(active) && nextStartTime == old(nextStartTime) && stopped == old(stopped)
      ensures outputReady && msg.interrupted ==>
                active == {} && nextStartTime == 0.0
                && stopped == old(stopped) + old(active) + (if scheduled.Some? then {scheduled.value} else {})
      ensures outputReady && !msg.interrupted ==>
                stopped == old(stopped)
                && (scheduled.Some? ==>
                      active == old(active) + {scheduled.value}
                      && nextStartTime == StartTime(old(nextStartTime), currentTime) + Duration(msg.audioBytes.value))
                && (scheduled.None? ==> active == old(active) && nextStartTime == old(nextStartTime))
    {
      var pages, responses := DispatchCalls(msg.calls);
      navigations := navigations + pages;
      toolResponses := toolResponses + responses;
      if msg.chunks.Some? {
        var added := Filter(WebSources(msg.chunks.value), NotShown(sources));
        if |added| > 0 {
          sources := sources + added;
        }
      }
      scheduled := None;
      if !outputReady {
        return;
      }
      if msg.audioBytes.Some? && Decodes(msg.audioBytes.value) {
        var b, start := Schedule(currentTime, Duration(msg.audioBytes.value));
        scheduled := Some(b);
      }
      if msg.interrupted {
        Interrupt();
      }
    }
  }
}
