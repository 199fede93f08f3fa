/// The listening session as a value: the `is_listening` flag, the status line,
/// the label of the Start/Stop button, the chat log, everything handed to the
/// speech engine and every URL handed to the browser. Each function is one
/// method of the assistant window, applied to that value; `ListenContinuous`
/// runs the listening loop over a script of recogniser outcomes.
module Sessions {
  import opened Text
  import opened Commands

  datatype Option<T> = None | Some(value: T)

  datatype Sender = User | Assistant

  /** One message of the chat window (the clock-formatted timestamp is not kept). */
  datatype ChatEntry = ChatEntry(sender: Sender, text: string)

  /** The text of the status line: "Ready to Assist", "Listening...", "Processing..." or "Error". */
  datatype Status = ReadyToAssist | Listening | Processing | Error

  datatype ButtonLabel = StartListening | StopListening

  /** What one attempt to hear a command ends with: a transcript, or the
      exception the recogniser raised. `Failure` stands for any other
      exception; `captured` says whether it came after the audio was captured
      (and the status already read "Processing...") or before. */
  datatype Capture =
    | Recognized(transcript: string)
    | WaitTimeout
    | Unintelligible
    | ServiceUnavailable
    | Failure(message: string, captured: bool)

  /** One pass of the listening loop: what the recogniser yields, and what the
      clock reads should the command need it. */
  datatype Turn = Turn(capture: Capture, clock: Clock)

  datatype State = State(
    listening: bool,
    status: Status,
    button: ButtonLabel,
    chat: seq<ChatEntry>,
    spoken: seq<string>,
    browsed: seq<string>)

  const WelcomeText := "Hello! I'm your voice assistant. Click 'Start Listening' to begin!"
  const UnavailableText := "Speech recognition service is unavailable."
  const ErrorPrefix := "An error occurred: "
  const ClearedText := "Chat cleared!"

  /** The window as it is first shown. */
  const Initial := State(false, ReadyToAssist, StartListening, [], [], [])

  /** The button offers to stop exactly when the assistant is listening. */
  predicate ButtonInSync(s: State) {
    s.button == if s.listening then StopListening else StartListening
  }

  /** The assistant's messages, in chat order. */
  function AssistantTexts(chat: seq<ChatEntry>): seq<string> {
    if chat == [] then []
    else (if chat[0].sender == Assistant then [chat[0].text] else []) + AssistantTexts(chat[1..])
  }

  /** The assistant's messages in the chat are the latest things spoken, in the same order. */
  predicate SpeechFollowsChat(s: State) {
    var said := AssistantTexts(s.chat);
    |said| <= |s.spoken| && s.spoken[|s.spoken| - |said|..] == said
  }

  predicate Consistent(s: State) {
    ButtonInSync(s) && SpeechFollowsChat(s)
  }

  lemma {:induction false} AssistantTextsAppend(a: seq<ChatEntry>, b: seq<ChatEntry>)
    ensures AssistantTexts(a + b) == AssistantTexts(a) + AssistantTexts(b)
    decreases |a|
  {
    if a == [] {
      assert a + b == b;
    } else {
      assert (a + b)[1..] == a[1..] + b;
      AssistantTextsAppend(a[1..], b);
    }
  }

  /** `display_message`: the message goes at the end of the chat. */
  function DisplayMessage(s: State, message: string, sender: Sender): (r: State)
    ensures r.chat == s.chat + [ChatEntry(sender, message)]
    ensures r.spoken == s.spoken && r.listening == s.listening && r.status == s.status
    ensures r.button == s.button && r.browsed == s.browsed
  {
    s.(chat := s.chat + [ChatEntry(sender, message)])
  }

  /** `display_and_speak`: display the message, and speak it when the assistant is the sender. */
  function DisplayAndSpeak(s: State, message: string, sender: Sender): (r: State)
    ensures r.chat == s.chat + [ChatEntry(sender, message)]
    ensures r.spoken == if sender == Assistant then s.spoken + [message] else s.spoken
    ensures r.listening == s.listening && r.status == s.status && r.button == s.button && r.browsed == s.browsed
  {
    var shown := DisplayMessage(s, message, sender);
    if sender == Assistant then shown.(spoken := s.spoken + [message]) else shown
  }

  /** `toggle_listening`. Starting the loop's thread is not part of it here;
      `ListenContinuous` is the loop. */
  function ToggleListening(s: State): (r: State)
    ensures r.listening == !s.listening
    ensures r.status == if r.listening then Listening else ReadyToAssist
    ensures ButtonInSync(r)
    ensures r.chat == s.chat && r.spoken == s.spoken && r.browsed == s.browsed
  {
    if !s.listening then s.(listening := true, button := StopListening, status := Listening)
    else s.(listening := false, button := StartListening, status := ReadyToAssist)
  }

  /** `show_help`. */
  function ShowHelp(s: State): (r: State)
    ensures r.chat == s.chat + [ChatEntry(Assistant, HelpText)] && r.spoken == s.spoken + [HelpText]
    ensures r.listening == s.listening && r.status == s.status && r.button == s.button && r.browsed == s.browsed
  {
    DisplayAndSpeak(s, HelpText, Assistant)
  }

  /** `clear_chat`: empty the chat, then announce it. */
  function ClearChat(s: State): (r: State)
    ensures r.chat == [ChatEntry(Assistant, ClearedText)]
    ensures r.spoken == s.spoken + [ClearedText]
    ensures r.listening == s.listening && r.status == s.status && r.button == s.button && r.browsed == s.browsed
  {
    DisplayAndSpeak(s.(chat := []), ClearedText, Assistant)
  }

  /** `listen`: one attempt to hear a command. It gives back the lowercased
      transcript when there is one and None otherwise, and updates the window
      according to how the attempt ended. */
  function Listen(s: State, capture: Capture): (r: (State, Option<string>))
    ensures r.1.Some? <==> capture.Recognized?
    ensures capture.Recognized? ==> r.1.value == Lower(capture.transcript)
    ensures r.0.chat == s.chat + match capture
      case Recognized(t) => [ChatEntry(User, Lower(t))]
      case ServiceUnavailable => [ChatEntry(Assistant, UnavailableText)]
      case Failure(message, _) => [ChatEntry(Assistant, ErrorPrefix + message)]
      case _ => []
    ensures r.0.spoken == s.spoken + AssistantTexts(r.0.chat[|s.chat|..])
    ensures r.0.listening == (s.listening && !capture.ServiceUnavailable?)
    ensures r.0.button == if capture.ServiceUnavailable? then StartListening else s.button
    ensures r.0.status == match capture
      case Recognized(_) => Processing
      case WaitTimeout => s.status
      case Unintelligible => Listening
      case ServiceUnavailable => Error
      case Failure(_, captured) => if captured then Processing else s.status
    ensures r.0.browsed == s.browsed
  {
    var heard := if capture.WaitTimeout? || (capture.Failure? && !capture.captured) then s
                 else s.(status := Processing);
    match capture
    case Recognized(transcript) =>
      var command := Lower(transcript);
      (DisplayMessage(heard, command, User), Some(command))
    case WaitTimeout => (heard, None)
    case Unintelligible => (heard.(status := Listening), None)
    case ServiceUnavailable =>
      var told := DisplayAndSpeak(heard, UnavailableText, Assistant);
      (told.(listening := false, button := StartListening, status := Error), None)
    case Failure(message, _) =>
      (DisplayAndSpeak(heard, ErrorPrefix + message, Assistant), None)
  }

  /** `process_command`: classify the command, say exactly one reply, open the
      search URL for a search, stop listening on an exit; the status line then
      reads "Listening..." whatever the command was. */
  function ProcessCommand(s: State, command: string, clock: Clock): (r: State)
    ensures r.chat == s.chat + [ChatEntry(Assistant, Reply(Classify(command), clock))]
    ensures r.spoken == s.spoken + [Reply(Classify(command), clock)]
    ensures r.listening == (s.listening && !Classify(command).Exit?)
    ensures r.button == if Classify(command).Exit? then StartListening else s.button
    ensures r.status == Listening
    ensures r.browsed == s.browsed + if Classify(command).Search? then [SearchUrl(Classify(command).query)] else []
  {
    var done :=
      if MentionsAny(command, GreetingWords) then DisplayAndSpeak(s, GreetingReply, Assistant)
      else if MentionsAny(command, ExitWords) then
        var told := DisplayAndSpeak(s, ExitReply, Assistant);
        told.(listening := false, button := StartListening, status := ReadyToAssist)
      else if MentionsAny(command, TimeWords) then DisplayAndSpeak(s, TimeReply(clock), Assistant)
      else if MentionsAny(command, DateWords) then DisplayAndSpeak(s, DateReply(clock), Assistant)
      else if MentionsAny(command, SearchWords) then
        var query := ExtractQuery(command);
        DisplayAndSpeak(s.(browsed := s.browsed + [SearchUrl(query)]), SearchReply(query), Assistant)
      else if MentionsAny(command, NameWords) then DisplayAndSpeak(s, NameReply, Assistant)
      else if MentionsAny(command, HelpWords) then ShowHelp(s)
      else DisplayAndSpeak(s, UnknownReply, Assistant);
    done.(status := Listening)
  }

  /** One pass of the listening loop: hear, and process what was heard unless
      it is empty. A pass adds at most the user's line and one reply, opens at
      most one URL, and never turns listening back on. */
  function Step(s: State, turn: Turn): (r: State)
    ensures s.chat <= r.chat && |r.chat| <= |s.chat| + 2
    ensures s.spoken <= r.spoken && s.browsed <= r.browsed && |r.browsed| <= |s.browsed| + 1
    ensures r.listening ==> s.listening
  {
    var (heard, command) := Listen(s, turn.capture);
    if command.Some? && command.value != [] then ProcessCommand(heard, command.value, turn.clock) else heard
  }

  /** `listen_continuous`: pass after pass while the assistant is listening,
      here for as long as the script of turns lasts. The chat and the URLs
      opened only grow, by at most two messages and one URL a pass. */
  function ListenContinuous(s: State, script: seq<Turn>): (r: State)
    ensures s.chat <= r.chat && s.browsed <= r.browsed && s.spoken <= r.spoken
    ensures |r.chat| <= |s.chat| + 2 * |script|
    ensures |r.browsed| <= |s.browsed| + |script|
    ensures !s.listening ==> r == s
    ensures r.listening ==> s.listening
    decreases |script|
  {
    if !s.listening || script == [] then s
    else ListenContinuous(Step(s, script[0]), script[1..])
  }

  // Invariants every operation keeps.

  lemma DisplayAndSpeakConsistent(s: State, message: string, sender: Sender)
    requires Consistent(s)
    ensures Consistent(DisplayAndSpeak(s, message, sender))
  {
    AssistantTextsAppend(s.chat, [ChatEntry(sender, message)]);
  }

  lemma ToggleListeningConsistent(s: State)
    requires Consistent(s)
    ensures Consistent(ToggleListening(s))
  {
  }

  lemma ShowHelpConsistent(s: State)
    requires Consistent(s)
    ensures Consistent(ShowHelp(s))
  {
    DisplayAndSpeakConsistent(s, HelpText, Assistant);
  }

  /** After clearing, the chat holds one message, the one just spoken. */
  lemma ClearChatConsistent(s: State)
    requires Consistent(s)
    ensures Consistent(ClearChat(s))
  {
    var r := ClearChat(s);
    assert AssistantTexts(r.chat) == [ClearedText];
  }

  lemma ListenConsistent(s: State, capture: Capture)
    requires Consistent(s)
    ensures Consistent(Listen(s, capture).0)
  {
    var r := Listen(s, capture).0;
    AssistantTextsAppend(s.chat, r.chat[|s.chat|..]);
    assert s.chat + r.chat[|s.chat|..] == r.chat;
  }

  lemma ProcessCommandConsistent(s: State, command: string, clock: Clock)
    requires Consistent(s)
    ensures Consistent(ProcessCommand(s, command, clock))
  {
    var reply := Reply(Classify(command), clock);
    AssistantTextsAppend(s.chat, [ChatEntry(Assistant, reply)]);
  }

  lemma StepConsistent(s: State, turn: Turn)
    requires Consistent(s)
    ensures Consistent(Step(s, turn))
  {
    ListenConsistent(s, turn.capture);
    var (heard, command) := Listen(s, turn.capture);
    if command.Some? && command.value != [] {
      ProcessCommandConsistent(heard, command.value, turn.clock);
    }
  }

  /** The listening loop keeps the button in sync and the speech in step with the chat. */
  lemma {:induction false} ListenContinuousConsistent(s: State, script: seq<Turn>)
    requires Consistent(s)
    ensures Consistent(ListenContinuous(s, script))
    decreases |script|
  {
    if s.listening && script != [] {
      StepConsistent(s, script[0]);
      ListenContinuousConsistent(Step(s, script[0]), script[1..]);
    }
  }

  // What the operations promise.

  /** Saying "help" and pressing the Help button say the same thing; the
      command then resets the status line. */
  lemma HelpCommandIsHelpButton(s: State, command: string, clock: Clock)
    requires Classify(command) == Help
    ensures ProcessCommand(s, command, clock) == ShowHelp(s).(status := Listening)
  {
  }

  /** After an exit the assistant has stopped listening and the button offers
      to start again, yet the status line reads "Listening...", because the
      reset at the end of the command overwrites "Ready to Assist". */
  lemma ExitLeavesListeningStatus(s: State, command: string, clock: Clock)
    requires Classify(command) == Exit
    ensures var r := ProcessCommand(s, command, clock);
      !r.listening && r.button == StartListening && r.status == Listening
      && r.chat == s.chat + [ChatEntry(Assistant, ExitReply)]
  {
  }

  /** Toggling twice restores the listening flag and the button. */
  lemma ToggleTwice(s: State)
    requires ButtonInSync(s)
    ensures var r := ToggleListening(ToggleListening(s));
      r.listening == s.listening && r.button == s.button
      && r.status == if s.listening then Listening else ReadyToAssist
  {
  }

  /** Silence (timeouts, unintelligible audio) adds nothing to the chat, says
      nothing and keeps the assistant listening; at most the status line turns
      to "Listening...". */
  lemma {:induction false} SilenceChangesNothing(s: State, script: seq<Turn>)
    requires forall k :: 0 <= k < |script| ==> script[k].capture.WaitTimeout? || script[k].capture.Unintelligible?
    ensures var r := ListenContinuous(s, script);
      r == s.(status := r.status) && (r.status == s.status || r.status == Listening)
    decreases |script|
  {
    if s.listening && script != [] {
      var next := Step(s, script[0]);
      assert next == s.(status := next.status);
      SilenceChangesNothing(next, script[1..]);
    }
  }

  /** An unavailable recognition service ends the loop in that very pass, with
      one error message said, listening off and the status line at "Error". */
  lemma UnavailableEndsLoop(s: State, script: seq<Turn>)
    requires s.listening && script != [] && script[0].capture == ServiceUnavailable
    ensures var r := ListenContinuous(s, script);
      && r.chat == s.chat + [ChatEntry(Assistant, UnavailableText)]
      && r.spoken == s.spoken + [UnavailableText]
      && !r.listening && r.button == StartListening && r.status == Error
  {
    var next := Step(s, script[0]);
    assert !next.listening;
  }

  /** An exit command ends the loop in that very pass: the user's words and the
      farewell are the last messages, and the turns after it are never heard. */
  lemma ExitEndsLoop(s: State, script: seq<Turn>)
    requires s.listening && script != [] && script[0].capture.Recognized?
    requires Lower(script[0].capture.transcript) != []
    requires Classify(Lower(script[0].capture.transcript)) == Exit
    ensures var r := ListenContinuous(s, script);
      && r.chat == s.chat + [ChatEntry(User, Lower(script[0].capture.transcript)), ChatEntry(Assistant, ExitReply)]
      && r.spoken == s.spoken + [ExitReply]
      && !r.listening && r.button == StartListening
  {
    var next := Step(s, script[0]);
    assert !next.listening;
  }
}
