/// The assistant window as an object: the fields its methods update in place,
/// and one method per Python method, each written as the Python body is and
/// proved to leave the object in the state the matching `Sessions` function
/// describes.
module VoiceAssistant {
  import opened Text
  import opened Commands
  import opened Sessions

  class Assistant {
    var listening: bool
    var status: Status
    var button: ButtonLabel
    var chat: seq<ChatEntry>
    /** Every text handed to the speech engine, in order. */
    var spoken: seq<string>
    /** Every URL handed to the browser, in order. */
    var browsed: seq<string>

    function State(): Sessions.State
      reads this
    {
      Sessions.State(listening, status, button, chat, spoken, browsed)
    }

    ghost predicate Valid()
      reads this
    {
      Consistent(State())
    }

    /** The window as `__init__` leaves it; the welcome it schedules for half a
        second later is `DisplayAndSpeak(WelcomeText)`. */
    constructor ()
      ensures Valid() && State() == Initial
    {
      listening := false;
      status := ReadyToAssist;
      button := StartListening;
      chat := [];
      spoken := [];
      browsed := [];
    }

    method DisplayMessage(message: string, sender: Sender := Assistant)
      requires Valid()
      modifies this
      ensures State() == Sessions.DisplayMessage(old(State()), message, sender)
      ensures sender == User ==> Valid()
    {
      chat := chat + [ChatEntry(sender, message)];
      AssistantTextsAppend(old(chat), [ChatEntry(sender, message)]);
    }

    method DisplayAndSpeak(message: string, sender: Sender := Assistant)
      requires Valid()
      modifies this
      ensures Valid()
      ensures State() == Sessions.DisplayAndSpeak(old(State()), message, sender)
    {
      chat := chat + [ChatEntry(sender, message)];
      if sender == Assistant {
        spoken := spoken + [message];
      }
      DisplayAndSpeakConsistent(old(State()), message, sender);
    }

    method ToggleListening()
      requires Valid()
      modifies this
      ensures Valid()
      ensures State() == Sessions.ToggleListening(old(State()))
    {
      if !listening {
        listening := true;
        button := StopListening;
        status := Listening;
      } else {
        listening := false;
        button := StartListening;
        status := ReadyToAssist;
      }
    }

    method Listen(capture: Capture) returns (command: Option<string>)
      requires Valid()
      modifies this
      ensures Valid()
      ensures (State(), command) == Sessions.Listen(old(State()), capture)
    {
      if !(capture.WaitTimeout? || (capture.Failure? && !capture.captured)) {
        status := Processing;
      }
      match capture {
        case Recognized(transcript) =>
          var heard := Lower(transcript);
          chat := chat + [ChatEntry(User, heard)];
          command := Some(heard);
        case WaitTimeout =>
          command := None;
        case Unintelligible =>
          status := Listening;
          command := None;
        case ServiceUnavailable =>
          DisplayAndSpeak(UnavailableText);
          listening := false;
          button := StartListening;
          status := Error;
          command := None;
        case Failure(message, _) =>
          DisplayAndSpeak(ErrorPrefix + message);
          command := None;
      }
      ListenConsistent(old(State()), capture);
    }

    method ProcessCommand(command: string, clock: Clock)
      requires Valid()
      modifies this
      ensures Valid()
      ensures State() == Sessions.ProcessCommand(old(State()), command, clock)
    {
      if MentionsAny(command, GreetingWords) {
        DisplayAndSpeak(GreetingReply);
      } else if MentionsAny(command, ExitWords) {
        DisplayAndSpeak(ExitReply);
        listening := false;
        button := StartListening;
        status := ReadyToAssist;
      } else if MentionsAny(command, TimeWords) {
        DisplayAndSpeak(TimeReply(clock));
      } else if MentionsAny(command, DateWords) {
        DisplayAndSpeak(DateReply(clock));
      } else if MentionsAny(command, SearchWords) {
        var query := ExtractQuery(command);
        browsed := browsed + [SearchUrl(query)];
        DisplayAndSpeak(SearchReply(query));
      } else if MentionsAny(command, NameWords) {
        DisplayAndSpeak(NameReply);
      } else if MentionsAny(command, HelpWords) {
        ShowHelp();
      } else {
        DisplayAndSpeak(UnknownReply);
      }
      status := Listening;
      ProcessCommandConsistent(old(State()), command, clock);
    }

    method ShowHelp()
      requires Valid()
      modifies this
      ensures Valid()
      ensures State() == Sessions.ShowHelp(old(State()))
    {
      DisplayAndSpeak(HelpText);
    }

    method ClearChat()
      requires Valid()
      modifies this
      ensures Valid()
      ensures State() == Sessions.ClearChat(old(State()))
    {
      chat := [];
      DisplayAndSpeak(ClearedText);
      ClearChatConsistent(old(State()));
    }

    /** The listening loop, fed one scripted turn a pass; it returns how many
        turns it heard, which is all of them unless listening stopped first. */
    method ListenContinuous(script: seq<Turn>) returns (heard: nat)
      requires Valid()
      modifies this
      ensures Valid()
      ensures State() == Sessions.ListenContinuous(old(State()), script)
      ensures heard <= |script| && (listening ==> heard == |script|)
    {
      heard := 0;
      while listening && heard < |script|
        invariant heard <= |script|
        invariant Valid()
        invariant Sessions.ListenContinuous(old(State()), script) == Sessions.ListenContinuous(State(), script[heard..])
        decreases |script| - heard
      {
        ghost var before := State();
        var command := Listen(script[heard].capture);
        if command.Some? && command.value != [] {
          ProcessCommand(command.value, script[heard].clock);
        }
        assert State() == Step(before, script[heard]);
        assert script[heard..][1..] == script[heard + 1..];
        heard := heard + 1;
      }
    }
  }
}
