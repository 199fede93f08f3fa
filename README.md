# Voice assistant: the command loop as a Dafny model

The voice assistant is a Tkinter window. Its user presses **Start Listening**, and a background loop then alternates two steps. It listens to the microphone, transcribes what was said and lowercases it. It then dispatches the transcript through an if/elif chain of keyword tests. Each test asks whether a keyword is a substring of the command, and the first group that matches decides the reply:

- a greeting;
- an exit, which also stops listening;
- the time;
- the date;
- a web search, which also opens a browser URL;
- the assistant's name;
- the help text;
- a fallback.

Every reply the assistant displays is also spoken. The status line and the Start/Stop button follow the listening flag.

The model has four modules:

- `Text` (`text.dfy`): the Python string operations the dispatcher uses.
  - `w in s`: `Contains`, proved equivalent to "occurs at some index".
  - `s.replace(p, "")`: `RemoveAll`, proved to be the concatenation of the pieces of a split at the leftmost non-overlapping occurrences.
  - `s.strip()`: `Strip`, an index scan over Python's whitespace set.
  - `s.lower()`: `Lower`.
- `Commands` (`commands.dfy`): the keyword groups and replies, word for word from the source, plus:
  - `Classify`, the dispatcher's chain;
  - `ExtractQuery`, the search query;
  - `Reply`;
  - a priority ranking (`Rank`, `FirstMatch`) that states "first matching group wins" independently of the chain.
- `Sessions` (`sessions.dfy`): the window's observable state as a value. The state holds the listening flag, the status line, the button label, the chat log, the log of spoken texts and the log of opened URLs. There is one function per GUI method. `ListenContinuous` runs the loop over a script of recogniser outcomes. `Consistent` is the invariant every operation keeps: the button matches the flag, and the assistant's chat messages are the latest things spoken, in order.
- `VoiceAssistant` (`voice_assistant.dfy`): the window as a `class`. Its fields are updated in place, and there is one method per Python method, written as the Python body is written. `ListenContinuous` is a `while` loop. Each method is proved to leave the object in exactly the state the matching `Sessions` function gives. Every method except `DisplayMessage` is also proved to keep `Valid()`. `DisplayMessage` keeps it only for the user's messages, because an assistant message that is displayed but not spoken breaks "speech follows chat".

The model follows the code where it differs from what a reader might expect:

- The search query is put into the URL without any encoding.
- After an exit command the status line reads "Listening...". The reset at `voice_assistant.py:359` overwrites the "Ready to Assist" set at line 324, even though listening has stopped and the button offers to start again (`ExitLeavesListeningStatus`).
- Keyword matching is by substring, so "this" contains "hi" and greets (`SubstringGreets`).
- "search format" searches for "mat" (`SearchForGlued`).
- An empty transcript is not processed (`if command:`).
- The status line after an unintelligible capture is "Listening...". After a timeout it is unchanged. After any other exception it is "Processing..." only if the audio had already been captured (line 291).

## Model

| member | source | states |
|---|---|---|
| Text.Contains | voice_assistant.py:316 | Python's `word in command`, as a left-to-right scan; it carries no contract of its own and is characterised by `ContainsIff` |
| Text.ContainsIff | voice_assistant.py:316 | the left-to-right scan behind `word in command` finds the word exactly when it occurs at some index (both directions) |
| Text.MissingCharNotContained | voice_assistant.py:316 | a keyword containing a character the command lacks is not in the command |
| Text.ContainsTransitive | voice_assistant.py:341-342 | containment is transitive: a text containing "search for" contains "search" |
| Text.RemoveAll | voice_assistant.py:342 | `replace(p, "")` never lengthens the text and leaves it unchanged when `p` does not occur |
| Text.RemoveAllIsConcatOfSplit | voice_assistant.py:342 | deleting every occurrence of `p` leaves exactly the pieces between the occurrences that the split finds, concatenated |
| Text.JoinSplit | voice_assistant.py:342 | putting `p` back between those pieces restores the original text, so only the occurrences of `p` are removed |
| Text.SplitLeftmost | voice_assistant.py:342 | the occurrences removed are the leftmost non-overlapping ones: no occurrence of `p` starts inside a piece, and none remains after the last |
| Text.SkipSpaces | voice_assistant.py:342 | the leading scan of `strip()` stops at the first non-whitespace character, having passed only whitespace |
| Text.SkipSpacesBack | voice_assistant.py:342 | the trailing scan of `strip()` stops just past the last non-whitespace character, having passed only whitespace |
| Text.Strip | voice_assistant.py:342 | `strip()` returns a slice of its input with only whitespace on either side of it, and the slice neither starts nor ends with whitespace |
| Text.StripTrimmed | voice_assistant.py:342 | text without outer whitespace is returned unchanged by `strip()` |
| Text.StripLeadingSpace | voice_assistant.py:342 | `strip()` removes the space left after "search for " is deleted |
| Text.Lower | voice_assistant.py:292 | `lower()` keeps the length, leaves no ASCII capital in the transcript, maps each capital to its small letter and keeps every other character |
| Commands.MentionsAny | voice_assistant.py:316 | `any(word in command for word in words)` holds exactly when one of the words occurs in the command at some index |
| Commands.Classify | voice_assistant.py:316-357 | the if/elif chain: greeting exactly when a greeting word is mentioned; a search only when "search" is mentioned, carrying the extracted query; the fallback only when no group is mentioned; its order is stated by `ClassifyFollowsPriority` |
| Commands.Reply | voice_assistant.py:317-357 | the reply for each intent, with the time, date and search texts of lines 329, 337 and 345 (`TimeReply`, `DateReply`, `SearchReply`): a search reply quotes the query after "Searching for ", and the time and date replies end with the clock's strings |
| Commands.ReplyIgnoresClock | voice_assistant.py:327-338 | the clock is read for the time and the date only: every other reply is the same whatever the clock shows |
| Commands.SearchUrl | voice_assistant.py:343 | the URL is the fixed prefix followed by the query, which can be read back from it unchanged |
| Commands.ExtractQuery | voice_assistant.py:342 | the search query never starts or ends with whitespace |
| Commands.FirstMatch | voice_assistant.py:316-352 | the first keyword group, in the chain's order, that the command mentions; no earlier group is mentioned |
| Commands.ClassifyFollowsPriority | voice_assistant.py:313-357 | the intent chosen is that of the first group in priority order the command mentions, Unknown when none, and a search carries the extracted query |
| Commands.MentionedGroupBoundsRank | voice_assistant.py:313-357 | a command mentioning a group's keyword is never dispatched to a later branch than that group's |
| Commands.GreetingWins | voice_assistant.py:316-317 | any command containing "hello", "hi" or "hey" is a greeting, whatever else it says |
| Commands.HelpKeywordSaysHelpText | voice_assistant.py:352-364 | a command reaching the help test and containing "help" or "what can you do" gets the help text |
| Commands.EmptyIsUnknown | voice_assistant.py:355-357 | the empty transcript matches no keyword and falls through to the fallback |
| Commands.MissingCharsRuleOut | voice_assistant.py:316 | a command lacking one character of each keyword of a group mentions none of them |
| Commands.MentionsAt | voice_assistant.py:316 | a keyword occurring at an index makes the group match |
| Commands.SubstringGreets | voice_assistant.py:316 | "what time is this" is answered as a greeting, because "this" contains "hi" |
| Commands.SearchForQuery | voice_assistant.py:341-342 | "search for " followed by a query without "search" and without outer whitespace yields that query exactly |
| Commands.SearchCommand | voice_assistant.py:316-345 | a command starting with "search" that lacks the letters the earlier groups need is a search for its extracted query |
| Commands.SearchForShape | voice_assistant.py:341 | "search for " + x starts with "search" and lacks the letters x lacks |
| Commands.SearchForClassified | voice_assistant.py:341-345 | "search for " + x, for such a query x, is dispatched as a search for exactly x |
| Commands.SearchForCats | voice_assistant.py:341-345 | "search for cats" searches for "cats" |
| Commands.SearchForGlued | voice_assistant.py:342 | "search for" is deleted even with no space after it, so "search for" + x asks for x |
| Commands.SearchUrlUnencoded | voice_assistant.py:341-343 | for "search for " + x, with x free of "search" and of outer whitespace, the URL is the prefix followed by x verbatim, spaces and all |
| Commands.TodaysDate | voice_assistant.py:333 | "today's date" asks for the date |
| Sessions.AssistantTextsAppend | voice_assistant.py:253-257 | the assistant's messages in a concatenated chat are those of each part, in order |
| Sessions.DisplayMessage | voice_assistant.py:235-251 | the message is appended to the chat under its sender; nothing is spoken and nothing else changes |
| Sessions.DisplayAndSpeak | voice_assistant.py:253-257 | the message is appended to the chat, spoken exactly when the assistant sends it, and nothing else changes |
| Sessions.ToggleListening | voice_assistant.py:263-273 | the flag flips, the status becomes "Listening..." or "Ready to Assist" accordingly, the button matches the new flag, and the logs are unchanged |
| Sessions.ShowHelp | voice_assistant.py:361-364 | the help text is appended to the chat and spoken; nothing else changes |
| Sessions.ClearChat | voice_assistant.py:366-371 | the chat then holds only "Chat cleared!", which is also spoken; the flag, status, button and URLs are unchanged |
| Sessions.Listen | voice_assistant.py:284-311 | a command comes back exactly for a recognised transcript, lowercased; the chat, speech, flag, button and status follow the outcome (user line; nothing; "Listening..."; service error that stops listening; generic error message) |
| Sessions.ProcessCommand | voice_assistant.py:313-359 | exactly one reply, that of the classified intent, is displayed and spoken; listening stops exactly on Exit; one URL is opened exactly on Search; the status ends at "Listening..." |
| Sessions.Step | voice_assistant.py:276-281 | one pass of the loop: the chat grows by at most the user's line and one reply, at most one URL is opened, the logs only grow, and listening is never turned back on |
| Sessions.ListenContinuous | voice_assistant.py:275-281 | the loop only appends to the chat, the speech and the URLs, at most two messages and one URL per pass, never turns listening on, and does nothing when not listening |
| Sessions.DisplayAndSpeakConsistent | voice_assistant.py:253-257 | displaying and speaking keeps the button in sync and the speech in step with the chat |
| Sessions.ToggleListeningConsistent | voice_assistant.py:263-273 | toggling keeps the invariant |
| Sessions.ShowHelpConsistent | voice_assistant.py:361-364 | showing help keeps the invariant |
| Sessions.ClearChatConsistent | voice_assistant.py:366-371 | clearing keeps the invariant |
| Sessions.ListenConsistent | voice_assistant.py:284-311 | every listening outcome keeps the invariant |
| Sessions.ProcessCommandConsistent | voice_assistant.py:313-359 | every command keeps the invariant |
| Sessions.StepConsistent | voice_assistant.py:276-279 | one pass of the loop keeps the invariant |
| Sessions.ListenContinuousConsistent | voice_assistant.py:275-281 | the whole loop keeps the invariant |
| Sessions.HelpCommandIsHelpButton | voice_assistant.py:352-364 | a help command does what the help button does, then resets the status |
| Sessions.ExitLeavesListeningStatus | voice_assistant.py:320-359 | after an exit, listening is off and the button offers to start, yet the status line reads "Listening..." |
| Sessions.ToggleTwice | voice_assistant.py:263-273 | toggling twice restores the flag and the button |
| Sessions.SilenceChangesNothing | voice_assistant.py:275-301 | passes of timeouts and unintelligible audio add nothing to the chat, speech or URLs and keep listening on |
| Sessions.UnavailableEndsLoop | voice_assistant.py:275-308 | an unavailable service ends the loop in that pass, with one error message said and the status at "Error" |
| Sessions.ExitEndsLoop | voice_assistant.py:275-324 | an exit command ends the loop in that pass; the user's words and the farewell are the last messages |
| VoiceAssistant.Assistant.constructor | voice_assistant.py:40-48 | the window starts not listening, "Ready to Assist", button offering to start, empty logs |
| VoiceAssistant.Assistant.DisplayMessage | voice_assistant.py:235-251 | appends the message to the chat; with the user as sender the invariant is kept |
| VoiceAssistant.Assistant.DisplayAndSpeak | voice_assistant.py:253-257 | in-place update equal to `Sessions.DisplayAndSpeak`, keeping the invariant |
| VoiceAssistant.Assistant.ToggleListening | voice_assistant.py:263-273 | in-place update equal to `Sessions.ToggleListening`, keeping the invariant |
| VoiceAssistant.Assistant.Listen | voice_assistant.py:284-311 | in-place update and returned command equal to `Sessions.Listen`, keeping the invariant |
| VoiceAssistant.Assistant.ProcessCommand | voice_assistant.py:313-359 | the if/elif chain updates the fields exactly as `Sessions.ProcessCommand`, keeping the invariant |
| VoiceAssistant.Assistant.ShowHelp | voice_assistant.py:361-364 | in-place update equal to `Sessions.ShowHelp`, keeping the invariant |
| VoiceAssistant.Assistant.ClearChat | voice_assistant.py:366-371 | in-place update equal to `Sessions.ClearChat`, keeping the invariant |
| VoiceAssistant.Assistant.ListenContinuous | voice_assistant.py:275-281 | the while loop ends in the state `Sessions.ListenContinuous` gives, keeping the invariant, and hears every turn unless listening stopped |

## Left out

- The Tkinter window itself is not modelled: layout, colours, fonts, emoji prefixes, the text widget's enabled/disabled toggling and scrolling. The chat is a log of (sender, text) entries, and the status line is its text without the colour.
- Timestamps are not kept in chat entries. The clock is an input (`Clock`: the formatted time, weekday and date strings). `strftime` formatting is not modelled.
- The microphone and the recogniser (ambient-noise calibration, the 5 s timeout, the 10 s phrase limit, Google's service) are not modelled. They are reduced to the outcome of each attempt (`Capture`). `ListenContinuous` consumes a finite script of such outcomes, where the source loops until stopped.
- Text-to-speech (Windows SAPI or pyttsx3, its thread, COM initialisation, its own error handling) is not modelled. It is reduced to the log of spoken texts.
- `webbrowser.open` is not modelled. It is reduced to the log of opened URLs.
- Threads and `time.sleep` are left out. The listening loop runs on its own thread in the source, so a Stop press can come at any moment. Here no toggle happens inside a `ListenContinuous` call: a `Turn` holds only a capture and a clock. A toggle between passes is modelled by splitting the script across two `ListenContinuous` calls with `ToggleListening` between them. A toggle in the middle of a pass is not modelled.
- The welcome message, scheduled with `root.after(500, …)`, is not modelled as part of the constructor. Its text is `Sessions.WelcomeText`, and it is a later `DisplayAndSpeak` call.
- Sender strings other than "user" and "assistant" cannot be expressed: `Sender` has two values. Such strings are displayed like the assistant's in the source.
- `main`, window geometry and the module's imports are not modelled.
- Text.Lower: only the ASCII letters of Python's Unicode `str.lower()` are mapped; other cased characters are left as they are.
- VoiceAssistant.Assistant.DisplayMessage: keeps the invariant only for user messages, because an assistant message shown without being spoken breaks "speech follows chat"; the source only ever calls it unspoken for the user's transcript (line 293).
