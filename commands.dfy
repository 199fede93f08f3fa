/// Intent classification and the dispatcher's replies: the if/elif chain of
/// `process_command`, where a transcript is matched against keyword groups by
/// substring containment and the first group that matches wins.
module Commands {
  import opened Text

  datatype Intent = Greeting | Exit | TellTime | TellDate | Search(query: string) | AskName | Help | Unknown

  /** The time and date strings the clock supplies when a command is processed. */
  datatype Clock = Clock(time: string, weekday: string, date: string)

  const GreetingWords: seq<string> := ["hello", "hi", "hey"]
  const ExitWords: seq<string> := ["exit", "quit", "bye", "goodbye", "stop"]
  const TimeWords: seq<string> := ["time"]
  const DateWords: seq<string> := ["date", "today"]
  const SearchWords: seq<string> := ["search"]
  const NameWords: seq<string> := ["your name", "who are you"]
  const HelpWords: seq<string> := ["help", "what can you do"]

  /** The keyword groups in the order the chain tests them. */
  const Priority: seq<seq<string>> :=
    [GreetingWords, ExitWords, TimeWords, DateWords, SearchWords, NameWords, HelpWords]

  const GreetingReply := "Hello! How can I help you today?"
  const ExitReply := "Goodbye! Have a great day!"
  const NameReply := "I am your AI voice assistant, here to help you!"
  const HelpText := "I can help you with: Tell the time, Tell the date, Search the web, Greet you, and Exit. Just say what you need!"
  const UnknownReply := "I'm not sure how to help with that. Say 'help' to see what I can do."
  const SearchUrlPrefix := "https://www.google.com/search?q="

  /** `any(word in command for word in words)`. */
  predicate MentionsAny(command: string, words: seq<string>)
    ensures MentionsAny(command, words) <==> exists k, i :: 0 <= k < |words| && OccursAt(command, words[k], i)
  {
    assert forall k :: 0 <= k < |words| ==> (Contains(command, words[k]) <==> exists i :: OccursAt(command, words[k], i)) by {
      forall k | 0 <= k < |words| {
        ContainsIff(command, words[k]);
      }
    }
    exists k :: 0 <= k < |words| && Contains(command, words[k])
  }

  /** The search query: "search for", then "search", deleted everywhere, then stripped. */
  function ExtractQuery(command: string): (query: string)
    ensures query == [] || (!IsSpace(query[0]) && !IsSpace(query[|query| - 1]))
  {
    Strip(RemoveAll(RemoveAll(command, "search for"), "search"))
  }

  /** The query goes into the URL as it is, without any encoding. */
  function SearchUrl(query: string): (url: string)
    ensures |url| == |SearchUrlPrefix| + |query|
    ensures url[..|SearchUrlPrefix|] == SearchUrlPrefix && url[|SearchUrlPrefix|..] == query
  {
    SearchUrlPrefix + query
  }

  /** The if/elif chain of `process_command`; `ClassifyFollowsPriority` states
      its order. */
  function Classify(command: string): (intent: Intent)
    ensures intent == Greeting <==> MentionsAny(command, GreetingWords)
    ensures intent.Search? ==> MentionsAny(command, SearchWords) && intent.query == ExtractQuery(command)
    ensures intent == Unknown ==> forall k :: 0 <= k < |Priority| ==> !MentionsAny(command, Priority[k])
  {
    if MentionsAny(command, GreetingWords) then Greeting
    else if MentionsAny(command, ExitWords) then Exit
    else if MentionsAny(command, TimeWords) then TellTime
    else if MentionsAny(command, DateWords) then TellDate
    else if MentionsAny(command, SearchWords) then Search(ExtractQuery(command))
    else if MentionsAny(command, NameWords) then AskName
    else if MentionsAny(command, HelpWords) then Help
    else Unknown
  }

  function TimeReply(clock: Clock): string {
    "The current time is " + clock.time
  }

  function DateReply(clock: Clock): string {
    "Today is " + clock.weekday + ", " + clock.date
  }

  function SearchReply(query: string): string {
    "Searching for " + query + " on Google"
  }

  /** What the assistant says for each intent. A search reply quotes the query,
      and the time and date replies end with the clock's strings, verbatim. */
  function Reply(intent: Intent, clock: Clock): (r: string)
    ensures intent.Search? ==> OccursAt(r, intent.query, |"Searching for "|)
    ensures intent.TellTime? ==> |clock.time| <= |r| && r[|r| - |clock.time|..] == clock.time
    ensures intent.TellDate? ==> |clock.date| <= |r| && r[|r| - |clock.date|..] == clock.date
  {
    match intent
    case Greeting => GreetingReply
    case Exit => ExitReply
    case TellTime => TimeReply(clock)
    case TellDate => DateReply(clock)
    case Search(query) => SearchReply(query)
    case AskName => NameReply
    case Help => HelpText
    case Unknown => UnknownReply
  }

  /** The clock is read for the time and the date only: every other reply is
      the same whatever the clock shows. */
  lemma ReplyIgnoresClock(intent: Intent, clock: Clock, other: Clock)
    requires !intent.TellTime? && !intent.TellDate?
    ensures Reply(intent, clock) == Reply(intent, other)
  {
  }

  /** The position of an intent's keyword group in `Priority`; `Unknown` comes after them all. */
  function Rank(intent: Intent): nat {
    match intent
    case Greeting => 0
    case Exit => 1
    case TellTime => 2
    case TellDate => 3
    case Search(_) => 4
    case AskName => 5
    case Help => 6
    case Unknown => 7
  }

  /** The first keyword group, from `from` on, that the command mentions (`|Priority|` if none). */
  function FirstMatch(command: string, from: nat): (j: nat)
    requires from <= |Priority|
    ensures from <= j <= |Priority|
    ensures j < |Priority| ==> MentionsAny(command, Priority[j])
    ensures forall k :: from <= k < j ==> !MentionsAny(command, Priority[k])
    decreases |Priority| - from
  {
    if from == |Priority| then from
    else if MentionsAny(command, Priority[from]) then from
    else FirstMatch(command, from + 1)
  }

  /** First match wins: the intent is that of the first group in priority order
      that the command mentions, Unknown when it mentions none, and a search
      carries the extracted query. */
  lemma ClassifyFollowsPriority(command: string)
    ensures Rank(Classify(command)) == FirstMatch(command, 0)
    ensures Classify(command).Search? ==> Classify(command).query == ExtractQuery(command)
  {
    var j := FirstMatch(command, 0);
    if j > 0 { assert !MentionsAny(command, Priority[0]); }
    if j > 1 { assert !MentionsAny(command, Priority[1]); }
    if j > 2 { assert !MentionsAny(command, Priority[2]); }
    if j > 3 { assert !MentionsAny(command, Priority[3]); }
    if j > 4 { assert !MentionsAny(command, Priority[4]); }
    if j > 5 { assert !MentionsAny(command, Priority[5]); }
    if j > 6 { assert !MentionsAny(command, Priority[6]); }
  }

  /** A command that mentions a group's keyword is never classified below that group. */
  lemma MentionedGroupBoundsRank(command: string, k: nat)
    requires k < |Priority| && MentionsAny(command, Priority[k])
    ensures Rank(Classify(command)) <= k
  {
    ClassifyFollowsPriority(command);
  }

  /** Any command containing "hello", "hi" or "hey" is a greeting, whatever else it contains. */
  lemma GreetingWins(command: string)
    requires Contains(command, "hello") || Contains(command, "hi") || Contains(command, "hey")
    ensures Classify(command) == Greeting
  {
    assert GreetingWords[0] == "hello" && GreetingWords[1] == "hi" && GreetingWords[2] == "hey";
  }

  /** The keyword path to Help says the same text as the help button. */
  lemma HelpKeywordSaysHelpText(command: string, clock: Clock)
    requires Contains(command, "help") || Contains(command, "what can you do")
    requires Rank(Classify(command)) >= 6
    ensures Classify(command) == Help && Reply(Classify(command), clock) == HelpText
  {
    assert HelpWords[0] == "help" && HelpWords[1] == "what can you do";
  }

  /** The empty transcript mentions no keyword, so it is Unknown. */
  lemma EmptyIsUnknown()
    ensures Classify("") == Unknown
  {
    MissingCharsRuleOut("", GreetingWords, "hhh");
    MissingCharsRuleOut("", ExitWords, "eqbgs");
    MissingCharsRuleOut("", TimeWords, "t");
    MissingCharsRuleOut("", DateWords, "dt");
    MissingCharsRuleOut("", SearchWords, "s");
    MissingCharsRuleOut("", NameWords, "yw");
    MissingCharsRuleOut("", HelpWords, "hw");
  }

  /** Every keyword of `words` has a character, given at the same index in
      `marks`, that the command lacks; so the command mentions none of them. */
  lemma MissingCharsRuleOut(command: string, words: seq<string>, marks: string)
    requires |marks| == |words|
    requires forall k :: 0 <= k < |words| ==> marks[k] in words[k] && marks[k] !in command
    ensures !MentionsAny(command, words)
  {
    forall k | 0 <= k < |words|
      ensures !Contains(command, words[k])
    {
      MissingCharNotContained(command, words[k], marks[k]);
    }
  }

  lemma MentionsAt(command: string, words: seq<string>, k: nat, i: nat)
    requires k < |words| && OccursAt(command, words[k], i)
    ensures MentionsAny(command, words)
  {
    ContainsAt(command, words[k], i);
  }

  /** Containment is by substring: the "hi" inside "this" makes a time question a greeting. */
  lemma SubstringGreets()
    ensures Classify("what time is this") == Greeting
  {
    MentionsAt("what time is this", GreetingWords, 1, 14);
  }

  /** A search command whose query holds no "search" and no outer whitespace gives back that query. */
  lemma {:induction false} SearchForQuery(x: string)
    requires !Contains(x, "search")
    requires x == [] || (!IsSpace(x[0]) && !IsSpace(x[|x| - 1]))
    ensures ExtractQuery("search for " + x) == x
  {
    var command := "search for " + x;
    var rest := " " + x;
    assert command[..10] == "search for" && command[10..] == rest;
    assert RemoveAll(command, "search for") == RemoveAll(rest, "search for");
    ContainsAt("search for", "search", 0);
    if Contains(x, "search for") {
      ContainsTransitive(x, "search for", "search");
    }
    ContainsPastLead(' ', x, "search for");
    ContainsPastLead(' ', x, "search");
    assert RemoveAll(RemoveAll(command, "search for"), "search") == rest;
    StripLeadingSpace(x);
  }

  /** A command with "search" at its start that lacks an l, i, y, x, q, b, g, p
      and d mentions none of the four groups before Search. */
  lemma SearchCommand(command: string)
    requires OccursAt(command, "search", 0)
    requires 'l' !in command && 'i' !in command && 'y' !in command && 'x' !in command
    requires 'q' !in command && 'b' !in command && 'g' !in command && 'p' !in command && 'd' !in command
    ensures Classify(command) == Search(ExtractQuery(command))
  {
    assert !MentionsAny(command, GreetingWords) by {
      MissingCharsRuleOut(command, GreetingWords, "liy");
    }
    assert !MentionsAny(command, ExitWords) by {
      MissingCharsRuleOut(command, ExitWords, "xqbgp");
    }
    assert !MentionsAny(command, TimeWords) by {
      MissingCharsRuleOut(command, TimeWords, "i");
    }
    assert !MentionsAny(command, DateWords) by {
      MissingCharsRuleOut(command, DateWords, "dd");
    }
    MentionsAt(command, SearchWords, 0, 0);
  }

  lemma SearchForShape(x: string, command: string)
    requires command == "search for " + x
    requires 'l' !in x && 'i' !in x && 'y' !in x && 'x' !in x
    requires 'q' !in x && 'b' !in x && 'g' !in x && 'p' !in x && 'd' !in x
    ensures OccursAt(command, "search", 0)
    ensures 'l' !in command && 'i' !in command && 'y' !in command && 'x' !in command
    ensures 'q' !in command && 'b' !in command && 'g' !in command && 'p' !in command && 'd' !in command
  {
    assert command[..6] == "search";
  }

  /** "search for " followed by a query free of "search", of outer whitespace
      and of the letters every earlier keyword needs is a search for exactly that query. */
  lemma SearchForClassified(x: string)
    requires 'l' !in x && 'i' !in x && 'y' !in x && 'x' !in x
    requires 'q' !in x && 'b' !in x && 'g' !in x && 'p' !in x && 'd' !in x
    requires !Contains(x, "search")
    requires x == [] || (!IsSpace(x[0]) && !IsSpace(x[|x| - 1]))
    ensures Classify("search for " + x) == Search(x)
  {
    SearchForShape(x, "search for " + x);
    SearchCommand("search for " + x);
    SearchForQuery(x);
  }

  /** "search for cats" searches for "cats". */
  lemma SearchForCats()
    ensures Classify("search for " + "cats") == Search("cats")
  {
    MissingCharNotContained("cats", "search", 'h');
    SearchForClassified("cats");
  }

  /** Deletion is by substring too: in "search for" + x the "search for" goes
      even when no space follows it, so "search format" asks for "mat". */
  lemma {:induction false} SearchForGlued(x: string)
    requires !Contains(x, "search")
    requires x == [] || (!IsSpace(x[0]) && !IsSpace(x[|x| - 1]))
    ensures ExtractQuery("search for" + x) == x
  {
    var command := "search for" + x;
    assert command[..10] == "search for" && command[10..] == x;
    assert RemoveAll(command, "search for") == RemoveAll(x, "search for");
    ContainsAt("search for", "search", 0);
    if Contains(x, "search for") {
      ContainsTransitive(x, "search for", "search");
    }
    StripTrimmed(x);
  }

  /** The URL carries the query verbatim: nothing in it is encoded, so a space
      in the query stays a space. */
  lemma SearchUrlUnencoded(x: string)
    requires !Contains(x, "search")
    requires x == [] || (!IsSpace(x[0]) && !IsSpace(x[|x| - 1]))
    ensures SearchUrl(ExtractQuery("search for " + x)) == SearchUrlPrefix + x
  {
    SearchForQuery(x);
  }

  /** "today's date" asks for the date. */
  lemma TodaysDate()
    ensures Classify("today's date") == TellDate
  {
    var command := "today's date";
    MissingCharsRuleOut(command, GreetingWords, "hhh");
    MissingCharsRuleOut(command, ExitWords, "xqbgp");
    MissingCharsRuleOut(command, TimeWords, "i");
    MentionsAt(command, DateWords, 0, 8);
  }
}
