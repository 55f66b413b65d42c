/** How the chat page of the simulated assistant chooses what to say: the greeting for the
    hour of day, the scripted replies for the four suggested prompts, and the keyword
    fallback for everything else. */
module ChatReplies {
  import opened Text

  /** The word the welcome screen puts after "Good": chosen from the hour of the day. */
  function Greeting(hour: int): (g: string)
    ensures g == "morning" <==> hour < 12
    ensures g == "afternoon" <==> 12 <= hour < 17
    ensures g == "evening" <==> 17 <= hour
  {
    if hour < 12 then "morning" else if hour < 17 then "afternoon" else "evening"
  }

  /** The place of a greeting in the course of a day. */
  function DayPart(g: string): nat
  {
    if g == "morning" then 0 else if g == "afternoon" then 1 else 2
  }

  /** As the hour grows, the greeting never goes back to an earlier part of the day. */
  lemma GreetingFollowsTheDay(h1: int, h2: int)
    requires h1 <= h2
    ensures DayPart(Greeting(h1)) <= DayPart(Greeting(h2))
  {
  }

  /** The four subjects of the suggested prompts. */
  datatype Topic = Quantum | Sorting | Email | RemoteWork

  /** The table of scripted replies, keyed by the exact text of each suggested prompt. */
  const Scripted: map<string, Topic> := map[
    QuantumPrompt := Quantum,
    SortPrompt := Sorting,
    EmailPrompt := Email,
    RemoteWorkPrompt := RemoteWork]

  /** The scripted reply on a subject. */
  function TopicText(t: Topic): string
  {
    match t
    case Quantum => QuantumReply
    case Sorting => SortReply
    case Email => EmailReply
    case RemoteWork => RemoteWorkReply
  }

  /** The fallback's first keyword group: a greeting. */
  predicate IsGreeting(msg: string)
  {
    Contains(msg, "hello") || Contains(msg, "hi ") || Contains(msg, "hey")
  }

  /** The second keyword group: a question about code. */
  predicate AsksForCode(msg: string)
  {
    Contains(msg, "code") || Contains(msg, "function") || Contains(msg, "program")
  }

  /** The third keyword group: a question about the assistant itself. */
  predicate AsksWhoItIs(msg: string)
  {
    Contains(msg, "who") || Contains(msg, "what are you")
  }

  /** The replies the page can give: a scripted one, or one of the four fallbacks. */
  datatype Reply = ScriptedReply(prompt: string) | GreetingFallback | CodeFallback
                 | IdentityFallback | GenericFallback

  /** The reply chosen for a message that is not a scripted prompt: the keyword groups are
      tried in order on the lower-cased message, and the generic reply closes the list. */
  function Fallback(userMessage: string): (r: Reply)
    ensures !r.ScriptedReply?
  {
    var msg := ToLower(userMessage);
    if IsGreeting(msg) then GreetingFallback
    else if AsksForCode(msg) then CodeFallback
    else if AsksWhoItIs(msg) then IdentityFallback
    else GenericFallback
  }

  /** Each fallback is given exactly when its keyword group is the first one that matches. */
  lemma {:induction false} FallbackPriority(userMessage: string)
    ensures var msg := ToLower(userMessage);
      && (Fallback(userMessage) == GreetingFallback <==> IsGreeting(msg))
      && (Fallback(userMessage) == CodeFallback <==> !IsGreeting(msg) && AsksForCode(msg))
      && (Fallback(userMessage) == IdentityFallback <==>
            !IsGreeting(msg) && !AsksForCode(msg) && AsksWhoItIs(msg))
      && (Fallback(userMessage) == GenericFallback <==>
            !IsGreeting(msg) && !AsksForCode(msg) && !AsksWhoItIs(msg))
  {
  }

  /** The reply chosen for a sent message: the scripted reply when the message is exactly
      one of the suggested prompts (an own entry of the table), the fallback otherwise. */
  function Choose(userMessage: string): (r: Reply)
    ensures r.ScriptedReply? <==> userMessage in Scripted
    ensures r.ScriptedReply? ==> r.prompt == userMessage
  {
    if userMessage in Scripted then ScriptedReply(userMessage) else Fallback(userMessage)
  }

  /** The text of a reply. */
  function ReplyText(r: Reply): string
  {
    match r
    case ScriptedReply(prompt) => if prompt in Scripted then TopicText(Scripted[prompt]) else ""
    case GreetingFallback => GreetingReply
    case CodeFallback => CodeReply
    case IdentityFallback => IdentityReply
    case GenericFallback => GenericReply
  }

  /** The text the page types out for a sent message; it is never empty. */
  function SelectResponse(userMessage: string): (r: string)
    ensures |r| > 0
  {
    ReplyText(Choose(userMessage))
  }

  /** An exact prompt wins over the keywords: a message that is one of the suggested prompts
      gets that prompt's scripted reply even when it also holds a keyword; every other
      message gets the fallback. */
  lemma {:induction false} ExactPromptWins(userMessage: string)
    ensures userMessage in Scripted ==> SelectResponse(userMessage) == TopicText(Scripted[userMessage])
    ensures userMessage !in Scripted ==> SelectResponse(userMessage) == ReplyText(Fallback(userMessage))
  {
  }

  /** The substring test for "hi " also fires at the end of a longer word. */
  lemma {:induction false} SushiIsAGreeting()
    ensures Fallback("sushi bar") == GreetingFallback
  {
    var msg := ToLower("sushi bar");
    assert msg[3] == 'h' && msg[4] == 'i' && msg[5] == ' ';
    assert "hi " <= msg[3..];
    ContainsAt(msg, "hi ");
  }

  /** The names every object literal inherits from `Object.prototype`: reading one of them
      as a property of the reply table yields a function or an object, never a text. */
  const InheritedNames: set<string> := {
    "constructor", "__proto__", "hasOwnProperty", "isPrototypeOf", "propertyIsEnumerable",
    "toString", "toLocaleString", "valueOf", "__defineGetter__", "__defineSetter__",
    "__lookupGetter__", "__lookupSetter__"}

  /** What the property read `responses[userMessage]` yields. */
  datatype PropertyValue = Text(text: string) | Inherited(name: string) | Undefined

  /** The reply chosen as the page's code writes it: a plain property read on the table,
      replaced by the fallback only when it yields nothing. */
  function ResponseAsWritten(userMessage: string): PropertyValue
  {
    if userMessage in Scripted then Text(TopicText(Scripted[userMessage]))
    else if userMessage in InheritedNames then Inherited(userMessage)
    else Text(ReplyText(Fallback(userMessage)))
  }

  /** As written, a message that is the name of an inherited property, such as
      "constructor", reads a function or an object rather than a reply text (which the
      markdown step then fails on), while `Choose` gives it a fallback reply. */
  lemma {:induction false} InheritedNameGetsNoText(userMessage: string)
    requires userMessage in InheritedNames
    ensures ResponseAsWritten(userMessage) == Inherited(userMessage)
    ensures Choose(userMessage) == Fallback(userMessage)
  {
    assert |userMessage| <= 20;
    assert userMessage !in Scripted by {
      assert |QuantumPrompt| == 41 && |SortPrompt| == 38;
      assert |EmailPrompt| == 50 && |RemoteWorkPrompt| == 42;
    }
  }

  const QuantumPrompt: string := "Explain quantum computing in simple terms"
  const SortPrompt: string := "Write a Python function to sort a list"
  const EmailPrompt: string := "Draft a professional email to reschedule a meeting"
  const RemoteWorkPrompt: string := "What are the pros and cons of remote work?"

  const QuantumReply: string :=
    "Quantum computing uses the principles of quantum mechanics to process information " +
    "differently than classical computers.\n\n**Classical bits** are either 0 or 1. " +
    "**Quantum bits (qubits)** can exist in a *superposition* \U{2014} effectively " +
    "being both 0 and 1 simultaneously until measured.\n\nHere's what makes it " +
    "powerful:\n\n- **Superposition** \U{2014} A qubit explores multiple states at " +
    "once, letting quantum computers evaluate many possibilities simultaneously\n- " +
    "**Entanglement** \U{2014} Two qubits can be linked so the state of one instantly " +
    "influences the other, regardless of distance\n- **Interference** \U{2014} Quantum " +
    "algorithms amplify correct answers and cancel out wrong ones\n\nThink of it this " +
    "way: a classical computer trying to find the exit in a maze tries each path one " +
    "at a time. A quantum computer explores *all paths simultaneously*.\n\nThat said, " +
    "quantum computers aren't universally faster. They excel at specific problems: " +
    "cryptography, drug discovery, optimization, and simulating molecular behavior."

  const SortReply: string :=
    "Here's a clean implementation of a few sorting approaches:\n\n```python\ndef " +
    "quick_sort(arr):\n    \"\"\"Quicksort \U{2014} O(n log n) average case.\"\"\"\n   " +
    " if len(arr) <= 1:\n        return arr\n    pivot = arr[len(arr) // 2]\n    left " +
    "= [x for x in arr if x < pivot]\n    middle = [x for x in arr if x == pivot]\n    " +
    "right = [x for x in arr if x > pivot]\n    return quick_sort(left) + middle + " +
    "quick_sort(right)\n```\n\nFor most practical use cases, Python's built-in " +
    "`sorted()` function is the best choice \U{2014} it uses **Timsort** (a hybrid of " +
    "merge sort and insertion sort) and runs in O(n log n):\n\n```python\n# Built-in " +
    "(recommended)\nnumbers = [38, 27, 43, 3, 9, 82, 10]\nsorted_numbers = " +
    "sorted(numbers)\n\n# In-place sort\nnumbers.sort()\n```\n\nThe built-in sort is " +
    "implemented in C, heavily optimized, and stable (preserves order of equal " +
    "elements). Use `quick_sort` above for learning \U{2014} use `sorted()` for " +
    "production."

  const EmailReply: string :=
    "Here's a concise, professional template:\n\n---\n\n**Subject:** Request to " +
    "Reschedule \U{2014} [Meeting Name]\n\nHi [Name],\n\nI hope this message finds you " +
    "well. Due to a scheduling conflict, I'm unable to attend our meeting currently " +
    "set for **[original date/time]**.\n\nWould any of the following alternatives work " +
    "for you?\n\n- **[Option 1]** \U{2014} [Day, Date, Time]\n- **[Option 2]** " +
    "\U{2014} [Day, Date, Time]\n- **[Option 3]** \U{2014} [Day, Date, Time]\n\nI " +
    "apologize for any inconvenience and appreciate your flexibility. Please let me " +
    "know what works best, or feel free to suggest a different time entirely.\n\nBest " +
    "regards,\n[Your Name]\n\n---\n\nA few tips: send the reschedule request *as early " +
    "as possible*, always offer alternatives (don't make them do the work), and keep " +
    "the tone brief but warm."

  const RemoteWorkReply: string :=
    "Here's a balanced breakdown:\n\n**Pros**\n\n- **Flexibility** \U{2014} Work when " +
    "you're most productive. No rigid 9-to-5 required\n- **No commute** \U{2014} Saves " +
    "time, money, and reduces environmental impact\n- **Broader talent pool** \U{2014} " +
    "Companies can hire from anywhere; workers aren't tied to expensive cities\n- " +
    "**Fewer distractions** \U{2014} No impromptu desk visits or open-office noise " +
    "(for many people)\n- **Better work-life integration** \U{2014} Handle personal " +
    "errands, be present for family\n\n**Cons**\n\n- **Isolation** \U{2014} Loneliness " +
    "and lack of social interaction are real challenges\n- **Blurred boundaries** " +
    "\U{2014} When home *is* the office, it's hard to \"clock out\"\n- **Communication " +
    "overhead** \U{2014} Asynchronous work requires more intentional documentation\n- " +
    "**Career visibility** \U{2014} Out of sight can mean out of mind for promotions\n" +
    "- **Infrastructure dependency** \U{2014} Requires reliable internet, a quiet " +
    "space, and self-discipline\n\n**The nuanced take:** Remote work isn't universally " +
    "better or worse \U{2014} it depends on the individual, the role, and the company " +
    "culture. Hybrid models are emerging as the most sustainable middle ground for " +
    "many organizations."

  const GreetingReply: string :=
    "Hello! I'm Dialogue, a simulated AI assistant. I'm a demo interface \U{2014} I " +
    "don't have a real language model behind me, but I can show you how the chat " +
    "experience feels.\n\nTry asking me one of the suggested prompts, or explore the " +
    "interface. The design is pure HTML, CSS, and vanilla JavaScript \U{2014} no " +
    "frameworks, no dependencies."

  const CodeReply: string :=
    "I'd be happy to help with code! As a demo, I have pre-written responses for " +
    "specific prompts. Try asking me to:\n\n- **\"Write a Python function to sort a " +
    "list\"** \U{2014} I'll show you quicksort and Python's built-in sort\n\nIn a real " +
    "implementation, this interface would connect to an API endpoint that streams " +
    "tokens from a language model. The typing animation you see simulates that " +
    "streaming behavior."

  const IdentityReply: string :=
    "I'm **Dialogue** \U{2014} a ChatGPT-style interface built as a design template. " +
    "Here's what I am:\n\n- A **single-page chat UI** built with HTML, CSS, and " +
    "vanilla JS\n- **No frameworks** \U{2014} no React, no Vue, no dependencies\n- " +
    "**No API calls** \U{2014} responses are simulated client-side\n- Part of the " +
    "**FreeCSSDesigns** open-source template collection\n\nThe design uses IBM Plex " +
    "Mono for the monospaced interface text and Newsreader for the editorial headings. " +
    "Pure black and white, light mode only."

  const GenericReply: string :=
    "That's an interesting question. As a demo interface, I have a limited set of " +
    "pre-built responses. Here are some things you can try:\n\n- **\"Explain quantum " +
    "computing in simple terms\"**\n- **\"Write a Python function to sort a list\"**\n" +
    "- **\"Draft a professional email to reschedule a meeting\"**\n- **\"What are the " +
    "pros and cons of remote work?\"**\n\nIn a production environment, this interface " +
    "would connect to a real language model API and stream responses token by token. " +
    "The architecture is designed for that \U{2014} the typing animation mirrors how " +
    "real AI chat applications deliver text."
}
