/** The conversation state of the simulated assistant's chat page: the list of threads
    (newest first), the active thread, and the two flags that guard a reply in progress. */
module Chat {
  import opened Text
  import opened Dom
  import ChatReplies

  /** A message of a thread: the user's text, or the assistant's reply, kept as the reply
      chosen (its text is `ChatReplies.ReplyText(reply)`). */
  datatype Message = UserMessage(text: string) | AiMessage(reply: ChatReplies.Reply)

  /** The title of a thread started by `firstMessage`: the message itself when it has at
      most 40 characters, otherwise its first 40 characters followed by "...". */
  function Title(firstMessage: string): (t: string)
    ensures |t| <= 43
    ensures |firstMessage| <= 40 ==> t == firstMessage
    ensures |firstMessage| > 40 ==> |t| == 43 && t[..40] == firstMessage[..40] && t[40..] == "..."
  {
    if |firstMessage| > 40 then firstMessage[..40] + "..." else firstMessage
  }

  /** A thread is an object: a reply in progress keeps a reference to the thread it was
      asked in and adds its message there, whichever thread is active by then. */
  class Thread {
    const id: string
    const title: string
    var messages: seq<Message>

    constructor (id: string, firstMessage: string)
      ensures this.id == id && title == Title(firstMessage) && messages == []
    {
      this.id := id;
      title := Title(firstMessage);
      messages := [];
    }
  }

  /** The position of the first thread of `threads` whose id is `id`, or -1, as
      `threads.find` searches. Ids come from the clock and need not be unique. */
  function FindIndex(threads: seq<Thread>, id: string): (i: int)
    ensures -1 <= i < |threads|
    ensures i == -1 <==> forall j :: 0 <= j < |threads| ==> threads[j].id != id
    ensures 0 <= i ==> threads[i].id == id && forall j :: 0 <= j < i ==> threads[j].id != id
  {
    if |threads| == 0 then -1
    else if threads[0].id == id then 0
    else
      var i := FindIndex(threads[1..], id);
      assert forall j :: 1 <= j < |threads| ==> threads[j] == threads[1..][j - 1];
      if i == -1 then -1 else i + 1
  }

  /** `threads.find(t => t.id === id)` for an id that may be null. */
  function Find(threads: seq<Thread>, id: Option<string>): (r: Option<Thread>)
    ensures r.Some? <==> id.Some? && FindIndex(threads, id.value) >= 0
    ensures r.Some? ==> r.value == threads[FindIndex(threads, id.value)] && r.value.id == id.value
  {
    if id.None? then None
    else
      var i := FindIndex(threads, id.value);
      if i < 0 then None else Some(threads[i])
  }

  /** The active id counts as unset when it is null or empty, as `!activeThreadId` does. */
  predicate IsUnset(id: Option<string>)
  {
    id.None? || id.value == ""
  }

  class ChatApp {
    var threads: seq<Thread>
    var activeThreadId: Option<string>
    var isGenerating: bool
    var abortTyping: bool
    /** The text in the message box. */
    var input: string
    /** The chat view is shown (otherwise the welcome screen). */
    var showingChat: bool
    var sidebarOpen: bool

    /** The active id, when set, names a thread of the list. */
    ghost predicate Valid()
      reads this
    {
      activeThreadId.Some? ==> FindIndex(threads, activeThreadId.value) >= 0
    }

    constructor ()
      ensures Valid()
      ensures threads == [] && activeThreadId == None && !isGenerating && !abortTyping
      ensures input == "" && !showingChat && !sidebarOpen
    {
      threads := [];
      activeThreadId := None;
      isGenerating := false;
      abortTyping := false;
      input := "";
      showingChat := false;
      sidebarOpen := false;
    }

    /** `getActiveThread()`. */
    function ActiveThread(): (r: Option<Thread>)
      reads this
      ensures Valid() && activeThreadId.Some? ==> r.Some? && r.value in threads
    {
      Find(threads, activeThreadId)
    }

    /** `createThread(firstMessage)` with the clock's id `id`: the new thread goes to the
        front with no messages and becomes the active one; the other threads keep their
        order and their messages. */
    method CreateThread(firstMessage: string, id: string) returns (t: Thread)
      modifies this
      ensures fresh(t) && t.id == id && t.title == Title(firstMessage) && t.messages == []
      ensures threads == [t] + old(threads)
      ensures activeThreadId == Some(id)
      ensures ActiveThread() == Some(t)
      ensures Valid()
      ensures isGenerating == old(isGenerating) && abortTyping == old(abortTyping)
      ensures input == old(input) && showingChat == old(showingChat) && sidebarOpen == old(sidebarOpen)
    {
      t := new Thread(id, firstMessage);
      threads := [t] + threads;
      activeThreadId := Some(id);
    }

    /** A click on a thread of the sidebar list: it becomes the active thread, the chat view
        is shown and the sidebar closes. */
    method SwitchThread(id: string)
      requires exists i :: 0 <= i < |threads| && threads[i].id == id
      modifies this
      ensures activeThreadId == Some(id) && ActiveThread().Some?
      ensures showingChat && !sidebarOpen
      ensures Valid()
      ensures threads == old(threads) && isGenerating == old(isGenerating)
      ensures abortTyping == old(abortTyping) && input == old(input)
    {
      activeThreadId := Some(id);
      showingChat := true;
      sidebarOpen := false;
    }

    /** The "New chat" button: no thread is active and the welcome screen returns. */
    method NewChat()
      modifies this
      ensures activeThreadId == None && !showingChat && !sidebarOpen
      ensures Valid()
      ensures threads == old(threads) && isGenerating == old(isGenerating)
      ensures abortTyping == old(abortTyping) && input == old(input)
    {
      activeThreadId := None;
      showingChat := false;
      sidebarOpen := false;
    }

    /** `handleSend()`, with `newId` the clock's id for a thread it may create. Nothing
        happens when the trimmed input is empty or a reply is in progress; otherwise the
        trimmed text is sent as `Send` describes and returned for the reply that is
        scheduled next. */
    method HandleSend(newId: string) returns (sent: Option<string>)
      requires Valid()
      modifies this, threads
      ensures Valid()
      ensures Trim(old(input)) == [] || old(isGenerating) ==>
        && sent == None && threads == old(threads) && activeThreadId == old(activeThreadId)
        && input == old(input) && showingChat == old(showingChat)
        && forall u :: u in old(threads) ==> u.messages == old(u.messages)
      ensures Trim(old(input)) != [] && !old(isGenerating) ==> sent == Some(Trim(old(input))) && input == ""
      ensures Trim(old(input)) != [] && !old(isGenerating) && IsUnset(old(activeThreadId)) ==>
        && |threads| == |old(threads)| + 1 && threads == [threads[0]] + old(threads)
        && fresh(threads[0]) && threads[0].id == newId && threads[0].title == Title(Trim(old(input)))
        && threads[0].messages == [UserMessage(Trim(old(input)))]
        && activeThreadId == Some(newId) && showingChat
        && forall u :: u in old(threads) ==> u.messages == old(u.messages)
      ensures Trim(old(input)) != [] && !old(isGenerating) && !IsUnset(old(activeThreadId)) ==>
        && threads == old(threads) && activeThreadId == old(activeThreadId)
        && showingChat == old(showingChat)
        && var t := old(ActiveThread()).value;
          && t.messages == old(t.messages) + [UserMessage(Trim(old(input)))]
          && forall u :: u in old(threads) && u != t ==> u.messages == old(u.messages)
      ensures isGenerating == old(isGenerating) && abortTyping == old(abortTyping)
      ensures sidebarOpen == old(sidebarOpen)
    {
      var text := Trim(input);
      if text == [] || isGenerating {
        return None;
      }
      Send(text, newId);
      sent := Some(text);
    }

    /** The sending part of `handleSend()` for the non-empty trimmed text `text`: it is added
        as one user message to the active thread (a new thread with id `newId` is created
        first, and the chat view shown, when none is active), and the input is cleared. */
    method Send(text: string, newId: string)
      requires Valid()
      modifies this, threads
      ensures Valid() && input == ""
      ensures IsUnset(old(activeThreadId)) ==>
        && |threads| == |old(threads)| + 1 && threads == [threads[0]] + old(threads)
        && fresh(threads[0]) && threads[0].id == newId && threads[0].title == Title(text)
        && threads[0].messages == [UserMessage(text)]
        && activeThreadId == Some(newId) && showingChat
        && forall u :: u in old(threads) ==> u.messages == old(u.messages)
      ensures !IsUnset(old(activeThreadId)) ==>
        && threads == old(threads) && activeThreadId == old(activeThreadId)
        && showingChat == old(showingChat)
        && var t := old(ActiveThread()).value;
          && t.messages == old(t.messages) + [UserMessage(text)]
          && forall u :: u in old(threads) && u != t ==> u.messages == old(u.messages)
      ensures isGenerating == old(isGenerating) && abortTyping == old(abortTyping)
      ensures sidebarOpen == old(sidebarOpen)
    {
      if IsUnset(activeThreadId) {
        var t := CreateThread(text, newId);
        showingChat := true;
        t.messages := [UserMessage(text)];
      } else {
        var t := ActiveThread().value;
        t.messages := t.messages + [UserMessage(text)];
      }
      input := "";
    }

    /** `generateResponse(userMessage)` up to the choice of the reply: a reply is now in
        progress, it is not aborted, and it belongs to the thread active at this moment
        (none, when "New chat" was pressed in between). */
    method GenerateResponse(userMessage: string) returns (thread: Option<Thread>, response: ChatReplies.Reply)
      modifies this
      ensures isGenerating && !abortTyping
      ensures thread == old(ActiveThread())
      ensures response == ChatReplies.Choose(userMessage)
      ensures threads == old(threads) && activeThreadId == old(activeThreadId)
      ensures input == old(input) && showingChat == old(showingChat) && sidebarOpen == old(sidebarOpen)
    {
      isGenerating := true;
      abortTyping := false;
      thread := ActiveThread();
      response := ChatReplies.Choose(userMessage);
    }

    /** `finishGeneration(thread, response)`: the reply is added as one assistant message to
        the thread it was asked in, and both flags are cleared. Without a thread the first
        statement fails and nothing changes. */
    method FinishGeneration(thread: Option<Thread>, response: ChatReplies.Reply)
      modifies this, if thread.Some? then {thread.value} else {}
      ensures thread.Some? ==>
        && thread.value.messages == old(thread.value.messages) + [AiMessage(response)]
        && !isGenerating && !abortTyping
      ensures thread.None? ==> isGenerating == old(isGenerating) && abortTyping == old(abortTyping)
      ensures threads == old(threads) && activeThreadId == old(activeThreadId)
      ensures input == old(input) && showingChat == old(showingChat) && sidebarOpen == old(sidebarOpen)
    {
      if thread.None? {
        return;
      }
      var t := thread.value;
      t.messages := t.messages + [AiMessage(response)];
      isGenerating := false;
      abortTyping := false;
    }

    /** The reply cycle as the page runs it: `generateResponse`, then the typing, then
        `finishGeneration`. When the property read of the reply table yields an inherited
        function or object, `formatMarkdown` calls `replace` on it and throws before any
        typing; when no thread was active ("New chat" pressed within the 400 ms after the
        send), `finishGeneration` throws at its first statement. Either way no assistant
        message is added and a reply stays in progress for good, so every later send is
        refused. */
    method ReplyCycleAsWritten(userMessage: string) returns (thread: Option<Thread>)
      requires Valid()
      modifies this, threads
      ensures Valid() && thread == old(ActiveThread())
      ensures threads == old(threads) && activeThreadId == old(activeThreadId)
      ensures thread.None? || ChatReplies.ResponseAsWritten(userMessage).Inherited? ==>
        && isGenerating
        && forall u :: u in threads ==> u.messages == old(u.messages)
      ensures thread.Some? && !ChatReplies.ResponseAsWritten(userMessage).Inherited? ==>
        && thread.value.messages == old(thread.value.messages) + [AiMessage(ChatReplies.Choose(userMessage))]
        && !isGenerating
        && forall u :: u in threads && u != thread.value ==> u.messages == old(u.messages)
    {
      var response;
      thread, response := GenerateResponse(userMessage);
      if ChatReplies.ResponseAsWritten(userMessage).Inherited? {
        return;
      }
      FinishGeneration(thread, response);
    }

    /** The reply cycle bound to the thread `thread` the message was sent in, with the
        corrected choice of the reply: the reply always lands on that thread, whichever
        thread is active by then, and the page takes the next message. */
    method ReplyCycle(thread: Thread, userMessage: string)
      modifies this, thread
      ensures thread.messages == old(thread.messages) + [AiMessage(ChatReplies.Choose(userMessage))]
      ensures !isGenerating && !abortTyping
      ensures threads == old(threads) && activeThreadId == old(activeThreadId)
      ensures input == old(input) && showingChat == old(showingChat) && sidebarOpen == old(sidebarOpen)
    {
      isGenerating := true;
      abortTyping := false;
      FinishGeneration(Some(thread), ChatReplies.Choose(userMessage));
    }
  }

  /** "New chat" pressed while a reply is pending: as written, the reply cycle finds no
      thread, a reply stays in progress, and the next send changes nothing. */
  method NewChatDuringReply(app: ChatApp, userMessage: string, newId: string) returns (sent: Option<string>)
    requires app.Valid()
    modifies app, app.threads
    ensures app.isGenerating && sent == None
    ensures app.threads == old(app.threads) && app.activeThreadId == None
    ensures forall u :: u in app.threads ==> u.messages == old(u.messages)
  {
    app.NewChat();
    var thread := app.ReplyCycleAsWritten(userMessage);
    sent := app.HandleSend(newId);
  }
}
