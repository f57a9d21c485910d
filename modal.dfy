/**
 * app/components/response-modal.tsx: the conversation state machine behind
 * the chat dialog. Its React state becomes the fields of `ResponseModal`; each
 * handler becomes a method. The 1.5-second reply timer is the slot
 * `generationTimeout`, and its firing is the event `CompleteGeneration`.
 */
module Modal {
  import opened Optional
  import opened Text
  import opened Session
  import opened Browser
  import opened Utils

  /** A scheduled reply: the prompt it answers and the session id its closure captured. */
  datatype Generation = Generation(prompt: string, sessionId: string)

  /** `if (editingMessageId)`: a non-empty id is being edited. */
  predicate IsEditing(editing: Option<string>) {
    editing.Some? && editing.value != ""
  }

  /** `messages.findIndex(msg => msg.id === id)` */
  function IndexOfId(ms: seq<Message>, id: string): Option<nat> {
    FindIndex(ms, (m: Message) => m.id == id, 0)
  }

  /** `messages.findIndex((msg, index) => index > p && msg.role === 'assistant')` */
  function NextAssistant(ms: seq<Message>, p: nat): Option<nat> {
    FindIndex(ms, (m: Message) => m.role == Assistant, p + 1)
  }

  /**
   * The messages after a successful edit of position `p`: the content at `p`
   * replaced, and the list cut at the first assistant message after `p`.
   */
  function EditTruncate(ms: seq<Message>, p: nat, text: string): (r: seq<Message>)
    requires p < |ms|
    ensures p < |r| <= |ms|
    ensures r[p].content == text
    ensures r[p].id == ms[p].id && r[p].role == ms[p].role && r[p].timestamp == ms[p].timestamp
    ensures forall j :: 0 <= j < |r| && j != p ==> r[j] == ms[j]
    ensures forall j :: p < j < |r| ==> r[j].role != Assistant
    ensures |r| < |ms| ==> ms[|r|].role == Assistant
  {
    var edited := ms[p := ms[p].(content := text)];
    match NextAssistant(ms, p)
    case Some(k) => edited[..k]
    case None => edited
  }

  /**
   * The properties of EditTruncate pin its result down: any list with them is
   * that result, so the cut is at the first assistant message after `p` and
   * nowhere else.
   */
  lemma {:induction false} EditTruncateDetermined(ms: seq<Message>, p: nat, text: string, r: seq<Message>)
    requires p < |r| <= |ms|
    requires r[p] == ms[p].(content := text)
    requires forall j :: 0 <= j < |r| && j != p ==> r[j] == ms[j]
    requires forall j :: p < j < |r| ==> r[j].role != Assistant
    requires |r| < |ms| ==> ms[|r|].role == Assistant
    ensures r == EditTruncate(ms, p, text)
  {
    var e := EditTruncate(ms, p, text);
    assert forall j :: p < j < |r| ==> ms[j].role != Assistant;
    assert forall j :: p < j < |e| ==> ms[j].role != Assistant;
    assert |r| == |e|;
  }

  /**
   * handleSaveEdit on messages `ms` while `editing` is the edit id: `None`
   * when the edit is abandoned (no edit id, blank text, or the id is gone),
   * otherwise the new message list.
   */
  function EditOutcome(ms: seq<Message>, editing: Option<string>, text: string): Option<seq<Message>> {
    if !IsEditing(editing) || Blank(text) then None
    else
      match IndexOfId(ms, editing.value)
      case None => None
      case Some(p) => Some(EditTruncate(ms, p, text))
  }

  /** An edit is abandoned exactly for a missing edit id, a blank text or an id no message has. */
  lemma EditAbandonedWhen(ms: seq<Message>, editing: Option<string>, text: string)
    ensures EditOutcome(ms, editing, text).None? <==>
      || !IsEditing(editing)
      || IsBlank(text)
      || (forall j :: 0 <= j < |ms| ==> ms[j].id != editing.value)
  {
    BlankIffAllWhitespace(text);
    if IsEditing(editing) && !IsBlank(text) {
      var found := IndexOfId(ms, editing.value);
      if found.Some? {
        assert ms[found.value].id == editing.value;
      }
    }
  }

  /** `if (currentSessionId) saveToLocalStorage(currentSessionId, record)` on the stored records. */
  function Persist(items: map<string, Record>, sessionId: string, record: Record): map<string, Record> {
    if sessionId != "" then items[sessionId := record] else items
  }

  /** The open effect resumes a stored session: `sessionId` is truthy and names a stored record. */
  predicate Resumes(ls: LocalStorage?, sessionId: Option<string>)
    reads ls
  {
    sessionId.Some? && sessionId.value != "" && GetFromLocalStorage(ls, sessionId.value).Some?
  }

  class ResponseModal {
    var messages: seq<Message>
    var currentSessionId: string
    var isTyping: bool
    var isGenerating: bool
    var generationTimeout: Option<Generation>
    var editingMessageId: Option<string>
    var currentInputValue: string

    /** The typing indicator, the stop button and the pending timer come and go together. */
    ghost predicate Valid()
      reads this
    {
      isTyping == isGenerating && (isGenerating <==> generationTimeout.Some?)
    }

    constructor ()
      ensures Valid()
      ensures messages == [] && currentSessionId == "" && generationTimeout == None
      ensures editingMessageId == None && currentInputValue == ""
    {
      messages := [];
      currentSessionId := "";
      isTyping := false;
      isGenerating := false;
      generationTimeout := None;
      editingMessageId := None;
      currentInputValue := "";
    }

    /** `disabled={isTyping && !isGenerating}`: the chat input is never disabled. */
    function InputDisabled(): (disabled: bool)
      reads this
      requires Valid()
      ensures !disabled
    {
      isTyping && !isGenerating
    }

    /**
     * The state handleSaveEdit leaves, from the state it started in
     * (`ms0`, `editing0`, `sessionId0`, `timeout0`, `items0`).
     */
    ghost predicate EditSaved(
      ms0: seq<Message>, editing0: Option<string>, sessionId0: string, timeout0: Option<Generation>,
      items0: map<string, Record>, text: string, now: int, ls: LocalStorage?)
      reads this, ls
    {
      && editingMessageId == None && currentInputValue == ""
      && currentSessionId == sessionId0
      && match EditOutcome(ms0, editing0, text)
         case None =>
           && messages == ms0 && generationTimeout == timeout0
           && (ls != null ==> ls.items == items0)
         case Some(edited) =>
           && messages == edited
           && generationTimeout == Some(Generation(text, sessionId0))
           && (ls != null ==> ls.items == Persist(items0, sessionId0, Record(edited, None, Some(now))))
    }

    /**
     * simulateResponse: show the typing indicator and schedule the reply to
     * `userMessage`. The new timer replaces any pending one, whose cleanup
     * clears it.
     */
    method SimulateResponse(userMessage: string, capturedSessionId: string)
      modifies this
      ensures Valid()
      ensures generationTimeout == Some(Generation(userMessage, capturedSessionId))
      ensures messages == old(messages) && currentSessionId == old(currentSessionId)
      ensures editingMessageId == old(editingMessageId) && currentInputValue == old(currentInputValue)
    {
      isTyping := true;
      isGenerating := true;
      generationTimeout := Some(Generation(userMessage, capturedSessionId));
    }

    /**
     * The open effect. A truthy `sessionId` naming a stored session loads it;
     * otherwise a non-empty `initialMessage` starts a new session holding that
     * one user message, stores it with `createdAt`, and schedules a reply whose
     * closure still sees the session id from before the effect.
     */
    method Open(isOpen: bool, sessionId: Option<string>, initialMessage: string,
                ls: LocalStorage?, now: nat, idSuffix: string, msgId: string)
      requires Valid() && (ls != null ==> ls.Valid())
      modifies this, ls
      ensures Valid() && (ls != null ==> ls.Valid())
      ensures !isOpen || (!old(Resumes(ls, sessionId)) && initialMessage == "") ==>
        unchanged(this) && (ls != null ==> unchanged(ls))
      ensures isOpen && old(Resumes(ls, sessionId)) ==>
        && messages == old(GetFromLocalStorage(ls, sessionId.value)).value.messages
        && currentSessionId == sessionId.value
        && generationTimeout == old(generationTimeout)
        && editingMessageId == old(editingMessageId) && currentInputValue == old(currentInputValue)
        && (ls != null ==> unchanged(ls))
      ensures isOpen && !old(Resumes(ls, sessionId)) && initialMessage != "" ==>
        && currentSessionId == GenerateSessionId(now, idSuffix)
        && messages == [Message(msgId, User, initialMessage, now)]
        && (ls != null ==> ls.items == old(ls.items)[currentSessionId := Record(messages, Some(now), None)])
        && generationTimeout == Some(Generation(initialMessage, old(currentSessionId)))
        && editingMessageId == old(editingMessageId) && currentInputValue == old(currentInputValue)
    {
      if !isOpen {
        return;
      }
      if sessionId.Some? && sessionId.value != "" {
        var existingSession := GetFromLocalStorage(ls, sessionId.value);
        if existingSession.Some? {
          messages := existingSession.value.messages;
          currentSessionId := sessionId.value;
          return;
        }
      }
      if initialMessage != "" {
        var capturedSessionId := currentSessionId;
        var newSessionId := GenerateSessionId(now, idSuffix);
        currentSessionId := newSessionId;
        var initialMessages := [Message(msgId, User, initialMessage, now)];
        messages := initialMessages;
        SaveToLocalStorage(ls, newSessionId, Record(initialMessages, Some(now), None));
        SimulateResponse(initialMessage, capturedSessionId);
      }
    }

    /**
     * The reply timer fires: one assistant message is appended, stored under
     * the session id the timer captured when that id is non-empty, and the
     * indicators are cleared. A cleared timer never fires.
     */
    method CompleteGeneration(reply: string, msgId: string, now: int, ls: LocalStorage?)
      requires Valid() && (ls != null ==> ls.Valid())
      modifies this, ls
      ensures Valid() && (ls != null ==> ls.Valid())
      ensures old(generationTimeout).None? ==> unchanged(this) && (ls != null ==> unchanged(ls))
      ensures old(generationTimeout).Some? ==>
        && messages == old(messages) + [Message(msgId, Assistant, reply, now)]
        && generationTimeout == None
        && currentSessionId == old(currentSessionId)
        && editingMessageId == old(editingMessageId) && currentInputValue == old(currentInputValue)
        && (ls != null ==> ls.items == Persist(old(ls.items), old(generationTimeout).value.sessionId, Record(messages, None, Some(now))))
    {
      if generationTimeout.None? {
        return;
      }
      var pending := generationTimeout.value;
      var newMessage := Message(msgId, Assistant, reply, now);
      var updatedMessages := messages + [newMessage];
      if pending.sessionId != "" {
        SaveToLocalStorage(ls, pending.sessionId, Record(updatedMessages, None, Some(now)));
      }
      messages := updatedMessages;
      isTyping := false;
      isGenerating := false;
      generationTimeout := None;
    }

    /** stopGeneration: clear the pending timer and both indicators; nothing is appended or stored. */
    method StopGeneration()
      modifies this
      ensures Valid()
      ensures generationTimeout == None
      ensures messages == old(messages) && currentSessionId == old(currentSessionId)
      ensures editingMessageId == old(editingMessageId) && currentInputValue == old(currentInputValue)
    {
      generationTimeout := None;
      isTyping := false;
      isGenerating := false;
    }

    /**
     * handleSendMessage: while an edit is active it saves the edit; otherwise
     * it appends one user message, stores the new list when the session id is
     * non-empty, and schedules a reply.
     */
    method HandleSendMessage(message: string, msgId: string, now: int, ls: LocalStorage?)
      requires Valid() && (ls != null ==> ls.Valid())
      modifies this, ls
      ensures Valid() && (ls != null ==> ls.Valid())
      ensures IsEditing(old(editingMessageId)) ==>
        EditSaved(old(messages), old(editingMessageId), old(currentSessionId), old(generationTimeout),
                  old(StoredItems(ls)), message, now, ls)
      ensures !IsEditing(old(editingMessageId)) ==>
        && messages == old(messages) + [Message(msgId, User, message, now)]
        && currentSessionId == old(currentSessionId)
        && generationTimeout == Some(Generation(message, old(currentSessionId)))
        && editingMessageId == old(editingMessageId) && currentInputValue == old(currentInputValue)
        && (ls != null ==> ls.items == Persist(old(ls.items), old(currentSessionId), Record(messages, None, Some(now))))
    {
      if IsEditing(editingMessageId) {
        HandleSaveEdit(message, now, ls);
        return;
      }
      var newUserMessage := Message(msgId, User, message, now);
      var updatedMessages := messages + [newUserMessage];
      messages := updatedMessages;
      if currentSessionId != "" {
        SaveToLocalStorage(ls, currentSessionId, Record(updatedMessages, None, Some(now)));
      }
      SimulateResponse(message, currentSessionId);
    }

    /**
     * handleEditMessage: when some message has id `messageId` (whatever its
     * role), start editing it with its content in the input; otherwise
     * nothing changes.
     */
    method HandleEditMessage(messageId: string)
      modifies this
      ensures messages == old(messages) && currentSessionId == old(currentSessionId)
      ensures generationTimeout == old(generationTimeout)
      ensures isTyping == old(isTyping) && isGenerating == old(isGenerating)
      ensures IndexOfId(messages, messageId).None? ==>
        editingMessageId == old(editingMessageId) && currentInputValue == old(currentInputValue)
      ensures IndexOfId(messages, messageId).Some? ==>
        editingMessageId == Some(messageId) && currentInputValue == messages[IndexOfId(messages, messageId).value].content
    {
      var found := IndexOfId(messages, messageId);
      if found.Some? {
        editingMessageId := Some(messageId);
        currentInputValue := messages[found.value].content;
      }
    }

    /**
     * handleSaveEdit: abandon the edit for a missing edit id, blank text or
     * a vanished message; otherwise replace the content, cut at the first
     * assistant message after it, store, and schedule a reply to the new text.
     */
    method HandleSaveEdit(editedContent: string, now: int, ls: LocalStorage?)
      requires Valid() && (ls != null ==> ls.Valid())
      modifies this, ls
      ensures Valid() && (ls != null ==> ls.Valid())
      ensures EditSaved(old(messages), old(editingMessageId), old(currentSessionId), old(generationTimeout),
                        old(StoredItems(ls)), editedContent, now, ls)
    {
      if !IsEditing(editingMessageId) || Blank(editedContent) {
        editingMessageId := None;
        currentInputValue := "";
        return;
      }
      var messageIndex := IndexOfId(messages, editingMessageId.value);
      if messageIndex.None? {
        editingMessageId := None;
        currentInputValue := "";
        return;
      }
      var p := messageIndex.value;
      var updatedMessages := messages[p := messages[p].(content := editedContent)];
      var nextAssistantIndex := NextAssistant(messages, p);
      if nextAssistantIndex.Some? {
        updatedMessages := updatedMessages[..nextAssistantIndex.value];
      }
      messages := updatedMessages;
      if currentSessionId != "" {
        SaveToLocalStorage(ls, currentSessionId, Record(updatedMessages, None, Some(now)));
      }
      editingMessageId := None;
      currentInputValue := "";
      SimulateResponse(editedContent, currentSessionId);
    }

    /** handleCancelEdit: drop the edit id and the input; the conversation is untouched. */
    method HandleCancelEdit()
      modifies this
      ensures editingMessageId == None && currentInputValue == ""
      ensures messages == old(messages) && currentSessionId == old(currentSessionId)
      ensures generationTimeout == old(generationTimeout)
      ensures isTyping == old(isTyping) && isGenerating == old(isGenerating)
    {
      editingMessageId := None;
      currentInputValue := "";
    }

    /** handleInputChange: the input's text is mirrored into the state. */
    method HandleInputChange(value: string)
      modifies this
      ensures currentInputValue == value
      ensures messages == old(messages) && currentSessionId == old(currentSessionId)
      ensures generationTimeout == old(generationTimeout) && editingMessageId == old(editingMessageId)
      ensures isTyping == old(isTyping) && isGenerating == old(isGenerating)
    {
      currentInputValue := value;
    }
  }
}
