/**
 * Whole conversations driven through the handlers, proved from their
 * contracts alone.
 */
module Scenarios {
  import opened Optional
  import opened Text
  import opened Session
  import opened Browser
  import opened Utils
  import opened Modal
  import opened HomePage

  /**
   * A new conversation from the home page: the dialog opens on the seed, the
   * session is stored holding the seed alone, and the first reply is shown
   * but not stored, because its timer captured the dialog's session id from
   * before the session existed.
   */
  method NewConversation(ls: LocalStorage, seed: string, now: nat, suffix: string,
                         msgId: string, reply: string, replyId: string)
      returns (modal: ResponseModal)
    requires ls.Valid() && seed != ""
    modifies ls
    ensures modal.messages == [Message(msgId, User, seed, now), Message(replyId, Assistant, reply, now)]
    ensures GetFromLocalStorage(ls, GenerateSessionId(now, suffix))
      == Some(Record([Message(msgId, User, seed, now)], Some(now), None))
  {
    var page := new Home();
    page.HandleSendMessage(seed);
    var props := page.RenderedModal();
    modal := new ResponseModal();
    modal.Open(props.value.isOpen, props.value.sessionId, props.value.initialMessage, ls, now, suffix, msgId);
    modal.CompleteGeneration(reply, replyId, now, ls);
  }

  /** "Hello" sent on a fresh dialog and answered. */
  method Greet(ls: LocalStorage, now: nat, suffix: string, msgId: string, reply: string, replyId: string)
      returns (modal: ResponseModal)
    requires ls.Valid()
    modifies ls
    ensures fresh(modal) && modal.Valid() && ls.Valid()
    ensures modal.messages == [Message(msgId, User, "Hello", now), Message(replyId, Assistant, reply, now)]
    ensures modal.editingMessageId == None && modal.generationTimeout == None
  {
    modal := new ResponseModal();
    modal.Open(true, None, "Hello", ls, now, suffix, msgId);
    modal.CompleteGeneration(reply, replyId, now, ls);
  }

  /** The answered "Hello" edited to "Hi there" through the send handler. */
  method ReviseToHiThere(modal: ResponseModal, ls: LocalStorage, now: nat, msgId: string, reply: string, replyId: string)
    requires modal.Valid() && ls.Valid() && msgId != ""
    requires modal.messages == [Message(msgId, User, "Hello", now), Message(replyId, Assistant, reply, now)]
    modifies modal, ls
    ensures modal.Valid() && ls.Valid()
    ensures modal.messages == [Message(msgId, User, "Hi there", now)]
    ensures modal.generationTimeout.Some?
  {
    ghost var ms := modal.messages;
    assert IndexOfId(ms, msgId) == Some(0);
    modal.HandleEditMessage(msgId);
    BlankIffAllWhitespace("Hi there");
    assert !IsWhitespace("Hi there"[0]);
    EditedToFirst(ms, "Hi there");
    assert EditOutcome(ms, modal.editingMessageId, "Hi there") == Some([Message(msgId, User, "Hi there", now)]);
    modal.HandleSendMessage("Hi there", msgId, now, ls);
  }

  /**
   * "Hello", a reply, then the question edited to "Hi there": the old reply
   * is cut away, and the next reply answers the edited question.
   */
  method EditFirstQuestion(ls: LocalStorage, now: nat, suffix: string, msgId: string,
                           reply: string, replyId: string, newReply: string, newReplyId: string)
      returns (modal: ResponseModal)
    requires ls.Valid() && msgId != ""
    modifies ls
    ensures modal.messages == [Message(msgId, User, "Hi there", now), Message(newReplyId, Assistant, newReply, now)]
  {
    modal := Greet(ls, now, suffix, msgId, reply, replyId);
    ReviseToHiThere(modal, ls, now, msgId, reply, replyId);
    modal.CompleteGeneration(newReply, newReplyId, now, ls);
  }

  /** Editing the first of a question and its reply keeps the edited question alone. */
  lemma EditedToFirst(ms: seq<Message>, text: string)
    requires |ms| == 2 && ms[1].role == Assistant
    ensures EditTruncate(ms, 0, text) == [ms[0].(content := text)]
  {
  }
}
