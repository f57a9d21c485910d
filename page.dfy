/**
 * app/page.tsx: the home page. It owns whether the chat dialog is shown and
 * what it is opened with, and registers its refresh callback in the
 * `sidebarActions` slot while mounted.
 */
module HomePage {
  import opened Optional
  import opened SidebarPanel

  /** The props the page passes to the chat dialog it renders. */
  datatype ModalProps = ModalProps(isOpen: bool, initialMessage: string, sessionId: Option<string>)

  class Home {
    var showResponseModal: bool
    var userMessage: string
    var currentSessionId: Option<string>
    /** The refresh callbacks invoked so far; each dispatches a DOM event that no listener handles. */
    var refreshes: seq<Callback>

    constructor ()
      ensures !showResponseModal && userMessage == "" && currentSessionId == None && refreshes == []
    {
      showResponseModal := false;
      userMessage := "";
      currentSessionId := None;
      refreshes := [];
    }

    /** The mount effect: this mounting's callback overwrites whatever the slot held. */
    method Mount(actions: SidebarActions, mount: nat)
      modifies actions
      ensures actions.refreshRecentChats == Some(RefreshCallback(mount))
    {
      actions.refreshRecentChats := Some(RefreshCallback(mount));
    }

    /** The effect's cleanup on unmount: the slot is emptied. */
    method Unmount(actions: SidebarActions)
      modifies actions
      ensures actions.refreshRecentChats == None
    {
      actions.refreshRecentChats := None;
    }

    /** handleSendMessage: open the dialog on a new conversation seeded with `message`. */
    method HandleSendMessage(message: string)
      modifies this
      ensures showResponseModal && userMessage == message && currentSessionId == None
      ensures refreshes == old(refreshes)
    {
      userMessage := message;
      currentSessionId := None;
      showResponseModal := true;
    }

    /** handleChatSelect: open the dialog on the stored session `sessionId`, seeded with `initialMessage`. */
    method HandleChatSelect(sessionId: string, initialMessage: string)
      modifies this
      ensures showResponseModal && userMessage == initialMessage && currentSessionId == Some(sessionId)
      ensures refreshes == old(refreshes)
    {
      currentSessionId := Some(sessionId);
      userMessage := initialMessage;
      showResponseModal := true;
    }

    /** handleCloseModal: hide the dialog and invoke the registered refresh callback, if there is one. */
    method HandleCloseModal(actions: SidebarActions)
      modifies this
      ensures !showResponseModal
      ensures userMessage == old(userMessage) && currentSessionId == old(currentSessionId)
      ensures refreshes == old(refreshes) +
        match actions.refreshRecentChats
        case Some(callback) => [callback]
        case None => []
    {
      showResponseModal := false;
      if actions.refreshRecentChats.Some? {
        refreshes := refreshes + [actions.refreshRecentChats.value];
      }
    }

    /** The dialog is rendered only while shown, open, with the page's seed message and session id. */
    function RenderedModal(): (props: Option<ModalProps>)
      reads this
      ensures props.Some? <==> showResponseModal
      ensures props.Some? ==> props.value.isOpen
      ensures props.Some? ==> props.value.initialMessage == userMessage && props.value.sessionId == currentSessionId
    {
      if showResponseModal then Some(ModalProps(showResponseModal, userMessage, currentSessionId)) else None
    }
  }
}
