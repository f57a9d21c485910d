/**
 * app/components/sidebar.tsx: the recent-chats list beside the page, and the
 * module-level `sidebarActions` slot through which the page's refresh
 * callback is reached.
 */
module SidebarPanel {
  import opened Optional
  import opened Session
  import opened Browser
  import opened Utils

  /** A refresh closure registered by the page; `mount` tells one mounting's closure from another's. */
  datatype Callback = RefreshCallback(mount: nat)

  /** `sidebarActions`: one slot, holding a refresh callback or `null`. */
  class SidebarActions {
    var refreshRecentChats: Option<Callback>

    constructor ()
      ensures refreshRecentChats == None
    {
      refreshRecentChats := None;
    }
  }

  /** The text shown for a recent chat: at most 25 characters of it, then `...` if it was longer. */
  function Label(lastMessage: string): (shown: string)
    ensures |shown| <= 28
    ensures |lastMessage| <= 25 ==> shown == lastMessage
    ensures |lastMessage| > 25 ==> |shown| == 28 && shown[..25] == lastMessage[..25] && shown[25..] == "..."
  {
    (if |lastMessage| <= 25 then lastMessage else lastMessage[..25])
      + (if |lastMessage| > 25 then "..." else "")
  }

  /** `chats.filter(chat => chat.id !== id)` */
  function WithoutId(chats: seq<SessionEntry>, id: string): (r: seq<SessionEntry>)
    ensures forall c :: c in r <==> c in chats && c.id != id
    ensures |r| <= |chats|
  {
    if chats == [] then []
    else (if chats[0].id != id then [chats[0]] else []) + WithoutId(chats[1..], id)
  }

  /** Filtering keeps the order of what it keeps: it works piece by piece. */
  lemma {:induction false} WithoutIdSplits(a: seq<SessionEntry>, b: seq<SessionEntry>, id: string)
    ensures WithoutId(a + b, id) == WithoutId(a, id) + WithoutId(b, id)
  {
    if a != [] {
      assert (a + b)[1..] == a[1..] + b;
      WithoutIdSplits(a[1..], b, id);
    } else {
      assert a + b == b;
    }
  }

  /** Deleting an id no entry has leaves the list as it was. */
  lemma {:induction false} WithoutAbsentId(chats: seq<SessionEntry>, id: string)
    requires forall i :: 0 <= i < |chats| ==> chats[i].id != id
    ensures WithoutId(chats, id) == chats
  {
    if chats != [] {
      WithoutAbsentId(chats[1..], id);
    }
  }

  /** Position `i` holds the first user message of `ms`. */
  predicate IsFirstUser(ms: seq<Message>, i: int) {
    0 <= i < |ms| && ms[i].role == User && forall j :: 0 <= j < i ==> ms[j].role != User
  }

  class Sidebar {
    /** Whether the page passed an `onChatSelect` callback. */
    const hasOnChatSelect: bool
    var recentChats: seq<SessionEntry>

    /** Mounting: the list starts empty and the mount effect refreshes it from storage. */
    constructor (hasOnChatSelect: bool, ls: LocalStorage?)
      requires ls != null ==> ls.Valid()
      ensures this.hasOnChatSelect == hasOnChatSelect
      ensures recentChats == SessionIndex(ls)
    {
      this.hasOnChatSelect := hasOnChatSelect;
      recentChats := [];
      new;
      RefreshRecentChats(ls);
    }

    /** refreshRecentChats: the list becomes what getAllSessions returns. */
    method RefreshRecentChats(ls: LocalStorage?)
      requires ls != null ==> ls.Valid()
      modifies this
      ensures recentChats == SessionIndex(ls)
    {
      var sessions := GetAllSessions(ls);
      recentChats := sessions;
    }

    /**
     * handleChatClick: the call `onChatSelect(chatId, content)` it makes, if
     * any. It makes one exactly when a callback was supplied and the stored
     * session has a user message; `content` is that of the first one.
     */
    method HandleChatClick(chatId: string, ls: LocalStorage?) returns (selection: Option<(string, string)>)
      ensures selection.Some? <==>
        && hasOnChatSelect && ls != null && chatId in ls.items
        && exists i :: 0 <= i < |ls.items[chatId].messages| && ls.items[chatId].messages[i].role == User
      ensures selection.Some? ==>
        && selection.value.0 == chatId
        && var ms := ls.items[chatId].messages;
           exists i :: IsFirstUser(ms, i) && ms[i].content == selection.value.1
    {
      selection := None;
      if hasOnChatSelect {
        var session := GetFromLocalStorage(ls, chatId);
        if session.Some? && |session.value.messages| > 0 {
          var ms := session.value.messages;
          var firstUserMessage := FindIndex(ms, (m: Message) => m.role == User, 0);
          if firstUserMessage.Some? {
            selection := Some((chatId, ms[firstUserMessage.value].content));
            assert IsFirstUser(ms, firstUserMessage.value);
          }
        }
      }
    }

    /**
     * handleDeleteChat: with a window, remove the key from storage and the
     * entries with that id from the list; without one, nothing happens.
     */
    method HandleDeleteChat(chatId: string, ls: LocalStorage?)
      requires ls != null ==> ls.Valid()
      modifies this, ls
      ensures ls != null ==> ls.Valid()
      ensures ls == null ==> recentChats == old(recentChats)
      ensures ls != null ==> ls.items == old(ls.items) - {chatId}
      ensures ls != null ==> recentChats == WithoutId(old(recentChats), chatId)
    {
      if ls != null {
        ls.RemoveItem(chatId);
        recentChats := WithoutId(recentChats, chatId);
      }
    }
  }
}
