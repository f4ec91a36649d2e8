/** The messages page: a searchable, role-filtered list of conversations,
    the open conversation, its message thread and the draft box. */
module Messages {
  import opened Util
  import opened Text

  datatype Sender = You | Them

  datatype User = User(id: string, name: string, role: string)

  datatype LastMessage = LastMessage(content: string, timestamp: string, read: bool, sender: Sender)

  datatype Conversation = Conversation(id: string, user: User, lastMessage: LastMessage, unread: int)

  datatype Message = Message(id: string, content: string, timestamp: string, sender: Sender)

  /** The search box matches the other user's name; the role filter is
      "all" or a role. */
  predicate Listed(c: Conversation, query: string, filter: string)
  {
    Matches(c.user.name, query) && (filter == "all" || c.user.role == filter)
  }

  /** `filteredConversations` */
  function FilteredConversations(conversations: seq<Conversation>, query: string, filter: string): (r: seq<Conversation>)
    ensures forall c :: c in r <==> c in conversations && Listed(c, query, filter)
    ensures IsSubsequence(r, conversations)
  {
    var p := (c: Conversation) => Listed(c, query, filter);
    FilterIsSubsequence(conversations, p);
    Filter(conversations, p)
  }

  /** An empty search box with the "all" filter lists every conversation. */
  lemma EmptySearchListsAll(conversations: seq<Conversation>)
    ensures FilteredConversations(conversations, "", "all") == conversations
  {
    forall c | c in conversations ensures Listed(c, "", "all") {
      EmptyQueryMatches(c.user.name);
    }
    FilterAllKept(conversations, (c: Conversation) => Listed(c, "", "all"));
  }

  /** The list after opening conversation `id`: its unread count is zeroed,
      every other field and conversation stays. */
  function ClearUnread(conversations: seq<Conversation>, id: string): (r: seq<Conversation>)
    ensures |r| == |conversations|
    ensures forall i :: 0 <= i < |r| ==> r[i] == conversations[i].(unread := r[i].unread)
    ensures forall i :: 0 <= i < |r| ==> r[i].unread == (if conversations[i].id == id then 0 else conversations[i].unread)
  {
    seq(|conversations|, i requires 0 <= i < |conversations| =>
      if conversations[i].id == id then conversations[i].(unread := 0) else conversations[i])
  }

  /** The list after sending into conversation `id`: its last message is
      replaced, its unread count and every other conversation stay. */
  function WithLastMessage(conversations: seq<Conversation>, id: string, last: LastMessage): (r: seq<Conversation>)
    ensures |r| == |conversations|
    ensures forall i :: 0 <= i < |r| ==> r[i] == conversations[i].(lastMessage := r[i].lastMessage)
    ensures forall i :: 0 <= i < |r| ==>
      r[i].lastMessage == (if conversations[i].id == id then last else conversations[i].lastMessage)
  {
    seq(|conversations|, i requires 0 <= i < |conversations| =>
      if conversations[i].id == id then conversations[i].(lastMessage := last) else conversations[i])
  }

  /** Opening a conversation twice clears no more than opening it once. */
  lemma ClearUnreadIdempotent(conversations: seq<Conversation>, id: string)
    ensures ClearUnread(ClearUnread(conversations, id), id) == ClearUnread(conversations, id)
  {
  }

  /** Neither update touches the search or role fields, so the filter keeps
      the same positions before and after. */
  lemma UpdatesKeepListing(conversations: seq<Conversation>, id: string, last: LastMessage, query: string, filter: string)
    ensures forall i :: 0 <= i < |conversations| ==>
      (Listed(ClearUnread(conversations, id)[i], query, filter) <==> Listed(conversations[i], query, filter))
    ensures forall i :: 0 <= i < |conversations| ==>
      (Listed(WithLastMessage(conversations, id, last)[i], query, filter) <==> Listed(conversations[i], query, filter))
  {
  }

  /** The page's state. `selectedConversation` is the conversation object
      that was clicked, not a live view into `conversations`. */
  class MessagesPage {
    var searchQuery: string
    var filter: string
    var selectedConversation: Conversation
    var newMessage: string
    var conversations: seq<Conversation>
    var messages: seq<Message>

    constructor (conversations: seq<Conversation>, messages: seq<Message>)
      requires |conversations| > 0
      ensures searchQuery == "" && filter == "all" && newMessage == ""
      ensures selectedConversation == conversations[0]
      ensures this.conversations == conversations && this.messages == messages
    {
      searchQuery := "";
      filter := "all";
      selectedConversation := conversations[0];
      newMessage := "";
      this.conversations := conversations;
      this.messages := messages;
    }

    /** `selectConversation`: zero the unread count of that conversation
        when it has unread messages, then make it the selected one. */
    method SelectConversation(conversation: Conversation)
      modifies this`conversations, this`selectedConversation
      ensures selectedConversation == conversation
      ensures conversation.unread > 0 ==> conversations == ClearUnread(old(conversations), conversation.id)
      ensures conversation.unread <= 0 ==> conversations == old(conversations)
    {
      if conversation.unread > 0 {
        conversations := ClearUnread(conversations, conversation.id);
      }
      selectedConversation := conversation;
    }

    /** `sendMessage` without the simulated reply. `msgId`, `sentAt` and
        `lastAt` stand for `msg-${Date.now()}` and the two
        `new Date().toISOString()` calls. A blank draft changes nothing. */
    method SendMessage(msgId: string, sentAt: string, lastAt: string)
      modifies this`messages, this`conversations, this`newMessage
      ensures IsBlank(old(newMessage)) ==>
        messages == old(messages) && conversations == old(conversations) && newMessage == old(newMessage)
      ensures !IsBlank(old(newMessage)) ==>
        messages == old(messages) + [Message(msgId, old(newMessage), sentAt, You)]
      ensures !IsBlank(old(newMessage)) ==>
        conversations == WithLastMessage(old(conversations), selectedConversation.id,
                                         LastMessage(old(newMessage), lastAt, true, You))
      ensures !IsBlank(old(newMessage)) ==> newMessage == ""
    {
      if IsBlank(newMessage) {
        return;
      }
      var newMsg := Message(msgId, newMessage, sentAt, You);
      messages := messages + [newMsg];
      conversations := WithLastMessage(conversations, selectedConversation.id,
                                       LastMessage(newMessage, lastAt, true, You));
      newMessage := "";
    }
  }
}
