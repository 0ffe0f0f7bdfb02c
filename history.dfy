/**
 * Model of `src/history.rs`: per-chat message lists.
 *
 * The Rust table maps a chat id to an `Arc<Mutex<Vec<ChatMessage>>>`, a shared
 * handle to that chat's list. Here the handle is a `ChatMessages` object, so
 * `Get` hands out the very object the table holds and a change made through it
 * is seen by the table. The locks are left out: operations run one after the
 * other. Messages are of an opaque type `M`.
 */
module History {

  /** Teloxide's `ChatId`, a signed 64-bit integer. */
  newtype ChatId = x: int | -0x8000_0000_0000_0000 <= x < 0x8000_0000_0000_0000

  /** One chat's list of messages, shared by handle. */
  class ChatMessages<M> {
    var items: seq<M>

    /** `Vec::default()`. */
    constructor ()
      ensures items == []
    {
      items := [];
    }
  }

  /** `History`: the table from chat id to that chat's list. */
  class History<M> {
    var messages: map<ChatId, ChatMessages<M>>

    /** No two chats share a list. */
    ghost predicate Valid()
      reads this
    {
      forall a, b :: a in messages && b in messages && a != b ==> messages[a] != messages[b]
    }

    /** The lists the table holds, as values. */
    ghost function Contents(): map<ChatId, seq<M>>
      reads this, messages.Values
    {
      map id | id in messages :: messages[id].items
    }

    /** `History::default()`: no chat has a list yet. */
    constructor ()
      ensures Valid() && Contents() == map[]
    {
      messages := map[];
    }

    /**
     * `get`: the handle of the chat's list, created empty on first use. A chat
     * that already has a list keeps it unchanged; no other chat is affected.
     */
    method Get(chatId: ChatId) returns (h: ChatMessages<M>)
      requires Valid()
      modifies this
      ensures Valid()
      ensures chatId in messages && h == messages[chatId]
      ensures chatId in old(messages) ==> messages == old(messages)
      ensures chatId !in old(messages) ==> fresh(h) && messages == old(messages)[chatId := h]
      ensures Contents() == if chatId in old(Contents()) then old(Contents())
                            else old(Contents())[chatId := []]
    {
      if chatId !in messages {
        var list := new ChatMessages<M>();
        messages := messages[chatId := list];
      }
      h := messages[chatId];
    }

    /**
     * `clear`: empty the chat's list through its handle, keeping the entry. An
     * unknown chat is ignored. No other chat's list changes.
     */
    method Clear(chatId: ChatId)
      requires Valid()
      modifies messages.Values
      ensures Valid() && messages == old(messages)
      ensures Contents() == if chatId in old(Contents()) then old(Contents())[chatId := []]
                            else old(Contents())
      ensures forall id :: id in messages && id != chatId ==> messages[id].items == old(messages[id].items)
    {
      if chatId in messages {
        var h := messages[chatId];
        h.items := [];
      }
    }
  }

  /**
   * A caller that looks a chat up, clears it, and reads it again through the
   * handle it holds sees an empty list, whatever the chat held before.
   */
  method ClearThenRead<M>(history: History<M>, chatId: ChatId) returns (items: seq<M>)
    requires history.Valid()
    modifies history, history.messages.Values
    ensures history.Valid()
    ensures items == [] && chatId in history.Contents() && history.Contents()[chatId] == []
  {
    var h := history.Get(chatId);
    history.Clear(chatId);
    items := h.items;
  }
}
