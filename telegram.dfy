/**
 * The Telegram client: decoding of a `getUpdates` answer, the reply
 * keyboard, and the outgoing message queue. HTTP requests become values; a
 * sent message is an entry appended to `outbox`.
 */
module Telegram {
  import opened Wrappers
  import opened Outbound

  /** A message inside an update; `text` is absent for stickers, photos and the like. */
  datatype RawMessage = RawMessage(text: Option<string>, chatId: int, fromId: int)

  /** One element of `result`; `message` is absent for edits, channel posts and the like. */
  datatype RawUpdate = RawUpdate(updateId: int, message: Option<RawMessage>)

  /** The decoded JSON answer of `getUpdates`; `result` is absent on an error answer. */
  datatype Response = Response(result: Option<seq<RawUpdate>>)

  /** What `handle_updates` extracts from one update. */
  datatype Update = Update(text: string, chat: int, userId: int)

  /** An update yields a text message exactly when it has a message with text. */
  predicate HasText(u: RawUpdate) {
    u.message.Some? && u.message.value.text.Some?
  }

  function Decode(u: RawUpdate): Update
    requires HasText(u)
  {
    Update(u.message.value.text.value, u.message.value.chatId, u.message.value.fromId)
  }

  /** `get_last_update_id`: the largest update id of a non-empty batch. */
  method GetLastUpdateId(updates: seq<RawUpdate>) returns (id: int)
    requires |updates| > 0
    ensures exists i :: 0 <= i < |updates| && updates[i].updateId == id
    ensures forall i :: 0 <= i < |updates| ==> updates[i].updateId <= id
  {
    id := updates[0].updateId;
    var i := 1;
    while i < |updates|
      invariant 1 <= i <= |updates|
      invariant exists j :: 0 <= j < i && updates[j].updateId == id
      invariant forall j :: 0 <= j < i ==> updates[j].updateId <= id
    {
      if updates[i].updateId > id {
        id := updates[i].updateId;
      }
      i := i + 1;
    }
  }

  /**
   * `handle_updates`: the text, chat and sender of every update, in order.
   * One update without a message text raises KeyError, so the whole batch
   * yields None.
   */
  method HandleUpdates(updates: seq<RawUpdate>) returns (r: Option<seq<Update>>)
    ensures r.None? <==> exists i :: 0 <= i < |updates| && !HasText(updates[i])
    ensures r.Some? ==> |r.value| == |updates|
    ensures r.Some? ==> forall i :: 0 <= i < |updates| ==> HasText(updates[i]) && r.value[i] == Decode(updates[i])
  {
    var list: seq<Update> := [];
    var i := 0;
    while i < |updates|
      invariant 0 <= i <= |updates|
      invariant |list| == i
      invariant forall j :: 0 <= j < i ==> HasText(updates[j]) && list[j] == Decode(updates[j])
    {
      var u := updates[i];
      if u.message.None? || u.message.value.text.None? {
        return None;
      }
      list := list + [Update(u.message.value.text.value, u.message.value.chatId, u.message.value.fromId)];
      i := i + 1;
    }
    r := Some(list);
  }

  /**
   * `get_last_chat_id_and_text`: text and chat of the last update; None
   * where Python raises (an empty batch, or no message text).
   */
  function GetLastChatIdAndText(updates: seq<RawUpdate>): (r: Option<(string, int)>)
    ensures r.Some? <==> |updates| > 0 && HasText(updates[|updates| - 1])
    ensures r.Some? ==> r.value.0 == updates[|updates| - 1].message.value.text.value
    ensures r.Some? ==> r.value.1 == updates[|updates| - 1].message.value.chatId
  {
    if |updates| == 0 then None
    else
      var last := updates[|updates| - 1];
      if last.message.Some? && last.message.value.text.Some? then
        Some((last.message.value.text.value, last.message.value.chatId))
      else None
  }

  /** `build_keyboard`: one button per row, in order, as a one-time keyboard. */
  function BuildKeyboard(items: seq<string>): (k: Keyboard)
    ensures |k.rows| == |items| && k.oneTimeKeyboard
    ensures forall i :: 0 <= i < |items| ==> k.rows[i] == [items[i]]
  {
    Keyboard(seq(|items|, i requires 0 <= i < |items| => [items[i]]), true)
  }

  function Flatten(rows: seq<seq<string>>): seq<string> {
    if rows == [] then [] else Flatten(rows[..|rows| - 1]) + rows[|rows| - 1]
  }

  /** Reading the buttons row by row gives back the items. */
  lemma {:induction false} BuildKeyboardFlatten(items: seq<string>)
    ensures Flatten(BuildKeyboard(items).rows) == items
  {
    if items != [] {
      var init := items[..|items| - 1];
      BuildKeyboardFlatten(init);
      assert BuildKeyboard(items).rows[..|items| - 1] == BuildKeyboard(init).rows;
    }
  }

  /** `get_updates`: the offset parameter is sent only when it is set and non-zero. */
  function RequestOffset(lastUpdateId: Option<int>): (r: Option<int>)
    ensures r.Some? <==> lastUpdateId.Some? && lastUpdateId.value != 0
    ensures r.Some? ==> r == lastUpdateId
  {
    match lastUpdateId
    case Some(n) => if n != 0 then Some(n) else None
    case None => None
  }

  /** The messages a drain of queue `q` sends to `chat`, in queue order. */
  function Deliveries(q: seq<string>, chat: int): (r: seq<Outgoing>)
    ensures |r| == |q|
    ensures forall i :: 0 <= i < |q| ==> r[i] == Outgoing(Text(q[i]), chat, None)
  {
    if q == [] then [] else Deliveries(q[..|q| - 1], chat) + [Outgoing(Text(q[|q| - 1]), chat, None)]
  }

  /** Draining one more message appends its delivery. */
  lemma DeliveriesSnoc(q: seq<string>, m: string, chat: int)
    ensures Deliveries(q + [m], chat) == Deliveries(q, chat) + [Outgoing(Text(m), chat, None)]
  {
    assert (q + [m])[..|q|] == q;
  }

  class TelegramInterface {
    /** The authorized chat; messages are only drained when it is set. */
    var authId: Option<int>
    /** `m_queue`: free text waiting to be delivered. */
    var mQueue: seq<string>
    /** Every `send_message` so far, oldest first. */
    var outbox: seq<Outgoing>

    constructor ()
      ensures authId.None? && mQueue == [] && outbox == []
    {
      authId := None;
      mQueue := [];
      outbox := [];
    }

    /** `send_message`. */
    method SendMessage(body: Body, chat: int, keyboard: Option<Keyboard>)
      modifies this
      ensures outbox == old(outbox) + [Outgoing(body, chat, keyboard)]
      ensures authId == old(authId) && mQueue == old(mQueue)
    {
      outbox := outbox + [Outgoing(body, chat, keyboard)];
    }

    /**
     * `message_queue`: with an authorized chat, sends the queue to it front
     * first and leaves the queue empty; without one, does nothing.
     */
    method MessageQueue()
      modifies this
      ensures old(authId).Some? ==> outbox == old(outbox) + Deliveries(old(mQueue), old(authId).value) && mQueue == []
      ensures old(authId).None? ==> outbox == old(outbox) && mQueue == old(mQueue)
      ensures authId == old(authId)
    {
      if authId.Some? {
        ghost var sent: seq<string> := [];
        while |mQueue| > 0
          invariant authId == old(authId)
          invariant sent + mQueue == old(mQueue)
          invariant outbox == old(outbox) + Deliveries(sent, authId.value)
          decreases |mQueue|
        {
          var m := mQueue[0];
          SendMessage(Text(m), authId.value, None);
          DeliveriesSnoc(sent, m, authId.value);
          assert sent + [m] + mQueue[1..] == old(mQueue) by {
            assert mQueue == [m] + mQueue[1..];
          }
          sent := sent + [m];
          mQueue := mQueue[1..];
        }
        assert sent == old(mQueue);
      }
    }
  }
}
