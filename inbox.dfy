/** The Inbox page (Inbox.tsx): a list replaced by each inbox fetch and
    extended at the front by `new_message` events from the real-time channel. */
module Inbox {
  import opened JsValues

  /** The error shown when the fetch fails without a message. */
  const LoadFailed := "Failed to load messages"

  /** `event.type === 'new_message' && event.payload`, for an event that is
      not `null`. */
  predicate IsNewMessage(event: Json): (r: bool)
    ensures r <==>
      && event.JObject?
      && "type" in event.fields && event.fields["type"] == JString("new_message")
      && "payload" in event.fields && Truthy(event.fields["payload"])
  {
    Get(event, "type") == Found(JString("new_message")) && TruthyLookup(Get(event, "payload"))
  }

  /** The `handleWsMessage` callback applied to the current list: a
      `new_message` event with a truthy payload puts that payload in front of
      every earlier message, in their earlier order; any other event leaves
      the list as it is; a `null` event throws on reading `type`. */
  function OnWsEvent(prev: seq<Json>, event: Json): (r: Outcome<seq<Json>>)
    ensures r.Threw? <==> event == JNull
    ensures r.Returned? && IsNewMessage(event) ==>
      |r.value| == |prev| + 1 && r.value[0] == event.fields["payload"] && r.value[1..] == prev
    ensures r.Returned? && !IsNewMessage(event) ==> r.value == prev
  {
    if event == JNull then Threw(NullReadMessage("type"))
    else if IsNewMessage(event) then Returned([Get(event, "payload").value] + prev)
    else Returned(prev)
  }

  class InboxPage {
    var messages: seq<Json>
    var loading: bool
    var error: Option<string>

    /** The page mounts with no messages, loading, and no error. */
    constructor ()
      ensures messages == [] && loading && error == None
    {
      messages, loading, error := [], true, None;
    }

    /** `handleWsMessage(event)`, the callback the page hands to the
        real-time channel. `threw` is the TypeError it raises on a `null`
        event, which the channel's `catch {}` swallows. */
    method HandleWsMessage(event: Json) returns (threw: bool)
      modifies this`messages
      ensures threw <==> event == JNull
      ensures !threw ==> messages == OnWsEvent(old(messages), event).value
      ensures threw ==> messages == old(messages)
    {
      match OnWsEvent(messages, event) {
        case Returned(next) =>
          messages := next;
          threw := false;
        case Threw(_) =>
          threw := true;
      }
    }

    /** The effect's start: loading, no error; the list is kept meanwhile. */
    method StartFetch()
      modifies this`loading, this`error
      ensures loading && error == None
    {
      loading := true;
      error := None;
    }

    /** `fetchInbox()` settles: a fulfilled fetch replaces the whole list,
        events prepended since the fetch began included, and a value that is
        not an array gives the empty list; a rejected fetch keeps the list
        and shows the error. Loading is over either way. */
    method FetchSettled(fetched: Settled)
      modifies this`loading, this`error, this`messages
      ensures !loading
      ensures fetched.Resolved? ==>
        messages == ArrayOrEmpty(fetched.value) && error == old(error)
      ensures fetched.Rejected? ==>
        messages == old(messages) && error == Some(ErrorText(fetched.message, LoadFailed))
    {
      match fetched {
        case Resolved(msgs) =>
          messages := ArrayOrEmpty(msgs);
        case Rejected(m) =>
          error := Some(ErrorText(m, LoadFailed));
      }
      loading := false;
    }
  }
}
