/** The message list of the Group Chat page (GroupChat.tsx): it asks the
    messaging engine for the user's messages and keeps those of the current
    group. Sending to the group is not part of this model. */
module GroupChat {
  import opened JsValues
  import opened MessageFilters

  /** The group selected when the page mounts. */
  const InitialGroup := "team-alpha"

  /** The error thrown when no public key is loaded. */
  const NoKeyError := "No user key loaded"

  /** The error shown when the engine fails without a message. */
  const LoadFailed := "Failed to load group messages"

  /** The list the page shows for a fetched value: the elements whose `group`
      is the string `groupId`, all of them, each as often as in the input and
      in input order; nothing for a value that is not an array; a TypeError
      when an element is `null`. */
  function GroupList(groupId: string, fetched: Json): (r: Outcome<seq<Json>>)
    ensures !fetched.JArray? ==> r == Returned([])
    ensures r.Threw? <==> fetched.JArray? && JNull in fetched.items
    ensures r.Returned? ==> forall x :: x in r.value ==> Get(x, "group") == Found(JString(groupId))
    ensures r.Returned? && fetched.JArray? ==>
      forall x :: x in fetched.items && Get(x, "group") == Found(JString(groupId)) ==> x in r.value
    ensures r.Returned? && fetched.JArray? ==>
      forall x :: multiset(r.value)[x] == if Keeps(InGroup(groupId), x) then multiset(fetched.items)[x] else 0
  {
    if fetched.JArray? then
      var c := InGroup(groupId);
      var r := Filter(c, fetched.items);
      if r.Returned? then
        forall x ensures multiset(r.value)[x] == if Keeps(c, x) then multiset(fetched.items)[x] else 0 {
          FilterCount(c, fetched.items, x);
        }
        r
      else r
    else Returned([])
  }

  class GroupChatPage {
    var groupId: string
    var messages: seq<Json>
    var fetching: bool
    var error: Option<string>

    /** The page mounts on the default group, fetching, with no messages and
        no error. */
    constructor ()
      ensures groupId == InitialGroup && messages == [] && fetching && error == None
    {
      groupId, messages, fetching, error := InitialGroup, [], true, None;
    }

    /** The group id input: the next fetch filters by the new id. */
    method SetGroupId(g: string)
      modifies this`groupId
      ensures groupId == g
    {
      groupId := g;
    }

    /** `fetchGroupMessages()` with the key store's public key and the
        engine's `getMessages`. Without a key the engine is not asked
        (`queried` is None) and the error is "No user key loaded"; with one
        the engine is asked for exactly that key and the list becomes the
        group's messages, or the old list stays and the error is shown.
        Fetching is over on every path. */
    method FetchGroupMessages(publicKey: Option<string>, getMessages: string -> Settled)
      returns (queried: Option<string>)
      modifies this`fetching, this`error, this`messages
      ensures !fetching
      ensures !TruthyString(publicKey) ==>
        queried == None && error == Some(NoKeyError) && messages == old(messages)
      ensures TruthyString(publicKey) ==> queried == publicKey
      ensures TruthyString(publicKey) && getMessages(publicKey.value).Resolved? ==>
        var r := GroupList(groupId, getMessages(publicKey.value).value);
        (r.Returned? ==> messages == r.value && error == None)
        && (r.Threw? ==> messages == old(messages) && error == Some(r.message))
      ensures TruthyString(publicKey) && getMessages(publicKey.value).Rejected? ==>
        messages == old(messages) && error == Some(ErrorText(getMessages(publicKey.value).message, LoadFailed))
    {
      fetching := true;
      error := None;
      if !TruthyString(publicKey) {
        queried := None;
        error := Some(ErrorText(NoKeyError, LoadFailed));
      } else {
        queried := publicKey;
        match getMessages(publicKey.value) {
          case Resolved(allMsgs) =>
            match GroupList(groupId, allMsgs) {
              case Returned(groupMsgs) => messages := groupMsgs;
              case Threw(m) => error := Some(ErrorText(m, LoadFailed));
            }
          case Rejected(m) =>
            error := Some(ErrorText(m, LoadFailed));
        }
      }
      fetching := false;
    }
  }
}
