/** The Sent page (SentMessages.tsx): it fetches the inbox and keeps the
    messages whose sender is the signed-in address. */
module SentMessages {
  import opened JsValues
  import opened MessageFilters

  /** The address used when no public key is loaded. */
  const DefaultAddress := "bob@emsg"

  /** The error shown when the fetch fails without a message. */
  const LoadFailed := "Failed to load sent messages"

  /** `publicKey ? publicKey : 'bob@emsg'`. */
  function UserAddress(publicKey: Option<string>): (r: string)
    ensures TruthyString(publicKey) ==> r == publicKey.value
    ensures !TruthyString(publicKey) ==> r == DefaultAddress
  {
    if TruthyString(publicKey) then publicKey.value else DefaultAddress
  }

  /** The list the page shows for a fetched value: the messages sent from
      `address`, all of them, each as often as in the input and in input order
      (`MessageFilters.FilterAppend`); nothing for a value that is not an
      array; a TypeError when an element is `null`. */
  function SentList(address: string, fetched: Json): (r: Outcome<seq<Json>>)
    ensures !fetched.JArray? ==> r == Returned([])
    ensures r.Threw? <==> fetched.JArray? && JNull in fetched.items
    ensures r.Returned? ==> forall x :: x in r.value ==> Get(x, "from") == Found(JString(address))
    ensures r.Returned? && fetched.JArray? ==>
      forall x :: x in fetched.items && Get(x, "from") == Found(JString(address)) ==> x in r.value
    ensures r.Returned? && fetched.JArray? ==>
      forall x :: multiset(r.value)[x] == if Keeps(FromIs(address), x) then multiset(fetched.items)[x] else 0
  {
    if fetched.JArray? then
      var c := FromIs(address);
      var r := Filter(c, fetched.items);
      if r.Returned? then
        forall x ensures multiset(r.value)[x] == if Keeps(c, x) then multiset(fetched.items)[x] else 0 {
          FilterCount(c, fetched.items, x);
        }
        r
      else r
    else Returned([])
  }

  class SentMessagesPage {
    var messages: seq<Json>
    var loading: bool
    var error: Option<string>

    /** The page mounts with no messages, loading, and no error. */
    constructor ()
      ensures messages == [] && loading && error == None
    {
      messages, loading, error := [], true, None;
    }

    /** The effect: start loading with no error, take the user's address
        from the key store, and once `fetchInbox()` settles either show the
        filtered list or, when the fetch or the filter throws, keep the old
        list and show the error; loading ends on every path. */
    method Load(publicKey: Option<string>, fetched: Settled)
      modifies this
      ensures !loading
      ensures fetched.Resolved? && SentList(UserAddress(publicKey), fetched.value).Returned? ==>
        messages == SentList(UserAddress(publicKey), fetched.value).value && error == None
      ensures fetched.Resolved? && SentList(UserAddress(publicKey), fetched.value).Threw? ==>
        messages == old(messages) && error == Some(SentList(UserAddress(publicKey), fetched.value).message)
      ensures fetched.Rejected? ==>
        messages == old(messages) && error == Some(ErrorText(fetched.message, LoadFailed))
    {
      loading := true;
      error := None;
      var userAddress := UserAddress(publicKey);
      match fetched {
        case Resolved(v) =>
          match SentList(userAddress, v) {
            case Returned(sent) => messages := sent;
            case Threw(m) => error := Some(ErrorText(m, LoadFailed));
          }
        case Rejected(m) =>
          error := Some(ErrorText(m, LoadFailed));
      }
      loading := false;
    }
  }
}
