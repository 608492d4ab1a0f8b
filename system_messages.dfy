/** The System page (SystemMessages.tsx): it fetches the inbox and keeps the
    messages flagged as system notices. It computes the user's address as the
    Sent page does but never uses it. */
module SystemMessages {
  import opened JsValues
  import opened MessageFilters
  import SentMessages

  /** The error shown when the fetch fails without a message. */
  const LoadFailed := "Failed to load system messages"

  /** The list the page shows for a fetched value: the elements whose
      `system` property is truthy, all of them, each as often as in the
      input and in input order; nothing for a value that is not an array;
      a TypeError when an element is `null`. No key or address takes part. */
  function SystemList(fetched: Json): (r: Outcome<seq<Json>>)
    ensures !fetched.JArray? ==> r == Returned([])
    ensures r.Threw? <==> fetched.JArray? && JNull in fetched.items
    ensures r.Returned? ==> forall x :: x in r.value ==> TruthyLookup(Get(x, "system"))
    ensures r.Returned? && fetched.JArray? ==>
      forall x :: x in fetched.items && TruthyLookup(Get(x, "system")) ==> x in r.value
    ensures r.Returned? && fetched.JArray? ==>
      forall x :: multiset(r.value)[x] == if Keeps(SystemFlag, x) then multiset(fetched.items)[x] else 0
  {
    if fetched.JArray? then
      var r := Filter(SystemFlag, fetched.items);
      if r.Returned? then
        forall x ensures multiset(r.value)[x] == if Keeps(SystemFlag, x) then multiset(fetched.items)[x] else 0 {
          FilterCount(SystemFlag, fetched.items, x);
        }
        r
      else r
    else Returned([])
  }

  class SystemMessagesPage {
    var messages: seq<Json>
    var loading: bool
    var error: Option<string>

    /** The page mounts with no messages, loading, and no error. */
    constructor ()
      ensures messages == [] && loading && error == None
    {
      messages, loading, error := [], true, None;
    }

    /** The effect: start loading with no error, and once `fetchInbox()`
        settles either show the system messages or, when the fetch or the
        filter throws, keep the old list and show the error; loading ends on
        every path. The public key changes nothing in the outcome. */
    method Load(publicKey: Option<string>, fetched: Settled)
      modifies this
      ensures !loading
      ensures fetched.Resolved? && SystemList(fetched.value).Returned? ==>
        messages == SystemList(fetched.value).value && error == None
      ensures fetched.Resolved? && SystemList(fetched.value).Threw? ==>
        messages == old(messages) && error == Some(SystemList(fetched.value).message)
      ensures fetched.Rejected? ==>
        messages == old(messages) && error == Some(ErrorText(fetched.message, LoadFailed))
    {
      loading := true;
      error := None;
      var userAddress := SentMessages.UserAddress(publicKey);
      match fetched {
        case Resolved(v) =>
          match SystemList(v) {
            case Returned(systemMsgs) => messages := systemMsgs;
            case Threw(m) => error := Some(ErrorText(m, LoadFailed));
          }
        case Rejected(m) =>
          error := Some(ErrorText(m, LoadFailed));
      }
      loading := false;
    }
  }
}
