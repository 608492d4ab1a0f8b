# emsg client UI: real-time channel, stores and message pages in Dafny

This project models the client-side core of the emsg web client:

- **The real-time event channel** of `useEmsgWebSocket`, as the class
  `EmsgWebSocket.Hook`. The hook's `connect`, the four socket handlers, the
  effect cleanup, a change of `url` and `send` are methods. They are driven
  by discrete events in any order the transport chooses.
  - Each run of the effect is an `EffectRun` holding its own `url` and its
    own `reconnectTimeout` variable.
  - Each socket remembers the run whose closures are its handlers, so a
    handler that fires late acts for the run that created it.
  - The invariant `Hook.Valid` says:
    - `wsRef.current` is always the newest socket;
    - a pending timer is the one its run's `reconnectTimeout` holds;
    - a run never has two live sockets, nor a live socket and a pending
      reconnect at once.
  - Scenario methods prove concrete event sequences: a close after unmount
    reconnects, and a late close after a url change reconnects to the old
    url and leaks the open socket.
- **The three zustand stores**, each a class whose actions overwrite its fields:
  - the message list (`MessageStore.Store`);
  - the key pair (`KeyStore.Store`);
  - the signed-in user (`AuthStore.Store`).
- **Key text handling** (`KeyFormat`):
  - `String.prototype.trim` over the ECMAScript whitespace set;
  - the `/^[0-9a-fA-F]{64}$/` check;
  - `toHex` built from `toString(16)` and `padStart`;
  - the hex decoding of `Buffer.from(s, 'hex')`.
  It proves the round trip between the encoder and the decoder, and that
  trimming is idempotent.
- **The key-pair and login pages** (`KeyPair`, `Login`). Each is a pure
  function giving the outcome of the handler, and a class method that
  stores it in the key store and the page's error, loading and route state.
- **The list rules of the message pages**:
  - the Inbox `new_message` prepend and the replacement of the list by a
    fetch (`Inbox`);
  - the sender, system-flag and group filters of the Sent, System and Group
    pages (`MessageFilters`, `SentMessages`, `SystemMessages`, `GroupChat`),
    including the `bob@emsg` fallback address and the Group page's key
    guard.

Fetched and pushed values are JSON values (`JsValues.Json`), and property
reads follow JavaScript. Reading a property of a `null` element throws a
TypeError, so a `filter` over a list that contains `null` throws. The error
then shown is that TypeError's message, because `e.message` is not empty.

The hook takes only `url` and `onMessage`. It has no authentication token,
no whitelist of event types and no error callback. Every value `JSON.parse`
accepts is delivered, with no check of a `type` field.

## Model

| member | source | states |
|---|---|---|
| EmsgWebSocket.Hook.constructor | src/hooks/useEmsgWebSocket.ts:12-13 | status starts as `connecting` with no socket, no timer and nothing delivered; the invariant holds |
| EmsgWebSocket.Hook.Connect | src/hooks/useEmsgWebSocket.ts:18-21 | `connect` appends one new socket on the run's url, makes it `wsRef.current`, sets status to `connecting`, and keeps the invariant |
| EmsgWebSocket.Hook.RunEffect | src/hooks/useEmsgWebSocket.ts:15-36 | the effect run opens a fresh closure with a null `reconnectTimeout` and calls `connect` once; timers and deliveries are untouched |
| EmsgWebSocket.Hook.Teardown | src/hooks/useEmsgWebSocket.ts:37-40 | cleanup asks only the current socket to close and clears only the timer in the last run's own `reconnectTimeout`; afterwards that run has no pending reconnect; handlers stay attached |
| EmsgWebSocket.Hook.CloseSocket | src/hooks/useEmsgWebSocket.ts:38 | `ws.close()` moves a connecting or open socket to closing and changes no other socket |
| EmsgWebSocket.Hook.ClearTimeout | src/hooks/useEmsgWebSocket.ts:39 | `clearTimeout(t)` removes exactly `t` from the pending timers |
| EmsgWebSocket.Hook.ChangeUrl | src/hooks/useEmsgWebSocket.ts:37-42 | a new `url` tears the old run down and connects a new run on the new url: one more socket, which is current, with status `connecting` |
| EmsgWebSocket.Hook.OnOpen | src/hooks/useEmsgWebSocket.ts:22 | `onopen` sets status to `open`, marks that socket open and changes nothing else, whichever run the socket belongs to |
| EmsgWebSocket.Hook.OnClose | src/hooks/useEmsgWebSocket.ts:23-27 | `onclose` sets status to `closed` and schedules exactly one timer with delay 2000 for the socket's own run, whose `reconnectTimeout` now holds it; this also happens after teardown |
| EmsgWebSocket.Hook.OnError | src/hooks/useEmsgWebSocket.ts:28 | `onerror` sets status to `error` and schedules no reconnect |
| EmsgWebSocket.Hook.OnMessage | src/hooks/useEmsgWebSocket.ts:29-34 | a frame that parses is delivered once, after every earlier delivery, whatever value it holds; exceptions from `onMessage` are swallowed, so nothing else changes; a frame that fails to parse is dropped; status unchanged |
| EmsgWebSocket.Hook.FireTimer | src/hooks/useEmsgWebSocket.ts:26 | a firing timer calls its own run's `connect` on that run's url, even after the run was cleaned up |
| EmsgWebSocket.Hook.Send | src/hooks/useEmsgWebSocket.ts:45-49 | exactly one write of `stringify(data)` to `wsRef.current` when it is open; otherwise no socket changes |
| EmsgWebSocket.AtMostOneReconnectPerRun | src/hooks/useEmsgWebSocket.ts:17-39 | in every valid state each run has at most one pending timer, so clearing only the last assigned `reconnectTimeout` clears all of that run's |
| EmsgWebSocket.LateCloseAfterUnmount | src/hooks/useEmsgWebSocket.ts:23-40 | open, unmount, then the close event: status `closed` and a reconnect pending for the unmounted run |
| EmsgWebSocket.ReconnectAfterUnmount | src/hooks/useEmsgWebSocket.ts:18-40 | that reconnect fires: a new socket on the same url is `wsRef.current` and status is `connecting` although the effect is gone |
| EmsgWebSocket.StaleCloseAfterUrlChange | src/hooks/useEmsgWebSocket.ts:15-42 | after a url change and the new socket opening, the old socket's late close sets status `closed` while the new socket is open, and schedules a reconnect of the old run |
| EmsgWebSocket.StaleReconnectAfterUrlChange | src/hooks/useEmsgWebSocket.ts:15-42 | that reconnect opens a socket on the old url, which replaces the open socket as `wsRef.current` |
| EmsgWebSocket.LeakedSocketAfterUrlChange | src/hooks/useEmsgWebSocket.ts:37-49 | from there `send` writes nothing to the open socket, and unmounting closes the stale socket but leaves the open one open |
| MessageStore.Store.constructor | src/hooks/useMessageStore.ts:12 | the list starts empty |
| MessageStore.Store.SetMessages | src/hooks/useMessageStore.ts:13 | the list becomes exactly the given list |
| MessageStore.Store.AddMessage | src/hooks/useMessageStore.ts:14 | the length grows by one, the new message is first and the old list follows in order |
| MessageStore.Store.ClearMessages | src/hooks/useMessageStore.ts:15 | the list is empty from any state, so the action is idempotent |
| KeyStore.Store.constructor | src/hooks/useKeyStore.ts:11-12 | both keys start null; the two keys are paired |
| KeyStore.Store.SetKeys | src/hooks/useKeyStore.ts:13 | exactly the given keys are stored, whatever was there; the keys stay paired |
| KeyStore.Store.ClearKeys | src/hooks/useKeyStore.ts:14 | both keys become null from any state; the keys stay paired |
| AuthStore.Store.constructor | src/hooks/useAuthStore.ts:14 | no user at first |
| AuthStore.Store.SetUser | src/hooks/useAuthStore.ts:15 | exactly the given user is stored |
| AuthStore.Store.Logout | src/hooks/useAuthStore.ts:16 | no user from any state: idempotent, and back to the initial state after `setUser` |
| JsValues.ErrorText | src/pages/Login.tsx:28 | the shown error is `e.message` when it is not empty and the page's fallback otherwise, so it is never empty when the fallback is not |
| JsValues.Get | src/pages/SentMessages.tsx:20 | reading a property of `null` throws; of an object that has the key, its value; anything else is `undefined` |
| JsValues.Truthy | src/pages/SystemMessages.tsx:20 | falsy exactly for `null`, `false`, `0` and the empty string |
| JsValues.ArrayOrEmpty | src/pages/Inbox.tsx:28 | an array yields its elements and anything else the empty list |
| KeyFormat.TrimStart | src/pages/Login.tsx:18 | a suffix of the input that does not start with whitespace, everything dropped being whitespace |
| KeyFormat.TrimEnd | src/pages/Login.tsx:18 | a prefix of the input that does not end with whitespace, everything dropped being whitespace |
| KeyFormat.Trim | src/pages/Login.tsx:18 | `trim()` yields the slice of the input between leading and trailing whitespace, with no whitespace at either end |
| KeyFormat.IsHexKey | src/pages/KeyPair.tsx:34 | text that passes the 64-hex check is hex text that decodes to exactly 32 bytes |
| KeyFormat.PadStartPads | src/pages/KeyPair.tsx:8 | `padStart` never shortens: the result is `width` long or the input itself, ends with the input, and everything before it is the fill |
| KeyFormat.TrimIdempotent | src/pages/KeyPair.tsx:33 | trimming twice is trimming once |
| KeyFormat.HexKeyTrimsToItself | src/pages/KeyPair.tsx:33-34 | text that passes the 64-hex check is its own trim |
| KeyFormat.ToBase16 | src/pages/KeyPair.tsx:8 | `toString(16)` has at least one digit, all of them lower-case hex |
| KeyFormat.ByteToHex | src/pages/KeyPair.tsx:8 | exactly the two base-16 digits of the byte, high then low; a byte below 16 starts with `0` |
| KeyFormat.ToHex | src/pages/KeyPair.tsx:6-10 | the output has twice as many characters as there are input bytes, all in `0-9a-f` |
| KeyFormat.ToHexPairAt | src/pages/KeyPair.tsx:6-10 | the characters at `2k` and `2k+1` are the two digits of byte `k` |
| KeyFormat.HexValue | src/pages/KeyPair.tsx:38 | the value of a hex digit of either case is below 16 |
| KeyFormat.FromHex | src/pages/KeyPair.tsx:38 | hex text of even length decodes to half as many bytes |
| KeyFormat.ToHexRoundTrip | src/pages/KeyPair.tsx:6-10 | `toHex` output is hex text, and reading it back two characters at a time gives the original bytes |
| KeyFormat.KeyBytesPassCheck | src/pages/KeyPair.tsx:23-34 | the hex of a 32-byte key passes the 64-hex check and survives `trim` |
| KeyFormat.PairDigits | src/pages/KeyPair.tsx:38-40 | re-encoding one decoded pair gives the pair in lower case |
| KeyFormat.FromHexToHex | src/pages/KeyPair.tsx:38-40 | decoding then re-encoding hex text gives its lower-case form, so an upper-case import differs from the hex of its own bytes |
| MessageFilters.Test | src/pages/SentMessages.tsx:20 | a filter callback throws exactly on a `null` element |
| MessageFilters.Filter | src/pages/SentMessages.tsx:20 | `filter` throws the TypeError exactly when a `null` element is present; otherwise every kept element is an input element that passes, every passing input element is kept, and the result is no longer than the input |
| MessageFilters.FilterAppend | src/pages/GroupChat.tsx:36-38 | filtering a concatenation concatenates the filtered parts, so input order is kept |
| MessageFilters.FilterCount | src/pages/SystemMessages.tsx:20 | each passing value is kept exactly as often as it occurs, and a failing value never |
| SentMessages.UserAddress | src/pages/SentMessages.tsx:16 | a truthy public key is the address; a missing or empty one gives `bob@emsg` |
| SentMessages.SentList | src/pages/SentMessages.tsx:20 | a non-array gives the empty list; a `null` element throws; otherwise exactly the messages whose `from` is the address, with multiplicities |
| SentMessages.SentMessagesPage.constructor | src/pages/SentMessages.tsx:8-10 | no messages, loading, no error |
| SentMessages.SentMessagesPage.Load | src/pages/SentMessages.tsx:12-25 | the address is the public key or `bob@emsg`; a fulfilled fetch shows that address's sent list, and a throwing filter or a rejected fetch keeps the old list and shows the error; loading ends on every path |
| SystemMessages.SystemList | src/pages/SystemMessages.tsx:20 | a non-array gives the empty list; a `null` element throws; otherwise exactly the messages with a truthy `system`, with multiplicities, with no key involved |
| SystemMessages.SystemMessagesPage.constructor | src/pages/SystemMessages.tsx:8-10 | no messages, loading, no error |
| SystemMessages.SystemMessagesPage.Load | src/pages/SystemMessages.tsx:12-25 | the outcome depends on the fetch alone, not on the public key: the system list, or the old list and the error; loading ends on every path |
| GroupChat.GroupList | src/pages/GroupChat.tsx:36-38 | a non-array gives the empty list; a `null` element throws; otherwise exactly the messages whose `group` is the group id, with multiplicities |
| GroupChat.GroupChatPage.constructor | src/pages/GroupChat.tsx:18-23 | group `team-alpha`, no messages, fetching, no error |
| GroupChat.GroupChatPage.SetGroupId | src/pages/GroupChat.tsx:18 | the group id becomes the given one |
| GroupChat.GroupChatPage.FetchGroupMessages | src/pages/GroupChat.tsx:28-45 | without a key the engine is not asked and the error is "No user key loaded"; with one the engine is asked for that key and the list becomes the group's messages, or stays and the error is shown; fetching ends on every path |
| Inbox.IsNewMessage | src/pages/Inbox.tsx:15 | true exactly for an object whose `type` is the string `new_message` and whose `payload` is present and truthy |
| Inbox.OnWsEvent | src/pages/Inbox.tsx:14-17 | a `new_message` event with a truthy payload puts the payload first and keeps the earlier list after it in order; any other event leaves the list unchanged; a `null` event throws |
| Inbox.InboxPage.constructor | src/pages/Inbox.tsx:9-11 | no messages, loading, no error |
| Inbox.InboxPage.HandleWsMessage | src/pages/Inbox.tsx:14-17 | the list becomes the prepend rule's result, or stays when the callback throws |
| Inbox.InboxPage.StartFetch | src/pages/Inbox.tsx:24-25 | loading, no error |
| Inbox.InboxPage.FetchSettled | src/pages/Inbox.tsx:26-31 | a fulfilled fetch replaces the whole list, including earlier prepends, with the array or the empty list; a rejected fetch keeps it and shows the error; loading ends |
| KeyPair.GeneratedKeys | src/pages/KeyPair.tsx:18-27 | generation fails exactly when derivation fails; otherwise both keys are hex text that decodes back to the private and public key bytes |
| KeyPair.ImportedKeys | src/pages/KeyPair.tsx:29-44 | the format error exactly when the trimmed input is not 64 hex characters; the import error exactly when derivation fails; on success the private key is the trimmed input verbatim and the public key the hex of the derived key |
| KeyPair.ImportOfGeneratedKey | src/pages/KeyPair.tsx:18-44 | importing a generated private key gives back exactly the generated pair |
| KeyPair.KeyPairPage.constructor | src/pages/KeyPair.tsx:13-15 | no error |
| KeyPair.KeyPairPage.HandleGenerate | src/pages/KeyPair.tsx:18-27 | both keys stored and no error, or the keys unchanged and the generation error shown |
| KeyPair.KeyPairPage.HandleImport | src/pages/KeyPair.tsx:29-44 | the imported pair stored and no error, or the keys unchanged and the format or import error shown |
| Login.LoginResult | src/pages/Login.tsx:13-32 | the format error when the trimmed input fails the check; otherwise the engine's error (or "Login failed" for an empty rejection) or the pair the engine returned; an error is never empty |
| Login.LoginPage.constructor | src/pages/Login.tsx:8-11 | no error, not loading, no navigation |
| Login.LoginPage.HandleLogin | src/pages/Login.tsx:13-32 | the engine is called with the trimmed input only when it passes the check; on success the returned keys, not the input, are stored and the route is `/`; on any error the keys and route are unchanged and the error shown; loading is false at the end |

## Left out

- Real sockets, timers and time. Transport callbacks and timer firings are
  discrete events whose order the caller chooses. A timer's delay is
  recorded but no clock is modelled.
- The socket's `readyState` is simplified. `onerror` leaves it unchanged,
  and a message can arrive only on an open or closing socket. Each socket's
  close event fires once.
- `JSON.parse` and `JSON.stringify` are abstract functions given to the
  hook. What the caller's `onMessage` does is not modelled in the hook: the
  hook records each delivered value; the callback's exceptions are
  swallowed, so they do not change the hook's state. The Inbox callback is
  modelled on its own in `Inbox`.
- React semantics: re-rendering, batching of state updates, and when an
  effect fires. The model applies each handler's state changes in place,
  including `setStatus` calls that arrive after unmount.
- Ed25519 key generation and derivation. The random private key is a
  parameter and `getPublicKey` an arbitrary function that may fail.
- KeyFormat.FromHex: modelled only on hex text of even length. The 64-hex
  check ahead of every call guarantees that, so the behaviour of
  `Buffer.from` on other text is not modelled.
- KeyFormat.LowerCase: a helper, not a call in the source. It lower-cases
  ASCII letters only, which is all `FromHexToHex` needs to say what
  re-encoding an imported hex key gives.
- GroupChat.GroupChatPage.FetchGroupMessages, SentMessages.SentMessagesPage.Load,
  SystemMessages.SystemMessagesPage.Load: each call settles at once, so
  overlapping fetches are not modelled. In the source each pending fetch's
  closure keeps its own group or address, and an older fetch may settle
  last and overwrite a newer list.
- The messaging engine's `importPrivateKey` and `getMessages`, and the
  inbox fetch, are parameters of the handlers. The WASM loader
  (src/services/emsg-wasm.ts) and the request dispatch in src/services/api.ts
  are not part of this model.
- The message pages work on JSON values, not on the `Message` record: they
  filter whatever the engine returned.
- JsValues.NullReadMessage: the text of the TypeError follows the V8
  engine's wording; other engines word it differently.
- JsValues.Get: valid only for the property names the pages read, none of
  which is inherited by primitives, arrays or plain objects.
- Form handling: `preventDefault`, the input's `maxLength`, and the disabled
  login button for blank input. HandleLogin accepts any text.
- The key page's export and clipboard (`handleExport`, `exported`), the
  Group Chat send flow and its `success` re-fetch trigger, and the Compose,
  Settings and DevPanel pages. They are thin wrappers over the engine or I/O.
- src/main.tsx (routing, theme toggle, status-to-colour mapping) and
  src/components/Button.tsx: presentational code.
