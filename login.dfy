/** The login page (Login.tsx): a private key typed as hex is checked, handed
    to the messaging engine's `importPrivateKey`, and the pair the engine
    returns is stored before navigating home. */
module Login {
  import opened JsValues
  import opened KeyFormat
  import KeyStore

  /** The engine's answer: the pair, and an error text that is empty when it
      reports none. */
  datatype ImportReply = ImportReply(privateKey: string, publicKey: string, error: string)

  /** The settled promise of `importPrivateKey`. */
  datatype ImportCall = ImportResolved(reply: ImportReply) | ImportRejected(message: string)

  const LoginFailed := "Login failed"
  const HomeRoute := "/"

  /** The result of `handleLogin` on the typed text: the format error when the
      trimmed text is not 64 hex characters; otherwise the engine's error, or
      the pair the engine returned (not the typed text). */
  function LoginResult(input: string, importPrivateKey: string -> ImportCall): (r: Outcome<(string, string)>)
    ensures !IsHexKey(Trim(input)) ==> r == Threw(KeyFormatError)
    ensures IsHexKey(Trim(input)) && importPrivateKey(Trim(input)).ImportResolved? ==>
      var reply := importPrivateKey(Trim(input)).reply;
      (reply.error != "" <==> r == Threw(reply.error))
      && (reply.error == "" ==> r == Returned((reply.privateKey, reply.publicKey)))
    ensures IsHexKey(Trim(input)) && importPrivateKey(Trim(input)).ImportRejected? ==>
      r == Threw(ErrorText(importPrivateKey(Trim(input)).message, LoginFailed))
    ensures r.Threw? ==> r.message != ""
  {
    var privHex := Trim(input);
    if !IsHexKey(privHex) then Threw(KeyFormatError)
    else
      match importPrivateKey(privHex)
      case ImportRejected(m) => Threw(ErrorText(m, LoginFailed))
      case ImportResolved(reply) =>
        if reply.error != "" then Threw(ErrorText(reply.error, LoginFailed))
        else Returned((reply.privateKey, reply.publicKey))
  }

  class LoginPage {
    const keys: KeyStore.Store
    var error: Option<string>
    var loading: bool
    /** The route `navigate` was called with, if any. */
    var location: Option<string>

    constructor (keys: KeyStore.Store)
      ensures this.keys == keys && error == None && !loading && location == None
    {
      this.keys := keys;
      error, loading, location := None, false, None;
    }

    /** `handleLogin()` on the typed text. `imported` is the argument passed
        to `importPrivateKey`: the trimmed text, and only when it passed the
        check. On success the returned pair is stored and the page navigates
        home; on any error the keys and the route stay as they were and the
        error is shown. Loading is over on every path. */
    method HandleLogin(input: string, importPrivateKey: string -> ImportCall)
      returns (imported: Option<string>)
      modifies this`error, this`loading, this`location, keys
      ensures !loading
      ensures imported == if IsHexKey(Trim(input)) then Some(Trim(input)) else None
      ensures LoginResult(input, importPrivateKey).Returned? ==>
        keys.privateKey == Some(LoginResult(input, importPrivateKey).value.0)
        && keys.publicKey == Some(LoginResult(input, importPrivateKey).value.1)
        && location == Some(HomeRoute) && error == None
      ensures LoginResult(input, importPrivateKey).Threw? ==>
        unchanged(keys) && location == old(location)
        && error == Some(LoginResult(input, importPrivateKey).message)
    {
      error := None;
      loading := true;
      var privHex := Trim(input);
      var result := LoginResult(input, importPrivateKey);
      if !IsHexKey(privHex) {
        error := Some(KeyFormatError);
        loading := false;
        imported := None;
        return;
      }
      imported := Some(privHex);
      match result {
        case Returned(pair) =>
          keys.SetKeys(pair.0, pair.1);
          location := Some(HomeRoute);
        case Threw(m) =>
          error := Some(m);
      }
      loading := false;
    }
  }
}
