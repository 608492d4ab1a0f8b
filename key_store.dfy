/** The global key pair of useKeyStore.ts: `privateKey` and `publicKey`,
    written together by `setKeys` and `clearKeys`. */
module KeyStore {
  import opened JsValues

  class Store {
    var privateKey: Option<string>
    var publicKey: Option<string>

    /** The two keys are set together or absent together. */
    ghost predicate Paired()
      reads this
    {
      privateKey.Some? <==> publicKey.Some?
    }

    /** Both keys start as null. */
    constructor ()
      ensures privateKey == None && publicKey == None
      ensures Paired()
    {
      privateKey, publicKey := None, None;
    }

    /** `setKeys(priv, pub)`: stores exactly the two given keys, replacing
        whatever an earlier call stored. */
    method SetKeys(priv: string, pub: string)
      modifies this
      ensures privateKey == Some(priv) && publicKey == Some(pub)
      ensures Paired()
    {
      privateKey, publicKey := Some(priv), Some(pub);
    }

    /** `clearKeys()`: both keys become null from any state, so a second call
        changes nothing. */
    method ClearKeys()
      modifies this
      ensures privateKey == None && publicKey == None
      ensures Paired()
    {
      privateKey, publicKey := None, None;
    }
  }
}
