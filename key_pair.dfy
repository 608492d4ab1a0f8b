/** The key-pair page (KeyPair.tsx): generate a key pair, or import a private
    key typed as hex, and store the pair. Ed25519 itself is outside the model:
    the random private key is a parameter and `getPublicKey` an arbitrary
    function that may fail. */
module KeyPair {
  import opened JsValues
  import opened KeyFormat
  import KeyStore

  const GenerateFailed := "Failed to generate key pair"
  const ImportFailed := "Invalid private key"

  /** Public-key derivation: the public key's bytes, or None when it throws. */
  type Derivation = seq<byte> -> Option<seq<byte>>

  /** What `handleGenerate` stores for the private key `priv`: both keys as
      lower-case hex, or the generation error when derivation fails. */
  function GeneratedKeys(priv: seq<byte>, getPublicKey: Derivation): (r: Outcome<(string, string)>)
    ensures getPublicKey(priv).None? <==> r == Threw(GenerateFailed)
    ensures r.Returned? ==>
      IsHexText(r.value.0) && IsHexText(r.value.1)
      && FromHex(r.value.0) == priv && FromHex(r.value.1) == getPublicKey(priv).value
    ensures r.Returned? ==> r.value == (ToHex(priv), ToHex(getPublicKey(priv).value))
  {
    match getPublicKey(priv)
    case None => Threw(GenerateFailed)
    case Some(pub) =>
      ToHexRoundTrip(priv);
      ToHexRoundTrip(pub);
      Returned((ToHex(priv), ToHex(pub)))
  }

  /** What `handleImport` stores for the typed text: nothing but the format
      error unless the trimmed text is 64 hex characters; otherwise the
      trimmed text itself, case preserved, with the hex of the public key
      derived from its bytes, or the import error when derivation fails. */
  function ImportedKeys(input: string, getPublicKey: Derivation): (r: Outcome<(string, string)>)
    ensures !IsHexKey(Trim(input)) <==> r == Threw(KeyFormatError)
    ensures IsHexKey(Trim(input)) ==>
      (getPublicKey(FromHex(Trim(input))).None? <==> r == Threw(ImportFailed))
    ensures r.Returned? ==>
      r.value.0 == Trim(input) && IsHexKey(r.value.0)
      && r.value.1 == ToHex(getPublicKey(FromHex(Trim(input))).value)
  {
    var privHex := Trim(input);
    if !IsHexKey(privHex) then Threw(KeyFormatError)
    else
      match getPublicKey(FromHex(privHex))
      case None => Threw(ImportFailed)
      case Some(pub) => Returned((privHex, ToHex(pub)))
  }

  /** A generated 32-byte private key, once shown as hex and imported again,
      yields exactly the pair that generation stored. */
  lemma {:induction false} ImportOfGeneratedKey(priv: seq<byte>, getPublicKey: Derivation)
    requires |priv| == 32
    requires GeneratedKeys(priv, getPublicKey).Returned?
    ensures ImportedKeys(GeneratedKeys(priv, getPublicKey).value.0, getPublicKey) == GeneratedKeys(priv, getPublicKey)
  {
    KeyBytesPassCheck(priv);
    ToHexRoundTrip(priv);
  }

  class KeyPairPage {
    const keys: KeyStore.Store
    var error: Option<string>

    constructor (keys: KeyStore.Store)
      ensures this.keys == keys && error == None
    {
      this.keys := keys;
      error := None;
    }

    /** `handleGenerate()` with `priv` as the random private key: the error is
        cleared, then either both keys are stored as hex or the keys stay as
        they were and the generation error is shown. */
    method HandleGenerate(priv: seq<byte>, getPublicKey: Derivation)
      modifies this`error, keys
      ensures GeneratedKeys(priv, getPublicKey).Returned? ==>
        keys.privateKey == Some(GeneratedKeys(priv, getPublicKey).value.0)
        && keys.publicKey == Some(GeneratedKeys(priv, getPublicKey).value.1)
        && error == None
      ensures GeneratedKeys(priv, getPublicKey).Threw? ==>
        unchanged(keys) && error == Some(GenerateFailed)
    {
      error := None;
      match GeneratedKeys(priv, getPublicKey) {
        case Returned(pair) => keys.SetKeys(pair.0, pair.1);
        case Threw(m) => error := Some(m);
      }
    }

    /** `handleImport()` on the text in the import field: the error is
        cleared, then either the pair of `ImportedKeys` is stored or the keys
        stay as they were and its error is shown. */
    method HandleImport(input: string, getPublicKey: Derivation)
      modifies this`error, keys
      ensures ImportedKeys(input, getPublicKey).Returned? ==>
        keys.privateKey == Some(ImportedKeys(input, getPublicKey).value.0)
        && keys.publicKey == Some(ImportedKeys(input, getPublicKey).value.1)
        && error == None
      ensures ImportedKeys(input, getPublicKey).Threw? ==>
        unchanged(keys) && error == Some(ImportedKeys(input, getPublicKey).message)
    {
      error := None;
      match ImportedKeys(input, getPublicKey) {
        case Returned(pair) => keys.SetKeys(pair.0, pair.1);
        case Threw(m) => error := Some(m);
      }
    }
  }
}
