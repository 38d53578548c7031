// Sealed session cookies over an ideal authenticated cipher: what is sealed
// under a key opens under that key only, and nothing else opens at all.
module Session {
  import opened Text

  datatype Data = Data(subject: string, level: string, expiry: int, providerMode: string)

  // The key derived from a configured secret; SHA-256 is taken to be injective.
  datatype Key = Key(secret: string)

  datatype Payload = Json(data: Data) | NotJson

  // What a cookie value can be: no base64, shorter than a nonce, or a box.
  datatype Cookie = NotBase64 | TooShort | Box(key: Key, payload: Payload)

  datatype Opened = Payload(data: Data) | BadBase64 | Short | BadJson | NoKey

  predicate UsableSecrets(secrets: seq<string>) {
    secrets != [] && forall i | 0 <= i < |secrets| :: secrets[i] != ""
  }

  function Keys(secrets: seq<string>): seq<Key> {
    seq(|secrets|, i requires 0 <= i < |secrets| => Key(secrets[i]))
  }

  function OpenUnder(keys: seq<Key>, c: Cookie): Opened {
    if c.NotBase64? then BadBase64
    else if keys == [] then NoKey
    else if c.TooShort? then Short
    else if c.key !in keys then NoKey
    else if c.payload.NotJson? then BadJson
    else Payload(c.payload.data)
  }

  // Unix seconds of a time in nanoseconds.
  function Unix(now: int): int { now / 1_000_000_000 }

  predicate Valid(d: Data, now: int) { d.subject != "" && Unix(now) < d.expiry }

  function Seal(keys: seq<Key>, d: Data): Cookie
    requires keys != []
  {
    Box(keys[0], Json(d))
  }

  function ReadCookie(keys: seq<Key>, cookie: Option<Cookie>, now: int): Option<Data> {
    match cookie
    case None => None
    case Some(c) =>
      match OpenUnder(keys, c)
      case Payload(d) => if Valid(d, now) then Some(d) else None
      case _ => None
  }

  // NewData: a session that is to last for maxAge from now on.
  function NewData(now: int, maxAge: int, subject: string, level: string, providerMode: string): Data {
    Data(subject, level, Unix(now + maxAge), providerMode)
  }

  // A session is valid before its expiry and not at it, to the nanosecond.
  lemma ValidIff(d: Data, now: int)
    ensures Valid(d, now) <==> d.subject != "" && now < d.expiry * 1_000_000_000
  {}

  // A session minted for maxAge carries what it was minted with, and is valid for
  // that long, short of the fraction of a second it ends in.
  lemma MintedIsValidIff(minted: int, maxAge: int, subject: string, level: string, providerMode: string, now: int)
    ensures var d := NewData(minted, maxAge, subject, level, providerMode);
            && d.subject == subject && d.level == level && d.providerMode == providerMode
            && (Valid(d, now) <==> subject != "" && now < minted + maxAge - (minted + maxAge) % 1_000_000_000)
  {
    ValidIff(NewData(minted, maxAge, subject, level, providerMode), now);
  }

  // What a cookie opens as, and how it fails to.
  lemma OpensAs(keys: seq<Key>, c: Cookie)
    ensures OpenUnder(keys, c) == BadBase64 <==> c.NotBase64?
    ensures OpenUnder(keys, c) == Short <==> c.TooShort? && keys != []
    ensures OpenUnder(keys, c) == BadJson <==> c.Box? && c.key in keys && c.payload.NotJson?
    ensures OpenUnder(keys, c) == NoKey <==> (keys == [] && !c.NotBase64?) || (c.Box? && c.key !in keys)
    ensures forall d :: OpenUnder(keys, c) == Payload(d) <==> c.Box? && c.key in keys && c.payload == Json(d)
  {}

  // NewCodec: one key for each secret, or an error.
  method NewCodec(secrets: seq<string>) returns (keys: Option<seq<Key>>)
    ensures keys == if UsableSecrets(secrets) then Some(Keys(secrets)) else None
  {
    if secrets == [] {
      return None;
    }
    var derived: seq<Key> := [];
    for i := 0 to |secrets|
      invariant derived == Keys(secrets)[..i]
      invariant forall k | 0 <= k < i :: secrets[k] != ""
    {
      if secrets[i] == "" {
        return None;
      }
      derived := derived + [Key(secrets[i])];
    }
    assert derived == Keys(secrets);
    return Some(derived);
  }

  // Open: every key is tried in turn.
  method Open(keys: seq<Key>, c: Cookie) returns (r: Opened)
    ensures r == OpenUnder(keys, c)
  {
    if c.NotBase64? {
      return BadBase64;
    }
    for i := 0 to |keys|
      invariant i > 0 ==> c.Box? && c.key !in keys[..i]
    {
      if c.TooShort? {
        return Short;
      }
      if c.key == keys[i] {
        return if c.payload.NotJson? then BadJson else Payload(c.payload.data);
      }
    }
    return NoKey;
  }

  // A session sealed under one set of keys reads back, unchanged, under another
  // exactly when that one still holds the sealing key and the session is valid.
  lemma SealedReadsBackIff(keys: seq<Key>, later: seq<Key>, d: Data, now: int)
    requires keys != []
    ensures ReadCookie(later, Some(Seal(keys, d)), now) == if keys[0] in later && Valid(d, now) then Some(d) else None
  {}

  // Whatever is read was sealed under one of the keys, as it is.
  lemma ReadWasSealed(keys: seq<Key>, cookie: Option<Cookie>, now: int)
    requires ReadCookie(keys, cookie, now).Some?
    ensures exists k :: k in keys && cookie == Some(Box(k, Json(ReadCookie(keys, cookie, now).value)))
    ensures Valid(ReadCookie(keys, cookie, now).value, now)
  {}
}
