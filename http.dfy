/** What the route handlers receive and answer: uploaded files, the file
    names they are stored under, and responses. */
module Http {
  import opened Wrappers
  import opened Text

  newtype Byte = x: int | 0 <= x < 256

  /** A `File` part of a multipart form; its `size` is the number of bytes. */
  datatype Upload = Upload(name: string, bytes: seq<Byte>)

  datatype Response<B> = Response(status: int, body: B)

  /** `${Date.now()}-${file.name}`: the name an upload is stored under. */
  function UploadName(now: nat, original: string): string
  {
    NatToString(now) + "-" + original
  }

  /** The time stamp in front of the first `-` of a stored file name. */
  function UploadTime(fileName: string): Option<int>
  {
    ParseInt(Split(fileName, '-')[0])
  }

  /** What follows the first `-` of a stored file name. */
  function OriginalName(fileName: string): string
  {
    Join(Split(fileName, '-')[1..], '-')
  }

  /** A stored name gives back both the upload time and the original name,
      so two uploads at different times never share a name. */
  lemma {:induction false} UploadNameRoundTrip(now: nat, original: string)
    ensures UploadTime(UploadName(now, original)) == Some(now)
    ensures OriginalName(UploadName(now, original)) == original
  {
    var digits := NatToString(now);
    assert '-' !in digits;
    assert UploadName(now, original) == digits + ['-'] + original;
    SplitAtFirstSeparator(digits, original, '-');
    ParseIntNatToString(now);
    JoinSplit(original, '-');
  }

  lemma UploadNameInjective(now1: nat, name1: string, now2: nat, name2: string)
    requires UploadName(now1, name1) == UploadName(now2, name2)
    ensures now1 == now2 && name1 == name2
  {
    UploadNameRoundTrip(now1, name1);
    UploadNameRoundTrip(now2, name2);
  }
}

/** The token payload the login handler signs and the middleware decodes.
    Signing and verifying (the `jsonwebtoken` library) are parameters of the
    handlers that use them. */
module Tokens {
  datatype Claims = Claims(userId: string, role: string)

  /** The outcome of `jwt.verify`: the decoded payload, or the message of
      the error it throws. */
  datatype Verified = Decoded(claims: Claims) | Failed(reason: string)
}
