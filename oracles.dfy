/** The libraries the core calls, as values of function type that every
    operation receives as a parameter: bcrypt, jsonwebtoken and the
    Cloudinary upload wrapper. Their internals (cryptography, salts,
    clocks, the network) are not modelled; what the core relies on is
    stated as predicates over these values. */
module Oracles {
  import opened Wrappers

  /** A MongoDB ObjectId. */
  type ObjectId = nat

  /** bcrypt cost factor used by the pre-save hook. */
  const SaltRounds: nat := 10

  /** `bcrypt.hash(plaintext, rounds)` and `bcrypt.compare(plaintext, hash)`. */
  datatype Bcrypt = Bcrypt(hash: (string, nat) -> string, compare: (string, string) -> bool)

  /** A hash always verifies against the plaintext it was made from. */
  ghost predicate HashVerifies(b: Bcrypt) {
    forall p, rounds :: b.compare(p, b.hash(p, rounds))
  }

  /** The signed claims `{_id, email, username, fullName}`; a decoded
      payload may lack `_id`, hence the option. */
  datatype Claims = Claims(id: Option<ObjectId>, email: string, username: string, fullName: string)

  /** `jwt.sign(payload, secret, {expiresIn})` and `jwt.verify(token,
      secret)`; a failed verification carries the library's message. */
  datatype JsonWebToken = JsonWebToken(
    sign: (Claims, string, string) -> string,
    verify: (string, string) -> Result<Claims, string>)

  /** An unexpired token verifies under the secret it was signed with and
      yields the claims it was signed with; signed tokens are never empty.
      The clock is not modelled, so this reads "while unexpired". */
  ghost predicate RoundTrips(j: JsonWebToken) {
    (forall c, secret, expiry :: j.verify(j.sign(c, secret, expiry), secret) == Ok(c)) &&
    (forall c, secret, expiry :: j.sign(c, secret, expiry) != "")
  }

  /** A token never verifies under a secret other than its signing one. */
  ghost predicate SecretBound(j: JsonWebToken) {
    forall c, secret, expiry, other :: other != secret ==> j.verify(j.sign(c, secret, expiry), other).Err?
  }

  /** The Cloudinary SDK upload of a local file, giving the hosted URL or
      nothing when the upload fails. */
  type Uploader = string -> Option<string>

  /** `uploadOnCloudinary(localFilePath)`: a falsy path (undefined or "")
      gives null without calling the SDK; otherwise the SDK decides. */
  function UploadOnCloudinary(upload: Uploader, localFilePath: Option<string>): Option<string> {
    match localFilePath
    case None => None
    case Some(path) => if path == "" then None else upload(path)
  }

  lemma UploadOfFalsyPathIsNull(upload: Uploader, localFilePath: Option<string>)
    requires localFilePath.None? || localFilePath.value == ""
    ensures UploadOnCloudinary(upload, localFilePath) == None
  {
  }

  lemma UploadOfPathDelegates(upload: Uploader, path: string)
    requires path != ""
    ensures UploadOnCloudinary(upload, Some(path)) == upload(path)
  {
  }
}
