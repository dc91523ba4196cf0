/** Authenticated encryption as the container uses it: AES-GCM seen only through its laws
    (sections 7.1 and 7.2 of NIST SP 800-38D). Leaving out the additional data is the same as
    passing the empty string. */
module Aead {
  import opened Bytes
  import opened Results

  const AUTH_TAG_LENGTH := 16

  /** `seal(key, iv, aad, plaintext)` and `open(key, iv, aad, ciphertext)`. */
  datatype Cipher = Cipher(
    seal: (bytes, bytes, bytes, bytes) -> bytes,
    open: (bytes, bytes, bytes, bytes) -> Option<bytes>)

  /** Whatever opens was exactly one tag longer; in particular nothing under 16 bytes opens. */
  ghost predicate Framed(c: Cipher) {
    forall key, iv, aad, ct :: c.open(key, iv, aad, ct).Some? ==>
      |ct| == |c.open(key, iv, aad, ct).value| + AUTH_TAG_LENGTH
  }

  /** `open` undoes `seal` under the same key, IV and additional data. */
  ghost predicate OpensSealed(c: Cipher) {
    forall key, iv, aad, p :: c.open(key, iv, aad, c.seal(key, iv, aad, p)) == Some(p)
  }

  ghost predicate Lawful(c: Cipher) {
    Framed(c) && OpensSealed(c)
  }

  lemma SealedLength(c: Cipher, key: bytes, iv: bytes, aad: bytes, p: bytes)
    requires Lawful(c)
    ensures |c.seal(key, iv, aad, p)| == |p| + AUTH_TAG_LENGTH
  {
  }

  /** One ciphertext produced under a key. */
  datatype Entry = Entry(iv: bytes, aad: bytes, ciphertext: bytes, plaintext: bytes)

  /** Ideal authenticity under one key: only the entries of the log ever open. */
  ghost predicate OpensOnly(c: Cipher, key: bytes, log: seq<Entry>) {
    forall iv, aad, ct :: c.open(key, iv, aad, ct).Some? ==>
      Entry(iv, aad, ct, c.open(key, iv, aad, ct).value) in log
  }

  /** A transparent cipher: the tag is sixteen zero bytes. */
  const ZERO_TAG: bytes := [0, 0, 0, 0, 0, 0, 0, 0, 0, 0, 0, 0, 0, 0, 0, 0]

  function Strip(ct: bytes): Option<bytes> {
    if AUTH_TAG_LENGTH <= |ct| && ct[|ct| - AUTH_TAG_LENGTH..] == ZERO_TAG
    then Some(ct[..|ct| - AUTH_TAG_LENGTH]) else None
  }

  const TRANSPARENT: Cipher := Cipher((key, iv, aad, p) => p + ZERO_TAG, (key, iv, aad, ct) => Strip(ct))

  /** The laws are consistent. */
  lemma LawsAreConsistent()
    ensures Lawful(TRANSPARENT)
  {
  }

  /** The cipher that seals as `c` does and opens exactly what a log lists. */
  function Restricted(c: Cipher, log: seq<Entry>): Cipher {
    Cipher(c.seal, (key, iv, aad, ct) =>
      match c.open(key, iv, aad, ct)
      case Some(p) => if Entry(iv, aad, ct, p) in log then Some(p) else None
      case None => None)
  }
}
