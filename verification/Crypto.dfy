/**
 The cryptography the services rely on, as an ideal: a hash of texts that never collides and
 non-empty signatures that verify under the signer's public key. `HashJson` is built on the
 canonical printer, so that equal hashes mean equal values.
 */
module Crypto {
  import opened CanonicalJson
  import opened Wrappers
  import JsonReader

  datatype Suite = Suite(
    hash: string -> string,
    publicKey: string -> string,
    sign: (string, string) -> string,
    verify: (string, string, string) -> bool,
    multibaseKey: string -> Option<string>,
    jwkKey: Value -> Option<string>)

  ghost predicate Ideal(c: Suite) {
    && (forall s, t :: c.hash(s) == c.hash(t) ==> s == t)
    && (forall sk, m :: c.verify(c.publicKey(sk), m, c.sign(sk, m)) && c.sign(sk, m) != "")
  }

  lemma SignatureVerifies(c: Suite, sk: string, m: string)
    requires Ideal(c)
    ensures c.verify(c.publicKey(sk), m, c.sign(sk, m)) && c.sign(sk, m) != ""
  {
  }

  /** `hash_json`: the hash of the canonical text. */
  ghost function HashJson(c: Suite, v: Value): string {
    c.hash(RustText(v))
  }

  lemma HashJsonInjective(c: Suite, v: Value, w: Value)
    requires Ideal(c)
    ensures HashJson(c, v) == HashJson(c, w) <==> v == w
  {
    JsonReader.CanonicalTextInjective(v, w);
  }

  /** A Python agent hashes the text its own printer gives. */
  ghost function PythonPayloadHash(c: Suite, v: Value): string {
    c.hash(PythonText(v))
  }

  /** A Rust service and a Python agent agree on a hash exactly when they hash the same value. */
  lemma HashesAgreeAcrossLanguages(c: Suite, v: Value, w: Value)
    requires Ideal(c)
    ensures HashJson(c, v) == PythonPayloadHash(c, w) <==> v == w
  {
    JsonReader.PrintersAgree(w);
    HashJsonInjective(c, v, w);
  }
}
