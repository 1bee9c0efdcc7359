/**
 * Password hashing and token signing are library calls (bcryptjs, jsonwebtoken) whose
 * internals are not part of this model. They are a record of functions together with the
 * two facts the server relies on: a password checks against its own hash, and a signed
 * token verifies back to the id it was signed with.
 */
module Credentials {
  import opened Wrappers

  datatype Crypto = Crypto(
    hash: string -> string,             // bcrypt.hashSync(password, 8)
    check: (string, string) -> bool,    // bcrypt.compareSync(password, hash)
    sign: int -> string,                // jwt.sign({ id }, JWT_SECRET)
    verify: string -> Option<int>)      // jwt.verify(token, JWT_SECRET).id, or a throw

  ghost predicate Sound(c: Crypto) {
    && (forall id: int :: c.verify(c.sign(id)) == Some(id))
    && (forall pw: string :: c.check(pw, c.hash(pw)))
  }

  const BearerPrefix: string := "Bearer "

  predicate PrefixAt(h: string, k: nat) {
    k + |BearerPrefix| <= |h| && h[k..k + |BearerPrefix|] == BearerPrefix
  }

  /**
   * `header.replace('Bearer ', '')` (server.js:86): JavaScript's String.replace with a
   * string pattern removes the FIRST occurrence of the pattern, wherever it stands, and
   * leaves a string without one unchanged.
   */
  function StripBearer(h: string): string
  {
    if |h| < |BearerPrefix| then h
    else if h[..|BearerPrefix|] == BearerPrefix then h[|BearerPrefix|..]
    else [h[0]] + StripBearer(h[1..])
  }

  /** A well-formed header `Bearer <token>` yields exactly the token. */
  lemma StripBearerOfHeader(token: string)
    ensures StripBearer(BearerPrefix + token) == token
  {
    assert (BearerPrefix + token)[..|BearerPrefix|] == BearerPrefix;
    assert (BearerPrefix + token)[|BearerPrefix|..] == token;
  }

  /** A header without the prefix anywhere is used as the token unchanged. */
  lemma {:induction false} StripBearerAbsent(h: string)
    requires forall k: nat :: !PrefixAt(h, k)
    ensures StripBearer(h) == h
  {
    if |h| >= |BearerPrefix| {
      assert !PrefixAt(h, 0);
      forall k: nat ensures !PrefixAt(h[1..], k) {
        assert !PrefixAt(h, k + 1);
      }
      StripBearerAbsent(h[1..]);
      assert [h[0]] + h[1..] == h;
    }
  }

  /** Otherwise the first occurrence, at index `k`, is cut out and nothing else changes. */
  lemma {:induction false} StripBearerFirst(h: string, k: nat)
    requires PrefixAt(h, k)
    requires forall j: nat :: j < k ==> !PrefixAt(h, j)
    ensures StripBearer(h) == h[..k] + h[k + |BearerPrefix|..]
  {
    if k == 0 {
      assert h[..|BearerPrefix|] == h[0..|BearerPrefix|];
    } else {
      assert !PrefixAt(h, 0);
      assert h[1..][k - 1..k - 1 + |BearerPrefix|] == h[k..k + |BearerPrefix|];
      forall j: nat | j < k - 1 ensures !PrefixAt(h[1..], j) {
        assert !PrefixAt(h, j + 1);
      }
      StripBearerFirst(h[1..], k - 1);
      assert [h[0]] + (h[1..][..k - 1] + h[1..][k - 1 + |BearerPrefix|..]) == h[..k] + h[k + |BearerPrefix|..];
    }
  }
}
