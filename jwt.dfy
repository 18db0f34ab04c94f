/** The two calls the core makes into `jsonwebtoken`:
    `jwt.sign({ id }, secret, { expiresIn })` and `jwt.verify(token,
    secret)`. Clocks are whole seconds, passed in (the library reads
    `Math.floor(Date.now() / 1000)`).

    The compact token is modelled in the same shape, three dot-separated
    pieces drawn from a space-free alphabet: the `id` claim and the `exp`
    claim in hex, then a tag computed from the secret and those two
    pieces, standing in for the HMAC signature. `verify` accepts a token
    whose tag matches the secret and whose `exp` is still ahead of the
    clock; the library rejects a token once the clock reaches `exp`. */
module Jwt {
  import opened Base
  import opened Text

  /** `expiresIn: '1h'`, in seconds. */
  const OneHour: nat := 3600

  function Claims(id: string, exp: nat): (claims: string) {
    EncodeText(id) + "." + NatHex(exp)
  }

  function Tag(secret: string, claims: string): (tag: string) {
    EncodeText(secret + "." + claims)
  }

  /** `jwt.sign({ id }, secret, { expiresIn })` at clock `iat`. */
  function Sign(id: string, secret: string, expiresIn: nat, iat: nat): (token: string)
    ensures ' ' !in token
  {
    var claims := Claims(id, iat + expiresIn);
    var token := claims + "." + Tag(secret, claims);
    assert forall k :: 0 <= k < |token| ==> token[k] == '.' || IsHexDigit(token[k]);
    token
  }

  /** `jwt.verify(token, secret)` at clock `now`: the decoded `id`, or None
      where the library throws (malformed, wrong signature, expired). */
  function Verify(token: string, secret: string, now: nat): (r: Option<string>)
    ensures var parts := Split(token, '.');
            r.None? <==>
              || |parts| != 3
              || parts[2] != Tag(secret, parts[0] + "." + parts[1])
              || DecodeText(parts[0]).None?
              || ParseHex(parts[1]).None?
              || now >= ParseHex(parts[1]).value
    ensures r.Some? ==> r == DecodeText(Split(token, '.')[0])
  {
    var parts := Split(token, '.');
    if |parts| != 3 || parts[2] != Tag(secret, parts[0] + "." + parts[1]) then None
    else match (DecodeText(parts[0]), ParseHex(parts[1]))
      case (Some(id), Some(exp)) => if now < exp then Some(id) else None
      case _ => None
  }

  lemma SplitSigned(id: string, secret: string, exp: nat)
    ensures var claims := Claims(id, exp);
            Split(claims + "." + Tag(secret, claims), '.')
              == [EncodeText(id), NatHex(exp), Tag(secret, claims)]
  {
    var claims := Claims(id, exp);
    var parts := [EncodeText(id), NatHex(exp), Tag(secret, claims)];
    forall k | 0 <= k < 3 ensures '.' !in parts[k] {
      assert AllHex(parts[k]);
    }
    SplitJoin(parts, '.');
    assert parts[1..][1..] == [parts[2]];
    assert Join(parts[1..], '.') == parts[1] + "." + parts[2];
    assert Join(parts, '.') == parts[0] + "." + (parts[1] + "." + parts[2]);
    assert claims + "." + Tag(secret, claims) == parts[0] + "." + (parts[1] + "." + parts[2]);
  }

  /** A token verifies, with the secret it was signed with, to exactly the
      subject it was issued for until `expiresIn` seconds have passed, and
      not from then on. */
  lemma {:induction false} VerifySign(id: string, secret: string, expiresIn: nat, iat: nat, now: nat)
    ensures Verify(Sign(id, secret, expiresIn, iat), secret, now)
            == if now < iat + expiresIn then Some(id) else None
  {
    SplitSigned(id, secret, iat + expiresIn);
    DecodeEncode(id);
    ParseNatHex(iat + expiresIn);
  }
}
