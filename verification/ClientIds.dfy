/**
 Client IDs, as the key manager composes them: a readable prefix, a truncated digest of the
 (username, model) pair and a random suffix. Strings are byte strings, one char per byte.

 The digest is a parameter. Its outputs are 32 hex digits, so no digest is injective on all strings;
 results that need distinct digests ask for it only on the inputs in play (CollisionFree).
 */
module ClientIds {
  import opened Common

  type Digest = string -> string

  const SUFFIX_LEN := 16
  const DIGEST_LEN := 32

  predicate IsHex(c: char) { '0' <= c <= '9' || 'a' <= c <= 'f' }

  ghost predicate HexDigest(h: Digest) {
    forall s :: |h(s)| == DIGEST_LEN && forall i :: 0 <= i < DIGEST_LEN ==> IsHex(h(s)[i])
  }

  /** Eight random bytes in hex. */
  predicate IsSuffix(s: string) {
    |s| == SUFFIX_LEN && forall i :: 0 <= i < |s| ==> IsHex(s[i])
  }

  ghost predicate CollisionFree(h: Digest, inputs: set<string>) {
    forall x, y :: x in inputs && y in inputs && h(x) == h(y) ==> x == y
  }

  predicate IsDataKeyByte(c: char) {
    'a' <= c <= 'z' || 'A' <= c <= 'Z' || '0' <= c <= '9' || c == '-' || c == '.' || c == '_'
  }

  predicate AllDataKeyBytes(s: string) {
    forall i :: 0 <= i < |s| ==> IsDataKeyByte(s[i])
  }

  predicate IsDataKeyName(s: string) {
    s != "" && AllDataKeyBytes(s)
  }

  function SanitizedByte(c: char): string {
    if c == '@' then "-at-" else if IsDataKeyByte(c) then [c] else "-"
  }

  function SanitizedBytes(s: string): (r: string)
    ensures AllDataKeyBytes(r)
  {
    if s == "" then "" else SanitizedBytes(s[..|s| - 1]) + SanitizedByte(s[|s| - 1])
  }

  /** What sanitizeUsernameForKey promises to compute. */
  function Sanitized(h: Digest, name: string): string {
    if name == "" || IsDataKeyName(name) then name
    else SanitizedBytes(name) + "-" + h(name)
  }

  /** What the API server lets a data key be made of: letters, digits, and three marks. */
  predicate IsPlainByte(c: char) {
    c in ['-', '.', '_'] || '0' <= c <= '9' || 'A' <= c <= 'Z' || 'a' <= c <= 'z'
  }

  ghost predicate IsPlainName(name: string) { forall i :: 0 <= i < |name| ==> IsPlainByte(name[i]) }

  /** Byte by byte, an at sign becomes -at- and any other byte that is not plain becomes a hyphen. */
  lemma BytesAreReplaced(name: string, c: char)
    ensures SanitizedBytes(name + [c]) ==
              SanitizedBytes(name) + (if c == '@' then "-at-" else if IsPlainByte(c) then [c] else "-")
  {
    assert (name + [c])[..|name|] == name;
  }

  /** A plain name is kept, and any other gets its digest behind. */
  lemma PlainNamesAreKept(h: Digest, name: string)
    ensures IsPlainName(name) ==> Sanitized(h, name) == name
    ensures !IsPlainName(name) ==> Sanitized(h, name) == SanitizedBytes(name) + "-" + h(name)
  {
    forall c ensures IsDataKeyByte(c) == IsPlainByte(c) {}
  }

  /** sanitizeUsernameForKey: a pass over the bytes, then a byte-by-byte builder. */
  method SanitizeUsernameForKey(h: Digest, username: string) returns (key: string)
    ensures key == Sanitized(h, username)
    ensures username != "" && HexDigest(h) ==> IsDataKeyName(key)
  {
    if username == "" {
      return "";
    }
    var valid, i := true, 0;
    while i < |username| && valid
      invariant 0 <= i <= |username|
      invariant valid ==> AllDataKeyBytes(username[..i])
      invariant !valid ==> !AllDataKeyBytes(username)
    {
      valid := IsDataKeyByte(username[i]);
      i := i + 1;
    }
    if valid {
      assert username[..i] == username;
      return username;
    }
    var b := "";
    i := 0;
    while i < |username|
      invariant 0 <= i <= |username|
      invariant b == SanitizedBytes(username[..i])
    {
      assert username[..i + 1][..i] == username[..i];
      b := b + SanitizedByte(username[i]);
      i := i + 1;
    }
    assert username[..i] == username;
    key := b + "-" + h(username);
  }

  /** The digest's input for a pair: its parts joined with a NUL byte. */
  function Pair(user: string, model: string): string { user + [NUL] + model }

  function ClientId(h: Digest, user: string, model: string, suffix: string): string {
    "user-" + Sanitized(h, user) + "-" + Sanitized(h, model) + "-" + h(Pair(user, model)) + "-" + suffix
  }

  /** The last 16 bytes of an ID: its random part, for an ID this manager minted. */
  function SuffixOf(id: string): string {
    if |id| < SUFFIX_LEN then id else id[|id| - SUFFIX_LEN..]
  }

  lemma SuffixOfClientId(h: Digest, user: string, model: string, suffix: string)
    requires |suffix| == SUFFIX_LEN
    ensures SuffixOf(ClientId(h, user, model, suffix)) == suffix
  {
  }

  /** Every minted client ID is a legal Secret and ConfigMap data key, whatever bytes the names hold. */
  lemma ClientIdIsDataKey(h: Digest, user: string, model: string, suffix: string)
    requires HexDigest(h) && IsSuffix(suffix)
    ensures IsDataKeyName(ClientId(h, user, model, suffix))
  {
    SanitizedIsDataKey(h, user);
    SanitizedIsDataKey(h, model);
    var parts := ["user-", Sanitized(h, user), "-", Sanitized(h, model), "-", h(Pair(user, model)), "-", suffix];
    assert AllDataKeyBytes(h(Pair(user, model)));
  }

  lemma SanitizedIsDataKey(h: Digest, name: string)
    requires HexDigest(h)
    ensures AllDataKeyBytes(Sanitized(h, name))
  {
    assert AllDataKeyBytes(h(name));
  }

  /** Two pairs whose models hold no NUL byte join to the same string only if they are the same pair. */
  lemma PairInjective(u1: string, m1: string, u2: string, m2: string)
    requires NUL !in m1 && NUL !in m2
    requires Pair(u1, m1) == Pair(u2, m2)
    ensures u1 == u2 && m1 == m2
  {
    if |m1| < |m2| { PairLongerModel(u1, m1, u2, m2); }
    if |m2| < |m1| { PairLongerModel(u2, m2, u1, m1); }
    assert |u1| == |u2|;
    assert u1 == Pair(u1, m1)[..|u1|] && u2 == Pair(u2, m2)[..|u2|];
    assert m1 == Pair(u1, m1)[|u1| + 1..] && m2 == Pair(u2, m2)[|u2| + 1..];
  }

  lemma PairLongerModel(u1: string, m1: string, u2: string, m2: string)
    requires |m1| < |m2|
    requires Pair(u1, m1) == Pair(u2, m2)
    ensures NUL in m2
  {
    var p := Pair(u2, m2);
    assert p[|u1|] == NUL;
    assert p[|u1|] == m2[|u1| - |u2| - 1];
  }

  /** Equal client IDs carry equal pair digests: the digest sits at a fixed distance from the end. */
  lemma EqualIdsEqualDigests(h: Digest, u1: string, m1: string, s1: string, u2: string, m2: string, s2: string)
    requires HexDigest(h) && |s1| == SUFFIX_LEN && |s2| == SUFFIX_LEN
    requires ClientId(h, u1, m1, s1) == ClientId(h, u2, m2, s2)
    ensures h(Pair(u1, m1)) == h(Pair(u2, m2)) && s1 == s2
  {
    DigestPosition(h, u1, m1, s1);
    DigestPosition(h, u2, m2, s2);
    SuffixOfClientId(h, u1, m1, s1);
    SuffixOfClientId(h, u2, m2, s2);
  }

  lemma DigestPosition(h: Digest, u: string, m: string, s: string)
    requires HexDigest(h) && |s| == SUFFIX_LEN
    ensures var id := ClientId(h, u, m, s);
            |id| > 49 && id[|id| - 49..|id| - 17] == h(Pair(u, m))
  {
    var front := "user-" + Sanitized(h, u) + "-" + Sanitized(h, m) + "-";
    var id := ClientId(h, u, m, s);
    assert id == front + h(Pair(u, m)) + "-" + s;
  }

  /**
   A client ID names one user and one model. Both halves: same pair and suffix, same ID; different
   pair or suffix, different ID, as long as the digest tells the two pairs apart.
   */
  lemma ClientIdIdentifiesPair(h: Digest, u1: string, m1: string, s1: string, u2: string, m2: string, s2: string)
    requires HexDigest(h) && |s1| == SUFFIX_LEN && |s2| == SUFFIX_LEN
    requires NUL !in m1 && NUL !in m2
    requires CollisionFree(h, {Pair(u1, m1), Pair(u2, m2)})
    ensures ClientId(h, u1, m1, s1) == ClientId(h, u2, m2, s2) <==> u1 == u2 && m1 == m2 && s1 == s2
  {
    if ClientId(h, u1, m1, s1) == ClientId(h, u2, m2, s2) {
      EqualIdsEqualDigests(h, u1, m1, s1, u2, m2, s2);
      assert Pair(u1, m1) in {Pair(u1, m1), Pair(u2, m2)};
      PairInjective(u1, m1, u2, m2);
    }
  }

  /**
   Sanitizing alone does not keep usernames apart, although the comment on sanitizeUsernameForKey says
   so: a name that is already valid is returned unchanged, and it can be the sanitized form of another.
   */
  lemma SanitizedCollides(h: Digest)
    requires HexDigest(h)
    ensures var raw := "a@b";
            var literal := Sanitized(h, raw);
            literal != raw && Sanitized(h, literal) == Sanitized(h, raw)
  {
    var raw := "a@b";
    SanitizedIsDataKey(h, raw);
    assert !IsDataKeyByte(raw[1]);
    assert !IsDataKeyName(raw);
    assert |Sanitized(h, raw)| >= DIGEST_LEN;
  }

  /** Exactly when two different usernames sanitize alike: one is literally the other's sanitized form. */
  lemma SanitizedCollidesExactly(h: Digest, u: string, v: string)
    requires HexDigest(h) && u != v && CollisionFree(h, {u, v})
    ensures Sanitized(h, u) == Sanitized(h, v) <==> u == Sanitized(h, v) || v == Sanitized(h, u)
  {
    SanitizedIsDataKey(h, u);
    SanitizedIsDataKey(h, v);
    assert u in {u, v} && v in {u, v};
    if u != Sanitized(h, u) { SanitizedTail(h, u); }
    if v != Sanitized(h, v) { SanitizedTail(h, v); }
    if u == Sanitized(h, v) { SanitizedFixed(h, v); }
    if v == Sanitized(h, u) { SanitizedFixed(h, u); }
  }

  lemma SanitizedTail(h: Digest, u: string)
    requires HexDigest(h) && u != Sanitized(h, u)
    ensures var r := Sanitized(h, u); |r| >= DIGEST_LEN && r[|r| - DIGEST_LEN..] == h(u)
  {
  }

  lemma SanitizedFixed(h: Digest, u: string)
    requires HexDigest(h)
    ensures Sanitized(h, Sanitized(h, u)) == Sanitized(h, u)
  {
    SanitizedIsDataKey(h, u);
  }
}
