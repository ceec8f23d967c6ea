/**
 * `verifyAdminKey` (lib/server/verify-admin-key.ts): the `authorization`
 * header must be present, its first space-separated segment must lower-case
 * to `kay`, and its second segment must equal the configured admin key. The
 * status written before each throw is part of the result.
 */
module AdminKey {
  import opened Wrappers
  import Errors

  /** `authorization.split(' ')`: the segments between single spaces, empty ones included. */
  function Split(s: string): (parts: seq<string>)
    ensures |parts| >= 1
    decreases |s|
  {
    if s == [] then [""]
    else
      var rest := Split(s[1..]);
      if s[0] == ' ' then [""] + rest else [[s[0]] + rest[0]] + rest[1..]
  }

  /** Joins segments back with single spaces; the inverse of `Split`. */
  function Join(parts: seq<string>): string
    requires |parts| >= 1
    decreases |parts|
  {
    if |parts| == 1 then parts[0] else parts[0] + " " + Join(parts[1..])
  }

  lemma {:induction false} SplitJoin(s: string)
    ensures Join(Split(s)) == s
    ensures forall i :: 0 <= i < |Split(s)| ==> ' ' !in Split(s)[i]
    decreases |s|
  {
    if s != [] {
      SplitJoin(s[1..]);
      var rest := Split(s[1..]);
      if s[0] == ' ' {
        assert Split(s) == [""] + rest;
        assert Join(Split(s)) == "" + " " + Join(rest);
      } else {
        assert Split(s)[1..] == rest[1..];
        if |rest| == 1 {
          assert Join(Split(s)) == [s[0]] + rest[0];
        } else {
          assert Join(Split(s)) == [s[0]] + rest[0] + " " + Join(rest[1..]);
          assert Join(rest) == rest[0] + " " + Join(rest[1..]);
        }
        assert s == [s[0]] + s[1..];
      }
    }
  }

  /** A string without spaces is a single segment. */
  lemma {:induction false} SplitNoSpace(a: string)
    requires ' ' !in a
    ensures Split(a) == [a]
    decreases |a|
  {
    if a != [] {
      SplitNoSpace(a[1..]);
      assert [a[0]] + a[1..] == a;
    }
  }

  /** Splitting at the first space: the segment before it, then the segments of the rest. */
  lemma {:induction false} SplitAtSpace(a: string, b: string)
    requires ' ' !in a
    ensures Split(a + " " + b) == [a] + Split(b)
    decreases |a|
  {
    if a == [] {
      assert a + " " + b == [' '] + b;
      assert (a + " " + b)[1..] == b;
    } else {
      SplitAtSpace(a[1..], b);
      assert (a + " " + b)[1..] == a[1..] + " " + b;
      assert [a[0]] + a[1..] == a;
    }
  }

  /**
   * `toLowerCase` on one character, for every character whose lower case
   * can be one of the letters of `kay`: ASCII upper case and U+212A KELVIN
   * SIGN, which lower-cases to `k`. Other non-ASCII characters are kept, so
   * the comparison with `kay` below decides as JavaScript does.
   */
  function LowerChar(c: char): char {
    if 'A' <= c <= 'Z' then (c as int + 32) as char
    else if c == '\U{212A}' then 'k'
    else c
  }

  function ToLower(s: string): (r: string)
    ensures |r| == |s|
    ensures forall i :: 0 <= i < |s| ==> r[i] == LowerChar(s[i])
  {
    seq(|s|, i requires 0 <= i < |s| => LowerChar(s[i]))
  }

  /** The scheme check accepts exactly the spellings of `kay` in any case (and the Kelvin sign for `K`). */
  lemma SchemeSpellings(s: string)
    ensures ToLower(s) == "kay" <==>
      |s| == 3 && s[0] in {'k', 'K', '\U{212A}'} && s[1] in {'a', 'A'} && s[2] in {'y', 'Y'}
  {
    if |s| == 3 && s[0] in {'k', 'K', '\U{212A}'} && s[1] in {'a', 'A'} && s[2] in {'y', 'Y'} {
      assert ToLower(s) == [ToLower(s)[0], ToLower(s)[1], ToLower(s)[2]];
    }
    if ToLower(s) == "kay" {
      assert LowerChar(s[0]) == 'k' && LowerChar(s[1]) == 'a' && LowerChar(s[2]) == 'y';
    }
  }

  /** What `verifyAdminKey` does: return normally, or set a status and throw an error. */
  datatype Verdict = Pass | Reject(status: int, error: Errors.CustomError)

  function MissingAdminKey(): Errors.CustomError {
    Errors.CreateError("MISSING_ADMIN_KEY", Errors.NoOverrides)
  }

  function InvalidAdminKey(): Errors.CustomError {
    Errors.CreateError("INVALID_ADMIN_KEY", Errors.NoOverrides)
  }

  /** The first two segments of the header, the second absent when there is no space. */
  function KeyName(authorization: string): string {
    Split(authorization)[0]
  }

  function ApiKey(authorization: string): Option<string> {
    var parts := Split(authorization);
    if |parts| > 1 then Some(parts[1]) else None
  }

  /**
   * `verifyAdminKey(req, res)` with the request's `authorization` header
   * (`None` when absent) and `process.env.ADMIN_API_KEY` (`None` when unset).
   */
  function VerifyAdminKey(authorization: Option<string>, adminKey: Option<string>): (v: Verdict)
    ensures v.Reject? ==> v.status in {400, 401}
    ensures v == Pass <==>
      authorization.Some? && authorization.value != ""
      && ToLower(KeyName(authorization.value)) == "kay"
      && ApiKey(authorization.value) == adminKey
  {
    if authorization.None? || authorization.value == "" then
      Reject(400, MissingAdminKey())
    else if ToLower(KeyName(authorization.value)) != "kay" then
      Reject(400, MissingAdminKey())
    else if ApiKey(authorization.value) != adminKey then
      Reject(401, InvalidAdminKey())
    else
      Pass
  }

  /** The checks run in order and the first failure decides the status and the error. */
  lemma {:induction false} FailureOrder(authorization: Option<string>, adminKey: Option<string>)
    ensures authorization.None? || authorization.value == "" ==>
      VerifyAdminKey(authorization, adminKey) == Reject(400, MissingAdminKey())
    ensures authorization.Some? && authorization.value != "" && ToLower(KeyName(authorization.value)) != "kay" ==>
      VerifyAdminKey(authorization, adminKey) == Reject(400, MissingAdminKey())
    ensures (authorization.Some? && authorization.value != "" && ToLower(KeyName(authorization.value)) == "kay"
             && ApiKey(authorization.value) != adminKey) ==>
      VerifyAdminKey(authorization, adminKey) == Reject(401, InvalidAdminKey())
    ensures MissingAdminKey().code == "AE101" && InvalidAdminKey().code == "AE102"
  {
  }

  /** Segments after the second are ignored. */
  lemma {:induction false} LaterSegmentsIgnored(scheme: string, key: string, rest: string, adminKey: Option<string>)
    requires ' ' !in scheme && ' ' !in key
    ensures VerifyAdminKey(Some(scheme + " " + key + " " + rest), adminKey)
         == VerifyAdminKey(Some(scheme + " " + key), adminKey)
  {
    SplitAtSpace(key, rest);
    SplitNoSpace(key);
    assert scheme + " " + key + " " + rest == scheme + " " + (key + " " + rest);
    SplitAtSpace(scheme, key + " " + rest);
    SplitAtSpace(scheme, key);
  }

  /** The header the client sends (`Kay ${adminKey}`) is accepted exactly when its key is the configured one. */
  lemma {:induction false} ClientHeaderAccepted(k: string, adminKey: Option<string>)
    requires ' ' !in k
    ensures VerifyAdminKey(Some("Kay " + k), adminKey) == Pass <==> adminKey == Some(k)
  {
    assert "Kay " + k == "Kay" + " " + k;
    SplitAtSpace("Kay", k);
    SplitNoSpace(k);
    assert ToLower("Kay") == "kay";
  }

  /** With no key configured, a bare scheme without any key is accepted. */
  lemma UnsetKeyAcceptsBareScheme()
    ensures VerifyAdminKey(Some("Kay"), None) == Pass
    ensures VerifyAdminKey(Some("Kay"), Some("secret")) == Reject(401, InvalidAdminKey())
  {
    SplitNoSpace("Kay");
    assert ToLower("Kay") == "kay";
  }
}
