/**
 * The key-format check every service exposes as `validateApiKey`: the
 * trimmed key must be longer than 30 units and match /^AIza[a-zA-Z0-9_-]+$/.
 */
module ApiKey {
  import opened JsStrings

  const KeyPrefix: JsString := Str("AIza")

  /** One unit of the class [a-zA-Z0-9_-]. */
  predicate IsKeyChar(u: int) {
    'A' as int <= u <= 'Z' as int || 'a' as int <= u <= 'z' as int || IsDigit(u)
    || u == '_' as int || u == '-' as int
  }

  /** The regular expression's `[a-zA-Z0-9_-]+$`: one unit of the class, then more or the end. */
  predicate MatchesKeyTail(s: JsString)
    decreases |s|
  {
    s != [] && IsKeyChar(s[0]) && (|s| == 1 || MatchesKeyTail(s[1..]))
  }

  /** /^AIza[a-zA-Z0-9_-]+$/.test(s) */
  predicate MatchesKeyPattern(s: JsString) {
    StartsWith(s, KeyPrefix) && MatchesKeyTail(s[4..])
  }

  /** `validateApiKey`: false for the empty key, else the length and pattern test on the trimmed key. */
  predicate ValidateApiKey(key: JsString)
    ensures ValidateApiKey(key) ==> |Trim(key)| > 30 && StartsWith(Trim(key), KeyPrefix)
  {
    if key == [] then false
    else
      var trimmed := Trim(key);
      |trimmed| > 30 && MatchesKeyPattern(trimmed)
  }

  /** The `+` matches exactly the non-empty strings of key characters. */
  lemma {:induction false} MatchesKeyTailIff(s: JsString)
    ensures MatchesKeyTail(s) <==> (s != [] && forall i :: 0 <= i < |s| ==> IsKeyChar(s[i]))
    decreases |s|
  {
    if |s| > 1 {
      MatchesKeyTailIff(s[1..]);
      if forall i :: 0 <= i < |s| ==> IsKeyChar(s[i]) {
        assert forall i :: 0 <= i < |s[1..]| ==> IsKeyChar(s[1..][i]) by {
          forall i | 0 <= i < |s[1..]| ensures IsKeyChar(s[1..][i]) {
            assert s[1..][i] == s[i + 1];
          }
        }
      }
      if MatchesKeyTail(s) {
        forall i | 0 <= i < |s| ensures IsKeyChar(s[i]) {
          if i > 0 {
            assert s[i] == s[1..][i - 1];
          }
        }
      }
    }
  }

  /**
   * A key is valid exactly when its trimmed form is longer than 30 units,
   * starts with AIza and holds nothing but letters, digits, `_` and `-`.
   */
  lemma ValidateApiKeyIff(key: JsString)
    ensures ValidateApiKey(key) <==>
      (var t := Trim(key);
       |t| > 30 && t[..4] == KeyPrefix && forall i :: 4 <= i < |t| ==> IsKeyChar(t[i]))
  {
    var t := Trim(key);
    if |t| > 30 {
      MatchesKeyTailIff(t[4..]);
      assert forall i :: 4 <= i < |t| ==> t[i] == t[4..][i - 4];
    }
    if key == [] {
      assert t == [];
    }
  }

  /** A valid key is never blank, so it also passes every store's presence test. */
  lemma ValidKeyNotBlank(key: JsString)
    requires ValidateApiKey(key)
    ensures !IsBlank(key) && |key| > 30
  {
    var a := TrimSlice(key);
  }

  /** White space around a key does not change the verdict. */
  lemma ValidateApiKeyTrimmed(key: JsString)
    ensures ValidateApiKey(Trim(key)) == ValidateApiKey(key)
  {
    TrimIdempotent(key);
  }

  /** A key of 30 units or fewer is rejected, whatever its characters. */
  lemma ShortKeyRejected(key: JsString)
    requires |key| <= 30
    ensures !ValidateApiKey(key)
  {
    var a := TrimSlice(key);
  }
}
