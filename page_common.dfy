/**
 * What the generator pages share: the key they generate with (the stored key,
 * else the build-time key), the test that reopens the key input after a
 * rate-limit error, the merge of a shared item into the loaded list, and the
 * relation a page keeps between the list it shows and the list its store holds.
 */
module PageCommon {
  import opened Wrappers
  import opened JsStrings
  import opened GeminiReply
  import opened BoundedHistory

  /** A key as `||` sees it: present and non-empty. */
  predicate Truthy(key: Option<JsString>) { key.Some? && key.value != [] }

  /** `apiKey || envApiKey`, None when both are falsy. */
  function ActiveKey(stored: Option<JsString>, env: Option<JsString>): (r: Option<JsString>)
    ensures r.Some? <==> Truthy(stored) || Truthy(env)
    ensures r.Some? ==> r.value != []
    ensures Truthy(stored) ==> r == stored
    ensures !Truthy(stored) && Truthy(env) ==> r == env
  {
    if Truthy(stored) then stored
    else if Truthy(env) then env
    else None
  }

  const TeVeelRequests: JsString := Str("Te veel requests")
  const Code429: JsString := Str("429")

  /**
   * `error.message?.includes('Te veel requests') || error.message?.includes('429')`.
   * An error the engine raises carries no service message and never counts.
   */
  predicate IsRateLimited(e: Error) {
    e.Thrown? && (Includes(e.message, TeVeelRequests) || Includes(e.message, Code429))
  }

  /** A text in which the first unit of `sub` never occurs does not include `sub`. */
  lemma {:induction false} NoLeadUnit(s: JsString, sub: JsString)
    requires sub != [] && forall i :: 0 <= i < |s| ==> s[i] != sub[0]
    ensures !Includes(s, sub)
    decreases |s|
  {
    if s != [] {
      assert forall i :: 0 <= i < |s[1..]| ==> s[1..][i] == s[i + 1];
      NoLeadUnit(s[1..], sub);
      if |sub| <= |s| {
        assert s[..|sub|][0] == s[0];
      }
    }
  }

  /** The message of a 429 reply reopens the key input. */
  lemma Status429RateLimited(message: Option<JsString>)
    ensures IsRateLimited(Thrown(StatusError(429, message)))
  {
    assert RateLimitMessage == [] + TeVeelRequests + (Str(". ") + Str("Wacht even en probeer opnieuw."));
    IncludesInfix([], TeVeelRequests, Str(". ") + Str("Wacht even en probeer opnieuw."));
  }

  /** The message of a 401 reply does not: it holds neither a 'T' nor a '4'. */
  lemma Status401NotRateLimited(message: Option<JsString>)
    ensures !IsRateLimited(Thrown(StatusError(401, message)))
  {
    var a, b := "Ongeldige API key. ", "Check je key en probeer opnieuw.";
    assert InvalidKeyMessage == Str(a) + Str(b);
    AvoidsUnit(a, 'T');
    AvoidsUnit(b, 'T');
    NoLeadUnitOfJoin(Str(a), Str(b), TeVeelRequests);
    AvoidsUnit(a, '4');
    AvoidsUnit(b, '4');
    NoLeadUnitOfJoin(Str(a), Str(b), Code429);
  }

  /** A literal without the character `c` holds no unit of it. */
  lemma AvoidsUnit(a: string, c: char)
    requires c as int < 0xFFFD && forall i :: 0 <= i < |a| ==> a[i] != c
    ensures forall i :: 0 <= i < |Str(a)| ==> Str(a)[i] != Unit(c)
  { }

  /** `NoLeadUnit` for a text in two parts. */
  lemma NoLeadUnitOfJoin(a: JsString, b: JsString, sub: JsString)
    requires sub != []
    requires forall i :: 0 <= i < |a| ==> a[i] != sub[0]
    requires forall i :: 0 <= i < |b| ==> b[i] != sub[0]
    ensures !Includes(a + b, sub)
  {
    NoLeadUnit(a + b, sub);
  }

  /**
   * Any other failed status counts as a rate limit when the server's own
   * message mentions 429, since that message ends the thrown one.
   */
  lemma ServerMessageRateLimited(status: nat, a: JsString, b: JsString)
    requires status != 401 && status != 429
    ensures IsRateLimited(Thrown(StatusError(status, Some(a + Code429 + b))))
  {
    var m := a + Code429 + b;
    StatusErrorReadable(status, m);
    var head := Str("API fout: ") + Decimal(status) + Str(" - ");
    assert StatusError(status, Some(m)) == (head + a) + Code429 + b;
    IncludesInfix(head + a, Code429, b);
  }

  /** `list.some(x => same(x, item))`, left to right. */
  predicate HasSame<T>(xs: seq<T>, item: T, same: (T, T) -> bool)
    decreases |xs|
  {
    xs != [] && (same(xs[0], item) || HasSame(xs[1..], item, same))
  }

  /** `some` finds a match wherever it is. */
  lemma {:induction false} HasSameIff<T>(xs: seq<T>, item: T, same: (T, T) -> bool)
    ensures HasSame(xs, item, same) <==> exists i :: 0 <= i < |xs| && same(xs[i], item)
    decreases |xs|
  {
    if xs != [] {
      HasSameIff(xs[1..], item, same);
      if exists i :: 0 <= i < |xs| && same(xs[i], item) {
        var i :| 0 <= i < |xs| && same(xs[i], item);
        if i > 0 {
          assert xs[1..][i - 1] == xs[i];
        }
      }
      if HasSame(xs[1..], item, same) {
        var i :| 0 <= i < |xs[1..]| && same(xs[1..][i], item);
        assert xs[i + 1] == xs[1..][i];
      }
    }
  }

  /**
   * The list a page shows after merging a shared item into what it loaded:
   * the item in front unless some loaded item has the same content.
   */
  function Merge<T>(loaded: seq<T>, shared: Option<T>, same: (T, T) -> bool): (r: seq<T>)
    ensures shared.None? ==> r == loaded
    ensures shared.Some? && HasSame(loaded, shared.value, same) ==> r == loaded
    ensures shared.Some? && !HasSame(loaded, shared.value, same) ==> r == [shared.value] + loaded
  {
    if shared.Some? && !HasSame(loaded, shared.value, same) then [shared.value] + loaded else loaded
  }

  /**
   * Opening the same share link again adds nothing: the second merge finds
   * the item the first one put in front (or the loaded one it matched).
   */
  lemma MergeIdempotent<T>(loaded: seq<T>, s1: T, s2: T, same: (T, T) -> bool)
    requires same(s1, s2) && forall x :: same(x, s1) ==> same(x, s2)
    ensures Merge(Merge(loaded, Some(s1), same), Some(s2), same) == Merge(loaded, Some(s1), same)
  {
    var m := Merge(loaded, Some(s1), same);
    if HasSame(loaded, s1, same) {
      HasSameIff(loaded, s1, same);
      HasSameIff(loaded, s2, same);
      var i :| 0 <= i < |loaded| && same(loaded[i], s1);
      assert same(loaded[i], s2);
    } else {
      assert m[0] == s1;
    }
  }

  /** Deleting from a concatenation deletes from each part. */
  lemma {:induction false} WithoutIdConcat<T>(a: seq<T>, b: seq<T>, idOf: T -> JsString, id: JsString)
    ensures WithoutId(a + b, idOf, id) == WithoutId(a, idOf, id) + WithoutId(b, idOf, id)
  {
    if a == [] {
      assert a + b == b;
    } else {
      assert (a + b)[0] == a[0] && (a + b)[1..] == a[1..] + b;
      WithoutIdConcat(a[1..], b, idOf, id);
    }
  }

  /**
   * While every write succeeds, the stored list is the front of the shown
   * list: a prepend keeps that, even when the store drops its oldest item
   * and the page does not.
   */
  lemma PrefixAfterPrepend<T>(stored: seq<T>, shown: seq<T>, item: T)
    requires stored <= shown
    ensures Prepended(stored, item) <= [item] + shown
  {
    var p := Prepended(stored, item);
    assert p == ([item] + stored)[..|p|];
  }

  /** A delete from both lists keeps the stored list the front of the shown one. */
  lemma PrefixAfterDelete<T>(stored: seq<T>, shown: seq<T>, idOf: T -> JsString, id: JsString)
    requires stored <= shown
    ensures WithoutId(stored, idOf, id) <= WithoutId(shown, idOf, id)
  {
    assert shown == stored + shown[|stored|..];
    WithoutIdConcat(stored, shown[|stored|..], idOf, id);
  }
}
