/**
 * Per-user storage keys (src/lib/storageKeys.ts): a base key followed by the
 * logged-in user's email, rewritten so that only letters, digits and `_`
 * remain. Characters are taken to be ASCII.
 */
module StorageKeys {
  import opened Wrappers
  import Lists

  const LoggedInUserKey: string := "remindme_logged_in_user"

  /** What stands in for the email when there is none. */
  const NullEmailMarker: string := "USER_EMAIL_NULL_ERROR_INVALID_KEY"

  /** Matched by `[a-zA-Z0-9_]`. */
  predicate IsKeyChar(c: char) {
    ('a' <= c <= 'z') || ('A' <= c <= 'Z') || ('0' <= c <= '9') || c == '_'
  }

  predicate IsKeyText(s: string) {
    forall i :: 0 <= i < |s| ==> IsKeyChar(s[i])
  }

  /** `.replace(/@/g, "_at_")` */
  function ReplaceAt(s: string): string {
    if s == [] then [] else (if s[0] == '@' then "_at_" else [s[0]]) + ReplaceAt(s[1..])
  }

  /** `.replace(/\./g, "_dot_")` */
  function ReplaceDot(s: string): string {
    if s == [] then [] else (if s[0] == '.' then "_dot_" else [s[0]]) + ReplaceDot(s[1..])
  }

  /** `.replace(/[^a-zA-Z0-9_]/g, '_')` */
  function ReplaceOthers(s: string): string {
    if s == [] then [] else (if IsKeyChar(s[0]) then [s[0]] else "_") + ReplaceOthers(s[1..])
  }

  /**
   * The three replaces, chained in the order the source applies them; the
   * result holds only ASCII letters, digits and `_`.
   */
  function Sanitize(email: string): (r: string)
    ensures IsKeyText(r)
  {
    ReplaceOthersIsKeyText(ReplaceDot(ReplaceAt(email)));
    ReplaceOthers(ReplaceDot(ReplaceAt(email)))
  }

  /** The last replace leaves nothing but key characters. */
  lemma {:induction false} ReplaceOthersIsKeyText(s: string)
    ensures IsKeyText(ReplaceOthers(s))
  {
    if s != [] {
      ReplaceOthersIsKeyText(s[1..]);
      var head := if IsKeyChar(s[0]) then [s[0]] else "_";
      assert ReplaceOthers(s) == head + ReplaceOthers(s[1..]);
      assert forall i :: |head| <= i < |ReplaceOthers(s)| ==> ReplaceOthers(s)[i] == ReplaceOthers(s[1..])[i - |head|];
    }
  }

  /**
   * `getUserSpecificKey(baseKey, email)`: a missing or empty email gives the
   * base key with a fixed error suffix; otherwise the base key, `_` and the
   * sanitised email.
   */
  function GetUserSpecificKey(baseKey: string, email: Option<string>): (key: string)
    ensures email.None? || email.value == "" ==> key == baseKey + "_" + NullEmailMarker
    ensures email.Some? && email.value != "" ==> key == baseKey + "_" + Sanitize(email.value)
  {
    if email.None? || email.value == "" then baseKey + "_" + NullEmailMarker
    else baseKey + "_" + Sanitize(email.value)
  }

  // ---------------------------------------------------------------------
  // The chained replaces as one per-character rewrite.

  /** What one character of the email turns into. */
  function SanitizeChar(c: char): string {
    if c == '@' then "_at_"
    else if c == '.' then "_dot_"
    else if IsKeyChar(c) then [c]
    else "_"
  }

  /** Every character of `s` rewritten by SanitizeChar, in order. */
  function PerChar(s: string): string {
    if s == [] then [] else SanitizeChar(s[0]) + PerChar(s[1..])
  }

  lemma {:induction false} ReplaceDotAppend(a: string, b: string)
    ensures ReplaceDot(a + b) == ReplaceDot(a) + ReplaceDot(b)
  {
    if a == [] {
      assert a + b == b;
    } else {
      assert (a + b)[1..] == a[1..] + b;
      ReplaceDotAppend(a[1..], b);
    }
  }

  lemma {:induction false} ReplaceOthersAppend(a: string, b: string)
    ensures ReplaceOthers(a + b) == ReplaceOthers(a) + ReplaceOthers(b)
  {
    if a == [] {
      assert a + b == b;
    } else {
      assert (a + b)[1..] == a[1..] + b;
      ReplaceOthersAppend(a[1..], b);
    }
  }

  /** The three chained replaces rewrite each character independently. */
  lemma {:induction false} SanitizeIsPerChar(email: string)
    ensures Sanitize(email) == PerChar(email)
  {
    if email != [] {
      var c, rest := email[0], email[1..];
      var head := if c == '@' then "_at_" else [c];
      assert ReplaceAt(email) == head + ReplaceAt(rest);
      ReplaceDotAppend(head, ReplaceAt(rest));
      ReplaceOthersAppend(ReplaceDot(head), ReplaceDot(ReplaceAt(rest)));
      if c == '@' {
        assert ReplaceDot("_at_") == "_at_" by {
          assert "_at_" == ['_'] + "at_";
          assert "at_" == ['a'] + "t_";
          assert "t_" == ['t'] + "_";
          assert "_" == ['_'] + [];
        }
        assert ReplaceOthers("_at_") == "_at_" by {
          assert "_at_" == ['_'] + "at_";
          assert "at_" == ['a'] + "t_";
          assert "t_" == ['t'] + "_";
          assert "_" == ['_'] + [];
        }
      } else if c == '.' {
        assert ReplaceDot([c]) == "_dot_";
        assert ReplaceOthers("_dot_") == "_dot_" by {
          assert "_dot_" == ['_'] + "dot_";
          assert "dot_" == ['d'] + "ot_";
          assert "ot_" == ['o'] + "t_";
          assert "t_" == ['t'] + "_";
          assert "_" == ['_'] + [];
        }
      } else {
        assert ReplaceDot([c]) == [c];
      }
      SanitizeIsPerChar(rest);
    }
  }

  // ---------------------------------------------------------------------
  // Properties of the sanitised email.

  lemma {:induction false} PerCharIsKeyText(s: string)
    ensures IsKeyText(PerChar(s))
  {
    if s != [] {
      PerCharIsKeyText(s[1..]);
      assert IsKeyText(SanitizeChar(s[0]));
    }
  }

  lemma {:induction false} PerCharLength(s: string)
    ensures |PerChar(s)| == |s| + 3 * Lists.Count(s, '@') + 4 * Lists.Count(s, '.')
  {
    if s != [] {
      PerCharLength(s[1..]);
    }
  }

  /** Each `@` grows the text by three characters and each `.` by four. */
  lemma SanitizeLength(email: string)
    ensures |Sanitize(email)| == |email| + 3 * Lists.Count(email, '@') + 4 * Lists.Count(email, '.')
  {
    SanitizeIsPerChar(email);
    PerCharLength(email);
  }

  lemma {:induction false} PerCharKeepsKeyText(s: string)
    requires IsKeyText(s)
    ensures PerChar(s) == s
  {
    if s != [] {
      PerCharKeepsKeyText(s[1..]);
      assert s == [s[0]] + s[1..];
    }
  }

  /** Text made of key characters is left unchanged. */
  lemma SanitizeKeepsKeyText(s: string)
    requires IsKeyText(s)
    ensures Sanitize(s) == s
  {
    SanitizeIsPerChar(s);
    PerCharKeepsKeyText(s);
  }

  /** Sanitising an already sanitised email changes nothing. */
  lemma SanitizeIdempotent(email: string)
    ensures Sanitize(Sanitize(email)) == Sanitize(email)
  {
    SanitizeKeepsKeyText(Sanitize(email));
  }

  lemma PerCharDotted()
    ensures PerChar("a.b") == "a_dot_b"
  {
    calc {
      PerChar("a.b");
      SanitizeChar('a') + PerChar(".b");
      "a" + (SanitizeChar('.') + PerChar("b"));
      "a" + ("_dot_" + (SanitizeChar('b') + PerChar("")));
      "a_dot_b";
    }
  }

  lemma SanitizeSpelled()
    ensures Sanitize("a_dot_b") == "a_dot_b"
  {
    assert IsKeyText("a_dot_b");
    SanitizeKeepsKeyText("a_dot_b");
  }

  /** Two different emails can share a key: "a.b" and "a_dot_b". */
  lemma SanitizeNotInjective()
    ensures Sanitize("a.b") == Sanitize("a_dot_b")
    ensures GetUserSpecificKey("remindme_categories", Some("a.b"))
         == GetUserSpecificKey("remindme_categories", Some("a_dot_b"))
  {
    SanitizeIsPerChar("a.b");
    PerCharDotted();
    SanitizeSpelled();
  }

  /**
   * A user whose email is the marker text gets the same key as a caller that
   * passes no email.
   */
  lemma NullKeyReachable(baseKey: string)
    ensures GetUserSpecificKey(baseKey, Some(NullEmailMarker)) == GetUserSpecificKey(baseKey, None)
  {
    MarkerIsKeyText();
    KeyTextEmail(baseKey, NullEmailMarker);
  }

  lemma MarkerIsKeyText()
    ensures NullEmailMarker != "" && IsKeyText(NullEmailMarker)
  {
  }

  /** An email already made of key characters is used in the key as it is. */
  lemma KeyTextEmail(baseKey: string, email: string)
    requires email != "" && IsKeyText(email)
    ensures GetUserSpecificKey(baseKey, Some(email)) == baseKey + "_" + email
  {
    SanitizeKeepsKeyText(email);
  }
}
