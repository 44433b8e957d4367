/**
 `envKey`: the name under which a credential is exported to the child.
 The key is trimmed, spaces and hyphens become underscores, and the result
 is upper-cased, in that order.
 */
module EnvKeys {
  import opened Runes
  import opened GoStrings

  /** The replace-and-upper-case steps applied to an already trimmed key:
      each character is put in normal form, in place. */
  function Normalise(t: string): (r: string)
    ensures |r| == |t|
    ensures forall i :: 0 <= i < |r| ==> r[i] == NormChar(t[i])
    ensures ' ' !in r && '-' !in r
    ensures forall i :: 0 <= i < |r| ==> !IsLower(r[i])
  {
    var a := ReplaceAll(t, ' ', '_');
    var b := ReplaceAll(a, '-', '_');
    var r := ToUpper(b);
    assert forall i :: 0 <= i < |r| ==> r[i] == NormChar(t[i]) by {
      forall i | 0 <= i < |r|
        ensures r[i] == NormChar(t[i])
      {
        assert r[i] == UpperChar(b[i]);
      }
    }
    r
  }

  /** The environment-variable name derived from credential key `s`. It is
      never longer than the key and holds no space, no hyphen and no
      lower-case letter. */
  function EnvKey(s: string): (r: string)
    ensures |r| <= |s|
    ensures ' ' !in r && '-' !in r
    ensures forall i :: 0 <= i < |r| ==> !IsLower(r[i])
  {
    Normalise(TrimSpace(s))
  }

  /** Nothing else changes: the name is the trimmed key position for
      position, each character put in normal form (`NormChar`). */
  lemma EnvKeyPointwise(s: string)
    ensures |EnvKey(s)| == |TrimSpace(s)|
    ensures forall i :: 0 <= i < |EnvKey(s)| ==> EnvKey(s)[i] == NormChar(TrimSpace(s)[i])
  {
  }

  /** A name is empty exactly when the key is nothing but white space. */
  lemma EnvKeyEmpty(s: string)
    ensures EnvKey(s) == [] <==> AllSpace(s)
  {
    if AllSpace(s) {
      assert s[..0] == [] && s[0..] == s;
      TrimSpaceUnique(s, 0, []);
    } else {
      var lo :| Strips(s, lo, TrimSpace(s));
      if TrimSpace(s) == [] {
        StripsAt(s, lo, []);
      }
    }
  }

  /** Putting characters in normal form twice is the same as once. */
  lemma NormaliseIdempotent(t: string)
    ensures Normalise(Normalise(t)) == Normalise(t)
  {
    var r := Normalise(t);
    forall i | 0 <= i < |r|
      ensures Normalise(r)[i] == r[i]
    {
      NormCharIdempotent(t[i]);
    }
  }

  /** A trimmed key stays trimmed once normalised. */
  lemma NormaliseKeepsTrimmed(t: string)
    requires Trimmed(t)
    ensures Trimmed(Normalise(t))
  {
    if t != [] {
      NormCharKeepsNonSpace(t[0]);
      NormCharKeepsNonSpace(t[|t| - 1]);
    }
  }

  /** Normalising a name again changes nothing. */
  lemma EnvKeyIdempotent(s: string)
    ensures EnvKey(EnvKey(s)) == EnvKey(s)
  {
    var t := TrimSpace(s);
    var r := Normalise(t);
    NormaliseKeepsTrimmed(t);
    TrimSpaceOfTrimmed(r);
    NormaliseIdempotent(t);
  }

  /** Keys from the credential store and the names they are exported as;
      `a-b` and `a b` collide on one name. */
  lemma EnvKeyExamples()
    ensures EnvKey(" api key ") == "API_KEY"
    ensures EnvKey("db-pass") == "DB_PASS"
    ensures EnvKey("a-b") == "A_B" && EnvKey("a b") == "A_B"
  {
    ApiKeyExample();
    DbPassExample();
    CollidingExample();
  }

  lemma ApiKeyExample()
    ensures EnvKey(" api key ") == "API_KEY"
  {
    var s := " api key ";
    assert s[..1] == " " && s[8..] == " " && s[1..8] == "api key";
    TrimSpaceUnique(s, 1, "api key");
    ApiKeyChars();
    NamesMatch("api key", "API_KEY");
  }

  /** The characters of `api key` one by one. Kept apart from
      `ApiKeyExample` because, next to the trimming facts there, the
      verifier needs far more effort for the same seven cases. */
  lemma ApiKeyChars()
    ensures forall i :: 0 <= i < 7 ==> NormChar("api key"[i]) == "API_KEY"[i]
  {
  }

  lemma DbPassExample()
    ensures EnvKey("db-pass") == "DB_PASS"
  {
    TrimSpaceOfTrimmed("db-pass");
    assert forall i :: 0 <= i < 7 ==> NormChar("db-pass"[i]) == "DB_PASS"[i];
    NamesMatch("db-pass", "DB_PASS");
  }

  lemma CollidingExample()
    ensures EnvKey("a-b") == "A_B" && EnvKey("a b") == "A_B"
  {
    HyphenExample();
    SpaceExample();
  }

  lemma HyphenExample()
    ensures EnvKey("a-b") == "A_B"
  {
    TrimSpaceOfTrimmed("a-b");
    assert forall i :: 0 <= i < 3 ==> NormChar("a-b"[i]) == "A_B"[i];
    NamesMatch("a-b", "A_B");
  }

  lemma SpaceExample()
    ensures EnvKey("a b") == "A_B"
  {
    TrimSpaceOfTrimmed("a b");
    assert forall i :: 0 <= i < 3 ==> NormChar("a b"[i]) == "A_B"[i];
    NamesMatch("a b", "A_B");
  }

  /** Interior white space other than a plain space is kept: a tab inside
      a key is not turned into an underscore. */
  lemma EnvKeyKeepsInteriorTab()
    ensures EnvKey("a\tb") == "A\tB"
  {
    TrimSpaceOfTrimmed("a\tb");
    assert forall i :: 0 <= i < 3 ==> NormChar("a\tb"[i]) == "A\tB"[i];
    NamesMatch("a\tb", "A\tB");
  }

  /** Character-by-character check of a concrete name against a trimmed key. */
  lemma NamesMatch(t: string, name: string)
    requires |t| == |name|
    requires forall i :: 0 <= i < |t| ==> NormChar(t[i]) == name[i]
    ensures forall s :: TrimSpace(s) == t ==> EnvKey(s) == name
  {
    forall s | TrimSpace(s) == t
      ensures EnvKey(s) == name
    {
      EnvKeyPointwise(s);
    }
  }
}
