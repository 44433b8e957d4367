/**
 The three Go string primitives that `envKey` chains: `strings.TrimSpace`,
 `strings.ReplaceAll` with one-character from and to strings, and
 `strings.ToUpper`, over strings of code points.
 */
module GoStrings {
  import opened Runes

  /** Every character of `t` is white space. */
  predicate AllSpace(t: string) {
    forall i :: 0 <= i < |t| ==> IsSpace(t[i])
  }

  /** `r` is what is left of `s` once a white-space prefix of length `lo`
      and a white-space suffix are cut off. */
  predicate Strips(s: string, lo: int, r: string) {
    && 0 <= lo
    && lo + |r| <= |s|
    && r == s[lo..lo + |r|]
    && AllSpace(s[..lo])
    && AllSpace(s[lo + |r|..])
  }

  /** Neither end of `r` is white space. */
  predicate Trimmed(r: string) {
    r == [] || (!IsSpace(r[0]) && !IsSpace(r[|r| - 1]))
  }

  /** Drops leading white space. */
  function TrimLeft(s: string): (r: string)
    ensures |r| <= |s|
    ensures r == s[|s| - |r|..]
    ensures AllSpace(s[..|s| - |r|])
    ensures r == [] || !IsSpace(r[0])
  {
    if s == [] || !IsSpace(s[0]) then s else TrimLeft(s[1..])
  }

  /** Drops trailing white space. */
  function TrimRight(s: string): (r: string)
    ensures |r| <= |s|
    ensures r == s[..|r|]
    ensures AllSpace(s[|r|..])
    ensures r == [] || !IsSpace(r[|r| - 1])
  {
    if s == [] || !IsSpace(s[|s| - 1]) then s else TrimRight(s[..|s| - 1])
  }

  /** `strings.TrimSpace`: the middle of `s` between its leading and its
      trailing white space. */
  function TrimSpace(s: string): (r: string)
    ensures |r| <= |s|
    ensures exists lo :: Strips(s, lo, r)
    ensures Trimmed(r)
  {
    var l := TrimLeft(s);
    var r := TrimRight(l);
    TrimBothStrips(s, l, r);
    r
  }

  /** Cutting a white-space prefix and then a white-space suffix cuts white
      space only. */
  lemma TrimBothStrips(s: string, l: string, r: string)
    requires |l| <= |s| && l == s[|s| - |l|..] && AllSpace(s[..|s| - |l|])
    requires |r| <= |l| && r == l[..|r|] && AllSpace(l[|r|..])
    ensures Strips(s, |s| - |l|, r)
  {
    var lo := |s| - |l|;
    assert s[lo + |r|..] == l[|r|..];
    assert s[lo..lo + |r|] == l[..|r|];
  }

  /** What `Strips` says about the individual characters of `s`. */
  lemma StripsAt(s: string, lo: int, t: string)
    requires Strips(s, lo, t)
    requires Trimmed(t)
    ensures forall i :: 0 <= i < lo ==> IsSpace(s[i])
    ensures forall i :: lo + |t| <= i < |s| ==> IsSpace(s[i])
    ensures forall i :: lo <= i < lo + |t| ==> s[i] == t[i - lo]
    ensures t != [] ==> !IsSpace(s[lo]) && !IsSpace(s[lo + |t| - 1])
  {
    assert forall i :: 0 <= i < lo ==> s[i] == s[..lo][i];
    assert forall i :: lo + |t| <= i < |s| ==> s[i] == s[lo + |t|..][i - lo - |t|];
  }

  /** Cutting white space off both ends determines the result: any trimmed
      string obtained from `s` that way is `TrimSpace(s)`. */
  lemma {:induction false} TrimSpaceUnique(s: string, lo: int, t: string)
    requires Strips(s, lo, t)
    requires Trimmed(t)
    ensures t == TrimSpace(s)
  {
    var r := TrimSpace(s);
    var lo' :| Strips(s, lo', r);
    StripsAt(s, lo, t);
    StripsAt(s, lo', r);
    if t != [] && r != [] {
      // Each start is a non-space character, which the other cut leaves
      // out only if it lies inside the other result; likewise each end.
      assert lo <= lo' && lo' <= lo;
      assert lo + |t| <= lo' + |r| && lo' + |r| <= lo + |t|;
      forall j | 0 <= j < |t|
        ensures t[j] == r[j]
      {
        assert s[lo + j] == t[j] && s[lo' + j] == r[j];
      }
    } else if t != [] || r != [] {
      // One result is empty, so every character of `s` is white space,
      // yet the other result starts with a non-space character.
      assert false;
    }
  }

  /** A string whose ends are not white space is left as it is. */
  lemma TrimSpaceOfTrimmed(s: string)
    requires Trimmed(s)
    ensures TrimSpace(s) == s
  {
    assert s[..0] == [] && s[|s|..] == [];
    TrimSpaceUnique(s, 0, s);
  }

  /** `strings.TrimSpace` is idempotent. */
  lemma TrimSpaceIdempotent(s: string)
    ensures TrimSpace(TrimSpace(s)) == TrimSpace(s)
  {
    TrimSpaceOfTrimmed(TrimSpace(s));
  }

  /** `strings.ReplaceAll(s, from, to)` for one-character `from` and `to`:
      each occurrence of `from` is replaced and nothing else moves. */
  function ReplaceAll(s: string, from: char, to: char): (r: string)
    ensures |r| == |s|
    ensures forall i :: 0 <= i < |s| && s[i] == from ==> r[i] == to
    ensures forall i :: 0 <= i < |s| && s[i] != from ==> r[i] == s[i]
  {
    if s == [] then []
    else [if s[0] == from then to else s[0]] + ReplaceAll(s[1..], from, to)
  }

  /** After replacing `from` by a different character, no `from` is left. */
  lemma ReplaceAllRemoves(s: string, from: char, to: char)
    requires from != to
    ensures from !in ReplaceAll(s, from, to)
  {
  }

  /** `strings.ToUpper`, with the case mapping restricted to ASCII. */
  function ToUpper(s: string): (r: string)
    ensures |r| == |s|
    ensures forall i :: 0 <= i < |s| ==> r[i] == UpperChar(s[i])
  {
    if s == [] then [] else [UpperChar(s[0])] + ToUpper(s[1..])
  }

  /** No lower-case letter survives `ToUpper`. */
  lemma ToUpperHasNoLower(s: string)
    ensures forall i :: 0 <= i < |s| ==> !IsLower(ToUpper(s)[i])
  {
  }
}
