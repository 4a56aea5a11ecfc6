/** The string operations the services apply to emails, names and sentence
    content: JavaScript's `trim()` and `toLowerCase()`, and the case-insensitive
    substring match used by the email search. */
module Text {

  /** The characters JavaScript's `String.prototype.trim` removes
      (white space and line terminators). */
  predicate IsSpace(c: char)
  {
    c == ' ' || c == '\t' || c == '\n' || c == '\r' || c == '\U{000B}' || c == '\U{000C}'
    || c == '\U{00A0}' || c == '\U{1680}' || ('\U{2000}' <= c <= '\U{200A}')
    || c == '\U{2028}' || c == '\U{2029}' || c == '\U{202F}' || c == '\U{205F}'
    || c == '\U{3000}' || c == '\U{FEFF}'
  }

  /** Drops leading white space; what is left is a suffix of `s`. */
  function TrimStart(s: string): (r: string)
    ensures |r| <= |s| && r == s[|s| - |r|..]
    ensures forall k :: 0 <= k < |s| - |r| ==> IsSpace(s[k])
    ensures r == [] || !IsSpace(r[0])
  {
    if s != [] && IsSpace(s[0]) then TrimStart(s[1..]) else s
  }

  /** Drops trailing white space; what is left is a prefix of `s`. */
  function TrimEnd(s: string): (r: string)
    ensures |r| <= |s| && r == s[..|r|]
    ensures forall k :: |r| <= k < |s| ==> IsSpace(s[k])
    ensures r == [] || !IsSpace(r[|r| - 1])
  {
    if s != [] && IsSpace(s[|s| - 1]) then TrimEnd(s[..|s| - 1]) else s
  }

  /** `s.trim()`. */
  function Trim(s: string): (r: string)
    ensures |r| <= |s|
    ensures r == [] || (!IsSpace(r[0]) && !IsSpace(r[|r| - 1]))
  {
    TrimEnd(TrimStart(s))
  }

  /** The trimmed string is `s` with its leading and trailing white space
      removed, and nothing else. */
  lemma TrimStrips(s: string)
    ensures exists a :: StrippedAt(s, Trim(s), a)
  {
    StripBoth(s, TrimStart(s), Trim(s));
  }

  /** `r` is the part of `s` from position `a` on, and what `s` has before and
      after it is white space. */
  predicate StrippedAt(s: string, r: string, a: int)
  {
    0 <= a <= |s| - |r| && r == s[a..a + |r|]
    && (forall k :: 0 <= k < a ==> IsSpace(s[k]))
    && (forall k :: a + |r| <= k < |s| ==> IsSpace(s[k]))
  }

  /** Dropping white space from the front and then from the back leaves a
      part of `s` with only white space around it. */
  lemma StripBoth(s: string, t: string, r: string)
    requires |t| <= |s| && t == s[|s| - |t|..] && forall k :: 0 <= k < |s| - |t| ==> IsSpace(s[k])
    requires |r| <= |t| && r == t[..|r|] && forall k :: |r| <= k < |t| ==> IsSpace(t[k])
    ensures StrippedAt(s, r, |s| - |t|)
  {
    var a := |s| - |t|;
    forall k | a + |r| <= k < |s|
      ensures IsSpace(s[k])
    {
      assert s[k] == t[k - a];
    }
    assert r == s[a..a + |r|];
  }

  /** `s.trim() === ""`: nothing but white space. */
  predicate IsBlank(s: string)
  {
    Trim(s) == []
  }

  /** Lower-cases one character (ASCII letters only). */
  function LowerChar(c: char): char
  {
    if 'A' <= c <= 'Z' then (c as int + 32) as char else c
  }

  /** `s.toLowerCase()`. */
  function ToLower(s: string): (r: string)
    ensures |r| == |s|
  {
    seq(|s|, k requires 0 <= k < |s| => LowerChar(s[k]))
  }

  /** A string that `toLowerCase()` leaves alone. */
  predicate IsLower(s: string)
  {
    forall k :: 0 <= k < |s| ==> LowerChar(s[k]) == s[k]
  }

  /** `s.trim().toLowerCase()`: the key used for emails and for duplicate content. */
  function Normalize(s: string): string
  {
    ToLower(Trim(s))
  }

  /** Lower-casing yields a lower-case string and is idempotent. */
  lemma ToLowerIsLower(s: string)
    ensures IsLower(ToLower(s))
    ensures ToLower(ToLower(s)) == ToLower(s)
  {
  }

  /** White space is not a letter, so lower-casing never creates or destroys it. */
  lemma LowerCharKeepsSpace(c: char)
    ensures IsSpace(LowerChar(c)) <==> IsSpace(c)
  {
  }

  /** A string without surrounding white space is its own trim. */
  lemma TrimOfTrimmed(s: string)
    requires s == [] || (!IsSpace(s[0]) && !IsSpace(s[|s| - 1]))
    ensures Trim(s) == s
  {
    assert TrimStart(s) == s;
    assert TrimEnd(s) == s;
  }

  /** Trimming then lower-casing equals lower-casing then trimming; so the
      order in which a schema applies its `trim` and `lowercase` setters
      does not matter. */
  lemma {:induction false} TrimToLowerCommute(s: string)
    ensures Trim(ToLower(s)) == ToLower(Trim(s))
  {
    TrimStartToLower(s);
    TrimEndToLower(TrimStart(s));
  }

  lemma {:induction false} TrimStartToLower(s: string)
    ensures TrimStart(ToLower(s)) == ToLower(TrimStart(s))
  {
    if s != [] {
      LowerCharKeepsSpace(s[0]);
      assert ToLower(s)[1..] == ToLower(s[1..]);
      if IsSpace(s[0]) {
        TrimStartToLower(s[1..]);
      }
    }
  }

  lemma {:induction false} TrimEndToLower(s: string)
    ensures TrimEnd(ToLower(s)) == ToLower(TrimEnd(s))
  {
    if s != [] {
      LowerCharKeepsSpace(s[|s| - 1]);
      assert ToLower(s)[..|s| - 1] == ToLower(s[..|s| - 1]);
      if IsSpace(s[|s| - 1]) {
        TrimEndToLower(s[..|s| - 1]);
      }
    }
  }

  /** The normalised key is already trimmed and lower-case, and normalising
      it again changes nothing. */
  lemma NormalizeIdempotent(s: string)
    ensures IsLower(Normalize(s))
    ensures Trim(Normalize(s)) == Normalize(s)
    ensures Normalize(Normalize(s)) == Normalize(s)
  {
    var t := Trim(s);
    TrimOfTrimmed(t);
    TrimToLowerCommute(t);
    ToLowerIsLower(t);
  }

  /** `needle` occurs in `hay` at position `i`, ignoring case. */
  predicate OccursAt(hay: string, needle: string, i: nat)
  {
    i + |needle| <= |hay| && ToLower(hay[i..i + |needle|]) == ToLower(needle)
  }

  /** Case-insensitive substring test (a regular expression with flag `i`
      whose pattern has no special characters). */
  predicate ContainsIgnoreCase(hay: string, needle: string)
  {
    exists i: nat :: i <= |hay| && OccursAt(hay, needle, i)
  }
}
