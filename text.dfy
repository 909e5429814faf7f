/** The few string operations of Rust's standard library that the generator
    relies on: `char::is_whitespace`, `str::trim`, `str::starts_with`,
    `str::ends_with` and `str::find` for a single character. */
module Text {
  import opened Results

  /** Unicode White_Space, the set `char::is_whitespace` accepts. */
  predicate IsWhitespace(c: char)
  {
    || ('\t' <= c <= '\r')
    || c == ' '
    || c == '\U{85}'
    || c == '\U{A0}'
    || c == '\U{1680}'
    || ('\U{2000}' <= c <= '\U{200A}')
    || c == '\U{2028}'
    || c == '\U{2029}'
    || c == '\U{202F}'
    || c == '\U{205F}'
    || c == '\U{3000}'
  }

  /** The first position at or after `from` that holds `c`, if any
      (`IndexOfMeaning` states that it is the first). */
  function IndexOf(s: string, c: char, from: nat): (r: Option<nat>)
    requires from <= |s|
    decreases |s| - from
    ensures r.Some? ==> from <= r.value < |s|
  {
    if from == |s| then None
    else if s[from] == c then Some(from)
    else IndexOf(s, c, from + 1)
  }

  lemma {:induction false} IndexOfMeaning(s: string, c: char, from: nat)
    requires from <= |s|
    decreases |s| - from
    ensures var r := IndexOf(s, c, from);
      && (r.Some? ==> s[r.value] == c && forall k :: from <= k < r.value ==> s[k] != c)
      && (r.None? ==> forall k :: from <= k < |s| ==> s[k] != c)
  {
    if from < |s| && s[from] != c {
      IndexOfMeaning(s, c, from + 1);
    }
  }

  /** The first position at or after `from` that is not whitespace, or |s|. */
  function SkipWhitespace(s: string, from: nat): (r: nat)
    requires from <= |s|
    decreases |s| - from
    ensures from <= r <= |s|
  {
    if from == |s| || !IsWhitespace(s[from]) then from else SkipWhitespace(s, from + 1)
  }

  lemma {:induction false} SkipWhitespaceMeaning(s: string, from: nat)
    requires from <= |s|
    decreases |s| - from
    ensures var r := SkipWhitespace(s, from);
      && (forall k :: from <= k < r ==> IsWhitespace(s[k]))
      && (r < |s| ==> !IsWhitespace(s[r]))
  {
    if from < |s| && IsWhitespace(s[from]) {
      SkipWhitespaceMeaning(s, from + 1);
    }
  }

  /** The end of `s[lo..hi]` once its trailing whitespace is dropped. */
  function DropTrailingWhitespace(s: string, lo: nat, hi: nat): (r: nat)
    requires lo <= hi <= |s|
    decreases hi
    ensures lo <= r <= hi
  {
    if hi == lo || !IsWhitespace(s[hi - 1]) then hi else DropTrailingWhitespace(s, lo, hi - 1)
  }

  lemma {:induction false} DropTrailingWhitespaceMeaning(s: string, lo: nat, hi: nat)
    requires lo <= hi <= |s|
    decreases hi
    ensures var r := DropTrailingWhitespace(s, lo, hi);
      && (forall k :: r <= k < hi ==> IsWhitespace(s[k]))
      && (lo < r ==> !IsWhitespace(s[r - 1]))
  {
    if hi > lo && IsWhitespace(s[hi - 1]) {
      DropTrailingWhitespaceMeaning(s, lo, hi - 1);
    }
  }

  /** The bounds of `str::trim`. */
  function TrimBounds(s: string): (b: (nat, nat))
    ensures b.0 <= b.1 <= |s|
  {
    var lo := SkipWhitespace(s, 0);
    (lo, DropTrailingWhitespace(s, lo, |s|))
  }

  /** The text between the bounds of `str::trim` starts and ends with a
      non-whitespace character, and everything outside them is whitespace. */
  lemma TrimBoundsMeaning(s: string)
    ensures var b := TrimBounds(s);
      && (forall k :: 0 <= k < b.0 ==> IsWhitespace(s[k]))
      && (forall k :: b.1 <= k < |s| ==> IsWhitespace(s[k]))
      && (b.0 < b.1 ==> !IsWhitespace(s[b.0]) && !IsWhitespace(s[b.1 - 1]))
  {
    var lo := SkipWhitespace(s, 0);
    SkipWhitespaceMeaning(s, 0);
    DropTrailingWhitespaceMeaning(s, lo, |s|);
  }

  /** `str::trim`: `s` without its leading and trailing whitespace. */
  function Trim(s: string): string
  {
    var b := TrimBounds(s);
    s[b.0..b.1]
  }

  /** Trimming a text that neither starts nor ends with whitespace changes nothing. */
  lemma TrimNoOp(s: string)
    requires s == [] || (!IsWhitespace(s[0]) && !IsWhitespace(s[|s| - 1]))
    ensures Trim(s) == s
  {
    var b := TrimBounds(s);
    TrimBoundsMeaning(s);
    if s != [] {
      assert b.0 == 0;
      assert b.1 == |s|;
    }
  }

  /** Trimming twice is trimming once. */
  lemma TrimIdempotent(s: string)
    ensures Trim(Trim(s)) == Trim(s)
  {
    TrimBoundsMeaning(s);
    TrimNoOp(Trim(s));
  }

  predicate StartsWith(s: string, prefix: string)
  {
    |prefix| <= |s| && s[..|prefix|] == prefix
  }

  predicate EndsWith(s: string, suffix: string)
  {
    |suffix| <= |s| && s[|s| - |suffix|..] == suffix
  }

  /** A concatenation starts with its first part and ends with its second. */
  lemma AppendParts(a: string, b: string)
    ensures StartsWith(a + b, a) && EndsWith(a + b, b)
  {
    assert (a + b)[..|a|] == a;
    assert (a + b)[|a|..] == b;
  }

  /** Appending text keeps a prefix. */
  lemma PrefixKept(s: string, more: string, prefix: string)
    requires StartsWith(s, prefix)
    ensures StartsWith(s + more, prefix)
  {
    assert (s + more)[..|prefix|] == s[..|prefix|];
  }
}
