/**
 * The string rewriting that `clean_price` applies before parsing: Python's
 * `str.replace(c, '')` (delete every occurrence of one character) and
 * `str.strip()` (trim whitespace at both ends); and the narrower trimming
 * `float()` does before it reads a literal.
 */
module Text {

  /** Python's whitespace: the characters for which `str.isspace()` holds. */
  predicate IsSpace(c: char) {
    || ('\t' <= c <= '\r')
    || ('\U{1C}' <= c <= ' ')
    || c == '\U{85}' || c == '\U{A0}' || c == '\U{1680}'
    || ('\U{2000}' <= c <= '\U{200A}')
    || c == '\U{2028}' || c == '\U{2029}' || c == '\U{202F}' || c == '\U{205F}'
    || c == '\U{3000}'
  }

  /** The information separators U+001C..U+001F, which `str.isspace()` counts as whitespace. */
  predicate IsSeparator(c: char) {
    '\U{1C}' <= c <= '\U{1F}'
  }

  /**
   * Which trimming is meant. `str.strip()` cuts every `IsSpace` character.
   * `float()` first turns non-ASCII whitespace into a space and then cuts
   * ASCII whitespace only, so the four separators are not cut.
   */
  datatype Trim = StrStrip | FloatStrip

  /** The characters `t` cuts at either end. */
  predicate Cuts(t: Trim, c: char) {
    IsSpace(c) && (t == FloatStrip ==> !IsSeparator(c))
  }

  /** `s` neither starts nor ends with a character `t` cuts. */
  predicate Trimmed(t: Trim, s: string) {
    s == [] || (!Cuts(t, s[0]) && !Cuts(t, s[|s| - 1]))
  }

  /** `s.replace(c, '')`: `s` with every occurrence of `c` deleted, the rest kept in order. */
  function Remove(s: string, c: char): (r: string)
    ensures c !in r
    ensures forall d :: d in r <==> d in s && d != c
    ensures forall d :: d != c ==> multiset(r)[d] == multiset(s)[d]
  {
    if s == [] then []
    else
      assert s == [s[0]] + s[1..];
      (if s[0] == c then [] else [s[0]]) + Remove(s[1..], c)
  }

  /** Deleting a character that does not occur changes nothing. */
  lemma {:induction false} RemoveAbsent(s: string, c: char)
    requires c !in s
    ensures Remove(s, c) == s
  {
    if s != [] {
      RemoveAbsent(s[1..], c);
    }
  }

  /** Deleting characters works piecewise on a concatenation. */
  lemma {:induction false} RemoveAppend(a: string, b: string, c: char)
    ensures Remove(a + b, c) == Remove(a, c) + Remove(b, c)
  {
    if a == [] {
      assert a + b == b;
    } else {
      assert (a + b)[0] == a[0];
      assert (a + b)[1..] == a[1..] + b;
      RemoveAppend(a[1..], b, c);
      var h := if a[0] == c then [] else [a[0]];
      assert Remove(a + b, c) == h + Remove(a[1..] + b, c);
      assert Remove(a, c) == h + Remove(a[1..], c);
    }
  }

  /** Deleting the one occurrence of `c` between two stretches free of it joins the stretches. */
  lemma RemoveBetween(a: string, c: char, b: string)
    requires c !in a && c !in b
    ensures Remove(a + [c] + b, c) == a + b
  {
    assert Remove([c] + b, c) == b by {
      RemoveAppend([c], b, c);
      RemoveAbsent(b, c);
    }
    assert a + [c] + b == a + ([c] + b);
    RemoveAppend(a, [c] + b, c);
    RemoveAbsent(a, c);
  }

  /** Deleting the same character twice is the same as deleting it once. */
  lemma RemoveIdempotent(s: string, c: char)
    ensures Remove(Remove(s, c), c) == Remove(s, c)
  {
    RemoveAbsent(Remove(s, c), c);
  }

  /** Where trimming starts: the number of characters `t` cuts that `s` begins with. */
  function StripStart(t: Trim, s: string): (lo: nat)
    ensures lo <= |s|
    ensures forall i :: 0 <= i < lo ==> Cuts(t, s[i])
    ensures lo < |s| ==> !Cuts(t, s[lo])
  {
    if s == [] || !Cuts(t, s[0]) then 0
    else
      var lo := 1 + StripStart(t, s[1..]);
      assert forall i :: 1 <= i < lo ==> s[i] == s[1..][i - 1];
      lo
  }

  /** Where trimming ends: `s`'s length once the trailing characters `t` cuts are gone. */
  function StripEnd(t: Trim, s: string): (hi: nat)
    ensures hi <= |s|
    ensures forall i :: hi <= i < |s| ==> Cuts(t, s[i])
    ensures hi > 0 ==> !Cuts(t, s[hi - 1])
  {
    if s == [] || !Cuts(t, s[|s| - 1]) then |s|
    else StripEnd(t, s[..|s| - 1])
  }

  /**
   * Trimming `s` at both ends (`s.strip()` for `StrStrip`): the characters of
   * `s` from `StripStart(t, s)` on that are left once `t` has cut both ends;
   * everything cut off is a character `t` cuts.
   */
  function Strip(t: Trim, s: string): (r: string)
    ensures Trimmed(t, r)
    ensures StripStart(t, s) + |r| <= |s|
    ensures forall j :: 0 <= j < |r| ==> r[j] == s[StripStart(t, s) + j]
    ensures forall i :: 0 <= i < StripStart(t, s) ==> Cuts(t, s[i])
    ensures forall i :: StripStart(t, s) + |r| <= i < |s| ==> Cuts(t, s[i])
  {
    var lo, hi := StripStart(t, s), StripEnd(t, s);
    if lo == |s| then []
    else
      assert lo < hi;
      s[lo..hi]
  }

  /** Trimming text that is already trimmed leaves it unchanged. */
  lemma StripTrimmed(t: Trim, s: string)
    requires Trimmed(t, s)
    ensures Strip(t, s) == s
  {
  }

  /** `s.strip().strip() == s.strip()`, and likewise for `float()`'s trimming. */
  lemma StripIdempotent(t: Trim, s: string)
    ensures Strip(t, Strip(t, s)) == Strip(t, s)
  {
    StripTrimmed(t, Strip(t, s));
  }

  /** Trimming cannot introduce a character the text did not hold. */
  lemma StripKeepsAbsent(t: Trim, s: string, c: char)
    requires c !in s
    ensures c !in Strip(t, s)
  {
    var r := Strip(t, s);
    forall j | 0 <= j < |r|
      ensures r[j] != c
    {
      assert r[j] == s[StripStart(t, s) + j];
    }
  }

  /** After `str.strip()` there is nothing left for `float()`'s trimming to cut. */
  lemma FloatAfterStrip(s: string)
    ensures Strip(FloatStrip, Strip(StrStrip, s)) == Strip(StrStrip, s)
  {
    var r := Strip(StrStrip, s);
    assert Trimmed(FloatStrip, r);
    StripTrimmed(FloatStrip, r);
  }

  /** Both trimmings cut at the same places in text without separators. */
  lemma StripWithoutSeparators(s: string)
    requires forall i :: 0 <= i < |s| ==> !IsSeparator(s[i])
    ensures Strip(FloatStrip, s) == Strip(StrStrip, s)
  {
    assert forall i :: 0 <= i < |s| ==> (Cuts(FloatStrip, s[i]) <==> Cuts(StrStrip, s[i]));
    assert StripStart(FloatStrip, s) == StripStart(StrStrip, s);
    assert StripEnd(FloatStrip, s) == StripEnd(StrStrip, s);
  }
}
