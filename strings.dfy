/**
 * The two java.lang.String operations the sensor relies on: `trim()`, applied
 * to the required configuration values, and `replaceAll`, used with patterns
 * that contain no regular-expression metacharacters and so replace literally.
 */
module Strings {

  /** `trim()` treats every character at or below U+0020 as blank. */
  predicate IsBlank(c: char) {
    c <= ' '
  }

  predicate AllBlank(s: string) {
    forall i :: 0 <= i < |s| ==> IsBlank(s[i])
  }

  /** Drops the leading blanks. */
  function TrimStart(s: string): string {
    if s != [] && IsBlank(s[0]) then TrimStart(s[1..]) else s
  }

  /** Drops the trailing blanks. */
  function TrimEnd(s: string): string {
    if s != [] && IsBlank(s[|s| - 1]) then TrimEnd(s[..|s| - 1]) else s
  }

  /** What `TrimStart` leaves is the suffix of `s` after a run of blanks, and it starts with a non-blank. */
  lemma {:induction false} TrimStartShape(s: string)
    ensures var r := TrimStart(s);
      |r| <= |s| && r == s[|s| - |r|..] && AllBlank(s[..|s| - |r|]) && (r == [] || !IsBlank(r[0]))
    decreases |s|
  {
    if s != [] && IsBlank(s[0]) {
      TrimStartShape(s[1..]);
      var r := TrimStart(s[1..]);
      assert s[..|s| - |r|] == [s[0]] + s[1..][..|s| - 1 - |r|];
    }
  }

  /** What `TrimEnd` leaves is the prefix of `s` before a run of blanks, and it ends with a non-blank. */
  lemma {:induction false} TrimEndShape(s: string)
    ensures var r := TrimEnd(s);
      |r| <= |s| && r == s[..|r|] && AllBlank(s[|r|..]) && (r == [] || !IsBlank(r[|r| - 1]))
    decreases |s|
  {
    if s != [] && IsBlank(s[|s| - 1]) {
      TrimEndShape(s[..|s| - 1]);
      var r := TrimEnd(s[..|s| - 1]);
      assert s[|r|..] == s[..|s| - 1][|r|..] + [s[|s| - 1]];
    }
  }

  /** `String.trim()`: blanks removed from both ends. */
  function Trim(s: string): string {
    TrimEnd(TrimStart(s))
  }

  lemma {:induction false} TrimStartBlanks(w: string, s: string)
    requires AllBlank(w)
    ensures TrimStart(w + s) == TrimStart(s)
    decreases |w|
  {
    if w != [] {
      assert (w + s)[1..] == w[1..] + s;
      TrimStartBlanks(w[1..], s);
    } else {
      assert w + s == s;
    }
  }

  lemma {:induction false} TrimEndBlanks(s: string, w: string)
    requires AllBlank(w)
    ensures TrimEnd(s + w) == TrimEnd(s)
    decreases |w|
  {
    if w != [] {
      assert (s + w)[..|s + w| - 1] == s + w[..|w| - 1];
      TrimEndBlanks(s, w[..|w| - 1]);
    } else {
      assert s + w == s;
    }
  }

  lemma {:induction false} TrimStartThenBlanks(s: string, w: string)
    requires AllBlank(w)
    ensures TrimEnd(TrimStart(s + w)) == TrimEnd(TrimStart(s))
    decreases |s|
  {
    if s == [] {
      assert s + w == w;
      TrimStartBlanks(w, []);
      assert w + [] == w;
    } else if IsBlank(s[0]) {
      assert (s + w)[1..] == s[1..] + w;
      TrimStartThenBlanks(s[1..], w);
    } else {
      TrimEndBlanks(s, w);
    }
  }

  /** Blanks around a value never change what `trim()` yields. */
  lemma TrimIgnoresPadding(w1: string, s: string, w2: string)
    requires AllBlank(w1) && AllBlank(w2)
    ensures Trim(w1 + s + w2) == Trim(s)
  {
    assert w1 + s + w2 == w1 + (s + w2);
    TrimStartBlanks(w1, s + w2);
    TrimStartThenBlanks(s, w2);
  }

  /** Trimming twice is trimming once. */
  lemma TrimIdempotent(s: string)
    ensures Trim(Trim(s)) == Trim(s)
  {
    var u := TrimStart(s);
    TrimStartShape(s);
    TrimEndShape(u);
    var t := TrimEnd(u);
    if t != [] {
      assert t[0] == u[0];
      assert TrimStart(t) == t;
      assert TrimEnd(t) == t;
    }
  }

  /** `pat` occurs in `s` at index `i`. */
  predicate OccursAt(s: string, pat: string, i: int) {
    0 <= i <= |s| && pat <= s[i..]
  }

  ghost predicate Occurs(s: string, pat: string) {
    exists i :: OccursAt(s, pat, i)
  }

  lemma OccursInTail(s: string, pat: string)
    requires s != []
    ensures Occurs(s[1..], pat) ==> Occurs(s, pat)
  {
    if Occurs(s[1..], pat) {
      var i :| OccursAt(s[1..], pat, i);
      assert s[1..][i..] == s[i + 1..];
      assert OccursAt(s, pat, i + 1);
    }
  }

  /**
   * Literal global substitution, as `replaceAll` does for a pattern without
   * metacharacters: the string is scanned left to right and each occurrence of
   * `pat` that does not overlap an earlier one is replaced by `rep`.
   */
  function ReplaceAll(s: string, pat: string, rep: string): string
    requires pat != []
    decreases |s|
  {
    if s == [] then []
    else if pat <= s then rep + ReplaceAll(s[|pat|..], pat, rep)
    else [s[0]] + ReplaceAll(s[1..], pat, rep)
  }

  /** A string in which the pattern does not occur is left unchanged. */
  lemma {:induction false} ReplaceAllAbsent(s: string, pat: string, rep: string)
    requires pat != [] && !Occurs(s, pat)
    ensures ReplaceAll(s, pat, rep) == s
    decreases |s|
  {
    if s != [] {
      assert !OccursAt(s, pat, 0);
      OccursInTail(s, pat);
      ReplaceAllAbsent(s[1..], pat, rep);
      assert [s[0]] + s[1..] == s;
    }
  }

  /**
   * No non-empty suffix of `s` is a proper prefix of `pat`: an occurrence of
   * `pat` in `s + t` never straddles the seam between `s` and `t`.
   */
  predicate NoPartialSuffix(s: string, pat: string) {
    forall i :: 0 <= i < |s| && |s| - i < |pat| ==> !(s[i..] <= pat)
  }

  lemma NoPartialSuffixDrop(s: string, pat: string, k: nat)
    requires k <= |s| && NoPartialSuffix(s, pat)
    ensures NoPartialSuffix(s[k..], pat)
  {
    forall i | 0 <= i < |s[k..]| && |s[k..]| - i < |pat|
      ensures !(s[k..][i..] <= pat)
    {
      assert s[k..][i..] == s[k + i..];
    }
  }

  lemma NoPartialSuffixAppend(s: string, t: string, pat: string)
    requires NoPartialSuffix(s, pat) && NoPartialSuffix(t, pat)
    ensures NoPartialSuffix(s + t, pat)
  {
    var st := s + t;
    forall i | 0 <= i < |st| && |st| - i < |pat|
      ensures !(st[i..] <= pat)
    {
      if i < |s| {
        var tail := s[i..];
        assert st[i..] == tail + t;
        assert st[i..] <= pat ==> tail <= pat;
      } else {
        assert st[i..] == t[i - |s|..];
      }
    }
  }

  /** Replacement distributes over a concatenation whose seam no occurrence can straddle. */
  lemma {:induction false} ReplaceAllAppend(s: string, t: string, pat: string, rep: string)
    requires pat != [] && NoPartialSuffix(s, pat)
    ensures ReplaceAll(s + t, pat, rep) == ReplaceAll(s, pat, rep) + ReplaceAll(t, pat, rep)
    decreases |s|
  {
    if s == [] {
      assert s + t == t;
    } else if pat <= s {
      assert pat <= s + t;
      assert (s + t)[|pat|..] == s[|pat|..] + t;
      NoPartialSuffixDrop(s, pat, |pat|);
      ReplaceAllAppend(s[|pat|..], t, pat, rep);
    } else {
      var whole := s[0..];
      assert whole == s;
      assert pat <= s + t && |pat| <= |s| ==> pat <= s;
      assert pat <= s + t && |pat| > |s| ==> whole <= pat;
      assert (s + t)[1..] == s[1..] + t;
      NoPartialSuffixDrop(s, pat, 1);
      ReplaceAllAppend(s[1..], t, pat, rep);
    }
  }

  /** A string without the pattern's first character is left alone and never straddled. */
  lemma PlainText(s: string, pat: string, rep: string)
    requires pat != [] && pat[0] !in s
    ensures NoPartialSuffix(s, pat) && ReplaceAll(s, pat, rep) == s
  {
    forall i | 0 <= i < |s| && |s| - i < |pat|
      ensures !(s[i..] <= pat)
    {
      assert s[i..][0] == s[i];
    }
    forall i | 0 <= i <= |s|
      ensures !OccursAt(s, pat, i)
    {
      if i < |s| {
        assert s[i..][0] == s[i];
      }
    }
    ReplaceAllAbsent(s, pat, rep);
  }

  /** The pattern itself is replaced by the replacement. */
  lemma ReplaceAllExact(pat: string, rep: string)
    requires pat != []
    ensures ReplaceAll(pat, pat, rep) == rep
  {
    assert pat[|pat|..] == [];
  }

  /** A pattern-free string on either side of `q`: the substitution acts on `q` alone. */
  lemma Sandwich(x: string, q: string, y: string, pat: string, rep: string)
    requires pat != [] && pat[0] !in x && pat[0] !in y && NoPartialSuffix(q, pat)
    ensures NoPartialSuffix(x + (q + y), pat)
    ensures ReplaceAll(x + (q + y), pat, rep) == x + (ReplaceAll(q, pat, rep) + y)
  {
    PlainText(x, pat, rep);
    PlainText(y, pat, rep);
    NoPartialSuffixAppend(q, y, pat);
    NoPartialSuffixAppend(x, q + y, pat);
    ReplaceAllAppend(x, q + y, pat, rep);
    ReplaceAllAppend(q, y, pat, rep);
  }
}
