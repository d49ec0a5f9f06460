/**
 * Removal of leading and trailing characters that belong to a character set,
 * as Foundation's `String.trimmingCharacters(in:)` does. A character set is
 * a predicate on characters.
 */
module Trimming {

  /**
   * Foundation's `CharacterSet.newlines`: U+000A to U+000D, U+0085, U+2028
   * and U+2029.
   */
  predicate IsNewline(c: char)
  {
    '\n' <= c <= '\r' || c == '\U{0085}' || c == '\U{2028}' || c == '\U{2029}'
  }

  /**
   * Foundation's `CharacterSet.whitespacesAndNewlines`: the newlines, the
   * tab, and the space separators of Unicode general category Zs.
   */
  predicate IsWhitespaceOrNewline(c: char)
  {
    || IsNewline(c)
    || c == '\t'
    || c == ' '
    || c == '\U{00A0}'
    || c == '\U{1680}'
    || '\U{2000}' <= c <= '\U{200A}'
    || c == '\U{202F}'
    || c == '\U{205F}'
    || c == '\U{3000}'
  }

  /** Every character of `s` at an index in `[lo, hi)` is in the set. */
  ghost predicate AllInRange(s: string, lo: int, hi: int, inSet: char -> bool)
  {
    forall k :: lo <= k < hi && 0 <= k < |s| ==> inSet(s[k])
  }

  /** `s` neither starts nor ends with a character of the set. */
  ghost predicate IsTrimmed(s: string, inSet: char -> bool)
  {
    |s| == 0 || (!inSet(s[0]) && !inSet(s[|s| - 1]))
  }

  /**
   * `r` is the slice `s[i..j]` left over once a run of set characters is cut
   * from each end of `s`, and neither cut could have gone further.
   */
  ghost predicate IsTrimAt(r: string, s: string, i: int, j: int, inSet: char -> bool)
  {
    && 0 <= i <= j <= |s|
    && r == s[i..j]
    && AllInRange(s, 0, i, inSet)
    && AllInRange(s, j, |s|, inSet)
    && IsTrimmed(r, inSet)
  }

  /** `r` is what is left of `s` after cutting set characters from both ends. */
  ghost predicate IsTrimOf(r: string, s: string, inSet: char -> bool)
  {
    exists i, j :: IsTrimAt(r, s, i, j, inSet)
  }

  /** Drops the leading characters that are in the set. */
  function TrimStart(s: string, inSet: char -> bool): (r: string)
    ensures |r| <= |s| && r == s[|s| - |r|..]
    ensures AllInRange(s, 0, |s| - |r|, inSet)
    ensures |r| == 0 || !inSet(r[0])
    decreases |s|
  {
    if |s| > 0 && inSet(s[0]) then TrimStart(s[1..], inSet) else s
  }

  /** Drops the trailing characters that are in the set. */
  function TrimEnd(s: string, inSet: char -> bool): (r: string)
    ensures |r| <= |s| && r == s[..|r|]
    ensures AllInRange(s, |r|, |s|, inSet)
    ensures |r| == 0 || !inSet(r[|r| - 1])
    decreases |s|
  {
    if |s| > 0 && inSet(s[|s| - 1]) then TrimEnd(s[..|s| - 1], inSet) else s
  }

  /** `trimmingCharacters(in:)`: drops set characters from both ends. */
  function Trim(s: string, inSet: char -> bool): (r: string)
    ensures |r| <= |s|
    ensures IsTrimmed(r, inSet)
  {
    TrimEnd(TrimStart(s, inSet), inSet)
  }

  /** What `Trim` leaves is a valid cut of `s`. */
  lemma TrimIsTrimOf(s: string, inSet: char -> bool)
    ensures IsTrimOf(Trim(s, inSet), s, inSet)
  {
    var rest := TrimStart(s, inSet);
    var i := |s| - |rest|;
    var r := TrimEnd(rest, inSet);
    assert Trim(s, inSet) == r;
    CutsCompose(s, i, |r|, inSet);
  }

  /**
   * Cutting `i` set characters from the front of `s` and then everything
   * after index `q` of what is left, when that tail is in the set too,
   * gives the cut `s[i..i + q]`.
   */
  lemma CutsCompose(s: string, i: int, q: int, inSet: char -> bool)
    requires 0 <= i <= |s| && 0 <= q <= |s| - i
    requires AllInRange(s, 0, i, inSet) && AllInRange(s[i..], q, |s| - i, inSet)
    requires IsTrimmed(s[i..][..q], inSet)
    ensures IsTrimAt(s[i..][..q], s, i, i + q, inSet)
  {
    assert s[i..][..q] == s[i..i + q];
    SliceTailInSet(s, i, q, inSet);
  }

  /** A set-only tail of the suffix `s[i..]` is a set-only tail of `s`. */
  lemma SliceTailInSet(s: string, i: int, q: int, inSet: char -> bool)
    requires 0 <= i <= |s| && 0 <= q <= |s| - i
    requires AllInRange(s[i..], q, |s| - i, inSet)
    ensures AllInRange(s, i + q, |s|, inSet)
  {
    forall k | i + q <= k < |s| ensures inSet(s[k]) {
      assert s[k] == s[i..][k - i];
    }
  }

  /**
   * Two leading cuts, each covering only set characters and each stopping
   * at a character outside the set (or at the end), are the same cut.
   */
  lemma SameStartCut(s: string, a: int, b: int, inSet: char -> bool)
    requires 0 <= a <= |s| && 0 <= b <= |s|
    requires AllInRange(s, 0, a, inSet) && AllInRange(s, 0, b, inSet)
    requires a == |s| || !inSet(s[a])
    requires b == |s| || !inSet(s[b])
    ensures a == b
  {
  }

  /**
   * Two trailing cuts, each covering only set characters and each stopping
   * after a character outside the set (or at the start), are the same cut.
   */
  lemma SameEndCut(s: string, a: int, b: int, inSet: char -> bool)
    requires 0 <= a <= |s| && 0 <= b <= |s|
    requires AllInRange(s, a, |s|, inSet) && AllInRange(s, b, |s|, inSet)
    requires a == 0 || !inSet(s[a - 1])
    requires b == 0 || !inSet(s[b - 1])
    ensures a == b
  {
  }

  /** A leading cut that stops at the first character outside the set is `TrimStart`. */
  lemma StartCutIsTrimStart(s: string, i: int, inSet: char -> bool)
    requires 0 <= i <= |s| && AllInRange(s, 0, i, inSet)
    requires i == |s| || !inSet(s[i])
    ensures TrimStart(s, inSet) == s[i..]
  {
    var r := TrimStart(s, inSet);
    var m := |s| - |r|;
    if m < |s| {
      assert r[0] == s[m];
    }
    SameStartCut(s, i, m, inSet);
  }

  /** A trailing cut that stops after the last character outside the set is `TrimEnd`. */
  lemma EndCutIsTrimEnd(s: string, q: int, inSet: char -> bool)
    requires 0 <= q <= |s| && AllInRange(s, q, |s|, inSet)
    requires q == 0 || !inSet(s[q - 1])
    ensures TrimEnd(s, inSet) == s[..q]
  {
    var r := TrimEnd(s, inSet);
    if 0 < |r| {
      assert r[|r| - 1] == s[|r| - 1];
    }
    SameEndCut(s, q, |r|, inSet);
  }

  /** A set-only tail of `s` is still a set-only tail of the suffix `s[i..]`. */
  lemma SuffixTailInSet(s: string, i: int, j: int, inSet: char -> bool)
    requires 0 <= i <= j <= |s| && AllInRange(s, j, |s|, inSet)
    ensures AllInRange(s[i..], j - i, |s| - i, inSet)
  {
    forall k | j - i <= k < |s| - i ensures inSet(s[i..][k]) {
      assert s[i..][k] == s[k + i];
    }
  }

  /** The trim of a string is unique: any valid cut gives `Trim`. */
  lemma TrimUnique(r: string, s: string, inSet: char -> bool)
    requires IsTrimOf(r, s, inSet)
    ensures r == Trim(s, inSet)
  {
    var i, j :| IsTrimAt(r, s, i, j, inSet);
    if i < j {
      NonEmptyCutIsTrim(r, s, i, j, inSet);
    } else {
      EmptyCutIsTrim(s, i, inSet);
    }
  }

  /** A non-empty valid cut `s[i..j]` is what `Trim` leaves. */
  lemma NonEmptyCutIsTrim(r: string, s: string, i: int, j: int, inSet: char -> bool)
    requires IsTrimAt(r, s, i, j, inSet) && i < j
    ensures Trim(s, inSet) == r
  {
    assert s[i] == r[0] && s[j - 1] == r[|r| - 1];
    CutIsTrim(s, i, j, inSet);
  }

  /**
   * Cutting set characters from the front up to index `i` and from the back
   * from index `j`, stopping at characters outside the set, is `Trim`.
   */
  lemma CutIsTrim(s: string, i: int, j: int, inSet: char -> bool)
    requires 0 <= i < j <= |s|
    requires AllInRange(s, 0, i, inSet) && AllInRange(s, j, |s|, inSet)
    requires !inSet(s[i]) && !inSet(s[j - 1])
    ensures Trim(s, inSet) == s[i..j]
  {
    StartCutIsTrimStart(s, i, inSet);
    TrimEndOfSuffix(s, i, j, inSet);
  }

  /**
   * On the suffix `s[i..]`, `TrimEnd` stops after index `j` of `s` when
   * everything from `j` on is in the set and the character before is not.
   */
  lemma TrimEndOfSuffix(s: string, i: int, j: int, inSet: char -> bool)
    requires 0 <= i < j <= |s|
    requires AllInRange(s, j, |s|, inSet)
    requires !inSet(s[j - 1])
    ensures TrimEnd(s[i..], inSet) == s[i..j]
  {
    var rest := s[i..];
    SuffixTailInSet(s, i, j, inSet);
    assert rest[j - i - 1] == s[j - 1];
    EndCutIsTrimEnd(rest, j - i, inSet);
    assert rest[..j - i] == s[i..j];
  }

  /** When both cuts meet, the whole string is in the set and `Trim` leaves nothing. */
  lemma EmptyCutIsTrim(s: string, i: int, inSet: char -> bool)
    requires 0 <= i <= |s| && AllInRange(s, 0, i, inSet) && AllInRange(s, i, |s|, inSet)
    ensures Trim(s, inSet) == []
  {
    assert AllInRange(s, 0, |s|, inSet);
    StartCutIsTrimStart(s, |s|, inSet);
  }

  /** Trimming leaves a string unchanged exactly when it is already trimmed. */
  lemma TrimOfTrimmed(s: string, inSet: char -> bool)
    ensures IsTrimmed(s, inSet) <==> Trim(s, inSet) == s
  {
    if IsTrimmed(s, inSet) {
      assert s[0..|s|] == s;
      assert IsTrimAt(s, s, 0, |s|, inSet);
      TrimUnique(s, s, inSet);
    }
  }

  /** Trimming is idempotent. */
  lemma TrimIdempotent(s: string, inSet: char -> bool)
    ensures Trim(Trim(s, inSet), inSet) == Trim(s, inSet)
  {
    TrimOfTrimmed(Trim(s, inSet), inSet);
  }

  /** Foundation's newline set is contained in its white-space-and-newline set. */
  lemma NewlinesAreWhitespace()
    ensures forall c :: IsNewline(c) ==> IsWhitespaceOrNewline(c)
  {
  }

  /**
   * Trimming newlines first and then white space and newlines is the same
   * as trimming white space and newlines alone.
   */
  lemma NewlinesThenWhitespace(s: string)
    ensures Trim(Trim(s, IsNewline), IsWhitespaceOrNewline) == Trim(s, IsWhitespaceOrNewline)
  {
    NewlinesAreWhitespace();
    TrimWider(s, IsNewline, IsWhitespaceOrNewline);
  }

  /**
   * Trimming with a smaller set first and a larger set afterwards is the
   * same as trimming with the larger set alone.
   */
  lemma TrimWider(s: string, narrow: char -> bool, wide: char -> bool)
    requires forall c :: narrow(c) ==> wide(c)
    ensures Trim(Trim(s, narrow), wide) == Trim(s, wide)
  {
    var m := Trim(s, narrow);
    TrimIsTrimOf(s, narrow);
    var i, j :| IsTrimAt(m, s, i, j, narrow);
    var r := Trim(m, wide);
    TrimIsTrimOf(m, wide);
    var i', j' :| IsTrimAt(r, m, i', j', wide);
    CutOfCut(s, m, r, i, j, i', j', narrow, wide);
    TrimUnique(r, s, wide);
  }

  /** A wide cut of a narrow cut of `s` is a wide cut of `s`. */
  lemma CutOfCut(s: string, m: string, r: string, i: int, j: int, i': int, j': int,
                 narrow: char -> bool, wide: char -> bool)
    requires forall c :: narrow(c) ==> wide(c)
    requires IsTrimAt(m, s, i, j, narrow)
    requires IsTrimAt(r, m, i', j', wide)
    ensures IsTrimAt(r, s, i + i', i + j', wide)
  {
    assert r == s[i + i'..i + j'] by {
      forall k | 0 <= k < |r| ensures r[k] == s[i + i' + k] {
        assert r[k] == m[i' + k];
      }
    }
    assert AllInRange(s, 0, i + i', wide) by {
      forall k | 0 <= k < i + i' ensures wide(s[k]) {
        if k >= i {
          assert s[k] == m[k - i];
        }
      }
    }
    assert AllInRange(s, i + j', |s|, wide) by {
      forall k | i + j' <= k < |s| ensures wide(s[k]) {
        if k < j {
          assert s[k] == m[k - i];
        }
      }
    }
  }
}
