/**
 * The JavaScript string methods the dashboard uses, over `seq<char>`:
 * `trim` (over an explicit whitespace set), `toLowerCase` (ASCII letters
 * only), `includes`, `split` by one character, `join` and the string form of
 * `replace`, which replaces the first occurrence only.
 */
module Strings {
  import opened Seqs

  /**
   * The characters `String.prototype.trim` removes: the ECMAScript WhiteSpace
   * code points (tab, vertical tab, form feed, space, no-break space, the byte
   * order mark and the space separators U+1680, U+2000 to U+200A, U+202F,
   * U+205F, U+3000) and the LineTerminator code points (LF, CR, U+2028, U+2029).
   */
  const Whitespace: set<char> := {
    '\t', '\U{000B}', '\U{000C}', ' ', '\U{00A0}', '\U{FEFF}',
    '\U{1680}', '\U{2000}', '\U{2001}', '\U{2002}', '\U{2003}', '\U{2004}',
    '\U{2005}', '\U{2006}', '\U{2007}', '\U{2008}', '\U{2009}', '\U{200A}',
    '\U{202F}', '\U{205F}', '\U{3000}',
    '\n', '\r', '\U{2028}', '\U{2029}'
  }

  /** Every character of `s` is whitespace (the empty string included). */
  predicate IsBlank(s: string)
  {
    forall i :: 0 <= i < |s| ==> s[i] in Whitespace
  }

  /** Neither end of `s` is whitespace: `trim` leaves it as it is. */
  predicate IsTrimmed(s: string)
  {
    s == [] || (s[0] !in Whitespace && s[|s| - 1] !in Whitespace)
  }

  /** The length of the longest whitespace prefix of `s`. */
  function LeadingSpace(s: string): (n: nat)
    ensures n <= |s|
    ensures forall i :: 0 <= i < n ==> s[i] in Whitespace
    ensures n < |s| ==> s[n] !in Whitespace
    decreases |s|
  {
    if s == [] || s[0] !in Whitespace then 0 else 1 + LeadingSpace(s[1..])
  }

  /** The length of the longest whitespace suffix of `s`. */
  function TrailingSpace(s: string): (n: nat)
    ensures n <= |s|
    ensures forall i :: |s| - n <= i < |s| ==> s[i] in Whitespace
    ensures n < |s| ==> s[|s| - 1 - n] !in Whitespace
    decreases |s|
  {
    if s == [] || s[|s| - 1] !in Whitespace then 0 else 1 + TrailingSpace(s[..|s| - 1])
  }

  /** `s.trim()`: `s` without its leading and trailing whitespace. */
  function Trim(s: string): (r: string)
    ensures IsTrimmed(r)
    ensures r == [] <==> IsBlank(s)
    ensures forall c :: c in r ==> c in s
  {
    var rest := s[LeadingSpace(s)..];
    var r := rest[..|rest| - TrailingSpace(rest)];
    assert forall k :: 0 <= k < |r| ==> r[k] == s[LeadingSpace(s) + k];
    r
  }

  /** `Trim(s)` is a contiguous piece of `s`: what it drops lies before and after it. */
  lemma TrimIsContiguousPiece(s: string)
    ensures var lo := LeadingSpace(s); lo + |Trim(s)| <= |s| && s == s[..lo] + Trim(s) + s[lo + |Trim(s)|..]
  {
    var lo := LeadingSpace(s);
    var rest := s[lo..];
    var mid := |rest| - TrailingSpace(rest);
    var t := Trim(s);
    assert t == rest[..mid];
    assert |t| == mid;
    ThreePieces(s, lo, lo + mid);
  }

  /** What `Trim(s)` drops on either side is whitespace. */
  lemma TrimDropsOnlyWhitespace(s: string)
    ensures var lo := LeadingSpace(s); lo + |Trim(s)| <= |s| && IsBlank(s[..lo]) && IsBlank(s[lo + |Trim(s)|..])
  {
    var lo := LeadingSpace(s);
    var rest := s[lo..];
    var mid := |rest| - TrailingSpace(rest);
    assert Trim(s) == rest[..mid];
    ThreePieces(s, lo, lo + mid);
    LeadingSpaceIsBlank(s);
    TrailingSpaceIsBlank(rest);
  }

  lemma LeadingSpaceIsBlank(s: string)
    ensures IsBlank(s[..LeadingSpace(s)])
  {
    var lo := LeadingSpace(s);
    forall i | 0 <= i < lo ensures s[..lo][i] in Whitespace {
      assert s[..lo][i] == s[i];
    }
  }

  lemma TrailingSpaceIsBlank(s: string)
    ensures IsBlank(s[|s| - TrailingSpace(s)..])
  {
    var n := TrailingSpace(s);
    var tail := s[|s| - n..];
    forall i | 0 <= i < |tail| ensures tail[i] in Whitespace {
      assert tail[i] == s[|s| - n + i];
    }
  }

  /** A trimmed string is its own trim. */
  lemma TrimTrimmed(s: string)
    requires IsTrimmed(s)
    ensures Trim(s) == s
  {
    assert LeadingSpace(s) == 0;
    assert s[0..] == s;
  }

  /** Trimming twice is trimming once. */
  lemma TrimIdempotent(s: string)
    ensures Trim(Trim(s)) == Trim(s)
  {
    TrimTrimmed(Trim(s));
  }

  /** The ASCII part of `toLowerCase`: `A` to `Z` become `a` to `z`, every other character is kept. */
  function LowerChar(c: char): char
  {
    if 'A' <= c <= 'Z' then (c as int - 'A' as int + 'a' as int) as char else c
  }

  /** `s.toLowerCase()`, restricted to ASCII letters. */
  function Lower(s: string): (r: string)
    ensures |r| == |s|
    ensures forall i :: 0 <= i < |s| ==> r[i] == LowerChar(s[i])
  {
    Map(LowerChar, s)
  }

  /** `needle` occurs in `s` starting at position `i`. */
  ghost predicate OccursAt(s: string, needle: string, i: int)
  {
    0 <= i && i + |needle| <= |s| && s[i..i + |needle|] == needle
  }

  /** `s.includes(needle)`: tries each start position from the left. */
  function Includes(s: string, needle: string): (b: bool)
    ensures b ==> |needle| <= |s|
    decreases |s|
  {
    if |s| < |needle| then false
    else if s[..|needle|] == needle then true
    else Includes(s[1..], needle)
  }

  /** `Includes` holds exactly when `needle` is a contiguous piece of `s`. */
  lemma {:induction false} IncludesIffOccurs(s: string, needle: string)
    ensures Includes(s, needle) <==> exists i :: OccursAt(s, needle, i)
    decreases |s|
  {
    if |s| < |needle| {
    } else if s[..|needle|] == needle {
      assert OccursAt(s, needle, 0);
    } else {
      IncludesIffOccurs(s[1..], needle);
      if exists i :: OccursAt(s, needle, i) {
        var i :| OccursAt(s, needle, i);
        assert i != 0;
        assert s[1..][i - 1..i - 1 + |needle|] == s[i..i + |needle|];
        assert OccursAt(s[1..], needle, i - 1);
      }
      if exists j :: OccursAt(s[1..], needle, j) {
        var j :| OccursAt(s[1..], needle, j);
        assert s[1..][j..j + |needle|] == s[j + 1..j + 1 + |needle|];
        assert OccursAt(s, needle, j + 1);
      }
    }
  }

  /** A string without the needle's first character does not include the needle. */
  lemma {:induction false} IncludesNeedsFirstChar(s: string, needle: string)
    requires |needle| > 0 && needle[0] !in s
    ensures !Includes(s, needle)
    decreases |s|
  {
    if |s| >= |needle| {
      assert s[..|needle|][0] == s[0];
      IncludesNeedsFirstChar(s[1..], needle);
    }
  }

  /**
   * `s.split(sep)` for a one-character separator: the pieces between
   * separators, empty pieces included; the empty string gives one empty piece.
   */
  function Split(s: string, sep: char): (r: seq<string>)
    ensures |r| >= 1
    ensures forall i :: 0 <= i < |r| ==> sep !in r[i]
    decreases |s|
  {
    if s == [] then [""]
    else
      var rest := Split(s[1..], sep);
      if s[0] == sep then [""] + rest else [[s[0]] + rest[0]] + rest[1..]
  }

  /** `xs.join(sep)`. */
  function Join(xs: seq<string>, sep: string): string
    decreases |xs|
  {
    if xs == [] then ""
    else if |xs| == 1 then xs[0]
    else xs[0] + sep + Join(xs[1..], sep)
  }

  /** Joining the pieces of a split with the same separator gives the string back. */
  lemma {:induction false} JoinSplit(s: string, sep: char)
    ensures Join(Split(s, sep), [sep]) == s
    decreases |s|
  {
    if s != [] {
      var rest := Split(s[1..], sep);
      JoinSplit(s[1..], sep);
      if s[0] == sep {
        assert Split(s, sep) == [""] + rest;
        assert ([""] + rest)[1..] == rest;
        assert s == [sep] + s[1..];
      } else {
        var r := [[s[0]] + rest[0]] + rest[1..];
        assert Split(s, sep) == r;
        if |rest| == 1 {
          assert Join(rest, [sep]) == rest[0];
        } else {
          assert r[1..] == rest[1..];
          assert Join(rest, [sep]) == rest[0] + [sep] + Join(rest[1..], [sep]);
        }
        assert s == [s[0]] + s[1..];
      }
    }
  }

  /** A string without the separator splits into itself alone. */
  lemma {:induction false} SplitWithoutSeparator(s: string, sep: char)
    requires sep !in s
    ensures Split(s, sep) == [s]
    decreases |s|
  {
    if s != [] {
      SplitWithoutSeparator(s[1..], sep);
      assert [s[0]] + s[1..] == s;
    }
  }

  /** Splitting `x + sep + t`, where `x` holds no separator, yields `x` followed by the pieces of `t`. */
  lemma {:induction false} SplitAfterPiece(x: string, sep: char, t: string)
    requires sep !in x
    ensures Split(x + [sep] + t, sep) == [x] + Split(t, sep)
    decreases |x|
  {
    if x == [] {
      assert x + [sep] + t == [sep] + t;
      assert ([sep] + t)[1..] == t;
    } else {
      SplitAfterPiece(x[1..], sep, t);
      var s := x + [sep] + t;
      assert s[0] == x[0] && s[1..] == x[1..] + [sep] + t;
      assert [x[0]] + x[1..] == x;
    }
  }

  /** Splitting a join gives back the pieces, when no piece holds the separator. */
  lemma {:induction false} SplitJoin(xs: seq<string>, sep: char)
    requires |xs| >= 1
    requires forall i :: 0 <= i < |xs| ==> sep !in xs[i]
    ensures Split(Join(xs, [sep]), sep) == xs
    decreases |xs|
  {
    if |xs| == 1 {
      SplitWithoutSeparator(xs[0], sep);
    } else {
      SplitJoin(xs[1..], sep);
      SplitAfterPiece(xs[0], sep, Join(xs[1..], [sep]));
      assert [xs[0]] + xs[1..] == xs;
    }
  }

  /**
   * `s.replace(from, to)` with a one-character string pattern: only the first
   * occurrence of `from` is replaced.
   */
  function ReplaceFirst(s: string, from: char, to: char): (r: string)
    ensures |r| == |s|
    ensures from !in s ==> r == s
    ensures from in s ==> r == s[..FirstIndex(s, from)] + [to] + s[FirstIndex(s, from) + 1..]
    decreases |s|
  {
    if s == [] then []
    else if s[0] == from then [to] + s[1..]
    else
      var r := ReplaceFirst(s[1..], from, to);
      if from in s then
        var k := FirstIndex(s[1..], from);
        assert FirstIndex(s, from) == k + 1;
        assert s[..k + 1] == [s[0]] + s[1..][..k] && s[k + 2..] == s[1..][k + 1..];
        [s[0]] + r
      else [s[0]] + r
  }

  /** The first occurrence is the one after a prefix free of the pattern. */
  lemma ReplaceFirstAfter(p: string, from: char, to: char, q: string)
    requires from !in p
    ensures ReplaceFirst(p + [from] + q, from, to) == p + [to] + q
  {
    var s := p + [from] + q;
    assert s[|p|] == from;
    var k := FirstIndex(s, from);
    assert k == |p|;
    assert s[..k] == p && s[k + 1..] == q;
  }
}
