/** The string primitives the viewer relies on: lower-casing, suffix tests and `split`. */
module Text {

  /** Lower-cases one character as `String.prototype.toLowerCase` does wherever the
      result is later compared with an ASCII literal: `A`..`Z` map to `a`..`z`, and the
      KELVIN SIGN (U+212A) maps to `k`. Every other character is kept, and so is the
      length, where `toLowerCase` maps 'À' to 'à' and U+0130 ('İ') to the two
      characters "i" and U+0307. The core compares lower-cased text only with ASCII
      literals: the suffixes ".ksplat", ".splat" and ".ply", the key names of
      `KeyCapture.BlockedKeys` and the tags of `KeyCapture.FormTags`. The only
      characters other than `A`..`Z` whose lower case holds an ASCII letter are U+212A,
      modelled, and U+0130, whose lower case always carries the non-ASCII U+0307 next
      to its "i". So "İNPUT" is no form tag either way ("i\u0307nput" is not "input"),
      a key "İ" is blocked neither way, and a name with U+0130 among its last seven
      characters ends with none of the suffixes either way: keeping those characters
      changes none of the comparisons. */
  function LowerChar(c: char): (l: char)
    ensures 'A' <= c <= 'Z' ==> l as int == c as int + 32
    ensures c == '\U{212A}' ==> l == 'k'
    ensures !('A' <= c <= 'Z') && c != '\U{212A}' ==> l == c
    ensures !('A' <= l <= 'Z')
  {
    if 'A' <= c <= 'Z' then (c as int + 32) as char
    else if c == '\U{212A}' then 'k'
    else c
  }

  function Lower(s: string): (r: string)
    ensures |r| == |s|
    ensures forall i :: 0 <= i < |s| ==> r[i] == LowerChar(s[i])
  {
    seq(|s|, i requires 0 <= i < |s| => LowerChar(s[i]))
  }

  /** Lower-casing is idempotent: a lower-cased name is its own lower-case form. */
  lemma LowerIdempotent(s: string)
    ensures Lower(Lower(s)) == Lower(s)
  {
    assert forall i :: 0 <= i < |s| ==> LowerChar(LowerChar(s[i])) == LowerChar(s[i]);
  }

  /** A string without upper-case ASCII letters and without the Kelvin sign is its own
      lower-case form. */
  lemma LowerAscii(s: string)
    requires forall i :: 0 <= i < |s| ==> !('A' <= s[i] <= 'Z') && s[i] != '\U{212A}'
    ensures Lower(s) == s
  {
  }

  /** Lower-casing distributes over concatenation. */
  lemma LowerAppend(a: string, b: string)
    ensures Lower(a + b) == Lower(a) + Lower(b)
  {
  }

  /** `s.endsWith(suffix)`. */
  predicate EndsWith(s: string, suffix: string) {
    |suffix| <= |s| && s[|s| - |suffix|..] == suffix
  }

  /** `s.split(sep)` for a one-character separator: the maximal separator-free pieces,
      in order, including the empty ones before, between and after separators. */
  function Split(s: string, sep: char): (parts: seq<string>)
    ensures |parts| >= 1
    ensures forall i :: 0 <= i < |parts| ==> sep !in parts[i]
    ensures sep !in s ==> parts == [s]
  {
    if |s| == 0 then [""]
    else
      var rest := Split(s[1..], sep);
      if s[0] == sep then [""] + rest
      else
        assert s == [s[0]] + s[1..];
        [[s[0]] + rest[0]] + rest[1..]
  }

  /** `parts.join(sep)`. */
  function Join(parts: seq<string>, sep: char): string
    requires |parts| >= 1
  {
    if |parts| == 1 then parts[0] else parts[0] + [sep] + Join(parts[1..], sep)
  }

  /** Splitting and joining again gives back the original string. */
  lemma {:induction false} JoinSplit(s: string, sep: char)
    ensures Join(Split(s, sep), sep) == s
  {
    if |s| > 0 {
      var rest := Split(s[1..], sep);
      JoinSplit(s[1..], sep);
      if s[0] == sep {
        assert Split(s, sep)[1..] == rest;
      } else {
        var parts := Split(s, sep);
        if |rest| > 1 {
          assert parts[1..] == rest[1..];
          assert Join(rest, sep) == rest[0] + [sep] + Join(rest[1..], sep);
        }
      }
    }
  }

  /** `arr.pop()` on a non-empty array: its last element. */
  function Last<T>(s: seq<T>): T
    requires |s| > 0
  {
    s[|s| - 1]
  }

  /** When the first character is a separator, or the rest splits into several
      pieces, the last piece comes from splitting the rest. */
  lemma LastOfSplitTail(s: string, sep: char)
    requires |s| > 0 && (s[0] == sep || |Split(s[1..], sep)| > 1)
    ensures Last(Split(s, sep)) == Last(Split(s[1..], sep))
  {
  }

  /** Otherwise the whole string is a single piece. */
  lemma {:induction false} SplitSinglePiece(s: string, sep: char)
    requires |s| > 0 && s[0] != sep && |Split(s[1..], sep)| == 1
    ensures Split(s, sep) == [s]
  {
    var t := s[1..];
    JoinSplit(t, sep);
    assert Split(t, sep)[0] == t;
    assert s == [s[0]] + t;
  }

  /** The last piece of a split is the longest separator-free suffix: it is a suffix, it
      holds no separator, and it is either the whole string or preceded by a separator. */
  lemma {:induction false} LastPieceIsFinalSegment(s: string, sep: char)
    ensures var seg := Last(Split(s, sep));
      EndsWith(s, seg) && sep !in seg && (|seg| == |s| || s[|s| - |seg| - 1] == sep)
  {
    if |s| > 0 {
      var t := s[1..];
      if s[0] == sep || |Split(t, sep)| > 1 {
        var seg := Last(Split(t, sep));
        LastOfSplitTail(s, sep);
        LastPieceIsFinalSegment(t, sep);
        assert t[|t| - |seg|..] == s[|s| - |seg|..];
        if |seg| == |t| {
          assert seg == t;
          assert Split(t, sep) == [t];
        } else {
          assert t[|t| - |seg| - 1] == s[|s| - |seg| - 1];
        }
      } else {
        SplitSinglePiece(s, sep);
      }
    }
  }
}
