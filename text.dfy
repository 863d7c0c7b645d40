/** Character-level string operations shared by the backend and the frontend.
    One case folding stands for Java's equalsIgnoreCase, SQL's LOWER and JavaScript's
    toLowerCase; one whitespace class stands for Java's String.trim, JavaScript's trim and
    the "non-whitespace character" of Bean Validation's NotBlank. */
module Text {

  /** The whitespace characters that trimming removes. */
  predicate IsWhitespace(c: char) {
    c == ' ' || c == '\t' || c == '\n' || c == '\r' || c == '\U{000B}' || c == '\U{000C}'
  }

  /** ASCII case folding of one character. */
  function FoldChar(c: char): char {
    if 'A' <= c <= 'Z' then (c as int + 32) as char else c
  }

  /** Case folding of a whole string, character by character. */
  function Fold(s: string): (r: string)
    ensures |r| == |s|
    ensures forall i :: 0 <= i < |s| ==> r[i] == FoldChar(s[i])
  {
    if s == [] then [] else [FoldChar(s[0])] + Fold(s[1..])
  }

  lemma FoldCharIdempotent(c: char)
    ensures FoldChar(FoldChar(c)) == FoldChar(c)
  {
  }

  /** Folding twice is folding once. */
  lemma FoldIdempotent(s: string)
    ensures Fold(Fold(s)) == Fold(s)
  {
    forall i | 0 <= i < |s| ensures Fold(Fold(s))[i] == Fold(s)[i] {
      FoldCharIdempotent(s[i]);
    }
  }

  /** Folding distributes over concatenation. */
  lemma FoldConcat(a: string, b: string)
    ensures Fold(a + b) == Fold(a) + Fold(b)
  {
    assert Fold(a + b) == Fold(a) + Fold(b) by {
      forall i | 0 <= i < |a + b| ensures Fold(a + b)[i] == (Fold(a) + Fold(b))[i] {
        if i < |a| { assert (a + b)[i] == a[i]; } else { assert (a + b)[i] == b[i - |a|]; }
      }
    }
  }

  /** Leading whitespace removed. */
  function TrimStart(s: string): (r: string)
    ensures |r| <= |s| && r == s[|s| - |r|..]
    ensures r == [] || !IsWhitespace(r[0])
    ensures forall i :: 0 <= i < |s| - |r| ==> IsWhitespace(s[i])
  {
    if s != [] && IsWhitespace(s[0]) then TrimStart(s[1..]) else s
  }

  /** Trailing whitespace removed. */
  function TrimEnd(s: string): (r: string)
    ensures |r| <= |s| && r == s[..|r|]
    ensures r == [] || !IsWhitespace(r[|r| - 1])
    ensures forall i :: |r| <= i < |s| ==> IsWhitespace(s[i])
  {
    if s != [] && IsWhitespace(s[|s| - 1]) then TrimEnd(s[..|s| - 1]) else s
  }

  /** Leading and trailing whitespace removed (String.prototype.trim, String.trim). */
  function Trim(s: string): (r: string)
    ensures |r| <= |s|
    ensures r == [] || (!IsWhitespace(r[0]) && !IsWhitespace(r[|r| - 1]))
  {
    TrimEnd(TrimStart(s))
  }

  /** A string trims to nothing exactly when all its characters are whitespace. */
  lemma TrimEmptyIff(s: string)
    ensures Trim(s) == [] <==> forall k :: 0 <= k < |s| ==> IsWhitespace(s[k])
  {
    var t := TrimStart(s);
    if Trim(s) == [] {
      assert t == [];
    } else {
      assert Trim(s)[0] == t[0] == s[|s| - |t|];
    }
  }

  /** A string with no whitespace at either end is left as it is. */
  lemma TrimOfTrimmed(s: string)
    requires s == [] || (!IsWhitespace(s[0]) && !IsWhitespace(s[|s| - 1]))
    ensures Trim(s) == s
  {
  }

  /** Trimming twice is trimming once. */
  lemma TrimIdempotent(s: string)
    ensures Trim(Trim(s)) == Trim(s)
  {
    TrimOfTrimmed(Trim(s));
  }

  /** s occurs in t as a contiguous part (String.includes, String.contains). */
  function Contains(t: string, s: string): bool
    decreases |t|
  {
    s <= t || (t != [] && Contains(t[1..], s))
  }

  /** Contains means "s is a prefix of some suffix of t". */
  lemma {:induction false} ContainsIff(t: string, s: string)
    ensures Contains(t, s) <==> exists k :: 0 <= k <= |t| && s <= t[k..]
  {
    if t == [] {
      assert t[0..] == t;
    } else {
      ContainsIff(t[1..], s);
      if Contains(t, s) {
        if s <= t {
          assert t[0..] == t;
        } else {
          var k :| 0 <= k <= |t[1..]| && s <= t[1..][k..];
          assert t[1..][k..] == t[k + 1..];
        }
      }
      if k :| 0 <= k <= |t| && s <= t[k..] {
        if k == 0 {
          assert t[0..] == t;
        } else {
          assert t[1..][k - 1..] == t[k..];
        }
      }
    }
  }

  /** The empty string is contained in every string (so an empty filter keeps everything). */
  lemma ContainsEmpty(t: string)
    ensures Contains(t, [])
  {
  }

  /** A one-character string is contained exactly when that character occurs. */
  lemma {:induction false} ContainsCharIff(t: string, c: char)
    ensures Contains(t, [c]) <==> c in t
  {
    if t != [] {
      ContainsCharIff(t[1..], c);
      assert t == [t[0]] + t[1..];
    }
  }

  /** Folded containment: the case-insensitive substring test of both frontends. */
  predicate ContainsIgnoreCase(t: string, s: string) {
    Contains(Fold(t), Fold(s))
  }

  /** Lexicographic order on strings by character code: the model's ORDER BY collation. */
  predicate LessEq(a: string, b: string)
    decreases |a|
  {
    a == [] || (b != [] && (a[0] < b[0] || (a[0] == b[0] && LessEq(a[1..], b[1..]))))
  }

  /** The order is total: any two strings are comparable. */
  lemma {:induction false} LessEqTotal(a: string, b: string)
    ensures LessEq(a, b) || LessEq(b, a)
    decreases |a|
  {
    if a != [] && b != [] && a[0] == b[0] {
      LessEqTotal(a[1..], b[1..]);
    }
  }

  /** The order is transitive. */
  lemma {:induction false} LessEqTransitive(a: string, b: string, c: string)
    requires LessEq(a, b) && LessEq(b, c)
    ensures LessEq(a, c)
    decreases |a|
  {
    if a != [] && b != [] && c != [] && a[0] == b[0] == c[0] {
      LessEqTransitive(a[1..], b[1..], c[1..]);
    }
  }
}
