/** The SQL LIKE operator as the repositories use it: '%' matches any run of characters,
    '_' matches exactly one character, every other character matches itself. No escape
    character is declared in the queries, so none is modelled. */
module SqlLike {
  import opened Text

  predicate Like(s: string, p: string)
    decreases |s|, |p|
  {
    if p == [] then s == []
    else if p[0] == '%' then Like(s, p[1..]) || (s != [] && Like(s[1..], p))
    else s != [] && (p[0] == '_' || p[0] == s[0]) && Like(s[1..], p[1..])
  }

  /** The argument carries no LIKE metacharacter. */
  predicate NoWildcards(n: string) {
    forall i :: 0 <= i < |n| ==> n[i] != '%' && n[i] != '_'
  }

  /** The pattern CONCAT('%', :n, '%'). */
  function ContainingPattern(n: string): string {
    ['%'] + n + ['%']
  }

  lemma {:induction false} LikeAnything(s: string)
    ensures Like(s, ['%'])
  {
    if s != [] {
      LikeAnything(s[1..]);
    }
  }

  /** A wildcard-free n followed by '%' matches exactly the strings starting with n. */
  lemma {:induction false} LikePrefixPattern(s: string, n: string)
    requires NoWildcards(n)
    ensures Like(s, n + ['%']) <==> n <= s
    decreases |n|
  {
    if n == [] {
      assert n + ['%'] == ['%'];
      LikeAnything(s);
    } else {
      var p := n + ['%'];
      assert p[0] == n[0] && p[1..] == n[1..] + ['%'];
      assert NoWildcards(n[1..]) by {
        forall i | 0 <= i < |n[1..]| ensures n[1..][i] != '%' && n[1..][i] != '_' {
          assert n[1..][i] == n[i + 1];
        }
      }
      if s != [] {
        LikePrefixPattern(s[1..], n[1..]);
        assert n <= s <==> n[0] == s[0] && n[1..] <= s[1..];
      }
    }
  }

  /** For a wildcard-free argument, '%n%' is substring search. */
  lemma {:induction false} LikeContainingIffContains(s: string, n: string)
    requires NoWildcards(n)
    ensures Like(s, ContainingPattern(n)) <==> Contains(s, n)
    decreases |s|
  {
    var p := ContainingPattern(n);
    assert p[0] == '%' && p[1..] == n + ['%'];
    LikePrefixPattern(s, n);
    if s != [] {
      LikeContainingIffContains(s[1..], n);
    }
  }

  /** Case folding commutes with building the pattern and keeps it wildcard-free. */
  lemma FoldContainingPattern(n: string)
    ensures Fold(ContainingPattern(n)) == ContainingPattern(Fold(n))
    ensures NoWildcards(n) ==> NoWildcards(Fold(n))
  {
    FoldConcat(['%'] + n, ['%']);
    FoldConcat(['%'], n);
  }

  /** LOWER(x) LIKE LOWER(CONCAT('%', n, '%')) is case-insensitive substring search when
      n has no metacharacter. */
  lemma LikeIgnoreCaseIffContains(s: string, n: string)
    requires NoWildcards(n)
    ensures Like(Fold(s), Fold(ContainingPattern(n))) <==> ContainsIgnoreCase(s, n)
  {
    FoldContainingPattern(n);
    LikeContainingIffContains(Fold(s), Fold(n));
  }

  /** With a metacharacter in the argument the search is no longer literal: "a_c" finds "abc". */
  lemma UnderscoreIsAWildcard()
    ensures Like("abc", ContainingPattern("a_c")) && !Contains("abc", "a_c")
  {
    assert ContainingPattern("a_c") == "%a_c%";
    assert Like("", "");
    assert Like("", "%");
    assert Like("abc", "a_c%");
    assert !("a_c" <= "abc");
    assert !("a_c" <= "bc") && !("a_c" <= "c") && !("a_c" <= "");
  }
}
