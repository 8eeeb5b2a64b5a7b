/**
 * String operations the controllers and the SQL they issue rely on: PHP's
 * `strtolower` (ASCII only since PHP 8.2), `str_starts_with`, `substr`, PHP's
 * truthiness of strings, and SQL `LIKE` with its `%` and `_` wildcards.
 */
module Text {

  /** ASCII lower-casing of one character; every other character is kept. */
  function LowerChar(c: char): (d: char)
    ensures !('A' <= d <= 'Z')
    ensures 'A' <= c <= 'Z' ==> d as int == c as int + 32
    ensures !('A' <= c <= 'Z') ==> d == c
  {
    if 'A' <= c <= 'Z' then (c as int + 32) as char else c
  }

  /** No upper-case ASCII letter occurs in `s`. */
  predicate IsLower(s: string)
  {
    forall i :: 0 <= i < |s| ==> !('A' <= s[i] <= 'Z')
  }

  /** PHP `strtolower`: maps `A`..`Z` to `a`..`z` and leaves every other character alone. */
  function Lower(s: string): (r: string)
    ensures |r| == |s|
    ensures IsLower(r)
    ensures forall i :: 0 <= i < |s| ==> r[i] == LowerChar(s[i])
    ensures IsLower(s) ==> r == s
  {
    if s == [] then [] else [LowerChar(s[0])] + Lower(s[1..])
  }

  /** Lower-casing twice is lower-casing once. */
  lemma LowerIdempotent(s: string)
    ensures Lower(Lower(s)) == Lower(s)
  {
  }

  /** Lower-casing distributes over concatenation. */
  lemma LowerAppend(a: string, b: string)
    ensures Lower(a + b) == Lower(a) + Lower(b)
  {
    assert forall i :: 0 <= i < |a + b| ==> Lower(a + b)[i] == (Lower(a) + Lower(b))[i];
  }

  /** PHP `str_starts_with($s, $prefix)`. */
  predicate StartsWith(s: string, prefix: string)
  {
    prefix <= s
  }

  /** PHP `substr($s, $n)` for `0 <= $n`: drops the first `n` characters, or everything. */
  function Drop(s: string, n: nat): (r: string)
    ensures n <= |s| ==> s == s[..n] + r
    ensures n >= |s| ==> r == ""
  {
    if n <= |s| then s[n..] else ""
  }

  /** PHP truthiness of a string: `""` and `"0"` are the only false strings (`empty`, `?:`, `!`). */
  predicate Falsy(s: string)
  {
    s == "" || s == "0"
  }

  /** `needle` occurs in `hay` as a contiguous block. */
  predicate Contains(hay: string, needle: string)
    decreases |hay|
  {
    StartsWith(hay, needle) || (hay != [] && Contains(hay[1..], needle))
  }

  /** `needle` occurs in `hay` starting at index `i`. */
  predicate OccursAt(hay: string, needle: string, i: int)
  {
    0 <= i <= |hay| - |needle| && hay[i..i + |needle|] == needle
  }

  /** Contains agrees with the index-based definition of a substring. */
  lemma {:induction false} ContainsAt(hay: string, needle: string)
    ensures Contains(hay, needle) <==> exists i :: OccursAt(hay, needle, i)
    decreases |hay|
  {
    if Contains(hay, needle) {
      if StartsWith(hay, needle) {
        assert OccursAt(hay, needle, 0);
      } else {
        ContainsAt(hay[1..], needle);
        var i :| OccursAt(hay[1..], needle, i);
        assert hay[i + 1..i + 1 + |needle|] == hay[1..][i..i + |needle|];
        assert OccursAt(hay, needle, i + 1);
      }
    }
    if exists i :: OccursAt(hay, needle, i) {
      var i :| OccursAt(hay, needle, i);
      if i == 0 {
        assert StartsWith(hay, needle);
      } else {
        assert hay[1..][i - 1..i - 1 + |needle|] == hay[i..i + |needle|];
        assert OccursAt(hay[1..], needle, i - 1);
        ContainsAt(hay[1..], needle);
      }
    }
  }

  /** A case-sensitive substring match survives lower-casing both sides. */
  lemma {:induction false} ContainsLower(hay: string, needle: string)
    requires Contains(hay, needle)
    ensures Contains(Lower(hay), Lower(needle))
  {
    if StartsWith(hay, needle) {
      assert Lower(hay) == Lower(needle) + Lower(hay[|needle|..]) by {
        assert hay == needle + hay[|needle|..];
        LowerAppend(needle, hay[|needle|..]);
      }
    } else {
      ContainsLower(hay[1..], needle);
      assert Lower(hay)[1..] == Lower(hay[1..]);
    }
  }

  /**
   * SQL `s LIKE p` without an escape character: `%` matches any run of characters,
   * `_` exactly one, every other character itself.
   */
  predicate Like(s: string, p: string)
    decreases |p|, |s|
  {
    if p == [] then s == []
    else if p[0] == '%' then Like(s, p[1..]) || (s != [] && Like(s[1..], p))
    else s != [] && (p[0] == '_' || p[0] == s[0]) && Like(s[1..], p[1..])
  }

  /** The pattern `"%" + v + "%"` that the listing filter binds for a value `v`. */
  function SubstringPattern(v: string): (p: string)
    ensures |p| == |v| + 2 && p[0] == '%' && p[|p| - 1] == '%'
  {
    "%" + v + "%"
  }

  /** `v` holds neither LIKE wildcard. */
  predicate NoWildcards(v: string)
  {
    forall i :: 0 <= i < |v| ==> v[i] != '%' && v[i] != '_'
  }

  /** A lone `%` matches every string. */
  lemma {:induction false} LikePercent(s: string)
    ensures Like(s, "%")
    decreases |s|
  {
    if s != [] {
      LikePercent(s[1..]);
    }
  }

  /** A string that starts with `v` and whose rest matches `q` matches `v + q`: wildcards in `v` match themselves. */
  lemma {:induction false} LikeLiteralPrefix(s: string, v: string, q: string)
    requires StartsWith(s, v) && Like(s[|v|..], q)
    ensures Like(s, v + q)
    decreases |v|
  {
    if v == [] {
      assert s[|v|..] == s && v + q == q;
    } else {
      assert (v + q)[0] == v[0] && (v + q)[1..] == v[1..] + q;
      assert s != [] && s[0] == v[0];
      assert s[1..][|v[1..]|..] == s[|v|..];
      LikeLiteralPrefix(s[1..], v[1..], q);
      if v[0] == '%' {
        assert Like(s[1..], (v + q)[1..]);
        assert Like(s[1..], v + q);
      }
    }
  }

  /** Every substring occurrence satisfies the LIKE pattern, whatever `v` holds. */
  lemma {:induction false} ContainsLike(s: string, v: string)
    requires Contains(s, v)
    ensures Like(s, SubstringPattern(v))
    decreases |s|
  {
    var p := SubstringPattern(v);
    assert p[1..] == v + "%";
    if StartsWith(s, v) {
      LikePercent(s[|v|..]);
      LikeLiteralPrefix(s, v, "%");
    } else {
      ContainsLike(s[1..], v);
    }
  }

  /** Without wildcards in `v`, matching `v + "%"` means starting with `v`. */
  lemma {:induction false} LikePrefixLiteral(s: string, v: string)
    requires NoWildcards(v) && Like(s, v + "%")
    ensures StartsWith(s, v)
    decreases |v|
  {
    if v != [] {
      assert (v + "%")[0] == v[0] && (v + "%")[1..] == v[1..] + "%";
      LikePrefixLiteral(s[1..], v[1..]);
    }
  }

  /** Lower-casing never introduces a wildcard. */
  lemma LowerKeepsNoWildcards(v: string)
    requires NoWildcards(v)
    ensures NoWildcards(Lower(v))
  {
    var w := Lower(v);
    forall i | 0 <= i < |w| ensures w[i] != '%' && w[i] != '_' {
      assert w[i] == LowerChar(v[i]);
    }
  }

  /** Without wildcards in `v`, the LIKE pattern is exactly a substring test. */
  lemma {:induction false} LikeContains(s: string, v: string)
    requires NoWildcards(v)
    ensures Like(s, SubstringPattern(v)) <==> Contains(s, v)
    decreases |s|
  {
    var p := SubstringPattern(v);
    assert p[0] == '%' && p[1..] == v + "%";
    if Like(s, p) {
      if Like(s, v + "%") {
        LikePrefixLiteral(s, v);
      } else {
        LikeContains(s[1..], v);
      }
    }
    if Contains(s, v) {
      ContainsLike(s, v);
    }
  }

  /** An empty filter value matches every string. */
  lemma EmptyValueMatchesAll(s: string)
    ensures Like(s, SubstringPattern(""))
  {
    assert Contains(s, "") by {
      assert StartsWith(s, "");
    }
    ContainsLike(s, "");
  }

  /** `_` is a wildcard: `"a_c"` matches `"abc"` although `"abc"` does not contain `"a_c"`. */
  lemma UnderscoreIsWildcard()
    ensures Like("abc", SubstringPattern("a_c")) && !Contains("abc", "a_c")
  {
    var p := SubstringPattern("a_c");
    assert p == "%a_c%";
    assert Like("", "%") by { LikePercent(""); }
    assert Like("abc", "a_c%");
    assert !Contains("c", "a_c");
    assert !Contains("bc", "a_c");
  }
}
