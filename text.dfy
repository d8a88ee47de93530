/**
 String operations the store's queries rely on: `ILIKE '%term%'` for the
 search pages (ASCII case folding, plain-text terms) and, for `ORDER BY
 name`, character-code order: PostgreSQL's "C" collation, standing for
 whatever collation the database uses.
 */
module Text {

  /** ASCII lower-casing of one character. */
  function LowerChar(c: char): char
  {
    if 'A' <= c <= 'Z' then (c as int + 32) as char else c
  }

  /** ASCII lower-casing of a string, character by character. */
  function Lower(s: string): (r: string)
    ensures |r| == |s|
    ensures forall i :: 0 <= i < |s| ==> r[i] == LowerChar(s[i])
  {
    if |s| == 0 then [] else [LowerChar(s[0])] + Lower(s[1..])
  }

  /** Lower-casing twice is lower-casing once. */
  lemma {:induction false} LowerIdempotent(s: string)
    ensures Lower(Lower(s)) == Lower(s)
  {
    assert forall i :: 0 <= i < |s| ==> LowerChar(LowerChar(s[i])) == LowerChar(s[i]);
  }

  /** `p` occurs in `s` starting at position `i`. */
  predicate OccursAt(p: string, s: string, i: int)
  {
    0 <= i && i + |p| <= |s| && s[i..i + |p|] == p
  }

  /** Substring test, scanning `s` from left to right. */
  function Contains(s: string, p: string): bool
    decreases |s|
  {
    if |p| > |s| then false
    else if s[..|p|] == p then true
    else Contains(s[1..], p)
  }

  /** `Contains` holds exactly when `p` occurs somewhere in `s`. */
  lemma {:induction false} ContainsIffOccurs(s: string, p: string)
    ensures Contains(s, p) <==> exists i :: OccursAt(p, s, i)
    decreases |s|
  {
    if |p| > |s| {
      forall i | OccursAt(p, s, i) ensures false { }
    } else if s[..|p|] == p {
      assert OccursAt(p, s, 0);
    } else {
      ContainsIffOccurs(s[1..], p);
      if Contains(s[1..], p) {
        var i :| OccursAt(p, s[1..], i);
        assert s[1..][i..i + |p|] == s[i + 1..i + 1 + |p|];
        assert OccursAt(p, s, i + 1);
      } else {
        forall i | OccursAt(p, s, i) ensures false {
          assert i != 0;
          assert s[1..][i - 1..i - 1 + |p|] == s[i..i + |p|];
          assert OccursAt(p, s[1..], i - 1);
        }
      }
    }
  }

  /** `name ILIKE '%term%'`: the term occurs in the name, ignoring ASCII case. */
  predicate ILike(name: string, term: string)
  {
    Contains(Lower(name), Lower(term))
  }

  /** The empty term matches every name. */
  lemma {:induction false} ILikeEmptyTerm(name: string)
    ensures ILike(name, "")
  {
    assert Lower(name)[..0] == Lower("");
  }

  /** Matching ignores the case of the term and of the name. */
  lemma {:induction false} ILikeIgnoresCase(name: string, term: string)
    ensures ILike(name, term) == ILike(Lower(name), term) == ILike(name, Lower(term))
  {
    LowerIdempotent(name);
    LowerIdempotent(term);
  }

  /** A term occurring in the lower-cased name at position `i` matches. */
  lemma {:induction false} ILikeAt(name: string, term: string, i: int)
    requires OccursAt(Lower(term), Lower(name), i)
    ensures ILike(name, term)
  {
    ContainsIffOccurs(Lower(name), Lower(term));
  }

  /** A term matching the name character by character, ignoring case, from position `i` on matches. */
  lemma {:induction false} ILikeAtChars(name: string, term: string, i: int)
    requires 0 <= i && i + |term| <= |name|
    requires forall j :: 0 <= j < |term| ==> LowerChar(name[i + j]) == LowerChar(term[j])
    ensures ILike(name, term)
  {
    assert Lower(name)[i..i + |term|] == Lower(term);
    ILikeAt(name, term, i);
  }

  /** A name holding no character equal, ignoring case, to the term's first one cannot match it. */
  lemma {:induction false} ILikeNeedsFirstChar(name: string, term: string)
    requires |term| > 0
    requires forall c :: c in name ==> LowerChar(c) != LowerChar(term[0])
    ensures !ILike(name, term)
  {
    ContainsIffOccurs(Lower(name), Lower(term));
  }

  /** Lexicographic order on character codes: `a` sorts no later than `b`. */
  predicate LexLe(a: string, b: string)
  {
    |a| == 0 || (|b| > 0 && (a[0] < b[0] || (a[0] == b[0] && LexLe(a[1..], b[1..]))))
  }

  /** Any two names are ordered one way or the other. */
  lemma {:induction false} LexLeTotal(a: string, b: string)
    ensures LexLe(a, b) || LexLe(b, a)
  {
    if |a| > 0 && |b| > 0 && a[0] == b[0] {
      LexLeTotal(a[1..], b[1..]);
    }
  }

  /** The order is transitive. */
  lemma {:induction false} LexLeTransitive(a: string, b: string, c: string)
    requires LexLe(a, b) && LexLe(b, c)
    ensures LexLe(a, c)
  {
    if |a| > 0 && |b| > 0 && |c| > 0 && a[0] == b[0] == c[0] {
      LexLeTransitive(a[1..], b[1..], c[1..]);
    }
  }
}
