/** The product name search both the cashier and the products page run:
    `products.filter(p => p.name.toLowerCase().includes(searchQuery.toLowerCase()))`. */
module Search {
  import opened Types
  import opened Seqs

  /** `toLowerCase` on one character, for the ASCII letters only. */
  function LowerChar(c: char): char
  {
    if 'A' <= c <= 'Z' then (c as int + 32) as char else c
  }

  /** `toLowerCase`, character by character. */
  function ToLower(s: string): (r: string)
    ensures |r| == |s|
    ensures forall i :: 0 <= i < |s| ==> r[i] == LowerChar(s[i])
  {
    if s == [] then [] else [LowerChar(s[0])] + ToLower(s[1..])
  }

  /** `needle` occurs in `hay` starting at position i. */
  predicate OccursAt(hay: string, needle: string, i: int)
  {
    0 <= i && i + |needle| <= |hay| && hay[i..i + |needle|] == needle
  }

  /** `hay.includes(needle)`: a prefix match here or further along. */
  predicate Includes(hay: string, needle: string)
    decreases |hay|
  {
    (|needle| <= |hay| && hay[..|needle|] == needle) || (hay != [] && Includes(hay[1..], needle))
  }

  /** `Includes` holds exactly when the needle occurs at some position. */
  lemma {:induction false} IncludesIffOccurs(hay: string, needle: string)
    ensures Includes(hay, needle) <==> exists i :: OccursAt(hay, needle, i)
    decreases |hay|
  {
    if |needle| <= |hay| && hay[..|needle|] == needle {
      assert OccursAt(hay, needle, 0);
    }
    if hay != [] {
      IncludesIffOccurs(hay[1..], needle);
      if exists i :: OccursAt(hay[1..], needle, i) {
        var i :| OccursAt(hay[1..], needle, i);
        assert hay[1..][i..i + |needle|] == hay[i + 1..i + 1 + |needle|];
        assert OccursAt(hay, needle, i + 1);
      }
      if exists i :: OccursAt(hay, needle, i) {
        var i :| OccursAt(hay, needle, i);
        if i > 0 {
          assert hay[1..][i - 1..i - 1 + |needle|] == hay[i..i + |needle|];
          assert OccursAt(hay[1..], needle, i - 1);
        }
      }
    } else {
      if exists i :: OccursAt(hay, needle, i) {
        var i :| OccursAt(hay, needle, i);
        assert |needle| == 0;
      }
    }
  }

  /** The product's lower-cased name contains the lower-cased query. */
  predicate NameMatches(p: Product, query: string)
  {
    Includes(ToLower(p.name), ToLower(query))
  }

  /** The filtered product list: the matching products, each as often as before, in order. */
  function SearchByName(ps: seq<Product>, query: string): (r: seq<Product>)
    ensures forall p :: multiset(r)[p] == if NameMatches(p, query) then multiset(ps)[p] else 0
    ensures forall p :: p in r <==> p in ps && NameMatches(p, query)
    ensures IsSubsequence(r, ps)
  {
    if ps == [] then []
    else
      var rest := SearchByName(ps[1..], query);
      assert ps == [ps[0]] + ps[1..];
      if NameMatches(ps[0], query) then
        SubsequenceKeep(rest, ps[1..], ps[0]);
        [ps[0]] + rest
      else
        SubsequenceSkip(rest, ps[1..], ps[0]);
        rest
  }

  /** An empty query keeps every product. */
  lemma {:induction false} EmptyQueryKeepsAll(ps: seq<Product>)
    ensures SearchByName(ps, "") == ps
  {
    if ps != [] {
      var name := ToLower(ps[0].name);
      assert name[..0] == "";
      assert NameMatches(ps[0], "");
      EmptyQueryKeepsAll(ps[1..]);
      assert ps == [ps[0]] + ps[1..];
    }
  }
}
