/**
  The text matching `search` asks of the database: `name ILIKE '%q%'`, a
  case-insensitive substring test. Case is folded for the Latin and the basic
  Cyrillic alphabets, the two the application's users write in.
 */
module Text {

  /** The lower-case form of a letter; every other character is unchanged. */
  function Fold(c: char): (d: char)
    ensures 'A' <= c <= 'Z' ==> d as int == c as int + 32
    ensures 'А' <= c <= 'Я' ==> d as int == c as int + 32
    ensures 'Ѐ' <= c <= 'Џ' ==> d as int == c as int + 80
    ensures !('A' <= c <= 'Z') && !('Ѐ' <= c <= 'Я') ==> d == c
    ensures 'a' <= d <= 'z' <==> 'a' <= c <= 'z' || 'A' <= c <= 'Z'
  {
    if 'A' <= c <= 'Z' then (c as int + 32) as char
    else if 'А' <= c <= 'Я' then (c as int + 32) as char   // А..Я to а..я
    else if 'Ѐ' <= c <= 'Џ' then (c as int + 80) as char   // Ѐ..Џ, Ё among them, to ѐ..џ
    else c
  }

  function Folded(s: string): (r: string)
    ensures |r| == |s|
    ensures forall i :: 0 <= i < |s| ==> r[i] == Fold(s[i])
  {
    seq(|s|, i requires 0 <= i < |s| => Fold(s[i]))
  }

  /** Folding twice is folding once: a folded string is its own lower case. */
  lemma FoldIdempotent(c: char)
    ensures Fold(Fold(c)) == Fold(c)
  {
  }

  /** `needle` occurs in `hay` at position `k`, ignoring case. */
  predicate OccursAt(hay: string, needle: string, k: nat)
    requires k + |needle| <= |hay|
  {
    Folded(hay[k..k + |needle|]) == Folded(needle)
  }

  /** `hay ILIKE '%' || needle || '%'`. */
  predicate ContainsFolded(hay: string, needle: string) {
    exists k: nat :: k + |needle| <= |hay| && OccursAt(hay, needle, k)
  }

  /** The test ignores case in the text searched. */
  lemma ContainsIgnoresCase(hay: string, needle: string)
    ensures ContainsFolded(hay, needle) <==> ContainsFolded(Folded(hay), needle)
  {
    if ContainsFolded(hay, needle) {
      var k: nat :| k + |needle| <= |hay| && OccursAt(hay, needle, k);
      FoldSlice(hay, k, k + |needle|);
      assert OccursAt(Folded(hay), needle, k);
    }
    if ContainsFolded(Folded(hay), needle) {
      var k: nat :| k + |needle| <= |hay| && OccursAt(Folded(hay), needle, k);
      FoldSlice(hay, k, k + |needle|);
      assert OccursAt(hay, needle, k);
    }
  }

  lemma FoldSlice(s: string, i: nat, j: nat)
    requires i <= j <= |s|
    ensures Folded(Folded(s)[i..j]) == Folded(s[i..j])
  {
    forall k | 0 <= k < j - i
      ensures Folded(Folded(s)[i..j])[k] == Folded(s[i..j])[k]
    {
      FoldIdempotent(s[i + k]);
    }
  }

  /** An empty pattern matches every text; this is why `search` insists on a
      non-empty query. */
  lemma EmptyNeedleMatchesAll(hay: string)
    ensures ContainsFolded(hay, "")
  {
    assert OccursAt(hay, "", 0);
  }
}
