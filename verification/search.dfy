/**
 * The home page's recipe search: keep, in their original order, the recipes
 * whose title, description or one of whose tags contains the search term,
 * ignoring letter case.
 */
module Search {
  import opened Strings
  import opened Types

  /** Some tag of `tags`, lower-cased, contains `t` (`tags.some(...)`). */
  predicate SomeTagContains(tags: seq<string>, t: string) {
    exists k | 0 <= k < |tags| :: Contains(Lower(tags[k]), t)
  }

  /** The filter callback: the lower-cased term occurs in the title, the description or a tag. */
  predicate Matches(recipe: Recipe, term: string): (b: bool)
    ensures term == "" ==> b
    ensures b ==>
      |term| <= |recipe.title| || |term| <= |recipe.description|
      || exists k | 0 <= k < |recipe.tags| :: |term| <= |recipe.tags[k]|
  {
    assert Lower("") == "";
    ContainsEmpty(Lower(recipe.title));
    var t := Lower(term);
    Contains(Lower(recipe.title), t)
    || Contains(Lower(recipe.description), t)
    || SomeTagContains(recipe.tags, t)
  }

  /** `recipes.filter(recipe => Matches(recipe, term))`. */
  function Filter(recipes: seq<Recipe>, term: string): (r: seq<Recipe>)
    ensures |r| <= |recipes|
    ensures forall x :: x in r <==> x in recipes && Matches(x, term)
    ensures forall x :: multiset(r)[x] == if Matches(x, term) then multiset(recipes)[x] else 0
    decreases |recipes|
  {
    if recipes == [] then []
    else
      var rest := Filter(recipes[1..], term);
      assert recipes == [recipes[0]] + recipes[1..];
      assert forall x :: x in recipes <==> x == recipes[0] || x in recipes[1..];
      if Matches(recipes[0], term) then [recipes[0]] + rest else rest
  }

  /** `a` can be obtained from `b` by deleting elements. */
  ghost predicate IsSubsequence<T>(a: seq<T>, b: seq<T>)
    decreases |b|
  {
    if a == [] then true
    else if b == [] then false
    else (a[0] == b[0] && IsSubsequence(a[1..], b[1..])) || IsSubsequence(a, b[1..])
  }

  /** The result keeps the recipes' original order: it is a subsequence of the input. */
  lemma {:induction false} FilterIsSubsequence(recipes: seq<Recipe>, term: string)
    ensures IsSubsequence(Filter(recipes, term), recipes)
    decreases |recipes|
  {
    if recipes != [] {
      FilterIsSubsequence(recipes[1..], term);
      var rest := Filter(recipes[1..], term);
      if Matches(recipes[0], term) {
        assert ([recipes[0]] + rest)[1..] == rest;
      }
    }
  }

  /** An empty search term keeps every recipe. */
  lemma {:induction false} EmptyTermKeepsAll(recipes: seq<Recipe>)
    ensures Filter(recipes, "") == recipes
    decreases |recipes|
  {
    if recipes != [] {
      EmptyTermKeepsAll(recipes[1..]);
      assert recipes == [recipes[0]] + recipes[1..];
    }
  }

  /** Terms that differ only in letter case select the same recipes. */
  lemma {:induction false} CaseInsensitive(recipes: seq<Recipe>, t1: string, t2: string)
    requires Lower(t1) == Lower(t2)
    ensures Filter(recipes, t1) == Filter(recipes, t2)
    decreases |recipes|
  {
    if recipes != [] {
      CaseInsensitive(recipes[1..], t1, t2);
    }
  }

  /** Filtering a result again with the same term changes nothing. */
  lemma {:induction false} FilterIdempotent(recipes: seq<Recipe>, term: string)
    ensures Filter(Filter(recipes, term), term) == Filter(recipes, term)
    decreases |recipes|
  {
    if recipes != [] {
      FilterIdempotent(recipes[1..], term);
      var rest := Filter(recipes[1..], term);
      if Matches(recipes[0], term) {
        assert ([recipes[0]] + rest)[1..] == rest;
      }
    }
  }

  /** A recipe that matches a term also matches every substring of that term. */
  lemma MatchesSubTerm(recipe: Recipe, t1: string, t2: string)
    requires Contains(t2, t1)
    requires Matches(recipe, t2)
    ensures Matches(recipe, t1)
  {
    var l1, l2 := Lower(t1), Lower(t2);
    LowerKeepsContains(t2, t1);
    if Contains(Lower(recipe.title), l2) {
      ContainsTransitive(Lower(recipe.title), l2, l1);
    } else if Contains(Lower(recipe.description), l2) {
      ContainsTransitive(Lower(recipe.description), l2, l1);
    } else {
      var k :| 0 <= k < |recipe.tags| && Contains(Lower(recipe.tags[k]), l2);
      ContainsTransitive(Lower(recipe.tags[k]), l2, l1);
    }
  }

  /**
   * Typing more narrows the result: when `t2` contains `t1`, the result for
   * `t2` is the result for `t1` filtered again by `t2`, hence a subsequence of it.
   */
  lemma {:induction false} NarrowingTerm(recipes: seq<Recipe>, t1: string, t2: string)
    requires Contains(t2, t1)
    ensures Filter(Filter(recipes, t1), t2) == Filter(recipes, t2)
    ensures IsSubsequence(Filter(recipes, t2), Filter(recipes, t1))
    decreases |recipes|
  {
    if recipes != [] {
      NarrowingTerm(recipes[1..], t1, t2);
      var rest := Filter(recipes[1..], t1);
      if Matches(recipes[0], t2) {
        MatchesSubTerm(recipes[0], t1, t2);
      }
      if Matches(recipes[0], t1) {
        assert ([recipes[0]] + rest)[1..] == rest;
      }
    }
    FilterIsSubsequence(Filter(recipes, t1), t2);
  }
}
