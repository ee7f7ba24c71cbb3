/** The keyword tables both categorisers walk: an ordered list of categories, each with
    its keywords, where the first category with a matching keyword wins. */
module Categories {
  import opened Common

  datatype Category = Category(name: string, keywords: seq<string>)

  /** `keywords.some(hit)`. */
  predicate AnyHit(keywords: seq<string>, hit: string -> bool)
  {
    exists k :: k in keywords && hit(k)
  }

  /** The index of the first category at or after `from` with a matching keyword. */
  function FirstCategory(table: seq<Category>, hit: string -> bool, from: nat): (r: Option<nat>)
    ensures r.None? <==> forall c :: from <= c < |table| ==> !AnyHit(table[c].keywords, hit)
    ensures r.Some? ==> from <= r.value < |table| && AnyHit(table[r.value].keywords, hit)
                        && forall c :: from <= c < r.value ==> !AnyHit(table[c].keywords, hit)
    decreases |table| - from
  {
    if from >= |table| then None
    else if AnyHit(table[from].keywords, hit) then Some(from)
    else FirstCategory(table, hit, from + 1)
  }

  /** The loop over the table with its early return, each category tested by `some`. */
  method FindCategory(table: seq<Category>, hit: string -> bool) returns (r: Option<nat>)
    ensures r == FirstCategory(table, hit, 0)
  {
    var c := 0;
    while c < |table|
      invariant 0 <= c <= |table|
      invariant FirstCategory(table, hit, 0) == FirstCategory(table, hit, c)
    {
      var keywords := table[c].keywords;
      var k := 0;
      while k < |keywords| && !hit(keywords[k])
        invariant 0 <= k <= |keywords|
        invariant forall j :: 0 <= j < k ==> !hit(keywords[j])
      {
        k := k + 1;
      }
      if k < |keywords| {
        return Some(c);
      }
      c := c + 1;
    }
    return None;
  }

  /** The first category with a hit is the one reported, whichever category it is. */
  lemma FirstCategoryIs(table: seq<Category>, hit: string -> bool, c: nat)
    requires c < |table| && AnyHit(table[c].keywords, hit)
    requires forall d :: 0 <= d < c ==> !AnyHit(table[d].keywords, hit)
    ensures FirstCategory(table, hit, 0) == Some(c)
  {
    var r := FirstCategory(table, hit, 0);
    assert r.Some?;
    assert !(r.value < c) && !(c < r.value);
  }

  /** A table whose first two categories miss and whose third hits reports the third. */
  lemma ThirdCategoryFirst(table: seq<Category>, hit: string -> bool)
    requires |table| > 2 && !AnyHit(table[0].keywords, hit) && !AnyHit(table[1].keywords, hit)
    requires AnyHit(table[2].keywords, hit)
    ensures FirstCategory(table, hit, 0) == Some(2)
  {
    FirstCategoryIs(table, hit, 2);
  }

  /** A keyword does not occur where the text has another character than its first one. */
  lemma FirstCharacterDiffers(s: string, k: string, i: int)
    requires 0 <= i < |s| && k != [] && s[i] != k[0]
    ensures !OccursAt(s, k, i)
  {
    if OccursAt(s, k, i) {
      OccurrenceCharacter(s, k, i, i);
    }
  }

  /** A keyword never occurs in a text shorter than itself. */
  lemma ShortTextContainsNothing(s: string, k: string)
    requires |s| < |k|
    ensures !Contains(s, k)
  {
  }
}
