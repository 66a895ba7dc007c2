/** The product search: an optional case-insensitive name criterion and an
    optional exact category criterion, applied one after the other as two
    order-preserving filters over the stored product list. */
module Search {
  import opened Optional
  import opened Products
  import opened Sequences

  // ---------------------------------------------------------------------
  // Case folding (ASCII letters only) and substring search

  function Lower(c: char): char {
    if 'A' <= c <= 'Z' then (c as int - 'A' as int + 'a' as int) as char else c
  }

  function LowerText(s: string): (r: string)
    ensures |r| == |s|
    ensures forall i | 0 <= i < |s| :: r[i] == Lower(s[i])
  {
    seq(|s|, i requires 0 <= i < |s| => Lower(s[i]))
  }

  /** Folding twice is folding once. */
  lemma LowerTextIsIdempotent(s: string)
    ensures LowerText(LowerText(s)) == LowerText(s)
  {
  }

  /** Texts that differ only in the case of their letters fold to the same text. */
  lemma SameFoldedText(t: string, u: string)
    requires |t| == |u| && forall i | 0 <= i < |t| :: Lower(t[i]) == Lower(u[i])
    ensures LowerText(t) == LowerText(u)
  {
  }

  /** `t` occurs in `s` starting at position `i`. */
  predicate OccursAt(s: string, t: string, i: int) {
    0 <= i && i + |t| <= |s| && s[i..i + |t|] == t
  }

  /** Whether `t` occurs anywhere in `s`, as a contiguous piece. */
  function Includes(s: string, t: string): (r: bool)
    ensures r <==> exists i :: OccursAt(s, t, i)
    decreases |s|
  {
    if |t| > |s| then false
    else if s[..|t|] == t then
      assert OccursAt(s, t, 0);
      true
    else
      var rest := Includes(s[1..], t);
      if rest then
        var i :| OccursAt(s[1..], t, i);
        assert s[i + 1..i + 1 + |t|] == s[1..][i..i + |t|];
        assert OccursAt(s, t, i + 1);
        rest
      else
        OccursInTail(s, t);
        rest
  }

  /** Past a failed match at the front, `t` occurs in `s` exactly where it occurs in `s[1..]`, one further on. */
  lemma OccursInTail(s: string, t: string)
    requires |s| >= 1 && !OccursAt(s, t, 0)
    ensures forall i | OccursAt(s, t, i) :: i >= 1 && OccursAt(s[1..], t, i - 1)
  {
    forall i | OccursAt(s, t, i) ensures i >= 1 && OccursAt(s[1..], t, i - 1) {
      assert s[1..][i - 1..i - 1 + |t|] == s[i..i + |t|];
    }
  }

  lemma EmptyTextIsEverywhere(s: string)
    ensures Includes(s, "")
  {
    assert OccursAt(s, "", 0);
  }

  // ---------------------------------------------------------------------
  // The search

  predicate NameMatches(p: Product, searchName: string) {
    Includes(LowerText(p.name), LowerText(searchName))
  }

  /** The name criterion ignores the case of the search text. */
  lemma SearchTextIgnoresCase(p: Product, t: string, u: string)
    requires |t| == |u| && forall i | 0 <= i < |t| :: Lower(t[i]) == Lower(u[i])
    ensures NameMatches(p, t) == NameMatches(p, u)
  {
    SameFoldedText(t, u);
  }

  /** The name criterion ignores the case of the product's name. */
  lemma ProductNameIgnoresCase(p: Product, q: Product, t: string)
    requires |p.name| == |q.name| && forall i | 0 <= i < |p.name| :: Lower(p.name[i]) == Lower(q.name[i])
    ensures NameMatches(p, t) == NameMatches(q, t)
  {
    SameFoldedText(p.name, q.name);
  }

  predicate CategoryMatches(p: Product, categoryId: int) {
    p.categoryId == categoryId
  }

  /** The search as a single criterion: the empty text and the missing
      selection each match every product. */
  predicate Matches(p: Product, searchName: string, searchCategory: Option<int>) {
    && (searchName == "" || NameMatches(p, searchName))
    && (searchCategory.None? || CategoryMatches(p, searchCategory.value))
  }

  /** The displayed rows: the name filter, if any text was typed, then the
      category filter, if a category was selected. */
  function HandleSearch(products: seq<Product>, searchName: string, searchCategory: Option<int>): seq<Product> {
    var byName := if searchName != "" then Filter(products, (p: Product) => NameMatches(p, searchName)) else products;
    if searchCategory.Some? then Filter(byName, (p: Product) => CategoryMatches(p, searchCategory.value)) else byName
  }

  /** Filtering by the empty text would keep every product, so the guard on a
      non-empty search text changes no result. */
  lemma EmptyTextFilterKeepsAll(products: seq<Product>)
    ensures Filter(products, (p: Product) => NameMatches(p, "")) == products
  {
    assert LowerText("") == "";
    forall p | p in products ensures NameMatches(p, "") {
      EmptyTextIsEverywhere(LowerText(p.name));
    }
    FilterAll(products, (p: Product) => NameMatches(p, ""));
  }

  /** The two filters in sequence are one filter by the combined criterion. */
  lemma HandleSearchIsFilter(products: seq<Product>, searchName: string, searchCategory: Option<int>)
    ensures HandleSearch(products, searchName, searchCategory)
            == Filter(products, p => Matches(p, searchName, searchCategory))
  {
    var m := (p: Product) => Matches(p, searchName, searchCategory);
    var byName := (p: Product) => NameMatches(p, searchName);
    if searchName != "" && searchCategory.Some? {
      FilterThenFilter(products, byName, (p: Product) => CategoryMatches(p, searchCategory.value), m);
    } else if searchName != "" {
      FilterThenFilter(products, byName, (_: Product) => true, m);
      FilterAll(Filter(products, byName), (_: Product) => true);
    } else if searchCategory.Some? {
      FilterThenFilter(products, (_: Product) => true, (p: Product) => CategoryMatches(p, searchCategory.value), m);
      FilterAll(products, (_: Product) => true);
    } else {
      FilterAll(products, m);
    }
  }

  /** Soundness, completeness and order: the rows are the products that
      match, each as often as it is stored, in stored order. */
  lemma SearchSoundAndComplete(products: seq<Product>, searchName: string, searchCategory: Option<int>)
    ensures var rows := HandleSearch(products, searchName, searchCategory);
            && IsSubsequence(rows, products)
            && (forall p | p in rows :: Matches(p, searchName, searchCategory))
            && (forall p | p in products && Matches(p, searchName, searchCategory) :: p in rows)
            && (forall p :: multiset(rows)[p] == if Matches(p, searchName, searchCategory) then multiset(products)[p] else 0)
  {
    HandleSearchIsFilter(products, searchName, searchCategory);
    var rows := HandleSearch(products, searchName, searchCategory);
    forall p | p in products && Matches(p, searchName, searchCategory) ensures p in rows {
      assert multiset(rows)[p] == multiset(products)[p];
    }
  }

  /** With no text and no category, every stored product is shown. */
  lemma NoCriteriaShowsAll(products: seq<Product>)
    ensures HandleSearch(products, "", None) == products
  {
  }

  const RedShirt := Product(NumericId(1), "C1", "Red Shirt", "01/01/2020", 5.0, 1)
  const BluePants := Product(NumericId(2), "C2", "Blue Pants", "01/01/2020", 3.0, 2)

  lemma ShirtMatchesRedShirt()
    ensures NameMatches(RedShirt, "SHIRT") && NameMatches(RedShirt, "shirt")
  {
    assert LowerText("Red Shirt") == "red shirt";
    assert LowerText("SHIRT") == "shirt" && LowerText("shirt") == "shirt";
    assert OccursAt("red shirt", "shirt", 4);
  }

  lemma ShirtMissesBluePants()
    ensures !NameMatches(BluePants, "shirt")
  {
    assert LowerText("Blue Pants") == "blue pants";
    assert LowerText("shirt") == "shirt";
    var b := "blue pants";
    forall i | 0 <= i <= 5 ensures !OccursAt(b, "shirt", i) {
      assert b[i] != 's';
      assert b[i..i + 5][0] == b[i];
    }
  }

  lemma SearchByNameExample()
    ensures HandleSearch([RedShirt, BluePants], "shirt", None) == [RedShirt]
  {
    ShirtMatchesRedShirt();
    ShirtMissesBluePants();
    var s := [RedShirt, BluePants];
    var keep := (p: Product) => NameMatches(p, "shirt");
    assert s[1..] == [BluePants] && s[1..][1..] == [];
    assert Filter(s[1..], keep) == [];
    assert Filter(s, keep) == [RedShirt];
  }

  lemma SearchByCategoryExample()
    ensures HandleSearch([RedShirt, BluePants], "", Some(2)) == [BluePants]
  {
    var s := [RedShirt, BluePants];
    var keep := (p: Product) => CategoryMatches(p, 2);
    assert s[1..] == [BluePants] && s[1..][1..] == [];
    assert Filter(s[1..], keep) == [BluePants];
    assert Filter(s, keep) == [BluePants];
  }

  lemma SearchByBothExample()
    ensures HandleSearch([RedShirt, BluePants], "shirt", Some(2)) == []
  {
    SearchByNameExample();
  }
}
