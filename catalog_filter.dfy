/** The catalog page's filter: which products the current category choice
    keeps, in which order the chosen sort puts them, and how many of them
    are shown. A product card is abstracted to the attributes the filter
    reads (category, subcategory, price) and a key that stands for the
    card's identity on the page. */
module CatalogFilter {
  import opened Nullable
  import opened Decimal

  // ---------------------------------------------------------------------
  // Products

  /** A product card as the filter sees it. `key` is the card's position
      on the page; `price` is None when `parseInt` gave NaN. */
  datatype Item = Item(key: nat, category: Option<string>, subcategory: Option<string>, price: Option<nat>)

  /** A card as found on the page, before `collectProducts` has looked at
      it: its `data-category`, `data-subcategory` and `data-title`
      attributes, its image's `src` and its price element's text, each
      None when missing. */
  datatype Card = Card(category: Option<string>, subcategory: Option<string>, title: Option<string>,
                       imageSrc: Option<string>, costText: Option<string>)

  /** A string attribute used as a condition: present and not empty. */
  predicate Truthy(a: Option<string>) {
    a.Some? && a.value != ""
  }

  /** `String.prototype.includes`. */
  predicate Contains(s: string, part: string) {
    part <= s || (s != [] && Contains(s[1..], part))
  }

  /** `getMainCategoryBySub`. */
  function MainCategoryBySub(sub: Option<string>): (main: Option<string>)
    ensures main == Some("clothing") <==> sub == Some("hoodie") || sub == Some("sweatshirt")
    ensures main == Some("accessories") <==> sub == Some("pin") || sub == Some("cap") || sub == Some("shopper")
    ensures main == Some("other") <==> sub == Some("poster") || sub == Some("case")
    ensures main.None? <==> !(sub.Some? && sub.value in {"hoodie", "sweatshirt", "pin", "cap", "shopper", "poster", "case"})
  {
    if sub == Some("hoodie") || sub == Some("sweatshirt") then Some("clothing")
    else if sub == Some("pin") || sub == Some("cap") || sub == Some("shopper") then Some("accessories")
    else if sub == Some("poster") || sub == Some("case") then Some("other")
    else None
  }

  // ---------------------------------------------------------------------
  // collectProducts

  /** One keyword rule of `collectProducts`: a word in the title or in the
      image's address, and the category and subcategory it assigns. */
  datatype Rule = Rule(titleWord: string, imageWord: string, category: string, subcategory: string)

  /** The rules, in the order they are tried. */
  const Rules: seq<Rule> := [
    Rule("Кепка", "cap_", "accessories", "cap"),
    Rule("Значок", "pin_", "accessories", "pin"),
    Rule("Свитшот", "sweatshirt", "clothing", "sweatshirt"),
    Rule("Худи", "hoodie", "clothing", "hoodie"),
    Rule("Шоппер", "bag_", "accessories", "shopper"),
    Rule("Постер", "poster_", "other", "poster"),
    Rule("Чехол", "case", "other", "case")
  ]

  predicate RuleMatches(r: Rule, title: string, imageSrc: string) {
    Contains(title, r.titleWord) || Contains(imageSrc, r.imageWord)
  }

  /** The first of `rules` that matches, if any. */
  function FirstMatch(rules: seq<Rule>, title: string, imageSrc: string): (r: Option<Rule>)
    ensures r.None? <==> forall i :: 0 <= i < |rules| ==> !RuleMatches(rules[i], title, imageSrc)
    ensures r.Some? ==> exists k :: 0 <= k < |rules| && rules[k] == r.value && RuleMatches(r.value, title, imageSrc)
                          && forall i :: 0 <= i < k ==> !RuleMatches(rules[i], title, imageSrc)
  {
    if rules == [] then None
    else if RuleMatches(rules[0], title, imageSrc) then Some(rules[0])
    else
      var r := FirstMatch(rules[1..], title, imageSrc);
      if r.Some? then
        ghost var k :| 0 <= k < |rules[1..]| && rules[1..][k] == r.value && RuleMatches(r.value, title, imageSrc)
                       && forall i :: 0 <= i < k ==> !RuleMatches(rules[1..][i], title, imageSrc);
        assert rules[k + 1] == r.value;
        r
      else
        r
  }

  /** Every keyword rule assigns a subcategory whose main category, by
      `getMainCategoryBySub`, is the category it assigns, so a classified
      card is found again by selecting its subcategory. */
  lemma RulesAgreeWithMainCategory(title: string, imageSrc: string)
    ensures var r := FirstMatch(Rules, title, imageSrc);
      r.Some? ==> MainCategoryBySub(Some(r.value.subcategory)) == Some(r.value.category)
  {
    RulesConsistent();
    FirstMatchConsistent(Rules, title, imageSrc);
  }

  /** Each rule's subcategory belongs, by `getMainCategoryBySub`, to its category. */
  predicate Consistent(rules: seq<Rule>) {
    forall i :: 0 <= i < |rules| ==> MainCategoryBySub(Some(rules[i].subcategory)) == Some(rules[i].category)
  }

  lemma RulesConsistent()
    ensures Consistent(Rules)
  {
    forall i | 0 <= i < |Rules|
      ensures MainCategoryBySub(Some(Rules[i].subcategory)) == Some(Rules[i].category)
    {
    }
  }

  lemma FirstMatchConsistent(rules: seq<Rule>, title: string, imageSrc: string)
    requires Consistent(rules)
    ensures var r := FirstMatch(rules, title, imageSrc);
      r.Some? ==> MainCategoryBySub(Some(r.value.subcategory)) == Some(r.value.category)
  {
    var r := FirstMatch(rules, title, imageSrc);
    if r.Some? {
      var k :| 0 <= k < |rules| && rules[k] == r.value;
    }
  }

  /** `parseInt(priceText.replace(/\D/g, ''))`, the text being `'0'` when
      the price element is missing or empty. */
  function PriceOf(costText: Option<string>): (price: Option<nat>)
    ensures !Truthy(costText) ==> price == Some(0)
    ensures Truthy(costText) ==> (price.None? <==> forall i :: 0 <= i < |costText.value| ==> !IsDigit(costText.value[i]))
    ensures Truthy(costText) && price.Some? ==> price.value == DigitsValue(DigitsOnly(costText.value))
  {
    var text := if Truthy(costText) then costText.value else "0";
    var digits := DigitsOnly(text);
    DigitsOnlyEmpty(text);
    assert text == "0" ==> digits == "0" by {
      if text == "0" {
        assert text[1..] == [];
      }
    }
    if digits == [] then None else Some(DigitsValue(digits))
  }

  /** The product `collectProducts` makes of the card at position `key`: a
      card without a `data-category` gets both attributes from the first
      matching keyword rule (or keeps what it has when none matches). */
  function ItemOf(key: nat, card: Card): (x: Item)
    ensures x.key == key && x.price == PriceOf(card.costText)
    ensures card.category.Some? ==> x.category == card.category && x.subcategory == card.subcategory
    ensures card.category.None? ==>
              var r := FirstMatch(Rules, card.title.GetOr(""), card.imageSrc.GetOr(""));
              if r.Some? then x.category == Some(r.value.category) && x.subcategory == Some(r.value.subcategory)
              else x.category == card.category && x.subcategory == card.subcategory
  {
    var price := PriceOf(card.costText);
    if card.category.Some? then Item(key, card.category, card.subcategory, price)
    else
      match FirstMatch(Rules, card.title.GetOr(""), card.imageSrc.GetOr(""))
      case Some(r) => Item(key, Some(r.category), Some(r.subcategory), price)
      case None => Item(key, card.category, card.subcategory, price)
  }

  // ---------------------------------------------------------------------
  // Filtering

  /** What one `filter` call keeps. */
  datatype Criterion = CategoryIs(category: string) | SubcategoryIs(subcategory: string)
                     | CategoryAndSub(main: string, sub: string) | Among(chosen: seq<Item>)

  predicate Meets(x: Item, k: Criterion) {
    match k
    case CategoryIs(c) => x.category == Some(c)
    case SubcategoryIs(c) => x.subcategory == Some(c)
    case CategoryAndSub(c, sc) => x.category == Some(c) && x.subcategory == Some(sc)
    case Among(chosen) => x in chosen
  }

  /** `Array.prototype.filter`. */
  function Filter(s: seq<Item>, k: Criterion): (r: seq<Item>)
    ensures |r| <= |s|
    ensures forall x :: x in r <==> x in s && Meets(x, k)
  {
    if s == [] then []
    else (if Meets(s[0], k) then [s[0]] else []) + Filter(s[1..], k)
  }

  /** `r` lists some of the elements of `s`, in the order `s` has them. */
  predicate IsSubsequence(r: seq<Item>, s: seq<Item>)
    decreases |s|
  {
    if r == [] then true
    else if s == [] then false
    else if r[0] == s[0] then IsSubsequence(r[1..], s[1..])
    else IsSubsequence(r, s[1..])
  }

  predicate Distinct(s: seq<Item>) {
    forall i, j :: 0 <= i < j < |s| ==> s[i] != s[j]
  }

  lemma {:induction false} FilterIsSubsequence(s: seq<Item>, k: Criterion)
    ensures IsSubsequence(Filter(s, k), s)
  {
    if s != [] {
      FilterIsSubsequence(s[1..], k);
      if Meets(s[0], k) {
        assert Filter(s, k)[1..] == Filter(s[1..], k);
      } else {
        assert Filter(s, k) == Filter(s[1..], k);
        SubsequenceOfTail(Filter(s[1..], k), s);
      }
    }
  }

  /** A subsequence of the tail is a subsequence of the whole. */
  lemma SubsequenceOfTail(r: seq<Item>, s: seq<Item>)
    requires s != [] && IsSubsequence(r, s[1..])
    ensures IsSubsequence(r, s)
  {
    if r != [] && r[0] == s[0] {
      SubsequenceDropHead(r, s[1..]);
    }
  }

  /** Dropping the first element of a subsequence leaves a subsequence. */
  lemma {:induction false} SubsequenceDropHead(r: seq<Item>, s: seq<Item>)
    requires r != [] && IsSubsequence(r, s)
    ensures IsSubsequence(r[1..], s)
    decreases |s|
  {
    assert s != [];
    if r[0] != s[0] {
      SubsequenceDropHead(r, s[1..]);
    }
    if r[1..] != [] && r[1..][0] == s[0] {
      SubsequenceDropHead(r[1..], s[1..]);
    }
  }

  lemma {:induction false} FilterDistinct(s: seq<Item>, k: Criterion)
    requires Distinct(s)
    ensures Distinct(Filter(s, k))
  {
    if s != [] {
      assert Distinct(s[1..]) by {
        forall i, j | 0 <= i < j < |s[1..]| ensures s[1..][i] != s[1..][j] {
          assert s[1..][i] == s[i + 1] && s[1..][j] == s[j + 1];
        }
      }
      FilterDistinct(s[1..], k);
      assert s[0] !in s[1..] by {
        forall j | 0 <= j < |s[1..]| ensures s[1..][j] != s[0] {
          assert s[1..][j] == s[j + 1];
        }
      }
    }
  }

  /** Two criteria that agree on every element of `s` keep the same elements. */
  lemma {:induction false} FilterSameOn(s: seq<Item>, k1: Criterion, k2: Criterion)
    requires forall x :: x in s ==> (Meets(x, k1) <==> Meets(x, k2))
    ensures Filter(s, k1) == Filter(s, k2)
  {
    if s != [] {
      FilterSameOn(s[1..], k1, k2);
    }
  }

  /** A criterion every element meets keeps everything. */
  lemma {:induction false} FilterKeepsAll(s: seq<Item>, k: Criterion)
    requires forall x :: x in s ==> Meets(x, k)
    ensures Filter(s, k) == s
  {
    if s != [] {
      FilterKeepsAll(s[1..], k);
      assert s == [s[0]] + s[1..];
    }
  }

  /** Filtering by category and then by subcategory is filtering by both. */
  lemma {:induction false} FilterTwice(s: seq<Item>, c: string, sc: string)
    ensures Filter(Filter(s, CategoryIs(c)), SubcategoryIs(sc)) == Filter(s, CategoryAndSub(c, sc))
  {
    if s != [] {
      FilterTwice(s[1..], c, sc);
      var head := if Meets(s[0], CategoryIs(c)) then [s[0]] else [];
      var f := Filter(s, CategoryIs(c));
      assert f == head + Filter(s[1..], CategoryIs(c));
      FilterAppend(head, Filter(s[1..], CategoryIs(c)), SubcategoryIs(sc));
      if head != [] {
        assert Filter(head, SubcategoryIs(sc)) == (if Meets(s[0], SubcategoryIs(sc)) then [s[0]] else []) by {
          assert head[1..] == [];
        }
      }
    }
  }

  lemma {:induction false} FilterAppend(a: seq<Item>, b: seq<Item>, k: Criterion)
    ensures Filter(a + b, k) == Filter(a, k) + Filter(b, k)
  {
    if a == [] {
      assert a + b == b;
    } else {
      assert (a + b)[1..] == a[1..] + b;
      FilterAppend(a[1..], b, k);
    }
  }

  /** Whether a product passes `getFilteredProducts`' category choice: no
      main category keeps everything; a main category keeps its products;
      a subcategory as well (only together with a main one) keeps those in
      both. */
  predicate Selected(x: Item, main: Option<string>, sub: Option<string>) {
    Truthy(main) ==> x.category == main && (Truthy(sub) ==> x.subcategory == sub)
  }

  /** The filtering half of `getFilteredProducts`. */
  function FilterProducts(all: seq<Item>, main: Option<string>, sub: Option<string>): (r: seq<Item>)
    ensures forall x :: x in r <==> x in all && Selected(x, main, sub)
    ensures !Truthy(main) ==> r == all
  {
    if Truthy(main) then
      var inMain := Filter(all, CategoryIs(main.value));
      if Truthy(sub) then Filter(inMain, SubcategoryIs(sub.value)) else inMain
    else all
  }

  /** The filtered products keep the order of `allProducts`, and none occurs twice. */
  lemma FilterProductsOrder(all: seq<Item>, main: Option<string>, sub: Option<string>)
    ensures IsSubsequence(FilterProducts(all, main, sub), all)
    ensures Distinct(all) ==> Distinct(FilterProducts(all, main, sub))
  {
    if Truthy(main) {
      if Truthy(sub) {
        FilterTwice(all, main.value, sub.value);
        FilterIsSubsequence(all, CategoryAndSub(main.value, sub.value));
        if Distinct(all) {
          FilterDistinct(all, CategoryAndSub(main.value, sub.value));
        }
      } else {
        FilterIsSubsequence(all, CategoryIs(main.value));
        if Distinct(all) {
          FilterDistinct(all, CategoryIs(main.value));
        }
      }
    } else {
      SubsequenceRefl(all);
    }
  }

  lemma {:induction false} SubsequenceRefl(s: seq<Item>)
    ensures IsSubsequence(s, s)
  {
    if s != [] {
      SubsequenceRefl(s[1..]);
    }
  }

  /** A subcategory whose main category is unknown filters nothing: since
      the main category becomes null, the subcategory is never consulted. */
  lemma UnknownSubShowsAll(all: seq<Item>, sub: Option<string>)
    requires MainCategoryBySub(sub).None?
    ensures FilterProducts(all, MainCategoryBySub(sub), sub) == all
  {
  }

  // ---------------------------------------------------------------------
  // Sorting

  const AscendingSort := "По цене (по возрастанию)"
  const DescendingSort := "По цене (по убыванию)"
  const DefaultSort := "default"

  /** `parseInt(item.getAttribute('data-price')) || 0`. */
  function SortKey(x: Item): nat {
    x.price.GetOr(0)
  }

  /** `a` may stand before `b` under the comparator. */
  predicate InOrder(a: Item, b: Item, descending: bool) {
    if descending then SortKey(a) >= SortKey(b) else SortKey(a) <= SortKey(b)
  }

  predicate SortedBy(s: seq<Item>, descending: bool) {
    forall i, j :: 0 <= i < j < |s| ==> InOrder(s[i], s[j], descending)
  }

  /** `x` placed after every element that may stand before it. */
  function Insert(x: Item, s: seq<Item>, descending: bool): (r: seq<Item>)
    ensures multiset(r) == multiset(s) + multiset{x}
  {
    if s == [] then [x]
    else if InOrder(s[0], x, descending) then
      assert s == [s[0]] + s[1..];
      [s[0]] + Insert(x, s[1..], descending)
    else [x] + s
  }

  /** The copy `sortedProducts.sort(...)` returns: the elements taken in
      turn and each inserted after those that may stand before it. */
  function SortByPrice(s: seq<Item>, descending: bool): (r: seq<Item>)
    ensures multiset(r) == multiset(s)
  {
    if s == [] then []
    else
      assert s == s[..|s| - 1] + [s[|s| - 1]];
      Insert(s[|s| - 1], SortByPrice(s[..|s| - 1], descending), descending)
  }

  lemma {:induction false} InsertSorted(x: Item, s: seq<Item>, descending: bool)
    requires SortedBy(s, descending)
    ensures SortedBy(Insert(x, s, descending), descending)
  {
    if s != [] && InOrder(s[0], x, descending) {
      var t := Insert(x, s[1..], descending);
      assert SortedBy(s[1..], descending) by {
        forall i, j | 0 <= i < j < |s[1..]| ensures InOrder(s[1..][i], s[1..][j], descending) {
          assert s[1..][i] == s[i + 1] && s[1..][j] == s[j + 1];
        }
      }
      InsertSorted(x, s[1..], descending);
      forall j | 0 <= j < |t| ensures InOrder(s[0], t[j], descending) {
        assert t[j] in multiset(t);
        if t[j] != x {
          assert t[j] in multiset(s[1..]);
          var m :| 0 <= m < |s[1..]| && s[1..][m] == t[j];
          assert s[m + 1] == t[j];
        }
      }
      var r := [s[0]] + t;
      forall i, j | 0 <= i < j < |r| ensures InOrder(r[i], r[j], descending) {
        if i > 0 {
          assert r[i] == t[i - 1] && r[j] == t[j - 1];
        } else {
          assert r[j] == t[j - 1];
        }
      }
    }
  }

  lemma {:induction false} SortByPriceSorted(s: seq<Item>, descending: bool)
    ensures SortedBy(SortByPrice(s, descending), descending)
  {
    if s != [] {
      SortByPriceSorted(s[..|s| - 1], descending);
      InsertSorted(s[|s| - 1], SortByPrice(s[..|s| - 1], descending), descending);
    }
  }

  /** `restoreOriginalOrder`: the elements of `originalOrder` that are
      among the given products, in `originalOrder`'s order. */
  function RestoreOriginalOrder(originalOrder: seq<Item>, products: seq<Item>): (r: seq<Item>)
    ensures forall x :: x in r <==> x in originalOrder && x in products
    ensures IsSubsequence(r, originalOrder)
  {
    FilterIsSubsequence(originalOrder, Among(products));
    Filter(originalOrder, Among(products))
  }

  /** `applySorting`: the two price orders sort a copy; every other value
      of the sort control (the default one included) restores the
      original order. */
  function ApplySorting(products: seq<Item>, sort: string, originalOrder: seq<Item>): (r: seq<Item>)
    ensures sort == AscendingSort || sort == DescendingSort ==> multiset(r) == multiset(products)
    ensures sort == AscendingSort ==> SortedBy(r, false)
    ensures sort == DescendingSort ==> SortedBy(r, true)
    ensures sort != AscendingSort && sort != DescendingSort ==> r == RestoreOriginalOrder(originalOrder, products)
  {
    if sort == AscendingSort then
      SortByPriceSorted(products, false);
      SortByPrice(products, false)
    else if sort == DescendingSort then
      SortByPriceSorted(products, true);
      SortByPrice(products, true)
    else RestoreOriginalOrder(originalOrder, products)
  }

  /** With `originalOrder` equal to `allProducts`, the default order of the
      filtered products is exactly the filtered list. */
  lemma DefaultOrderIsFilterOrder(all: seq<Item>, main: Option<string>, sub: Option<string>)
    ensures RestoreOriginalOrder(all, FilterProducts(all, main, sub)) == FilterProducts(all, main, sub)
  {
    var f := FilterProducts(all, main, sub);
    if Truthy(main) {
      if Truthy(sub) {
        FilterTwice(all, main.value, sub.value);
        FilterSameOn(all, Among(f), CategoryAndSub(main.value, sub.value));
      } else {
        FilterSameOn(all, Among(f), CategoryIs(main.value));
      }
    } else {
      FilterKeepsAll(all, Among(f));
    }
  }

  /** The list `getFilteredProducts` returns. */
  function Listed(all: seq<Item>, originalOrder: seq<Item>, main: Option<string>, sub: Option<string>,
                  sort: string): seq<Item>
  {
    ApplySorting(FilterProducts(all, main, sub), sort, originalOrder)
  }

  /** Whatever the sort, the listed products are exactly the selected
      ones, each once. */
  lemma ListedFacts(all: seq<Item>, main: Option<string>, sub: Option<string>, sort: string)
    requires Distinct(all)
    ensures var r := Listed(all, all, main, sub, sort);
      && (forall x :: x in r <==> x in all && Selected(x, main, sub))
      && Distinct(r)
  {
    var f := FilterProducts(all, main, sub);
    var r := Listed(all, all, main, sub, sort);
    FilterProductsOrder(all, main, sub);
    if sort == AscendingSort || sort == DescendingSort {
      forall x ensures x in r <==> x in f {
        assert x in r <==> x in multiset(r);
        assert x in f <==> x in multiset(f);
      }
      DistinctByMultiset(f, r);
    } else {
      DefaultOrderIsFilterOrder(all, main, sub);
    }
  }

  /** The products to display are distinct products of `all`. */
  lemma ShownFacts(all: seq<Item>, originalOrder: seq<Item>, main: Option<string>, sub: Option<string>,
                   sort: string, n: nat)
    requires Distinct(all) && originalOrder == all
    ensures var shown := Prefix(Listed(all, originalOrder, main, sub, sort), n);
      Distinct(shown) && forall x :: x in shown ==> x in all
  {
    ListedFacts(all, main, sub, sort);
    var listed := Listed(all, originalOrder, main, sub, sort);
    var shown := Prefix(listed, n);
    assert forall x :: x in shown ==> x in listed;
  }

  /** A reordering of a sequence without repeats has no repeats. */
  lemma DistinctByMultiset(s: seq<Item>, r: seq<Item>)
    requires Distinct(s) && multiset(r) == multiset(s)
    ensures Distinct(r)
  {
    forall x ensures multiset(s)[x] <= 1 {
      CountAtMostOne(s, x);
    }
    forall i, j | 0 <= i < j < |r| ensures r[i] != r[j] {
      if r[i] == r[j] {
        RepeatCounted(r, i, j);
      }
    }
  }

  lemma RepeatCounted(r: seq<Item>, i: nat, j: nat)
    requires i < j < |r| && r[i] == r[j]
    ensures multiset(r)[r[i]] >= 2
  {
    var x := r[i];
    assert r == r[..i] + [x] + r[i + 1..j] + [x] + r[j + 1..];
  }

  lemma {:induction false} CountAtMostOne(s: seq<Item>, x: Item)
    requires Distinct(s)
    ensures multiset(s)[x] <= 1
  {
    if s != [] {
      assert s == [s[0]] + s[1..];
      assert Distinct(s[1..]) by {
        forall i, j | 0 <= i < j < |s[1..]| ensures s[1..][i] != s[1..][j] {
          assert s[1..][i] == s[i + 1] && s[1..][j] == s[j + 1];
        }
      }
      CountAtMostOne(s[1..], x);
      if s[0] == x {
        assert x !in s[1..] by {
          forall j | 0 <= j < |s[1..]| ensures s[1..][j] != x {
            assert s[1..][j] == s[j + 1];
          }
        }
      }
    }
  }

  // ---------------------------------------------------------------------
  // Pagination

  const PageSize := 12

  /** `slice(0, n)` for a non-negative n. */
  function Prefix(s: seq<Item>, n: nat): (r: seq<Item>)
    ensures |r| == if n < |s| then n else |s|
    ensures r == s[..|r|]
  {
    if n < |s| then s[..n] else s
  }

  /** How `renderProducts` leaves a card. */
  datatype Style = Hidden | Shown(order: nat)

  /** The products of `collectProducts`, one per card, keyed by position. */
  function Collected(cards: seq<Card>): (r: seq<Item>)
    ensures |r| == |cards|
    ensures forall k :: 0 <= k < |r| ==> r[k] == ItemOf(k, cards[k])
  {
    seq(|cards|, k requires 0 <= k < |cards| => ItemOf(k, cards[k]))
  }

  lemma CollectedStep(cards: seq<Card>, i: nat)
    requires i < |cards|
    ensures Collected(cards)[..i + 1] == Collected(cards)[..i] + [ItemOf(i, cards[i])]
  {
    assert Collected(cards)[i] == ItemOf(i, cards[i]);
  }

  /** Products keyed by their position are distinct. */
  lemma KeyedDistinct(s: seq<Item>)
    requires forall k :: 0 <= k < |s| ==> s[k].key == k
    ensures Distinct(s)
  {
    forall i, j | 0 <= i < j < |s| ensures s[i] != s[j] {
      assert s[i].key != s[j].key;
    }
  }

  /** Every card of `all` has a style and no other does; the i-th of
      `shown` is displayed in position i and every other card is hidden. */
  predicate Displays(styles: map<Item, Style>, all: seq<Item>, shown: seq<Item>) {
    && (forall x :: x in styles ==> x in all)
    && (forall x :: x in all ==> x in styles)
    && (forall i :: 0 <= i < |shown| ==> shown[i] in styles && styles[shown[i]] == Shown(i))
    && (forall x :: x in styles && x !in shown ==> styles[x] == Hidden)
  }

  /** The two passes of `renderProducts` over the cards' styles: every
      product is hidden, then the i-th product to show is displayed in
      position i. */
  method Paint(styles: map<Item, Style>, all: seq<Item>, shown: seq<Item>) returns (painted: map<Item, Style>)
    requires forall x :: x in styles ==> x in all
    requires Distinct(shown) && forall x :: x in shown ==> x in all
    ensures Displays(painted, all, shown)
  {
    painted := styles;
    var i := 0;
    while i < |all|
      invariant 0 <= i <= |all|
      invariant forall x :: x in painted ==> x in all
      invariant forall k :: 0 <= k < i ==> all[k] in painted && painted[all[k]] == Hidden
    {
      painted := painted[all[i] := Hidden];
      i := i + 1;
    }
    var j := 0;
    while j < |shown|
      invariant 0 <= j <= |shown|
      invariant forall x :: x in painted ==> x in all
      invariant forall x :: x in all ==> x in painted
      invariant forall t :: 0 <= t < j ==> shown[t] in painted && painted[shown[t]] == Shown(t)
      invariant forall x :: x in painted && x !in shown[..j] ==> painted[x] == Hidden
    {
      painted := painted[shown[j] := Shown(j)];
      assert shown[..j + 1] == shown[..j] + [shown[j]];
      j := j + 1;
    }
    assert shown[..j] == shown;
  }

  // ---------------------------------------------------------------------
  // The filter object

  class CatalogFilter {
    var currentMainCategory: Option<string>
    var currentSubCategory: Option<string>
    var visibleCount: int
    var currentSort: string
    var allProducts: seq<Item>
    var originalOrder: seq<Item>
    /** The display state `renderProducts` gives each card. */
    var styles: map<Item, Style>
    /** The total shown by `updateProductCount`. */
    var productCount: int
    /** Whether `updateLoadMoreButton` shows the load-more button. */
    var loadMoreShown: bool

    /** The state the filter keeps: a whole number of pages is visible,
        the original order is the collected order, and the cards are
        keyed by their position. */
    predicate Valid()
      reads this
    {
      && PageSize <= visibleCount && visibleCount % PageSize == 0
      && originalOrder == allProducts
      && (forall k :: 0 <= k < |allProducts| ==> allProducts[k].key == k)
      && (forall x :: x in styles ==> x in allProducts)
    }

    /** The page shows the state: the first `visibleCount` listed products
        are displayed, the i-th of them in position i, all other cards are
        hidden, the count is the number listed, and the load-more button
        is shown exactly when more are listed than are visible. */
    predicate Rendered()
      reads this
    {
      var listed := Listed(allProducts, originalOrder, currentMainCategory, currentSubCategory, currentSort);
      && Displays(styles, allProducts, Prefix(listed, if visibleCount < 0 then 0 else visibleCount))
      && productCount == |listed|
      && (loadMoreShown <==> visibleCount < |listed|)
    }

    /** `new CatalogFilter()`: the state is initialised and `init` runs. */
    constructor (cards: seq<Card>)
      ensures Valid() && Rendered()
      ensures allProducts == Collected(cards)
      ensures currentMainCategory == None && currentSubCategory == None
      ensures visibleCount == PageSize && currentSort == DefaultSort
    {
      currentMainCategory := None;
      currentSubCategory := None;
      visibleCount := PageSize;
      currentSort := DefaultSort;
      allProducts := [];
      originalOrder := [];
      styles := map[];
      productCount := 0;
      loadMoreShown := false;
      new;
      Init(cards);
    }

    /** `init`: the cards are collected, and the page is rendered and then
        reset to show every category. */
    method Init(cards: seq<Card>)
      requires allProducts == [] && originalOrder == [] && styles == map[]
      requires PageSize <= visibleCount && visibleCount % PageSize == 0
      modifies this
      ensures Valid() && Rendered()
      ensures allProducts == Collected(cards)
      ensures currentMainCategory == None && currentSubCategory == None
      ensures visibleCount == PageSize && currentSort == old(currentSort)
    {
      ghost var sort := currentSort;
      CollectProducts(cards);
      assert allProducts == Collected(cards) && currentSort == sort;
      RenderProducts();
      assert currentSort == sort;
      ShowAllProducts();
    }

    /** `collectProducts`: each card, in page order, is appended to both
        `originalOrder` and `allProducts`. */
    method CollectProducts(cards: seq<Card>)
      modifies this`allProducts, this`originalOrder
      ensures allProducts == old(allProducts) + Collected(cards)
      ensures originalOrder == old(originalOrder) + Collected(cards)
    {
      ghost var collected := Collected(cards);
      ghost var products, order := allProducts, originalOrder;
      var i := 0;
      while i < |cards|
        invariant 0 <= i <= |cards|
        invariant allProducts == products + collected[..i]
        invariant originalOrder == order + collected[..i]
      {
        var item := ItemOf(i, cards[i]);
        CollectedStep(cards, i);
        originalOrder := originalOrder + [item];
        allProducts := allProducts + [item];
        i := i + 1;
      }
      assert collected[..i] == collected;
    }

    /** `renderProducts`, with `updateProductCount` and `updateLoadMoreButton`. */
    method RenderProducts()
      requires Valid()
      modifies this`styles, this`productCount, this`loadMoreShown
      ensures Valid() && Rendered()
    {
      KeyedDistinct(allProducts);
      var listed := Listed(allProducts, originalOrder, currentMainCategory, currentSubCategory, currentSort);
      var shown := Prefix(listed, visibleCount);
      ShownFacts(allProducts, originalOrder, currentMainCategory, currentSubCategory, currentSort, visibleCount);
      var painted := Paint(styles, allProducts, shown);
      styles := painted;
      productCount := |listed|;
      loadMoreShown := !(visibleCount >= |listed|);
    }

    /** A click on a filter: a main filter selects its category and clears
        the subcategory; a subcategory filter selects it together with its
        main category; any other kind changes no category. Either way the
        visible count goes back to one page. */
    method SelectFilter(category: Option<string>, filterType: Option<string>)
      requires Valid()
      modifies this
      ensures filterType == Some("main") ==> currentMainCategory == category && currentSubCategory == None
      ensures filterType == Some("sub") ==>
                currentSubCategory == category && currentMainCategory == MainCategoryBySub(category)
      ensures filterType != Some("main") && filterType != Some("sub") ==>
                currentMainCategory == old(currentMainCategory) && currentSubCategory == old(currentSubCategory)
      ensures visibleCount == PageSize
      ensures currentSort == old(currentSort) && allProducts == old(allProducts) && originalOrder == old(originalOrder)
      ensures Valid() && Rendered()
    {
      if filterType == Some("main") {
        currentMainCategory := category;
        currentSubCategory := None;
      } else if filterType == Some("sub") {
        currentSubCategory := category;
        currentMainCategory := MainCategoryBySub(category);
      }
      visibleCount := PageSize;
      RenderProducts();
    }

    /** A change of the sort control. */
    method ChangeSort(value: string)
      requires Valid()
      modifies this
      ensures currentSort == value
      ensures currentMainCategory == old(currentMainCategory) && currentSubCategory == old(currentSubCategory)
      ensures visibleCount == old(visibleCount) && allProducts == old(allProducts) && originalOrder == old(originalOrder)
      ensures Valid() && Rendered()
    {
      currentSort := value;
      RenderProducts();
    }

    /** `loadMore`: one more page. */
    method LoadMore()
      requires Valid()
      modifies this
      ensures visibleCount == old(visibleCount) + PageSize
      ensures currentMainCategory == old(currentMainCategory) && currentSubCategory == old(currentSubCategory)
      ensures currentSort == old(currentSort) && allProducts == old(allProducts) && originalOrder == old(originalOrder)
      ensures Valid() && Rendered()
    {
      visibleCount := visibleCount + PageSize;
      RenderProducts();
    }

    /** `showAllProducts`: no category, one page. */
    method ShowAllProducts()
      requires Valid()
      modifies this
      ensures currentMainCategory == None && currentSubCategory == None && visibleCount == PageSize
      ensures currentSort == old(currentSort) && allProducts == old(allProducts) && originalOrder == old(originalOrder)
      ensures Valid() && Rendered()
    {
      currentMainCategory := None;
      currentSubCategory := None;
      visibleCount := PageSize;
      RenderProducts();
    }
  }

  /** The load-more button is hidden exactly when every listed product is
      visible. */
  lemma LoadMoreHiddenIffAllVisible(listed: seq<Item>, visibleCount: nat)
    ensures visibleCount >= |listed| <==> Prefix(listed, visibleCount) == listed
  {
  }
}
