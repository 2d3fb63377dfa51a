/** The catalog page: its label table, the `cn` class-name helper, and the
    memoised filter/sort body that derives the grid from the module-level
    product list and the four UI inputs (query, gender, featured-only, sort). */
module CatalogPage {
  import opened Types
  import opened Seqs
  import opened Strings
  import Formatters

  /** The page's own `GENDER_LABEL` record, keyed by the raw gender number.
      It does not follow the `Gender` enum: 0 is labelled "Male" here. */
  const GENDER_LABEL: map<int, string> := map[0 := "Male", 1 := "Female", 2 := "Unisex"]

  /** `GENDER_LABEL[g]`: `undefined` (None) for a number the record lacks. */
  function PageGenderLabel(g: int): (shown: Option<string>)
    ensures shown.Some? <==> 0 <= g <= 2
    ensures shown.Some? ==> shown.value in {"Male", "Female", "Unisex"}
  {
    if g in GENDER_LABEL then Some(GENDER_LABEL[g]) else None
  }

  /** The page's `GENDER_LABEL` and the formatter's `genderLabel` disagree on
      every value of the `Gender` enum: the page shows, for each value, the
      label `genderLabel` gives the next one (modulo 3). */
  lemma PageLabelsAreShifted(g: int)
    requires g == UNISEX || g == MALE || g == FEMALE
    ensures PageGenderLabel(g) == Some(Formatters.GenderLabel(Some((g + 1) % 3)))
    ensures PageGenderLabel(g) != Some(Formatters.GenderLabel(Some(g)))
  {
  }

  // ---- cn ----

  /** An argument of `cn`: a string, `false` or `undefined`. */
  datatype ClassArg = Class(name: string) | False | Undefined

  /** `Boolean(arg)`: only a non-empty string is truthy. */
  predicate Truthy(a: ClassArg)
  {
    a.Class? && a.name != ""
  }

  /** The truthy arguments' strings, in argument order: the names of
      `args.filter(Boolean)`, one for one. */
  function KeptClasses(args: seq<ClassArg>): (kept: seq<string>)
    ensures |kept| == |Filter(args, Truthy)|
    ensures forall i :: 0 <= i < |kept| ==> kept[i] == Filter(args, Truthy)[i].name
    ensures |kept| <= |args|
    ensures forall i :: 0 <= i < |kept| ==> kept[i] != ""
    ensures kept == [] <==> forall i :: 0 <= i < |args| ==> !Truthy(args[i])
  {
    if args == [] then []
    else if Truthy(args[0]) then [args[0].name] + KeptClasses(args[1..])
    else KeptClasses(args[1..])
  }

  /** `cn(...classes)` = `classes.filter(Boolean).join(" ")`. */
  function Cn(args: seq<ClassArg>): string
  {
    Join(KeptClasses(args), ' ')
  }

  lemma {:induction false} JoinNonEmpty(parts: seq<string>, sep: char)
    requires parts != [] && parts[0] != ""
    ensures Join(parts, sep) != ""
  {
  }

  /** No class string passed to `cn` contains a space. */
  predicate NoSpaces(args: seq<ClassArg>)
  {
    forall i :: 0 <= i < |args| && args[i].Class? ==> ' ' !in args[i].name
  }

  /** `cn` gives "" exactly when no argument is truthy; otherwise, when no class
      string holds a space, splitting its result on " " gives back the truthy
      strings in order, so nothing is dropped, added or reordered. */
  lemma CnKeepsTruthyInOrder(args: seq<ClassArg>)
    ensures Cn(args) == "" <==> forall i :: 0 <= i < |args| ==> !Truthy(args[i])
    ensures (exists i :: 0 <= i < |args| && Truthy(args[i])) && NoSpaces(args)
            ==> Split(Cn(args), ' ') == KeptClasses(args)
  {
    var kept := KeptClasses(args);
    if kept != [] {
      JoinNonEmpty(kept, ' ');
      if NoSpaces(args) {
        KeptHaveNoSpaces(args);
        SplitJoin(kept, ' ');
      }
    }
  }

  lemma {:induction false} KeptHaveNoSpaces(args: seq<ClassArg>)
    requires NoSpaces(args)
    ensures forall i :: 0 <= i < |KeptClasses(args)| ==> ' ' !in KeptClasses(args)[i]
  {
    if args != [] {
      assert NoSpaces(args[1..]) by {
        forall i | 0 <= i < |args[1..]| && args[1..][i].Class? ensures ' ' !in args[1..][i].name {
          assert args[1..][i] == args[i + 1];
        }
      }
      KeptHaveNoSpaces(args[1..]);
    }
  }

  // ---- Sorting ----

  /** The four sort keys of the `switch`. */
  datatype SortOrder = Newest | PriceAsc | PriceDesc | ByName

  /** The `switch (sort)`: any value other than the three named keys takes the
      `newest`/`default` branch. */
  function OrderFor(sort: string): (o: SortOrder)
    ensures o == PriceAsc <==> sort == "priceAsc"
    ensures o == PriceDesc <==> sort == "priceDesc"
    ensures o == ByName <==> sort == "name"
  {
    if sort == "priceAsc" then PriceAsc
    else if sort == "priceDesc" then PriceDesc
    else if sort == "name" then ByName
    else Newest
  }

  /** Lexicographic comparison by code point: -1, 0 or 1. */
  function LexCompare(a: string, b: string): (r: int)
    ensures -1 <= r <= 1
  {
    if a == [] then (if b == [] then 0 else -1)
    else if b == [] then 1
    else if a[0] < b[0] then -1
    else if a[0] > b[0] then 1
    else LexCompare(a[1..], b[1..])
  }

  /** `a.localeCompare(b)`, taken as a case-insensitive lexicographic order. */
  function LocaleCompare(a: string, b: string): int
  {
    LexCompare(Lower(a), Lower(b))
  }

  lemma {:induction false} LexCompareFlip(a: string, b: string)
    ensures LexCompare(a, b) == -LexCompare(b, a)
  {
    if a != [] && b != [] && a[0] == b[0] {
      LexCompareFlip(a[1..], b[1..]);
    }
  }

  lemma {:induction false} LexCompareZero(a: string, b: string)
    ensures LexCompare(a, b) == 0 <==> a == b
  {
    if a != [] && b != [] && a[0] == b[0] {
      LexCompareZero(a[1..], b[1..]);
      assert a == [a[0]] + a[1..] && b == [b[0]] + b[1..];
    }
  }

  lemma {:induction false} LexCompareTrans(a: string, b: string, c: string)
    requires LexCompare(a, b) <= 0 && LexCompare(b, c) <= 0
    ensures LexCompare(a, c) <= 0
  {
    if a != [] && b != [] && c != [] && a[0] == b[0] && b[0] == c[0] {
      LexCompareTrans(a[1..], b[1..], c[1..]);
    }
  }

  /** The comparator handed to `sort` for each key. */
  function Compare(o: SortOrder, a: Product, b: Product): int
  {
    match o
    case PriceAsc => a.basePrice - b.basePrice
    case PriceDesc => b.basePrice - a.basePrice
    case ByName => LocaleCompare(a.name, b.name)
    case Newest => b.createdAt - a.createdAt
  }

  /** Every comparator is consistent: swapping its arguments flips its sign. */
  lemma CompareFlip(o: SortOrder, a: Product, b: Product)
    ensures Compare(o, a, b) < 0 <==> Compare(o, b, a) > 0
    ensures Compare(o, a, b) == 0 <==> Compare(o, b, a) == 0
  {
    if o == ByName {
      LexCompareFlip(Lower(a.name), Lower(b.name));
    }
  }

  /** Every comparator is transitive ("goes no later than" chains). */
  lemma CompareTrans(o: SortOrder, a: Product, b: Product, c: Product)
    requires Compare(o, a, b) <= 0 && Compare(o, b, c) <= 0
    ensures Compare(o, a, c) <= 0
  {
    if o == ByName {
      LexCompareTrans(Lower(a.name), Lower(b.name), Lower(c.name));
    }
  }

  /** Products that compare equal are interchangeable on the left. */
  lemma CompareTie(o: SortOrder, a: Product, b: Product, c: Product)
    requires Compare(o, b, c) == 0
    ensures Compare(o, a, b) == Compare(o, a, c)
  {
    if o == ByName {
      LexCompareZero(Lower(b.name), Lower(c.name));
    }
  }

  /** `s` is ordered by the comparator: no pair is out of order. */
  ghost predicate Sorted(o: SortOrder, s: seq<Product>)
  {
    forall i, j :: 0 <= i < j < |s| ==> Compare(o, s[i], s[j]) <= 0
  }

  /** The products that compare equal to `y`, in their order in `s`. */
  function Ties(o: SortOrder, s: seq<Product>, y: Product): seq<Product>
  {
    Filter(s, x => Compare(o, x, y) == 0)
  }

  lemma SortedTail(o: SortOrder, s: seq<Product>)
    requires s != [] && Sorted(o, s)
    ensures Sorted(o, s[1..])
    ensures |s| > 1 ==> Compare(o, s[0], s[1..][0]) <= 0
  {
    var tail := s[1..];
    forall i, j | 0 <= i < j < |tail| ensures Compare(o, tail[i], tail[j]) <= 0 {
      assert tail[i] == s[i + 1] && tail[j] == s[j + 1];
    }
  }

  /** Places `x` before the first element it does not come after. */
  function Insert(o: SortOrder, x: Product, t: seq<Product>): (r: seq<Product>)
    ensures |r| == |t| + 1
  {
    if t == [] then [x]
    else if Compare(o, x, t[0]) <= 0 then [x] + t
    else [t[0]] + Insert(o, x, t[1..])
  }

  lemma {:induction false} InsertPermutes(o: SortOrder, x: Product, t: seq<Product>)
    ensures multiset(Insert(o, x, t)) == multiset(t) + multiset{x}
  {
    if t != [] && Compare(o, x, t[0]) > 0 {
      InsertPermutes(o, x, t[1..]);
      assert t == [t[0]] + t[1..];
    }
  }

  /** A product that goes no later than `x` and than every element of `t`
      goes no later than any element of `Insert(o, x, t)`. */
  lemma {:induction false} InsertBound(o: SortOrder, a: Product, x: Product, t: seq<Product>)
    requires Compare(o, a, x) <= 0
    requires forall j :: 0 <= j < |t| ==> Compare(o, a, t[j]) <= 0
    ensures forall j :: 0 <= j < |t| + 1 ==> Compare(o, a, Insert(o, x, t)[j]) <= 0
  {
    if t != [] && Compare(o, x, t[0]) > 0 {
      InsertBound(o, a, x, t[1..]);
      var r := Insert(o, x, t);
      assert forall j :: 1 <= j < |r| ==> r[j] == Insert(o, x, t[1..])[j - 1];
    }
  }

  /** A sorted sequence stays sorted with a first element that goes no later
      than all the others. */
  lemma SortedCons(o: SortOrder, a: Product, r: seq<Product>)
    requires Sorted(o, r)
    requires forall j :: 0 <= j < |r| ==> Compare(o, a, r[j]) <= 0
    ensures Sorted(o, [a] + r)
  {
    var s := [a] + r;
    forall i, j | 0 <= i < j < |s| ensures Compare(o, s[i], s[j]) <= 0 {
      assert s[j] == r[j - 1];
      if i > 0 {
        assert s[i] == r[i - 1];
      }
    }
  }

  lemma {:induction false} InsertKeepsSorted(o: SortOrder, x: Product, t: seq<Product>)
    requires Sorted(o, t)
    ensures Sorted(o, Insert(o, x, t))
  {
    if t == [] {
    } else if Compare(o, x, t[0]) <= 0 {
      forall j | 0 <= j < |t| ensures Compare(o, x, t[j]) <= 0 {
        if j > 0 {
          CompareTrans(o, x, t[0], t[j]);
        }
      }
      SortedCons(o, x, t);
    } else {
      SortedTail(o, t);
      InsertKeepsSorted(o, x, t[1..]);
      CompareFlip(o, x, t[0]);
      InsertBound(o, t[0], x, t[1..]);
      SortedCons(o, t[0], Insert(o, x, t[1..]));
    }
  }

  /** `[...data].sort(comparator)`: a stable sort, as ECMAScript requires of
      `Array.prototype.sort`, done on a copy. */
  function StableSort(o: SortOrder, s: seq<Product>): (r: seq<Product>)
    ensures multiset(r) == multiset(s)
    ensures Sorted(o, r)
  {
    if s == [] then []
    else
      var t := StableSort(o, s[1..]);
      InsertPermutes(o, s[0], t);
      InsertKeepsSorted(o, s[0], t);
      assert s == [s[0]] + s[1..];
      Insert(o, s[0], t)
  }

  lemma {:induction false} InsertTies(o: SortOrder, x: Product, t: seq<Product>, y: Product)
    ensures Ties(o, Insert(o, x, t), y)
            == if Compare(o, x, y) == 0 then [x] + Ties(o, t, y) else Ties(o, t, y)
  {
    if t != [] && Compare(o, x, t[0]) > 0 {
      InsertTies(o, x, t[1..], y);
      var r := Insert(o, x, t);
      assert r == [t[0]] + Insert(o, x, t[1..]);
      assert r[1..] == Insert(o, x, t[1..]);
      if Compare(o, x, y) == 0 {
        CompareFlip(o, x, t[0]);
        CompareTie(o, t[0], x, y);
      }
    } else if t != [] {
      var r := Insert(o, x, t);
      assert r[1..] == t;
    }
  }

  /** Stability: products with equal keys keep their input order. */
  lemma {:induction false} SortKeepsTies(o: SortOrder, s: seq<Product>, y: Product)
    ensures Ties(o, StableSort(o, s), y) == Ties(o, s, y)
  {
    if s != [] {
      SortKeepsTies(o, s[1..], y);
      InsertTies(o, s[0], StableSort(o, s[1..]), y);
    }
  }

  /** Sorting `[x] + t`, where `t` sorts to itself and `x` goes no later
      than its head, gives `[x] + t`. */
  lemma SortCons(o: SortOrder, x: Product, t: seq<Product>)
    requires StableSort(o, t) == t
    requires t != [] ==> Compare(o, x, t[0]) <= 0
    ensures StableSort(o, [x] + t) == [x] + t
  {
    var s := [x] + t;
    assert s[1..] == t;
    assert StableSort(o, s) == Insert(o, x, t);
  }

  /** Sorting an already sorted sequence changes nothing. */
  lemma {:induction false} SortOfSorted(o: SortOrder, s: seq<Product>)
    requires Sorted(o, s)
    ensures StableSort(o, s) == s
  {
    if s != [] {
      var tail := s[1..];
      assert s == [s[0]] + tail;
      SortedTail(o, s);
      SortOfSorted(o, tail);
      SortCons(o, s[0], tail);
    }
  }

  /** The head of a sorted sequence goes no later than any of its elements. */
  lemma HeadGoesFirst(o: SortOrder, s: seq<Product>, z: Product)
    requires s != [] && Sorted(o, s) && z in s
    ensures Compare(o, s[0], z) <= 0
  {
    var k :| 0 <= k < |s| && s[k] == z;
    if k == 0 {
      CompareFlip(o, z, z);
    }
  }

  /** Ties of `[x] + t`: `x` first when it ties, then the ties of `t`. */
  lemma TiesCons(o: SortOrder, x: Product, t: seq<Product>, y: Product)
    ensures Ties(o, [x] + t, y) == (if Compare(o, x, y) == 0 then [x] else []) + Ties(o, t, y)
  {
    assert ([x] + t)[1..] == t;
  }

  /** Two sorted permutations with the same ties start with the same product. */
  lemma HeadsAgree(o: SortOrder, r1: seq<Product>, r2: seq<Product>)
    requires r1 != [] && r2 != [] && multiset(r1) == multiset(r2)
    requires Sorted(o, r1) && Sorted(o, r2)
    requires forall y :: Ties(o, r1, y) == Ties(o, r2, y)
    ensures r1[0] == r2[0]
  {
    var x, z := r1[0], r2[0];
    assert z in multiset(r1) && x in multiset(r2);
    HeadGoesFirst(o, r1, z);
    HeadGoesFirst(o, r2, x);
    CompareFlip(o, x, z);
    CompareFlip(o, x, x);
    TiesCons(o, x, r1[1..], x);
    TiesCons(o, z, r2[1..], x);
    assert r1 == [x] + r1[1..] && r2 == [z] + r2[1..];
    assert Ties(o, r1, x)[0] == x;
    assert Ties(o, r2, x)[0] == z;
  }

  /** Dropping a common head keeps the ties equal. */
  lemma TailsTie(o: SortOrder, r1: seq<Product>, r2: seq<Product>)
    requires r1 != [] && r2 != [] && r1[0] == r2[0]
    requires forall y :: Ties(o, r1, y) == Ties(o, r2, y)
    ensures forall y :: Ties(o, r1[1..], y) == Ties(o, r2[1..], y)
  {
    var x, t1, t2 := r1[0], r1[1..], r2[1..];
    assert r1 == [x] + t1 && r2 == [x] + t2;
    forall y ensures Ties(o, t1, y) == Ties(o, t2, y) {
      TiesCons(o, x, t1, y);
      TiesCons(o, x, t2, y);
      var head := if Compare(o, x, y) == 0 then [x] else [];
      assert Ties(o, t1, y) == Ties(o, r1, y)[|head|..];
      assert Ties(o, t2, y) == Ties(o, r2, y)[|head|..];
    }
  }

  /** Equal multisets with equal heads have equal tails. */
  lemma MultisetTails(r1: seq<Product>, r2: seq<Product>)
    requires r1 != [] && r2 != [] && r1[0] == r2[0]
    requires multiset(r1) == multiset(r2)
    ensures multiset(r1[1..]) == multiset(r2[1..])
  {
    assert r1 == [r1[0]] + r1[1..] && r2 == [r2[0]] + r2[1..];
    assert multiset(r1[1..]) == multiset(r1) - multiset{r1[0]};
    assert multiset(r2[1..]) == multiset(r2) - multiset{r2[0]};
  }

  /** Two non-empty stable orderings of the same products share their head,
      and what follows it is again a pair of stable orderings. */
  lemma HeadAndTails(o: SortOrder, r1: seq<Product>, r2: seq<Product>)
    requires r1 != [] && multiset(r1) == multiset(r2)
    requires Sorted(o, r1) && Sorted(o, r2)
    requires forall y :: Ties(o, r1, y) == Ties(o, r2, y)
    ensures r2 != [] && r1[0] == r2[0]
    ensures multiset(r1[1..]) == multiset(r2[1..])
    ensures Sorted(o, r1[1..]) && Sorted(o, r2[1..])
    ensures forall y :: Ties(o, r1[1..], y) == Ties(o, r2[1..], y)
  {
    assert |r2| == |multiset(r2)| == |multiset(r1)| == |r1|;
    HeadsAgree(o, r1, r2);
    TailsTie(o, r1, r2);
    MultisetTails(r1, r2);
    SortedTail(o, r1);
    SortedTail(o, r2);
  }

  /** Two orderings of the same products that are both sorted and list every
      group of equal keys in the same order are the same sequence. */
  lemma {:induction false} StableOrderIsUnique(o: SortOrder, r1: seq<Product>, r2: seq<Product>)
    requires multiset(r1) == multiset(r2)
    requires Sorted(o, r1) && Sorted(o, r2)
    requires forall y :: Ties(o, r1, y) == Ties(o, r2, y)
    ensures r1 == r2
  {
    if r1 != [] {
      HeadAndTails(o, r1, r2);
      StableOrderIsUnique(o, r1[1..], r2[1..]);
      assert r1 == [r1[0]] + r1[1..] && r2 == [r2[0]] + r2[1..];
    }
  }

  /** Every result a stable sort may give (a sorted permutation keeping each
      group of equal keys in input order) is `StableSort`'s: the model fixes
      exactly the order any conforming `Array.prototype.sort` produces. */
  lemma StableSortIsUnique(o: SortOrder, s: seq<Product>, r: seq<Product>)
    requires multiset(r) == multiset(s) && Sorted(o, r)
    requires forall y :: Ties(o, r, y) == Ties(o, s, y)
    ensures r == StableSort(o, s)
  {
    forall y ensures Ties(o, r, y) == Ties(o, StableSort(o, s), y) {
      SortKeepsTies(o, s, y);
    }
    StableOrderIsUnique(o, r, StableSort(o, s));
  }

  // ---- The memoised filter/sort body ----

  /** The gender select: "all" or one raw gender number. */
  datatype GenderChoice = AllGenders | Only(code: int)

  /** The text test: the lowercased query inside the lowercased name,
      description or slug. */
  predicate MatchesQuery(q: string, p: Product)
  {
    Contains(Lower(p.name), q) || Contains(Lower(p.description), q) || Contains(Lower(p.slug), q)
  }

  /** Every enabled predicate of the pipeline. A blank query (`trim()` empty)
      disables the text test; the text test itself uses the untrimmed query. */
  predicate IsSelected(query: string, gender: GenderChoice, featuredOnly: bool, p: Product)
  {
    && p.isActive
    && (Trim(query) == "" || MatchesQuery(Lower(query), p))
    && (gender.Only? ==> p.gender == gender.code)
    && (featuredOnly ==> p.isFeatured)
  }

  /** The products the page shows, in catalog order. */
  function Selection(catalog: seq<Product>, query: string, gender: GenderChoice, featuredOnly: bool): seq<Product>
  {
    Filter(catalog, p => IsSelected(query, gender, featuredOnly, p))
  }

  /** The grid: the selection sorted by the chosen key. */
  function View(catalog: seq<Product>, query: string, gender: GenderChoice, featuredOnly: bool, sort: string): seq<Product>
  {
    StableSort(OrderFor(sort), Selection(catalog, query, gender, featuredOnly))
  }

  /** What the page promises of the grid `v` it shows for a catalog and the
      four inputs: only products passing every enabled predicate (active; a
      non-blank query found in the lowercased name, description or slug; the
      chosen gender code; featured when asked), a permutation of exactly
      those, ordered by the chosen key, with equal keys in catalog order. */
  ghost predicate GridPromises(catalog: seq<Product>, query: string, gender: GenderChoice,
                               featuredOnly: bool, sort: string, v: seq<Product>)
  {
    && (forall i :: 0 <= i < |v| ==> v[i].isActive)
    && (Trim(query) != "" ==> forall i :: 0 <= i < |v| ==> MatchesQuery(Lower(query), v[i]))
    && (gender.Only? ==> forall i :: 0 <= i < |v| ==> v[i].gender == gender.code)
    && (featuredOnly ==> forall i :: 0 <= i < |v| ==> v[i].isFeatured)
    && multiset(v) == multiset(Selection(catalog, query, gender, featuredOnly))
    && (sort == "priceAsc" ==>
          forall i, j :: 0 <= i < j < |v| ==> v[i].basePrice <= v[j].basePrice)
    && (sort == "priceDesc" ==>
          forall i, j :: 0 <= i < j < |v| ==> v[i].basePrice >= v[j].basePrice)
    && (sort == "name" ==>
          forall i, j :: 0 <= i < j < |v| ==> LocaleCompare(v[i].name, v[j].name) <= 0)
    && (sort !in {"priceAsc", "priceDesc", "name"} ==>
          forall i, j :: 0 <= i < j < |v| ==> v[i].createdAt >= v[j].createdAt)
    && forall y :: Ties(OrderFor(sort), v, y)
                   == Ties(OrderFor(sort), Selection(catalog, query, gender, featuredOnly), y)
  }

  /** The `useMemo` body. `catalog` is the module-level `products` array; the
      method has no right to modify it, so every sort works on a copy. */
  method FilteredProducts(catalog: array<Product>, query: string, gender: GenderChoice,
                          featuredOnly: bool, sort: string)
    returns (data: seq<Product>)
    ensures data == View(catalog[..], query, gender, featuredOnly, sort)
    ensures GridPromises(catalog[..], query, gender, featuredOnly, sort, data)
  {
    ghost var all := catalog[..];
    var active := (p: Product) => p.isActive;
    data := Filter(catalog[..], active);
    var text := (p: Product) => p.isActive && (Trim(query) == "" || MatchesQuery(Lower(query), p));
    if Trim(query) != "" {
      var q := Lower(query);
      var matches := (p: Product) => MatchesQuery(q, p);
      data := Filter(data, matches);
      FilterThen(all, active, matches, text);
    } else {
      FilterExt(all, active, text);
    }
    var sex := (p: Product) => text(p) && (gender.Only? ==> p.gender == gender.code);
    if gender.Only? {
      var sameGender := (p: Product) => p.gender == gender.code;
      data := Filter(data, sameGender);
      FilterThen(all, text, sameGender, sex);
    } else {
      FilterExt(all, text, sex);
    }
    var selected := (p: Product) => IsSelected(query, gender, featuredOnly, p);
    if featuredOnly {
      var featured := (p: Product) => p.isFeatured;
      data := Filter(data, featured);
      FilterThen(all, sex, featured, selected);
    } else {
      FilterExt(all, sex, selected);
    }
    assert data == Selection(all, query, gender, featuredOnly);
    data := StableSort(OrderFor(sort), data);
    ViewFacts(all, query, gender, featuredOnly, sort);
  }

  /** The grid keeps the page's promises, for any catalog and inputs. */
  lemma ViewFacts(catalog: seq<Product>, query: string, gender: GenderChoice, featuredOnly: bool, sort: string)
    ensures GridPromises(catalog, query, gender, featuredOnly, sort, View(catalog, query, gender, featuredOnly, sort))
  {
    var o := OrderFor(sort);
    var sel := Selection(catalog, query, gender, featuredOnly);
    var v := View(catalog, query, gender, featuredOnly, sort);
    forall i | 0 <= i < |v| ensures IsSelected(query, gender, featuredOnly, v[i]) {
      assert v[i] in multiset(sel);
    }
    forall y ensures Ties(o, v, y) == Ties(o, sel, y) {
      SortKeepsTies(o, sel, y);
    }
    assert Sorted(o, v);
  }

  /** Re-deriving the grid from its own output, with the same inputs, gives the
      same grid: every shown product passes the filters again, and sorting a
      sorted sequence is the identity. */
  lemma ViewIdempotent(catalog: seq<Product>, query: string, gender: GenderChoice, featuredOnly: bool, sort: string)
    ensures View(View(catalog, query, gender, featuredOnly, sort), query, gender, featuredOnly, sort)
            == View(catalog, query, gender, featuredOnly, sort)
  {
    var v := View(catalog, query, gender, featuredOnly, sort);
    var sel := Selection(catalog, query, gender, featuredOnly);
    forall x | x in v ensures IsSelected(query, gender, featuredOnly, x) {
      assert x in multiset(sel);
    }
    FilterKeepsAll(v, p => IsSelected(query, gender, featuredOnly, p));
    SortOfSorted(OrderFor(sort), v);
  }

  /** A query that is empty or only whitespace filters nothing out: with no
      gender and no featured restriction, every active product is shown. */
  lemma BlankQueryKeepsEveryActive(catalog: seq<Product>, query: string)
    requires IsBlank(query)
    ensures Selection(catalog, query, AllGenders, false) == Filter(catalog, (p: Product) => p.isActive)
  {
    TrimEmptyIffBlank(query);
    FilterExt(catalog, p => IsSelected(query, AllGenders, false, p), (p: Product) => p.isActive);
  }
}
