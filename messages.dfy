/** The English message table, the dot-path lookup `getMessage`, and the
    WhatsApp message template. */
module Messages {
  import opened Types
  import opened Strings

  /** A value in the `messages` object: a string, the template function, or a
      nested object. */
  datatype MsgTree = Leaf(text: string) | Template | Node(children: map<string, MsgTree>)

  /** The three labels `product.genders` holds. */
  const GENDER_MALE_TEXT: string := "Male"
  const GENDER_FEMALE_TEXT: string := "Female"
  const GENDER_UNISEX_TEXT: string := "Unisex"

  /** `messages.app`. */
  const APP: MsgTree := Node(map[
    "name" := Leaf("Product Catalog"),
    "description" := Leaf("Lingerie and pajamas – redirect to WhatsApp.")])

  /** `messages.ui.navigation`. */
  const UI_NAVIGATION: MsgTree := Node(map[
    "home" := Leaf("Home"),
    "products" := Leaf("All Products"),
    "featured" := Leaf("Featured"),
    "menu" := Leaf("Menu"),
    "closeMenu" := Leaf("Close menu"),
    "openMenu" := Leaf("Open menu")])

  /** `messages.ui.search`. */
  const UI_SEARCH: MsgTree := Node(map[
    "placeholder" := Leaf("Search products..."),
    "maxPrice" := Leaf("Max price"),
    "search" := Leaf("Search")])

  /** `messages.ui.filters.category`. */
  const UI_FILTERS_CATEGORY: MsgTree := Node(map[
    "placeholder" := Leaf("Category"),
    "all" := Leaf("All")])

  /** `messages.ui.filters.gender`. */
  const UI_FILTERS_GENDER: MsgTree := Node(map[
    "placeholder" := Leaf("Gender"),
    "all" := Leaf("All"),
    "female" := Leaf("Female"),
    "male" := Leaf("Male"),
    "unisex" := Leaf("Unisex")])

  /** `messages.ui.filters`. */
  const UI_FILTERS: MsgTree := Node(map[
    "category" := UI_FILTERS_CATEGORY,
    "gender" := UI_FILTERS_GENDER,
    "button" := Leaf("Filters"),
    "clearFilters" := Leaf("Clear filters"),
    "clearSearch" := Leaf("Clear search")])

  /** `messages.ui.buttons`. */
  const UI_BUTTONS: MsgTree := Node(map[
    "tryAgain" := Leaf("Try again"),
    "contactWhatsApp" := Leaf("Contact on WhatsApp"),
    "retry" := Leaf("Retry"),
    "viewAllProducts" := Leaf("View all products")])

  /** `messages.ui.labels`. */
  const UI_LABELS: MsgTree := Node(map[
    "density" := Leaf("Density"),
    "favorite" := Leaf("Favorite"),
    "featured" := Leaf("Featured")])

  /** `messages.ui.footer`. */
  const UI_FOOTER: MsgTree := Node(map[
    "description" := Leaf("A modern product showcase platform designed for small businesses. Browse our collection and contact us directly via WhatsApp for purchases."),
    "madeWith" := Leaf("Made with ❤️ for small businesses"),
    "quickLinks" := Leaf("Quick Links"),
    "contact" := Leaf("Contact"),
    "whatsApp" := Leaf("WhatsApp"),
    "businessHours" := Leaf("Business Hours: Mon-Fri 9AM-6PM"),
    "allRightsReserved" := Leaf("All rights reserved."),
    "builtWith" := Leaf("Built with Next.js & TypeScript")])

  /** `messages.ui`. */
  const UI: MsgTree := Node(map[
    "navigation" := UI_NAVIGATION,
    "search" := UI_SEARCH,
    "filters" := UI_FILTERS,
    "buttons" := UI_BUTTONS,
    "labels" := UI_LABELS,
    "footer" := UI_FOOTER])

  /** `messages.states.error`. */
  const STATES_ERROR: MsgTree := Node(map[
    "title" := Leaf("Error loading products"),
    "fetchFailed" := Leaf("Failed to fetch products"),
    "networkError" := Leaf("Network error - please check your connection"),
    "serverError" := Leaf("Server error - please try again later"),
    "timeout" := Leaf("Request timed out - please try again"),
    "somethingWentWrong" := Leaf("Something went wrong"),
    "errorMessage" := Leaf("We encountered an error while loading the content. Please try again."),
    "connectionProblem" := Leaf("Connection problem"),
    "connectionDescription" := Leaf("We're having trouble connecting to our servers. Please check your internet connection and try again.")])

  /** `messages.states.empty`. */
  const STATES_EMPTY: MsgTree := Node(map[
    "title" := Leaf("Nothing found"),
    "description" := Leaf("Try adjusting the filters or search."),
    "noProducts" := Leaf("No products found"),
    "noProductsDescription" := Leaf("We couldn't find any products matching your criteria. Try adjusting your filters or search terms."),
    "noSearchResults" := Leaf("No results for"),
    "noSearchResultsDescription" := Leaf("We couldn't find any products matching your search. Try different keywords or check for typos."),
    "noCategoryProducts" := Leaf("No products in"),
    "noCategoryProductsDescription" := Leaf("This category doesn't have any products yet. Check back soon or browse other categories.")])

  /** `messages.states`. */
  const STATES: MsgTree := Node(map[
    "loading" := Leaf("Loading products..."),
    "loadingMessage" := Leaf("Loading..."),
    "error" := STATES_ERROR,
    "empty" := STATES_EMPTY])

  /** `messages.product.genders`. */
  const PRODUCT_GENDERS: MsgTree := Node(map[
    "male" := Leaf(GENDER_MALE_TEXT),
    "female" := Leaf(GENDER_FEMALE_TEXT),
    "unisex" := Leaf(GENDER_UNISEX_TEXT)])

  /** `messages.product`. */
  const PRODUCT: MsgTree := Node(map[
    "genders" := PRODUCT_GENDERS])

  /** `messages.whatsApp`. */
  const WHATS_APP: MsgTree := Node(map[
    "messageTemplate" := Template])

  /** `messages.dev`. */
  const DEV: MsgTree := Node(map[
    "fetchError" := Leaf("Error fetching products:")])

  /** The `messages` object. It is a constant: nothing here can change it. */
  const MESSAGES: MsgTree := Node(map[
    "app" := APP,
    "ui" := UI,
    "states" := STATES,
    "product" := PRODUCT,
    "whatsApp" := WHATS_APP,
    "dev" := DEV])

  /** `value?.[k]`: a nested object's member, or `undefined` (None) when the
      member is missing or the value is not an object. */
  function Child(value: Option<MsgTree>, k: string): (r: Option<MsgTree>)
    ensures r.Some? <==> value.Some? && value.value.Node? && k in value.value.children
    ensures r.Some? ==> r.value == value.value.children[k]
  {
    match value
    case Some(Node(children)) => if k in children then Some(children[k]) else None
    case _ => None
  }

  /** The `for (const k of keys) value = value?.[k]` loop from segment `i` on:
      one level per segment, in order. */
  function WalkFrom(value: Option<MsgTree>, path: seq<string>, i: nat): Option<MsgTree>
    requires i <= |path|
    decreases |path| - i
  {
    if i == |path| then value else WalkFrom(Child(value, path[i]), path, i + 1)
  }

  /** The value reached from `root` along the whole path. */
  function Walk(root: MsgTree, path: seq<string>): Option<MsgTree>
  {
    WalkFrom(Some(root), path, 0)
  }

  /** `value || key`: an empty string or `undefined` falls back to the key; a
      non-empty string, the template or an object is returned as it is. */
  function OrKey(value: Option<MsgTree>, key: string): MsgTree
  {
    match value
    case None => Leaf(key)
    case Some(Leaf(s)) => if s != "" then Leaf(s) else Leaf(key)
    case Some(t) => t
  }

  /** What `getMessage(key)` returns. */
  function MessageFor(key: string): MsgTree
  {
    OrKey(Walk(MESSAGES, Split(key, '.')), key)
  }

  /** `getMessage(key)`: splits the key on '.', walks the table one segment at
      a time, and falls back to the key. */
  method GetMessage(key: string) returns (r: MsgTree)
    ensures r == MessageFor(key)
    ensures Walk(MESSAGES, Split(key, '.')).None? ==> r == Leaf(key)
    ensures Walk(MESSAGES, Split(key, '.')) == Some(Leaf("")) ==> r == Leaf(key)
    ensures forall s :: Walk(MESSAGES, Split(key, '.')) == Some(Leaf(s)) && s != "" ==> r == Leaf(s)
  {
    var keys := Split(key, '.');
    var value: Option<MsgTree> := Some(MESSAGES);
    for i := 0 to |keys|
      invariant WalkFrom(value, keys, i) == Walk(MESSAGES, keys)
    {
      value := Child(value, keys[i]);
    }
    if value.Some? && !(value.value.Leaf? && value.value.text == "") {
      r := value.value;
    } else {
      r := Leaf(key);
    }
  }

  /** Once the walk is `undefined` it stays `undefined`. */
  lemma {:induction false} UndefinedStaysUndefined(path: seq<string>, i: nat)
    requires i <= |path|
    ensures WalkFrom(None, path, i) == None
    decreases |path| - i
  {
    if i < |path| {
      UndefinedStaysUndefined(path, i + 1);
    }
  }

  /** Walking a path is walking a prefix of it, then the rest. */
  lemma {:induction false} WalkPrefix(value: Option<MsgTree>, path: seq<string>, n: nat, i: nat)
    requires i <= n <= |path|
    ensures WalkFrom(value, path, i) == WalkFrom(WalkFrom(value, path[..n], i), path, n)
    decreases n - i
  {
    if i < n {
      assert path[..n][i] == path[i];
      WalkPrefix(Child(value, path[i]), path, n, i + 1);
    }
  }

  /** A path one of whose prefixes leads nowhere leads nowhere. */
  lemma PrefixMissing(root: MsgTree, path: seq<string>, n: nat)
    requires n <= |path|
    requires Walk(root, path[..n]).None?
    ensures Walk(root, path).None?
  {
    WalkPrefix(Some(root), path, n, 0);
    UndefinedStaysUndefined(path, n);
  }

  /** A key some of whose leading segments already lead nowhere falls back to
      the key itself. */
  lemma MissingSegmentGivesKey(key: string, n: nat)
    requires n <= |Split(key, '.')|
    requires Walk(MESSAGES, Split(key, '.')[..n]).None?
    ensures MessageFor(key) == Leaf(key)
  {
    PrefixMissing(MESSAGES, Split(key, '.'), n);
  }

  /** A dotted key built from dot-free segments resolves along exactly those
      segments; when they lead to a non-empty string, that string is the
      message. */
  lemma KeyResolves(key: string, path: seq<string>, text: string)
    requires |path| >= 1 && key == Join(path, '.')
    requires forall j :: 0 <= j < |path| ==> '.' !in path[j]
    requires Walk(MESSAGES, path) == Some(Leaf(text)) && text != ""
    ensures Split(key, '.') == path && MessageFor(key) == Leaf(text)
  {
    SplitJoin(path, '.');
  }

  const TEMPLATE_HEAD: string := "Hi! I'm interested in the product "
  const TEMPLATE_MIDDLE: string := " (slug: "
  const TEMPLATE_TAIL: string := "). Could you give me more details?"

  /** `messages.whatsApp.messageTemplate(name, slug)`: the name and the slug
      appear verbatim between fixed text. */
  function MessageTemplate(name: string, slug: string): (m: string)
    ensures |m| == |TEMPLATE_HEAD| + |name| + |TEMPLATE_MIDDLE| + |slug| + |TEMPLATE_TAIL|
    ensures m[..|TEMPLATE_HEAD|] == TEMPLATE_HEAD
    ensures m[|TEMPLATE_HEAD|..|TEMPLATE_HEAD| + |name|] == name
    ensures m[|TEMPLATE_HEAD| + |name|..|TEMPLATE_HEAD| + |name| + |TEMPLATE_MIDDLE|] == TEMPLATE_MIDDLE
    ensures m[|TEMPLATE_HEAD| + |name| + |TEMPLATE_MIDDLE|..|m| - |TEMPLATE_TAIL|] == slug
    ensures m[|m| - |TEMPLATE_TAIL|..] == TEMPLATE_TAIL
  {
    TEMPLATE_HEAD + name + TEMPLATE_MIDDLE + slug + TEMPLATE_TAIL
  }
}
