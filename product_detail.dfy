/** The product page (pages/ProductDetailPage.tsx): the product and its reviews
    looked up by route id, the quantity stepper, the gallery, the specification
    table, the star histogram and the review list. */
module ProductDetail {
  import opened Wrappers
  import opened Types
  import opened JsText
  import QuantityInput

  // ---------------------------------------------------------------------------
  // Quantity stepper

  /** The `-` button's updater, `Math.max(1, q - 1)`. */
  function DecreasedQuantity(q: int): (r: int)
    ensures r >= 1
    ensures q >= 2 ==> r + 1 == q
    ensures q <= 1 ==> r == 1
  {
    if q - 1 >= 1 then q - 1 else 1
  }

  /** The `+` button's updater: no upper bound. */
  function IncreasedQuantity(q: int): (r: int)
    ensures r > q
    ensures q >= 1 ==> DecreasedQuantity(r) == q
  {
    q + 1
  }

  datatype StepperClick = Minus | Plus

  /** The quantity after a series of clicks on the two buttons. */
  function AfterClicks(q: int, clicks: seq<StepperClick>): int
    decreases |clicks|
  {
    if clicks == [] then q
    else AfterClicks(if clicks[0] == Minus then DecreasedQuantity(q) else IncreasedQuantity(q), clicks[1..])
  }

  /** From a quantity of at least 1, no series of clicks goes below 1. */
  lemma {:induction false} QuantityStaysPositive(q: int, clicks: seq<StepperClick>)
    requires q >= 1
    ensures AfterClicks(q, clicks) >= 1
    decreases |clicks|
  {
    if clicks != [] {
      QuantityStaysPositive(if clicks[0] == Minus then DecreasedQuantity(q) else IncreasedQuantity(q), clicks[1..]);
    }
  }

  /** `n` clicks on `+` add `n`: the quantity has no ceiling. */
  lemma {:induction false} PlusClicksAdd(q: int, n: nat)
    ensures AfterClicks(q, seq(n, _ => Plus)) == q + n
    decreases n
  {
    if n > 0 {
      assert seq(n, _ => Plus)[1..] == seq(n - 1, _ => Plus);
      PlusClicksAdd(q + 1, n - 1);
    }
  }

  /** `-` undoes `+`, and it leaves the quantity alone only at the floor. */
  lemma MinusUndoesPlus(q: int)
    requires q >= 1
    ensures DecreasedQuantity(IncreasedQuantity(q)) == q
    ensures DecreasedQuantity(q) == q <==> q == 1
    ensures DecreasedQuantity(q) >= 1
  {
  }

  // ---------------------------------------------------------------------------
  // Looking up the product and its reviews

  /** `mockProducts.find(p => p.id === id)`: the first product with that id. */
  function FindProduct(catalog: seq<Product>, id: string): (r: Option<Product>)
    ensures r.None? <==> forall k :: 0 <= k < |catalog| ==> catalog[k].id != id
    ensures r.Some? ==> r.value.id == id && r.value in catalog
  {
    if catalog == [] then None
    else if catalog[0].id == id then Some(catalog[0])
    else FindProduct(catalog[1..], id)
  }

  /** No product before the one found carries the id. */
  lemma {:induction false} FindProductFirst(catalog: seq<Product>, id: string)
    requires FindProduct(catalog, id).Some?
    ensures exists k :: 0 <= k < |catalog| && catalog[k] == FindProduct(catalog, id).value
                        && forall j :: 0 <= j < k ==> catalog[j].id != id
  {
    if catalog[0].id != id {
      FindProductFirst(catalog[1..], id);
      var k :| 0 <= k < |catalog| - 1 && catalog[1..][k] == FindProduct(catalog[1..], id).value
                && forall j :: 0 <= j < k ==> catalog[1..][j].id != id;
      assert catalog[k + 1] == FindProduct(catalog, id).value;
      forall j | 0 <= j < k + 1 ensures catalog[j].id != id {
        if j > 0 { assert catalog[j] == catalog[1..][j - 1]; }
      }
    } else {
      assert catalog[0] == FindProduct(catalog, id).value;
    }
  }

  /** `mockReviews.filter(r => r.productId === id)`. */
  function ReviewsFor(reviews: seq<Review>, id: string): (r: seq<Review>)
    ensures |r| <= |reviews|
    ensures forall x :: x in r <==> x in reviews && x.productId == id
  {
    if reviews == [] then []
    else (if reviews[0].productId == id then [reviews[0]] else []) + ReviewsFor(reviews[1..], id)
  }

  /** Filtering keeps the original order: it distributes over concatenation. */
  lemma {:induction false} ReviewsForAppend(a: seq<Review>, b: seq<Review>, id: string)
    ensures ReviewsFor(a + b, id) == ReviewsFor(a, id) + ReviewsFor(b, id)
  {
    if a == [] {
      assert a + b == b;
    } else {
      assert (a + b)[1..] == a[1..] + b;
      ReviewsForAppend(a[1..], b, id);
    }
  }

  // ---------------------------------------------------------------------------
  // The star histogram

  /** The keys of `ratingDistribution`: a rating reads an entry only when it is
      one of these. */
  predicate IsStarKey(rating: real) {
    rating == 1.0 || rating == 2.0 || rating == 3.0 || rating == 4.0 || rating == 5.0
  }

  /** `ratingDistribution[review.rating]` is `undefined` for any other rating,
      and incrementing its `count` throws a `TypeError`. */
  datatype TypeError = CountOfUndefined

  /** How many of `reviews` carry the rating `star`. */
  function CountRating(reviews: seq<Review>, star: int): nat {
    if reviews == [] then 0
    else CountRating(reviews[..|reviews| - 1], star) + (if reviews[|reviews| - 1].rating == star as real then 1 else 0)
  }

  /** The `forEach` that fills the histogram. Every rating must be a key, and
      then each star's count is the number of reviews with that rating. */
  method RatingDistribution(reviews: seq<Review>) returns (result: Result<map<int, nat>, TypeError>)
    ensures result.Ok? <==> forall k :: 0 <= k < |reviews| ==> IsStarKey(reviews[k].rating)
    ensures result.Ok? ==> result.value.Keys == {1, 2, 3, 4, 5}
    ensures result.Ok? ==> forall star :: 1 <= star <= 5 ==> result.value[star] == CountRating(reviews, star)
  {
    var counts: map<int, nat> := map[5 := 0, 4 := 0, 3 := 0, 2 := 0, 1 := 0];
    var i := 0;
    while i < |reviews|
      invariant 0 <= i <= |reviews|
      invariant forall k :: 0 <= k < i ==> IsStarKey(reviews[k].rating)
      invariant counts.Keys == {1, 2, 3, 4, 5}
      invariant forall star :: 1 <= star <= 5 ==> counts[star] == CountRating(reviews[..i], star)
    {
      var rating := reviews[i].rating;
      if !IsStarKey(rating) {
        return Err(CountOfUndefined);
      }
      var star := rating.Floor;
      assert star as real == rating;
      assert reviews[..i + 1][..i] == reviews[..i];
      counts := counts[star := counts[star] + 1];
      i := i + 1;
    }
    assert reviews[..|reviews|] == reviews;
    return Ok(counts);
  }

  /** When every rating is a key, the five counts add up to the number of
      reviews. */
  lemma {:induction false} CountsSumToLength(reviews: seq<Review>)
    requires forall k :: 0 <= k < |reviews| ==> IsStarKey(reviews[k].rating)
    ensures CountRating(reviews, 1) + CountRating(reviews, 2) + CountRating(reviews, 3)
            + CountRating(reviews, 4) + CountRating(reviews, 5) == |reviews|
  {
    if reviews != [] {
      var init := reviews[..|reviews| - 1];
      assert forall k :: 0 <= k < |init| ==> init[k] == reviews[k];
      CountsSumToLength(init);
    }
  }

  // ---------------------------------------------------------------------------
  // The review list

  /** `reviews.slice(0, 3)`. */
  function ShownReviews(reviews: seq<Review>): (r: seq<Review>)
    ensures |r| == if |reviews| < 3 then |reviews| else 3
    ensures r == reviews[..|r|]
  {
    if |reviews| <= 3 then reviews else reviews[..3]
  }

  /** The "load more" button: present when there are more than 3 reviews, showing
      how many are left. */
  function MoreReviews(reviews: seq<Review>): (r: Option<int>)
    ensures r.Some? <==> |reviews| > 3
    ensures r.Some? ==> r.value >= 1 && |reviews[..3]| + r.value == |reviews|
  {
    if |reviews| > 3 then Some(|reviews| - 3) else None
  }

  /** The button appears exactly when reviews are left out, and it counts exactly
      those. */
  lemma ShownAndMoreCoverAll(reviews: seq<Review>)
    ensures MoreReviews(reviews).Some? <==> |ShownReviews(reviews)| < |reviews|
    ensures MoreReviews(reviews).Some? ==> |ShownReviews(reviews)| + MoreReviews(reviews).value == |reviews|
  {
  }

  // ---------------------------------------------------------------------------
  // The gallery

  /** `[product.imageUrl, ...(product.images || [])]`. */
  function AllImages(p: Product): (r: seq<string>)
    ensures |r| >= 1 && r[0] == p.imageUrl
    ensures p.images.Some? ==> r[1..] == p.images.value
    ensures p.images.None? ==> r == [p.imageUrl]
  {
    [p.imageUrl] + (if p.images.Some? then p.images.value else [])
  }

  /** The main image comes first, then the extra images in order; thumbnails are
      shown only when there is more than one image. */
  lemma AllImagesShape(p: Product)
    ensures var extra := if p.images.Some? then p.images.value else [];
      |AllImages(p)| == 1 + |extra| && AllImages(p)[0] == p.imageUrl
      && forall k :: 0 <= k < |extra| ==> AllImages(p)[k + 1] == extra[k]
    ensures |AllImages(p)| > 1 <==> p.images.Some? && p.images.value != []
  {
  }

  // ---------------------------------------------------------------------------
  // The specification table

  predicate IsAsciiUpper(c: char) {
    'A' <= c <= 'Z'
  }

  predicate IsAsciiLower(c: char) {
    'a' <= c <= 'z'
  }

  function ToUpperAscii(c: char): char {
    if IsAsciiLower(c) then (c as int - 32) as char else c
  }

  function ToLowerAscii(c: char): char {
    if IsAsciiUpper(c) then (c as int + 32) as char else c
  }

  /** `.` in a regular expression: any character except a line terminator. */
  predicate IsLineTerminator(c: char) {
    c == '\n' || c == '\r' || c == '\U{2028}' || c == '\U{2029}'
  }

  /** `key.replace(/([A-Z])/g, ' $1')`: a space before every capital letter. */
  function SpaceBeforeCapitals(s: string): (r: string)
    ensures |r| >= |s|
    ensures r == [] || !IsAsciiUpper(r[0])
  {
    if s == [] then []
    else (if IsAsciiUpper(s[0]) then [' ', s[0]] else [s[0]]) + SpaceBeforeCapitals(s[1..])
  }

  /** `.replace(/^./, str => str.toUpperCase())`: the first character upper-cased,
      unless it is a line terminator. */
  function UpperFirst(s: string): (r: string)
    ensures |r| == |s| && (s != [] ==> r[1..] == s[1..])
    ensures s != [] && IsAsciiLower(s[0]) ==> IsAsciiUpper(r[0]) && r[0] as int == s[0] as int - 32
    ensures s != [] && !IsAsciiLower(s[0]) ==> r == s
  {
    if s != [] && !IsLineTerminator(s[0]) then [ToUpperAscii(s[0])] + s[1..] else s
  }

  /** The label of a specification key. */
  function SpecLabel(key: string): (shown: string)
    ensures |shown| >= |key|
    ensures key != [] && IsAsciiLower(key[0]) ==> IsAsciiUpper(shown[0])
    ensures key != [] && IsAsciiUpper(key[0]) ==> shown[0] == ' '
  {
    UpperFirst(SpaceBeforeCapitals(key))
  }

  /** The inverse of `SpaceBeforeCapitals`: drop a space that precedes a capital. */
  function DropSpaceBeforeCapitals(t: string): string {
    if |t| >= 2 && t[0] == ' ' && IsAsciiUpper(t[1]) then [t[1]] + DropSpaceBeforeCapitals(t[2..])
    else if t == [] then []
    else [t[0]] + DropSpaceBeforeCapitals(t[1..])
  }

  /** Inserting the spaces loses nothing: they can always be taken out again. */
  lemma {:induction false} SpacesRemovable(s: string)
    ensures DropSpaceBeforeCapitals(SpaceBeforeCapitals(s)) == s
  {
    if s != [] {
      var rest := SpaceBeforeCapitals(s[1..]);
      SpacesRemovable(s[1..]);
      if IsAsciiUpper(s[0]) {
        assert SpaceBeforeCapitals(s) == [' ', s[0]] + rest;
        assert ([' ', s[0]] + rest)[2..] == rest;
      } else {
        assert SpaceBeforeCapitals(s) == [s[0]] + rest;
        assert ([s[0]] + rest)[1..] == rest;
        if s[0] == ' ' {
          assert rest == [] || !IsAsciiUpper(rest[0]);
        }
      }
    }
  }

  /** A camelCase key (starting with a lower-case letter) can be read back from its
      label: lower the first letter and drop the inserted spaces. */
  lemma LabelRoundTrip(key: string)
    requires key != [] && IsAsciiLower(key[0])
    ensures var back := DropSpaceBeforeCapitals(SpecLabel(key));
      back != [] && [ToLowerAscii(back[0])] + back[1..] == key
  {
    var rest := SpaceBeforeCapitals(key[1..]);
    assert SpaceBeforeCapitals(key) == [key[0]] + rest;
    var shown := [ToUpperAscii(key[0])] + rest;
    assert SpecLabel(key) == shown;
    assert shown[1..] == rest;
    SpacesRemovable(key[1..]);
    assert DropSpaceBeforeCapitals(shown) == [ToUpperAscii(key[0])] + key[1..];
  }

  /** The spaces are inserted character by character, so pieces can be handled
      one at a time. */
  lemma {:induction false} SpaceBeforeCapitalsAppend(a: string, b: string)
    ensures SpaceBeforeCapitals(a + b) == SpaceBeforeCapitals(a) + SpaceBeforeCapitals(b)
  {
    if a == [] {
      assert a + b == b;
    } else {
      assert (a + b)[1..] == a[1..] + b;
      SpaceBeforeCapitalsAppend(a[1..], b);
    }
  }

  /** A key without capitals is left as it is. */
  lemma {:induction false} NoCapitalsUnchanged(s: string)
    requires forall k :: 0 <= k < |s| ==> !IsAsciiUpper(s[k])
    ensures SpaceBeforeCapitals(s) == s
  {
    if s != [] {
      NoCapitalsUnchanged(s[1..]);
    }
  }

  /** A two-word camelCase key: the words are separated by a space and the first
      letter is upper-cased. */
  lemma TwoWordLabel(first: string, capital: char, rest: string)
    requires first != [] && IsAsciiLower(first[0])
    requires forall k :: 0 <= k < |first| ==> !IsAsciiUpper(first[k])
    requires forall k :: 0 <= k < |rest| ==> !IsAsciiUpper(rest[k])
    requires IsAsciiUpper(capital)
    ensures SpecLabel(first + [capital] + rest) == [ToUpperAscii(first[0])] + first[1..] + [' ', capital] + rest
  {
    var tail := [capital] + rest;
    assert first + [capital] + rest == first + tail;
    SpaceBeforeCapitalsAppend(first, tail);
    NoCapitalsUnchanged(first);
    assert tail[1..] == rest;
    NoCapitalsUnchanged(rest);
    assert SpaceBeforeCapitals(tail) == [' ', capital] + rest;
    var spaced := first + ([' ', capital] + rest);
    assert SpaceBeforeCapitals(first + tail) == spaced;
    assert spaced[0] == first[0] && spaced[1..] == first[1..] + [' ', capital] + rest;
  }

  lemma LoadIndexLabel()
    ensures SpecLabel("loadIndex") == "Load Index"
  {
    assert "loadIndex" == "load" + ['I'] + "ndex";
    TwoWordLabel("load", 'I', "ndex");
  }

  lemma RunFlatLabel()
    ensures SpecLabel("runFlat") == "Run Flat"
  {
    assert "runFlat" == "run" + ['F'] + "lat";
    TwoWordLabel("run", 'F', "lat");
  }

  lemma SizeLabel()
    ensures SpecLabel("size") == "Size"
  {
    NoCapitalsUnchanged("size");
  }

  /** A row of the table: the label and the value as displayed. */
  datatype SpecRow = SpecRow(caption: string, text: string)

  /** `undefined` and `null` entries are skipped. */
  predicate IsShown(v: SpecValue) {
    !v.Absent? && !v.Null?
  }

  /** Booleans render as "Sí"/"No", everything else with `toString()`; a number's
      text reads back as the number. */
  function ValueText(v: SpecValue): (r: string)
    requires IsShown(v)
    ensures v.Text? ==> r == v.text
    ensures v.Flag? ==> (r == "Sí" <==> v.flag) && (r == "No" <==> !v.flag)
    ensures v.Number? ==> CanonicalDecimal(r, v.number)
    ensures v.Number? ==> QuantityInput.ParseInt(r) == Some(v.number)
  {
    match v
    case Text(t) => t
    case Number(n) => QuantityInput.ParseIntShowInt(n); ShowInt(n)
    case Flag(b) => if b then "Sí" else "No"
  }

  function RowOf(e: SpecEntry): SpecRow
    requires IsShown(e.value)
  {
    SpecRow(SpecLabel(e.key), ValueText(e.value))
  }

  /** The table: one row per entry with a value, in the record's order. */
  function SpecRows(entries: seq<SpecEntry>): (rows: seq<SpecRow>)
    ensures |rows| <= |entries|
    ensures forall row :: row in rows <==> exists e :: e in entries && IsShown(e.value) && row == RowOf(e)
  {
    if entries == [] then []
    else
      var rest := SpecRows(entries[1..]);
      assert forall e :: e in entries <==> e == entries[0] || e in entries[1..];
      if IsShown(entries[0].value) then [RowOf(entries[0])] + rest else rest
  }

  /** The table is built entry by entry: the rows of two runs of entries are the
      rows of the first followed by the rows of the second. */
  lemma {:induction false} SpecRowsAppend(a: seq<SpecEntry>, b: seq<SpecEntry>)
    ensures SpecRows(a + b) == SpecRows(a) + SpecRows(b)
  {
    if a != [] {
      assert (a + b)[0] == a[0];
      assert (a + b)[1..] == a[1..] + b;
      SpecRowsAppend(a[1..], b);
    } else {
      assert a + b == b;
    }
  }

  /** A single entry gives its row when it has a value and nothing otherwise. */
  lemma SpecRowsOne(e: SpecEntry)
    ensures SpecRows([e]) == if IsShown(e.value) then [RowOf(e)] else []
  {
  }

  // ---------------------------------------------------------------------------
  // The page

  /** What the page shows: the spinner, the not-found message, the product, or
      nothing at all because rendering threw. */
  datatype PageView =
    | LoadingView
    | NotFoundView
    | DetailView(product: Product, gallery: seq<string>, thumbnails: bool, specRows: seq<SpecRow>,
                 starCounts: map<int, nat>, shownReviews: seq<Review>, moreReviews: Option<int>)
    | ThrownView(error: TypeError)

  class ProductDetailPage {
    var product: Option<Product>
    var reviews: seq<Review>
    var isLoading: bool
    var selectedImage: Option<string>
    var quantity: int
    /** The calls made into the quote store. */
    var quoteCalls: seq<QuoteCall>

    /** The quantity never drops below 1, a loaded product has one of its own
        images selected, and the reviews held are that product's. */
    ghost predicate Valid()
      reads this
    {
      && quantity >= 1
      && (product.Some? ==> selectedImage.Some? && selectedImage.value in AllImages(product.value))
      && (product.Some? ==> forall r :: r in reviews ==> r.productId == product.value.id)
      && (product.None? ==> reviews == [])
    }

    /** The initial state: loading, no product, quantity 1. */
    constructor ()
      ensures Valid()
      ensures isLoading && product.None? && reviews == [] && selectedImage.None?
      ensures quantity == 1 && quoteCalls == []
    {
      product := None;
      reviews := [];
      isLoading := true;
      selectedImage := None;
      quantity := 1;
      quoteCalls := [];
    }

    /** The effect on a new route id: loading starts, nothing else is reset. */
    method StartLoading()
      requires Valid()
      modifies this`isLoading
      ensures Valid() && isLoading
    {
      isLoading := true;
    }

    /** The timer callback for route id `id`. When no product has that id the
        previous product, image and reviews stay in place. */
    method FinishLoading(id: string, catalog: seq<Product>, allReviews: seq<Review>)
      requires Valid()
      modifies this`product, this`selectedImage, this`reviews, this`isLoading
      ensures Valid() && !isLoading
      ensures FindProduct(catalog, id).Some? ==>
        && product == FindProduct(catalog, id)
        && selectedImage == Some(product.value.imageUrl)
        && reviews == ReviewsFor(allReviews, id)
      ensures FindProduct(catalog, id).None? ==>
        product == old(product) && selectedImage == old(selectedImage) && reviews == old(reviews)
    {
      var found := FindProduct(catalog, id);
      if found.Some? {
        product := found;
        selectedImage := Some(found.value.imageUrl);
        reviews := ReviewsFor(allReviews, id);
      }
      isLoading := false;
    }

    method DecreaseQuantity()
      requires Valid()
      modifies this`quantity
      ensures Valid() && quantity == DecreasedQuantity(old(quantity))
    {
      quantity := DecreasedQuantity(quantity);
    }

    method IncreaseQuantity()
      requires Valid()
      modifies this`quantity
      ensures Valid() && quantity == IncreasedQuantity(old(quantity))
    {
      quantity := IncreasedQuantity(quantity);
    }

    /** A thumbnail click; the thumbnails are the product's own images. */
    method SelectImage(image: string)
      requires Valid() && product.Some? && image in AllImages(product.value)
      modifies this`selectedImage
      ensures Valid() && selectedImage == Some(image)
    {
      selectedImage := Some(image);
    }

    /** `handleAddToQuote`: forwards the product and the current quantity, and only
        when a product is loaded. */
    method AddToQuote()
      requires Valid()
      modifies this`quoteCalls
      ensures Valid()
      ensures quoteCalls == old(quoteCalls) + if product.Some? then [AddItem(product.value, quantity)] else []
    {
      if product.Some? {
        quoteCalls := quoteCalls + [AddItem(product.value, quantity)];
      }
    }

    /** The render: the spinner while loading, the not-found message without a
        product, otherwise the detail view, unless filling the histogram throws. */
    method View() returns (view: PageView)
      requires Valid()
      ensures isLoading <==> view == LoadingView
      ensures view == NotFoundView <==> !isLoading && product.None?
      ensures view.ThrownView? <==> !isLoading && product.Some? && exists k :: 0 <= k < |reviews| && !IsStarKey(reviews[k].rating)
      ensures view.DetailView? ==>
        && view.product == product.value
        && view.gallery == AllImages(product.value)
        && view.thumbnails == (|AllImages(product.value)| > 1)
        && view.specRows == SpecRows(product.value.specifications)
        && view.shownReviews == ShownReviews(reviews)
        && view.moreReviews == MoreReviews(reviews)
        && forall star :: 1 <= star <= 5 ==> star in view.starCounts && view.starCounts[star] == CountRating(reviews, star)
    {
      if isLoading {
        return LoadingView;
      }
      if product.None? {
        return NotFoundView;
      }
      var p := product.value;
      var distribution := RatingDistribution(reviews);
      if distribution.Err? {
        return ThrownView(distribution.error);
      }
      var gallery := AllImages(p);
      view := DetailView(p, gallery, |gallery| > 1, SpecRows(p.specifications), distribution.value,
                         ShownReviews(reviews), MoreReviews(reviews));
    }
  }
}
