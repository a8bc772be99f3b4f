/**
 * The partner list of the main window: the rows read from the database are
 * joined in memory, and every partner gets one display record with its
 * resolved names, its priced order lines and the discounted order total.
 */
module PartnerList {
  import opened Nullable
  import opened DecimalMath

  /** The placeholder shown when a name or type cannot be resolved. */
  const NotSpecified: string := "Не указано"

  // ---------------------------------------------------------------------
  // Rows of the six tables, as far as the list uses them

  datatype PartnerTypeRow = PartnerTypeRow(id: int, typeName: Option<string>)

  /**
   * A partner. `partnerType` is the partner's own `PartnerTypes` navigation
   * property: `None` when the relation was not loaded.
   */
  datatype PartnerRow = PartnerRow(
    id: int,
    idPartnerName: int,
    idPartnerType: int,
    idDirectorName: int,
    jurAddress: string,
    phoneNumber: string,
    rate: int,
    partnerType: Option<PartnerTypeRow>)

  datatype PartnerNameRow = PartnerNameRow(id: int, name: Option<string>)

  datatype DirectorNameRow = DirectorNameRow(
    id: int, familyName: Option<string>, name: Option<string>, patronymic: Option<string>)

  /** The link between a partner and a product, with the ordered amount. */
  datatype PartnerProductRow = PartnerProductRow(idPartner: int, idProduct: int, productAmount: int)

  datatype ProductRow = ProductRow(id: int, productionName: string, minCost: real)

  // ---------------------------------------------------------------------
  // Display records

  datatype ProductDisplay = ProductDisplay(name: string, amount: int, cost: real)

  datatype PartnerDisplay = PartnerDisplay(
    partnerId: int,
    typeName: string,
    name: string,
    address: string,
    phone: string,
    rate: int,
    director: string,
    totalCost: real,
    products: seq<ProductDisplay>)

  // ---------------------------------------------------------------------
  // Pricing

  /** The discount a partner's rating earns: half the rating, in percent, at most 15%. */
  function CalculateDiscount(rate: int): (d: real)
    ensures d <= 0.15
    ensures rate >= 0 ==> d >= 0.0
    ensures d == 0.15 <==> rate >= 30
    ensures d < 0.15 ==> d * 100.0 == HalfTowardZero(rate) as real
  {
    var d := HalfTowardZero(rate) as real * 0.01;
    if d < 0.15 then d else 0.15
  }

  /** A higher rating never earns a smaller discount. */
  lemma DiscountMonotone(r1: int, r2: int)
    requires r1 <= r2
    ensures CalculateDiscount(r1) <= CalculateDiscount(r2)
  {
    assert HalfTowardZero(r1) <= HalfTowardZero(r2);
  }

  /** The discount steps by one percent every two rating points and stops at 15%. */
  lemma DiscountExamples()
    ensures CalculateDiscount(0) == 0.0 && CalculateDiscount(1) == 0.0
    ensures CalculateDiscount(10) == 0.05 && CalculateDiscount(11) == 0.05
    ensures CalculateDiscount(29) == 0.14
    ensures CalculateDiscount(30) == 0.15 && CalculateDiscount(31) == 0.15
    ensures CalculateDiscount(100) == 0.15
    ensures CalculateDiscount(-3) == -0.01
  {
  }

  /**
   * The price of one order line before rounding: amount times minimum cost,
   * less the partner's discount, and never below zero.
   */
  function LineCost(amount: int, minCost: real, rate: int): (c: real)
    ensures c >= 0.0
    ensures c >= amount as real * minCost * (1.0 - CalculateDiscount(rate))
    ensures c == 0.0 || c == amount as real * minCost * (1.0 - CalculateDiscount(rate))
  {
    var productCost := amount as real * minCost;
    var discounted := productCost * (1.0 - CalculateDiscount(rate));
    if discounted < 0.0 then 0.0 else discounted
  }

  // ---------------------------------------------------------------------
  // Lookups by key (`FirstOrDefault` and `Where` over the loaded rows)

  /** The position of the first row whose key is `id`. */
  function FirstIndexById<T>(rows: seq<T>, id: int, key: T -> int): (r: Option<nat>)
    ensures r.Some? ==> r.value < |rows| && key(rows[r.value]) == id
    ensures r.Some? ==> forall j :: 0 <= j < r.value ==> key(rows[j]) != id
    ensures r.None? ==> forall j :: 0 <= j < |rows| ==> key(rows[j]) != id
    decreases |rows|
  {
    if rows == [] then None
    else if key(rows[0]) == id then Some(0)
    else match FirstIndexById(rows[1..], id, key)
      case None => None
      case Some(i) => Some(i + 1)
  }

  /** `rows.FirstOrDefault(row => key(row) == id)`. */
  function FirstById<T>(rows: seq<T>, id: int, key: T -> int): Option<T> {
    match FirstIndexById(rows, id, key)
    case None => None
    case Some(i) => Some(rows[i])
  }

  function PartnerNameKey(row: PartnerNameRow): int { row.id }
  function PartnerTypeKey(row: PartnerTypeRow): int { row.id }
  function DirectorNameKey(row: DirectorNameRow): int { row.id }
  function ProductKey(row: ProductRow): int { row.id }

  function NameOf(p: PartnerRow, partnerNames: seq<PartnerNameRow>): Option<PartnerNameRow> {
    FirstById(partnerNames, p.idPartnerName, PartnerNameKey)
  }

  function TypeOf(p: PartnerRow, partnerTypes: seq<PartnerTypeRow>): Option<PartnerTypeRow> {
    FirstById(partnerTypes, p.idPartnerType, PartnerTypeKey)
  }

  function DirectorOf(p: PartnerRow, directorNames: seq<DirectorNameRow>): Option<DirectorNameRow> {
    FirstById(directorNames, p.idDirectorName, DirectorNameKey)
  }

  function ProductOf(link: PartnerProductRow, products: seq<ProductRow>): Option<ProductRow> {
    FirstById(products, link.idProduct, ProductKey)
  }

  /** `partnerProducts.Where(pp => pp.IDPartner == partnerId)`. */
  function LinksOf(partnerProducts: seq<PartnerProductRow>, partnerId: int): (r: seq<PartnerProductRow>)
    ensures |r| <= |partnerProducts|
    ensures forall k :: 0 <= k < |r| ==> r[k].idPartner == partnerId && r[k] in partnerProducts
    ensures forall k :: 0 <= k < |partnerProducts| && partnerProducts[k].idPartner == partnerId ==>
              partnerProducts[k] in r
    decreases |partnerProducts|
  {
    if partnerProducts == [] then []
    else
      var rest := LinksOf(partnerProducts[1..], partnerId);
      if partnerProducts[0].idPartner == partnerId then [partnerProducts[0]] + rest else rest
  }

  /** Filtering keeps the order of the links: it distributes over concatenation. */
  lemma {:induction false} LinksOfAppend(a: seq<PartnerProductRow>, b: seq<PartnerProductRow>, partnerId: int)
    ensures LinksOf(a + b, partnerId) == LinksOf(a, partnerId) + LinksOf(b, partnerId)
    decreases |a|
  {
    if a != [] {
      assert (a + b)[1..] == a[1..] + b;
      LinksOfAppend(a[1..], b, partnerId);
    } else {
      assert a + b == b;
    }
  }

  // ---------------------------------------------------------------------
  // The display record of one partner

  /** The display line of a link whose product was found. */
  function LineFor(link: PartnerProductRow, product: ProductRow, rate: int): ProductDisplay {
    ProductDisplay(product.productionName, link.productAmount,
                   Round2(LineCost(link.productAmount, product.minCost, rate)))
  }

  /** The display lines of a partner's links, in link order; links to unknown products are skipped. */
  function Lines(links: seq<PartnerProductRow>, products: seq<ProductRow>, rate: int): (r: seq<ProductDisplay>)
    ensures |r| <= |links|
    ensures forall k :: 0 <= k < |r| ==> r[k].cost >= 0.0
    decreases |links|
  {
    if links == [] then []
    else
      var init := Lines(links[..|links| - 1], products, rate);
      var link := links[|links| - 1];
      match ProductOf(link, products)
      case None => init
      case Some(product) => init + [LineFor(link, product, rate)]
  }

  /** The sum of the unrounded line costs of a partner's links. */
  function RawTotal(links: seq<PartnerProductRow>, products: seq<ProductRow>, rate: int): (t: real)
    ensures t >= 0.0
    decreases |links|
  {
    if links == [] then 0.0
    else
      var init := RawTotal(links[..|links| - 1], products, rate);
      var link := links[|links| - 1];
      match ProductOf(link, products)
      case None => init
      case Some(product) => init + LineCost(link.productAmount, product.minCost, rate)
  }

  /** `partner.PartnerTypes?.Type ?? "Не указано"`. */
  function TypeNameOf(p: PartnerRow): string {
    match p.partnerType
    case None => NotSpecified
    case Some(t) => Coalesce(t.typeName, NotSpecified)
  }

  /** `partnerName?.Name ?? "Не указано"`. */
  function PartnerNameText(row: Option<PartnerNameRow>): string {
    match row
    case None => NotSpecified
    case Some(n) => Coalesce(n.name, NotSpecified)
  }

  /** `directorName?.Name ?? "Не указано"`: the director's given name only. */
  function DirectorText(row: Option<DirectorNameRow>): string {
    match row
    case None => NotSpecified
    case Some(d) => Coalesce(d.name, NotSpecified)
  }

  function DisplayFor(
    p: PartnerRow,
    partnerNames: seq<PartnerNameRow>,
    directorNames: seq<DirectorNameRow>,
    partnerProducts: seq<PartnerProductRow>,
    products: seq<ProductRow>): PartnerDisplay
  {
    var links := LinksOf(partnerProducts, p.id);
    PartnerDisplay(
      p.id,
      TypeNameOf(p),
      PartnerNameText(NameOf(p, partnerNames)),
      p.jurAddress,
      p.phoneNumber,
      p.rate,
      DirectorText(DirectorOf(p, directorNames)),
      Round2(RawTotal(links, products, p.rate)),
      Lines(links, products, p.rate))
  }

  /** The whole list: one display record per partner, in the order the partners were read. */
  function Aggregate(
    partners: seq<PartnerRow>,
    partnerNames: seq<PartnerNameRow>,
    directorNames: seq<DirectorNameRow>,
    partnerProducts: seq<PartnerProductRow>,
    products: seq<ProductRow>): (r: seq<PartnerDisplay>)
    ensures |r| == |partners|
    ensures forall i :: 0 <= i < |r| ==> r[i].partnerId == partners[i].id && r[i].totalCost >= 0.0
  {
    seq(|partners|, i requires 0 <= i < |partners| =>
      DisplayFor(partners[i], partnerNames, directorNames, partnerProducts, products))
  }

  // ---------------------------------------------------------------------
  // What the list promises

  /**
   * Each partner's record carries its id, address, phone and rating
   * unchanged; its type comes from the partner's own type relation; its
   * name and director come from the first row with the referenced id, and
   * are the placeholder when there is no such row or its name is null.
   */
  lemma RecordFields(
    partners: seq<PartnerRow>,
    partnerNames: seq<PartnerNameRow>,
    directorNames: seq<DirectorNameRow>,
    partnerProducts: seq<PartnerProductRow>,
    products: seq<ProductRow>,
    i: nat)
    requires i < |partners|
    ensures var list := Aggregate(partners, partnerNames, directorNames, partnerProducts, products);
      var p, d := partners[i], list[i];
      && |list| == |partners|
      && d.partnerId == p.id && d.address == p.jurAddress && d.phone == p.phoneNumber && d.rate == p.rate
      && (p.partnerType.None? ==> d.typeName == NotSpecified)
      && (p.partnerType.Some? && p.partnerType.value.typeName.Some? ==> d.typeName == p.partnerType.value.typeName.value)
      && (p.partnerType.Some? && p.partnerType.value.typeName.None? ==> d.typeName == NotSpecified)
      && ((forall k :: 0 <= k < |partnerNames| ==> partnerNames[k].id != p.idPartnerName) ==> d.name == NotSpecified)
      && (forall k ::
            (0 <= k < |partnerNames| && partnerNames[k].id == p.idPartnerName &&
             forall j :: 0 <= j < k ==> partnerNames[j].id != p.idPartnerName) ==>
            d.name == Coalesce(partnerNames[k].name, NotSpecified))
      && ((forall k :: 0 <= k < |directorNames| ==> directorNames[k].id != p.idDirectorName) ==> d.director == NotSpecified)
      && (forall k ::
            (0 <= k < |directorNames| && directorNames[k].id == p.idDirectorName &&
             forall j :: 0 <= j < k ==> directorNames[j].id != p.idDirectorName) ==>
            d.director == Coalesce(directorNames[k].name, NotSpecified))
  {
    var p := partners[i];
    var n := FirstIndexById(partnerNames, p.idPartnerName, PartnerNameKey);
    var r := FirstIndexById(directorNames, p.idDirectorName, DirectorNameKey);
  }

  /** Lines and raw totals of consecutive runs of links add up: the order of the links is kept. */
  lemma {:induction false} LinesAppend(a: seq<PartnerProductRow>, b: seq<PartnerProductRow>, products: seq<ProductRow>, rate: int)
    ensures Lines(a + b, products, rate) == Lines(a, products, rate) + Lines(b, products, rate)
    ensures RawTotal(a + b, products, rate) == RawTotal(a, products, rate) + RawTotal(b, products, rate)
    decreases |b|
  {
    if b == [] {
      assert a + b == a;
    } else {
      var b' := b[..|b| - 1];
      assert (a + b)[..|a + b| - 1] == a + b';
      assert (a + b)[|a + b| - 1] == b[|b| - 1];
      LinesAppend(a, b', products, rate);
    }
  }

  /** A link whose product is not among the products adds no line and nothing to the total. */
  lemma MissingProductAddsNothing(
    before: seq<PartnerProductRow>, link: PartnerProductRow, after: seq<PartnerProductRow>,
    products: seq<ProductRow>, rate: int)
    requires forall k :: 0 <= k < |products| ==> products[k].id != link.idProduct
    ensures Lines(before + [link] + after, products, rate) == Lines(before + after, products, rate)
    ensures RawTotal(before + [link] + after, products, rate) == RawTotal(before + after, products, rate)
  {
    LinesAppend(before + [link], after, products, rate);
    LinesAppend(before, [link], products, rate);
    LinesAppend(before, after, products, rate);
    assert [link][..0] == [];
  }

  /** The sum of the costs shown on a list of lines. */
  function SumCosts(lines: seq<ProductDisplay>): real
    decreases |lines|
  {
    if lines == [] then 0.0 else SumCosts(lines[..|lines| - 1]) + lines[|lines| - 1].cost
  }

  /**
   * The total adds up the unrounded line costs, so it may differ from the
   * sum of the rounded costs shown on the lines, by at most half a cent per line.
   */
  lemma {:induction false} RawTotalNearShownCosts(links: seq<PartnerProductRow>, products: seq<ProductRow>, rate: int)
    ensures var shown := SumCosts(Lines(links, products, rate));
      -0.005 * |Lines(links, products, rate)| as real <= RawTotal(links, products, rate) - shown
      <= 0.005 * |Lines(links, products, rate)| as real
    decreases |links|
  {
    if links != [] {
      var init := links[..|links| - 1];
      RawTotalNearShownCosts(init, products, rate);
      var lines := Lines(links, products, rate);
      if ProductOf(links[|links| - 1], products).Some? {
        assert lines[..|lines| - 1] == Lines(init, products, rate);
      }
    }
  }

  /**
   * The rounded order total: never negative, whole cents, and within half a
   * cent per line (plus half a cent for its own rounding) of the sum of the
   * costs shown on the lines.
   */
  lemma TotalCost(
    p: PartnerRow,
    partnerNames: seq<PartnerNameRow>,
    directorNames: seq<DirectorNameRow>,
    partnerProducts: seq<PartnerProductRow>,
    products: seq<ProductRow>)
    ensures var d := DisplayFor(p, partnerNames, directorNames, partnerProducts, products);
      && d.totalCost >= 0.0
      && IsWholeCents(d.totalCost)
      && -0.005 * (|d.products| + 1) as real <= d.totalCost - SumCosts(d.products) <= 0.005 * (|d.products| + 1) as real
  {
    RawTotalNearShownCosts(LinksOf(partnerProducts, p.id), products, p.rate);
  }

  /** Two lines of half a cent each show 0.00 apiece, yet the total shows 0.01. */
  lemma TotalIsNotSumOfShownCosts()
    ensures var p := PartnerRow(1, 0, 0, 0, "", "", 0, None);
      var d := DisplayFor(p, [], [], [PartnerProductRow(1, 7, 1), PartnerProductRow(1, 7, 1)],
                          [ProductRow(7, "", 0.005)]);
      && d.products == [ProductDisplay("", 1, 0.0), ProductDisplay("", 1, 0.0)]
      && d.totalCost == 0.01
      && d.totalCost != SumCosts(d.products)
  {
    var link := PartnerProductRow(1, 7, 1);
    var products := [ProductRow(7, "", 0.005)];
    assert LinksOf([link, link], 1) == [link, link];
    assert LineCost(1, 0.005, 0) == 0.005;
    assert Round2(0.005) == 0.0 by { assert (0.5).Floor == 0; }
    assert Round2(0.01) == 0.01 by { Round2OfCents(1); }
    assert [link, link][..1] == [link];
    assert [link][..0] == [];
    assert ProductOf(link, products) == Some(products[0]);
  }

  /** The sum of amount times minimum cost over the links whose product is known, before any discount. */
  function Gross(links: seq<PartnerProductRow>, products: seq<ProductRow>): real
    decreases |links|
  {
    if links == [] then 0.0
    else
      var init := Gross(links[..|links| - 1], products);
      var link := links[|links| - 1];
      match ProductOf(link, products)
      case None => init
      case Some(product) => init + link.productAmount as real * product.minCost
  }

  /** With non-negative inputs a line costs between 85% and 100% of amount times minimum cost. */
  lemma LineCostBounds(amount: int, minCost: real, rate: int)
    requires amount >= 0 && minCost >= 0.0 && rate >= 0
    ensures 0.85 * (amount as real * minCost) <= LineCost(amount, minCost, rate) <= amount as real * minCost
  {
    var g := amount as real * minCost;
    var d := CalculateDiscount(rate);
    assert g >= 0.0 by { ProductNonNegative(amount as real, minCost); }
    assert 0.0 <= d <= 0.15;
    assert g * d >= 0.0 by { ProductNonNegative(g, d); }
    assert g * (0.15 - d) >= 0.0 by { ProductNonNegative(g, 0.15 - d); }
    assert g * (0.15 - d) == g * 0.15 - g * d;
    assert g * (1.0 - d) == g - g * d;
  }

  lemma ProductNonNegative(a: real, b: real)
    requires a >= 0.0 && b >= 0.0
    ensures a * b >= 0.0
  {
  }

  /**
   * With non-negative amounts, costs and rating, the discounted total lies
   * between 85% of the undiscounted total and the undiscounted total.
   */
  lemma {:induction false} RawTotalBounds(links: seq<PartnerProductRow>, products: seq<ProductRow>, rate: int)
    requires rate >= 0
    requires forall k :: 0 <= k < |links| ==> links[k].productAmount >= 0
    requires forall k :: 0 <= k < |products| ==> products[k].minCost >= 0.0
    ensures 0.85 * Gross(links, products) <= RawTotal(links, products, rate) <= Gross(links, products)
    decreases |links|
  {
    if links != [] {
      RawTotalBounds(links[..|links| - 1], products, rate);
      FoundProductCost(links[|links| - 1], products);
      RawTotalBoundsStep(links, products, rate);
    }
  }

  /** The step of `RawTotalBounds`: adding the last link keeps the bounds. */
  lemma RawTotalBoundsStep(links: seq<PartnerProductRow>, products: seq<ProductRow>, rate: int)
    requires links != [] && rate >= 0 && links[|links| - 1].productAmount >= 0
    requires var found := ProductOf(links[|links| - 1], products); found.Some? ==> found.value.minCost >= 0.0
    requires var init := links[..|links| - 1];
      0.85 * Gross(init, products) <= RawTotal(init, products, rate) <= Gross(init, products)
    ensures 0.85 * Gross(links, products) <= RawTotal(links, products, rate) <= Gross(links, products)
  {
    var init, link := links[..|links| - 1], links[|links| - 1];
    var found := ProductOf(link, products);
    if found.None? {
      LastLinkMissing(links, products, rate);
    } else {
      LastLinkFound(links, products, rate);
      FoundLineBounds(Gross(init, products), RawTotal(init, products, rate), link.productAmount, found.value.minCost, rate,
                      Gross(links, products), RawTotal(links, products, rate));
    }
  }

  /** Adding a line to totals that keep the bounds keeps them. */
  lemma FoundLineBounds(g0: real, r0: real, amount: int, minCost: real, rate: int, gSum: real, rSum: real)
    requires 0.85 * g0 <= r0 <= g0 && amount >= 0 && minCost >= 0.0 && rate >= 0
    requires gSum == g0 + amount as real * minCost && rSum == r0 + LineCost(amount, minCost, rate)
    ensures 0.85 * gSum <= rSum <= gSum
  {
    LineCostBounds(amount, minCost, rate);
    SumBounds(g0, r0, amount as real * minCost, LineCost(amount, minCost, rate), gSum, rSum);
  }

  /** Bounds of the form `0.85 * g <= r <= g` add up. */
  lemma SumBounds(g0: real, r0: real, g: real, r: real, gSum: real, rSum: real)
    requires 0.85 * g0 <= r0 <= g0 && 0.85 * g <= r <= g
    requires gSum == g0 + g && rSum == r0 + r
    ensures 0.85 * gSum <= rSum <= gSum
  {
  }

  /** A product found for a link is one of the product rows. */
  lemma FoundProductCost(link: PartnerProductRow, products: seq<ProductRow>)
    requires forall k :: 0 <= k < |products| ==> products[k].minCost >= 0.0
    ensures ProductOf(link, products).Some? ==> ProductOf(link, products).value.minCost >= 0.0
  {
    var idx := FirstIndexById(products, link.idProduct, ProductKey);
    if idx.Some? {
      assert ProductOf(link, products).value == products[idx.value];
    }
  }

  /** A last link whose product is unknown changes neither total. */
  lemma LastLinkMissing(links: seq<PartnerProductRow>, products: seq<ProductRow>, rate: int)
    requires links != [] && ProductOf(links[|links| - 1], products).None?
    ensures Gross(links, products) == Gross(links[..|links| - 1], products)
    ensures RawTotal(links, products, rate) == RawTotal(links[..|links| - 1], products, rate)
  {
  }

  /** Unfolds `Gross` and `RawTotal` at a last link whose product is known. */
  lemma LastLinkFound(links: seq<PartnerProductRow>, products: seq<ProductRow>, rate: int)
    requires links != [] && ProductOf(links[|links| - 1], products).Some?
    ensures var init, link := links[..|links| - 1], links[|links| - 1];
      var product := ProductOf(link, products).value;
      && Gross(links, products) == Gross(init, products) + link.productAmount as real * product.minCost
      && RawTotal(links, products, rate) == RawTotal(init, products, rate) + LineCost(link.productAmount, product.minCost, rate)
  {
  }

  /**
   * The worked example: rating 10 gives 5% off; 2 x 10.00 and 1 x 5.00 cost
   * 19.00 and 4.75, 23.75 in all; the partner has no name row, so the
   * placeholder is shown.
   */
  lemma WorkedExample()
    ensures var p := PartnerRow(1, 5, 6, 8, "Street 1", "555", 10, None);
      var list := Aggregate([p], [], [], ExampleLinks(), ExampleProducts());
      && |list| == 1
      && list[0].products == [ProductDisplay("A", 2, 19.0), ProductDisplay("B", 1, 4.75)]
      && list[0].totalCost == 23.75
      && list[0].name == NotSpecified && list[0].director == NotSpecified
  {
    var links := ExampleLinks();
    assert LinksOf(links, 1) == links;
    ExamplePricing();
    Round2OfCents(2375);
  }

  function ExampleLinks(): seq<PartnerProductRow> {
    [PartnerProductRow(1, 1, 2), PartnerProductRow(1, 2, 1)]
  }

  function ExampleProducts(): seq<ProductRow> {
    [ProductRow(1, "A", 10.0), ProductRow(2, "B", 5.0)]
  }

  /** The lines and the unrounded total of the worked example, at rating 10. */
  lemma ExamplePricing()
    ensures Lines(ExampleLinks(), ExampleProducts(), 10) == [ProductDisplay("A", 2, 19.0), ProductDisplay("B", 1, 4.75)]
    ensures RawTotal(ExampleLinks(), ExampleProducts(), 10) == 23.75
  {
    var links, products := ExampleLinks(), ExampleProducts();
    assert ProductOf(links[0], products) == Some(products[0]);
    assert ProductOf(links[1], products) == Some(products[1]);
    ExampleLineCosts();
    assert links[..1][..0] == [];
    assert links[..1] == [links[0]];
  }

  /** At rating 10 the discount is 5%, so 2 x 10.00 costs 19.00 and 1 x 5.00 costs 4.75. */
  lemma ExampleLineCosts()
    ensures LineFor(PartnerProductRow(1, 1, 2), ProductRow(1, "A", 10.0), 10) == ProductDisplay("A", 2, 19.0)
    ensures LineFor(PartnerProductRow(1, 2, 1), ProductRow(2, "B", 5.0), 10) == ProductDisplay("B", 1, 4.75)
    ensures LineCost(2, 10.0, 10) == 19.0 && LineCost(1, 5.0, 10) == 4.75
  {
    assert CalculateDiscount(10) == 0.05;
    Round2OfCents(1900);
    Round2OfCents(475);
  }

  // ---------------------------------------------------------------------
  // The loops that build the list

  /** The cost the loop computes step by step is the line cost. */
  lemma ClampedIsLineCost(amount: int, minCost: real, rate: int, discount: real, discounted: real, cost: real)
    requires discount == CalculateDiscount(rate)
    requires discounted == amount as real * minCost * (1.0 - discount)
    requires cost == if discounted < 0.0 then 0.0 else discounted
    ensures cost == LineCost(amount, minCost, rate)
  {
  }

  /** `Lines` and `RawTotal` unfolded at the last link. */
  lemma PricedStep(links: seq<PartnerProductRow>, products: seq<ProductRow>, rate: int)
    requires links != []
    ensures var init, link := links[..|links| - 1], links[|links| - 1];
      match ProductOf(link, products)
      case None =>
        Lines(links, products, rate) == Lines(init, products, rate) && RawTotal(links, products, rate) == RawTotal(init, products, rate)
      case Some(product) =>
        && Lines(links, products, rate) == Lines(init, products, rate) + [LineFor(link, product, rate)]
        && RawTotal(links, products, rate) == RawTotal(init, products, rate) + LineCost(link.productAmount, product.minCost, rate)
  {
  }

  /**
   * The inner loop of the list builder: prices a partner's links one by one,
   * collecting the display lines and adding up the unrounded costs.
   */
  method PriceLinks(productsForPartner: seq<PartnerProductRow>, products: seq<ProductRow>, rate: int)
    returns (productDetails: seq<ProductDisplay>, totalCost: real)
    ensures productDetails == Lines(productsForPartner, products, rate)
    ensures totalCost == RawTotal(productsForPartner, products, rate)
  {
    productDetails := [];
    totalCost := 0.0;
    for j := 0 to |productsForPartner|
      invariant productDetails == Lines(productsForPartner[..j], products, rate)
      invariant totalCost == RawTotal(productsForPartner[..j], products, rate)
    {
      var partnerProduct := productsForPartner[j];
      var product := ProductOf(partnerProduct, products);
      if product.Some? {
        var productCost := partnerProduct.productAmount as real * product.value.minCost;
        var discount := CalculateDiscount(rate);
        productCost := productCost * (1.0 - discount);
        ghost var discounted := productCost;
        if productCost < 0.0 {
          productCost := 0.0;
        }
        ClampedIsLineCost(partnerProduct.productAmount, product.value.minCost, rate, discount, discounted, productCost);
        productDetails := productDetails + [ProductDisplay(
          product.value.productionName, partnerProduct.productAmount, Round2(productCost))];
        totalCost := totalCost + productCost;
      }
      ghost var done := productsForPartner[..j + 1];
      assert done[..j] == productsForPartner[..j] && done[j] == partnerProduct;
      PricedStep(done, products, rate);
    }
    assert productsForPartner[..|productsForPartner|] == productsForPartner;
  }

  /**
   * Builds the partner list from the six loaded tables. The partner-type
   * table is searched, as in the window, but its result is never used. In
   * this model the displayed type comes from the partner row's own type
   * relation, a separate input, so the list is a function of the other five
   * tables.
   */
  method LoadPartners(
    partners: seq<PartnerRow>,
    partnerNames: seq<PartnerNameRow>,
    partnerTypes: seq<PartnerTypeRow>,
    directorNames: seq<DirectorNameRow>,
    partnerProducts: seq<PartnerProductRow>,
    products: seq<ProductRow>)
    returns (partnerList: seq<PartnerDisplay>)
    ensures partnerList == Aggregate(partners, partnerNames, directorNames, partnerProducts, products)
  {
    partnerList := [];
    for i := 0 to |partners|
      invariant |partnerList| == i
      invariant forall k :: 0 <= k < i ==>
                  partnerList[k] == DisplayFor(partners[k], partnerNames, directorNames, partnerProducts, products)
    {
      var partner := partners[i];
      var partnerName := NameOf(partner, partnerNames);
      var partnerType := TypeOf(partner, partnerTypes);
      var directorName := DirectorOf(partner, directorNames);

      var productsForPartner := LinksOf(partnerProducts, partner.id);
      var productDetails, totalCost := PriceLinks(productsForPartner, products, partner.rate);

      partnerList := partnerList + [PartnerDisplay(
        partner.id,
        TypeNameOf(partner),
        PartnerNameText(partnerName),
        partner.jurAddress,
        partner.phoneNumber,
        partner.rate,
        DirectorText(directorName),
        Round2(totalCost),
        productDetails)];
    }
  }
}
