/** The stock ledger of controllers/inventoryController.js: the movement
    collection, changed in place by create, update, delete and delete-all,
    with the OUT checks that compare a quantity against the stock recomputed
    from the whole history. The product table is read for existence checks
    and for the product's name. */
module InventoryController {
  import opened Values
  import opened StockLedger
  import opened ProductController
  import Validate

  /** The body of POST /movements and PUT /movements/:id. Every field is
      either absent or a value. The controllers test `date` for truthiness
      only, so `date == None` stands for an absent date and for a falsy one
      (`""`, `0`, `null`) alike: create then uses the current time and update
      keeps the old date. */
  datatype MovementBody = MovementBody(
    movementId: Option<int>,
    productId: Option<string>,
    movementType: Option<string>,
    quantity: Option<real>,
    date: Option<Timestamp>,
    notes: Option<string>)

  /** The answer of GET /movements/stock/:product_id. */
  datatype StockReport = StockReport(productId: string, productName: string, stockKg: real)

  /** The guard at the top of `create`: `product_id` and `type` truthy,
      `quantity` not undefined. */
  predicate HasRequiredFields(b: MovementBody)
  {
    Truthy(b.productId) && Truthy(b.movementType) && b.quantity.Some?
  }

  /** The position of the first record whose movement_id is `id`, or `|ms|`. */
  function FirstWithId(ms: seq<Movement>, id: int): (k: nat)
    ensures k <= |ms|
    ensures forall j :: 0 <= j < k ==> ms[j].movementId != Some(id)
    ensures k < |ms| ==> ms[k].movementId == Some(id)
  {
    if ms == [] then 0
    else if ms[0].movementId == Some(id) then 0
    else 1 + FirstWithId(ms[1..], id)
  }

  /** Some record carries `id`: the first-match search finds one. */
  predicate HasMovement(ms: seq<Movement>, id: int)
  {
    FirstWithId(ms, id) < |ms|
  }

  /** The record `mov` after update's field assignments: product and type
      fall back to the old value when the body's is falsy, quantity only when
      the body's is absent; the date changes only when the body's is truthy
      (`Some`) and the notes only when supplied; the
      movement_id is never touched. */
  function Patched(mov: Movement, b: MovementBody): Movement
  {
    Movement(
      mov.movementId,
      if Truthy(b.productId) then b.productId.value else mov.productId,
      if Truthy(b.movementType) then b.movementType.value else mov.movementType,
      if b.quantity.Some? then b.quantity else mov.quantity,
      if b.date.Some? then b.date.value else mov.date,
      if b.notes.Some? then b.notes else mov.notes)
  }

  /** The stock update compares against: the effective product's stock over
      every record except those carrying the edited movement_id. */
  function AvailableExcluding(ms: seq<Movement>, id: int, p: string): real
  {
    Stock(Excluding(ms, id), p)
  }

  /** Update refuses exactly an effective OUT whose (defined) effective
      quantity exceeds the stock available without the edited records. */
  predicate RejectsUpdate(ms: seq<Movement>, id: int, eff: Movement)
  {
    eff.movementType == OUT && eff.quantity.Some?
    && eff.quantity.value > AvailableExcluding(ms, id, eff.productId)
  }

  class Ledger {
    var movements: seq<Movement>
    const catalog: ProductStore

    constructor (catalog: ProductStore)
      ensures movements == [] && this.catalog == catalog
    {
      movements := [];
      this.catalog := catalog;
    }

    /** `calculateStock`: one pass over the records of `p`, summing IN and
        OUT quantities separately. */
    method CalculateStock(p: string) returns (stock: real)
      ensures stock == Total(movements, p, IN) - Total(movements, p, OUT)
    {
      var totalIn, totalOut := 0.0, 0.0;
      var i := 0;
      while i < |movements|
        invariant 0 <= i <= |movements|
        invariant totalIn == Total(movements[..i], p, IN)
        invariant totalOut == Total(movements[..i], p, OUT)
      {
        var m := movements[i];
        if m.productId == p {
          if m.movementType == IN {
            totalIn := totalIn + Qty(m);
          }
          if m.movementType == OUT {
            totalOut := totalOut + Qty(m);
          }
        }
        assert movements[..i + 1] == movements[..i] + [m];
        TotalAppend(movements[..i], m, p, IN);
        TotalAppend(movements[..i], m, p, OUT);
        i := i + 1;
      }
      assert movements[..i] == movements;
      stock := totalIn - totalOut;
    }

    /** POST /movements. */
    method Create(body: MovementBody, now: Timestamp) returns (r: Response<Movement>)
      modifies this
      ensures r.Invalid? <==> !HasRequiredFields(body)
      ensures r.NotFound? <==>
                HasRequiredFields(body) && !HasProduct(catalog.products, body.productId.value)
      ensures r.InsufficientStock? <==>
                && HasRequiredFields(body) && HasProduct(catalog.products, body.productId.value)
                && body.movementType.value == OUT
                && body.quantity.value > Stock(old(movements), body.productId.value)
      ensures r.InsufficientStock? ==>
                r.available == Stock(old(movements), body.productId.value)
      ensures !r.Ok? ==> movements == old(movements)
      ensures r.Ok? ==>
                && movements == old(movements) + [r.value]
                && r.value.movementId == body.movementId
                && Some(r.value.productId) == body.productId
                && Some(r.value.movementType) == body.movementType
                && r.value.quantity == body.quantity
                && r.value.date == (if body.date.Some? then body.date.value else now)
                && r.value.notes == body.notes
    {
      if !Truthy(body.productId) || !Truthy(body.movementType) || body.quantity.None? {
        r := Invalid;
        return;
      }
      var productId := body.productId.value;
      var product := catalog.FindOne(productId);
      if product.NotFound? {
        r := NotFound;
        return;
      }
      if body.movementType.value == OUT {
        var stock := CalculateStock(productId);
        if body.quantity.value > stock {
          r := InsufficientStock(stock);
          return;
        }
      }
      var movement := Movement(
        body.movementId,
        productId,
        body.movementType.value,
        body.quantity,
        if body.date.Some? then body.date.value else now,
        body.notes);
      movements := movements + [movement];
      r := Ok(movement);
    }

    /** GET /movements/:movement_id: the first match, or not-found. */
    method FindOne(id: int) returns (r: Response<Movement>)
      ensures r.Ok? || r.NotFound?
      ensures r.NotFound? <==> !HasMovement(movements, id)
      ensures r.Ok? ==> r.value.movementId == Some(id) && r.value == movements[FirstWithId(movements, id)]
    {
      var k := FirstWithId(movements, id);
      if k == |movements| {
        r := NotFound;
      } else {
        r := Ok(movements[k]);
      }
    }

    /** The query and loop of `update` that compute the stock of `p` over
        every record whose movement_id is not `id`. */
    method StockExcluding(p: string, id: int) returns (available: real)
      ensures available == AvailableExcluding(movements, id, p)
    {
      var totalIn, totalOut := 0.0, 0.0;
      var i := 0;
      while i < |movements|
        invariant 0 <= i <= |movements|
        invariant totalIn == Total(Excluding(movements[..i], id), p, IN)
        invariant totalOut == Total(Excluding(movements[..i], id), p, OUT)
      {
        var m := movements[i];
        TotalExcludingStep(movements, i, id, p, IN);
        TotalExcludingStep(movements, i, id, p, OUT);
        if m.productId == p && m.movementId != Some(id) {
          if m.movementType == IN {
            totalIn := totalIn + Qty(m);
          }
          if m.movementType == OUT {
            totalOut := totalOut + Qty(m);
          }
        }
        i := i + 1;
      }
      assert movements[..i] == movements;
      available := totalIn - totalOut;
    }

    /** PUT /movements/:movement_id. The first record with the id is edited
        in place; the stock check leaves out every record with that id. */
    method Update(id: int, body: Option<MovementBody>) returns (r: Response<Movement>)
      modifies this
      ensures body.None? ==> r == Invalid && movements == old(movements)
      ensures body.Some? && !HasMovement(old(movements), id) ==>
                r == NotFound && movements == old(movements)
      ensures body.Some? && HasMovement(old(movements), id) ==>
                var k := FirstWithId(old(movements), id);
                var eff := Patched(old(movements)[k], body.value);
                && (r.InsufficientStock? <==> RejectsUpdate(old(movements), id, eff))
                && (r.InsufficientStock? ==>
                      && r.available == AvailableExcluding(old(movements), id, eff.productId)
                      && movements == old(movements))
                && (!r.InsufficientStock? ==> r == Ok(eff) && movements == old(movements)[k := eff])
    {
      if body.None? {
        r := Invalid;
        return;
      }
      var b := body.value;
      var ms := movements;
      var k := FirstWithId(ms, id);
      if k == |ms| {
        r := NotFound;
        return;
      }
      var mov := ms[k];
      var newProductId := if Truthy(b.productId) then b.productId.value else mov.productId;
      var newType := if Truthy(b.movementType) then b.movementType.value else mov.movementType;
      var newQuantity := if b.quantity.Some? then b.quantity else mov.quantity;

      var availableExcluding := StockExcluding(newProductId, id);
      assert availableExcluding == AvailableExcluding(ms, id, newProductId);
      assert Patched(mov, b).productId == newProductId;

      if newType == OUT && newQuantity.Some? && newQuantity.value > availableExcluding {
        r := InsufficientStock(availableExcluding);
        return;
      }
      var updated := Movement(
        mov.movementId,
        newProductId,
        newType,
        newQuantity,
        if b.date.Some? then b.date.value else mov.date,
        if b.notes.Some? then b.notes else mov.notes);
      movements := ms[k := updated];
      r := Ok(updated);
    }

    /** DELETE /movements/:movement_id: remove the first match, with no
        stock check. */
    method Delete(id: int) returns (r: Response<()>)
      modifies this
      ensures r.Ok? || r.NotFound?
      ensures r.NotFound? <==> !HasMovement(old(movements), id)
      ensures r.NotFound? ==> movements == old(movements)
      ensures r.Ok? ==>
                var k := FirstWithId(old(movements), id);
                movements == old(movements)[..k] + old(movements)[k + 1..]
    {
      var k := FirstWithId(movements, id);
      if k == |movements| {
        r := NotFound;
        return;
      }
      movements := movements[..k] + movements[k + 1..];
      r := Ok(());
    }

    /** DELETE /movements: empty the collection and report how many were removed. */
    method DeleteAll() returns (deletedCount: nat)
      modifies this
      ensures deletedCount == |old(movements)| && movements == []
    {
      deletedCount := |movements|;
      movements := [];
    }

    /** GET /movements/stock/:product_id: the product's name and its stock,
        or not-found when no product has that id. */
    method StockByProduct(p: string) returns (r: Response<StockReport>)
      ensures r.Ok? || r.NotFound?
      ensures r.NotFound? <==> !HasProduct(catalog.products, p)
      ensures r.Ok? ==>
                && r.value.productId == p
                && r.value.stockKg == Stock(movements, p)
                && r.value.productName == catalog.products[FirstIndexOf(catalog.products, p)].name
    {
      var stock := CalculateStock(p);
      var product := catalog.FindOne(p);
      if product.NotFound? {
        r := NotFound;
        return;
      }
      r := Ok(StockReport(p, product.value.name, stock));
    }
  }

  // -----------------------------------------------------------------------
  // What create, update and delete do to the stock

  /** An accepted create moves the stock of its product by its quantity (up
      for IN, down for OUT) and leaves every other product's stock alone. */
  lemma CreateEffect(ms: seq<Movement>, m: Movement, p: string)
    requires m.quantity.Some?
    ensures p == m.productId && m.movementType == IN ==> Stock(ms + [m], p) == Stock(ms, p) + m.quantity.value
    ensures p == m.productId && m.movementType == OUT ==> Stock(ms + [m], p) == Stock(ms, p) - m.quantity.value
    ensures p != m.productId ==> Stock(ms + [m], p) == Stock(ms, p)
  {
    StockAppend(ms, m, p);
  }

  /** An OUT that passed create's check leaves its product with
      non-negative stock, whatever the stock was before. */
  lemma AcceptedOutCreateKeepsStock(ms: seq<Movement>, m: Movement)
    requires m.movementType == OUT && m.quantity.Some?
    requires !(m.quantity.value > Stock(ms, m.productId))
    ensures Stock(ms + [m], m.productId) == Stock(ms, m.productId) - m.quantity.value >= 0.0
  {
    StockAppend(ms, m, m.productId);
  }

  /** The request `validateCreateMovement` sees for a movement body. */
  function AsRequest(b: MovementBody): Validate.MovementRequest
  {
    Validate.MovementRequest(
      b.productId,
      b.movementType,
      if b.quantity.Some? then Validate.Number(b.quantity.value) else Validate.Undefined)
  }

  /** A body the validator accepts passes create's own guard, names IN or
      OUT, and carries a positive quantity. */
  lemma ValidatedBodyPassesGuard(b: MovementBody)
    requires Validate.ValidateCreateMovement(AsRequest(b)) == Validate.Accept
    ensures HasRequiredFields(b)
    ensures b.movementType.value == IN || b.movementType.value == OUT
    ensures b.quantity.value > 0.0
  {
  }

  /** Had the validator been in front of create, every accepted create would
      keep all stock non-negative: an IN then only raises stock, and an OUT
      passed the stock check. */
  lemma ValidatedCreateKeepsAllStockNonNegative(ms: seq<Movement>, b: MovementBody, m: Movement)
    requires AllStockNonNegative(ms)
    requires Validate.ValidateCreateMovement(AsRequest(b)) == Validate.Accept
    requires Some(m.productId) == b.productId && Some(m.movementType) == b.movementType
    requires m.quantity == b.quantity
    requires m.movementType == OUT ==> !(m.quantity.value > Stock(ms, m.productId))
    ensures AllStockNonNegative(ms + [m])
  {
    ValidatedBodyPassesGuard(b);
    AppendKeepsNonNegative(ms, m);
  }

  /** When the edited movement_id is carried by one record only, an OUT update
      that passed the check leaves its effective product with stock equal to
      the available stock minus the new quantity, hence non-negative. */
  lemma AcceptedOutUpdateKeepsStock(ms: seq<Movement>, id: int, b: MovementBody)
    requires HasMovement(ms, id)
    requires forall j :: 0 <= j < |ms| && ms[j].movementId == Some(id) ==> j == FirstWithId(ms, id)
    requires Patched(ms[FirstWithId(ms, id)], b).movementType == OUT
    requires Patched(ms[FirstWithId(ms, id)], b).quantity.Some?
    requires !RejectsUpdate(ms, id, Patched(ms[FirstWithId(ms, id)], b))
    ensures var k := FirstWithId(ms, id);
            var eff := Patched(ms[k], b);
            Stock(ms[k := eff], eff.productId)
              == AvailableExcluding(ms, id, eff.productId) - eff.quantity.value >= 0.0
  {
    var k := FirstWithId(ms, id);
    var eff := Patched(ms[k], b);
    ExcludingUnique(ms, k, id);
    StockRemove(ms, k, eff.productId);
    StockReplace(ms, k, eff, eff.productId);
  }

  /** An accepted update of the record at `k` takes the old record's
      contribution out of every product's stock and puts the new one's in:
      the product it left, the product it joined, and no other. */
  lemma UpdateEffect(ms: seq<Movement>, k: int, eff: Movement, p: string)
    requires 0 <= k < |ms|
    ensures p != ms[k].productId && p != eff.productId ==> Stock(ms[k := eff], p) == Stock(ms, p)
    ensures p == ms[k].productId && p != eff.productId ==> Stock(ms[k := eff], p) == Stock(ms, p) - Delta(ms[k], p)
    ensures p == eff.productId ==> Stock(ms[k := eff], p) == Stock(ms, p) - Delta(ms[k], p) + Delta(eff, p)
  {
    StockReplace(ms, k, eff, p);
  }

  // -----------------------------------------------------------------------
  // Worked cases on product "A"

  /** Self-exclusion: with [IN 100 (id 1), OUT 100 (id 2)] the stock is 0;
      setting the OUT's quantity to 100 passes (100 available without it),
      setting it to 101 is refused with 100 available. */
  lemma SelfExclusionExample()
    ensures var ms := [Movement(Some(1), "A", IN, Some(100.0), 0, None),
                       Movement(Some(2), "A", OUT, Some(100.0), 0, None)];
            var to100 := Patched(ms[1], MovementBody(None, None, None, Some(100.0), None, None));
            var to101 := Patched(ms[1], MovementBody(None, None, None, Some(101.0), None, None));
            && Stock(ms, "A") == 0.0
            && FirstWithId(ms, 2) == 1
            && AvailableExcluding(ms, 2, "A") == 100.0
            && !RejectsUpdate(ms, 2, to100)
            && RejectsUpdate(ms, 2, to101)
  {
    var in1 := Movement(Some(1), "A", IN, Some(100.0), 0, None);
    var out2 := Movement(Some(2), "A", OUT, Some(100.0), 0, None);
    StockOfPair(in1, out2, "A");
    ExcludingConcat([in1], [out2], 2);
    ExcludingSingle(in1, 2);
    ExcludingSingle(out2, 2);
    assert [in1] + [out2] == [in1, out2];
    StockAppend([], in1, "A");
    assert [] + [in1] == [in1];
  }

  /** Update checks nothing for an effective IN: lowering the IN of
      [IN 100 (id 1), OUT 100 (id 2)] to 1 is accepted and leaves stock -99. */
  lemma LoweringAnInIsUnchecked()
    ensures var ms := [Movement(Some(1), "A", IN, Some(100.0), 0, None),
                       Movement(Some(2), "A", OUT, Some(100.0), 0, None)];
            var eff := Patched(ms[0], MovementBody(None, None, None, Some(1.0), None, None));
            && Stock(ms, "A") == 0.0
            && FirstWithId(ms, 1) == 0
            && !RejectsUpdate(ms, 1, eff)
            && Stock(ms[0 := eff], "A") == -99.0
  {
    var in1 := Movement(Some(1), "A", IN, Some(100.0), 0, None);
    var out2 := Movement(Some(2), "A", OUT, Some(100.0), 0, None);
    var eff := Patched(in1, MovementBody(None, None, None, Some(1.0), None, None));
    StockOfPair(in1, out2, "A");
    StockOfPair(eff, out2, "A");
    assert [in1, out2][0 := eff] == [eff, out2];
  }

  /** Movement ids are not unique. With [IN 10 (id 1), OUT 5 (id 2),
      OUT 5 (id 2)], update of id 2 to 10 excludes both OUTs (10 available),
      is accepted, edits only the first, and leaves stock -5. */
  lemma DuplicateIdUpdateCanGoNegative()
    ensures var ms := [Movement(Some(1), "A", IN, Some(10.0), 0, None),
                       Movement(Some(2), "A", OUT, Some(5.0), 0, None),
                       Movement(Some(2), "A", OUT, Some(5.0), 0, None)];
            var eff := Patched(ms[1], MovementBody(None, None, None, Some(10.0), None, None));
            && Stock(ms, "A") == 0.0
            && FirstWithId(ms, 2) == 1
            && eff.movementType == OUT
            && AvailableExcluding(ms, 2, "A") == 10.0
            && !RejectsUpdate(ms, 2, eff)
            && Stock(ms[1 := eff], "A") == -5.0
  {
    var in1 := Movement(Some(1), "A", IN, Some(10.0), 0, None);
    var out2 := Movement(Some(2), "A", OUT, Some(5.0), 0, None);
    var eff := Patched(out2, MovementBody(None, None, None, Some(10.0), None, None));
    StockOfTriple(in1, out2, out2, "A");
    StockOfTriple(in1, eff, out2, "A");
    assert [in1, out2, out2][1 := eff] == [in1, eff, out2];
    assert [in1, out2, out2] == [in1] + [out2] + [out2];
    ExcludingConcat([in1] + [out2], [out2], 2);
    ExcludingConcat([in1], [out2], 2);
    ExcludingSingle(in1, 2);
    ExcludingSingle(out2, 2);
    StockAppend([], in1, "A");
    assert [] + [in1] == [in1];
    assert [in1, out2, out2][1..] == [out2, out2];
  }

  /** Delete re-checks nothing: removing the IN of [IN 100 (id 1),
      OUT 100 (id 2)] leaves stock -100. */
  lemma DeleteCanLeaveNegativeStock()
    ensures var ms := [Movement(Some(1), "A", IN, Some(100.0), 0, None),
                       Movement(Some(2), "A", OUT, Some(100.0), 0, None)];
            && Stock(ms, "A") == 0.0
            && FirstWithId(ms, 1) == 0
            && Stock(ms[..0] + ms[1..], "A") == -100.0
  {
    var in1 := Movement(Some(1), "A", IN, Some(100.0), 0, None);
    var out2 := Movement(Some(2), "A", OUT, Some(100.0), 0, None);
    StockOfPair(in1, out2, "A");
    StockRemove([in1, out2], 0, "A");
  }

  /** Create checks nothing for an IN: with product "A" in the catalog and
      no movements, an IN of -5 is accepted and the stock of "A" becomes -5. */
  method NegativeInIsAccepted() returns (r: Response<Movement>, stock: real)
    ensures r.Ok? && r.value.movementType == IN && r.value.quantity == Some(-5.0)
    ensures stock == -5.0
  {
    var catalog := new ProductStore();
    var ledger := new Ledger(catalog);
    var created := catalog.Create(map["product_id" := "A", "name" := "Apples"]);
    assert catalog.products[0].productId == "A";
    r := ledger.Create(MovementBody(None, Some("A"), Some(IN), Some(-5.0), None, None), 0);
    StockAppend([], r.value, "A");
    stock := ledger.CalculateStock("A");
  }

  /** A client session: create product 001-0001, record an IN of 50, read
      the stock (50), then ask for an OUT of 60, which is refused with 50
      available. */
  method StockScenario()
  {
    var catalog := new ProductStore();
    var ledger := new Ledger(catalog);
    var created := catalog.Create(map["product_id" := "001-0001", "name" := "X"]);
    assert created.Ok?;
    assert catalog.products[0].productId == "001-0001";
    var stocked := ledger.Create(MovementBody(None, Some("001-0001"), Some(IN), Some(50.0), None, None), 0);
    assert stocked.Ok?;
    StockAppend([], stocked.value, "001-0001");
    assert ledger.movements == [] + [stocked.value];
    var report := ledger.StockByProduct("001-0001");
    assert report == Ok(StockReport("001-0001", "X", 50.0));
    var refused := ledger.Create(MovementBody(None, Some("001-0001"), Some(OUT), Some(60.0), None, None), 0);
    assert refused == InsufficientStock(50.0);
  }
}
