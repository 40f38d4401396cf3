/** The movement record and the derived quantity "stock of a product":
    the sum of the quantities of its IN records minus the sum of the
    quantities of its OUT records, recomputed from the whole history. */
module StockLedger {
  import opened Values

  const IN: string := "IN"
  const OUT: string := "OUT"

  /** One stock movement as stored. `movementId` comes from the request body
      and may be absent; nothing makes it unique. `movementType` (the stored `type`) is
      whatever string was stored: the controllers never check it against IN/OUT. */
  datatype Movement = Movement(
    movementId: Option<int>,
    productId: string,
    movementType: string,
    quantity: Option<real>,
    date: Timestamp,
    notes: Option<string>)

  /** The quantity a record counts for: a missing quantity counts as 0. */
  function Qty(m: Movement): real
  {
    if m.quantity.Some? then m.quantity.value else 0.0
  }

  /** The sum of the quantities of the records of product `p` whose type is
      exactly `t`, accumulated in store order (the last record last). */
  function Total(ms: seq<Movement>, p: string, t: string): real
  {
    if ms == [] then 0.0
    else
      var m := ms[|ms| - 1];
      Total(ms[..|ms| - 1], p, t) + (if m.productId == p && m.movementType == t then Qty(m) else 0.0)
  }

  /** Stock(p) = sum of IN quantities - sum of OUT quantities for product p. */
  function Stock(ms: seq<Movement>, p: string): real
  {
    Total(ms, p, IN) - Total(ms, p, OUT)
  }

  /** What one record adds to the stock of `p`: +quantity for an IN of p,
      -quantity for an OUT of p, nothing for any other record. */
  function Delta(m: Movement, p: string): real
  {
    if m.productId != p then 0.0
    else if m.movementType == IN then Qty(m)
    else if m.movementType == OUT then -Qty(m)
    else 0.0
  }

  /** An independent reference definition: the signed sum of the records'
      contributions, taken from the first record on. */
  function Net(ms: seq<Movement>, p: string): real
  {
    if ms == [] then 0.0 else Delta(ms[0], p) + Net(ms[1..], p)
  }

  /** Every product has non-negative stock: the invariant the OUT checks aim at. */
  ghost predicate AllStockNonNegative(ms: seq<Movement>)
  {
    forall p :: Stock(ms, p) >= 0.0
  }

  /** The records update reads back when it asks for every movement_id other
      than `id`: all records except those carrying `id`, in store order
      (records with no movement_id stay, as a not-equal query keeps them). */
  function Excluding(ms: seq<Movement>, id: int): (r: seq<Movement>)
    ensures |r| <= |ms|
    ensures forall i :: 0 <= i < |r| ==> r[i].movementId != Some(id)
  {
    if ms == [] then []
    else
      var m := ms[|ms| - 1];
      Excluding(ms[..|ms| - 1], id) + (if m.movementId != Some(id) then [m] else [])
  }

  // ---------------------------------------------------------------------
  // Stock as a sum of contributions

  lemma TotalAppend(ms: seq<Movement>, m: Movement, p: string, t: string)
    ensures Total(ms + [m], p, t)
         == Total(ms, p, t) + (if m.productId == p && m.movementType == t then Qty(m) else 0.0)
  {
    assert (ms + [m])[..|ms|] == ms;
  }

  /** Appending one record changes the stock of `p` by exactly its contribution. */
  lemma StockAppend(ms: seq<Movement>, m: Movement, p: string)
    ensures Stock(ms + [m], p) == Stock(ms, p) + Delta(m, p)
  {
    TotalAppend(ms, m, p, IN);
    TotalAppend(ms, m, p, OUT);
  }

  /** Stock is additive over a split of the store. */
  lemma {:induction false} StockConcat(a: seq<Movement>, b: seq<Movement>, p: string)
    ensures Stock(a + b, p) == Stock(a, p) + Stock(b, p)
  {
    if b == [] {
      assert a + b == a;
    } else {
      var b' := b[..|b| - 1];
      var m := b[|b| - 1];
      assert b == b' + [m];
      assert a + b == (a + b') + [m];
      StockConcat(a, b', p);
      StockAppend(a + b', m, p);
      StockAppend(b', m, p);
    }
  }

  /** The stock computed by `Stock` is the signed sum of the contributions. */
  lemma {:induction false} StockIsNet(ms: seq<Movement>, p: string)
    ensures Stock(ms, p) == Net(ms, p)
  {
    if ms != [] {
      assert ms == [ms[0]] + ms[1..];
      StockConcat([ms[0]], ms[1..], p);
      StockAppend([], ms[0], p);
      assert [] + [ms[0]] == [ms[0]];
      StockIsNet(ms[1..], p);
    }
  }

  /** A product with no movements has stock 0. */
  lemma {:induction false} NoMovementsNoStock(ms: seq<Movement>, p: string)
    requires forall i :: 0 <= i < |ms| ==> ms[i].productId != p
    ensures Stock(ms, p) == 0.0
  {
    if ms != [] {
      var ms' := ms[..|ms| - 1];
      assert ms == ms' + [ms[|ms| - 1]];
      NoMovementsNoStock(ms', p);
      StockAppend(ms', ms[|ms| - 1], p);
    }
  }

  /** Records of other products, and records whose type is neither IN nor
      OUT, contribute nothing wherever they stand in the store. */
  lemma IrrelevantRecord(a: seq<Movement>, m: Movement, b: seq<Movement>, p: string)
    requires m.productId != p || (m.movementType != IN && m.movementType != OUT)
    ensures Stock(a + [m] + b, p) == Stock(a + b, p)
  {
    StockConcat(a + [m], b, p);
    StockAppend(a, m, p);
    StockConcat(a, b, p);
  }

  /** Removing the record at `k` takes its contribution out of the stock. */
  lemma StockRemove(ms: seq<Movement>, k: int, p: string)
    requires 0 <= k < |ms|
    ensures Stock(ms[..k] + ms[k + 1..], p) == Stock(ms, p) - Delta(ms[k], p)
  {
    assert ms == ms[..k] + [ms[k]] + ms[k + 1..];
    StockConcat(ms[..k] + [ms[k]], ms[k + 1..], p);
    StockAppend(ms[..k], ms[k], p);
    StockConcat(ms[..k], ms[k + 1..], p);
  }

  /** Replacing the record at `k` swaps its contribution for the new one's. */
  lemma StockReplace(ms: seq<Movement>, k: int, m': Movement, p: string)
    requires 0 <= k < |ms|
    ensures Stock(ms[k := m'], p) == Stock(ms, p) - Delta(ms[k], p) + Delta(m', p)
  {
    var ms' := ms[k := m'];
    assert ms'[..k] == ms[..k] && ms'[k + 1..] == ms[k + 1..];
    StockRemove(ms, k, p);
    StockRemove(ms', k, p);
  }

  /** An appended record whose contribution is not negative keeps every
      product's stock non-negative, and so does an OUT of at most the stock
      of its product. */
  lemma AppendKeepsNonNegative(ms: seq<Movement>, m: Movement)
    requires AllStockNonNegative(ms)
    requires Delta(m, m.productId) >= 0.0 || Delta(m, m.productId) + Stock(ms, m.productId) >= 0.0
    ensures AllStockNonNegative(ms + [m])
  {
    forall p ensures Stock(ms + [m], p) >= 0.0 {
      StockAppend(ms, m, p);
    }
  }

  // ---------------------------------------------------------------------
  // Excluding the record being edited

  lemma {:induction false} ExcludingConcat(a: seq<Movement>, b: seq<Movement>, id: int)
    ensures Excluding(a + b, id) == Excluding(a, id) + Excluding(b, id)
  {
    if b == [] {
      assert a + b == a;
    } else {
      var b' := b[..|b| - 1];
      assert (a + b)[..|a + b| - 1] == a + b';
      ExcludingConcat(a, b', id);
    }
  }

  /** The exclusion keeps exactly the records not carrying `id`: it adds no
      record and drops no other. */
  lemma {:induction false} ExcludingMembers(ms: seq<Movement>, id: int)
    ensures forall x :: x in Excluding(ms, id) <==> x in ms && x.movementId != Some(id)
  {
    if ms != [] {
      var ms', m := ms[..|ms| - 1], ms[|ms| - 1];
      assert ms == ms' + [m];
      ExcludingMembers(ms', id);
    }
  }

  /** One more record of the store either joins the excluded totals or not. */
  lemma TotalExcludingStep(ms: seq<Movement>, i: int, id: int, p: string, t: string)
    requires 0 <= i < |ms|
    ensures Total(Excluding(ms[..i + 1], id), p, t)
         == Total(Excluding(ms[..i], id), p, t)
            + (if ms[i].movementId != Some(id) && ms[i].productId == p && ms[i].movementType == t
               then Qty(ms[i]) else 0.0)
  {
    var m := ms[i];
    assert ms[..i + 1][..i] == ms[..i];
    if m.movementId != Some(id) {
      TotalAppend(Excluding(ms[..i], id), m, p, t);
    } else {
      assert Excluding(ms[..i], id) + [] == Excluding(ms[..i], id);
    }
  }

  /** A store with no record carrying `id` is left whole by the exclusion. */
  lemma {:induction false} ExcludingNoMatch(ms: seq<Movement>, id: int)
    requires forall i :: 0 <= i < |ms| ==> ms[i].movementId != Some(id)
    ensures Excluding(ms, id) == ms
  {
    if ms != [] {
      ExcludingNoMatch(ms[..|ms| - 1], id);
      assert ms == ms[..|ms| - 1] + [ms[|ms| - 1]];
    }
  }

  /** When `id` is carried by the record at `k` only, the exclusion is the
      store without that record. */
  lemma ExcludingUnique(ms: seq<Movement>, k: int, id: int)
    requires 0 <= k < |ms| && ms[k].movementId == Some(id)
    requires forall j :: 0 <= j < |ms| && j != k ==> ms[j].movementId != Some(id)
    ensures Excluding(ms, id) == ms[..k] + ms[k + 1..]
  {
    var before, after := ms[..k], ms[k + 1..];
    assert ms == (before + [ms[k]]) + after;
    ExcludingConcat(before + [ms[k]], after, id);
    assert Excluding(before + [ms[k]], id) == Excluding(before, id) by {
      assert (before + [ms[k]])[..|before|] == before;
    }
    assert forall i :: 0 <= i < |before| ==> before[i] == ms[i];
    ExcludingNoMatch(before, id);
    assert forall i :: 0 <= i < |after| ==> after[i] == ms[k + 1 + i];
    ExcludingNoMatch(after, id);
  }

  // ---------------------------------------------------------------------
  // Small stores written out

  lemma StockOfPair(a: Movement, b: Movement, p: string)
    ensures Stock([a, b], p) == Delta(a, p) + Delta(b, p)
  {
    StockAppend([], a, p);
    assert [] + [a] == [a];
    StockAppend([a], b, p);
    assert [a] + [b] == [a, b];
  }

  lemma StockOfTriple(a: Movement, b: Movement, c: Movement, p: string)
    ensures Stock([a, b, c], p) == Delta(a, p) + Delta(b, p) + Delta(c, p)
  {
    StockOfPair(a, b, p);
    StockAppend([a, b], c, p);
    assert [a, b] + [c] == [a, b, c];
  }

  lemma ExcludingSingle(m: Movement, id: int)
    ensures Excluding([m], id) == if m.movementId != Some(id) then [m] else []
  {
    assert [m][..0] == [];
  }
}
