/**
 The promo-tile interleaving of the product grid
 (`components/ProductList/ProductList.tsx`).

 Both layouts (the list view and the grid) render, for the product at
 0-based index `i`, the first promo tile whose `position` is exactly
 `(i + 1).toString()`, if there is one, and then the product. Products are
 a type parameter: nothing about them is read.
 */
module ProductList {
  import opened Js
  import opened Types

  /** The index of the first tile whose position is exactly `wanted`, or `|tiles|`. */
  function FirstTileAt(tiles: seq<PromoTile>, wanted: string): (j: nat)
    ensures j <= |tiles|
    ensures j < |tiles| ==> tiles[j].position == Some(wanted)
    ensures forall k :: 0 <= k < j ==> tiles[k].position != Some(wanted)
    decreases |tiles|
  {
    if |tiles| == 0 then 0
    else if tiles[0].position == Some(wanted) then 0
    else 1 + FirstTileAt(tiles[1..], wanted)
  }

  /** `promoTiles?.find(item => item.position === (index + 1).toString())` */
  function TileBefore(tiles: Option<seq<PromoTile>>, index: nat): Option<PromoTile>
  {
    match tiles
    case None => None
    case Some(ts) =>
      var j := FirstTileAt(ts, NatToString(index + 1));
      if j < |ts| then Some(ts[j]) else None
  }

  /** One step of `products?.map`: the tile placed before a product, if any, and the product. */
  datatype Slot<P> = Slot(tile: Option<PromoTile>, product: P)

  /** The rule both layout branches apply, product by product. */
  function Slots<P>(products: Option<seq<P>>, tiles: Option<seq<PromoTile>>): (r: seq<Slot<P>>)
    ensures products.None? ==> r == []
    ensures products.Some? ==> |r| == |products.value|
    ensures products.Some? ==> forall i :: 0 <= i < |r| ==> r[i].product == products.value[i]
  {
    match products
    case None => []
    case Some(ps) => seq(|ps|, i requires 0 <= i < |ps| => Slot(TileBefore(tiles, i), ps[i]))
  }

  /** What the list renders, in document order. */
  datatype Item<P> = TileItem(tile: PromoTile) | ProductItem(product: P)

  function SlotItems<P>(s: Slot<P>): seq<Item<P>>
  {
    match s.tile
    case Some(t) => [TileItem(t), ProductItem(s.product)]
    case None => [ProductItem(s.product)]
  }

  /** The fragments of the `map`, flattened. */
  function Render<P>(slots: seq<Slot<P>>): seq<Item<P>>
    decreases |slots|
  {
    if |slots| == 0 then [] else SlotItems(slots[0]) + Render(slots[1..])
  }

  /** The products of a rendered list, in order. */
  function ProductsOf<P>(items: seq<Item<P>>): seq<P>
    decreases |items|
  {
    if |items| == 0 then []
    else if items[0].ProductItem? then [items[0].product] + ProductsOf(items[1..])
    else ProductsOf(items[1..])
  }

  /** The tiles of a rendered list, in order. */
  function TilesOf<P>(items: seq<Item<P>>): seq<PromoTile>
    decreases |items|
  {
    if |items| == 0 then []
    else if items[0].TileItem? then [items[0].tile] + TilesOf(items[1..])
    else TilesOf(items[1..])
  }

  /** The products of `slots`, in order. */
  function SlotProducts<P>(slots: seq<Slot<P>>): (r: seq<P>)
    ensures |r| == |slots|
    ensures forall i :: 0 <= i < |r| ==> r[i] == slots[i].product
  {
    seq(|slots|, i requires 0 <= i < |slots| => slots[i].product)
  }

  lemma {:induction false} ProductsOfAppend<P>(a: seq<Item<P>>, b: seq<Item<P>>)
    ensures ProductsOf(a + b) == ProductsOf(a) + ProductsOf(b)
    decreases |a|
  {
    if |a| > 0 {
      assert (a + b)[1..] == a[1..] + b;
      ProductsOfAppend(a[1..], b);
    } else {
      assert a + b == b;
    }
  }

  lemma {:induction false} TilesOfAppend<P>(a: seq<Item<P>>, b: seq<Item<P>>)
    ensures TilesOf(a + b) == TilesOf(a) + TilesOf(b)
    decreases |a|
  {
    if |a| > 0 {
      assert (a + b)[1..] == a[1..] + b;
      TilesOfAppend(a[1..], b);
    } else {
      assert a + b == b;
    }
  }

  /** Rendering shows every product exactly once, in the order of the slots. */
  lemma {:induction false} RenderKeepsProducts<P>(slots: seq<Slot<P>>)
    ensures ProductsOf(Render(slots)) == SlotProducts(slots)
    decreases |slots|
  {
    if |slots| > 0 {
      RenderKeepsProducts(slots[1..]);
      ProductsOfAppend(SlotItems(slots[0]), Render(slots[1..]));
      assert SlotProducts(slots) == [slots[0].product] + SlotProducts(slots[1..]);
    }
  }

  /** Every product of the input appears exactly once in the rendered list, in its original order. */
  lemma ProductsInOrder<P>(products: Option<seq<P>>, tiles: Option<seq<PromoTile>>)
    ensures ProductsOf(Render(Slots(products, tiles))) == OrElse(products, [])
  {
    var slots := Slots(products, tiles);
    RenderKeepsProducts(slots);
    assert SlotProducts(slots) == OrElse(products, []);
  }

  /** A tile that is rendered sits in some slot, and every slot's tile is rendered. */
  lemma {:induction false} RenderedTiles<P>(slots: seq<Slot<P>>)
    ensures forall t :: t in TilesOf(Render(slots)) <==> exists i :: 0 <= i < |slots| && slots[i].tile == Some(t)
    decreases |slots|
  {
    if |slots| > 0 {
      RenderedTiles(slots[1..]);
      TilesOfAppend(SlotItems(slots[0]), Render(slots[1..]));
      forall t
        ensures t in TilesOf(Render(slots)) <==> exists i :: 0 <= i < |slots| && slots[i].tile == Some(t)
      {
        if exists i :: 0 <= i < |slots| && slots[i].tile == Some(t) {
          var i :| 0 <= i < |slots| && slots[i].tile == Some(t);
          if i > 0 {
            assert slots[1..][i - 1].tile == Some(t);
          }
        }
        if t in TilesOf(Render(slots[1..])) {
          var i :| 0 <= i < |slots[1..]| && slots[1..][i].tile == Some(t);
          assert slots[i + 1].tile == Some(t);
        }
      }
    }
  }

  /** The last rendered item is always a product: no tile follows the last product. */
  lemma {:induction false} RenderEndsWithProduct<P>(slots: seq<Slot<P>>)
    requires |slots| > 0
    ensures |Render(slots)| > 0 && Render(slots)[|Render(slots)| - 1] == ProductItem(slots[|slots| - 1].product)
    decreases |slots|
  {
    if |slots| > 1 {
      RenderEndsWithProduct(slots[1..]);
    }
  }

  /**
   The tile before the product at index `i` is the first tile in list order
   whose position is exactly the decimal 1-based index; there is none when no
   tile has that position.
   */
  lemma TileRule<P>(ps: seq<P>, tiles: seq<PromoTile>, i: nat)
    requires i < |ps|
    ensures var slot := Slots(Some(ps), Some(tiles))[i];
      && (slot.tile.Some? <==> exists k :: 0 <= k < |tiles| && tiles[k].position == Some(NatToString(i + 1)))
      && (slot.tile.Some? ==>
            exists k :: 0 <= k < |tiles| && slot.tile.value == tiles[k]
              && tiles[k].position == Some(NatToString(i + 1))
              && forall m :: 0 <= m < k ==> tiles[m].position != Some(NatToString(i + 1)))
  {
    var j := FirstTileAt(tiles, NatToString(i + 1));
    if j < |tiles| {
      assert Slots(Some(ps), Some(tiles))[i].tile == Some(tiles[j]);
    }
  }

  /** Every tile a slot carries is positioned at that slot's 1-based index. */
  lemma SlotTilePosition<P>(products: Option<seq<P>>, tiles: Option<seq<PromoTile>>, i: nat)
    requires i < |Slots(products, tiles)|
    ensures var slot := Slots(products, tiles)[i];
      slot.tile.Some? ==> slot.tile.value.position == Some(NatToString(i + 1)) && slot.tile.value in tiles.value
  {
  }

  /** No tile is placed before two different products. */
  lemma NoTileTwice<P>(products: Option<seq<P>>, tiles: Option<seq<PromoTile>>, i: nat, j: nat, t: PromoTile)
    requires i < |Slots(products, tiles)| && j < |Slots(products, tiles)|
    requires Slots(products, tiles)[i].tile == Some(t) && Slots(products, tiles)[j].tile == Some(t)
    ensures i == j
  {
    SlotTilePosition(products, tiles, i);
    SlotTilePosition(products, tiles, j);
    NatToStringInjective(i + 1, j + 1);
  }

  /** A rendered tile carries the canonical decimal of a position between 1 and the number of products. */
  lemma ShownTilePositions<P>(products: Option<seq<P>>, tiles: Option<seq<PromoTile>>, t: PromoTile)
    requires t in TilesOf(Render(Slots(products, tiles)))
    ensures exists k :: 1 <= k <= |Slots(products, tiles)| && t.position == Some(NatToString(k))
  {
    var slots := Slots(products, tiles);
    RenderedTiles(slots);
    var i :| 0 <= i < |slots| && slots[i].tile == Some(t);
    SlotTilePosition(products, tiles, i);
  }

  /**
   Positions are matched as exact strings: a tile whose position is missing,
   empty, has a leading zero (`'01'`) or any character other than a digit
   (`' 1'`) is never shown.
   */
  lemma NonCanonicalNeverShown<P>(products: Option<seq<P>>, tiles: Option<seq<PromoTile>>, t: PromoTile)
    requires || t.position.None?
             || t.position.value == ""
             || t.position.value[0] == '0'
             || exists c :: c in t.position.value && !IsDigit(c)
    ensures t !in TilesOf(Render(Slots(products, tiles)))
  {
    if t in TilesOf(Render(Slots(products, tiles))) {
      ShownTilePositions(products, tiles, t);
    }
  }

  /** A tile positioned past the last product is never shown. */
  lemma TilePastEndNeverShown<P>(products: Option<seq<P>>, tiles: Option<seq<PromoTile>>, t: PromoTile, k: nat)
    requires k > |Slots(products, tiles)| && t.position == Some(NatToString(k))
    ensures t !in TilesOf(Render(Slots(products, tiles)))
  {
    if t in TilesOf(Render(Slots(products, tiles))) {
      ShownTilePositions(products, tiles, t);
      var m :| 1 <= m <= |Slots(products, tiles)| && t.position == Some(NatToString(m));
      NatToStringInjective(k, m);
    }
  }

  /** Without promo tiles, the list is the products alone. */
  lemma {:induction false} RenderWithoutTiles<P>(slots: seq<Slot<P>>)
    requires forall i :: 0 <= i < |slots| ==> slots[i].tile.None?
    ensures |Render(slots)| == |slots|
    ensures forall i :: 0 <= i < |slots| ==> Render(slots)[i] == ProductItem(slots[i].product)
    decreases |slots|
  {
    if |slots| > 0 {
      RenderWithoutTiles(slots[1..]);
      var r := Render(slots);
      assert r == [ProductItem(slots[0].product)] + Render(slots[1..]);
      forall i | 1 <= i < |slots|
        ensures r[i] == ProductItem(slots[i].product)
      {
        assert r[i] == Render(slots[1..])[i - 1];
        assert slots[1..][i - 1] == slots[i];
      }
    }
  }

  /** Missing products render nothing; missing promo tiles render the products with no tiles. */
  lemma NullInputs<P>(ps: seq<P>, tiles: Option<seq<PromoTile>>)
    ensures Render(Slots<P>(None, tiles)) == []
    ensures var r := Render(Slots(Some(ps), None));
      |r| == |ps| && forall i :: 0 <= i < |ps| ==> r[i] == ProductItem(ps[i])
  {
    RenderWithoutTiles(Slots(Some(ps), None));
  }
}
