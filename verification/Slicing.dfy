/**
 Freeze-quantity slicing.  The engine cuts a leg of lots with the freeze limit expressed in
 lots; the gateway cuts the resulting order of units again with the limit in units.
 */
module Slicing {
  import opened Wrappers

  /** Largest slice used once a quantity has to be cut. */
  function EffectiveFreeze(freeze: int, lot: int): int
    requires freeze > 0
  {
    var safeLot := Max(1, lot);
    Max(safeLot, (freeze / safeLot) * safeLot)
  }

  function Cut(rem: nat, cap: nat): seq<int>
    requires cap >= 1
  {
    if rem == 0 then [] else [Min(rem, cap)] + Cut(rem - Min(rem, cap), cap)
  }

  function Slices(quantity: int, freeze: int, lot: int): seq<int> {
    if quantity <= 0 then []
    else if freeze <= 0 || quantity <= freeze then [quantity]
    else Cut(quantity, EffectiveFreeze(freeze, lot))
  }

  /** Freeze limit of one engine slice, in lots. */
  function FreezeLots(freeze: int, lot: int): int {
    if freeze > 0 then Max(1, freeze / Max(1, lot)) else 100000
  }

  method SliceQuantityForFreeze(quantity: int, freeze: int, lot: int) returns (chunks: seq<int>)
    ensures chunks == Slices(quantity, freeze, lot)
    ensures Sum(chunks) == Max(0, quantity)
    ensures forall c <- chunks :: c > 0
  {
    if quantity <= 0 {
      return [];
    }
    var safeLot := Max(1, lot);
    if freeze <= 0 || quantity <= freeze {
      return [quantity];
    }
    var effective := Max(safeLot, (freeze / safeLot) * safeLot);
    chunks := [];
    var rem := quantity;
    while rem > 0
      invariant 0 <= rem <= quantity
      invariant chunks + Cut(rem, effective) == Cut(quantity, effective)
    {
      var c := Min(rem, effective);
      assert Cut(rem, effective) == [c] + Cut(rem - c, effective);
      chunks := chunks + [c];
      rem := rem - c;
    }
    CutFacts(quantity, effective);
  }

  lemma {:induction false} CutFacts(rem: nat, cap: nat)
    requires cap >= 1
    ensures Sum(Cut(rem, cap)) == rem
    ensures forall c <- Cut(rem, cap) :: 1 <= c <= cap
    ensures forall i :: 0 <= i < |Cut(rem, cap)| - 1 ==> Cut(rem, cap)[i] == cap
    ensures rem > 0 ==> (|Cut(rem, cap)| - 1) * cap < rem <= |Cut(rem, cap)| * cap
  {
    if rem > 0 {
      CutFacts(rem - Min(rem, cap), cap);
    }
  }

  /** The slices always add up to the quantity and are positive, whatever the limits are. */
  lemma SlicesConserve(quantity: int, freeze: int, lot: int)
    ensures Sum(Slices(quantity, freeze, lot)) == Max(0, quantity)
    ensures forall c <- Slices(quantity, freeze, lot) :: c > 0
    ensures quantity > 0 ==> |Slices(quantity, freeze, lot)| >= 1
  {
    if quantity > 0 && freeze > 0 && quantity > freeze {
      CutFacts(quantity, EffectiveFreeze(freeze, lot));
    }
  }

  lemma {:induction false} SumAtMost(xs: seq<int>, cap: int)
    requires forall i :: 0 <= i < |xs| ==> xs[i] <= cap
    ensures Sum(xs) <= |xs| * cap
  {
    if xs != [] {
      SumAtMost(xs[1..], cap);
      assert |xs| * cap == (|xs| - 1) * cap + cap;
    }
  }

  /** No way of cutting the quantity into pieces of at most the effective freeze uses fewer pieces. */
  lemma SlicesAreFewest(quantity: int, freeze: int, lot: int, pieces: seq<int>)
    requires quantity > freeze > 0
    requires Sum(pieces) == quantity
    requires forall i :: 0 <= i < |pieces| ==> pieces[i] <= EffectiveFreeze(freeze, lot)
    ensures |Slices(quantity, freeze, lot)| <= |pieces|
  {
    var cap := EffectiveFreeze(freeze, lot);
    SumAtMost(pieces, cap);
    CutFacts(quantity, cap);
    var n := |Slices(quantity, freeze, lot)|;
    if |pieces| <= n - 1 {
      MulMonotone(|pieces|, n - 1, cap);
    }
  }

  lemma MulMonotone(a: int, b: int, c: int)
    requires a <= b && 0 <= c
    ensures a * c <= b * c
  {
  }

  lemma LotDivides(q: int, lot: int)
    requires lot >= 1
    ensures (q * lot) / lot == q && (q * lot) % lot == 0
  {
    assert q * lot == lot * q + 0;
    DivModUnique(q * lot, lot, q, 0);
  }

  lemma DivModUnique(a: int, d: int, q: int, r: int)
    requires d > 0 && 0 <= r < d && a == d * q + r
    ensures a / d == q && a % d == r
  {
    var e := q - a / d;
    assert a == d * (a / d) + a % d;
    assert d * e == a % d - r;
    if e >= 1 {
      MulMonotone(1, e, d);
    } else if e <= -1 {
      MulMonotone(e, -1, d);
    }
  }

  lemma EffectiveBounds(freeze: int, lot: int)
    requires freeze > 0
    ensures EffectiveFreeze(freeze, lot) >= 1
    ensures lot <= freeze ==> EffectiveFreeze(freeze, lot) <= freeze
    ensures lot > freeze ==> EffectiveFreeze(freeze, lot) == lot
  {
    if lot > freeze {
      DivModUnique(freeze, lot, 0, freeze);
    } else {
      var safeLot := Max(1, lot);
      assert freeze == safeLot * (freeze / safeLot) + freeze % safeLot;
    }
  }

  /**
   Every slice respects the freeze limit exactly when nothing had to be cut or one lot fits
   under the limit: a lot larger than the limit is still sent whole.
   */
  lemma FreezeCompliance(quantity: int, freeze: int, lot: int)
    requires quantity > 0 && freeze > 0
    ensures (forall c <- Slices(quantity, freeze, lot) :: c <= freeze) <==> (quantity <= freeze || lot <= freeze)
  {
    EffectiveBounds(freeze, lot);
    hide EffectiveFreeze;
    if quantity > freeze {
      CutFacts(quantity, EffectiveFreeze(freeze, lot));
      var all := Slices(quantity, freeze, lot);
      assert all[0] in all && all[0] == Min(quantity, EffectiveFreeze(freeze, lot));
    }
  }

  predicate LotAligned(xs: seq<int>, lot: int)
    requires lot >= 1
  {
    forall x <- xs :: x % lot == 0
  }

  lemma ModSubtract(a: int, b: int, lot: int)
    requires lot >= 1 && b % lot == 0
    ensures (a - b) % lot == a % lot
  {
    DivModUnique(a - b, lot, a / lot - b / lot, a % lot);
  }

  lemma {:induction false} CutAligned(rem: nat, cap: nat, lot: int)
    requires lot >= 1 && cap >= 1 && cap % lot == 0
    ensures LotAligned(Cut(rem, cap), lot) <==> rem % lot == 0
  {
    if rem > cap {
      var tail := Cut(rem - cap, cap);
      CutAligned(rem - cap, cap, lot);
      ModSubtract(rem, cap, lot);
      assert Cut(rem, cap) == [cap] + tail;
      assert forall x :: x in Cut(rem, cap) <==> x == cap || x in tail;
    } else if rem > 0 {
      assert Cut(rem, cap) == [rem] + Cut(0, cap) == [rem];
      assert rem in Cut(rem, cap);
    } else {
      DivModUnique(0, lot, 0, 0);
    }
  }

  /** Slices are whole lots exactly when the quantity is: nothing is rounded or padded. */
  lemma LotAlignment(quantity: int, freeze: int, lot: int)
    requires quantity > 0 && lot >= 1
    ensures LotAligned(Slices(quantity, freeze, lot), lot) <==> quantity % lot == 0
  {
    if freeze > 0 && quantity > freeze {
      LotDivides(freeze / lot, lot);
      LotDivides(1, lot);
      CutAligned(quantity, EffectiveFreeze(freeze, lot), lot);
    } else {
      assert quantity in [quantity];
    }
  }

  lemma OneLotIsOneOrder(freeze: int, lot: int)
    requires lot > freeze > 0
    ensures Slices(lot, freeze, lot) == [lot]
  {
    DivModUnique(freeze, lot, 0, freeze);
    assert EffectiveFreeze(freeze, lot) == lot;
    assert Cut(lot, lot) == [lot] + Cut(0, lot) == [lot];
  }

  lemma WholeLotsUnderFreeze(freeze: int, lot: int, c: int)
    requires 1 <= lot <= freeze && c <= Max(1, freeze / lot)
    ensures c * lot <= freeze
  {
    if freeze / lot == 0 {
      DivModUnique(freeze, lot, 0, freeze);
    }
    MulMonotone(c, freeze / lot, lot);
  }

  /** So many lots pass a gateway with this limit and lot size as one order. */
  predicate FitsGateway(c: int, freeze: int, lot: int) {
    freeze <= 0 || c <= FreezeLots(freeze, lot)
  }

  lemma ManyLotsAreCut(freeze: int, lot: int, c: int)
    requires lot >= 1 && freeze > 0 && c > FreezeLots(freeze, lot)
    ensures EffectiveFreeze(freeze, lot) < c * lot && freeze < c * lot
  {
    EffectiveBounds(freeze, lot);
    MulMonotone(2, c, lot);
    if lot <= freeze {
      assert freeze == lot * (freeze / lot) + freeze % lot;
      MulMonotone(freeze / lot + 1, c, lot);
      assert (freeze / lot + 1) * lot == (freeze / lot) * lot + lot;
    }
  }

  /** A slice of c lots is one gateway order if and only if it fits there; otherwise it is cut again. */
  lemma SliceIsOneOrderIff(freeze: int, lot: int, c: int)
    requires lot >= 1 && c >= 1
    ensures Slices(c * lot, freeze, lot) == [c * lot] <==> FitsGateway(c, freeze, lot)
    ensures !FitsGateway(c, freeze, lot) ==>
      |Slices(c * lot, freeze, lot)| >= 2 && 0 < Slices(c * lot, freeze, lot)[0] < c * lot
  {
    MulMonotone(1, c, lot);
    if FitsGateway(c, freeze, lot) {
      if lot > freeze > 0 {
        DivModUnique(freeze, lot, 0, freeze);
        OneLotIsOneOrder(freeze, lot);
      } else if freeze > 0 {
        WholeLotsUnderFreeze(freeze, lot, c);
      }
    } else {
      ManyLotsAreCut(freeze, lot, c);
      EffectiveBounds(freeze, lot);
      hide EffectiveFreeze;
      CutFacts(c * lot, EffectiveFreeze(freeze, lot));
    }
  }

  /**
   Two-level slicing composes, with one limit and lot size in the engine and another pair at the
   gateway: every slice of the leg reaches the exchange as one order if and only if the largest
   slice the engine can send fits the gateway.
   */
  lemma LegComposesIff(quantity: int, freeze: int, lot: int, gateFreeze: int, gateLot: int)
    requires quantity > 0 && gateLot >= 1
    ensures (forall c :: c in Slices(quantity, FreezeLots(freeze, lot), 1) ==>
               Slices(c * gateLot, gateFreeze, gateLot) == [c * gateLot])
      <==> FitsGateway(Min(quantity, FreezeLots(freeze, lot)), gateFreeze, gateLot)
  {
    var cap, largest := FreezeLots(freeze, lot), Min(quantity, FreezeLots(freeze, lot));
    var slices := Slices(quantity, cap, 1);
    LargestSlice(quantity, cap);
    SliceIsOneOrderIff(gateFreeze, gateLot, largest);
    hide Slices;
    forall c | c in slices && FitsGateway(largest, gateFreeze, gateLot)
      ensures Slices(c * gateLot, gateFreeze, gateLot) == [c * gateLot]
    {
      SliceIsOneOrderIff(gateFreeze, gateLot, c);
    }
    assert slices[0] in slices;
  }

  /** Without a freeze limit a leg of up to a hundred thousand lots is one slice; with one, lots are counted by it. */
  lemma FreezeLotsMeaning(quantity: int, freeze: int, lot: int)
    requires 0 < quantity <= 100000 && lot >= 1
    ensures freeze <= 0 ==> Slices(quantity, FreezeLots(freeze, lot), 1) == [quantity]
    ensures freeze <= 0 ==> |Slices(100001, FreezeLots(freeze, lot), 1)| == 2
    ensures freeze > 0 ==> FreezeLots(freeze, lot) >= 1
    ensures freeze >= lot ==> FreezeLots(freeze, lot) * lot <= freeze < (FreezeLots(freeze, lot) + 1) * lot
  {
    if freeze <= 0 {
      assert (100000 / 1) * 1 == 100000;
      assert Cut(100001, 100000) == [100000] + Cut(1, 100000);
      assert Cut(1, 100000) == [1] + Cut(0, 100000);
    } else if freeze >= lot {
      assert freeze == lot * (freeze / lot) + freeze % lot;
      assert (freeze / lot + 1) * lot == (freeze / lot) * lot + lot;
    }
  }

  lemma LargestSlice(quantity: int, cap: int)
    requires quantity > 0 && cap >= 1
    ensures var slices := Slices(quantity, cap, 1);
      && slices != [] && slices[0] == Min(quantity, cap)
      && forall c :: c in slices ==> 1 <= c <= Min(quantity, cap)
  {
    if quantity > cap {
      assert (cap / 1) * 1 == cap;
      CutFacts(quantity, cap);
    }
  }

  /** With one pair for both levels it always composes, even when a lot exceeds the freeze limit. */
  lemma EngineSliceIsOneOrder(quantity: int, freeze: int, lot: int, c: int)
    requires lot >= 1
    requires c in Slices(quantity, FreezeLots(freeze, lot), 1)
    ensures c >= 1 && Slices(c * lot, freeze, lot) == [c * lot]
  {
    LargestSlice(quantity, FreezeLots(freeze, lot));
    SliceIsOneOrderIff(freeze, lot, c);
  }

  function Scaled(xs: seq<int>, k: int): seq<int> {
    seq(|xs|, i requires 0 <= i < |xs| => xs[i] * k)
  }

  lemma {:induction false} SumScaled(xs: seq<int>, k: int)
    ensures Sum(Scaled(xs, k)) == Sum(xs) * k
  {
    if xs != [] {
      assert Scaled(xs, k)[1..] == Scaled(xs[1..], k);
      SumScaled(xs[1..], k);
      assert (xs[0] + Sum(xs[1..])) * k == xs[0] * k + Sum(xs[1..]) * k;
    }
  }

  /** The units of all the orders of a leg are its lots times the lot size. */
  lemma LegUnits(quantity: int, freeze: int, lot: int)
    ensures Sum(Scaled(Slices(quantity, FreezeLots(freeze, lot), 1), lot)) == Max(0, quantity) * lot
  {
    SlicesConserve(quantity, FreezeLots(freeze, lot), 1);
    SumScaled(Slices(quantity, FreezeLots(freeze, lot), 1), lot);
  }
}
