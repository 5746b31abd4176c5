/** The personal protective equipment screen: a zone filter, the
    availability colour of a stock ratio, the out-of-stock and good-state
    counts and the state colour table. */
module Ppe {
  import Seqs
  import Palette

  datatype PpeState = Bon | Use | ARemplacer

  /** The label a state is written and compared as. */
  function Label(s: PpeState): string {
    match s
    case Bon => "Bon"
    case Use => "Usé"
    case ARemplacer => "À remplacer"
  }

  /** One kind of equipment; `disponible` of `total` units are available. */
  datatype Item = Item(id: string, nom: string, kind: string, norme: string, zone: string,
                       disponible: int, total: int, etat: PpeState, derniereUtilisation: string)

  /** The zone chip that shows every zone. */
  const AllZones: string := "Toutes"

  function InZone(zone: string): Item -> bool {
    (p: Item) => zone == AllZones || p.zone == zone
  }

  /** `filteredPPE`: everything under "Toutes", otherwise exactly the items
      of the selected zone, in their order. */
  function Filtered(list: seq<Item>, zone: string): (r: seq<Item>)
    ensures zone == AllZones ==> r == list
    ensures zone != AllZones ==> forall p :: p in r <==> p in list && p.zone == zone
    ensures zone != AllZones ==> |r| == |set i | 0 <= i < |list| && list[i].zone == zone|
    ensures Seqs.IsSubsequence(r, list)
  {
    var r := Seqs.Filter(InZone(zone), list);
    Seqs.FilterIsSubsequence(InZone(zone), list);
    Seqs.FilterLength(InZone(zone), list);
    assert zone != AllZones ==> Seqs.Positions(InZone(zone), list) == set i | 0 <= i < |list| && list[i].zone == zone;
    assert zone == AllZones ==> r == list by {
      if zone == AllZones { Seqs.FilterAll(InZone(zone), list); }
    }
    r
  }

  /** The availability colours from worst to best. */
  function Rank(c: string): nat {
    if c == Palette.Red then 0 else if c == Palette.Amber then 1 else 2
  }

  /** `getAvailabilityColor(disponible, total)`. The ratio is a JavaScript
      division: with `total` zero it is NaN (nothing in stock) or an infinity
      of the stock's sign, which compares neither equal to zero nor, when
      positive, below 0.3. The comparisons are done on integers by
      cross-multiplying with the sign of `total`. */
  function AvailabilityColor(disponible: int, total: int): (c: string)
    ensures c == Palette.Red || c == Palette.Amber || c == Palette.Green
    ensures total != 0 ==> (c == Palette.Red <==> disponible == 0)
    ensures total != 0 ==>
              (c == Palette.Amber <==> disponible != 0 && (disponible as real) / (total as real) < 0.3)
    ensures total != 0 ==> (c == Palette.Green <==> (disponible as real) / (total as real) >= 0.3)
    ensures total == 0 ==> c != Palette.Red && (c == Palette.Amber <==> disponible < 0)
  {
    if total != 0 && disponible == 0 then Palette.Red
    else if (total > 0 && 10 * disponible < 3 * total) || (total < 0 && 10 * disponible > 3 * total)
         || (total == 0 && disponible < 0) then
      RatioBelow(disponible, total);
      Palette.Amber
    else
      RatioBelow(disponible, total);
      Palette.Green
  }

  /** The integer test the colour uses is the real comparison `d / t < 0.3`. */
  lemma RatioBelow(d: int, t: int)
    ensures t > 0 ==> ((d as real) / (t as real) < 0.3 <==> 10 * d < 3 * t)
    ensures t < 0 ==> ((d as real) / (t as real) < 0.3 <==> 10 * d > 3 * t)
  {
    if t > 0 {
      QuotientBelow(d as real, t as real, 0.3);
    } else if t < 0 {
      QuotientBelow(-d as real, -t as real, 0.3);
      assert (-d as real) / (-t as real) == (d as real) / (t as real);
    }
  }

  /** Dividing by a positive number keeps the order of a comparison. */
  lemma QuotientBelow(x: real, y: real, k: real)
    requires y > 0.0
    ensures x / y < k <==> x < k * y
  {
    var q := x / y;
    assert q * y == x;
    if q < k {
      assert q * y < k * y;
    } else {
      assert q * y >= k * y;
    }
  }

  /** With a positive total, more stock never gives a worse colour. */
  lemma {:induction false} AvailabilityMonotone(d1: int, d2: int, total: int)
    requires 0 <= d1 <= d2 && total > 0
    ensures Rank(AvailabilityColor(d1, total)) <= Rank(AvailabilityColor(d2, total))
  {
    RatioBelow(d1, total);
    RatioBelow(d2, total);
  }

  function OutOfStock(): Item -> bool {
    (p: Item) => p.disponible == 0
  }

  /** The number in the banner and on the "En rupture" card: the items with
      nothing available. */
  function OutOfStockCount(list: seq<Item>): (n: nat)
    ensures n <= |list|
    ensures n == 0 <==> forall i :: 0 <= i < |list| ==> list[i].disponible != 0
    ensures n == |set i | 0 <= i < |list| && list[i].disponible == 0|
  {
    var kept := Seqs.Filter(OutOfStock(), list);
    assert |kept| == |set i | 0 <= i < |list| && list[i].disponible == 0| by {
      assert |kept| == Seqs.Count(OutOfStock(), list) == |Seqs.Positions(OutOfStock(), list)|;
      assert Seqs.Positions(OutOfStock(), list) == set i | 0 <= i < |list| && list[i].disponible == 0;
    }
    assert |kept| == 0 <==> forall i :: 0 <= i < |list| ==> list[i].disponible != 0 by {
      if |kept| > 0 {
        assert kept[0] in kept;
      }
      if exists i :: 0 <= i < |list| && list[i].disponible == 0 {
        var i :| 0 <= i < |list| && list[i].disponible == 0;
        assert list[i] in kept;
      }
    }
    |kept|
  }

  function IsGood(): Item -> bool {
    (p: Item) => p.etat == Bon
  }

  /** The "En bon état" card. */
  function GoodCount(list: seq<Item>): (n: nat)
    ensures n <= |list|
    ensures n == |list| <==> forall i :: 0 <= i < |list| ==> list[i].etat == Bon
    ensures n == |set i | 0 <= i < |list| && list[i].etat == Bon|
  {
    var kept := Seqs.Filter(IsGood(), list);
    assert |kept| == |set i | 0 <= i < |list| && list[i].etat == Bon| by {
      assert |kept| == Seqs.Count(IsGood(), list) == |Seqs.Positions(IsGood(), list)|;
      assert Seqs.Positions(IsGood(), list) == set i | 0 <= i < |list| && list[i].etat == Bon;
    }
    assert |kept| == |list| <==> forall i :: 0 <= i < |list| ==> list[i].etat == Bon by {
      GoodCountFull(list);
    }
    |kept|
  }

  /** The filter keeps everything exactly when every item passes it. */
  lemma {:induction false} GoodCountFull(list: seq<Item>)
    ensures |Seqs.Filter(IsGood(), list)| == |list| <==> forall i :: 0 <= i < |list| ==> list[i].etat == Bon
  {
    if |list| > 0 {
      GoodCountFull(list[1..]);
      assert forall i :: 1 <= i < |list| ==> list[i] == list[1..][i - 1];
      if forall i :: 0 <= i < |list| ==> list[i].etat == Bon {
        assert forall i :: 0 <= i < |list[1..]| ==> list[1..][i].etat == Bon by {
          forall i | 0 <= i < |list[1..]| ensures list[1..][i].etat == Bon {
            assert list[1..][i] == list[i + 1];
          }
        }
      }
    }
  }

  function ShowsRed(): Item -> bool {
    (p: Item) => AvailabilityColor(p.disponible, p.total) == Palette.Red
  }

  /** When every total is non-zero, the out-of-stock count is the number of
      cards whose availability is drawn red. */
  lemma {:induction false} OutOfStockIsRedCards(list: seq<Item>)
    requires forall i :: 0 <= i < |list| ==> list[i].total != 0
    ensures OutOfStockCount(list) == Seqs.Count(ShowsRed(), list)
  {
    if |list| > 0 {
      assert forall i :: 0 <= i < |list[1..]| ==> list[1..][i].total != 0 by {
        forall i | 0 <= i < |list[1..]| ensures list[1..][i].total != 0 {
          assert list[1..][i] == list[i + 1];
        }
      }
      OutOfStockIsRedCards(list[1..]);
      assert list[0].total != 0;
    }
  }

  /** `getStateColor`, a total map from any label to a colour. */
  function StateColor(etat: string): (c: string)
    ensures Palette.IsPaletteColour(c)
    ensures c == Palette.Green <==> etat == "Bon"
    ensures c == Palette.Amber <==> etat == "Usé"
    ensures c == Palette.Red <==> etat == "À remplacer"
    ensures c == Palette.Grey <==> forall s: PpeState :: Label(s) != etat
  {
    if etat == "Bon" then assert Label(Bon) == etat; Palette.Green
    else if etat == "Usé" then assert Label(Use) == etat; Palette.Amber
    else if etat == "À remplacer" then assert Label(ARemplacer) == etat; Palette.Red
    else Palette.Grey
  }
}
