/** The maintenance screen: equipment with one of three states, a state
    filter, the alert count and banner, per-state counts, the status update
    and the state colour and icon tables. */
module Maintenance {
  import opened Wrappers
  import Seqs
  import Text
  import Palette

  datatype Status = Fonctionnel | EnMaintenance | EnPanne

  /** The label a state is written and compared as. */
  function Label(s: Status): string {
    match s
    case Fonctionnel => "Fonctionnel"
    case EnMaintenance => "En maintenance"
    case EnPanne => "En panne"
  }

  datatype Equipment = Equipment(id: string, nom: string, kind: string, etat: Status,
                                 derniereMaintenance: string, prochaineMaintenance: string,
                                 zone: string, alerteActive: bool)

  /** The filter chips: "Tous" or one state. */
  datatype StatusFilter = Tous | Only(status: Status)

  function InFilter(f: StatusFilter): Equipment -> bool {
    (e: Equipment) => f.Tous? || e.etat == f.status
  }

  /** `filteredEquipments`. */
  function Filtered(list: seq<Equipment>, f: StatusFilter): (r: seq<Equipment>)
    ensures f.Tous? ==> r == list
    ensures f.Only? ==> forall e :: e in r <==> e in list && e.etat == f.status
    ensures f.Only? ==> |r| == |set i | 0 <= i < |list| && list[i].etat == f.status|
    ensures Seqs.IsSubsequence(r, list)
  {
    var r := Seqs.Filter(InFilter(f), list);
    Seqs.FilterIsSubsequence(InFilter(f), list);
    Seqs.FilterLength(InFilter(f), list);
    assert f.Tous? ==> r == list by {
      if f.Tous? { Seqs.FilterAll(InFilter(f), list); }
    }
    assert f.Only? ==> Seqs.Positions(InFilter(f), list) == set i | 0 <= i < |list| && list[i].etat == f.status;
    r
  }

  /** The filtered list keeps the screen's order. */
  lemma FilteredKeepsOrder(list: seq<Equipment>, f: StatusFilter)
    ensures Seqs.IsSubsequence(Filtered(list, f), list)
  {
    Seqs.FilterIsSubsequence(InFilter(f), list);
  }

  function HasAlert(): Equipment -> bool {
    (e: Equipment) => e.alerteActive
  }

  /** `alertsCount`: the equipment with an active alert. */
  function AlertsCount(list: seq<Equipment>): (n: nat)
    ensures n <= |list|
    ensures n == 0 <==> forall i :: 0 <= i < |list| ==> !list[i].alerteActive
    ensures n == |set i | 0 <= i < |list| && list[i].alerteActive|
  {
    var kept := Seqs.Filter(HasAlert(), list);
    assert |kept| == |set i | 0 <= i < |list| && list[i].alerteActive| by {
      assert |kept| == Seqs.Count(HasAlert(), list) == |Seqs.Positions(HasAlert(), list)|;
      assert Seqs.Positions(HasAlert(), list) == set i | 0 <= i < |list| && list[i].alerteActive;
    }
    assert |kept| == 0 <==> forall i :: 0 <= i < |list| ==> !list[i].alerteActive by {
      if |kept| > 0 {
        assert kept[0] in kept;
      }
      if exists i :: 0 <= i < |list| && list[i].alerteActive {
        var i :| 0 <= i < |list| && list[i].alerteActive;
        assert list[i] in kept;
      }
    }
    |kept|
  }

  function HasStatus(s: Status): Equipment -> bool {
    (e: Equipment) => e.etat == s
  }

  /** One of the three statistic cards. */
  function StatusCount(list: seq<Equipment>, s: Status): (n: nat)
    ensures n <= |list|
    ensures n == |set i | 0 <= i < |list| && list[i].etat == s|
  {
    var n := Seqs.Count(HasStatus(s), list);
    assert Seqs.Positions(HasStatus(s), list) == set i | 0 <= i < |list| && list[i].etat == s;
    n
  }

  /** The three cards add up to the number of equipment, since every item is
      in exactly one state. */
  lemma {:induction false} StatusCountsSum(list: seq<Equipment>)
    ensures StatusCount(list, Fonctionnel) + StatusCount(list, EnMaintenance) + StatusCount(list, EnPanne) == |list|
  {
    if |list| > 0 {
      StatusCountsSum(list[1..]);
    }
  }

  /** `getStatusColor`, a total map from any label to a colour. */
  function StatusColor(etat: string): (c: string)
    ensures Palette.IsPaletteColour(c)
    ensures c == Palette.Green <==> etat == "Fonctionnel"
    ensures c == Palette.Amber <==> etat == "En maintenance"
    ensures c == Palette.Red <==> etat == "En panne"
    ensures c == Palette.Grey <==> forall s: Status :: Label(s) != etat
  {
    if etat == "Fonctionnel" then assert Label(Fonctionnel) == etat; Palette.Green
    else if etat == "En maintenance" then assert Label(EnMaintenance) == etat; Palette.Amber
    else if etat == "En panne" then assert Label(EnPanne) == etat; Palette.Red
    else Palette.Grey
  }

  /** `getStatusIcon`, a total map from any label to an icon name. */
  function StatusIcon(etat: string): (icon: string)
    ensures icon == "help" <==> forall s: Status :: Label(s) != etat
    ensures etat == "Fonctionnel" ==> icon == "check-circle"
    ensures etat == "En maintenance" ==> icon == "build"
    ensures etat == "En panne" ==> icon == "error"
  {
    if etat == "Fonctionnel" then assert Label(Fonctionnel) == etat; "check-circle"
    else if etat == "En maintenance" then assert Label(EnMaintenance) == etat; "build"
    else if etat == "En panne" then assert Label(EnPanne) == etat; "error"
    else "help"
  }

  /** Each state gets its own badge: colour and icon tell the states apart. */
  lemma {:induction false} BadgesDistinguishStates(a: Status, b: Status)
    requires a != b
    ensures StatusColor(Label(a)) != StatusColor(Label(b))
    ensures StatusIcon(Label(a)) != StatusIcon(Label(b))
    ensures StatusColor(Label(a)) != Palette.Grey && StatusIcon(Label(a)) != "help"
  {
    assert Label(a) != Label(b) by {
      match a
      case Fonctionnel => {}
      case EnMaintenance => {}
      case EnPanne => {}
    }
  }

  /** `updateEquipmentStatus(id, newStatus)`: only the state of the items
      with that id changes. */
  function UpdateEquipmentStatus(list: seq<Equipment>, id: string, newStatus: Status): (r: seq<Equipment>)
    ensures |r| == |list|
    ensures forall i :: 0 <= i < |list| && list[i].id != id ==> r[i] == list[i]
    ensures forall i :: 0 <= i < |list| && list[i].id == id ==> r[i] == list[i].(etat := newStatus)
  {
    if |list| == 0 then []
    else
      var head := if list[0].id == id then list[0].(etat := newStatus) else list[0];
      [head] + UpdateEquipmentStatus(list[1..], id, newStatus)
  }

  /** An update touches neither alerts nor the equipment count. */
  lemma {:induction false} UpdateKeepsAlerts(list: seq<Equipment>, id: string, newStatus: Status)
    ensures AlertsCount(UpdateEquipmentStatus(list, id, newStatus)) == AlertsCount(list)
  {
    if |list| > 0 {
      UpdateKeepsAlerts(list[1..], id, newStatus);
      var r := UpdateEquipmentStatus(list, id, newStatus);
      assert r[1..] == UpdateEquipmentStatus(list[1..], id, newStatus);
    }
  }

  /** The banner's wording after the count: both plural endings of the
      template switch on the same `alertsCount > 1`. */
  const OneNeedsAttention: string := " équipement nécessite une attention"
  const SeveralNeedAttention: string := " équipements nécessitent une attention"

  /** The alert banner text, shown only when some equipment has an alert;
      it starts with the count in decimal. */
  function AlertBanner(list: seq<Equipment>): (r: Option<string>)
    ensures r.Some? <==> exists i :: 0 <= i < |list| && list[i].alerteActive
    ensures r.Some? ==> Text.StartsWith(r.value, Text.NatToString(AlertsCount(list)))
    ensures AlertsCount(list) == 1 ==> r == Some("1" + OneNeedsAttention)
    ensures AlertsCount(list) > 1 ==> r == Some(Text.NatToString(AlertsCount(list)) + SeveralNeedAttention)
  {
    var n := AlertsCount(list);
    if n == 0 then None
    else
      assert n == 1 ==> Text.NatToString(n) == "1";
      Some(Text.NatToString(n) + (if n > 1 then SeveralNeedAttention else OneNeedsAttention))
  }
}
