/** The occupational disease self-test: the symptom selection toggle and the
    table of declaration deadlines. */
module DiseaseTest {
  import Seqs

  /** The declaration deadline of each listed disease. */
  const DelaiMap: map<string, string> := map[
    "Polynévrite (N-Hexane)" := "30 jours",
    "Inflammations Cutanées (Chromates)" := "60 jours",
    "Maladies Respiratoires (Chromates)" := "30 jours",
    "Cancers liés aux Chromates" := "360 mois (30 ans)",
    "Encéphalopathie aiguë" := "30 jours",
    "Anémie (Plomb)" := "12 mois",
    "Néphropathie (Atteinte rénale due au Plomb)" := "60 mois (5 ans)"
  ]

  /** What is shown for a disease the table does not list. */
  const NoDelai: string := "—"

  /** `getDelai(name)`: the listed deadline, or the dash. Every listed
      deadline is a non-empty text, so the `||` fallback only applies to
      unlisted names. */
  function GetDelai(name: string): (r: string)
    ensures name in DelaiMap ==> r == DelaiMap[name]
    ensures name !in DelaiMap ==> r == NoDelai
    ensures r == NoDelai <==> name !in DelaiMap
    ensures r != ""
  {
    if name in DelaiMap && DelaiMap[name] != "" then DelaiMap[name] else NoDelai
  }

  /** The table lists seven diseases; every deadline is in days, months or
      months-and-years. */
  lemma DelaiTableShape()
    ensures |DelaiMap| == 7
    ensures forall n :: n in DelaiMap ==> DelaiMap[n] in {"30 jours", "60 jours", "12 mois", "360 mois (30 ans)", "60 mois (5 ans)"}
  {
    assert DelaiMap.Keys == {"Polynévrite (N-Hexane)", "Inflammations Cutanées (Chromates)",
                             "Maladies Respiratoires (Chromates)", "Cancers liés aux Chromates",
                             "Encéphalopathie aiguë", "Anémie (Plomb)",
                             "Néphropathie (Atteinte rénale due au Plomb)"};
  }

  function Other(idx: int): int -> bool {
    (i: int) => i != idx
  }

  /** `toggleSymptom(idx)`: a selected index is removed, every copy of it;
      an unselected one is appended. */
  function ToggleSymptom(selected: seq<int>, idx: int): (r: seq<int>)
    ensures idx in r <==> idx !in selected
    ensures forall j :: j != idx ==> (j in r <==> j in selected)
    ensures idx !in selected ==> r == selected + [idx]
    ensures idx in selected ==> Seqs.IsSubsequence(r, selected) && |r| < |selected|
    ensures idx in selected ==> |r| == |set i | 0 <= i < |selected| && selected[i] != idx|
  {
    if idx in selected then
      Seqs.FilterIsSubsequence(Other(idx), selected);
      Seqs.FilterLength(Other(idx), selected);
      assert Seqs.Positions(Other(idx), selected) == set i | 0 <= i < |selected| && selected[i] != idx;
      FilterDropsOne(selected, idx);
      Seqs.Filter(Other(idx), selected)
    else selected + [idx]
  }

  /** Removing a present value shortens the sequence. */
  lemma {:induction false} FilterDropsOne(s: seq<int>, idx: int)
    requires idx in s
    ensures |Seqs.Filter(Other(idx), s)| < |s|
  {
    if s[0] != idx {
      FilterDropsOne(s[1..], idx);
    }
  }

  /** Ticking an unticked symptom and unticking it again restores the
      selection. */
  lemma {:induction false} ToggleTwiceRestores(selected: seq<int>, idx: int)
    requires idx !in selected
    ensures ToggleSymptom(ToggleSymptom(selected, idx), idx) == selected
  {
    var once := selected + [idx];
    Seqs.FilterAppend(Other(idx), selected, [idx]);
    Seqs.FilterAll(Other(idx), selected);
    assert Seqs.Filter(Other(idx), [idx]) == [];
  }

  /** No index is selected twice. */
  predicate NoDuplicates(s: seq<int>) {
    forall i, j :: 0 <= i < j < |s| ==> s[i] != s[j]
  }

  /** A selection built by toggles never holds an index twice. */
  lemma {:induction false} ToggleKeepsNoDuplicates(selected: seq<int>, idx: int)
    requires NoDuplicates(selected)
    ensures NoDuplicates(ToggleSymptom(selected, idx))
  {
    if idx in selected {
      SubsequenceNoDuplicates(ToggleSymptom(selected, idx), selected);
    } else {
      var r := selected + [idx];
      forall i, j | 0 <= i < j < |r| ensures r[i] != r[j] {
        if j == |selected| {
          assert r[i] in selected;
        }
      }
    }
  }

  /** A subsequence of a duplicate-free sequence is duplicate-free. */
  lemma {:induction false} SubsequenceNoDuplicates(sub: seq<int>, s: seq<int>)
    requires Seqs.IsSubsequence(sub, s) && NoDuplicates(s)
    ensures NoDuplicates(sub)
    decreases |s|
  {
    if |sub| > 0 {
      assert |s| > 0;
      assert NoDuplicates(s[1..]) by {
        forall i, j | 0 <= i < j < |s[1..]| ensures s[1..][i] != s[1..][j] {
          assert s[1..][i] == s[i + 1] && s[1..][j] == s[j + 1];
        }
      }
      if sub[0] == s[0] {
        SubsequenceNoDuplicates(sub[1..], s[1..]);
        Seqs.SubsequenceElements(sub[1..], s[1..]);
        forall i, j | 0 <= i < j < |sub| ensures sub[i] != sub[j] {
          if i == 0 {
            assert sub[j] == sub[1..][j - 1];
            assert sub[j] in s[1..];
            var k :| 0 <= k < |s[1..]| && s[1..][k] == sub[j];
            assert s[k + 1] == sub[j];
          } else {
            assert sub[i] == sub[1..][i - 1] && sub[j] == sub[1..][j - 1];
          }
        }
      } else {
        SubsequenceNoDuplicates(sub, s[1..]);
      }
    }
  }
}
