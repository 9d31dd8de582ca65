/**
 * Sentiment scoring of one country's titles (`analyze_with_local_model`).
 * The classifier is outside the model: its output is the sequence of labels
 * it returned, one per title. Scores are counted in hundredths, so each
 * classified title's fixed contribution of 0.01 is the integer 1.
 */
module Scoring {
  import opened Wrappers

  const NegativeLabel: string := "NEGATIVE"
  const PositiveLabel: string := "POSITIVE"

  /** The fixed contribution of one classified title, in hundredths (0.01). */
  const PerItemContribution: nat := 1

  /** A title with the points it contributed, in hundredths. */
  datatype ScoredTitle = ScoredTitle(title: string, contribution: nat)

  /** `zip(results, texts)`: pairs up to the shorter of the two lists. */
  function Zip(results: seq<string>, texts: seq<string>): (z: seq<(string, string)>)
    ensures |z| == Min(|results|, |texts|)
    ensures forall i :: 0 <= i < |z| ==> z[i] == (results[i], texts[i])
  {
    seq(Min(|results|, |texts|), i requires 0 <= i < Min(|results|, |texts|) => (results[i], texts[i]))
  }

  /** The texts labelled `wanted`, in order, each with the fixed contribution. */
  function Labelled(z: seq<(string, string)>, wanted: string): (ts: seq<ScoredTitle>)
  {
    if z == [] then []
    else
      var last := z[|z| - 1];
      Labelled(z[..|z| - 1], wanted)
        + (if last.0 == wanted then [ScoredTitle(last.1, PerItemContribution)] else [])
  }

  /** How many pairs carry the label `wanted`. */
  function CountLabel(z: seq<(string, string)>, wanted: string): (n: nat)
  {
    if z == [] then 0
    else CountLabel(z[..|z| - 1], wanted) + (if z[|z| - 1].0 == wanted then 1 else 0)
  }

  /** Sum of the contributions of a list of scored titles. */
  function TotalContribution(ts: seq<ScoredTitle>): (total: nat)
  {
    if ts == [] then 0 else TotalContribution(ts[..|ts| - 1]) + ts[|ts| - 1].contribution
  }

  /**
   * The loop of `analyze_with_local_model`: every NEGATIVE label adds 0.01
   * to the score and records its text, every POSITIVE label records its text,
   * any other label is ignored.
   */
  method AnalyzeWithLocalModel(texts: seq<string>, results: seq<string>)
    returns (threatPercentage: nat, negativeTitles: seq<ScoredTitle>, positiveTitles: seq<ScoredTitle>)
    ensures threatPercentage == PerItemContribution * CountLabel(Zip(results, texts), NegativeLabel)
    ensures negativeTitles == Labelled(Zip(results, texts), NegativeLabel)
    ensures positiveTitles == Labelled(Zip(results, texts), PositiveLabel)
  {
    var z := Zip(results, texts);
    threatPercentage := 0;
    negativeTitles := [];
    positiveTitles := [];
    var i := 0;
    while i < |z|
      invariant 0 <= i <= |z|
      invariant threatPercentage == PerItemContribution * CountLabel(z[..i], NegativeLabel)
      invariant negativeTitles == Labelled(z[..i], NegativeLabel)
      invariant positiveTitles == Labelled(z[..i], PositiveLabel)
    {
      assert z[..i + 1][..i] == z[..i];
      var (result, text) := z[i];
      if result == NegativeLabel {
        threatPercentage := threatPercentage + PerItemContribution;
        negativeTitles := negativeTitles + [ScoredTitle(text, PerItemContribution)];
      } else if result == PositiveLabel {
        positiveTitles := positiveTitles + [ScoredTitle(text, PerItemContribution)];
      }
      i := i + 1;
    }
    assert z[..i] == z;
  }

  /** The score is the number of NEGATIVE labels times 0.01, which is the sum of the negative list. */
  lemma {:induction false} ScoreIsNegativeListTotal(z: seq<(string, string)>)
    ensures |Labelled(z, NegativeLabel)| == CountLabel(z, NegativeLabel)
    ensures TotalContribution(Labelled(z, NegativeLabel)) == PerItemContribution * CountLabel(z, NegativeLabel)
  {
    if z != [] {
      var p := z[..|z| - 1];
      ScoreIsNegativeListTotal(p);
      var l := Labelled(p, NegativeLabel);
      var extra := if z[|z| - 1].0 == NegativeLabel then [ScoredTitle(z[|z| - 1].1, PerItemContribution)] else [];
      assert Labelled(z, NegativeLabel) == l + extra;
      if extra == [] {
        assert l + extra == l;
      } else {
        assert (l + extra)[..|l + extra| - 1] == l;
      }
    }
  }

  /** The lists hold exactly the texts with that label, each worth 0.01. */
  lemma {:induction false} LabelledMembership(z: seq<(string, string)>, wanted: string, t: ScoredTitle)
    ensures t in Labelled(z, wanted) <==>
      t.contribution == PerItemContribution && exists i :: 0 <= i < |z| && z[i] == (wanted, t.title)
  {
    if z != [] {
      var p := z[..|z| - 1];
      LabelledMembership(p, wanted, t);
      if t.contribution == PerItemContribution && z[|z| - 1] != (wanted, t.title) {
        if exists i :: 0 <= i < |z| && z[i] == (wanted, t.title) {
          var i :| 0 <= i < |z| && z[i] == (wanted, t.title);
          assert p[i] == z[i];
        }
      }
      if exists i :: 0 <= i < |p| && p[i] == (wanted, t.title) {
        var i :| 0 <= i < |p| && p[i] == (wanted, t.title);
        assert z[i] == p[i];
      }
    }
  }

  /**
   * NEGATIVE and POSITIVE titles together never outnumber the texts, and
   * they account for all of them exactly when no other label occurs.
   */
  lemma {:induction false} ListsBoundedByTexts(z: seq<(string, string)>)
    ensures |Labelled(z, NegativeLabel)| + |Labelled(z, PositiveLabel)| <= |z|
    ensures |Labelled(z, NegativeLabel)| + |Labelled(z, PositiveLabel)| == |z| <==>
      forall i :: 0 <= i < |z| ==> z[i].0 == NegativeLabel || z[i].0 == PositiveLabel
  {
    if z != [] {
      var p := z[..|z| - 1];
      ListsBoundedByTexts(p);
      assert forall i :: 0 <= i < |p| ==> p[i] == z[i];
    }
  }

  /** Five titles, three labelled NEGATIVE and two POSITIVE: a score of 0.03, three and two scored titles. */
  lemma FiveTitlesExample(texts: seq<string>)
    requires |texts| == 5
    ensures var z := Zip([NegativeLabel, PositiveLabel, NegativeLabel, PositiveLabel, NegativeLabel], texts);
      && PerItemContribution * CountLabel(z, NegativeLabel) == 3
      && Labelled(z, NegativeLabel)
         == [ScoredTitle(texts[0], 1), ScoredTitle(texts[2], 1), ScoredTitle(texts[4], 1)]
      && Labelled(z, PositiveLabel) == [ScoredTitle(texts[1], 1), ScoredTitle(texts[3], 1)]
  {
    var z := Zip([NegativeLabel, PositiveLabel, NegativeLabel, PositiveLabel, NegativeLabel], texts);
    assert NegativeLabel != PositiveLabel;
    var n1, n2, n3 := ScoredTitle(texts[0], 1), ScoredTitle(texts[2], 1), ScoredTitle(texts[4], 1);
    var p1, p2 := ScoredTitle(texts[1], 1), ScoredTitle(texts[3], 1);
    assert z[..1][..0] == [];
    assert CountLabel(z[..1], NegativeLabel) == 1 && Labelled(z[..1], NegativeLabel) == [n1];
    assert Labelled(z[..1], PositiveLabel) == [];
    assert z[..2][..1] == z[..1];
    assert CountLabel(z[..2], NegativeLabel) == 1 && Labelled(z[..2], NegativeLabel) == [n1];
    assert Labelled(z[..2], PositiveLabel) == [p1];
    assert z[..3][..2] == z[..2];
    assert CountLabel(z[..3], NegativeLabel) == 2 && Labelled(z[..3], NegativeLabel) == [n1, n2];
    assert Labelled(z[..3], PositiveLabel) == [p1];
    assert z[..4][..3] == z[..3];
    assert CountLabel(z[..4], NegativeLabel) == 2 && Labelled(z[..4], NegativeLabel) == [n1, n2];
    assert Labelled(z[..4], PositiveLabel) == [p1, p2];
    assert z[..|z| - 1] == z[..4];
  }
}
