/** The single-qubit collapse (src/QuantumMechanics/Superposition.py): the
    simulator's measurement counts come in as a parameter and the collapse
    decides between 0 and 1 from them. */
module Superposition {
  import opened Wrappers

  /** A count the simulator did not report is taken as 0. */
  function Count(counts: map<string, int>, key: string): (n: int)
    ensures key !in counts ==> n == 0
    ensures key in counts ==> n == counts[key]
  {
    if key in counts then counts[key] else 0
  }

  /** `collapse_qubit`: 0 when '0' was seen strictly more often than '1',
      otherwise 1 (a tie, both counts missing included, gives 1). */
  function CollapseQubit(counts: map<string, int>): (r: int)
    ensures r == 0 || r == 1
    ensures r == 0 <==> Count(counts, "0") > Count(counts, "1")
  {
    var zeros := Count(counts, "0");
    var ones := Count(counts, "1");
    if zeros > ones then 0 else 1
  }

  /** The collapsed state as the calling card stores it: a Python integer,
      never one of the strings the card tables test for. */
  function CollapsedValue(counts: map<string, int>): (v: PyValue)
    ensures v == PyInt(0) || v == PyInt(1)
    ensures v != PyStr("0") && v != PyStr("1")
  {
    PyInt(CollapseQubit(counts))
  }

  /** Ties, including an empty result, collapse to 1. */
  lemma TieCollapsesToOne(counts: map<string, int>)
    requires Count(counts, "0") == Count(counts, "1")
    ensures CollapseQubit(counts) == 1
  {
  }

  /** The collapse as the card tables expect it: the measured bit string
      itself, chosen as the most frequent of the possible labels (a tie goes
      to the later label, as `collapse_qubit` gives a tie to '1'). */
  function CollapseLabel(counts: map<string, int>, labels: seq<string>): (r: string)
    requires |labels| > 0
    decreases |labels|
    ensures r in labels
    ensures forall i :: 0 <= i < |labels| ==> Count(counts, labels[i]) <= Count(counts, r)
  {
    if |labels| == 1 then labels[0]
    else
      var best := CollapseLabel(counts, labels[..|labels| - 1]);
      var last := labels[|labels| - 1];
      assert forall i :: 0 <= i < |labels| - 1 ==> labels[i] == labels[..|labels| - 1][i];
      if Count(counts, last) >= Count(counts, best) then last else best
  }

  const QubitLabels: seq<string> := ["0", "1"]

  /** On one qubit the label collapse picks the same outcome as
      `collapse_qubit`, as a string instead of an integer. */
  lemma LabelMatchesQubit(counts: map<string, int>)
    ensures CollapseLabel(counts, QubitLabels) == if CollapseQubit(counts) == 0 then "0" else "1"
  {
    assert QubitLabels[..1] == ["0"];
  }

  /** With two-qubit counts (keys such as '00') `collapse_qubit` sees neither
      '0' nor '1' and always answers 1. */
  lemma TwoQubitCountsGiveOne(counts: map<string, int>)
    requires "0" !in counts && "1" !in counts
    ensures CollapseQubit(counts) == 1
  {
  }
}
