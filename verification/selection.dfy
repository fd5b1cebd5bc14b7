/**
 * The client's summary of a session: the flat series of samples it plots, the
 * labels of the points ("burst.message", both counted from 1), and the marker
 * positions that pick out the first sample of least delay in every burst.
 *
 * The session is the sequence of bursts in counter order, which is the order
 * in which the dictionary of bursts yields its keys.
 */
module Selection {
  import opened Results
  import opened Exchange

  /** The label of a plotted point: burst number and message number, both from 1. */
  datatype Label = Label(burst: int, message: int)

  /** Why no marker list exists: a burst holds no sample, so it has no least delay to mark. */
  datatype MarkerError = EmptyBurst(key: nat)

  /** The samples of all bursts, one after another. */
  function Flatten(bursts: seq<seq<Sample>>): (series: seq<Sample>)
    ensures bursts == [] ==> series == []
  {
    if bursts == [] then [] else Flatten(bursts[..|bursts| - 1]) + bursts[|bursts| - 1]
  }

  /** The label of every sample in `Flatten(bursts)`. */
  function Labels(bursts: seq<seq<Sample>>): (labels: seq<Label>)
    ensures |labels| == |Flatten(bursts)|
  {
    if bursts == [] then []
    else
      var key := |bursts| - 1;
      Labels(bursts[..key]) + seq(|bursts[key]|, ind => Label(key + 1, ind + 1))
  }

  /** `i` is the first position of least delay in `burst`. */
  predicate IsFirstMinDelay(burst: seq<Sample>, i: int)
  {
    && 0 <= i < |burst|
    && (forall j :: 0 <= j < |burst| ==> burst[i].delayMs <= burst[j].delayMs)
    && (forall j :: 0 <= j < i ==> burst[i].delayMs < burst[j].delayMs)
  }

  /** A burst has at most one first position of least delay. */
  lemma FirstMinDelayUnique(burst: seq<Sample>, i: int, k: int)
    requires IsFirstMinDelay(burst, i) && IsFirstMinDelay(burst, k)
    ensures i == k
  {
    assert burst[i].delayMs <= burst[k].delayMs && burst[k].delayMs <= burst[i].delayMs;
  }

  /**
   * The x and y series of the plot: every sample of every burst in order, each
   * labelled with its burst and message numbers.
   */
  method PlotSeries(oiDi: seq<seq<Sample>>) returns (xvalues: seq<Label>, yvalues: seq<Sample>)
    ensures yvalues == Flatten(oiDi)
    ensures xvalues == Labels(oiDi)
  {
    xvalues, yvalues := [], [];
    for key := 0 to |oiDi|
      invariant yvalues == Flatten(oiDi[..key])
      invariant xvalues == Labels(oiDi[..key])
    {
      assert oiDi[..key + 1][..key] == oiDi[..key];
      for ind := 0 to |oiDi[key]|
        invariant yvalues == Flatten(oiDi[..key]) + oiDi[key][..ind]
        invariant xvalues == Labels(oiDi[..key]) + seq(ind, j => Label(key + 1, j + 1))
      {
        xvalues := xvalues + [Label(key + 1, ind + 1)];
        yvalues := yvalues + [oiDi[key][ind]];
        assert oiDi[key][..ind + 1] == oiDi[key][..ind] + [oiDi[key][ind]];
      }
      assert oiDi[key][..|oiDi[key]|] == oiDi[key];
    }
    assert oiDi[..|oiDi|] == oiDi;
  }

  /**
   * The inner loop of the marker computation: the position of the first sample
   * whose delay is below every earlier one, starting from an infinite bound
   * (`None`), so that only a strictly smaller delay moves the choice.
   */
  method FirstMinDelay(burst: seq<Sample>) returns (finalIndex: Option<nat>)
    ensures finalIndex.None? <==> burst == []
    ensures finalIndex.Some? ==> IsFirstMinDelay(burst, finalIndex.value)
  {
    var minDelay: Option<real> := None;
    finalIndex := None;
    for ind := 0 to |burst|
      invariant finalIndex.None? <==> ind == 0
      invariant minDelay.None? <==> ind == 0
      invariant finalIndex.Some? ==>
        && finalIndex.value < ind && minDelay.Some? && minDelay.value == burst[finalIndex.value].delayMs
        && (forall j :: 0 <= j < ind ==> minDelay.value <= burst[j].delayMs)
        && (forall j :: 0 <= j < finalIndex.value ==> minDelay.value < burst[j].delayMs)
    {
      var yval := burst[ind];
      if minDelay.None? || yval.delayMs < minDelay.value {
        minDelay := Some(yval.delayMs);
        finalIndex := Some(ind);
      }
    }
  }

  /**
   * markers_on: for burst `key`, `key * 8` plus the first position of least
   * delay. A burst with no sample makes the addition fail, which ends the
   * computation with that burst's key.
   */
  method MarkerPositions(oiDi: seq<seq<Sample>>) returns (r: Result<seq<int>, MarkerError>)
    ensures r.Err? <==> exists k :: 0 <= k < |oiDi| && oiDi[k] == []
    ensures r.Err? ==> r.error.key < |oiDi| && oiDi[r.error.key] == []
                       && forall k :: 0 <= k < r.error.key ==> oiDi[k] != []
    ensures r.Ok? ==> |r.value| == |oiDi|
                      && forall k :: 0 <= k < |oiDi| ==> IsFirstMinDelay(oiDi[k], r.value[k] - k * 8)
  {
    var markersOn: seq<int> := [];
    for key := 0 to |oiDi|
      invariant |markersOn| == key
      invariant forall k :: 0 <= k < key ==> oiDi[k] != [] && IsFirstMinDelay(oiDi[k], markersOn[k] - k * 8)
    {
      var finalIndex := FirstMinDelay(oiDi[key]);
      if finalIndex.None? {
        return Err(EmptyBurst(key));
      }
      markersOn := markersOn + [key * 8 + finalIndex.value];
    }
    return Ok(markersOn);
  }

  /** With eight samples in every burst, burst `k`'s sample `i` sits at position `8 * k + i` of the series. */
  lemma {:induction false} FlattenUniform(bursts: seq<seq<Sample>>, k: nat, i: nat)
    requires forall b :: 0 <= b < |bursts| ==> |bursts[b]| == 8
    requires k < |bursts| && i < 8
    ensures |Flatten(bursts)| == 8 * |bursts|
    ensures Flatten(bursts)[8 * k + i] == bursts[k][i]
    ensures Labels(bursts)[8 * k + i] == Label(k + 1, i + 1)
    decreases |bursts|
  {
    var last := |bursts| - 1;
    var front := bursts[..last];
    if k == last {
      if last > 0 {
        FlattenUniform(front, 0, 0);
      }
    } else {
      FlattenUniform(front, k, i);
    }
  }

  /**
   * The markers point at the samples they mean only when every burst holds
   * eight samples: then marker `k` is a position of the plotted series holding
   * a sample of burst `k` with the least delay of that burst, labelled with
   * burst number `k + 1`.
   */
  lemma MarkersPointAtLeastDelay(oiDi: seq<seq<Sample>>, markers: seq<int>, k: nat)
    requires forall b :: 0 <= b < |oiDi| ==> |oiDi[b]| == 8
    requires |markers| == |oiDi| && forall b :: 0 <= b < |oiDi| ==> IsFirstMinDelay(oiDi[b], markers[b] - b * 8)
    requires k < |oiDi|
    ensures 0 <= markers[k] < |Flatten(oiDi)|
    ensures Flatten(oiDi)[markers[k]] in oiDi[k]
    ensures forall j :: 0 <= j < 8 ==> Flatten(oiDi)[markers[k]].delayMs <= oiDi[k][j].delayMs
    ensures Labels(oiDi)[markers[k]] == Label(k + 1, markers[k] - 8 * k + 1)
  {
    FlattenUniform(oiDi, k, markers[k] - k * 8);
  }
}
