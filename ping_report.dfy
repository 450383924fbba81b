/** Reading the mean round-trip time out of the text that `ping -c10` prints
    (lines 434-440 of net-man-backend/src/backend.py). */
module PingReport {
  import opened Base
  import opened Text

  const Marker: string := "ping statistics"

  /** `report.split("ping statistics", 1)[1].split("/")[4]`: the fifth
      '/'-separated field of the text after the first marker. */
  function ExtractAverage(report: string): (r: Result<string>)
    ensures r.Ok? ==> '/' !in r.value
    ensures r.Ok? ==> Contains(report, Marker)
    ensures !Contains(report, Marker) ==> r == Err(MissingMarker)
  {
    match FindFirst(report, Marker)
    case None => Err(MissingMarker)
    case Some(k) =>
      var fields := Split(report[k + |Marker|..], '/');
      if |fields| < 5 then Err(TooFewFields) else Ok(fields[4])
  }

  /** When the marker does not occur before `pre` ends, the first marker is the one right after `pre`. */
  lemma FirstMarkerAt(pre: string, rest: string)
    requires !Contains(pre + Marker[..|Marker| - 1], Marker)
    ensures FindFirst(pre + Marker + rest, Marker) == Some(|pre|)
  {
    var report := pre + Marker + rest;
    var head := pre + Marker[..|Marker| - 1];
    assert report[|pre|..|pre| + |Marker|] == Marker;
    assert report == head + [Marker[|Marker| - 1]] + rest;
    forall j | 0 <= j < |pre|
      ensures !OccursAt(report, Marker, j)
    {
      assert !OccursAt(head, Marker, j);
      assert report[j..j + |Marker|] == head[j..j + |Marker|];
    }
    assert OccursAt(report, Marker, |pre|);
  }

  /** A report whose text after the first marker is five or more '/'-separated
      fields yields the fifth field. */
  lemma ExtractFromFields(pre: string, fields: seq<string>)
    requires !Contains(pre + Marker[..|Marker| - 1], Marker)
    requires |fields| >= 5 && forall k :: 0 <= k < |fields| ==> '/' !in fields[k]
    ensures ExtractAverage(pre + Marker + Join(fields, '/')) == Ok(fields[4])
  {
    var rest := Join(fields, '/');
    FirstMarkerAt(pre, rest);
    assert (pre + Marker + rest)[|pre| + |Marker|..] == rest;
    SplitJoin(fields, '/');
  }

  /** Fewer than four '/' after the first marker is an error. */
  lemma ExtractNeedsFourSlashes(pre: string, rest: string)
    requires !Contains(pre + Marker[..|Marker| - 1], Marker)
    requires Count(rest, '/') < 4
    ensures ExtractAverage(pre + Marker + rest) == Err(TooFewFields)
  {
    FirstMarkerAt(pre, rest);
    assert (pre + Marker + rest)[|pre| + |Marker|..] == rest;
    SplitLength(rest, '/');
  }
}
