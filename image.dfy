/** The single-image path (`displayResults`): one detection run, no
    accumulation; the first face's scores are listed as percentages, or the
    page says that no face was detected. */
module ImageAnalysis {
  import opened Expressions

  /** What the results panel shows under its heading. */
  datatype Report = NoFaceDetected | Lines(lines: seq<(Label, real)>)

  method DisplayResults(detections: seq<Detection>) returns (report: Report)
    ensures report == NoFaceDetected <==> |detections| == 0
    ensures |detections| > 0 ==>
      var s := detections[0].expressions;
      && report.Lines?
      && |report.lines| == |s|
      && (forall i :: 0 <= i < |s| ==> report.lines[i] == (s[i].0, s[i].1 * 100.0))
      && (Confidences(s) ==> forall i :: 0 <= i < |s| ==> 0.0 <= report.lines[i].1 <= 100.0)
  {
    if |detections| == 0 {
      return NoFaceDetected;
    }
    var s := detections[0].expressions;
    var lines := [];
    for i := 0 to |s|
      invariant |lines| == i
      invariant forall k :: 0 <= k < i ==> lines[k] == (s[k].0, s[k].1 * 100.0)
    {
      lines := lines + [(s[i].0, s[i].1 * 100.0)];
    }
    report := Lines(lines);
  }
}
