/**
 * The marker protocol: the wrapped program prints its structured result between a
 * start marker and an end marker, and the service slices the text in between out
 * of the captured standard output.
 */
module Markers {
  import opened Wrappers
  import opened PyStr

  const ResultStart := "__RESULT_START__"
  const ResultEnd := "__RESULT_END__"
  const ErrorStart := "__ERROR_START__"
  const ErrorEnd := "__ERROR_END__"

  /**
   * `if start in output and end in output: output[output.find(start) + len(start):output.find(end)]`:
   * the text between the first start marker and the first end marker, empty when
   * the first end marker comes earlier, None when either marker is missing.
   */
  function ExtractPayload(output: string, start: string, end: string): (r: Option<string>)
    ensures r.Some? <==> Contains(output, start) && Contains(output, end)
    ensures r.Some? && end != [] ==> !Contains(r.value, end)
  {
    if Contains(output, start) && Contains(output, end) then
      var a := Find(output, start) + |start|;
      var b := Find(output, end);
      var payload := PySlice(output, a, b);
      assert end != [] ==> !Contains(payload, end) by {
        if end != [] && a <= b {
          forall k | 0 <= k <= |payload| - |end| ensures !OccursAt(payload, end, k) {
            if OccursAt(payload, end, k) {
              OccursAtSlice(output, a, b, end, k);
            }
          }
        }
      }
      Some(payload)
    else
      None
  }

  /**
   * The payload in terms of the two first occurrences: the text between them, or
   * empty when the end marker comes first.
   */
  lemma ExtractAt(output: string, start: string, end: string, i: int, j: int)
    requires FirstAt(output, start, i) && FirstAt(output, end, j)
    ensures ExtractPayload(output, start, end) == Some(PySlice(output, i + |start|, j))
  {
    assert Contains(output, start) && Contains(output, end);
    var fi, fj := Find(output, start), Find(output, end);
    assert !(fi < i) && !(i < fi);
    assert !(fj < j) && !(j < fj);
  }

  /**
   * Round trip with the wrapper: when the wrapper's start marker is the first in
   * the output and its end marker the first end marker, the payload it printed is
   * recovered exactly, whatever follows.
   */
  lemma {:induction false} ExtractRecoversPayload(pre: string, payload: string, post: string, start: string, end: string)
    requires NoOccurrenceBefore(pre + start, start, |pre|)
    requires NoOccurrenceBefore(pre + start + payload + end, end, |pre + start + payload|)
    ensures ExtractPayload(pre + start + payload + end + post, start, end) == Some(payload)
  {
    var out := pre + start + payload + end + post;
    FirstAtJoin(pre, start, payload + end + post);
    assert pre + start + (payload + end + post) == out;
    FirstAtJoin(pre + start + payload, end, post);
    ExtractAt(out, start, end, |pre|, |pre + start + payload|);
    assert out[|pre + start|..|pre + start + payload|] == payload;
  }

  /**
   * As written, a payload that itself holds the end marker is cut at that inner
   * marker: the service never sees the payload the program printed.
   */
  lemma {:induction false} PayloadHoldingEndIsCut(start: string, payload: string, end: string, post: string)
    requires end != [] && Contains(payload, end)
    ensures ExtractPayload(start + payload + end + post, start, end) != Some(payload)
  {
    var out := start + payload + end + post;
    assert OccursAt(out, start, 0);
    OccursAtSuffix(start + payload, end + post, end, 0);
    assert out == (start + payload) + (end + post);
    assert OccursAt(out, end, |start + payload|);
  }

  /** The text before the end marker in the payload app.py's wrapper prints for `return "__RESULT_END__"`. */
  const ResultFieldOpening := "{\"result\": \""

  /** The payload app.py's wrapper prints for `def main():\n    return "__RESULT_END__"`. */
  const EndMarkerResultPayload := ResultFieldOpening + ResultEnd + "\", \"stdout\": \"\", \"error\": null}"

  /** That script's result never reaches the caller intact. */
  lemma ReturningEndMarkerLosesResult()
    ensures ExtractPayload(ResultStart + EndMarkerResultPayload + ResultEnd + "\n", ResultStart, ResultEnd)
         != Some(EndMarkerResultPayload)
  {
    OccursAtSuffix(ResultFieldOpening, ResultEnd + "\", \"stdout\": \"\", \"error\": null}", ResultEnd, 0);
    assert OccursAt(EndMarkerResultPayload, ResultEnd, |ResultFieldOpening|);
    PayloadHoldingEndIsCut(ResultStart, EndMarkerResultPayload, ResultEnd, "\n");
  }

  /**
   * Corrected extraction: the text between the first start marker and the LAST
   * end marker (`output.rfind(end)`), which is the one the wrapper prints last.
   */
  function ExtractPayloadToLastEnd(output: string, start: string, end: string): (r: Option<string>)
    ensures r.Some? <==> Contains(output, start) && Contains(output, end)
  {
    if Contains(output, start) && Contains(output, end) then
      Some(PySlice(output, Find(output, start) + |start|, RFind(output, end)))
    else
      None
  }

  /**
   * The corrected payload in terms of the first start marker and the last end
   * marker: the text between them, or empty when that end marker comes first.
   */
  lemma ExtractToLastAt(output: string, start: string, end: string, i: int, j: int)
    requires FirstAt(output, start, i) && OccursAt(output, end, j) && NoOccurrenceAfter(output, end, j)
    ensures ExtractPayloadToLastEnd(output, start, end) == Some(PySlice(output, i + |start|, j))
  {
    assert Contains(output, start) && Contains(output, end);
    var fi, fj := Find(output, start), RFind(output, end);
    assert !(fi < i) && !(i < fi);
    assert !(fj < j) && !(j < fj);
  }

  /**
   * With the corrected extraction the wrapper's payload is recovered whatever it
   * holds, markers included, provided nothing before the wrapper's line prints a
   * start marker and nothing after it prints an end marker.
   */
  lemma {:induction false} LastEndRecoversAnyPayload(pre: string, payload: string, post: string, start: string, end: string)
    requires NoOccurrenceBefore(pre + start, start, |pre|)
    requires NoOccurrenceAfter(end + post, end, 0)
    ensures ExtractPayloadToLastEnd(pre + start + payload + end + post, start, end) == Some(payload)
  {
    var out := pre + start + payload + end + post;
    FirstAtJoin(pre, start, payload + end + post);
    assert pre + start + (payload + end + post) == out;
    LastAtJoin(pre + start + payload, end, post);
    ExtractToLastAt(out, start, end, |pre|, |pre + start + payload|);
    assert out[|pre + start|..|pre + start + payload|] == payload;
  }

  /** Nothing after the wrapper's closing marker line can be taken for another end marker. */
  lemma NoEndMarkerAfterLine(end: string)
    requires |end| >= 3 && end[1] != end[2]
    ensures NoOccurrenceAfter(end + "\n", end, 0)
  {
    assert (end + "\n")[1..1 + |end|][1] != end[1];
  }

  /**
   * When the wrapper's line is all the program prints, the corrected extraction
   * recovers its payload, whatever the payload holds.
   */
  lemma LastEndRecoversWrapperLine(payload: string)
    ensures ExtractPayloadToLastEnd(ResultStart + payload + ResultEnd + "\n", ResultStart, ResultEnd) == Some(payload)
  {
    NoEndMarkerAfterLine(ResultEnd);
    assert "" + ResultStart == ResultStart;
    LastEndRecoversAnyPayload("", payload, "\n", ResultStart, ResultEnd);
  }

  /** The corrected extraction hands back the payload the as-written one cuts. */
  lemma ReturningEndMarkerKeepsResultWhenCorrected()
    ensures ExtractPayloadToLastEnd(ResultStart + EndMarkerResultPayload + ResultEnd + "\n", ResultStart, ResultEnd)
         == Some(EndMarkerResultPayload)
  {
    LastEndRecoversWrapperLine(EndMarkerResultPayload);
  }

  /**
   * Which end marker closes the payload: the first, as the service is written,
   * or the last, as corrected.
   */
  datatype Extraction = FirstEnd | LastEnd

  /** The payload under the chosen extraction. */
  function Extract(extraction: Extraction, output: string, start: string, end: string): (r: Option<string>)
    ensures r.Some? <==> Contains(output, start) && Contains(output, end)
    ensures extraction == FirstEnd && r.Some? && end != [] ==> !Contains(r.value, end)
  {
    match extraction
    case FirstEnd => ExtractPayload(output, start, end)
    case LastEnd => ExtractPayloadToLastEnd(output, start, end)
  }

  /**
   * The wrapper's output line under either extraction: the corrected one always
   * recovers the payload; the one as written does so when the payload holds no
   * end marker of its own.
   */
  lemma ExtractWrapperLine(extraction: Extraction, payload: string)
    requires extraction == FirstEnd ==>
      NoOccurrenceBefore(ResultStart + payload + ResultEnd, ResultEnd, |ResultStart + payload|)
    ensures Extract(extraction, ResultStart + payload + ResultEnd + "\n", ResultStart, ResultEnd) == Some(payload)
  {
    match extraction
    case FirstEnd =>
      assert "" + ResultStart == ResultStart;
      assert NoOccurrenceBefore("" + ResultStart, ResultStart, 0);
      ExtractRecoversPayload("", payload, "\n", ResultStart, ResultEnd);
    case LastEnd =>
      LastEndRecoversWrapperLine(payload);
  }
}
