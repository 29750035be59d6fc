/** The scanner page: reading a batch name out of a scanned QR text or a typed one, and the page
    it navigates to. */
module Scanner {
  import opened Wrappers
  import opened Text
  import opened Domain
  import opened Storage
  import opened Batches
  import opened Qr

  const TracePrefix := "/trace/"

  /** A character the pattern `[^/?]` accepts. */
  predicate PathChar(c: char) {
    c != '/' && c != '?'
  }

  predicate PathSafe(name: string) {
    |name| > 0 && forall i :: 0 <= i < |name| ==> PathChar(name[i])
  }

  /** The length of the longest run of path characters starting at `from` (the greedy `[^/?]+`). */
  function Run(s: string, from: nat): (n: nat)
    requires from <= |s|
    ensures from + n <= |s|
    ensures forall i :: from <= i < from + n ==> PathChar(s[i])
    ensures from + n < |s| ==> !PathChar(s[from + n])
    decreases |s| - from
  {
    if from < |s| && PathChar(s[from]) then 1 + Run(s, from + 1) else 0
  }

  /** The captured group `([^/?]+)` when it starts at `from`. */
  function Capture(s: string, from: nat): (c: string)
    requires from <= |s|
    ensures |c| == Run(s, from) && c == s[from..from + |c|]
  {
    s[from..from + Run(s, from)]
  }

  /** The pattern `/trace/([^/?]+)` matches at `p`. */
  predicate MatchesAt(data: string, p: nat) {
    OccursAt(data, TracePrefix, p) && p + 7 < |data| && PathChar(data[p + 7])
  }

  /** The leftmost match at or after `from`, as the regular expression engine finds it, and its
      captured group. */
  function MatchFrom(data: string, from: nat): (r: Option<string>)
    ensures r.None? <==> forall p: nat :: from <= p ==> !MatchesAt(data, p)
    ensures r.Some? ==> PathSafe(r.value)
    decreases |data| - from
  {
    if from + 7 >= |data| then None
    else if MatchesAt(data, from) then Some(Capture(data, from + 7))
    else MatchFrom(data, from + 1)
  }

  /** Where the pattern matches, the search stops and captures the run of path characters. */
  lemma MatchHere(data: string, from: nat)
    requires MatchesAt(data, from)
    ensures MatchFrom(data, from) == Some(Capture(data, from + 7))
  {
  }

  /** The batch name inside a scanned text, if it holds a trace link. */
  function ExtractBatchId(data: string): (r: Option<string>)
    ensures r.None? <==> forall p: nat :: !MatchesAt(data, p)
    ensures r.Some? ==> PathSafe(r.value)
  {
    MatchFrom(data, 0)
  }

  /** The page the scanner opens for a scanned text: the captured batch name when the text holds a
      trace link, the whole text otherwise. */
  function ScanTarget(data: string): (t: string)
    ensures ExtractBatchId(data).Some? ==> t == TracePrefix + ExtractBatchId(data).value
    ensures ExtractBatchId(data).None? ==> t == TracePrefix + data
  {
    TracePrefix + match ExtractBatchId(data) case Some(id) => id case None => data
  }

  /** The page opened for a typed name: nothing for blank input, else the trimmed name. */
  function ManualTarget(input: string): (t: Option<string>)
    ensures t.None? <==> forall i :: 0 <= i < |input| ==> IsWhitespace(input[i])
    ensures t.Some? ==> t.value == TracePrefix + Trim(input)
  {
    TrimEmptyIff(input);
    if Trim(input) != "" then Some(TracePrefix + Trim(input)) else None
  }

  /** A typed name without surrounding whitespace opens its own page. */
  lemma ManualTargetOfName(name: string)
    requires |name| > 0 && !IsWhitespace(name[0]) && !IsWhitespace(name[|name| - 1])
    ensures ManualTarget(name) == Some(TracePrefix + name)
  {
    TrimUnpadded(name);
  }

  /** Surrounding whitespace does not change the page a typed name opens. */
  lemma ManualTargetIgnoresPadding(input: string)
    ensures ManualTarget(Trim(input)) == ManualTarget(input)
  {
    TrimIdempotent(input);
    TrimEmptyIff(input);
    TrimEmptyIff(Trim(input));
  }

  // ---------------------------------------------------------------------------------------------
  // From a QR code back to its batch

  predicate EndsWithTrace(s: string) {
    |s| >= 6 && s[|s| - 6..] == "/trace"
  }

  /** No trace prefix starts inside the front-end address part of a trace link, provided the
      address neither contains one nor ends with `/trace`. */
  lemma NoEarlyPrefix(frontendUrl: string, id: string, p: nat)
    requires !Contains(frontendUrl, TracePrefix) && !EndsWithTrace(frontendUrl)
    requires p < |frontendUrl|
    ensures !OccursAt(TraceUrl(frontendUrl, id), TracePrefix, p)
  {
    var data := TraceUrl(frontendUrl, id);
    var n := |frontendUrl|;
    if OccursAt(data, TracePrefix, p) {
      if p + 7 <= n {
        assert data[p..p + 7] == frontendUrl[p..p + 7];
        assert OccursAt(frontendUrl, TracePrefix, p);
      } else {
        StraddleMeansTraceSuffix(frontendUrl, id, p);
      }
    }
  }

  /** A trace prefix that starts inside the address and ends after it can only be the address's
      own `/trace` completed by the link's `/`. */
  lemma StraddleMeansTraceSuffix(frontendUrl: string, id: string, p: nat)
    requires p < |frontendUrl| < p + 7
    requires OccursAt(TraceUrl(frontendUrl, id), TracePrefix, p)
    ensures EndsWithTrace(frontendUrl)
  {
    var data := TraceUrl(frontendUrl, id);
    var n := |frontendUrl|;
    var k := n - p;
    assert data[p + k] == data[n] == '/';
    assert data[p + k] == TracePrefix[k];
    assert k == 6;
    assert frontendUrl[n - 6..] == data[p..n] == TracePrefix[..6];
  }

  /** Scanning a trace link recovers the batch name, for a path-safe name and an address that
      neither contains `/trace/` nor ends with `/trace`. */
  lemma {:induction false} ScanRecoversBatchId(frontendUrl: string, id: string)
    requires !Contains(frontendUrl, TracePrefix) && !EndsWithTrace(frontendUrl)
    requires PathSafe(id)
    ensures ExtractBatchId(TraceUrl(frontendUrl, id)) == Some(id)
    ensures ScanTarget(TraceUrl(frontendUrl, id)) == TracePrefix + id
  {
    var data := TraceUrl(frontendUrl, id);
    var n := |frontendUrl|;
    MatchAtAddressEnd(frontendUrl, id);
    SkipFrom(data, n, frontendUrl, id, 0);
  }

  /** Right after the address the pattern matches and captures the whole name. */
  lemma MatchAtAddressEnd(frontendUrl: string, id: string)
    requires PathSafe(id)
    ensures MatchesAt(TraceUrl(frontendUrl, id), |frontendUrl|)
    ensures MatchFrom(TraceUrl(frontendUrl, id), |frontendUrl|) == Some(id)
  {
    var prefix := frontendUrl + TracePrefix;
    PatternAtAddressEnd(frontendUrl, id);
    assert prefix + id == TraceUrl(frontendUrl, id);
    CaptureName(prefix, id);
    MatchHere(prefix + id, |frontendUrl|);
  }

  lemma PatternAtAddressEnd(frontendUrl: string, id: string)
    requires PathSafe(id)
    ensures MatchesAt(TraceUrl(frontendUrl, id), |frontendUrl|)
  {
    var n := |frontendUrl|;
    var data := TraceUrl(frontendUrl, id);
    assert data[n + 7] == data[n + 7..][0] == id[0];
  }

  /** After any prefix, the captured group is a whole path-safe name. */
  lemma CaptureName(prefix: string, id: string)
    requires PathSafe(id)
    ensures Capture(prefix + id, |prefix|) == id
  {
    RunOverName(prefix, id);
    assert (prefix + id)[|prefix|..] == id;
  }

  /** After any prefix, the run of path characters covers a whole path-safe name. */
  lemma RunOverName(prefix: string, id: string)
    requires PathSafe(id)
    ensures Run(prefix + id, |prefix|) == |id|
  {
    var s := prefix + id;
    forall i | |prefix| <= i < |s|
      ensures PathChar(s[i])
    {
      assert s[i] == id[i - |prefix|];
    }
    RunToEnd(s, |prefix|);
  }

  lemma {:induction false} RunToEnd(s: string, from: nat)
    requires from <= |s|
    requires forall i :: from <= i < |s| ==> PathChar(s[i])
    ensures Run(s, from) == |s| - from
    decreases |s| - from
  {
    if from < |s| {
      RunToEnd(s, from + 1);
    }
  }

  lemma {:induction false} SkipFrom(data: string, n: nat, frontendUrl: string, id: string, from: nat)
    requires data == TraceUrl(frontendUrl, id) && n == |frontendUrl|
    requires !Contains(frontendUrl, TracePrefix) && !EndsWithTrace(frontendUrl)
    requires MatchesAt(data, n) && from <= n
    ensures MatchFrom(data, from) == MatchFrom(data, n)
    decreases n - from
  {
    if from < n {
      NoEarlyPrefix(frontendUrl, id, from);
      SkipFrom(data, n, frontendUrl, id, from + 1);
    }
  }

  /** An address ending with `/trace` breaks the round trip: the scanner captures `trace` instead
      of the batch name. */
  lemma ScanMisreadsTraceSuffix()
    ensures ScanTarget(TraceUrl("h/trace", "FARM-1")) == "/trace/trace"
  {
    assert TraceUrl("h/trace", "FARM-1") == "h/trace/trace/FARM-1";
    MisreadLink("h/trace/trace/FARM-1");
  }

  lemma MisreadLink(data: string)
    requires data == "h/trace/trace/FARM-1"
    ensures ExtractBatchId(data) == Some("trace")
    ensures ScanTarget(data) == "/trace/trace"
  {
    assert !MatchesAt(data, 0) by {
      assert data[0] != TracePrefix[0];
    }
    assert MatchesAt(data, 1) by {
      assert data[1..8] == TracePrefix;
    }
    RunStops(data, 8, 13);
    MatchHere(data, 1);
    assert data[8..13] == "trace";
  }

  /** A run of path characters ending at a character outside the class is exactly that long. */
  lemma {:induction false} RunStops(s: string, from: nat, to: nat)
    requires from <= to < |s|
    requires forall i :: from <= i < to ==> PathChar(s[i])
    requires !PathChar(s[to])
    ensures Run(s, from) == to - from
    decreases |s| - from
  {
    if from < to {
      RunStops(s, from + 1, to);
    }
  }

  /** The names the server generates are path-safe. */
  lemma GeneratedNameIsPathSafe(year: nat, count: nat)
    ensures PathSafe(GenerateBatchId(year, count))
  {
    var y := DecimalString(year);
    var p := PadStart(DecimalString(count + 1), 4, '0');
    assert GenerateBatchId(year, count) == "FARM-" + y + "-" + p;
  }

  /** The QR code of a stored batch with a path-safe name leads the scanner back to that batch's page. */
  lemma QrScanRoundTrip(s: Store, frontendUrl: string, batchId: string, format: Format)
    requires !Contains(frontendUrl, TracePrefix) && !EndsWithTrace(frontendUrl)
    requires PathSafe(batchId)
    requires QrCode(s, frontendUrl, batchId, format).Success?
    ensures ScanTarget(QrCode(s, frontendUrl, batchId, format).value.content) == TracePrefix + batchId
  {
    ScanRecoversBatchId(frontendUrl, batchId);
  }
}
