/** The two actions that fetch JMeter reports from the frontend:
    `WaitForJmeterReport` polls until a report arrives or a deadline set at
    construction passes, and `FlushJMeterReports` fetches and drops
    reports until there is none. The clock and the frontend's answers are
    inputs: `times` are the successive readings of the clock, and
    `responses` the successive answers to the report request, None being
    no report. */
module ReportPolling {
  import opened Outcomes
  import opened Decimal
  import opened Sequences
  import opened PathHolders

  const ShortestWait: int := 600000
  const LongestWait: int := 1800000
  const ReportFile: string := "jmeter-report.csv"

  /** How long to wait for the report of a test expected to take
      `expectedTestDuration` ms: twice that, but at least ten minutes and
      at most thirty. The doubling is on `long` and wraps. */
  function WaitWindow(expectedTestDuration: int): (r: int)
    requires IsInt64(expectedTestDuration)
    ensures ShortestWait <= r <= LongestWait
    ensures ShortestWait <= Wrap64(2 * expectedTestDuration) <= LongestWait ==> r == Wrap64(2 * expectedTestDuration)
    ensures Wrap64(2 * expectedTestDuration) < ShortestWait ==> r == ShortestWait
    ensures Wrap64(2 * expectedTestDuration) > LongestWait ==> r == LongestWait
  {
    var doubled := Wrap64(2 * expectedTestDuration);
    var atLeast := if doubled > ShortestWait then doubled else ShortestWait;
    if atLeast < LongestWait then atLeast else LongestWait
  }

  /** Without a stated duration the action waits the longest window. */
  lemma DefaultWaitIsLongest()
    ensures WaitWindow(1800000) == LongestWait
  {
  }

  /** A test expected to take more than nine hundred seconds (and not so
      long that doubling wraps) gets the longest window, one of less than
      five minutes the shortest. */
  lemma WaitWindowClamps(d: int)
    requires 0 <= d <= LongMax / 2
    ensures d >= 900000 ==> WaitWindow(d) == LongestWait
    ensures d <= 300000 ==> WaitWindow(d) == ShortestWait
    ensures 300000 <= d <= 900000 ==> WaitWindow(d) == 2 * d
  {
  }

  class WaitForJmeterReport {
    const host: string
    const port: string
    /** The deadline, fixed at construction: executing the action again
        does not move it. */
    const timeToStopWaiting: int

    /** `WaitForJmeterReport(host, port, expectedTestDuration)`, built when
        the clock reads `now`. */
    constructor (host: string, port: string, expectedTestDuration: int, now: int)
      requires IsInt64(expectedTestDuration)
      ensures this.host == host && this.port == port
      ensures timeToStopWaiting == now + WaitWindow(expectedTestDuration)
    {
      this.host := host;
      this.port := port;
      timeToStopWaiting := now + WaitWindow(expectedTestDuration);
    }

    /** `WaitForJmeterReport(host, expectedTestDuration)`: port 8080. */
    constructor OnDefaultPort(host: string, expectedTestDuration: int, now: int)
      requires IsInt64(expectedTestDuration)
      ensures this.host == host && this.port == "8080"
      ensures timeToStopWaiting == now + WaitWindow(expectedTestDuration)
    {
      this.host := host;
      port := "8080";
      timeToStopWaiting := now + WaitWindow(expectedTestDuration);
    }

    /** `WaitForJmeterReport(host)`: port 8080 and an expected duration of
        1800000 ms, so the longest window. */
    constructor OnHost(host: string, now: int)
      ensures this.host == host && this.port == "8080"
      ensures timeToStopWaiting == now + LongestWait
    {
      this.host := host;
      port := "8080";
      DefaultWaitIsLongest();
      timeToStopWaiting := now + WaitWindow(1800000);
    }

    /** Checks the clock before every request and stops at the first
        report, or once the clock reads the deadline or later with no
        report; only a report received is written, into `folder`'s
        `jmeter-report.csv`. `writable` says whether that write succeeds;
        a failed write throws IOException, which fails the step. `times`
        ends with a reading past the deadline, which is what lets the loop
        end when no report comes. */
    method Execute(folder: string, times: seq<int>, responses: nat -> Option<string>, writable: bool)
      returns (s: Status, requests: nat, written: Option<(string, string)>)
      requires |times| > 0 && times[|times| - 1] >= timeToStopWaiting
      ensures requests < |times|
      ensures forall k :: 0 <= k < requests ==> times[k] < timeToStopWaiting
      ensures forall k :: 0 <= k < requests - 1 ==> responses(k) == None
      ensures written.Some? <==> requests > 0 && responses(requests - 1).Some? && writable
      ensures written.Some? ==> written == Some((Resolve(folder, ReportFile), responses(requests - 1).value))
      ensures s == if requests > 0 && responses(requests - 1).Some? && !writable then Failed(Crash(IOFailure)) else Done
      ensures !(requests > 0 && responses(requests - 1).Some?) ==> times[requests] >= timeToStopWaiting
    {
      var report: Option<string> := None;
      requests := 0;
      while times[requests] < timeToStopWaiting
        invariant requests < |times|
        invariant forall k :: 0 <= k < requests ==> times[k] < timeToStopWaiting && responses(k) == None
        invariant report == None
        decreases |times| - requests
      {
        report := responses(requests);
        requests := requests + 1;
        if report.Some? {
          break;
        }
      }
      if report.None? {
        return Done, requests, None;
      }
      if !writable {
        return Failed(Crash(IOFailure)), requests, None;
      }
      written := Some((Resolve(folder, ReportFile), report.value));
      s := Done;
    }
  }

  /** Once the deadline has passed, the action makes no request at all. */
  method WaitAfterDeadline(host: string, created: int, later: int, folder: string, responses: nat -> Option<string>, writable: bool)
    returns (s: Status, requests: nat, written: Option<(string, string)>)
    requires later >= created + LongestWait
    ensures s == Done && requests == 0 && written == None
  {
    var w := new WaitForJmeterReport.OnHost(host, created);
    s, requests, written := w.Execute(folder, [later], responses, writable);
  }

  class FlushJMeterReports {
    const host: string
    const port: string

    constructor (host: string, port: string)
      ensures this.host == host && this.port == port
    {
      this.host := host;
      this.port := port;
    }

    constructor OnDefaultPort(host: string)
      ensures this.host == host && this.port == "8080"
    {
      this.host := host;
      port := "8080";
    }

    /** Requests reports until the frontend has none: there is always at
        least one request, the loop stops at the first answer without a
        report, and `flushCount` is the number of reports received. Nothing
        else is touched. `responses` holds an answer without a report. */
    method Execute(responses: seq<Option<string>>) returns (requests: nat, flushCount: int)
      requires None in responses
      ensures requests >= 1 && requests == FirstIndex(responses, None) + 1
      ensures flushCount == requests - 1
      ensures forall k :: 0 <= k < flushCount ==> responses[k].Some?
      ensures responses[flushCount] == None
    {
      var report: Option<string> := Some("");
      flushCount := -1;
      requests := 0;
      while report != None
        invariant 0 <= requests <= FirstIndex(responses, None) + 1
        invariant flushCount == requests - 1
        invariant requests > 0 ==> report == responses[requests - 1]
        invariant report != None ==> None !in responses[..requests]
        invariant report == None ==> requests == FirstIndex(responses, None) + 1
        decreases |responses| - requests, if report == None then 0 else 1
      {
        flushCount := flushCount + 1;
        report := responses[requests];
        assert responses[..requests + 1] == responses[..requests] + [report];
        requests := requests + 1;
      }
      assert forall k :: 0 <= k < flushCount ==> responses[k] in responses[..FirstIndex(responses, None)];
    }
  }
}
