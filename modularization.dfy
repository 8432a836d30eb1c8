/** The helpers of `ModularizationExperiment` that build its data: the
    selection of the IDPA application and annotation files and the tag
    taken from a file name, the map of services under test, the orders
    sent to the orchestrator, and the steps that restart the system under
    test.

    The experiment's own configuration (`ExperimentProperties`) is given
    as already parsed values; the holders read by
    `initLoadTestCreationOrder` are the holder classes of `DataHolders`. */
module Modularization {
  import opened Outcomes
  import opened Strings
  import opened Sequences
  import opened TestExecutions
  import DataHolders

  /** The configured values the helpers use. */
  datatype Properties = Properties(
    tag: string,
    loadTestDuration: int,
    loadTestRampup: int,
    omitSutRestart: bool,
    delayBetweenExecutions: int,
    sutSatelliteHost: string,
    targetServerHost: string,
    targetServerPort: string)

  // ---------------------------------------------------------------------
  // IDPA files and their tags

  const ApplicationPrefix: string := "application-"
  const AnnotationPrefix: string := "annotation-"
  const YamlSuffix: string := ".yml"

  predicate IsApplicationFile(name: string) {
    StartsWith(name, ApplicationPrefix) && EndsWith(name, YamlSuffix)
  }

  predicate IsAnnotationFile(name: string) {
    StartsWith(name, AnnotationPrefix) && EndsWith(name, YamlSuffix)
  }

  /** The listed names of the IDPA directory that are application models,
      in listing order. */
  function ApplicationFiles(names: seq<string>): (r: seq<string>)
    ensures |r| <= |names|
    ensures forall k :: 0 <= k < |r| ==> IsApplicationFile(r[k])
  {
    Filter(names, IsApplicationFile)
  }

  /** The listed names of the IDPA directory that are annotations, in
      listing order. */
  function AnnotationFiles(names: seq<string>): (r: seq<string>)
    ensures |r| <= |names|
    ensures forall k :: 0 <= k < |r| ==> IsAnnotationFile(r[k])
  {
    Filter(names, IsAnnotationFile)
  }

  /** The application list holds exactly the application file names of
      the listing, and the annotation list exactly the annotation ones. */
  lemma SelectedFiles(names: seq<string>)
    ensures forall f :: f in ApplicationFiles(names) <==> f in names && IsApplicationFile(f)
    ensures forall f :: f in AnnotationFiles(names) <==> f in names && IsAnnotationFile(f)
  {
    FilterExact(names, IsApplicationFile);
    FilterExact(names, IsAnnotationFile);
    assert forall k :: 0 <= k < |ApplicationFiles(names)| ==> IsApplicationFile(ApplicationFiles(names)[k]);
    assert forall k :: 0 <= k < |AnnotationFiles(names)| ==> IsAnnotationFile(AnnotationFiles(names)[k]);
  }

  /** No name is both an application model and an annotation: the two
      prefixes differ in their second character. */
  lemma ApplicationNotAnnotation(name: string)
    ensures !(IsApplicationFile(name) && IsAnnotationFile(name))
  {
    if IsApplicationFile(name) {
      assert name[1] == ApplicationPrefix[1];
      assert AnnotationPrefix[1] == 'n' != 'p' == ApplicationPrefix[1];
    }
  }

  /** `extractTagFromIdpaPath` on the file name: the text after the first
      "-" (the whole name's start when there is none) up to the last ".".
      Without a "." or with the last "." before the first "-", `substring`
      throws. */
  function ExtractTag(file: string): (r: Result<string>)
    ensures r.Ok? <==> '.' in file && FirstIndex(file, '-') < LastIndex(file, '.')
    ensures r.Err? ==> r.failure == Crash(IndexOutOfBounds)
    ensures r.Ok? ==> r.value == file[FirstIndex(file, '-') + 1..LastIndex(file, '.')]
  {
    Substring(file, FirstIndex(file, '-') + 1, LastIndex(file, '.'))
  }

  /** A name without any "." has no tag. */
  lemma ExtractTagWithoutDot(file: string)
    requires '.' !in file
    ensures ExtractTag(file) == Err(Crash(IndexOutOfBounds))
  {
  }

  /** For a name made of a word without "-" or ".", a "-", the tag, a "."
      and an extension without ".", the tag is what lies between. */
  lemma {:induction false} ExtractTagBetween(file: string, word: string, ext: string)
    requires '-' !in word && '.' !in word && '.' !in ext
    requires StartsWith(file, word + "-") && EndsWith(file, "." + ext)
    ensures |word| + 2 + |ext| <= |file|
    ensures ExtractTag(file) == Ok(file[|word| + 1..|file| - |ext| - 1])
  {
    var dash := |word|;
    var dot := |file| - |ext| - 1;
    assert file[..dash + 1] == word + "-";
    assert file[dot..] == "." + ext;
    assert file[dash] == '-' && file[dot] == '.';
    assert forall i :: 0 <= i <= dash ==> file[i] != '.' by {
      forall i | 0 <= i <= dash ensures file[i] != '.' {
        assert file[i] == file[..dash + 1][i];
        if i < dash {
          assert file[i] == word[i];
        }
      }
    }
    assert dash < dot;
    assert file[..dash] == word;
    FirstIndexAt(file, '-', dash);
    assert file[dot + 1..] == ext;
    LastIndexAt(file, '.', dot);
  }

  lemma PlainWords()
    ensures '.' !in "yml"
    ensures '-' !in "application" && '.' !in "application"
    ensures '-' !in "annotation" && '.' !in "annotation"
  {
    forall i | 0 <= i < |"yml"| ensures "yml"[i] != '.' {
    }
    forall i | 0 <= i < |"application"| ensures "application"[i] != '-' && "application"[i] != '.' {
    }
    forall i | 0 <= i < |"annotation"| ensures "annotation"[i] != '-' && "annotation"[i] != '.' {
    }
  }

  /** The tag of an application model: the name with "application-" and
      ".yml" cut off. */
  lemma ApplicationFileTag(file: string)
    requires IsApplicationFile(file)
    ensures |ApplicationPrefix| + |YamlSuffix| <= |file|
    ensures ExtractTag(file) == Ok(file[|ApplicationPrefix|..|file| - |YamlSuffix|])
  {
    assert YamlSuffix == "." + "yml" && ApplicationPrefix == "application" + "-";
    PlainWords();
    ExtractTagBetween(file, "application", "yml");
  }

  /** The tag of an annotation: the name with "annotation-" and ".yml" cut
      off. */
  lemma AnnotationFileTag(file: string)
    requires IsAnnotationFile(file)
    ensures |AnnotationPrefix| + |YamlSuffix| <= |file|
    ensures ExtractTag(file) == Ok(file[|AnnotationPrefix|..|file| - |YamlSuffix|])
  {
    assert YamlSuffix == "." + "yml" && AnnotationPrefix == "annotation" + "-";
    PlainWords();
    ExtractTagBetween(file, "annotation", "yml");
  }

  /** Naming a service's model file after its tag and reading the tag
      back gives the tag: `application-carts.yml` has the tag `carts`. */
  lemma ApplicationTagRoundTrip(tag: string)
    ensures IsApplicationFile(ApplicationPrefix + tag + YamlSuffix)
    ensures ExtractTag(ApplicationPrefix + tag + YamlSuffix) == Ok(tag)
  {
    var file := ApplicationPrefix + tag + YamlSuffix;
    assert file[..|ApplicationPrefix|] == ApplicationPrefix;
    assert file[|file| - |YamlSuffix|..] == YamlSuffix;
    ApplicationFileTag(file);
    assert file[|ApplicationPrefix|..|file| - |YamlSuffix|] == tag;
  }

  // ---------------------------------------------------------------------
  // Services under test

  /** The key of a service in the modularization options: the experiment
      tag, "-", the service's host name. */
  function ServiceKey(tag: string, service: string): (k: string)
    ensures |k| == |tag| + 1 + |service| && k[|tag| + 1..] == service
  {
    tag + "-" + service
  }

  /** The map `createServicesUnderTest` fills: each service under its tag
      key, later services written over earlier equal ones. */
  function ServicesMap(tag: string, services: seq<string>): (m: map<string, string>)
    ensures |m| <= |services|
    ensures forall k :: k in m ==> m[k] in services
  {
    if |services| == 0 then map[]
    else ServicesMap(tag, services[..|services| - 1])[ServiceKey(tag, services[|services| - 1]) := services[|services| - 1]]
  }

  /** `createServicesUnderTest`, putting the services into the map one by one. */
  method CreateServicesUnderTest(tag: string, testCombination: seq<string>) returns (m: map<string, string>)
    ensures m == ServicesMap(tag, testCombination)
  {
    m := map[];
    var i := 0;
    while i < |testCombination|
      invariant 0 <= i <= |testCombination|
      invariant m == ServicesMap(tag, testCombination[..i])
    {
      var service := testCombination[i];
      m := m[ServiceKey(tag, service) := service];
      assert testCombination[..i + 1][..i] == testCombination[..i];
      i := i + 1;
    }
    assert testCombination[..i] == testCombination;
  }

  /** Every listed service is present under its key, and every key of the
      map is the key of the listed service it maps to. */
  lemma {:induction false} ServicesMapEntries(tag: string, services: seq<string>)
    ensures forall s :: s in services ==> ServiceKey(tag, s) in ServicesMap(tag, services) && ServicesMap(tag, services)[ServiceKey(tag, s)] == s
    ensures forall k :: k in ServicesMap(tag, services) ==> ServicesMap(tag, services)[k] in services && k == ServiceKey(tag, ServicesMap(tag, services)[k])
  {
    if |services| > 0 {
      var init := services[..|services| - 1];
      var last := services[|services| - 1];
      ServicesMapEntries(tag, init);
      assert services == init + [last];
      forall s | s in services
        ensures ServiceKey(tag, s) in ServicesMap(tag, services) && ServicesMap(tag, services)[ServiceKey(tag, s)] == s
      {
        if s != last {
          assert s in init;
          assert ServiceKey(tag, s)[|tag| + 1..] != ServiceKey(tag, last)[|tag| + 1..];
        }
      }
    }
  }

  /** The distinct services of a list. */
  function Distinct(services: seq<string>): set<string> {
    set s | s in services
  }

  /** The map has one entry per distinct service. */
  lemma {:induction false} ServicesMapSize(tag: string, services: seq<string>)
    ensures |ServicesMap(tag, services)| == |Distinct(services)|
  {
    if |services| > 0 {
      var init := services[..|services| - 1];
      var last := services[|services| - 1];
      var m := ServicesMap(tag, init);
      ServicesMapSize(tag, init);
      ServicesMapEntries(tag, init);
      assert services == init + [last];
      assert Distinct(services) == Distinct(init) + {last};
      var key := ServiceKey(tag, last);
      if last in init {
        assert Distinct(services) == Distinct(init);
        assert key in m;
        assert m[key := last].Keys == m.Keys;
      } else {
        assert key !in m by {
          forall k | k in m ensures k != key {
            assert k[|tag| + 1..] == m[k];
          }
        }
        assert m[key := last].Keys == m.Keys + {key};
      }
    }
  }

  // ---------------------------------------------------------------------
  // Orders

  datatype OrderGoal = CreateSessionLogs | CreateLoadTest | ExecuteLoadTest
  datatype OrderMode = PastSessions
  datatype LoadTestType = JMeter
  datatype WorkloadModelType = Wessbas
  datatype LinkType = OpenXtrace

  /** Absent fields (None) are the ones the experiment never sets. */
  datatype OrderOptions = OrderOptions(
    duration: int,
    loadTestType: LoadTestType,
    workloadModelType: WorkloadModelType,
    rampup: int,
    numUsers: Option<int>)

  datatype ModularizationOptions = ModularizationOptions(approach: Option<Approach>, services: map<string, string>)

  /** The measurement-data links of a link exchange model; a date is kept
      as its milliseconds. */
  datatype MeasurementLinks = MeasurementLinks(link: Option<string>, linkType: Option<LinkType>, timestamp: Option<int>)

  /** A link exchange model, reduced to the links the experiment sets. */
  datatype LinkExchange = LinkExchange(measurementData: MeasurementLinks, sessionLogsLink: Option<string>)

  /** An order report, reduced to the artifacts it links to (null when absent). */
  datatype OrderReport = OrderReport(internalArtifacts: Option<LinkExchange>)

  datatype Order = Order(
    tag: string,
    goal: OrderGoal,
    mode: OrderMode,
    options: OrderOptions,
    modularization: Option<ModularizationOptions>,
    source: Option<LinkExchange>)

  /** `createOrder(goal)`: the configured tag, duration and ramp-up, past
      sessions, a JMeter test from a WESSBAS model; no modularization
      options, source or user count yet. */
  function CreateOrder(props: Properties, goal: OrderGoal): (o: Order)
    ensures o.tag == props.tag && o.goal == goal && o.mode == PastSessions
    ensures o.options == OrderOptions(props.loadTestDuration, JMeter, Wessbas, props.loadTestRampup, None)
    ensures o.modularization.None? && o.source.None?
  {
    Order(props.tag, goal, PastSessions, OrderOptions(props.loadTestDuration, JMeter, Wessbas, props.loadTestRampup, None), None, None)
  }

  /** `order.getOptions().setNumUsers(n)`, as the reference test does. */
  function WithNumUsers(o: Order, n: int): (r: Order)
    ensures r.options.numUsers == Some(n)
  {
    o.(options := o.options.(numUsers := Some(n)))
  }

  /** Orders for two goals differ only in the goal, and setting the user
      count changes only the options' user count. */
  lemma OrdersDifferOnlyInGoal(props: Properties, g: OrderGoal, h: OrderGoal, n: int)
    ensures CreateOrder(props, g) == CreateOrder(props, h).(goal := g)
    ensures WithNumUsers(CreateOrder(props, g), n).(options := CreateOrder(props, g).options) == CreateOrder(props, g)
    ensures WithNumUsers(CreateOrder(props, g), n).options.(numUsers := None) == CreateOrder(props, g).options
  {
  }

  /** The reference test's session-logs link,
      `referenceExecutionReport.get().getInternalArtifacts().getSessionLogsLinks().getLink()`:
      the read's exception, or NullPointerException for a null report or
      null artifacts. */
  function ReferenceSessionLogsLink(report: Result<Option<OrderReport>>): (r: Result<Option<string>>)
    ensures report.Err? ==> r == Err(report.failure)
    ensures report.Ok? && (report.value.None? || report.value.value.internalArtifacts.None?) ==> r == Err(Crash(NullPointer))
    ensures r.Ok? ==> report.Ok? && report.value.Some? && report.value.value.internalArtifacts.Some? &&
                      r.value == report.value.value.internalArtifacts.value.sessionLogsLink
  {
    var rep :- report;
    if rep.None? || rep.value.internalArtifacts.None? then Err(Crash(NullPointer))
    else Ok(rep.value.internalArtifacts.value.sessionLogsLink)
  }

  /** What `initLoadTestCreationOrder` writes into the order holder, from
      what the holders it reads give: the current test execution, the
      reference traces link, the test end date and the reference
      execution report. The reads happen in that order and the first that
      throws ends it; a null execution is dereferenced. The report is read
      only when the execution's approach is not session logs (a null
      approach included). */
  function LoadTestCreationOrder(
    props: Properties,
    execution: Result<Option<TestExecution>>,
    tracesLink: Result<Option<string>>,
    endDate: Result<Option<int>>,
    report: Result<Option<OrderReport>>): (r: Result<Order>)
    ensures execution.Err? ==> r == Err(execution.failure)
    ensures execution == Ok(None) ==> r == Err(Crash(NullPointer))
    ensures execution.Ok? && execution.value.Some? && tracesLink.Err? ==> r == Err(tracesLink.failure)
  {
    var order := CreateOrder(props, CreateLoadTest);
    var exec :- execution;
    if exec.None? then Err(Crash(NullPointer))
    else
      var t := exec.value;
      var withOptions :=
        if t.modularized then order.(modularization := Some(ModularizationOptions(t.approach, ServicesMap(props.tag, t.servicesUnderTest))))
        else order;
      var link :- tracesLink;
      var date :- endDate;
      var measurement := MeasurementLinks(link, Some(OpenXtrace), date);
      var sessionLogs :- if t.approach != Some(SessionLogs) then ReferenceSessionLogsLink(report) else Ok(None);
      Ok(withOptions.(source := Some(LinkExchange(measurement, sessionLogs))))
  }

  /** A created order is the load-test creation order with options for
      modularized executions only, holding the execution's approach and
      its services map, and a source holding the traces link as an
      OPEN.xtrace link with the end date. */
  lemma {:induction false} CreatedOrderShape(
    props: Properties, t: TestExecution, tracesLink: Result<Option<string>>,
    endDate: Result<Option<int>>, report: Result<Option<OrderReport>>)
    requires LoadTestCreationOrder(props, Ok(Some(t)), tracesLink, endDate, report).Ok?
    ensures var o := LoadTestCreationOrder(props, Ok(Some(t)), tracesLink, endDate, report).value;
      && o.(modularization := None, source := None) == CreateOrder(props, CreateLoadTest)
      && (o.modularization.Some? <==> t.modularized)
      && (t.modularized ==> o.modularization == Some(ModularizationOptions(t.approach, ServicesMap(props.tag, t.servicesUnderTest))))
      && tracesLink.Ok? && endDate.Ok?
      && o.source.Some? && o.source.value.measurementData == MeasurementLinks(tracesLink.value, Some(OpenXtrace), endDate.value)
  {
  }

  /** The session-logs link is copied from the reference report unless
      the approach is session logs; then the report is not read at all and
      the order has no session-logs link. */
  lemma {:induction false} SessionLogsLinkRule(
    props: Properties, t: TestExecution, tracesLink: Result<Option<string>>,
    endDate: Result<Option<int>>, report: Result<Option<OrderReport>>, other: Result<Option<OrderReport>>)
    requires tracesLink.Ok? && endDate.Ok?
    ensures var r := LoadTestCreationOrder(props, Ok(Some(t)), tracesLink, endDate, report);
      && (t.approach == Some(SessionLogs) ==>
            r == LoadTestCreationOrder(props, Ok(Some(t)), tracesLink, endDate, other) && r.Ok? && r.value.source.value.sessionLogsLink.None?)
      && (t.approach != Some(SessionLogs) ==>
            (r.Ok? <==> ReferenceSessionLogsLink(report).Ok?) &&
            (r.Err? ==> r.failure == ReferenceSessionLogsLink(report).failure) &&
            (r.Ok? ==> r.value.source.value.sessionLogsLink == ReferenceSessionLogsLink(report).value))
  {
  }

  /** `initLoadTestCreationOrder`: reads the holders, builds the order and
      writes it into the order holder; when a read throws, the holder is
      left as it was. */
  method InitLoadTestCreationOrder(
    props: Properties,
    testExecutions: DataHolders.SequentialListHolder<TestExecution>,
    tracesLink: DataHolders.SimpleHolder<string>,
    endDate: DataHolders.SimpleHolder<int>,
    referenceReport: DataHolders.SimpleHolder<OrderReport>,
    orderHolder: DataHolders.SimpleHolder<Order>) returns (s: Status)
    modifies orderHolder
    ensures var r := LoadTestCreationOrder(props, old(testExecutions.Get()), old(tracesLink.Get()), old(endDate.Get()), old(referenceReport.Get()));
      && (r.Ok? ==> s == Done && orderHolder.data == Some(r.value) && orderHolder.written)
      && (r.Err? ==> s == Failed(r.failure) && orderHolder.data == old(orderHolder.data) && orderHolder.written == old(orderHolder.written))
  {
    var order := CreateOrder(props, CreateLoadTest);
    var exec := testExecutions.Get();
    if exec.value.None? {
      return Failed(Crash(NullPointer));
    }
    var t := exec.value.value;
    if t.modularized {
      var services := CreateServicesUnderTest(props.tag, t.servicesUnderTest);
      order := order.(modularization := Some(ModularizationOptions(t.approach, services)));
    }
    var link := tracesLink.Get();
    if link.Err? {
      return Failed(link.failure);
    }
    var date := endDate.Get();
    if date.Err? {
      return Failed(date.failure);
    }
    var linkExchange := LinkExchange(MeasurementLinks(link.value, Some(OpenXtrace), date.value), None);
    if t.approach != Some(SessionLogs) {
      var sessionLogs := ReferenceSessionLogsLink(referenceReport.Get());
      if sessionLogs.Err? {
        return Failed(sessionLogs.failure);
      }
      linkExchange := linkExchange.(sessionLogsLink := sessionLogs.value);
    }
    order := order.(source := Some(linkExchange));
    orderHolder.Set(Some(order));
    return Done;
  }

  // ---------------------------------------------------------------------
  // Restarting the system under test

  datatype Application = SockShop

  /** The experiment steps the restart appends: the satellite's restart
      of an application, a delay in milliseconds, and a wait until the
      application answers at a host and port, with a timeout. */
  datatype Step =
    | Restart(app: Application, satelliteHost: string)
    | Sleep(millis: int)
    | WaitFor(app: Application, host: string, port: string, timeoutMillis: int)

  /** The steps `appendSystemRestart` adds: unless the restart is omitted,
      restart the Sock Shop, sleep 300000 ms, wait for it for at most
      1800000 ms and sleep the configured delay; with the restart omitted,
      only sleep 1 ms. */
  function RestartSteps(props: Properties): (r: seq<Step>)
    ensures |r| > 0 && r[|r| - 1].Sleep?
    ensures (exists i :: 0 <= i < |r| && r[i].Restart?) <==> !props.omitSutRestart
  {
    if !props.omitSutRestart then
      var r := [Restart(SockShop, props.sutSatelliteHost), Sleep(300000),
        WaitFor(SockShop, props.targetServerHost, props.targetServerPort, 1800000),
        Sleep(props.delayBetweenExecutions)];
      assert r[0].Restart?;
      r
    else [Sleep(1)]
  }

  /** `appendSystemRestart`: the builder's steps followed by the restart
      steps; nothing before them changes. */
  function AppendSystemRestart(props: Properties, steps: seq<Step>): (r: seq<Step>)
    ensures |r| == |steps| + (if props.omitSutRestart then 1 else 4) && r[..|steps|] == steps
    ensures r[|r| - 1] == Sleep(if props.omitSutRestart then 1 else props.delayBetweenExecutions)
  {
    steps + RestartSteps(props)
  }

  /** The milliseconds slept by the steps. */
  function SleepTime(steps: seq<Step>): int {
    if |steps| == 0 then 0
    else SleepTime(steps[..|steps| - 1]) + (match steps[|steps| - 1] case Sleep(ms) => ms case _ => 0)
  }

  /** The number of restarts among the steps. */
  function Restarts(steps: seq<Step>): nat {
    if |steps| == 0 then 0
    else Restarts(steps[..|steps| - 1]) + (if steps[|steps| - 1].Restart? then 1 else 0)
  }

  lemma {:induction false} SleepTimeAppend(steps: seq<Step>, more: seq<Step>)
    ensures SleepTime(steps + more) == SleepTime(steps) + SleepTime(more)
    ensures Restarts(steps + more) == Restarts(steps) + Restarts(more)
  {
    if |more| > 0 {
      var init := more[..|more| - 1];
      SleepTimeAppend(steps, init);
      assert (steps + more)[..|steps + more| - 1] == steps + init;
    } else {
      assert steps + more == steps;
    }
  }

  /** The restart steps alone: one restart and 300000 ms plus the
      configured delay of sleep, or no restart and 1 ms. */
  lemma RestartStepsEffect(props: Properties)
    ensures Restarts(RestartSteps(props)) == (if props.omitSutRestart then 0 else 1)
    ensures SleepTime(RestartSteps(props)) == (if props.omitSutRestart then 1 else 300000 + props.delayBetweenExecutions)
  {
    var r := RestartSteps(props);
    if !props.omitSutRestart {
      assert r[..3][..2] == r[..2] && r[..2][..1] == r[..1] && r[..1][..0] == [];
      assert SleepTime(r[..1]) == 0 && Restarts(r[..1]) == 1;
      assert SleepTime(r[..2]) == 300000 && Restarts(r[..2]) == 1;
      assert SleepTime(r[..3]) == 300000 && Restarts(r[..3]) == 1;
    } else {
      assert r[..0] == [];
    }
  }

  /** A restart adds exactly one restart of the Sock Shop, waits for it
      only after the fixed 300000 ms, and sleeps 300000 ms plus the
      configured delay in all; omitting it adds no restart and 1 ms. */
  lemma SystemRestartEffect(props: Properties, steps: seq<Step>)
    ensures Restarts(AppendSystemRestart(props, steps)) == Restarts(steps) + (if props.omitSutRestart then 0 else 1)
    ensures SleepTime(AppendSystemRestart(props, steps)) ==
      SleepTime(steps) + (if props.omitSutRestart then 1 else 300000 + props.delayBetweenExecutions)
    ensures !props.omitSutRestart ==>
      AppendSystemRestart(props, steps)[|steps|] == Restart(SockShop, props.sutSatelliteHost) &&
      AppendSystemRestart(props, steps)[|steps| + 1] == Sleep(300000) &&
      AppendSystemRestart(props, steps)[|steps| + 2] == WaitFor(SockShop, props.targetServerHost, props.targetServerPort, 1800000)
  {
    SleepTimeAppend(steps, RestartSteps(props));
    RestartStepsEffect(props);
  }
}
