/** `ApiChanger`: evolves a system model (its HTTP interfaces) and the
    annotation of that system through a random sequence of API changes,
    applied in groups, one group per version.

    The interfaces, parameters and annotations are values here. Object
    identity, which the source relies on when it removes an element from
    a list or records an (interface, parameter) pair, is a `key` number
    per interface and parameter; each new object takes the next free key.
    The random draws are inputs: a draw `pick` for a list of n elements
    selects position `pick % n`. Regular-expression matching of ids is the
    abstract `matches(id, pattern)`. */
module ApiChangers {
  import opened Outcomes
  import opened Sequences

  const NumIterations: nat := 18
  const ChangeNumLowerBound: nat := 1
  const ChangeNumUpperBound: nat := 5

  datatype ChangeType =
    | AddInterface
    | RemoveInterface
    | ChangeInterfacePath
    | AddParameter
    | RemoveParameter
    | ChangeParameterName

  datatype ParameterType = UrlPart | OtherParameterType(name: string)

  /** An `HttpParameter`; a null id is None. */
  datatype Parameter = Parameter(key: nat, id: Option<string>, name: string, parameterType: ParameterType)

  /** An `HttpInterface`. */
  datatype Interface = Interface(
    key: nat, domain: string, encoding: string, headers: seq<string>, id: Option<string>,
    httpMethod: string, path: string, port: string, protocol: string, parameters: seq<Parameter>)

  /** A `ParameterAnnotation`; the annotated parameter is referred to by id. */
  datatype ParameterAnnotation = ParameterAnnotation(parameterId: string, input: string, overrides: seq<string>)

  /** An `InterfaceAnnotation`; the annotated interface is referred to by id. */
  datatype InterfaceAnnotation = InterfaceAnnotation(
    interfaceId: string, overrides: seq<string>, parameterAnnotations: seq<ParameterAnnotation>)

  /** A `RegExExtraction`; `from` is the id of the interface it reads. */
  datatype Extraction = Extraction(
    fallbackValue: string, from: string, matchNumber: int, pattern: string, responseKey: string, template: string)

  /** An input of the annotation: an `ExtractedInput` or any other kind. */
  datatype Input = Extracted(inputId: string, extractions: seq<Extraction>) | OtherInput(inputId: string)

  /** An entry of `addedParameters`: the (interface, parameter) pair, by
      key, with the ids of both, which never change. */
  datatype ParameterRef = ParameterRef(interfaceKey: nat, interfaceId: Option<string>, parameterKey: nat, parameterId: Option<string>)

  /** What an `ApiChanger` changes: the system's interfaces, the
      annotation's interface annotations and inputs, the two lists of
      recorded additions, and the next free key. */
  datatype State = State(
    interfaces: seq<Interface>, annotations: seq<InterfaceAnnotation>, inputs: seq<Input>,
    addedInterfaces: seq<nat>, addedParameters: seq<ParameterRef>, nextKey: nat)

  /** How many changes one version gets: `RAND.nextInt(4) + 1` for a draw below 4. */
  function ChangeCount(draw: nat): (r: int)
    requires draw < ChangeNumUpperBound - ChangeNumLowerBound
    ensures 1 <= r <= 4
  {
    draw + ChangeNumLowerBound
  }

  function ChangeCounts(draws: seq<nat>): (r: seq<int>)
    requires forall i :: 0 <= i < |draws| ==> draws[i] < ChangeNumUpperBound - ChangeNumLowerBound
    ensures |r| == |draws|
    ensures forall i :: 0 <= i < |draws| ==> r[i] == ChangeCount(draws[i])
  {
    seq(|draws|, i requires 0 <= i < |draws| => ChangeCount(draws[i]))
  }

  /** `selectRandom`: `RAND.nextInt(size)` throws IllegalArgumentException
      for an empty list. */
  function SelectIndex(size: nat, pick: nat): (r: Result<nat>)
    ensures r.Ok? <==> size > 0
    ensures r.Ok? ==> r.value < size
    ensures r.Err? ==> r.failure == Crash(IllegalArgument)
  {
    if size == 0 then Err(Crash(IllegalArgument)) else Ok(pick % size)
  }

  /** `isIncluded`: an element is left out exactly when it has an id and
      that id matches one of the excluded patterns. */
  predicate Included(id: Option<string>, patterns: seq<string>, matches: (string, string) -> bool) {
    id.None? || forall k :: 0 <= k < |patterns| ==> !matches(id.value, patterns[k])
  }

  function HasKey(key: nat): Interface -> bool {
    (i: Interface) => i.key == key
  }

  function HasId(id: string): Interface -> bool {
    (i: Interface) => i.id == Some(id)
  }

  function ParameterHasKey(key: nat): Parameter -> bool {
    (p: Parameter) => p.key == key
  }

  function Named(name: string): Parameter -> bool {
    (p: Parameter) => p.name == name
  }

  /** `ann.getAnnotatedInterface().getId().equals(id)`: false for a null id. */
  function Annotates(id: Option<string>): InterfaceAnnotation -> bool {
    (a: InterfaceAnnotation) => Some(a.interfaceId) == id
  }

  function AnnotatesParameter(id: Option<string>): ParameterAnnotation -> bool {
    (a: ParameterAnnotation) => Some(a.parameterId) == id
  }

  function ExtractsFrom(id: Option<string>): Extraction -> bool {
    (e: Extraction) => Some(e.from) == id
  }

  function ExtractsElsewhere(id: Option<string>): Extraction -> bool {
    (e: Extraction) => Some(e.from) != id
  }

  /** The parameters `ADD_PARAMETER` chooses from: the included ones. */
  function AddableParameter(patterns: seq<string>, matches: (string, string) -> bool): Parameter -> bool {
    (p: Parameter) => Included(p.id, patterns, matches)
  }

  /** The parameters `CHANGE_PARAMETER_NAME` chooses from: the included ones that are no URL part. */
  function RenamableParameter(patterns: seq<string>, matches: (string, string) -> bool): Parameter -> bool {
    (p: Parameter) => p.parameterType != UrlPart && Included(p.id, patterns, matches)
  }

  /** The positions (interface, parameter) of one interface's parameters that `keep` accepts. */
  function PositionsIn(i: nat, ps: seq<Parameter>, keep: Parameter -> bool): (r: seq<(nat, nat)>)
    ensures forall k :: 0 <= k < |r| ==> r[k].0 == i && r[k].1 < |ps| && keep(ps[r[k].1])
    ensures forall j :: 0 <= j < |ps| && keep(ps[j]) ==> (i, j) in r
  {
    if |ps| == 0 then []
    else
      var init := PositionsIn(i, ps[..|ps| - 1], keep);
      assert forall j :: 0 <= j < |ps| - 1 ==> ps[..|ps| - 1][j] == ps[j];
      init + (if keep(ps[|ps| - 1]) then [(i, |ps| - 1)] else [])
  }

  /** The stream `flatMap` over the system's interfaces: the positions of
      every accepted parameter, interface by interface, and within an
      interface in parameter order. */
  function Positions(ifs: seq<Interface>, keep: Parameter -> bool): (r: seq<(nat, nat)>)
    ensures forall k :: 0 <= k < |r| ==>
      r[k].0 < |ifs| && r[k].1 < |ifs[r[k].0].parameters| && keep(ifs[r[k].0].parameters[r[k].1])
    ensures forall i, j :: 0 <= i < |ifs| && 0 <= j < |ifs[i].parameters| && keep(ifs[i].parameters[j]) ==> (i, j) in r
  {
    if |ifs| == 0 then []
    else
      var init := Positions(ifs[..|ifs| - 1], keep);
      assert forall i :: 0 <= i < |ifs| - 1 ==> ifs[..|ifs| - 1][i] == ifs[i];
      init + PositionsIn(|ifs| - 1, ifs[|ifs| - 1].parameters, keep)
  }

  /** `cloneParameter`: a new parameter with the id followed by "_CLONE"
      and the same name and type; the clone keeps the name and the type
      but not the id. */
  function CloneParameter(p: Parameter, key: nat): (c: Parameter)
    ensures c.name == p.name && c.parameterType == p.parameterType
    ensures c.key == key && c.id != p.id
  {
    var c := Parameter(key, Some(OrNull(p.id) + "_CLONE"), p.name, p.parameterType);
    assert p.id.Some? ==> |c.id.value| == |p.id.value| + 6;
    c
  }

  /** The parameters of an interface clone with id newId: each a clone of
      the original, whose id is then set to `<newId>_<original id>`, with
      keys from firstKey on. */
  function ClonedParameters(ps: seq<Parameter>, newId: string, firstKey: nat): (r: seq<Parameter>)
    ensures |r| == |ps|
    ensures forall j :: 0 <= j < |ps| ==>
      r[j] == Parameter(firstKey + j, Some(newId + "_" + OrNull(ps[j].id)), ps[j].name, ps[j].parameterType)
  {
    if |ps| == 0 then []
    else
      var last := ps[|ps| - 1];
      var init := ClonedParameters(ps[..|ps| - 1], newId, firstKey);
      assert forall j :: 0 <= j < |ps| - 1 ==> ps[..|ps| - 1][j] == ps[j];
      init + [CloneParameter(last, firstKey + |ps| - 1).(id := Some(newId + "_" + OrNull(last.id)))]
  }

  /** `cloneInterface`, with the new interface taking `key` and its
      parameters the keys after it. */
  function ClonedInterface(orig: Interface, key: nat): (c: Interface)
    ensures c.key == key && |c.parameters| == |orig.parameters|
    ensures forall j :: 0 <= j < |c.parameters| ==> c.parameters[j].key == key + 1 + j
  {
    var newId := OrNull(orig.id) + "_CLONE";
    Interface(key, orig.domain, orig.encoding, orig.headers, Some(newId), orig.httpMethod,
      orig.path + "/clone", orig.port, orig.protocol, ClonedParameters(orig.parameters, newId, key + 1))
  }

  /** The clone's id is the original's followed by "_CLONE", its path the
      original's followed by "/clone", and every other field is copied.
      Its parameters are the original's, in order, with the same names and
      types and the ids `<new id>_<original parameter id>`; all of them are
      new objects. */
  lemma CloneInterfaceRules(orig: Interface, key: nat)
    ensures ClonedInterface(orig, key).id == Some(OrNull(orig.id) + "_CLONE")
    ensures ClonedInterface(orig, key).path == orig.path + "/clone"
    ensures ClonedInterface(orig, key).(id := orig.id, path := orig.path, key := orig.key, parameters := orig.parameters) == orig
    ensures |ClonedInterface(orig, key).parameters| == |orig.parameters|
    ensures forall j :: 0 <= j < |orig.parameters| ==>
      var p := ClonedInterface(orig, key).parameters[j];
      p.id == Some(OrNull(orig.id) + "_CLONE_" + OrNull(orig.parameters[j].id)) &&
      p.name == orig.parameters[j].name && p.parameterType == orig.parameters[j].parameterType &&
      key < p.key < key + 1 + |orig.parameters|
  {
    var newId := OrNull(orig.id) + "_CLONE";
    forall j | 0 <= j < |orig.parameters|
      ensures ClonedInterface(orig, key).parameters[j].id == Some(OrNull(orig.id) + "_CLONE_" + OrNull(orig.parameters[j].id))
    {
      assert newId + "_" + OrNull(orig.parameters[j].id) == OrNull(orig.id) + "_CLONE_" + OrNull(orig.parameters[j].id);
    }
  }

  /** The annotation of one parameter of a clone: the first parameter of
      the original interface with the same name (none: NoSuchElement), its
      annotation (none: the copy dereferences null), then a copy of that
      annotation for the new parameter. */
  function ParameterAnnotationFor(newParam: Parameter, origParams: seq<Parameter>, origAnn: InterfaceAnnotation): Result<ParameterAnnotation> {
    var pi := FirstWhere(origParams, Named(newParam.name));
    if pi < 0 then Err(Crash(NoSuchElement))
    else
      var ai := FirstWhere(origAnn.parameterAnnotations, AnnotatesParameter(origParams[pi].id));
      if ai < 0 then Err(Crash(NullPointer))
      else
        var found := origAnn.parameterAnnotations[ai];
        Ok(ParameterAnnotation(OrNull(newParam.id), found.input, found.overrides))
  }

  /** The annotations of the parameters in turn; the first failure ends the loop. */
  function ParameterAnnotationsFor(newParams: seq<Parameter>, origParams: seq<Parameter>, origAnn: InterfaceAnnotation): (r: Result<seq<ParameterAnnotation>>)
    ensures r.Ok? ==> |r.value| == |newParams|
  {
    if |newParams| == 0 then Ok([])
    else
      var init :- ParameterAnnotationsFor(newParams[..|newParams| - 1], origParams, origAnn);
      var last :- ParameterAnnotationFor(newParams[|newParams| - 1], origParams, origAnn);
      Ok(init + [last])
  }

  /** The annotations are complete exactly when every parameter has one. */
  lemma {:induction false} ParameterAnnotationsForComplete(newParams: seq<Parameter>, origParams: seq<Parameter>, origAnn: InterfaceAnnotation)
    ensures ParameterAnnotationsFor(newParams, origParams, origAnn).Ok? <==>
      forall j :: 0 <= j < |newParams| ==> ParameterAnnotationFor(newParams[j], origParams, origAnn).Ok?
  {
    if |newParams| > 0 {
      var n := |newParams| - 1;
      var init := newParams[..n];
      ParameterAnnotationsForComplete(init, origParams, origAnn);
      assert forall j :: 0 <= j < n ==> init[j] == newParams[j];
    }
  }

  /** Each complete annotation is the one its parameter gets on its own. */
  lemma {:induction false} ParameterAnnotationsForValues(newParams: seq<Parameter>, origParams: seq<Parameter>, origAnn: InterfaceAnnotation)
    requires ParameterAnnotationsFor(newParams, origParams, origAnn).Ok?
    ensures forall j :: 0 <= j < |newParams| ==>
      ParameterAnnotationFor(newParams[j], origParams, origAnn) == Ok(ParameterAnnotationsFor(newParams, origParams, origAnn).value[j])
  {
    if |newParams| > 0 {
      var n := |newParams| - 1;
      var init := newParams[..n];
      var before := ParameterAnnotationsFor(init, origParams, origAnn);
      var one := ParameterAnnotationFor(newParams[n], origParams, origAnn);
      assert before.Ok? && one.Ok?;
      ParameterAnnotationsForValues(init, origParams, origAnn);
      assert forall j :: 0 <= j < n ==> init[j] == newParams[j];
      assert ParameterAnnotationsFor(newParams, origParams, origAnn) == Ok(before.value + [one.value]);
    }
  }

  lemma {:induction false} ParameterAnnotationsForFails(newParams: seq<Parameter>, origParams: seq<Parameter>, origAnn: InterfaceAnnotation, k: nat)
    requires k <= |newParams| && ParameterAnnotationsFor(newParams[..k], origParams, origAnn).Err?
    ensures ParameterAnnotationsFor(newParams, origParams, origAnn) == ParameterAnnotationsFor(newParams[..k], origParams, origAnn)
    decreases |newParams| - k
  {
    if k < |newParams| {
      assert newParams[..k + 1][..k] == newParams[..k];
      ParameterAnnotationsForFails(newParams, origParams, origAnn, k + 1);
    } else {
      assert newParams[..k] == newParams;
    }
  }

  lemma ParameterAnnotationsStep(newParams: seq<Parameter>, origParams: seq<Parameter>, origAnn: InterfaceAnnotation, k: nat, done: seq<ParameterAnnotation>)
    requires k < |newParams| && ParameterAnnotationsFor(newParams[..k], origParams, origAnn) == Ok(done)
    ensures var one := ParameterAnnotationFor(newParams[k], origParams, origAnn);
      ParameterAnnotationsFor(newParams[..k + 1], origParams, origAnn) == if one.Err? then Err(one.failure) else Ok(done + [one.value])
  {
    assert newParams[..k + 1][..k] == newParams[..k];
  }

  /** `cloneInterfaceAnnotation`: the original annotation's interface is
      looked up by id among the system's interfaces (null when absent, which
      fails only once a parameter needs it). */
  function AnnotationClone(origAnn: InterfaceAnnotation, newInterf: Interface, system: seq<Interface>): (r: Result<InterfaceAnnotation>)
    ensures r.Ok? ==> r.value.interfaceId == OrNull(newInterf.id) && r.value.overrides == origAnn.overrides
    ensures r.Ok? ==> |r.value.parameterAnnotations| == |newInterf.parameters|
  {
    var oi := FirstWhere(system, HasId(origAnn.interfaceId));
    if oi < 0 then
      if |newInterf.parameters| == 0 then Ok(InterfaceAnnotation(OrNull(newInterf.id), origAnn.overrides, []))
      else Err(Crash(NullPointer))
    else
      var anns :- ParameterAnnotationsFor(newInterf.parameters, system[oi].parameters, origAnn);
      Ok(InterfaceAnnotation(OrNull(newInterf.id), origAnn.overrides, anns))
  }

  /** A copy of an extraction that reads the new interface: every field
      but the source is copied, except that the template is set to the
      original's response key, as `addToExtractedInputs` writes it. */
  function Redirected(e: Extraction, newId: string): Extraction {
    Extraction(e.fallbackValue, newId, e.matchNumber, e.pattern, e.responseKey, e.responseKey)
  }

  function Copies(ms: seq<Extraction>, newId: string): (r: seq<Extraction>)
    ensures |r| == |ms|
    ensures forall k :: 0 <= k < |ms| ==> r[k] == Redirected(ms[k], newId)
  {
    if |ms| == 0 then []
    else
      assert forall k :: 0 <= k < |ms| - 1 ==> ms[..|ms| - 1][k] == ms[k];
      Copies(ms[..|ms| - 1], newId) + [Redirected(ms[|ms| - 1], newId)]
  }

  /** An input after `addToExtractedInputs`: an extracted input gets, at its
      end, a copy of each of its extractions from the original interface. */
  function CopiedIn(input: Input, origId: Option<string>, newId: string): Input {
    match input
    case Extracted(id, ex) => Extracted(id, ex + Copies(Filter(ex, ExtractsFrom(origId)), newId))
    case OtherInput(_) => input
  }

  function InputsWithCopies(inputs: seq<Input>, origId: Option<string>, newId: string): (r: seq<Input>)
    ensures |r| == |inputs|
    ensures forall i :: 0 <= i < |inputs| ==> r[i] == CopiedIn(inputs[i], origId, newId)
  {
    seq(|inputs|, i requires 0 <= i < |inputs| => CopiedIn(inputs[i], origId, newId))
  }

  /** An input after `removeFromExtractedInputs`: each of its extractions
      from the interface is removed in turn. */
  function PrunedIn(input: Input, id: Option<string>): Input {
    match input
    case Extracted(inputId, ex) => Extracted(inputId, RemoveEach(ex, Filter(ex, ExtractsFrom(id))))
    case OtherInput(_) => input
  }

  function InputsWithout(inputs: seq<Input>, id: Option<string>): (r: seq<Input>)
    ensures |r| == |inputs|
    ensures forall i :: 0 <= i < |inputs| ==> r[i] == PrunedIn(inputs[i], id)
  {
    seq(|inputs|, i requires 0 <= i < |inputs| => PrunedIn(inputs[i], id))
  }

  /** After the removal an extracted input keeps exactly its extractions
      from other interfaces, in their order. */
  lemma PrunedKeepsOthers(input: Input, id: Option<string>)
    requires input.Extracted?
    ensures PrunedIn(input, id).extractions == Filter(input.extractions, ExtractsElsewhere(id))
  {
    RemoveEachFiltered(input.extractions, ExtractsFrom(id), ExtractsElsewhere(id));
  }

  /** An interface without the first of its parameters with this key. */
  function WithoutParameter(i: Interface, key: nat): Interface {
    var j := FirstWhere(i.parameters, ParameterHasKey(key));
    if j < 0 then i else i.(parameters := RemoveAt(i.parameters, j))
  }

  /** `ADD_INTERFACE`: a clone of a random interface goes to the end of the
      system and of `addedInterfaces`; then the original's annotation, if
      there is one, is cloned for it, and its extractions are copied. */
  function AfterAddInterface(st: State, pick: nat): (r: (Status, State))
    ensures |st.interfaces| == 0 ==> r == (Failed(Crash(IllegalArgument)), st)
    ensures |st.interfaces| > 0 ==> |r.1.interfaces| == |st.interfaces| + 1 && r.1.interfaces[..|st.interfaces|] == st.interfaces
    ensures r.1.nextKey >= st.nextKey
  {
    var sel := SelectIndex(|st.interfaces|, pick);
    if sel.Err? then (Failed(sel.failure), st)
    else
      var orig := st.interfaces[sel.value];
      var clone := ClonedInterface(orig, st.nextKey);
      var grown := st.(interfaces := st.interfaces + [clone], addedInterfaces := st.addedInterfaces + [clone.key],
                       nextKey := st.nextKey + 1 + |orig.parameters|);
      CloneAnnotated(grown, orig, clone)
  }

  /** The second half of `ADD_INTERFACE`, once the clone is in the system:
      its annotation and its extractions. */
  function CloneAnnotated(grown: State, orig: Interface, clone: Interface): (Status, State) {
    var ai := FirstWhere(grown.annotations, Annotates(orig.id));
    var annotated :=
      if ai < 0 then Ok(grown.annotations)
      else
        var ann :- AnnotationClone(grown.annotations[ai], clone, grown.interfaces);
        Ok(grown.annotations + [ann]);
    if annotated.Err? then (Failed(annotated.failure), grown)
    else (Done, grown.(annotations := annotated.value, inputs := InputsWithCopies(grown.inputs, orig.id, OrNull(clone.id))))
  }

  /** `ADD_PARAMETER`: a clone of a random included parameter is added to
      its interface and the original pair is recorded; both happen before
      its annotation is cloned, which throws when the interface or the
      parameter has no annotation. */
  function AfterAddParameter(st: State, pick: nat, patterns: seq<string>, matches: (string, string) -> bool): (r: (Status, State))
    ensures |Positions(st.interfaces, AddableParameter(patterns, matches))| == 0 ==> r == (Failed(Crash(IllegalArgument)), st)
    ensures |r.1.interfaces| == |st.interfaces|
    ensures r.1.nextKey >= st.nextKey
  {
    var positions := Positions(st.interfaces, AddableParameter(patterns, matches));
    var sel := SelectIndex(|positions|, pick);
    if sel.Err? then (Failed(sel.failure), st)
    else
      var i := positions[sel.value].0;
      var owner := st.interfaces[i];
      var orig := owner.parameters[positions[sel.value].1];
      var clone := CloneParameter(orig, st.nextKey);
      var grown := st.(addedParameters := st.addedParameters + [ParameterRef(owner.key, owner.id, orig.key, orig.id)],
                       interfaces := st.interfaces[i := owner.(parameters := owner.parameters + [clone])],
                       nextKey := st.nextKey + 1);
      var ai := FirstWhere(grown.annotations, Annotates(owner.id));
      if ai < 0 then (Failed(Crash(NullPointer)), grown)
      else
        var ann := grown.annotations[ai];
        var pai := FirstWhere(ann.parameterAnnotations, AnnotatesParameter(orig.id));
        if pai < 0 then (Failed(Crash(NullPointer)), grown)
        else
          var found := ann.parameterAnnotations[pai];
          var copy := ParameterAnnotation(OrNull(clone.id), found.input, found.overrides);
          (Done, grown.(annotations := grown.annotations[ai := ann.(parameterAnnotations := ann.parameterAnnotations + [copy])]))
  }

  /** `CHANGE_INTERFACE_PATH`: "/changed" is appended to a random interface's path. */
  function AfterChangeInterfacePath(st: State, pick: nat): (r: (Status, State))
    ensures r.0.Failed? <==> |st.interfaces| == 0
    ensures |r.1.interfaces| == |st.interfaces| && r.1.nextKey == st.nextKey
  {
    var sel := SelectIndex(|st.interfaces|, pick);
    if sel.Err? then (Failed(sel.failure), st)
    else
      var i := st.interfaces[sel.value];
      (Done, st.(interfaces := st.interfaces[sel.value := i.(path := i.path + "/changed")]))
  }

  /** `CHANGE_PARAMETER_NAME`: "-changed" is appended to the name of a
      random included parameter that is no URL part. */
  function AfterChangeParameterName(st: State, pick: nat, patterns: seq<string>, matches: (string, string) -> bool): (r: (Status, State))
    ensures r.0.Failed? <==> |Positions(st.interfaces, RenamableParameter(patterns, matches))| == 0
    ensures |r.1.interfaces| == |st.interfaces| && r.1.nextKey == st.nextKey
  {
    var positions := Positions(st.interfaces, RenamableParameter(patterns, matches));
    var sel := SelectIndex(|positions|, pick);
    if sel.Err? then (Failed(sel.failure), st)
    else
      var (i, j) := positions[sel.value];
      var owner := st.interfaces[i];
      var p := owner.parameters[j];
      (Done, st.(interfaces := st.interfaces[i := owner.(parameters := owner.parameters[j := p.(name := p.name + "-changed")])]))
  }

  /** `REMOVE_INTERFACE`: a random interface recorded in `addedInterfaces`
      leaves that list and, when it is still in the system, the system,
      together with its annotation and its extractions. */
  function AfterRemoveInterface(st: State, pick: nat): (r: (Status, State))
    ensures r.0.Failed? <==> |st.addedInterfaces| == 0
    ensures |r.1.interfaces| <= |st.interfaces| && r.1.nextKey == st.nextKey
  {
    var sel := SelectIndex(|st.addedInterfaces|, pick);
    if sel.Err? then (Failed(sel.failure), st)
    else
      var key := st.addedInterfaces[sel.value];
      var recorded := RemoveFirst(st.addedInterfaces, key);
      var k := FirstWhere(st.interfaces, HasKey(key));
      if k < 0 then (Done, st.(addedInterfaces := recorded))
      else
        var gone := st.interfaces[k];
        var ai := FirstWhere(st.annotations, Annotates(gone.id));
        (Done, st.(addedInterfaces := recorded, interfaces := RemoveAt(st.interfaces, k),
                   annotations := if ai < 0 then st.annotations else RemoveAt(st.annotations, ai),
                   inputs := InputsWithout(st.inputs, gone.id)))
  }

  /** `REMOVE_PARAMETER`: the parameter of a random recorded pair leaves its
      interface, then its annotation leaves the interface's annotation; an
      interface without annotation makes the lookup dereference null. The
      pair stays recorded. */
  function AfterRemoveParameter(st: State, pick: nat): (r: (Status, State))
    ensures |st.addedParameters| == 0 ==> r == (Failed(Crash(IllegalArgument)), st)
    ensures |r.1.interfaces| == |st.interfaces| && r.1.addedParameters == st.addedParameters && r.1.nextKey == st.nextKey
  {
    var sel := SelectIndex(|st.addedParameters|, pick);
    if sel.Err? then (Failed(sel.failure), st)
    else
      var ref := st.addedParameters[sel.value];
      var k := FirstWhere(st.interfaces, HasKey(ref.interfaceKey));
      var pruned := if k < 0 then st else st.(interfaces := st.interfaces[k := WithoutParameter(st.interfaces[k], ref.parameterKey)]);
      var ai := FirstWhere(pruned.annotations, Annotates(ref.interfaceId));
      if ai < 0 then (Failed(Crash(NullPointer)), pruned)
      else
        var ann := pruned.annotations[ai];
        var pai := FirstWhere(ann.parameterAnnotations, AnnotatesParameter(ref.parameterId));
        if pai < 0 then (Done, pruned)
        else (Done, pruned.(annotations := pruned.annotations[ai := ann.(parameterAnnotations := RemoveAt(ann.parameterAnnotations, pai))]))
  }

  /** `applyChange`. */
  function Applied(st: State, change: ChangeType, pick: nat, patterns: seq<string>, matches: (string, string) -> bool): (r: (Status, State))
    ensures r.1.nextKey >= st.nextKey
  {
    match change
    case AddInterface => AfterAddInterface(st, pick)
    case AddParameter => AfterAddParameter(st, pick, patterns, matches)
    case ChangeInterfacePath => AfterChangeInterfacePath(st, pick)
    case ChangeParameterName => AfterChangeParameterName(st, pick, patterns, matches)
    case RemoveInterface => AfterRemoveInterface(st, pick)
    case RemoveParameter => AfterRemoveParameter(st, pick)
  }

  /** The changes applied in order; the first that throws ends the sequence. */
  function AppliedAll(st: State, changes: seq<ChangeType>, picks: seq<nat>, patterns: seq<string>, matches: (string, string) -> bool): (r: (Status, State))
    requires |picks| == |changes|
    ensures r.1.nextKey >= st.nextKey
  {
    if |changes| == 0 then (Done, st)
    else
      var n := |changes| - 1;
      var before := AppliedAll(st, changes[..n], picks[..n], patterns, matches);
      if before.0.Failed? then before else Applied(before.1, changes[n], picks[n], patterns, matches)
  }

  lemma {:induction false} AppliedAllFails(st: State, changes: seq<ChangeType>, picks: seq<nat>, patterns: seq<string>, matches: (string, string) -> bool, k: nat)
    requires |picks| == |changes| && k <= |changes|
    requires AppliedAll(st, changes[..k], picks[..k], patterns, matches).0.Failed?
    ensures AppliedAll(st, changes, picks, patterns, matches) == AppliedAll(st, changes[..k], picks[..k], patterns, matches)
    decreases |changes| - k
  {
    if k < |changes| {
      assert changes[..k + 1][..k] == changes[..k] && picks[..k + 1][..k] == picks[..k];
      AppliedAllFails(st, changes, picks, patterns, matches, k + 1);
    } else {
      assert changes[..k] == changes && picks[..k] == picks;
    }
  }

  lemma AppliedAllStep(st: State, changes: seq<ChangeType>, picks: seq<nat>, patterns: seq<string>, matches: (string, string) -> bool, n: nat)
    requires |picks| == |changes| && n < |changes|
    ensures var before := AppliedAll(st, changes[..n], picks[..n], patterns, matches);
      AppliedAll(st, changes[..n + 1], picks[..n + 1], patterns, matches) ==
        if before.0.Failed? then before else Applied(before.1, changes[n], picks[n], patterns, matches)
  {
    assert changes[..n + 1][..n] == changes[..n] && picks[..n + 1][..n] == picks[..n];
  }

  /** The bookkeeping of `addChanges` after n changes: the current group
      and how many of its changes are done, the `collectChanges` calls so
      far (version and changes applied by then) and the group of each
      change applied. */
  ghost predicate Batched(counts: seq<int>, changeIdx: nat, innerIdx: int, n: nat, collected: seq<(int, int)>, groups: seq<nat>) {
    changeIdx < |counts| && 0 <= innerIdx <= counts[changeIdx] && n == Sum(counts[..changeIdx]) + innerIdx &&
    |collected| == changeIdx && CollectedUpTo(counts, collected) &&
    |groups| == n && GroupsCover(counts, groups)
  }

  /** Each `collectChanges` call k so far has version 2 + k and comes after
      the first k + 1 groups. */
  ghost predicate CollectedUpTo(counts: seq<int>, collected: seq<(int, int)>) {
    |collected| < |counts| && forall k :: 0 <= k < |collected| ==> collected[k] == (2 + k, Sum(counts[..k + 1]))
  }

  /** Change i belongs to group groups[i]. */
  ghost predicate GroupsCover(counts: seq<int>, groups: seq<nat>) {
    forall i :: 0 <= i < |groups| ==> groups[i] < |counts| && Sum(counts[..groups[i]]) <= i < Sum(counts[..groups[i] + 1])
  }

  /** A full group before the last change: the next group exists. */
  lemma NextGroup(counts: seq<int>, changeIdx: nat, innerIdx: int, n: nat, collected: seq<(int, int)>, groups: seq<nat>)
    requires forall i :: 0 <= i < |counts| ==> counts[i] >= 1
    requires Batched(counts, changeIdx, innerIdx, n, collected, groups)
    requires innerIdx == counts[changeIdx] && n < Sum(counts)
    ensures changeIdx + 1 < |counts|
    ensures Batched(counts, changeIdx + 1, 0, n, collected + [(2 + changeIdx, n)], groups)
  {
    PrefixSumStep(counts, changeIdx);
    assert n == Sum(counts[..changeIdx + 1]);
    assert changeIdx + 1 < |counts| by {
      assert counts[..|counts|] == counts;
    }
    assert counts[changeIdx + 1] >= 1;
    CollectedStep(counts, collected, n);
  }

  lemma CollectedStep(counts: seq<int>, collected: seq<(int, int)>, n: int)
    requires CollectedUpTo(counts, collected) && |collected| + 1 < |counts|
    requires n == Sum(counts[..|collected| + 1])
    ensures CollectedUpTo(counts, collected + [(2 + |collected|, n)])
  {
    var next := collected + [(2 + |collected|, n)];
    assert forall k :: 0 <= k < |collected| ==> next[k] == collected[k];
  }

  lemma GroupsStep(counts: seq<int>, groups: seq<nat>, g: nat)
    requires GroupsCover(counts, groups) && g < |counts|
    requires Sum(counts[..g]) <= |groups| < Sum(counts[..g + 1])
    ensures GroupsCover(counts, groups + [g])
  {
    var next := groups + [g];
    assert forall i :: 0 <= i < |groups| ==> next[i] == groups[i];
  }

  lemma NextChange(counts: seq<int>, changeIdx: nat, innerIdx: int, n: nat, collected: seq<(int, int)>, groups: seq<nat>)
    requires forall i :: 0 <= i < |counts| ==> counts[i] >= 1
    requires Batched(counts, changeIdx, innerIdx, n, collected, groups)
    requires innerIdx == 0 || innerIdx < counts[changeIdx]
    ensures Batched(counts, changeIdx, innerIdx + 1, n + 1, collected, groups + [changeIdx])
  {
    PrefixSumStep(counts, changeIdx);
    GroupsStep(counts, groups, changeIdx);
  }

  /** After all the changes the last group is the current one: no
      `collectChanges` comes after it. */
  lemma LastGroup(counts: seq<int>, changeIdx: nat, innerIdx: int, n: nat, collected: seq<(int, int)>, groups: seq<nat>)
    requires forall i :: 0 <= i < |counts| ==> counts[i] >= 1
    requires Batched(counts, changeIdx, innerIdx, n, collected, groups)
    requires n == Sum(counts)
    ensures changeIdx == |counts| - 1
  {
    assert counts[..|counts|] == counts;
    if changeIdx + 1 < |counts| {
      PrefixSumStep(counts, changeIdx);
      PrefixSumGrows(counts, changeIdx + 1, |counts|);
    }
  }

  /** One more than every key in the interfaces and their parameters. */
  function KeyBound(ifs: seq<Interface>): (r: nat)
    ensures forall i :: 0 <= i < |ifs| ==> ifs[i].key < r
    ensures forall i, j :: 0 <= i < |ifs| && 0 <= j < |ifs[i].parameters| ==> ifs[i].parameters[j].key < r
  {
    if |ifs| == 0 then 0
    else
      var last := ifs[|ifs| - 1];
      var init := KeyBound(ifs[..|ifs| - 1]);
      assert forall i :: 0 <= i < |ifs| - 1 ==> ifs[..|ifs| - 1][i] == ifs[i];
      var own := ParameterKeyBound(last.parameters);
      var b := if init > last.key + 1 then init else last.key + 1;
      if b > own then b else own
  }

  function ParameterKeyBound(ps: seq<Parameter>): (r: nat)
    ensures forall j :: 0 <= j < |ps| ==> ps[j].key < r
  {
    if |ps| == 0 then 0
    else
      var rest := ParameterKeyBound(ps[1..]);
      assert forall j :: 1 <= j < |ps| ==> ps[1..][j - 1] == ps[j];
      if rest > ps[0].key + 1 then rest else ps[0].key + 1
  }

  /** Every object of the system has a key below the next free one. */
  predicate KeysBelow(st: State) {
    (forall i :: 0 <= i < |st.interfaces| ==> st.interfaces[i].key < st.nextKey) &&
    (forall i, j :: 0 <= i < |st.interfaces| && 0 <= j < |st.interfaces[i].parameters| ==>
      st.interfaces[i].parameters[j].key < st.nextKey)
  }

  /** The second half of `ADD_INTERFACE` touches only the annotation and
      the inputs. */
  lemma CloneAnnotatedKeepsSystem(grown: State, orig: Interface, clone: Interface)
    ensures CloneAnnotated(grown, orig, clone).1.(annotations := grown.annotations, inputs := grown.inputs) == grown
  {
  }

  /** `ADD_INTERFACE` on an empty system throws IllegalArgumentException and
      changes nothing. Otherwise the clone of the picked interface ends both
      the system's interfaces and `addedInterfaces`, whether or not cloning
      its annotation then throws; with every key below the next free one,
      the clone's key and its parameters' keys are new. */
  lemma AddInterfaceAppendsClone(st: State, pick: nat)
    ensures |st.interfaces| == 0 ==> AfterAddInterface(st, pick) == (Failed(Crash(IllegalArgument)), st)
    ensures |st.interfaces| > 0 ==>
      var clone := ClonedInterface(st.interfaces[pick % |st.interfaces|], st.nextKey);
      var after := AfterAddInterface(st, pick).1;
      after.interfaces == st.interfaces + [clone] &&
      after.addedInterfaces == st.addedInterfaces + [clone.key] &&
      after.addedParameters == st.addedParameters
    ensures |st.interfaces| > 0 && KeysBelow(st) ==>
      var clone := ClonedInterface(st.interfaces[pick % |st.interfaces|], st.nextKey);
      (forall i :: 0 <= i < |st.interfaces| ==> st.interfaces[i].key < clone.key) &&
      (forall j :: 0 <= j < |clone.parameters| ==> clone.key < clone.parameters[j].key) &&
      KeysBelow(AfterAddInterface(st, pick).1)
  {
    if |st.interfaces| > 0 {
      var orig := st.interfaces[pick % |st.interfaces|];
      var clone := ClonedInterface(orig, st.nextKey);
      var grown := st.(interfaces := st.interfaces + [clone], addedInterfaces := st.addedInterfaces + [clone.key],
                       nextKey := st.nextKey + 1 + |orig.parameters|);
      CloneAnnotatedKeepsSystem(grown, orig, clone);
      assert AfterAddInterface(st, pick).1.(annotations := grown.annotations, inputs := grown.inputs) == grown;
    }
  }

  /** `ADD_PARAMETER` with no included parameter throws
      IllegalArgumentException and changes nothing. Otherwise the picked
      parameter is an included one; its clone ends its interface's
      parameters, and what `addedParameters` records is the original pair,
      which with every key below the next free one is not the clone. */
  lemma AddParameterRecordsOriginal(st: State, pick: nat, patterns: seq<string>, matches: (string, string) -> bool)
    ensures |Positions(st.interfaces, AddableParameter(patterns, matches))| == 0 ==>
      AfterAddParameter(st, pick, patterns, matches) == (Failed(Crash(IllegalArgument)), st)
    ensures var positions := Positions(st.interfaces, AddableParameter(patterns, matches));
      |positions| > 0 ==>
        var (i, j) := positions[pick % |positions|];
        var owner := st.interfaces[i];
        var orig := owner.parameters[j];
        var after := AfterAddParameter(st, pick, patterns, matches).1;
        Included(orig.id, patterns, matches) &&
        |after.interfaces| == |st.interfaces| &&
        after.interfaces[i].parameters == owner.parameters + [CloneParameter(orig, st.nextKey)] &&
        (forall k :: 0 <= k < |st.interfaces| && k != i ==> after.interfaces[k] == st.interfaces[k]) &&
        after.addedParameters == st.addedParameters + [ParameterRef(owner.key, owner.id, orig.key, orig.id)] &&
        after.addedInterfaces == st.addedInterfaces &&
        (KeysBelow(st) ==> orig.key != CloneParameter(orig, st.nextKey).key)
  {
  }

  /** `CHANGE_INTERFACE_PATH` on an empty system throws
      IllegalArgumentException and changes nothing; otherwise exactly the
      picked interface changes, and only by "/changed" after its path. */
  lemma ChangeInterfacePathRules(st: State, pick: nat)
    ensures |st.interfaces| == 0 ==> AfterChangeInterfacePath(st, pick) == (Failed(Crash(IllegalArgument)), st)
    ensures |st.interfaces| > 0 ==>
      var k := pick % |st.interfaces|;
      var (s, after) := AfterChangeInterfacePath(st, pick);
      s == Done && |after.interfaces| == |st.interfaces| &&
      after.interfaces[k].path == st.interfaces[k].path + "/changed" &&
      after.interfaces[k].(path := st.interfaces[k].path) == st.interfaces[k] &&
      (forall i :: 0 <= i < |st.interfaces| && i != k ==> after.interfaces[i] == st.interfaces[i]) &&
      after.(interfaces := st.interfaces) == st
  {
  }

  /** `CHANGE_PARAMETER_NAME` with no included parameter outside the URL
      throws IllegalArgumentException and changes nothing; otherwise the
      renamed parameter is included and no URL part, it gets "-changed"
      after its name, and nothing else changes. */
  lemma ChangeParameterNameRules(st: State, pick: nat, patterns: seq<string>, matches: (string, string) -> bool)
    ensures |Positions(st.interfaces, RenamableParameter(patterns, matches))| == 0 ==>
      AfterChangeParameterName(st, pick, patterns, matches) == (Failed(Crash(IllegalArgument)), st)
    ensures var positions := Positions(st.interfaces, RenamableParameter(patterns, matches));
      |positions| > 0 ==>
        var (i, j) := positions[pick % |positions|];
        var p := st.interfaces[i].parameters[j];
        var (s, after) := AfterChangeParameterName(st, pick, patterns, matches);
        s == Done && p.parameterType != UrlPart && Included(p.id, patterns, matches) &&
        after.interfaces == st.interfaces[i := st.interfaces[i].(parameters := st.interfaces[i].parameters[j := p.(name := p.name + "-changed")])] &&
        after.(interfaces := st.interfaces) == st
  {
    var positions := Positions(st.interfaces, RenamableParameter(patterns, matches));
    if |positions| > 0 {
      var (i, j) := positions[pick % |positions|];
      assert RenamableParameter(patterns, matches)(st.interfaces[i].parameters[j]);
    }
  }

  /** `REMOVE_INTERFACE` with nothing recorded throws
      IllegalArgumentException and changes nothing. Otherwise the picked
      recorded key leaves `addedInterfaces`, and the recorded parameters
      and the next free key stay. */
  lemma RemoveInterfaceOnlyRecorded(st: State, pick: nat)
    ensures |st.addedInterfaces| == 0 ==> AfterRemoveInterface(st, pick) == (Failed(Crash(IllegalArgument)), st)
    ensures |st.addedInterfaces| > 0 ==>
      var key := st.addedInterfaces[pick % |st.addedInterfaces|];
      var (s, after) := AfterRemoveInterface(st, pick);
      s == Done && after.addedInterfaces == RemoveFirst(st.addedInterfaces, key) &&
      after.addedParameters == st.addedParameters && after.nextKey == st.nextKey
  {
  }

  /** `REMOVE_INTERFACE` takes at most one interface out of the system, adds
      none, and keeps every interface whose key was never recorded (every
      interface of the original system). */
  lemma RemoveInterfaceKeepsOriginals(st: State, pick: nat)
    ensures var after := AfterRemoveInterface(st, pick).1;
      |st.interfaces| - 1 <= |after.interfaces| <= |st.interfaces| &&
      (forall x :: x in after.interfaces ==> x in st.interfaces) &&
      (forall i :: 0 <= i < |st.interfaces| && st.interfaces[i].key !in st.addedInterfaces ==> st.interfaces[i] in after.interfaces)
  {
    var after := AfterRemoveInterface(st, pick).1;
    var original := (i: Interface) => i.key !in st.addedInterfaces;
    var k := if |st.addedInterfaces| == 0 then -1
             else FirstWhere(st.interfaces, HasKey(st.addedInterfaces[pick % |st.addedInterfaces|]));
    RemovedAtMostOne(st.interfaces, after.interfaces, k, original);
  }

  /** `REMOVE_PARAMETER` with nothing recorded throws
      IllegalArgumentException and changes nothing; in every case the
      records in `addedParameters` stay as they are. */
  lemma RemoveParameterKeepsRecords(st: State, pick: nat)
    ensures |st.addedParameters| == 0 ==> AfterRemoveParameter(st, pick) == (Failed(Crash(IllegalArgument)), st)
    ensures AfterRemoveParameter(st, pick).1.addedParameters == st.addedParameters
    ensures AfterRemoveParameter(st, pick).1.addedInterfaces == st.addedInterfaces
    ensures |AfterRemoveParameter(st, pick).1.interfaces| == |st.interfaces|
  {
  }

  /** Since the pair recorded by `ADD_PARAMETER` is the original one, a
      `REMOVE_PARAMETER` that picks that record takes a parameter with the
      original's key out of the interface, never the clone, which stays. */
  lemma RemoveAfterAddKeepsClone(st: State, pick: nat, pick': nat, patterns: seq<string>, matches: (string, string) -> bool)
    requires KeysBelow(st)
    requires |Positions(st.interfaces, AddableParameter(patterns, matches))| > 0
    requires var mid := AfterAddParameter(st, pick, patterns, matches).1;
      pick' % |mid.addedParameters| == |mid.addedParameters| - 1
    ensures var positions := Positions(st.interfaces, AddableParameter(patterns, matches));
      var (i, j) := positions[pick % |positions|];
      var clone := CloneParameter(st.interfaces[i].parameters[j], st.nextKey);
      var mid := AfterAddParameter(st, pick, patterns, matches).1;
      var after := AfterRemoveParameter(mid, pick').1;
      clone in mid.interfaces[i].parameters && clone in after.interfaces[i].parameters
  {
    var positions := Positions(st.interfaces, AddableParameter(patterns, matches));
    var (i, j) := positions[pick % |positions|];
    var orig := st.interfaces[i].parameters[j];
    var clone := CloneParameter(orig, st.nextKey);
    AddParameterRecordsOriginal(st, pick, patterns, matches);
    var mid := AfterAddParameter(st, pick, patterns, matches).1;
    assert clone in mid.interfaces[i].parameters by {
      assert mid.interfaces[i].parameters == st.interfaces[i].parameters + [clone];
    }
    var ref := mid.addedParameters[pick' % |mid.addedParameters|];
    assert ref.parameterKey == orig.key;
    RemoveParameterInterfaces(mid, pick');
    if FirstWhere(mid.interfaces, HasKey(ref.interfaceKey)) == i {
      WithoutParameterKeepsOthers(mid.interfaces[i], orig.key, clone);
    }
  }

  /** `REMOVE_PARAMETER` changes at most the interface holding the picked
      record's interface key, and that one only by dropping its first
      parameter with the recorded parameter key. */
  lemma RemoveParameterInterfaces(st: State, pick: nat)
    ensures var after := AfterRemoveParameter(st, pick).1;
      after.nextKey == st.nextKey &&
      (|st.addedParameters| == 0 ==> after.interfaces == st.interfaces) &&
      (|st.addedParameters| > 0 ==>
        var ref := st.addedParameters[pick % |st.addedParameters|];
        var k := FirstWhere(st.interfaces, HasKey(ref.interfaceKey));
        after.interfaces == if k < 0 then st.interfaces else st.interfaces[k := WithoutParameter(st.interfaces[k], ref.parameterKey)])
  {
  }

  /** Dropping the first parameter with a key keeps every parameter with
      another key. */
  lemma WithoutParameterKeepsOthers(i: Interface, key: nat, x: Parameter)
    requires x in i.parameters && x.key != key
    ensures x in WithoutParameter(i, key).parameters
  {
    var j := FirstWhere(i.parameters, ParameterHasKey(key));
    if j >= 0 {
      var q :| 0 <= q < |i.parameters| && i.parameters[q] == x;
      var r := RemoveAt(i.parameters, j);
      if q < j {
        assert r[q] == x;
      } else {
        assert q > j;
        assert r[q - 1] == x;
      }
    }
  }

  /** An interface whose keys are below a bound stays so once one of its
      parameters is gone. */
  lemma WithoutParameterKeysBelow(i: Interface, key: nat, bound: nat)
    requires i.key < bound && forall j :: 0 <= j < |i.parameters| ==> i.parameters[j].key < bound
    ensures WithoutParameter(i, key).key < bound
    ensures forall j :: 0 <= j < |WithoutParameter(i, key).parameters| ==> WithoutParameter(i, key).parameters[j].key < bound
  {
  }

  /** Keys below the next free one hold for a system made of interfaces
      taken from one where they hold. */
  lemma SubsystemKeysBelow(st: State, ifs: seq<Interface>)
    requires KeysBelow(st)
    requires forall x :: x in ifs ==> x in st.interfaces
    ensures KeysBelow(st.(interfaces := ifs))
  {
    forall i | 0 <= i < |ifs|
      ensures ifs[i].key < st.nextKey && forall j :: 0 <= j < |ifs[i].parameters| ==> ifs[i].parameters[j].key < st.nextKey
    {
      assert ifs[i] in st.interfaces;
    }
  }

  /** Replacing one interface by one whose keys are below the bound keeps
      all keys below it. */
  lemma ReplacedKeysBelow(st: State, k: nat, w: Interface, bound: nat)
    requires KeysBelow(st) && k < |st.interfaces| && st.nextKey <= bound
    requires w.key < bound && forall j :: 0 <= j < |w.parameters| ==> w.parameters[j].key < bound
    ensures KeysBelow(st.(interfaces := st.interfaces[k := w], nextKey := bound))
  {
  }

  lemma AddParameterKeepsKeysBelow(st: State, pick: nat, patterns: seq<string>, matches: (string, string) -> bool)
    requires KeysBelow(st)
    ensures KeysBelow(AfterAddParameter(st, pick, patterns, matches).1)
  {
    var positions := Positions(st.interfaces, AddableParameter(patterns, matches));
    if |positions| > 0 {
      var (i, j) := positions[pick % |positions|];
      var owner := st.interfaces[i];
      var w := owner.(parameters := owner.parameters + [CloneParameter(owner.parameters[j], st.nextKey)]);
      assert forall q :: 0 <= q < |w.parameters| ==> w.parameters[q].key < st.nextKey + 1 by {
        forall q | 0 <= q < |w.parameters| ensures w.parameters[q].key < st.nextKey + 1 {
          if q < |owner.parameters| {
            assert w.parameters[q] == owner.parameters[q];
          }
        }
      }
      ReplacedKeysBelow(st, i, w, st.nextKey + 1);
      AddParameterInterfaces(st, pick, patterns, matches);
    }
  }

  /** `ADD_PARAMETER`, when some parameter can be picked, changes the
      system only by the clone at the end of the picked parameter's
      interface, and takes one key. */
  lemma AddParameterInterfaces(st: State, pick: nat, patterns: seq<string>, matches: (string, string) -> bool)
    requires |Positions(st.interfaces, AddableParameter(patterns, matches))| > 0
    ensures var positions := Positions(st.interfaces, AddableParameter(patterns, matches));
      var (i, j) := positions[pick % |positions|];
      var owner := st.interfaces[i];
      var after := AfterAddParameter(st, pick, patterns, matches).1;
      after.interfaces == st.interfaces[i := owner.(parameters := owner.parameters + [CloneParameter(owner.parameters[j], st.nextKey)])] &&
      after.nextKey == st.nextKey + 1
  {
  }

  lemma ChangeParameterNameKeepsKeysBelow(st: State, pick: nat, patterns: seq<string>, matches: (string, string) -> bool)
    requires KeysBelow(st)
    ensures KeysBelow(AfterChangeParameterName(st, pick, patterns, matches).1)
  {
    var positions := Positions(st.interfaces, RenamableParameter(patterns, matches));
    if |positions| > 0 {
      var (i, j) := positions[pick % |positions|];
      var owner := st.interfaces[i];
      var p := owner.parameters[j];
      var w := owner.(parameters := owner.parameters[j := p.(name := p.name + "-changed")]);
      assert forall q :: 0 <= q < |w.parameters| ==> w.parameters[q].key == owner.parameters[q].key;
      ReplacedKeysBelow(st, i, w, st.nextKey);
      var after := AfterChangeParameterName(st, pick, patterns, matches).1;
      assert after.interfaces == st.interfaces[i := w] && after.nextKey == st.nextKey;
    }
  }

  lemma RemoveInterfaceKeepsKeysBelow(st: State, pick: nat)
    requires KeysBelow(st)
    ensures KeysBelow(AfterRemoveInterface(st, pick).1)
  {
    var after := AfterRemoveInterface(st, pick).1;
    RemoveInterfaceOnlyRecorded(st, pick);
    RemoveInterfaceKeepsOriginals(st, pick);
    SubsystemKeysBelow(st, after.interfaces);
    assert after.nextKey == st.nextKey;
  }

  lemma RemoveParameterKeepsKeysBelow(st: State, pick: nat)
    requires KeysBelow(st)
    ensures KeysBelow(AfterRemoveParameter(st, pick).1)
  {
    RemoveParameterInterfaces(st, pick);
    if |st.addedParameters| > 0 {
      var ref := st.addedParameters[pick % |st.addedParameters|];
      var k := FirstWhere(st.interfaces, HasKey(ref.interfaceKey));
      if k >= 0 {
        WithoutParameterKeysBelow(st.interfaces[k], ref.parameterKey, st.nextKey);
        ReplacedKeysBelow(st, k, WithoutParameter(st.interfaces[k], ref.parameterKey), st.nextKey);
      }
    }
  }

  /** Every change keeps all keys below the next free one, and so the keys
      handed to new objects are new. */
  lemma AppliedKeepsKeysBelow(st: State, change: ChangeType, pick: nat, patterns: seq<string>, matches: (string, string) -> bool)
    requires KeysBelow(st)
    ensures KeysBelow(Applied(st, change, pick, patterns, matches).1)
  {
    match change
    case AddInterface => AddInterfaceAppendsClone(st, pick);
    case AddParameter => AddParameterKeepsKeysBelow(st, pick, patterns, matches);
    case ChangeInterfacePath => ChangeInterfacePathRules(st, pick);
    case ChangeParameterName => ChangeParameterNameKeepsKeysBelow(st, pick, patterns, matches);
    case RemoveInterface => RemoveInterfaceKeepsKeysBelow(st, pick);
    case RemoveParameter => RemoveParameterKeepsKeysBelow(st, pick);
  }

  /** A whole run of changes keeps all keys below the next free one (shown
      for each prefix of the run). */
  lemma {:induction false} AppliedAllKeepsKeysBelow(st: State, changes: seq<ChangeType>, picks: seq<nat>, patterns: seq<string>, matches: (string, string) -> bool, k: nat)
    requires |picks| == |changes| && k <= |changes| && KeysBelow(st)
    ensures KeysBelow(AppliedAll(st, changes[..k], picks[..k], patterns, matches).1)
  {
    if k > 0 {
      AppliedAllKeepsKeysBelow(st, changes, picks, patterns, matches, k - 1);
      AppliedAllStep(st, changes, picks, patterns, matches, k - 1);
      var before := AppliedAll(st, changes[..k - 1], picks[..k - 1], patterns, matches);
      if !before.0.Failed? {
        AppliedKeepsKeysBelow(before.1, changes[k - 1], picks[k - 1], patterns, matches);
      }
    }
  }

  class ApiChanger {
    var interfaces: seq<Interface>
    var annotations: seq<InterfaceAnnotation>
    var inputs: seq<Input>
    var addedInterfaces: seq<nat>
    var addedParameters: seq<ParameterRef>
    var nextKey: nat
    const excludedPatterns: seq<string>
    const matches: (string, string) -> bool

    /** A changer of this system and annotation; nothing is recorded yet. */
    constructor (interfaces: seq<Interface>, annotations: seq<InterfaceAnnotation>, inputs: seq<Input>,
                 excludedPatterns: seq<string>, matches: (string, string) -> bool)
      ensures Current() == State(interfaces, annotations, inputs, [], [], KeyBound(interfaces))
      ensures KeysBelow(Current())
      ensures this.excludedPatterns == excludedPatterns && this.matches == matches
    {
      this.interfaces := interfaces;
      this.annotations := annotations;
      this.inputs := inputs;
      addedInterfaces := [];
      addedParameters := [];
      nextKey := KeyBound(interfaces);
      this.excludedPatterns := excludedPatterns;
      this.matches := matches;
    }

    function Current(): State
      reads this
    {
      State(interfaces, annotations, inputs, addedInterfaces, addedParameters, nextKey)
    }

    /** `isIncluded`. */
    method IsIncluded(id: Option<string>) returns (r: bool)
      ensures r <==> Included(id, excludedPatterns, matches)
      ensures !r <==> id.Some? && exists k :: 0 <= k < |excludedPatterns| && matches(id.value, excludedPatterns[k])
    {
      var k := 0;
      while k < |excludedPatterns|
        invariant 0 <= k <= |excludedPatterns|
        invariant id.Some? ==> forall j :: 0 <= j < k ==> !matches(id.value, excludedPatterns[j])
      {
        if id.Some? && matches(id.value, excludedPatterns[k]) {
          return false;
        }
        k := k + 1;
      }
      return true;
    }

    /** `findAnnotation(interf)`: the position of the first interface
        annotation for the id, or -1 for null. */
    method FindAnnotation(id: Option<string>) returns (r: int)
      ensures r == FirstWhere(annotations, Annotates(id))
    {
      var k := 0;
      while k < |annotations|
        invariant 0 <= k <= |annotations|
        invariant forall j :: 0 <= j < k ==> !Annotates(id)(annotations[j])
      {
        if Some(annotations[k].interfaceId) == id {
          return k;
        }
        k := k + 1;
      }
      return -1;
    }

    /** `findAnnotation(param, interfAnn)`: the position of the first
        parameter annotation for the id, or -1 for null. */
    method FindParameterAnnotation(id: Option<string>, interfAnn: InterfaceAnnotation) returns (r: int)
      ensures r == FirstWhere(interfAnn.parameterAnnotations, AnnotatesParameter(id))
    {
      var anns := interfAnn.parameterAnnotations;
      var k := 0;
      while k < |anns|
        invariant 0 <= k <= |anns|
        invariant forall j :: 0 <= j < k ==> !AnnotatesParameter(id)(anns[j])
      {
        if Some(anns[k].parameterId) == id {
          return k;
        }
        k := k + 1;
      }
      return -1;
    }

    /** `cloneInterface`, with the new objects taking the keys from `key` on. */
    method CloneInterface(orig: Interface, key: nat) returns (r: Interface)
      ensures r == ClonedInterface(orig, key)
    {
      var newId := OrNull(orig.id) + "_CLONE";
      r := Interface(key, orig.domain, orig.encoding, orig.headers, Some(newId), orig.httpMethod,
        orig.path + "/clone", orig.port, orig.protocol, []);
      var j := 0;
      while j < |orig.parameters|
        invariant 0 <= j <= |orig.parameters|
        invariant r == Interface(key, orig.domain, orig.encoding, orig.headers, Some(newId), orig.httpMethod,
          orig.path + "/clone", orig.port, orig.protocol, ClonedParameters(orig.parameters[..j], newId, key + 1))
      {
        var param := orig.parameters[j];
        var newParam := CloneParameter(param, key + 1 + j);
        newParam := newParam.(id := Some(OrNull(r.id) + "_" + OrNull(param.id)));
        r := r.(parameters := r.parameters + [newParam]);
        assert orig.parameters[..j + 1][..j] == orig.parameters[..j];
        j := j + 1;
      }
      assert orig.parameters[..j] == orig.parameters;
    }

    /** `cloneInterfaceAnnotation`. */
    method CloneInterfaceAnnotation(origAnn: InterfaceAnnotation, newInterf: Interface) returns (r: Result<InterfaceAnnotation>)
      ensures r == AnnotationClone(origAnn, newInterf, interfaces)
    {
      var oi := FirstWhere(interfaces, HasId(origAnn.interfaceId));
      var params := newInterf.parameters;
      var origParams := if oi < 0 then [] else interfaces[oi].parameters;
      var paramAnns := [];
      var k := 0;
      while k < |params|
        invariant 0 <= k <= |params|
        invariant oi >= 0 ==> ParameterAnnotationsFor(params[..k], origParams, origAnn) == Ok(paramAnns)
        invariant oi < 0 ==> k == 0 && paramAnns == []
      {
        if oi < 0 {
          return Err(Crash(NullPointer));
        }
        ParameterAnnotationsStep(params, origParams, origAnn, k, paramAnns);
        var pi := FirstWhere(origParams, Named(params[k].name));
        if pi < 0 {
          ParameterAnnotationsForFails(params, origParams, origAnn, k + 1);
          return Err(Crash(NoSuchElement));
        }
        var ai := FindParameterAnnotation(origParams[pi].id, origAnn);
        if ai < 0 {
          ParameterAnnotationsForFails(params, origParams, origAnn, k + 1);
          return Err(Crash(NullPointer));
        }
        var found := origAnn.parameterAnnotations[ai];
        paramAnns := paramAnns + [ParameterAnnotation(OrNull(params[k].id), found.input, found.overrides)];
        k := k + 1;
      }
      assert params[..k] == params;
      return Ok(InterfaceAnnotation(OrNull(newInterf.id), origAnn.overrides, paramAnns));
    }
  
    /** `addToExtractedInputs`: each extracted input gets, at its end, a
        copy for the new interface of each of its extractions from the
        original one. */
    method AddToExtractedInputs(newInterf: Interface, origInterf: Interface)
      modifies this
      ensures Current() == old(Current()).(inputs := InputsWithCopies(old(inputs), origInterf.id, OrNull(newInterf.id)))
    {
      var newId := OrNull(newInterf.id);
      ghost var before := inputs;
      var i := 0;
      while i < |inputs|
        invariant 0 <= i <= |inputs| == |before|
        invariant forall j :: 0 <= j < i ==> inputs[j] == CopiedIn(before[j], origInterf.id, newId)
        invariant forall j :: i <= j < |inputs| ==> inputs[j] == before[j]
        invariant Current() == old(Current()).(inputs := inputs)
      {
        var input := inputs[i];
        if input.Extracted? {
          var copied := CopyExtractions(input, origInterf.id, newId);
          inputs := inputs[i := copied];
        }
        i := i + 1;
      }
      assert inputs == InputsWithCopies(before, origInterf.id, newId);
    }

    /** The inner loop of `addToExtractedInputs` for one extracted input:
        a copy of each extraction from the original interface, in order,
        goes to its end. */
    method CopyExtractions(input: Input, origId: Option<string>, newId: string) returns (r: Input)
      requires input.Extracted?
      ensures r == CopiedIn(input, origId, newId)
    {
      var matching := Filter(input.extractions, ExtractsFrom(origId));
      var extractions := input.extractions;
      var m := 0;
      while m < |matching|
        invariant 0 <= m <= |matching|
        invariant extractions == input.extractions + Copies(matching[..m], newId)
      {
        assert matching[..m + 1][..m] == matching[..m];
        extractions := extractions + [Redirected(matching[m], newId)];
        m := m + 1;
      }
      assert matching[..m] == matching;
      r := Extracted(input.inputId, extractions);
    }

    /** `removeFromExtractedInputs`: each extraction from the interface is
        removed from its extracted input. */
    method RemoveFromExtractedInputs(interfToRemove: Interface)
      modifies this
      ensures Current() == old(Current()).(inputs := InputsWithout(old(inputs), interfToRemove.id))
    {
      ghost var before := inputs;
      var i := 0;
      while i < |inputs|
        invariant 0 <= i <= |inputs| == |before|
        invariant forall j :: 0 <= j < i ==> inputs[j] == PrunedIn(before[j], interfToRemove.id)
        invariant forall j :: i <= j < |inputs| ==> inputs[j] == before[j]
        invariant Current() == old(Current()).(inputs := inputs)
      {
        var input := inputs[i];
        if input.Extracted? {
          var matching := Filter(input.extractions, ExtractsFrom(interfToRemove.id));
          var extractions := input.extractions;
          var m := 0;
          while m < |matching|
            invariant 0 <= m <= |matching|
            invariant RemoveEach(input.extractions, matching) == RemoveEach(extractions, matching[m..])
          {
            assert matching[m..][1..] == matching[m + 1..];
            extractions := RemoveFirst(extractions, matching[m]);
            m := m + 1;
          }
          inputs := inputs[i := Extracted(input.inputId, extractions)];
        }
        i := i + 1;
      }
      assert inputs == InputsWithout(before, interfToRemove.id);
    }

    method ApplyAddInterface(pick: nat) returns (s: Status)
      modifies this
      ensures (s, Current()) == AfterAddInterface(old(Current()), pick)
    {
      var sel := SelectIndex(|interfaces|, pick);
      if sel.Err? {
        return Failed(sel.failure);
      }
      var origInterf := interfaces[sel.value];
      var newInterf := CloneInterface(origInterf, nextKey);
      nextKey := nextKey + 1 + |origInterf.parameters|;
      addedInterfaces := addedInterfaces + [newInterf.key];
      interfaces := interfaces + [newInterf];
      ghost var grown := Current();
      assert AfterAddInterface(old(Current()), pick) == CloneAnnotated(grown, origInterf, newInterf);
      var ai := FindAnnotation(origInterf.id);
      if ai >= 0 {
        var ann := CloneInterfaceAnnotation(annotations[ai], newInterf);
        if ann.Err? {
          return Failed(ann.failure);
        }
        annotations := annotations + [ann.value];
      }
      AddToExtractedInputs(newInterf, origInterf);
      return Done;
    }

    method ApplyAddParameter(pick: nat) returns (s: Status)
      modifies this
      ensures (s, Current()) == AfterAddParameter(old(Current()), pick, excludedPatterns, matches)
    {
      var params := Positions(interfaces, AddableParameter(excludedPatterns, matches));
      var sel := SelectIndex(|params|, pick);
      if sel.Err? {
        return Failed(sel.failure);
      }
      var i := params[sel.value].0;
      var owner := interfaces[i];
      var origParam := owner.parameters[params[sel.value].1];
      var newParam := CloneParameter(origParam, nextKey);
      nextKey := nextKey + 1;
      addedParameters := addedParameters + [ParameterRef(owner.key, owner.id, origParam.key, origParam.id)];
      interfaces := interfaces[i := owner.(parameters := owner.parameters + [newParam])];
      var ai := FindAnnotation(owner.id);
      if ai < 0 {
        return Failed(Crash(NullPointer));
      }
      var pai := FindParameterAnnotation(origParam.id, annotations[ai]);
      if pai < 0 {
        return Failed(Crash(NullPointer));
      }
      var origParamAnn := annotations[ai].parameterAnnotations[pai];
      var copy := ParameterAnnotation(OrNull(newParam.id), origParamAnn.input, origParamAnn.overrides);
      annotations := annotations[ai := annotations[ai].(parameterAnnotations := annotations[ai].parameterAnnotations + [copy])];
      return Done;
    }

    method ApplyChangeInterfacePath(pick: nat) returns (s: Status)
      modifies this
      ensures (s, Current()) == AfterChangeInterfacePath(old(Current()), pick)
    {
      var sel := SelectIndex(|interfaces|, pick);
      if sel.Err? {
        return Failed(sel.failure);
      }
      var interf := interfaces[sel.value];
      var newPath := interf.path + "/changed";
      interfaces := interfaces[sel.value := interf.(path := newPath)];
      return Done;
    }

    method ApplyChangeParameterName(pick: nat) returns (s: Status)
      modifies this
      ensures (s, Current()) == AfterChangeParameterName(old(Current()), pick, excludedPatterns, matches)
    {
      var parameters := Positions(interfaces, RenamableParameter(excludedPatterns, matches));
      var sel := SelectIndex(|parameters|, pick);
      if sel.Err? {
        return Failed(sel.failure);
      }
      var (i, j) := parameters[sel.value];
      var owner := interfaces[i];
      var param := owner.parameters[j];
      var newName := param.name + "-changed";
      interfaces := interfaces[i := owner.(parameters := owner.parameters[j := param.(name := newName)])];
      return Done;
    }

    method ApplyRemoveInterface(pick: nat) returns (s: Status)
      modifies this
      ensures (s, Current()) == AfterRemoveInterface(old(Current()), pick)
    {
      var sel := SelectIndex(|addedInterfaces|, pick);
      if sel.Err? {
        return Failed(sel.failure);
      }
      var key := addedInterfaces[sel.value];
      addedInterfaces := RemoveFirst(addedInterfaces, key);
      var k := FirstWhere(interfaces, HasKey(key));
      if k < 0 {
        return Done;
      }
      var toRemove := interfaces[k];
      interfaces := RemoveAt(interfaces, k);
      var ai := FindAnnotation(toRemove.id);
      if ai >= 0 {
        annotations := RemoveAt(annotations, ai);
      }
      RemoveFromExtractedInputs(toRemove);
      return Done;
    }

    method ApplyRemoveParameter(pick: nat) returns (s: Status)
      modifies this
      ensures (s, Current()) == AfterRemoveParameter(old(Current()), pick)
    {
      var sel := SelectIndex(|addedParameters|, pick);
      if sel.Err? {
        return Failed(sel.failure);
      }
      var paramToRemove := addedParameters[sel.value];
      var k := FirstWhere(interfaces, HasKey(paramToRemove.interfaceKey));
      if k >= 0 {
        interfaces := interfaces[k := WithoutParameter(interfaces[k], paramToRemove.parameterKey)];
      }
      var ai := FindAnnotation(paramToRemove.interfaceId);
      if ai < 0 {
        return Failed(Crash(NullPointer));
      }
      var pai := FindParameterAnnotation(paramToRemove.parameterId, annotations[ai]);
      if pai >= 0 {
        annotations := annotations[ai := annotations[ai].(parameterAnnotations := RemoveAt(annotations[ai].parameterAnnotations, pai))];
      }
      return Done;
    }

    /** `applyChange`. */
    method ApplyChange(change: ChangeType, pick: nat) returns (s: Status)
      modifies this
      ensures (s, Current()) == Applied(old(Current()), change, pick, excludedPatterns, matches)
    {
      match change {
        case AddInterface => s := ApplyAddInterface(pick);
        case AddParameter => s := ApplyAddParameter(pick);
        case ChangeInterfacePath => s := ApplyChangeInterfacePath(pick);
        case ChangeParameterName => s := ApplyChangeParameterName(pick);
        case RemoveInterface => s := ApplyRemoveInterface(pick);
        case RemoveParameter => s := ApplyRemoveParameter(pick);
      }
    }
  
    /** One more change of the sequence, after all those before it went through. */
    method ApplyNext(ghost start: State, changes: seq<ChangeType>, picks: seq<nat>, n: nat) returns (s: Status)
      requires |picks| == |changes| && n < |changes|
      requires AppliedAll(start, changes[..n], picks[..n], excludedPatterns, matches) == (Done, Current())
      modifies this
      ensures AppliedAll(start, changes[..n + 1], picks[..n + 1], excludedPatterns, matches) == (s, Current())
    {
      s := ApplyChange(changes[n], picks[n]);
      AppliedAllStep(start, changes, picks, excludedPatterns, matches, n);
    }

    /** One pass of the inner loop of `addChanges`: a full group first
        moves on to the next one (calling `collectChanges`), then the next
        change is applied. */
    method BatchStep(ghost start: State, counts: seq<int>, changes: seq<ChangeType>, picks: seq<nat>,
                     changeIdx: nat, innerIdx: int, n: nat, collected: seq<(int, int)>, groups: seq<nat>)
      returns (s: Status, changeIdx': nat, innerIdx': int, collected': seq<(int, int)>, groups': seq<nat>)
      requires forall i :: 0 <= i < |counts| ==> counts[i] >= 1
      requires |picks| == |changes| && |changes| == Sum(counts) && n < |changes|
      requires Batched(counts, changeIdx, innerIdx, n, collected, groups)
      requires AppliedAll(start, changes[..n], picks[..n], excludedPatterns, matches) == (Done, Current())
      modifies this
      ensures Batched(counts, changeIdx', innerIdx' + 1, n + 1, collected', groups')
      ensures AppliedAll(start, changes[..n + 1], picks[..n + 1], excludedPatterns, matches) == (s, Current())
    {
      changeIdx', innerIdx', collected' := changeIdx, innerIdx, collected;
      if innerIdx == counts[changeIdx] {
        NextGroup(counts, changeIdx, innerIdx, n, collected, groups);
        collected' := collected + [(2 + changeIdx, n)];
        changeIdx' := changeIdx + 1;
        innerIdx' := 0;
      }
      NextChange(counts, changeIdx', innerIdx', n, collected', groups);
      groups' := groups + [changeIdx'];
      s := ApplyNext(start, changes, picks, n);
    }

    /** `addChanges`: the 18 change counts are the draws plus one, and the
        changes (as many as the counts add up to) are applied in order.
        `collected` lists the calls of `collectChanges`, each with its
        version and the number of changes applied by then; `groups` gives,
        for each change applied (or attempted), the index of its group. The
        first change that throws ends the run. */
    method AddChanges(draws: seq<nat>, changes: seq<ChangeType>, picks: seq<nat>)
      returns (s: Status, collected: seq<(int, int)>, groups: seq<nat>)
      requires |draws| == NumIterations
      requires forall i :: 0 <= i < |draws| ==> draws[i] < ChangeNumUpperBound - ChangeNumLowerBound
      requires |changes| == Sum(ChangeCounts(draws)) && |picks| == |changes|
      modifies this
      ensures (s, Current()) == AppliedAll(old(Current()), changes, picks, excludedPatterns, matches)
      ensures |groups| <= |changes|
      ensures GroupsCover(ChangeCounts(draws), groups) && CollectedUpTo(ChangeCounts(draws), collected)
      ensures s == Done ==> |groups| == |changes| && |collected| == NumIterations - 1
    {
      var changeNumSequence := ChangeCounts(draws);
      ghost var start := Current();
      var changeIdx := 0;
      var innerIdx := 0;
      var n := 0;
      collected := [];
      groups := [];
      assert changes[..0] == [] && picks[..0] == [];
      while n < |changes|
        invariant n <= |changes|
        invariant Batched(changeNumSequence, changeIdx, innerIdx, n, collected, groups)
        invariant AppliedAll(start, changes[..n], picks[..n], excludedPatterns, matches) == (Done, Current())
      {
        s, changeIdx, innerIdx, collected, groups :=
          BatchStep(start, changeNumSequence, changes, picks, changeIdx, innerIdx, n, collected, groups);
        if s.Failed? {
          AppliedAllFails(start, changes, picks, excludedPatterns, matches, n + 1);
          return;
        }
        innerIdx := innerIdx + 1;
        n := n + 1;
      }
      assert changes[..n] == changes && picks[..n] == picks;
      LastGroup(changeNumSequence, changeIdx, innerIdx, n, collected, groups);
      s := Done;
    }
  }
}
