/** The fake backend's route table: registration checked against the contract, first match wins. */
module Router {
  import opened Common
  import opened PercentEncoding
  import opened Templates

  type Operation = (string, Template)
  datatype Route = Route(verb: string, template: Template, handler: nat)
  type Params = map<string, seq<Byte>>

  /** `Malformed` stands for the `URIError` thrown while decoding a captured segment. */
  datatype Answer = NoRoute | Matched(route: Route, params: Params) | Malformed

  /** `params[name] = decode(...)` for each name in turn, so a repeated name keeps its last value. */
  function Bind(params: Params, names: seq<string>, captures: seq<string>): Option<Params>
    requires |names| == |captures|
    decreases names
  {
    if names == [] then Some(params)
    else
      var value := Decode(captures[0]);
      if value.None? then None else Bind(params[names[0] := value.value], names[1..], captures[1..])
  }

  function Dispatch(route: Route, captures: seq<string>): Answer
    requires |captures| == Holes(route.template)
  {
    var params := Bind(map[], ParamNames(route.template), captures);
    if params.Some? then Matched(route, params.value) else Malformed
  }

  /** The first registered route that has the verb and accepts the path decides. */
  function FirstMatch(routes: seq<Route>, verb: string, path: string): Answer {
    if routes == [] then NoRoute
    else if Accepts(routes[0], verb, path) then
      ExecIsSound(routes[0].template, path);
      Dispatch(routes[0], Exec(routes[0].template, path).value)
    else FirstMatch(routes[1..], verb, path)
  }

  predicate Accepts(route: Route, verb: string, path: string) {
    route.verb == ToLowerCase(verb) && Exec(route.template, path).Some?
  }

  class Table {
    const operations: set<Operation>
    var routes: seq<Route>

    constructor (operations: set<Operation>)
      ensures this.operations == operations && routes == []
    {
      this.operations := operations;
      routes := [];
    }

    ghost predicate Valid()
      reads this
    {
      forall r :: r in routes ==> (r.verb, r.template) in operations
    }

    /** Refuses what the contract does not list; anything else goes to the end of the table. */
    method Register(verb: string, template: Template, handler: nat) returns (known: bool)
      requires Valid()
      modifies this
      ensures Valid()
      ensures known <==> (verb, template) in operations
      ensures routes == if known then old(routes) + [Route(verb, template, handler)] else old(routes)
    {
      known := (verb, template) in operations;
      if known {
        routes := routes + [Route(verb, template, handler)];
      }
    }

    method Match(verb: string, path: string) returns (answer: Answer)
      ensures answer == FirstMatch(routes, verb, path)
    {
      var i := 0;
      while i < |routes|
        invariant i <= |routes|
        invariant FirstMatch(routes, verb, path) == FirstMatch(routes[i..], verb, path)
      {
        var route := routes[i];
        assert routes[i..][1..] == routes[i + 1..];
        if route.verb == ToLowerCase(verb) {
          var result := Exec(route.template, path);
          if result.Some? {
            ExecIsSound(route.template, path);
            answer := FillParams(route, result.value);
            return;
          }
        }
        i := i + 1;
      }
      answer := NoRoute;
    }

    method FillParams(route: Route, captures: seq<string>) returns (answer: Answer)
      requires |captures| == Holes(route.template)
      ensures answer == Dispatch(route, captures)
    {
      var names := ParamNames(route.template);
      var params: Params := map[];
      var i := 0;
      while i < |names|
        invariant i <= |names|
        invariant Bind(params, names[i..], captures[i..]) == Bind(map[], names, captures)
      {
        var value := Decode(captures[i]);
        assert names[i..][1..] == names[i + 1..] && captures[i..][1..] == captures[i + 1..];
        if value.None? {
          return Malformed;
        }
        params := params[names[i] := value.value];
        i := i + 1;
      }
      answer := Matched(route, params);
    }

    method PathExists(path: string) returns (found: bool)
      ensures found <==> exists i :: 0 <= i < |routes| && exists captures :: Matches(routes[i].template, path, captures)
    {
      var i := 0;
      while i < |routes|
        invariant i <= |routes|
        invariant forall j, captures :: 0 <= j < i ==> !Matches(routes[j].template, path, captures)
      {
        if Exec(routes[i].template, path).Some? {
          ExecIsSound(routes[i].template, path);
          return true;
        }
        forall captures ensures !Matches(routes[i].template, path, captures) {
          if Matches(routes[i].template, path, captures) {
            ExecIsComplete(routes[i].template, path, captures);
          }
        }
        i := i + 1;
      }
      found := false;
    }
  }

  // ---------- What a caller gets ----------

  function EncodeAll(values: seq<seq<Byte>>): seq<string> {
    if values == [] then [] else [Encode(values[0])] + EncodeAll(values[1..])
  }

  lemma {:induction false} EncodeAllSpec(values: seq<seq<Byte>>)
    ensures |EncodeAll(values)| == |values|
    ensures forall i :: 0 <= i < |values| ==> EncodeAll(values)[i] == Encode(values[i])
  {
    if values != [] {
      EncodeAllSpec(values[1..]);
    }
  }

  lemma EncodedAreSegments(values: seq<seq<Byte>>)
    requires forall v :: v in values ==> v != []
    ensures Segments(EncodeAll(values))
  {
    EncodeAllSpec(values);
    forall c | c in EncodeAll(values) ensures c != "" && '/' !in c {
      var i :| 0 <= i < |values| && EncodeAll(values)[i] == c;
      assert values[i] in values;
      EncodedIsOneSegment(values[i]);
    }
  }

  /** The value a name ends with: that of its last placeholder, else what it had before. */
  function LastOf(names: seq<string>, values: seq<seq<Byte>>, name: string): Option<seq<Byte>>
    requires |names| == |values|
  {
    if names == [] then None
    else
      var later := LastOf(names[1..], values[1..], name);
      if later.Some? then later else if names[0] == name then Some(values[0]) else None
  }

  lemma {:induction false} BindEncoded(params: Params, names: seq<string>, values: seq<seq<Byte>>)
    requires |names| == |values|
    ensures |EncodeAll(values)| == |values|
    ensures var r := Bind(params, names, EncodeAll(values));
      && r.Some?
      && (forall n :: n in r.value <==> n in params || n in names)
      && forall n :: n in r.value ==>
        var last := LastOf(names, values, n);
        if last.Some? then r.value[n] == last.value else n in params && r.value[n] == params[n]
    decreases names
  {
    EncodeAllSpec(values);
    if names != [] {
      DecodeEncode(values[0]);
      assert EncodeAll(values)[1..] == EncodeAll(values[1..]);
      BindEncoded(params[names[0] := values[0]], names[1..], values[1..]);
      assert forall n :: n in names <==> n == names[0] || n in names[1..];
    }
  }

  lemma {:induction false} LastOfIsThere(names: seq<string>, values: seq<seq<Byte>>, i: nat)
    requires |names| == |values| && i < |names|
    ensures LastOf(names, values, names[i]).Some?
    decreases names
  {
    if i > 0 {
      LastOfIsThere(names[1..], values[1..], i - 1);
    }
  }

  lemma {:induction false} LastOfComesFrom(names: seq<string>, values: seq<seq<Byte>>, name: string)
    requires |names| == |values| && LastOf(names, values, name).Some?
    ensures exists j :: 0 <= j < |names| && names[j] == name && values[j] == LastOf(names, values, name).value
    decreases names
  {
    var later := LastOf(names[1..], values[1..], name);
    if later.Some? {
      LastOfComesFrom(names[1..], values[1..], name);
      var j :| 0 <= j < |names[1..]| && names[1..][j] == name && values[1..][j] == later.value;
      assert names[j + 1] == name && values[j + 1] == later.value;
    } else {
      assert names[0] == name;
    }
  }

  lemma {:induction false} FirstAcceptingDecides(routes: seq<Route>, k: nat, verb: string, path: string)
    requires k < |routes| && Accepts(routes[k], verb, path)
    requires forall j :: 0 <= j < k ==> !Accepts(routes[j], verb, path)
    ensures Matches(routes[k].template, path, Exec(routes[k].template, path).value)
    ensures FirstMatch(routes, verb, path) == Dispatch(routes[k], Exec(routes[k].template, path).value)
  {
    ExecIsSound(routes[k].template, path);
    if k > 0 {
      FirstAcceptingDecides(routes[1..], k - 1, verb, path);
    }
  }

  /** Equal names are given equal values. */
  ghost predicate Agree(names: seq<string>, values: seq<seq<Byte>>)
    requires |names| == |values|
  {
    forall i, j :: 0 <= i < |names| && 0 <= j < |names| && names[i] == names[j] ==> values[i] == values[j]
  }

  ghost predicate Carries(params: Params, names: seq<string>, values: seq<seq<Byte>>)
    requires |names| == |values|
  {
    && (forall n :: n in params <==> n in names)
    && forall i :: 0 <= i < |names| ==> params[names[i]] == values[i]
  }

  lemma BoundCarriesIffAgree(names: seq<string>, values: seq<seq<Byte>>)
    requires |names| == |values|
    ensures |EncodeAll(values)| == |values| && Bind(map[], names, EncodeAll(values)).Some?
    ensures Carries(Bind(map[], names, EncodeAll(values)).value, names, values) <==> Agree(names, values)
  {
    BindEncoded(map[], names, values);
    var params := Bind(map[], names, EncodeAll(values)).value;
    if Agree(names, values) {
      forall i | 0 <= i < |names| ensures params[names[i]] == values[i] {
        LastOfIsThere(names, values, i);
        LastOfComesFrom(names, values, names[i]);
      }
    }
  }

  /**
   * A path built from a route's template and percent-encoded values reaches that route, unless an
   * earlier one accepts it; the handler gets back exactly those values, if (and only if) a repeated
   * placeholder was given one value.
   */
  lemma RequestReachesItsRoute(routes: seq<Route>, k: nat, verb: string, values: seq<seq<Byte>>)
    requires k < |routes| && Spaced(routes[k].template) && ToLowerCase(verb) == routes[k].verb
    requires |values| == Holes(routes[k].template) && forall v :: v in values ==> v != []
    ensures |EncodeAll(values)| == |values|
    ensures var path := Fill(routes[k].template, EncodeAll(values));
      (forall j :: 0 <= j < k ==> !Accepts(routes[j], verb, path)) ==>
        var answer := FirstMatch(routes, verb, path);
        && answer.Matched? && answer.route == routes[k]
        && (Carries(answer.params, ParamNames(routes[k].template), values)
            <==> Agree(ParamNames(routes[k].template), values))
  {
    EncodeAllSpec(values);
    var t := routes[k].template;
    var path := Fill(t, EncodeAll(values));
    EncodedAreSegments(values);
    ExecInvertsFill(t, EncodeAll(values));
    BoundCarriesIffAgree(ParamNames(t), values);
    if forall j :: 0 <= j < k ==> !Accepts(routes[j], verb, path) {
      FirstAcceptingDecides(routes, k, verb, path);
    }
  }
}
