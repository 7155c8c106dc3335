/** CommandProcessor: routes "Controller://action/arg/..." to a method of a
    registered controller and invokes it with converted arguments. */
module Commands {
  import opened Wrappers
  import opened Exceptions
  import opened Strings

  /** A public method of a controller: its name and parameter types, in
      declaration order. */
  datatype MethodInfo = MethodInfo(name: string, parameterTypes: seq<string>)

  /** A controller instance: its type name, an identity telling apart two
      instances of one type, and its public methods in enumeration order. */
  datatype Controller = Controller(typeName: string, instance: nat, methods: seq<MethodInfo>)

  /** What PathInfo.Parse makes of the text after "://". */
  datatype PathInfo = PathInfo(actionName: string, arguments: seq<string>)

  /** An argument value as TypeSerializer.DeserializeFromString returns it. */
  datatype Obj = Obj(typeName: string, literal: string)

  /** The code the router calls but does not define. */
  datatype Collaborators = Collaborators(
    /** PathInfo.Parse. */
    parse: string -> Result<PathInfo, Exc>,
    /** TypeSerializer.DeserializeFromString(literal, type). */
    deserialize: (string, string) -> Result<Obj, Exc>,
    /** MethodInfo.Invoke(controller, arguments); what it throws is what
        Invoke catches. */
    invoke: (Controller, MethodInfo, seq<Obj>) -> Result<Obj, Exc>)

  const Separator := "://"

  function Lookup(m: map<string, Controller>, name: string): Option<Controller>
  {
    if name in m then Some(m[name]) else None
  }

  /** The last controller in `cs` whose type name is `name`. */
  function LastNamed(cs: seq<Controller>, name: string): (r: Option<Controller>)
    decreases |cs|
    ensures r.None? <==> forall i :: 0 <= i < |cs| ==> cs[i].typeName != name
    ensures r.Some? ==> exists i :: 0 <= i < |cs| && cs[i] == r.value && cs[i].typeName == name &&
                                    (forall j :: i < j < |cs| ==> cs[j].typeName != name)
  {
    if cs == [] then None
    else if cs[|cs| - 1].typeName == name then Some(cs[|cs| - 1])
    else LastNamed(cs[..|cs| - 1], name)
  }

  /** The method selection of Invoke: the index of the first method named
      `name` with `arity` parameters, searching from `from`. */
  function FirstMatching(ms: seq<MethodInfo>, name: string, arity: nat, from: nat): (r: Option<nat>)
    decreases |ms| - from
    ensures r.Some? ==> from <= r.value < |ms| && Matches(ms[r.value], name, arity)
    ensures r.Some? ==> forall j :: from <= j < r.value ==> !Matches(ms[j], name, arity)
    ensures r.None? ==> forall j :: from <= j < |ms| ==> !Matches(ms[j], name, arity)
  {
    if |ms| <= from then None
    else if Matches(ms[from], name, arity) then Some(from)
    else FirstMatching(ms, name, arity, from + 1)
  }

  predicate Matches(m: MethodInfo, name: string, arity: nat)
  {
    m.name == name && |m.parameterTypes| == arity
  }

  /** ConvertValuesToTypes as a value: position by position, the literal
      deserialized to the parameter type; reading a literal past the end of
      the `values` list throws, and so does a failed conversion. */
  function ConvertAll(values: seq<string>, types: seq<string>, deserialize: (string, string) -> Result<Obj, Exc>)
    : (r: Result<seq<Obj>, Exc>)
    decreases |types|
    ensures r.Success? <==>
      |types| <= |values| && forall i :: 0 <= i < |types| ==> deserialize(values[i], types[i]).Success?
    ensures r.Success? ==>
      |r.value| == |types| && forall i :: 0 <= i < |types| ==> deserialize(values[i], types[i]) == Success(r.value[i])
  {
    if types == [] then Success([])
    else if values == [] then Failure(ArgumentOutOfRange)
    else match deserialize(values[0], types[0])
      case Failure(e) => Failure(e)
      case Success(x) =>
        match ConvertAll(values[1..], types[1..], deserialize)
        case Failure(e) => Failure(e)
        case Success(xs) => Success([x] + xs)
  }

  /** The failure of ConvertAll is that of the first position that fails:
      past the end of `values`, or a conversion that throws. */
  lemma {:induction false} ConvertAllFirstFailure(values: seq<string>, types: seq<string>,
                                                  deserialize: (string, string) -> Result<Obj, Exc>, k: nat)
    requires k < |types|
    requires k <= |values|
    requires forall i :: 0 <= i < k ==> deserialize(values[i], types[i]).Success?
    requires k < |values| ==> deserialize(values[k], types[k]).Failure?
    ensures ConvertAll(values, types, deserialize) ==
      if |values| == k then Failure(ArgumentOutOfRange) else Failure(deserialize(values[k], types[k]).error)
  {
    if k > 0 {
      assert deserialize(values[0], types[0]).Success?;
      forall i | 0 <= i < k - 1
        ensures deserialize(values[1..][i], types[1..][i]).Success?
      {
        assert values[1..][i] == values[i + 1] && types[1..][i] == types[i + 1];
      }
      ConvertAllFirstFailure(values[1..], types[1..], deserialize, k - 1);
    }
  }

  /** ConvertValuesToTypes: fills an array of `types`' length, element `i`
      being `values[i]` deserialized to `types[i]`; the exception of the
      first position that fails escapes. */
  method ConvertValuesToTypes(values: seq<string>, types: seq<string>, deserialize: (string, string) -> Result<Obj, Exc>)
    returns (convertedValues: array<Obj>, thrown: Option<Exc>)
    ensures fresh(convertedValues)
    ensures thrown.None? ==> ConvertAll(values, types, deserialize) == Success(convertedValues[..])
    ensures thrown.Some? ==> ConvertAll(values, types, deserialize) == Failure(thrown.value)
  {
    convertedValues := new Obj[|types|];
    thrown := None;
    var i := 0;
    while i < |types|
      invariant 0 <= i <= |types| && i <= |values|
      invariant convertedValues.Length == |types|
      invariant forall j :: 0 <= j < i ==> deserialize(values[j], types[j]) == Success(convertedValues[j])
    {
      var propertyValueType := types[i];
      if |values| <= i {
        ConvertAllFirstFailure(values, types, deserialize, i);
        return convertedValues, Some(ArgumentOutOfRange);
      }
      var propertyValueString := values[i];
      var argValue := deserialize(propertyValueString, propertyValueType);
      if argValue.Failure? {
        ConvertAllFirstFailure(values, types, deserialize, i);
        return convertedValues, Some(argValue.error);
      }
      convertedValues[i] := argValue.value;
      i := i + 1;
    }
    assert convertedValues[..] == ConvertAll(values, types, deserialize).value;
  }

  /** Invoke as a value: the failure it throws, or None when the invoked
      method returned (its return value is discarded). */
  function InvokeOutcome(contextMap: map<string, Controller>, commandUri: string, col: Collaborators): (r: Option<Exc>)
    ensures IndexOf(commandUri, Separator, 0).None? ==> r == Some(IndexOutOfRange)
    ensures r.None? ==>
      var parts := Split(commandUri, Separator);
      && |parts| >= 2
      && parts[0] in contextMap
      && col.parse(parts[1]).Success?
      && var p := col.parse(parts[1]).value;
         FirstMatching(contextMap[parts[0]].methods, p.actionName, |p.arguments|, 0).Some?
  {
    var actionParts := Split(commandUri, Separator);
    if |actionParts| < 2 then Some(IndexOutOfRange)
    else
      var controllerName := actionParts[0];
      match col.parse(actionParts[1])
      case Failure(e) => Some(e)
      case Success(pathInfo) =>
        if controllerName !in contextMap then Some(Raised("UnknownContext: " + controllerName, None))
        else
          var context := contextMap[controllerName];
          match FirstMatching(context.methods, pathInfo.actionName, |pathInfo.arguments|, 0)
          case None => Some(NoMatchingElement)
          case Some(k) =>
            var target := context.methods[k];
            match ConvertAll(pathInfo.arguments, target.parameterTypes, col.deserialize)
            case Failure(e) => Some(e)
            case Success(args) =>
              match col.invoke(context, target, args)
              case Failure(e) => Some(Raised("InvalidCommand", Some(e)))
              case Success(_) => None
  }

  class CommandProcessor {
    var controllers: seq<Controller>
    /** `private readonly`: fixed once the constructor has built it. */
    const contextMap: map<string, Controller>

    /** The registry: each type name maps to the last controller in
        `controllers` with that name. */
    constructor (controllers: seq<Controller>)
      ensures this.controllers == controllers
      ensures forall name :: Lookup(contextMap, name) == LastNamed(controllers, name)
    {
      this.controllers := controllers;
      var m: map<string, Controller> := map[];
      var i := 0;
      while i < |controllers|
        invariant 0 <= i <= |controllers|
        invariant forall name :: Lookup(m, name) == LastNamed(controllers[..i], name)
      {
        var x := controllers[i];
        assert controllers[..i + 1][..i] == controllers[..i];
        m := m[x.typeName := x];
        i := i + 1;
      }
      assert controllers[..i] == controllers;
      this.contextMap := m;
    }

    /** Invoke: split on "://", parse the action, look up the controller,
        take the first method of matching name and arity, convert the
        arguments, invoke, and wrap only what the invocation throws. */
    method Invoke(commandUri: string, col: Collaborators) returns (thrown: Option<Exc>)
      ensures thrown == InvokeOutcome(contextMap, commandUri, col)
    {
      var actionParts := Split(commandUri, Separator);
      if |actionParts| < 2 {
        return Some(IndexOutOfRange);
      }
      var controllerName := actionParts[0];
      var pathInfo := col.parse(actionParts[1]);
      if pathInfo.Failure? {
        return Some(pathInfo.error);
      }
      if controllerName !in contextMap {
        return Some(Raised("UnknownContext: " + controllerName, None));
      }
      var context := contextMap[controllerName];
      var methodName := pathInfo.value.actionName;
      var found := FirstMatching(context.methods, methodName, |pathInfo.value.arguments|, 0);
      if found.None? {
        return Some(NoMatchingElement);
      }
      var target := context.methods[found.value];
      var methodArgs, conversionFailure := ConvertValuesToTypes(pathInfo.value.arguments, target.parameterTypes, col.deserialize);
      if conversionFailure.Some? {
        return conversionFailure;
      }
      var result := col.invoke(context, target, methodArgs[..]);
      if result.Failure? {
        return Some(Raised("InvalidCommand", Some(result.error)));
      }
      return None;
    }
  }

  // ---------------------------------------------------------------------
  // Properties of the router.

  /** A command without "://" fails indexing the second piece. */
  lemma NoSeparatorFails(contextMap: map<string, Controller>, commandUri: string, col: Collaborators)
    requires IndexOf(commandUri, Separator, 0).None?
    ensures InvokeOutcome(contextMap, commandUri, col) == Some(IndexOutOfRange)
  {
    SplitFirstPieces(commandUri, Separator);
  }

  /** An unregistered controller name fails with "UnknownContext: " and the
      name, whatever the method conversion and invocation would do. */
  lemma UnknownControllerFailsFirst(contextMap: map<string, Controller>, commandUri: string,
                                    parse: string -> Result<PathInfo, Exc>,
                                    deserialize: (string, string) -> Result<Obj, Exc>,
                                    invoke: (Controller, MethodInfo, seq<Obj>) -> Result<Obj, Exc>)
    requires |Split(commandUri, Separator)| >= 2
    requires parse(Split(commandUri, Separator)[1]).Success?
    requires Split(commandUri, Separator)[0] !in contextMap
    ensures InvokeOutcome(contextMap, commandUri, Collaborators(parse, deserialize, invoke))
         == Some(Raised("UnknownContext: " + Split(commandUri, Separator)[0], None))
  {
  }

  /** A command "Name://remainder" for a registered type name (which holds
      no colon) and a remainder without a further "://": the remainder is
      parsed; with no method of the action's name and arity the call fails;
      otherwise the first such method is invoked on the registered instance
      with the converted arguments, a conversion failure escapes as it is,
      and a failure of the invocation is wrapped as "InvalidCommand". */
  lemma RouteCommand(contextMap: map<string, Controller>, name: string, remainder: string, col: Collaborators)
    requires ':' !in name
    requires IndexOf(remainder, Separator, 0).None?
    requires name in contextMap
    requires col.parse(remainder).Success?
    ensures var pathInfo := col.parse(remainder).value;
      var context := contextMap[name];
      var found := FirstMatching(context.methods, pathInfo.actionName, |pathInfo.arguments|, 0);
      var outcome := InvokeOutcome(contextMap, name + Separator + remainder, col);
      && (found.None? ==> outcome == Some(NoMatchingElement))
      && (found.Some? ==>
            var target := context.methods[found.value];
            match ConvertAll(pathInfo.arguments, target.parameterTypes, col.deserialize)
            case Failure(e) => outcome == Some(e)
            case Success(args) =>
              match col.invoke(context, target, args)
              case Failure(e) => outcome == Some(Raised("InvalidCommand", Some(e)))
              case Success(_) => outcome.None?)
  {
    SplitAtSchemeSeparator(name, remainder);
  }

  /** When there are at least as many literals as types (as in Invoke, where
      the chosen method's arity is the argument count), the conversion never
      reads past the literals: its failure is the failure of one
      deserialization. */
  lemma {:induction false} ConvertFailureFromDeserializer(values: seq<string>, types: seq<string>,
                                                          deserialize: (string, string) -> Result<Obj, Exc>)
    requires |types| <= |values|
    decreases |types|
    ensures ConvertAll(values, types, deserialize).Failure? ==>
      exists i :: 0 <= i < |types| && deserialize(values[i], types[i]) == Failure(ConvertAll(values, types, deserialize).error)
  {
    if types != [] && deserialize(values[0], types[0]).Success? {
      var r := ConvertAll(values[1..], types[1..], deserialize);
      ConvertFailureFromDeserializer(values[1..], types[1..], deserialize);
      if r.Failure? {
        var i :| 0 <= i < |types| - 1 && deserialize(values[1..][i], types[1..][i]) == Failure(r.error);
        assert deserialize(values[i + 1], types[i + 1]) == Failure(r.error);
      }
    }
  }
}
