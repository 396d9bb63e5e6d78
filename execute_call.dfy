/** The interpreter of a job's parameter vector
    (packages/xo-server/src/xo-mixins/jobs/execute-call.js): a tagged
    object whose `type` names one of five actions, resolved recursively into
    the list of parameter sets the job calls its method with. */
module ExecuteCall {
  import opened Wrappers
  import opened JsValues

  /** What the visitors take from outside the file: the objects
      `this.getObjects()` returns, `createPredicate` of value-matcher, and
      `thunkToArray(crossProduct(…))` of the math and utils modules. */
  datatype Env = Env(
    objects: Value,
    createPredicate: Value -> Value -> bool,
    crossProduct: seq<Value> -> Value)

  // ===================================================================
  // The lodash collection helpers the visitors use

  /** The properties of the array `es` as an object has them: index `i`
      under the key `"i"`. */
  function IndexFields(es: seq<Value>): (fs: seq<Field>)
    ensures |fs| == |es|
    ensures forall i :: 0 <= i < |es| ==> fs[i] == Field(NatToDecimal(i), es[i])
  {
    if es == [] then []
    else IndexFields(es[..|es| - 1]) + [Field(NatToDecimal(|es| - 1), es[|es| - 1])]
  }

  /** The own enumerable properties lodash iterates over, in order: those
      of an object, the indices of an array or a string, none for the other
      primitives. Also what the spread `{...v}` copies. */
  function OwnEntries(v: Value): (fs: seq<Field>)
    ensures v.Obj? ==> fs == v.fields
    ensures v.Arr? ==> |fs| == |v.elems|
    ensures !v.Obj? && !v.Arr? && !v.Str? ==> fs == []
  {
    match v
    case Obj(fields) => fields
    case Arr(es) => IndexFields(es)
    case Str(s) => IndexFields(Chars(s))
    case _ => []
  }

  /** The one-character strings of `s`. */
  function Chars(s: string): (cs: seq<Value>)
    ensures |cs| == |s|
    ensures forall i :: 0 <= i < |s| ==> cs[i] == Str([s[i]])
  {
    if s == [] then [] else [Str([s[0]])] + Chars(s[1..])
  }

  function Values(fs: seq<Field>): (vs: seq<Value>)
    ensures |vs| == |fs|
    ensures forall i :: 0 <= i < |fs| ==> vs[i] == fs[i].val
  {
    if fs == [] then [] else [fs[0].val] + Values(fs[1..])
  }

  /** The elements lodash `map` and `filter` visit. */
  function Elements(v: Value): (vs: seq<Value>)
    ensures v.Arr? ==> vs == v.elems
    ensures v.Obj? ==> vs == Values(v.fields)
    ensures IsNullish(v) ==> vs == []
  {
    Values(OwnEntries(v))
  }

  /** lodash `mapValues(entries, f)` where `f` may throw: each entry keeps
      its key, in order, and takes `f` of its value; the first error thrown
      ends it. (The keys of an object are distinct, so the assignment of
      each key to the result appends it.) */
  function MapValues(entries: seq<Field>, f: Value -> Result<Value, string>): Result<seq<Field>, string> {
    if entries == [] then Ok([])
    else
      var last := entries[|entries| - 1];
      match MapValues(entries[..|entries| - 1], f)
      case Err(e) => Err(e)
      case Ok(acc) =>
        match f(last.val)
        case Err(e) => Err(e)
        case Ok(v) => Ok(acc + [Field(last.key, v)])
  }

  /** `value[key]` for a key that is itself a value: the key converts to a
      property name, and reading a property of null or undefined throws. */
  function ReadProp(value: Value, key: Value): (r: Result<Value, string>)
    ensures IsNullish(value) ==> r.Err?
    ensures !IsNullish(value) && PropertyKey(key).Some? ==> r == Ok(Get(value, PropertyKey(key).value))
  {
    match PropertyKey(key)
    case None => Err(KeyNotModelled)
    case Some(name) => GetProp(value, name)
  }

  /** When the evaluation nests deeper than the fuel allows. */
  const OutOfFuel := "parameter vector nested deeper than the fuel"

  // ===================================================================
  // paramsVectorActionsMap

  datatype Action = ExtractProperties | CrossProduct | FetchObjects | MapAction | SetAction

  function ActionName(a: Action): string {
    match a
    case ExtractProperties => "extractProperties"
    case CrossProduct => "crossProduct"
    case FetchObjects => "fetchObjects"
    case MapAction => "map"
    case SetAction => "set"
  }

  /** `paramsVectorActionsMap[type]`, restricted to the map's own keys. */
  function ActionOf(name: string): (r: Option<Action>)
    ensures r.Some? ==> ActionName(r.value) == name
  {
    if name == "extractProperties" then Some(ExtractProperties)
    else if name == "crossProduct" then Some(CrossProduct)
    else if name == "fetchObjects" then Some(FetchObjects)
    else if name == "map" then Some(MapAction)
    else if name == "set" then Some(SetAction)
    else None
  }

  lemma ActionOfName(a: Action)
    ensures ActionOf(ActionName(a)) == Some(a)
  {
  }

  /** The message thrown for a type with no visitor. */
  function Unsupported(name: string): string {
    "Unsupported function '" + name + "'."
  }

  /** The objects `{...iteratee, [paramName]: value}`, one per element. */
  function Instances(iteratee: seq<Field>, key: string, elems: seq<Value>): (r: seq<Value>)
    ensures |r| == |elems|
    ensures forall i :: 0 <= i < |elems| ==> r[i] == Obj(SetField(iteratee, key, elems[i]))
  {
    if elems == [] then []
    else [Obj(SetField(iteratee, key, elems[0]))] + Instances(iteratee, key, elems[1..])
  }

  /** `fetchObjects`: the objects the pattern matches, and an error when
      there is none. */
  function FetchObjectsOf(env: Env, pattern: Value): Result<Value, string> {
    var objects := Filter(Elements(env.objects), env.createPredicate(pattern));
    if objects == [] then Err("no objects match this pattern") else Ok(Arr(objects))
  }

  /** The visitor `paramsVectorActionsMap[paramsVector.type]`, or what
      is thrown looking it up. */
  function ActionOfVector(pv: Value): (r: Result<Action, string>)
    ensures IsNullish(pv) ==> r.Err?
  {
    match GetProp(pv, "type")
    case Err(e) => Err(e)
    case Ok(t) =>
      if t.Str? && ActionOf(t.s).Some? then Ok(ActionOf(t.s).value)
      else
        // No key but a string names an action: what the other values
        // convert to is "undefined", "null", "true", "false" or a numeral.
        match PropertyKey(t)
        case None => Err(KeyNotModelled)
        case Some(name) => Err(Unsupported(name))
  }

  /** lodash `map(items, f)` where `f` may throw: the first error thrown
      ends it. */
  function MapResults(f: Value -> Result<Value, string>, items: seq<Value>): Result<seq<Value>, string> {
    if items == [] then Ok([])
    else
      match MapResults(f, items[..|items| - 1])
      case Err(e) => Err(e)
      case Ok(rs) =>
        match f(items[|items| - 1])
        case Err(e) => Err(e)
        case Ok(r) => Ok(rs + [r])
  }

  /** `resolveParamsVector(paramsVector)`, with at most `fuel` nested
      resolutions. */
  function Resolve(env: Env, fuel: nat, pv: Value): Result<Value, string>
    decreases fuel, 0, 0
  {
    if fuel == 0 then Err(OutOfFuel)
    else
      match ActionOfVector(pv)
      case Err(e) => Err(e)
      case Ok(a) => Visit(env, fuel - 1, a, pv)
  }

  /** The visitor of action `a` applied to `pv`. */
  function Visit(env: Env, fuel: nat, a: Action, pv: Value): Result<Value, string>
    decreases fuel, 4, 0
  {
    match a
    case ExtractProperties =>
      (match MapValues(OwnEntries(Get(pv, "mapping")), key => ReadProp(Get(pv, "value"), key))
       case Err(e) => Err(e)
       case Ok(fs) => Ok(Obj(fs)))
    case CrossProduct =>
      (match ResolveAll(env, fuel, Elements(Get(pv, "items")))
       case Err(e) => Err(e)
       case Ok(rs) => Ok(env.crossProduct(rs)))
    case FetchObjects => FetchObjectsOf(env, Get(pv, "pattern"))
    case MapAction => VisitMap(env, fuel, pv)
    case SetAction => Ok(Get(pv, "values"))
  }

  /** The argument `paramName` of `map`, `'value'` when undefined. */
  function ParamName(pv: Value): Value {
    if Get(pv, "paramName").Undefined? then Str("value") else Get(pv, "paramName")
  }

  /** The `map` visitor. */
  function VisitMap(env: Env, fuel: nat, pv: Value): Result<Value, string>
    decreases fuel, 3, 0
  {
    match Resolve(env, fuel, Get(pv, "collection"))
    case Err(e) => Err(e)
    case Ok(c) => MapOver(env, fuel, pv, Elements(c))
  }

  /** The callback of `map` over the elements of the resolved collection:
      the name of the parameter converts to a key once per element. */
  function MapOver(env: Env, fuel: nat, pv: Value, elems: seq<Value>): Result<Value, string>
    decreases fuel, 2, 0
  {
    if elems == [] then Ok(Arr([]))
    else
      match PropertyKey(ParamName(pv))
      case None => Err(KeyNotModelled)
      case Some(key) =>
        match ResolveAll(env, fuel, Instances(OwnEntries(Get(pv, "iteratee")), key, elems))
        case Err(e) => Err(e)
        case Ok(rs) => Ok(Arr(rs))
  }

  /** `map(items, value => resolveParamsVector.call(this, value))`. */
  function ResolveAll(env: Env, fuel: nat, items: seq<Value>): Result<seq<Value>, string>
    decreases fuel, 1, |items|
  {
    if items == [] then Ok([])
    else
      match ResolveAll(env, fuel, items[..|items| - 1])
      case Err(e) => Err(e)
      case Ok(rs) =>
        match Resolve(env, fuel, items[|items| - 1])
        case Err(e) => Err(e)
        case Ok(r) => Ok(rs + [r])
  }

  // ===================================================================
  // Properties

  /** A type that names no action is refused, naming the type. */
  lemma ResolveUnsupported(env: Env, fuel: nat, pv: Value, name: string)
    requires fuel > 0 && !IsNullish(pv)
    requires PropertyKey(Get(pv, "type")) == Some(name) && ActionOf(name).None?
    ensures Resolve(env, fuel, pv) == Err(Unsupported(name))
  {
  }

  /** A null or undefined parameter vector throws on reading its type. */
  lemma ResolveNullish(env: Env, fuel: nat, pv: Value)
    requires fuel > 0 && IsNullish(pv)
    ensures Resolve(env, fuel, pv).Err?
  {
  }

  /** `set` gives its values as they are. */
  lemma ResolveSet(env: Env, fuel: nat, pv: Value)
    requires fuel > 0 && !IsNullish(pv) && Get(pv, "type") == Str("set")
    ensures Resolve(env, fuel, pv) == Ok(Get(pv, "values"))
  {
  }

  /** Over entries on which `f` succeeds, `mapValues` keeps every key in
      its place and gives it `f` of its value. */
  lemma {:induction false} MapValuesCorrect(entries: seq<Field>, f: Value -> Result<Value, string>)
    requires forall i :: 0 <= i < |entries| ==> f(entries[i].val).Ok?
    ensures MapValues(entries, f).Ok?
    ensures |MapValues(entries, f).value| == |entries|
    ensures forall i :: 0 <= i < |entries| ==>
              MapValues(entries, f).value[i] == Field(entries[i].key, f(entries[i].val).value)
  {
    if entries != [] {
      var n := |entries| - 1;
      assert forall i :: 0 <= i < n ==> entries[..n][i] == entries[i];
      MapValuesCorrect(entries[..n], f);
    }
  }

  /** `mapValues` stops at the first entry on which `f` throws. */
  lemma {:induction false} MapValuesError(entries: seq<Field>, f: Value -> Result<Value, string>, k: nat)
    requires k < |entries| && f(entries[k].val).Err?
    requires forall i :: 0 <= i < k ==> f(entries[i].val).Ok?
    ensures MapValues(entries, f) == Err(f(entries[k].val).error)
    decreases |entries|
  {
    var n := |entries| - 1;
    assert forall i :: 0 <= i < n ==> entries[..n][i] == entries[i];
    if k < n {
      MapValuesError(entries[..n], f, k);
    } else {
      MapValuesSucceeds(entries[..n], f);
    }
  }

  lemma {:induction false} MapValuesSucceeds(entries: seq<Field>, f: Value -> Result<Value, string>)
    requires forall i :: 0 <= i < |entries| ==> f(entries[i].val).Ok?
    ensures MapValues(entries, f).Ok?
  {
    if entries != [] {
      var n := |entries| - 1;
      assert forall i :: 0 <= i < n ==> entries[..n][i] == entries[i];
      MapValuesSucceeds(entries[..n], f);
    }
  }

  /** `extractProperties`: the result has the keys of the mapping, in
      order, and each takes the property of `value` that the mapping names
      under that key. */
  lemma ResolveExtractProperties(env: Env, fuel: nat, pv: Value)
    requires fuel > 0 && !IsNullish(pv) && Get(pv, "type") == Str("extractProperties")
    requires !IsNullish(Get(pv, "value"))
    requires forall i :: 0 <= i < |OwnEntries(Get(pv, "mapping"))| ==> PropertyKey(OwnEntries(Get(pv, "mapping"))[i].val).Some?
    ensures Resolve(env, fuel, pv).Ok? && Resolve(env, fuel, pv).value.Obj?
    ensures |Resolve(env, fuel, pv).value.fields| == |OwnEntries(Get(pv, "mapping"))|
    ensures forall i :: 0 <= i < |OwnEntries(Get(pv, "mapping"))| ==>
              Resolve(env, fuel, pv).value.fields[i]
                == Field(OwnEntries(Get(pv, "mapping"))[i].key,
                         Get(Get(pv, "value"), PropertyKey(OwnEntries(Get(pv, "mapping"))[i].val).value))
  {
    var f := key => ReadProp(Get(pv, "value"), key);
    ResolveAction(env, fuel, pv, ExtractProperties);
    MapValuesCorrect(OwnEntries(Get(pv, "mapping")), f);
  }

  /** Reading through a null or undefined `value` throws on the first
      property of the mapping. */
  lemma ResolveExtractFromNullish(env: Env, fuel: nat, pv: Value)
    requires fuel > 0 && !IsNullish(pv) && Get(pv, "type") == Str("extractProperties")
    requires IsNullish(Get(pv, "value")) && OwnEntries(Get(pv, "mapping")) != []
    ensures Resolve(env, fuel, pv).Err?
  {
    var f := key => ReadProp(Get(pv, "value"), key);
    ResolveAction(env, fuel, pv, ExtractProperties);
    MapValuesError(OwnEntries(Get(pv, "mapping")), f, 0);
  }

  /** `map(items, f)` succeeds exactly when `f` succeeds on every item,
      and then gives their results in order; otherwise it fails with the
      error of the first item that fails. */
  lemma {:induction false} MapResultsCorrect(f: Value -> Result<Value, string>, items: seq<Value>)
    ensures MapResults(f, items).Ok? <==> forall i :: 0 <= i < |items| ==> f(items[i]).Ok?
    ensures MapResults(f, items).Ok? ==>
              |MapResults(f, items).value| == |items|
              && forall i :: 0 <= i < |items| ==> f(items[i]) == Ok(MapResults(f, items).value[i])
    ensures MapResults(f, items).Err? ==>
              exists i :: 0 <= i < |items| && f(items[i]) == Err(MapResults(f, items).error)
                          && forall j :: 0 <= j < i ==> f(items[j]).Ok?
  {
    if items != [] {
      var n := |items| - 1;
      var init := items[..n];
      MapResultsCorrect(f, init);
      assert forall i :: 0 <= i < n ==> init[i] == items[i];
      match MapResults(f, init)
      case Err(e) =>
        var i :| 0 <= i < |init| && f(init[i]) == Err(e) && forall j :: 0 <= j < i ==> f(init[j]).Ok?;
        assert f(items[i]) == Err(e);
      case Ok(rs) =>
        match f(items[n])
        case Err(e) =>
        case Ok(r) =>
          assert MapResults(f, items).value == rs + [r];
    }
  }

  /** A vector whose type names an action is handed to that action's
      visitor. */
  lemma ResolveAction(env: Env, fuel: nat, pv: Value, a: Action)
    requires fuel > 0 && !IsNullish(pv) && Get(pv, "type") == Str(ActionName(a))
    ensures Resolve(env, fuel, pv) == Visit(env, fuel - 1, a, pv)
  {
    ActionOfName(a);
  }

  /** `map` resolves the collection first, then maps the callback over
      its elements. */
  lemma ResolveMapStep(env: Env, fuel: nat, pv: Value, c: Value)
    requires fuel > 0 && !IsNullish(pv) && Get(pv, "type") == Str("map")
    requires Resolve(env, fuel - 1, Get(pv, "collection")) == Ok(c)
    ensures Resolve(env, fuel, pv) == MapOver(env, fuel - 1, pv, Elements(c))
  {
    ResolveAction(env, fuel, pv, MapAction);
    assert Visit(env, fuel - 1, MapAction, pv) == VisitMap(env, fuel - 1, pv);
  }

  /** The callback of `map` resolves one instance of the iteratee per
      element, with `paramName` (by default `value`) set to the element,
      and succeeds exactly when each of them resolves. */
  lemma MapOverCorrect(env: Env, fuel: nat, pv: Value, elems: seq<Value>, key: string)
    requires PropertyKey(ParamName(pv)) == Some(key)
    ensures MapOver(env, fuel, pv, elems).Ok? ==>
              MapOver(env, fuel, pv, elems).value.Arr?
              && |MapOver(env, fuel, pv, elems).value.elems| == |elems|
              && forall i :: 0 <= i < |elems| ==>
                   Resolve(env, fuel, Obj(SetField(OwnEntries(Get(pv, "iteratee")), key, elems[i])))
                     == Ok(MapOver(env, fuel, pv, elems).value.elems[i])
    ensures MapOver(env, fuel, pv, elems).Ok? <==>
              forall i :: 0 <= i < |elems| ==>
                Resolve(env, fuel, Obj(SetField(OwnEntries(Get(pv, "iteratee")), key, elems[i]))).Ok?
  {
    if elems != [] {
      var instances := Instances(OwnEntries(Get(pv, "iteratee")), key, elems);
      ResolveAllMaps(env, fuel, instances);
      MapResultsCorrect(x => Resolve(env, fuel, x), instances);
    }
  }

  /** `rs` are the results of resolving `items`, in order. */
  ghost predicate CrossOf(env: Env, fuel: nat, items: seq<Value>, rs: seq<Value>) {
    |rs| == |items| && forall i :: 0 <= i < |rs| ==> Resolve(env, fuel, items[i]) == Ok(rs[i])
  }

  /** The `crossProduct` visitor resolves each item and passes the
      results, in order, to the cross product; it succeeds exactly when
      every item resolves. */
  lemma CrossProductCorrect(env: Env, fuel: nat, pv: Value)
    ensures Visit(env, fuel, CrossProduct, pv).Ok? <==>
              forall i :: 0 <= i < |Elements(Get(pv, "items"))| ==> Resolve(env, fuel, Elements(Get(pv, "items"))[i]).Ok?
    ensures Visit(env, fuel, CrossProduct, pv).Ok? ==>
              exists rs :: CrossOf(env, fuel, Elements(Get(pv, "items")), rs)
                           && Visit(env, fuel, CrossProduct, pv) == Ok(env.crossProduct(rs))
  {
    var items := Elements(Get(pv, "items"));
    var f := x => Resolve(env, fuel, x);
    ResolveAllMaps(env, fuel, items);
    MapResultsCorrect(f, items);
    if MapResults(f, items).Ok? {
      var rs := MapResults(f, items).value;
      assert CrossOf(env, fuel, items, rs);
    }
  }

  /** `fetchObjects` gives the objects the pattern matches, in their
      order, and fails exactly when it matches none. */
  lemma ResolveFetchObjects(env: Env, fuel: nat, pv: Value)
    requires fuel > 0 && !IsNullish(pv) && Get(pv, "type") == Str("fetchObjects")
    ensures Resolve(env, fuel, pv).Err? <==>
              forall x :: x in Elements(env.objects) ==> !env.createPredicate(Get(pv, "pattern"))(x)
    ensures Resolve(env, fuel, pv).Err? ==> Resolve(env, fuel, pv) == Err("no objects match this pattern")
    ensures Resolve(env, fuel, pv).Ok? ==>
              Resolve(env, fuel, pv) == Ok(Arr(Filter(Elements(env.objects), env.createPredicate(Get(pv, "pattern")))))
  {
    ResolveAction(env, fuel, pv, FetchObjects);
    FetchObjectsCorrect(env, Get(pv, "pattern"));
  }

  lemma FetchObjectsCorrect(env: Env, pattern: Value)
    ensures FetchObjectsOf(env, pattern).Err? <==>
              forall x :: x in Elements(env.objects) ==> !env.createPredicate(pattern)(x)
    ensures FetchObjectsOf(env, pattern).Err? ==> FetchObjectsOf(env, pattern) == Err("no objects match this pattern")
    ensures FetchObjectsOf(env, pattern).Ok? ==>
              FetchObjectsOf(env, pattern) == Ok(Arr(Filter(Elements(env.objects), env.createPredicate(pattern))))
  {
    var p := env.createPredicate(pattern);
    var os := Filter(Elements(env.objects), p);
    if os != [] {
      FilterMembers(Elements(env.objects), p, os[0]);
    } else {
      forall x | x in Elements(env.objects)
        ensures !p(x)
      {
        FilterMembers(Elements(env.objects), p, x);
      }
    }
  }

  // ----- the fuel only bounds the depth

  /** A result found with some fuel is found with more. */
  lemma {:induction false} ResolveFuel(env: Env, fuel: nat, pv: Value)
    requires Resolve(env, fuel, pv).Ok?
    ensures Resolve(env, fuel + 1, pv) == Resolve(env, fuel, pv)
    decreases fuel, 0, 0
  {
    var a, f := ResolveOk(env, fuel, pv);
    calc {
      Resolve(env, fuel + 1, pv);
      == { ResolveUnfold(env, fuel + 1, pv, a); }
      Visit(env, f + 1, a, pv);
      == { VisitFuel(env, f, a, pv); }
      Visit(env, f, a, pv);
    }
  }

  /** A vector that resolves names an action, which resolves it. */
  lemma ResolveOk(env: Env, fuel: nat, pv: Value) returns (a: Action, f: nat)
    requires Resolve(env, fuel, pv).Ok?
    ensures fuel == f + 1 && ActionOfVector(pv) == Ok(a)
    ensures Visit(env, f, a, pv).Ok?
    ensures Resolve(env, fuel, pv) == Visit(env, f, a, pv)
  {
    a, f := ActionOfVector(pv).value, fuel - 1;
  }

  lemma ResolveUnfold(env: Env, fuel: nat, pv: Value, a: Action)
    requires fuel > 0 && ActionOfVector(pv) == Ok(a)
    ensures Resolve(env, fuel, pv) == Visit(env, fuel - 1, a, pv)
  {
  }

  lemma {:induction false} VisitFuel(env: Env, fuel: nat, a: Action, pv: Value)
    requires Visit(env, fuel, a, pv).Ok?
    ensures Visit(env, fuel + 1, a, pv) == Visit(env, fuel, a, pv)
    decreases fuel, 4, 0
  {
    match a
    case CrossProduct =>
      ResolveAllFuel(env, fuel, Elements(Get(pv, "items")));
    case MapAction =>
      ResolveFuel(env, fuel, Get(pv, "collection"));
      var c := Resolve(env, fuel, Get(pv, "collection")).value;
      MapOverFuel(env, fuel, pv, Elements(c));
    case _ =>
  }

  lemma {:induction false} MapOverFuel(env: Env, fuel: nat, pv: Value, elems: seq<Value>)
    requires MapOver(env, fuel, pv, elems).Ok?
    ensures MapOver(env, fuel + 1, pv, elems) == MapOver(env, fuel, pv, elems)
    decreases fuel, 2, 0
  {
    if elems != [] {
      var key := PropertyKey(ParamName(pv)).value;
      ResolveAllFuel(env, fuel, Instances(OwnEntries(Get(pv, "iteratee")), key, elems));
    }
  }

  lemma {:induction false} ResolveAllFuel(env: Env, fuel: nat, items: seq<Value>)
    requires ResolveAll(env, fuel, items).Ok?
    ensures ResolveAll(env, fuel + 1, items) == ResolveAll(env, fuel, items)
    decreases fuel, 1, |items|
  {
    if items != [] {
      ResolveAllFuel(env, fuel, items[..|items| - 1]);
      ResolveFuel(env, fuel, items[|items| - 1]);
    }
  }

  /** `ResolveAll` is the generic `MapResults` with `Resolve` as callback. */
  lemma {:induction false} ResolveAllMaps(env: Env, fuel: nat, items: seq<Value>)
    ensures ResolveAll(env, fuel, items) == MapResults(x => Resolve(env, fuel, x), items)
  {
    if items != [] {
      ResolveAllMaps(env, fuel, items[..|items| - 1]);
    }
  }
}
