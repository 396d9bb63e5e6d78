/** Helpers of the web UI (packages/xo-web/src/common/utils.js): argument
    normalisation, property comparison, the plan names, `mapPlus`, the OS
    families, id resolution, chained comparison of version strings, the
    cores-per-socket choices and the copy-on-write `cowSet`. */
module XoWebUtils {
  import opened Wrappers
  import opened JsValues

  // ===================================================================
  // ensureArray, propsEqual

  /** `ensureArray(value)`. */
  function EnsureArray(v: Value): (r: seq<Value>)
    ensures v.Undefined? ==> r == []
    ensures v.Arr? ==> r == v.elems
    ensures !v.Undefined? && !v.Arr? ==> r == [v]
  {
    if v.Undefined? then [] else if v.Arr? then v.elems else [v]
  }

  /** An array goes through `ensureArray` unchanged, so applying it to its
      own result changes nothing. */
  lemma EnsureArrayIdempotent(v: Value)
    ensures EnsureArray(Arr(EnsureArray(v))) == EnsureArray(v)
  {
  }

  /** `o1[prop] === o2[prop]`, for a `prop` whose conversion to a property
      name is modelled. */
  predicate PropAgrees(o1: Value, o2: Value, prop: Value, same: bool) {
    match PropertyKey(prop)
    case None => false
    case Some(name) => StrictEquals(Get(o1, name), Get(o2, name), same)
  }

  /** The first `n` listed properties agree on both objects. */
  predicate AgreeBefore(o1: Value, o2: Value, ps: seq<Value>, sameObject: Value -> bool, n: nat)
    requires n <= |ps|
  {
    forall k :: 0 <= k < n ==> PropAgrees(o1, o2, ps[k], sameObject(ps[k]))
  }

  /** Property `k` is the first listed one that does not agree. */
  predicate StopsAt(o1: Value, o2: Value, ps: seq<Value>, sameObject: Value -> bool, k: nat) {
    k < |ps| && AgreeBefore(o1, o2, ps, sameObject, k) && !PropAgrees(o1, o2, ps[k], sameObject(ps[k]))
  }

  function KeyName(prop: Value): string {
    PropertyKey(prop).GetOr("[object Object]")
  }

  function ReadError(o: Value, prop: Value): string {
    "TypeError: Cannot read property '" + KeyName(prop) + "' of " + NullishName(o)
  }

  /** `a === b` for the values one property has on two objects. Values
      carry no identity, so whether two objects or arrays are the same one
      is `same`, which only a heap could tell; one object is equal to
      itself. Primitive values are compared by value. */
  predicate StrictEquals(a: Value, b: Value, same: bool) {
    if a.Obj? || a.Arr? then same && a == b else a == b
  }

  /** Two values that are strictly equal are equal, and two equal
      primitives are strictly equal; two distinct objects never are. */
  lemma StrictEqualsSound(a: Value, b: Value, same: bool)
    ensures StrictEquals(a, b, same) ==> a == b
    ensures !(a.Obj? || a.Arr?) ==> (StrictEquals(a, b, same) <==> a == b)
    ensures !same ==> (StrictEquals(a, b, same) <==> a == b && !a.Obj? && !a.Arr?)
  {
  }

  /** `propsEqual(o1, o2, props)`: strict equality on every listed
      property, stopping at the first that differs; reading the first
      property of null or undefined throws. `sameObject(prop)` says whether
      `o1[prop]` and `o2[prop]` are one object, when both are objects. A
      listed property whose conversion to a name is not modelled gives
      `KeyNotModelled` when the loop reaches it. */
  method PropsEqual(o1: Value, o2: Value, props: Value, sameObject: Value -> bool) returns (r: Result<bool, string>)
    ensures var ps := EnsureArray(props);
      (ps == [] ==> r == Ok(true))
      && (ps != [] && IsNullish(o1) ==> r == Err(ReadError(o1, ps[0])))
      && (ps != [] && !IsNullish(o1) && IsNullish(o2) ==> r == Err(ReadError(o2, ps[0])))
    ensures var ps := EnsureArray(props);
      !IsNullish(o1) && !IsNullish(o2) ==>
        (r == Ok(true) <==> AgreeBefore(o1, o2, ps, sameObject, |ps|))
        && (r == Ok(false) <==> exists k :: 0 <= k < |ps| && StopsAt(o1, o2, ps, sameObject, k) && PropertyKey(ps[k]).Some?)
        && (r == Err(KeyNotModelled) <==> exists k :: 0 <= k < |ps| && StopsAt(o1, o2, ps, sameObject, k) && PropertyKey(ps[k]).None?)
  {
    var ps := EnsureArray(props);
    if ps != [] && IsNullish(o1) {
      return Err(ReadError(o1, ps[0]));
    }
    if ps != [] && IsNullish(o2) {
      return Err(ReadError(o2, ps[0]));
    }
    r := CompareProps(o1, o2, ps, sameObject);
  }

  /** The loop of `propsEqual` once reading from both objects cannot throw:
      the first property that does not agree decides. */
  method CompareProps(o1: Value, o2: Value, ps: seq<Value>, sameObject: Value -> bool) returns (r: Result<bool, string>)
    ensures r == Ok(true) <==> AgreeBefore(o1, o2, ps, sameObject, |ps|)
    ensures r == Ok(false) <==> exists k :: 0 <= k < |ps| && StopsAt(o1, o2, ps, sameObject, k) && PropertyKey(ps[k]).Some?
    ensures r == Err(KeyNotModelled) <==> exists k :: 0 <= k < |ps| && StopsAt(o1, o2, ps, sameObject, k) && PropertyKey(ps[k]).None?
  {
    var i := 0;
    while i < |ps|
      invariant 0 <= i <= |ps|
      invariant AgreeBefore(o1, o2, ps, sameObject, i)
    {
      var name := PropertyKey(ps[i]);
      if name.None? {
        FirstStop(o1, o2, ps, sameObject, i);
        return Err(KeyNotModelled);
      }
      if !StrictEquals(Get(o1, name.value), Get(o2, name.value), sameObject(ps[i])) {
        FirstStop(o1, o2, ps, sameObject, i);
        return Ok(false);
      }
      i := i + 1;
    }
    AllAgree(o1, o2, ps, sameObject);
    return Ok(true);
  }

  /** When the first `i` properties agree and the `i`-th does not, `i` is
      the only index that is the first to disagree. */
  lemma FirstStop(o1: Value, o2: Value, ps: seq<Value>, sameObject: Value -> bool, i: nat)
    requires i < |ps| && AgreeBefore(o1, o2, ps, sameObject, i)
    requires !PropAgrees(o1, o2, ps[i], sameObject(ps[i]))
    ensures StopsAt(o1, o2, ps, sameObject, i)
    ensures forall k :: 0 <= k < |ps| && StopsAt(o1, o2, ps, sameObject, k) ==> k == i
    ensures !AgreeBefore(o1, o2, ps, sameObject, |ps|)
  {
  }

  /** When every property agrees, none is the first to disagree. */
  lemma AllAgree(o1: Value, o2: Value, ps: seq<Value>, sameObject: Value -> bool)
    requires AgreeBefore(o1, o2, ps, sameObject, |ps|)
    ensures forall k :: 0 <= k < |ps| ==> !StopsAt(o1, o2, ps, sameObject, k)
  {
  }

  // ===================================================================
  // getXoaPlan

  /** The number the `switch` of `getXoaPlan` tests: `plan` when truthy,
      else `+process.env.XOA_PLAN` (`env`; `None` is an unset variable).
      `None` is a value no `case` can match. */
  function PlanNumber(plan: Value, env: Option<string>): Option<real> {
    if Truthy(plan) then (if plan.Num? then Some(plan.x) else None)
    else if env.None? then None
    else
      StringToNumber(env.value)
  }

  function PlanName(n: Option<real>): string {
    if n == Some(1.0) then "Free"
    else if n == Some(2.0) then "Starter"
    else if n == Some(3.0) then "Enterprise"
    else if n == Some(4.0) then "Premium"
    else if n == Some(5.0) then "Community"
    else "Unknown"
  }

  /** `getXoaPlan(plan)`. */
  function GetXoaPlan(plan: Value, env: Option<string>): (r: string)
    ensures r != "Unknown" <==> PlanNumber(plan, env) in {Some(1.0), Some(2.0), Some(3.0), Some(4.0), Some(5.0)}
  {
    PlanName(PlanNumber(plan, env))
  }

  /** The plan number a name stands for; its inverse. */
  function PlanOfName(name: string): Option<nat> {
    if name == "Free" then Some(1)
    else if name == "Starter" then Some(2)
    else if name == "Enterprise" then Some(3)
    else if name == "Premium" then Some(4)
    else if name == "Community" then Some(5)
    else None
  }

  /** The five plans have five distinct names, and a number given as the
      argument wins over the environment. */
  lemma GetXoaPlanRoundTrip(n: nat, env: Option<string>)
    requires 1 <= n <= 5
    ensures PlanOfName(GetXoaPlan(Num(n as real), env)) == Some(n)
  {
  }

  lemma GetXoaPlanUnknown(plan: Value, env: Option<string>)
    requires !Truthy(plan) && env.None?
    ensures GetXoaPlan(plan, env) == "Unknown"
  {
  }

  /** `XOA_PLAN` is read as a number, so `"5.0"` is the plan `"5"`. */
  lemma GetXoaPlanFraction(plan: Value, d: string)
    requires !Truthy(plan) && AllDigits(d) && d != ""
    ensures GetXoaPlan(plan, Some(d + ".0")) == GetXoaPlan(plan, Some(d))
  {
    TrailingFractionZero(d);
    StringToNumberOfDigits(d);
  }

  // ===================================================================
  // mapPlus

  /** The (value, key) pairs lodash `forEach` visits: array elements and
      string characters with their index, object properties with their
      name; nothing for other values. */
  function Items(collection: Value): (items: seq<(Value, Value)>)
    ensures collection.Arr? ==> |items| == |collection.elems|
    ensures collection.Obj? ==> |items| == |collection.fields|
    ensures !collection.Arr? && !collection.Obj? && !collection.Str? ==> items == []
  {
    match collection
    case Arr(es) => seq(|es|, k requires 0 <= k < |es| => (es[k], Num(k as real)))
    case Obj(fs) => seq(|fs|, k requires 0 <= k < |fs| => (fs[k].val, Str(fs[k].key)))
    case Str(s) => seq(|s|, k requires 0 <= k < |s| => (Str([s[k]]), Num(k as real)))
    case _ => []
  }

  /** What a `mapPlus` callback does for one item: the values it pushes,
      and its return value (`false` ends the iteration). */
  type Callback = (Value, Value) -> (seq<Value>, Value)

  /** The values pushed while visiting `items`, up to the first callback
      that returns `false`. */
  function Pushed(cb: Callback, items: seq<(Value, Value)>): seq<Value> {
    if items == [] then []
    else
      var (out, ret) := cb(items[0].0, items[0].1);
      if ret == Bool(false) then out else out + Pushed(cb, items[1..])
  }

  /** `mapPlus(collection, cb)`. */
  method MapPlus(collection: Value, cb: Callback) returns (result: seq<Value>)
    ensures result == Pushed(cb, Items(collection))
  {
    var items := Items(collection);
    result := [];
    var i := 0;
    while i < |items|
      invariant 0 <= i <= |items|
      invariant result + Pushed(cb, items[i..]) == Pushed(cb, items)
    {
      var (out, ret) := cb(items[i].0, items[i].1);
      assert items[i..][1..] == items[i + 1..];
      if ret == Bool(false) {
        result := result + out;
        return;
      }
      result := result + out;
      i := i + 1;
    }
  }

  /** With a callback that pushes its value when `keep` says so and never
      returns `false`, `mapPlus` is a filter. */
  lemma {:induction false} PushedFilter(keep: Value -> bool, items: seq<(Value, Value)>)
    ensures var cb := (v: Value, k: Value) => (if keep(v) then [v] else [], Undefined);
      Pushed(cb, items) == Filter(Firsts(items), keep)
  {
    if items != [] {
      PushedFilter(keep, items[1..]);
    }
  }

  /** The values of `(value, key)` items, in order. */
  function Firsts(items: seq<(Value, Value)>): (vs: seq<Value>)
    ensures |vs| == |items|
    ensures forall i :: 0 <= i < |items| ==> vs[i] == items[i].0
  {
    if items == [] then [] else [items[0].0] + Firsts(items[1..])
  }

  // ===================================================================
  // osFamily

  /** The families and the OS names of each, in the source's order. */
  const OsByFamily: seq<(string, seq<string>)> := [
    ("centos", ["centos"]),
    ("debian", ["debian"]),
    ("docker", ["coreos"]),
    ("fedora", ["fedora"]),
    ("freebsd", ["freebsd"]),
    ("gentoo", ["gentoo"]),
    ("linux-mint", ["linux-mint"]),
    ("netbsd", ["netbsd"]),
    ("oracle", ["oracle"]),
    ("osx", ["osx"]),
    ("redhat", ["redhat", "rhel"]),
    ("solaris", ["solaris"]),
    ("suse", ["sles", "suse"]),
    ("ubuntu", ["ubuntu"]),
    ("windows", ["windows"])
  ]

  /** `osToFamily`, as the two nested `forEach` fill it: a later entry
      overrides an earlier one. */
  function OsToFamily(table: seq<(string, seq<string>)>): (m: map<string, string>)
    ensures m.Keys == AllOses(table)
  {
    if table == [] then map[]
    else
      var last := table[|table| - 1];
      AddAll(OsToFamily(table[..|table| - 1]), last.1, last.0)
  }

  /** Every OS name of the table. */
  function AllOses(table: seq<(string, seq<string>)>): set<string> {
    if table == [] then {} else AllOses(table[..|table| - 1]) + SetOf(table[|table| - 1].1)
  }

  function SetOf(oses: seq<string>): set<string> {
    set os | os in oses
  }

  function AddAll(m: map<string, string>, oses: seq<string>, family: string): (r: map<string, string>)
    ensures r.Keys == m.Keys + SetOf(oses)
    ensures forall l :: 0 <= l < |oses| ==> r[oses[l]] == family
    ensures forall os :: os in m && os !in oses ==> r[os] == m[os]
  {
    if oses == [] then m
    else AddAll(m, oses[..|oses| - 1], family)[oses[|oses| - 1] := family]
  }

  const OsToFamilyMap: map<string, string> := OsToFamily(OsByFamily)

  /** `osFamily(osName)`: a falsy name is returned as it is; the name of
      a truthy value without `toLowerCase` throws. */
  function OsFamily(osName: Value): (r: Result<Value, string>)
    ensures !Truthy(osName) ==> r == Ok(osName)
    ensures Truthy(osName) && !osName.Str? ==> r.Err?
  {
    if !Truthy(osName) then Ok(osName)
    else if !osName.Str? then Err("TypeError: osName.toLowerCase is not a function")
    else
      var key := ToLower(osName.s);
      Ok(if key in OsToFamilyMap then Str(OsToFamilyMap[key]) else Undefined)
  }

  /** The family an OS name maps to is one that lists it. */
  lemma {:induction false} OsToFamilyListed(table: seq<(string, seq<string>)>, os: string)
    requires os in AllOses(table)
    ensures exists j :: 0 <= j < |table| && os in table[j].1 && OsToFamily(table)[os] == table[j].0
  {
    var last := |table| - 1;
    var init := table[..last];
    if os in table[last].1 {
      var l :| 0 <= l < |table[last].1| && table[last].1[l] == os;
      assert OsToFamily(table)[os] == table[last].0;
    } else {
      OsToFamilyListed(init, os);
      var j :| 0 <= j < |init| && os in init[j].1 && OsToFamily(init)[os] == init[j].0;
      assert table[j] == init[j];
    }
  }

  /** The empty name is not listed. */
  lemma {:induction false} EmptyNameUnlisted(table: seq<(string, seq<string>)>)
    requires forall j, l :: 0 <= j < |table| && 0 <= l < |table[j].1| ==> |table[j].1[l]| > 0
    ensures "" !in AllOses(table)
  {
    if "" in AllOses(table) {
      OsToFamilyListed(table, "");
    }
  }

  /** An OS name listed by no later family maps to the family that lists
      it. */
  lemma {:induction false} OsToFamilyAt(table: seq<(string, seq<string>)>, j: nat, l: nat)
    requires j < |table| && l < |table[j].1|
    requires forall j2 :: j < j2 < |table| ==> table[j].1[l] !in table[j2].1
    ensures table[j].1[l] in OsToFamily(table) && OsToFamily(table)[table[j].1[l]] == table[j].0
  {
    var last := |table| - 1;
    if j < last {
      var init := table[..last];
      assert table[j].1[l] !in table[last].1;
      assert init[j] == table[j];
      OsToFamilyAt(init, j, l);
    }
  }

  /** A listed OS name, in any case of its letters, gives a family that
      lists it; a name that is not listed gives undefined. */
  lemma OsFamilyOfListed(name: string)
    requires ToLower(name) in AllOses(OsByFamily)
    ensures exists j :: (0 <= j < |OsByFamily| && ToLower(name) in OsByFamily[j].1
                         && OsFamily(Str(name)) == Ok(Str(OsByFamily[j].0)))
  {
    var os := ToLower(name);
    assert forall j, l :: 0 <= j < |OsByFamily| && 0 <= l < |OsByFamily[j].1| ==> |OsByFamily[j].1[l]| > 0;
    EmptyNameUnlisted(OsByFamily);
    OsToFamilyListed(OsByFamily, os);
    var j :| 0 <= j < |OsByFamily| && os in OsByFamily[j].1 && OsToFamilyMap[os] == OsByFamily[j].0;
    OsFamilyOfString(name);
  }

  /** The entry at `(j, l)` of the table, when no later family lists it,
      is found whatever the case of the name's letters. */
  lemma OsFamilyAt(j: nat, l: nat, name: string)
    requires j < |OsByFamily| && l < |OsByFamily[j].1|
    requires forall j2 :: j < j2 < |OsByFamily| ==> OsByFamily[j].1[l] !in OsByFamily[j2].1
    requires ToLower(name) == OsByFamily[j].1[l]
    ensures OsFamily(Str(name)) == Ok(Str(OsByFamily[j].0))
  {
    var os := OsByFamily[j].1[l];
    assert forall j, l :: 0 <= j < |OsByFamily| && 0 <= l < |OsByFamily[j].1| ==> |OsByFamily[j].1[l]| > 0;
    assert |name| == |os| > 0;
    OsToFamilyAt(OsByFamily, j, l);
    assert os in OsToFamilyMap;
    OsFamilyOfString(name);
  }

  /** The two families that list more than one name. */
  lemma OsFamilyRedhat()
    ensures OsFamily(Str("RHEL")) == Ok(Str("redhat"))
  {
    assert ToLower("RHEL") == "rhel" == OsByFamily[10].1[1];
    OsFamilyAt(10, 1, "RHEL");
  }

  lemma OsFamilySuse()
    ensures OsFamily(Str("SLES")) == Ok(Str("suse"))
  {
    assert ToLower("SLES") == "sles" == OsByFamily[12].1[0];
    OsFamilyAt(12, 0, "SLES");
  }

  lemma OsFamilyOfString(name: string)
    requires name != ""
    ensures OsFamily(Str(name)) == Ok(if ToLower(name) in OsToFamilyMap then Str(OsToFamilyMap[ToLower(name)]) else Undefined)
  {
  }

  lemma OsFamilyUnlisted(name: string)
    requires name != ""
    requires ToLower(name) !in AllOses(OsByFamily)
    ensures OsFamily(Str(name)) == Ok(Undefined)
  {
  }

  /** The lookup ignores case. */
  lemma OsFamilyCaseInsensitive(name: string)
    ensures OsFamily(Str(name)) == OsFamily(Str(ToLower(name)))
  {
    ToLowerIdempotent(name);
  }

  // ===================================================================
  // resolveId, resolveIds

  /** `'id' in value` for an object or an array. */
  predicate HasId(v: Value) {
    (v.Obj? && Lookup(v.fields, "id").Some?)
  }

  /** `resolveId(value)`. */
  function ResolveId(v: Value): (r: Value)
    ensures HasId(v) ==> r == Get(v, "id")
    ensures !HasId(v) ==> r == v
  {
    if HasId(v) then Get(v, "id") else v
  }

  /** A mutable object or array: the target of `resolveIds`. */
  class Ref {
    var value: Value

    constructor (v: Value)
      ensures value == v
    {
      value := v;
    }

    /** `resolveIds(params)`: each own entry that is an object with an
        `id` is replaced by that id, in place. */
    method ResolveIds() returns (self: Ref)
      modifies this
      ensures self == this
      ensures old(value).Obj? ==>
                (value.Obj? && Keys(value.fields) == Keys(old(value).fields)
                 && forall k :: 0 <= k < |value.fields| ==> value.fields[k].val == ResolveId(old(value).fields[k].val))
      ensures old(value).Arr? ==>
                (value.Arr? && |value.elems| == |old(value).elems|
                 && forall k :: 0 <= k < |value.elems| ==> value.elems[k] == ResolveId(old(value).elems[k]))
      ensures !old(value).Obj? && !old(value).Arr? ==> value == old(value)
    {
      self := this;
      if value.Obj? {
        var fs := value.fields;
        var i := 0;
        while i < |fs|
          invariant 0 <= i <= |fs| && value.Obj? && |value.fields| == |fs|
          invariant forall k :: 0 <= k < |fs| ==> value.fields[k].key == fs[k].key
          invariant forall k :: 0 <= k < i ==> value.fields[k].val == ResolveId(fs[k].val)
          invariant forall k :: i <= k < |fs| ==> value.fields[k] == fs[k]
        {
          var param := value.fields[i].val;
          if HasId(param) {
            value := Obj(value.fields[i := Field(fs[i].key, Get(param, "id"))]);
          }
          i := i + 1;
        }
      } else if value.Arr? {
        var es := value.elems;
        var i := 0;
        while i < |es|
          invariant 0 <= i <= |es| && value.Arr? && |value.elems| == |es|
          invariant forall k :: 0 <= k < i ==> value.elems[k] == ResolveId(es[k])
          invariant forall k :: i <= k < |es| ==> value.elems[k] == es[k]
        {
          var param := value.elems[i];
          if HasId(param) {
            value := Arr(value.elems[i := Get(param, "id")]);
          }
          i := i + 1;
        }
      }
    }
  }

  // ===================================================================
  // makeNiceCompare, compareVersions

  /** A comparison that may throw. */
  type Compare = (Value, Value) -> Result<int, string>

  /** `OPs[op](c)`; an operator that is not one of the five is not a
      function. */
  function ApplyOp(op: Value, c: int): (r: Result<bool, string>)
    ensures r.Ok? <==> op in {Str("<"), Str("<="), Str("==="), Str(">"), Str(">=")}
  {
    if op == Str("<") then Ok(c < 0)
    else if op == Str("<=") then Ok(c <= 0)
    else if op == Str("===") then Ok(c == 0)
    else if op == Str(">") then Ok(c > 0)
    else if op == Str(">=") then Ok(c >= 0)
    else Err("TypeError: OPs[op] is not a function")
  }

  /** `arguments[i]`, undefined past the end. */
  function Arg(args: seq<Value>, i: int): Value {
    if 0 <= i < |args| then args[i] else Undefined
  }

  /** The chain from argument `i` on, `v1` being the left operand. */
  function Chain(compare: Compare, args: seq<Value>, i: nat, v1: Value): Result<bool, string>
    decreases |args| - i
  {
    if i >= |args| then Ok(true)
    else
      var v2 := Arg(args, i + 1);
      var c :- compare(v1, v2);
      var holds :- ApplyOp(Arg(args, i), c);
      if !holds then Ok(false) else Chain(compare, args, i + 2, v2)
  }

  /** The function `makeNiceCompare(compare)` returns, applied to `args`:
      the raw comparison for two arguments, a chain otherwise. */
  method NiceCompare(compare: Compare, args: seq<Value>) returns (r: Result<Value, string>)
    ensures |args| == 2 ==> r == (var c := compare(args[0], args[1]); if c.Ok? then Ok(Num(c.value as real)) else Err(c.error))
    ensures |args| != 2 ==> r == (var b := Chain(compare, args, 1, Arg(args, 0)); if b.Ok? then Ok(Bool(b.value)) else Err(b.error))
  {
    if |args| == 2 {
      var c := compare(args[0], args[1]);
      if c.Err? {
        return Err(c.error);
      }
      return Ok(Num(c.value as real));
    }
    var i := 1;
    var v1 := Arg(args, 0);
    while i < |args|
      invariant i >= 1
      invariant Chain(compare, args, 1, Arg(args, 0)) == Chain(compare, args, i, v1)
      decreases |args| - i
    {
      var op := Arg(args, i);
      var v2 := Arg(args, i + 1);
      i := i + 2;
      var c := compare(v1, v2);
      if c.Err? {
        return Err(c.error);
      }
      var holds := ApplyOp(op, c.value);
      if holds.Err? {
        return Err(holds.error);
      }
      if !holds.value {
        return Ok(Bool(false));
      }
      v1 := v2;
    }
    return Ok(Bool(true));
  }

  /** A chain `v0 op1 v1 op2 v2 ...` of valid operators and a comparison
      that does not throw holds exactly when every adjacent pair satisfies
      its operator. */
  predicate IsOp(op: Value) {
    op in {Str("<"), Str("<="), Str("==="), Str(">"), Str(">=")}
  }

  /** The pair around the operator at `j` satisfies it. */
  predicate PairHolds(compare: Compare, args: seq<Value>, j: nat) {
    var c := compare(Arg(args, j - 1), Arg(args, j + 1));
    c.Ok? && ApplyOp(Arg(args, j), c.value) == Ok(true)
  }

  predicate Odd(j: int) {
    j % 2 == 1
  }

  lemma {:induction false} ChainIff(compare: Compare, args: seq<Value>, i: nat)
    requires i >= 1 && Odd(i) && Odd(|args|)
    requires forall a, b :: compare(a, b).Ok?
    requires forall j :: 1 <= j < |args| && Odd(j) ==> IsOp(args[j])
    ensures Chain(compare, args, i, Arg(args, i - 1)) ==
      Ok(forall j :: i <= j < |args| && Odd(j) ==> PairHolds(compare, args, j))
    decreases |args| - i
  {
    if i < |args| {
      assert IsOp(Arg(args, i));
      ChainIff(compare, args, i + 2);
      assert forall j :: i < j < i + 2 ==> !Odd(j);
    }
  }

  /** `+part || 0` for one component of a version; NaN and 0 give 0. */
  function ComponentValue(part: string): real {
    StringToNumber(part).GetOr(0.0)
  }

  /** `+parts[i] || 0`, where a missing component is undefined, hence 0. */
  function Component(parts: seq<string>, i: nat): real {
    if i < |parts| then ComponentValue(parts[i]) else 0.0
  }

  /** The numbers of the components of a version, in order. */
  function Numbers(parts: seq<string>): (ns: seq<real>)
    ensures |ns| == |parts|
  {
    if parts == [] then [] else Numbers(parts[..|parts| - 1]) + [ComponentValue(parts[|parts| - 1])]
  }

  /** Number `i` of a version, 0 past its end. */
  function At(ns: seq<real>, i: nat): real {
    if i < |ns| then ns[i] else 0.0
  }

  lemma {:induction false} NumbersAt(parts: seq<string>, i: nat)
    ensures At(Numbers(parts), i) == Component(parts, i)
  {
    if i < |parts| && i != |parts| - 1 {
      NumbersAt(parts[..|parts| - 1], i);
    }
  }

  /** The loop of `compareVersions` from component `i` on, over the
      numbers of the two versions. */
  function CompareFrom(n1: seq<real>, n2: seq<real>, i: nat): (r: int)
    ensures r in {-1, 0, 1}
    decreases if |n1| < |n2| then |n2| - i else |n1| - i
  {
    if i >= |n1| && i >= |n2| then 0
    else if At(n1, i) < At(n2, i) then -1
    else if At(n1, i) > At(n2, i) then 1
    else CompareFrom(n1, n2, i + 1)
  }

  function Max(a: int, b: int): int {
    if a < b then b else a
  }

  /** The comparison of `compareVersions` on two strings. */
  method CompareVersionStrings(v1: string, v2: string) returns (r: int)
    ensures r == CompareFrom(Numbers(Split(v1, '.')), Numbers(Split(v2, '.')), 0)
  {
    var p1 := Split(v1, '.');
    var p2 := Split(v2, '.');
    ghost var ns1, ns2 := Numbers(p1), Numbers(p2);
    var i := 0;
    while i < Max(|p1|, |p2|)
      invariant 0 <= i <= Max(|p1|, |p2|)
      invariant CompareFrom(ns1, ns2, 0) == CompareFrom(ns1, ns2, i)
    {
      var n1 := Component(p1, i);
      var n2 := Component(p2, i);
      NumbersAt(p1, i);
      NumbersAt(p2, i);
      if n1 < n2 {
        return -1;
      }
      if n1 > n2 {
        return 1;
      }
      i := i + 1;
    }
    return 0;
  }

  /** The comparison `compareVersions` wraps: `v1.split` and `v2.split` throw on values
      that are not strings. */
  function CompareVersionValues(a: Value, b: Value): (r: Result<int, string>)
    ensures r.Ok? <==> a.Str? && b.Str?
    ensures r.Ok? ==> r.value == CompareFrom(Numbers(Split(a.s, '.')), Numbers(Split(b.s, '.')), 0)
  {
    if !a.Str? then Err(SplitError(a, "v1"))
    else if !b.Str? then Err(SplitError(b, "v2"))
    else Ok(CompareFrom(Numbers(Split(a.s, '.')), Numbers(Split(b.s, '.')), 0))
  }

  function SplitError(v: Value, name: string): string {
    if IsNullish(v) then "TypeError: Cannot read property 'split' of " + NullishName(v)
    else "TypeError: " + name + ".split is not a function"
  }

  /** `compareVersions(...args)`. */
  method CompareVersions(args: seq<Value>) returns (r: Result<Value, string>)
    ensures |args| == 2 ==> r == (var c := CompareVersionValues(args[0], args[1]); if c.Ok? then Ok(Num(c.value as real)) else Err(c.error))
    ensures |args| != 2 ==> r == (var b := Chain(CompareVersionValues, args, 1, Arg(args, 0)); if b.Ok? then Ok(Bool(b.value)) else Err(b.error))
  {
    r := NiceCompare(CompareVersionValues, args);
  }

  // ----- properties of the version order

  lemma {:induction false} CompareFromAntisymmetric(n1: seq<real>, n2: seq<real>, i: nat)
    ensures CompareFrom(n1, n2, i) == -CompareFrom(n2, n1, i)
    decreases if |n1| < |n2| then |n2| - i else |n1| - i
  {
    if !(i >= |n1| && i >= |n2|) {
      CompareFromAntisymmetric(n1, n2, i + 1);
    }
  }

  /** Components are compared one by one: the order is the order of the
      component sequences padded with zeros. */
  lemma {:induction false} CompareFromEqual(n1: seq<real>, n2: seq<real>, i: nat)
    ensures CompareFrom(n1, n2, i) == 0 <==> forall j :: i <= j < Max(|n1|, |n2|) ==> At(n1, j) == At(n2, j)
    decreases if |n1| < |n2| then |n2| - i else |n1| - i
  {
    if !(i >= |n1| && i >= |n2|) {
      CompareFromEqual(n1, n2, i + 1);
    }
  }

  /** `compare(a, b) = -compare(b, a)`. */
  lemma VersionsAntisymmetric(a: string, b: string)
    ensures CompareVersionValues(Str(a), Str(b)).value == -CompareVersionValues(Str(b), Str(a)).value
  {
    CompareFromAntisymmetric(Numbers(Split(a, '.')), Numbers(Split(b, '.')), 0);
  }

  lemma {:induction false} SplitAppend(s: string, t: string)
    ensures Split(s + ['.'] + t, '.') == Split(s, '.') + Split(t, '.')
    decreases |s|
  {
    if s == [] {
      assert [] + ['.'] + t == ['.'] + t;
      assert (['.'] + t)[1..] == t;
    } else {
      assert (s + ['.'] + t)[1..] == s[1..] + ['.'] + t;
      assert (s + ['.'] + t)[0] == s[0];
      SplitAppend(s[1..], t);
    }
  }

  /** A trailing `.0` does not change a version: `'1.0'` equals `'1'`. */
  lemma TrailingZero(v: string)
    ensures CompareVersionValues(Str(v + ".0"), Str(v)) == Ok(0)
  {
    var p := Split(v, '.');
    var q := Split(v + ".0", '.');
    SplitTrailingZero(v);
    NumbersTrailingZero(p);
    forall j | 0 <= j < Max(|q|, |p|) ensures At(Numbers(q), j) == At(Numbers(p), j) {
    }
    CompareFromEqual(Numbers(q), Numbers(p), 0);
  }

  lemma SplitTrailingZero(v: string)
    ensures Split(v + ".0", '.') == Split(v, '.') + ["0"]
  {
    assert ".0" == ['.'] + "0";
    assert v + ".0" == v + ['.'] + "0";
    SplitAppend(v, "0");
    var z := "0";
    assert z[0] == '0' && z[1..] == [];
    assert Split(z[1..], '.') == [""];
    assert [z[0]] + "" == "0" && [""][1..] == [];
  }

  lemma NumbersTrailingZero(p: seq<string>)
    ensures Numbers(p + ["0"]) == Numbers(p) + [0.0]
  {
    var q := p + ["0"];
    assert q[..|q| - 1] == p;
    StringToNumberOfDigits("0");
  }

  // ===================================================================
  // getCoresPerSocketPossibilities

  /** `vCPUs` where the source uses it as a number (`+vCPUs`): `None` is
      NaN, for which no loop condition holds. A count that is not a whole
      number stays as it is; no core count divides it. */
  function CpuCount(v: Value): Option<real> {
    match v
    case Num(x) => Some(x)
    case Str(s) => StringToNumber(s)
    case Bool(b) => Some(if b then 1.0 else 0.0)
    case Null => Some(0.0)
    case _ => None
  }

  /** `vCPUs % c === 0` for an integer `c`: the remainder is zero (or
      negative zero) exactly when `c` goes into `n` a whole number of
      times; `x % 0` is NaN. */
  predicate Divides(c: int, n: real) {
    c != 0 && IsInteger(n / c as real)
  }

  /** The counts from `hi` down to `lo + 1` that divide `n`, highest
      first. */
  function Candidates(n: real, hi: int, lo: int): seq<int>
    decreases hi - lo
  {
    if hi <= lo then [] else (if Divides(hi, n) then [hi] else []) + Candidates(n, hi - 1, lo)
  }

  lemma {:induction false} CandidatesSnoc(n: real, hi: int, lo: int)
    requires lo <= hi
    ensures Candidates(n, hi, lo - 1) == Candidates(n, hi, lo) + (if Divides(lo, n) then [lo] else [])
    decreases hi - lo
  {
    if lo < hi {
      CandidatesSnoc(n, hi - 1, lo);
    }
  }

  lemma {:induction false} CandidatesInRange(n: real, hi: int, lo: int)
    ensures forall k :: 0 <= k < |Candidates(n, hi, lo)| ==>
              lo < Candidates(n, hi, lo)[k] <= hi && Divides(Candidates(n, hi, lo)[k], n)
    decreases hi - lo
  {
    if lo < hi {
      CandidatesInRange(n, hi - 1, lo);
      var rest := Candidates(n, hi - 1, lo);
      var r := Candidates(n, hi, lo);
      if Divides(hi, n) {
        assert r == [hi] + rest;
        assert forall k :: 1 <= k < |r| ==> r[k] == rest[k - 1];
      } else {
        assert r == rest;
      }
    }
  }

  lemma {:induction false} CandidatesDecreasing(n: real, hi: int, lo: int)
    ensures forall k, l :: 0 <= k < l < |Candidates(n, hi, lo)| ==> Candidates(n, hi, lo)[k] > Candidates(n, hi, lo)[l]
    decreases hi - lo
  {
    if lo < hi {
      CandidatesDecreasing(n, hi - 1, lo);
      CandidatesInRange(n, hi - 1, lo);
      var rest := Candidates(n, hi - 1, lo);
      var r := Candidates(n, hi, lo);
      if Divides(hi, n) {
        assert r == [hi] + rest;
        assert forall k :: 1 <= k < |r| ==> r[k] == rest[k - 1];
      } else {
        assert r == rest;
      }
    }
  }

  lemma {:induction false} CandidatesComplete(n: real, hi: int, lo: int)
    ensures forall c :: lo < c <= hi && Divides(c, n) ==> c in Candidates(n, hi, lo)
    decreases hi - lo
  {
    if lo < hi {
      CandidatesComplete(n, hi - 1, lo);
      var rest := Candidates(n, hi - 1, lo);
      var r := Candidates(n, hi, lo);
      if Divides(hi, n) {
        assert r == [hi] + rest;
        assert forall c :: c in rest ==> c in r;
      } else {
        assert r == rest;
      }
    }
  }

  /** The candidates are exactly the divisors in the range, in strictly
      decreasing order. */
  lemma CandidatesSpec(n: real, hi: int, lo: int)
    ensures var r := Candidates(n, hi, lo);
      (forall k :: 0 <= k < |r| ==> lo < r[k] <= hi && Divides(r[k], n))
      && (forall k, l :: 0 <= k < l < |r| ==> r[k] > r[l])
      && (forall c :: lo < c <= hi && Divides(c, n) ==> c in r)
  {
    CandidatesInRange(n, hi, lo);
    CandidatesDecreasing(n, hi, lo);
    CandidatesComplete(n, hi, lo);
  }

  /** `getCoresPerSocketPossibilities(maxCoresPerSocket, vCPUs)`: the core
      counts from `maxCoresPerSocket` down to `vCPUs / 16` that divide
      `vCPUs`. `None` is an undefined `maxCoresPerSocket`. */
  method GetCoresPerSocketPossibilities(maxCoresPerSocket: Option<int>, vCPUs: Value) returns (options: seq<int>)
    ensures maxCoresPerSocket.None? || vCPUs == Str("") || CpuCount(vCPUs).None? ==> options == []
    ensures maxCoresPerSocket.Some? && vCPUs != Str("") && CpuCount(vCPUs).Some? ==>
      var max := maxCoresPerSocket.value;
      var n := CpuCount(vCPUs).value;
      (forall k :: 0 <= k < |options| ==> Divides(options[k], n) && options[k] <= max && 16.0 * options[k] as real >= n)
      && (forall k, l :: 0 <= k < l < |options| ==> options[k] > options[l])
      && (forall c :: c <= max && 16.0 * c as real >= n && Divides(c, n) ==> c in options)
  {
    options := [];
    if maxCoresPerSocket.None? || vCPUs == Str("") {
      return;
    }
    var count := CpuCount(vCPUs);
    if count.None? {
      return;
    }
    var n := count.value;
    var max := maxCoresPerSocket.value;
    var coresPerSocket := max;
    while 16.0 * coresPerSocket as real >= n
      invariant coresPerSocket <= max
      invariant coresPerSocket == max || 16.0 * (coresPerSocket + 1) as real >= n
      invariant options == Candidates(n, max, coresPerSocket)
      decreases coresPerSocket - (n / 16.0).Floor
    {
      CandidatesSnoc(n, max, coresPerSocket);
      if Divides(coresPerSocket, n) {
        options := options + [coresPerSocket];
      }
      coresPerSocket := coresPerSocket - 1;
    }
    CandidatesSpec(n, max, coresPerSocket);
  }

  // ===================================================================
  // cowSet

  /** `cowSet(object, path, value, depth)`: `path[depth..]` is followed,
      each level a shallow copy of the input's (a new object where the
      input is null or undefined); the input is not changed. Setting a
      property of a primitive throws. On an array only an index up to its
      length is modelled. */
  function CowSet(obj: Value, path: seq<string>, value: Value, depth: nat): (r: Result<Value, string>)
    ensures depth >= |path| ==> r == Ok(value)
    decreases |path| - depth
  {
    if depth >= |path| then Ok(value)
    else
      var prop := path[depth];
      if IsNullish(obj) then
        var child :- CowSet(Undefined, path, value, depth + 1);
        Ok(Obj([Field(prop, child)]))
      else if obj.Obj? then
        var child :- CowSet(Get(obj, prop), path, value, depth + 1);
        Ok(Obj(SetField(obj.fields, prop, child)))
      else if obj.Arr? then
        var k := IndexName(prop);
        if k.Some? && k.value <= |obj.elems| then
          var child :- CowSet(Get(obj, prop), path, value, depth + 1);
          Ok(Arr(if k.value < |obj.elems| then obj.elems[k.value := child] else obj.elems + [child]))
        else Err("array property not modelled")
      else Err("TypeError: Cannot create property '" + prop + "' on a primitive")
  }

  /** The value at `path[depth..]` below `v`. */
  function GetPath(v: Value, path: seq<string>, depth: nat): Value
    decreases |path| - depth
  {
    if depth >= |path| then v else GetPath(Get(v, path[depth]), path, depth + 1)
  }

  /** After `cowSet`, the value at the path is the one set. */
  lemma {:induction false} CowSetGet(obj: Value, path: seq<string>, value: Value, depth: nat)
    requires CowSet(obj, path, value, depth).Ok?
    ensures GetPath(CowSet(obj, path, value, depth).value, path, depth) == value
    decreases |path| - depth
  {
    if depth < |path| {
      var prop := path[depth];
      var next := if obj.Obj? || obj.Arr? then Get(obj, prop) else Undefined;
      CowSetGet(next, path, value, depth + 1);
    }
  }

  /** The other properties of each object on the path are kept. */
  lemma CowSetKeepsOthers(fs: seq<Field>, path: seq<string>, value: Value, depth: nat, key: string)
    requires depth < |path| && key != path[depth]
    requires CowSet(Obj(fs), path, value, depth).Ok?
    ensures Get(CowSet(Obj(fs), path, value, depth).value, key) == Get(Obj(fs), key)
  {
  }
}
