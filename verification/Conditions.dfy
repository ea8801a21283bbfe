/** Condition paths: what the compiler says of a path (packages/core/src/compile.ts) against what the path does to a
    decoded event at run time (packages/core/src/conditions.ts).

    A path is the list of its dot-separated segments. */
module ConditionPaths {
  import opened Wrappers

  /** An ABI type. The source keeps `T[2][]` as text and strips one trailing bracket a time, the outermost dimension
      first; here that text is ArrayOf(ArrayOf(T, Some(2)), None). */
  datatype AbiType =
    | Elementary
    | Tuple(components: seq<Param>)
    | ArrayOf(element: AbiType, size: Option<nat>)

  /** A name, empty for a parameter that has none, and a type. */
  datatype Param = Param(name: string, ty: AbiType)

  datatype Input = Input(param: Param, indexed: bool)

  /** What the compiler says of a field: it fails the rule, it warns, or it has nothing to say. */
  datatype Verdict = Issue | Warning | Fine

  /** A decoded value: a number, string, boolean or bigint; an array; or an object with its own properties. */
  datatype Value = Prim(text: string) | Arr(items: seq<Value>) | Obj(fields: map<string, Value>)

  type Path = seq<string>

  // Decimal text

  predicate AllDigits(s: string) { |s| > 0 && forall i :: 0 <= i < |s| ==> '0' <= s[i] <= '9' }

  /** Digits without a leading zero: the only spelling under which JavaScript keeps an array element. */
  predicate Canonical(s: string) { AllDigits(s) && (|s| == 1 || s[0] != '0') }

  function Digit(n: nat): char
    requires n < 10
  {
    '0' + n as char
  }

  function Decimal(n: nat): string {
    if n < 10 then [Digit(n)] else Decimal(n / 10) + [Digit(n % 10)]
  }

  function Number(s: string): nat
    requires forall i :: 0 <= i < |s| ==> '0' <= s[i] <= '9'
  {
    if s == [] then 0 else Number(s[..|s| - 1]) * 10 + (s[|s| - 1] as int - '0' as int)
  }

  lemma {:induction false} DecimalIsCanonical(n: nat)
    ensures Canonical(Decimal(n)) && Number(Decimal(n)) == n
    ensures n > 0 ==> Decimal(n)[0] != '0'
  {
    if n >= 10 {
      DecimalIsCanonical(n / 10);
      var d := Decimal(n);
      assert d[..|d| - 1] == Decimal(n / 10);
      assert d[0] == Decimal(n / 10)[0];
    } else {
      assert Decimal(n)[..0] == [];
    }
  }

  lemma {:induction false} CanonicalIsDecimal(s: string)
    requires Canonical(s)
    ensures Decimal(Number(s)) == s
    ensures s[0] != '0' ==> Number(s) > 0
  {
    var front := s[..|s| - 1];
    if |s| == 1 {
      assert front == [];
    } else {
      assert front[0] == s[0];
      CanonicalIsDecimal(front);
      assert s == front + [s[|s| - 1]];
    }
  }

  // The compiler

  function Find(params: seq<Param>, name: string): Option<Param> {
    if params == [] || name == "" then None
    else if params[0].name == name then Some(params[0])
    else Find(params[1..], name)
  }

  function Walk(ty: AbiType, path: Path): Verdict
    decreases |path|
  {
    if path == [] then Fine
    else
      var next, rest := path[0], path[1..];
      match ty
      case ArrayOf(element, _) =>
        if next == "length" then (if rest == [] then Fine else Warning)
        else if !AllDigits(next) then Warning
        else Walk(element, rest)
      case Elementary => Warning
      case Tuple(components) =>
        match Find(components, next)
        case None => Warning
        case Some(child) => Walk(child.ty, rest)
  }

  function WalkFrom(input: Input, path: Path): Verdict {
    if input.indexed && |path| > 0 then Warning else Walk(input.param.ty, path)
  }

  const CONTEXT_FIELDS: set<string> := {"address", "blockNumber", "transactionHash", "logIndex"}

  function FindInput(inputs: seq<Input>, name: string): Option<Input> {
    if inputs == [] then None
    else if inputs[0].param.name == name then Some(inputs[0])
    else FindInput(inputs[1..], name)
  }

  function CheckField(inputs: seq<Input>, path: Path): Verdict
    requires path != []
  {
    if path[0] == "args" then
      if |path| == 1 then Issue
      else
        match FindInput(inputs, path[1])
        case None => Issue
        case Some(input) => WalkFrom(input, path[2..])
    else if |path| == 1 && path[0] in CONTEXT_FIELDS then Fine
    else Issue
  }

  // The run time

  /** Object.hasOwn, behind the typeof test. */
  ghost predicate HasOwn(v: Value, part: string) {
    match v
    case Prim(_) => false
    case Arr(items) => part == "length" || exists i: nat :: i < |items| && part == Decimal(i)
    case Obj(fields) => part in fields
  }

  predicate IsIndex(part: string, size: nat) { Canonical(part) && Number(part) < size }

  function Property(v: Value, part: string): Option<Value> {
    match v
    case Prim(_) => None
    case Arr(items) =>
      if part == "length" then Some(Prim(Decimal(|items|)))
      else if IsIndex(part, |items|) then Some(items[Number(part)])
      else None
    case Obj(fields) => if part in fields then Some(fields[part]) else None
  }

  /** An array's own properties are its length and the canonical decimals below it. */
  lemma PropertyIsOwn(v: Value, part: string)
    ensures Property(v, part).Some? <==> HasOwn(v, part)
    ensures v.Arr? ==> forall i: nat :: i < |v.items| ==> Property(v, Decimal(i)) == Some(v.items[i])
  {
    if v.Arr? {
      forall i: nat | i < |v.items| ensures Property(v, Decimal(i)) == Some(v.items[i]) {
        DecimalIsCanonical(i);
        assert '0' <= Decimal(i)[0] <= '9' && "length"[0] == 'l';
      }
      if IsIndex(part, |v.items|) {
        CanonicalIsDecimal(part);
        assert part == Decimal(Number(part));
      }
    }
  }

  function Resolve(v: Value, path: Path): Option<Value>
    decreases |path|
  {
    if path == [] then Some(v)
    else
      match Property(v, path[0])
      case None => None
      case Some(w) => Resolve(w, path[1..])
  }

  /** resolveField steps down the path and gives up at the first segment that is no own property. */
  method ResolveField(ctx: Value, path: Path) returns (found: Option<Value>)
    ensures found == Resolve(ctx, path)
  {
    var current := ctx;
    for i := 0 to |path|
      invariant Resolve(ctx, path) == Resolve(current, path[i..])
    {
      var own := Property(current, path[i]);
      assert path[i..][1..] == path[i + 1..];
      if own.None? {
        return None;
      }
      current := own.value;
    }
    return Some(current);
  }

  // Decoding

  const PROTO: string := "__proto__"

  predicate AllNamed(params: seq<Param>) { forall i :: 0 <= i < |params| ==> params[i].name != "" }

  /** The decoder makes a plain object of a tuple, and an array where a component has no name or there is none. */
  predicate AsArray(components: seq<Param>) { components == [] || !AllNamed(components) }

  /** An object's property holds what was assigned last; one of this name is no own property at all. */
  function LastNamed(params: seq<Param>, name: string): (r: Option<nat>)
    ensures r.Some? ==>
              && r.value < |params| && params[r.value].name == name && name != PROTO
              && forall j :: r.value < j < |params| ==> params[j].name != name
    ensures r.None? && name != PROTO ==> forall j :: 0 <= j < |params| ==> params[j].name != name
  {
    if params == [] || name == PROTO then None
    else if params[|params| - 1].name == name then Some(|params| - 1)
    else LastNamed(params[..|params| - 1], name)
  }

  /** The component that a segment reads in the decoded tuple. */
  function KeptIndex(components: seq<Param>, part: string): (r: Option<nat>)
    ensures r.Some? ==> r.value < |components|
  {
    if !AsArray(components) then LastNamed(components, part)
    else if IsIndex(part, |components|) then Some(Number(part))
    else None
  }

  /** The values decoding gives for a type: arrays of the declared size, and tuples as said. */
  ghost predicate Decoded(ty: AbiType, v: Value) {
    match ty
    case Elementary => v.Prim?
    case ArrayOf(element, size) =>
      && v.Arr? && (size.Some? ==> |v.items| == size.value)
      && forall i :: 0 <= i < |v.items| ==> Decoded(element, v.items[i])
    case Tuple(components) =>
      if AsArray(components) then
        v.Arr? && |v.items| == |components| && forall i :: 0 <= i < |components| ==> Decoded(components[i].ty, v.items[i])
      else
        && v.Obj? && (forall name :: name in v.fields <==> LastNamed(components, name).Some?)
        && forall i :: 0 <= i < |components| && LastNamed(components, components[i].name) == Some(i) ==>
             Decoded(components[i].ty, v.fields[components[i].name])
  }

  /** An indexed input is a topic: an elementary value, or the hash of anything larger. */
  ghost predicate DecodedInput(input: Input, v: Value) {
    if input.indexed then v.Prim? else Decoded(input.param.ty, v)
  }

  /** The inputs of one kind that have this name, the last of them. */
  function LastInput(inputs: seq<Input>, name: string, indexed: bool): (r: Option<nat>)
    ensures r.Some? ==> r.value < |inputs| && inputs[r.value].param.name == name && name != PROTO
    ensures r.None? && name != PROTO ==>
              forall j :: 0 <= j < |inputs| && inputs[j].indexed == indexed ==> inputs[j].param.name != name
  {
    if inputs == [] || name == PROTO then None
    else
      var last := inputs[|inputs| - 1];
      if last.param.name == name && last.indexed == indexed then Some(|inputs| - 1)
      else LastInput(inputs[..|inputs| - 1], name, indexed)
  }

  /** Indexed inputs are assigned first, so one that is not replaces them. */
  function KeptInput(inputs: seq<Input>, name: string): (r: Option<nat>)
    ensures r.Some? ==> r.value < |inputs| && inputs[r.value].param.name == name && name != PROTO
    ensures r.None? && name != PROTO ==> forall j :: 0 <= j < |inputs| ==> inputs[j].param.name != name
  {
    var data := LastInput(inputs, name, false);
    if data.Some? then data else LastInput(inputs, name, true)
  }

  ghost predicate DecodedArgs(inputs: seq<Input>, args: map<string, Value>) {
    && (forall name :: name in args <==> KeptInput(inputs, name).Some?)
    && forall name :: name in args ==> DecodedInput(inputs[KeptInput(inputs, name).value], args[name])
  }

  // What a path reads

  /** The verdict on the components the decoder keeps. It is Walk, but for tuples. */
  function Kept(ty: AbiType, path: Path): Verdict
    decreases |path|
  {
    if path == [] then Fine
    else
      var next, rest := path[0], path[1..];
      match ty
      case ArrayOf(element, _) =>
        if next == "length" then (if rest == [] then Fine else Warning)
        else if !AllDigits(next) then Warning
        else Kept(element, rest)
      case Elementary => Warning
      case Tuple(components) =>
        if AsArray(components) && next == "length" then (if rest == [] then Fine else Warning)
        else
          match KeptIndex(components, next)
          case None => Warning
          case Some(i) => Kept(components[i].ty, rest)
  }

  /** Every array index on the way is a canonical decimal below the array's length. */
  ghost predicate InRange(ty: AbiType, v: Value, path: Path)
    requires Decoded(ty, v)
    decreases |path|
  {
    if path == [] then true
    else
      match ty
      case Elementary => true
      case ArrayOf(element, _) =>
        path[0] == "length" || (IsIndex(path[0], |v.items|) && InRange(element, v.items[Number(path[0])], path[1..]))
      case Tuple(components) =>
        var i := KeptIndex(components, path[0]);
        i.Some? && !(AsArray(components) && path[0] == "length") ==>
          InRange(components[i.value].ty, if AsArray(components) then v.items[i.value] else v.fields[path[0]], path[1..])
  }

  /** For every type and every value decoded for it, a path resolves exactly when the components kept have it and its
      array indices are in range. */
  lemma {:induction false} ResolvesExactly(ty: AbiType, v: Value, path: Path)
    requires Decoded(ty, v)
    ensures Kept(ty, path) != Issue
    ensures Resolve(v, path).Some? <==> Kept(ty, path) == Fine && InRange(ty, v, path)
    decreases |path|
  {
    if path != [] {
      match ty
      case Elementary =>
      case ArrayOf(element, _) =>
        if path[0] != "length" && IsIndex(path[0], |v.items|) {
          ResolvesExactly(element, v.items[Number(path[0])], path[1..]);
        } else {
          KeptIsNoIssue(ty, path);
          if path[0] == "length" && |path| > 1 { assert path[1..] != []; }
        }
      case Tuple(components) =>
        var i := KeptIndex(components, path[0]);
        if AsArray(components) && path[0] == "length" {
          if |path| > 1 { assert path[1..] != []; }
        } else if i.Some? {
          ResolvesExactly(components[i.value].ty, if AsArray(components) then v.items[i.value] else v.fields[path[0]],
                          path[1..]);
        }
    }
  }

  lemma {:induction false} KeptIsNoIssue(ty: AbiType, path: Path)
    ensures Kept(ty, path) != Issue && Walk(ty, path) != Issue
    decreases |path|
  {
    if path != [] {
      match ty
      case Elementary =>
      case ArrayOf(element, _) => KeptIsNoIssue(element, path[1..]);
      case Tuple(components) =>
        if Find(components, path[0]).Some? { KeptIsNoIssue(Find(components, path[0]).value.ty, path[1..]); }
        if KeptIndex(components, path[0]).Some? {
          KeptIsNoIssue(components[KeptIndex(components, path[0]).value].ty, path[1..]);
        }
    }
  }

  /** A verdict is right on a value: a path warned about does not resolve in it, and one accepted does exactly when its
      array indices are in range. */
  predicate IsRight(verdict: Verdict, resolves: bool, inRange: bool) {
    (verdict == Warning ==> !resolves) && (verdict == Fine ==> (resolves <==> inRange))
  }

  /** The compiler's verdict on a path is right on a value exactly when it is the verdict on the components kept, or an
      index is out of range anyway. */
  lemma WalkForetells(ty: AbiType, v: Value, path: Path)
    requires Decoded(ty, v)
    ensures IsRight(Walk(ty, path), Resolve(v, path).Some?, InRange(ty, v, path))
       <==> Walk(ty, path) == Kept(ty, path) || !InRange(ty, v, path)
  {
    ResolvesExactly(ty, v, path);
    KeptIsNoIssue(ty, path);
  }

  /** In every tuple on the way, all components are named, and only one has the name that is read. */
  predicate Plain(ty: AbiType, path: Path)
    decreases |path|
  {
    path == [] ||
    match ty
    case Elementary => true
    case ArrayOf(element, _) => Plain(element, path[1..])
    case Tuple(components) =>
      && !AsArray(components) && path[0] != PROTO
      && (forall i, j :: 0 <= i < j < |components| && components[i].name == path[0] ==> components[j].name != path[0])
      && (Find(components, path[0]).Some? ==> Plain(Find(components, path[0]).value.ty, path[1..]))
  }

  lemma {:induction false} FindHolds(params: seq<Param>, name: string) returns (i: nat)
    ensures match Find(params, name)
            case Some(p) => i < |params| && params[i] == p && p.name == name != ""
            case None => name == "" || forall j :: 0 <= j < |params| ==> params[j].name != name
  {
    i := 0;
    if params != [] && params[0].name != name {
      var j := FindHolds(params[1..], name);
      i := j + 1;
      if name != "" && Find(params, name).None? {
        forall k | 0 <= k < |params| ensures params[k].name != name {
          if k > 0 { assert params[k] == params[1..][k - 1]; }
        }
      }
    }
  }

  /** On such a path the component found first is the one kept: the verdict is right on every value. */
  lemma {:induction false} PlainIsKept(ty: AbiType, path: Path)
    requires Plain(ty, path)
    ensures Walk(ty, path) == Kept(ty, path)
    decreases |path|
  {
    if path != [] {
      match ty
      case Elementary =>
      case ArrayOf(element, _) => PlainIsKept(element, path[1..]);
      case Tuple(components) =>
        var i := FindHolds(components, path[0]);
        if Find(components, path[0]).Some? { PlainIsKept(components[i].ty, path[1..]); }
    }
  }

  lemma {:induction false} FindInputHolds(inputs: seq<Input>, name: string) returns (i: nat)
    requires FindInput(inputs, name).Some?
    ensures i < |inputs| && inputs[i] == FindInput(inputs, name).value && inputs[i].param.name == name
  {
    i := 0;
    if inputs[0].param.name != name {
      var j := FindInputHolds(inputs[1..], name);
      i := j + 1;
    }
  }

  /** What matchLog evaluates conditions on. */
  function Context(args: map<string, Value>, address: string, block: string, tx: string, index: string): Value {
    Obj(map["args" := Obj(args), "address" := Prim(address), "blockNumber" := Prim(block),
            "transactionHash" := Prim(tx), "logIndex" := Prim(index)])
  }

  /** The verdict on what a field reads in the decoded event. */
  function KeptField(inputs: seq<Input>, path: Path): Verdict
    requires path != []
  {
    if path[0] == "args" then
      if |path| == 1 then Issue
      else
        match KeptInput(inputs, path[1])
        case None => Warning
        case Some(i) => if inputs[i].indexed then (if |path| > 2 then Warning else Fine) else Kept(inputs[i].param.ty, path[2..])
    else if |path| == 1 && path[0] in CONTEXT_FIELDS then Fine
    else Issue
  }

  ghost predicate FieldInRange(inputs: seq<Input>, args: map<string, Value>, path: Path)
    requires DecodedArgs(inputs, args)
  {
    |path| > 1 && path[0] == "args" && path[1] in args && !inputs[KeptInput(inputs, path[1]).value].indexed ==>
      InRange(inputs[KeptInput(inputs, path[1]).value].param.ty, args[path[1]], path[2..])
  }

  /** Of a field the compiler takes, against every event it can be evaluated on: it resolves exactly when the input and
      the components kept have it and its array indices are in range; and the compiler's verdict is right exactly when it
      is the one on those, or an index is out of range anyway. */
  lemma CheckFieldForetells(inputs: seq<Input>, args: map<string, Value>, ctx: Value, path: Path)
    requires DecodedArgs(inputs, args) && path != [] && CheckField(inputs, path) != Issue
    requires exists a, b, t, l :: ctx == Context(args, a, b, t, l)
    ensures Resolve(ctx, path).Some? <==> KeptField(inputs, path) == Fine && FieldInRange(inputs, args, path)
    ensures IsRight(CheckField(inputs, path), Resolve(ctx, path).Some?, FieldInRange(inputs, args, path))
       <==> CheckField(inputs, path) == KeptField(inputs, path) || !FieldInRange(inputs, args, path)
  {
    if path[0] == "args" {
      assert path[1..][0] == path[1] && path[1..][1..] == path[2..];
      assert Resolve(ctx, path) == Resolve(Obj(args), path[1..]);
      if path[1] in args {
        var input, v := inputs[KeptInput(inputs, path[1]).value], args[path[1]];
        assert Resolve(ctx, path) == Resolve(v, path[2..]) && DecodedInput(input, v);
        if input.indexed {
          if |path| > 2 { assert path[2..] != []; }
        } else {
          ResolvesExactly(input.param.ty, v, path[2..]);
        }
      }
    } else {
      assert path[1..] == [];
    }
  }

  /** The compiler refuses no field that an event can give: what resolves on one is taken, `args` alone excepted. */
  lemma WhatResolvesIsTaken(inputs: seq<Input>, args: map<string, Value>, ctx: Value, path: Path)
    requires DecodedArgs(inputs, args) && path != [] && path != ["args"]
    requires exists a, b, t, l :: ctx == Context(args, a, b, t, l)
    requires Resolve(ctx, path).Some?
    ensures CheckField(inputs, path) != Issue
  {
    assert |path| == 1 ==> path == [path[0]];
    assert |path| > 1 ==> path[1..] != [];
    if path[0] == "args" {
      assert path[1..][0] == path[1];
      var i := KeptInput(inputs, path[1]).value;
      FindsSome(inputs, path[1], i);
      KeptIsNoIssue(FindInput(inputs, path[1]).value.param.ty, path[2..]);
    }
  }

  lemma {:induction false} FindsSome(inputs: seq<Input>, name: string, i: nat)
    requires i < |inputs| && inputs[i].param.name == name
    ensures FindInput(inputs, name).Some?
  {
    if inputs[0].param.name != name { FindsSome(inputs[1..], name, i - 1); }
  }

  /** The context fields are always taken, and resolve on every event. */
  lemma ContextFieldsAreFine(inputs: seq<Input>, args: map<string, Value>, a: string, b: string, t: string, l: string,
                             field: string)
    requires field in ["address", "blockNumber", "transactionHash", "logIndex"]
    ensures CheckField(inputs, [field]) == Fine && Resolve(Context(args, a, b, t, l), [field]).Some?
  {
    assert [field][1..] == [];
  }

  /** One input has the name that is read, and the path into it is plain. */
  predicate PlainField(inputs: seq<Input>, path: Path) {
    |path| > 1 && path[0] == "args" ==>
      && path[1] != PROTO
      && (forall i, j :: 0 <= i < j < |inputs| && inputs[i].param.name == path[1] ==> inputs[j].param.name != path[1])
      && (FindInput(inputs, path[1]).Some? ==> Plain(FindInput(inputs, path[1]).value.param.ty, path[2..]))
  }

  /** So the compiler is right on every event about a field whose names are single and whose tuples are named. */
  lemma PlainFieldIsKept(inputs: seq<Input>, path: Path)
    requires path != [] && CheckField(inputs, path) != Issue && PlainField(inputs, path)
    ensures CheckField(inputs, path) == KeptField(inputs, path)
  {
    if path[0] == "args" {
      var i := FindInputHolds(inputs, path[1]);
      assert KeptInput(inputs, path[1]) == Some(i);
      PlainIsKept(inputs[i].param.ty, path[2..]);
    }
  }

  // Where the compiler is wrong

  /** Two inputs of one name: the first is checked and the second decoded, and a path warned about resolves. */
  lemma WarnedPathResolves()
    ensures var inputs := [Input(Param("a", Elementary), false), Input(Param("a", Tuple([Param("x", Elementary)])), false)];
            var args := map["a" := Obj(map["x" := Prim("1")])];
            var path := ["args", "a", "x"];
            && DecodedArgs(inputs, args) && CheckField(inputs, path) == Warning && KeptField(inputs, path) == Fine
            && Resolve(Obj(args), path[1..]) == Some(Prim("1"))
  {
    var inputs := [Input(Param("a", Elementary), false), Input(Param("a", Tuple([Param("x", Elementary)])), false)];
    var args := map["a" := Obj(map["x" := Prim("1")])];
    var path := ["args", "a", "x"];
    var components := [Param("x", Elementary)];
    assert components[..0] == [] && path[1..] == ["a", "x"] && path[2..] == ["x"] && ["x"][1..] == [];
    forall name ensures LastNamed(components, name).Some? <==> name == "x" {}
    assert inputs[..1] == [inputs[0]] && inputs[..1][..0] == [];
    forall name ensures KeptInput(inputs, name) == if name == "a" then Some(1) else None {
      assert LastInput(inputs, name, true) == LastInput(inputs[..1], name, true) == LastInput([], name, true);
    }
    assert Decoded(Tuple(components), args["a"]);
  }

  /** A tuple with an unnamed component is decoded as an array: of its named component, the path accepted resolves in no
      event, and the index warned about resolves in every one. */
  lemma UnnamedComponentMisleads(v: Value)
    requires Decoded(Tuple([Param("", Elementary), Param("b", Elementary)]), v)
    ensures var ty := Tuple([Param("", Elementary), Param("b", Elementary)]);
            && Walk(ty, ["b"]) == Fine && Resolve(v, ["b"]) == None
            && Walk(ty, ["1"]) == Warning && Resolve(v, ["1"]) == Some(v.items[1])
  {
    var components := [Param("", Elementary), Param("b", Elementary)];
    assert components[0].name == "" && components[1..] == [components[1]] && components[1..][1..] == [];
    assert ["b"][1..] == [] && ["1"][1..] == [];
    assert "b"[0] == 'b' && "1"[..0] == [] && Number("1") == 1;
  }

  // Evaluating

  datatype Condition =
    | Leaf(field: Path, test: Value -> bool)
    | All(all: seq<Condition>)
    | Any(any: seq<Condition>)

  /** `test` is the leaf's operator and constant; a field that does not resolve fails it whatever they are. */
  predicate Evaluate(c: Condition, ctx: Value) {
    match c
    case Leaf(field, test) => Resolve(ctx, field).Some? && test(Resolve(ctx, field).value)
    case All(all) => forall i :: 0 <= i < |all| ==> Evaluate(all[i], ctx)
    case Any(any) => exists i :: 0 <= i < |any| && Evaluate(any[i], ctx)
  }

  /** No way to satisfy it but through a leaf the compiler warned about, and rightly. */
  predicate Dead(c: Condition, inputs: seq<Input>) {
    match c
    case Leaf(field, _) => field != [] && CheckField(inputs, field) == Warning == KeptField(inputs, field)
    case All(all) => exists i :: 0 <= i < |all| && Dead(all[i], inputs)
    case Any(any) => forall i :: 0 <= i < |any| ==> Dead(any[i], inputs)
  }

  /** A rule whose every way to match runs through such a path matches no event at all. */
  lemma {:induction false} DeadRuleNeverMatches(c: Condition, inputs: seq<Input>, args: map<string, Value>, ctx: Value)
    requires DecodedArgs(inputs, args) && Dead(c, inputs)
    requires exists a, b, t, l :: ctx == Context(args, a, b, t, l)
    ensures !Evaluate(c, ctx)
  {
    match c
    case Leaf(field, _) => CheckFieldForetells(inputs, args, ctx, field);
    case All(all) =>
      var i :| 0 <= i < |all| && Dead(all[i], inputs);
      DeadRuleNeverMatches(all[i], inputs, args, ctx);
    case Any(any) =>
      forall i | 0 <= i < |any| ensures !Evaluate(any[i], ctx) {
        DeadRuleNeverMatches(any[i], inputs, args, ctx);
      }
  }

  // The ways to match

  predicate Passes(leaf: Condition, ctx: Value)
    requires leaf.Leaf?
  {
    Resolve(ctx, leaf.field).Some? && leaf.test(Resolve(ctx, leaf.field).value)
  }

  ghost predicate OnlyLeaves(ways: seq<seq<Condition>>) { forall w, c :: w in ways && c in w ==> c.Leaf? }

  ghost predicate SomePasses(ways: seq<seq<Condition>>, ctx: Value)
    requires OnlyLeaves(ways)
  {
    exists w :: w in ways && forall c :: c in w ==> Passes(c, ctx)
  }

  /** Every way of one list together with every way of the other. */
  ghost function Both(a: seq<seq<Condition>>, b: seq<seq<Condition>>): seq<seq<Condition>> {
    if a == [] then [] else seq(|b|, i requires 0 <= i < |b| => a[0] + b[i]) + Both(a[1..], b)
  }

  /** The leaves that together make a condition match, in every combination: `any` takes one of its parts, `all` one way of
      each. */
  ghost function Ways(c: Condition): seq<seq<Condition>> {
    match c
    case Leaf(_, _) => [[c]]
    case All(all) => WaysOfAll(all)
    case Any(any) => WaysOfAny(any)
  }

  ghost function WaysOfAll(cs: seq<Condition>): seq<seq<Condition>> {
    if cs == [] then [[]] else Both(Ways(cs[0]), WaysOfAll(cs[1..]))
  }

  ghost function WaysOfAny(cs: seq<Condition>): seq<seq<Condition>> {
    if cs == [] then [] else Ways(cs[0]) + WaysOfAny(cs[1..])
  }

  lemma {:induction false} BothHolds(a: seq<seq<Condition>>, b: seq<seq<Condition>>, ctx: Value)
    requires OnlyLeaves(a) && OnlyLeaves(b)
    ensures OnlyLeaves(Both(a, b))
    ensures SomePasses(Both(a, b), ctx) <==> SomePasses(a, ctx) && SomePasses(b, ctx)
  {
    if a != [] {
      var firsts := seq(|b|, i requires 0 <= i < |b| => a[0] + b[i]);
      assert a == [a[0]] + a[1..];
      BothHolds(a[1..], b, ctx);
      FirstsHold(a[0], b, firsts, ctx);
      EitherPasses(firsts, Both(a[1..], b), ctx);
      EitherPasses([a[0]], a[1..], ctx);
    }
  }

  lemma FirstsHold(w: seq<Condition>, b: seq<seq<Condition>>, firsts: seq<seq<Condition>>, ctx: Value)
    requires OnlyLeaves([w]) && OnlyLeaves(b)
    requires |firsts| == |b| && forall i :: 0 <= i < |b| ==> firsts[i] == w + b[i]
    ensures OnlyLeaves(firsts) && (SomePasses(firsts, ctx) <==> SomePasses([w], ctx) && SomePasses(b, ctx))
  {
    hide Passes;
    assert w in [w];
    forall f, c | f in firsts && c in f ensures c.Leaf? {
      var i :| 0 <= i < |firsts| && firsts[i] == f;
      assert c in w || (b[i] in b && c in b[i]);
    }
    if SomePasses(firsts, ctx) {
      var f :| f in firsts && forall c :: c in f ==> Passes(c, ctx);
      var i :| 0 <= i < |firsts| && firsts[i] == f;
      assert b[i] in b;
      forall c | c in w ensures Passes(c, ctx) { assert c in f; }
      forall c | c in b[i] ensures Passes(c, ctx) { assert c in f; }
    }
    if SomePasses([w], ctx) && SomePasses(b, ctx) {
      var v :| v in b && forall c :: c in v ==> Passes(c, ctx);
      var i :| 0 <= i < |b| && b[i] == v;
      assert firsts[i] in firsts;
    }
  }

  lemma EitherPasses(a: seq<seq<Condition>>, b: seq<seq<Condition>>, ctx: Value)
    requires OnlyLeaves(a) && OnlyLeaves(b)
    ensures OnlyLeaves(a + b) && (SomePasses(a + b, ctx) <==> SomePasses(a, ctx) || SomePasses(b, ctx))
  {
    hide Passes;
    if w :| w in a && forall c :: c in w ==> Passes(c, ctx) { assert w in a + b; }
    if w :| w in b && forall c :: c in w ==> Passes(c, ctx) { assert w in a + b; }
  }

  /** A condition matches exactly when, in one of its ways, every leaf resolves and passes. */
  lemma {:induction false} MatchesInSomeWay(c: Condition, ctx: Value)
    ensures OnlyLeaves(Ways(c)) && (Evaluate(c, ctx) <==> SomePasses(Ways(c), ctx))
  {
    match c
    case Leaf(_, _) =>
      assert Ways(c) == [[c]] && [c] in Ways(c) && c in [c];
      assert Evaluate(c, ctx) <==> Passes(c, ctx);
    case All(all) => AllNeedsEach(all, ctx);
    case Any(any) => AnyNeedsOne(any, ctx);
  }

  lemma {:induction false} AllNeedsEach(cs: seq<Condition>, ctx: Value)
    ensures OnlyLeaves(WaysOfAll(cs))
    ensures (forall i :: 0 <= i < |cs| ==> Evaluate(cs[i], ctx)) <==> SomePasses(WaysOfAll(cs), ctx)
  {
    hide Evaluate, Passes;
    if cs == [] {
      assert [] in WaysOfAll(cs);
    } else {
      MatchesInSomeWay(cs[0], ctx);
      AllNeedsEach(cs[1..], ctx);
      BothHolds(Ways(cs[0]), WaysOfAll(cs[1..]), ctx);
      assert forall i :: 0 <= i < |cs[1..]| ==> cs[1..][i] == cs[i + 1];
      assert forall i :: 0 < i < |cs| ==> cs[i] == cs[1..][i - 1];
    }
  }

  lemma {:induction false} AnyNeedsOne(cs: seq<Condition>, ctx: Value)
    ensures OnlyLeaves(WaysOfAny(cs))
    ensures (exists i :: 0 <= i < |cs| && Evaluate(cs[i], ctx)) <==> SomePasses(WaysOfAny(cs), ctx)
  {
    hide Evaluate, Passes;
    if cs != [] {
      MatchesInSomeWay(cs[0], ctx);
      AnyNeedsOne(cs[1..], ctx);
      EitherPasses(Ways(cs[0]), WaysOfAny(cs[1..]), ctx);
      assert forall i :: 0 <= i < |cs[1..]| ==> cs[1..][i] == cs[i + 1];
      assert forall i :: 0 < i < |cs| ==> cs[i] == cs[1..][i - 1];
    }
  }
}
