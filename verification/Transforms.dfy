/** Record-wise operators (map, filter, flat map) as kernels from one record to a list of records. */
module Transforms {
  import opened Prelude
  import opened Dag
  import opened Values
  import opened Buckets

  /** Text, number and parsing functions of the platform, all arbitrary. */
  datatype TextFns = TextFns(
    blank: string -> bool,
    parseJson: string -> Option<Value>,
    startsArray: string -> bool,
    parseArray: string -> Option<seq<Value>>,
    csvRow: (string, string) -> Value,
    upper: string -> string,
    lower: string -> string,
    doubleText: string -> Result<Value, string>,
    doubleNumber: Number -> Result<Value, string>,
    parseReal: string -> Option<real>,
    asReal: Number -> real,
    tokens: string -> seq<string>,
    keyOrder: set<string> -> seq<string>)

  // ----- map

  const UNKNOWN_FUNCTION := "unknown map function"

  function ApplyText(tx: TextFns, s: string, func: string): Result<Value, string> {
    if func == "identity" then Ok(Str(s))
    else if func == "uppercase" then Ok(Str(tx.upper(s)))
    else if func == "lowercase" then Ok(Str(tx.lower(s)))
    else if func == "double" then tx.doubleText(s)
    else Err(UNKNOWN_FUNCTION)
  }

  function ApplyNumber(tx: TextFns, n: Number, func: string): Result<Value, string> {
    if func == "double" then tx.doubleNumber(n)
    else if func == "identity" || func == "uppercase" || func == "lowercase" then Ok(Num(n))
    else Err(UNKNOWN_FUNCTION)
  }

  /** Rewrites every string and number inside a value. */
  function ApplyFn(tx: TextFns, v: Value, func: string): Result<Value, string> {
    match v
    case Str(s) => ApplyText(tx, s, func)
    case Num(n) => ApplyNumber(tx, n, func)
    case Array(items) =>
      if forall i :: 0 <= i < |items| ==> ApplyFn(tx, items[i], func).Ok?
      then Ok(Array(seq(|items|, i requires 0 <= i < |items| => ApplyFn(tx, items[i], func).value)))
      else Err("map failed inside an array")
    case Object(fields) =>
      if forall k :: k in fields ==> ApplyFn(tx, fields[k], func).Ok?
      then Ok(Object(map k | k in fields :: ApplyFn(tx, fields[k], func).value))
      else Err("map failed inside an object")
    case _ => Ok(v)
  }

  /** Mapping "identity" changes nothing, at any depth. */
  lemma {:induction false} IdentityKeeps(tx: TextFns, v: Value)
    ensures ApplyFn(tx, v, "identity") == Ok(v)
  {
    match v
    case Array(items) =>
      forall i | 0 <= i < |items| ensures ApplyFn(tx, items[i], "identity") == Ok(items[i]) {
        IdentityKeeps(tx, items[i]);
      }
      assert ApplyFn(tx, v, "identity").value.items == items;
    case Object(fields) =>
      forall k | k in fields ensures ApplyFn(tx, fields[k], "identity") == Ok(fields[k]) {
        IdentityKeeps(tx, fields[k]);
      }
      assert ApplyFn(tx, v, "identity").value.fields == fields;
    case _ =>
  }

  // ----- filter

  datatype Predicate =
    | AlwaysTrue | AlwaysFalse | NonEmpty
    | HasField(field: string)
    | Equals(field: string, text: string)
    | Gt(field: string, bound: real)
    | Lt(field: string, bound: real)

  /** The text after `prefix`. */
  function StripPrefix(s: string, prefix: string): Option<string> {
    if prefix <= s then Some(s[|prefix|..]) else None
  }

  /** Splits at the first '='; None when there is none or the field is empty. */
  function FieldAndRest(s: string): Option<(string, string)> {
    var at := FirstOf(s, '=');
    if at == 0 || at == |s| then None else Some((s[..at], s[at + 1..]))
  }

  function ParseBound(tx: TextFns, rest: string): Option<(string, real)> {
    match FieldAndRest(rest)
    case None => None
    case Some((field, text)) =>
      match tx.parseReal(text)
      case None => None
      case Some(x) => Some((field, x))
  }

  function ParsePredicate(tx: TextFns, raw: string): Option<Predicate> {
    if raw == "non_empty" then Some(NonEmpty)
    else if raw == "always_true" then Some(AlwaysTrue)
    else if raw == "always_false" then Some(AlwaysFalse)
    else if StripPrefix(raw, "has_field:").Some? then Some(HasField(StripPrefix(raw, "has_field:").value))
    else if StripPrefix(raw, "equals:").Some? then
      (match FieldAndRest(StripPrefix(raw, "equals:").value)
       case None => None
       case Some((field, text)) => Some(Equals(field, text)))
    else if StripPrefix(raw, "gt:").Some? then
      (match ParseBound(tx, StripPrefix(raw, "gt:").value)
       case None => None
       case Some((field, x)) => Some(Gt(field, x)))
    else if StripPrefix(raw, "lt:").Some? then
      (match ParseBound(tx, StripPrefix(raw, "lt:").value)
       case None => None
       case Some((field, x)) => Some(Lt(field, x)))
    else None
  }

  predicate EvalPredicate(tx: TextFns, rec: Value, p: Predicate) {
    match p
    case AlwaysTrue => true
    case AlwaysFalse => false
    case NonEmpty => rec.Object? && rec.fields != map[] && forall k :: k in rec.fields ==> rec.fields[k] != Null
    case HasField(f) => rec.Object? && f in rec.fields
    case Equals(f, text) =>
      rec.Object? && f in rec.fields && rec.fields[f].Str? && tx.lower(rec.fields[f].s) == tx.lower(text)
    case Gt(f, x) => rec.Object? && f in rec.fields && rec.fields[f].Num? && tx.asReal(rec.fields[f].n) > x
    case Lt(f, x) => rec.Object? && f in rec.fields && rec.fields[f].Num? && tx.asReal(rec.fields[f].n) < x
  }

  // ----- flat map

  /** The record once per replacement of `field`. */
  function Spread(fields: Fields, field: string, vs: seq<Value>): seq<Value> {
    seq(|vs|, i requires 0 <= i < |vs| => Object(fields[field := vs[i]]))
  }

  function SplitField(tx: TextFns, rec: Value, field: string): seq<Value> {
    if rec.Object? && field in rec.fields && rec.fields[field].Str? then
      var ts := tx.tokens(rec.fields[field].s);
      if ts == [] then [rec] else Spread(rec.fields, field, seq(|ts|, i requires 0 <= i < |ts| => Str(ts[i])))
    else [rec]
  }

  function ExplodeArray(rec: Value, field: string): seq<Value> {
    if rec.Object? && field in rec.fields && rec.fields[field].Array?
    then Spread(rec.fields, field, rec.fields[field].items)
    else [rec]
  }

  function JsonExpand(tx: TextFns, rec: Value): seq<Value> {
    if rec.Object? && rec.fields != map[] then
      var ks := tx.keyOrder(rec.fields.Keys);
      seq(|ks|, i requires 0 <= i < |ks| =>
        if ks[i] in rec.fields then Object(map[ks[i] := rec.fields[ks[i]]]) else Null)
    else [rec]
  }

  function ApplyFlat(tx: TextFns, rec: Value, func: string): Result<seq<Value>, string> {
    if func == "identity" then Ok([rec])
    else if StripPrefix(func, "split:").Some? then Ok(SplitField(tx, rec, StripPrefix(func, "split:").value))
    else if StripPrefix(func, "explode_array:").Some?
      then Ok(ExplodeArray(rec, StripPrefix(func, "explode_array:").value))
    else if func == "json_expand" then Ok(JsonExpand(tx, rec))
    else Err("flat_map: unknown operation")
  }

  // ----- operators

  predicate RecordWise(op: OperatorType) {
    op.Map? || op.Filtering? || op.FlatMap? || op.Identity?
  }

  /** A filter whose predicate does not parse fails before it sees a record. */
  predicate Builds(tx: TextFns, op: OperatorType) {
    op.Filtering? ==> ParsePredicate(tx, op.pred).Some?
  }

  /** What one record becomes. */
  function Kernel(tx: TextFns, op: OperatorType): Value -> Result<seq<Value>, string>
    requires RecordWise(op) && Builds(tx, op)
  {
    (rec: Value) =>
      match op
      case Filtering(p) => Ok(if EvalPredicate(tx, rec, ParsePredicate(tx, p).value) then [rec] else [])
      case FlatMap(f) => ApplyFlat(tx, rec, f)
      case _ =>
        match ApplyFn(tx, rec, if op.Map? then op.script else "identity")
        case Err(e) => Err(e)
        case Ok(v) => Ok([v])
  }

  /** `f` over a list, stopping at the first failure. */
  function Traverse<A, B>(s: seq<A>, f: A -> Result<seq<B>, string>): Result<seq<B>, string> {
    if s == [] then Ok([])
    else
      match Traverse(s[..|s| - 1], f)
      case Err(e) => Err(e)
      case Ok(out) =>
        match f(s[|s| - 1])
        case Err(e) => Err(e)
        case Ok(more) => Ok(out + more)
  }

  lemma TraverseAppend<A, B>(s: seq<A>, x: A, f: A -> Result<seq<B>, string>)
    requires Traverse(s, f).Ok?
    ensures Traverse(s + [x], f) == if f(x).Err? then Err(f(x).error) else Ok(Traverse(s, f).value + f(x).value)
  {
    assert (s + [x])[..|s|] == s;
  }

  function Apply(tx: TextFns, op: OperatorType, recs: seq<Value>): Result<seq<Value>, string>
    requires RecordWise(op)
  {
    if !Builds(tx, op) then Err("invalid predicate") else Traverse(recs, Kernel(tx, op))
  }

  lemma {:induction false} TraverseFails<A, B>(s: seq<A>, f: A -> Result<seq<B>, string>, k: nat)
    requires k <= |s| && Traverse(s[..k], f).Err?
    ensures Traverse(s, f) == Traverse(s[..k], f)
    decreases |s|
  {
    if k == |s| {
      assert s[..k] == s;
    } else {
      assert s[..|s| - 1][..k] == s[..k];
      TraverseFails(s[..|s| - 1], f, k);
    }
  }

  /** The record loop shared by the map, filter and flat-map operators, for one partition. */
  method TransformRecords(tx: TextFns, op: OperatorType, recs: seq<Value>) returns (r: Result<seq<Value>, string>)
    requires RecordWise(op)
    ensures r == Apply(tx, op, recs)
  {
    if op.Filtering? && ParsePredicate(tx, op.pred).None? {
      return Err("invalid predicate");
    }
    var out: seq<Value> := [];
    for i := 0 to |recs|
      invariant Traverse(recs[..i], Kernel(tx, op)) == Ok(out)
    {
      assert recs[..i + 1][..i] == recs[..i];
      var more := Kernel(tx, op)(recs[i]);
      if more.Err? {
        TraverseFails(recs, Kernel(tx, op), i + 1);
        return Err(more.error);
      }
      out := out + more.value;
    }
    assert recs[..|recs|] == recs;
    r := Ok(out);
  }

  // ----- chains

  predicate ChainOps(ops: seq<OperatorType>) {
    forall i :: 0 <= i < |ops| ==> RecordWise(ops[i])
  }

  /** Operators applied one after the other to one partition. */
  function Chain(tx: TextFns, ops: seq<OperatorType>, recs: seq<Value>): Result<seq<Value>, string>
    requires ChainOps(ops)
  {
    if ops == [] then Ok(recs)
    else
      match Chain(tx, ops[..|ops| - 1], recs)
      case Err(e) => Err(e)
      case Ok(out) => Apply(tx, ops[|ops| - 1], out)
  }

  lemma {:induction false} TraverseConcat<A, B>(a: seq<A>, b: seq<A>, f: A -> Result<seq<B>, string>)
    ensures Traverse(a + b, f).Ok? <==> Traverse(a, f).Ok? && Traverse(b, f).Ok?
    ensures Traverse(a + b, f).Ok? ==> Traverse(a + b, f).value == Traverse(a, f).value + Traverse(b, f).value
  {
    if b == [] {
      assert a + b == a;
    } else {
      assert (a + b)[..|a + b| - 1] == a + b[..|b| - 1];
      TraverseConcat(a, b[..|b| - 1], f);
    }
  }

  /** Every operator of the chain can be built. */
  predicate AllBuild(tx: TextFns, ops: seq<OperatorType>) {
    forall i :: 0 <= i < |ops| ==> Builds(tx, ops[i])
  }

  lemma {:induction false} ChainBuildsAt(tx: TextFns, ops: seq<OperatorType>, recs: seq<Value>, i: nat)
    requires ChainOps(ops) && Chain(tx, ops, recs).Ok? && i < |ops|
    ensures Builds(tx, ops[i])
    decreases |ops|
  {
    if i < |ops| - 1 {
      ChainBuildsAt(tx, ops[..|ops| - 1], recs, i);
    }
  }

  /** A chain with an operator that cannot be built fails on every input. */
  lemma ChainNeedsBuild(tx: TextFns, ops: seq<OperatorType>, recs: seq<Value>)
    requires ChainOps(ops)
    ensures Chain(tx, ops, recs).Ok? ==> AllBuild(tx, ops)
  {
    if Chain(tx, ops, recs).Ok? {
      forall i | 0 <= i < |ops| ensures Builds(tx, ops[i]) {
        ChainBuildsAt(tx, ops, recs, i);
      }
    }
  }

  /** A chain works record by record: it distributes over concatenation. */
  lemma {:induction false} ChainConcat(tx: TextFns, ops: seq<OperatorType>, a: seq<Value>, b: seq<Value>)
    requires ChainOps(ops)
    ensures Chain(tx, ops, a + b).Ok? <==> Chain(tx, ops, a).Ok? && Chain(tx, ops, b).Ok?
    ensures Chain(tx, ops, a + b).Ok? ==>
            Chain(tx, ops, a + b).value == Chain(tx, ops, a).value + Chain(tx, ops, b).value
  {
    if ops == [] {
    } else {
      var init, op := ops[..|ops| - 1], ops[|ops| - 1];
      ChainConcat(tx, init, a, b);
      var ra, rb := Chain(tx, init, a), Chain(tx, init, b);
      if ra.Ok? && rb.Ok? && Builds(tx, op) {
        TraverseConcat(ra.value, rb.value, Kernel(tx, op));
      }
    }
  }

  lemma {:induction false} ChainOfNothing(tx: TextFns, ops: seq<OperatorType>)
    requires ChainOps(ops) && AllBuild(tx, ops)
    ensures Chain(tx, ops, []) == Ok([])
  {
    if ops == [] {
    } else {
      ChainOfNothing(tx, ops[..|ops| - 1]);
    }
  }
}
