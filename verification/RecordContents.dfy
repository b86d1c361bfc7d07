/** What map, filter and flat map output, told from their texts and the input records alone. */
module RecordContents {
  import opened Prelude
  import opened Dag
  import opened Values
  import T = Transforms

  type TextFns = T.TextFns

  // ----- filters: the vocabulary

  function Anything(): Value -> bool {
    (v: Value) => true
  }

  function Nothing(): Value -> bool {
    (v: Value) => false
  }

  /** A non-empty object without null values. */
  function Complete(): Value -> bool {
    (v: Value) => v.Object? && v.fields != map[] && forall k :: k in v.fields ==> v.fields[k] != Null
  }

  function HasField(f: string): Value -> bool {
    (v: Value) => v.Object? && f in v.fields
  }

  /** The string in `f` equals `t` up to case. */
  function EqualUpToCase(tx: TextFns, f: string, t: string): Value -> bool {
    (v: Value) => v.Object? && f in v.fields && v.fields[f].Str? && tx.lower(v.fields[f].s) == tx.lower(t)
  }

  function Above(tx: TextFns, f: string, x: real): Value -> bool {
    (v: Value) => v.Object? && f in v.fields && v.fields[f].Num? && tx.asReal(v.fields[f].n) > x
  }

  function Below(tx: TextFns, f: string, x: real): Value -> bool {
    (v: Value) => v.Object? && f in v.fields && v.fields[f].Num? && tx.asReal(v.fields[f].n) < x
  }

  /** The records that satisfy `q`, in order. */
  function Kept(recs: seq<Value>, q: Value -> bool): seq<Value> {
    if recs == [] then []
    else
      var init, last := recs[..|recs| - 1], recs[|recs| - 1];
      if q(last) then Kept(init, q) + [last] else Kept(init, q)
  }

  /** A field name that can stand before the '='. */
  predicate FieldName(f: string) {
    f != "" && '=' !in f
  }

  /** The predicates that parse. */
  ghost predicate Understood(tx: TextFns, raw: string) {
    || raw in ["non_empty", "always_true", "always_false"]
    || (exists f :: raw == "has_field:" + f)
    || (exists f, t :: FieldName(f) && raw == "equals:" + f + "=" + t)
    || (exists f, t :: FieldName(f) && tx.parseReal(t).Some? && raw == "gt:" + f + "=" + t)
    || (exists f, t :: FieldName(f) && tx.parseReal(t).Some? && raw == "lt:" + f + "=" + t)
  }

  // ----- filters

  /** A filter that parses keeps the records that satisfy its predicate. */
  lemma {:induction false} FilterKeeps(tx: TextFns, raw: string, recs: seq<Value>, q: Value -> bool)
    requires T.ParsePredicate(tx, raw).Some?
    requires forall v :: T.EvalPredicate(tx, v, T.ParsePredicate(tx, raw).value) == q(v)
    ensures T.Apply(tx, Filtering(raw), recs) == Ok(Kept(recs, q))
  {
    if recs != [] {
      FilterKeeps(tx, raw, recs[..|recs| - 1], q);
      assert Kept(recs[..|recs| - 1], q) + [] == Kept(recs[..|recs| - 1], q);
    }
  }

  lemma {:induction false} KeptAll(recs: seq<Value>)
    ensures Kept(recs, Anything()) == recs && Kept(recs, Nothing()) == []
  {
    if recs != [] {
      KeptAll(recs[..|recs| - 1]);
    }
  }

  lemma AlwaysFilters(tx: TextFns, recs: seq<Value>)
    ensures T.Apply(tx, Filtering("always_true"), recs) == Ok(recs)
    ensures T.Apply(tx, Filtering("always_false"), recs) == Ok([])
  {
    assert |"always_true"| == 11 && |"always_false"| == 12 && |"non_empty"| == 9;
    FilterKeeps(tx, "always_true", recs, Anything());
    FilterKeeps(tx, "always_false", recs, Nothing());
    KeptAll(recs);
  }

  lemma NonEmptyFilter(tx: TextFns, recs: seq<Value>)
    ensures T.Apply(tx, Filtering("non_empty"), recs) == Ok(Kept(recs, Complete()))
  {
    FilterKeeps(tx, "non_empty", recs, Complete());
  }

  lemma AfterPrefix(prefix: string, rest: string)
    ensures T.StripPrefix(prefix + rest, prefix) == Some(rest)
  {
    assert (prefix + rest)[|prefix|..] == rest;
  }

  lemma OtherPrefix(raw: string, prefix: string)
    requires raw != "" && prefix != "" && raw[0] != prefix[0]
    ensures T.StripPrefix(raw, prefix) == None
  {
  }

  lemma SplitAtEquals(f: string, t: string)
    requires '=' !in f
    ensures T.FieldAndRest(f + "=" + t) == if f == "" then None else Some((f, t))
  {
    var s := f + "=" + t;
    var at := FirstOf(s, '=');
    assert s[|f|] == '=';
    assert forall i :: 0 <= i < |f| ==> s[i] == f[i];
    assert at == |f|;
    assert s[..at] == f && s[at + 1..] == t;
  }

  lemma HasFieldFilter(tx: TextFns, f: string, recs: seq<Value>)
    ensures T.Apply(tx, Filtering("has_field:" + f), recs) == Ok(Kept(recs, HasField(f)))
  {
    var raw := "has_field:" + f;
    assert raw[0] == 'h';
    AfterPrefix("has_field:", f);
    FilterKeeps(tx, raw, recs, HasField(f));
  }

  lemma EqualsFilter(tx: TextFns, f: string, t: string, recs: seq<Value>)
    requires FieldName(f)
    ensures T.Apply(tx, Filtering("equals:" + f + "=" + t), recs) == Ok(Kept(recs, EqualUpToCase(tx, f, t)))
  {
    var raw := "equals:" + f + "=" + t;
    assert raw == "equals:" + (f + "=" + t) && raw[0] == 'e';
    AfterPrefix("equals:", f + "=" + t);
    OtherPrefix(raw, "has_field:");
    SplitAtEquals(f, t);
    FilterKeeps(tx, raw, recs, EqualUpToCase(tx, f, t));
  }

  /** The outcome of a comparison: a failure if the bound is no number. */
  ghost predicate Compares(tx: TextFns, t: string, recs: seq<Value>, q: real -> Value -> bool,
                           r: Result<seq<Value>, string>)
  {
    match tx.parseReal(t)
    case None => r.Err?
    case Some(x) => r == Ok(Kept(recs, q(x)))
  }

  function AboveIn(tx: TextFns, f: string): real -> Value -> bool {
    (x: real) => Above(tx, f, x)
  }

  function BelowIn(tx: TextFns, f: string): real -> Value -> bool {
    (x: real) => Below(tx, f, x)
  }

  lemma BoundOf(tx: TextFns, f: string, t: string)
    requires FieldName(f)
    ensures T.ParseBound(tx, f + "=" + t) ==
            match tx.parseReal(t)
            case None => None
            case Some(x) => Some((f, x))
  {
    SplitAtEquals(f, t);
  }

  lemma GreaterFilter(tx: TextFns, f: string, t: string, recs: seq<Value>)
    requires FieldName(f)
    ensures Compares(tx, t, recs, AboveIn(tx, f), T.Apply(tx, Filtering("gt:" + f + "=" + t), recs))
  {
    var raw := "gt:" + f + "=" + t;
    assert raw == "gt:" + (f + "=" + t) && raw[0] == 'g';
    AfterPrefix("gt:", f + "=" + t);
    OtherPrefix(raw, "has_field:");
    OtherPrefix(raw, "equals:");
    BoundOf(tx, f, t);
    assert raw != "non_empty" && raw != "always_true" && raw != "always_false";
    if tx.parseReal(t).Some? {
      FilterKeeps(tx, raw, recs, Above(tx, f, tx.parseReal(t).value));
    }
  }

  lemma LessFilter(tx: TextFns, f: string, t: string, recs: seq<Value>)
    requires FieldName(f)
    ensures Compares(tx, t, recs, BelowIn(tx, f), T.Apply(tx, Filtering("lt:" + f + "=" + t), recs))
  {
    var raw := "lt:" + f + "=" + t;
    assert raw == "lt:" + (f + "=" + t) && raw[0] == 'l';
    AfterPrefix("lt:", f + "=" + t);
    OtherPrefix(raw, "has_field:");
    OtherPrefix(raw, "equals:");
    OtherPrefix(raw, "gt:");
    BoundOf(tx, f, t);
    assert raw != "non_empty" && raw != "always_true" && raw != "always_false";
    if tx.parseReal(t).Some? {
      FilterKeeps(tx, raw, recs, Below(tx, f, tx.parseReal(t).value));
    }
  }

  // ----- maps: the vocabulary

  /** `v` with `g` applied to every string in it, at any depth. */
  function MapStrings(v: Value, g: string -> string): Value {
    match v
    case Str(s) => Str(g(s))
    case Array(items) => Array(seq(|items|, i requires 0 <= i < |items| => MapStrings(items[i], g)))
    case Object(fields) => Object(map k | k in fields :: MapStrings(fields[k], g))
    case _ => v
  }

  /** `w` is `v` with every string and number in it doubled. */
  ghost predicate IsDouble(tx: TextFns, v: Value, w: Value) {
    match v
    case Str(s) => tx.doubleText(s) == Ok(w)
    case Num(n) => tx.doubleNumber(n) == Ok(w)
    case Array(items) =>
      w.Array? && |w.items| == |items| && forall i :: 0 <= i < |items| ==> IsDouble(tx, items[i], w.items[i])
    case Object(fields) =>
      w.Object? && w.fields.Keys == fields.Keys && forall k :: k in fields ==> IsDouble(tx, fields[k], w.fields[k])
    case _ => w == v
  }

  /** A string or a number is in `v`, at any depth. */
  predicate HasLeaf(v: Value) {
    match v
    case Str(_) => true
    case Num(_) => true
    case Array(items) => exists i :: 0 <= i < |items| && HasLeaf(items[i])
    case Object(fields) => exists k :: k in fields && HasLeaf(fields[k])
    case _ => false
  }

  function Same(): string -> string {
    (s: string) => s
  }

  // ----- maps

  /** The function changes strings by `g` and keeps numbers. */
  ghost predicate ChangesStrings(tx: TextFns, func: string, g: string -> string) {
    && (forall s :: T.ApplyText(tx, s, func) == Ok(Str(g(s))))
    && forall n :: T.ApplyNumber(tx, n, func) == Ok(Num(n))
  }

  lemma {:induction false} StringsMapped(tx: TextFns, func: string, g: string -> string, v: Value)
    requires ChangesStrings(tx, func, g)
    ensures T.ApplyFn(tx, v, func) == Ok(MapStrings(v, g))
  {
    match v
    case Array(items) =>
      forall i | 0 <= i < |items| ensures T.ApplyFn(tx, items[i], func) == Ok(MapStrings(items[i], g)) {
        StringsMapped(tx, func, g, items[i]);
      }
      assert T.ApplyFn(tx, v, func).value.items == MapStrings(v, g).items;
    case Object(fields) =>
      forall k | k in fields ensures T.ApplyFn(tx, fields[k], func) == Ok(MapStrings(fields[k], g)) {
        StringsMapped(tx, func, g, fields[k]);
      }
      assert T.ApplyFn(tx, v, func).value.fields == MapStrings(v, g).fields;
    case _ =>
  }

  lemma {:induction false} DoubledIff(tx: TextFns, v: Value, w: Value)
    ensures T.ApplyFn(tx, v, "double") == Ok(w) <==> IsDouble(tx, v, w)
  {
    match v
    case Array(items) =>
      if w.Array? && |w.items| == |items| {
        forall i | 0 <= i < |items|
          ensures T.ApplyFn(tx, items[i], "double") == Ok(w.items[i]) <==> IsDouble(tx, items[i], w.items[i])
        {
          DoubledIff(tx, items[i], w.items[i]);
        }
        if IsDouble(tx, v, w) {
          assert T.ApplyFn(tx, v, "double").value.items == w.items;
        }
      }
    case Object(fields) =>
      if w.Object? && w.fields.Keys == fields.Keys {
        forall k | k in fields
          ensures T.ApplyFn(tx, fields[k], "double") == Ok(w.fields[k]) <==> IsDouble(tx, fields[k], w.fields[k])
        {
          DoubledIff(tx, fields[k], w.fields[k]);
        }
        if IsDouble(tx, v, w) {
          assert T.ApplyFn(tx, v, "double").value.fields == w.fields;
        }
      }
    case _ =>
  }

  /** A function that does not exist fails on every string and number. */
  lemma {:induction false} UnknownFunction(tx: TextFns, func: string, v: Value)
    requires func !in ["identity", "uppercase", "lowercase", "double"]
    ensures T.ApplyFn(tx, v, func).Ok? <==> !HasLeaf(v)
    ensures T.ApplyFn(tx, v, func).Ok? ==> T.ApplyFn(tx, v, func) == Ok(v)
  {
    match v
    case Array(items) =>
      forall i | 0 <= i < |items|
        ensures T.ApplyFn(tx, items[i], func).Ok? <==> !HasLeaf(items[i])
        ensures T.ApplyFn(tx, items[i], func).Ok? ==> T.ApplyFn(tx, items[i], func) == Ok(items[i])
      {
        UnknownFunction(tx, func, items[i]);
      }
      if T.ApplyFn(tx, v, func).Ok? {
        assert T.ApplyFn(tx, v, func).value.items == items;
      }
    case Object(fields) =>
      forall k | k in fields
        ensures T.ApplyFn(tx, fields[k], func).Ok? <==> !HasLeaf(fields[k])
        ensures T.ApplyFn(tx, fields[k], func).Ok? ==> T.ApplyFn(tx, fields[k], func) == Ok(fields[k])
      {
        UnknownFunction(tx, func, fields[k]);
      }
      if T.ApplyFn(tx, v, func).Ok? {
        assert T.ApplyFn(tx, v, func).value.fields == fields;
      }
    case _ =>
  }

  /** A map fails exactly on lists with a record that fails, and otherwise outputs one value per record, in order. */
  lemma {:induction false} MapEach(tx: TextFns, func: string, recs: seq<Value>)
    ensures var r := T.Apply(tx, Map(func), recs);
            && (r.Ok? <==> forall v :: v in recs ==> T.ApplyFn(tx, v, func).Ok?)
            && (r.Ok? ==> |r.value| == |recs|)
            && (r.Ok? ==> forall i :: 0 <= i < |recs| ==> T.ApplyFn(tx, recs[i], func) == Ok(r.value[i]))
  {
    if recs != [] {
      var init, last := recs[..|recs| - 1], recs[|recs| - 1];
      assert recs == init + [last];
      MapEach(tx, func, init);
      assert last in recs;
      assert forall v :: v in recs <==> v in init || v == last;
    }
  }

  /** One output per record: the record with `g` on its strings. */
  ghost predicate MapsStrings(recs: seq<Value>, g: string -> string, r: Result<seq<Value>, string>) {
    && r.Ok? && |r.value| == |recs|
    && forall i :: 0 <= i < |recs| ==> r.value[i] == MapStrings(recs[i], g)
  }

  lemma MapOfStrings(tx: TextFns, func: string, g: string -> string, recs: seq<Value>)
    requires ChangesStrings(tx, func, g)
    ensures MapsStrings(recs, g, T.Apply(tx, Map(func), recs))
  {
    MapEach(tx, func, recs);
    forall v ensures T.ApplyFn(tx, v, func) == Ok(MapStrings(v, g)) {
      StringsMapped(tx, func, g, v);
    }
  }

  lemma {:induction false} SameStrings(v: Value)
    ensures MapStrings(v, Same()) == v
  {
    match v
    case Array(items) =>
      forall i | 0 <= i < |items| ensures MapStrings(items[i], Same()) == items[i] {
        SameStrings(items[i]);
      }
      assert MapStrings(v, Same()).items == items;
    case Object(fields) =>
      forall k | k in fields ensures MapStrings(fields[k], Same()) == fields[k] {
        SameStrings(fields[k]);
      }
      assert MapStrings(v, Same()).fields == fields;
    case _ =>
  }

  /** One output per record: the doubled record; it fails exactly when some record cannot be doubled. */
  ghost predicate Doubles(tx: TextFns, recs: seq<Value>, r: Result<seq<Value>, string>) {
    && (r.Ok? <==> forall v :: v in recs ==> CanDouble(tx, v))
    && (r.Ok? ==> |r.value| == |recs| && forall i :: 0 <= i < |recs| ==> IsDouble(tx, recs[i], r.value[i]))
  }

  ghost predicate CanDouble(tx: TextFns, v: Value) {
    exists w :: IsDouble(tx, v, w)
  }

  lemma DoubleContents(tx: TextFns, recs: seq<Value>)
    ensures Doubles(tx, recs, T.Apply(tx, Map("double"), recs))
  {
    MapEach(tx, "double", recs);
    forall v ensures T.ApplyFn(tx, v, "double").Ok? <==> CanDouble(tx, v) {
      if T.ApplyFn(tx, v, "double").Ok? {
        DoubledIff(tx, v, T.ApplyFn(tx, v, "double").value);
      }
      if w :| IsDouble(tx, v, w) {
        DoubledIff(tx, v, w);
      }
    }
    var r := T.Apply(tx, Map("double"), recs);
    if r.Ok? {
      forall i | 0 <= i < |recs| ensures IsDouble(tx, recs[i], r.value[i]) {
        DoubledIff(tx, recs[i], r.value[i]);
      }
    }
  }

  /** Upper and lower case change every string and nothing else; identity, and the identity operator, change nothing. */
  lemma CaseContents(tx: TextFns, recs: seq<Value>)
    ensures MapsStrings(recs, tx.upper, T.Apply(tx, Map("uppercase"), recs))
    ensures MapsStrings(recs, tx.lower, T.Apply(tx, Map("lowercase"), recs))
    ensures T.Apply(tx, Map("identity"), recs) == Ok(recs) == T.Apply(tx, Identity, recs)
  {
    Functions();
    MapOfStrings(tx, "uppercase", tx.upper, recs);
    MapOfStrings(tx, "lowercase", tx.lower, recs);
    MapOfStrings(tx, "identity", Same(), recs);
    var r := T.Apply(tx, Map("identity"), recs);
    forall i | 0 <= i < |recs| ensures r.value[i] == recs[i] {
      SameStrings(recs[i]);
    }
    assert r.value == recs;
    IdentityIsMap(tx, recs);
  }

  lemma {:induction false} IdentityIsMap(tx: TextFns, recs: seq<Value>)
    ensures T.Apply(tx, Identity, recs) == T.Apply(tx, Map("identity"), recs)
  {
    if recs != [] {
      IdentityIsMap(tx, recs[..|recs| - 1]);
    }
  }

  lemma Functions()
    ensures "identity" != "uppercase" && "identity" != "lowercase" && "uppercase" != "lowercase"
  {
    assert "identity"[0] == 'i' && "uppercase"[0] == 'u' && "lowercase"[0] == 'l';
  }

  /** A function that does not exist fails exactly when some record holds a string or a number. */
  lemma UnknownMap(tx: TextFns, func: string, recs: seq<Value>)
    requires func !in ["identity", "uppercase", "lowercase", "double"]
    ensures T.Apply(tx, Map(func), recs).Ok? <==> forall v :: v in recs ==> !HasLeaf(v)
    ensures T.Apply(tx, Map(func), recs).Ok? ==> T.Apply(tx, Map(func), recs).value == recs
  {
    MapEach(tx, func, recs);
    forall v
      ensures T.ApplyFn(tx, v, func).Ok? <==> !HasLeaf(v)
      ensures T.ApplyFn(tx, v, func).Ok? ==> T.ApplyFn(tx, v, func) == Ok(v)
    {
      UnknownFunction(tx, func, v);
    }
  }

  // ----- which filters parse

  lemma {:induction false} FilterOf(tx: TextFns, raw: string, recs: seq<Value>)
    requires T.ParsePredicate(tx, raw).Some?
    ensures T.Apply(tx, Filtering(raw), recs).Ok?
  {
    if recs != [] {
      FilterOf(tx, raw, recs[..|recs| - 1]);
    }
  }

  lemma JoinAtEquals(s: string)
    requires T.FieldAndRest(s).Some?
    ensures var (f, t) := T.FieldAndRest(s).value;
            FieldName(f) && s == f + "=" + t
  {
    var at := FirstOf(s, '=');
    assert s == s[..at] + [s[at]] + s[at + 1..];
  }

  lemma FromPrefix(raw: string, prefix: string)
    requires T.StripPrefix(raw, prefix).Some?
    ensures raw == prefix + T.StripPrefix(raw, prefix).value
  {
  }

  lemma ParsedIsUnderstood(tx: TextFns, raw: string)
    requires T.ParsePredicate(tx, raw).Some?
    ensures Understood(tx, raw)
  {
    if raw !in ["non_empty", "always_true", "always_false"] {
      if T.StripPrefix(raw, "has_field:").Some? {
        FromPrefix(raw, "has_field:");
      } else {
        var prefix := if T.StripPrefix(raw, "equals:").Some? then "equals:"
                      else if T.StripPrefix(raw, "gt:").Some? then "gt:" else "lt:";
        var f, t := FieldAndText(raw, prefix);
      }
    }
  }

  lemma FieldAndText(raw: string, prefix: string) returns (f: string, t: string)
    requires T.StripPrefix(raw, prefix).Some? && T.FieldAndRest(T.StripPrefix(raw, prefix).value).Some?
    ensures T.FieldAndRest(T.StripPrefix(raw, prefix).value) == Some((f, t))
    ensures FieldName(f) && raw == prefix + f + "=" + t
  {
    var rest := T.StripPrefix(raw, prefix).value;
    FromPrefix(raw, prefix);
    JoinAtEquals(rest);
    f, t := T.FieldAndRest(rest).value.0, T.FieldAndRest(rest).value.1;
  }

  /** A filter fails exactly when its predicate is not understood, whatever the records. */
  lemma FilterSucceedsIff(tx: TextFns, raw: string, recs: seq<Value>)
    ensures T.Apply(tx, Filtering(raw), recs).Ok? <==> Understood(tx, raw)
  {
    if T.ParsePredicate(tx, raw).Some? {
      ParsedIsUnderstood(tx, raw);
      FilterOf(tx, raw, recs);
    }
    if Understood(tx, raw) {
      UnderstoodWorks(tx, raw, recs);
    }
  }

  lemma UnderstoodWorks(tx: TextFns, raw: string, recs: seq<Value>)
    requires Understood(tx, raw)
    ensures T.Apply(tx, Filtering(raw), recs).Ok?
  {
    AlwaysFilters(tx, recs);
    NonEmptyFilter(tx, recs);
    if f :| raw == "has_field:" + f {
      HasFieldFilter(tx, f, recs);
    } else if f, t :| FieldName(f) && raw == "equals:" + f + "=" + t {
      EqualsFilter(tx, f, t, recs);
    } else if f, t :| FieldName(f) && tx.parseReal(t).Some? && raw == "gt:" + f + "=" + t {
      GreaterFilter(tx, f, t, recs);
    } else if f, t :| FieldName(f) && tx.parseReal(t).Some? && raw == "lt:" + f + "=" + t {
      LessFilter(tx, f, t, recs);
    }
  }

  // ----- flat maps: the vocabulary

  /** `out` is `rec` with `w` in place of field `f`. */
  ghost predicate Replaced(rec: Value, f: string, w: Value, out: Value)
    requires rec.Object? && f in rec.fields
  {
    && out.Object? && out.fields.Keys == rec.fields.Keys && out.fields[f] == w
    && forall g :: g in rec.fields && g != f ==> out.fields[g] == rec.fields[g]
  }

  /** One record per token of the text in `f`; records without such a text stay as they are. */
  ghost predicate IsSplit(tx: TextFns, f: string, rec: Value, outs: seq<Value>) {
    if rec.Object? && f in rec.fields && rec.fields[f].Str? && tx.tokens(rec.fields[f].s) != [] then
      var ts := tx.tokens(rec.fields[f].s);
      |outs| == |ts| && forall i :: 0 <= i < |ts| ==> Replaced(rec, f, Str(ts[i]), outs[i])
    else outs == [rec]
  }

  /** One record per element of the array in `f`, so none for an empty one; other records stay as they are. */
  ghost predicate IsExploded(f: string, rec: Value, outs: seq<Value>) {
    if rec.Object? && f in rec.fields && rec.fields[f].Array? then
      var items := rec.fields[f].items;
      |outs| == |items| && forall i :: 0 <= i < |items| ==> Replaced(rec, f, items[i], outs[i])
    else outs == [rec]
  }

  /** One record per field, in the order of the object; empty objects and other values stay as they are. */
  ghost predicate IsExpanded(tx: TextFns, rec: Value, outs: seq<Value>) {
    if rec.Object? && rec.fields != map[] then
      var ks := tx.keyOrder(rec.fields.Keys);
      && |outs| == |ks|
      && forall i :: 0 <= i < |ks| ==>
           ks[i] in rec.fields && outs[i].Object? && outs[i].fields == map[ks[i] := rec.fields[ks[i]]]
    else outs == [rec]
  }

  /** Objects list each of their names once. */
  ghost predicate ListsNames(tx: TextFns) {
    forall names :: NoDup(tx.keyOrder(names)) && Elems(tx.keyOrder(names)) == names
  }

  ghost function SplitBy(tx: TextFns, f: string): (Value, seq<Value>) -> bool {
    (rec: Value, outs: seq<Value>) => IsSplit(tx, f, rec, outs)
  }

  ghost function ExplodedBy(f: string): (Value, seq<Value>) -> bool {
    (rec: Value, outs: seq<Value>) => IsExploded(f, rec, outs)
  }

  ghost function ExpandedBy(tx: TextFns): (Value, seq<Value>) -> bool {
    (rec: Value, outs: seq<Value>) => IsExpanded(tx, rec, outs)
  }

  function Flatten(parts: seq<seq<Value>>): seq<Value> {
    if parts == [] then [] else Flatten(parts[..|parts| - 1]) + parts[|parts| - 1]
  }

  ghost predicate EachPart(recs: seq<Value>, parts: seq<seq<Value>>, each: (Value, seq<Value>) -> bool) {
    |parts| == |recs| && forall i :: 0 <= i < |recs| ==> each(recs[i], parts[i])
  }

  /** The output is what each record becomes, one after the other. */
  ghost predicate FlatOutput(recs: seq<Value>, each: (Value, seq<Value>) -> bool, r: Result<seq<Value>, string>) {
    r.Ok? && exists parts :: EachPart(recs, parts, each) && Flatten(parts) == r.value
  }

  // ----- flat maps

  /** Each record becomes what `each` says. */
  ghost predicate Becomes(tx: TextFns, func: string, each: (Value, seq<Value>) -> bool) {
    forall v :: T.ApplyFlat(tx, v, func).Ok? && each(v, T.ApplyFlat(tx, v, func).value)
  }

  lemma {:induction false} FlatEach(tx: TextFns, func: string, recs: seq<Value>, each: (Value, seq<Value>) -> bool)
    returns (parts: seq<seq<Value>>)
    requires Becomes(tx, func, each)
    ensures EachPart(recs, parts, each) && T.Apply(tx, FlatMap(func), recs) == Ok(Flatten(parts))
  {
    parts := [];
    if recs != [] {
      var init, last := recs[..|recs| - 1], recs[|recs| - 1];
      var before := FlatEach(tx, func, init, each);
      var more := T.ApplyFlat(tx, last, func).value;
      parts := before + [more];
      assert parts[..|parts| - 1] == before;
      assert each(last, more);
    }
  }

  lemma FlatContents(tx: TextFns, func: string, recs: seq<Value>, each: (Value, seq<Value>) -> bool)
    requires Becomes(tx, func, each)
    ensures FlatOutput(recs, each, T.Apply(tx, FlatMap(func), recs))
  {
    var parts := FlatEach(tx, func, recs, each);
  }

  lemma SpreadReplaces(rec: Value, f: string, ws: seq<Value>)
    requires rec.Object? && f in rec.fields
    ensures |T.Spread(rec.fields, f, ws)| == |ws|
    ensures forall i :: 0 <= i < |ws| ==> Replaced(rec, f, ws[i], T.Spread(rec.fields, f, ws)[i])
  {
  }

  lemma SplitContents(tx: TextFns, f: string, recs: seq<Value>)
    ensures FlatOutput(recs, SplitBy(tx, f), T.Apply(tx, FlatMap("split:" + f), recs))
  {
    var func := "split:" + f;
    assert func[0] == 's' && "identity"[0] == 'i';
    AfterPrefix("split:", f);
    forall v ensures T.ApplyFlat(tx, v, func).Ok? && SplitBy(tx, f)(v, T.ApplyFlat(tx, v, func).value) {
      if v.Object? && f in v.fields && v.fields[f].Str? {
        var ts := tx.tokens(v.fields[f].s);
        SpreadReplaces(v, f, seq(|ts|, i requires 0 <= i < |ts| => Str(ts[i])));
      }
    }
    FlatContents(tx, func, recs, SplitBy(tx, f));
  }

  lemma ExplodeContents(tx: TextFns, f: string, recs: seq<Value>)
    ensures FlatOutput(recs, ExplodedBy(f), T.Apply(tx, FlatMap("explode_array:" + f), recs))
  {
    var func := "explode_array:" + f;
    assert func[0] == 'e' && "identity"[0] == 'i';
    AfterPrefix("explode_array:", f);
    OtherPrefix(func, "split:");
    forall v ensures T.ApplyFlat(tx, v, func).Ok? && ExplodedBy(f)(v, T.ApplyFlat(tx, v, func).value) {
      if v.Object? && f in v.fields && v.fields[f].Array? {
        SpreadReplaces(v, f, v.fields[f].items);
      }
    }
    FlatContents(tx, func, recs, ExplodedBy(f));
  }

  lemma ExpandContents(tx: TextFns, recs: seq<Value>)
    requires ListsNames(tx)
    ensures FlatOutput(recs, ExpandedBy(tx), T.Apply(tx, FlatMap("json_expand"), recs))
  {
    var func := "json_expand";
    assert func[0] == 'j' && "identity"[0] == 'i';
    OtherPrefix(func, "split:");
    OtherPrefix(func, "explode_array:");
    forall v ensures T.ApplyFlat(tx, v, func).Ok? && ExpandedBy(tx)(v, T.ApplyFlat(tx, v, func).value) {
      if v.Object? && v.fields != map[] {
        var ks := tx.keyOrder(v.fields.Keys);
        forall i | 0 <= i < |ks| ensures ks[i] in v.fields {
          assert ks[i] in Elems(ks);
        }
      }
    }
    FlatContents(tx, func, recs, ExpandedBy(tx));
  }

  lemma {:induction false} FlatIdentity(tx: TextFns, recs: seq<Value>)
    ensures T.Apply(tx, FlatMap("identity"), recs) == Ok(recs)
  {
    if recs != [] {
      assert recs == recs[..|recs| - 1] + [recs[|recs| - 1]];
      FlatIdentity(tx, recs[..|recs| - 1]);
    }
  }

  /** An operation that does not exist fails as soon as there is a record. */
  lemma UnknownFlat(tx: TextFns, func: string, recs: seq<Value>)
    requires func != "identity" && func != "json_expand" && !("split:" <= func) && !("explode_array:" <= func)
    ensures T.Apply(tx, FlatMap(func), recs).Ok? <==> recs == []
  {
    if recs != [] {
      assert recs[..1] == [recs[0]] && recs[..1][..0] == [];
      assert T.Apply(tx, FlatMap(func), recs[..1]).Err?;
      T.TraverseFails(recs, T.Kernel(tx, FlatMap(func)), 1);
    }
  }
}
