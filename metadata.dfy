/** Front-matter metadata: the JSON values `JSON.parse` produces (arrays and
    floating-point numbers left out), JavaScript truthiness and string
    conversion, and the recursive `_.merge` the template resolver uses to
    inherit layout data. */
module Metadata {
  import opened Wrappers

  datatype Value =
    | Null
    | Bool(b: bool)
    | Num(n: int)
    | Str(s: string)
    | Obj(fields: map<string, Value>)

  /** A parsed front-matter record: a JSON object. */
  type Meta = map<string, Value>

  /** JavaScript truthiness of a value. */
  predicate Truthy(v: Value) {
    match v
    case Null => false
    case Bool(b) => b
    case Num(n) => n != 0
    case Str(s) => s != ""
    case Obj(_) => true
  }

  /** `m[k]` is truthy; a missing key reads as `undefined`, which is falsy. */
  predicate Has(m: Meta, k: string) {
    k in m && Truthy(m[k])
  }

  function Get(m: Meta, k: string): Option<Value> {
    if k in m then Some(m[k]) else None
  }

  function DigitChar(d: nat): char
    requires d < 10
  {
    "0123456789"[d]
  }

  function NatToString(n: nat): (r: string)
    ensures |r| > 0
    decreases n
  {
    if n < 10 then [DigitChar(n)] else NatToString(n / 10) + [DigitChar(n % 10)]
  }

  /** `'' + v`: how a value is spelled when it is concatenated into a path. */
  function JsString(v: Value): string {
    match v
    case Null => "null"
    case Bool(b) => if b then "true" else "false"
    case Num(n) => if n < 0 then "-" + NatToString(-n) else NatToString(n)
    case Str(s) => s
    case Obj(_) => "[object Object]"
  }

  /** One key of `_.merge`: a plain-object source value is merged into the
      destination's value when that is a plain object too, or into a fresh `{}`;
      every other source value replaces the destination's. */
  function MergeValue(dest: Option<Value>, src: Value): (r: Value)
    ensures src.Obj? <==> r.Obj?
    decreases src, 1
  {
    match src
    case Obj(fields) =>
      Obj(MergeMap(if dest.Some? && dest.value.Obj? then dest.value.fields else map[], fields))
    case _ => src
  }

  /** `_.merge(dest, src)` on JSON objects, as a value. */
  function MergeMap(dest: Meta, src: Meta): (r: Meta)
    ensures r.Keys == dest.Keys + src.Keys
    decreases Obj(src), 0
  {
    map k | k in dest.Keys + src.Keys ::
      if k in src then MergeValue(Get(dest, k), src[k]) else dest[k]
  }

  /** The data a template ends up with: `_.merge({}, layoutData, own)` when it
      has a layout, its own data otherwise. */
  function Inherit(own: Meta, layoutData: Option<Meta>): Meta {
    if layoutData.None? then own else MergeMap(MergeMap(map[], layoutData.value), own)
  }

  /** The value at a path of nested keys. */
  function Lookup(m: Meta, path: seq<string>): Option<Value>
    decreases |path|
  {
    if |path| == 0 || path[0] !in m then None
    else if |path| == 1 then Some(m[path[0]])
    else if m[path[0]].Obj? then Lookup(m[path[0]].fields, path[1..])
    else None
  }

  /** Merging into `{}` copies deeply: the copy equals the original. */
  lemma {:induction false} MergeIntoEmpty(m: Meta)
    ensures MergeMap(map[], m) == m
    decreases Obj(m), 0
  {
    forall k | k in m ensures MergeMap(map[], m)[k] == m[k] {
      MergeValueIntoNothing(m[k]);
    }
  }

  lemma {:induction false} MergeValueIntoNothing(v: Value)
    ensures MergeValue(None, v) == v
    decreases v, 1
  {
    if v.Obj? {
      MergeIntoEmpty(v.fields);
    }
  }

  /** Merging a record into itself changes nothing. */
  lemma {:induction false} MergeIdempotent(m: Meta)
    ensures MergeMap(m, m) == m
    decreases Obj(m), 0
  {
    forall k | k in m ensures MergeMap(m, m)[k] == m[k] {
      MergeValueIdempotent(m[k]);
    }
  }

  lemma {:induction false} MergeValueIdempotent(v: Value)
    ensures MergeValue(Some(v), v) == v
    decreases v, 1
  {
    if v.Obj? {
      MergeIdempotent(v.fields);
    }
  }

  /** Merging a base into data that already absorbed that base changes
      nothing: why re-merging an already resolved layout's data is harmless. */
  lemma {:induction false} MergeAbsorbs(base: Meta, own: Meta)
    ensures MergeMap(base, MergeMap(base, own)) == MergeMap(base, own)
    decreases Obj(own), 0
  {
    var once := MergeMap(base, own);
    forall k | k in once ensures MergeMap(base, once)[k] == once[k] {
      if k in own {
        MergeValueAbsorbs(Get(base, k), own[k]);
      } else {
        MergeValueIdempotent(base[k]);
      }
    }
  }

  lemma {:induction false} MergeValueAbsorbs(base: Option<Value>, own: Value)
    ensures MergeValue(base, MergeValue(base, own)) == MergeValue(base, own)
    decreases own, 1
  {
    if own.Obj? {
      MergeAbsorbs(if base.Some? && base.value.Obj? then base.value.fields else map[], own.fields);
    }
  }

  /** With a layout, inherited data is the plain merge of the layout's data
      and the template's own. */
  lemma InheritIsMerge(own: Meta, base: Meta)
    ensures Inherit(own, Some(base)) == MergeMap(base, own)
  {
    MergeIntoEmpty(base);
  }

  /** Data inherited from `base` already contains `base`. */
  lemma InheritAbsorbs(own: Meta, base: Meta)
    ensures MergeMap(base, Inherit(own, Some(base))) == Inherit(own, Some(base))
  {
    InheritIsMerge(own, base);
    MergeAbsorbs(base, own);
  }

  /** Key by key: a key only in the layout's data is inherited unchanged, a
      key whose own value is not an object keeps the template's own value, and
      with no layout the data is the template's own. */
  lemma InheritKeys(own: Meta, layoutData: Option<Meta>)
    ensures layoutData.None? ==> Inherit(own, layoutData) == own
    ensures layoutData.Some? ==> Inherit(own, layoutData).Keys == layoutData.value.Keys + own.Keys
    ensures forall k :: layoutData.Some? && k in layoutData.value && k !in own ==>
      Inherit(own, layoutData)[k] == layoutData.value[k]
    ensures forall k :: k in own && !own[k].Obj? ==> Inherit(own, layoutData)[k] == own[k]
  {
    if layoutData.Some? {
      InheritIsMerge(own, layoutData.value);
    }
  }

  /** The template's own data wins at every depth: a non-object value at any
      path of the template's own data is the value at that path afterwards. */
  lemma {:induction false} OwnLeafWins(base: Meta, own: Meta, path: seq<string>)
    requires Lookup(own, path).Some? && !Lookup(own, path).value.Obj?
    ensures Lookup(MergeMap(base, own), path) == Lookup(own, path)
    decreases |path|
  {
    var k := path[0];
    if |path| > 1 {
      var b := Get(base, k);
      OwnLeafWins(if b.Some? && b.value.Obj? then b.value.fields else map[], own[k].fields, path[1..]);
    }
  }
}
