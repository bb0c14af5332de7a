/** JavaScript values as far as the event pipeline inspects them, and the
    helpers `_.isUndefined`, `_.contains`, `_.setDefault` and `_.merge`. */
module JsValues {

  /** A JavaScript value. An object is given by its own enumerable
      properties; its prototype chain is not part of the value. Numbers are
      taken to be integers. */
  datatype Value =
    | Undefined
    | Null
    | Bool(b: bool)
    | Num(n: int)
    | Str(s: string)
    | Arr(items: seq<Value>)
    | Obj(props: map<string, Value>)

  /** The own properties of an object. */
  type Props = map<string, Value>

  /** `_.isUndefined(x)`: `typeof x === 'undefined'`. */
  function IsUndefined(v: Value): bool {
    v.Undefined?
  }

  /** `obj[key]` on an object's own properties: a missing key reads as undefined. */
  function Get(obj: Props, key: string): Value {
    if key in obj then obj[key] else Undefined
  }

  /** The truth value a JavaScript condition gives `v` (`!v` is its negation). */
  predicate Truthy(v: Value) {
    match v
    case Undefined => false
    case Null => false
    case Bool(b) => b
    case Num(n) => n != 0
    case Str(s) => s != ""
    case Arr(_) => true
    case Obj(_) => true
  }

  /** The `typeof` operator. */
  function TypeOf(v: Value): string {
    match v
    case Undefined => "undefined"
    case Null => "object"
    case Bool(_) => "boolean"
    case Num(_) => "number"
    case Str(_) => "string"
    case Arr(_) => "object"
    case Obj(_) => "object"
  }

  /** `_.isUndefined` holds exactly for the values whose `typeof` is 'undefined'. */
  lemma UndefinedTypeOf(v: Value)
    ensures IsUndefined(v) <==> TypeOf(v) == "undefined"
  {
  }

  /** The property read `v[key]` for a key that is no array index and no
      property inherited by arrays or primitives (such as 'event-type'). */
  function Property(v: Value, key: string): Value {
    if v.Obj? then Get(v.props, key) else Undefined
  }

  /** `Array.prototype.indexOf`: the first index holding `x`, or -1. */
  function IndexOf<T(==)>(a: seq<T>, x: T): (i: int)
    ensures -1 <= i < |a|
    ensures 0 <= i ==> a[i] == x
    ensures forall j :: 0 <= j < |a| && (i < 0 || j < i) ==> a[j] != x
  {
    if a == [] then -1
    else if a[0] == x then 0
    else
      var k := IndexOf(a[1..], x);
      if k < 0 then -1 else k + 1
  }

  /** `_.contains(array, element)`: `array.indexOf(element) >= 0`. */
  function Contains<T(==)>(a: seq<T>, x: T): (b: bool)
    ensures b <==> x in a
  {
    IndexOf(a, x) >= 0
  }

  /** The properties after `_.setDefault(obj, key, v)`: `key` is set to `v`
      only when `obj[key]` is undefined. */
  function SetDefaulted(obj: Props, key: string, v: Value): (r: Props)
    ensures r.Keys == obj.Keys + {key}
    ensures r[key] == (if IsUndefined(Get(obj, key)) then v else obj[key])
    ensures forall k :: k in obj && k != key ==> r[k] == obj[k]
  {
    if IsUndefined(Get(obj, key)) then obj[key := v] else obj
  }

  /** The properties after `_.merge(obj, defaults)`: every own property of
      `defaults` is given to `obj` by `_.setDefault`. */
  function Merged(obj: Props, defaults: Props): (r: Props)
    ensures r.Keys == obj.Keys + defaults.Keys
    // an existing defined property is never overwritten
    ensures forall k :: k in obj && !IsUndefined(obj[k]) ==> r[k] == obj[k]
    // an undefined or missing property takes the default
    ensures forall k :: k in defaults && IsUndefined(Get(obj, k)) ==> r[k] == defaults[k]
    // properties the defaults do not mention are kept
    ensures forall k :: k in obj && k !in defaults ==> r[k] == obj[k]
  {
    map k | k in obj.Keys + defaults.Keys ::
      if k in defaults && IsUndefined(Get(obj, k)) then defaults[k] else obj[k]
  }

  /** Merging the same defaults twice changes nothing the first merge did not. */
  lemma MergeIdempotent(obj: Props, defaults: Props)
    ensures Merged(Merged(obj, defaults), defaults) == Merged(obj, defaults)
  {
    var once := Merged(obj, defaults);
    var twice := Merged(once, defaults);
    forall k | k in twice ensures twice[k] == once[k] {
      if k in defaults && IsUndefined(Get(once, k)) {
        assert IsUndefined(defaults[k]);
      }
    }
  }

  /** Merging one default into an object that lacks it is a plain update. */
  lemma MergeAbsentKey(obj: Props, key: string, v: Value)
    requires IsUndefined(Get(obj, key))
    ensures Merged(obj, map[key := v]) == obj[key := v]
  {
  }

  /** One `_.setDefault` step of the merge loop extends the merged defaults by one key. */
  lemma MergedStep(obj: Props, done: Props, key: string, v: Value)
    requires key !in done
    ensures SetDefaulted(Merged(obj, done), key, v) == Merged(obj, done[key := v])
  {
    assert Get(Merged(obj, done), key) == Get(obj, key);
  }

  /** A JavaScript object whose properties `_.setDefault` and `_.merge`
      update in place. */
  class JsObject {
    var props: Props

    constructor (props: Props)
      ensures this.props == props
    {
      this.props := props;
    }

    /** `_.setDefault(obj, key, defaultValue)`. */
    method SetDefault(key: string, defaultValue: Value)
      modifies this
      ensures props == SetDefaulted(old(props), key, defaultValue)
    {
      if IsUndefined(Get(props, key)) {
        props := props[key := defaultValue];
      }
    }

    /** `_.merge(obj, defaults)`: `_.forKeyValue` over the own properties of
        `defaults`, each passed to `_.setDefault`. */
    method Merge(defaults: Props)
      modifies this
      ensures props == Merged(old(props), defaults)
    {
      var todo := defaults.Keys;
      ghost var done: Props := map[];
      while todo != {}
        invariant todo <= defaults.Keys
        invariant done.Keys == defaults.Keys - todo
        invariant forall k :: k in done ==> done[k] == defaults[k]
        invariant props == Merged(old(props), done)
        decreases todo
      {
        var key :| key in todo;
        MergedStep(old(props), done, key, defaults[key]);
        SetDefault(key, defaults[key]);
        done := done[key := defaults[key]];
        todo := todo - {key};
      }
      assert done == defaults;
    }
  }
}
