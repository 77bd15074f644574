/**
 JSON values as the translation code reads and builds them.  Numbers that are
 not integers are a mantissa with a decimal exponent.
 */
module Json {
  import opened Common

  datatype Value =
    | Null
    | Bool(flag: bool)
    | Num(n: int)
    | Frac(mantissa: int, exponent: int)
    | Str(text: string)
    | Arr(items: seq<Value>)
    | Obj(fields: map<string, Value>)

  /** `v[key]`: null when `v` is no object or has no such key. */
  function Get(v: Value, key: string): (r: Value)
    ensures r == Null || r < v
  {
    if v.Obj? && key in v.fields then v.fields[key] else Null
  }

  /** `v[key] = x` on an object. */
  function With(v: Value, key: string, x: Value): (r: Value)
    requires v.Obj?
    ensures r.Obj? && Get(r, key) == x
    ensures forall k :: k != key ==> Get(r, k) == Get(v, k)
  {
    Obj(v.fields[key := x])
  }

  function AsStr(v: Value): Option<string> {
    if v.Str? then Some(v.text) else None
  }

  /** Integers of an unsigned 64-bit word. */
  function AsU64(v: Value): Option<nat> {
    if v.Num? && 0 <= v.n < 0x1_0000_0000_0000_0000 then Some(v.n) else None
  }

  /** A conversion to an unsigned 32-bit word, which drops the upper bits. */
  function AsU32(n: nat): (r: nat)
    ensures r < 0x1_0000_0000
    ensures n < 0x1_0000_0000 ==> r == n
    ensures (n - r) % 0x1_0000_0000 == 0
  {
    n % 0x1_0000_0000
  }

  /** The text form of JSON values: how they are written and read back. */
  datatype Codec = Codec(write: Value -> string, read: string -> Option<Value>)

  /** What is written is read back. */
  ghost predicate RoundTrips(t: Codec) {
    forall v :: t.read(t.write(v)) == Some(v)
  }
}
