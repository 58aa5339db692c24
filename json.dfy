/** JSON values as the JavaScript code sees them once a record has been
    parsed, and the few pieces of JavaScript semantics the core relies on:
    truthiness, number coercion in `>=`, and object spread `{...v}`. */
module Json {

  datatype Option<+T> = None | Some(value: T)

  /** A parsed JSON value. Numbers are modelled as integers. */
  datatype Value =
    | Null
    | Bool(b: bool)
    | Num(n: int)
    | Str(s: string)
    | Arr(items: seq<Value>)
    | Obj(fields: map<string, Value>)

  /** A JSON object: the shape of every persisted record. */
  type Document = map<string, Value>

  /** JavaScript truthiness: null, false, 0 and "" are falsy; every string
      with a character, every non-zero number, array and object is truthy. */
  predicate Truthy(v: Value) {
    match v
    case Null => false
    case Bool(b) => b
    case Num(n) => n != 0
    case Str(s) => s != ""
    case Arr(_) => true
    case Obj(_) => true
  }

  predicate IsDigit(c: char) {
    '0' <= c <= '9'
  }

  predicate AllDigits(s: string) {
    forall i :: 0 <= i < |s| ==> IsDigit(s[i])
  }

  /** The value of a string of decimal digits ("" is 0). */
  function DigitsValue(s: string): nat
    requires AllDigits(s)
  {
    if s == [] then 0 else DigitsValue(s[..|s| - 1]) * 10 + (s[|s| - 1] as int - '0' as int)
  }

  /** What JavaScript's ToNumber makes of a value: a number, NaN (with
      which every comparison is false), or a TypeError raised while
      converting an object to a primitive. */
  datatype Coerced = Number(n: int) | NotANumber | ConversionError

  /** Whether String(v) raises. A parsed object has no callable own
      properties, so an own "toString" property shadows the inherited
      method and leaves nothing that yields a primitive; an array's string
      form converts each element in turn. */
  predicate StringThrows(v: Value) {
    match v
    case Obj(fields) => "toString" in fields
    case Arr(items) => exists i :: 0 <= i < |items| && StringThrows(items[i])
    case _ => false
  }

  /** JavaScript ToNumber as applied by `v >= n` for a number n. An object
      reads as "[object Object]" (NaN) unless its conversion raises. An
      array converts through its string form: [] is "", [x] is String(x),
      and two or more elements join with a comma, which never reads as a
      number. */
  function ToNumber(v: Value): (r: Coerced)
    ensures r.ConversionError? <==> StringThrows(v)
  {
    match v
    case Null => Number(0)
    case Bool(b) => Number(if b then 1 else 0)
    case Num(n) => Number(n)
    case Str(s) => if AllDigits(s) then Number(DigitsValue(s)) else NotANumber
    case Arr(items) =>
      if StringThrows(v) then ConversionError
      else if items == [] then Number(0)
      else if |items| == 1 && !items[0].Bool? then ToNumber(items[0])
      else NotANumber
    case Obj(fields) => if "toString" in fields then ConversionError else NotANumber
  }

  function DigitChar(d: nat): char
    requires d < 10
  {
    ('0' as int + d) as char
  }

  /** The decimal property name of an array or string index. */
  function IndexKey(i: nat): (k: string)
    ensures |k| >= 1
    ensures i >= 10 ==> |k| >= 2
  {
    if i < 10 then [DigitChar(i)] else IndexKey(i / 10) + [DigitChar(i % 10)]
  }

  /** Distinct indices have distinct property names. */
  lemma {:induction false} IndexKeyInjective(i: nat, j: nat)
    requires IndexKey(i) == IndexKey(j)
    ensures i == j
    decreases i
  {
    if i >= 10 && j >= 10 {
      var ki, kj := IndexKey(i), IndexKey(j);
      assert ki[..|ki| - 1] == IndexKey(i / 10);
      assert kj[..|kj| - 1] == IndexKey(j / 10);
      assert DigitChar(i % 10) == ki[|ki| - 1] == kj[|kj| - 1] == DigitChar(j % 10);
      IndexKeyInjective(i / 10, j / 10);
    }
  }

  /** The property names of the indices 0..n-1. */
  function IndexKeys(n: nat): (ks: set<string>)
    ensures forall i :: 0 <= i < n ==> IndexKey(i) in ks
  {
    if n == 0 then {} else IndexKeys(n - 1) + {IndexKey(n - 1)}
  }

  /** Every name in IndexKeys(n) is the name of some index below n. */
  lemma {:induction false} IndexKeysOnly(n: nat, k: string) returns (i: nat)
    requires k in IndexKeys(n)
    ensures i < n && IndexKey(i) == k
  {
    if k == IndexKey(n - 1) {
      i := n - 1;
    } else {
      i := IndexKeysOnly(n - 1, k);
    }
  }

  /** The n index names are pairwise distinct, so there are n of them. */
  lemma {:induction false} IndexKeysCount(n: nat)
    ensures |IndexKeys(n)| == n
  {
    if n > 0 {
      IndexKeysCount(n - 1);
      if IndexKey(n - 1) in IndexKeys(n - 1) {
        var i := IndexKeysOnly(n - 1, IndexKey(n - 1));
        IndexKeyInjective(i, n - 1);
      }
    }
  }

  /** The index-keyed object of a sequence: element i under IndexKey(i). */
  function Indexed(items: seq<Value>): Document {
    if items == [] then map[]
    else Indexed(items[..|items| - 1])[IndexKey(|items| - 1) := items[|items| - 1]]
  }

  /** The keys of Indexed(items) are exactly the index names of items. */
  lemma {:induction false} IndexedKeys(items: seq<Value>)
    ensures Indexed(items).Keys == IndexKeys(|items|)
  {
    if items != [] {
      var n := |items| - 1;
      IndexedKeys(items[..n]);
      assert Indexed(items).Keys == Indexed(items[..n]).Keys + {IndexKey(n)};
      assert IndexKeys(|items|) == IndexKeys(n) + {IndexKey(n)};
    }
  }

  /** Indexed(items) holds element i under the name of index i. */
  lemma {:induction false} IndexedValues(items: seq<Value>, i: nat)
    requires i < |items|
    ensures IndexKey(i) in Indexed(items) && Indexed(items)[IndexKey(i)] == items[i]
  {
    var n := |items| - 1;
    if i < n {
      IndexedValues(items[..n], i);
      if IndexKey(i) == IndexKey(n) {
        IndexKeyInjective(i, n);
      }
    }
  }

  /** Indexed(items) has exactly the n index names of items as keys, and
      element i under the name of i. */
  lemma IndexedContents(items: seq<Value>)
    ensures Indexed(items).Keys == IndexKeys(|items|)
    ensures forall i :: 0 <= i < |items| ==> Indexed(items)[IndexKey(i)] == items[i]
  {
    IndexedKeys(items);
    forall i | 0 <= i < |items|
      ensures Indexed(items)[IndexKey(i)] == items[i]
    {
      IndexedValues(items, i);
    }
  }

  /** The own enumerable properties that `{...v}` copies out of a value: an
      object's fields, an array's or string's indexed elements, and nothing
      for null, booleans and numbers. */
  function Spread(v: Value): (r: Document)
    ensures v.Obj? ==> r == v.fields
    ensures v.Arr? ==> r.Keys == IndexKeys(|v.items|) &&
                       forall i :: 0 <= i < |v.items| ==> r[IndexKey(i)] == v.items[i]
    ensures v.Str? ==> r.Keys == IndexKeys(|v.s|) &&
                       forall i :: 0 <= i < |v.s| ==> r[IndexKey(i)] == Str([v.s[i]])
    // the index names are distinct: n elements give exactly n properties
    ensures v.Arr? ==> |r.Keys| == |v.items|
    ensures v.Str? ==> |r.Keys| == |v.s|
    ensures v.Null? || v.Bool? || v.Num? ==> r == map[]
  {
    match v
    case Obj(fields) => fields
    case Arr(items) =>
      IndexedContents(items);
      IndexKeysCount(|items|);
      Indexed(items)
    case Str(s) =>
      IndexKeysCount(|s|);
      var chars := seq(|s|, i requires 0 <= i < |s| => Str([s[i]]));
      IndexedContents(chars);
      Indexed(chars)
    case _ => map[]
  }
}
