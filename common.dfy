/** Values shared by every widget and by the renderer: optional values, JSON-like
    props, JavaScript truthiness, and the score every grading function returns. */
module Common {

  datatype Option<+T> = None | Some(value: T)

  datatype Result<+T, +E> = Ok(value: T) | Err(error: E)

  /** A JSON-like value, as held in widget props, rubrics and serialized state.
      `Undefined` is a key that is present but set to `undefined`. */
  datatype Value =
    | Undefined
    | Null
    | Bool(b: bool)
    | Num(n: int)
    | Str(s: string)
    | List(items: seq<Value>)
    | Obj(fields: map<string, Value>)

  /** JavaScript truthiness of a value: `undefined`, `null`, `false`, `0` and ""
      are falsy; every array and object is truthy. */
  predicate Truthy(v: Value) {
    match v
    case Undefined => false
    case Null => false
    case Bool(b) => b
    case Num(n) => n != 0
    case Str(s) => s != ""
    case List(_) => true
    case Obj(_) => true
  }

  /** The own enumerable properties of a value, as `_.extend` copies them
      (only objects contribute any). */
  function Fields(v: Value): map<string, Value> {
    if v.Obj? then v.fields else map[]
  }

  /** `_.extend({}, base, over)`: the properties of `over` override those of
      `base`; keys of neither are absent. */
  function Extend(base: Value, over: Value): (r: Value)
    ensures r.Obj?
    ensures r.fields.Keys == Fields(base).Keys + Fields(over).Keys
    ensures forall k :: k in Fields(over) ==> r.fields[k] == Fields(over)[k]
    ensures forall k :: k in Fields(base) && k !in Fields(over) ==> r.fields[k] == Fields(base)[k]
  {
    Obj(Fields(base) + Fields(over))
  }

  /** The result type of every `validate`/`simpleValidate`. A `null` message is
      `None`. */
  datatype Score =
    | Points(earned: nat, total: nat, message: Option<string>)
    | Invalid(message: Option<string>)

  /** `message || null` for a message that may be missing: the empty string is
      falsy, so it becomes `null` too. */
  function MessageOrNull(m: Option<string>): (r: Option<string>)
    ensures r.Some? <==> m.Some? && m.value != ""
    ensures r.Some? ==> r == m
  {
    if m.Some? && m.value != "" then m else None
  }

  /** The elements of `s` are pairwise distinct. */
  predicate NoDuplicates<T(==)>(s: seq<T>) {
    forall i, j :: 0 <= i < j < |s| ==> s[i] != s[j]
  }

  /** `sub` is `s` with some elements left out, order kept. */
  predicate IsSubsequence<T(==)>(sub: seq<T>, s: seq<T>)
    decreases |s|
  {
    if sub == [] then true
    else if s == [] then false
    else if sub[0] == s[0] then IsSubsequence(sub[1..], s[1..])
    else IsSubsequence(sub, s[1..])
  }

  /** The elements of `s` that satisfy `keep`, in order (JavaScript's
      `Array.prototype.filter`). */
  function Filter<T>(s: seq<T>, keep: T -> bool): (r: seq<T>)
    ensures |r| <= |s|
    ensures forall i :: 0 <= i < |r| ==> r[i] in s && keep(r[i])
    ensures forall i :: 0 <= i < |s| && keep(s[i]) ==> s[i] in r
    ensures IsSubsequence(r, s)
    decreases |s|
  {
    if s == [] then []
    else
      var rest := Filter(s[1..], keep);
      if keep(s[0]) then [s[0]] + rest else rest
  }

  /** Filtering never changes how often a kept element occurs. */
  lemma {:induction false} FilterMultiset<T>(s: seq<T>, keep: T -> bool)
    ensures multiset(Filter(s, keep)) + multiset(Filter(s, x => !keep(x))) == multiset(s)
    decreases |s|
  {
    if s != [] {
      FilterMultiset(s[1..], keep);
      assert s == [s[0]] + s[1..];
    }
  }

  /** Filtering keeps exactly the occurrences of the elements it keeps: the
      multiset of the result is determined by the multiset of the input. */
  lemma {:induction false} FilterCount<T>(s: seq<T>, keep: T -> bool, x: T)
    ensures multiset(Filter(s, keep))[x] == if keep(x) then multiset(s)[x] else 0
    decreases |s|
  {
    if s != [] {
      FilterCount(s[1..], keep, x);
      assert multiset(s) == multiset([s[0]]) + multiset(s[1..]) by {
        assert s == [s[0]] + s[1..];
      }
      if keep(s[0]) {
        assert multiset(Filter(s, keep)) == multiset([s[0]]) + multiset(Filter(s[1..], keep));
      }
    }
  }

  /** Two permutations of each other keep the same elements, as a multiset, under
      the same filter. */
  lemma FilterPermutation<T>(a: seq<T>, b: seq<T>, keep: T -> bool)
    requires multiset(a) == multiset(b)
    ensures multiset(Filter(a, keep)) == multiset(Filter(b, keep))
    ensures |Filter(a, keep)| == |Filter(b, keep)|
  {
    forall x ensures multiset(Filter(a, keep))[x] == multiset(Filter(b, keep))[x] {
      FilterCount(a, keep, x);
      FilterCount(b, keep, x);
    }
    assert multiset(Filter(a, keep)) == multiset(Filter(b, keep));
    assert |multiset(Filter(a, keep))| == |Filter(a, keep)|;
    assert |multiset(Filter(b, keep))| == |Filter(b, keep)|;
  }

  /** Appending an element that is not kept leaves the filtered list as it was. */
  lemma {:induction false} FilterAppendDropped<T>(s: seq<T>, y: T, keep: T -> bool)
    requires !keep(y)
    ensures Filter(s + [y], keep) == Filter(s, keep)
    decreases |s|
  {
    if s == [] {
      assert s + [y] == [y];
    } else {
      FilterAppendDropped(s[1..], y, keep);
      assert (s + [y])[0] == s[0] && (s + [y])[1..] == s[1..] + [y];
    }
  }

  /** A list whose every element is kept passes the filter unchanged. */
  lemma {:induction false} FilterKeepsAll<T>(s: seq<T>, keep: T -> bool)
    requires forall i :: 0 <= i < |s| ==> keep(s[i])
    ensures Filter(s, keep) == s
    decreases |s|
  {
    if s != [] {
      FilterKeepsAll(s[1..], keep);
    }
  }

  /** The property `k` of an object, or `undefined` when it has none. */
  function Get(v: Value, k: string): Value {
    if k in Fields(v) then Fields(v)[k] else Undefined
  }

  /** `_.pick(v, keys...)`: an object holding just those of `keys` that `v` has. */
  function Pick(v: Value, keys: set<string>): (r: Value)
    ensures r.Obj? && r.fields.Keys == Fields(v).Keys * keys
    ensures forall k :: k in r.fields ==> r.fields[k] == Fields(v)[k]
  {
    Obj(map k | k in Fields(v) && k in keys :: Fields(v)[k])
  }

  /** `_.omit(v, key)`: `v`'s properties except `key`. */
  function Omit(v: Value, key: string): (r: Value)
    ensures r.Obj? && r.fields.Keys == Fields(v).Keys - {key}
    ensures forall k :: k in r.fields ==> r.fields[k] == Fields(v)[k]
  {
    Obj(map k | k in Fields(v) && k != key :: Fields(v)[k])
  }

  /** A leading run of `s` equal to `p`. */
  predicate IsPrefix<T(==)>(p: seq<T>, s: seq<T>) {
    |p| <= |s| && p == s[..|p|]
  }

  /** `s.endsWith(suffix)`. */
  predicate EndsWith(s: string, suffix: string) {
    |suffix| <= |s| && s[|s| - |suffix|..] == suffix
  }

  /** The digit character for `d`. */
  function DigitChar(d: nat): (c: char)
    requires d < 10
    ensures '0' <= c <= '9' && DigitValue(c) == d
  {
    ('0' as int + d) as char
  }

  /** The value of a digit character (0 for any other character). */
  function DigitValue(c: char): nat {
    if '0' <= c <= '9' then (c as int - '0' as int) as nat else 0
  }

  /** `n.toString()`: the decimal digits of `n`, most significant first. */
  function NatToString(n: nat): (s: string)
    ensures |s| >= 1
    ensures forall i :: 0 <= i < |s| ==> '0' <= s[i] <= '9'
    decreases n
  {
    if n < 10 then [DigitChar(n)] else NatToString(n / 10) + [DigitChar(n % 10)]
  }

  /** The number a string of decimal digits denotes. */
  function ParseDecimal(s: string): nat
    decreases |s|
  {
    if s == [] then 0 else 10 * ParseDecimal(s[..|s| - 1]) + DigitValue(s[|s| - 1])
  }

  /** Reading the digits back gives the number: the decimal rendering loses
      nothing. */
  lemma {:induction false} ParseNatToString(n: nat)
    ensures ParseDecimal(NatToString(n)) == n
    decreases n
  {
    var s := NatToString(n);
    if n >= 10 {
      ParseNatToString(n / 10);
      assert s[..|s| - 1] == NatToString(n / 10);
    }
  }

  /** `String(n)` for an integer: a minus sign exactly for a negative number,
      then decimal digits that read back as its absolute value. */
  function IntToString(n: int): (s: string)
    ensures |s| >= 1 && (s[0] == '-' <==> n < 0)
    ensures var digits := if n < 0 then s[1..] else s;
            |digits| >= 1 && (forall i :: 0 <= i < |digits| ==> '0' <= digits[i] <= '9') &&
            ParseDecimal(digits) == if n < 0 then -n else n
  {
    if n >= 0 then
      ParseNatToString(n);
      NatToString(n)
    else
      ParseNatToString(-n);
      assert ("-" + NatToString(-n))[1..] == NatToString(-n);
      "-" + NatToString(-n)
  }

  /** `String(v)`: JavaScript's conversion of a value to a string. An array
      joins its elements with commas, `null` and `undefined` elements giving
      the empty string; every object gives "[object Object]". A string is
      kept, a number reads back as itself, and of the values that are not
      arrays only the empty string gives the empty string. */
  function ToString(v: Value): (r: string)
    ensures v.Str? ==> r == v.s
    ensures v.Num? ==> |r| >= 1 && (r[0] == '-' <==> v.n < 0) &&
                       ParseDecimal(if v.n < 0 then r[1..] else r) == (if v.n < 0 then -v.n else v.n)
    ensures !v.List? ==> (r == "" <==> v == Str(""))
    ensures v.List? && |v.items| >= 2 ==> ',' in r
    decreases v, 1
  {
    match v
    case Undefined => "undefined"
    case Null => "null"
    case Bool(b) => if b then "true" else "false"
    case Num(n) => IntToString(n)
    case Str(s) => s
    case List(items) => JoinElements(items)
    case Obj(_) => "[object Object]"
  }

  /** The elements of an array joined with commas, as `Array.prototype.join`. */
  function JoinElements(items: seq<Value>): (r: string)
    ensures |items| >= 2 ==> ',' in r
    decreases items, 0
  {
    if items == [] then ""
    else if |items| == 1 then Element(items[0])
    else
      var r := JoinElements(items[..|items| - 1]) + "," + Element(items[|items| - 1]);
      assert r[|JoinElements(items[..|items| - 1])|] == ',';
      r
  }

  /** One array element inside a join. */
  function Element(v: Value): string
    decreases v, 2
  {
    if v.Undefined? || v.Null? then "" else ToString(v)
  }
}
