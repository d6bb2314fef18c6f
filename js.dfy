/** The slice of JavaScript value semantics that the relay and the browser client rely on:
    JSON values, `undefined`, truthiness, property reads, `String(v)`, `Number(v)`,
    `String.prototype.split`, `Array.prototype.join` and `.map`, an insertion-ordered `Set`
    and `URLSearchParams` as an ordered list of pairs. */
module Js {

  /** `None` stands for JavaScript's `undefined`. */
  datatype Option<+T> = None | Some(value: T)

  /** A value as `JSON.parse` produces it. Numbers are restricted to integers. */
  datatype Json =
    | JNull
    | JBool(b: bool)
    | JNum(n: int)
    | JStr(s: string)
    | JArr(items: seq<Json>)
    | JObj(fields: map<string, Json>)

  /** The outcome of reading `target.key`: reading a property of `null` or `undefined` throws
      a TypeError; anything else yields a value or `undefined`. */
  datatype Access = Throws | Read(v: Option<Json>)

  /** JavaScript truthiness: `undefined`, `null`, `false`, `0` and `""` are falsy. */
  predicate Truthy(v: Option<Json>)
  {
    match v
    case None => false
    case Some(JNull) => false
    case Some(JBool(b)) => b
    case Some(JNum(n)) => n != 0
    case Some(JStr(s)) => s != ""
    case Some(_) => true
  }

  // ---------------------------------------------------------------------------------------
  // Decimal digits

  predicate IsDigit(c: char) { '0' <= c <= '9' }

  predicate AllDigits(s: string) { forall i :: 0 <= i < |s| ==> IsDigit(s[i]) }

  function DigitChar(d: nat): (c: char)
    requires d < 10
    ensures IsDigit(c) && c as int - '0' as int == d
  {
    "0123456789"[d]
  }

  /** The value of a string of decimal digits, most significant first. */
  function DigitsValue(s: string): nat
    requires AllDigits(s)
    decreases |s|
  {
    if s == [] then 0
    else 10 * DigitsValue(s[..|s| - 1]) + (s[|s| - 1] as int - '0' as int)
  }

  /** The canonical decimal spelling of a natural number (no leading zeros). */
  function NatToString(n: nat): (s: string)
    ensures s != [] && AllDigits(s)
    ensures DigitsValue(s) == n
    decreases n
  {
    if n < 10 then [DigitChar(n)]
    else
      var prefix := NatToString(n / 10);
      var s := prefix + [DigitChar(n % 10)];
      assert s[..|s| - 1] == prefix;
      s
  }

  /** `String(n)` for an integer. */
  function IntToString(n: int): string
  {
    if n < 0 then "-" + NatToString(-n) else NatToString(n)
  }

  /** The array index a property key denotes: a canonical decimal spelling only
      (`"0"`, `"17"`; not `"007"` or `""`). */
  function IndexKey(key: string): (k: Option<nat>)
    ensures k.Some? ==> NatToString(k.value) == key
  {
    if key != "" && AllDigits(key) && NatToString(DigitsValue(key)) == key
    then Some(DigitsValue(key)) else None
  }

  lemma IndexKeyOfIndex(k: nat)
    ensures IndexKey(NatToString(k)) == Some(k)
  {
  }

  // ---------------------------------------------------------------------------------------
  // Property reads

  /** `j[key]` for a value that is neither `null` nor `undefined`: own fields of an object,
      `length` and canonical indices of arrays and strings; everything else is `undefined`. */
  function Member(j: Json, key: string): (v: Option<Json>)
    ensures j.JObj? ==> (v.Some? <==> key in j.fields)
    ensures j.JArr? && key == "length" ==> v == Some(JNum(|j.items|))
    ensures (j.JNull? || j.JBool? || j.JNum?) ==> v.None?
  {
    match j
    case JObj(f) => if key in f then Some(f[key]) else None
    case JArr(xs) =>
      if key == "length" then Some(JNum(|xs|))
      else
        var k := IndexKey(key);
        if k.Some? && k.value < |xs| then Some(xs[k.value]) else None
    case JStr(s) =>
      if key == "length" then Some(JNum(|s|))
      else
        var k := IndexKey(key);
        if k.Some? && k.value < |s| then Some(JStr([s[k.value]])) else None
    case _ => None
  }

  /** `target.key`, which throws on `null` and `undefined`. */
  function Get(target: Option<Json>, key: string): (a: Access)
    ensures a.Throws? <==> (target.None? || target.value.JNull?)
    ensures a.Read? ==> a.v == Member(target.value, key)
  {
    match target
    case None => Throws
    case Some(JNull) => Throws
    case Some(j) => Read(Member(j, key))
  }

  /** `target?.key`: optional chaining yields `undefined` instead of throwing. */
  function OptionalGet(target: Option<Json>, key: string): (v: Option<Json>)
    ensures Get(target, key).Throws? ==> v.None?
    ensures Get(target, key).Read? ==> v == Get(target, key).v
  {
    if target.None? || target.value.JNull? then None else Member(target.value, key)
  }

  lemma ArrayIndexRead(xs: seq<Json>, k: nat)
    requires k < |xs|
    ensures Member(JArr(xs), NatToString(k)) == Some(xs[k])
  {
    IndexKeyOfIndex(k);
  }

  // ---------------------------------------------------------------------------------------
  // Conversions

  /** `String(v)` (also what a template literal and `URLSearchParams.append` produce). */
  function StringOf(j: Json): string
    decreases j
  {
    match j
    case JNull => "null"
    case JBool(b) => if b then "true" else "false"
    case JNum(n) => IntToString(n)
    case JStr(s) => s
    case JArr(xs) =>
      // Array.prototype.join(","): null elements become empty strings
      Join(seq(|xs|, i requires 0 <= i < |xs| => if xs[i].JNull? then "" else StringOf(xs[i])), ',')
    case JObj(_) => "[object Object]"
  }

  /** `String(v)` where `v` may be `undefined`. */
  function PropString(v: Option<Json>): string
  {
    if v.None? then "undefined" else StringOf(v.value)
  }

  /** A JavaScript number as far as the core uses it: an integer or NaN. */
  datatype Num = NaN | Finite(value: int)

  /** `Number(s)` for strings spelled as an optionally signed run of decimal digits; the empty
      string is 0 and every other spelling is NaN here. */
  function StringToNumber(s: string): Num
  {
    if s == "" then Finite(0)
    else if AllDigits(s) then Finite(DigitsValue(s))
    else if |s| > 1 && s[0] == '-' && AllDigits(s[1..]) then Finite(-(DigitsValue(s[1..]) as int))
    else if |s| > 1 && s[0] == '+' && AllDigits(s[1..]) then Finite(DigitsValue(s[1..]))
    else NaN
  }

  /** `Number(v)`, as the operand of `*` converts it. Objects and arrays go through their
      string form. */
  function ToNumber(v: Option<Json>): Num
  {
    match v
    case None => NaN
    case Some(JNull) => Finite(0)
    case Some(JBool(b)) => Finite(if b then 1 else 0)
    case Some(JNum(n)) => Finite(n)
    case Some(JStr(s)) => StringToNumber(s)
    case Some(j) => StringToNumber(StringOf(j))
  }

  // ---------------------------------------------------------------------------------------
  // Strings and arrays

  /** `parts.join(sep)`. */
  function Join(parts: seq<string>, sep: char): string
  {
    if |parts| == 0 then ""
    else if |parts| == 1 then parts[0]
    else parts[0] + [sep] + Join(parts[1..], sep)
  }

  /** `s.split(sep)` for a one-character separator: the pieces between separators, never
      an empty list. */
  function Split(s: string, sep: char): (pieces: seq<string>)
    ensures |pieces| >= 1
    ensures forall i :: 0 <= i < |pieces| ==> sep !in pieces[i]
    ensures Join(pieces, sep) == s
    decreases |s|
  {
    if s == [] then [""]
    else
      var rest := Split(s[1..], sep);
      if s[0] == sep then [""] + rest
      else
        var pieces := [[s[0]] + rest[0]] + rest[1..];
        assert pieces[1..] == rest[1..];
        pieces
  }

  lemma {:induction false} SplitWord(w: string, sep: char)
    requires sep !in w
    ensures Split(w, sep) == [w]
  {
    if w != [] {
      SplitWord(w[1..], sep);
    }
  }

  lemma {:induction false} SplitAfterWord(w: string, sep: char, rest: string)
    requires sep !in w
    ensures Split(w + [sep] + rest, sep) == [w] + Split(rest, sep)
  {
    var s := w + [sep] + rest;
    if w == [] {
      assert s[1..] == rest;
    } else {
      assert s[1..] == w[1..] + [sep] + rest;
      SplitAfterWord(w[1..], sep, rest);
      assert [w[0]] + w[1..] == w;
    }
  }

  /** Splitting undoes joining pieces that do not contain the separator. */
  lemma {:induction false} SplitJoin(parts: seq<string>, sep: char)
    requires |parts| >= 1
    requires forall i :: 0 <= i < |parts| ==> sep !in parts[i]
    ensures Split(Join(parts, sep), sep) == parts
  {
    if |parts| == 1 {
      SplitWord(parts[0], sep);
    } else {
      SplitAfterWord(parts[0], sep, Join(parts[1..], sep));
      SplitJoin(parts[1..], sep);
    }
  }

  /** `xs.map(f)`: one result per element, in the same order. */
  function ArrayMap<A, B>(f: A -> B, xs: seq<A>): (r: seq<B>)
    ensures |r| == |xs|
    ensures forall i :: 0 <= i < |xs| ==> r[i] == f(xs[i])
  {
    if xs == [] then [] else [f(xs[0])] + ArrayMap(f, xs[1..])
  }

  lemma {:induction false} ArrayMapAppend<A, B>(f: A -> B, xs: seq<A>, ys: seq<A>)
    ensures ArrayMap(f, xs + ys) == ArrayMap(f, xs) + ArrayMap(f, ys)
  {
    if xs != [] {
      assert (xs + ys)[1..] == xs[1..] + ys;
      ArrayMapAppend(f, xs[1..], ys);
    }
  }

  // ---------------------------------------------------------------------------------------
  // An insertion-ordered Set of strings as a sequence without repetitions

  predicate Distinct<T(==)>(s: seq<T>)
  {
    forall i, j :: 0 <= i < j < |s| ==> s[i] != s[j]
  }

  /** `set.add(x)`: appends `x` unless it is present, in which case nothing moves. */
  function SetAdd(s: seq<string>, x: string): (r: seq<string>)
    ensures x in r
    ensures forall y :: y in r <==> y in s || y == x
    ensures Distinct(s) ==> Distinct(r)
    ensures x in s ==> r == s
    ensures x !in s ==> r == s + [x]
  {
    if x in s then s else s + [x]
  }

  /** `set.delete(x)`: removes `x` and keeps the order of the rest. */
  function SetDelete(s: seq<string>, x: string): (r: seq<string>)
    ensures x !in r
    ensures forall y :: y in r <==> y in s && y != x
    ensures Distinct(s) ==> Distinct(r)
    ensures x !in s ==> r == s
  {
    if s == [] then []
    else if s[0] == x then SetDelete(s[1..], x)
    else
      var r := SetDelete(s[1..], x);
      assert Distinct(s) ==> s[0] !in r;
      [s[0]] + r
  }

  /** Deleting the oldest element of a set leaves the rest in order. */
  lemma DeleteOldest(s: seq<string>)
    requires Distinct(s) && s != []
    ensures SetDelete(s, s[0]) == s[1..]
  {
    assert s[0] !in s[1..];
  }

  // ---------------------------------------------------------------------------------------
  // URLSearchParams as an ordered list of pairs (percent-encoding is not modelled)

  type SearchParams = seq<(string, string)>

  function ParamKeys(p: SearchParams): (ks: seq<string>)
    ensures |ks| == |p| && forall i :: 0 <= i < |p| ==> ks[i] == p[i].0
  {
    ArrayMap((kv: (string, string)) => kv.0, p)
  }

  /** `params.get(key)`: the value of the first pair with that key. */
  function ParamGet(p: SearchParams, key: string): (v: Option<string>)
    ensures v.Some? ==> (key, v.value) in p
    ensures v.None? ==> forall i :: 0 <= i < |p| ==> p[i].0 != key
  {
    if p == [] then None
    else if p[0].0 == key then Some(p[0].1)
    else ParamGet(p[1..], key)
  }

  /** `get` finds the first pair whose key matches. */
  lemma {:induction false} ParamGetFirst(p: SearchParams, i: nat)
    requires i < |p|
    requires forall j :: 0 <= j < i ==> p[j].0 != p[i].0
    ensures ParamGet(p, p[i].0) == Some(p[i].1)
  {
    if i > 0 {
      ParamGetFirst(p[1..], i - 1);
    }
  }
}
