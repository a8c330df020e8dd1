/**
 * JSON values as the exporter holds them after decoding an API response,
 * Python's insertion-ordered dict as an association list, and the few
 * Python operators the exporter applies to such values (`in`, `[key]`,
 * and the str() conversion done by "{}".format).
 */
module Values {
  import opened Wrappers

  /** A decoded JSON value. Numbers are integers (floats are not modelled). */
  datatype Value =
    | Null
    | Bool(b: bool)
    | Num(n: int)
    | Str(s: string)
    | List(items: seq<Value>)
    | Obj(entries: seq<(string, Value)>)

  /** A Python dict: its entries in insertion order. */
  type Dict = seq<(string, Value)>

  /** The Python exceptions the modelled code can raise. */
  datatype Fault =
    | HttpError(message: string)   // httpx.HTTPError from raise_for_status
    | KeyError(key: string)        // d[key] on a dict without key
    | TypeError                    // operator applied to a value of the wrong type
    | IndexError                   // [0] on an empty list
    | ReprNotModelled              // str() of a list or dict, which this model does not render

  /** The keys of `d`, in insertion order. */
  function Keys(d: Dict): (ks: seq<string>)
    ensures |ks| == |d|
  {
    if d == [] then [] else [d[0].0] + Keys(d[1..])
  }

  /** A genuine Python dict never holds a key twice. */
  predicate Distinct(d: Dict)
  {
    d == [] || (d[0].0 !in Keys(d[1..]) && Distinct(d[1..]))
  }

  /** `d.get(k)`: the value stored under `k`, if any. */
  function Lookup(d: Dict, k: string): (r: Option<Value>)
    ensures r.Some? <==> k in Keys(d)
    ensures r.Some? ==> (k, r.value) in d
  {
    if d == [] then None
    else if d[0].0 == k then Some(d[0].1)
    else Lookup(d[1..], k)
  }

  /**
   * `d[k] = v`: an existing key keeps its position and takes the new value;
   * a new key is appended at the end.
   */
  function Put(d: Dict, k: string, v: Value): (r: Dict)
    ensures Keys(r) == if k in Keys(d) then Keys(d) else Keys(d) + [k]
    ensures Lookup(r, k) == Some(v)
    ensures forall k' :: k' != k ==> Lookup(r, k') == Lookup(d, k')
    ensures Distinct(d) ==> Distinct(r)
  {
    if d == [] then [(k, v)]
    else if d[0].0 == k then [(k, v)] + d[1..]
    else
      var rest := Put(d[1..], k, v);
      assert ([d[0]] + rest)[1..] == rest;
      [d[0]] + rest
  }

  /** `{**d, **e}`: the entries of `e` put into `d` one by one, in order. */
  function Update(d: Dict, e: Dict): (r: Dict)
    decreases |e|
  {
    if e == [] then d else Update(Put(d, e[0].0, e[0].1), e[1..])
  }

  /** The keys of `ks` that are not in `present`, in the order of `ks`. */
  function NewKeys(ks: seq<string>, present: seq<string>): seq<string>
  {
    if ks == [] then []
    else (if ks[0] in present then [] else [ks[0]]) + NewKeys(ks[1..], present)
  }

  /** Keys not yet present keep their order in `NewKeys`; a key absent from `ks` never matters. */
  lemma {:induction false} NewKeysIgnores(ks: seq<string>, present: seq<string>, x: string)
    requires x !in ks
    ensures NewKeys(ks, present + [x]) == NewKeys(ks, present)
  {
    if ks != [] {
      NewKeysIgnores(ks[1..], present, x);
    }
  }

  /** A key is new exactly when it is in `ks` and not already present. */
  lemma {:induction false} NewKeysMember(ks: seq<string>, present: seq<string>, k: string)
    ensures k in NewKeys(ks, present) <==> k in ks && k !in present
  {
    if ks != [] {
      NewKeysMember(ks[1..], present, k);
      assert ks == [ks[0]] + ks[1..];
    }
  }

  /** In `{**d, **e}` the value of a key of `e` comes from `e`; every other key keeps its value in `d`. */
  lemma {:induction false} UpdateLookup(d: Dict, e: Dict, k: string)
    requires Distinct(e)
    ensures Lookup(Update(d, e), k) == if k in Keys(e) then Lookup(e, k) else Lookup(d, k)
    decreases |e|
  {
    if e != [] {
      UpdateLookup(Put(d, e[0].0, e[0].1), e[1..], k);
    }
  }

  /**
   * The keys of `{**d, **e}`: those of `d` in their places, then the keys
   * of `e` that `d` lacked, in the order of `e`.
   */
  lemma {:induction false} UpdateKeys(d: Dict, e: Dict)
    requires Distinct(e)
    ensures Keys(Update(d, e)) == Keys(d) + NewKeys(Keys(e), Keys(d))
    decreases |e|
  {
    if e != [] {
      var d' := Put(d, e[0].0, e[0].1);
      UpdateKeys(d', e[1..]);
      if e[0].0 !in Keys(d) {
        NewKeysIgnores(Keys(e[1..]), Keys(d), e[0].0);
      }
    }
  }

  /** Merging keeps a dict free of duplicate keys. */
  lemma {:induction false} UpdateDistinct(d: Dict, e: Dict)
    requires Distinct(d)
    ensures Distinct(Update(d, e))
    decreases |e|
  {
    if e != [] {
      UpdateDistinct(Put(d, e[0].0, e[0].1), e[1..]);
    }
  }

  /** Python's `"url" in x` for the operand kinds JSON can produce. */
  function Contains(needle: string, x: Value): (r: Result<bool, Fault>)
    ensures x.Obj? ==> r == Ok(needle in Keys(x.entries))
    ensures x.List? ==> r == Ok(Str(needle) in x.items)
    ensures x.Str? ==> r == Ok(IsSubstring(needle, x.s))
    ensures (x.Null? || x.Bool? || x.Num?) ==> r == Err(TypeError)
  {
    match x
    case Obj(entries) => Ok(needle in Keys(entries))
    case Str(s) => Ok(IsSubstring(needle, s))
    case List(items) => Ok(Str(needle) in items)
    case _ => Err(TypeError)
  }

  /** Whether `needle` occurs as a contiguous part of `s`. */
  predicate IsSubstring(needle: string, s: string)
  {
    exists i :: 0 <= i <= |s| && needle <= s[i..]
  }

  /** A string contains every string written inside it, and no string longer than itself. */
  lemma SubstringInside(needle: string, before: string, after: string, s: string)
    ensures IsSubstring(needle, before + needle + after)
    ensures |s| < |needle| ==> !IsSubstring(needle, s)
  {
    var t := before + needle + after;
    assert needle <= t[|before|..] by {
      assert t[|before|..][..|needle|] == needle;
    }
  }

  /** Python's `x[key]` with a string key. */
  function Subscript(x: Value, key: string): (r: Result<Value, Fault>)
    ensures r.Ok? <==> x.Obj? && key in Keys(x.entries)
    ensures r.Ok? ==> Lookup(x.entries, key) == Some(r.value)
    ensures x.Obj? && key !in Keys(x.entries) ==> r == Err(KeyError(key))
    ensures !x.Obj? ==> r == Err(TypeError)
  {
    match x
    case Obj(entries) =>
      (match Lookup(entries, key)
       case Some(v) => Ok(v)
       case None => Err(KeyError(key)))
    case _ => Err(TypeError)
  }

  /** The number a string of decimal digits denotes, most significant digit first. */
  function DecimalValue(s: string): int
  {
    if s == [] then 0 else DecimalValue(s[..|s| - 1]) * 10 + (s[|s| - 1] as int - '0' as int)
  }

  /**
   * The decimal digits of a natural number, as str() writes them: digits
   * only, no leading zero, and reading them back gives the number.
   */
  function NatToDecimal(n: nat): (r: string)
    ensures |r| > 0
    ensures forall i :: 0 <= i < |r| ==> '0' <= r[i] <= '9'
    ensures DecimalValue(r) == n
    ensures r[0] == '0' <==> n == 0
    ensures n == 0 ==> r == "0"
    decreases n
  {
    var digit := ['0' + (n % 10) as char];
    if n < 10 then digit
    else
      var prefix := NatToDecimal(n / 10);
      assert (prefix + digit)[..|prefix|] == prefix;
      prefix + digit
  }

  /** Python's str(x), as "{}".format(x) applies it; lists and dicts are not rendered. */
  function Display(x: Value): (r: Result<string, Fault>)
    ensures x.Str? ==> r == Ok(x.s)
    ensures x.Num? && x.n >= 0 ==> r == Ok(NatToDecimal(x.n))
    ensures x.Num? && x.n < 0 ==> r.Ok? && |r.value| >= 2 && r.value[0] == '-' && r.value[1..] == NatToDecimal(-x.n)
    ensures x.Bool? ==> r == Ok(if x.b then "True" else "False")
    ensures x.Null? ==> r == Ok("None")
    ensures r.Err? <==> x.List? || x.Obj?
  {
    match x
    case Str(s) => Ok(s)
    case Num(n) => Ok(if n < 0 then "-" + NatToDecimal(-n) else NatToDecimal(n))
    case Bool(b) => Ok(if b then "True" else "False")
    case Null => Ok("None")
    case _ => Err(ReprNotModelled)
  }
}
