/**
  Decoded JSON as the collector sees it after `r.json()`, and the few Python
  operations the collector applies to such values: `v[key]`, `for x in v`,
  `v.keys()` and `float(v)`, each with the exception Python raises when the
  value has the wrong shape.
 */
module Json {
  import opened Wrappers

  /** The exceptions the collector can raise; FetchError stands for any failure of the HTTP call. */
  datatype Exception = FetchError | KeyError | TypeError | AttributeError | ValueError

  type Outcome<T> = Result<T, Exception>

  /**
    A JSON value; an object keeps its members in document order, repeated
    keys included, and `Items` gives the dict it decodes to.
   */
  datatype Value =
    | Null
    | Bool(b: bool)
    | Num(n: real)
    | Str(s: string)
    | Arr(items: seq<Value>)
    | Obj(members: seq<(string, Value)>)

  /** The value of `key` in an object's members; like a decoded dict, the last occurrence wins. */
  function Lookup(members: seq<(string, Value)>, key: string): Option<Value>
  {
    if members == [] then None
    else if members[|members| - 1].0 == key then Some(members[|members| - 1].1)
    else Lookup(members[..|members| - 1], key)
  }

  /** Python's `v[key]` with a string key: KeyError on a dict without the key, TypeError on anything else. */
  function Index(v: Value, key: string): Outcome<Value> {
    match v
    case Obj(members) =>
      (match Lookup(members, key)
       case Some(x) => Ok(x)
       case None => Err(KeyError))
    case _ => Err(TypeError)
  }

  /** The member names of an object, in order. */
  function Names(members: seq<(string, Value)>): (r: seq<string>)
    ensures |r| == |members|
    ensures forall i :: 0 <= i < |members| ==> r[i] == members[i].0
  {
    seq(|members|, i requires 0 <= i < |members| => members[i].0)
  }

  /** `d[key] = v` on a dict's items: an existing key keeps its place and takes the new value, a new key goes last. */
  function Assign(items: seq<(string, Value)>, key: string, v: Value): seq<(string, Value)> {
    if key in Names(items) then
      seq(|items|, i requires 0 <= i < |items| => if items[i].0 == key then (key, v) else items[i])
    else
      items + [(key, v)]
  }

  /**
    The items of the dict a JSON object decodes to: each key once, where it
    first occurs, with the value of its last occurrence.
   */
  function Items(members: seq<(string, Value)>): seq<(string, Value)> {
    if members == [] then []
    else
      var n := |members| - 1;
      Assign(Items(members[..n]), members[n].0, members[n].1)
  }

  /** No key occurs twice. */
  predicate UniqueNames(items: seq<(string, Value)>) {
    forall i, j :: 0 <= i < j < |items| ==> items[i].0 != items[j].0
  }

  /** A key can be looked up exactly when some member has it. */
  lemma {:induction false} LookupFound(members: seq<(string, Value)>, key: string)
    ensures Lookup(members, key).Some? <==> key in Names(members)
  {
    if members != [] {
      var n := |members| - 1;
      LookupFound(members[..n], key);
      assert Names(members) == Names(members[..n]) + [members[n].0];
    }
  }

  /** With unique keys, looking up the key of item i gives item i's value. */
  lemma {:induction false} LookupUnique(items: seq<(string, Value)>, i: nat)
    requires UniqueNames(items) && i < |items|
    ensures Lookup(items, items[i].0) == Some(items[i].1)
  {
    var n := |items| - 1;
    if i < n {
      assert items[..n][i] == items[i];
      LookupUnique(items[..n], i);
    }
  }

  /** Overwriting the value of an existing key changes what that key looks up and nothing else. */
  lemma {:induction false} OverwriteLookup(items: seq<(string, Value)>, key: string, v: Value, k: string)
    requires key in Names(items)
    ensures var r := seq(|items|, i requires 0 <= i < |items| => if items[i].0 == key then (key, v) else items[i]);
            Lookup(r, k) == if k == key then Some(v) else Lookup(items, k)
  {
    var r := seq(|items|, i requires 0 <= i < |items| => if items[i].0 == key then (key, v) else items[i]);
    var n := |items| - 1;
    var init := items[..n];
    var rinit := seq(|init|, i requires 0 <= i < |init| => if init[i].0 == key then (key, v) else init[i]);
    assert r[..n] == rinit;
    if key in Names(init) {
      OverwriteLookup(init, key, v, k);
    } else {
      assert items[n].0 == key;
      if k != key {
        LookupFound(init, key);
        assert rinit == init;
      }
    }
  }

  /** After `d[key] = v`, `d[key]` is v and every other key looks up what it did before. */
  lemma AssignLookup(items: seq<(string, Value)>, key: string, v: Value, k: string)
    ensures Lookup(Assign(items, key, v), k) == if k == key then Some(v) else Lookup(items, k)
  {
    if key in Names(items) {
      OverwriteLookup(items, key, v, k);
    } else {
      assert (items + [(key, v)])[..|items|] == items;
    }
  }

  /** `d[key] = v` keeps the keys distinct. */
  lemma AssignUnique(items: seq<(string, Value)>, key: string, v: Value)
    requires UniqueNames(items)
    ensures UniqueNames(Assign(items, key, v))
  {
    if key !in Names(items) {
      var r := items + [(key, v)];
      forall i, j | 0 <= i < j < |r|
        ensures r[i].0 != r[j].0
      {
        if j == |items| {
          assert Names(items)[i] == items[i].0;
        }
      }
    }
  }

  /**
    The decoded dict holds each key once, and every key looks up the same
    value in it as in the object's members: the last occurrence wins.
   */
  lemma {:induction false} ItemsExact(members: seq<(string, Value)>)
    ensures UniqueNames(Items(members))
    ensures forall k :: Lookup(Items(members), k) == Lookup(members, k)
    ensures forall k :: k in Names(Items(members)) <==> k in Names(members)
  {
    if members != [] {
      var n := |members| - 1;
      ItemsExact(members[..n]);
      AssignUnique(Items(members[..n]), members[n].0, members[n].1);
      forall k
        ensures Lookup(Items(members), k) == Lookup(members, k)
      {
        AssignLookup(Items(members[..n]), members[n].0, members[n].1, k);
      }
    }
    forall k
      ensures k in Names(Items(members)) <==> k in Names(members)
    {
      LookupFound(Items(members), k);
      LookupFound(members, k);
    }
  }

  /** Each item of the decoded dict carries the value its key looks up in the object. */
  lemma ItemsValues(members: seq<(string, Value)>, i: nat)
    requires i < |Items(members)|
    ensures Lookup(members, Items(members)[i].0) == Some(Items(members)[i].1)
  {
    ItemsExact(members);
    LookupUnique(Items(members), i);
  }

  /**
    The items a Python `for` loop visits: the items of a list, the keys of a
    dict, the one-character strings of a string; TypeError for null, booleans
    and numbers.
   */
  function Iterate(v: Value): Outcome<seq<Value>> {
    match v
    case Arr(items) => Ok(items)
    case Obj(members) =>
      var keys := Names(Items(members));
      Ok(seq(|keys|, i requires 0 <= i < |keys| => Str(keys[i])))
    case Str(s) => Ok(seq(|s|, i requires 0 <= i < |s| => Str([s[i]])))
    case _ => Err(TypeError)
  }

  /** Python's `v.keys()`: only a dict has it. */
  function Keys(v: Value): Outcome<seq<string>> {
    match v
    case Obj(members) => Ok(Names(Items(members)))
    case _ => Err(AttributeError)
  }

  /** The operand Python's `sum` accepts: a number, or a boolean counting as 0 or 1. */
  function Number(v: Value): Outcome<real> {
    match v
    case Num(n) => Ok(n)
    case Bool(b) => Ok(if b then 1.0 else 0.0)
    case _ => Err(TypeError)
  }

  predicate IsDigit(c: char) {
    '0' <= c <= '9'
  }

  predicate AllDigits(s: string) {
    forall i :: 0 <= i < |s| ==> IsDigit(s[i])
  }

  /** The value of a string of decimal digits. */
  function DigitsValue(s: string): nat
    requires AllDigits(s)
  {
    if s == [] then 0
    else 10 * DigitsValue(s[..|s| - 1]) + (s[|s| - 1] as int - '0' as int)
  }

  function Pow10(k: nat): (r: nat)
    ensures r > 0
  {
    if k == 0 then 1 else 10 * Pow10(k - 1)
  }

  /** The position of the first '.' in s, or |s| when there is none. */
  function DotAt(s: string): (k: nat)
    ensures k <= |s|
    ensures forall i :: 0 <= i < k ==> s[i] != '.'
    ensures k < |s| ==> s[k] == '.'
  {
    if s == [] then 0
    else if s[0] == '.' then 0
    else 1 + DotAt(s[1..])
  }

  /** An unsigned decimal numeral: digits, optionally a '.' and more digits, at least one digit in all. */
  function ParseUnsigned(s: string): Option<real> {
    var k := DotAt(s);
    var whole := s[..k];
    var fraction := if k < |s| then s[k + 1..] else [];
    if |whole| + |fraction| > 0 && AllDigits(whole) && AllDigits(fraction) then
      Some(DigitsValue(whole) as real + DigitsValue(fraction) as real / Pow10(|fraction|) as real)
    else
      None
  }

  /** A decimal numeral with an optional sign, the strings Kiali sends for rates and times. */
  function ParseDecimal(s: string): Option<real> {
    if |s| > 0 && (s[0] == '-' || s[0] == '+') then
      match ParseUnsigned(s[1..])
      case Some(x) => Some(if s[0] == '-' then -x else x)
      case None => None
    else
      ParseUnsigned(s)
  }

  /** Python's `float(v)`: ValueError for a string that is not a numeral, TypeError for null, lists and dicts. */
  function Float(v: Value): Outcome<real> {
    match v
    case Num(n) => Ok(n)
    case Bool(b) => Ok(if b then 1.0 else 0.0)
    case Str(s) =>
      (match ParseDecimal(s)
       case Some(x) => Ok(x)
       case None => Err(ValueError))
    case _ => Err(TypeError)
  }
}
