/** Values produced by `JSON.parse`, and the few Ruby operations the bot
    applies to them: `[]` with a string key, `dig`, `||` (which skips nil and
    false), `to_s` for string interpolation and `Array#join`. */
module Json {
  import opened Wrappers
  import opened Text

  /** A parsed JSON value. Integers and other numbers are told apart because
      Ruby gives them different `[]` behaviour; a non-integer number keeps
      its printed text. An object keeps its members in document order. */
  datatype Json =
    | JNull
    | JBool(b: bool)
    | JInt(i: int)
    | JFloat(text: string)
    | JStr(s: string)
    | JArr(items: seq<Json>)
    | JObj(members: seq<(string, Json)>)

  /** Ruby truthiness: everything but nil and false. */
  predicate Truthy(j: Json) {
    !(j.JNull? || j == JBool(false))
  }

  /** `a || b`. */
  function OrElse(a: Json, b: Json): (r: Json)
    ensures Truthy(a) ==> r == a
    ensures !Truthy(a) ==> r == b
  {
    if Truthy(a) then a else b
  }

  /** The value of the last member named `key` (`JSON.parse` keeps the last
      of duplicate keys), nil when there is none. */
  function Lookup(members: seq<(string, Json)>, key: string): (r: Json)
    ensures r != JNull ==> exists i :: 0 <= i < |members| && members[i] == (key, r)
    ensures (forall i :: 0 <= i < |members| ==> members[i].0 != key) ==> r == JNull
  {
    if members == [] then JNull
    else
      var last := members[|members| - 1];
      if last.0 == key then last.1
      else
        var r := Lookup(members[..|members| - 1], key);
        assert forall i :: 0 <= i < |members| - 1 ==> members[..|members| - 1][i] == members[i];
        r
  }

  /** When no other member shares its name, a member's name finds its own
      value. */
  lemma {:induction false} LookupDistinct(members: seq<(string, Json)>, i: nat)
    requires i < |members|
    requires forall j :: 0 <= j < |members| && j != i ==> members[j].0 != members[i].0
    ensures Lookup(members, members[i].0) == members[i].1
    decreases |members|
  {
    var n := |members| - 1;
    if i < n {
      var init := members[..n];
      assert forall j :: 0 <= j < n ==> init[j] == members[j];
      LookupDistinct(init, i);
    }
  }

  /** `j[key]` with a string key: a Hash looks the key up; a String answers
      the key itself when it contains it and nil otherwise; an Array or an
      Integer raises TypeError; nil, booleans and floats have no such
      method. The error is the exception's class name. */
  function Get(j: Json, key: string): (r: Result<Json>)
    ensures j.JObj? ==> r == Ok(Lookup(j.members, key))
    ensures r.Err? <==> !(j.JObj? || j.JStr?)
  {
    match j
    case JObj(ms) => Ok(Lookup(ms, key))
    case JStr(s) => Ok(if Includes(s, key) then JStr(key) else JNull)
    case JArr(_) => Err("TypeError")
    case JInt(_) => Err("TypeError")
    case _ => Err("NoMethodError")
  }

  /** `j.dig(k1, k2)`: nil as soon as a step gives nil; a step on a value
      that has no `dig` raises TypeError, and so does an Array step with a
      string key. */
  function Dig2(j: Json, k1: string, k2: string): (r: Result<Json>)
    ensures j.JObj? && Lookup(j.members, k1).JObj? ==> r == Ok(Lookup(Lookup(j.members, k1).members, k2))
    ensures j.JObj? && Lookup(j.members, k1) == JNull ==> r == Ok(JNull)
  {
    match j
    case JObj(ms) =>
      var v := Lookup(ms, k1);
      if v.JNull? then Ok(JNull)
      else if v.JObj? then Ok(Lookup(v.members, k2))
      else Err("TypeError")
    case JArr(_) => Err("TypeError")
    case _ => Err("NoMethodError")
  }

  /** The elements `map` visits: an Array's items, a Hash's `[key, value]`
      pairs; `(x || [])` turns nil and false into no elements; any other
      value has no `map`. */
  function Elements(j: Json): (r: Result<seq<Json>>)
    ensures j.JArr? ==> r == Ok(j.items)
    ensures !Truthy(j) ==> r == Ok([])
    ensures r.Err? <==> Truthy(j) && !j.JArr? && !j.JObj?
  {
    match j
    case JNull => Ok([])
    case JBool(b) => if b then Err("NoMethodError") else Ok([])
    case JArr(xs) => Ok(xs)
    case JObj(ms) => Ok(seq(|ms|, i requires 0 <= i < |ms| => JArr([JStr(ms[i].0), ms[i].1])))
    case _ => Err("NoMethodError")
  }

  /** `to_s`, as string interpolation uses it. */
  function ToS(j: Json): (r: string)
    ensures j.JNull? ==> r == ""
    ensures j.JStr? ==> r == j.s
    ensures j.JArr? ==> |r| >= 2 && r[0] == '[' && r[|r| - 1] == ']'
    ensures j.JObj? ==> |r| >= 2 && r[0] == '{' && r[|r| - 1] == '}'
  {
    match j
    case JNull => ""
    case JStr(s) => s
    case _ => Inspect(j)
  }

  /** `inspect`. Strings inside containers are quoted; escape sequences are
      not produced. A string comes back between quotes, an array between
      brackets and a hash between braces. */
  function Inspect(j: Json): (r: string)
    ensures j.JStr? ==> |r| == |j.s| + 2 && r[0] == '"' && r[|r| - 1] == '"'
    ensures j.JArr? ==> |r| >= 2 && r[0] == '[' && r[|r| - 1] == ']'
    ensures j.JObj? ==> |r| >= 2 && r[0] == '{' && r[|r| - 1] == '}'
    decreases j
  {
    match j
    case JNull => "nil"
    case JBool(b) => if b then "true" else "false"
    case JInt(i) => IntToString(i)
    case JFloat(t) => t
    case JStr(s) => "\"" + s + "\""
    case JArr(xs) => "[" + InspectItems(xs) + "]"
    case JObj(ms) => "{" + InspectMembers(ms) + "}"
  }

  function InspectItems(xs: seq<Json>): string
    decreases xs
  {
    if xs == [] then ""
    else if |xs| == 1 then Inspect(xs[0])
    else Inspect(xs[0]) + ", " + InspectItems(xs[1..])
  }

  function InspectMembers(ms: seq<(string, Json)>): string
    decreases ms
  {
    if ms == [] then ""
    else
      var one := InspectMember(ms[0]);
      if |ms| == 1 then one else one + ", " + InspectMembers(ms[1..])
  }

  function InspectMember(m: (string, Json)): string
    decreases m
  {
    "\"" + m.0 + "\" => " + Inspect(m.1)
  }

  /** `Array#join(sep)`: each element's `to_s`, except that a nested array
      is joined with the same separator. */
  function JoinValues(xs: seq<Json>, sep: string): string
    decreases xs
  {
    if xs == [] then ""
    else
      var first := JoinText(xs[0], sep);
      if |xs| == 1 then first else first + sep + JoinValues(xs[1..], sep)
  }

  function JoinText(x: Json, sep: string): string
    decreases x
  {
    if x.JArr? then JoinValues(x.items, sep) else ToS(x)
  }

  /** For a list of plain strings `JoinValues` is `Array#join` on the
      strings. */
  lemma {:induction false} JoinValuesOfStrings(ss: seq<string>, sep: string)
    ensures JoinValues(JStrs(ss), sep) == Join(ss, sep)
    decreases |ss|
  {
    if |ss| > 1 {
      assert JStrs(ss)[1..] == JStrs(ss[1..]);
      JoinValuesOfStrings(ss[1..], sep);
    }
  }

  /** Strings as JSON strings. */
  function JStrs(ss: seq<string>): (r: seq<Json>)
    ensures |r| == |ss|
    ensures ss != [] ==> r[0] == JStr(ss[0])
  {
    if ss == [] then [] else [JStr(ss[0])] + JStrs(ss[1..])
  }
}
