/** `format_recs` (`lib/bot/rec.rb`): the recommender's answer rendered as a
    numbered list, whatever shape the answer has. */
module Rec {
  import opened Wrappers
  import opened Text
  import opened Json
  import opened Seqs

  const DefaultLimit: nat := 5
  const PrettyCut: nat := 1500
  const NoItemsText: string := "No items returned."

  /** The items of an answer that is not a string: the array itself, else
      the object's "items" array, else its "recommendations" array; None for
      any other shape. */
  function ItemsOf(result: Json): (r: Option<seq<Json>>)
    ensures result.JArr? ==> r == Some(result.items)
    ensures result.JObj? && Lookup(result.members, "items").JArr? ==> r == Some(Lookup(result.members, "items").items)
    ensures result.JObj? && !Lookup(result.members, "items").JArr? && Lookup(result.members, "recommendations").JArr?
            ==> r == Some(Lookup(result.members, "recommendations").items)
    ensures r.None? <==> !result.JArr? && !(result.JObj? && (Lookup(result.members, "items").JArr? || Lookup(result.members, "recommendations").JArr?))
  {
    if result.JArr? then Some(result.items)
    else if result.JObj? && Lookup(result.members, "items").JArr? then Some(Lookup(result.members, "items").items)
    else if result.JObj? && Lookup(result.members, "recommendations").JArr? then Some(Lookup(result.members, "recommendations").items)
    else None
  }

  /** The unknown-shape answer around the first 1500 characters of
      `JSON.pretty_generate(result)`, which is given as `pretty`. */
  function UnknownShape(pretty: string): (r: string)
    ensures exists cut :: cut == pretty[..Min(PrettyCut, |pretty|)] && r == "Unknown response shape:\n```json\n" + cut + "\n```"
  {
    "Unknown response shape:\n```json\n" + Take(pretty, PrettyCut) + "\n```"
  }

  /** `it[k1] || it[k2] || it[k3] || "?"`: each lookup runs only when the
      ones before it gave nil or false. */
  function Fallback(it: Json, k1: string, k2: string, k3: string): Result<Json> {
    match Get(it, k1)
    case Err(e) => Err(e)
    case Ok(v1) =>
      if Truthy(v1) then Ok(v1)
      else
        match Get(it, k2)
        case Err(e) => Err(e)
        case Ok(v2) =>
          if Truthy(v2) then Ok(v2)
          else
            match Get(it, k3)
            case Err(e) => Err(e)
            case Ok(v3) => Ok(OrElse(v3, JStr("?")))
  }

  /** The first value among `keys` that is neither nil nor false, "?" when
      there is none. */
  function FirstTruthy(it: Json, keys: seq<string>): Result<Json>
    decreases |keys|
  {
    if keys == [] then Ok(JStr("?"))
    else
      match Get(it, keys[0])
      case Err(e) => Err(e)
      case Ok(v) => if Truthy(v) then Ok(v) else FirstTruthy(it, keys[1..])
  }

  /** The chained `||` is the first truthy value of the three keys: only nil
      and false are skipped, so 0 and "" are kept. */
  lemma FallbackIsFirstTruthy(it: Json, k1: string, k2: string, k3: string)
    ensures Fallback(it, k1, k2, k3) == FirstTruthy(it, [k1, k2, k3])
  {
    assert [k1, k2, k3][1..] == [k2, k3] && [k2, k3][1..] == [k3] && [k3][1..] == [];
    assert FirstTruthy(it, []) == Ok(JStr("?"));
    assert FirstTruthy(it, [k3]) == match Get(it, k3) case Err(e) => Err(e) case Ok(v) => Ok(OrElse(v, JStr("?")));
  }

  lemma ZeroIsKept(id: int)
    ensures Fallback(JObj([("code", JInt(0)), ("id", JInt(id))]), "code", "product_code", "id") == Ok(JInt(0))
  {
    var ms := [("code", JInt(0)), ("id", JInt(id))];
    assert ms[..1] == [("code", JInt(0))];
    assert |"id"| != |"code"|;
    assert Lookup(ms, "code") == Lookup(ms[..1], "code") == JInt(0);
  }

  /** The position of the first key whose value in `ms` is neither nil nor
      false, `|keys|` when there is none. */
  function FirstTruthyKey(ms: seq<(string, Json)>, keys: seq<string>): (j: nat)
    ensures j <= |keys|
    ensures j < |keys| ==> Truthy(Lookup(ms, keys[j]))
    ensures forall i :: 0 <= i < j ==> !Truthy(Lookup(ms, keys[i]))
    decreases |keys|
  {
    if keys == [] || Truthy(Lookup(ms, keys[0])) then 0
    else
      var j := 1 + FirstTruthyKey(ms, keys[1..]);
      assert forall i :: 1 <= i < j ==> keys[i] == keys[1..][i - 1];
      j
  }

  /** On an object the fallback never fails: it is the value of the first
      key whose value is neither nil nor false, and "?" when there is none. */
  lemma {:induction false} FirstTruthyOfObject(ms: seq<(string, Json)>, keys: seq<string>)
    ensures FirstTruthy(JObj(ms), keys)
         == Ok(if FirstTruthyKey(ms, keys) < |keys| then Lookup(ms, keys[FirstTruthyKey(ms, keys)]) else JStr("?"))
    decreases |keys|
  {
    if keys != [] && !Truthy(Lookup(ms, keys[0])) {
      FirstTruthyOfObject(ms, keys[1..]);
      var j := FirstTruthyKey(ms, keys[1..]);
      if j < |keys| - 1 {
        assert keys[1..][j] == keys[j + 1];
      }
    }
  }

  /** `"#{i}. #{name} (#{code})"`. */
  function ItemLine(it: Json, i: int): Result<string> {
    match Fallback(it, "code", "product_code", "id")
    case Err(e) => Err(e)
    case Ok(code) =>
      match Fallback(it, "name", "title", "product_name")
      case Err(e) => Err(e)
      case Ok(name) => Ok(IntToString(i) + ". " + ToS(name) + " (" + ToS(code) + ")")
  }

  /** `map.with_index(from)`: one line per item, numbered from `from`, or
      the first exception an item raises. */
  function ItemLines(items: seq<Json>, from: nat): Result<seq<string>> {
    MapWithIndex(items, from, NumberedItemLine)
  }

  function NumberedItemLine(i: nat, it: Json): Result<string> {
    ItemLine(it, i)
  }

  /** Without an exception there is one line per item, the `k`-th numbered
      `from + k`. */
  lemma ItemLinesOk(items: seq<Json>, from: nat)
    requires ItemLines(items, from).Ok?
    ensures |ItemLines(items, from).value| == |items|
    ensures forall k :: 0 <= k < |items| ==> ItemLine(items[k], from + k) == Ok(ItemLines(items, from).value[k])
  {
    MapWithIndexSpec(items, from, NumberedItemLine);
    var r := ItemLines(items, from).value;
    forall k | 0 <= k < |items|
      ensures ItemLine(items[k], from + k) == Ok(r[k])
    {
      assert NumberedItemLine(from + k, items[k]).Ok?;
    }
  }

  /** `format_recs(result, limit:)`; `pretty` is `JSON.pretty_generate(result)`.
      An exception raised while reading an item is the error. A string
      answer comes back unchanged; an unknown shape gives the shape message;
      otherwise it fails exactly when reading one of the first `limit`
      items raises, and the reply is "No items returned." exactly when no
      item is listed, and at most `limit` lines numbered from 1. */
  function FormatRecs(result: Json, limit: nat, pretty: string): (r: Result<string>)
    ensures result.JStr? ==> r == Ok(result.s)
    ensures !result.JStr? && ItemsOf(result).None? ==> r == Ok(UnknownShape(pretty))
    ensures !result.JStr? && ItemsOf(result).Some? ==>
      (r.Ok? <==> ItemLines(Take(ItemsOf(result).value, limit), 1).Ok?)
    ensures !result.JStr? && ItemsOf(result).Some? && ItemLines(Take(ItemsOf(result).value, limit), 1).Ok? ==>
      var items := ItemsOf(result).value;
      var lines := ItemLines(Take(items, limit), 1).value;
      && |lines| == Min(limit, |items|)
      && (r.value == NoItemsText <==> |lines| == 0)
      && (|lines| > 0 ==> r.value == Join(lines, "\n"))
      && forall k :: 0 <= k < |lines| ==> PrefixOf(IntToString(k + 1) + ". ", lines[k])
  {
    if result.JStr? then Ok(result.s)
    else
      match ItemsOf(result)
      case None => Ok(UnknownShape(pretty))
      case Some(items) =>
        ItemLinesNumbered(Take(items, limit));
        match ItemLines(Take(items, limit), 1)
        case Err(e) => Err(e)
        case Ok(lines) => Ok(if lines == [] then NoItemsText else Join(lines, "\n"))
  }

  /** Item lines that all succeed are one per item, numbered from 1, and
      their text is not the empty-list reply. */
  lemma ItemLinesNumbered(items: seq<Json>)
    ensures ItemLines(items, 1).Ok? ==>
      var lines := ItemLines(items, 1).value;
      && |lines| == |items|
      && (forall k :: 0 <= k < |lines| ==> PrefixOf(IntToString(k + 1) + ". ", lines[k]))
      && (|lines| > 0 ==> Join(lines, "\n") != NoItemsText)
  {
    if ItemLines(items, 1).Ok? {
      ItemLinesOk(items, 1);
      var lines := ItemLines(items, 1).value;
      forall k | 0 <= k < |lines|
        ensures PrefixOf(IntToString(k + 1) + ". ", lines[k])
      {
        LineNumbered(items[k], k + 1, lines[k]);
      }
      if |lines| > 0 {
        LineNumbered(items[0], 1, lines[0]);
        JoinStartsWith(lines);
        assert NoItemsText[0] == 'N';
      }
    }
  }

  lemma LineNumbered(it: Json, i: int, line: string)
    requires ItemLine(it, i) == Ok(line)
    ensures PrefixOf(IntToString(i) + ". ", line)
  {
    var p := IntToString(i) + ". ";
    assert line == p + line[|p|..];
  }

  lemma JoinStartsWith(lines: seq<string>)
    requires |lines| > 0 && |lines[0]| > 0
    ensures |Join(lines, "\n")| > 0 && Join(lines, "\n")[0] == lines[0][0]
  {
  }
}
