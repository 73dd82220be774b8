/** The user table (`lib/bot/csv_store.rb`): one row per Telegram user with
    the city they subscribed with and the time of their last `start`. The
    CSV file is held as a sequence of rows that the operations rewrite. */
module CsvStore {
  import opened Wrappers
  import opened Text

  /** A CSV row; an empty cell reads as nil. */
  datatype Row = Row(userId: Option<string>, city: Option<string>, lastStart: Option<string>)

  /** `row["user_id"] == user_id.to_s`. */
  predicate IsRowOf(row: Row, id: int) {
    row.userId == Some(IntToString(id))
  }

  /** `find`: the first row of the user. */
  function FindRow(rows: seq<Row>, id: int): (r: Option<nat>)
    ensures r.Some? ==> (r.value < |rows| && IsRowOf(rows[r.value], id)
      && forall i :: 0 <= i < r.value ==> !IsRowOf(rows[i], id))
    ensures r.None? ==> forall i :: 0 <= i < |rows| ==> !IsRowOf(rows[i], id)
    decreases |rows|
  {
    if rows == [] then None
    else if IsRowOf(rows[0], id) then Some(0)
    else
      match FindRow(rows[1..], id)
      case None => None
      case Some(k) => Some(k + 1)
  }

  /** `get_user_city`: the first matching row's city, stripped, "" for nil
      and for an unknown user; a city read is already stripped. */
  function CityOf(rows: seq<Row>, id: int): (r: string)
    ensures FindRow(rows, id).None? ==> r == ""
    ensures Strip(r) == r
  {
    match FindRow(rows, id)
    case None => ""
    case Some(k) =>
      StripIdempotent(rows[k].city.GetOr(""));
      Strip(rows[k].city.GetOr(""))
  }

  /** `subscribed?`: the user has a row, and its city is not blank. */
  predicate IsSubscribed(rows: seq<Row>, id: int): (b: bool)
    ensures b <==> CityOf(rows, id) != ""
    ensures b ==> FindRow(rows, id).Some?
  {
    Strip(CityOf(rows, id)) != ""
  }

  /** `row && row["last_start"]`: the last-start cell of the user's first
      row, nil for an unknown user. */
  function LastStartCell(rows: seq<Row>, id: int): (r: Option<string>)
    ensures FindRow(rows, id).None? ==> r.None?
    ensures FindRow(rows, id).Some? ==> r == rows[FindRow(rows, id).value].lastStart
  {
    match FindRow(rows, id)
    case None => None
    case Some(k) => rows[k].lastStart
  }

  /** `get_user_last_start`: nil for an unknown user or a nil cell, otherwise
      `Time.parse` of the cell, here the parameter `parse`, whose error (an
      ArgumentError on a malformed or empty cell) propagates. */
  function LastStartOf<T>(rows: seq<Row>, id: int, parse: string -> Result<T>): (r: Result<Option<T>>)
    ensures LastStartCell(rows, id).None? ==> r == Ok(None)
    ensures LastStartCell(rows, id).Some? ==>
      var cell := LastStartCell(rows, id).value;
      (r.Ok? <==> parse(cell).Ok?)
      && (r.Ok? ==> r.value == Some(parse(cell).value))
      && (r.Err? ==> r.error == parse(cell).error)
  {
    match LastStartCell(rows, id)
    case None => Ok(None)
    case Some(cell) =>
      match parse(cell)
      case Err(e) => Err(e)
      case Ok(t) => Ok(Some(t))
  }

  /** The table after `update_city`: every row of the user has the new
      city. */
  function WithCity(rows: seq<Row>, id: int, city: string): (r: seq<Row>)
    ensures |r| == |rows|
  {
    seq(|rows|, i requires 0 <= i < |rows| => if IsRowOf(rows[i], id) then rows[i].(city := Some(city)) else rows[i])
  }

  /** The table after `update_last_start`. */
  function WithLastStart(rows: seq<Row>, id: int, now: string): (r: seq<Row>)
    ensures |r| == |rows|
  {
    seq(|rows|, i requires 0 <= i < |rows| => if IsRowOf(rows[i], id) then rows[i].(lastStart := Some(now)) else rows[i])
  }

  predicate Known(rows: seq<Row>, id: int) {
    exists i :: 0 <= i < |rows| && IsRowOf(rows[i], id)
  }

  /** The table after `add_user_if_missing`. */
  function AddedUser(rows: seq<Row>, id: int, now: string): seq<Row> {
    if Known(rows, id) then WithLastStart(rows, id, now) else rows + [Row(Some(IntToString(id)), None, Some(now))]
  }

  /** The in-memory users file. */
  class UserTable {
    var rows: seq<Row>

    constructor (rows0: seq<Row>)
      ensures rows == rows0
    {
      rows := rows0;
    }

    function City(id: int): string
      reads this
    {
      CityOf(rows, id)
    }

    predicate Subscribed(id: int)
      reads this
    {
      IsSubscribed(rows, id)
    }

    function LastStart<T>(id: int, parse: string -> Result<T>): Result<Option<T>>
      reads this
    {
      LastStartOf(rows, id, parse)
    }

    /** `add_user_if_missing`: a known user gets a fresh `last_start`; an
        unknown one gets the row [id, nil, now] at the end. */
    method AddUserIfMissing(id: int, now: string)
      modifies this
      ensures rows == AddedUser(old(rows), id, now)
    {
      if FindRow(rows, id).Some? {
        UpdateLastStart(id, now);
      } else {
        rows := rows + [Row(Some(IntToString(id)), None, Some(now))];
      }
    }

    /** `update_last_start`: the `each` loop over the table. */
    method UpdateLastStart(id: int, now: string)
      modifies this
      ensures rows == WithLastStart(old(rows), id, now)
    {
      ghost var rows0 := rows;
      var i := 0;
      while i < |rows|
        invariant 0 <= i <= |rows| == |rows0|
        invariant forall k :: 0 <= k < i ==> rows[k] == WithLastStart(rows0, id, now)[k]
        invariant forall k :: i <= k < |rows| ==> rows[k] == rows0[k]
      {
        if IsRowOf(rows[i], id) {
          rows := rows[i := rows[i].(lastStart := Some(now))];
        }
        i := i + 1;
      }
    }

    /** `update_city`: the `each` loop over the table. */
    method UpdateCity(id: int, city: string)
      modifies this
      ensures rows == WithCity(old(rows), id, city)
    {
      ghost var rows0 := rows;
      var i := 0;
      while i < |rows|
        invariant 0 <= i <= |rows| == |rows0|
        invariant forall k :: 0 <= k < i ==> rows[k] == WithCity(rows0, id, city)[k]
        invariant forall k :: i <= k < |rows| ==> rows[k] == rows0[k]
      {
        if IsRowOf(rows[i], id) {
          rows := rows[i := rows[i].(city := Some(city))];
        }
        i := i + 1;
      }
    }
  }

  // ---------------------------------------------------------------------------
  // What the updates mean for the readers

  /** Updating the city keeps the row order and which rows belong to whom,
      so the same row is found afterwards. */
  lemma FindRowAfterUpdate(rows: seq<Row>, rows': seq<Row>, id: int)
    requires |rows'| == |rows|
    requires forall i :: 0 <= i < |rows| ==> rows'[i].userId == rows[i].userId
    ensures FindRow(rows', id) == FindRow(rows, id)
  {
    match FindRow(rows, id)
    case None =>
      assert forall i :: 0 <= i < |rows'| ==> !IsRowOf(rows'[i], id);
    case Some(k) =>
      assert IsRowOf(rows'[k], id);
      assert forall i :: 0 <= i < k ==> !IsRowOf(rows'[i], id);
  }

  /** After `update_city` the user reads back the stripped new city, and is
      subscribed exactly when it is not blank; every other user reads what
      they read before; for an unknown user nothing changes. */
  lemma UpdateCitySpec(rows: seq<Row>, id: int, city: string, other: int)
    requires other != id
    ensures Known(rows, id) ==> CityOf(WithCity(rows, id, city), id) == Strip(city)
    ensures Known(rows, id) ==> (IsSubscribed(WithCity(rows, id, city), id) <==> Strip(city) != "")
    ensures CityOf(WithCity(rows, id, city), other) == CityOf(rows, other)
    ensures LastStartCell(WithCity(rows, id, city), other) == LastStartCell(rows, other)
    ensures LastStartCell(WithCity(rows, id, city), id) == LastStartCell(rows, id)
    ensures !Known(rows, id) ==> WithCity(rows, id, city) == rows
  {
    var r := WithCity(rows, id, city);
    FindRowAfterUpdate(rows, r, id);
    FindRowAfterUpdate(rows, r, other);
    if Known(rows, id) {
      StripIdempotent(city);
    }
    if !Known(rows, id) {
      assert forall i :: 0 <= i < |rows| ==> r[i] == rows[i];
    }
    OtherRowUntouched(rows, id, city, other);
  }

  lemma OtherRowUntouched(rows: seq<Row>, id: int, city: string, other: int)
    requires other != id
    ensures FindRow(rows, other).Some? ==> WithCity(rows, id, city)[FindRow(rows, other).value] == rows[FindRow(rows, other).value]
  {
    if FindRow(rows, other).Some? {
      IntToStringDiffers(id, other);
    }
  }

  lemma IntToStringDiffers(a: int, b: int)
    requires a != b
    ensures IntToString(a) != IntToString(b)
  {
    if IntToString(a) == IntToString(b) {
      IntToStringInjective(a, b);
    }
  }

  /** After `add_user_if_missing` the user is known and reads back `now` as
      the last start; a new user has no city and is not subscribed; every
      other user reads what they read before. */
  lemma AddUserSpec(rows: seq<Row>, id: int, now: string, other: int)
    requires other != id
    ensures var r := AddedUser(rows, id, now);
      && Known(r, id)
      && LastStartCell(r, id) == Some(now)
      && CityOf(r, id) == CityOf(rows, id)
      && (!Known(rows, id) ==> CityOf(r, id) == "" && !IsSubscribed(r, id) && |r| == |rows| + 1)
      && CityOf(r, other) == CityOf(rows, other)
      && LastStartCell(r, other) == LastStartCell(rows, other)
  {
    var row := Row(Some(IntToString(id)), None, Some(now));
    IntToStringDiffers(id, other);
    if Known(rows, id) {
      var r := WithLastStart(rows, id, now);
      FindRowAfterUpdate(rows, r, id);
      FindRowAfterUpdate(rows, r, other);
      assert IsRowOf(r[FindRow(rows, id).value], id);
    } else {
      var r := rows + [row];
      FindRowAppend(rows, row, id);
      FindRowAppend(rows, row, other);
      assert IsRowOf(r[|rows|], id);
      assert Strip("") == "";
    }
  }

  /** After `add_user_if_missing(id, now)` the user's last start reads back
      as `Time.parse(now)`, or raises as it does; a city update changes no
      user's last start. */
  lemma LastStartRoundTrip<T>(rows: seq<Row>, id: int, now: string, city: string, other: int, parse: string -> Result<T>)
    requires other != id
    ensures LastStartOf(AddedUser(rows, id, now), id, parse) ==
      match parse(now)
      case Ok(t) => Ok(Some(t))
      case Err(e) => Err(e)
    ensures LastStartOf(AddedUser(rows, id, now), other, parse) == LastStartOf(rows, other, parse)
    ensures LastStartOf(WithCity(rows, id, city), id, parse) == LastStartOf(rows, id, parse)
  {
    AddUserSpec(rows, id, now, other);
    UpdateCitySpec(rows, id, city, other);
  }

  /** Appending a row changes what a user finds only when the user had no
      row before. */
  lemma {:induction false} FindRowAppend(rows: seq<Row>, row: Row, id: int)
    ensures FindRow(rows + [row], id) == if FindRow(rows, id).Some? then FindRow(rows, id) else if IsRowOf(row, id) then Some(|rows|) else None
    decreases |rows|
  {
    if rows != [] {
      assert (rows + [row])[1..] == rows[1..] + [row];
      FindRowAppend(rows[1..], row, id);
    }
  }
}
