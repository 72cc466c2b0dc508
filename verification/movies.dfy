/**
 * The data-access layer (lib/movies.ts) over an in-memory model of the two tables.
 * Each query may fail: the `fault` parameter is the database's answer for that one
 * query (`Some(message)`: `executeQuery` throws an Error with that message and nothing
 * changes). Rows are kept in insertion order, which stands for `created_at` order.
 */
module Movies {
  import opened Wrappers
  import opened JsText

  /** A column value as it is bound to a query parameter. */
  datatype Value = Str(s: string) | Int(i: int) | NaN | Null

  type Column = string

  /** A stored row: its id and its other columns. */
  datatype Row = Row(id: nat, cols: map<Column, Value>)

  /** The movie columns `createMovie` inserts, in parameter order. */
  const MovieColumns: seq<Column> :=
    ["title", "description", "release_year", "genre", "director", "poster_url", "movie_file_url"]

  /** The trailer columns `createTrailer` inserts, in parameter order. */
  const TrailerColumns: seq<Column> := ["movie_id", "title", "video_url", "thumbnail_url"]

  /** The argument of `createMovie`. */
  datatype MovieInput = MovieInput(
    title: Value, description: Value, releaseYear: Value, genre: Value,
    director: Value, posterUrl: Value, movieFileUrl: Value)

  /** The argument of `createTrailer`. */
  datatype TrailerInput = TrailerInput(movieId: Value, title: Value, videoUrl: Value, thumbnailUrl: Value)

  /** The parameters `createMovie` binds to $1..$7. */
  function CreateMovieParams(d: MovieInput): (params: seq<Value>)
    ensures |params| == |MovieColumns|
  {
    [d.title, d.description, d.releaseYear, d.genre, d.director, d.posterUrl, d.movieFileUrl]
  }

  /** The parameters `createTrailer` binds to $1..$4. */
  function CreateTrailerParams(d: TrailerInput): (params: seq<Value>)
    ensures |params| == |TrailerColumns|
  {
    [d.movieId, d.title, d.videoUrl, d.thumbnailUrl]
  }

  /** The row `createMovie` stores. */
  function MovieRow(d: MovieInput): map<Column, Value> {
    map[
      "title" := d.title, "description" := d.description, "release_year" := d.releaseYear,
      "genre" := d.genre, "director" := d.director, "poster_url" := d.posterUrl,
      "movie_file_url" := d.movieFileUrl]
  }

  /** The row `createTrailer` stores. */
  function TrailerRow(d: TrailerInput): map<Column, Value> {
    map["movie_id" := d.movieId, "title" := d.title, "video_url" := d.videoUrl, "thumbnail_url" := d.thumbnailUrl]
  }

  /** The INSERT binds column i of the column list to parameter $(i+1), and stores no other column. */
  lemma InsertBindsColumnsInOrder(d: MovieInput, t: TrailerInput)
    ensures MovieRow(d).Keys == set c | c in MovieColumns
    ensures forall i :: 0 <= i < |MovieColumns| ==> MovieRow(d)[MovieColumns[i]] == CreateMovieParams(d)[i]
    ensures TrailerRow(t).Keys == set c | c in TrailerColumns
    ensures forall i :: 0 <= i < |TrailerColumns| ==> TrailerRow(t)[TrailerColumns[i]] == CreateTrailerParams(t)[i]
  {
  }

  // ---------------------------------------------------------------------------
  // The UPDATE statement `updateMovie` builds

  datatype Statement = Statement(sql: string, params: seq<Value>)

  function SetItem(key: Column, n: nat): string {
    key + " = $" + NatToString(n)
  }

  /** `field = $i` for each key, numbered from `first`. */
  function SetItems(keys: seq<Column>, first: nat): (items: seq<string>)
    ensures |items| == |keys|
    ensures forall i :: 0 <= i < |keys| ==> items[i] == SetItem(keys[i], first + i)
  {
    seq(|keys|, i requires 0 <= i < |keys| => SetItem(keys[i], first + i))
  }

  function SetClause(keys: seq<Column>): string {
    Join(SetItems(keys, 1), ", ")
  }

  function Keys(fields: seq<(Column, Value)>): (ks: seq<Column>)
    ensures |ks| == |fields| && forall i :: 0 <= i < |fields| ==> ks[i] == fields[i].0
  {
    seq(|fields|, i requires 0 <= i < |fields| => fields[i].0)
  }

  function Values(fields: seq<(Column, Value)>): (vs: seq<Value>)
    ensures |vs| == |fields| && forall i :: 0 <= i < |fields| ==> vs[i] == fields[i].1
  {
    seq(|fields|, i requires 0 <= i < |fields| => fields[i].1)
  }

  /** The statement `updateMovie(id, fields)` sends: it opens with the SET clause of the
      keys (which `SetClauseRoundTrip` reads back as key i paired with $i), binds the field
      values to $1..$n in key order and the id to $(n+1), which the WHERE clause names. */
  function UpdateStatement(id: nat, fields: seq<(Column, Value)>): (st: Statement)
    requires |fields| > 0
    ensures StartsWith(st.sql, "UPDATE movies SET " + SetClause(Keys(fields)) + ", ")
    ensures |st.params| == |fields| + 1
    ensures st.params[..|fields|] == Values(fields) && st.params[|fields|] == Int(id)
    ensures EndsWith(st.sql, "WHERE id = $" + NatToString(|fields| + 1) + " RETURNING *")
  {
    var head := "UPDATE movies SET " + SetClause(Keys(fields)) + ", ";
    var tail := "WHERE id = $" + NatToString(|fields| + 1) + " RETURNING *";
    var sql := head + "updated_at = CURRENT_TIMESTAMP " + tail;
    assert sql[..|head|] == head;
    assert sql[|sql| - |tail|..] == tail;
    Statement(sql, Values(fields) + [Int(id)])
  }

  // Reading a SET clause back.

  /** `s.split(",")`. */
  function SplitOnComma(s: string): (parts: seq<string>)
    ensures |parts| >= 1 && parts[0] <= s
    decreases |s|
  {
    if ',' !in s then [s]
    else
      var i := IndexOfChar(s, ',');
      [s[..i]] + SplitOnComma(s[i + 1..])
  }

  /** Reads `key = $n` back into the key and the placeholder number. */
  function ParseSetItem(item: string): Option<(Column, nat)> {
    match IndexOfFrom(item, " = $", 0)
    case None => None
    case Some(i) =>
      var digits := item[i + 4..];
      if digits != "" && AllDigits(digits) then Some((item[..i], DigitsValue(digits))) else None
  }

  /** Reads a SET clause back into (key, placeholder) pairs. */
  function ParseSetClause(clause: string): seq<Option<(Column, nat)>> {
    var parts := SplitOnComma(clause);
    seq(|parts|, i requires 0 <= i < |parts| =>
      ParseSetItem(if i > 0 && |parts[i]| > 0 && parts[i][0] == ' ' then parts[i][1..] else parts[i]))
  }

  /** A column name: non-empty, lower-case letters and underscores. */
  predicate IsIdentifier(k: Column) {
    |k| > 0 && forall i :: 0 <= i < |k| ==> ('a' <= k[i] <= 'z' || k[i] == '_')
  }

  lemma MovieColumnsAreIdentifiers()
    ensures forall i :: 0 <= i < |MovieColumns| ==> IsIdentifier(MovieColumns[i])
  {
  }

  lemma SetItemHasNoComma(k: Column, n: nat)
    requires IsIdentifier(k)
    ensures ',' !in SetItem(k, n)
  {
    var d := NatToString(n);
    assert SetItem(k, n) == k + " = $" + d;
    forall j | 0 <= j < |SetItem(k, n)| ensures SetItem(k, n)[j] != ',' {
      if j >= |k| + 4 {
        assert SetItem(k, n)[j] == d[j - |k| - 4];
      }
    }
  }

  lemma {:induction false} ParseSetItemRoundTrip(k: Column, n: nat)
    requires IsIdentifier(k)
    ensures ParseSetItem(SetItem(k, n)) == Some((k, n))
  {
    var item := SetItem(k, n);
    assert OccursAt(item, " = $", |k|);
    forall j | 0 <= j < |k| ensures !OccursAt(item, " = $", j) {
      assert item[j] == k[j];
    }
    var r := IndexOfFrom(item, " = $", 0);
    assert r == Some(|k|);
    assert item[|k| + 4..] == NatToString(n);
    assert item[..|k|] == k;
  }

  lemma SplitAtComma(a: string, b: string)
    requires ',' !in a
    ensures SplitOnComma(a + "," + b) == [a] + SplitOnComma(b)
  {
    var s := a + "," + b;
    assert s[|a|] == ',';
    assert s[..|a|] == a;
    assert IndexOfChar(s, ',') == |a|;
    assert s[|a| + 1..] == b;
  }

  /** Splitting `p + Join(items, ", ")` on commas gives back the items, each after the
      first one with the blank the separator leaves in front of it. */
  lemma {:induction false} SplitJoin(p: string, items: seq<string>)
    requires |items| >= 1 && ',' !in p
    requires forall i :: 0 <= i < |items| ==> ',' !in items[i]
    ensures var parts := SplitOnComma(p + Join(items, ", "));
      && |parts| == |items| && parts[0] == p + items[0]
      && forall i :: 1 <= i < |items| ==> parts[i] == " " + items[i]
    decreases |items|
  {
    var s := p + Join(items, ", ");
    if |items| == 1 {
      assert s == p + items[0];
      assert ',' !in s;
    } else {
      var head := p + items[0];
      var rest := Join(items[1..], ", ");
      assert s == head + "," + (" " + rest);
      assert ',' !in head;
      SplitAtComma(head, " " + rest);
      assert " " + rest == " " + Join(items[1..], ", ");
      SplitJoin(" ", items[1..]);
      ShiftedPieces(head, SplitOnComma(" " + rest), items);
    }
  }

  /** The pieces after the first comma, numbered from the second item on. */
  lemma ShiftedPieces(head: string, tail: seq<string>, items: seq<string>)
    requires |items| >= 2 && |tail| == |items| - 1
    requires tail[0] == " " + items[1..][0]
    requires forall i :: 1 <= i < |items[1..]| ==> tail[i] == " " + items[1..][i]
    ensures forall i :: 1 <= i < |items| ==> ([head] + tail)[i] == " " + items[i]
  {
    forall i | 1 <= i < |items| ensures ([head] + tail)[i] == " " + items[i] {
      assert ([head] + tail)[i] == tail[i - 1];
      assert items[1..][i - 1] == items[i];
    }
  }

  /** The SET clause reads back as the keys in order, numbered $1..$n: each of these
      placeholders occurs once, and $(n+1) is left for the id. */
  lemma SetClauseRoundTrip(keys: seq<Column>)
    requires |keys| > 0
    requires forall i :: 0 <= i < |keys| ==> IsIdentifier(keys[i])
    ensures var parsed := ParseSetClause(SetClause(keys));
      |parsed| == |keys| && forall i :: 0 <= i < |keys| ==> parsed[i] == Some((keys[i], i + 1))
  {
    var items := SetItems(keys, 1);
    forall i | 0 <= i < |items| ensures ',' !in items[i] {
      SetItemHasNoComma(keys[i], i + 1);
    }
    assert "" + Join(items, ", ") == SetClause(keys);
    SplitJoin("", items);
    var parsed := ParseSetClause(SetClause(keys));
    forall i | 0 <= i < |keys| ensures parsed[i] == Some((keys[i], i + 1)) {
      ParsedPart(keys, items, i);
    }
  }

  lemma ParsedPart(keys: seq<Column>, items: seq<string>, i: nat)
    requires 0 <= i < |keys| && items == SetItems(keys, 1)
    requires IsIdentifier(keys[i])
    requires var parts := SplitOnComma(SetClause(keys));
      && |parts| == |items| && parts[0] == "" + items[0]
      && forall j :: 1 <= j < |items| ==> parts[j] == " " + items[j]
    ensures |ParseSetClause(SetClause(keys))| == |keys|
    ensures ParseSetClause(SetClause(keys))[i] == Some((keys[i], i + 1))
  {
    var parts := SplitOnComma(SetClause(keys));
    ParseSetItemRoundTrip(keys[i], i + 1);
    if i > 0 {
      assert parts[i] == " " + items[i];
      assert parts[i][1..] == items[i];
    } else {
      assert parts[0] == items[0];
    }
  }

  // ---------------------------------------------------------------------------
  // Helpers over rows

  function FindById(rows: seq<Row>, id: nat): (r: Option<Row>)
    ensures r.Some? ==> r.value in rows && r.value.id == id
    ensures r.None? ==> forall i :: 0 <= i < |rows| ==> rows[i].id != id
  {
    if |rows| == 0 then None
    else if rows[0].id == id then Some(rows[0])
    else FindById(rows[1..], id)
  }

  function WithoutId(rows: seq<Row>, id: nat): (r: seq<Row>)
    ensures forall x :: x in r <==> x in rows && x.id != id
    ensures |r| <= |rows|
  {
    if |rows| == 0 then []
    else (if rows[0].id == id then [] else [rows[0]]) + WithoutId(rows[1..], id)
  }

  /** Applies the assignments of an UPDATE to the row with the given id. */
  function UpdatedRows(rows: seq<Row>, id: nat, fields: seq<(Column, Value)>): (r: seq<Row>)
    ensures |r| == |rows|
    ensures forall i :: 0 <= i < |rows| ==> r[i].id == rows[i].id
    ensures forall i :: 0 <= i < |rows| && rows[i].id != id ==> r[i] == rows[i]
    ensures forall i :: 0 <= i < |rows| && rows[i].id == id ==> r[i].cols == Assign(rows[i].cols, fields)
  {
    seq(|rows|, i requires 0 <= i < |rows| =>
      if rows[i].id == id then Row(id, Assign(rows[i].cols, fields)) else rows[i])
  }

  /** `SET k1 = v1, k2 = v2, ...` applied to a row's columns: an assigned column takes the
      value of its last assignment, every other column keeps its value. */
  function Assign(cols: map<Column, Value>, fields: seq<(Column, Value)>): (r: map<Column, Value>)
    ensures forall c :: c in r <==> c in cols || c in Keys(fields)
    ensures forall c :: c in cols && c !in Keys(fields) ==> r[c] == cols[c]
    decreases |fields|
  {
    if |fields| == 0 then cols
    else
      var rest := fields[1..];
      assert Keys(fields) == [fields[0].0] + Keys(rest);
      Assign(cols[fields[0].0 := fields[0].1], rest)
  }

  /** The last assignment to a column is the value it ends up with. */
  lemma {:induction false} AssignLastWins(cols: map<Column, Value>, fields: seq<(Column, Value)>, i: nat)
    requires i < |fields| && fields[i].0 !in Keys(fields[i + 1..])
    ensures fields[i].0 in Assign(cols, fields) && Assign(cols, fields)[fields[i].0] == fields[i].1
    decreases |fields|
  {
    var rest := fields[1..];
    var cols' := cols[fields[0].0 := fields[0].1];
    assert Assign(cols, fields) == Assign(cols', rest);
    if i > 0 {
      assert fields[i] == rest[i - 1];
      assert fields[i + 1..] == rest[i..];
      AssignLastWins(cols', rest, i - 1);
    }
  }

  function Reverse<T>(s: seq<T>): (r: seq<T>)
    ensures |r| == |s| && forall i :: 0 <= i < |s| ==> r[i] == s[|s| - 1 - i]
  {
    if |s| == 0 then [] else Reverse(s[1..]) + [s[0]]
  }

  function TrailersOf(rows: seq<Row>, movieId: int): (r: seq<Row>)
    ensures forall x :: x in r <==> x in rows && "movie_id" in x.cols && x.cols["movie_id"] == Int(movieId)
    ensures |r| <= |rows|
  {
    if |rows| == 0 then []
    else
      (if "movie_id" in rows[0].cols && rows[0].cols["movie_id"] == Int(movieId) then [rows[0]] else [])
      + TrailersOf(rows[1..], movieId)
  }

  predicate IdsIncreasing(rows: seq<Row>) {
    forall i, j :: 0 <= i < j < |rows| ==> rows[i].id < rows[j].id
  }

  predicate IdsBelow(rows: seq<Row>, bound: nat) {
    forall i :: 0 <= i < |rows| ==> rows[i].id < bound
  }

  /** Filtering by movie keeps the rows in insertion order. */
  lemma {:induction false} TrailersOfKeepsOrder(rows: seq<Row>, movieId: int)
    requires IdsIncreasing(rows)
    ensures IdsIncreasing(TrailersOf(rows, movieId))
    decreases |rows|
  {
    if |rows| > 0 {
      TrailersOfKeepsOrder(rows[1..], movieId);
      var rest := TrailersOf(rows[1..], movieId);
      forall x | x in rest ensures rows[0].id < x.id {
        assert x in rows[1..];
      }
    }
  }

  /** Newest first: ids strictly decrease along the list. */
  predicate IdsDecreasing(rows: seq<Row>) {
    forall i, j :: 0 <= i < j < |rows| ==> rows[i].id > rows[j].id
  }

  lemma ReverseOfIncreasing(rows: seq<Row>)
    requires IdsIncreasing(rows)
    ensures IdsDecreasing(Reverse(rows))
  {
  }

  lemma {:induction false} WithoutIdKeepsOrder(rows: seq<Row>, id: nat)
    requires IdsIncreasing(rows)
    ensures IdsIncreasing(WithoutId(rows, id))
    decreases |rows|
  {
    if |rows| > 0 {
      WithoutIdKeepsOrder(rows[1..], id);
      var rest := WithoutId(rows[1..], id);
      forall x | x in rest ensures rows[0].id < x.id {
        assert x in rows[1..];
      }
    }
  }

  // ---------------------------------------------------------------------------
  // The tables

  class Store {
    var movies: seq<Row>
    var trailers: seq<Row>
    var nextMovieId: nat
    var nextTrailerId: nat

    /** Ids are unique and follow insertion order, as a serial key gives them. */
    ghost predicate Valid()
      reads this
    {
      && IdsIncreasing(movies) && IdsBelow(movies, nextMovieId)
      && IdsIncreasing(trailers) && IdsBelow(trailers, nextTrailerId)
    }

    constructor ()
      ensures Valid() && movies == [] && trailers == []
    {
      movies, trailers := [], [];
      nextMovieId, nextTrailerId := 1, 1;
    }

    /** `getAllMovies`: newest first; a failed query yields the empty list. */
    method GetAllMovies(fault: Option<string>) returns (rows: seq<Row>)
      requires Valid()
      ensures fault.Some? ==> rows == []
      ensures fault.None? ==> rows == Reverse(movies)
      ensures IdsDecreasing(rows)
    {
      if fault.Some? {
        return [];
      }
      ReverseOfIncreasing(movies);
      rows := Reverse(movies);
    }

    /** `getMovieById`: the row with that id, or null when there is none or the query fails. */
    method GetMovieById(id: nat, fault: Option<string>) returns (m: Option<Row>)
      ensures fault.Some? ==> m == None
      ensures fault.None? ==> (m.Some? <==> exists i :: 0 <= i < |movies| && movies[i].id == id)
      ensures m.Some? ==> m.value in movies && m.value.id == id
    {
      if fault.Some? {
        return None;
      }
      m := FindById(movies, id);
    }

    /** `getTrailersForMovie`: that movie's trailers, newest first; [] on failure. */
    method GetTrailersForMovie(movieId: int, fault: Option<string>) returns (rows: seq<Row>)
      requires Valid()
      ensures fault.Some? ==> rows == []
      ensures fault.None? ==> rows == Reverse(TrailersOf(trailers, movieId))
      ensures IdsDecreasing(rows)
    {
      if fault.Some? {
        return [];
      }
      TrailersOfKeepsOrder(trailers, movieId);
      ReverseOfIncreasing(TrailersOf(trailers, movieId));
      rows := Reverse(TrailersOf(trailers, movieId));
    }

    /** `createMovie`: inserts the seven columns and returns the stored row; a failure is
        rethrown unchanged. */
    method CreateMovie(d: MovieInput, fault: Option<string>) returns (r: Result<Row>)
      requires Valid()
      modifies this`movies, this`nextMovieId
      ensures Valid()
      ensures fault.Some? ==> r == Err(fault.value) && movies == old(movies) && nextMovieId == old(nextMovieId)
      ensures fault.None? ==>
        && r == Ok(Row(old(nextMovieId), MovieRow(d)))
        && movies == old(movies) + [r.value]
        && nextMovieId == old(nextMovieId) + 1
    {
      if fault.Some? {
        return Err(fault.value);
      }
      var row := Row(nextMovieId, MovieRow(d));
      movies := movies + [row];
      nextMovieId := nextMovieId + 1;
      r := Ok(row);
    }

    /** `updateMovie`: with no fields it throws before any query (`issued` is none);
        otherwise it sends UpdateStatement and returns the updated row, or none when no
        row has that id. Failures are rethrown unchanged. */
    method UpdateMovie(id: nat, fields: seq<(Column, Value)>, fault: Option<string>)
      returns (r: Result<Option<Row>>, issued: Option<Statement>)
      requires Valid()
      modifies this`movies
      ensures Valid()
      ensures |fields| == 0 ==> r == Err("No fields to update") && issued == None && movies == old(movies)
      ensures |fields| > 0 ==> issued == Some(UpdateStatement(id, fields))
      ensures |fields| > 0 && fault.Some? ==> r == Err(fault.value) && movies == old(movies)
      ensures |fields| > 0 && fault.None? ==>
        movies == UpdatedRows(old(movies), id, fields) && r == Ok(FindById(movies, id))
    {
      if |fields| == 0 {
        return Err("No fields to update"), None;
      }
      issued := Some(UpdateStatement(id, fields));
      if fault.Some? {
        return Err(fault.value), issued;
      }
      movies := UpdatedRows(movies, id, fields);
      r := Ok(FindById(movies, id));
    }

    /** `deleteMovie`: the deleted id, or none when no row matched. */
    method DeleteMovie(id: nat, fault: Option<string>) returns (r: Result<Option<nat>>)
      requires Valid()
      modifies this`movies
      ensures Valid()
      ensures fault.Some? ==> r == Err(fault.value) && movies == old(movies)
      ensures fault.None? ==> movies == WithoutId(old(movies), id)
      ensures fault.None? ==>
        r == Ok(if exists i :: 0 <= i < |old(movies)| && old(movies)[i].id == id then Some(id) else None)
    {
      if fault.Some? {
        return Err(fault.value);
      }
      var found := FindById(movies, id);
      WithoutIdKeepsOrder(movies, id);
      movies := WithoutId(movies, id);
      r := Ok(if found.Some? then Some(id) else None);
    }

    /** `createTrailer`. */
    method CreateTrailer(d: TrailerInput, fault: Option<string>) returns (r: Result<Row>)
      requires Valid()
      modifies this`trailers, this`nextTrailerId
      ensures Valid()
      ensures fault.Some? ==> r == Err(fault.value) && trailers == old(trailers) && nextTrailerId == old(nextTrailerId)
      ensures fault.None? ==>
        && r == Ok(Row(old(nextTrailerId), TrailerRow(d)))
        && trailers == old(trailers) + [r.value]
        && nextTrailerId == old(nextTrailerId) + 1
    {
      if fault.Some? {
        return Err(fault.value);
      }
      var row := Row(nextTrailerId, TrailerRow(d));
      trailers := trailers + [row];
      nextTrailerId := nextTrailerId + 1;
      r := Ok(row);
    }

    /** `deleteTrailer`. */
    method DeleteTrailer(id: nat, fault: Option<string>) returns (r: Result<Option<nat>>)
      requires Valid()
      modifies this`trailers
      ensures Valid()
      ensures fault.Some? ==> r == Err(fault.value) && trailers == old(trailers)
      ensures fault.None? ==> trailers == WithoutId(old(trailers), id)
      ensures fault.None? ==>
        r == Ok(if exists i :: 0 <= i < |old(trailers)| && old(trailers)[i].id == id then Some(id) else None)
    {
      if fault.Some? {
        return Err(fault.value);
      }
      var found := FindById(trailers, id);
      WithoutIdKeepsOrder(trailers, id);
      trailers := WithoutId(trailers, id);
      r := Ok(if found.Some? then Some(id) else None);
    }
  }
}
