/**
  The statements the database layer builds at run time. A statement is a list of
  clauses with positional placeholders plus a list of bound values; running it here
  takes the values off the list from left to right, and a statement whose placeholders
  and values do not match up, or whose SET list is badly punctuated, is an error.
 */
module Sql {
  import opened Prelude
  import opened Tables

  datatype Value = Int(n: int) | Text(s: string)

  datatype Column = CollectionId | Id | SortIndex | Payload | PayloadSize | Modified | TTL

  // ------------------------------------------------------------------ UPDATE

  /** `column=?` and `,` in a SET list. */
  datatype SetToken = Assign(column: Column) | Comma

  /** The columns of a SET list, when its commas separate exactly the assignments. */
  function SetColumns(tokens: seq<SetToken>): Option<seq<Column>> {
    if |tokens| == 0 || !tokens[|tokens| - 1].Assign? then None
    else if |tokens| == 1 then Some([tokens[0].column])
    else if |tokens| == 2 || tokens[|tokens| - 2] != Comma then None
    else
      match SetColumns(tokens[..|tokens| - 2])
      case None => None
      case Some(columns) => Some(columns + [tokens[|tokens| - 1].column])
  }

  function SetColumn(row: Bso, column: Column, v: Value): Option<Bso> {
    match (column, v)
    case (SortIndex, Int(n)) => Some(row.(sortIndex := n))
    case (Payload, Text(s)) => Some(row.(payload := s))
    case (PayloadSize, Int(n)) => Some(row.(payloadSize := n))
    case (Modified, Int(n)) => Some(row.(modified := n))
    case (TTL, Int(n)) => Some(row.(ttl := n))
    case _ => None
  }

  function SetAll(row: Bso, columns: seq<Column>, values: seq<Value>): Option<Bso>
    requires |columns| == |values|
  {
    if columns == [] then Some(row)
    else
      var n := |columns| - 1;
      match SetAll(row, columns[..n], values[..n])
      case None => None
      case Some(r) => SetColumn(r, columns[n], values[n])
  }

  /** `UPDATE BSO SET <set> WHERE CollectionId=? and Id=?`. */
  function RunUpdate(bsos: map<Key, Bso>, set_: seq<SetToken>, values: seq<Value>): Option<map<Key, Bso>> {
    match SetColumns(set_)
    case None => None
    case Some(columns) =>
      var n := |columns|;
      if |values| != n + 2 || !values[n].Int? || !values[n + 1].Text? then None
      else
        var key := Key(values[n].n, values[n + 1].s);
        if key !in bsos then Some(bsos)
        else
          match SetAll(bsos[key], columns, values[..n])
          case None => None
          case Some(row) => Some(bsos[key := row])
  }

  /** A SET list with one more assignment. */
  function OneMore(tokens: seq<SetToken>, column: Column): seq<SetToken> {
    tokens + (if tokens == [] then [] else [Comma]) + [Assign(column)]
  }

  lemma ExtendColumns(tokens: seq<SetToken>, columns: seq<Column>, column: Column)
    requires (tokens == [] && columns == []) || SetColumns(tokens) == Some(columns)
    ensures SetColumns(OneMore(tokens, column)) == Some(columns + [column])
  {
    var more := OneMore(tokens, column);
    if tokens == [] {
      assert more == [Assign(column)] && columns + [column] == [column];
    } else {
      assert more[..|more| - 2] == tokens;
    }
  }

  lemma ExtendValues(row: Bso, columns: seq<Column>, values: seq<Value>, column: Column, v: Value)
    requires |columns| == |values| && SetAll(row, columns, values).Some?
    ensures SetAll(row, columns + [column], values + [v]) == SetColumn(SetAll(row, columns, values).value, column, v)
  {
    assert (columns + [column])[..|columns|] == columns;
    assert (values + [v])[..|values|] == values;
  }

  // ---------------------------------------------------------- SELECT, DELETE

  /** One condition of a WHERE clause; `IdIn(n)` has n placeholders, the others one. */
  datatype Cond = Equal(column: Column) | Less(column: Column) | Greater(column: Column) | IdIn(count: nat)

  function CondValues(c: Cond): nat {
    if c.IdIn? then c.count else 1
  }

  function Placeholders(conds: seq<Cond>): nat {
    if conds == [] then 0 else CondValues(conds[0]) + Placeholders(conds[1..])
  }

  predicate Holds(c: Cond, key: Key, row: Bso, values: seq<Value>)
    requires |values| == CondValues(c)
  {
    match c
    case IdIn(n) => Text(key.id) in values
    case Equal(CollectionId) => values[0] == Int(key.cid)
    case Less(Modified) => values[0].Int? && row.modified < values[0].n
    case Greater(Modified) => values[0].Int? && row.modified > values[0].n
    case Greater(TTL) => values[0].Int? && row.ttl > values[0].n
    case _ => false
  }

  predicate Matches(conds: seq<Cond>, key: Key, row: Bso, values: seq<Value>)
    requires |values| == Placeholders(conds)
  {
    conds == [] ||
    var n := CondValues(conds[0]);
    Holds(conds[0], key, row, values[..n]) && Matches(conds[1..], key, row, values[n..])
  }

  /** `DELETE FROM BSO WHERE <conds>`. */
  function RunDelete(bsos: map<Key, Bso>, conds: seq<Cond>, values: seq<Value>): Option<map<Key, Bso>> {
    if |values| != Placeholders(conds) then None
    else Some(map k | k in bsos && !Matches(conds, k, bsos[k], values) :: bsos[k])
  }

  datatype SortType = SortNone | SortNewest | SortOldest | SortIndexDesc

  /** A result row: the five selected columns. */
  datatype Row = Row(id: string, sortIndex: int, payload: string, modified: int, ttl: int)

  function ToRow(id: string, b: Bso): Row {
    Row(id, b.sortIndex, b.payload, b.modified, b.ttl)
  }

  datatype Select = Select(conds: seq<Cond>, sort: SortType, offset: bool)

  predicate InOrder(sort: SortType, a: Row, b: Row) {
    match sort
    case SortNone => true
    case SortNewest => a.modified >= b.modified
    case SortOldest => a.modified <= b.modified
    case SortIndexDesc => a.sortIndex >= b.sortIndex
  }

  /** What the engine may choose freely: the order of rows the ORDER BY does not decide. */
  type Arrange = (set<Row>, SortType) -> seq<Row>

  ghost predicate IsArrangement(arrange: Arrange) {
    forall rows, sort ::
      var r := arrange(rows, sort);
      multiset(r) == multiset(rows) && forall i, j :: 0 <= i < j < |r| ==> InOrder(sort, r[i], r[j])
  }

  /** `LIMIT limit OFFSET offset`; a negative limit is no limit. */
  function Window(rows: seq<Row>, limit: int, offset: nat): seq<Row> {
    var rest := if offset <= |rows| then rows[offset..] else [];
    if 0 <= limit < |rest| then rest[..limit] else rest
  }

  /** `SELECT ... FROM BSO WHERE <conds> ORDER BY <sort> LIMIT ? [OFFSET ?]`. */
  function RunSelect(bsos: map<Key, Bso>, q: Select, values: seq<Value>, arrange: Arrange): Option<seq<Row>> {
    var n := Placeholders(q.conds);
    if |values| != n + (if q.offset then 2 else 1) || !values[n].Int? then None
    else if q.offset && (!values[n + 1].Int? || values[n + 1].n < 0) then None
    else
      var matched := set k | k in bsos && Matches(q.conds, k, bsos[k], values[..n]) :: ToRow(k.id, bsos[k]);
      Some(Window(arrange(matched, q.sort), values[n].n, if q.offset then values[n + 1].n else 0))
  }

  // -------------------------------------------- what the built conditions mean

  lemma MatchesConcat(a: seq<Cond>, b: seq<Cond>, key: Key, row: Bso, v: seq<Value>, w: seq<Value>)
    requires |v| == Placeholders(a) && |w| == Placeholders(b)
    ensures Placeholders(a + b) == Placeholders(a) + Placeholders(b)
    ensures Matches(a + b, key, row, v + w) <==> Matches(a, key, row, v) && Matches(b, key, row, w)
  {
    if a == [] {
      assert a + b == b && v + w == w;
    } else {
      var n := CondValues(a[0]);
      assert (a + b)[1..] == a[1..] + b;
      MatchesConcat(a[1..], b, key, row, v[n..], w);
      assert (v + w)[..n] == v[..n] && (v + w)[n..] == v[n..] + w;
    }
  }

  lemma MatchesOne(c: Cond, key: Key, row: Bso, values: seq<Value>)
    requires |values| == CondValues(c)
    ensures Placeholders([c]) == |values|
    ensures Matches([c], key, row, values) <==> Holds(c, key, row, values)
  {
    assert [c][1..] == [] && values[..|values|] == values;
  }

  function Texts(ids: seq<string>): (r: seq<Value>)
    ensures |r| == |ids| && forall i :: 0 <= i < |ids| ==> r[i] == Text(ids[i])
  {
    if ids == [] then [] else Texts(ids[..|ids| - 1]) + [Text(ids[|ids| - 1])]
  }

  lemma InTexts(ids: seq<string>, id: string)
    ensures Text(id) in Texts(ids) <==> id in ids
  {
    if id in ids {
      var i :| 0 <= i < |ids| && ids[i] == id;
      assert Texts(ids)[i] == Text(id);
    }
  }

  const BASE_CONDS := [Equal(CollectionId), Less(Modified), Greater(Modified), Greater(TTL)]

  lemma BaseMatches(key: Key, row: Bso, cid: int, older: int, newer: int, cutoff: int)
    ensures Placeholders(BASE_CONDS) == 4
    ensures Matches(BASE_CONDS, key, row, [Int(cid), Int(older), Int(newer), Int(cutoff)]) <==>
              key.cid == cid && newer < row.modified < older && row.ttl > cutoff
  {
    var a, b := [Equal(CollectionId), Less(Modified)], [Greater(Modified), Greater(TTL)];
    PairMatches(Equal(CollectionId), Less(Modified), key, row, Int(cid), Int(older));
    PairMatches(Greater(Modified), Greater(TTL), key, row, Int(newer), Int(cutoff));
    MatchesConcat(a, b, key, row, [Int(cid), Int(older)], [Int(newer), Int(cutoff)]);
    assert BASE_CONDS == a + b;
    assert [Int(cid), Int(older), Int(newer), Int(cutoff)] == [Int(cid), Int(older)] + [Int(newer), Int(cutoff)];
  }

  lemma PairMatches(c: Cond, d: Cond, key: Key, row: Bso, v: Value, w: Value)
    requires CondValues(c) == CondValues(d) == 1
    ensures Placeholders([c, d]) == 2
    ensures Matches([c, d], key, row, [v, w]) <==> Holds(c, key, row, [v]) && Holds(d, key, row, [w])
  {
    MatchesOne(c, key, row, [v]);
    MatchesOne(d, key, row, [w]);
    MatchesConcat([c], [d], key, row, [v], [w]);
    assert [c, d] == [c] + [d] && [v, w] == [v] + [w];
  }

  function DeleteConds(count: nat): seq<Cond> {
    [Equal(CollectionId), IdIn(count)]
  }

  function DeleteValues(cid: int, ids: seq<string>): seq<Value> {
    [Int(cid)] + Texts(ids)
  }

  lemma DeleteMatches(key: Key, row: Bso, cid: int, ids: seq<string>)
    ensures Placeholders(DeleteConds(|ids|)) == |DeleteValues(cid, ids)|
    ensures Matches(DeleteConds(|ids|), key, row, DeleteValues(cid, ids)) <==> key.cid == cid && key.id in ids
  {
    MatchesOne(Equal(CollectionId), key, row, [Int(cid)]);
    InTexts(ids, key.id);
    MatchesOne(IdIn(|ids|), key, row, Texts(ids));
    MatchesConcat([Equal(CollectionId)], [IdIn(|ids|)], key, row, [Int(cid)], Texts(ids));
    assert DeleteConds(|ids|) == [Equal(CollectionId)] + [IdIn(|ids|)];
  }
}
