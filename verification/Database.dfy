/** The database object: its methods change the tables step by step, as one transaction each. */
module Database {
  import opened Prelude
  import opened Tables
  import opened Sql
  import Query

  /** What every assignment of an UPDATE's SET list comes to, so far. */
  ghost predicate Building(row: Bso, tokens: seq<SetToken>, columns: seq<Column>, values: seq<Value>, row': Bso) {
    && |columns| == |values|
    && ((tokens == [] && columns == []) || (tokens != [] && SetColumns(tokens) == Some(columns)))
    && SetAll(row, columns, values) == Some(row')
  }

  class DB {
    var bsos: map<Key, Bso>
    var collections: map<int, Collection>
    var names: map<string, int>
    var storage: int
    var nextCid: int
    var batches: map<int, Batch>
    var nextBatch: int

    function State(): Store
      reads this
    {
      Store(bsos, collections, names, storage, nextCid, batches, nextBatch)
    }

    /** Opens a database file and finds these tables in it. */
    constructor (st: Store)
      ensures State() == st
    {
      bsos, collections, names := st.bsos, st.collections, st.names;
      storage, nextCid, batches, nextBatch := st.storage, st.nextCid, st.batches, st.nextBatch;
    }

    // ------------------------------------------------------- writing records

    /** Append one `column=?`, with a comma when it is not the first. */
    static method AddAssignment(tokens: seq<SetToken>, values: array<Value>, i: nat, column: Column, v: Value,
                                ghost row: Bso, ghost columns: seq<Column>, ghost row': Bso, ghost next: Bso)
      returns (tokens': seq<SetToken>, i': nat, ghost columns': seq<Column>)
      requires i < values.Length
      requires |columns| == i && Building(row, tokens, columns, values[..i], row')
      requires SetColumn(row', column, v) == Some(next)
      modifies values
      ensures i' == i + 1 == |columns'|
      ensures Building(row, tokens', columns', values[..i'], next)
    {
      ghost var before := values[..i];
      tokens' := tokens + (if i != 0 then [Comma] else []) + [Assign(column)];
      assert (i == 0) == (tokens == []);
      assert tokens' == OneMore(tokens, column);
      ExtendColumns(tokens, columns, column);
      ExtendValues(row, columns, before, column, v);
      values[i] := v;
      i' := i + 1;
      assert values[..i'] == before + [v];
      columns' := columns + [column];
    }

    /** The start of the SET list: the stamp, the payload and its size. */
    static method BuildContent(input: PutInput, modified: int, values: array<Value>, ghost row: Bso)
      returns (tokens: seq<SetToken>, i: nat, ghost columns: seq<Column>, ghost row': Bso)
      requires values.Length == 7
      modifies values
      ensures i <= 3 && |columns| == i && Building(row, tokens, columns, values[..i], row')
      ensures input.payload.Some? || input.sortIndex.Some? ==> i > 0
      ensures row' == UpdatedRow(row, input, modified).(sortIndex := row.sortIndex, ttl := row.ttl)
    {
      i, tokens, columns, row' := 0, [], [], row;
      assert values[..0] == [];
      if input.payload.Some? || input.sortIndex.Some? {
        tokens, i, columns := AddAssignment(tokens, values, i, Modified, Int(modified), row, columns, row', row'.(modified := modified));
        row' := row'.(modified := modified);
      }
      if input.payload.Some? {
        ghost var payload, size := input.payload.value, Utf8Len(input.payload.value);
        tokens, i, columns := AddAssignment(tokens, values, i, Payload, Text(input.payload.value), row, columns, row', row'.(payload := payload));
        row' := row'.(payload := payload);
        tokens, i, columns := AddAssignment(tokens, values, i, PayloadSize, Int(Utf8Len(input.payload.value)), row, columns, row', row'.(payloadSize := size));
        row' := row'.(payloadSize := size);
      }
    }

    /** The whole SET list and its values, in the 7-slot array. */
    static method BuildUpdate(input: PutInput, modified: int, values: array<Value>, ghost row: Bso)
      returns (tokens: seq<SetToken>, i: nat, ghost columns: seq<Column>)
      requires values.Length == 7
      requires input.payload.Some? || input.sortIndex.Some? || input.ttl.Some?
      modifies values
      ensures 0 < i <= 5 && |columns| == i
      ensures Building(row, tokens, columns, values[..i], UpdatedRow(row, input, modified))
    {
      ghost var row';
      tokens, i, columns, row' := BuildContent(input, modified, values, row);
      if input.sortIndex.Some? {
        ghost var next := row'.(sortIndex := input.sortIndex.value);
        tokens, i, columns := AddAssignment(tokens, values, i, SortIndex, Int(input.sortIndex.value), row, columns, row', next);
        row' := next;
      }
      if input.ttl.Some? {
        ghost var next := row'.(ttl := Expiry(modified, input.ttl.value));
        tokens, i, columns := AddAssignment(tokens, values, i, TTL, Int(Expiry(modified, input.ttl.value)), row, columns, row', next);
        row' := next;
      }
      assert row' == UpdatedRow(row, input, modified);
    }

    /** Builds and runs the UPDATE for the fields that are given. */
    method UpdateBSO(cid: int, input: PutInput, modified: int) returns (err: Option<PutError>)
      requires Key(cid, input.id) in bsos
      modifies this`bsos
      ensures input.payload.None? && input.sortIndex.None? && input.ttl.None? ==> err == Some(NothingToDo) && bsos == old(bsos)
      ensures input.payload.Some? || input.sortIndex.Some? || input.ttl.Some? ==>
                && err == None
                && bsos == old(bsos)[Key(cid, input.id) := UpdatedRow(old(bsos[Key(cid, input.id)]), input, modified)]
    {
      if input.payload.None? && input.sortIndex.None? && input.ttl.None? {
        return Some(NothingToDo);
      }
      var values := new Value[7](_ => Int(0));
      ghost var row := bsos[Key(cid, input.id)];
      ghost var columns;
      var tokens, i;
      tokens, i, columns := BuildUpdate(input, modified, values, row);
      ghost var bound := values[..i];
      values[i], values[i + 1] := Int(cid), Text(input.id);
      i := i + 2;
      assert values[..i] == bound + [Int(cid), Text(input.id)];
      UpdateMeans(bsos, cid, input.id, tokens, columns, bound, UpdatedRow(row, input, modified));
      var updated := RunUpdate(bsos, tokens, values[..i]);
      bsos := updated.value;
      err := None;
    }

    method InsertBSO(cid: int, id: string, modified: int, payload: string, sortIndex: int, ttl: int)
      requires Key(cid, id) !in bsos
      modifies this`bsos
      ensures bsos == old(bsos)[Key(cid, id) := Bso(sortIndex, payload, Utf8Len(payload), modified, Expiry(modified, ttl))]
    {
      bsos := bsos[Key(cid, id) := Bso(sortIndex, payload, Utf8Len(payload), modified, Expiry(modified, ttl))];
    }

    method PutOne(cid: int, input: PutInput, modified: int) returns (err: Option<PutError>)
      modifies this`bsos
      ensures err == PutCheck(input)
      ensures bsos == PutRow(old(bsos), cid, input, modified)
    {
      err := PutCheck(input);
      if err.Some? {
        return;
      }
      if Key(cid, input.id) in bsos {
        err := UpdateBSO(cid, input, modified);
      } else {
        var p := if input.payload.None? then "" else input.payload.value;
        var s := if input.sortIndex.None? then 0 else input.sortIndex.value;
        var t := if input.ttl.None? then DEFAULT_TTL else input.ttl.value;
        InsertBSO(cid, input.id, modified, p, s, t);
      }
    }

    method TouchCollectionAndStorage(cid: int, modified: int)
      modifies this`collections, this`storage
      ensures collections == Touch(old(collections), cid, modified) && storage == modified
    {
      if cid in collections {
        collections := collections[cid := collections[cid].(modified := modified)];
      }
      storage := modified;
    }

    /** All records with one stamp; refused records are reported and the rest still go in. */
    method PostBSOs(cid: int, inputs: seq<PutInput>, now: int) returns (results: PostResults)
      modifies this
      ensures State() == Apply(old(State()), Effect.PostBSOs(cid, inputs, now))
      ensures results == PutOutcome(inputs)
    {
      results := PostResults([], map[]);
      for i := 0 to |inputs|
        invariant bsos == PutRows(old(bsos), cid, inputs[..i], now)
        invariant results == PutOutcome(inputs[..i])
        invariant unchanged(`collections, `names, `storage, `nextCid, `batches, `nextBatch)
      {
        var err := PutOne(cid, inputs[i], now);
        assert inputs[..i + 1][..i] == inputs[..i];
        if err.Some? {
          results := PostResults(results.success, results.failed[inputs[i].id := err.value]);
        } else {
          results := PostResults(results.success + [inputs[i].id], results.failed);
        }
      }
      assert inputs[..|inputs|] == inputs;
      TouchCollectionAndStorage(cid, now);
    }

    /** One record; a refused record rolls everything back. */
    method PutBSO(cid: int, id: string, payload: Option<string>, sortIndex: Option<int>, ttl: Option<int>, now: int)
      returns (err: Option<PutError>)
      modifies this
      ensures err == PutCheck(PutInput(id, payload, ttl, sortIndex))
      ensures State() == if err.Some? then old(State())
                         else Apply(old(State()), Effect.PostBSOs(cid, [PutInput(id, payload, ttl, sortIndex)], now))
    {
      var input := PutInput(id, payload, ttl, sortIndex);
      assert [input][..0] == [];
      assert PutRows(bsos, cid, [input], now) == PutRow(bsos, cid, input, now);
      err := PutOne(cid, input, now);
      if err.Some? {
        return;
      }
      TouchCollectionAndStorage(cid, now);
    }

    // ------------------------------------------------------ deleting records

    static method BindIds(cid: int, ids: seq<string>) returns (values: array<Value>)
      ensures values[..] == DeleteValues(cid, ids)
    {
      values := new Value[|ids| + 1](_ => Int(0));
      values[0] := Int(cid);
      for i := 0 to |ids|
        invariant values[0] == Int(cid)
        invariant forall j :: 0 <= j < i ==> values[j + 1] == Text(ids[j])
      {
        values[i + 1] := Text(ids[i]);
      }
    }

    /** Builds and runs the DELETE for a non-empty list of ids. */
    method DeleteBSOs(cid: int, ids: seq<string>, now: int)
      requires |ids| > 0
      modifies this
      ensures State() == Apply(old(State()), Effect.DeleteBSOs(cid, ids, now))
    {
      var values := BindIds(cid, ids);
      DeleteMeans(bsos, cid, ids);
      var deleted := RunDelete(bsos, DeleteConds(1 + (|ids| - 1)), values[..]);
      bsos := deleted.value;
      TouchCollectionAndStorage(cid, now);
    }

    method DeleteCollection(cid: int, now: int)
      modifies this
      ensures State() == Apply(old(State()), Effect.DeleteCollection(cid, now))
    {
      bsos := map k | k in bsos && k.cid != cid :: bsos[k];
      if cid in collections {
        collections := collections[cid := collections[cid].(modified := 0)];
      }
      storage := now;
    }

    method DeleteEverything()
      modifies this`bsos
      ensures State() == Apply(old(State()), Effect.DeleteEverything)
    {
      bsos := map[];
    }

    method PurgeExpired(now: int) returns (removed: nat)
      modifies this`bsos
      ensures State() == Apply(old(State()), Effect.PurgeExpired(now))
      ensures removed == |set k | k in old(bsos) && old(bsos)[k].ttl <= now|
    {
      removed := |set k | k in bsos && bsos[k].ttl <= now|;
      bsos := map k | k in bsos && !(bsos[k].ttl <= now) :: bsos[k];
    }

    // --------------------------------------------------------------- queries

    static method BuildSelect(s: Query.Search, limit: int, offset: int) returns (conds: seq<Cond>, values: seq<Value>)
      ensures conds == SearchConds(s)
      ensures values == SearchValues(s) + [Int(limit)] + if offset != 0 then [Int(offset)] else []
    {
      var ids := s.ids;
      ghost var wanted := Query.FirstHundred(s.ids);
      conds := BASE_CONDS;
      var base := [Int(s.cid), Int(s.older), Int(s.newer), Int(s.cutoff)];
      values := base;
      if |ids| > 0 {
        if |ids| > 100 {
          ids := ids[0..100];
        }
        assert ids == wanted;
        conds := conds + [IdIn(1 + (|ids| - 1))];
        for i := 0 to |ids|
          invariant values == base + Texts(ids[..i])
        {
          assert ids[..i + 1][..i] == ids[..i];
          values := values + [Text(ids[i])];
        }
        assert ids[..|ids|] == ids;
      }
      values := values + [Int(limit)];
      if offset != 0 {
        values := values + [Int(offset)];
      }
    }

    /** Runs the search, asking for one row too many to learn whether there are more. */
    method GetBSOs(s: Query.Search, limit: int, offset: int, arrange: Arrange)
      returns (r: Result<Query.GetResults, Query.QueryError>)
      ensures r == Query.GetBSOs(bsos, s, limit, offset, arrange)
    {
      if offset < 0 {
        return Err(Query.InvalidOffset);
      }
      if limit < -1 {
        return Err(Query.InvalidLimit);
      }
      if s.newer < 0 {
        return Err(Query.InvalidNewer);
      }
      var fetch := if limit >= 0 then limit + 1 else limit;
      var conds, values := BuildSelect(s, fetch, offset);
      SelectMeans(bsos, s, fetch, offset, arrange);
      var fetched := RunSelect(bsos, Select(conds, s.sort, offset != 0), values, arrange);
      var rows: seq<Row> := [];
      for i := 0 to |fetched.value|
        invariant rows == fetched.value[..i]
      {
        rows := rows + [fetched.value[i]];
      }
      assert rows == fetched.value;
      var more, next := false, 0;
      var num := |rows|;
      if limit >= 0 && num > limit {
        rows := rows[..num - 1];
        more := true;
        next := limit + offset;
      }
      ghost var full := arrange(Query.Found(bsos, s), s.sort);
      Query.OneRowMore(full, limit, offset);
      assert rows == Window(full, limit, offset);
      assert more <==> limit >= 0 && |full| > limit + offset;
      r := Ok(Query.GetResults(rows, more, next));
    }

    // --------------------------------------------------- collections, batches

    function GetCollectionId(name: string): Option<int>
      reads this
    {
      if name in names then Some(names[name]) else None
    }

    function GetCollectionModified(cid: int): int
      reads this
    {
      if cid in collections then collections[cid].modified else 0
    }

    /** A name that is already there violates the unique index, and the transaction is rolled back. */
    method CreateCollection(name: string, now: int) returns (cid: Result<int, CidError>)
      modifies this
      ensures CollectionNameOk(name) ==> State() == Apply(old(State()), Effect.CreateCollection(name, now))
      ensures cid.Err? ==> State() == old(State())
      ensures cid == if !CollectionNameOk(name) then Err(InvalidCollectionName)
                     else if name in old(names) then Err(NameTaken)
                     else Ok(old(nextCid))
    {
      if !CollectionNameOk(name) {
        return Err(InvalidCollectionName);
      }
      if name in names {
        return Err(NameTaken);
      }
      cid := Ok(nextCid);
      collections := collections[nextCid := Collection(name, now)];
      names := names[name := nextCid];
      nextCid := nextCid + 1;
    }

    method BatchCreate(cid: int, data: string, now: int) returns (id: int)
      modifies this`batches, this`nextBatch
      ensures State() == Apply(old(State()), Effect.BatchCreate(cid, data, now))
      ensures id == old(nextBatch)
    {
      id := nextBatch;
      batches := batches[id := Batch(cid, now, data)];
      nextBatch := nextBatch + 1;
    }

    /** Appends to the batch; reports whether a row of that collection was there. */
    method BatchAppend(id: int, cid: int, data: string, now: int) returns (found: bool)
      modifies this`batches
      ensures State() == Apply(old(State()), Effect.BatchAppend(id, cid, data, now))
      ensures found == BatchIn(old(State()), id, cid)
    {
      found := id in batches && batches[id].cid == cid;
      if found {
        batches := batches[id := Batch(cid, now, batches[id].bsos + data)];
      }
    }

    method BatchRemove(id: int)
      modifies this`batches
      ensures State() == Apply(old(State()), Effect.BatchRemove(id))
    {
      batches := batches - {id};
    }

    method BatchPurge(now: int, ttl: int) returns (purged: nat)
      modifies this`batches
      ensures State() == Apply(old(State()), Effect.BatchPurge(now, ttl))
      ensures purged == |set b | b in old(batches) && now - old(batches)[b].modified >= ttl|
    {
      purged := |set b | b in batches && now - batches[b].modified >= ttl|;
      batches := map b | b in batches && !(now - batches[b].modified >= ttl) :: batches[b];
    }
  }

  lemma UpdateMeans(bsos: map<Key, Bso>, cid: int, id: string, tokens: seq<SetToken>, columns: seq<Column>, bound: seq<Value>, row': Bso)
    requires Key(cid, id) in bsos && columns != []
    requires Building(bsos[Key(cid, id)], tokens, columns, bound, row')
    ensures RunUpdate(bsos, tokens, bound + [Int(cid), Text(id)]) == Some(bsos[Key(cid, id) := row'])
  {
    var values := bound + [Int(cid), Text(id)];
    assert values[..|columns|] == bound;
  }

  lemma DeleteMeans(bsos: map<Key, Bso>, cid: int, ids: seq<string>)
    ensures RunDelete(bsos, DeleteConds(|ids|), DeleteValues(cid, ids)) ==
            Some(map k | k in bsos && !(k.cid == cid && k.id in ids) :: bsos[k])
  {
    DeleteMatches(Key(0, ""), Bso(0, "", 0, 0, 0), cid, ids);
    forall k | k in bsos
      ensures Matches(DeleteConds(|ids|), k, bsos[k], DeleteValues(cid, ids)) <==> k.cid == cid && k.id in ids
    {
      DeleteMatches(k, bsos[k], cid, ids);
    }
    var kept := RunDelete(bsos, DeleteConds(|ids|), DeleteValues(cid, ids)).value;
    assert kept == map k | k in bsos && !(k.cid == cid && k.id in ids) :: bsos[k];
  }

  function SearchConds(s: Query.Search): seq<Cond> {
    var ids := Query.FirstHundred(s.ids);
    if ids == [] then BASE_CONDS else BASE_CONDS + [IdIn(|ids|)]
  }

  function SearchValues(s: Query.Search): seq<Value> {
    [Int(s.cid), Int(s.older), Int(s.newer), Int(s.cutoff)] + Texts(Query.FirstHundred(s.ids))
  }

  /** The conditions a search builds select exactly the records it is for. */
  lemma SearchMatches(s: Query.Search, k: Key, row: Bso)
    ensures Placeholders(SearchConds(s)) == |SearchValues(s)|
    ensures Matches(SearchConds(s), k, row, SearchValues(s)) <==> Query.Selected(s, k, row)
  {
    var ids := Query.FirstHundred(s.ids);
    var base := [Int(s.cid), Int(s.older), Int(s.newer), Int(s.cutoff)];
    BaseMatches(k, row, s.cid, s.older, s.newer, s.cutoff);
    if ids == [] {
      assert base + Texts(ids) == base;
    } else {
      InTexts(ids, k.id);
      MatchesOne(IdIn(|ids|), k, row, Texts(ids));
      MatchesConcat(BASE_CONDS, [IdIn(|ids|)], k, row, base, Texts(ids));
    }
  }

  lemma SelectMeans(bsos: map<Key, Bso>, s: Query.Search, limit: int, offset: nat, arrange: Arrange)
    ensures RunSelect(bsos, Select(SearchConds(s), s.sort, offset != 0),
                      SearchValues(s) + [Int(limit)] + (if offset != 0 then [Int(offset)] else []), arrange) ==
            Some(Window(arrange(Query.Found(bsos, s), s.sort), limit, offset))
  {
    var conds, where := SearchConds(s), SearchValues(s);
    var values := where + [Int(limit)] + if offset != 0 then [Int(offset)] else [];
    SearchMatches(s, Key(0, ""), Bso(0, "", 0, 0, 0));
    assert values[..|where|] == where;
    forall k | k in bsos
      ensures Matches(conds, k, bsos[k], where) <==> Query.Selected(s, k, bsos[k])
    {
      SearchMatches(s, k, bsos[k]);
    }
    assert (set k | k in bsos && Matches(conds, k, bsos[k], where) :: ToRow(k.id, bsos[k])) == Query.Found(bsos, s);
  }
}
