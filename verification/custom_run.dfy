/** Creation of a custom run (src/entity/CustomRun.ts): one INSERT into
    `custom_run`, then, when audio links are given, one multi-row INSERT into
    `run_audio` whose parameters are flattened four per audio link.

    The database is not modelled: the statements are returned in the order they
    are issued, and the id the database assigns to the first insert is an input. */
module CustomRun {
  import opened Wrappers
  import opened JsValues
  import SqlHandler

  /** A bound parameter as the driver receives it. */
  datatype SqlValue = SqlInt(i: int) | SqlNumber(r: real) | SqlText(s: string) | SqlNull | SqlUndefined

  /** One element of the `audios` argument; missing optional fields are `undefined`. */
  datatype AudioLink = AudioLink(audioId: int, startTime: Option<string>, startDistance: Option<real>)

  /** A prepared INSERT: table, column list, the VALUES clause text and the bound parameters. */
  datatype Insert = Insert(table: string, columns: seq<string>, values: string, params: seq<SqlValue>)

  const CustomRunColumns: seq<string> := ["title", "distance", "duration", "created_at", "owner_id", "run_id"]
  const RunAudioColumns: seq<string> := ["custom_run_id", "audio_id", "start_time", "start_distance"]

  /** The VALUES clause of the `custom_run` insert, "(?, ?, ?, ?, ?, ?)". */
  function CustomRunValues(): string
  {
    "(" + Join(SqlHandler.Fill("?", 6), ", ") + ")"
  }

  function TextParam(o: Option<string>): SqlValue
  {
    if o.Some? then SqlText(o.value) else SqlUndefined
  }

  function NumberParam(o: Option<real>): SqlValue
  {
    if o.Some? then SqlNumber(o.value) else SqlUndefined
  }

  /** The four parameters one audio link contributes, in column order. */
  function AudioParams(customRunId: int, a: AudioLink): seq<SqlValue>
  {
    [SqlInt(customRunId), SqlInt(a.audioId), TextParam(a.startTime), NumberParam(a.startDistance)]
  }

  /** The statement binds exactly as many parameters as its VALUES clause has placeholders. */
  predicate PlaceholdersMatch(stmt: Insert)
  {
    CountChar(stmt.values, '?') == |stmt.params|
  }

  /** The parameter list of the `run_audio` insert: four values per link, in link order. */
  function Flatten(customRunId: int, links: seq<AudioLink>): seq<SqlValue>
  {
    if links == [] then []
    else Flatten(customRunId, links[..|links| - 1]) + AudioParams(customRunId, links[|links| - 1])
  }

  /** Link `i` occupies parameters `4i` to `4i+3`, in column order. */
  lemma {:induction false} FlattenChunks(customRunId: int, links: seq<AudioLink>)
    ensures |Flatten(customRunId, links)| == 4 * |links|
    ensures forall i :: 0 <= i < |links| ==>
              Flatten(customRunId, links)[4 * i..4 * i + 4] == AudioParams(customRunId, links[i])
  {
    if links != [] {
      var init := links[..|links| - 1];
      FlattenChunks(customRunId, init);
      var f := Flatten(customRunId, init);
      var g := f + AudioParams(customRunId, links[|links| - 1]);
      forall i | 0 <= i < |links|
        ensures g[4 * i..4 * i + 4] == AudioParams(customRunId, links[i])
      {
        if i < |links| - 1 {
          assert g[4 * i..4 * i + 4] == f[4 * i..4 * i + 4];
          assert links[i] == init[i];
        } else {
          assert g[4 * i..4 * i + 4] == g[|f|..];
        }
      }
    }
  }

  /** The `for (const audio of audios)` loop that pushes four values per link. */
  method FlattenAudios(customRunId: int, links: seq<AudioLink>) returns (params: seq<SqlValue>)
    ensures params == Flatten(customRunId, links)
  {
    params := [];
    for k := 0 to |links|
      invariant params == Flatten(customRunId, links[..k])
    {
      assert links[..k + 1][..k] == links[..k];
      params := params + AudioParams(customRunId, links[k]);
    }
    assert links[..|links|] == links;
  }

  lemma CustomRunValuesCount()
    ensures CountChar(CustomRunValues(), '?') == 6
  {
    CountCharAbsent(", ", '?');
    SqlHandler.JoinFillCount("?", 6, ", ", '?');
    SqlHandler.WrapCount(Join(SqlHandler.Fill("?", 6), ", "));
  }

  /** The `custom_run` insert; `run_id` is NULL when falsy. */
  function CustomRunInsert(title: string, distance: real, duration: real, ownerId: int,
                           runId: Option<int>, createdAt: string): Insert
  {
    Insert("custom_run", CustomRunColumns, CustomRunValues(),
           [SqlText(title), SqlNumber(distance), SqlNumber(duration), SqlText(createdAt), SqlInt(ownerId),
            if TruthyInt(runId) then SqlInt(runId.value) else SqlNull])
  }

  /** The `custom_run` insert binds its six parameters, with `run_id` last: the id when
      truthy, NULL otherwise. */
  lemma CustomRunInsertShape(title: string, distance: real, duration: real, ownerId: int,
                             runId: Option<int>, createdAt: string)
    ensures var stmt := CustomRunInsert(title, distance, duration, ownerId, runId, createdAt);
      && stmt.table == "custom_run"
      && PlaceholdersMatch(stmt)
      && |stmt.params| == 6
      && stmt.params[5] == (if runId.Some? && runId.value != 0 then SqlInt(runId.value) else SqlNull)
  {
    CustomRunValuesCount();
  }

  /** The `run_audio` insert for the links of a new custom run. */
  function RunAudioInsert(customRunId: int, links: seq<AudioLink>): Insert
  {
    Insert("run_audio", RunAudioColumns, SqlHandler.GenNQMS(4, |links|), Flatten(customRunId, links))
  }

  /** The `run_audio` insert binds four parameters per link, in link order, and as many
      parameters as its VALUES clause has placeholders. */
  lemma RunAudioInsertShape(customRunId: int, links: seq<AudioLink>)
    ensures var stmt := RunAudioInsert(customRunId, links);
      && PlaceholdersMatch(stmt)
      && |stmt.params| == 4 * |links|
      && forall i :: 0 <= i < |links| ==> stmt.params[4 * i..4 * i + 4] == AudioParams(customRunId, links[i])
  {
    FlattenChunks(customRunId, links);
    SqlHandler.GenNQMSCount(4, |links|);
  }

  /** `createCustomRun`: `runId` is stored as NULL when falsy; `createdAt` is the
      clock reading and `insertId` the id the database assigns to the first insert. */
  method CreateCustomRun(title: string, distance: real, duration: real, ownerId: int,
                         runId: Option<int>, audios: Option<seq<AudioLink>>,
                         createdAt: string, insertId: int)
    returns (statements: seq<Insert>, customRunId: int)
    ensures customRunId == insertId
    ensures |statements| == if audios.Some? then 2 else 1
    ensures statements[0] == CustomRunInsert(title, distance, duration, ownerId, runId, createdAt)
    ensures audios.Some? ==> statements[1] == RunAudioInsert(insertId, audios.value)
    ensures forall s :: s in statements ==> PlaceholdersMatch(s)
  {
    var first := CustomRunInsert(title, distance, duration, ownerId, runId, createdAt);
    CustomRunInsertShape(title, distance, duration, ownerId, runId, createdAt);
    statements := [first];
    customRunId := insertId;
    if audios.Some? {
      var links := audios.value;
      var params := FlattenAudios(customRunId, links);
      RunAudioInsertShape(customRunId, links);
      var second := Insert("run_audio", RunAudioColumns, SqlHandler.GenNQMS(4, |links|), params);
      assert second == RunAudioInsert(customRunId, links);
      statements := [first, second];
    }
  }
}
