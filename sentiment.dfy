/** The sentiment pass of `gnoticias/procesar_sentimientos.py`: reads the
    Gemini key from the key file, takes the newest `gnoticias` rows without a
    sentiment, asks the model for a topic and a sentiment per headline and
    writes them back. The key file is given as its lines, the model as a
    function from prompt to reply, and `datetime.now()` as `now`. */
module Sentiment {
  import opened Text
  import opened NewsDb
  import opened RunLedger

  // ---------------------------------------------------------------------------
  // get_api_key
  // ---------------------------------------------------------------------------

  /** Line `i` is the first line starting with `keyName`. */
  predicate FirstWithPrefix(lines: seq<string>, keyName: string, i: int) {
    && 0 <= i < |lines|
    && keyName <= lines[i]
    && forall j :: 0 <= j < i ==> !(keyName <= lines[j])
  }

  /** `line.strip().split('=')[1]`; None when the line has no `=` (the
      IndexError, which `get_api_key` catches). */
  function KeyOfLine(line: string): (r: Option<string>)
    ensures r.Some? <==> |SplitOn(Strip(line), '=')| >= 2
    ensures r.Some? ==> r.value == SplitOn(Strip(line), '=')[1] && '=' !in r.value
    ensures r.None? <==> '=' !in line
  {
    StripKeeps(line, '=');
    SplitOnSeveral(Strip(line), '=');
    var fields := SplitOn(Strip(line), '=');
    if |fields| >= 2 then Some(fields[1]) else None
  }

  /** What `get_api_key` returns for an existing file: the key of the first
      line starting with `keyName`, None when there is no such line. */
  function ApiKeyOf(lines: seq<string>, keyName: string): (r: Option<string>)
    ensures forall i :: FirstWithPrefix(lines, keyName, i) ==> r == KeyOfLine(lines[i])
    ensures (forall i :: 0 <= i < |lines| ==> !(keyName <= lines[i])) ==> r.None?
  {
    if lines == [] then None
    else if keyName <= lines[0] then KeyOfLine(lines[0])
    else
      var r := ApiKeyOf(lines[1..], keyName);
      assert forall i :: FirstWithPrefix(lines, keyName, i) ==> FirstWithPrefix(lines[1..], keyName, i - 1);
      r
  }

  /** `get_api_key`: the loop over the lines of the key file, which returns
      at the first line starting with `keyName`. `lines` is None for a
      missing file. */
  method GetApiKey(lines: Option<seq<string>>, keyName: string) returns (key: Option<string>)
    ensures key == if lines.None? then None else ApiKeyOf(lines.value, keyName)
  {
    if lines.None? {
      return None;
    }
    var f := lines.value;
    var i := 0;
    while i < |f|
      invariant 0 <= i <= |f|
      invariant ApiKeyOf(f[i..], keyName) == ApiKeyOf(f, keyName)
    {
      assert f[i..][0] == f[i] && f[i..][1..] == f[i + 1..];
      if keyName <= f[i] {
        return KeyOfLine(f[i]);
      }
      i := i + 1;
    }
    return None;
  }

  // ---------------------------------------------------------------------------
  // analizar_sentimiento
  // ---------------------------------------------------------------------------

  /** What `json.loads` makes of the model's reply: an object (its string
      members), `null`, or any other JSON value, of which only the Python
      type name and truthiness matter here. */
  datatype JsonValue = JObject(members: map<string, string>) | JNull | JOther(typeName: string, truthy: bool)

  /** Python truthiness of the parsed reply. */
  predicate Truthy(v: JsonValue) {
    match v
    case JObject(m) => m != map[]
    case JNull => false
    case JOther(_, t) => t
  }

  /** `dict.get(key)`. */
  function Get(m: map<string, string>, key: string): Option<string> {
    if key in m then Some(m[key]) else None
  }

  /** `analizar_sentimiento`: the parsed reply, or None (here `JNull`) when
      the model call or the JSON parse raised. */
  function AnalizarSentimiento(reply: Outcome<JsonValue>): (r: JsonValue)
    ensures reply.Raised? ==> !Truthy(r)
    ensures reply.Returned? ==> r == reply.value
  {
    match reply
    case Raised(_) => JNull
    case Returned(v) => v
  }

  /** The fixed lines of the prompt, between the interpolated values. */
  const PromptIntro: string := "\n        Analiza el siguiente titular de una noticia sobre "
  const PromptMiddle: string := ".\n        Extrae el tema principal en una frase corta (m\U{E1}x 5 palabras).\n        Clasifica el sentimiento hacia "
  const PromptOutro: string := " en: Positivo, Negativo, o Neutral.\n        Retorna solo un JSON con claves \"tema_principal\" y \"sentimiento\".\n        Titular: "
  const PromptEnd: string := "\n        "

  /** The prompt sent for one headline. */
  function Prompt(candidatoNombre: string, titular: string): string {
    PromptIntro + candidatoNombre + PromptMiddle + candidatoNombre + PromptOutro + titular + PromptEnd
  }

  // ---------------------------------------------------------------------------
  // procesar_todas_las_noticias_sin_sentimiento
  // ---------------------------------------------------------------------------

  /** The model, from prompt to reply (a raised exception included). */
  type Model = string -> Outcome<JsonValue>

  /** The parsed reply for one pending row. */
  function ReplyFor(row: PendingNews, gemini: Model): JsonValue {
    AnalizarSentimiento(gemini(Prompt(row.candidatoNombre, row.noticia)))
  }

  /** The row's reply is a non-empty object: the row gets updated and
      counted. */
  predicate Analysed(row: PendingNews, gemini: Model) {
    var v := ReplyFor(row, gemini);
    v.JObject? && Truthy(v)
  }

  /** The reply's `sentimiento` member, None when absent or when the reply
      is not an object. */
  function ReplySentiment(row: PendingNews, gemini: Model): Option<string> {
    match ReplyFor(row, gemini)
    case JObject(m) => Get(m, "sentimiento")
    case _ => None
  }

  /** The reply's `tema_principal` member, None when absent or when the reply
      is not an object. */
  function ReplyTema(row: PendingNews, gemini: Model): Option<string> {
    match ReplyFor(row, gemini)
    case JObject(m) => Get(m, "tema_principal")
    case _ => None
  }

  /** The row's reply is a truthy value that is not an object, on which
      `.get` raises. */
  predicate RaisesOnGet(row: PendingNews, gemini: Model) {
    var v := ReplyFor(row, gemini);
    v.JOther? && Truthy(v)
  }

  /** `str(e)` of the AttributeError raised by `.get` on a parsed value that
      is not a dictionary. */
  function NoGetMessage(typeName: string): string {
    "'" + typeName + "' object has no attribute 'get'"
  }

  /** What the batch loop changes: `gnoticias`, the run ledger and the
      count of updated rows. */
  datatype BatchState = BatchState(gnoticias: map<NewsKey, Enriched>, records: map<nat, RunRecord>, total: nat)

  /** One row of the batch. A non-empty object updates every `gnoticias` row
      of the item with its `sentimiento` and `tema_principal` (None when
      missing) and counts; any other truthy value makes `.get` raise, which
      is logged against the run; a falsy reply is skipped for a later run. */
  function Step(st: BatchState, row: PendingNews, logId: Option<nat>, gemini: Model, now: int): (r: BatchState)
    ensures r.total == st.total + (if Analysed(row, gemini) then 1 else 0)
    ensures r.gnoticias.Keys == st.gnoticias.Keys
    ensures forall k :: k in st.gnoticias ==> r.gnoticias[k].news == st.gnoticias[k].news
    ensures forall k :: k in st.gnoticias && (k.idGnoticia != row.idGnoticia || !Analysed(row, gemini)) ==>
              r.gnoticias[k] == st.gnoticias[k]
    ensures forall k :: k in st.gnoticias && k.idGnoticia == row.idGnoticia && Analysed(row, gemini) ==>
              && r.gnoticias[k].fechaAnalisis == Some(now)
              && r.gnoticias[k].sentimiento == ReplySentiment(row, gemini)
              && r.gnoticias[k].tema == ReplyTema(row, gemini)
    ensures r.records.Keys == st.records.Keys
    ensures !RaisesOnGet(row, gemini) ==> r.records == st.records
    ensures logId.Some? && logId.value in st.records && RaisesOnGet(row, gemini) ==>
              && r.records[logId.value].estado == "error"
              && r.records[logId.value].mensaje == NoGetMessage(ReplyFor(row, gemini).typeName)
              && r.records[logId.value].fechaFin == Some(now)
    ensures forall j :: j in st.records && (logId.None? || j != logId.value) ==> r.records[j] == st.records[j]
    ensures forall j :: j in st.records ==>
              r.records[j].proceso == st.records[j].proceso && r.records[j].fechaInicio == st.records[j].fechaInicio
  {
    var v := ReplyFor(row, gemini);
    if !Truthy(v) then st
    else
      match v
      case JObject(m) =>
        BatchState(UpdateSentiment(st.gnoticias, row.idGnoticia, Get(m, "sentimiento"), Get(m, "tema_principal"),
                                   now, false),
                   st.records, st.total + 1)
      case JNull => st
      case JOther(t, _) =>
        if logId.Some? then st.(records := Finish(st.records, logId.value, "error", NoGetMessage(t), now, false))
        else st
  }

  function Batch(st: BatchState, rows: seq<PendingNews>, logId: Option<nat>, gemini: Model, now: int): BatchState
    decreases |rows|
  {
    if rows == [] then st else Batch(Step(st, rows[0], logId, gemini, now), rows[1..], logId, gemini, now)
  }

  function CountAnalysed(rows: seq<PendingNews>, gemini: Model): (n: nat)
    ensures n <= |rows|
  {
    if rows == [] then 0 else (if Analysed(rows[0], gemini) then 1 else 0) + CountAnalysed(rows[1..], gemini)
  }

  /** The returned total counts exactly the rows whose reply was a
      non-empty object, so never more than the batch. */
  lemma {:induction false} BatchTotal(st: BatchState, rows: seq<PendingNews>, logId: Option<nat>, gemini: Model,
                                      now: int)
    ensures Batch(st, rows, logId, gemini, now).total == st.total + CountAnalysed(rows, gemini)
    decreases |rows|
  {
    if rows != [] {
      BatchTotal(Step(st, rows[0], logId, gemini, now), rows[1..], logId, gemini, now);
    }
  }

  /** Some row of the batch is about item `id` and was analysed. */
  predicate AnalysedItem(rows: seq<PendingNews>, id: string, gemini: Model) {
    exists i :: 0 <= i < |rows| && rows[i].idGnoticia == id && Analysed(rows[i], gemini)
  }

  /** The batch keeps every `gnoticias` key; a row is changed only when some
      batch row of the same item was analysed, and such a row ends up with
      the analysis time and its item unchanged. */
  lemma {:induction false} BatchRows(st: BatchState, rows: seq<PendingNews>, logId: Option<nat>, gemini: Model,
                                     now: int)
    ensures var r := Batch(st, rows, logId, gemini, now).gnoticias;
            && r.Keys == st.gnoticias.Keys
            && (forall k :: k in st.gnoticias ==> r[k].news == st.gnoticias[k].news)
            && (forall k :: k in st.gnoticias && !AnalysedItem(rows, k.idGnoticia, gemini) ==>
                  r[k] == st.gnoticias[k])
            && (forall k :: k in st.gnoticias && AnalysedItem(rows, k.idGnoticia, gemini) ==>
                  r[k].fechaAnalisis == Some(now))
    decreases |rows|
  {
    if rows != [] {
      var st1 := Step(st, rows[0], logId, gemini, now);
      BatchRows(st1, rows[1..], logId, gemini, now);
      var r := Batch(st, rows, logId, gemini, now).gnoticias;
      assert forall i :: 1 <= i < |rows| ==> rows[i] == rows[1..][i - 1];
      forall k | k in st.gnoticias
        ensures AnalysedItem(rows, k.idGnoticia, gemini) <==>
                  (rows[0].idGnoticia == k.idGnoticia && Analysed(rows[0], gemini))
                  || AnalysedItem(rows[1..], k.idGnoticia, gemini)
      {
        if AnalysedItem(rows, k.idGnoticia, gemini) {
          var i :| 0 <= i < |rows| && rows[i].idGnoticia == k.idGnoticia && Analysed(rows[i], gemini);
          if i > 0 {
            assert rows[1..][i - 1] == rows[i];
          }
        }
      }
    }
  }

  /** Row `i` of the batch is the last one about item `id` whose reply was
      analysed. */
  predicate LastAnalysedAt(rows: seq<PendingNews>, id: string, gemini: Model, i: int) {
    && 0 <= i < |rows| && rows[i].idGnoticia == id && Analysed(rows[i], gemini)
    && forall j :: i < j < |rows| && rows[j].idGnoticia == id ==> !Analysed(rows[j], gemini)
  }

  /** The values a `gnoticias` row ends up with are those of the last
      analysed batch row of its item: later updates overwrite earlier ones. */
  lemma {:induction false} BatchValueAt(st: BatchState, rows: seq<PendingNews>, logId: Option<nat>, gemini: Model,
                                        now: int, k: NewsKey, i: int)
    requires k in st.gnoticias && LastAnalysedAt(rows, k.idGnoticia, gemini, i)
    ensures var r := Batch(st, rows, logId, gemini, now).gnoticias;
            k in r && r[k].sentimiento == ReplySentiment(rows[i], gemini) && r[k].tema == ReplyTema(rows[i], gemini)
    decreases |rows|
  {
    var st1 := Step(st, rows[0], logId, gemini, now);
    assert Batch(st, rows, logId, gemini, now) == Batch(st1, rows[1..], logId, gemini, now);
    if i == 0 {
      BatchRows(st1, rows[1..], logId, gemini, now);
      assert !AnalysedItem(rows[1..], k.idGnoticia, gemini) by {
        forall j | 0 <= j < |rows| - 1
          ensures !(rows[1..][j].idGnoticia == k.idGnoticia && Analysed(rows[1..][j], gemini))
        {
          assert rows[1..][j] == rows[j + 1];
        }
      }
    } else {
      assert LastAnalysedAt(rows[1..], k.idGnoticia, gemini, i - 1) by {
        assert forall j :: i - 1 < j < |rows| - 1 ==> rows[1..][j] == rows[j + 1];
      }
      BatchValueAt(st1, rows[1..], logId, gemini, now, k, i - 1);
    }
  }

  /** What the batch does to `gnoticias` and the count depends neither on
      the ledger nor on the run id errors are logged against. */
  lemma {:induction false} BatchIgnoresLedger(st1: BatchState, st2: BatchState, rows: seq<PendingNews>,
                                              logId1: Option<nat>, logId2: Option<nat>, gemini: Model, now: int)
    requires st1.gnoticias == st2.gnoticias && st1.total == st2.total
    ensures Batch(st1, rows, logId1, gemini, now).gnoticias == Batch(st2, rows, logId2, gemini, now).gnoticias
    ensures Batch(st1, rows, logId1, gemini, now).total == Batch(st2, rows, logId2, gemini, now).total
    decreases |rows|
  {
    if rows != [] {
      BatchIgnoresLedger(Step(st1, rows[0], logId1, gemini, now), Step(st2, rows[0], logId2, gemini, now), rows[1..],
                         logId1, logId2, gemini, now);
    }
  }

  /** The batch touches no ledger record but the run's own, and keeps that
      one's process name and start time. */
  lemma {:induction false} BatchRecords(st: BatchState, rows: seq<PendingNews>, logId: Option<nat>, gemini: Model,
                                        now: int)
    ensures var r := Batch(st, rows, logId, gemini, now).records;
            && r.Keys == st.records.Keys
            && (forall j :: j in st.records && (logId.None? || j != logId.value) ==> r[j] == st.records[j])
            && (forall j :: j in st.records ==>
                  r[j].proceso == st.records[j].proceso && r[j].fechaInicio == st.records[j].fechaInicio)
    decreases |rows|
  {
    if rows != [] {
      BatchRecords(Step(st, rows[0], logId, gemini, now), rows[1..], logId, gemini, now);
    }
  }

  /** `batch` is what `get_news_without_sentiment(limit=250)` returns from
      `store`: pending rows of distinct `keys`, newest first, none newer left
      out, and all of them when there are fewer than 250. */
  ghost predicate NewestPending(store: Store, batch: seq<PendingNews>, keys: seq<NewsKey>)
    reads store
  {
    && |batch| == |keys| <= BatchLimit
    && (forall i :: 0 <= i < |keys| ==> store.IsPending(keys[i]) && batch[i] == store.PendingOf(keys[i]))
    && (forall i, j :: 0 <= i < j < |keys| ==> keys[i] != keys[j])
    && (forall i, j :: 0 <= i < j < |keys| ==> store.StampOf(keys[j]) <= store.StampOf(keys[i]))
    && (forall k, i :: store.IsPending(k) && k !in keys && 0 <= i < |keys| ==> store.StampOf(k) <= store.StampOf(keys[i]))
    && (|keys| < BatchLimit ==> forall k :: store.IsPending(k) ==> k in keys)
  }

  /** The loop of `procesar_todas_las_noticias_sin_sentimiento`: each row
      of the batch analysed in turn, with no early stop. */
  method AnalyseBatch(store: Store, ledger: Ledger, newsBatch: seq<PendingNews>, logId: Option<nat>,
                      gemini: Model, now: int)
    returns (total: nat)
    requires ledger.Valid()
    modifies store, ledger
    ensures ledger.Valid()
    ensures BatchState(store.gnoticias, ledger.records, total)
            == Batch(BatchState(old(store.gnoticias), old(ledger.records), 0), newsBatch, logId, gemini, now)
    ensures store.candidatos == old(store.candidatos)
    ensures store.gnoticiasExHis == old(store.gnoticiasExHis) && store.gnoticiasEx == old(store.gnoticiasEx)
  {
    total := 0;
    ghost var st0 := BatchState(store.gnoticias, ledger.records, 0);
    var i := 0;
    while i < |newsBatch|
      invariant 0 <= i <= |newsBatch|
      invariant ledger.Valid()
      invariant Batch(BatchState(store.gnoticias, ledger.records, total), newsBatch[i..], logId, gemini, now)
                == Batch(st0, newsBatch, logId, gemini, now)
      invariant store.candidatos == old(store.candidatos)
      invariant store.gnoticiasExHis == old(store.gnoticiasExHis) && store.gnoticiasEx == old(store.gnoticiasEx)
    {
      assert newsBatch[i..][0] == newsBatch[i] && newsBatch[i..][1..] == newsBatch[i + 1..];
      var news := newsBatch[i];
      ghost var before := BatchState(store.gnoticias, ledger.records, total);
      var prompt := Prompt(news.candidatoNombre, news.noticia);
      var analisisJson := AnalizarSentimiento(gemini(prompt));
      if Truthy(analisisJson) {
        match analisisJson
        case JObject(m) =>
          store.UpdateNewsSentiment(news.idGnoticia, Get(m, "sentimiento"), Get(m, "tema_principal"), now, false);
          total := total + 1;
        case JNull =>
        case JOther(t, _) =>
          if logId.Some? {
            ledger.LogErrorUpdate(logId.value, NoGetMessage(t), now, false);
          }
      }
      assert BatchState(store.gnoticias, ledger.records, total) == Step(before, news, logId, gemini, now);
      i := i + 1;
    }
  }

  /** The batch size `get_news_without_sentiment` is called with. */
  const BatchLimit: nat := 250

  /** `procesar_todas_las_noticias_sin_sentimiento`: the newest pending rows
      (at most 250), each analysed in turn. `batch` is the batch the query
      returned and `keys` the rows it came from. */
  method ProcesarTodasLasNoticiasSinSentimiento(store: Store, ledger: Ledger, logId: Option<nat>, gemini: Model,
                                                now: int)
    returns (total: nat, ghost batch: seq<PendingNews>, ghost keys: seq<NewsKey>)
    requires ledger.Valid()
    modifies store, ledger
    ensures ledger.Valid() && old(NewestPending(store, batch, keys))
    ensures BatchState(store.gnoticias, ledger.records, total)
            == Batch(BatchState(old(store.gnoticias), old(ledger.records), 0), batch, logId, gemini, now)
    ensures store.candidatos == old(store.candidatos)
    ensures store.gnoticiasExHis == old(store.gnoticiasExHis) && store.gnoticiasEx == old(store.gnoticiasEx)
  {
    var newsBatch, newsKeys := store.GetNewsWithoutSentiment(BatchLimit, false);
    batch, keys := newsBatch, newsKeys;
    assert NewestPending(store, batch, keys);
    if |newsBatch| == 0 {
      return 0, batch, keys;
    }
    total := AnalyseBatch(store, ledger, newsBatch, logId, gemini, now);
  }

  // ---------------------------------------------------------------------------
  // main
  // ---------------------------------------------------------------------------

  const SentimentProcess: string := "procesar_sentimientos"

  const ApiKeyName: string := "GEMINI_API_KEY"

  /** The key file holds a non-empty `GEMINI_API_KEY`, which `main` needs
      before it does anything. */
  predicate HasApiKey(keyFile: Option<seq<string>>) {
    keyFile.Some? && var key := ApiKeyOf(keyFile.value, ApiKeyName); key.Some? && key.value != ""
  }

  /** The `gnoticias` table after a batch, which depends on the table, the
      batch and the replies only. */
  function NewsAfterBatch(g: map<NewsKey, Enriched>, rows: seq<PendingNews>, gemini: Model, now: int)
    : map<NewsKey, Enriched>
  {
    Batch(BatchState(g, map[], 0), rows, None, gemini, now).gnoticias
  }

  /** A batch run against the ledger of run `id` changes `gnoticias` as
      `NewsAfterBatch` says and counts its analysed rows. */
  lemma BatchOutcome(g: map<NewsKey, Enriched>, records: map<nat, RunRecord>, rows: seq<PendingNews>, id: nat,
                     gemini: Model, now: int)
    ensures var b := Batch(BatchState(g, records, 0), rows, Some(id), gemini, now);
            b.gnoticias == NewsAfterBatch(g, rows, gemini, now) && b.total == CountAnalysed(rows, gemini)
  {
    BatchIgnoresLedger(BatchState(g, records, 0), BatchState(g, map[], 0), rows, Some(id), None, gemini, now);
    BatchTotal(BatchState(g, records, 0), rows, Some(id), gemini, now);
  }

  /** The batch of `main`, its errors logged against run `id`: only that
      record of the ledger may change, and it keeps its process name and
      start time. */
  method ProcessUnderRun(store: Store, ledger: Ledger, id: nat, gemini: Model, now: int)
    returns (total: nat, ghost batch: seq<PendingNews>, ghost keys: seq<NewsKey>)
    requires ledger.Valid()
    modifies store, ledger
    ensures ledger.Valid() && old(NewestPending(store, batch, keys))
    ensures total == CountAnalysed(batch, gemini)
    ensures store.gnoticias == NewsAfterBatch(old(store.gnoticias), batch, gemini, now)
    ensures ledger.records.Keys == old(ledger.records).Keys
    ensures forall j :: j in old(ledger.records) && j != id ==> ledger.records[j] == old(ledger.records)[j]
    ensures id in old(ledger.records) ==>
              && ledger.records[id].proceso == old(ledger.records)[id].proceso
              && ledger.records[id].fechaInicio == old(ledger.records)[id].fechaInicio
    ensures store.candidatos == old(store.candidatos)
    ensures store.gnoticiasExHis == old(store.gnoticiasExHis) && store.gnoticiasEx == old(store.gnoticiasEx)
  {
    ghost var started := ledger.records;
    ghost var g0 := store.gnoticias;
    total, batch, keys := ProcesarTodasLasNoticiasSinSentimiento(store, ledger, Some(id), gemini, now);
    BatchRecords(BatchState(g0, started, 0), batch, Some(id), gemini, now);
    BatchOutcome(g0, started, batch, id, gemini, now);
  }

  /** The part of `main` that runs once a key was found: the run is
      recorded, the batch processed, and the run closed as `completed` with
      the count, whatever error the batch logged before. */
  method RunWithKey(store: Store, ledger: Ledger, gemini: Model, now: int)
    returns (id: nat, total: nat, ghost batch: seq<PendingNews>, ghost keys: seq<NewsKey>)
    requires ledger.Valid()
    modifies store, ledger
    ensures ledger.Valid() && old(NewestPending(store, batch, keys))
    ensures total == CountAnalysed(batch, gemini)
    ensures store.gnoticias == NewsAfterBatch(old(store.gnoticias), batch, gemini, now)
    ensures id !in old(ledger.records)
    ensures ledger.records.Keys == old(ledger.records).Keys + {id}
    ensures forall j :: j in old(ledger.records) ==> ledger.records[j] == old(ledger.records)[j]
    ensures ledger.records[id]
            == RunRecord(SentimentProcess, "completed", "Total procesadas: " + NatToString(total), now, Some(now))
    ensures store.candidatos == old(store.candidatos)
    ensures store.gnoticiasExHis == old(store.gnoticiasExHis) && store.gnoticiasEx == old(store.gnoticiasEx)
  {
    id := ledger.LogStart(SentimentProcess, Some("Inicio de an\U{E1}lisis de sentimientos faltantes"), now, false);
    total, batch, keys := ProcessUnderRun(store, ledger, id, gemini, now);
    ledger.LogEnd(id, "completed", Some("Total procesadas: " + NatToString(total)), now, false);
  }

  /** `main`: without a key nothing is logged or changed; otherwise the run
      goes as `RunWithKey` says. */
  method MainSentimientos(keyFile: Option<seq<string>>, store: Store, ledger: Ledger, gemini: Model, now: int)
    returns (logId: Option<nat>, total: nat, ghost batch: seq<PendingNews>, ghost keys: seq<NewsKey>)
    requires ledger.Valid()
    modifies store, ledger
    ensures ledger.Valid()
    ensures logId.Some? <==> HasApiKey(keyFile)
    ensures logId.Some? ==>
              && old(NewestPending(store, batch, keys))
              && total == CountAnalysed(batch, gemini)
              && store.gnoticias == NewsAfterBatch(old(store.gnoticias), batch, gemini, now)
    ensures logId.None? ==> ledger.records == old(ledger.records) && store.gnoticias == old(store.gnoticias)
    ensures logId.Some? ==>
              && logId.value !in old(ledger.records)
              && ledger.records.Keys == old(ledger.records).Keys + {logId.value}
              && (forall j :: j in old(ledger.records) ==> ledger.records[j] == old(ledger.records)[j])
              && ledger.records[logId.value]
                 == RunRecord(SentimentProcess, "completed", "Total procesadas: " + NatToString(total), now, Some(now))
    ensures store.candidatos == old(store.candidatos)
    ensures store.gnoticiasExHis == old(store.gnoticiasExHis) && store.gnoticiasEx == old(store.gnoticiasEx)
  {
    var apiKey := GetApiKey(keyFile, ApiKeyName);
    if apiKey.None? || apiKey.value == "" {
      return None, 0, [], [];
    }
    var id;
    id, total, batch, keys := RunWithKey(store, ledger, gemini, now);
    logId := Some(id);
  }
}
