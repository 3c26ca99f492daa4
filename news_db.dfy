/** The storage layer of `gnoticias/db_gnoticias.py`. Its sqlite tables are
    maps held by a `Store` object: `candidatos` by `id_candidato`, and the
    three news tables `gnoticias_ex_his`, `gnoticias_ex` and `gnoticias` by
    their dedup key `(id_gnoticia, id_candidato)`. Each table change is first
    stated as a function on the map (what the SQL statement does, including
    the swallowed errors), then applied by the store method that models the
    Python function. A `storageError` argument stands for any sqlite error
    the Python code catches (no connection, locked database, a constraint
    other than the dedup key). */
module NewsDb {
  import opened Text
  import opened Calendar

  /** The `news_data` dictionary the feed processors build. */
  datatype News = News(
    candidatoId: int,
    id: string,          // id_gnoticia: the short hash of the entry id
    noticia: string,     // headline
    medio: string,       // outlet
    fecha: DateTime,
    sourceHref: string,
    ano: int, mes: int, dia: int, hora: int, minuto: int,
    diaSem: int, diaAno: int,
    link: string,
    idLargo: string      // id_original: the entry id that was hashed
  )

  /** The dedup key shared by the three news tables. */
  datatype NewsKey = NewsKey(idGnoticia: string, idCandidato: int)

  function KeyOf(n: News): NewsKey {
    NewsKey(n.id, n.candidatoId)
  }

  /** A `gnoticias` row: the item and its enrichment columns (NULL is None). */
  datatype Enriched = Enriched(news: News, sentimiento: Option<string>, tema: Option<string>,
                               fechaAnalisis: Option<int>)

  /** A `candidatos` row; `ex` and `his` are the daily and historical pass
      flags (true for 1, false for NULL). */
  datatype Candidato = Candidato(nombre: string, idTema: Option<int>, keywords: Option<string>,
                                 ex: bool, his: bool)

  /** A row of `get_news_without_sentiment`:
      `(id_gnoticia, noticia, candidato_nombre)`. */
  datatype PendingNews = PendingNews(idGnoticia: string, noticia: string, candidatoNombre: string)

  /** What a fetch loop does with one feed entry: skip it, keep its row
      (saved unless its key is already stored), or stop, abandoning the rest
      of the feed because an exception reached the loop's handler. */
  datatype Verdict = Skip | Keep(news: News) | Stop

  // ---------------------------------------------------------------------------
  // The table changes, as functions on the tables
  // ---------------------------------------------------------------------------

  /** An INSERT whose IntegrityError and other errors are caught: a row whose
      key is already present, or a failing store, leaves the table as it was. */
  function InsertIfAbsent<V>(table: map<NewsKey, V>, key: NewsKey, row: V, storageError: bool)
    : (r: map<NewsKey, V>)
    ensures forall k :: k in table ==> k in r && r[k] == table[k]
    ensures r.Keys == table.Keys + (if storageError then {} else {key})
    ensures key !in table && !storageError ==> r[key] == row
  {
    if storageError || key in table then table else table[key := row]
  }

  /** Saving the same key twice leaves the one row of the first save. */
  lemma SaveTwiceKeepsFirst<V>(table: map<NewsKey, V>, key: NewsKey, first: V, second: V,
                               storageError: bool)
    requires key !in table
    ensures InsertIfAbsent(InsertIfAbsent(table, key, first, false), key, second, storageError)
            == table[key := first]
  {
  }

  /** `UPDATE candidatos SET <campo> = 1 WHERE id_candidato = ?`, where a
      `campo` other than "ex" or "his" raises a ValueError that is caught
      before the update runs. */
  function MarkProcessed(cands: map<int, Candidato>, id: int, campo: string, storageError: bool)
    : (r: map<int, Candidato>)
    ensures r.Keys == cands.Keys
    ensures forall j :: j in cands && j != id ==> r[j] == cands[j]
    ensures id in cands && !storageError && campo == "ex" ==> r[id] == cands[id].(ex := true)
    ensures id in cands && !storageError && campo == "his" ==> r[id] == cands[id].(his := true)
    ensures storageError || (campo != "ex" && campo != "his") ==> r == cands
  {
    if storageError || id !in cands then cands
    else if campo == "ex" then cands[id := cands[id].(ex := true)]
    else if campo == "his" then cands[id := cands[id].(his := true)]
    else cands
  }

  /** `UPDATE candidatos SET ex = NULL`. */
  function ResetEx(cands: map<int, Candidato>, storageError: bool): (r: map<int, Candidato>)
    ensures r.Keys == cands.Keys
    ensures !storageError ==> forall j :: j in r ==> !r[j].ex
    ensures forall j :: j in r ==> r[j].(ex := cands[j].ex) == cands[j]
    ensures storageError ==> r == cands
  {
    if storageError then cands else map j | j in cands :: cands[j].(ex := false)
  }

  /** `UPDATE gnoticias SET sentimiento = ?, tema = ?, fecha_analisis = ?
      WHERE id_gnoticia = ?`: every row of that item, for every candidate. */
  function UpdateSentiment(rows: map<NewsKey, Enriched>, idGnoticia: string, sentimiento: Option<string>,
                           tema: Option<string>, now: int, storageError: bool)
    : (r: map<NewsKey, Enriched>)
    ensures r.Keys == rows.Keys
    ensures forall k :: k in rows && (k.idGnoticia != idGnoticia || storageError) ==> r[k] == rows[k]
    ensures forall k :: k in rows && k.idGnoticia == idGnoticia && !storageError ==>
              r[k].news == rows[k].news && r[k].sentimiento == sentimiento && r[k].tema == tema
              && r[k].fechaAnalisis == Some(now)
  {
    if storageError then rows
    else
      map k | k in rows ::
        if k.idGnoticia == idGnoticia
        then rows[k].(sentimiento := sentimiento, tema := tema, fechaAnalisis := Some(now))
        else rows[k]
  }

  /** The timestamp `ORDER BY g.fecha` sorts on. */
  function Stamp(e: Enriched): int {
    Instant(e.news.fecha)
  }

  /** Every non-empty pool of rows has a newest one. */
  lemma {:induction false} NewestExists(pool: set<NewsKey>, rows: map<NewsKey, Enriched>)
    requires pool != {} && pool <= rows.Keys
    ensures exists k :: k in pool && forall k' :: k' in pool ==> Stamp(rows[k']) <= Stamp(rows[k])
    decreases |pool|
  {
    var x :| x in pool;
    if pool != {x} {
      var rest := pool - {x};
      NewestExists(rest, rows);
      var y :| y in rest && forall k' :: k' in rest ==> Stamp(rows[k']) <= Stamp(rows[y]);
      if Stamp(rows[x]) <= Stamp(rows[y]) {
        assert forall k' :: k' in pool ==> Stamp(rows[k']) <= Stamp(rows[y]);
      } else {
        assert forall k' :: k' in pool ==> Stamp(rows[k']) <= Stamp(rows[x]);
      }
    } else {
      assert forall k' :: k' in pool ==> k' == x;
    }
  }

  /** Every finite set of ids holding `w` has a lowest id. */
  lemma {:induction false} LowestExists(ids: set<int>, w: int)
    requires w in ids
    ensures exists m :: m in ids && forall j :: j in ids ==> m <= j
    decreases |ids|
  {
    if exists j :: j in ids && j < w {
      var v :| v in ids && v < w;
      var rest := ids - {w};
      LowestExists(rest, v);
      var y :| y in rest && forall j :: j in rest ==> y <= j;
      assert forall j :: j in ids ==> j == w || j in rest;
      assert forall j :: j in ids ==> y <= j;
    } else {
      assert forall j :: j in ids ==> w <= j;
    }
  }

  /** A row of `cands` matching the daily run's candidate query:
      `ex IS NOT 1 AND id_tema IS NOT NULL`. */
  predicate AwaitsDailyRun(cands: map<int, Candidato>, j: int) {
    j in cands && !cands[j].ex && cands[j].idTema.Some?
  }

  /** When some candidate awaits the daily run, one with the lowest id does. */
  lemma LowestAwaiting(cands: map<int, Candidato>)
    requires exists j :: AwaitsDailyRun(cands, j)
    ensures exists m :: AwaitsDailyRun(cands, m) && forall j :: AwaitsDailyRun(cands, j) ==> m <= j
  {
    var w :| AwaitsDailyRun(cands, w);
    var pending := set j | j in cands && AwaitsDailyRun(cands, j);
    LowestExists(pending, w);
    var m :| m in pending && forall j :: j in pending ==> m <= j;
    assert forall j :: AwaitsDailyRun(cands, j) ==> j in pending;
  }

  /** The tables of the news database. */
  class Store {
    var candidatos: map<int, Candidato>
    var gnoticiasExHis: map<NewsKey, News>
    var gnoticiasEx: map<NewsKey, News>
    var gnoticias: map<NewsKey, Enriched>

    constructor (candidatos: map<int, Candidato>, gnoticiasExHis: map<NewsKey, News>,
                 gnoticiasEx: map<NewsKey, News>, gnoticias: map<NewsKey, Enriched>)
      ensures this.candidatos == candidatos && this.gnoticiasExHis == gnoticiasExHis
      ensures this.gnoticiasEx == gnoticiasEx && this.gnoticias == gnoticias
    {
      this.candidatos := candidatos;
      this.gnoticiasExHis := gnoticiasExHis;
      this.gnoticiasEx := gnoticiasEx;
      this.gnoticias := gnoticias;
    }

    /** `news_exists`: is the key in `gnoticias_ex_his`? Fails open: a storage
        error answers false. */
    function NewsExists(newsId: string, candidatoId: int, storageError: bool): (r: bool)
      reads this
      ensures r <==> !storageError && NewsKey(newsId, candidatoId) in gnoticiasExHis
    {
      if storageError then false else NewsKey(newsId, candidatoId) in gnoticiasExHis
    }

    /** `news_exists_dia`: the same check on `gnoticias_ex`. */
    function NewsExistsDia(newsId: string, candidatoId: int, storageError: bool): (r: bool)
      reads this
      ensures r <==> !storageError && NewsKey(newsId, candidatoId) in gnoticiasEx
    {
      if storageError then false else NewsKey(newsId, candidatoId) in gnoticiasEx
    }

    /** `news_exists_in_gnoticias`: the same check on `gnoticias`. */
    function NewsExistsInGnoticias(newsId: string, candidatoId: int, storageError: bool): (r: bool)
      reads this
      ensures r <==> !storageError && NewsKey(newsId, candidatoId) in gnoticias
    {
      if storageError then false else NewsKey(newsId, candidatoId) in gnoticias
    }

    /** `save_news_to_db`: insert into `gnoticias_ex_his`, never raising. */
    method SaveNewsToDb(news: News, storageError: bool)
      modifies this
      ensures gnoticiasExHis == InsertIfAbsent(old(gnoticiasExHis), KeyOf(news), news, storageError)
      ensures candidatos == old(candidatos) && gnoticiasEx == old(gnoticiasEx) && gnoticias == old(gnoticias)
    {
      gnoticiasExHis := InsertIfAbsent(gnoticiasExHis, KeyOf(news), news, storageError);
    }

    /** `save_news_to_db_dia`: insert into `gnoticias_ex`, never raising. */
    method SaveNewsToDbDia(news: News, storageError: bool)
      modifies this
      ensures gnoticiasEx == InsertIfAbsent(old(gnoticiasEx), KeyOf(news), news, storageError)
      ensures candidatos == old(candidatos) && gnoticiasExHis == old(gnoticiasExHis) && gnoticias == old(gnoticias)
    {
      gnoticiasEx := InsertIfAbsent(gnoticiasEx, KeyOf(news), news, storageError);
    }

    /** `save_news_to_gnoticias_with_sentiment`: insert into `gnoticias` with
        the dictionary's optional `sentimiento` and `tema`; a duplicate key is
        silently ignored. */
    method SaveNewsToGnoticiasWithSentiment(news: News, sentimiento: Option<string>, tema: Option<string>,
                                            storageError: bool)
      modifies this
      ensures gnoticias == InsertIfAbsent(old(gnoticias), KeyOf(news),
                                          Enriched(news, sentimiento, tema, None), storageError)
      ensures candidatos == old(candidatos) && gnoticiasExHis == old(gnoticiasExHis) && gnoticiasEx == old(gnoticiasEx)
    {
      gnoticias := InsertIfAbsent(gnoticias, KeyOf(news), Enriched(news, sentimiento, tema, None), storageError);
    }

    /** `save_news_to_gnoticias`, which the historical script imports but
        `db_gnoticias.py` does not define: taken to be an insert-if-absent
        into `gnoticias` with no enrichment. */
    method SaveNewsToGnoticias(news: News, storageError: bool)
      modifies this
      ensures gnoticias == InsertIfAbsent(old(gnoticias), KeyOf(news), Enriched(news, None, None, None), storageError)
      ensures candidatos == old(candidatos) && gnoticiasExHis == old(gnoticiasExHis) && gnoticiasEx == old(gnoticiasEx)
    {
      gnoticias := InsertIfAbsent(gnoticias, KeyOf(news), Enriched(news, None, None, None), storageError);
    }

    /** `marcar_candidato_como_procesado`. */
    method MarcarCandidatoComoProcesado(candidatoId: int, campo: string, storageError: bool)
      modifies this
      ensures candidatos == MarkProcessed(old(candidatos), candidatoId, campo, storageError)
      ensures gnoticiasExHis == old(gnoticiasExHis) && gnoticiasEx == old(gnoticiasEx) && gnoticias == old(gnoticias)
    {
      candidatos := MarkProcessed(candidatos, candidatoId, campo, storageError);
    }

    /** `reset_candidatos_news`. */
    method ResetCandidatosNews(storageError: bool)
      modifies this
      ensures candidatos == ResetEx(old(candidatos), storageError)
      ensures gnoticiasExHis == old(gnoticiasExHis) && gnoticiasEx == old(gnoticiasEx) && gnoticias == old(gnoticias)
    {
      candidatos := ResetEx(candidatos, storageError);
    }

    /** `update_news_sentiment`, with `datetime.now()` given as `now`. */
    method UpdateNewsSentiment(idGnoticia: string, sentimiento: Option<string>, tema: Option<string>,
                               now: int, storageError: bool)
      modifies this
      ensures gnoticias == UpdateSentiment(old(gnoticias), idGnoticia, sentimiento, tema, now, storageError)
      ensures candidatos == old(candidatos) && gnoticiasExHis == old(gnoticiasExHis) && gnoticiasEx == old(gnoticiasEx)
    {
      gnoticias := UpdateSentiment(gnoticias, idGnoticia, sentimiento, tema, now, storageError);
    }

    /** The daily run's candidate query (`ORDER BY id_candidato ASC LIMIT 1`):
        the lowest id still awaiting the run, or None when none is left. */
    function NextCandidate(): (r: Option<int>)
      reads this
      ensures r.Some? ==> AwaitsDailyRun(candidatos, r.value)
                          && forall j :: AwaitsDailyRun(candidatos, j) ==> r.value <= j
      ensures r.None? ==> forall j :: !AwaitsDailyRun(candidatos, j)
    {
      if forall j :: j in candidatos ==> !AwaitsDailyRun(candidatos, j) then None
      else
        LowestAwaiting(candidatos);
        var m :| m in candidatos && AwaitsDailyRun(candidatos, m)
                 && forall j :: j in candidatos && AwaitsDailyRun(candidatos, j) ==> m <= j;
        Some(m)
    }

    /** A `gnoticias` row the enrichment query selects: no sentiment yet, and
        its candidate exists (the inner join). */
    predicate IsPending(k: NewsKey)
      reads this
    {
      k in gnoticias && gnoticias[k].sentimiento.None? && k.idCandidato in candidatos
    }

    /** The `fecha` of a `gnoticias` row, as the query sorts it. */
    function StampOf(k: NewsKey): int
      reads this
    {
      if k in gnoticias then Stamp(gnoticias[k]) else 0
    }

    function PendingOf(k: NewsKey): PendingNews
      reads this
      requires IsPending(k)
    {
      PendingNews(k.idGnoticia, gnoticias[k].news.noticia, candidatos[k.idCandidato].nombre)
    }

    /** `get_news_without_sentiment(limit)`: the `limit` newest pending rows,
        newest first (rows with equal `fecha` in either order), or `[]` on a
        storage error. `keys` names the `gnoticias` row behind each result. */
    method GetNewsWithoutSentiment(limit: nat, storageError: bool)
      returns (rows: seq<PendingNews>, ghost keys: seq<NewsKey>)
      ensures storageError ==> rows == []
      ensures |rows| == |keys| <= limit
      ensures forall i :: 0 <= i < |keys| ==> IsPending(keys[i]) && rows[i] == PendingOf(keys[i])
      ensures forall i, j :: 0 <= i < j < |keys| ==> keys[i] != keys[j]
      ensures forall i, j :: 0 <= i < j < |keys| ==> StampOf(keys[j]) <= StampOf(keys[i])
      ensures forall k, i :: IsPending(k) && k !in keys && 0 <= i < |keys| ==>
                StampOf(k) <= StampOf(keys[i])
      ensures !storageError && |rows| < limit ==> forall k :: IsPending(k) ==> k in keys
    {
      rows, keys := [], [];
      if storageError {
        return;
      }
      var pool := set k | k in gnoticias && IsPending(k);
      while |rows| < limit && pool != {}
        invariant |rows| == |keys| <= limit
        invariant Selection(pool, rows, keys)
        decreases |pool|
      {
        NewestExists(pool, gnoticias);
        var k :| k in pool && forall k' :: k' in pool ==> Stamp(gnoticias[k']) <= Stamp(gnoticias[k]);
        SelectNewest(pool, rows, keys, k);
        keys := keys + [k];
        rows := rows + [PendingOf(k)];
        pool := pool - {k};
      }
    }

    /** The state of the query loop: `keys` are distinct pending rows, newest
        first, `rows` their results, and `pool` the pending rows not yet
        taken, none newer than a taken one. */
    ghost predicate Selection(pool: set<NewsKey>, rows: seq<PendingNews>, keys: seq<NewsKey>)
      reads this
    {
      && |rows| == |keys|
      && (forall k :: k in pool <==> IsPending(k) && k !in keys)
      && (forall i :: 0 <= i < |keys| ==> IsPending(keys[i]) && rows[i] == PendingOf(keys[i]))
      && (forall i, j :: 0 <= i < j < |keys| ==> keys[i] != keys[j])
      && (forall i, j :: 0 <= i < j < |keys| ==> StampOf(keys[j]) <= StampOf(keys[i]))
      && (forall k, i :: k in pool && 0 <= i < |keys| ==> StampOf(k) <= StampOf(keys[i]))
    }

    /** Taking the newest row of the pool keeps the loop's state. */
    lemma SelectNewest(pool: set<NewsKey>, rows: seq<PendingNews>, keys: seq<NewsKey>, k: NewsKey)
      requires Selection(pool, rows, keys)
      requires k in pool && forall k' :: k' in pool ==> Stamp(gnoticias[k']) <= Stamp(gnoticias[k])
      ensures Selection(pool - {k}, rows + [PendingOf(k)], keys + [k])
    {
      assert forall k' :: k' in pool ==> StampOf(k') <= StampOf(k);
    }
  }
}
