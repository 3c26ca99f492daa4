/** The run ledger of `gnoticias/db_log_ejecucion.py`: the `log_ejecucion`
    table, one record per batch run. `uuid4()` ids are modelled by a counter
    that only grows, so each new id is fresh; `datetime.now()` is a `now`
    argument; `storageError` stands for any error the functions catch. No
    function here lets an error escape. */
module RunLedger {
  import opened Text

  /** A `log_ejecucion` row. */
  datatype RunRecord = RunRecord(proceso: string, estado: string, mensaje: string,
                                 fechaInicio: int, fechaFin: Option<int>)

  /** The INSERT of `log_start`: a `running` record under `id`, with message
      `mensaje or ''` and no end time. */
  function Start(records: map<nat, RunRecord>, id: nat, proceso: string, mensaje: Option<string>,
                 now: int, storageError: bool): (r: map<nat, RunRecord>)
    ensures r.Keys == records.Keys + (if storageError then {} else {id})
    ensures forall j :: j in records && (j != id || storageError) ==> r[j] == records[j]
    ensures !storageError ==> r[id].proceso == proceso && r[id].estado == "running"
                              && r[id].mensaje == mensaje.GetOr("") && r[id].fechaInicio == now
                              && r[id].fechaFin.None?
  {
    if storageError then records
    else records[id := RunRecord(proceso, "running", mensaje.GetOr(""), now, None)]
  }

  /** The UPDATE of `log_end` and `log_error_update`: status, message and end
      time of the record `id`; an unknown id updates no row. */
  function Finish(records: map<nat, RunRecord>, id: nat, estado: string, mensaje: string, now: int,
                  storageError: bool): (r: map<nat, RunRecord>)
    ensures r.Keys == records.Keys
    ensures forall j :: j in records && (j != id || storageError) ==> r[j] == records[j]
    ensures id in records && !storageError ==>
              r[id].estado == estado && r[id].mensaje == mensaje && r[id].fechaFin == Some(now)
              && r[id].proceso == records[id].proceso && r[id].fechaInicio == records[id].fechaInicio
  {
    if storageError || id !in records then records
    else records[id := records[id].(estado := estado, mensaje := mensaje, fechaFin := Some(now))]
  }

  /** The INSERT of `log_error_new`: an `error` record whose start and end
      are both `now`. */
  function StartAsError(records: map<nat, RunRecord>, id: nat, proceso: string, mensaje: string,
                        now: int, storageError: bool): (r: map<nat, RunRecord>)
    ensures r.Keys == records.Keys + (if storageError then {} else {id})
    ensures forall j :: j in records && (j != id || storageError) ==> r[j] == records[j]
    ensures !storageError ==> r[id] == RunRecord(proceso, "error", mensaje, now, Some(now))
  {
    if storageError then records else records[id := RunRecord(proceso, "error", mensaje, now, Some(now))]
  }

  /** Updates are last-write-wins: an end written after an error replaces
      the `error` status and its message. */
  lemma {:induction false} EndAfterErrorWins(records: map<nat, RunRecord>, id: nat, errorMsg: string,
                                             estado: string, mensaje: string, t1: int, t2: int)
    requires id in records
    ensures var r := Finish(Finish(records, id, "error", errorMsg, t1, false), id, estado, mensaje, t2, false);
            r[id].estado == estado && r[id].mensaje == mensaje && r[id].fechaFin == Some(t2)
  {
    var mid := Finish(records, id, "error", errorMsg, t1, false);
    assert id in mid;
  }

  /** A run started and then ended keeps its process name and start time and
      shows the final status. */
  lemma {:induction false} StartThenEnd(records: map<nat, RunRecord>, id: nat, proceso: string,
                                        mensaje: Option<string>, estado: string, fin: string,
                                        t1: int, t2: int)
    ensures var r := Finish(Start(records, id, proceso, mensaje, t1, false), id, estado, fin, t2, false);
            r[id] == RunRecord(proceso, estado, fin, t1, Some(t2))
  {
    var started := Start(records, id, proceso, mensaje, t1, false);
    assert id in started;
  }

  /** The `log_ejecucion` table. */
  class Ledger {
    var records: map<nat, RunRecord>
    var nextId: nat

    /** Every id handed out so far is below `nextId`. */
    ghost predicate Valid()
      reads this
    {
      forall id :: id in records ==> id < nextId
    }

    constructor (records: map<nat, RunRecord>, nextId: nat)
      requires forall id :: id in records ==> id < nextId
      ensures Valid() && this.records == records && this.nextId == nextId
    {
      this.records := records;
      this.nextId := nextId;
    }

    /** `log_start`: returns the fresh id even when the insert failed. */
    method LogStart(proceso: string, mensaje: Option<string>, now: int, storageError: bool)
      returns (id: nat)
      requires Valid()
      modifies this
      ensures Valid() && id !in old(records) && nextId == old(nextId) + 1
      ensures records == Start(old(records), id, proceso, mensaje, now, storageError)
    {
      id := nextId;
      nextId := nextId + 1;
      records := Start(records, id, proceso, mensaje, now, storageError);
    }

    /** `log_end(log_id, estado, mensaje)`: a missing message is stored as ''. */
    method LogEnd(id: nat, estado: string, mensaje: Option<string>, now: int, storageError: bool)
      requires Valid()
      modifies this
      ensures Valid() && nextId == old(nextId)
      ensures records == Finish(old(records), id, estado, mensaje.GetOr(""), now, storageError)
    {
      records := Finish(records, id, estado, mensaje.GetOr(""), now, storageError);
    }

    /** `log_error_update(log_id, exception)`: status `error`, message
        `str(exception)`. */
    method LogErrorUpdate(id: nat, exception: string, now: int, storageError: bool)
      requires Valid()
      modifies this
      ensures Valid() && nextId == old(nextId)
      ensures records == Finish(old(records), id, "error", exception, now, storageError)
    {
      records := Finish(records, id, "error", exception, now, storageError);
    }

    /** `log_error_new(proceso, exception)`: a new `error` record under a
        fresh id, which is returned. */
    method LogErrorNew(proceso: string, exception: string, now: int, storageError: bool)
      returns (id: nat)
      requires Valid()
      modifies this
      ensures Valid() && id !in old(records) && nextId == old(nextId) + 1
      ensures records == StartAsError(old(records), id, proceso, exception, now, storageError)
    {
      id := nextId;
      nextId := nextId + 1;
      records := StartAsError(records, id, proceso, exception, now, storageError);
    }
  }
}
