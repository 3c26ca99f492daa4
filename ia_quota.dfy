/** The daily model-quota counter of `gnoticias/db_log_ia.py`: the `log_IA`
    table maps `(modelo, fecha)` to the number of calls made to that model on
    that date. "Today" (`date.today().isoformat()`) is a `today` argument. */
module IaQuota {
  import opened Text

  /** One configured model and its daily quota. */
  datatype ModelQuota = ModelQuota(name: string, quota: nat)

  /** The key of a `log_IA` row. */
  datatype LogKey = LogKey(modelo: string, fecha: string)

  const FlashModel: string := "gemini-1.5-flash"

  /** `get_modelos_config`: the models in priority order, each once. */
  function GetModelosConfig(): (config: seq<ModelQuota>)
    ensures |config| >= 1
    ensures forall i, j :: 0 <= i < j < |config| ==> config[i].name != config[j].name
    ensures config[0] == ModelQuota(FlashModel, 45)
  {
    [ModelQuota(FlashModel, 45)]
  }

  /** The calls recorded for a model on a date; a missing row counts as 0. */
  function CallsOn(calls: map<LogKey, nat>, modelo: string, fecha: string): nat {
    var key := LogKey(modelo, fecha);
    if key in calls then calls[key] else 0
  }

  predicate Exhausted(calls: map<LogKey, nat>, fecha: string, m: ModelQuota) {
    CallsOn(calls, m.name, fecha) >= m.quota
  }

  /** The first model of `config` whose count for `fecha` is below its quota. */
  function NextAvailable(config: seq<ModelQuota>, calls: map<LogKey, nat>, fecha: string)
    : (r: Option<string>)
    ensures r.None? <==> forall i :: 0 <= i < |config| ==> Exhausted(calls, fecha, config[i])
    ensures r.Some? ==> exists i :: 0 <= i < |config| && config[i].name == r.value
                                    && !Exhausted(calls, fecha, config[i])
                                    && forall j :: 0 <= j < i ==> Exhausted(calls, fecha, config[j])
  {
    if config == [] then None
    else if !Exhausted(calls, fecha, config[0]) then
      Some(config[0].name)
    else
      var r := NextAvailable(config[1..], calls, fecha);
      assert forall i :: 1 <= i < |config| ==> config[i] == config[1..][i - 1];
      FirstAvailableShifts(config, calls, fecha, r);
      r
  }

  /** A first available model of `config[1..]` is the first of `config`
      when `config[0]` is exhausted. */
  lemma FirstAvailableShifts(config: seq<ModelQuota>, calls: map<LogKey, nat>, fecha: string,
                             r: Option<string>)
    requires |config| > 0 && Exhausted(calls, fecha, config[0])
    requires r.Some? ==> exists i :: 0 <= i < |config[1..]| && config[1..][i].name == r.value
                                     && !Exhausted(calls, fecha, config[1..][i])
                                     && forall j :: 0 <= j < i ==> Exhausted(calls, fecha, config[1..][j])
    ensures r.Some? ==> exists i :: 0 <= i < |config| && config[i].name == r.value
                                    && !Exhausted(calls, fecha, config[i])
                                    && forall j :: 0 <= j < i ==> Exhausted(calls, fecha, config[j])
  {
    if r.Some? {
      var i :| 0 <= i < |config[1..]| && config[1..][i].name == r.value
               && !Exhausted(calls, fecha, config[1..][i])
               && forall j :: 0 <= j < i ==> Exhausted(calls, fecha, config[1..][j]);
      assert forall j :: 1 <= j < i + 1 ==> config[j] == config[1..][j - 1];
      assert config[i + 1] == config[1..][i];
    }
  }

  /** The read-then-write of `log_api_call`: today's count for the model goes
      up by one (the row is created with 1 when missing); every other row is
      untouched. */
  function LogCall(calls: map<LogKey, nat>, modelo: string, fecha: string): (r: map<LogKey, nat>)
    ensures CallsOn(r, modelo, fecha) == CallsOn(calls, modelo, fecha) + 1
    ensures r.Keys == calls.Keys + {LogKey(modelo, fecha)}
    ensures forall k :: k in calls && k != LogKey(modelo, fecha) ==> r[k] == calls[k]
    ensures forall m, f :: CallsOn(calls, m, f) <= CallsOn(r, m, f)
  {
    calls[LogKey(modelo, fecha) := CallsOn(calls, modelo, fecha) + 1]
  }

  /** `n` calls of `log_api_call` for one model on one date. */
  function LogCalls(calls: map<LogKey, nat>, modelo: string, fecha: string, n: nat): map<LogKey, nat> {
    if n == 0 then calls else LogCall(LogCalls(calls, modelo, fecha, n - 1), modelo, fecha)
  }

  /** `n` calls raise that day's count by exactly `n` and leave every other
      model and date as it was. */
  lemma {:induction false} LogCallsCount(calls: map<LogKey, nat>, modelo: string, fecha: string, n: nat)
    ensures CallsOn(LogCalls(calls, modelo, fecha, n), modelo, fecha) == CallsOn(calls, modelo, fecha) + n
    ensures forall m, f :: (m, f) != (modelo, fecha) ==>
              CallsOn(LogCalls(calls, modelo, fecha, n), m, f) == CallsOn(calls, m, f)
  {
    if n > 0 {
      LogCallsCount(calls, modelo, fecha, n - 1);
    }
  }

  /** A date nobody has logged calls on starts every model at 0, whatever the
      earlier dates hold, so the first configured model is offered. */
  lemma NewDayStartsAtZero(calls: map<LogKey, nat>, fecha: string)
    requires forall k :: k in calls ==> k.fecha != fecha
    ensures forall m :: CallsOn(calls, m, fecha) == 0
    ensures NextAvailable(GetModelosConfig(), calls, fecha) == Some(FlashModel)
  {
  }

  /** After 45 calls of `gemini-1.5-flash` on one day no model is available
      that day, whatever the table held before. */
  lemma QuotaExhaustedAfter45(calls: map<LogKey, nat>, today: string)
    ensures NextAvailable(GetModelosConfig(), LogCalls(calls, FlashModel, today, 45), today) == None
  {
    LogCallsCount(calls, FlashModel, today, 45);
  }

  /** The `log_IA` table. */
  class QuotaLog {
    var calls: map<LogKey, nat>

    constructor (calls: map<LogKey, nat>)
      ensures this.calls == calls
    {
      this.calls := calls;
    }

    /** `get_next_available_model`: walks the configured models in order and
        returns the first one still under its quota today, or None. */
    method GetNextAvailableModel(today: string) returns (r: Option<string>)
      ensures r == NextAvailable(GetModelosConfig(), calls, today)
    {
      var config := GetModelosConfig();
      var i := 0;
      while i < |config|
        invariant 0 <= i <= |config|
        invariant NextAvailable(config[i..], calls, today) == NextAvailable(config, calls, today)
      {
        assert config[i..][1..] == config[i + 1..];
        if CallsOn(calls, config[i].name, today) < config[i].quota {
          return Some(config[i].name);
        }
        i := i + 1;
      }
      return None;
    }

    /** `log_api_call`: one more call of `modelo` today. */
    method LogApiCall(modelo: string, today: string)
      modifies this
      ensures calls == LogCall(old(calls), modelo, today)
    {
      var key := LogKey(modelo, today);
      if key in calls {
        calls := calls[key := calls[key] + 1];
      } else {
        calls := calls[key := 1];
      }
    }
  }
}
