/**
 * The per-message pipeline of the bridge service: decode, validate, build a
 * storage point, write, and count the outcome in the session statistics.
 * MQTT and InfluxDB are outside the model: the decoded payload and the result
 * of the storage write are parameters of the message handler.
 */
module BridgeService {
  import opened JsValue

  // ------------------------------------------------------------------
  // validatePayload
  // ------------------------------------------------------------------

  const MinTemp: real := -40.0
  const MaxTemp: real := 100.0

  /** One violation reported by the validator. */
  datatype Violation =
    | TempMissing
    | TempOutOfRange(temp: real)
    | StatusNotString
    | CounterNotInteger
    | CounterNegative

  /** The `{ valid, errors }` object the validator returns. */
  datatype Validation = Validation(valid: bool, errors: seq<Violation>)

  /** Which of the three checks reports a violation, in the order they run. */
  function CheckIndex(v: Violation): nat {
    match v
    case TempMissing => 0
    case TempOutOfRange(_) => 0
    case StatusNotString => 1
    case CounterNotInteger => 2
    case CounterNegative => 2
  }

  /** The reading's temperature is a number within the inclusive bounds. */
  predicate TempAcceptable(d: Record) {
    "temp" in d && d["temp"].Num? && MinTemp <= d["temp"].n <= MaxTemp
  }

  /** A status, where there is one, is a string. */
  predicate StatusAcceptable(d: Record) {
    "status" in d ==> d["status"].Str?
  }

  /** A counter, where there is one, is a non-negative integer. */
  predicate CounterAcceptable(d: Record) {
    "counter" in d ==> d["counter"].Num? && IsInteger(d["counter"].n) && d["counter"].n >= 0.0
  }

  function TempViolations(d: Record): seq<Violation> {
    if !("temp" in d && d["temp"].Num?) then [TempMissing]
    else if d["temp"].n < MinTemp || d["temp"].n > MaxTemp then [TempOutOfRange(d["temp"].n)]
    else []
  }

  function StatusViolations(d: Record): seq<Violation> {
    if "status" in d && !d["status"].Str? then [StatusNotString] else []
  }

  function CounterViolations(d: Record): seq<Violation> {
    if "counter" in d then
      if !d["counter"].Num? || !IsInteger(d["counter"].n) then [CounterNotInteger]
      else if d["counter"].n < 0.0 then [CounterNegative]
      else []
    else []
  }

  /**
   * `validatePayload`: all three checks run, whatever the earlier ones found,
   * and their violations are listed in check order.
   */
  function ValidatePayload(d: Record): (r: Validation)
    ensures r.valid <==> r.errors == []
    ensures r.valid <==> TempAcceptable(d) && StatusAcceptable(d) && CounterAcceptable(d)
    ensures forall i, j :: 0 <= i < j < |r.errors| ==> CheckIndex(r.errors[i]) < CheckIndex(r.errors[j])
    ensures |r.errors| <= 3
  {
    var errors := TempViolations(d) + StatusViolations(d) + CounterViolations(d);
    Validation(errors == [], errors)
  }

  /** Each violation is reported exactly when its own rule is broken. */
  lemma ViolationsCharacterized(d: Record)
    ensures var errs := ValidatePayload(d).errors;
      && (TempMissing in errs <==> !("temp" in d && d["temp"].Num?))
      && (forall t :: TempOutOfRange(t) in errs <==>
            "temp" in d && d["temp"] == Num(t) && (t < MinTemp || t > MaxTemp))
      && (StatusNotString in errs <==> "status" in d && !d["status"].Str?)
      && (CounterNotInteger in errs <==>
            "counter" in d && !(d["counter"].Num? && IsInteger(d["counter"].n)))
      && (CounterNegative in errs <==>
            "counter" in d && d["counter"].Num? && IsInteger(d["counter"].n) && d["counter"].n < 0.0)
  {
  }

  /** A missing or non-numeric temperature gives the "missing" message and never the range message. */
  lemma MissingTempNotOutOfRange(d: Record)
    requires !("temp" in d && d["temp"].Num?)
    ensures !ValidatePayload(d).valid
    ensures TempMissing in ValidatePayload(d).errors
    ensures forall t :: TempOutOfRange(t) !in ValidatePayload(d).errors
  {
  }

  /** The temperature bounds are inclusive on both sides. */
  lemma TemperatureBounds(t: real)
    ensures ValidatePayload(map["temp" := Num(t)]).valid <==> -40.0 <= t <= 100.0
  {
  }

  /** At most one counter violation is reported, and an absent counter never gives one. */
  lemma CounterRule(d: Record)
    ensures var errs := ValidatePayload(d).errors;
      && !(CounterNotInteger in errs && CounterNegative in errs)
      && ("counter" !in d ==> CounterNotInteger !in errs && CounterNegative !in errs)
  {
  }

  /** Keys other than `temp`, `status` and `counter` (`humidity`, `machine_id`, ...) never matter. */
  lemma OnlyThreeKeysMatter(d: Record, key: string, v: JsVal)
    requires key != "temp" && key != "status" && key != "counter"
    ensures ValidatePayload(d[key := v]) == ValidatePayload(d)
    ensures ValidatePayload(d - {key}) == ValidatePayload(d)
  {
    KeyIrrelevant(d, d[key := v], key);
    KeyIrrelevant(d, d - {key}, key);
  }

  /** Two payloads that agree on the three checked keys get the same verdict. */
  lemma KeyIrrelevant(d: Record, e: Record, key: string)
    requires key != "temp" && key != "status" && key != "counter"
    requires forall k :: k != key ==> (k in d <==> k in e)
    requires forall k :: k != key && k in d ==> d[k] == e[k]
    ensures ValidatePayload(e) == ValidatePayload(d)
  {
    assert TempViolations(e) == TempViolations(d);
    assert StatusViolations(e) == StatusViolations(d);
    assert CounterViolations(e) == CounterViolations(d);
  }

  /** The payloads of the bridge's unit tests get the verdicts those tests expect. */
  lemma TestPayloads()
    ensures ValidatePayload(map["temp" := Num(24.5), "status" := Str("running"), "counter" := Num(10.0)]).valid
    ensures ValidatePayload(map["temp" := Num(150.0), "status" := Str("running"), "counter" := Num(10.0)])
            == Validation(false, [TempOutOfRange(150.0)])
    ensures ValidatePayload(map["status" := Str("running"), "counter" := Num(10.0)])
            == Validation(false, [TempMissing])
    ensures ValidatePayload(map["temp" := Num(20.0)]).valid
    ensures ValidatePayload(map["temp" := Num(20.0), "counter" := Num(1.5)])
            == Validation(false, [CounterNotInteger])
    ensures ValidatePayload(map["temp" := Num(20.0), "counter" := Num(0.0)]).valid
  {
    assert !IsInteger(1.5) by { assert (1.5).Floor == 1; }
  }

  /** The log text of each violation; `show` is JavaScript's number-to-string conversion. */
  function Describe(v: Violation, show: real -> string): string {
    match v
    case TempMissing => "Missing or invalid \"temp\" field (must be a number)"
    case TempOutOfRange(t) => "Temperature " + show(t) + "°C is out of valid range (-40 to 100)"
    case StatusNotString => "\"status\" must be a string"
    case CounterNotInteger => "\"counter\" must be an integer"
    case CounterNegative => "\"counter\" cannot be negative"
  }

  // ------------------------------------------------------------------
  // The InfluxDB point
  // ------------------------------------------------------------------

  const Measurement := "machine_telemetry"
  const DefaultMachineId := "esp32_default"

  /** A point field, by the `Point` builder method that added it. */
  datatype Field = Float(f: JsVal) | Text(t: JsVal) | Integer(i: JsVal)

  /** The contents of a point: measurement, tags and fields. */
  datatype PointValue = PointValue(measurement: string, tags: map<string, JsVal>, fields: map<string, Field>)

  /** The InfluxDB point builder, recording what each call adds. */
  class Point {
    var measurement: string
    var tags: map<string, JsVal>
    var fields: map<string, Field>

    constructor (name: string)
      ensures Value() == PointValue(name, map[], map[])
    {
      measurement := name;
      tags := map[];
      fields := map[];
    }

    function Value(): PointValue
      reads this
    {
      PointValue(measurement, tags, fields)
    }

    method Tag(key: string, value: JsVal)
      modifies this
      ensures Value() == old(Value()).(tags := old(tags)[key := value])
    {
      tags := tags[key := value];
    }

    method FloatField(key: string, value: JsVal)
      modifies this
      ensures Value() == old(Value()).(fields := old(fields)[key := Float(value)])
    {
      fields := fields[key := Float(value)];
    }

    method StringField(key: string, value: JsVal)
      modifies this
      ensures Value() == old(Value()).(fields := old(fields)[key := Text(value)])
    {
      fields := fields[key := Text(value)];
    }

    method IntField(key: string, value: JsVal)
      modifies this
      ensures Value() == old(Value()).(fields := old(fields)[key := Integer(value)])
    {
      fields := fields[key := Integer(value)];
    }
  }

  /** The point the handler builds for an accepted payload that arrived on `topic`. */
  function PointOf(d: Record, topic: string): (p: PointValue)
    requires ValidatePayload(d).valid
    ensures p.measurement == Measurement && "temperature" in p.fields
  {
    var machine := if "machine_id" in d && Truthy(d["machine_id"]) then d["machine_id"] else Str(DefaultMachineId);
    var withTemp := map["temperature" := Float(d["temp"])];
    var withStatus := if "status" in d && Truthy(d["status"]) then withTemp["status" := Text(d["status"])] else withTemp;
    var withCounter := if "counter" in d then withStatus["counter" := Integer(d["counter"])] else withStatus;
    var withHumidity := if "humidity" in d then withCounter["humidity" := Float(d["humidity"])] else withCounter;
    PointValue(Measurement, map["machine_id" := machine, "topic" := Str(topic)], withHumidity)
  }

  /** Builds the point step by step, as the handler does with the client's builder. */
  method BuildPoint(data: Record, topic: string) returns (point: Point)
    requires ValidatePayload(data).valid
    ensures fresh(point)
    ensures point.Value() == PointOf(data, topic)
  {
    point := new Point(Measurement);
    point.Tag("machine_id", if "machine_id" in data && Truthy(data["machine_id"]) then data["machine_id"] else Str(DefaultMachineId));
    point.Tag("topic", Str(topic));
    point.FloatField("temperature", data["temp"]);
    if "status" in data && Truthy(data["status"]) {
      point.StringField("status", data["status"]);
    }
    if "counter" in data {
      point.IntField("counter", data["counter"]);
    }
    if "humidity" in data {
      point.FloatField("humidity", data["humidity"]);
    }
  }

  /**
   * What a point holds: the fixed measurement, the two tags, the temperature
   * always, and each optional field exactly when the payload supplies it.
   */
  lemma PointShape(d: Record, topic: string)
    requires ValidatePayload(d).valid
    ensures var p := PointOf(d, topic);
      && p.measurement == "machine_telemetry"
      && p.tags.Keys == {"machine_id", "topic"}
      && p.tags["topic"] == Str(topic)
      && (if "machine_id" in d && d["machine_id"] !in {Null, Str(""), Num(0.0), Bool(false)}
          then p.tags["machine_id"] == d["machine_id"]
          else p.tags["machine_id"] == Str("esp32_default"))
      && p.fields.Keys <= {"temperature", "status", "counter", "humidity"}
      && "temperature" in p.fields
      && p.fields["temperature"].Float? && p.fields["temperature"].f == d["temp"]
      && -40.0 <= d["temp"].n <= 100.0
      && ("status" in p.fields <==> "status" in d && d["status"] != Str(""))
      && ("status" in p.fields ==> p.fields["status"] == Text(d["status"]) && d["status"].Str?)
      && ("counter" in p.fields <==> "counter" in d)
      && ("counter" in p.fields ==>
            p.fields["counter"] == Integer(d["counter"]) &&
            d["counter"].Num? && IsInteger(d["counter"].n) && d["counter"].n >= 0.0)
      && ("humidity" in p.fields <==> "humidity" in d)
      && ("humidity" in p.fields ==> p.fields["humidity"] == Float(d["humidity"]))
  {
  }

  /** A reading with only a temperature gives a point with only the temperature field and the default machine. */
  lemma TemperatureOnlyPoint(t: real, topic: string)
    requires -40.0 <= t <= 100.0
    ensures ValidatePayload(map["temp" := Num(t)]).valid
    ensures PointOf(map["temp" := Num(t)], topic)
            == PointValue("machine_telemetry",
                          map["machine_id" := Str("esp32_default"), "topic" := Str(topic)],
                          map["temperature" := Float(Num(t))])
  {
  }

  /**
   * The InfluxDB client's `floatField` throws on a value that is not a number
   * and whose text does not start with one: `null`, a boolean or an object.
   * Strings and arrays depend on `parseFloat` and are taken to convert.
   */
  predicate FloatRejected(v: JsVal) {
    v.Null? || v.Bool? || v.Obj?
  }

  /**
   * Building the point of an accepted payload throws: the validator does not
   * look at `humidity`, and the builder cannot store this one as a float.
   */
  predicate BuildThrows(d: Record) {
    "humidity" in d && FloatRejected(d["humidity"])
  }

  // ------------------------------------------------------------------
  // The message handler and the session statistics
  // ------------------------------------------------------------------

  /** `safeJsonParse`: the decoded value, or `null` when `JSON.parse` threw (`decoded == None`). */
  function SafeJsonParse(decoded: Option<JsVal>): (v: JsVal)
    ensures v == Null <==> decoded == None || decoded == Some(Null)
    ensures decoded.Some? ==> v == decoded.value
  {
    match decoded
    case None => Null
    case Some(value) => value
  }

  /** The single path a message takes through the handler. */
  datatype Outcome =
    | InvalidJson
    | Invalid(violations: seq<Violation>)
    | Saved(point: PointValue)
    | WriteFailed(point: PointValue)
    | BuildFailed

  /**
   * The outcome of handling a message on `topic` whose payload decodes to
   * `decoded` (`None`: `JSON.parse` threw) when the storage write would
   * succeed exactly if `writeOk`.
   */
  function Handle(topic: string, decoded: Option<JsVal>, writeOk: bool): (o: Outcome)
    ensures o.Saved? || o.WriteFailed? || o.BuildFailed? ==> decoded.Some? && ValidatePayload(Props(decoded.value)).valid
  {
    var data := SafeJsonParse(decoded);
    if !Truthy(data) then InvalidJson
    else
      var validation := ValidatePayload(Props(data));
      if !validation.valid then Invalid(validation.errors)
      else if BuildThrows(Props(data)) then BuildFailed
      else if writeOk then Saved(PointOf(Props(data), topic))
      else WriteFailed(PointOf(Props(data), topic))
  }

  /**
   * The handler stops at the decode step for an undecodable (or falsy) payload,
   * whatever the store would do; it fails to build the point of exactly the
   * accepted payloads with an unstorable humidity, writes exactly the other
   * accepted payloads, and then the write result alone decides between saved
   * and failed.
   */
  lemma HandleOutcomes(topic: string, decoded: Option<JsVal>, writeOk: bool)
    ensures var o := Handle(topic, decoded, writeOk);
      && (o.InvalidJson? <==> decoded == None || !Truthy(decoded.value))
      && (o.InvalidJson? ==> o == Handle(topic, decoded, !writeOk))
      && (o.Invalid? <==>
            decoded.Some? && Truthy(decoded.value) && !ValidatePayload(Props(decoded.value)).valid)
      && (o.Invalid? ==> o.violations == ValidatePayload(Props(decoded.value)).errors && o.violations != [])
      && (o.Saved? || o.WriteFailed? || o.BuildFailed? <==>
            decoded.Some? && Truthy(decoded.value) && ValidatePayload(Props(decoded.value)).valid)
      && (o.BuildFailed? <==>
            decoded.Some? && Truthy(decoded.value) && ValidatePayload(Props(decoded.value)).valid &&
            BuildThrows(Props(decoded.value)))
      && (o.Saved? || o.WriteFailed? ==>
            o.point == PointOf(Props(decoded.value), topic) && (o.Saved? <==> writeOk))
  {
  }

  /** The counters of one session. */
  datatype Stats = Stats(received: nat, valid: nat, invalid: nat, saved: nat, errors: nat)

  const Zero := Stats(0, 0, 0, 0, 0)

  /** What changes the counters: a handled message, or an MQTT client error. */
  datatype Event = Delivered(outcome: Outcome) | BrokerError

  /** The counter updates of one event. */
  function Step(s: Stats, e: Event): (t: Stats)
    ensures t.received + t.valid + t.invalid + t.saved + t.errors > s.received + s.valid + s.invalid + s.saved + s.errors
  {
    match e
    case BrokerError => s.(errors := s.errors + 1)
    case Delivered(o) =>
      match o
      case InvalidJson => s.(received := s.received + 1, invalid := s.invalid + 1)
      case Invalid(_) => s.(received := s.received + 1, invalid := s.invalid + 1)
      case Saved(_) => s.(received := s.received + 1, valid := s.valid + 1, saved := s.saved + 1)
      case WriteFailed(_) => s.(received := s.received + 1, valid := s.valid + 1, errors := s.errors + 1)
      case BuildFailed => s.(received := s.received + 1, valid := s.valid + 1, errors := s.errors + 1)
  }

  /** The counters after a session's events, oldest first. */
  function Run(events: seq<Event>): (s: Stats)
    ensures events != [] ==> s != Zero
  {
    if events == [] then Zero else Step(Run(events[..|events| - 1]), events[|events| - 1])
  }

  predicate IsMessage(e: Event) { e.Delivered? }
  predicate IsValidMessage(e: Event) {
    e.Delivered? && (e.outcome.Saved? || e.outcome.WriteFailed? || e.outcome.BuildFailed?)
  }
  predicate IsInvalidMessage(e: Event) { e.Delivered? && (e.outcome.InvalidJson? || e.outcome.Invalid?) }
  predicate IsSavedMessage(e: Event) { e.Delivered? && e.outcome.Saved? }
  predicate IsError(e: Event) { e.BrokerError? || e.outcome.WriteFailed? || e.outcome.BuildFailed? }

  /** The number of events satisfying `p`. */
  function Count(events: seq<Event>, p: Event -> bool): nat {
    if events == [] then 0
    else Count(events[..|events| - 1], p) + (if p(events[|events| - 1]) then 1 else 0)
  }

  /** The invariant the counters keep: every message is valid or invalid, and every valid one saved or failed. */
  predicate Consistent(s: Stats) {
    s.received == s.valid + s.invalid && s.saved <= s.valid && s.valid <= s.saved + s.errors
  }

  /**
   * One message adds one to `received` and to exactly one of `valid` and
   * `invalid`; a valid one adds one to exactly one of `saved` and `errors`.
   */
  lemma StepAccounting(s: Stats, o: Outcome)
    ensures var t := Step(s, Delivered(o));
      && t.received == s.received + 1
      && ((t.invalid == s.invalid + 1 && t.valid == s.valid && t.saved == s.saved && t.errors == s.errors)
          || (t.valid == s.valid + 1 && t.invalid == s.invalid &&
              ((t.saved == s.saved + 1 && t.errors == s.errors) || (t.errors == s.errors + 1 && t.saved == s.saved))))
      && (t.valid == s.valid + 1 <==> o.Saved? || o.WriteFailed? || o.BuildFailed?)
      && (t.saved == s.saved + 1 <==> o.Saved?)
  {
  }

  lemma StepPreservesConsistency(s: Stats, e: Event)
    requires Consistent(s)
    ensures Consistent(Step(s, e))
  {
  }

  /** Each counter is the number of events of its kind. */
  lemma {:induction false} RunCounts(events: seq<Event>)
    ensures Run(events) == Stats(Count(events, IsMessage), Count(events, IsValidMessage),
                                 Count(events, IsInvalidMessage), Count(events, IsSavedMessage),
                                 Count(events, IsError))
  {
    if events != [] {
      RunCounts(events[..|events| - 1]);
    }
  }

  /** The counters are consistent after any session. */
  lemma {:induction false} RunConsistent(events: seq<Event>)
    ensures Consistent(Run(events))
  {
    if events != [] {
      RunConsistent(events[..|events| - 1]);
      StepPreservesConsistency(Run(events[..|events| - 1]), events[|events| - 1]);
    }
  }

  /** Four end-to-end payloads, from decode to counters. */
  lemma Scenarios(s: Stats, topic: string)
    ensures var d := map["temp" := Num(24.5), "status" := Str("running"), "counter" := Num(10.0)];
      var o := Handle(topic, Some(Obj(d)), true);
      && o.Saved?
      && o.point.fields == map["temperature" := Float(Num(24.5)), "status" := Text(Str("running")),
                               "counter" := Integer(Num(10.0))]
      && Step(s, Delivered(o)) == s.(received := s.received + 1, valid := s.valid + 1, saved := s.saved + 1)
    ensures var o := Handle(topic, Some(Obj(map["temp" := Num(150.0)])), true);
      && o == Invalid([TempOutOfRange(150.0)])
      && Step(s, Delivered(o)) == s.(received := s.received + 1, invalid := s.invalid + 1)
    ensures var o := Handle(topic, None, true);
      && o == InvalidJson
      && Step(s, Delivered(o)) == s.(received := s.received + 1, invalid := s.invalid + 1)
    ensures var o := Handle(topic, Some(Obj(map["temp" := Num(20.0), "counter" := Num(-1.0)])), true);
      && o == Invalid([CounterNegative])
      && Step(s, Delivered(o)) == s.(received := s.received + 1, invalid := s.invalid + 1)
  {
    var d := map["temp" := Num(24.5), "status" := Str("running"), "counter" := Num(10.0)];
    assert IsInteger(10.0) by { assert (10.0).Floor == 10; }
    assert ValidatePayload(d).valid;
    assert IsInteger(-1.0) by { assert (-1.0).Floor == -1; }
  }

  /**
   * The counters after one message as the handler is written: the point is
   * built before the `try` around the write, so when the builder throws the
   * handler stops with the message counted as valid and neither `saved` nor
   * `errors` bumped.
   */
  function StepAsWritten(s: Stats, topic: string, decoded: Option<JsVal>, writeOk: bool): (t: Stats)
    ensures t.received == s.received + 1
    ensures Handle(topic, decoded, writeOk).BuildFailed? ==> t.saved == s.saved && t.errors == s.errors
  {
    var o := Handle(topic, decoded, writeOk);
    if o.BuildFailed? then s.(received := s.received + 1, valid := s.valid + 1)
    else Step(s, Delivered(o))
  }

  /**
   * A reading with a `null` humidity is accepted, its point cannot be built,
   * and as written the message is lost to the counters: after it alone the
   * session has one valid message that was neither saved nor an error.
   * Counting the failed build as an error keeps the counters consistent.
   */
  lemma UnwritableHumidityUncounted(topic: string, writeOk: bool)
    ensures var d := map["temp" := Num(20.0), "humidity" := Null];
      && ValidatePayload(d).valid
      && BuildThrows(d)
      && PointOf(d, topic).fields["humidity"] == Float(Null)
      && StepAsWritten(Zero, topic, Some(Obj(d)), writeOk) == Stats(1, 1, 0, 0, 0)
      && !Consistent(StepAsWritten(Zero, topic, Some(Obj(d)), writeOk))
      && Handle(topic, Some(Obj(d)), writeOk) == BuildFailed
      && Step(Zero, Delivered(BuildFailed)) == Stats(1, 1, 0, 0, 1)
      && Consistent(Step(Zero, Delivered(BuildFailed)))
  {
    var d := map["temp" := Num(20.0), "humidity" := Null];
    assert ValidatePayload(d).valid;
  }

  /** The bridge's session counters (`stats`) and its `message` and `error` handlers. */
  class Bridge {
    var received: nat
    var valid: nat
    var invalid: nat
    var saved: nat
    var errors: nat
    /** How many of the `errors` came from the MQTT client rather than from storage writes. */
    ghost var brokerErrors: nat

    function Counters(): Stats
      reads this
    {
      Stats(received, valid, invalid, saved, errors)
    }

    /** Every valid message was saved or counted as a storage error. */
    ghost predicate Valid()
      reads this
    {
      Consistent(Counters()) && errors == brokerErrors + (valid - saved)
    }

    /**
     * The accepted-payload path of the handler: build the point, write it,
     * and count a save or an error.  A point that cannot be built counts as
     * an error too, as if the build were inside the `try` around the write.
     */
    method SaveReading(data: Record, topic: string, writeOk: bool) returns (outcome: Outcome)
      requires ValidatePayload(data).valid
      modifies this`saved, this`errors
      ensures outcome == if BuildThrows(data) then BuildFailed
                         else if writeOk then Saved(PointOf(data, topic)) else WriteFailed(PointOf(data, topic))
      ensures saved == old(saved) + (if outcome.Saved? then 1 else 0)
      ensures errors == old(errors) + (if outcome.Saved? then 0 else 1)
    {
      if BuildThrows(data) {
        errors := errors + 1;
        outcome := BuildFailed;
        return;
      }
      var point := BuildPoint(data, topic);
      var record := point.Value();
      if writeOk {
        saved := saved + 1;
        outcome := Saved(record);
      } else {
        errors := errors + 1;
        outcome := WriteFailed(record);
      }
    }

    constructor ()
      ensures Valid() && Counters() == Zero && brokerErrors == 0
    {
      received, valid, invalid, saved, errors := 0, 0, 0, 0, 0;
      brokerErrors := 0;
    }

    /** The MQTT client's `error` handler. */
    method OnBrokerError()
      requires Valid()
      modifies this
      ensures Valid()
      ensures Counters() == Step(old(Counters()), BrokerError)
      ensures brokerErrors == old(brokerErrors) + 1
    {
      errors := errors + 1;
      brokerErrors := brokerErrors + 1;
    }

    /**
     * The MQTT client's `message` handler for a payload on `topic` that decodes
     * to `decoded`, when the storage write succeeds exactly if `writeOk`.
     */
    method HandleMessage(topic: string, decoded: Option<JsVal>, writeOk: bool) returns (outcome: Outcome)
      requires Valid()
      modifies this
      ensures Valid()
      ensures outcome == Handle(topic, decoded, writeOk)
      ensures Counters() == Step(old(Counters()), Delivered(outcome))
      ensures brokerErrors == old(brokerErrors)
    {
      received := received + 1;
      var data := SafeJsonParse(decoded);
      if !Truthy(data) {
        invalid := invalid + 1;
        outcome := InvalidJson;
      } else {
        var validation := ValidatePayload(Props(data));
        if !validation.valid {
          invalid := invalid + 1;
          outcome := Invalid(validation.errors);
        } else {
          valid := valid + 1;
          outcome := SaveReading(Props(data), topic, writeOk);
        }
      }
    }
  }
}
