/**
 * The dashboard's chart and export history: every decoded MQTT message adds
 * one point at the front, and only the 50 newest points are kept.  The local
 * time text and the ISO timestamp of the point are parameters (the clock is
 * outside the model).
 */
module DashboardHistory {
  import opened JsValue

  const HistoryLimit := 50

  /** One entry of the history: the payload's readings, the chart's time and value, and the export timestamp. */
  datatype HistoryPoint = HistoryPoint(
    temp: Option<JsVal>,
    status: Option<JsVal>,
    counter: Option<JsVal>,
    time: string,
    value: Option<JsVal>,
    timestamp: string)

  function Min(a: int, b: int): int {
    if a <= b then a else b
  }

  /** The point built from a decoded payload that is not `null`; a missing key gives `undefined`. */
  function NewPoint(payload: JsVal, time: string, stamp: string): (p: HistoryPoint)
    requires payload != Null
  {
    var r := Props(payload);
    HistoryPoint(Get(r, "temp"), Get(r, "status"), Get(r, "counter"), time, Get(r, "temp"), stamp)
  }

  /** `[p, ...prev].slice(0, 50)`: the point first, then the newest of the old entries. */
  function Prepend(prev: seq<HistoryPoint>, p: HistoryPoint): (h: seq<HistoryPoint>)
    ensures |h| == Min(|prev| + 1, HistoryLimit)
    ensures h[0] == p
    ensures forall i :: 1 <= i < |h| ==> h[i] == prev[i - 1]
  {
    var all := [p] + prev;
    assert forall i :: 1 <= i < |all| ==> all[i] == prev[i - 1];
    if |all| <= HistoryLimit then all else all[..HistoryLimit]
  }

  /**
   * What one message does to the history.  `TypeError` is the case of a
   * message that decodes to `null`: reading `payload.temp` throws inside the
   * updater, after the `try` around the parse has finished.
   */
  datatype HistoryResult = Ok(history: seq<HistoryPoint>) | TypeError

  /**
   * The message handler's effect on the history; `decoded == None` stands for
   * a `JSON.parse` that threw, which is caught and logged.
   */
  function OnMessage(prev: seq<HistoryPoint>, decoded: Option<JsVal>, time: string, stamp: string): (r: HistoryResult)
    ensures r.TypeError? <==> decoded == Some(Null)
    ensures decoded.None? ==> r == Ok(prev)
    ensures decoded.Some? && decoded.value != Null ==>
      && r.Ok?
      && |r.history| == Min(|prev| + 1, HistoryLimit)
      && var p, payload := r.history[0], decoded.value;
      && p.temp == Get(Props(payload), "temp")
      && p.status == Get(Props(payload), "status")
      && p.counter == Get(Props(payload), "counter")
      && p.value == p.temp
      && p.time == time && p.timestamp == stamp
      && (!payload.Obj? ==> p.temp == None && p.status == None && p.counter == None)
      && forall i :: 1 <= i < |r.history| ==> r.history[i] == prev[i - 1]
  {
    match decoded
    case None => Ok(prev)
    case Some(Null) => TypeError
    case Some(payload) => Ok(Prepend(prev, NewPoint(payload, time, stamp)))
  }

  /** A history at the limit drops exactly its oldest entry; a shorter one drops nothing. */
  lemma OnlyOldestDropped(prev: seq<HistoryPoint>, p: HistoryPoint)
    requires |prev| <= HistoryLimit
    ensures |prev| < HistoryLimit ==> Prepend(prev, p)[1..] == prev
    ensures |prev| == HistoryLimit ==> Prepend(prev, p)[1..] == prev[..HistoryLimit - 1]
  {
    var h := Prepend(prev, p);
    if |prev| < HistoryLimit {
      assert |h[1..]| == |prev|;
      forall i | 0 <= i < |prev|
        ensures h[1..][i] == prev[i]
      {
        assert h[i + 1] == prev[i];
      }
    } else {
      assert |h[1..]| == HistoryLimit - 1;
      forall i | 0 <= i < HistoryLimit - 1
        ensures h[1..][i] == prev[..HistoryLimit - 1][i]
      {
        assert h[i + 1] == prev[i];
      }
    }
  }

  /** The history after the points `ps` have arrived, in that order, starting from the empty history. */
  function History(ps: seq<HistoryPoint>): (h: seq<HistoryPoint>)
    ensures |h| <= HistoryLimit
    ensures ps != [] ==> |h| > 0 && h[0] == ps[|ps| - 1]
  {
    if ps == [] then [] else Prepend(History(ps[..|ps| - 1]), ps[|ps| - 1])
  }

  /** The history holds the 50 most recent points, newest first. */
  lemma {:induction false} NewestFirst(ps: seq<HistoryPoint>)
    ensures |History(ps)| == Min(|ps|, HistoryLimit)
    ensures forall i :: 0 <= i < |History(ps)| ==> History(ps)[i] == ps[|ps| - 1 - i]
  {
    if ps != [] {
      var init := ps[..|ps| - 1];
      NewestFirst(init);
      var h := History(ps);
      assert h == Prepend(History(init), ps[|ps| - 1]);
      forall i | 0 <= i < |h|
        ensures h[i] == ps[|ps| - 1 - i]
      {
        if i > 0 {
          assert h[i] == History(init)[i - 1] == init[|init| - 1 - (i - 1)];
        }
      }
    }
  }
}
