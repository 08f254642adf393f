/**
 * The iOS `BackendAnalyticsProvider`: events are queued in memory and sent
 * to the backend in batches. A batch goes out when the queue reaches ten
 * events, on an explicit flush and on reset; a batch whose sending fails is
 * put back at the front of the queue unless the queue already holds a
 * hundred events. The sending itself runs later and its answer is an input.
 */
module Analytics {
  import opened Wrappers

  /** `batchSize`. */
  const BatchSize := 10

  /** Re-queueing a failed batch happens only below this queue length. */
  const RequeueLimit := 100

  /** The user type before any `setUserProperty` and after a reset. */
  const GuestUserType := "guest"

  /** A value of the `[String: Any]` parameter dictionary, as far as the provider tells them apart. */
  datatype ParamValue = StringValue(s: string) | IntValue(i: int) | OtherValue

  type Parameters = map<string, ParamValue>

  /** `AnalyticsEventDTO` without the device fields (app version, OS version, model), which are left out. */
  datatype AnalyticsEvent = AnalyticsEvent(
    eventName: string, userId: Option<string>, sessionId: string, deviceId: string, userType: string,
    screenName: Option<string>, debateId: Option<string>, speechId: Option<int>, studentId: Option<string>,
    classSessionId: Option<string>, properties: Option<Parameters>, clientTimestamp: string)

  /** `parameters?[key] as? String`. */
  function StringParameter(parameters: Option<Parameters>, key: string): (r: Option<string>)
    ensures r.Some? <==> parameters.Some? && key in parameters.value && parameters.value[key].StringValue?
    ensures r.Some? ==> parameters.value[key] == StringValue(r.value)
  {
    if parameters.Some? && key in parameters.value && parameters.value[key].StringValue? then Some(parameters.value[key].s)
    else None
  }

  /** `parameters?[key] as? Int`. */
  function IntParameter(parameters: Option<Parameters>, key: string): (r: Option<int>)
    ensures r.Some? <==> parameters.Some? && key in parameters.value && parameters.value[key].IntValue?
    ensures r.Some? ==> parameters.value[key] == IntValue(r.value)
  {
    if parameters.Some? && key in parameters.value && parameters.value[key].IntValue? then Some(parameters.value[key].i)
    else None
  }

  /** The event `logEvent` builds: the current user, the session and device, and the typed ids found in the parameters. */
  function NewEvent(eventName: string, parameters: Option<Parameters>, userId: Option<string>, userType: string,
                    sessionId: string, deviceId: string, timestamp: string): (e: AnalyticsEvent)
  {
    AnalyticsEvent(eventName, userId, sessionId, deviceId, userType, None,
      StringParameter(parameters, "debate_id"), IntParameter(parameters, "speech_id"),
      StringParameter(parameters, "student_id"), StringParameter(parameters, "class_session_id"),
      parameters, timestamp)
  }

  /** A speech id given as a string is not picked up: `speech_id` is read only as an integer. */
  lemma StringSpeechIdDropped(eventName: string, id: string, userId: Option<string>, userType: string,
                              sessionId: string, deviceId: string, timestamp: string)
    ensures NewEvent(eventName, Some(map["speech_id" := StringValue(id)]), userId, userType, sessionId, deviceId, timestamp).speechId.None?
    ensures NewEvent(eventName, Some(map["debate_id" := StringValue(id)]), userId, userType, sessionId, deviceId, timestamp).debateId == Some(id)
  {
  }

  // ------------------------------------------------------------ queue steps

  /** The queue after appending one event, and the batch flushed if the queue reached the batch size. */
  datatype LogStep = LogStep(queue: seq<AnalyticsEvent>, flushed: Option<seq<AnalyticsEvent>>)

  /** `logEvent`'s effect on the queue: append, then flush once the queue holds `batchSize` events or more. */
  function AfterLog(queue: seq<AnalyticsEvent>, e: AnalyticsEvent): (r: LogStep)
    ensures |r.queue| < BatchSize
    ensures r.flushed.GetOr([]) + r.queue == queue + [e]
    ensures r.flushed.Some? <==> |queue| + 1 >= BatchSize
  {
    var q := queue + [e];
    if |q| >= BatchSize then LogStep([], Some(q)) else LogStep(q, None)
  }

  /** The concatenation of the batches, in order. */
  function Flatten(batches: seq<seq<AnalyticsEvent>>): (r: seq<AnalyticsEvent>)
  {
    if batches == [] then [] else batches[0] + Flatten(batches[1..])
  }

  /** Logging several events in turn: the batches flushed along the way and the final queue. */
  function LogAll(queue: seq<AnalyticsEvent>, events: seq<AnalyticsEvent>): (r: (seq<seq<AnalyticsEvent>>, seq<AnalyticsEvent>))
    decreases |events|
  {
    if events == [] then ([], queue)
    else
      var step := AfterLog(queue, events[0]);
      var rest := LogAll(step.queue, events[1..]);
      (if step.flushed.Some? then [step.flushed.value] + rest.0 else rest.0, rest.1)
  }

  /** Logging loses, duplicates and reorders nothing: the batches sent and the queue left over are the old queue followed by the new events. */
  lemma {:induction false} LogAllKeepsOrder(queue: seq<AnalyticsEvent>, events: seq<AnalyticsEvent>)
    ensures Flatten(LogAll(queue, events).0) + LogAll(queue, events).1 == queue + events
    decreases |events|
  {
    if events != [] {
      var e, more := events[0], events[1..];
      assert events == [e] + more;
      var step := AfterLog(queue, e);
      var rest := LogAll(step.queue, more);
      LogAllKeepsOrder(step.queue, more);
      var r := LogAll(queue, events);
      if step.flushed.Some? {
        var b := step.flushed.value;
        assert r.0 == [b] + rest.0 && r.1 == rest.1;
        FlattenCons(b, rest.0);
        assert b == queue + [e] && step.queue == [];
        assert Flatten(r.0) + r.1 == b + (Flatten(rest.0) + rest.1);
      } else {
        assert r.0 == rest.0 && r.1 == rest.1;
        assert step.queue == queue + [e];
      }
    }
  }

  lemma FlattenCons(b: seq<AnalyticsEvent>, bs: seq<seq<AnalyticsEvent>>)
    ensures Flatten([b] + bs) == b + Flatten(bs)
  {
    assert ([b] + bs)[1..] == bs;
  }

  /** Starting below the batch size, as logging keeps the queue, every batch sent holds exactly ten events. */
  lemma {:induction false} LogAllBatchSizes(queue: seq<AnalyticsEvent>, events: seq<AnalyticsEvent>)
    requires |queue| < BatchSize
    ensures |LogAll(queue, events).1| < BatchSize
    ensures forall b :: b in LogAll(queue, events).0 ==> |b| == BatchSize
    decreases |events|
  {
    if events != [] {
      var step := AfterLog(queue, events[0]);
      LogAllBatchSizes(step.queue, events[1..]);
    }
  }

  /** Whether `sendEvents` puts the batch back: a thrown error or a status outside 200-299. */
  datatype SendResult = InvalidUrl | Thrown | NotHttp | HttpStatus(code: int)

  predicate SendFailed(result: SendResult)
  {
    result.Thrown? || (result.HttpStatus? && !(200 <= result.code <= 299))
  }

  /** The queue after a send finishes: a failed batch goes back in front when the queue is below the limit. */
  function AfterSend(queue: seq<AnalyticsEvent>, batch: seq<AnalyticsEvent>, result: SendResult): (r: seq<AnalyticsEvent>)
    ensures |r| >= |queue| && r[|r| - |queue|..] == queue
    ensures |r| > |queue| ==> |queue| < RequeueLimit && SendFailed(result)
  {
    if SendFailed(result) && |queue| < RequeueLimit then batch + queue else queue
  }

  /** A failed batch is never dropped while the queue is short, and an answered 2xx never re-queues. */
  lemma RequeuedInOrder(queue: seq<AnalyticsEvent>, batch: seq<AnalyticsEvent>, result: SendResult)
    ensures SendFailed(result) && |queue| < RequeueLimit ==> AfterSend(queue, batch, result)[..|batch|] == batch
    ensures result.HttpStatus? && 200 <= result.code <= 299 ==> AfterSend(queue, batch, result) == queue
    ensures |queue| >= RequeueLimit ==> AfterSend(queue, batch, result) == queue
  {
  }

  // ------------------------------------------------------------ the provider

  class BackendAnalyticsProvider {
    const sessionId: string
    const deviceId: string
    var eventQueue: seq<AnalyticsEvent>
    var currentUserId: Option<string>
    var userType: string

    /** `init`: an empty queue, no user, the guest type; the session id is generated by the caller. */
    constructor(deviceId: string, sessionId: string)
      ensures this.deviceId == deviceId && this.sessionId == sessionId
      ensures eventQueue == [] && currentUserId.None? && userType == GuestUserType
    {
      this.deviceId := deviceId;
      this.sessionId := sessionId;
      eventQueue := [];
      currentUserId := None;
      userType := GuestUserType;
    }

    /** `logEvent`: queue the event stamped with the current user; flush when the batch size is reached. */
    method LogEvent(eventName: string, parameters: Option<Parameters>, timestamp: string)
      returns (flushed: Option<seq<AnalyticsEvent>>)
      modifies `eventQueue
      ensures var e := NewEvent(eventName, parameters, currentUserId, userType, sessionId, deviceId, timestamp);
        LogStep(eventQueue, flushed) == AfterLog(old(eventQueue), e)
      ensures |eventQueue| < BatchSize
    {
      var e := NewEvent(eventName, parameters, currentUserId, userType, sessionId, deviceId, timestamp);
      eventQueue := eventQueue + [e];
      flushed := None;
      if |eventQueue| >= BatchSize {
        flushed := Flush();
      }
    }

    /** `setUserProperty`: only the name "user_type" is stored. */
    method SetUserProperty(value: string, name: string)
      modifies `userType
      ensures userType == if name == "user_type" then value else old(userType)
    {
      if name == "user_type" {
        userType := value;
      }
    }

    /** `setUserId`. */
    method SetUserId(userId: Option<string>)
      modifies `currentUserId
      ensures currentUserId == userId
    {
      currentUserId := userId;
    }

    /** `logScreenView`: a "screen_view" event with the screen's name and class as string parameters. */
    method LogScreenView(screenName: string, screenClass: string, timestamp: string)
      returns (flushed: Option<seq<AnalyticsEvent>>)
      modifies `eventQueue
      ensures var ps := map["screen_name" := StringValue(screenName), "screen_class" := StringValue(screenClass)];
        LogStep(eventQueue, flushed) ==
          AfterLog(old(eventQueue), NewEvent("screen_view", Some(ps), currentUserId, userType, sessionId, deviceId, timestamp))
    {
      flushed := LogEvent("screen_view", Some(map["screen_name" := StringValue(screenName), "screen_class" := StringValue(screenClass)]), timestamp);
    }

    /** `resetAnalyticsData`: forget the user, back to the guest type, then flush. */
    method ResetAnalyticsData() returns (flushed: Option<seq<AnalyticsEvent>>)
      modifies this
      ensures currentUserId.None? && userType == GuestUserType
      ensures eventQueue == []
      ensures flushed == if old(eventQueue) == [] then None else Some(old(eventQueue))
    {
      currentUserId := None;
      userType := GuestUserType;
      flushed := Flush();
    }

    /** `flush`: nothing on an empty queue; otherwise the whole queue becomes one batch to send. */
    method Flush() returns (batch: Option<seq<AnalyticsEvent>>)
      modifies `eventQueue
      ensures eventQueue == []
      ensures batch == if old(eventQueue) == [] then None else Some(old(eventQueue))
    {
      if eventQueue == [] {
        return None;
      }
      batch := Some(eventQueue);
      eventQueue := [];
    }

    /** The end of `sendEvents` for a batch. */
    method SendEvents(batch: seq<AnalyticsEvent>, result: SendResult)
      modifies `eventQueue
      ensures eventQueue == AfterSend(old(eventQueue), batch, result)
    {
      if result.InvalidUrl? || result.NotHttp? {
        return;
      }
      if SendFailed(result) && |eventQueue| < RequeueLimit {
        eventQueue := batch + eventQueue;
      }
    }
  }
}
