/** The module-level completion slot: the `promiseResolve` and `callback`
    fields, and the delivery at the end of `handleResult`. Promises and
    callbacks are opaque handles, identified by a number. */
module Sinks {
  import opened Types

  datatype Sink = PromiseSink(promise: nat) | CallbackSink(callback: nat)

  /** `promiseResolve` and `callback`; `None` is `null`. */
  datatype Slot = Slot(promise: Option<nat>, callback: Option<nat>)

  const Empty := Slot(None, None)

  /** One envelope handed to one sink (`resolve` or `invoke`). */
  datatype Delivery = Delivery(to: Sink, result: PhonebookResult)

  datatype Outcome = Outcome(slot: Slot, out: seq<Delivery>)

  /** The slot never holds a promise and a callback at once. */
  predicate AtMostOne(s: Slot) {
    s.promise.None? || s.callback.None?
  }

  /** The sinks that the next `handleResult` would complete. */
  function Pending(s: Slot): (r: set<Sink>)
    ensures AtMostOne(s) ==> |r| <= 1
  {
    (if s.promise.Some? then {PromiseSink(s.promise.value)} else {})
    + (if s.callback.Some? then {CallbackSink(s.callback.value)} else {})
  }

  /** The slot update of `openPhonebook`: the promise becomes the only
      pending sink; whatever was pending before is dropped. */
  function OpenWithPromise(s: Slot, p: nat): (r: Slot)
    ensures Pending(r) == {PromiseSink(p)}
    ensures AtMostOne(r)
  {
    Slot(Some(p), None)
  }

  /** The slot update of `openPhonebookWithCallback`. */
  function OpenWithCallback(s: Slot, c: nat): (r: Slot)
    ensures Pending(r) == {CallbackSink(c)}
    ensures AtMostOne(r)
  {
    Slot(None, Some(c))
  }

  /** The delivery of PhonebookModule.java: resolve the promise if set, then
      null it; invoke the callback if set, then null it. Every pending sink
      gets the envelope once and the slot ends empty. */
  function JavaDeliver(s: Slot, result: PhonebookResult): (r: Outcome)
    ensures r.slot == Empty
    ensures |r.out| == |Pending(s)|
    ensures forall i :: 0 <= i < |r.out| ==> r.out[i].to in Pending(s) && r.out[i].result == result
    ensures forall x :: x in Pending(s) ==> exists i :: 0 <= i < |r.out| && r.out[i].to == x
  {
    var afterPromise :=
      if s.promise.Some? then
        Outcome(s.(promise := None), [Delivery(PromiseSink(s.promise.value), result)])
      else
        Outcome(s, []);
    if afterPromise.slot.callback.Some? then
      var r := Outcome(afterPromise.slot.(callback := None),
                       afterPromise.out + [Delivery(CallbackSink(afterPromise.slot.callback.value), result)]);
      assert r.out[|r.out| - 1].to == CallbackSink(s.callback.value);
      assert s.promise.Some? ==> r.out[0].to == PromiseSink(s.promise.value);
      r
    else
      assert s.promise.Some? ==> afterPromise.out[0].to == PromiseSink(s.promise.value);
      afterPromise
  }

  /** The delivery of PhonebookModule.kt: `promiseResolve?.resolve(..)` and
      `callback?.invoke(..)`, each field nulled unconditionally. */
  function KotlinDeliver(s: Slot, result: PhonebookResult): (r: Outcome)
    ensures r.slot == Empty
    ensures |r.out| == |Pending(s)|
    ensures forall i :: 0 <= i < |r.out| ==> r.out[i].to in Pending(s) && r.out[i].result == result
    ensures forall x :: x in Pending(s) ==> exists i :: 0 <= i < |r.out| && r.out[i].to == x
  {
    var resolved := if s.promise.Some? then [Delivery(PromiseSink(s.promise.value), result)] else [];
    var invoked := if s.callback.Some? then [Delivery(CallbackSink(s.callback.value), result)] else [];
    var r := Outcome(Empty, resolved + invoked);
    assert s.promise.Some? ==> r.out[0].to == PromiseSink(s.promise.value);
    assert s.callback.Some? ==> r.out[|r.out| - 1].to == CallbackSink(s.callback.value);
    r
  }

  /** Who is completed depends on the slot alone: another envelope reaches
      the same sinks, in the same order, and leaves the same slot. */
  lemma DeliveryTargetsIgnoreEnvelope(s: Slot, a: PhonebookResult, b: PhonebookResult)
    ensures KotlinDeliver(s, a).slot == KotlinDeliver(s, b).slot
    ensures |KotlinDeliver(s, a).out| == |KotlinDeliver(s, b).out|
    ensures forall i :: 0 <= i < |KotlinDeliver(s, a).out| ==>
              KotlinDeliver(s, a).out[i] == Delivery(KotlinDeliver(s, b).out[i].to, a)
  {
    var sinks := (if s.promise.Some? then [PromiseSink(s.promise.value)] else [])
               + (if s.callback.Some? then [CallbackSink(s.callback.value)] else []);
    forall r | r in {a, b}
      ensures |KotlinDeliver(s, r).out| == |sinks|
      ensures forall i :: 0 <= i < |sinks| ==> KotlinDeliver(s, r).out[i] == Delivery(sinks[i], r)
    {
    }
  }

  /** The two variants' deliveries cannot be told apart. */
  lemma DeliverVariantsAgree(s: Slot, result: PhonebookResult)
    ensures KotlinDeliver(s, result) == JavaDeliver(s, result)
  {
  }
}
