/** The native module as a state machine over serialised events. Its only
    state is the completion slot; the events are the two `open` calls and a
    call of `handleActivityResult`, so a run is a sequence of steps. Both
    native variants are covered, differing in `getContactDetails` and in how
    the slot is cleared after a delivery. The Java class receives
    `handleActivityResult` from the host through its activity listener; the
    Kotlin class registers no listener, so there an `ActivityResult` event
    stands for a direct call of its public `handleActivityResult`. */
module Phonebook {
  import opened Types
  import opened Envelope
  import opened Sinks
  import opened Dispatch
  import opened Provider
  import JavaDetails
  import KotlinDetails

  datatype Variant = Java | Kotlin

  /** The device at the moment of an `open` call: is there a current
      activity, is the permission granted, what did the launch do. */
  datatype Device = Device(hasActivity: bool, granted: bool, attempt: LaunchAttempt)

  /** The content provider: the rows behind each contact URI, and the
      platform's type labels. */
  datatype Store = Store(rowsAt: Uri -> ContactRows, labels: Labels)

  datatype Event =
    | OpenPhonebook(options: PhonebookOptions, promise: nat, device: Device)
    | OpenPhonebookWithCallback(options: PhonebookOptions, callback: nat, device: Device)
    | ActivityResult(requestCode: int, resultCode: int, data: Option<Intent>, store: Store)

  /** The sink an event installs, if it is an `open` call. */
  function Opened(e: Event): Option<Sink> {
    match e
    case OpenPhonebook(_, p, _) => Some(PromiseSink(p))
    case OpenPhonebookWithCallback(_, c, _) => Some(CallbackSink(c))
    case ActivityResult(_, _, _, _) => None
  }

  /** The launch guard's verdict for an `open` call. */
  function Launch(e: Event): LaunchOutcome
    requires Opened(e).Some?
  {
    OpenContactPicker(e.device.hasActivity, e.device.granted, e.device.attempt)
  }

  /** The variant's `getContactDetails`, applied to the rows behind a URI. */
  function DetailsAt(v: Variant, store: Store): Uri -> Option<Contact> {
    (u: Uri) =>
      match v
      case Java => JavaDetails.GetContactDetails(store.rowsAt(u), store.labels)
      case Kotlin => KotlinDetails.GetContactDetails(store.rowsAt(u), store.labels)
  }

  /** `handleResult`'s delivery for the variant. */
  function Deliver(v: Variant, s: Slot, result: PhonebookResult): (r: Outcome)
    ensures r.slot == Empty
    ensures |r.out| == |Pending(s)|
    ensures forall d :: d in r.out ==> d.to in Pending(s) && d.result == result
    ensures forall x :: x in Pending(s) ==> exists d :: d in r.out && d.to == x
  {
    match v
    case Java => JavaDeliver(s, result)
    case Kotlin => KotlinDeliver(s, result)
  }

  /** The tail of an `open` call once its sink `x` is installed: nothing more
      if the picker launched, else `handleError` completes `x` at once. */
  function AfterLaunch(v: Variant, s: Slot, x: Sink, o: LaunchOutcome): (r: Outcome)
    requires Pending(s) == {x} && AtMostOne(s)
    ensures AtMostOne(r.slot) && |r.out| <= 1
    ensures forall d :: d in r.out ==> d.to == x
    ensures o.Launched? ==> r == Outcome(s, [])
    ensures o.Refused? ==> r.slot == Empty && r.out == [Delivery(x, HandleError(o.error))]
  {
    match o
    case Launched => Outcome(s, [])
    case Refused(error) =>
      var r := Deliver(v, s, HandleError(error));
      assert r.out[0] in r.out;
      r
  }

  /** `handleActivityResult` once the slot is in place: a result with the
      picker's request code completes every pending sink with the dispatch
      envelope and empties the slot; any other result changes nothing. */
  function OnResult(v: Variant, s: Slot, requestCode: int, resultCode: int, data: Option<Intent>, store: Store): (r: Outcome)
    ensures requestCode != CONTACT_PICKER_REQUEST_CODE ==> r == Outcome(s, [])
    ensures requestCode == CONTACT_PICKER_REQUEST_CODE ==>
              && r.slot == Empty
              && |r.out| == |Pending(s)|
              && forall d :: d in r.out ==>
                   && d.to in Pending(s)
                   && Some(d.result) == HandleActivityResult(requestCode, resultCode, data, DetailsAt(v, store))
    ensures requestCode == CONTACT_PICKER_REQUEST_CODE ==>
              forall x :: x in Pending(s) ==> exists d :: d in r.out && d.to == x
  {
    match HandleActivityResult(requestCode, resultCode, data, DetailsAt(v, store))
    case None => Outcome(s, [])
    case Some(result) => Deliver(v, s, result)
  }

  /** One host event. An `open` call installs its sink, dropping any earlier
      one, and completes it at once if the guard refuses; a picker result
      with the picker's request code completes whatever is pending and
      empties the slot; any other result is ignored. */
  function Step(v: Variant, s: Slot, e: Event): (r: Outcome)
    ensures Opened(e).Some? || AtMostOne(s) ==> AtMostOne(r.slot)
    ensures AtMostOne(s) ==> |r.out| <= 1
    ensures forall d :: d in r.out ==> d.to in Pending(s) || Some(d.to) == Opened(e)
    ensures Opened(e).Some? && Launch(e).Launched? ==>
              r.out == [] && Pending(r.slot) == {Opened(e).value}
    ensures Opened(e).Some? && Launch(e).Refused? ==>
              r.slot == Empty && r.out == [Delivery(Opened(e).value, HandleError(Launch(e).error))]
    ensures e.ActivityResult? && e.requestCode != CONTACT_PICKER_REQUEST_CODE ==>
              r == Outcome(s, [])
    ensures e.ActivityResult? && e.requestCode == CONTACT_PICKER_REQUEST_CODE ==>
              && r.slot == Empty
              && |r.out| == |Pending(s)|
              && (forall d :: d in r.out ==>
                    Some(d.result) == HandleActivityResult(e.requestCode, e.resultCode, e.data, DetailsAt(v, e.store)))
              && (forall x :: x in Pending(s) ==> exists d :: d in r.out && d.to == x)
  {
    match e
    case OpenPhonebook(_, p, _) =>
      AfterLaunch(v, OpenWithPromise(s, p), PromiseSink(p), Launch(e))
    case OpenPhonebookWithCallback(_, c, _) =>
      AfterLaunch(v, OpenWithCallback(s, c), CallbackSink(c), Launch(e))
    case ActivityResult(requestCode, resultCode, data, store) =>
      OnResult(v, s, requestCode, resultCode, data, store)
  }

  /** A run of host events from slot `s`: the final slot and every delivery, in order. */
  function Run(v: Variant, s: Slot, events: seq<Event>): (r: Outcome)
    ensures AtMostOne(s) ==> AtMostOne(r.slot)
    decreases |events|
  {
    if events == [] then Outcome(s, [])
    else
      var first := Step(v, s, events[0]);
      var rest := Run(v, first.slot, events[1..]);
      Outcome(rest.slot, first.out + rest.out)
  }

  /** No `open` call among the events. */
  predicate NoOpens(events: seq<Event>) {
    forall i :: 0 <= i < |events| ==> Opened(events[i]).None?
  }

  /** At-most-once completion: without a new `open`, picker results deliver
      no more envelopes in all than there are pending sinks (at most one from
      a slot the module can reach), so a second result after a delivered one
      delivers nothing. */
  lemma {:induction false} ResultsCompleteAtMostPending(v: Variant, s: Slot, events: seq<Event>)
    requires NoOpens(events)
    ensures |Run(v, s, events).out| <= |Pending(s)|
    ensures AtMostOne(s) ==> |Run(v, s, events).out| <= 1
    decreases |events|
  {
    if events != [] {
      var first := Step(v, s, events[0]);
      assert Opened(events[0]).None?;
      assert NoOpens(events[1..]) by {
        forall i | 0 <= i < |events[1..]| ensures Opened(events[1..][i]).None? {
          assert events[1..][i] == events[i + 1];
        }
      }
      ResultsCompleteAtMostPending(v, first.slot, events[1..]);
      if first.out != [] {
        assert first.slot == Empty;
      }
    }
  }

  /** A sink that is not pending and that no later `open` re-installs is
      never completed: an `open` silently drops the sink it replaces. */
  lemma {:induction false} DroppedSinkNeverCompleted(v: Variant, s: Slot, events: seq<Event>, x: Sink)
    requires x !in Pending(s)
    requires forall i :: 0 <= i < |events| ==> Opened(events[i]) != Some(x)
    ensures forall d :: d in Run(v, s, events).out ==> d.to != x
    decreases |events|
  {
    if events != [] {
      var first := Step(v, s, events[0]);
      assert Opened(events[0]) != Some(x);
      assert x !in Pending(first.slot);
      forall i | 0 <= i < |events[1..]| ensures Opened(events[1..][i]) != Some(x) {
        assert events[1..][i] == events[i + 1];
      }
      DroppedSinkNeverCompleted(v, first.slot, events[1..], x);
    }
  }

  /** A run's first step, peeled off. */
  lemma RunUnfolds(v: Variant, s: Slot, e: Event, rest: seq<Event>)
    ensures Run(v, s, [e] + rest).out == Step(v, s, e).out + Run(v, Step(v, s, e).slot, rest).out
  {
    assert ([e] + rest)[1..] == rest;
  }

  /** An `open` call drops every sink other than its own: such a sink is
      neither completed by the call nor pending after it. */
  lemma OpenDropsOtherSinks(v: Variant, s: Slot, e: Event, x: Sink)
    requires Opened(e).Some? && Opened(e) != Some(x)
    ensures x !in Pending(Step(v, s, e).slot)
    ensures forall d :: d in Step(v, s, e).out ==> d.to != x
  {
  }

  /** Two `openPhonebook` calls in a row: once the first has launched the
      picker, the second replaces its promise, and unless that promise is
      reused the first caller never hears back, whatever happens next. */
  lemma FirstOfTwoOpensIsDropped(v: Variant, s: Slot, first: Event, second: Event, later: seq<Event>)
    requires first.OpenPhonebook? && Launch(first).Launched?
    requires Opened(second).Some? && Opened(second) != Opened(first)
    requires forall i :: 0 <= i < |later| ==> Opened(later[i]) != Opened(first)
    ensures forall d :: d in Run(v, s, [first, second] + later).out ==> d.to != Opened(first).value
  {
    var x := Opened(first).value;
    var s1 := Step(v, s, first).slot;
    OpenDropsOtherSinks(v, s1, second, x);
    var s2 := Step(v, s1, second).slot;
    DroppedSinkNeverCompleted(v, s2, later, x);
    assert [first, second] + later == [first] + ([second] + later);
    RunUnfolds(v, s, first, [second] + later);
    RunUnfolds(v, s1, second, later);
  }

  /** Given the same events, the variants step identically except where the
      picked contact's rows are read. (Only the Java class is handed picker
      results by the host; see the module comment.) */
  lemma VariantsAgreeOffTheDetailsPath(s: Slot, e: Event)
    requires !(e.ActivityResult? && e.resultCode == RESULT_OK && e.data.Some? && e.data.value.data.Some?)
    ensures Step(Java, s, e) == Step(Kotlin, s, e)
  {
    match e
    case OpenPhonebook(_, p, _) =>
      var o := Launch(e);
      if o.Refused? {
        DeliverVariantsAgree(OpenWithPromise(s, p), HandleError(o.error));
      }
    case OpenPhonebookWithCallback(_, c, _) =>
      var o := Launch(e);
      if o.Refused? {
        DeliverVariantsAgree(OpenWithCallback(s, c), HandleError(o.error));
      }
    case ActivityResult(requestCode, resultCode, data, store) =>
      var envelope := HandleActivityResult(requestCode, resultCode, data, DetailsAt(Java, store));
      assert envelope == HandleActivityResult(requestCode, resultCode, data, DetailsAt(Kotlin, store));
      if envelope.Some? {
        DeliverVariantsAgree(s, envelope.value);
      }
  }

  /** A result whose picked contact has organisation or postal rows that
      failed to load: a query only one of the variants issues threw. */
  predicate VariantOnlyQueryThrew(e: Event) {
    && e.ActivityResult? && e.data.Some? && e.data.value.data.Some?
    && var rows := e.store.rowsAt(e.data.value.data.value);
       rows.orgs.Threw? || rows.postal.Threw?
  }

  /** The dispatch envelopes of the two variants for one picker result: both
      exist or neither does, and unless a query only one variant issues
      threw, they differ at most in the record carried. */
  lemma EnvelopesAgreeUpToTheRecord(e: Event)
    requires e.ActivityResult?
    ensures HandleActivityResult(e.requestCode, e.resultCode, e.data, DetailsAt(Java, e.store)).Some?
            == HandleActivityResult(e.requestCode, e.resultCode, e.data, DetailsAt(Kotlin, e.store)).Some?
    ensures !VariantOnlyQueryThrew(e)
            && HandleActivityResult(e.requestCode, e.resultCode, e.data, DetailsAt(Java, e.store)).Some? ==>
              AgreeUpToRecord(HandleActivityResult(e.requestCode, e.resultCode, e.data, DetailsAt(Java, e.store)).value,
                              HandleActivityResult(e.requestCode, e.resultCode, e.data, DetailsAt(Kotlin, e.store)).value)
  {
    if !VariantOnlyQueryThrew(e) && e.resultCode == RESULT_OK && e.data.Some? && e.data.value.data.Some? {
      var u := e.data.value.data.value;
      KotlinDetails.VariantsAgreeOnSharedFields(e.store.rowsAt(u), e.store.labels);
      assert DetailsAt(Java, e.store)(u).Some? <==> DetailsAt(Kotlin, e.store)(u).Some?;
    }
  }

  /** Why the exception is needed: when only the organisation query throws,
      the Java module reports "Failed to retrieve contact details" to the
      pending caller while the Kotlin module, which never issues that
      query, hands it the contact. */
  lemma OrgFailureSplitsTheVariants(labels: Labels)
    ensures var rows := ContactRows(Rows([CoreRow("7", None, 0)]), NullCursor, Rows([]), Query.Threw, Rows([]));
            var e := ActivityResult(CONTACT_PICKER_REQUEST_CODE, RESULT_OK, Some(Intent(Some(Uri("content://contacts/7")))),
                                    Store((u: Uri) => rows, labels));
            && VariantOnlyQueryThrew(e)
            && Step(Java, Slot(Some(1), None), e).out == [Delivery(PromiseSink(1), HandleError(DetailsUnavailable))]
            && Step(Kotlin, Slot(Some(1), None), e).out[0].to == PromiseSink(1)
            && Step(Kotlin, Slot(Some(1), None), e).out[0].result.success
  {
    var rows := ContactRows(Rows([CoreRow("7", None, 0)]), NullCursor, Rows([]), Query.Threw, Rows([]));
    var data := Some(Intent(Some(Uri("content://contacts/7"))));
    var store := Store((u: Uri) => rows, labels);
    assert JavaDetails.GetContactDetails(rows, labels).None?;
    assert KotlinDetails.GetContactDetails(rows, labels).Some?;
    assert HandleActivityResult(CONTACT_PICKER_REQUEST_CODE, RESULT_OK, data, DetailsAt(Java, store))
           == Some(HandleError(DetailsUnavailable));
    assert HandleActivityResult(CONTACT_PICKER_REQUEST_CODE, RESULT_OK, data, DetailsAt(Kotlin, store)).value.success;
  }

  /** The picker-result deliveries of the two variants: the same slot, the
      same sinks in the same order, and envelopes that agree up to the record
      unless a query only one variant issues threw. */
  lemma ResultsAgreeUpToTheRecord(s: Slot, e: Event)
    requires e.ActivityResult?
    ensures var j := OnResult(Java, s, e.requestCode, e.resultCode, e.data, e.store);
            var k := OnResult(Kotlin, s, e.requestCode, e.resultCode, e.data, e.store);
            && j.slot == k.slot
            && |j.out| == |k.out|
            && (forall i :: 0 <= i < |j.out| ==> j.out[i].to == k.out[i].to)
            && (!VariantOnlyQueryThrew(e) ==>
                  forall i :: 0 <= i < |j.out| ==> AgreeUpToRecord(j.out[i].result, k.out[i].result))
  {
    var javaEnvelope := HandleActivityResult(e.requestCode, e.resultCode, e.data, DetailsAt(Java, e.store));
    var kotlinEnvelope := HandleActivityResult(e.requestCode, e.resultCode, e.data, DetailsAt(Kotlin, e.store));
    EnvelopesAgreeUpToTheRecord(e);
    if javaEnvelope.Some? {
      DeliverVariantsAgree(s, javaEnvelope.value);
      DeliveryTargetsIgnoreEnvelope(s, javaEnvelope.value, kotlinEnvelope.value);
    }
  }

  /** On every event, the details path included, the variants end in the
      same slot and complete the same sinks in the same order. Their
      envelopes differ at most in the record carried, unless a query only
      one of them issues threw: then one may fail while the other succeeds. */
  lemma VariantsAgreeUpToTheRecord(s: Slot, e: Event)
    ensures var j := Step(Java, s, e);
            var k := Step(Kotlin, s, e);
            && j.slot == k.slot
            && |j.out| == |k.out|
            && (forall i :: 0 <= i < |j.out| ==> j.out[i].to == k.out[i].to)
            && (!VariantOnlyQueryThrew(e) ==>
                  forall i :: 0 <= i < |j.out| ==> AgreeUpToRecord(j.out[i].result, k.out[i].result))
  {
    if e.ActivityResult? {
      ResultsAgreeUpToTheRecord(s, e);
    } else {
      VariantsAgreeOffTheDetailsPath(s, e);
    }
  }
}
