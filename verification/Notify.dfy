/** The notify event handler: one message fanned out to every attached notifier. */
module Notify {
  import opened Common

  datatype DeliveryStatus = Sent | Undelivered

  /** One row of notification_deliveries. */
  datatype Delivery = Delivery(notifierId: string, status: DeliveryStatus)

  /** A notifier as the handler meets it: which of its four gates let it through. */
  datatype Target = Target(id: string, channelKnown: bool, verified: bool, secretsReadable: bool, sendSucceeds: bool)

  datatype Output = Output(deliveries: seq<Delivery>, error: Option<string>)

  predicate Reachable(t: Target) {
    t.channelKnown && t.verified && t.secretsReadable && t.sendSucceeds
  }

  /** The targets come from a join whose primary key is (event, notifier), so ids do not repeat. */
  ghost predicate DistinctTargets(targets: seq<Target>) {
    forall i, j :: 0 <= i < j < |targets| ==> targets[i].id != targets[j].id
  }

  function DeliveryFor(t: Target): Delivery {
    Delivery(t.id, if Reachable(t) then Sent else Undelivered)
  }

  function Deliveries(targets: seq<Target>): (ds: seq<Delivery>)
    ensures |ds| == |targets|
    ensures forall i :: 0 <= i < |ds| ==> ds[i] == DeliveryFor(targets[i])
  {
    if targets == [] then [] else [DeliveryFor(targets[0])] + Deliveries(targets[1..])
  }

  function CountSent(ds: seq<Delivery>): nat {
    if ds == [] then 0 else (if ds[0].status == Sent then 1 else 0) + CountSent(ds[1..])
  }

  /** What the handler returns for these targets. */
  function NotifyOutput(targets: seq<Target>): Output {
    if targets == [] then
      Output([], Some("notify event has no notifiers attached"))
    else
      var ds := Deliveries(targets);
      Output(ds, if CountSent(ds) == 0 then Some("all deliveries failed") else None)
  }

  ghost predicate HasSent(ds: seq<Delivery>) {
    exists i :: 0 <= i < |ds| && ds[i].status == Sent
  }

  lemma {:induction false} CountSentSnoc(ds: seq<Delivery>, d: Delivery)
    ensures CountSent(ds + [d]) == CountSent(ds) + (if d.status == Sent then 1 else 0)
  {
    if ds == [] {
      assert ds + [d] == [d];
    } else {
      CountSentSnoc(ds[1..], d);
      assert (ds + [d])[1..] == ds[1..] + [d];
    }
  }

  lemma {:induction false} CountSentZero(ds: seq<Delivery>)
    ensures CountSent(ds) <= |ds|
    ensures CountSent(ds) == 0 <==> !HasSent(ds)
  {
    if ds != [] {
      CountSentZero(ds[1..]);
      if HasSent(ds[1..]) {
        var i :| 0 <= i < |ds[1..]| && ds[1..][i].status == Sent;
        assert ds[i + 1].status == Sent;
      }
      if HasSent(ds) && ds[0].status != Sent {
        var i :| 0 <= i < |ds| && ds[i].status == Sent;
        assert ds[1..][i - 1].status == Sent;
      }
    }
  }

  /** The error rule: an attempt is retried exactly when nothing at all was delivered. */
  lemma ErrorMeansNothingSent(targets: seq<Target>)
    ensures NotifyOutput(targets).error.Some? <==> forall t :: t in targets ==> !Reachable(t)
    ensures NotifyOutput(targets).error.Some? <==> !HasSent(NotifyOutput(targets).deliveries)
  {
    var ds := Deliveries(targets);
    CountSentZero(ds);
    if HasSent(ds) {
      var i :| 0 <= i < |ds| && ds[i].status == Sent;
      assert ds[i] == DeliveryFor(targets[i]);
      assert Reachable(targets[i]) && targets[i] in targets;
    } else {
      forall t | t in targets ensures !Reachable(t) {
        var i :| 0 <= i < |targets| && targets[i] == t;
        assert ds[i] == DeliveryFor(t);
      }
    }
  }

  /** Within one attempt a notifier has at most one sent delivery. */
  lemma SentAtMostOncePerAttempt(targets: seq<Target>, i: nat, j: nat)
    requires DistinctTargets(targets)
    requires i < |NotifyOutput(targets).deliveries| && j < |NotifyOutput(targets).deliveries|
    requires NotifyOutput(targets).deliveries[i].notifierId == NotifyOutput(targets).deliveries[j].notifierId
    ensures i == j
  {
    var ds := Deliveries(targets);
    assert ds[i] == DeliveryFor(targets[i]) && ds[j] == DeliveryFor(targets[j]);
  }

  /** The loop of NotifyHandler.Execute: the gates in order, one delivery appended per notifier. */
  method Execute(targets: seq<Target>) returns (output: Output, sent: nat, failed: nat)
    ensures output == NotifyOutput(targets)
    ensures sent + failed == |output.deliveries| == |targets|
    ensures output.error.Some? <==> forall t :: t in targets ==> !Reachable(t)
    ensures sent == CountSent(output.deliveries)
    ensures forall i :: 0 <= i < |targets| ==>
              && output.deliveries[i].notifierId == targets[i].id
              && (output.deliveries[i].status == Sent <==>
                    && targets[i].channelKnown && targets[i].verified && targets[i].secretsReadable
                    && targets[i].sendSucceeds)
  {
    ErrorMeansNothingSent(targets);
    if |targets| == 0 {
      return Output([], Some("notify event has no notifiers attached")), 0, 0;
    }
    var deliveries: seq<Delivery> := [];
    var failures := 0;
    for i := 0 to |targets|
      invariant |deliveries| == i && failures <= i
      invariant forall k :: 0 <= k < i ==> deliveries[k] == DeliveryFor(targets[k])
      invariant CountSent(deliveries) + failures == i
    {
      var target := targets[i];
      var delivery := Delivery(target.id, Undelivered);
      if !target.channelKnown {
        failures := failures + 1;
      } else if !target.verified {
        failures := failures + 1;
      } else if !target.secretsReadable {
        failures := failures + 1;
      } else if !target.sendSucceeds {
        failures := failures + 1;
      } else {
        delivery := delivery.(status := Sent);
      }
      CountSentSnoc(deliveries, delivery);
      deliveries := deliveries + [delivery];
    }
    assert deliveries == Deliveries(targets);
    sent, failed := |deliveries| - failures, failures;
    if failures == |deliveries| {
      output := Output(deliveries, Some("all deliveries failed"));
    } else {
      output := Output(deliveries, None);
    }
  }
}
