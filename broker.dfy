/**
 The MQTT side of the firmware: `reconnectMQTT`, which retries the broker
 connection until it is accepted and subscribes after each success, and
 `loop`, which reconnects when needed and then services the client once,
 which may deliver one announcement to the callback.

 The broker client's answers are injected: a sequence of connect results for the
 retries, and one service result per `loop` tick.
 */
module Broker {
  import opened Ota
  import opened Announce

  /** The client identifier passed to every connect. */
  const ClientId: string := "esp32-s3"
  /** Milliseconds waited after a refused connect. */
  const RetryDelayMs: nat := 3000

  /** The broker settings compiled into the firmware. */
  datatype Config = Config(user: string, pass: string, topic: string)

  /**
   What one pass of the retry loop observes. The client is asked whether it is
   connected twice: right after `connect` (which decides between subscribing
   and waiting) and again at the loop test (which decides whether to retry). A
   refused connect reads false both times; an accepted one carries the second
   read in `holds`, which is false when the link dropped after the subscribe.
   */
  datatype ConnectResult = Accepted(holds: bool) | Refused(state: int)

  /** One call the firmware makes on the broker client (or the delay between attempts). */
  datatype ClientCall =
    | ConnectAnonymous(clientId: string)
    | ConnectWithCredentials(clientId: string, user: string, pass: string)
    | Subscribe(topic: string)
    | Wait(ms: nat)
    | Service

  /** An announcement handed to the callback: its bytes and the library results that decide its fate. */
  datatype Inbound = Inbound(payload: seq<byte>, length: nat, parse: string -> Parse, ota: Oracle)

  /**
   What servicing the client (`mqttClient.loop()`) does on one tick while
   connected: nothing, notice that the link is lost, or deliver one
   announcement. `holds` says whether the link survived the callback, which
   blocks the client for as long as the update routine runs.
   */
  datatype ServiceResult = Quiet | LinkLost | Deliver(inbound: Inbound, holds: bool)

  /** The connect call the firmware makes: with credentials exactly when the user name is non-empty. */
  function ConnectCall(c: Config): (call: ClientCall)
    ensures call.ConnectWithCredentials? <==> |c.user| > 0
    ensures call.ConnectAnonymous? <==> |c.user| == 0
    ensures call.clientId == ClientId
    ensures call.ConnectWithCredentials? ==> call.user == c.user && call.pass == c.pass
  {
    if |c.user| > 0 then ConnectWithCredentials(ClientId, c.user, c.pass) else ConnectAnonymous(ClientId)
  }

  /** The calls of one attempt: connect, then subscribe on success or wait on refusal. */
  function AttemptCalls(c: Config, r: ConnectResult): seq<ClientCall> {
    [ConnectCall(c)] + (if r.Accepted? then [Subscribe(c.topic)] else [Wait(RetryDelayMs)])
  }

  /** The calls of a run of attempts, in order: two per attempt. */
  function RetryTrace(c: Config, rs: seq<ConnectResult>): (t: seq<ClientCall>)
    ensures |t| == 2 * |rs|
    decreases |rs|
  {
    if rs == [] then [] else RetryTrace(c, rs[..|rs| - 1]) + AttemptCalls(c, rs[|rs| - 1])
  }

  /**
   How many connect results the retry loop uses: every attempt up to and
   including the first one that is accepted and still holds at the loop test,
   or all of them when there is none.
   */
  function Consumed(rs: seq<ConnectResult>): (k: nat)
    ensures k <= |rs|
    ensures forall i :: 0 <= i < k - 1 ==> rs[i] != Accepted(true)
    ensures Accepted(true) in rs <==> 0 < k && rs[k - 1] == Accepted(true)
    ensures Accepted(true) !in rs ==> k == |rs|
  {
    if rs == [] then 0
    else if rs[0] == Accepted(true) then 1
    else
      assert rs == [rs[0]] + rs[1..];
      1 + Consumed(rs[1..])
  }

  /**
   The retry trace alternates: call `2i` is the connect of attempt `i`, and call
   `2i+1` is a subscribe to the configured topic when that attempt was accepted
   and a 3000 ms wait when it was refused. So no wait ever follows an accepted
   connect, even one whose link then dropped.
   */
  lemma {:induction false} RetryTraceShape(c: Config, rs: seq<ConnectResult>, i: nat)
    requires i < |rs|
    ensures |RetryTrace(c, rs)| == 2 * |rs|
    ensures RetryTrace(c, rs)[2 * i] == ConnectCall(c)
    ensures RetryTrace(c, rs)[2 * i + 1] == if rs[i].Accepted? then Subscribe(c.topic) else Wait(RetryDelayMs)
    decreases |rs|
  {
    var init := rs[..|rs| - 1];
    if i < |rs| - 1 {
      RetryTraceShape(c, init, i);
      assert init[i] == rs[i];
    } else if |init| > 0 {
      RetryTraceShape(c, init, 0);
    }
  }

  /** Every subscribe in a retry trace comes right after a connect of an attempt that was accepted. */
  lemma SubscribeOnlyAfterAcceptedConnect(c: Config, rs: seq<ConnectResult>, j: nat)
    requires j < |RetryTrace(c, rs)| && RetryTrace(c, rs)[j] == Subscribe(c.topic)
    ensures j % 2 == 1 && RetryTrace(c, rs)[j - 1] == ConnectCall(c) && rs[j / 2].Accepted?
  {
    RetryTraceShape(c, rs, j / 2);
  }

  /**
   When some attempt is accepted and holds, the retries end with it: the trace
   ends with its connect and subscribe. Any earlier subscribe belongs to an
   accepted attempt whose link dropped before the loop test, and is followed at
   once by the next connect, with no wait in between.
   */
  lemma {:induction false} RetryEndsAtFirstHeldConnect(c: Config, rs: seq<ConnectResult>)
    requires Accepted(true) in rs
    ensures var t := RetryTrace(c, rs[..Consumed(rs)]);
      |t| == 2 * Consumed(rs) && t[|t| - 2] == ConnectCall(c) && t[|t| - 1] == Subscribe(c.topic)
      && forall j :: 0 <= j < |t| - 1 && t[j] == Subscribe(c.topic) ==>
           rs[j / 2] == Accepted(false) && t[j + 1] == ConnectCall(c)
  {
    var k := Consumed(rs);
    var used := rs[..k];
    var t := RetryTrace(c, used);
    RetryTraceShape(c, used, k - 1);
    forall j | 0 <= j < |t| - 1 && t[j] == Subscribe(c.topic)
      ensures rs[j / 2] == Accepted(false) && t[j + 1] == ConnectCall(c)
    {
      RetryTraceShape(c, used, j / 2);
      assert j % 2 == 1;
      assert j / 2 < k - 1;
      assert used[j / 2] == rs[j / 2];
      RetryTraceShape(c, used, j / 2 + 1);
    }
  }

  /**
   The device's mutable state: the current firmware version, the broker
   connection, the calls made on the broker client, the verdicts of the
   announcements handled, and whether the device has restarted into a new image.
   */
  class Device {
    const config: Config
    var currentVersion: string
    var connected: bool
    var calls: seq<ClientCall>
    var verdicts: seq<Verdict>
    var restarted: bool

    /** The device after start-up, before the first connection to the broker. */
    constructor (config: Config, version: string)
      ensures this.config == config && currentVersion == version
      ensures !connected && calls == [] && verdicts == [] && !restarted
    {
      this.config := config;
      currentVersion := version;
      connected := false;
      calls := [];
      verdicts := [];
      restarted := false;
    }

    /**
     `reconnectMQTT()`: while disconnected, connect (with credentials when a user
     name is configured), then subscribe if the client reads as connected or wait
     3000 ms if not, and test the connection again. The device retries for ever;
     here the retries stop when the injected results run out, in which case the
     device is still disconnected.
     */
    method Reconnect(attempts: seq<ConnectResult>) returns (used: nat)
      modifies this
      ensures used == if old(connected) then 0 else Consumed(attempts)
      ensures connected <==> old(connected) || Accepted(true) in attempts
      ensures calls == old(calls) + RetryTrace(config, attempts[..used])
      ensures currentVersion == old(currentVersion)
      ensures verdicts == old(verdicts) && restarted == old(restarted)
    {
      used := 0;
      while !connected
        invariant used <= |attempts|
        invariant calls == old(calls) + RetryTrace(config, attempts[..used])
        invariant old(connected) ==> connected && used == 0
        invariant !connected ==> forall j :: 0 <= j < used ==> attempts[j] != Accepted(true)
        invariant connected && !old(connected) ==>
          0 < used && attempts[used - 1] == Accepted(true)
          && forall j :: 0 <= j < used - 1 ==> attempts[j] != Accepted(true)
        invariant currentVersion == old(currentVersion)
        invariant verdicts == old(verdicts) && restarted == old(restarted)
        decreases |attempts| - used
      {
        if used == |attempts| {
          break;
        }
        var result := attempts[used];
        assert attempts[..used + 1] == attempts[..used] + [result];
        calls := calls + [ConnectCall(config)];
        used := used + 1;
        if result.Accepted? {
          calls := calls + [Subscribe(config.topic)];
          connected := result.holds;
        } else {
          calls := calls + [Wait(RetryDelayMs)];
          connected := false;
        }
      }
      if !old(connected) {
        if connected {
          assert Accepted(true) in attempts by { assert attempts[used - 1] == Accepted(true); }
        } else {
          assert Accepted(true) !in attempts by {
            forall j | 0 <= j < |attempts| ensures attempts[j] != Accepted(true) {
            }
          }
        }
      }
    }

    /**
     `loop()`: reconnect only when disconnected, then service the client once.
     Servicing a connected client either does nothing, notices the link is lost,
     or delivers one announcement, which the callback handles to completion
     against the current version before the tick ends; the link may be gone by
     then, and the next tick reconnects first. When the injected connect results
     run out the device is still inside `reconnectMQTT`, so the tick ends there
     without servicing.
     */
    method Loop(attempts: seq<ConnectResult>, tick: ServiceResult)
      requires !restarted
      requires tick.Deliver? ==> tick.inbound.length <= |tick.inbound.payload|
      modifies this
      ensures currentVersion == old(currentVersion)
      ensures var used := if old(connected) then 0 else Consumed(attempts);
        var up := old(connected) || Accepted(true) in attempts;
        calls == old(calls) + RetryTrace(config, attempts[..used]) + (if up then [Service] else [])
      ensures var up := old(connected) || Accepted(true) in attempts;
        connected <==> up && (tick.Quiet? || (tick.Deliver? && tick.holds))
      ensures var up := old(connected) || Accepted(true) in attempts;
        verdicts == old(verdicts) +
          if up && tick.Deliver? then
            [Decide(old(currentVersion),
                    tick.inbound.parse(Text(tick.inbound.payload[..tick.inbound.length])),
                    tick.inbound.ota)]
          else []
      ensures restarted <==> |verdicts| > |old(verdicts)| && verdicts[|verdicts| - 1].Updated?
                             && verdicts[|verdicts| - 1].run.phase.Restarting?
    {
      if !connected {
        var _ := Reconnect(attempts);
      }
      if !connected {
        return;
      }
      calls := calls + [Service];
      match tick
      case Quiet =>
      case LinkLost =>
        connected := false;
      case Deliver(inbound, holds) =>
        var msg, verdict := HandleMessage(currentVersion, inbound.payload, inbound.length, inbound.parse, inbound.ota);
        verdicts := verdicts + [verdict];
        restarted := verdict.Updated? && verdict.run.phase.Restarting?;
        connected := holds;
    }
  }
}
