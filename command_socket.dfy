/**
 * The drone command channel: a queue of text commands drained by a
 * dispatcher, a send/acknowledge/resend cycle with a bounded number of
 * resends, and a keepalive ("do not auto land") watchdog that sends a
 * neutral `rc 0 0 0 0` when its timer has run for too long. Only the
 * dispatcher, a retry resend and the keepalive itself restart that timer:
 * a direct `SendCommand` (every joystick command, `Stop`, `Emergency`)
 * leaves it running.
 *
 * The three worker threads of the command socket (queue dispatcher, retry thread,
 * keepalive worker) are modelled one loop body at a time, as step methods
 * of the `CommandSocket` class. What the threads race over (drone replies,
 * the clock, the end of the previous wait) is given to each step as a
 * parameter or a precondition. Time is a whole number of seconds.
 */
module CommandChannel {
  import Datagram

  /** The neutral command the keepalive worker sends. */
  const Hover: string := "rc 0 0 0 0"

  /** Seconds without a send after which the keepalive worker sends `Hover`. */
  const DnalTimeout: int := 7

  /** `s.substr(0, n)`: the first `n` characters, or all of `s` when it is shorter. */
  function Head(s: string, n: nat): (r: string)
    ensures r <= s
    ensures |r| == if n <= |s| then n else |s|
  {
    if n <= |s| then s[..n] else s
  }

  /** Comparing `substr(0, |p|)` with `p` is a prefix test. */
  lemma HeadIsPrefixTest(s: string, p: string)
    ensures Head(s, |p|) == p <==> p <= s
  {
    if Head(s, |p|) == p {
      assert p <= s;
    }
  }

  /**
   * The reply normaliser: a reply starting with "ok", "error" or
   * "forced stop" becomes that keyword, anything else "UNKNOWN".
   */
  function NormaliseReply(text: string): (r: string)
    ensures r == "ok" || r == "error" || r == "forced stop" || r == "UNKNOWN"
    ensures r == "ok" <==> "ok" <= text
    ensures r == "error" <==> "error" <= text
    ensures r == "forced stop" <==> "forced stop" <= text
  {
    HeadIsPrefixTest(text, "ok");
    HeadIsPrefixTest(text, "error");
    HeadIsPrefixTest(text, "forced stop");
    KeywordsStartApart(text);
    if Head(text, 2) == "ok" then "ok"
    else if Head(text, 5) == "error" then "error"
    else if Head(text, 11) == "forced stop" then "forced stop"
    else "UNKNOWN"
  }

  /** No text starts with two of the reply keywords: their first letters differ. */
  lemma KeywordsStartApart(text: string)
    ensures "ok" <= text ==> !("error" <= text) && !("forced stop" <= text)
    ensures "error" <= text ==> !("forced stop" <= text)
  {
    if "ok" <= text { assert text[0] == 'o'; }
    if "error" <= text { assert text[0] == 'e'; }
  }

  /** Normalising a normalised reply changes nothing. */
  lemma NormaliseReplyIdempotent(text: string)
    ensures NormaliseReply(NormaliseReply(text)) == NormaliseReply(text)
  {
    var r := NormaliseReply(text);
    if r == "UNKNOWN" {
      assert r[0] == 'U';
    }
  }

  /** A queued `delay <n>` directive: consumed by the dispatcher, never sent. */
  predicate IsDelay(cmd: string)
    ensures IsDelay(cmd) <==> "delay" <= cmd
  {
    HeadIsPrefixTest(cmd, "delay");
    Head(cmd, 5) == "delay"
  }

  /** A queued command that cancels the wait for the previous reply. */
  predicate IsStopOrEmergency(cmd: string)
    ensures IsStopOrEmergency(cmd) <==> "stop" <= cmd || "emergency" <= cmd
  {
    HeadIsPrefixTest(cmd, "stop");
    HeadIsPrefixTest(cmd, "emergency");
    Head(cmd, 4) == "stop" || Head(cmd, 9) == "emergency"
  }

  /**
   * As written, the reply is read from the whole receive buffer: after the
   * reply "ok", a shorter reply "o" still reads as "ok", whatever the buffer
   * held before, while the reply's own text "o" is "UNKNOWN".
   */
  lemma StaleReplyMisclassified(buf: seq<char>)
    requires |buf| == Datagram.MaxLength
    ensures NormaliseReply(Datagram.BufferText(Datagram.Deliver(buf, "ok"), "o")) == "ok"
    ensures NormaliseReply(Datagram.DatagramText("o")) == "UNKNOWN"
  {
    var second := Datagram.Deliver(Datagram.Deliver(buf, "ok"), "o");
    assert second[0] == 'o' && second[1] == 'k';
    var text := Datagram.CString(second);
    assert |text| >= 2;
    assert text[..2] == "ok";
  }

  /** `n` copies of `cmd`: the datagrams of `n` resends. */
  function Repeat(cmd: string, n: nat): (r: seq<string>)
    ensures |r| == n
    ensures forall i :: 0 <= i < n ==> r[i] == cmd
  {
    if n == 0 then [] else Repeat(cmd, n - 1) + [cmd]
  }

  /**
   * `waitForResponse`: the flag after one wait. It stays set only if no reply
   * cleared it during the wait and the retry budget is not used up (when
   * `n == allowed` the wait gives up and clears the flag itself).
   */
  function AfterWait(waiting: bool, replied: bool, n: int, allowed: int): bool
  {
    waiting && !replied && n != allowed
  }

  /** How many more resends the retry loop can make from retry count `n`. */
  function Budget(n: int, allowed: int): nat
  {
    if n < allowed then allowed - n else 0
  }

  /** What one run of the retry thread does: resends made, final counter, final flag. */
  datatype RetryOutcome = RetryOutcome(resends: nat, retries: int, waiting: bool)

  /**
   * The retry loop from retry count `n` and flag `waiting`; `replies[k]` says
   * whether a reply cleared the flag during the wait after the k-th resend
   * of this loop.
   */
  function RetryLoop(n: int, allowed: int, waiting: bool, replies: seq<bool>): RetryOutcome
    requires |replies| >= Budget(n, allowed)
    decreases Budget(n, allowed)
  {
    if n < allowed && waiting then
      var rest := RetryLoop(n + 1, allowed, AfterWait(true, replies[0], n + 1, allowed), replies[1..]);
      RetryOutcome(rest.resends + 1, rest.retries, rest.waiting)
    else
      RetryOutcome(0, n, waiting)
  }

  /**
   * One whole run of the retry thread: a first wait (with `replies[0]`),
   * then the resend loop.
   */
  function RetryRun(n: int, allowed: int, waiting: bool, replies: seq<bool>): RetryOutcome
    requires |replies| >= 1 + Budget(n, allowed)
  {
    RetryLoop(n, allowed, AfterWait(waiting, replies[0], n, allowed), replies[1..])
  }

  /** Every resend adds exactly one to the retry counter, and the counter never passes the budget. */
  lemma {:induction false} RetryLoopCounts(n: int, allowed: int, waiting: bool, replies: seq<bool>)
    requires 0 <= n <= allowed
    requires |replies| >= Budget(n, allowed)
    ensures var o := RetryLoop(n, allowed, waiting, replies);
            o.retries == n + o.resends && o.retries <= allowed
    ensures var o := RetryLoop(n, allowed, waiting, replies);
            !o.waiting || (o.resends == 0 && waiting && n == allowed)
    decreases Budget(n, allowed)
  {
    if n < allowed && waiting {
      RetryLoopCounts(n + 1, allowed, AfterWait(true, replies[0], n + 1, allowed), replies[1..]);
    }
  }

  /**
   * Retry bound for a run that starts from a counter within the budget: the
   * counter rises by one per resend, never exceeds `allowed`, at most
   * `allowed - n` resends are made, and the flag always ends cleared.
   */
  lemma RetryRunBounded(n: int, allowed: int, waiting: bool, replies: seq<bool>)
    requires 0 <= n <= allowed
    requires |replies| >= 1 + Budget(n, allowed)
    ensures var o := RetryRun(n, allowed, waiting, replies);
            o.retries == n + o.resends && o.retries <= allowed && !o.waiting
  {
    RetryLoopCounts(n, allowed, AfterWait(waiting, replies[0], n, allowed), replies[1..]);
  }

  /** With no reply at all, the loop resends until the budget is used up. */
  lemma {:induction false} RetryLoopNoReply(n: int, allowed: int, replies: seq<bool>)
    requires n < allowed
    requires |replies| >= Budget(n, allowed)
    requires forall k :: 0 <= k < |replies| ==> !replies[k]
    ensures RetryLoop(n, allowed, true, replies) == RetryOutcome(allowed - n, allowed, false)
    decreases Budget(n, allowed)
  {
    if n + 1 < allowed {
      RetryLoopNoReply(n + 1, allowed, replies[1..]);
    }
  }

  /**
   * Retry bound: after `sendCommand` reset the counter to 0, a drone that
   * never answers gets exactly `allowed` resends (so `1 + allowed` datagrams
   * in all), the counter ends at `allowed`, and the flag ends cleared.
   */
  lemma RetryRunNoReply(allowed: int, replies: seq<bool>)
    requires 0 <= allowed
    requires |replies| >= 1 + Budget(0, allowed)
    requires forall k :: 0 <= k < |replies| ==> !replies[k]
    ensures RetryRun(0, allowed, true, replies) == RetryOutcome(allowed, allowed, false)
  {
    if 0 < allowed {
      RetryLoopNoReply(0, allowed, replies[1..]);
    }
  }

  /** Once a reply clears the flag (during wait `j`), no further resend is made. */
  lemma {:induction false} RetryLoopStopsAtReply(n: int, allowed: int, waiting: bool, replies: seq<bool>, j: nat)
    requires |replies| >= Budget(n, allowed)
    requires j < |replies| && replies[j]
    ensures RetryLoop(n, allowed, waiting, replies).resends <= j + 1
    ensures RetryLoop(n, allowed, waiting, replies).resends == j + 1 ==> !RetryLoop(n, allowed, waiting, replies).waiting
    decreases j
  {
    if n < allowed && waiting && j > 0 {
      RetryLoopStopsAtReply(n + 1, allowed, AfterWait(true, replies[0], n + 1, allowed), replies[1..], j - 1);
    }
  }

  /**
   * Once a reply clears the flag during wait `j` of the retry thread (wait 0
   * follows the first send, wait k follows the k-th resend), at most `j`
   * resends are made and none after that wait.
   */
  lemma RetryRunStopsAtReply(n: int, allowed: int, waiting: bool, replies: seq<bool>, j: nat)
    requires |replies| >= 1 + Budget(n, allowed)
    requires j < |replies| && replies[j]
    ensures RetryRun(n, allowed, waiting, replies).resends <= j
  {
    if j > 0 {
      RetryLoopStopsAtReply(n, allowed, AfterWait(waiting, replies[0], n, allowed), replies[1..], j - 1);
    }
  }

  /** The result of one iteration of the queue dispatcher. */
  datatype Dispatch =
    | Idle                       // nothing to pop: the dispatcher stays parked
    | Delayed(directive: string) // a `delay` directive was consumed
    | Dispatched(cmd: string)    // a command was popped and sent

  /** The result of one iteration of the keepalive worker. */
  datatype Keepalive =
    | Blocked    // its wake-up condition is false: it stays parked
    | Exited     // the socket is shutting down: the worker returns
    | SentHover  // idle for too long: `Hover` was sent
    | Slept      // sent recently: it sleeps for the keepalive interval

  class CommandSocket {
    var commandQueue: seq<string>
    var waitingForResponse: bool
    var executeQueue: bool
    var dnal: bool
    var on: bool
    var nRetries: int
    const nRetriesAllowed: int
    const timeout: int
    var lastCommand: string
    var response: string
    var commandSentTime: int
    /** Every datagram handed to the transport, in order. */
    ghost var sent: seq<string>

    /** The retry counter stays between 0 and the allowed number of resends. */
    ghost predicate Valid()
      reads this
    {
      0 <= nRetries && (nRetries == 0 || nRetries <= nRetriesAllowed)
    }

    /** How long one unanswered wait for a reply lasts, in seconds. */
    function WaitLength(): nat
      reads this
    {
      if timeout > 0 then timeout else 0
    }

    /** The keepalive worker's wake-up condition. */
    predicate KeepaliveAwake()
      reads this
    {
      (!executeQueue || (executeQueue && commandQueue == [])) && dnal
    }

    /**
     * The dispatcher may run its next iteration: a command that has to wait
     * for the previous reply only goes out once that wait has finished
     * (the flag is clear) or the socket is shutting down.
     */
    predicate PreviousWaitFinished()
      reads this
    {
      (executeQueue && commandQueue != [] && !IsDelay(commandQueue[0]) && !IsStopOrEmergency(commandQueue[0]))
      ==> !waitingForResponse || !on
    }

    constructor (nRetriesAllowed: int, timeout: int, now: int)
      ensures Valid()
      ensures commandQueue == [] && !waitingForResponse && !executeQueue && !dnal && on
      ensures nRetries == 0 && this.nRetriesAllowed == nRetriesAllowed && this.timeout == timeout
      ensures lastCommand == "" && response == "" && commandSentTime == now && sent == []
    {
      this.nRetriesAllowed := nRetriesAllowed;
      this.timeout := timeout;
      commandQueue := [];
      waitingForResponse, executeQueue, dnal, on := false, false, false, true;
      nRetries := 0;
      lastCommand, response := "", "";
      commandSentTime := now;
      sent := [];
    }

    /** A reply arrived (or the receive failed). */
    method HandleResponseFromDrone(error: bool, payload: string)
      requires |payload| <= Datagram.MaxLength
      modifies this`waitingForResponse, this`response
      ensures !error && |payload| > 0 ==>
                !waitingForResponse && response == NormaliseReply(Datagram.DatagramText(payload))
      ensures error || |payload| == 0 ==>
                waitingForResponse == old(waitingForResponse) && response == old(response)
    {
      if !error && |payload| > 0 {
        waitingForResponse := false;
        response := NormaliseReply(Datagram.DatagramText(payload));
      }
    }

    /** Hands `cmd` to the transport and restarts the retry count; the retry thread is `Retry`. */
    method SendCommand(cmd: string)
      requires Valid()
      modifies this`nRetries, this`sent
      ensures Valid()
      ensures nRetries == 0 && sent == old(sent) + [cmd]
    {
      nRetries := 0;
      sent := sent + [cmd];
    }

    /** One wait for a reply; `replied` says whether a reply cleared the flag meanwhile. */
    method WaitForResponse(replied: bool)
      modifies this`waitingForResponse
      ensures waitingForResponse == AfterWait(old(waitingForResponse), replied, nRetries, nRetriesAllowed)
    {
      if replied {
        waitingForResponse := false;
      }
      if nRetries == nRetriesAllowed {
        waitingForResponse := false;
      }
    }

    /** Completion of a send: the command is remembered only if the send succeeded. */
    method HandleSendCommand(error: bool, bytesSent: nat, cmd: string)
      modifies this`lastCommand
      ensures lastCommand == if !error && bytesSent > 0 then cmd else old(lastCommand)
    {
      if !error && bytesSent > 0 {
        lastCommand := cmd;
      }
    }

    /**
     * The retry thread that `sendCommand` starts, from its start at time
     * `now` to its end. `replies[k]` says whether a reply cleared the flag
     * during its k-th wait; each unanswered wait lasts `WaitLength()`.
     */
    method Retry(cmd: string, replies: seq<bool>, now: int)
      requires Valid()
      requires |replies| >= 1 + Budget(nRetries, nRetriesAllowed)
      modifies this`nRetries, this`waitingForResponse, this`sent, this`lastCommand, this`commandSentTime
      ensures Valid()
      ensures var o := RetryRun(old(nRetries), nRetriesAllowed, old(waitingForResponse), replies);
              && nRetries == o.retries
              && waitingForResponse == o.waiting
              && sent == old(sent) + Repeat(cmd, o.resends)
              && lastCommand == (if o.resends > 0 then cmd else old(lastCommand))
              && commandSentTime == (if o.resends > 0 then now + o.resends * WaitLength() else old(commandSentTime))
    {
      ghost var n0 := nRetries;
      WaitForResponse(replies[0]);
      if !waitingForResponse {
        return;
      }
      var k := 1;
      while nRetries < nRetriesAllowed && waitingForResponse
        invariant Valid()
        invariant nRetries == n0 + (k - 1) && 1 <= k
        invariant |replies| >= k + Budget(nRetries, nRetriesAllowed)
        invariant var rest := RetryLoop(nRetries, nRetriesAllowed, waitingForResponse, replies[k..]);
                  RetryRun(n0, nRetriesAllowed, old(waitingForResponse), replies)
                    == RetryOutcome(rest.resends + (k - 1), rest.retries, rest.waiting)
        invariant sent == old(sent) + Repeat(cmd, k - 1)
        invariant lastCommand == (if k > 1 then cmd else old(lastCommand))
        invariant commandSentTime == (if k > 1 then now + (k - 1) * WaitLength() else old(commandSentTime))
        decreases nRetriesAllowed - nRetries
      {
        assert replies[k..][1..] == replies[k + 1..];
        nRetries := nRetries + 1;
        sent := sent + [cmd];
        lastCommand := cmd;
        commandSentTime := now + k * WaitLength();
        WaitForResponse(replies[k]);
        k := k + 1;
      }
    }

    method AddCommandToQueue(cmd: string)
      modifies this`commandQueue
      ensures commandQueue == old(commandQueue) + [cmd]
    {
      commandQueue := commandQueue + [cmd];
    }

    method AddCommandToFrontOfQueue(cmd: string)
      modifies this`commandQueue
      ensures commandQueue == [cmd] + old(commandQueue)
    {
      commandQueue := [cmd] + commandQueue;
    }

    method ExecuteQueue()
      modifies this`executeQueue
      ensures executeQueue
    {
      executeQueue := true;
    }

    method StopQueueExecution()
      modifies this`executeQueue
      ensures !executeQueue
    {
      executeQueue := false;
    }

    method ClearQueue()
      modifies this`commandQueue
      ensures commandQueue == []
    {
      commandQueue := [];
    }

    /** Drops the next queued command (the queue must not be empty: `front()` of an empty deque is undefined). */
    method RemoveNextFromQueue() returns (cmd: string)
      requires commandQueue != []
      modifies this`commandQueue
      ensures cmd == old(commandQueue[0]) && commandQueue == old(commandQueue[1..])
    {
      cmd := commandQueue[0];
      commandQueue := commandQueue[1..];
    }

    method DoNotAutoLand()
      modifies this`dnal
      ensures dnal
    {
      dnal := true;
    }

    method AllowAutoLand()
      modifies this`dnal
      ensures !dnal
    {
      dnal := false;
    }

    method IsExecutingQueue() returns (r: bool)
      ensures r <==> executeQueue
    {
      r := executeQueue;
    }

    /**
     * One iteration of the dispatcher's inner loop, at time `now`: while the
     * queue executes and is not empty, pop the front command; a `delay`
     * directive is consumed without sending; a `stop`/`emergency` first
     * clears the wait for the previous reply; every command that goes out
     * goes out with the flag set.
     */
    method DispatchStep(now: int) returns (d: Dispatch)
      requires Valid() && PreviousWaitFinished()
      modifies this`commandQueue, this`waitingForResponse, this`nRetries, this`sent, this`commandSentTime
      ensures Valid()
      ensures !(old(executeQueue) && old(commandQueue) != []) ==>
                d == Idle && commandQueue == old(commandQueue) && waitingForResponse == old(waitingForResponse)
                && nRetries == old(nRetries) && sent == old(sent) && commandSentTime == old(commandSentTime)
      ensures old(executeQueue) && old(commandQueue) != [] && IsDelay(old(commandQueue[0])) ==>
                d == Delayed(old(commandQueue[0])) && commandQueue == old(commandQueue[1..])
                && waitingForResponse == old(waitingForResponse)
                && nRetries == old(nRetries) && sent == old(sent) && commandSentTime == old(commandSentTime)
      ensures old(executeQueue) && old(commandQueue) != [] && !IsDelay(old(commandQueue[0])) ==>
                d == Dispatched(old(commandQueue[0])) && commandQueue == old(commandQueue[1..])
                && waitingForResponse && nRetries == 0 && sent == old(sent) + [d.cmd] && commandSentTime == now
    {
      if !(executeQueue && commandQueue != []) {
        return Idle;
      }
      var cmd := commandQueue[0];
      commandQueue := commandQueue[1..];
      if IsDelay(cmd) {
        return Delayed(cmd);
      }
      if IsStopOrEmergency(cmd) {
        waitingForResponse := false;
      }
      // The busy wait for the previous reply has ended (PreviousWaitFinished).
      waitingForResponse := true;
      SendCommand(cmd);
      commandSentTime := now;
      d := Dispatched(cmd);
    }

    /** The keepalive worker's first action: it sends `Hover` once. */
    method StartKeepalive()
      requires Valid()
      modifies this`nRetries, this`sent
      ensures Valid()
      ensures nRetries == 0 && sent == old(sent) + [Hover]
    {
      SendCommand(Hover);
    }

    /**
     * One iteration of the keepalive worker at time `now`: it proceeds only
     * when keepalive is engaged and the queue is not executing (or is
     * empty); it exits on shutdown; it sends `Hover` only when strictly more
     * than `DnalTimeout` seconds have passed since the dispatcher, a retry
     * resend or the keepalive last restarted the timer (`commandSentTime`),
     * and then clears the reply flag and restarts the timer.
     */
    method KeepaliveStep(now: int) returns (k: Keepalive)
      requires Valid()
      modifies this`nRetries, this`sent, this`lastCommand, this`waitingForResponse, this`commandSentTime
      ensures Valid()
      ensures k == Blocked <==> !old(KeepaliveAwake())
      ensures k == Exited <==> old(KeepaliveAwake()) && !on
      ensures k == SentHover <==> old(KeepaliveAwake()) && on && now - old(commandSentTime) > DnalTimeout
      ensures k == SentHover ==>
                sent == old(sent) + [Hover] && nRetries == 0 && lastCommand == Hover
                && !waitingForResponse && commandSentTime == now
      ensures k != SentHover ==>
                sent == old(sent) && nRetries == old(nRetries) && lastCommand == old(lastCommand)
                && waitingForResponse == old(waitingForResponse) && commandSentTime == old(commandSentTime)
    {
      if !KeepaliveAwake() {
        return Blocked;
      }
      if !on {
        return Exited;
      }
      if now - commandSentTime > DnalTimeout {
        SendCommand(Hover);
        lastCommand := Hover;
        waitingForResponse := false;
        commandSentTime := now;
        k := SentHover;
      } else {
        k := Slept;
      }
    }

    /** Stops queue execution, then sends "stop" (which starts a retry cycle like any send). */
    method Stop()
      requires Valid()
      modifies this`executeQueue, this`nRetries, this`sent
      ensures Valid()
      ensures !executeQueue && nRetries == 0 && sent == old(sent) + ["stop"]
    {
      executeQueue := false;
      SendCommand("stop");
    }

    /** Stops queue execution, then sends "emergency". */
    method Emergency()
      requires Valid()
      modifies this`executeQueue, this`nRetries, this`sent
      ensures Valid()
      ensures !executeQueue && nRetries == 0 && sent == old(sent) + ["emergency"]
    {
      executeQueue := false;
      SendCommand("emergency");
    }

    /**
     * The destructor: engages keepalive (so its worker can wake), switches
     * the socket off, and appends a final "stop" to the queue (which a
     * dispatcher parked in its wait does not send: it exits on `!on`).
     */
    method Shutdown()
      modifies this`dnal, this`on, this`executeQueue, this`commandQueue
      ensures dnal && !on && executeQueue && commandQueue == old(commandQueue) + ["stop"]
    {
      dnal := true;
      on := false;
      executeQueue := true;
      commandQueue := commandQueue + ["stop"];
    }
  }
}
