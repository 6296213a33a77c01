/**
 * The telemetry channel: the drone broadcasts its state as one line of
 * `key:value;` pairs, and the socket keeps the last one received with every
 * `;` turned into a line break.
 */
module StateChannel {
  import Datagram

  /** `std::replace(s.begin(), s.end(), ';', '\n')` as a value. */
  function SemicolonsToNewlines(s: string): (r: string)
    ensures |r| == |s|
    ensures ';' !in r
    ensures forall i :: 0 <= i < |s| && s[i] != ';' ==> r[i] == s[i]
    ensures forall i :: 0 <= i < |s| && s[i] == ';' ==> r[i] == '\n'
    decreases |s|
  {
    if s == [] then []
    else [if s[0] == ';' then '\n' else s[0]] + SemicolonsToNewlines(s[1..])
  }

  /** A text without `;` is left as it is. */
  lemma WithoutSemicolonsUnchanged(s: string)
    requires ';' !in s
    ensures SemicolonsToNewlines(s) == s
  {
    var r := SemicolonsToNewlines(s);
    assert forall i :: 0 <= i < |s| ==> r[i] == s[i];
  }

  /** Replacing twice is replacing once. */
  lemma ReplaceIdempotent(s: string)
    ensures SemicolonsToNewlines(SemicolonsToNewlines(s)) == SemicolonsToNewlines(s)
  {
    WithoutSemicolonsUnchanged(SemicolonsToNewlines(s));
  }

  class StateSocket {
    /** The last telemetry line, with line breaks for separators. */
    var response: string

    constructor ()
      ensures response == ""
    {
      response := "";
    }

    /** The in-place `std::replace` over `response`. */
    method ReplaceSemicolons()
      modifies this`response
      ensures response == SemicolonsToNewlines(old(response))
    {
      ghost var target := SemicolonsToNewlines(response);
      var i := 0;
      while i < |response|
        invariant 0 <= i <= |response| == |target|
        invariant forall j :: 0 <= j < i ==> response[j] == target[j]
        invariant forall j :: i <= j < |response| ==> response[j] == old(response)[j]
      {
        if response[i] == ';' {
          response := response[i := '\n'];
        }
        i := i + 1;
      }
      assert response == target;
    }

    /** A receive: on success with a non-empty datagram, keep its text with `;` replaced; otherwise keep the old line. */
    method HandleResponseFromDrone(error: bool, payload: string)
      requires |payload| <= Datagram.MaxLength
      modifies this`response
      ensures !error && |payload| > 0 ==> response == SemicolonsToNewlines(Datagram.DatagramText(payload))
      ensures error || |payload| == 0 ==> response == old(response)
    {
      if !error && |payload| > 0 {
        response := Datagram.DatagramText(payload);
        ReplaceSemicolons();
      }
    }

    /** The telemetry channel never sends: completing a send changes nothing. */
    method HandleSendCommand(error: bool, bytesSent: nat, cmd: string)
      ensures unchanged(this)
    {
    }
  }
}
