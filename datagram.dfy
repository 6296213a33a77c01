/**
 * The text a socket handler builds from a received UDP datagram.
 *
 * The command and state sockets receive into a fixed 1024-byte `data_`
 * buffer and then read it back with `std::string(data_)`, i.e. up to the
 * first NUL byte of the whole buffer. The transport only overwrites the
 * first `bytes_recvd` bytes, so bytes left over from an earlier, longer
 * datagram are still in the buffer after a shorter one.
 */
module Datagram {

  /** Size of the receive buffer of the command and state sockets. */
  const MaxLength: nat := 1024

  const Nul: char := 0 as char

  /** The buffer after the transport has written `payload` at its start. */
  function Deliver(buf: seq<char>, payload: seq<char>): (r: seq<char>)
    requires |payload| <= |buf|
    ensures |r| == |buf|
    ensures r[..|payload|] == payload
    ensures r[|payload|..] == buf[|payload|..]
  {
    payload + buf[|payload|..]
  }

  /** Index of the first NUL of `s`, or `|s|` when there is none. */
  function NulIndex(s: seq<char>): (k: nat)
    ensures k <= |s|
    ensures forall i :: 0 <= i < k ==> s[i] != Nul
    ensures k < |s| ==> s[k] == Nul
  {
    if s == [] then 0
    else if s[0] == Nul then 0
    else 1 + NulIndex(s[1..])
  }

  /**
   * What `std::string` reads from a character buffer: everything before the
   * first NUL. (A buffer without any NUL makes the C++ read run past the end
   * of the array; the model stops at the end.)
   */
  function CString(s: seq<char>): (r: seq<char>)
    ensures Nul !in r
    ensures |r| <= |s| && r == s[..|r|]
    ensures |r| < |s| ==> s[|r|] == Nul
  {
    s[..NulIndex(s)]
  }

  /** The text the handlers build as written: the whole buffer read as a C string. */
  function BufferText(buf: seq<char>, payload: seq<char>): seq<char>
    requires |payload| <= |buf|
  {
    CString(Deliver(buf, payload))
  }

  /** The text of the datagram itself: the received bytes up to their first NUL. */
  function DatagramText(payload: seq<char>): (r: seq<char>)
    ensures Nul !in r
    ensures r <= payload
    ensures |r| < |payload| ==> payload[|r|] == Nul
  {
    CString(payload)
  }

  /**
   * The two readings agree exactly when the datagram carries its own NUL or
   * the byte right after it in the buffer is NUL.
   */
  lemma BufferTextAgrees(buf: seq<char>, payload: seq<char>)
    requires |payload| < |buf|
    ensures BufferText(buf, payload) == DatagramText(payload) <==> Nul in payload || buf[|payload|] == Nul
  {
    var d := Deliver(buf, payload);
    var k := NulIndex(payload);
    assert d[..|payload|] == payload;
    if Nul !in payload && buf[|payload|] != Nul {
      assert forall i :: 0 <= i <= |payload| ==> d[i] != Nul;
      assert |BufferText(buf, payload)| > |payload| >= |DatagramText(payload)|;
    } else if k < |payload| {
      assert d[k] == Nul;
      assert forall i :: 0 <= i < k ==> d[i] == payload[i];
      NulIndexIsFirst(d, k);
    } else {
      assert d[|payload|] == buf[|payload|];
      assert forall i :: 0 <= i < k ==> d[i] == payload[i];
      NulIndexIsFirst(d, k);
      assert d[..k] == payload;
    }
  }

  /** A NUL at `k` with none before it is the first NUL. */
  lemma {:induction false} NulIndexIsFirst(s: seq<char>, k: nat)
    requires k < |s| && s[k] == Nul
    requires forall i :: 0 <= i < k ==> s[i] != Nul
    ensures NulIndex(s) == k
  {
    if k > 0 {
      NulIndexIsFirst(s[1..], k - 1);
    }
  }

  /**
   * Counterexample: after the datagram "ab;cd" the datagram "x" is read back
   * as "xb;cd", not as "x".
   */
  lemma StaleBytesReachText(buf: seq<char>)
    requires |buf| == MaxLength
    requires forall i :: 0 <= i < |buf| ==> buf[i] == Nul
    ensures var first := Deliver(buf, "ab;cd");
            BufferText(first, "x") == "xb;cd" && DatagramText("x") == "x"
  {
    var first := Deliver(buf, "ab;cd");
    var second := Deliver(first, "x");
    assert second[..6] == "xb;cd" + [Nul];
    NulIndexIsFirst(second, 5);
  }
}
