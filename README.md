# Tello drone controller — verified model of the control core

This project models, in Dafny, the control core of a C++ controller for the
Ryze Tello drone. The modelled parts are:

- the **command channel** (`CommandChannel`): a queue of text commands drained by a dispatcher, a send / wait / resend cycle with a bounded number of resends, a keepalive ("do not auto land") worker that sends `rc 0 0 0 0` when more than 7 seconds have passed since the dispatcher, a retry resend or the keepalive itself last restarted its timer (a direct send, such as every joystick command, does not restart it), and the classifier that normalises drone replies;
- the **gamepad** (`Joystick`): decoding of one Linux `js_event` into axis and button tables, and the integer scaling of stick positions from the `short` range to [-100, 100], with C++ truncating division and the `short` wrap-around written out;
- the **input-to-command mapping** (`TelloControl`): a button press or axis event becomes a sequence of channel calls, including the `rc a b c d` stick command;
- the **video channel** (`VideoChannel`): reassembly of H.264 frames from 1460-byte UDP packets into a 65536-byte buffer;
- the **telemetry channel** (`StateChannel`): the `;` to line-break rewrite of the last state datagram;
- the **operator terminal** (`CommandTerminal`): keyword-to-command mapping and the "line available" flag;
- the **SLAM frame hand-off** (`SlamFrames`): a bounded FIFO of frames between the video decoder and the tracker;
- the text a socket handler reads from its receive buffer (`Datagram`).

Each worker thread is modelled one loop body at a time, as a step method of its class. Anything the threads race over is given to the step as a parameter or a precondition: drone replies, the clock (whole seconds), and the end of the previous wait. The H.264 decoder, the SLAM tracker, sockets and device reads are outside the model. A received datagram arrives as a parameter, and the decoder is a ghost log of the frames handed to it.

## Model

| member | source | states |
|---|---|---|
| Datagram.Deliver | src/state_socket.cpp:74-78 | a receive overwrites the first bytes of the buffer with the datagram and leaves the rest as it was |
| Datagram.BufferText | src/state_socket.cpp:57 | as written: the text is the whole receive buffer, after the datagram was written over its start, read up to its first NUL (no contract; `BufferTextAgrees` and `StaleBytesReachText` state its properties) |
| Datagram.NulIndex | src/command_socket.cpp:68 | the position of the first NUL, or the length when there is none |
| Datagram.CString | src/command_socket.cpp:68 | `std::string(buf)` yields the longest NUL-free prefix of the buffer; the next byte, if any, is NUL |
| Datagram.DatagramText | src/state_socket.cpp:57 | the text of a datagram is its longest NUL-free prefix (used by both socket handlers) |
| Datagram.BufferTextAgrees | src/state_socket.cpp:56-57 | reading the whole receive buffer gives the datagram's own text exactly when the datagram carries a NUL or the byte after it is NUL |
| Datagram.NulIndexIsFirst | src/command_socket.cpp:68 | a NUL at `k` with none before it is where the C string ends |
| Datagram.StaleBytesReachText | src/state_socket.cpp:57 | as written: after the datagram "ab;cd", the datagram "x" is read back as "xb;cd" |
| CommandChannel.Head | src/command_socket.cpp:70-76 | `substr(0, n)` is the prefix of length min(n, size) |
| CommandChannel.HeadIsPrefixTest | src/command_socket.cpp:70-76 | `s.substr(0, \|p\|) == p` holds exactly when `p` is a prefix of `s` |
| CommandChannel.NormaliseReply | src/command_socket.cpp:70-81 | the result is one of "ok", "error", "forced stop", "UNKNOWN"; it is "ok" iff the text starts with "ok", "error" iff it starts with "error", "forced stop" iff it starts with "forced stop" |
| CommandChannel.KeywordsStartApart | src/command_socket.cpp:70-78 | no text starts with two of the three reply keywords, so the order of the tests does not matter |
| CommandChannel.NormaliseReplyIdempotent | src/command_socket.cpp:70-81 | normalising a normalised reply changes nothing |
| CommandChannel.StaleReplyMisclassified | src/command_socket.cpp:68-81 | as written: whatever the receive buffer held, the reply "ok" followed by the shorter reply "o" is classified "ok", while the reply's own text "o" is "UNKNOWN" |
| CommandChannel.IsDelay | src/command_socket.cpp:187 | a queued command is a `delay` directive exactly when it starts with "delay" |
| CommandChannel.IsStopOrEmergency | src/command_socket.cpp:191 | a queued command skips the wait exactly when it starts with "stop" or with "emergency" |
| CommandChannel.Repeat | src/command_socket.cpp:141-148 | `n` resends put `n` copies of the command on the wire |
| CommandChannel.AfterWait | src/command_socket.cpp:104-119 | the reply flag after one wait: still set only if it was set, no reply came during the wait and the counter is not at the allowed number (no contract; `WaitForResponse` is proved against it) |
| CommandChannel.RetryLoop | src/command_socket.cpp:141-148 | the resend loop over the replies seen in each wait, as a function (no contract; `RetryLoopCounts`, `RetryLoopNoReply` and `RetryLoopStopsAtReply` state its properties) |
| CommandChannel.RetryRun | src/command_socket.cpp:138-149 | the first wait followed by the resend loop (no contract; `RetryRunBounded`, `RetryRunNoReply`, `RetryRunStopsAtReply` state its properties and `Retry` is proved against it) |
| CommandChannel.RetryLoopCounts | src/command_socket.cpp:141-148 | each resend adds exactly one to the retry counter, the counter never passes the allowed number, and the loop ends with the flag cleared unless it started at the limit |
| CommandChannel.RetryRunBounded | src/command_socket.cpp:104-119 | a retry run from a counter within the budget ends with counter = start + resends ≤ allowed and the reply flag cleared |
| CommandChannel.RetryLoopNoReply | src/command_socket.cpp:141-148 | with no reply, the loop resends until the counter reaches the allowed number |
| CommandChannel.RetryRunNoReply | src/command_socket.cpp:91 | after `sendCommand` resets the counter, a drone that never answers gets exactly N resends (1 + N datagrams), the counter ends at N and the flag ends false |
| CommandChannel.RetryLoopStopsAtReply | src/command_socket.cpp:141 | a reply during a wait of the loop stops further resends |
| CommandChannel.RetryRunStopsAtReply | src/command_socket.cpp:138-149 | once a reply clears the flag during wait `j`, at most `j` resends are made |
| CommandChannel.CommandSocket.constructor | src/command_socket.cpp:21-54 | empty queue, flags at their declared defaults, counter 0, send time = now |
| CommandChannel.CommandSocket.KeepaliveAwake | src/command_socket.cpp:265 | the keepalive worker's wake-up condition: keepalive on and the queue not executing or empty (no contract; the precondition of `KeepaliveStep`) |
| CommandChannel.CommandSocket.PreviousWaitFinished | src/command_socket.cpp:191-203 | a command that must wait for the previous reply is dispatched only once that wait is over or the socket is shutting down (no contract; the precondition of `DispatchStep`) |
| CommandChannel.CommandSocket.HandleResponseFromDrone | src/command_socket.cpp:66-86 | a successful non-empty receive clears the reply flag and stores the normalised reply; an errored or empty one changes neither |
| CommandChannel.CommandSocket.SendCommand | src/command_socket.cpp:90-102 | resets the retry counter and hands the command to the transport |
| CommandChannel.CommandSocket.WaitForResponse | src/command_socket.cpp:104-119 | the flag stays set only if no reply came and the counter is not at the limit |
| CommandChannel.CommandSocket.HandleSendCommand | src/command_socket.cpp:129-135 | the last command is updated only by a successful non-empty send |
| CommandChannel.CommandSocket.Retry | src/command_socket.cpp:138-149 | the new counter, flag, sent datagrams, last command and send time are those of `RetryRun` over the given replies |
| CommandChannel.CommandSocket.AddCommandToQueue | src/command_socket.cpp:151-157 | appends at the back; earlier commands keep their order |
| CommandChannel.CommandSocket.AddCommandToFrontOfQueue | src/command_socket.cpp:211-215 | inserts at the front; earlier commands keep their order |
| CommandChannel.CommandSocket.ExecuteQueue | src/command_socket.cpp:159-166 | sets only the execute flag |
| CommandChannel.CommandSocket.StopQueueExecution | src/command_socket.cpp:217-222 | clears only the execute flag |
| CommandChannel.CommandSocket.ClearQueue | src/command_socket.cpp:224-229 | leaves the queue empty |
| CommandChannel.CommandSocket.RemoveNextFromQueue | src/command_socket.cpp:231-237 | needs a non-empty queue; removes exactly the front command |
| CommandChannel.CommandSocket.DoNotAutoLand | src/command_socket.cpp:239-245 | sets only the keepalive flag |
| CommandChannel.CommandSocket.AllowAutoLand | src/command_socket.cpp:247-252 | clears only the keepalive flag |
| CommandChannel.CommandSocket.IsExecutingQueue | src/command_socket.cpp:309-310 | returns the execute flag |
| CommandChannel.CommandSocket.DispatchStep | src/command_socket.cpp:177-206 | pops only while executing and non-empty; a "delay" directive is consumed and not sent; any other command is sent with the reply flag set, the counter reset and the send time set to now |
| CommandChannel.CommandSocket.StartKeepalive | src/command_socket.cpp:257-258 | the keepalive worker first sends `rc 0 0 0 0` |
| CommandChannel.CommandSocket.KeepaliveStep | src/command_socket.cpp:260-278 | proceeds only when keepalive is on and the queue is idle or empty; exits on shutdown; sends `rc 0 0 0 0` iff more than 7 s have passed since the dispatcher, a retry resend or the keepalive last restarted the timer (`SendCommand` does not), then clears the flag and restarts the timer; otherwise nothing changes |
| CommandChannel.CommandSocket.Stop | src/command_socket.cpp:282-288 | clears the execute flag, then sends "stop" |
| CommandChannel.CommandSocket.Emergency | src/command_socket.cpp:290-296 | clears the execute flag, then sends "emergency" |
| CommandChannel.CommandSocket.Shutdown | src/command_socket.cpp:298-307 | keepalive on, socket off, execute on, "stop" appended to the queue |
| Joystick.DivNonNegative | lib_joystick/joystick.cpp:95 | a non-negative numerator over a positive divisor has a non-negative quotient |
| Joystick.TruncDiv | lib_joystick/joystick.cpp:88 | C++ division: the magnitude is the quotient of the magnitudes and the sign is the product of the signs |
| Joystick.TruncDivNonNegative | lib_joystick/joystick.cpp:95 | on non-negative operands truncating and Euclidean division agree |
| Joystick.ToShort | lib_joystick/joystick.cpp:86-96 | the conversion to `short` is the identity on the `short` range and changes its argument by a multiple of 65536 |
| Joystick.Map | lib_joystick/joystick.cpp:86-89 | `map`: the scaled value `(x - in_min) * (out_max - out_min) / (in_max - in_min) + out_min` with C++ division, cast to `short` (no contract; `MapEndpoints` states its properties) |
| Joystick.TruncDivCancel | lib_joystick/joystick.cpp:88 | truncating division undoes multiplication |
| Joystick.MapEndpoints | lib_joystick/joystick.cpp:86-89 | `map` gives `out_min` at `in_min` and `out_max` at `in_max` (for `short` output bounds, `in_min ≠ in_max`) |
| Joystick.MapConstLimits | lib_joystick/joystick.cpp:93-96 | `mapConstLimits`: the `short` range scaled onto [-100, 100] (no contract; `MapConstLimitsIsMap`, `MapConstLimitsUnwrapped`, `MapConstLimitsEndpoints` and `MapConstLimitsMonotone` state its properties) |
| Joystick.MapConstLimitsIsMap | lib_joystick/joystick.cpp:86-96 | `mapConstLimits` is `map` from the `short` range onto [-100, 100] |
| Joystick.DivMonotone | lib_joystick/joystick.cpp:95 | division by a positive number preserves order |
| Joystick.MapConstLimitsUnwrapped | lib_joystick/joystick.cpp:93-96 | on a `short` input the result is `(x + 32768) * 200 / 65535 - 100` and lies in [-100, 100] |
| Joystick.MapConstLimitsEndpoints | lib_joystick/joystick.cpp:91-96 | `SHRT_MIN` maps to -100 and `SHRT_MAX` to 100 |
| Joystick.MapConstLimitsMonotone | lib_joystick/joystick.cpp:93-96 | on the `short` range the result is within [-100, 100] and non-decreasing |
| Joystick.Masked | lib_joystick/joystick.cpp:37 | clears the EVENT_INIT bit (0x80) and keeps every other bit |
| Joystick.InitBitIgnored | lib_joystick/joystick.cpp:37 | a start-up event is classified like the ordinary event of the same type |
| Joystick.Joystick.constructor | lib_joystick/joystick.hpp:77-78 | both value tables start zeroed |
| Joystick.Joystick.Update | lib_joystick/joystick.cpp:37-53 | an axis event sets only its axis value, the updated axis and the flags (axis on, button off); a button event symmetrically; any other event leaves tables and flags unchanged |
| Joystick.Joystick.GetButtonState | lib_joystick/joystick.cpp:66-69 | returns the button's stored value |
| Joystick.Joystick.GetAxisState | lib_joystick/joystick.cpp:71-74 | returns the axis's stored value |
| Joystick.Joystick.GetValueButton | lib_joystick/joystick.cpp:162-164 | reads the axis table (not the button table), narrowed to 8 bits |
| Joystick.Joystick.GetValueAxis | lib_joystick/joystick.cpp:166-168 | reads the axis table |
| TelloControl.EffectsOfSnoc | src/tello.cpp:43-160 | the effect of a sequence of channel calls extended by one call is that call's effect after the sequence's |
| TelloControl.ExecutingAfter | src/tello.cpp:46-98 | the execute flag after a sequence of channel calls: cleared by stopping the queue, `stop` or `emergency`, set by `executeQueue` (no contract; the lemmas below and `Perform` use it) |
| TelloControl.DnalAfter | src/tello.cpp:50-80 | the keepalive flag after a sequence of channel calls: set by `doNotAutoLand`, cleared by `allowAutoLand` |
| TelloControl.SentBy | src/tello.cpp:50-88 | the datagrams a sequence of channel calls sends: each `sendCommand` its command, `stop` "stop" and `emergency` "emergency" |
| TelloControl.Apply | src/tello.cpp:46-98 | one call changes the execute flag, keepalive flag and sent datagrams as the specification functions say for that call |
| TelloControl.Perform | src/tello.cpp:46-98 | applying the calls leaves the execute flag, keepalive flag and sent datagrams as the specification functions of the call sequence say |
| TelloControl.StopFirstEffects | src/tello.cpp:46-47 | after the opening calls of either overload the queue is stopped, keepalive is unchanged and nothing was sent |
| TelloControl.ButtonSwitch | src/tello.cpp:48-102 | the calls of the button switch (no contract; `ButtonPressDnal`, `ButtonPressSends` and `ButtonPressExecution` state what they do) |
| TelloControl.ButtonActions | src/tello.cpp:43-106 | `jsToCommand(ButtonId)` as calls: none for a released button, else stop a running queue, then the switch (no contract; the `ButtonPress*` lemmas and `JsToCommandButton` state its effect) |
| TelloControl.ButtonReleaseDoesNothing | src/tello.cpp:44-45 | a button whose state is 0 makes no call and changes nothing |
| TelloControl.ButtonPressExecution | src/tello.cpp:46-98 | after any non-zero press other than SELECT the queue is not executing; SELECT toggles execution |
| TelloControl.ExecutingWithoutStart | src/tello.cpp:46-47 | calls without `executeQueue` keep a stopped queue stopped |
| TelloControl.ButtonPressDnal | src/tello.cpp:50-78 | A sets do-not-auto-land, B clears it, LEFT_BUMPER_1 toggles it, every other button keeps it |
| TelloControl.ButtonPressSends | src/tello.cpp:50-88 | A sends "takeoff", B "land", X "streamon", Y "streamoff", START "command", RIGHT_BUMPER_1 "stop", RIGHT_BUMPER_2 "emergency", every other button nothing |
| TelloControl.SentOfPair | src/tello.cpp:50-59 | the datagrams of two calls are those of each, in order |
| TelloControl.ExecutingOfAppend | src/tello.cpp:46-98 | the execute flag after two call sequences is that of the second from the flag after the first |
| TelloControl.DnalOfAppend | src/tello.cpp:50-78 | the same for the keepalive flag |
| TelloControl.SentOfAppend | src/tello.cpp:50-88 | the datagrams of two call sequences are those of the first followed by those of the second |
| TelloControl.DigitChar | src/tello.cpp:112-115 | a decimal digit character and its value |
| TelloControl.NatToString | src/tello.cpp:112-115 | the decimal text of a natural number is non-empty, all digits, without leading zero |
| TelloControl.IntToString | src/tello.cpp:112-115 | `std::to_string` of an `int` contains no space and starts with '-' exactly for negative values |
| TelloControl.NatToStringRoundTrip | src/tello.cpp:112-115 | the digits of a natural number read back as that number |
| TelloControl.IntToStringRoundTrip | src/tello.cpp:112-115 | the decimal text of an integer reads back as that integer |
| TelloControl.Fields | src/tello.cpp:111-115 | splitting at spaces yields at least one field |
| TelloControl.FieldsOfWord | src/tello.cpp:111-115 | a text without space is a single field |
| TelloControl.FieldsOfJoin | src/tello.cpp:111-115 | a space-free word followed by a space is the first field |
| TelloControl.RcText | src/tello.cpp:111-115 | the text `rc a b c d` of four integers (no contract; `RcTextRoundTrip` is its partner) |
| TelloControl.RcTextRoundTrip | src/tello.cpp:111-115 | every `rc a b c d` text reads back as its four arguments |
| TelloControl.StickArgs | src/tello.cpp:111-115 | the four `rc` arguments from the stick axes 2, 3, 1, 0, the second and third negated (no contract; `RcCommandArgs` bounds them) |
| TelloControl.RcCommand | src/tello.cpp:111-115 | the `rc` command built from the sticks (no contract; `RcCommandArgs` and `CentredSticksHover` state its properties) |
| TelloControl.RcCommandArgs | src/tello.cpp:111-115 | the stick command reads back as (mapConstLimits(axis 2), -mapConstLimits(axis 3), -mapConstLimits(axis 1), mapConstLimits(axis 0)), each in [-100, 100] |
| TelloControl.CentredSticksHover | src/tello.cpp:111-115 | centred sticks give exactly the keepalive command `rc 0 0 0 0` |
| TelloControl.AxisActions | src/tello.cpp:108-160 | `jsToCommand(AxisId)` as calls: stop a running queue, then the axis switch (no contract; `AxisEventEffects`, `DpadHorizontalSends`, `DpadVerticalSends` and `JsToCommandAxis` state its effect) |
| TelloControl.AxisSwitch | src/tello.cpp:118-159 | the switch on the moved axis makes at most one call, and it is a send |
| TelloControl.AtMostOneSend | src/tello.cpp:118-159 | at most one send changes neither flag and puts exactly its command on the wire |
| TelloControl.AxisEventEffects | src/tello.cpp:116-155 | an axis event leaves the queue stopped and the keepalive flag unchanged; a stick sends its `rc` command, a trigger nothing, the D-pad at most one command and nothing when centred |
| TelloControl.DpadHorizontalSends | src/tello.cpp:136-145 | a moved horizontal D-pad sends "speed?" (right) or "battery?" (left) while LEFT_BUMPER_2 is held, otherwise "flip r" (right) or "flip l" (left) |
| TelloControl.DpadVerticalSends | src/tello.cpp:146-155 | a moved vertical D-pad sends "time?" (positive) or "wifi?" (negative) while LEFT_BUMPER_2 is held, otherwise "flip b" (positive) or "flip f" (negative) |
| TelloControl.Tello.constructor | src/tello.cpp:3-15 | builds a fresh command channel with no resends allowed and a 5 s reply timeout (idle, empty queue, nothing sent), a receiving video channel, a telemetry channel and a zeroed gamepad; the facade invariant holds |
| TelloControl.Tello.JsToCommandButton | src/tello.cpp:43-106 | the channel ends in the state the button's call sequence specifies (execute flag, keepalive flag, sent datagrams, and the retry counter reset exactly when something was sent), for the button's stored state and the flags before the press; the channel keeps its configuration |
| TelloControl.Tello.ReadSticks | src/tello.cpp:111-115 | reads axes 2, 3, 1 and 0 and returns the four stick positions in axis order |
| TelloControl.Tello.JsToCommandAxis | src/tello.cpp:108-160 | the channel ends in the state the axis's call sequence specifies (execute flag, keepalive flag, sent datagrams, and the retry counter reset exactly when something was sent), for the current axis table and LEFT_BUMPER_2 state |
| VideoChannel.ConcatOfFullPackets | src/video_socket.cpp:63-65 | a run of k full packets spans at least 1460·k bytes, and a non-empty run is non-empty |
| VideoChannel.VideoSocket.CounterMatchesIndex | src/video_socket.cpp:56-71 | between calls the packet count is 0 iff the index is 0, and the index is at least 1460 times the count |
| VideoChannel.VideoSocket.constructor | inc/tello/video_socket.hpp:82-85 | empty buffer, no packets, nothing decoded |
| VideoChannel.VideoSocket.CopyIn | src/video_socket.cpp:63 | `memcpy` writes the packet at the offset and leaves every other byte unchanged |
| VideoChannel.VideoSocket.HandleResponseFromDrone | src/video_socket.cpp:49-79 | needs an armed receive; index stays below 65536; overflow drops the frame, copies nothing and leaves no receive armed, so the stream stops; every other outcome re-arms the receive; otherwise the packet is appended after the earlier bytes, and a packet under 1460 bytes hands exactly the packets since the last reset to the decoder and resets |
| StateChannel.SemicolonsToNewlines | src/state_socket.cpp:58 | same length, no ';', every ';' became a line break and every other character is unchanged |
| StateChannel.WithoutSemicolonsUnchanged | src/state_socket.cpp:58 | a text without ';' is unchanged |
| StateChannel.ReplaceIdempotent | src/state_socket.cpp:58 | replacing twice equals replacing once |
| StateChannel.StateSocket.ReplaceSemicolons | src/state_socket.cpp:58 | the in-place replace leaves the rewritten text |
| StateChannel.StateSocket.constructor | inc/tello/state_socket.hpp:39 | no telemetry line yet: `response_` starts empty |
| StateChannel.StateSocket.HandleResponseFromDrone | src/state_socket.cpp:56-63 | a successful non-empty receive stores the datagram's text with ';' rewritten; otherwise the last line is kept |
| StateChannel.StateSocket.HandleSendCommand | src/state_socket.cpp:88-94 | changes no state |
| CommandTerminal.ConvertToEnum | src/command_terminal.cpp:128-156 | a known kind is returned exactly for its own keyword; `Unknown` exactly for every string that is not one of the eight keywords |
| CommandTerminal.KeywordRoundTrip | src/command_terminal.cpp:128-152 | each of the eight keywords maps to its own kind |
| CommandTerminal.KeywordsDistinct | inc/tello/command_terminal.hpp:9-19 | the eight kinds have pairwise distinct keywords |
| CommandTerminal.MatchingIsExact | src/command_terminal.cpp:128-156 | case variants and padded keywords map to `Unknown` |
| CommandTerminal.Terminal.constructor | inc/tello/command_terminal.hpp:83-84 | no line yet, flag clear |
| CommandTerminal.Terminal.LineRead | src/command_terminal.cpp:57-67 | the line read is stored even when empty, and flagged only when non-empty |
| CommandTerminal.Terminal.HasCommand | src/command_terminal.cpp:75-77 | returns the flag |
| CommandTerminal.Terminal.GetCommand | src/command_terminal.cpp:79-82 | returns the stored line and clears the flag |
| SlamFrames.NonEmpty | lib_openvslam/openvslam_api.cpp:94-96 | the non-empty frames, in order: no longer than the input, all non-empty, drawn from the input, and the input itself when it has no empty frame |
| SlamFrames.NonEmptyKeepsEvery | lib_openvslam/openvslam_api.cpp:94-96 | every non-empty frame popped reaches the tracker: none is filtered out |
| SlamFrames.NonEmptyAppend | lib_openvslam/openvslam_api.cpp:94-105 | the frames tracked from two runs of pops are those of each run, in order |
| SlamFrames.SlamApi.constructor | lib_openvslam/openvslam_api.cpp:72-75 | empty queue, counter 0 |
| SlamFrames.SlamApi.AddFrameToQueue | lib_openvslam/openvslam_api.cpp:45-50 | pushes at the back exactly when fewer than 5 frames wait, otherwise drops the frame; the queue never holds more than 5 and frames leave in arrival order |
| SlamFrames.SlamApi.TrackingStep | lib_openvslam/openvslam_api.cpp:79-106 | stops on shutdown or termination request; idles on an empty queue; otherwise pops the front frame, and counts it (modulo 2^32) exactly when it is non-empty |

## Left out

- Threads, condition variables and sleeps: each worker loop body is one step method; waits become preconditions (`CommandSocket.PreviousWaitFinished`) or parameters (`replies`, `now`). The dispatcher's `if(!on_) break` after its condition wait is thread lifecycle and is left out.
- Unsynchronised cross-thread access to the flags: each step method runs atomically in the model.
- Sockets, resolvers and asynchronous send/receive: a received datagram is a parameter; a send is recorded in the ghost log `sent`.
- CommandChannel.CommandSocket.SendCommand: it does not spawn the retry thread; the retry thread is the separate method `Retry`, whose caller supplies the replies.
- CommandChannel.CommandSocket.DispatchStep: a `delay` directive's sleep and its `stoi` argument parsing (including the exception on non-numeric text) are not modelled; the directive is reported as consumed.
- CommandChannel.CommandSocket.Retry: the timestamps are whole seconds, and each unanswered wait is taken to last exactly `max(timeout, 0)` seconds.
- CommandChannel.CommandSocket.HandleResponseFromDrone: classifies the corrected reading `Datagram.DatagramText` of the datagram, not the whole-buffer read of src/command_socket.cpp:68 as written (`Datagram.BufferText`); the two agree exactly under `Datagram.BufferTextAgrees`, and the difference is the second row of "## Findings". The receive buffer itself is not a field of the socket.
- StateChannel.StateSocket.HandleResponseFromDrone: stores the corrected reading `Datagram.DatagramText` with `;` rewritten, not the whole-buffer read of src/state_socket.cpp:57 as written (`Datagram.BufferText`); see the first row of "## Findings".
- Joystick.Map: the source computes in 64-bit `long`, and `(x - in_min) * (out_max - out_min)` overflows (undefined behaviour) for large arguments; the model computes on unbounded integers, so `MapEndpoints` is only a statement about the source where that product and the other intermediates fit in `long`. nothing in the source calls `map`; `MapConstLimitsIsMap` shows that `mapConstLimits`'s own expression equals `map` over the `short` range, where every intermediate is far below 2^63.
- Joystick.Joystick.Update: the blocking device read and the zeroing of the previous event are outside the model; an event id beyond the tables (undefined behaviour in the source) is excluded by the precondition.
- The joystick's print-only `update_buttons`/`update_axes`/`worker` and the facade's polling thread `jsToCommandThread`: console output and thread plumbing.
- Video decoding, colour conversion, display, recording and snapshots: the decoder is a ghost log of the frames handed to it.
- The SLAM system, viewer, timestamps and track-time arithmetic (floating point); frames are opaque byte strings.
- The terminal's pseudo-terminal, xterm and `select`-based read: the line read is a parameter.
- Configuration loading, logging, the demo programs and the camera calibration script.

## Findings

| source | as written | input that shows it | evidently intended | confidence | as-written member | corrected member |
|---|---|---|---|---|---|---|
| src/state_socket.cpp:57 | `response_ = std::string(data_)` reads the whole 1024-byte receive buffer up to its first NUL, so bytes left from an earlier, longer datagram follow a shorter one | the datagram "ab;cd" then the datagram "x" (no NUL) yields "xb;cd" | the text of the datagram just received (its first `bytes_recvd` bytes) | medium, not executed | Datagram.StaleBytesReachText | Datagram.DatagramText |
| src/command_socket.cpp:68 | the same `std::string(data_)` read on the command socket's receive buffer (not zero-initialised, inc/tello/command_socket.hpp:124), so a reply that is shorter than the previous one keeps its tail; this changes `response_` when the new reply is a strict prefix of a keyword | the reply "ok" then the reply "o" (no NUL) is stored as "ok", for any earlier buffer content | the reply just received: "o" is classified "UNKNOWN" | medium, not executed | CommandChannel.StaleReplyMisclassified | Datagram.DatagramText |
