/** The sketch in `main.cpp`: the web-console command handler registered by
    `SetupWebSerialCommands`, and the `loop()` that services the web server at
    most every 50 ms. */
module MainSketch {
  import opened Platform

  /** `millis()` returns an `unsigned long`, 32 bits wide on the ESP32. */
  const ClockModulus: int := 0x1_0000_0000
  type Millis = t: int | 0 <= t < ClockModulus

  /** The web server is serviced only once strictly more than this many
      milliseconds have passed. */
  const TickInterval: int := 50

  /** `now - since` in unsigned 32-bit arithmetic. */
  function Elapsed(now: Millis, since: Millis): (d: Millis)
    ensures now >= since ==> d == now - since
    ensures now < since ==> d == ClockModulus - since + now
  {
    (now - since) % ClockModulus
  }

  /** A clock that has advanced by `d` milliseconds (fewer than one full turn
      of the counter) shows exactly `d` elapsed, whether or not it wrapped. */
  lemma ElapsedAcrossWrap(since: Millis, d: int)
    requires 0 <= d < ClockModulus
    ensures Elapsed((since + d) % ClockModulus, since) == d
  {
    if since + d >= ClockModulus {
      assert (since + d) % ClockModulus == since + d - ClockModulus;
    }
  }

  /** The gate of `loop()`. */
  predicate TickDue(now: Millis, lastTick: Millis) {
    Elapsed(now, lastTick) > TickInterval
  }

  /** The gate opens exactly when more than 50 ms have really passed since the
      last service, across the wrap of the counter too. */
  lemma TickDueIff(lastTick: Millis, d: int)
    requires 0 <= d < ClockModulus
    ensures TickDue((lastTick + d) % ClockModulus, lastTick) <==> d > TickInterval
  {
    ElapsedAcrossWrap(lastTick, d);
  }

  /** Heap figures `PrintFreeRam` reads from the allocator. */
  datatype HeapInfo = HeapInfo(totalFree: nat, minimumFree: nat, largestBlock: nat)

  /** One `WebSerial.print`/`printf` to the console. */
  datatype Output =
    | Text(text: string)
    | FreeRamReport(heap: HeapInfo)
    | Duration(ms: Millis)

  datatype Command = Help | FreeRam | Reboot | Unrecognised

  /** The `equals` chain: exact, case-sensitive comparison, no trimming. */
  function Classify(message: string): (c: Command)
    ensures c == Help <==> message == "help"
    ensures c == FreeRam <==> message == "freeram"
    ensures c == Reboot <==> message == "reboot"
  {
    if message == "help" then Help
    else if message == "freeram" then FreeRam
    else if message == "reboot" then Reboot
    else Unrecognised
  }

  /** What handling one message writes to the console and whether it reboots. */
  datatype Reaction = Reaction(output: seq<Output>, reboot: bool)

  /** The handler's reaction to `message`, given the heap figures and the time
      the handler took. The echo comes first whatever the message; the timing
      line comes last unless the device restarted. */
  function Dispatch(message: string, heap: HeapInfo, took: Millis): (r: Reaction)
    ensures |r.output| >= 1 && r.output[0] == Text(message)
    ensures r.reboot <==> message == "reboot"
    ensures message == "help" ==> r.output[1..] == [Text("freeram"), Text("reboot"), Duration(took)]
    ensures message == "freeram" ==> r.output[1..] == [FreeRamReport(heap), Duration(took)]
    ensures message == "reboot" ==> r.output == [Text(message)]
    ensures message !in {"help", "freeram", "reboot"} ==> r.output == [Text(message), Duration(took)]
  {
    var echo := [Text(message)];
    match Classify(message)
    case Help => Reaction(echo + [Text("freeram"), Text("reboot"), Duration(took)], false)
    case FreeRam => Reaction(echo + [FreeRamReport(heap), Duration(took)], false)
    case Reboot => Reaction(echo, true)
    case Unrecognised => Reaction(echo + [Duration(took)], false)
  }

  class Sketch {
    /** The global `lasttick`. */
    var lastTick: Millis
    /** Everything printed to the web console, in order. */
    var console: seq<Output>
    /** How many times `ControllerWebServer.loop()` has been called. */
    var serverLoops: nat
    const board: Board

    constructor (board: Board)
      ensures this.board == board && lastTick == 0 && console == [] && serverLoops == 0
    {
      this.board := board;
      lastTick := 0;
      console := [];
      serverLoops := 0;
    }

    /** The `WebSerial.onMessage` handler. `receivedAt` and `finishedAt` are the
        two `millis()` readings; only `reboot` unmounts and restarts. */
    method OnMessage(message: string, receivedAt: Millis, finishedAt: Millis, heap: HeapInfo)
      requires !board.restarted
      modifies this`console, board`mounted, board`restarted
      ensures console == old(console) + Dispatch(message, heap, Elapsed(finishedAt, receivedAt)).output
      ensures board.restarted <==> message == "reboot"
      ensures board.mounted == (old(board.mounted) && message != "reboot")
    {
      console := console + [Text(message)];
      var command := Classify(message);
      if command == Help {
        console := console + [Text("freeram")];
        console := console + [Text("reboot")];
      } else if command == FreeRam {
        console := console + [FreeRamReport(heap)];
      } else if command == Reboot {
        board.Unmount();
        board.Restart();
        return;
      }
      console := console + [Duration(Elapsed(finishedAt, receivedAt))];
    }

    /** `loop()`: `now` is the `millis()` reading of the test, `nowAgain` the one
        stored after servicing the web server. */
    method Loop(now: Millis, nowAgain: Millis)
      requires !board.restarted
      modifies this`lastTick, this`serverLoops
      ensures TickDue(now, old(lastTick)) ==> serverLoops == old(serverLoops) + 1 && lastTick == nowAgain
      ensures !TickDue(now, old(lastTick)) ==> serverLoops == old(serverLoops) && lastTick == old(lastTick)
    {
      if Elapsed(now, lastTick) > TickInterval {
        serverLoops := serverLoops + 1;
        lastTick := nowAgain;
      }
    }
  }
}
