/**
 * The page's wiring: the `send` line handler acting on the shell and the
 * session's sender, the `receive` handler printing filtered messages, and
 * the paths from a key press or an incoming message to the screen.
 */
module App {
  import opened Base
  import opened Text
  import opened Command
  import opened Display
  import opened Shell
  import opened Midi

  /** The lines `send` leaves on the screen for an action, given whether the sender threw. */
  function AfterAction(lines: seq<Line>, line: string, a: Action, threw: bool): seq<Line> {
    match a
    case Clear => []
    case Reject(message) => lines + [Line(message, Red)]
    case Transmit(_) => if threw then lines + [Line(InvalidCommand + Trim(line), Red)] else lines
    case Idle => lines
  }

  /**
   * `send(line)`: clear the screen, report a validation error, or pass the
   * bytes to `transmit` exactly once (reporting a rejection by the port);
   * `transmit` is `null` when MIDI access was refused.
   */
  method Send(console: Console, line: string, transmit: Session?, rejects: bool) returns (sent: Option<seq<Byte>>)
    modifies console`scrollback
    ensures var a := Interpret(line, transmit != null);
      && sent == (if a.Transmit? then Some(a.bytes) else None)
      && console.scrollback == AfterAction(old(console.scrollback), line, a, a.Transmit? && transmit.output.Some? && rejects)
  {
    var action := Interpret(line, transmit != null);
    sent := None;
    match action {
      case Clear =>
        // Every child of the log but the input row goes, first child first.
        while |console.scrollback| > 0 {
          console.scrollback := console.scrollback[1..];
        }
      case Reject(message) =>
        console.Print(message, Red);
      case Transmit(bytes) =>
        var _, threw := transmit.Send(bytes, rejects);
        sent := Some(bytes);
        if threw {
          console.Print(InvalidCommand + Trim(line), Red);
        }
      case Idle =>
    }
  }

  /** `receive(event)`: print the rendered message in green when the display filter lets it through. */
  method Receive(console: Console, filter: Filter, data: seq<Byte>)
    modifies console`scrollback
    ensures console.scrollback == old(console.scrollback) + if Shown(filter, data) then [Line(Render(data), Green)] else []
  {
    var shown := Received(filter, data);
    if shown.Some? {
      console.Print(shown.value, Green);
    }
  }

  /**
   * Enter in the shell, with `send` as its handler: the echo, then whatever
   * `send` does with a non-blank line. Nothing is sent for a blank line.
   */
  method Submit(console: Console, transmit: Session?, rejects: bool) returns (sent: Option<seq<Byte>>)
    requires console.Valid()
    modifies console
    ensures console.Valid() && console.State() == AfterEnter(old(console.State()))
    ensures var a := Interpret(old(console.value), transmit != null);
      sent == if console.hasHandler && !Blank(old(console.value)) && a.Transmit? then Some(a.bytes) else None
    ensures console.hasHandler && !Blank(old(console.value)) ==>
      var a := Interpret(old(console.value), transmit != null);
      console.scrollback == AfterAction(old(console.scrollback) + [Line("> " + old(console.value), Plain)],
                                        old(console.value), a, a.Transmit? && transmit.output.Some? && rejects)
    ensures !(console.hasHandler && !Blank(old(console.value))) ==>
      console.scrollback == old(console.scrollback) + [Line("> " + old(console.value), Plain)]
  {
    var line := console.Enter();
    sent := None;
    if line.Some? {
      sent := Send(console, line.value, transmit, rejects);
    }
  }

  /**
   * A message arriving on `port`: the listener hands it to `receive` when it
   * is attached there. While the listener is single, only messages from the
   * bound input can reach the screen.
   */
  method Incoming(session: Session, console: Console, filter: Filter, port: PortId, data: seq<Byte>)
    requires session.Valid()
    modifies console`scrollback
    ensures session.SingleListener() ==>
      console.scrollback == old(console.scrollback)
        + if session.listening && session.input == Some(port) && Shown(filter, data) then [Line(Render(data), Green)] else []
    ensures session.listening && session.input == Some(port) && Shown(filter, data) ==>
      console.scrollback == old(console.scrollback) + [Line(Render(data), Green)]
  {
    var handled := session.Deliver(port);
    if handled {
      Receive(console, filter, data);
    }
  }
}
