/**
 * The transport session (`midi`): the receive and transmit bindings, the
 * routing of hot-plug events to the two selectors, and the sender handed
 * back to the page. The transport itself (port maps, listeners, `send`) is
 * an abstract collaborator.
 */
module Midi {
  import opened Base
  import opened Chooser

  /** A port as the transport reports it. */
  datatype Port = Port(id: PortId, name: string)

  /** `port.type`. */
  datatype Direction = Input | Output

  /** `port.state`. */
  datatype Connection = Connected | Disconnected

  /** A `statechange` event: the port it is about, its direction and its new state. */
  datatype StateEvent = StateEvent(port: Port, direction: Direction, state: Connection)

  /** `access.inputs` and `access.outputs`, in iteration order. */
  datatype Ports = Ports(inputs: seq<Port>, outputs: seq<Port>)

  /** Some port of the map carries this id. */
  predicate Has(ports: seq<Port>, id: PortId) {
    exists k :: 0 <= k < |ports| && ports[k].id == id
  }

  /**
   * `map.get(id)` for the control's value: the port with that id, or
   * `undefined` (here `None`) when there is none or the control is empty.
   * Ports are identified by their id.
   */
  function Get(ports: seq<Port>, id: Option<PortId>): (r: Option<PortId>)
    ensures r.Some? <==> id.Some? && Has(ports, id.value)
    ensures r.Some? ==> r == id
  {
    if id.Some? && Has(ports, id.value) then id else None
  }

  /** The name a `statechange` event passes on: the port's name when connected, `null` otherwise. */
  function EventName(ev: StateEvent): (name: Option<string>)
    ensures name.Some? <==> ev.state == Connected
    ensures name.Some? ==> name.value == ev.port.name
  {
    if ev.state == Connected then Some(ev.port.name) else None
  }

  /** The list the initial `forEach` builds: every port passed to the updater in turn, with its name. */
  function Announced(entries: seq<Entry>, ports: seq<Port>): seq<Entry> {
    if ports == [] then entries
    else
      var p := ports[|ports| - 1];
      Reconciled(Announced(entries, ports[..|ports| - 1]), p.id, Some(p.name))
  }

  /** The entries a map of ports would show, one per port, in order. */
  function Listing(ports: seq<Port>): (entries: seq<Entry>)
    ensures |entries| == |ports|
  {
    seq(|ports|, k requires 0 <= k < |ports| => Entry(ports[k].id, ports[k].name))
  }

  /**
   * Announcing ports with distinct ids and non-empty names to an empty
   * selector lists exactly those ports, in the transport's order.
   */
  lemma {:induction false} AnnouncedFromEmpty(ports: seq<Port>)
    requires forall i, j :: 0 <= i < j < |ports| ==> ports[i].id != ports[j].id
    requires forall k :: 0 <= k < |ports| ==> ports[k].name != ""
    ensures Announced([], ports) == Listing(ports)
    decreases |ports|
  {
    if ports != [] {
      var init, p := ports[..|ports| - 1], ports[|ports| - 1];
      AnnouncedFromEmpty(init);
      assert p.id !in Ids(Listing(init)) by {
        forall k | 0 <= k < |init| ensures Ids(Listing(init))[k] != p.id {
          assert init[k] == ports[k];
        }
      }
      UnknownIdBranch(Listing(init), p.id, Some(p.name));
      assert Listing(init) + [Entry(p.id, p.name)] == Listing(ports);
    }
  }

  /** A port with an empty name is never listed by the announcement. */
  lemma {:induction false} AnnouncedOmitsUnnamed(entries: seq<Entry>, ports: seq<Port>, id: PortId)
    requires UniqueIds(entries) && id !in Ids(entries)
    requires forall k :: 0 <= k < |ports| && ports[k].id == id ==> ports[k].name == ""
    ensures UniqueIds(Announced(entries, ports))
    ensures id !in Ids(Announced(entries, ports))
    decreases |ports|
  {
    if ports != [] {
      var init, p := ports[..|ports| - 1], ports[|ports| - 1];
      assert forall k :: 0 <= k < |init| ==> init[k] == ports[k];
      AnnouncedOmitsUnnamed(entries, init, id);
      ReconciledIds(Announced(entries, init), p.id, Some(p.name));
    }
  }

  function OptSet(o: Option<PortId>): set<PortId> {
    if o.Some? then {o.value} else {}
  }

  /**
   * The ports holding the listener after the receive `choose` callback for
   * `id`, when `prev` was bound before it and `bound` after it: with a
   * handler, the listener leaves `prev` unless its id is `id`, and goes onto
   * `bound`.
   */
  function Relistened(attached: set<PortId>, listening: bool, prev: Option<PortId>, id: Option<PortId>, bound: Option<PortId>): set<PortId> {
    var leaves := if listening && prev.Some? && Some(prev.value) != id then prev else None;
    attached - OptSet(leaves) + OptSet(if listening then bound else None)
  }

  /** Whether some updater call of the announcement ends by calling `choose`. */
  predicate AnyBroadcast(entries: seq<Entry>, ports: seq<Port>) {
    if ports == [] then false
    else
      var p := ports[|ports| - 1];
      AnyBroadcast(entries, ports[..|ports| - 1]) || Broadcasts(Announced(entries, ports[..|ports| - 1]), p.id, Some(p.name))
  }

  /** How many updater calls of the announcement change the list. */
  function Rewrites(entries: seq<Entry>, ports: seq<Port>): nat {
    if ports == [] then 0
    else
      var init := ports[..|ports| - 1];
      Rewrites(entries, init) + if Announced(entries, ports) == Announced(entries, init) then 0 else 1
  }

  /** One more port announced: one more updater call on the list so far. */
  lemma AnnouncedStep(entries: seq<Entry>, ports: seq<Port>, i: nat)
    requires i < |ports|
    ensures var p, done := ports[i], Announced(entries, ports[..i]);
      && Announced(entries, ports[..i + 1]) == Reconciled(done, p.id, Some(p.name))
      && AnyBroadcast(entries, ports[..i + 1]) == (AnyBroadcast(entries, ports[..i]) || Broadcasts(done, p.id, Some(p.name)))
      && Rewrites(entries, ports[..i + 1]) == Rewrites(entries, ports[..i]) + if Reconciled(done, p.id, Some(p.name)) == done then 0 else 1
  {
    assert ports[..i + 1][..i] == ports[..i];
  }

  /** Announcing any port to an empty selector ends, at least once, by calling `choose`. */
  lemma {:induction false} AnyBroadcastFromEmpty(ports: seq<Port>)
    requires ports != []
    ensures AnyBroadcast([], ports)
    decreases |ports|
  {
    var init := ports[..|ports| - 1];
    if init != [] {
      AnyBroadcastFromEmpty(init);
    }
  }

  /** The announcement keeps ids unique and lists only ids it was given or had before. */
  lemma {:induction false} AnnouncedIds(entries: seq<Entry>, ports: seq<Port>)
    requires UniqueIds(entries)
    ensures UniqueIds(Announced(entries, ports))
    ensures forall x :: x in Ids(Announced(entries, ports)) ==> x in Ids(entries) || Has(ports, x)
    decreases |ports|
  {
    if ports != [] {
      var init, p := ports[..|ports| - 1], ports[|ports| - 1];
      AnnouncedIds(entries, init);
      ReconciledIds(Announced(entries, init), p.id, Some(p.name));
      forall x | x in Ids(Announced(entries, ports)) && x !in Ids(entries)
        ensures Has(ports, x)
      {
        if x == p.id {
          assert ports[|ports| - 1].id == x;
        } else {
          var k :| 0 <= k < |init| && init[k].id == x;
          assert ports[k] == init[k];
        }
      }
    }
  }

  /**
   * The session: the two selectors, whether a receive handler was given,
   * the transport's port maps, the bound input and output, and the input
   * ports that currently hold the `midimessage` listener.
   */
  class Session {
    const rx: Selector
    const tx: Selector
    const listening: bool
    var ports: Ports
    var input: Option<PortId>
    var output: Option<PortId>
    var attached: set<PortId>

    /** The listener sits on the bound input whenever there is a handler, and nowhere when there is none. */
    ghost predicate Valid()
      reads this, rx, tx
    {
      && rx != tx && rx.Valid() && tx.Valid()
      && (!listening ==> attached == {})
      && (listening && input.Some? ==> input.value in attached)
    }

    /** The listener is on the bound input and on no other port. */
    ghost predicate SingleListener()
      reads this
    {
      attached == OptSet(if listening then input else None)
    }

    constructor (listening: bool, ports: Ports)
      ensures Valid() && SingleListener() && fresh(rx) && fresh(tx)
      ensures this.listening == listening && this.ports == ports
      ensures input == None && output == None
      ensures rx.options == [] && tx.options == []
    {
      rx := new Selector();
      tx := new Selector();
      this.listening := listening;
      this.ports := ports;
      input, output, attached := None, None, {};
    }

    /**
     * The receive `choose` callback: detach the listener from the previous
     * input when it exists, has another id and a handler is set; bind the
     * input the transport has under the new id; attach the listener to it.
     */
    method ChooseInput(id: Option<PortId>) returns (detached: Option<PortId>, attachedTo: Option<PortId>)
      requires Valid()
      modifies this`input, this`attached
      ensures Valid()
      ensures input == Get(ports.inputs, id)
      ensures detached == if listening && old(input).Some? && Some(old(input).value) != id then old(input) else None
      ensures attachedTo == if listening then input else None
      ensures attached == old(attached) - OptSet(detached) + OptSet(attachedTo)
      ensures attached == Relistened(old(attached), listening, old(input), id, input)
      ensures old(SingleListener()) && (old(input).Some? && Some(old(input).value) == id ==> input.Some?) ==> SingleListener()
    {
      detached, attachedTo := None, None;
      if input.Some? && Some(input.value) != id && listening {
        attached := attached - {input.value};
        detached := input;
      }
      input := Get(ports.inputs, id);
      if input.Some? && listening {
        attached := attached + {input.value};
        attachedTo := input;
      }
    }

    /** The transmit `choose` callback: bind the output the transport has under the new id. */
    method ChooseOutput(id: Option<PortId>)
      requires Valid()
      modifies this`output
      ensures Valid()
      ensures output == Get(ports.outputs, id)
    {
      output := Get(ports.outputs, id);
    }

    /** The user picks a receive port: the control's `onchange` feeds `choose`. */
    method PickInput(id: PortId)
      requires Valid() && id in Ids(rx.options)
      modifies this`input, this`attached, rx`selected
      ensures Valid() && rx.selected == Some(id) && rx.options == old(rx.options)
      ensures input == Get(ports.inputs, Some(id))
      ensures attached == Relistened(old(attached), listening, old(input), Some(id), input)
      ensures old(SingleListener()) && (old(input) == Some(id) ==> input.Some?) ==> SingleListener()
    {
      var b := rx.Pick(id);
      var _, _ := ChooseInput(b.value);
    }

    /** The user picks a transmit port. */
    method PickOutput(id: PortId)
      requires Valid() && id in Ids(tx.options)
      modifies this`output, tx`selected
      ensures Valid() && tx.selected == Some(id) && tx.options == old(tx.options)
      ensures output == Get(ports.outputs, Some(id))
    {
      var b := tx.Pick(id);
      ChooseOutput(b.value);
    }

    /**
     * The `statechange` listener. `now` is the transport's port maps as the
     * event finds them. An input event goes to the receive updater, an
     * output event to the transmit updater, with the port's name only when
     * it is connected; the updater's `choose` rebinds that side.
     */
    method StateChange(ev: StateEvent, now: Ports)
      requires Valid()
      modifies this, rx, tx
      ensures Valid() && ports == now
      ensures ev.direction == Input ==>
        var chose := Broadcasts(old(rx.options), ev.port.id, EventName(ev));
        && rx.options == Reconciled(old(rx.options), ev.port.id, EventName(ev))
        && (old(rx.selected).Some? && old(rx.selected).value in Ids(rx.options) ==> rx.selected == old(rx.selected))
        && rx.writes == old(rx.writes) + (if rx.options == old(rx.options) then 0 else 1)
        && input == (if chose then Get(now.inputs, rx.selected) else old(input))
        && attached == (if chose then Relistened(old(attached), listening, old(input), rx.selected, input) else old(attached))
        && tx.options == old(tx.options) && tx.selected == old(tx.selected) && tx.writes == old(tx.writes)
        && output == old(output)
      ensures ev.direction == Output ==>
        var chose := Broadcasts(old(tx.options), ev.port.id, EventName(ev));
        && tx.options == Reconciled(old(tx.options), ev.port.id, EventName(ev))
        && (old(tx.selected).Some? && old(tx.selected).value in Ids(tx.options) ==> tx.selected == old(tx.selected))
        && tx.writes == old(tx.writes) + (if tx.options == old(tx.options) then 0 else 1)
        && output == (if chose then Get(now.outputs, tx.selected) else old(output))
        && rx.options == old(rx.options) && rx.selected == old(rx.selected) && rx.writes == old(rx.writes)
        && input == old(input) && attached == old(attached)
      // A port that disconnects leaves its list, stops being bound, and loses the listener.
      ensures ev.direction == Input && ev.state == Disconnected ==>
        && ev.port.id !in Ids(rx.options) && input != Some(ev.port.id)
        && (listening && old(input) == Some(ev.port.id) ==> ev.port.id !in attached)
      ensures ev.direction == Output && ev.state == Disconnected ==>
        ev.port.id !in Ids(tx.options) && output != Some(ev.port.id)
      // The listener stays single unless the bound input is chosen again after leaving the map.
      ensures var rebinds := ev.direction == Input && Broadcasts(old(rx.options), ev.port.id, EventName(ev));
        old(SingleListener()) && (rebinds && old(input).Some? && Some(old(input).value) == rx.selected ==> input.Some?)
        ==> SingleListener()
    {
      ports := now;
      var name := EventName(ev);
      if ev.direction == Input {
        ReconciledIds(rx.options, ev.port.id, name);
        var b := rx.Update(ev.port.id, name);
        if b.Chose? {
          var _, _ := ChooseInput(b.value);
        }
      } else {
        ReconciledIds(tx.options, ev.port.id, name);
        var b := tx.Update(ev.port.id, name);
        if b.Chose? {
          ChooseOutput(b.value);
        }
      }
    }

    /**
     * The two `forEach` calls: every port the transport has is passed to its
     * updater, inputs first. Each side ends bound to its control's value when
     * some call announced it, and as it was otherwise.
     */
    method Announce()
      requires Valid()
      modifies this, rx, tx
      ensures Valid() && ports == old(ports)
      ensures rx.options == Announced(old(rx.options), ports.inputs)
      ensures tx.options == Announced(old(tx.options), ports.outputs)
      ensures rx.writes == old(rx.writes) + Rewrites(old(rx.options), ports.inputs)
      ensures tx.writes == old(tx.writes) + Rewrites(old(tx.options), ports.outputs)
      ensures input == if AnyBroadcast(old(rx.options), ports.inputs) then Get(ports.inputs, rx.selected) else old(input)
      ensures output == if AnyBroadcast(old(tx.options), ports.outputs) then Get(ports.outputs, tx.selected) else old(output)
      ensures !AnyBroadcast(old(rx.options), ports.inputs) ==> rx.selected == old(rx.selected) && attached == old(attached)
      ensures !AnyBroadcast(old(tx.options), ports.outputs) ==> tx.selected == old(tx.selected)
      ensures old(rx.options) == [] && ports.inputs != [] ==> input == rx.selected
      ensures old(tx.options) == [] && ports.outputs != [] ==> output == tx.selected
      ensures old(SingleListener()) && (old(input).Some? ==> Has(ports.inputs, old(input).value)) ==> SingleListener()
    {
      AnnounceInputs();
      AnnounceOutputs();
    }

    /** `access.inputs.forEach(port => rxchooser(port.id, port.name))`. */
    method AnnounceInputs()
      requires Valid()
      modifies this`input, this`attached, rx
      ensures Valid()
      ensures rx.options == Announced(old(rx.options), ports.inputs)
      ensures rx.writes == old(rx.writes) + Rewrites(old(rx.options), ports.inputs)
      ensures input == if AnyBroadcast(old(rx.options), ports.inputs) then Get(ports.inputs, rx.selected) else old(input)
      ensures !AnyBroadcast(old(rx.options), ports.inputs) ==> rx.selected == old(rx.selected) && attached == old(attached)
      ensures old(rx.options) == [] && ports.inputs != [] ==> input == rx.selected
      ensures old(SingleListener()) && (old(input).Some? ==> Has(ports.inputs, old(input).value)) ==> SingleListener()
    {
      ghost var kept := old(SingleListener()) && (old(input).Some? ==> Has(ports.inputs, old(input).value));
      var i := 0;
      while i < |ports.inputs|
        invariant Valid() && i <= |ports.inputs|
        invariant rx.options == Announced(old(rx.options), ports.inputs[..i])
        invariant rx.writes == old(rx.writes) + Rewrites(old(rx.options), ports.inputs[..i])
        invariant input == if AnyBroadcast(old(rx.options), ports.inputs[..i]) then Get(ports.inputs, rx.selected) else old(input)
        invariant !AnyBroadcast(old(rx.options), ports.inputs[..i]) ==> rx.selected == old(rx.selected) && attached == old(attached)
        invariant kept ==> SingleListener() && (input.Some? ==> Has(ports.inputs, input.value))
      {
        AnnouncedStep(old(rx.options), ports.inputs, i);
        OfferInput(ports.inputs[i]);
        i := i + 1;
      }
      assert ports.inputs[..i] == ports.inputs;
      if old(rx.options) == [] && ports.inputs != [] {
        AnyBroadcastFromEmpty(ports.inputs);
        AnnouncedIds([], ports.inputs);
        assert rx.selected.Some? ==> rx.selected.value in Ids(rx.options);
      }
    }

    /** `access.outputs.forEach(port => txchooser(port.id, port.name))`. */
    method AnnounceOutputs()
      requires Valid()
      modifies this`output, tx
      ensures Valid()
      ensures tx.options == Announced(old(tx.options), ports.outputs)
      ensures tx.writes == old(tx.writes) + Rewrites(old(tx.options), ports.outputs)
      ensures output == if AnyBroadcast(old(tx.options), ports.outputs) then Get(ports.outputs, tx.selected) else old(output)
      ensures !AnyBroadcast(old(tx.options), ports.outputs) ==> tx.selected == old(tx.selected)
      ensures old(tx.options) == [] && ports.outputs != [] ==> output == tx.selected
    {
      var j := 0;
      while j < |ports.outputs|
        invariant Valid() && j <= |ports.outputs|
        invariant tx.options == Announced(old(tx.options), ports.outputs[..j])
        invariant tx.writes == old(tx.writes) + Rewrites(old(tx.options), ports.outputs[..j])
        invariant output == if AnyBroadcast(old(tx.options), ports.outputs[..j]) then Get(ports.outputs, tx.selected) else old(output)
        invariant !AnyBroadcast(old(tx.options), ports.outputs[..j]) ==> tx.selected == old(tx.selected)
      {
        AnnouncedStep(old(tx.options), ports.outputs, j);
        OfferOutput(ports.outputs[j]);
        j := j + 1;
      }
      assert ports.outputs[..j] == ports.outputs;
      if old(tx.options) == [] && ports.outputs != [] {
        AnyBroadcastFromEmpty(ports.outputs);
        AnnouncedIds([], ports.outputs);
        assert tx.selected.Some? ==> tx.selected.value in Ids(tx.options);
      }
    }

    /** One `rxchooser(port.id, port.name)` call of the announcement. */
    method OfferInput(p: Port)
      requires Valid()
      modifies this`input, this`attached, rx
      ensures Valid()
      ensures rx.options == Reconciled(old(rx.options), p.id, Some(p.name))
      ensures rx.writes == old(rx.writes) + (if rx.options == old(rx.options) then 0 else 1)
      ensures Broadcasts(old(rx.options), p.id, Some(p.name)) ==> input == Get(ports.inputs, rx.selected)
      ensures !Broadcasts(old(rx.options), p.id, Some(p.name)) ==>
        input == old(input) && rx.selected == old(rx.selected) && attached == old(attached)
      ensures old(SingleListener()) && (old(input).Some? ==> Has(ports.inputs, old(input).value)) ==>
        SingleListener() && (input.Some? ==> Has(ports.inputs, input.value))
    {
      var b := rx.Update(p.id, Some(p.name));
      if b.Chose? {
        var _, _ := ChooseInput(b.value);
      }
    }

    /** One `txchooser(port.id, port.name)` call of the announcement. */
    method OfferOutput(p: Port)
      requires Valid()
      modifies this`output, tx
      ensures Valid()
      ensures tx.options == Reconciled(old(tx.options), p.id, Some(p.name))
      ensures tx.writes == old(tx.writes) + (if tx.options == old(tx.options) then 0 else 1)
      ensures Broadcasts(old(tx.options), p.id, Some(p.name)) ==> output == Get(ports.outputs, tx.selected)
      ensures !Broadcasts(old(tx.options), p.id, Some(p.name)) ==> output == old(output) && tx.selected == old(tx.selected)
    {
      var b := tx.Update(p.id, Some(p.name));
      if b.Chose? {
        ChooseOutput(b.value);
      }
    }

    /**
     * The sender `data => output && output.send(data)`: nothing happens
     * without a bound output; otherwise the port either takes the bytes or
     * rejects them (`rejects`), which the caller sees as a throw.
     */
    method Send(data: seq<Byte>, rejects: bool) returns (target: Option<PortId>, threw: bool)
      ensures threw <==> output.Some? && rejects
      ensures target.Some? <==> output.Some? && !rejects
      ensures target.Some? ==> target == output
    {
      target, threw := None, false;
      if output.Some? {
        if rejects {
          threw := true;
        } else {
          target := output;
        }
      }
    }

    /**
     * A `midimessage` arriving on `port` reaches the receive handler when
     * the listener is attached there: always on the bound input, and, while
     * the listener is single, on no other port.
     */
    method Deliver(port: PortId) returns (handled: bool)
      requires Valid()
      ensures handled ==> listening
      ensures listening && input == Some(port) ==> handled
      ensures SingleListener() ==> (handled <==> listening && input == Some(port))
    {
      handled := port in attached;
    }
  }
}
