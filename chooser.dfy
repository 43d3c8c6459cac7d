/**
 * The port selector binding (`chooser`): one `<select>` control used as an
 * ordered, id-keyed list of ports, and the `(id, name)` updater that keeps it
 * in step with the transport's hot-plug events.
 */
module Chooser {
  import opened Base

  /** One `<option>`: its value (the port id) and its text (the port name). */
  datatype Entry = Entry(id: PortId, text: string)

  /** Whether the updater ends by calling `choose`, and with which value of the control. */
  datatype Broadcast = Silent | Chose(value: Option<PortId>)

  /** JavaScript truthiness of the `name` argument: neither `null` nor the empty string. */
  predicate Named(name: Option<string>) {
    name.Some? && name.value != ""
  }

  function Ids(entries: seq<Entry>): (ids: seq<PortId>)
    ensures |ids| == |entries|
    ensures forall k :: 0 <= k < |entries| ==> ids[k] == entries[k].id
  {
    seq(|entries|, k requires 0 <= k < |entries| => entries[k].id)
  }

  /** No two options carry the same port id. */
  predicate UniqueIds(entries: seq<Entry>) {
    forall i, j :: 0 <= i < j < |entries| ==> entries[i].id != entries[j].id
  }

  /** The list with the entry for `id` showing `text` instead. */
  function Relabelled(entries: seq<Entry>, id: PortId, text: string): seq<Entry> {
    seq(|entries|, k requires 0 <= k < |entries| => if entries[k].id == id then Entry(id, text) else entries[k])
  }

  /** The list without the entries for `id`, the others in their order. */
  function Without(entries: seq<Entry>, id: PortId): seq<Entry> {
    if entries == [] then []
    else if entries[0].id == id then Without(entries[1..], id)
    else [entries[0]] + Without(entries[1..], id)
  }

  /**
   * The list the updater leaves behind for `(id, name)`: relabel a known
   * id, drop it when there is no name, append an unknown id that has a
   * name, and otherwise leave the list as it was.
   */
  function Reconciled(entries: seq<Entry>, id: PortId, name: Option<string>): seq<Entry> {
    if id in Ids(entries) then
      if Named(name) then Relabelled(entries, id, name.value) else Without(entries, id)
    else if Named(name) then entries + [Entry(id, name.value)]
    else entries
  }

  /** Whether the updater calls `choose`: on every path except the relabel one. */
  predicate Broadcasts(entries: seq<Entry>, id: PortId, name: Option<string>) {
    !(id in Ids(entries) && Named(name))
  }

  lemma IdsCons(e: Entry, rest: seq<Entry>)
    ensures Ids([e] + rest) == [e.id] + Ids(rest)
  {
  }

  lemma {:induction false} WithoutSpec(entries: seq<Entry>, id: PortId)
    ensures |Without(entries, id)| <= |entries|
    ensures forall x :: x in Ids(Without(entries, id)) <==> x in Ids(entries) && x != id
    ensures id !in Ids(entries) ==> Without(entries, id) == entries
    decreases |entries|
  {
    if entries != [] {
      var e, rest := entries[0], entries[1..];
      WithoutSpec(rest, id);
      assert entries == [e] + rest;
      IdsCons(e, rest);
      if e.id != id {
        IdsCons(e, Without(rest, id));
      }
    }
  }

  lemma {:induction false} WithoutUnique(entries: seq<Entry>, id: PortId)
    requires UniqueIds(entries)
    ensures UniqueIds(Without(entries, id))
    decreases |entries|
  {
    if entries != [] {
      var e, rest := entries[0], entries[1..];
      assert UniqueIds(rest) by {
        forall i, j | 0 <= i < j < |rest| ensures rest[i].id != rest[j].id {
          assert rest[i] == entries[i + 1] && rest[j] == entries[j + 1];
        }
      }
      WithoutUnique(rest, id);
      if e.id != id {
        var w, tail := Without(entries, id), Without(rest, id);
        WithoutSpec(rest, id);
        assert e.id !in Ids(rest) by {
          forall k | 0 <= k < |rest| ensures Ids(rest)[k] != e.id {
            assert rest[k] == entries[k + 1];
          }
        }
        assert w == [e] + tail;
        forall i, j | 0 <= i < j < |w| ensures w[i].id != w[j].id {
          assert w[j] == tail[j - 1];
          if i > 0 {
            assert w[i] == tail[i - 1];
          } else {
            assert Ids(tail)[j - 1] == w[j].id;
          }
        }
      }
    }
  }

  /** Removing the entry at position `k`, when ids are unique, is `Without` its id. */
  lemma {:induction false} RemoveAtIsWithout(entries: seq<Entry>, k: nat)
    requires UniqueIds(entries) && k < |entries|
    ensures entries[..k] + entries[k + 1..] == Without(entries, entries[k].id)
    decreases k
  {
    var id := entries[k].id;
    var rest := entries[1..];
    assert UniqueIds(rest) by {
      forall i, j | 0 <= i < j < |rest| ensures rest[i].id != rest[j].id {
        assert rest[i] == entries[i + 1] && rest[j] == entries[j + 1];
      }
    }
    if k == 0 {
      assert id !in Ids(rest) by {
        forall j | 0 <= j < |rest| ensures Ids(rest)[j] != id {
          assert rest[j] == entries[j + 1];
        }
      }
      WithoutSpec(rest, id);
      assert entries[..0] + entries[1..] == rest;
    } else {
      assert rest[k - 1] == entries[k];
      RemoveAtIsWithout(rest, k - 1);
      assert entries[0].id != id;
      assert entries[..k] + entries[k + 1..] == [entries[0]] + (rest[..k - 1] + rest[k..]);
    }
  }

  /** Relabelling the entry at position `k`, when ids are unique, changes that entry alone. */
  lemma RelabelAtIsRelabelled(entries: seq<Entry>, k: nat, text: string)
    requires UniqueIds(entries) && k < |entries|
    ensures entries[k := Entry(entries[k].id, text)] == Relabelled(entries, entries[k].id, text)
  {
  }

  /** Relabel branch: only that entry's text changes; order, ids and every other entry stay. */
  lemma RelabelBranch(entries: seq<Entry>, k: nat, name: Option<string>)
    requires UniqueIds(entries) && k < |entries| && Named(name)
    ensures Reconciled(entries, entries[k].id, name) == entries[k := Entry(entries[k].id, name.value)]
    ensures Ids(Reconciled(entries, entries[k].id, name)) == Ids(entries)
    ensures !Broadcasts(entries, entries[k].id, name)
  {
    assert Ids(entries)[k] == entries[k].id;
    RelabelAtIsRelabelled(entries, k, name.value);
  }

  /** Remove branch: the entry is dropped, the others keep their relative order. */
  lemma RemoveBranch(entries: seq<Entry>, k: nat, name: Option<string>)
    requires UniqueIds(entries) && k < |entries| && !Named(name)
    ensures Reconciled(entries, entries[k].id, name) == entries[..k] + entries[k + 1..]
    ensures Broadcasts(entries, entries[k].id, name)
  {
    assert Ids(entries)[k] == entries[k].id;
    RemoveAtIsWithout(entries, k);
  }

  /** Append branch and no-op: an unknown id with a name goes at the end; without one nothing changes. */
  lemma UnknownIdBranch(entries: seq<Entry>, id: PortId, name: Option<string>)
    requires id !in Ids(entries)
    ensures Named(name) ==> Reconciled(entries, id, name) == entries + [Entry(id, name.value)]
    ensures !Named(name) ==> Reconciled(entries, id, name) == entries
    ensures Broadcasts(entries, id, name)
  {
  }

  /**
   * After an update the id is listed exactly when it came with a name,
   * every other id is listed exactly as before, and ids stay unique.
   */
  lemma ReconciledIds(entries: seq<Entry>, id: PortId, name: Option<string>)
    requires UniqueIds(entries)
    ensures UniqueIds(Reconciled(entries, id, name))
    ensures forall x :: x in Ids(Reconciled(entries, id, name)) <==> if x == id then Named(name) else x in Ids(entries)
  {
    WithoutSpec(entries, id);
    WithoutUnique(entries, id);
    var r := Reconciled(entries, id, name);
    if id in Ids(entries) && Named(name) {
      assert Ids(r) == Ids(entries);
    } else if id !in Ids(entries) && Named(name) {
      assert r == entries + [Entry(id, name.value)];
      assert Ids(r) == Ids(entries) + [id];
    }
  }

  /** Repeating an update changes nothing more: the updater is idempotent on the list. */
  lemma ReconciledIdempotent(entries: seq<Entry>, id: PortId, name: Option<string>)
    requires UniqueIds(entries)
    ensures Reconciled(Reconciled(entries, id, name), id, name) == Reconciled(entries, id, name)
  {
    var r := Reconciled(entries, id, name);
    ReconciledIds(entries, id, name);
    WithoutSpec(r, id);
    if Named(name) {
      assert id in Ids(r);
      var k :| 0 <= k < |r| && Ids(r)[k] == id;
      RelabelAtIsRelabelled(r, k, name.value);
      assert r[k].text == name.value by {
        if id in Ids(entries) {
          assert r == Relabelled(entries, id, name.value);
        } else {
          assert r == entries + [Entry(id, name.value)];
          assert r[|entries|].id == id;
          assert k == |entries|;
        }
      }
      assert r[k := Entry(id, name.value)] == r;
    }
  }

  /**
   * A `<select>` control and the script's view of it. `selected` is the
   * control's value (`None` for the empty string an empty control reports);
   * `writes` counts the DOM mutations the updater makes.
   */
  class Selector {
    var options: seq<Entry>
    var selected: Option<PortId>
    var writes: nat

    /** Ids are unique, and the control shows a listed entry exactly when it has one. */
    ghost predicate Valid()
      reads this
    {
      && UniqueIds(options)
      && (selected.None? <==> options == [])
      && (selected.Some? ==> selected.value in Ids(options))
    }

    constructor ()
      ensures Valid() && options == [] && selected == None && writes == 0
    {
      options, selected, writes := [], None, 0;
    }

    /** The `onchange` handler: the user picks a listed entry and `choose` hears of it. */
    method Pick(id: PortId) returns (b: Broadcast)
      requires Valid() && id in Ids(options)
      modifies this`selected
      ensures Valid() && options == old(options)
      ensures selected == Some(id) && b == Chose(selected)
    {
      selected := Some(id);
      b := Chose(selected);
    }

    /**
     * The updater `function(id, name)`: walks the options, relabels and
     * returns at a match with a name, removes a match without one, appends
     * a named unknown id, and calls `choose(select.value)` unless it
     * returned early. Which entry the browser selects when the selected one
     * is removed is its own choice; only a listed one may be taken.
     */
    method Update(id: PortId, name: Option<string>) returns (b: Broadcast)
      requires Valid()
      modifies this
      ensures Valid()
      ensures options == Reconciled(old(options), id, name)
      ensures b == if Broadcasts(old(options), id, name) then Chose(selected) else Silent
      ensures old(selected).Some? && old(selected).value in Ids(options) ==> selected == old(selected)
      ensures !Broadcasts(old(options), id, name) ==> selected == old(selected)
      ensures writes == old(writes) + if options == old(options) then 0 else 1
    {
      ghost var orig := options;
      ghost var removed := false;
      var i := 0;
      while i < |options|
        invariant UniqueIds(options)
        invariant !removed ==> options == orig && i <= |options| && selected == old(selected) && writes == old(writes)
        invariant !removed ==> forall k :: 0 <= k < i ==> options[k].id != id
        invariant removed ==> !Named(name) && id in Ids(orig) && options == Without(orig, id) && writes == old(writes) + 1
        invariant removed ==> id !in Ids(options)
        invariant removed ==> (selected.None? <==> options == []) && (selected.Some? ==> selected.value in Ids(options))
        invariant removed ==> old(selected).Some? && old(selected).value in Ids(options) ==> selected == old(selected)
      {
        if options[i].id == id {
          if Named(name) {
            RelabelBranch(options, i, name);
            if options[i].text != name.value {
              options := options[i := Entry(id, name.value)];
              writes := writes + 1;
            } else {
              assert options[i := Entry(id, name.value)] == options;
            }
            b := Silent;
            return;
          }
          RemoveBranch(options, i, name);
          WithoutSpec(options, id);
          WithoutUnique(options, id);
          options := options[..i] + options[i + 1..];
          writes := writes + 1;
          removed := true;
          if selected == Some(id) {
            if options == [] {
              selected := None;
            } else {
              assert Ids(options)[0] in Ids(options);
              var next :| next in Ids(options);
              selected := Some(next);
            }
          }
          assert |options| < |orig|;
        }
        i := i + 1;
      }
      if !removed {
        assert id !in Ids(orig) by {
          forall k | 0 <= k < |orig| ensures Ids(orig)[k] != id { }
        }
        UnknownIdBranch(orig, id, name);
      }
      if Named(name) {
        ReconciledIds(orig, id, name);
        options := options + [Entry(id, name.value)];
        writes := writes + 1;
        if selected.None? {
          selected := Some(id);
        }
      }
      b := Chose(selected);
    }
  }
}
