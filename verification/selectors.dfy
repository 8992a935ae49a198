/** The private-selector rule both block plugins install: on every
    `selector:add` event, a selector whose full name is one of the plugin's
    private classes gets `private = 1`; any other selector is left alone. The
    host's selector registry is abstracted as a map from full name to flag. */
module Selectors {

  /** The full names `.<prefix>row` and `.<prefix>cell` a plugin makes private. */
  function PrivateClasses(prefix: string): (r: seq<string>)
    ensures |r| == 2 && r[0] != r[1]
    ensures r[0] == "." + prefix + "row" && r[1] == "." + prefix + "cell"
  {
    var row := "." + prefix + "row";
    var cell := "." + prefix + "cell";
    assert row[|prefix| + 1] == 'r' && cell[|prefix| + 1] == 'c';
    [row, cell]
  }

  /** Full selector name to its `private` flag (`1` is modelled as true). */
  type Registry = map<string, bool>

  /** The host creates a newly added selector non-private; an existing one is kept. */
  function HostAdd(reg: Registry, name: string): (r: Registry)
    ensures r.Keys == reg.Keys + {name}
    ensures forall k :: k in reg ==> r[k] == reg[k]
    ensures name !in reg ==> !r[name]
  {
    if name in reg then reg else reg[name := false]
  }

  /** One plugin's `selector:add` listener, for a selector the registry holds. */
  function Listener(privateCls: seq<string>, reg: Registry, name: string): (r: Registry)
    requires name in reg
    ensures r.Keys == reg.Keys
    ensures r[name] <==> name in privateCls || reg[name]
    ensures forall k :: k in reg && k != name ==> r[k] == reg[k]
  {
    if name in privateCls then reg[name := true] else reg
  }

  /** A `selector:add` event: the host adds the selector, then every
      installed listener runs in installation order. */
  function SelectorAdded(listeners: seq<seq<string>>, reg: Registry, name: string): (r: Registry)
    ensures r.Keys == reg.Keys + {name}
    ensures forall k :: k in reg && k != name ==> r[k] == reg[k]
    decreases |listeners|
  {
    if |listeners| == 0 then HostAdd(reg, name)
    else
      var before := SelectorAdded(listeners[..|listeners| - 1], reg, name);
      Listener(listeners[|listeners| - 1], before, name)
  }

  /** A sequence of `selector:add` events. */
  function Replay(listeners: seq<seq<string>>, reg: Registry, names: seq<string>): (r: Registry)
    ensures r.Keys == reg.Keys + set i | 0 <= i < |names| :: names[i]
    decreases |names|
  {
    if |names| == 0 then reg
    else
      var r := Replay(listeners, SelectorAdded(listeners, reg, names[0]), names[1..]);
      assert (set i | 0 <= i < |names| :: names[i])
          == {names[0]} + set i | 0 <= i < |names[1..]| :: names[1..][i];
      r
  }

  /** The full names currently flagged private. */
  function Flagged(reg: Registry): set<string> {
    set k | k in reg && reg[k]
  }

  predicate InAny(listeners: seq<seq<string>>, name: string) {
    exists j :: 0 <= j < |listeners| && name in listeners[j]
  }

  /** After an event the added selector is private exactly when some
      listener lists it or it already was; no other flag changes. */
  lemma {:induction false} SelectorAddedFlag(listeners: seq<seq<string>>, reg: Registry, name: string)
    ensures SelectorAdded(listeners, reg, name)[name]
        <==> InAny(listeners, name) || (name in reg && reg[name])
    decreases |listeners|
  {
    if |listeners| > 0 {
      var init := listeners[..|listeners| - 1];
      SelectorAddedFlag(init, reg, name);
      if InAny(listeners, name) {
        var j :| 0 <= j < |listeners| && name in listeners[j];
        if j < |listeners| - 1 {
          assert name in init[j];
        }
      }
      if InAny(init, name) {
        var j :| 0 <= j < |init| && name in init[j];
        assert name in listeners[j];
      }
    }
  }

  /** Flagging is idempotent: a second identical event changes nothing. */
  lemma {:induction false} SelectorAddedIdempotent(listeners: seq<seq<string>>, reg: Registry, name: string)
    ensures SelectorAdded(listeners, SelectorAdded(listeners, reg, name), name)
         == SelectorAdded(listeners, reg, name)
  {
    var once := SelectorAdded(listeners, reg, name);
    var twice := SelectorAdded(listeners, once, name);
    SelectorAddedFlag(listeners, reg, name);
    SelectorAddedFlag(listeners, once, name);
    assert twice.Keys == once.Keys;
    forall k | k in once ensures twice[k] == once[k] {
    }
  }

  /** Two plugins' listeners may run in either order. */
  lemma ListenersCommute(p: seq<string>, q: seq<string>, reg: Registry, name: string)
    ensures SelectorAdded([p, q], reg, name) == SelectorAdded([q, p], reg, name)
  {
    var a := SelectorAdded([p, q], reg, name);
    var b := SelectorAdded([q, p], reg, name);
    SelectorAddedFlag([p, q], reg, name);
    SelectorAddedFlag([q, p], reg, name);
    assert InAny([p, q], name) <==> InAny([q, p], name) by {
      assert [p, q][0] == [q, p][1] && [p, q][1] == [q, p][0];
    }
    assert a.Keys == b.Keys;
    forall k | k in a ensures a[k] == b[k] {
    }
  }

  /** The added names some listener lists. */
  function Listed(listeners: seq<seq<string>>, names: seq<string>): set<string> {
    set i | 0 <= i < |names| && InAny(listeners, names[i]) :: names[i]
  }

  lemma ListedCons(listeners: seq<seq<string>>, names: seq<string>)
    requires |names| > 0
    ensures Listed(listeners, names)
         == (if InAny(listeners, names[0]) then {names[0]} else {}) + Listed(listeners, names[1..])
  {
    var head := if InAny(listeners, names[0]) then {names[0]} else {};
    forall x | x in Listed(listeners, names) ensures x in head + Listed(listeners, names[1..]) {
      var i :| 0 <= i < |names| && InAny(listeners, names[i]) && names[i] == x;
      if i > 0 {
        assert names[1..][i - 1] == x;
      }
    }
    forall x | x in Listed(listeners, names[1..]) ensures x in Listed(listeners, names) {
      var i :| 0 <= i < |names[1..]| && InAny(listeners, names[1..][i]) && names[1..][i] == x;
      assert names[i + 1] == x;
    }
  }

  /** There is no path that clears a flag, and an event sequence flags exactly
      the names it adds that some listener lists, besides what was flagged before. */
  lemma {:induction false} ReplayFlags(listeners: seq<seq<string>>, reg: Registry, names: seq<string>)
    ensures Flagged(Replay(listeners, reg, names)) == Flagged(reg) + Listed(listeners, names)
    decreases |names|
  {
    if |names| > 0 {
      var next := SelectorAdded(listeners, reg, names[0]);
      SelectorAddedFlag(listeners, reg, names[0]);
      assert Flagged(next) == Flagged(reg) + (if InAny(listeners, names[0]) then {names[0]} else {});
      ReplayFlags(listeners, next, names[1..]);
      ListedCons(listeners, names);
    }
  }
}
