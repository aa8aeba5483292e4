/**
 * The outside-activity watcher (`useClickOutside`).
 *
 * The document is a tree whose nodes are named by their path from the root: each step goes
 * to a child, or into the shadow root hosted by the node reached so far. The document's
 * listener registry is a set of (event type, handler, capture) entries, which is how the
 * DOM deduplicates `addEventListener` calls. Each run of the watcher's effect creates a new
 * handler closure; a handler is named by the watcher that made it and the run number.
 */
module ClickOutsideHook {
  import opened Wrappers

  datatype Step = Child(index: nat) | ShadowRoot
  type NodePath = seq<Step>

  /** `ancestor.contains(node)`: `node` is `ancestor` or below it, without entering a shadow root on the way. */
  predicate Contains(ancestor: NodePath, node: NodePath) {
    ancestor <= node && ShadowRoot !in node[|ancestor|..]
  }

  /** The watched container element: where it is, and whether it exposes a shadow root. */
  datatype Container = Container(node: NodePath, hasShadowRoot: bool)

  /** `container.shadowRoot`. */
  function ShadowRootOf(c: Container): (root: Option<NodePath>)
    ensures root.Some? <==> c.hasShadowRoot
    ensures root.Some? ==> c.node < root.value && |root.value| == |c.node| + 1
  {
    if c.hasShadowRoot then Some(c.node + [ShadowRoot]) else None
  }

  /**
   * The decision inside `handleClickOutside`: the container is mounted, the target is not
   * inside it, and the target is not inside its shadow root either (when it has one).
   */
  predicate IsClickOutside(container: Option<Container>, target: NodePath)
    ensures container.None? ==> !IsClickOutside(container, target)
    ensures container.Some? && Contains(container.value.node, target) ==> !IsClickOutside(container, target)
    ensures container.Some? && container.value.hasShadowRoot && Contains(container.value.node + [ShadowRoot], target) ==>
              !IsClickOutside(container, target)
    ensures container.Some? && !container.value.hasShadowRoot ==>
              (IsClickOutside(container, target) <==> !Contains(container.value.node, target))
  {
    match container
    case None => false
    case Some(c) =>
      !Contains(c.node, target) &&
      (ShadowRootOf(c).None? || !Contains(ShadowRootOf(c).value, target))
  }

  /**
   * The region a click may land in without dismissing, described directly on paths: the
   * container's own subtree, and, when it has a shadow root, the subtree of that root.
   */
  predicate WithinBoundary(c: Container, target: NodePath) {
    c.node <= target &&
    var rest := target[|c.node|..];
    ShadowRoot !in rest || (c.hasShadowRoot && rest[0] == ShadowRoot && ShadowRoot !in rest[1..])
  }

  /** The decision dismisses exactly for targets outside the boundary region. */
  lemma {:induction false} OutsideIffNotWithin(c: Container, target: NodePath)
    ensures IsClickOutside(Some(c), target) <==> !WithinBoundary(c, target)
  {
    var n := |c.node|;
    if c.hasShadowRoot && c.node <= target && n < |target| && target[n] == ShadowRoot {
      var root := c.node + [ShadowRoot];
      assert ShadowRootOf(c) == Some(root);
      assert root <= target by {
        assert target[..n + 1] == target[..n] + [target[n]];
      }
      assert target[n..] == [ShadowRoot] + target[n + 1..];
      assert target[n..][1..] == target[n + 1..];
      assert Contains(root, target) <==> ShadowRoot !in target[n + 1..];
    }
  }

  /** The event types listened to when none are configured. */
  const DefaultEvents: seq<string> := ["click", "touchstart"]

  /** A handler closure: made by watcher `watcher` on its effect run number `run`. */
  datatype Handler = Handler(watcher: nat, run: nat)

  /** One registration in the document: `addEventListener(eventType, handler, capture)`. */
  datatype Listener = Listener(eventType: string, handler: Handler, capture: bool)

  /** The capture-phase registrations of `handler` for every type in `events`. */
  function ListenersFor(events: seq<string>, handler: Handler): (r: set<Listener>)
    ensures forall l :: l in r <==> l.eventType in events && l.handler == handler && l.capture
  {
    if events == [] then {} else {Listener(events[0], handler, true)} + ListenersFor(events[1..], handler)
  }

  /** The registrations made by handlers of watcher `id`. */
  function Owned(listeners: set<Listener>, id: nat): (r: set<Listener>)
    ensures r <= listeners
  {
    set l | l in listeners && l.handler.watcher == id
  }

  /** The registrations made by anything other than watcher `id`. */
  function Others(listeners: set<Listener>, id: nat): (r: set<Listener>)
    ensures r + Owned(listeners, id) == listeners && r !! Owned(listeners, id)
  {
    set l | l in listeners && l.handler.watcher != id
  }

  /** The document's listener registry. */
  class Document {
    var listeners: set<Listener>

    constructor()
      ensures listeners == {}
    {
      listeners := {};
    }

    /** `addEventListener`: registering the same (type, handler, capture) twice keeps one entry. */
    method AddEventListener(eventType: string, handler: Handler, capture: bool)
      modifies this
      ensures listeners == old(listeners) + {Listener(eventType, handler, capture)}
    {
      listeners := listeners + {Listener(eventType, handler, capture)};
    }

    /** `removeEventListener`: removes exactly the matching (type, handler, capture) entry. */
    method RemoveEventListener(eventType: string, handler: Handler, capture: bool)
      modifies this
      ensures listeners == old(listeners) - {Listener(eventType, handler, capture)}
    {
      listeners := listeners - {Listener(eventType, handler, capture)};
    }
  }

  /**
   * One `useClickOutside` instance: its container signal, its event types, and the state of
   * its effect (`active`: the flag the effect last saw; `cleanup`: the handler whose
   * listeners the registered `onCleanup` will remove).
   */
  class ClickOutsideWatcher {
    const id: nat
    const doc: Document
    const events: seq<string>
    var containerRef: Option<Container>
    var active: bool
    var cleanup: Option<Handler>
    var runs: nat

    /**
     * The registry holds exactly one capture listener per configured event type from this
     * watcher while it is active, and none while it is inactive.
     */
    ghost predicate Valid()
      reads this, doc
    {
      && (active <==> cleanup.Some?)
      && (cleanup.Some? ==> cleanup.value.watcher == id)
      && Owned(doc.listeners, id) == (if active then ListenersFor(events, cleanup.value) else {})
    }

    /** Creation: the container is not mounted yet, and the effect runs once with `isActive`. */
    constructor(id: nat, doc: Document, events: Option<seq<string>>, isActive: bool)
      requires Owned(doc.listeners, id) == {}
      modifies doc
      ensures Valid()
      ensures this.id == id && this.doc == doc && this.events == events.GetOr(DefaultEvents)
      ensures containerRef == None && active == isActive
      ensures Others(doc.listeners, id) == Others(old(doc.listeners), id)
    {
      this.id := id;
      this.doc := doc;
      this.events := events.GetOr(DefaultEvents);
      containerRef := None;
      active := false;
      cleanup := None;
      runs := 0;
      new;
      Effect(isActive);
    }

    /** `setContainerRef`. */
    method SetContainerRef(c: Option<Container>)
      modifies this`containerRef
      ensures containerRef == c
    {
      containerRef := c;
    }

    /** The registered `onCleanup`, if any: remove every listener of the current handler. */
    method RunCleanup()
      requires Valid()
      modifies this`cleanup, this`active, doc
      ensures Valid() && !active && cleanup.None?
      ensures Owned(doc.listeners, id) == {}
      ensures Others(doc.listeners, id) == Others(old(doc.listeners), id)
    {
      if cleanup.Some? {
        var handler := cleanup.value;
        for i := 0 to |events|
          invariant doc.listeners == old(doc.listeners) - ListenersFor(events[..i], handler)
        {
          assert events[..i + 1] == events[..i] + [events[i]];
          doc.RemoveEventListener(events[i], handler, true);
        }
        assert events[..|events|] == events;
        assert Owned(doc.listeners, id) == Owned(old(doc.listeners), id) - ListenersFor(events, handler);
        cleanup := None;
      }
      active := false;
    }

    /**
     * A run of the effect on a new value of `isActive`: the previous run's cleanup first,
     * then, when active, a fresh handler registered once per event type, with a cleanup
     * that will remove it. Listeners of anyone else are left alone.
     */
    method Effect(isActive: bool)
      requires Valid()
      modifies this`cleanup, this`active, this`runs, doc
      ensures Valid() && active == isActive
      ensures isActive ==> cleanup == Some(Handler(id, old(runs))) && runs == old(runs) + 1
      ensures !isActive ==> runs == old(runs)
      ensures Others(doc.listeners, id) == Others(old(doc.listeners), id)
    {
      RunCleanup();
      if isActive {
        var handler := Handler(id, runs);
        runs := runs + 1;
        ghost var before := doc.listeners;
        for i := 0 to |events|
          invariant doc.listeners == before + ListenersFor(events[..i], handler)
          invariant runs == old(runs) + 1
        {
          assert events[..i + 1] == events[..i] + [events[i]];
          doc.AddEventListener(events[i], handler, true);
        }
        assert events[..|events|] == events;
        assert Owned(doc.listeners, id) == Owned(before, id) + ListenersFor(events, handler);
        cleanup := Some(handler);
        active := true;
      }
    }

    /** Disposal of the owning component: the pending cleanup runs and no listener remains. */
    method Dispose()
      requires Valid()
      modifies this`cleanup, this`active, doc
      ensures Valid() && !active
      ensures Owned(doc.listeners, id) == {}
      ensures Others(doc.listeners, id) == Others(old(doc.listeners), id)
    {
      RunCleanup();
    }

    /** This watcher's listeners for one event type: the current handler's, if it listens to that type. */
    lemma ListeningFor(eventType: string)
      requires Valid()
      ensures (set l | l in Owned(doc.listeners, id) && l.eventType == eventType) ==
              (if active && eventType in events then {Listener(eventType, cleanup.value, true)} else {})
    {
    }

    /**
     * The document dispatches an event of `eventType` aimed at `target`: each of this
     * watcher's listeners for that type runs `handleClickOutside`, which decides against
     * the container as it is now. `dismissals` counts the `onClickOutside` calls.
     */
    method Dispatch(eventType: string, target: NodePath) returns (dismissals: nat)
      requires Valid()
      ensures dismissals == if active && eventType in events && IsClickOutside(containerRef, target) then 1 else 0
    {
      var pending := set l | l in Owned(doc.listeners, id) && l.eventType == eventType;
      ghost var listening := pending;
      ListeningFor(eventType);
      dismissals := 0;
      while pending != {}
        invariant pending <= listening
        invariant dismissals + (if IsClickOutside(containerRef, target) then |pending| else 0) ==
                  (if IsClickOutside(containerRef, target) then |listening| else 0)
        decreases |pending|
      {
        var l :| l in pending;
        if IsClickOutside(containerRef, target) {
          dismissals := dismissals + 1;
        }
        pending := pending - {l};
      }
    }
  }

  /** How many listeners of watcher `id` the registry holds. */
  function ListenerCount(doc: Document, id: nat): nat
    reads doc
  {
    |Owned(doc.listeners, id)|
  }

  /** The default registrations of one handler: one for `click`, one for `touchstart`. */
  lemma DefaultListeners(handler: Handler)
    ensures ListenersFor(DefaultEvents, handler) ==
            {Listener("click", handler, true), Listener("touchstart", handler, true)}
    ensures |ListenersFor(DefaultEvents, handler)| == 2
  {
    assert "click" != "touchstart";
  }

  /**
   * A watcher with the default event types whose active flag takes the values in `flags`
   * one after another: however often it toggles, the registry ends with two of its
   * listeners when the last value is `true` and none otherwise.
   */
  method ToggleRepeatedly(flags: seq<bool>) returns (count: nat)
    ensures count == if |flags| > 0 && flags[|flags| - 1] then 2 else 0
  {
    var doc := new Document();
    var watcher := new ClickOutsideWatcher(0, doc, None, false);
    for i := 0 to |flags|
      invariant watcher.Valid() && watcher.doc == doc && watcher.events == DefaultEvents
      invariant watcher.active == (i > 0 && flags[i - 1])
    {
      watcher.Effect(flags[i]);
    }
    if watcher.active {
      DefaultListeners(watcher.cleanup.value);
    }
    count := ListenerCount(doc, 0);
  }

  /**
   * An active watcher with the default event types and a mounted container: an event is
   * reported once when it is a click or a touch outside the container, and never otherwise.
   */
  method ActiveWatcher(container: Container, eventType: string, target: NodePath) returns (calls: nat)
    ensures calls == if eventType in DefaultEvents && IsClickOutside(Some(container), target) then 1 else 0
  {
    var doc := new Document();
    var watcher := new ClickOutsideWatcher(0, doc, None, true);
    watcher.SetContainerRef(Some(container));
    calls := watcher.Dispatch(eventType, target);
  }

  /** An inactive watcher never reports, whatever the container and target. */
  method InactiveWatcher(container: Container, eventType: string, target: NodePath) returns (calls: nat)
    ensures calls == 0
  {
    var doc := new Document();
    var watcher := new ClickOutsideWatcher(0, doc, None, false);
    watcher.SetContainerRef(Some(container));
    calls := watcher.Dispatch(eventType, target);
  }

  /** Before the container is mounted, an active watcher never reports either. */
  method UnmountedWatcher(eventType: string, target: NodePath) returns (calls: nat)
    ensures calls == 0
  {
    var doc := new Document();
    var watcher := new ClickOutsideWatcher(0, doc, None, true);
    calls := watcher.Dispatch(eventType, target);
  }
}
