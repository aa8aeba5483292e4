/**
 * The click-to-edit widget (`EditableText`): one edit-state controller, one click-outside
 * watcher whose active flag is the controller's `isEditing` and whose dismissal is
 * `cancelChanges`, and the markup that shows either a label or an input with buttons.
 *
 * Rendered layout, as paths below the container `<div>`: while viewing, the label `<p>` is
 * child 0; while editing, the `<input>` is child 0 and the buttons `<div>` child 1, holding
 * the approve button (child 0) and the cancel button (child 1).
 */
module EditableTextWidget {
  import opened Wrappers
  import opened EditableStateHook
  import opened ClickOutsideHook

  /** `inputRef()?.value || ""`: the field's value, or "" when there is none or it is empty. */
  function ApproveValue(inputValue: Option<string>): (v: string)
    ensures inputValue.Some? ==> v == inputValue.value
    ensures v == "" <==> inputValue.None? || inputValue == Some("")
  {
    match inputValue
    case Some(s) => if s != "" then s else ""
    case None => ""
  }

  /** `props.value() || props.placeholder`: the value when non-empty, else the placeholder (nothing when absent). */
  function LabelText(value: string, placeholder: Option<string>): (text: string)
    ensures value != "" ==> text == value
    ensures value == "" ==> text == placeholder.GetOr("")
  {
    if value != "" then value else placeholder.GetOr("")
  }

  /** `props.showButtons !== false`: the buttons are shown unless explicitly switched off. */
  function ButtonsShown(showButtons: Option<bool>): (shown: bool)
    ensures shown <==> showButtons != Some(false)
  {
    match showButtons
    case Some(b) => b
    case None => true
  }

  /** What is on screen: the label, or the field with (or without) its buttons. */
  datatype View = Label(text: string) | Editor(fieldValue: string, buttons: bool)

  function InputNode(c: Container): NodePath { c.node + [Child(0)] }
  function ApproveButtonNode(c: Container): NodePath { c.node + [Child(1), Child(0)] }
  function CancelButtonNode(c: Container): NodePath { c.node + [Child(1), Child(1)] }

  /** A node reached from the container through light-DOM children only lies inside it. */
  lemma {:induction false} BelowContainer(c: Container, steps: seq<Step>)
    requires ShadowRoot !in steps
    ensures Contains(c.node, c.node + steps)
  {
    assert (c.node + steps)[|c.node|..] == steps;
  }

  class EditableText {
    const consumer: Consumer
    const hook: EditableState
    const watcher: ClickOutsideWatcher
    const doc: Document
    const container: Container
    const placeholder: Option<string>
    const showButtons: Option<bool>
    /** The `<input>` element's current value, meaningful while editing. */
    var field: string

    /**
     * The wiring: the controller talks to this widget's consumer, the watcher is mounted on
     * the container with the default event types, and it is active exactly while editing.
     */
    ghost predicate Valid()
      reads this, hook, watcher, doc
    {
      && hook.options == consumer
      && watcher.doc == doc
      && watcher.Valid()
      && watcher.events == DefaultEvents
      && watcher.containerRef == Some(container)
      && watcher.active == hook.isEditing
    }

    /**
     * What the widget renders in its current state, or `None` when rendering throws: the
     * label reads `props.value()` unguarded, so a failing read escapes the render.
     */
    function Rendered(): (v: Option<View>)
      reads this, hook, consumer
      ensures v.None? <==> !hook.isEditing && consumer.readFails
      ensures hook.isEditing ==> v.Some? && v.value.Editor? && v.value.fieldValue == field
      ensures hook.isEditing ==> (v.value.buttons <==> showButtons != Some(false))
      ensures !hook.isEditing && !consumer.readFails ==> v.Some? && v.value.Label?
      ensures !hook.isEditing && !consumer.readFails && consumer.value != "" ==> v.value.text == consumer.value
      ensures !hook.isEditing && !consumer.readFails && consumer.value == "" ==> v.value.text == placeholder.GetOr("")
    {
      if hook.isEditing then Some(Editor(field, ButtonsShown(showButtons)))
      else if consumer.readFails then None
      else Some(Label(LabelText(consumer.value, placeholder)))
    }

    /**
     * Mounting: the controller is seeded with `props.value()`, the watcher starts inactive,
     * and the container `<div>` is handed to it once rendered.
     */
    constructor(consumer: Consumer, doc: Document, id: nat, container: Container,
                placeholder: Option<string>, showButtons: Option<bool>)
      requires !consumer.readFails
      requires Owned(doc.listeners, id) == {}
      modifies doc
      ensures Valid() && fresh(hook) && fresh(watcher)
      ensures this.consumer == consumer && this.doc == doc && this.container == container
      ensures this.placeholder == placeholder && this.showButtons == showButtons
      ensures !hook.isEditing && hook.initialValue == consumer.value
      ensures watcher.id == id && Others(doc.listeners, id) == Others(old(doc.listeners), id)
    {
      var current := consumer.GetCurrentValue();
      var created := Create(Options(current.value, Callable, Callable), consumer);
      hook := created.value;
      var clickOutside := new ClickOutsideWatcher(id, doc, None, false);
      clickOutside.SetContainerRef(Some(container));
      watcher := clickOutside;
      this.consumer := consumer;
      this.doc := doc;
      this.container := container;
      this.placeholder := placeholder;
      this.showButtons := showButtons;
      field := current.value;
    }

    /** The watcher's effect re-runs whenever `isEditing` has changed since its last run. */
    method SyncWatcher()
      requires hook.options == consumer && watcher.doc == doc && watcher.Valid()
      requires watcher.events == DefaultEvents && watcher.containerRef == Some(container)
      modifies watcher`cleanup, watcher`active, watcher`runs, doc
      ensures Valid()
      ensures Others(doc.listeners, watcher.id) == Others(old(doc.listeners), watcher.id)
    {
      if watcher.active != hook.isEditing {
        watcher.Effect(hook.isEditing);
      }
    }

    /** A click on the label enters editing, with the field showing the freshly pulled value. */
    method ClickLabel()
      requires Valid()
      modifies this, hook, watcher, doc
      ensures Valid()
      ensures Others(doc.listeners, watcher.id) == Others(old(doc.listeners), watcher.id)
      ensures old(hook.isEditing) || consumer.readFails ==>
                hook.isEditing == old(hook.isEditing) && hook.initialValue == old(hook.initialValue) && field == old(field)
      ensures !old(hook.isEditing) && !consumer.readFails ==>
                hook.isEditing && hook.initialValue == consumer.value && field == consumer.value
    {
      if !hook.isEditing {
        // nothing listens on the document while viewing, so the click goes straight to the label
        hook.HandleClick();
        if hook.isEditing {
          field := hook.initialValue;
        }
        SyncWatcher();
      }
      // while editing no label is rendered, so there is nothing to click
    }

    /** The user edits the field's text. */
    method Type(text: string)
      requires Valid()
      modifies this`field
      ensures Valid()
      ensures field == if hook.isEditing then text else old(field)
    {
      if hook.isEditing {
        field := text;
      }
    }

    /** A key pressed in the field: Enter commits the field's text, Escape cancels. */
    method KeyDown(key: string)
      requires Valid()
      modifies hook, consumer, watcher, doc
      ensures Valid()
      ensures Others(doc.listeners, watcher.id) == Others(old(doc.listeners), watcher.id)
      ensures old(hook.isEditing) && key == "Enter" ==> hook.Approved(field)
      ensures old(hook.isEditing) && key == "Escape" ==> hook.Cancelled()
      ensures !old(hook.isEditing) || (key != "Enter" && key != "Escape") ==>
                hook.isEditing == old(hook.isEditing) && unchanged(hook, consumer)
    {
      if hook.isEditing {
        hook.HandleKeyDown(key, Target(Some(field)));
        SyncWatcher();
      }
    }

    /**
     * Pointer or touch activity at `target`: the document hands it to the watcher's
     * listeners, and a dismissal cancels the edit (cancelling more than once is the same
     * as once).
     */
    method PointerEvent(eventType: string, target: NodePath)
      requires Valid()
      modifies hook, watcher, doc
      ensures Valid()
      ensures Others(doc.listeners, watcher.id) == Others(old(doc.listeners), watcher.id)
      ensures old(hook.isEditing) && eventType in DefaultEvents && IsClickOutside(Some(container), target) ==>
                hook.Cancelled()
      ensures !(old(hook.isEditing) && eventType in DefaultEvents && IsClickOutside(Some(container), target)) ==>
                unchanged(hook, watcher, doc)
    {
      var dismissals := watcher.Dispatch(eventType, target);
      if dismissals > 0 {
        hook.CancelChanges();
        SyncWatcher();
      }
    }

    /** A click on the approve button: it lies inside the container, then `handleApprove` runs. */
    method ClickApprove()
      requires Valid()
      modifies hook, consumer, watcher, doc
      ensures Valid()
      ensures Others(doc.listeners, watcher.id) == Others(old(doc.listeners), watcher.id)
      ensures old(hook.isEditing) && ButtonsShown(showButtons) ==> hook.Approved(ApproveValue(Some(field)))
      ensures !(old(hook.isEditing) && ButtonsShown(showButtons)) ==> unchanged(hook, consumer)
    {
      if hook.isEditing && ButtonsShown(showButtons) {
        BelowContainer(container, [Child(1), Child(0)]);
        PointerEvent("click", ApproveButtonNode(container));
        hook.ApproveChanges(ApproveValue(Some(field)));
        SyncWatcher();
      }
    }

    /** A click on the cancel button: it lies inside the container, then `cancelChanges` runs. */
    method ClickCancel()
      requires Valid()
      modifies hook, watcher, doc
      ensures Valid()
      ensures Others(doc.listeners, watcher.id) == Others(old(doc.listeners), watcher.id)
      ensures old(hook.isEditing) && ButtonsShown(showButtons) ==> hook.Cancelled()
      ensures !(old(hook.isEditing) && ButtonsShown(showButtons)) ==> unchanged(hook)
    {
      if hook.isEditing && ButtonsShown(showButtons) {
        BelowContainer(container, [Child(1), Child(1)]);
        PointerEvent("click", CancelButtonNode(container));
        hook.CancelChanges();
        SyncWatcher();
      }
    }

    /** The external value changes under the widget; an edit in progress is not touched. */
    method ExternalChange(v: string)
      requires Valid()
      modifies consumer
      ensures Valid()
      ensures consumer.value == v && consumer.received == old(consumer.received)
      ensures consumer.readFails == old(consumer.readFails) && consumer.changeFails == old(consumer.changeFails)
    {
      consumer.ExternalChange(v);
    }
  }

  /** How an edit is abandoned: Escape, the cancel button, or a click outside the widget. */
  datatype Dismissal = EscapeKey | CancelButton | OutsideClick

  /** A widget mounted at `[Child(0)]` in a fresh document, seeded with `value`. */
  method Mount(value: string, placeholder: Option<string>, showButtons: Option<bool>) returns (w: EditableText)
    ensures fresh(w) && fresh(w.consumer) && fresh(w.doc) && w.Valid()
    ensures w.consumer.value == value && w.consumer.received == []
    ensures !w.consumer.readFails && !w.consumer.changeFails
    ensures !w.hook.isEditing && w.hook.initialValue == value
    ensures w.container == Container([Child(0)], false)
    ensures w.placeholder == placeholder && w.showButtons == showButtons
  {
    var consumer := new Consumer(value);
    var doc := new Document();
    w := new EditableText(consumer, doc, 0, Container([Child(0)], false), placeholder, showButtons);
  }

  /**
   * Click, type anything, then abandon the edit: the display is as before and `onChange`
   * was never called.
   */
  method CancelKeepsDisplay(value: string, typed: string, placeholder: Option<string>, how: Dismissal)
    returns (before: Option<View>, after: Option<View>, calls: seq<string>)
    ensures before.Some? && after == before && calls == []
  {
    var w := Mount(value, placeholder, None);
    before := w.Rendered();
    w.ClickLabel();
    w.Type(typed);
    match how {
      case EscapeKey => w.KeyDown("Escape");
      case CancelButton => w.ClickCancel();
      case OutsideClick =>
        assert [Child(0)][0] != [Child(1)][0];
        w.PointerEvent("click", [Child(1)]);
    }
    after := w.Rendered();
    calls := w.consumer.received;
  }

  /**
   * Click with `s1` showing, change the field to `s2 != s1` and commit (Enter or the
   * approve button): `onChange(s2)` is called once, the label shows `s2`, and clicking again
   * seeds the field with `s2`, not `s1`.
   */
  method CommitThenReedit(s1: string, s2: string, viaButton: bool)
    returns (calls: seq<string>, shown: Option<View>, reseeded: string)
    requires s1 != s2
    ensures calls == [s2] && shown == Some(Label(LabelText(s2, None))) && reseeded == s2
  {
    var w := Mount(s1, None, None);
    w.ClickLabel();
    w.Type(s2);
    if viaButton {
      w.ClickApprove();
    } else {
      w.KeyDown("Enter");
    }
    calls := w.consumer.received;
    shown := w.Rendered();
    w.ClickLabel();
    reseeded := w.field;
  }

  /** Committing the untouched field, whatever the value (the empty string included), calls `onChange` zero times. */
  method UnchangedCommit(value: string, viaButton: bool) returns (calls: seq<string>, editing: bool)
    ensures calls == [] && !editing
  {
    var w := Mount(value, None, None);
    w.ClickLabel();
    if viaButton {
      w.ClickApprove();
    } else {
      w.KeyDown("Enter");
    }
    calls := w.consumer.received;
    editing := w.hook.isEditing;
  }

  /** A throwing `onChange` is still called once, and the widget still returns to viewing the old value. */
  method FailingOnChange(s1: string, s2: string) returns (calls: seq<string>, after: Option<View>)
    requires s1 != s2
    ensures calls == [s2] && after == Some(Label(LabelText(s1, None)))
  {
    var w := Mount(s1, None, None);
    w.consumer.SetFailures(false, true);
    w.ClickLabel();
    w.Type(s2);
    w.KeyDown("Enter");
    calls := w.consumer.received;
    after := w.Rendered();
  }

  /** A click or touch on the field itself, inside the widget, does not end the edit. */
  method InsideClickKeepsEditing(value: string, typed: string, eventType: string) returns (editing: bool, view: Option<View>)
    ensures editing && view == Some(Editor(typed, true))
  {
    var w := Mount(value, None, None);
    w.ClickLabel();
    w.Type(typed);
    BelowContainer(w.container, [Child(0)]);
    w.PointerEvent(eventType, InputNode(w.container));
    editing := w.hook.isEditing;
    view := w.Rendered();
  }

  /** The external value changing mid-edit clobbers neither the field nor the snapshot. */
  method EditSurvivesExternalChange(s1: string, typed: string, s2: string) returns (field: string, snapshot: string)
    ensures field == typed && snapshot == s1
  {
    var w := Mount(s1, None, None);
    w.ClickLabel();
    w.Type(typed);
    w.ExternalChange(s2);
    field := w.field;
    snapshot := w.hook.initialValue;
  }

  /** With `showButtons` false the buttons are not rendered and clicking where they would be does nothing. */
  method ButtonsSwitchedOff(value: string, typed: string) returns (view: Option<View>, stillEditing: bool)
    ensures view == Some(Editor(typed, false)) && stillEditing
  {
    var w := Mount(value, None, Some(false));
    w.ClickLabel();
    w.Type(typed);
    view := w.Rendered();
    w.ClickApprove();
    w.ClickCancel();
    stillEditing := w.hook.isEditing;
  }

  /** Everything that can happen to a mounted widget. */
  datatype UiEvent =
    | LabelClick
    | Typing(text: string)
    | Key(key: string)
    | ApproveClick
    | CancelClick
    | Pointer(eventType: string, target: NodePath)
    | External(value: string)
    | Failures(readFails: bool, changeFails: bool)

  /** Whether an event can commit: Enter in the field, or the approve button. */
  predicate IsCommit(e: UiEvent) {
    e == Key("Enter") || e == ApproveClick
  }

  /** How many events of `events` can commit. */
  function CommitCount(events: seq<UiEvent>): (n: nat)
    ensures n <= |events|
    ensures n == 0 <==> forall i :: 0 <= i < |events| ==> !IsCommit(events[i])
  {
    if events == [] then 0
    else CommitCount(events[..|events| - 1]) + (if IsCommit(events[|events| - 1]) then 1 else 0)
  }

  /**
   * Any session on a freshly mounted widget: at every point the document holds two of the
   * watcher's listeners (click and touchstart) while editing and none while viewing, and
   * `onChange` has been called at most once per commit event.
   */
  method Session(value: string, events: seq<UiEvent>) returns (editing: bool, listeners: nat, calls: seq<string>)
    ensures listeners == if editing then 2 else 0
    ensures |calls| <= CommitCount(events)
    ensures (forall i :: 0 <= i < |events| ==> !IsCommit(events[i])) ==> calls == []
  {
    var w := Mount(value, None, None);
    for i := 0 to |events|
      invariant w.Valid()
      invariant |w.consumer.received| <= CommitCount(events[..i])
    {
      assert events[..i + 1][..i] == events[..i];
      match events[i] {
        case LabelClick => w.ClickLabel();
        case Typing(text) => w.Type(text);
        case Key(key) => w.KeyDown(key);
        case ApproveClick => w.ClickApprove();
        case CancelClick => w.ClickCancel();
        case Pointer(eventType, target) => w.PointerEvent(eventType, target);
        case External(v) => w.ExternalChange(v);
        case Failures(readFails, changeFails) => w.consumer.SetFailures(readFails, changeFails);
      }
    }
    assert events[..|events|] == events;
    editing := w.hook.isEditing;
    if editing {
      DefaultListeners(w.watcher.cleanup.value);
    }
    listeners := ListenerCount(w.doc, w.watcher.id);
    calls := w.consumer.received;
  }
}
