# Click-to-edit text widget: a Dafny model

This project models the inline click-to-edit text widget of a SolidJS application and the
small state-keeping hooks behind it:

- the **edit-state controller** (`useEditableState`). It has two signals: `isEditing`, and
  `initialValue`, the snapshot of the external value taken when editing starts. It has four
  handlers: click, approve, cancel and key-down. Construction checks both callbacks.
- the **control-placement calculator** (`useDynamicButtonPosition`). It finds the pixel
  offset of the commit/cancel buttons, clamped against overflow and against negative
  results.
- the **click-outside watcher** (`useClickOutside`). It decides whether an event counts as
  a dismissal. It also keeps capture listeners on the document: one per event type while
  active, none otherwise.
- the **widget** (`EditableText`). It wires the watcher to the controller. While editing,
  the watcher is active and its dismissal is `cancelChanges`. The widget renders either the
  label (`value() || placeholder`) or the field with its approve and cancel buttons.
- the **tooltip** (`Tooltip`). It keeps a visibility flag and a pending show timer.

Each source file is one module. State that the source keeps in signals or in `let`
variables becomes a class whose methods change it. The pure expressions become functions.

- Callbacks: `getCurrentValue` and `onChange` are the two operations of a `Consumer`
  object. It is an external value holder, like the application's project store. Either
  callback can be made to fail.
- DOM nodes: a node is its path of steps from the document root. A step goes to a child,
  or into the shadow root hosted at that point.
- Listener registry: the document's listeners are a set of (event type, handler, capture)
  entries, which is how the DOM deduplicates registrations.
- Timers: a pending timer is state. The host running it is an explicit `TimerFires` step.

Short scenario methods build fresh objects and return what they observe. They restate
the repository's own tests and examples for all inputs.

## Model

| member | source | states |
|---|---|---|
| EditableStateHook.Validate | src/hooks/useEditableState.tsx:66-72 | construction succeeds iff both callbacks are functions; a bad `onChange` is reported first, and the `getCurrentValue` error arises exactly when only that one is bad |
| EditableStateHook.OnChangeCalls | src/hooks/useEditableState.tsx:100-104 | approving makes at most one `onChange` call, always with the approved value, and none exactly when the value equals the snapshot |
| EditableStateHook.Consumer.GetCurrentValue | src/hooks/useEditableState.tsx:13-14 | `getCurrentValue()` yields the external value, or fails |
| EditableStateHook.Consumer.OnChange | src/store/projectStore.tsx:7-11 | every `onChange` call is recorded in order; it stores the value unless it throws |
| EditableStateHook.EditableState.constructor | src/hooks/useEditableState.tsx:74-75 | a new controller is not editing and its snapshot is the supplied initial value |
| EditableStateHook.EditableState.HandleClick | src/hooks/useEditableState.tsx:78-95 | on success the snapshot becomes the freshly pulled value and editing starts; if `getCurrentValue` throws, neither field changes |
| EditableStateHook.EditableState.ApproveChanges | src/hooks/useEditableState.tsx:98-112 | afterwards it is not editing, whether or not `onChange` threw; the snapshot is unchanged; `onChange` got exactly the calls `OnChangeCalls` gives |
| EditableStateHook.EditableState.CancelChanges | src/hooks/useEditableState.tsx:114-116 | afterwards it is not editing; the snapshot and the consumer are untouched and `onChange` is not called |
| EditableStateHook.EditableState.HandleKeyDown | src/hooks/useEditableState.tsx:118-132 | Enter is approval of the field's value, Escape is cancellation; any other key, or an error reading the target, changes nothing |
| EditableStateHook.Create | src/hooks/useEditableState.tsx:63-76 | `useEditableState` fails with exactly the validation error, otherwise yields a fresh controller that is viewing with the given initial value |
| ButtonPositionHook.RootFontSize | src/hooks/useDynamicButtonPosition.tsx:59-68 | the root font size is the parsed value, or 16px when parsing gives NaN or the lookup throws |
| ButtonPositionHook.Placement | src/hooks/useDynamicButtonPosition.tsx:84-96 | the position is never negative; when the buttons fit it is `textWidth + offset`, or 0 if that is negative; on overflow it is `max(0, containerWidth - buttonWidth)`; and whenever `containerWidth >= buttonWidth` the buttons end inside the container |
| ButtonPositionHook.ButtonPosition.constructor | src/hooks/useDynamicButtonPosition.tsx:49-68 | `buttonX` starts at 0; the sizes default to 4rem and 1.25rem; the root font size is measured once, with the fallback |
| ButtonPositionHook.ButtonPosition.UpdatePosition | src/hooks/useDynamicButtonPosition.tsx:70-99 | with no container `buttonX` keeps its previous value, otherwise it becomes `Placement` of the measured widths converted from rem |
| ButtonPositionHook.PinnedPositions | src/hooks/useDynamicButtonPosition.test.tsx:36-159 | with a 16px font: text 100 in 300 gives 120; custom 2rem/0.5rem gives 58; text 250 overflows to 236; text -10 gives 10; text -50 with no offset clamps to 0; a missing container leaves 0 |
| ButtonPositionHook.FontFallbackPosition | src/hooks/useDynamicButtonPosition.test.tsx:161-185 | when the font size cannot be read, the default layout still places the buttons at 120 |
| ClickOutsideHook.OutsideIffNotWithin | src/hooks/useClickOutside.tsx:60-73 | for a mounted container, an event dismisses iff its target is in neither the container's subtree nor its shadow root's subtree |
| ClickOutsideHook.IsClickOutside | src/hooks/useClickOutside.tsx:60-67 | with no container nothing dismisses; a target in the container, or in its shadow root when it has one, never dismisses; without a shadow root an event dismisses iff its target is not in the container |
| ClickOutsideHook.ListenersFor | src/hooks/useClickOutside.tsx:77-79 | the registrations of one handler are exactly one capture listener per configured event type |
| ClickOutsideHook.Document.AddEventListener | src/hooks/useClickOutside.tsx:78 | registering adds the (type, handler, capture) entry once, however often it is added |
| ClickOutsideHook.Document.RemoveEventListener | src/hooks/useClickOutside.tsx:83 | removal takes out exactly the matching entry |
| ClickOutsideHook.ClickOutsideWatcher.constructor | src/hooks/useClickOutside.tsx:47-56 | the container starts unset; events default to `click` and `touchstart`; the first effect run leaves the registry valid for the given flag; other listeners are untouched |
| ClickOutsideHook.ClickOutsideWatcher.SetContainerRef | src/hooks/useClickOutside.tsx:50-52 | the container signal takes the given element |
| ClickOutsideHook.ClickOutsideWatcher.RunCleanup | src/hooks/useClickOutside.tsx:81-88 | the cleanup removes every listener of the current handler and leaves none of this watcher's and all of everyone else's |
| ClickOutsideHook.ClickOutsideWatcher.Effect | src/hooks/useClickOutside.tsx:56-90 | each run cleans up the previous run; when active it registers a fresh handler once per event type; the registry then holds exactly those listeners while active and none while inactive; others are untouched |
| ClickOutsideHook.ClickOutsideWatcher.Dispose | src/hooks/useClickOutside.tsx:81-88 | on disposal no listener of this watcher remains |
| ClickOutsideHook.ClickOutsideWatcher.ListeningFor | src/hooks/useClickOutside.tsx:77-79 | for any event type, the watcher has exactly the current handler's listener when active and listening to that type, and none otherwise |
| ClickOutsideHook.ClickOutsideWatcher.Dispatch | src/hooks/useClickOutside.tsx:60-74 | an event calls `onClickOutside` exactly once if the watcher is active, listens to that type and the target is outside the mounted container; otherwise zero times |
| ClickOutsideHook.DefaultListeners | src/hooks/useClickOutside.tsx:54 | with the default event types a handler has exactly two listeners, `click` and `touchstart` |
| ClickOutsideHook.ToggleRepeatedly | src/hooks/useClickOutside.tsx:56-90 | however the active flag toggles, the registry ends with two of the watcher's listeners if the last value was true and none otherwise |
| ClickOutsideHook.ActiveWatcher | src/hooks/useClickOutside.test.tsx:7-54 | an active, mounted watcher reports a click or touch once when it lands outside (shadow root included) and never when it lands inside |
| ClickOutsideHook.InactiveWatcher | src/hooks/useClickOutside.test.tsx:56-78 | an inactive watcher never reports |
| ClickOutsideHook.UnmountedWatcher | src/hooks/useClickOutside.tsx:61-65 | with no container yet, no event is reported |
| EditableTextWidget.ApproveValue | src/components/base/editableText/EditableText.tsx:37-41 | approval passes the field's value, and "" exactly when there is no field or its value is empty |
| EditableTextWidget.LabelText | src/components/base/editableText/EditableText.tsx:67-69 | the label shows the value when it is non-empty, otherwise the placeholder (nothing when there is none) |
| EditableTextWidget.ButtonsShown | src/components/base/editableText/EditableText.tsx:55 | the buttons are shown unless `showButtons` is exactly `false` |
| EditableTextWidget.BelowContainer | src/components/base/editableText/EditableText.tsx:43-64 | the field and the buttons, rendered inside the container, lie inside it |
| EditableTextWidget.EditableText.Rendered | src/components/base/editableText/EditableText.tsx:43-70 | while editing, the field with its current text, and buttons unless `showButtons` is `false`; while viewing, the label showing the value when non-empty, else the placeholder; a failing read of the value makes the render throw |
| EditableTextWidget.EditableText.constructor | src/components/base/editableText/EditableText.tsx:15-35 | the controller is seeded with `props.value()`; the widget starts viewing; the watcher starts inactive and mounted on the container |
| EditableTextWidget.EditableText.SyncWatcher | src/components/base/editableText/EditableText.tsx:32-35 | after each change the watcher is active exactly while the controller is editing; other watchers' listeners on the document are untouched |
| EditableTextWidget.EditableText.ClickLabel | src/components/base/editableText/EditableText.tsx:45-69 | clicking the label enters editing; the snapshot and the field both show the freshly pulled value; if the pull fails, nothing changes; other watchers' listeners on the document are untouched |
| EditableTextWidget.EditableText.Type | src/components/base/editableText/EditableText.tsx:47-54 | while editing the field takes the typed text |
| EditableTextWidget.EditableText.KeyDown | src/components/base/editableText/EditableText.tsx:51 | in the field, Enter approves the field's text and Escape cancels; nothing else changes the controller or the consumer; other watchers' listeners on the document are untouched |
| EditableTextWidget.EditableText.PointerEvent | src/components/base/editableText/EditableText.tsx:32-35 | a click or touch outside the container while editing cancels without calling `onChange`; any other event changes nothing; other watchers' listeners on the document are untouched |
| EditableTextWidget.EditableText.ClickApprove | src/components/base/editableText/EditableText.tsx:55-59 | the first button approves the field's value through `handleApprove`; it is there only while editing with buttons shown; other watchers' listeners on the document are untouched |
| EditableTextWidget.EditableText.ClickCancel | src/components/base/editableText/EditableText.tsx:60-62 | the second button cancels; it is there only while editing with buttons shown; other watchers' listeners on the document are untouched |
| EditableTextWidget.EditableText.ExternalChange | src/components/base/editableText/EditableText.tsx:26-29 | the value behind the `props.value` accessor changes; no `onChange` call is made, the consumer's failure modes stay, and the widget's wiring stays valid |
| EditableTextWidget.CancelKeepsDisplay | src/components/base/editableText/EditableText.test.tsx:102-166 | click, type anything, then Escape, the cancel button or an outside click: the display is as before and `onChange` is never called |
| EditableTextWidget.CommitThenReedit | src/components/base/editableText/EditableText.test.tsx:274-317 | starting from `s1`, commit `s2 != s1` by Enter or button: `onChange(s2)` is called once and the label shows `s2`; re-editing seeds the field with `s2` |
| EditableTextWidget.UnchangedCommit | src/components/base/editableText/EditableText.test.tsx:171-192 | committing the untouched field calls `onChange` zero times for any value, "" included, and ends viewing |
| EditableTextWidget.FailingOnChange | src/hooks/useEditableState.test.tsx:228-258 | a throwing `onChange` is called once and the widget still returns to viewing, showing the old value |
| EditableTextWidget.InsideClickKeepsEditing | src/components/base/editableText/EditableText.test.tsx:247-271 | a click or touch on the field inside the widget leaves it editing with the typed text |
| EditableTextWidget.EditSurvivesExternalChange | src/hooks/useEditableState.tsx:78-82 | an external change while editing clobbers neither the field nor the snapshot |
| EditableTextWidget.ButtonsSwitchedOff | src/components/base/editableText/EditableText.tsx:55-64 | with `showButtons` false the editor has no buttons, and clicks where they would be do nothing |
| EditableTextWidget.Session | src/components/base/editableText/EditableText.tsx:32-35 | over any sequence of user and external events, the document holds two watcher listeners while editing and none while viewing, and `onChange` has been called at most once per commit event, so never in a session without one |
| TooltipWidget.PositionOrDefault | src/components/base/tooltip/Tooltip.tsx:13 | the position defaults to top |
| TooltipWidget.DelayOrDefault | src/components/base/tooltip/Tooltip.tsx:14 | the delay defaults to 0 |
| TooltipWidget.Tooltip.constructor | src/components/base/tooltip/Tooltip.tsx:12-15 | the tooltip starts hidden with no timer, position and delay defaulted |
| TooltipWidget.Tooltip.AtMostOnePending | src/components/base/tooltip/Tooltip.tsx:18-22 | at most one show is ever pending |
| TooltipWidget.Tooltip.ClearPending | src/components/base/tooltip/Tooltip.tsx:18 | clearing the remembered timer leaves no show pending |
| TooltipWidget.Tooltip.MouseEnter | src/components/base/tooltip/Tooltip.tsx:17-24 | a pending show is cancelled first; delay 0 shows at once; otherwise visibility is unchanged and exactly one fresh timer is pending |
| TooltipWidget.Tooltip.MouseLeave | src/components/base/tooltip/Tooltip.tsx:26-29 | no show stays pending and the tooltip is hidden |
| TooltipWidget.Tooltip.TimerFires | src/components/base/tooltip/Tooltip.tsx:22 | a pending timer firing shows the tooltip; a cleared or spent one changes nothing |
| TooltipWidget.ImmediateShow | src/components/base/tooltip/Tooltip.test.tsx:74-82 | the tooltip starts hidden, and entering with delay 0 shows it immediately |
| TooltipWidget.DelayedShow | src/components/base/tooltip/Tooltip.test.tsx:84-98 | with a non-zero delay it is hidden after entering and visible once the timer fires |
| TooltipWidget.LeaveCancelsShow | src/components/base/tooltip/Tooltip.tsx:26-29 | leaving before the timer fires means the cancelled timer never shows it |
| TooltipWidget.ReenterSupersedes | src/components/base/tooltip/Tooltip.tsx:18-22 | entering again cancels the first timer; only the second can show the tooltip |

## Left out

- Focus and caret placement. After entering editing, `handleClick` requests an animation
  frame that focuses the field and puts the caret at the end. This is deferred DOM work and
  is not modelled.
- Computed style and `parseFloat`. Reading the computed style of the document element and
  parsing it are replaced by an optional measured font size, where `None` means NaN or a
  throwing lookup. Infinite or negative parses are not distinguished.
- Pixel arithmetic is exact (`real`), not IEEE doubles.
- DOM event propagation (phases, bubbling, retargeting across shadow boundaries) is
  abstracted. An event reaches the watcher's capture listeners with its target as given.
  `Node.contains` is path prefix without crossing a shadow root.
- Logging is not modelled: development-only `console.*` calls and the diagnostic reports
  of swallowed errors.
- SolidJS reactivity is reduced to its effect here. The watcher's effect re-runs when
  `isEditing` changes value, and the label reads the live external value.
- Timers are not modelled in time. Only which timers are pending and the order of events
  matter; a delay that is NaN is not modelled (delays are integers).
- Returned setters are not modelled. The controller hands out `setIsEditing`, `inputRef`
  and `setInputRef`, which the widget only uses to capture the field element. The hook's
  `placeholder` option is accepted but never read by the hook.
- EditableTextWidget.EditableText.constructor: it requires that reading the value does
  not throw while the widget is created, because the source lets such an error escape
  and the widget then never exists.
- `preventDefault()` on Enter and Escape (src/hooks/useEditableState.tsx:123,126) is not
  modelled: the model has no browser default actions to suppress.
- Props are fixed when a component is created. The source reads `props.position` and
  `props.delay` of the tooltip, and `props.showButtons` and `props.placeholder` of the
  widget, live on each use; a parent changing them later is not modelled. The widget's
  `props.value` is the exception: it is read live through the consumer.
- The widget always hands `Create` two callable callbacks. The source would throw at creation
  if `props.onChange` were not a function, but the widget's prop types rule that out.
- Presentation is not modelled: CSS classes, the tooltip's content, icons, and the button
  and input wrappers.
- The widget does not measure text or place its buttons. Its source never calls the
  placement calculator, so that wiring is not part of this model. The calculator is
  modelled on its own.
- The root font size is measured once, when the calculator is created (a memo with no
  dependencies). It is not re-read on every call.
- The calculator's bound `buttonX + buttonWidth <= containerWidth` holds only when the
  container is at least as wide as the buttons. Otherwise the result is 0 and the
  buttons overflow.
