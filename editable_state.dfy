/**
 * The edit-state controller behind the click-to-edit widget (`useEditableState`).
 *
 * Two signals make up its state: `isEditing` (viewing or editing) and `initialValue`,
 * the snapshot of the external value taken when editing starts. The external value is
 * reached only through two callbacks, `getCurrentValue` and `onChange`; here they are
 * the two operations of a `Consumer` object, each of which may fail (throw).
 */
module EditableStateHook {
  import opened Wrappers

  /** What `typeof` says about a callback option: only a function passes validation. */
  datatype CallbackValue = Callable | NotCallable

  /** The two construction-time errors, one per callback option. */
  datatype ConfigError = OnChangeNotFunction | GetCurrentValueNotFunction

  /**
   * What a key event's `currentTarget` turns out to be: reading it throws, or it is an
   * element whose `value` can be read (`Some`) or cannot (`None`, e.g. a null target).
   */
  datatype KeyTarget = ThrowingTarget | Target(value: Option<string>)

  /** The options object the controller is created from (its callbacks seen only through `typeof`). */
  datatype Options = Options(initialValue: string, onChange: CallbackValue, getCurrentValue: CallbackValue)

  /**
   * Construction-time validation: `onChange` is checked before `getCurrentValue`, so when
   * both are wrong the error names `onChange`.
   */
  function Validate(onChange: CallbackValue, getCurrentValue: CallbackValue): (err: Option<ConfigError>)
    ensures err.None? <==> onChange.Callable? && getCurrentValue.Callable?
    ensures onChange.NotCallable? ==> err == Some(OnChangeNotFunction)
    ensures err == Some(GetCurrentValueNotFunction) <==> onChange.Callable? && getCurrentValue.NotCallable?
  {
    if onChange.NotCallable? then Some(OnChangeNotFunction)
    else if getCurrentValue.NotCallable? then Some(GetCurrentValueNotFunction)
    else None
  }

  /**
   * The `onChange` invocations that approving `value` makes when the snapshot is
   * `initialValue`: one call, with `value`, exactly when the two differ; none otherwise.
   */
  function OnChangeCalls(initialValue: string, value: string): (calls: seq<string>)
    ensures |calls| <= 1
    ensures calls == [] <==> value == initialValue
    ensures forall c :: c in calls ==> c == value
  {
    if initialValue != value then [value] else []
  }

  /**
   * The external value the controller reads and writes: `GetCurrentValue` and `OnChange`
   * are the `getCurrentValue` and `onChange` callbacks. `OnChange` records every value it
   * is called with in `received` and stores it in `value`, unless it fails; the two
   * failure flags say whether the callbacks currently throw.
   */
  class Consumer {
    var value: string
    var received: seq<string>
    var readFails: bool
    var changeFails: bool

    constructor(value: string)
      ensures this.value == value && received == []
      ensures !readFails && !changeFails
    {
      this.value := value;
      received := [];
      readFails, changeFails := false, false;
    }

    /** Makes the callbacks throw (or stop throwing) from now on. */
    method SetFailures(readFails: bool, changeFails: bool)
      modifies this
      ensures this.readFails == readFails && this.changeFails == changeFails
      ensures value == old(value) && received == old(received)
    {
      this.readFails, this.changeFails := readFails, changeFails;
    }

    /** Someone other than the controller changes the external value. */
    method ExternalChange(v: string)
      modifies this
      ensures value == v
      ensures received == old(received) && readFails == old(readFails) && changeFails == old(changeFails)
    {
      value := v;
    }

    /** `getCurrentValue()`: the stored value, or `None` when the call throws. */
    method GetCurrentValue() returns (r: Option<string>)
      ensures r == if readFails then None else Some(value)
    {
      r := if readFails then None else Some(value);
    }

    /** `onChange(v)`: the call is made (and recorded) either way; `threw` says it failed before storing. */
    method OnChange(v: string) returns (threw: bool)
      modifies this
      ensures received == old(received) + [v]
      ensures threw == changeFails
      ensures value == if changeFails then old(value) else v
      ensures readFails == old(readFails) && changeFails == old(changeFails)
    {
      received := received + [v];
      threw := changeFails;
      if !threw {
        value := v;
      }
    }
  }

  /** The controller: one `isEditing`/`initialValue` pair bound to its consumer. */
  class EditableState {
    const options: Consumer
    var isEditing: bool
    var initialValue: string

    /** After construction the controller is viewing, with the supplied initial value as snapshot. */
    constructor(initialValue: string, options: Consumer)
      ensures this.options == options
      ensures !isEditing && this.initialValue == initialValue
    {
      this.options := options;
      isEditing := false;
      this.initialValue := initialValue;
    }

    /** `handleClick`: pull the current value; on success snapshot it and enter editing, on failure change nothing. */
    method HandleClick()
      modifies this
      ensures options.readFails ==> isEditing == old(isEditing) && initialValue == old(initialValue)
      ensures !options.readFails ==> isEditing && initialValue == options.value
    {
      var current := options.GetCurrentValue();
      if current.Some? {
        initialValue := current.value;
        isEditing := true;
      }
      // a failing getCurrentValue is reported and swallowed: nothing changes
    }

    /**
     * Both sides of what `approveChanges(value)` does: back to viewing with the snapshot
     * kept, `onChange` called with `value` exactly when it differs from the snapshot, and
     * the consumer left as that call (if any) leaves it.
     */
    twostate predicate Approved(value: string)
      reads this, options
    {
      && !isEditing
      && initialValue == old(initialValue)
      && options.received == old(options.received) + OnChangeCalls(old(initialValue), value)
      && options.value == (if value != old(initialValue) && !old(options.changeFails) then value else old(options.value))
      && options.readFails == old(options.readFails)
      && options.changeFails == old(options.changeFails)
    }

    /** What `cancelChanges()` does: back to viewing, snapshot kept, consumer untouched. */
    twostate predicate Cancelled()
      reads this, options
    {
      && !isEditing
      && initialValue == old(initialValue)
      && options.value == old(options.value)
      && options.received == old(options.received)
      && options.readFails == old(options.readFails)
      && options.changeFails == old(options.changeFails)
    }

    /** `approveChanges(value)`: leaves editing whether or not `onChange` throws. */
    method ApproveChanges(value: string)
      modifies this, options
      ensures Approved(value)
    {
      var current := initialValue;
      if current != value {
        var threw := options.OnChange(value);
        if threw {
          // the error is reported; editing is left all the same
          isEditing := false;
          return;
        }
      }
      isEditing := false;
    }

    /** `cancelChanges()`: leaves editing without calling `onChange`. */
    method CancelChanges()
      modifies this
      ensures Cancelled()
    {
      isEditing := false;
    }

    /**
     * `handleKeyDown`: Enter approves the field's value, Escape cancels, any other key does
     * nothing. An error while reading the event's target is reported and swallowed with
     * nothing changed: reading `currentTarget` happens first, for every key; reading its
     * `value` happens only on Enter.
     */
    method HandleKeyDown(key: string, target: KeyTarget)
      modifies this, options
      ensures target.Target? && target.value.Some? && key == "Enter" ==> Approved(target.value.value)
      ensures target.Target? && key == "Escape" ==> Cancelled()
      ensures target.ThrowingTarget? || (key == "Enter" && target.value.None?) || (key != "Enter" && key != "Escape") ==>
                unchanged(this, options)
    {
      match target {
        case ThrowingTarget =>
        case Target(value) =>
          if key == "Enter" {
            if value.Some? {
              ApproveChanges(value.value);
            }
          } else if key == "Escape" {
            CancelChanges();
          }
      }
    }
  }

  /**
   * `useEditableState(options)`: fails fast with the validation error, otherwise yields a
   * fresh controller that is viewing and holds `initialValue`.
   */
  method Create(opts: Options, consumer: Consumer) returns (r: Result<EditableState, ConfigError>)
    ensures r.Failure? <==> Validate(opts.onChange, opts.getCurrentValue).Some?
    ensures r.Failure? ==> Some(r.error) == Validate(opts.onChange, opts.getCurrentValue)
    ensures r.Success? ==> fresh(r.value) && r.value.options == consumer
    ensures r.Success? ==> !r.value.isEditing && r.value.initialValue == opts.initialValue
  {
    var err := Validate(opts.onChange, opts.getCurrentValue);
    if err.Some? {
      return Failure(err.value);
    }
    var state := new EditableState(opts.initialValue, consumer);
    r := Success(state);
  }
}
