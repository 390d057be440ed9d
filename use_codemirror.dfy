/**
 * The binding controller: how the option values map to extensions, how a
 * channel's slot is toggled, which hooks the update listener calls, and the
 * lifecycle of one editor (one deferred creation, then an idempotent
 * destroy). The host framework's watchers are modelled as explicit
 * `OptionChanged` calls and its deferred mount callback as `Init`.
 */
module UseCodeMirror {
  import opened Engine
  import opened BasicSetup

  // The option values and their mappings to extensions

  /**
   * The `basicSetup` option: a boolean, a string (only `"minimal"` is
   * special) or an options object.
   */
  datatype SetupSelector = Flag(on: bool) | Preset(name: string) | Custom(options: SetupOptions)

  /** Whether the option is truthy; `None` is `undefined`. */
  predicate Truthy(ops: Option<SetupSelector>) {
    match ops
    case None => false
    case Some(Flag(b)) => b
    case Some(Preset(name)) => name != ""
    case Some(Custom(_)) => true
  }

  /** The option as the controller first reads it: left undefined, it is `true`. */
  function DefaultSelector(ops: Option<SetupSelector>): (r: Option<SetupSelector>)
    ensures ops.None? ==> r == Some(Flag(true))
    ensures ops.Some? ==> r == ops
    ensures Truthy(r) <==> ops.None? || Truthy(ops)
  {
    if ops.None? then Some(Flag(true)) else ops
  }

  /**
   * `getBasicSetup`: an options object gives the full bundle for those
   * options, `"minimal"` the reduced bundle, any other truthy value the full
   * bundle with no options, and a falsy value the empty extension.
   */
  function GetBasicSetup(ops: Option<SetupSelector>): (e: Extension)
    ensures e.Group?
    ensures e == EMPTY <==> !Truthy(ops)
    ensures ops.Some? && ops.value.Custom? ==> e == Group(BasicBundle(ops.value.options))
    ensures ops == Some(Preset("minimal")) ==> e == Group(MinimalBundle(NO_OPTIONS))
  {
    if ops.Some? && ops.value.Custom? then Group(BasicBundle(ops.value.options))
    else if ops == Some(Preset("minimal")) then Group(MinimalBundle(NO_OPTIONS))
    else if Truthy(ops) then Group(BasicBundle(NO_OPTIONS))
    else EMPTY
  }

  /**
   * An option value that is neither an object nor `"minimal"` selects the
   * full bundle with no options when truthy and nothing otherwise; the
   * default (`undefined`) selects the full bundle.
   */
  lemma GetBasicSetupPlain(ops: Option<SetupSelector>)
    requires !(ops.Some? && ops.value.Custom?) && ops != Some(Preset("minimal"))
    ensures Truthy(ops) ==> GetBasicSetup(ops) == Group(BasicBundle(NO_OPTIONS))
    ensures GetBasicSetup(DefaultSelector(None)) == Group(BasicBundle(NO_OPTIONS))
  {
  }

  /** The `theme` option: a string, or any other value taken as an extension. */
  datatype Theme = Named(name: string) | ThemeExtension(ext: Extension)

  /** The theme mapping: `"dark"` is the dark theme, every other string nothing, an extension itself. */
  function ThemeExtensionFor(t: Theme): (e: Extension)
    ensures t.Named? ==> (e == OneDark <==> t.name == "dark")
    ensures t.Named? && t.name != "dark" ==> e == EMPTY
    ensures t.ThemeExtension? ==> e == t.ext
  {
    match t
    case Named(name) => if name == "dark" then OneDark else EMPTY
    case ThemeExtension(ext) => ext
  }

  /** The Tab key indents unless the option is exactly `false`. */
  function IndentWithTabFor(v: Option<bool>): (e: Extension)
    ensures e == IndentWithTabKeymap <==> v != Some(false)
    ensures e != IndentWithTabKeymap ==> e == EMPTY
  {
    if v != Some(false) then IndentWithTabKeymap else EMPTY
  }

  /** The pair that makes the view non-editable and the state read-only. */
  const DISABLED: Extension := Group([Editable(false), ReadOnly(true)])

  /** A truthy `disabled` option installs the read-only pair, anything else nothing. */
  function DisabledFor(v: Option<bool>): (e: Extension)
    ensures e == DISABLED <==> v == Some(true)
    ensures e != DISABLED ==> e == EMPTY
  {
    if v == Some(true) then DISABLED else EMPTY
  }

  /** The placeholder text; an unset option clears it to the empty text. */
  function PlaceholderFor(v: Option<string>): (e: Extension)
    ensures e.Placeholder?
    ensures v.Some? ==> e.text == v.value
    ensures v.None? ==> e.text == ""
  {
    Placeholder(v.GetOr(""))
  }

  /** The user's extensions; an unset option is the empty list. */
  function UserExtensionsFor(v: Option<seq<Extension>>): (e: Extension)
    ensures e.Group?
    ensures v.Some? ==> e.items == v.value
    ensures v.None? ==> e == EMPTY
  {
    Group(v.GetOr([]))
  }

  /** An inline style becomes a style theme; an unset style asks for no change at all. */
  function CustomStyleFor(v: Option<Style>): (e: Option<Extension>)
    ensures e.None? <==> v.None?
    ensures v.Some? ==> e == Some(StyleTheme(v.value))
  {
    if v.None? then None else Some(StyleTheme(v.value))
  }

  // Toggle slots

  /**
   * `useToggleExtension(view).toggle(e)`: the first call appends the slot
   * holding `e` to the configuration, every later call reconfigures it.
   */
  function ToggleTransaction(st: EditorState, slot: Slot, e: Extension): (tr: Transaction)
    ensures tr.change.None? && !tr.external
    ensures tr.effect == (if slot in st.slots then Reconfigure(slot, e) else AppendSlot(slot, e))
  {
    Transaction(None, if slot in st.slots then Reconfigure(slot, e) else AppendSlot(slot, e), false)
  }

  /**
   * `isEnabled()`: the compartment's content in the state, an extension and
   * so truthy, exactly when the slot is installed; in a well-formed state
   * that is when its entry is part of the configuration.
   */
  predicate IsEnabled(st: EditorState, slot: Slot): (r: bool)
    ensures WellFormed(st) ==> (r <==> SlotEntry(slot) in st.config)
  {
    slot in st.slots
  }

  /** One toggle: the slot holds `e` afterwards, and the document and the other slots are unchanged. */
  lemma ToggleSetsSlot(st: EditorState, slot: Slot, e: Extension)
    ensures var r := Apply(st, ToggleTransaction(st, slot, e));
      r.doc == st.doc && r.slots == st.slots[slot := e] && IsEnabled(r, slot)
  {
  }

  /** One toggle keeps the configuration well formed, with the slot in it exactly once. */
  lemma ToggleKeepsWellFormed(st: EditorState, slot: Slot, e: Extension)
    requires WellFormed(st)
    ensures WellFormed(Apply(st, ToggleTransaction(st, slot, e)))
    ensures Occurrences(Apply(st, ToggleTransaction(st, slot, e)).config, SlotEntry(slot)) == 1
  {
    var tr := ToggleTransaction(st, slot, e);
    ApplyKeepsWellFormed(st, tr);
    if slot !in st.slots {
      OccurrencesAppend(st.config, SlotEntry(slot), SlotEntry(slot));
    } else {
      assert SlotEntry(slot) in st.config;
    }
  }

  /** A toggle adds no other entry to the configuration and removes none. */
  lemma ToggleKeepsOtherEntries(st: EditorState, slot: Slot, e: Extension, x: Entry)
    requires x != SlotEntry(slot)
    ensures Occurrences(Apply(st, ToggleTransaction(st, slot, e)).config, x) == Occurrences(st.config, x)
  {
    if slot !in st.slots {
      OccurrencesAppend(st.config, SlotEntry(slot), x);
    }
  }

  /** The state after toggling `slot` with each of `es` in turn. */
  function Toggles(st: EditorState, slot: Slot, es: seq<Extension>): EditorState
    decreases |es|
  {
    if es == [] then st
    else Toggles(Apply(st, ToggleTransaction(st, slot, es[0])), slot, es[1..])
  }

  /**
   * However often a channel toggles, its slot holds the last value and the
   * document and the other slots are untouched.
   */
  lemma {:induction false} TogglesKeepLast(st: EditorState, slot: Slot, es: seq<Extension>)
    requires es != []
    ensures Toggles(st, slot, es).doc == st.doc
    ensures Toggles(st, slot, es).slots == st.slots[slot := es[|es| - 1]]
    decreases |es|
  {
    var next := Apply(st, ToggleTransaction(st, slot, es[0]));
    ToggleSetsSlot(st, slot, es[0]);
    if |es| > 1 {
      TogglesKeepLast(next, slot, es[1..]);
      assert es[1..][|es[1..]| - 1] == es[|es| - 1];
    } else {
      assert Toggles(next, slot, es[1..]) == next;
    }
  }

  /**
   * However often a channel toggles, the configuration stays well formed
   * and holds the channel's slot exactly once.
   */
  lemma {:induction false} TogglesKeepOneSlot(st: EditorState, slot: Slot, es: seq<Extension>)
    requires WellFormed(st) && es != []
    ensures WellFormed(Toggles(st, slot, es))
    ensures Occurrences(Toggles(st, slot, es).config, SlotEntry(slot)) == 1
    decreases |es|
  {
    var next := Apply(st, ToggleTransaction(st, slot, es[0]));
    ToggleKeepsWellFormed(st, slot, es[0]);
    if |es| > 1 {
      TogglesKeepOneSlot(next, slot, es[1..]);
    } else {
      assert Toggles(next, slot, es[1..]) == next;
    }
  }

  /**
   * `toggleWith(key, ext)`: a key press swaps the slot's content between the
   * empty extension and `ext`. A slot that is not installed reads as absent,
   * which differs from `ext`.
   */
  function KeyToggleNext(current: Option<Extension>, ext: Extension): (e: Extension)
    ensures current == Some(ext) ==> e == EMPTY
    ensures current != Some(ext) ==> e == ext
  {
    if current == Some(ext) then EMPTY else ext
  }

  /** The content after `n` presses, from the initial empty content. */
  function KeyToggleAfter(n: nat, ext: Extension): Extension {
    if n == 0 then EMPTY else KeyToggleNext(Some(KeyToggleAfter(n - 1, ext)), ext)
  }

  /** Two presses restore the content. */
  lemma KeyToggleTwice(current: Extension, ext: Extension)
    requires current == EMPTY || current == ext
    ensures KeyToggleNext(Some(KeyToggleNext(Some(current), ext)), ext) == current
  {
  }

  /** After `n` presses the slot holds `ext` iff `n` is odd (or `ext` is itself empty). */
  lemma {:induction false} KeyToggleParity(n: nat, ext: Extension)
    ensures KeyToggleAfter(n, ext) == (if n % 2 == 1 then ext else EMPTY)
  {
    if n > 0 {
      KeyToggleParity(n - 1, ext);
    }
  }

  // The update listener

  /** What the update listener sees of one view update. */
  datatype ViewUpdate = ViewUpdate(
    state: EditorState,
    docChanged: bool,
    external: bool,      // some transaction of the update carries `ExternalChange` with value true
    focusChanged: bool,
    hasFocus: bool)

  /** Which of the optional hooks the caller supplied. */
  datatype Hooks = Hooks(onChange: bool, onUpdate: bool, onFocus: bool, onBlur: bool, onReadly: bool)

  /** A call of one of the caller's hooks. */
  datatype HookCall =
    | Updated(vu: ViewUpdate)
    | Changed(text: string, vu: ViewUpdate)
    | Focused(vu: ViewUpdate)
    | Blurred(vu: ViewUpdate)
    | Ready(state: EditorState)

  /**
   * The hooks the update listener calls for one view update, in order:
   * `onUpdate` always, `onChange` with the whole text when the document
   * changed and no transaction is marked external, and on a focus change
   * exactly one of `onFocus` and `onBlur`.
   */
  function Notifications(h: Hooks, vu: ViewUpdate): (calls: seq<HookCall>)
    ensures h.onUpdate <==> |calls| > 0 && calls[0] == Updated(vu)
    ensures forall i :: 0 <= i < |calls| ==> !calls[i].Ready? && (i > 0 ==> !calls[i].Updated?)
    ensures |calls| <= 3
  {
    (if h.onUpdate then [Updated(vu)] else [])
    + ChangePart(h, vu)
    + FocusPart(h, vu)
  }

  /** The `onChange` call of one view update, if any. */
  function ChangePart(h: Hooks, vu: ViewUpdate): (p: seq<HookCall>)
    ensures |p| <= 1 && forall c :: c in p ==> c.Changed?
  {
    if h.onChange && vu.docChanged && !vu.external then [Changed(vu.state.doc, vu)] else []
  }

  /** The `onFocus` or `onBlur` call of one view update, if any. */
  function FocusPart(h: Hooks, vu: ViewUpdate): (p: seq<HookCall>)
    ensures |p| <= 1 && forall c :: c in p ==> c.Focused? || c.Blurred?
  {
    if !vu.focusChanged then []
    else if vu.hasFocus then (if h.onFocus then [Focused(vu)] else [])
    else (if h.onBlur then [Blurred(vu)] else [])
  }

  /**
   * `onChange` is called, with the whole new text, exactly when the
   * document changed and no transaction of the update is marked external.
   */
  lemma NotifiesChange(h: Hooks, vu: ViewUpdate)
    ensures forall t :: Changed(t, vu) in Notifications(h, vu) <==>
      h.onChange && vu.docChanged && !vu.external && t == vu.state.doc
  {
  }

  /** A focus change calls exactly one of `onFocus` and `onBlur`, chosen by the new focus. */
  lemma NotifiesFocus(h: Hooks, vu: ViewUpdate)
    ensures Focused(vu) in Notifications(h, vu) <==> h.onFocus && vu.focusChanged && vu.hasFocus
    ensures Blurred(vu) in Notifications(h, vu) <==> h.onBlur && vu.focusChanged && !vu.hasFocus
    ensures !(Focused(vu) in Notifications(h, vu) && Blurred(vu) in Notifications(h, vu))
  {
  }

  /** The view update a dispatched transaction produces. */
  function UpdateFor(st: EditorState, tr: Transaction, hasFocus: bool): (vu: ViewUpdate)
    requires Applicable(st, tr)
    ensures vu.state == Apply(st, tr) && !vu.focusChanged
    ensures vu.docChanged <==> ChangesDocument(tr)
    ensures vu.external <==> tr.external
  {
    ViewUpdate(Apply(st, tr), ChangesDocument(tr), tr.external, false, hasFocus)
  }

  /** A transaction marked external never reaches `onChange`. */
  lemma ExternalNeverChanges(h: Hooks, st: EditorState, tr: Transaction, hasFocus: bool)
    requires Applicable(st, tr) && tr.external
    ensures forall c :: c in Notifications(h, UpdateFor(st, tr, hasFocus)) ==> !c.Changed?
  {
  }

  /** An unmarked edit that changes the document calls `onUpdate` and then `onChange` with the new text, and nothing else. */
  lemma EditNotifies(h: Hooks, st: EditorState, tr: Transaction, hasFocus: bool)
    requires Applicable(st, tr) && !tr.external && ChangesDocument(tr)
    requires h.onUpdate && h.onChange
    ensures var vu := UpdateFor(st, tr, hasFocus);
      Notifications(h, vu) == [Updated(vu), Changed(vu.state.doc, vu)]
  {
  }

  // The channels

  /** One watched option taking a new value. */
  datatype OptionChange =
    | BasicSetupChanged(setup: Option<SetupSelector>)
    | ThemeChanged(theme: Theme)
    | CustomStyleChanged(style: Option<Style>)
    | IndentWithTabChanged(indentWithTab: Option<bool>)
    | DisabledChanged(disabled: Option<bool>)
    | PlaceholderChanged(placeholder: Option<string>)
    | ExtensionsChanged(extensions: Option<seq<Extension>>)

  /** The slot a channel owns. */
  function ChannelSlot(c: OptionChange): Slot {
    match c
    case BasicSetupChanged(_) => BasicSetupSlot
    case ThemeChanged(_) => ThemeSlot
    case CustomStyleChanged(_) => CustomStyleSlot
    case IndentWithTabChanged(_) => IndentWithTabSlot
    case DisabledChanged(_) => DisabledSlot
    case PlaceholderChanged(_) => PlaceholderSlot
    case ExtensionsChanged(_) => UserExtensionsSlot
  }

  /** The content a change asks for in its slot; `None` when it asks for nothing. */
  function ChannelContent(c: OptionChange): Option<Extension> {
    match c
    case BasicSetupChanged(v) => Some(GetBasicSetup(v))
    case ThemeChanged(t) => Some(ThemeExtensionFor(t))
    case CustomStyleChanged(v) => CustomStyleFor(v)
    case IndentWithTabChanged(v) => Some(IndentWithTabFor(v))
    case DisabledChanged(v) => Some(DisabledFor(v))
    case PlaceholderChanged(v) => Some(PlaceholderFor(v))
    case ExtensionsChanged(v) => Some(UserExtensionsFor(v))
  }

  /**
   * The transaction a watcher dispatches for a change: the basic-setup slot,
   * created with the state, is reconfigured; the other channels toggle their
   * slot; an unset custom style dispatches nothing.
   */
  function ReactionTo(st: EditorState, c: OptionChange): (tr: Option<Transaction>)
    ensures tr.None? <==> c == CustomStyleChanged(None)
    ensures tr.Some? ==> tr.value.change.None? && !tr.value.external && Applicable(st, tr.value) && KeepsSlots(st, tr.value)
  {
    match ChannelContent(c)
    case None => None
    case Some(e) =>
      if c.BasicSetupChanged? then Some(Transaction(None, Reconfigure(BasicSetupSlot, e), false))
      else Some(ToggleTransaction(st, ChannelSlot(c), e))
  }

  /**
   * Once the editor is created, a change that asks for content leaves its
   * channel's slot holding that content, once in the configuration, and
   * leaves the document and every other slot as they were.
   */
  lemma ReactionSetsChannel(st: EditorState, c: OptionChange)
    requires WellFormed(st) && BasicSetupSlot in st.slots
    requires ChannelContent(c).Some?
    ensures var r := Apply(st, ReactionTo(st, c).value);
      WellFormed(r) && r.doc == st.doc && r.slots == st.slots[ChannelSlot(c) := ChannelContent(c).value]
    ensures var r := Apply(st, ReactionTo(st, c).value);
      Occurrences(r.config, SlotEntry(ChannelSlot(c))) == 1
  {
    var tr := ReactionTo(st, c).value;
    if c.BasicSetupChanged? {
      ApplyKeepsWellFormed(st, tr);
      assert SlotEntry(BasicSetupSlot) in st.config;
    } else {
      ToggleSetsSlot(st, ChannelSlot(c), ChannelContent(c).value);
      ToggleKeepsWellFormed(st, ChannelSlot(c), ChannelContent(c).value);
    }
  }

  // The controller

  /** The options the controller reads (the caller's hooks are recorded as present or absent). */
  datatype EditorOptions = EditorOptions(
    value: Option<string>,
    basicSetup: Option<SetupSelector>,
    theme: Option<Theme>,
    customStyle: Option<Style>,
    indentWithTab: Option<bool>,
    disabled: Option<bool>,
    placeholder: Option<string>,
    extensions: Option<seq<Extension>>,
    autoFocus: Option<bool>,
    hooks: Hooks)

  /**
   * The state the deferred creation builds: the initial text, then only the
   * basic-setup slot and the update listener. The other channels are
   * watched without an immediate run, so their slots are absent until their
   * option changes.
   */
  function InitialState(o: EditorOptions): (st: EditorState)
    ensures WellFormed(st)
    ensures st.doc == o.value.GetOr("")
    ensures forall s :: s in st.slots <==> s == BasicSetupSlot
    ensures st.config == [SlotEntry(BasicSetupSlot), Fixed(UpdateListener)]
  {
    var st := EditorState(o.value.GetOr(""), [SlotEntry(BasicSetupSlot), Fixed(UpdateListener)],
                          map[BasicSetupSlot := GetBasicSetup(DefaultSelector(o.basicSetup))]);
    assert st.config[..1] == [SlotEntry(BasicSetupSlot)];
    assert st.config[..1][..0] == [];
    st
  }

  /** The basic-setup slot starts with the bundle the option selects, the full bundle when it is unset. */
  lemma InitialBasicSetup(o: EditorOptions)
    ensures InitialState(o).slots[BasicSetupSlot] == GetBasicSetup(DefaultSelector(o.basicSetup))
    ensures o.basicSetup.None? ==> InitialState(o).slots[BasicSetupSlot] == Group(BasicBundle(NO_OPTIONS))
  {
  }

  /**
   * `useCodeMirror(container, options)`. The options are read once, at the
   * call. `view` is the live view (its current state) and `stateRef` the
   * `state` reference, which is assigned at creation only and so keeps the
   * initial state. `watching` is the scope holding the watchers.
   */
  class CodeMirror {
    const options: EditorOptions
    var created: bool
    var view: Option<EditorState>
    var stateRef: Option<EditorState>
    var watching: bool
    var hasFocus: bool
    var calls: seq<HookCall>

    ghost predicate Valid()
      reads this
    {
      && (view.Some? ==> created && WellFormed(view.value) && BasicSetupSlot in view.value.slots)
      && (watching <==> view.Some?)
      && (stateRef.Some? <==> view.Some?)
    }

    constructor(options: EditorOptions)
      ensures Valid() && this.options == options
      ensures !created && view.None? && stateRef.None? && !hasFocus && calls == []
    {
      this.options := options;
      created := false;
      view := None;
      stateRef := None;
      watching := false;
      hasFocus := false;
      calls := [];
    }

    /**
     * The deferred creation: builds the state and the view, starts the
     * watchers and calls `onReadly`. It runs once, even when `Destroy` came
     * first (which then did nothing).
     */
    method Init()
      requires Valid() && !created
      modifies this
      ensures Valid() && created && watching
      ensures view == Some(InitialState(options)) && stateRef == view
      ensures calls == old(calls) + (if options.hooks.onReadly then [Ready(InitialState(options))] else [])
      ensures hasFocus == old(hasFocus)
    {
      var st := InitialState(options);
      stateRef := Some(st);
      view := Some(st);
      created := true;
      watching := true;
      if options.hooks.onReadly {
        calls := calls + [Ready(st)];
      }
    }

    /** `view.dispatch(tr)`: the view moves to the next state and the update listener runs. */
    method Dispatch(tr: Transaction)
      requires Valid() && view.Some? && Applicable(view.value, tr) && KeepsSlots(view.value, tr)
      modifies this
      ensures Valid()
      ensures view == Some(Apply(old(view.value), tr))
      ensures calls == old(calls) + Notifications(options.hooks, UpdateFor(old(view.value), tr, hasFocus))
      ensures stateRef == old(stateRef) && hasFocus == old(hasFocus) && created == old(created) && watching == old(watching)
    {
      var st := view.value;
      ApplyKeepsWellFormed(st, tr);
      var vu := UpdateFor(st, tr, hasFocus);
      view := Some(vu.state);
      calls := calls + Notifications(options.hooks, vu);
    }

    /** The view gains or loses focus; a change of focus is reported to the listener. */
    method SetFocus(focus: bool)
      requires Valid() && view.Some?
      modifies this
      ensures Valid() && hasFocus == focus && view == old(view) && stateRef == old(stateRef)
      ensures calls == old(calls) +
        (if focus == old(hasFocus) then [] else Notifications(options.hooks, ViewUpdate(view.value, false, false, true, focus)))
    {
      if focus != hasFocus {
        hasFocus := focus;
        calls := calls + Notifications(options.hooks, ViewUpdate(view.value, false, false, true, focus));
      }
    }

    /**
     * A watched option changes. While the watchers run, the channel's
     * transaction (if any) is dispatched; before creation and after
     * destruction nothing happens.
     */
    method OptionChanged(c: OptionChange)
      requires Valid()
      modifies this
      ensures Valid()
      ensures !old(watching) || ReactionTo(old(view.value), c).None? ==> unchanged(this)
      ensures old(watching) && ReactionTo(old(view.value), c).Some? ==>
        var tr := ReactionTo(old(view.value), c).value;
        view == Some(Apply(old(view.value), tr))
        && calls == old(calls) + Notifications(options.hooks, UpdateFor(old(view.value), tr, hasFocus))
      ensures stateRef == old(stateRef) && hasFocus == old(hasFocus)
    {
      if watching {
        var tr := ReactionTo(view.value, c);
        if tr.Some? {
          Dispatch(tr.value);
        }
      }
    }

    /** `injectExtension(view, e)`: adds `e` to the configuration for good. */
    method InjectExtension(e: Extension)
      requires Valid() && view.Some?
      modifies this
      ensures Valid()
      ensures view.Some? && view.value.doc == old(view.value.doc) && view.value.slots == old(view.value.slots)
      ensures view.value.config == old(view.value.config) + [Fixed(e)]
      ensures calls == old(calls) + Notifications(options.hooks, UpdateFor(old(view.value), Transaction(None, AppendFixed(e), false), hasFocus))
      ensures stateRef == old(stateRef) && hasFocus == old(hasFocus) && created == old(created) && watching == old(watching)
    {
      Dispatch(Transaction(None, AppendFixed(e), false));
    }

    /** `destroy()`: only a live view is destroyed; both references are cleared and the watchers stop. */
    method Destroy()
      requires Valid()
      modifies this
      ensures Valid()
      ensures old(view).Some? ==> view.None? && stateRef.None? && !watching && calls == old(calls)
      ensures old(view).None? ==> unchanged(this)
      ensures created == old(created) && hasFocus == old(hasFocus)
    {
      if view.Some? {
        watching := false;
        view := None;
        stateRef := None;
      }
    }
  }

  /**
   * A key press bound by `toggleWith(key, ext)`: the command swaps the
   * content of its own slot and reports the key as handled. Each call of
   * `toggleWith` creates a fresh compartment; the model names it by an id,
   * and distinct toggles are expected to be given distinct ids.
   */
  class KeyToggle {
    const slot: Slot
    const ext: Extension

    constructor(id: nat, ext: Extension)
      ensures slot == KeyToggleSlot(id) && this.ext == ext
    {
      slot := KeyToggleSlot(id);
      this.ext := ext;
    }

    /**
     * Installing the pair `toggleWith` returns at the top of the
     * configuration: the slot starts out holding the empty extension.
     * `toggleWith` itself dispatches nothing; this stands for the caller
     * passing the pair to `injectExtension`.
     */
    method Install(cm: CodeMirror)
      requires cm.Valid() && cm.view.Some? && slot !in cm.view.value.slots
      modifies cm
      ensures cm.Valid() && cm.view.Some?
      ensures cm.view.value.slots == old(cm.view.value.slots)[slot := EMPTY]
      ensures cm.view.value.doc == old(cm.view.value.doc)
      ensures cm.view.value.config == old(cm.view.value.config) + [SlotEntry(slot)]
      ensures cm.calls == old(cm.calls) +
        Notifications(cm.options.hooks, UpdateFor(old(cm.view.value), Transaction(None, AppendSlot(slot, EMPTY), false), old(cm.hasFocus)))
      ensures cm.stateRef == old(cm.stateRef) && cm.hasFocus == old(cm.hasFocus)
    {
      cm.Dispatch(Transaction(None, AppendSlot(slot, EMPTY), false));
    }

    /** The installed command: the slot's content (absent if not installed) decides the new content. */
    method Run(cm: CodeMirror) returns (handled: bool)
      requires cm.Valid() && cm.view.Some?
      modifies cm
      ensures handled
      ensures cm.Valid()
      ensures var old_st := old(cm.view.value);
        var current := if slot in old_st.slots then Some(old_st.slots[slot]) else None;
        cm.view == Some(Apply(old_st, Transaction(None, Reconfigure(slot, KeyToggleNext(current, ext)), false)))
      ensures slot in old(cm.view.value.slots) ==> cm.view.value.slots[slot] == KeyToggleNext(Some(old(cm.view.value.slots[slot])), ext)
      ensures slot !in old(cm.view.value.slots) ==> cm.view.value == old(cm.view.value)
      ensures var old_st := old(cm.view.value);
        var current := if slot in old_st.slots then Some(old_st.slots[slot]) else None;
        cm.calls == old(cm.calls) + Notifications(cm.options.hooks,
          UpdateFor(old_st, Transaction(None, Reconfigure(slot, KeyToggleNext(current, ext)), false), old(cm.hasFocus)))
      ensures cm.stateRef == old(cm.stateRef) && cm.hasFocus == old(cm.hasFocus)
    {
      var st := cm.view.value;
      var current := if slot in st.slots then Some(st.slots[slot]) else None;
      cm.Dispatch(Transaction(None, Reconfigure(slot, KeyToggleNext(current, ext)), false));
      handled := true;
    }
  }

  /**
   * Created with `text` and only `onUpdate` and `onChange`, the controller
   * calls no hook at creation; one user edit replacing the whole text is
   * reported once to each, in that order, with the new text; after
   * `Destroy` both references are cleared, and a second `Destroy` changes
   * nothing.
   */
  method EditAndDestroy(text: string, edit: string) returns (calls: seq<HookCall>, doc: string)
    requires text != "" || edit != ""
    ensures doc == edit
    ensures |calls| == 2 && calls[0].Updated? && calls[1].Changed? && calls[1].text == edit
  {
    var o := EditorOptions(Some(text), None, None, None, None, None, None, None, None,
                           Hooks(true, true, false, false, false));
    var cm := new CodeMirror(o);
    cm.Init();
    assert cm.view.value.doc == text && cm.calls == [];
    var tr := Transaction(Some(Change(0, |text|, edit)), NoEffect, false);
    cm.Dispatch(tr);
    doc := cm.view.value.doc;
    calls := cm.calls;
    cm.Destroy();
    assert cm.view.None? && cm.stateRef.None? && !cm.watching;
    cm.Destroy();
    assert cm.view.None? && cm.stateRef.None? && cm.calls == calls;
  }
}
