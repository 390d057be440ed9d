# vue-codemirror-plus in Dafny

A model of the binding layer that puts a CodeMirror 6 editor inside a Vue 3
application. The model covers three parts:

- **Setup bundles** (`basic_setup.dfy`, module `BasicSetup`). `minimalSetup`
  and `basicSetup` turn a record of on/off flags into an ordered list of
  editor extensions. The list ends with one keymap made of the selected
  key-binding groups. The methods collect the list one guarded step at a
  time, as the source does. Each is proved equal to a declarative
  selection from the fixed source order, and the lemmas about that
  selection give membership (both directions), order, the crosshair
  default, the indent unit and the exact default bundles.
- **Controller** (`use_codemirror.dfy`, module `UseCodeMirror`).
  `useCodeMirror` owns one editor. It has:
  - the option-to-extension mappings (`getBasicSetup`, theme, Tab
    indentation, disabled pair, placeholder, user extensions, custom style);
  - the per-option configuration slots (compartments), which are appended
    on first use and reconfigured afterwards;
  - the key-driven toggle `toggleWith`;
  - the update-listener rule deciding which hooks run for a view update;
  - the lifecycle: deferred creation, watchers, and an idempotent `destroy`.
  The class `CodeMirror` holds the live view state, the `state` reference,
  the watcher scope and the log of hook calls.
- **Component** (`component.dfy`, module `Component`). `VueCodeMirror` maps
  its props to controller options and re-emits every hook call as a Vue
  event. It exposes `getValue`, `inject` and `forceUpdate`; `forceUpdate`
  marks its transaction external so the new text is not echoed back as a
  change.

The editor engine itself is a foreign library. `engine.dfy` (module `Engine`)
keeps only what the binding observes of it:

- Extensions are opaque values.
- An editor state is the document text, the top-level configuration entries
  in order, and the content of each slot.
- A transaction optionally replaces a range of the text and carries at most
  one configuration effect: append a slot, append a fixed extension, or
  reconfigure a slot. Its external flag is the `ExternalChange` annotation
  set to true.

`WellFormed` states the configuration invariant the binding keeps: each slot
is in the configuration at most once, and a slot has content exactly when it
is in the configuration.

Hooks are callbacks into code the model cannot see. The controller records
each call as a `HookCall` value in its `calls` log, and the component's
events are a function of that log. Vue's watchers are modelled as explicit
`OptionChanged` calls. Its mount callback and `nextTick` become `Init`, which
can run only once.

Two behaviours of the code are easy to misread; the model follows the code:

- A truthy `basicSetup` string other than `"minimal"` gives the full bundle,
  not an empty one.
- There are seven watchers, and they do not run immediately. `basicSetup`
  is applied at creation and also watched, so a later change, sub-flags
  included, reconfigures its slot. The six other watched options (`theme`,
  `customStyle`, `indentWithTab`, `disabled`, `placeholder` and
  `extensions`) have no effect until they change after creation. The
  initial state holds only the basic-setup slot (`InitialState`). The hooks
  and the remaining creation options (`value`, `selection`, `autoFocus`,
  `root`) are read once, at creation; changing them later has no effect.

## Model

| member | source | states |
|---|---|---|
| Engine.ApplyChange | src/component.ts:69 | replacing `[from, to)` keeps the text before `from` and after `to`, puts the inserted text between them, and gives the length that results |
| Engine.Apply | src/useCodemirror.ts:44-51 | a transaction without a change keeps the text and a change replaces its range; appending a slot adds its entry at the end and gives it its content; appending a fixed extension adds it at the end and keeps the slots; reconfiguring sets the slot's content when it is installed and keeps the slots when it is absent; no other effect alters the configuration |
| Engine.ApplyKeepsWellFormed | src/useCodemirror.ts:44-51 | a transaction that appends only new slots keeps each slot in the configuration at most once, with content exactly for the slots present |
| BasicSetup.MinimalSetup | src/basic-setup.ts:29-47 | the guarded collection yields exactly the selection of the 4 minimal features in source order, then one keymap of the selected groups |
| BasicSetup.BasicSetup | src/basic-setup.ts:115-179 | the guarded collection, with crosshair off by default and the tab-size indent unit, yields exactly the full-bundle selection |
| BasicSetup.Spaces | src/basic-setup.ts:176 | the indent unit string has exactly `n` characters, all spaces |
| BasicSetup.SelectFeaturesMembers | src/basic-setup.ts:140-174 | a feature is selected iff it is among the first `k` of the order and included by the options; nothing else is selected |
| BasicSetup.SelectFeaturesAmong | src/basic-setup.ts:140-174 | every selected element is a feature of the order first found before position `k` |
| BasicSetup.SelectFeaturesInOrder | src/basic-setup.ts:140-174 | the selected features keep the relative order of the fixed list |
| BasicSetup.SelectKeymapsMembers | src/basic-setup.ts:118-139 | a key-binding group is selected iff it is among the first `k` and its flag is not `false` |
| BasicSetup.SelectKeymapsInOrder | src/basic-setup.ts:118-139 | the selected key-binding groups keep the relative order of the fixed list |
| BasicSetup.SelectAllKeymaps | src/basic-setup.ts:118-139 | when every flag allows its group, the keymap is the whole fixed list in order |
| BasicSetup.FixedOrdersComplete | src/basic-setup.ts:118-174 | the full bundle's fixed lists name every feature and every key-binding group |
| BasicSetup.FixedOrdersDistinct | src/basic-setup.ts:118-174 | no fixed list names an entry twice |
| BasicSetup.MinimalBundleShape | src/basic-setup.ts:46 | the reduced bundle ends with exactly one keymap, preceded only by features |
| BasicSetup.MinimalBundleMembers | src/basic-setup.ts:30-45 | a feature is in the reduced bundle iff it is one of its 4 and not switched off; the same holds for its 2 key-binding groups |
| BasicSetup.MinimalBundleInOrder | src/basic-setup.ts:37-45 | the reduced bundle's features come in source order |
| BasicSetup.BasicBundleShape | src/basic-setup.ts:178 | the full bundle ends with exactly one keymap, preceded only by features and the indent unit |
| BasicSetup.BasicBundleMembers | src/basic-setup.ts:116-174 | a feature is in the full bundle iff the options include it; a key-binding group iff its flag is not `false` |
| BasicSetup.BasicBundleInOrder | src/basic-setup.ts:140-174 | the full bundle's features come in source order |
| BasicSetup.CrosshairOnlyOnRequest | src/basic-setup.ts:169-170 | the crosshair cursor is included iff its flag is given and true (it defaults to off) |
| BasicSetup.IndentUnitIffTabSize | src/basic-setup.ts:175-176 | an indent unit is present iff the tab size is a nonzero number; it sits just before the keymap and has that many spaces |
| BasicSetup.MinimalWithinBasic | src/basic-setup.ts:29-47 | with the same options, every feature and key-binding group of the reduced bundle is in the full bundle |
| BasicSetup.DefaultMinimalBundle | src/basic-setup.ts:29-47 | with no options the reduced bundle is exactly its 4 features and a keymap of the default and history bindings |
| BasicSetup.DefaultBasicBundle | src/basic-setup.ts:115-179 | with no options the full bundle has every feature but the crosshair cursor, no indent unit, and all 7 key-binding groups in order |
| BasicSetup.DefaultBasicFeatures | src/basic-setup.ts:116-174 | with no feature entries the selected features are exactly the 16 non-crosshair features, in source order |
| BasicSetup.DefaultBasicBundleExact | src/basic-setup.ts:115-179 | with no options the full bundle is exactly 17 elements: those 16 features, then a keymap of all 7 groups |
| UseCodeMirror.DefaultSelector | src/useCodemirror.ts:118 | an unset `basicSetup` option reads as `true`; a set one is kept |
| UseCodeMirror.GetBasicSetup | src/useCodemirror.ts:67-80 | the result is empty iff the option is falsy; an object gives the full bundle for it and `"minimal"` the reduced bundle |
| UseCodeMirror.GetBasicSetupPlain | src/useCodemirror.ts:75-79 | any other truthy value, and the unset default, gives the full bundle with no options |
| UseCodeMirror.ThemeExtensionFor | src/useCodemirror.ts:189 | `"dark"` gives the dark theme, every other string nothing, a non-string value itself |
| UseCodeMirror.IndentWithTabFor | src/useCodemirror.ts:211 | the Tab keymap is installed iff the option is not exactly `false` |
| UseCodeMirror.DisabledFor | src/useCodemirror.ts:217-221 | the non-editable and read-only pair is installed iff the option is true |
| UseCodeMirror.PlaceholderFor | src/useCodemirror.ts:230 | the placeholder shows the option's text; an unset option shows the empty text |
| UseCodeMirror.UserExtensionsFor | src/useCodemirror.ts:238 | the slot holds exactly the user's list; an unset option holds the empty list |
| UseCodeMirror.CustomStyleFor | src/useCodemirror.ts:198-202 | an unset style asks for nothing; a set one becomes a style theme of those properties |
| UseCodeMirror.ToggleTransaction | src/useCodemirror.ts:44-51 | the first toggle appends the slot, a later one reconfigures it; the text is not touched and the transaction is not marked external |
| UseCodeMirror.IsEnabled | src/useCodemirror.ts:42 | the source returns the compartment's content, an extension and so truthy whenever the compartment is installed; the model reads it as "the slot is installed", which in a well-formed state holds iff the slot's entry is in the configuration |
| UseCodeMirror.ToggleSetsSlot | src/useCodemirror.ts:44-51 | after a toggle the slot is enabled and holds the new content; the text and the other slots are unchanged |
| UseCodeMirror.ToggleKeepsWellFormed | src/useCodemirror.ts:44-51 | a toggle keeps the configuration well formed and leaves its slot in it exactly once |
| UseCodeMirror.ToggleKeepsOtherEntries | src/useCodemirror.ts:44-51 | a toggle neither adds nor removes any other configuration entry |
| UseCodeMirror.TogglesKeepLast | src/useCodemirror.ts:44-51 | after any nonempty series of toggles the slot holds the last value; the text and the other slots are unchanged |
| UseCodeMirror.TogglesKeepOneSlot | src/useCodemirror.ts:44-51 | after any nonempty series of toggles the configuration is well formed and holds the slot exactly once |
| UseCodeMirror.KeyToggleNext | src/useCodemirror.ts:26 | a press empties the slot when it holds the bound extension and installs that extension otherwise, an absent slot included |
| UseCodeMirror.KeyToggleTwice | src/useCodemirror.ts:24-31 | two presses restore the slot's content |
| UseCodeMirror.KeyToggleParity | src/useCodemirror.ts:22-35 | starting from the empty slot, `n` presses leave the extension installed iff `n` is odd |
| UseCodeMirror.Notifications | src/useCodemirror.ts:131-146 | `onUpdate`, if given, runs first and only once; at most three hooks run; the listener runs no `onReadly` |
| UseCodeMirror.ChangePart | src/useCodemirror.ts:134-141 | at most one call, and only `onChange` |
| UseCodeMirror.FocusPart | src/useCodemirror.ts:143-145 | at most one call, and only `onFocus` or `onBlur` |
| UseCodeMirror.NotifiesChange | src/useCodemirror.ts:134-141 | `onChange` runs, with the whole new text, iff the document changed and no transaction is marked external |
| UseCodeMirror.NotifiesFocus | src/useCodemirror.ts:143-145 | on a focus change exactly one of `onFocus` and `onBlur` runs, chosen by the new focus |
| UseCodeMirror.UpdateFor | src/useCodemirror.ts:134-138 | a dispatched transaction's update carries the new state, reports a document change iff the transaction changes the text, and is external iff it is marked |
| UseCodeMirror.ExternalNeverChanges | src/useCodemirror.ts:136-138 | a transaction marked external never reaches `onChange` |
| UseCodeMirror.EditNotifies | src/useCodemirror.ts:130-141 | an unmarked edit runs exactly `onUpdate` and then `onChange` with the new text |
| UseCodeMirror.ReactionTo | src/useCodemirror.ts:176-240 | every option change dispatches one slot transaction, except an unset custom style, which dispatches nothing; none changes the text or is marked external |
| UseCodeMirror.ReactionSetsChannel | src/useCodemirror.ts:176-240 | after the reaction the channel's slot holds the mapped content exactly once; the text and the other slots are unchanged |
| UseCodeMirror.InitialState | src/useCodemirror.ts:164-168 | the created state holds the initial text (empty when unset), only the basic-setup slot and the update listener; the other options' slots are absent whatever their values |
| UseCodeMirror.InitialBasicSetup | src/useCodemirror.ts:164-168 | the basic-setup slot starts with the bundle the option selects; an unset option selects the full bundle |
| UseCodeMirror.CodeMirror.constructor | src/useCodemirror.ts:112-127 | the options are read once; there is no view, no state and no watcher yet |
| UseCodeMirror.CodeMirror.Init | src/useCodemirror.ts:160-248 | the deferred creation sets both references to the initial state, starts the watchers, and calls only `onReadly`, when given |
| UseCodeMirror.CodeMirror.Dispatch | src/useCodemirror.ts:130-147 | the view moves to the applied state and the listener's hook calls are logged; the `state` reference keeps the initial state |
| UseCodeMirror.CodeMirror.SetFocus | src/useCodemirror.ts:143-145 | a real focus change is reported through the listener; no change reports nothing |
| UseCodeMirror.CodeMirror.OptionChanged | src/useCodemirror.ts:176-240 | while the watchers run, the channel's reaction is dispatched; before creation or after destruction nothing changes |
| UseCodeMirror.CodeMirror.InjectExtension | src/useCodemirror.ts:15-19 | the extension is added at the end of the configuration for good; the text and the slots are unchanged; the listener sees exactly that transaction; the state reference, focus and watchers are kept |
| UseCodeMirror.CodeMirror.Destroy | src/useCodemirror.ts:151-158 | a live view is released: both references are cleared and the watchers stop; without a view nothing changes |
| UseCodeMirror.KeyToggle.constructor | src/useCodemirror.ts:21-22 | the toggle owns the key-toggle slot of its id and remembers the bound extension (a fresh compartment is named by a caller-chosen id) |
| UseCodeMirror.KeyToggle.Install | src/useCodemirror.ts:32-35 | the returned pair installs the slot holding the empty extension; the listener sees exactly that transaction; the state reference and focus are kept |
| UseCodeMirror.KeyToggle.Run | src/useCodemirror.ts:24-31 | the key command reports the key handled and reconfigures its slot to the next content; an uninstalled slot leaves the state as it was; the listener sees exactly the reconfiguring transaction; the state reference and focus are kept |
| UseCodeMirror.EditAndDestroy | src/__test__/useCodemirror.test.ts:25-53 | with only `onUpdate` and `onChange`, creation calls nothing; a replace-all edit calls each once, in that order, with the new text; `destroy` twice is safe |
| Component.ToOptions | src/component.ts:39-60 | every prop is passed on, the model value becomes the initial text, and every hook is supplied |
| Component.ToOptionsKeepsProps | src/component.ts:39-42 | the props can be read back from the options, so distinct props give distinct options |
| Component.EventsFor | src/component.ts:43-58 | a change call emits `update:modelValue` and then `change` with the same text; every other hook call emits exactly its own event |
| Component.EmittedAppend | src/component.ts:43-58 | events from later hook calls follow those of earlier ones |
| Component.EmittedSnoc | src/component.ts:43-58 | one more hook call appends exactly its own events |
| Component.EmittedModelValues | src/component.ts:46-49 | a model value is emitted iff some change call carried that text |
| Component.BoundValue | src/__test__/component.test.ts:20-42 | the bound value is the initial value or a model value that was emitted |
| Component.BoundValueSkips | src/__test__/component.test.ts:20-42 | events that carry no model value leave the bound value alone |
| Component.BoundValueAfterChange | src/component.ts:46-49 | after a change call's events the bound value is the changed text |
| Component.EditBindsValue | src/component.ts:43-49 | a user edit's update and change calls leave the bound value on the new text |
| Component.VueCodeMirror.constructor | src/component.ts:36-62 | setup creates a controller over the computed options; the editor does not exist yet |
| Component.VueCodeMirror.Mount | src/component.ts:56-58 | mounting creates the editor in its initial state for the props (basic-setup slot, then the update listener) with both references on it and the watchers started, and emits exactly one `readly` event |
| Component.VueCodeMirror.GetValue | src/component.ts:65 | the result is the live document text |
| Component.VueCodeMirror.Inject | src/component.ts:64 | the extension is appended to the live configuration; the text and the slots are unchanged; exactly one `update` call is logged; the state reference and focus are kept |
| Component.ForceTransaction | src/component.ts:68-71 | the forced transaction is external, has no effect, and its change fits the text and replaces all of it with the given value; a different value changes the document |
| Component.VueCodeMirror.ForceUpdate | src/component.ts:66-73 | afterwards the text is the given value; an equal value changes nothing; a different one applies the external replace-all transaction and logs exactly one `update` call and no change call, so no model value is echoed; the state reference, focus and watchers are kept |
| Component.VModelFollowsEdit | src/__test__/component.test.ts:20-42 | after a replace-all user edit, both the component's text and the `v-model` bound value are the edited text |

## Left out

- Each guarded `push` or `concat` is modelled as appending a list of zero or one element. The result is the same list of extensions.
- The final `.filter(Boolean)` of both bundles is left out. Every element is an extension object, so the filter removes nothing.
- Key-binding groups are modelled as tokens. The flattening of their binding arrays (`keymaps.flat()`) is not modelled.
- BasicSetup.BasicSetup: the tab size is a natural number. A negative size, which makes the space repeat throw, is not modelled. A fractional size, which it truncates, is not modelled either. Only `0` and unset mean "no indent unit".
- A `basicSetup` option of `null`, which the `typeof` test treats as an object, is not modelled.
- A `theme` option changed to `undefined`, which passes `undefined` to the engine, is not modelled. A theme value is a string or an extension.
- A placeholder given as an HTML element is not modelled; the placeholder is text only.
- The engine is not modelled: extension semantics, how the view renders, selections, and the effect of the editable and read-only facets on user input. The `selection` and `root` options are passed to the engine without being read, and are left out for that reason.
- `autoFocus` is left out. It focuses the DOM element, and the focus change only reaches the listener through a later DOM event. `SetFocus` models that event.
- Vue's reactivity is left out: the scheduling of watchers and the deep-watch comparison. A watcher firing is an explicit `OptionChanged` call.
- The component's `modelValue` prop only sets the initial text. Changing it later does not update the document, and the component needs `forceUpdate` for that. The model keeps the props fixed.
- The binding object that `toggleWith` returns, and the key string, are not modelled. `KeyToggle.Run` is the command the key runs.
- UseCodeMirror.KeyToggle.constructor: each `toggleWith` call creates a fresh compartment, which is distinct from every other by object identity. The model names it by an id that the caller chooses, and assumes distinct toggles are given distinct ids.
- Line-break normalisation is not modelled. The engine splits text on "\r\n", "\r" and "\n" and joins it with "\n"; the model keeps the raw string. So the results that the text equals the given value (`Mount`, `ForceUpdate`, `GetValue`) hold only for text without "\r".
- Calls without a live view are not modelled. Before creation and after `destroy`, `getValue`, `inject` and `forceUpdate` throw a TypeError, since `view.value` is undefined or null; `GetValue`, `Inject`, `ForceUpdate`, `InjectExtension` and `Dispatch` require a live view instead.
- UseCodeMirror.KeyToggle.Install: putting the pair `toggleWith` returns inside the `extensions` option is not modelled. There it would sit nested in the user-extensions slot, and a later change of that list would remove it.
- Hook callbacks are recorded, not run. Their effects on the caller are not part of the model.
- The test passes `onReady`, but the code reads only `onReadly`. The model follows the code, so such a caller's ready hook is never called.
- A Vue component instance is not modelled. `tryOnMounted` and `tryOnUnmounted` are modelled by the caller invoking `Init` and `Destroy`.
- UseCodeMirror.CodeMirror.Init: the view's DOM attachment and the container are not modelled.
- UseCodeMirror.CodeMirror.Destroy: the release of the view's DOM node is not modelled; only the references and the watcher scope are.
