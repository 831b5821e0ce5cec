# Slug form control — a verified model

A Dafny model of the `Slug` control of the iPublikuj form-slug package: a text
input whose value the browser derives from other ("watched") form fields. The
model covers the control's own state and logic:

- the registry of watched fields, a PHP associative array keyed by html id
  (`addField`), and the `array_reduce` fold that turns it into `#id` selectors;
- the two behaviour flags, one-time auto update and force-edit update, with their
  enable/disable mutators, and the fixed toggle-box selector `.ipub-slug-box`;
- the settings payload `{toggle, onetime, forceEdit, fields}` that `getControl`
  hands to the template;
- template-file resolution (`setTemplateFile`, `getTemplateFile`) and the template
  that `getTemplate` creates once and reuses afterwards;
- the process-wide registration guard of the static `register` method.

Files:

- `wrappers.dfy` — `Option`, `Result` and `Outcome` for PHP `NULL` and for thrown exceptions.
- `field_registry.dfy` — module `FieldRegistry`. It has the PHP array as an ordered
  map value (`OrderedMap`: key order plus entries), the selector fold and a
  reference definition (`FirstOccurrences`). Its lemmas cover any sequence of
  `addField` calls.
- `slug.dfy` — module `SlugControl`. It has the `Slug` and `Template` classes, the
  settings payload and template resolution.
- `registration.dfy` — module `SlugRegistration`. The static `$registered` flag is
  a field of a `Registration` object that stands for the PHP process.

Modelling choices:

- PHP arrays are values (copied on write), so `$fields` is an `OrderedMap` datatype
  value held in a field of `Slug`. `$this->fields[$id] = $field` becomes
  `fields := fields.Set(id, field)`.
- A field handle is `Field(name, htmlId)`. The model assumes its html id does not
  change after `addField`, so the selector the
  payload re-reads from the stored handle (line 185) equals `#` plus the key under
  which it was stored (line 107). `AddAllEntries` proves this.
- The ghost field `Slug.added` records every `addField` argument. The invariant
  `FieldsValid` ties the registry to it: `fields == AddAll(added)`.
- `is_file` is a parameter `isFile: string -> bool` of `SetTemplateFile`.
  `__DIR__` and `DIRECTORY_SEPARATOR` are the constants `Dir` and `Sep`, and path
  joining is string concatenation.
- Thrown exceptions are returned as `Outcome.Fail(error)`. Each carries the
  source's exception kind and message.
- The fluent `return $this` of the mutators is not modelled; the methods return nothing.
- The control has no setter for the toggle box. `$toggleBox` keeps its initial
  value (line 64), so `ToggleBox` is a constant.
- The fallback at lines 165-171 sets a file only on a template that has none. It
  can never run, because `getTemplate` binds the file when it creates the
  template. `GetControl` states this as an assertion instead of a branch.

## Model

| member | source | states |
|---|---|---|
| FieldRegistry.OrderedMap.Set | src/IPub/FormSlug/Controls/Slug.php:107 | PHP keyed assignment: a new key is appended at the end and an existing key keeps its position. The key then holds the new value, no other entry changes, and keys stay unique. |
| FieldRegistry.CollectSelectors | src/IPub/FormSlug/Controls/Slug.php:184-188 | The `array_reduce` fold keeps the accumulator as a prefix and appends exactly one `"#" + htmlId` per row, in row order. |
| FieldRegistry.Selectors | src/IPub/FormSlug/Controls/Slug.php:184-188 | The selector list of a registry has one entry per key, in key order: `#` plus the html id of the handle stored under that key. |
| FieldRegistry.AddAll | src/IPub/FormSlug/Controls/Slug.php:104-110 | Any sequence of `addField` calls from the empty array leaves a well-formed ordered map (unique keys, order matches entries). |
| FieldRegistry.AddAllEntries | src/IPub/FormSlug/Controls/Slug.php:104-110 | After any sequence of `addField` calls, the keys are exactly the added ids. Each key holds a handle whose html id is that key. |
| FieldRegistry.AddAllKeys | src/IPub/FormSlug/Controls/Slug.php:104-110 | After any sequence of `addField` calls, the key order is the added ids in first-insertion order, with repeats dropped. |
| FieldRegistry.AddAllLastWins | src/IPub/FormSlug/Controls/Slug.php:107 | Re-adding an id replaces the handle: the handle stored under an id is the last one added with that id. |
| FieldRegistry.SelectorsAfterAdd | src/IPub/FormSlug/Controls/Slug.php:104-110 | One more `addField` call appends `#id` to the selector list when the id is new and leaves the list unchanged when it is present. |
| FieldRegistry.SelectorsAfterAdds | src/IPub/FormSlug/Controls/Slug.php:184-188 | The payload's selector list after any sequence of `addField` calls is `#` plus each distinct id, in first-insertion order. |
| FieldRegistry.SelectorCount | src/IPub/FormSlug/Controls/Slug.php:184-188 | The selector list has exactly as many entries as distinct ids were added. |
| FieldRegistry.SelectorsDistinct | src/IPub/FormSlug/Controls/Slug.php:184-188 | No selector occurs twice in the payload. |
| SlugControl.ResolveTemplateFile | src/IPub/FormSlug/Controls/Slug.php:204-219 | An existing path is kept as given. Otherwise an existing file of that name in the packaged `template` directory is chosen. Otherwise it fails with the FileNotFound message naming the path. The error case holds exactly when neither file exists, and a chosen path is always an existing file. |
| SlugControl.BuildSettings | src/IPub/FormSlug/Controls/Slug.php:180-189 | The payload carries the toggle selector, the two flags as given and one `#`-selector per registry key, in key order. |
| SlugControl.Template.constructor | src/IPub/FormSlug/Controls/Slug.php:235 | A template from the factory has no file and no settings yet. |
| SlugControl.Template.SetFile | src/IPub/FormSlug/Controls/Slug.php:236 | Binding sets the template's file and nothing else. |
| SlugControl.Slug.constructor | src/IPub/FormSlug/Controls/Slug.php:42-95 | A new control has no fields, onetime on, forceEdit off, no template-file override and no template. Its payload is `{".ipub-slug-box", true, false, []}`. |
| SlugControl.Slug.SettingsPayload | src/IPub/FormSlug/Controls/Slug.php:180-189 | The payload has toggle `.ipub-slug-box`, the current flags and `#id` for each distinct added id, in first-insertion order. Its length equals the number of distinct ids. |
| SlugControl.Slug.TemplateFile | src/IPub/FormSlug/Controls/Slug.php:224-227 | The override is returned when one is set, and `Dir/template/default.latte` otherwise. |
| SlugControl.Slug.AddField | src/IPub/FormSlug/Controls/Slug.php:104-110 | The field is stored under its html id and recorded in the history. The payload gains `#id` at the end only if the id is new. Nothing else changes. |
| SlugControl.Slug.DisableOneTimeUpdate | src/IPub/FormSlug/Controls/Slug.php:115-120 | Clears the one-time flag. The payload changes in that flag only, and a repeated call changes nothing further. |
| SlugControl.Slug.EnableOneTimeUpdate | src/IPub/FormSlug/Controls/Slug.php:125-130 | Sets the one-time flag. The payload changes in that flag only, and a repeated call changes nothing further. |
| SlugControl.Slug.DisableForceEditUpdate | src/IPub/FormSlug/Controls/Slug.php:135-140 | Clears the force-edit flag. The payload changes in that flag only, and a repeated call changes nothing further. |
| SlugControl.Slug.EnableForceEditUpdate | src/IPub/FormSlug/Controls/Slug.php:145-150 | Sets the force-edit flag. The payload changes in that flag only, and a repeated call changes nothing further. |
| SlugControl.Slug.SetTemplateFile | src/IPub/FormSlug/Controls/Slug.php:204-219 | On success it stores the resolved path, which `TemplateFile` then returns. On failure it returns FileNotFound and leaves the override unchanged. It touches nothing else. |
| SlugControl.Slug.GetTemplate | src/IPub/FormSlug/Controls/Slug.php:232-240 | The first call creates a fresh template bound to `TemplateFile()`. Later calls return the same template with its file unchanged. The file is never absent once bound. |
| SlugControl.Slug.GetControl | src/IPub/FormSlug/Controls/Slug.php:157-193 | Renders with the memoized template and assigns it the current payload. The file is the one bound on first render, and the branch at line 165 is unreachable. |
| SlugControl.TemplateFileIsFixedAfterFirstRender | src/IPub/FormSlug/Controls/Slug.php:162-171 | A `setTemplateFile` between two renders does not change the file the second render uses. |
| SlugRegistration.Registration.constructor | src/IPub/FormSlug/Controls/Slug.php:69 | A process starts unregistered, with no extension method installed. |
| SlugRegistration.Registration.Register | src/IPub/FormSlug/Controls/Slug.php:248-266 | When unregistered, it sets the flag and installs the extension method under the given name. When registered, it fails with InvalidState and changes nothing, whatever the name. The flag is set afterwards in both cases. |
| SlugRegistration.RegisterTwice | src/IPub/FormSlug/Controls/Slug.php:248-255 | In one process the first registration succeeds, and a second one with any name fails with InvalidState. |

## Left out

- HTML generation by the `TextInput` base class (`parent::getControl()`) and the `Utils\Html` wrapper are framework code outside this model.
- Latte rendering (`(string) $template`) and the template factory are foreign calls. The template is only an object holding its bound file and the assigned settings.
- The `input`, `value`, `caption` and `_form` template variables are left out. They pass framework values through unchanged.
- The real `is_file` check and the real values of `__DIR__` and `DIRECTORY_SEPARATOR` are left out. They are a parameter and two constants.
- The factory closure that `register` installs through `Forms\Container::extensionMethod` is left out, and so is `get_called_class`. The model records only the installed method name.
- The label and maximum length given to the constructor, and the injected template factory, are left out. They go to framework code.
- Atomicity of the registration guard is left out. The source is single-threaded with a plain check-then-set.
- Field handles are records, not framework objects. The model assumes a handle's html id does not change after `addField`. If it did change, line 185 would emit the new id while the key stays the old one, and this model does not capture that.
- Installing the extension method (lines 259-266) is assumed never to throw. In the source the flag is set at line 255, before installation, so a failing installation would leave the process registered with nothing installed. The model also types the untyped `$method` parameter as a string.
- `TwoFieldsScenario` is a worked example, not a model of a source function. It checks one concrete end-to-end payload, so it has no row under "## Model".
