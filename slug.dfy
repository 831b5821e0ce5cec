/**
 * The `Slug` form control: the watched-field registry, the two client-side
 * behaviour flags, the settings payload handed to the template, the choice
 * of template file and the template that is created once and then reused.
 */
module SlugControl {
  import opened Wrappers
  import opened FieldRegistry

  /** The toggle-box selector; the control has no setter for it. */
  const ToggleBox := ".ipub-slug-box"

  /** Stand-ins for PHP's `DIRECTORY_SEPARATOR` and for `__DIR__` of the control. */
  const Sep := "/"
  const Dir := "src/IPub/FormSlug/Controls"

  /** A file name inside the template directory packaged with the control. */
  function PackagedTemplate(name: string): string {
    Dir + Sep + "template" + Sep + name
  }

  /** The template used unless one was set. */
  const DefaultTemplateFile := PackagedTemplate("default.latte")

  /** The exceptions the control throws, with their messages. */
  datatype Error = FileNotFound(message: string) | InvalidState(message: string)

  function NotFoundMessage(path: string): string {
    "Template file \"" + path + "\" was not found."
  }

  /** The component's client-side settings: `['toggle', 'onetime', 'forceEdit', 'fields']`. */
  datatype Settings = Settings(toggle: string, onetime: bool, forceEdit: bool, fields: seq<string>)

  /** Where `setTemplateFile(path)` points the control, given which files exist:
      the path itself if it is a file, else that name in the packaged template
      directory if that is a file, else `FileNotFoundException` naming the path. */
  function ResolveTemplateFile(path: string, isFile: string -> bool): (r: Result<string, Error>)
    ensures r.Success? ==> isFile(r.value) && (r.value == path || r.value == PackagedTemplate(path))
    ensures isFile(path) ==> r == Success(path)
    ensures !isFile(path) && isFile(PackagedTemplate(path)) ==> r == Success(PackagedTemplate(path))
    ensures r.Failure? <==> !isFile(path) && !isFile(PackagedTemplate(path))
    ensures r.Failure? ==> r.error == FileNotFound(NotFoundMessage(path))
  {
    if isFile(path) then Success(path)
    else if isFile(PackagedTemplate(path)) then Success(PackagedTemplate(path))
    else Failure(FileNotFound(NotFoundMessage(path)))
  }

  /** The settings payload for the given flags and watched-field registry. */
  function BuildSettings(onetime: bool, forceEdit: bool, fields: OrderedMap): (r: Settings)
    requires fields.Valid()
    ensures r.toggle == ToggleBox && r.onetime == onetime && r.forceEdit == forceEdit
    ensures |r.fields| == |fields.keys|
    ensures forall i :: 0 <= i < |fields.keys| ==> r.fields[i] == "#" + fields.entries[fields.keys[i]].htmlId
  {
    Settings(ToggleBox, onetime, forceEdit, Selectors(fields))
  }

  /** A template object from the template factory: the file it is bound to and
      the settings last assigned to it. Rendering it is not modelled. */
  class Template {
    var file: Option<string>
    var settings: Option<Settings>

    /** A template as `createTemplate()` returns it: no file, nothing assigned. */
    constructor ()
      ensures file == None && settings == None
    {
      file := None;
      settings := None;
    }

    method SetFile(f: string)
      modifies this`file
      ensures file == Some(f)
    {
      file := Some(f);
    }
  }

  class Slug {
    /** `$fields`: the watched fields keyed by html id. */
    var fields: OrderedMap
    /** Every field passed to `addField`, in call order. */
    ghost var added: seq<Field>
    var onetimeAutoUpdate: bool
    var forceEditUpdate: bool
    /** The template-file override, `NULL` until `setTemplateFile` succeeds. */
    var templateFile: Option<string>
    /** The memoized template, `NULL` until first requested. */
    var template: Template?

    /** The registry is what the recorded `addField` calls build. */
    ghost predicate FieldsValid()
      reads this
    {
      fields == AddAll(added)
    }

    /** The object invariant: a created template is always bound to a file. */
    ghost predicate Valid()
      reads this, template
    {
      FieldsValid() && (template != null ==> template.file.Some?)
    }

    constructor ()
      ensures Valid()
      ensures fields == Empty && added == []
      ensures onetimeAutoUpdate && !forceEditUpdate
      ensures templateFile == None && template == null
      ensures SettingsPayload() == Settings(".ipub-slug-box", true, false, [])
    {
      fields := Empty;
      added := [];
      onetimeAutoUpdate := true;
      forceEditUpdate := false;
      templateFile := None;
      template := null;
    }

    /** The settings payload of `getControl`: the toggle selector, the two flags
        and one `#id` per distinct watched id, in first-insertion order. */
    function SettingsPayload(): (r: Settings)
      reads this
      requires FieldsValid()
      ensures r.toggle == ToggleBox
      ensures r.onetime == onetimeAutoUpdate && r.forceEdit == forceEditUpdate
      ensures r.fields == IdSelectors(FirstOccurrences(Ids(added)))
      ensures |r.fields| == DistinctIdCount(added)
    {
      SelectorsAfterAdds(added);
      SelectorCount(added);
      BuildSettings(onetimeAutoUpdate, forceEditUpdate, fields)
    }

    /** `getTemplateFile`: the override if one was set, else the packaged default. */
    function TemplateFile(): (r: string)
      reads this
      ensures templateFile.Some? ==> r == templateFile.value
      ensures templateFile.None? ==> r == PackagedTemplate("default.latte")
    {
      if templateFile.Some? then templateFile.value else DefaultTemplateFile
    }

    /** `addField`: registers the field under its html id. */
    method AddField(f: Field)
      requires Valid()
      modifies this`fields, this`added
      ensures Valid()
      ensures added == old(added) + [f]
      ensures fields == old(fields).Set(f.htmlId, f)
      ensures SettingsPayload().fields == old(SettingsPayload().fields) + (if f.htmlId in old(fields.entries) then [] else ["#" + f.htmlId])
    {
      SelectorsAfterAdd(added, f);
      fields := fields.Set(f.htmlId, f);
      added := added + [f];
      assert added[..|added| - 1] == old(added);
    }

    method DisableOneTimeUpdate()
      requires Valid()
      modifies this`onetimeAutoUpdate
      ensures Valid() && !onetimeAutoUpdate
      ensures SettingsPayload() == old(SettingsPayload()).(onetime := false)
    {
      onetimeAutoUpdate := false;
    }

    method EnableOneTimeUpdate()
      requires Valid()
      modifies this`onetimeAutoUpdate
      ensures Valid() && onetimeAutoUpdate
      ensures SettingsPayload() == old(SettingsPayload()).(onetime := true)
    {
      onetimeAutoUpdate := true;
    }

    method DisableForceEditUpdate()
      requires Valid()
      modifies this`forceEditUpdate
      ensures Valid() && !forceEditUpdate
      ensures SettingsPayload() == old(SettingsPayload()).(forceEdit := false)
    {
      forceEditUpdate := false;
    }

    method EnableForceEditUpdate()
      requires Valid()
      modifies this`forceEditUpdate
      ensures Valid() && forceEditUpdate
      ensures SettingsPayload() == old(SettingsPayload()).(forceEdit := true)
    {
      forceEditUpdate := true;
    }

    /** `setTemplateFile`: stores the resolved path, or fails and leaves the
        override as it was. */
    method SetTemplateFile(path: string, isFile: string -> bool) returns (r: Outcome<Error>)
      requires Valid()
      modifies this`templateFile
      ensures Valid()
      ensures ResolveTemplateFile(path, isFile).Success? ==>
                r == Pass && templateFile == Some(ResolveTemplateFile(path, isFile).value)
                && TemplateFile() == ResolveTemplateFile(path, isFile).value
      ensures ResolveTemplateFile(path, isFile).Failure? ==>
                r == Fail(ResolveTemplateFile(path, isFile).error) && templateFile == old(templateFile)
    {
      var file := path;
      if !isFile(file) {
        if isFile(Dir + Sep + "template" + Sep + file) {
          file := Dir + Sep + "template" + Sep + file;
        } else {
          return Fail(FileNotFound(NotFoundMessage(file)));
        }
      }
      templateFile := Some(file);
      r := Pass;
    }

    /** `getTemplate`: creates the template and binds it to `TemplateFile()` on
        the first call; every later call returns that same template untouched. */
    method GetTemplate() returns (t: Template)
      requires Valid()
      modifies this`template
      ensures Valid() && template == t && t.file.Some?
      ensures old(template) != null ==> t == old(template) && t.file == old(template.file)
      ensures old(template) == null ==> fresh(t) && t.file == Some(TemplateFile()) && t.settings == None
    {
      if template == null {
        var created := new Template();
        created.SetFile(TemplateFile());
        template := created;
      }
      t := template;
    }

    /** `getControl`, without the HTML: binds the template if needed, assigns it
        the settings payload and returns the file it renders and that payload. */
    method GetControl() returns (file: string, settings: Settings)
      requires Valid()
      modifies this`template, template
      ensures Valid() && template != null
      ensures template.file == Some(file) && template.settings == Some(settings)
      ensures settings == SettingsPayload()
      ensures old(template) != null ==> template == old(template) && Some(file) == old(template.file)
      ensures old(template) == null ==> fresh(template) && file == old(TemplateFile())
    {
      var t := GetTemplate();
      // The template was bound when it was created, so the fallback that sets a
      // file on an unbound template never runs.
      assert t.file != None;
      settings := SettingsPayload();
      t.settings := Some(settings);
      file := t.file.value;
    }
  }

  /** Once rendered, the control keeps its template file even if a different
      template file is set afterwards. */
  method TemplateFileIsFixedAfterFirstRender(s: Slug, path: string, isFile: string -> bool)
    returns (first: string, second: string)
    requires s.Valid()
    modifies s, s.template
    ensures first == second
  {
    var p;
    first, p := s.GetControl();
    var _ := s.SetTemplateFile(path, isFile);
    second, p := s.GetControl();
  }

  /** A worked example, not a model of a source function: two watched fields and
      both flags flipped give the payload listing both fields in the order they
      were added; adding the first again keeps it first. */
  method TwoFieldsScenario(title: Field, subtitle: Field, retitled: Field)
    requires title.htmlId == "title-id" && subtitle.htmlId == "subtitle-id"
    requires retitled.htmlId == "title-id"
  {
    assert "#" + "title-id" == "#title-id" && "#" + "subtitle-id" == "#subtitle-id";
    var s := new Slug();
    s.AddField(title);
    assert s.SettingsPayload().fields == ["#title-id"];
    assert s.fields.entries.Keys == {"title-id"};
    s.AddField(subtitle);
    assert s.SettingsPayload().fields == ["#title-id", "#subtitle-id"];
    s.DisableOneTimeUpdate();
    s.EnableForceEditUpdate();
    assert s.SettingsPayload() == Settings(".ipub-slug-box", false, true, ["#title-id", "#subtitle-id"]);
    s.AddField(retitled);
    assert s.SettingsPayload().fields == ["#title-id", "#subtitle-id"];
    assert s.fields.entries["title-id"] == retitled;
  }
}
