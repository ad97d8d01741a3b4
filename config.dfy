/**
 * The project.yaml checks of `load_config` in build/build_fmu.py, and the reading of the
 * values `generate_build_script` takes from the parsed document.
 */
module Config {
  import opened Wrappers

  /**
   * A value of the parsed YAML document: a string, a scalar of another type (a number, a
   * boolean or null, held as the text Python's `str()` gives it), a list or a mapping.
   */
  datatype Node =
    | Scalar(text: string)
    | NonString(shown: string)
    | List(elems: seq<Node>)
    | Mapping(entries: map<string, Node>)

  /** The top level of project.yaml: section name to value. */
  type Document = map<string, Node>

  /**
   * Why `load_config` stops the build. NotSearchable is the TypeError Python raises when
   * it asks `key in section` of a number, a boolean or null.
   */
  datatype ConfigError = MissingSection(section: string) | NotSearchable(section: string) | MissingModelClass | MissingMainFile

  /** `needle` occurs in `hay` as a contiguous run (Python's `needle in hay` on strings). */
  predicate Occurs(needle: string, hay: string)
    decreases |hay|
  {
    needle <= hay || (|hay| > 0 && Occurs(needle, hay[1..]))
  }

  /** Whether Python's `key in node` is defined: it raises TypeError on a non-string scalar. */
  predicate Searchable(node: Node) {
    !node.NonString?
  }

  /** Python's `key in node` for each kind of YAML value it is defined on. */
  predicate Contains(node: Node, key: string)
    requires Searchable(node)
  {
    match node
    case Scalar(text) => Occurs(key, text)
    case List(elems) => Scalar(key) in elems
    case Mapping(entries) => key in entries
  }

  /** The sections every project.yaml must have, in the order they are checked. */
  const RequiredSections: seq<string> := ["project", "modelica", "files", "fmu"]

  /** Index of the first name in `names` that `doc` lacks, or |names| when none is missing. */
  function FirstAbsent(doc: Document, names: seq<string>): (k: nat)
    ensures k <= |names|
    ensures forall j :: 0 <= j < k ==> names[j] in doc
    ensures k < |names| ==> names[k] !in doc
  {
    if names == [] then 0
    else if names[0] !in doc then 0
    else 1 + FirstAbsent(doc, names[1..])
  }

  ghost predicate HasSections(doc: Document) {
    "project" in doc && "modelica" in doc && "files" in doc && "fmu" in doc
  }

  /** What `load_config` accepts: the four sections, `modelica.model_class` and `files.main`. */
  ghost predicate Accepted(doc: Document) {
    && HasSections(doc)
    && Searchable(doc["modelica"]) && Contains(doc["modelica"], "model_class")
    && Searchable(doc["files"]) && Contains(doc["files"], "main")
  }

  /**
   * `load_config` after the YAML has been read: the sections are checked in the order of
   * RequiredSections and the first absent one is reported; then `modelica.model_class`,
   * then `files.main`, each test raising on a section it cannot search. An accepted
   * document is returned unchanged.
   */
  function LoadConfig(doc: Document): (r: Result<Document, ConfigError>)
    ensures r.Ok? <==> Accepted(doc)
    ensures r.Ok? ==> r.value == doc
    ensures r.Err? && r.error.MissingSection? ==>
      && r.error.section in RequiredSections
      && r.error.section !in doc
      && forall j :: 0 <= j < |RequiredSections| && RequiredSections[j] == r.error.section ==>
           forall i :: 0 <= i < j ==> RequiredSections[i] in doc
    ensures r == Err(NotSearchable("modelica")) <==> HasSections(doc) && !Searchable(doc["modelica"])
    ensures r == Err(MissingModelClass) <==>
      HasSections(doc) && Searchable(doc["modelica"]) && !Contains(doc["modelica"], "model_class")
    ensures r == Err(NotSearchable("files")) <==>
      && HasSections(doc) && Searchable(doc["modelica"]) && Contains(doc["modelica"], "model_class")
      && !Searchable(doc["files"])
    ensures r == Err(MissingMainFile) <==>
      && HasSections(doc) && Searchable(doc["modelica"]) && Contains(doc["modelica"], "model_class")
      && Searchable(doc["files"]) && !Contains(doc["files"], "main")
  {
    var k := FirstAbsent(doc, RequiredSections);
    if k < |RequiredSections| then Err(MissingSection(RequiredSections[k]))
    else
      assert HasSections(doc) by {
        assert RequiredSections[0] in doc && RequiredSections[1] in doc;
        assert RequiredSections[2] in doc && RequiredSections[3] in doc;
      }
      if !Searchable(doc["modelica"]) then Err(NotSearchable("modelica"))
      else if !Contains(doc["modelica"], "model_class") then Err(MissingModelClass)
      else if !Searchable(doc["files"]) then Err(NotSearchable("files"))
      else if !Contains(doc["files"], "main") then Err(MissingMainFile)
      else Ok(doc)
  }

  /** An external library entry of `external_libraries`. */
  datatype Library = Library(name: string, path: string)

  /**
   * The values `generate_build_script` reads. The optional ones are None when the key is
   * absent; the generator supplies the defaults, as the source does at the point of use.
   */
  datatype BuildConfig = BuildConfig(
    modelClass: string,
    mainFile: string,
    dependencies: seq<string>,
    libraries: seq<Library>,
    mslVersion: Option<string>,
    fmuVersion: Option<string>,
    fmuType: Option<string>,
    outputName: Option<string>,
    platform: Option<string>)

  /** `node[key]`; None stands for the KeyError or TypeError Python raises. */
  function Item(node: Node, key: string): Option<Node> {
    if node.Mapping? && key in node.entries then Some(node.entries[key]) else None
  }

  /**
   * The text an f-string gives a scalar: a string as it is, any other scalar as its
   * `str()`. None for a list or a mapping.
   */
  function Text(node: Node): Option<string> {
    match node
    case Scalar(text) => Some(text)
    case NonString(shown) => Some(shown)
    case _ => None
  }

  /** `node[key]` is present and an f-string renders it as `v` (or, for v == None, it is absent). */
  predicate Reads(node: Node, key: string, v: Option<string>) {
    match Item(node, key)
    case None => v.None?
    case Some(n) => v.Some? && Text(n) == v
  }

  /** `node.get(key)` of a value used in an f-string: Some(None) when the key is absent. */
  function OptionalText(node: Node, key: string): Option<Option<string>> {
    if !node.Mapping? then None
    else if key !in node.entries then Some(None)
    else
      var text :- Text(node.entries[key]);
      Some(Some(text))
  }

  /**
   * `node.get(key)` of a value that must be a string: the generator compares the MSL
   * version with 'default' and then asks `.startswith("4.")` of it, which raises on
   * anything else.
   */
  function OptionalString(node: Node, key: string): Option<Option<string>> {
    if !node.Mapping? then None
    else if key !in node.entries then Some(None)
    else if node.entries[key].Scalar? then Some(Some(node.entries[key].text))
    else None
  }

  /**
   * The items Python's `for` visits: a list's elements, a string's characters (each a
   * one-character string). An empty mapping gives none; None for a scalar that is not a
   * string, on which `for` raises.
   */
  function Items(node: Node): Option<seq<Node>> {
    match node
    case List(elems) => Some(elems)
    case Scalar(text) => Some(seq(|text|, i requires 0 <= i < |text| => Scalar([text[i]])))
    case Mapping(entries) => if entries == map[] then Some([]) else None
    case NonString(_) => None
  }

  /** `entries.get(key, [])`, iterated. */
  function OptionalItems(entries: map<string, Node>, key: string): Option<seq<Node>> {
    if key !in entries then Some([]) else Items(entries[key])
  }

  /** Each node rendered by an f-string; None as soon as one cannot be. */
  function Texts(nodes: seq<Node>): (r: Option<seq<string>>)
    ensures r.Some? <==> forall i :: 0 <= i < |nodes| ==> Text(nodes[i]).Some?
    ensures r.Some? ==> |r.value| == |nodes| && forall i :: 0 <= i < |nodes| ==> Text(nodes[i]) == Some(r.value[i])
  {
    if nodes == [] then Some([])
    else
      var first :- Text(nodes[0]);
      var rest :- Texts(nodes[1..]);
      Some([first] + rest)
  }

  /** A value an f-string can render: any scalar, but no list or mapping. */
  predicate IsRenderable(node: Node) {
    node.Scalar? || node.NonString?
  }

  /** `node[key]` exists and can be rendered. */
  ghost predicate RenderableAt(node: Node, key: string) {
    node.Mapping? && key in node.entries && IsRenderable(node.entries[key])
  }

  /** `node.get(key)` of a mapping is absent or can be rendered. */
  ghost predicate RenderableIfPresent(node: Node, key: string) {
    node.Mapping? && (key in node.entries ==> IsRenderable(node.entries[key]))
  }

  /** A library entry with a renderable `path` and `name`. */
  ghost predicate IsLibraryEntry(node: Node) {
    RenderableAt(node, "path") && RenderableAt(node, "name")
  }

  /** A `dependencies` value the generator's loop can go through, rendering each item. */
  ghost predicate DependenciesValue(node: Node) {
    match node
    case List(es) => forall i :: 0 <= i < |es| ==> IsRenderable(es[i])
    case Scalar(_) => true
    case Mapping(m) => m == map[]
    case NonString(_) => false
  }

  /** An `external_libraries` value the generator's loop can go through, reading each entry. */
  ghost predicate LibrariesValue(node: Node) {
    match node
    case List(es) => forall i :: 0 <= i < |es| ==> IsLibraryEntry(es[i])
    case Scalar(t) => t == []
    case Mapping(m) => m == map[]
    case NonString(_) => false
  }

  /**
   * The documents `generate_build_script` reads without raising: the three sections it
   * uses are mappings, `model_class` and `main` are present and renderable, the lists
   * can be iterated and each item used, `msl_version` is absent or a string, and each fmu
   * option is absent or renderable.
   */
  ghost predicate Readable(doc: Document) {
    && "modelica" in doc && doc["modelica"].Mapping?
    && "files" in doc && doc["files"].Mapping?
    && "fmu" in doc && doc["fmu"].Mapping?
    && RenderableAt(doc["modelica"], "model_class")
    && RenderableAt(doc["files"], "main")
    && ("dependencies" in doc["files"].entries ==> DependenciesValue(doc["files"].entries["dependencies"]))
    && ("external_libraries" in doc ==> LibrariesValue(doc["external_libraries"]))
    && ("msl_version" in doc["modelica"].entries ==> doc["modelica"].entries["msl_version"].Scalar?)
    && RenderableIfPresent(doc["fmu"], "version")
    && RenderableIfPresent(doc["fmu"], "type")
    && RenderableIfPresent(doc["fmu"], "output_name")
    && RenderableIfPresent(doc["fmu"], "platform")
  }

  /** An external library entry read as `lib['path']` and `lib["name"]`. */
  function LibraryOf(node: Node): (r: Option<Library>)
    ensures r.Some? <==> IsLibraryEntry(node)
    ensures r.Some? ==> Reads(node, "path", Some(r.value.path)) && Reads(node, "name", Some(r.value.name))
  {
    var path :- Item(node, "path");
    var path :- Text(path);
    var name :- Item(node, "name");
    var name :- Text(name);
    Some(Library(name, path))
  }

  /** Every entry read as a library; None as soon as one cannot be. */
  function Libraries(nodes: seq<Node>): (r: Option<seq<Library>>)
    ensures r.Some? <==> forall i :: 0 <= i < |nodes| ==> LibraryOf(nodes[i]).Some?
    ensures r.Some? ==> |r.value| == |nodes| && forall i :: 0 <= i < |nodes| ==> LibraryOf(nodes[i]) == Some(r.value[i])
  {
    if nodes == [] then Some([])
    else
      var first :- LibraryOf(nodes[0]);
      var rest :- Libraries(nodes[1..]);
      Some([first] + rest)
  }

  /** Section `name` of the document, which must be a mapping. */
  function Section(doc: Document, name: string): Option<Node> {
    if name in doc && doc[name].Mapping? then Some(doc[name]) else None
  }

  /**
   * The lookups of `generate_build_script`; None exactly when one of them would raise. The model
   * class and main file are read as f-strings render them, the MSL version only when it
   * is a string, and an optional key that is absent stays None.
   */
  function Extract(doc: Document): (r: Option<BuildConfig>)
    ensures r.Some? <==> Readable(doc)
    ensures r.Some? ==>
      && Section(doc, "modelica").Some? && Section(doc, "files").Some? && Section(doc, "fmu").Some?
      && Reads(doc["modelica"], "model_class", Some(r.value.modelClass))
      && Reads(doc["files"], "main", Some(r.value.mainFile))
      && (r.value.mslVersion.None? <==> Item(doc["modelica"], "msl_version").None?)
      && (r.value.mslVersion.Some? ==> Item(doc["modelica"], "msl_version") == Some(Scalar(r.value.mslVersion.value)))
      && Reads(doc["fmu"], "version", r.value.fmuVersion)
      && Reads(doc["fmu"], "type", r.value.fmuType)
      && Reads(doc["fmu"], "output_name", r.value.outputName)
      && Reads(doc["fmu"], "platform", r.value.platform)
  {
    var modelica :- Section(doc, "modelica");
    var files :- Section(doc, "files");
    var fmu :- Section(doc, "fmu");
    var modelClassNode :- Item(modelica, "model_class");
    var modelClass :- Text(modelClassNode);
    var mainNode :- Item(files, "main");
    var mainFile :- Text(mainNode);
    var depNodes :- OptionalItems(files.entries, "dependencies");
    var dependencies :- Texts(depNodes);
    var libNodes :- OptionalItems(doc, "external_libraries");
    var libraries :- Libraries(libNodes);
    var msl :- OptionalString(modelica, "msl_version");
    var version :- OptionalText(fmu, "version");
    var fmuType :- OptionalText(fmu, "type");
    var outputName :- OptionalText(fmu, "output_name");
    var platform :- OptionalText(fmu, "platform");
    Some(BuildConfig(modelClass, mainFile, dependencies, libraries, msl, version, fmuType, outputName, platform))
  }

  /**
   * A document with the three sections, a renderable model class and main file and none
   * of the optional keys is read with every option unset and no library or dependency,
   * so the generator falls back to all of its defaults.
   */
  lemma MinimalConfigDefaults(doc: Document)
    requires forall name :: name in ["modelica", "files", "fmu"] ==> name in doc && doc[name].Mapping?
    requires RenderableAt(doc["modelica"], "model_class") && RenderableAt(doc["files"], "main")
    requires "external_libraries" !in doc && "dependencies" !in doc["files"].entries
    requires "msl_version" !in doc["modelica"].entries
    requires forall key :: key in ["version", "type", "output_name", "platform"] ==> key !in doc["fmu"].entries
    ensures Extract(doc) == Some(BuildConfig(
      Text(doc["modelica"].entries["model_class"]).value,
      Text(doc["files"].entries["main"]).value,
      [], [], None, None, None, None, None))
  {
    assert "modelica" in ["modelica", "files", "fmu"] && "files" in ["modelica", "files", "fmu"];
    assert "fmu" in ["modelica", "files", "fmu"];
    assert "version" in ["version", "type", "output_name", "platform"];
    assert "type" in ["version", "type", "output_name", "platform"];
    assert "output_name" in ["version", "type", "output_name", "platform"];
    assert "platform" in ["version", "type", "output_name", "platform"];
  }

  /** The lists `Extract` reads, as the items of their keys. */
  lemma ExtractedLists(doc: Document)
    requires Extract(doc).Some?
    ensures Section(doc, "files").Some?
    ensures OptionalItems(doc["files"].entries, "dependencies").Some?
    ensures Texts(OptionalItems(doc["files"].entries, "dependencies").value) == Some(Extract(doc).value.dependencies)
    ensures OptionalItems(doc, "external_libraries").Some?
    ensures Libraries(OptionalItems(doc, "external_libraries").value) == Some(Extract(doc).value.libraries)
  {
  }

  /**
   * The dependencies are the rendered elements of a list, or the characters of a string
   * (Python loops over a string character by character); none when the key is absent.
   */
  lemma DependenciesRead(doc: Document)
    requires Extract(doc).Some?
    ensures Section(doc, "files").Some?
    ensures var deps := Extract(doc).value.dependencies;
      var files := doc["files"].entries;
      && ("dependencies" !in files ==> deps == [])
      && ("dependencies" in files ==>
            match files["dependencies"]
            case List(es) => |deps| == |es| && forall i :: 0 <= i < |es| ==> Text(es[i]) == Some(deps[i])
            case Scalar(t) => |deps| == |t| && forall i :: 0 <= i < |t| ==> deps[i] == [t[i]]
            case Mapping(m) => m == map[] && deps == []
            case NonString(_) => false)
  {
    ExtractedLists(doc);
    var files := doc["files"].entries;
    var nodes := OptionalItems(files, "dependencies").value;
    var deps := Extract(doc).value.dependencies;
    assert Texts(nodes) == Some(deps);
    if "dependencies" in files && files["dependencies"].Scalar? {
      var t := files["dependencies"].text;
      forall i | 0 <= i < |t| ensures deps[i] == [t[i]] {
        assert nodes[i] == Scalar([t[i]]);
      }
    }
  }

  /**
   * The libraries are read entry by entry from a list of mappings, each with its `path`
   * and `name`; an absent key, an empty string or an empty mapping gives none.
   */
  lemma LibrariesRead(doc: Document)
    requires Extract(doc).Some?
    ensures var libs := Extract(doc).value.libraries;
      && ("external_libraries" !in doc ==> libs == [])
      && ("external_libraries" in doc ==> LibraryList(doc["external_libraries"], libs))
  {
    ExtractedLists(doc);
    if "external_libraries" in doc {
      LibraryItems(doc["external_libraries"], Extract(doc).value.libraries);
    }
  }

  /** What a value read as `external_libraries` holds when it yields `libs`. */
  ghost predicate LibraryList(node: Node, libs: seq<Library>) {
    match node
    case List(es) =>
      && |libs| == |es|
      && forall i :: 0 <= i < |es| ==> Reads(es[i], "path", Some(libs[i].path)) && Reads(es[i], "name", Some(libs[i].name))
    case Scalar(t) => t == [] && libs == []
    case Mapping(m) => m == map[] && libs == []
    case NonString(_) => false
  }

  lemma LibraryItems(node: Node, libs: seq<Library>)
    requires Items(node).Some? && Libraries(Items(node).value) == Some(libs)
    ensures LibraryList(node, libs)
  {
  }

  /**
   * An MSL version that is not a string (`msl_version: 4.0` loads as a float) stops the
   * generator: `.startswith` raises on it before the script is written.
   */
  lemma NonStringMslStopsTheBuild(doc: Document, v: Node)
    requires Section(doc, "modelica").Some?
    requires Item(doc["modelica"], "msl_version") == Some(v) && !v.Scalar?
    ensures Extract(doc) == None
  {
  }

  /** A document the generator can read and that names a project passes `load_config` unchanged. */
  lemma ReadableConfigIsAccepted(doc: Document)
    requires Extract(doc).Some?
    requires "project" in doc
    ensures LoadConfig(doc) == Ok(doc)
  {
  }
}
