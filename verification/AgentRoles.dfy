/**
 Layered agent-role loading. Reading files and TOML is an oracle: each layer
 comes with what reading its declarations and its folder gave.
 */
module AgentRoles {
  import opened Sequences
  import opened Wrappers
  import opened Sorting
  import opened TextOrder

  datatype Result<+T> = Ok(value: T) | Err(error: string)

  datatype Role = Role(description: Option<string>, configFile: Option<string>, nicknames: Option<seq<string>>)

  datatype ParsedFile = ParsedFile(name: string, description: Option<string>, nicknames: Option<seq<string>>)

  /** A declared role, what its table gave, and what its config file (if it has one) would give. */
  datatype Declaration = Declaration(name: string, config: Result<Role>, file: Result<ParsedFile>)

  datatype AgentFile = AgentFile(path: string, content: Result<ParsedFile>)

  /** One config layer, its declarations in key order and its folder's role files in path order. */
  datatype Layer = Layer(declared: Result<seq<Declaration>>, folder: Option<Result<seq<AgentFile>>>)

  datatype Warning =
    | BadAgentsTable(error: string) | BadDeclaration(error: string) | BadFile(error: string)
    | DuplicateInLayer(name: string) | DuplicateInFolder(name: string) | NoDescription(name: string)

  type Roles = map<string, Role>

  // ---------------------------------------------------------------- one layer

  /** `read_declared_role`: a config file may rename the role and wins over the table. */
  function ReadDeclared(d: Declaration): Result<(string, Role)> {
    if d.config.Err? then Err(d.config.error)
    else if d.config.value.configFile.None? then Ok((d.name, d.config.value))
    else if d.file.Err? then Err(d.file.error)
    else Ok((d.file.value.name,
             d.config.value.(description := d.file.value.description.Or(d.config.value.description),
                             nicknames := d.file.value.nicknames.Or(d.config.value.nicknames))))
  }

  datatype LayerState = LayerState(roles: Roles, files: set<string>, warnings: seq<Warning>)

  function AddDeclared(s: LayerState, d: Declaration): LayerState {
    var r := ReadDeclared(d);
    if r.Err? then s.(warnings := s.warnings + [BadDeclaration(r.error)]) else
      var (name, role) := r.value;
      var files := if role.configFile.Some? then s.files + {role.configFile.value} else s.files;
      if name in s.roles then s.(files := files, warnings := s.warnings + [DuplicateInLayer(name)])
      else s.(files := files, roles := s.roles[name := role])
  }

  function Declared(decls: seq<Declaration>): LayerState {
    if decls == [] then LayerState(map[], {}, []) else AddDeclared(Declared(decls[..|decls| - 1]), decls[|decls| - 1])
  }

  function AddFile(s: LayerState, f: AgentFile): LayerState {
    if f.path in s.files then s
    else if f.content.Err? then s.(warnings := s.warnings + [BadFile(f.content.error)])
    else
      var p := f.content.value;
      if p.name in s.roles then s.(warnings := s.warnings + [DuplicateInFolder(p.name)])
      else s.(roles := s.roles[p.name := Role(p.description, Some(f.path), p.nicknames)])
  }

  /** `discover_agent_roles_in_dir`, skipping the files that were declared. */
  function Discovered(files: seq<AgentFile>, declaredFiles: set<string>): LayerState {
    if files == [] then LayerState(map[], declaredFiles, [])
    else AddFile(Discovered(files[..|files| - 1], declaredFiles), files[|files| - 1])
  }

  function DuplicateWarnings(names: seq<string>): seq<Warning> {
    seq(|names|, k requires 0 <= k < |names| => DuplicateInLayer(names[k]))
  }

  /** Declared roles win over discovered ones of the same name. */
  function Combined(declared: LayerState, found: LayerState): LayerState {
    LayerState(found.roles + declared.roles, declared.files,
               declared.warnings + found.warnings
                 + DuplicateWarnings(SortedTexts(found.roles.Keys * declared.roles.Keys)))
  }

  function LayerDeclared(layer: Layer): LayerState {
    if layer.declared.Err? then LayerState(map[], {}, [BadAgentsTable(layer.declared.error)])
    else Declared(layer.declared.value)
  }

  /** The definitions a layer contributes; a folder that cannot be listed fails the whole load. */
  function LayerRoles(layer: Layer): (Result<Roles>, seq<Warning>) {
    var declared := LayerDeclared(layer);
    if layer.folder.None? then (Ok(declared.roles), declared.warnings)
    else if layer.folder.value.Err? then (Err(layer.folder.value.error), declared.warnings)
    else
      var all := Combined(declared, Discovered(layer.folder.value.value, declared.files));
      (Ok(all.roles), all.warnings)
  }

  // ---------------------------------------------------------------- merging layers

  /** `merge_missing_role_fields`. */
  function MergeMissing(role: Role, fallback: Role): Role {
    Role(role.description.Or(fallback.description), role.configFile.Or(fallback.configFile),
         role.nicknames.Or(fallback.nicknames))
  }

  function Merged(roles: Roles, layer: Roles, name: string): Role
    requires name in layer
  {
    if name in roles then MergeMissing(layer[name], roles[name]) else layer[name]
  }

  function MergeLayer(roles: Roles, layer: Roles): Roles {
    roles + map n | n in layer && Merged(roles, layer, n).description.Some? :: Merged(roles, layer, n)
  }

  function Undescribed(roles: Roles, layer: Roles): set<string> {
    set n | n in layer && Merged(roles, layer, n).description.None?
  }

  function DescriptionWarnings(names: seq<string>): seq<Warning> {
    seq(|names|, k requires 0 <= k < |names| => NoDescription(names[k]))
  }

  datatype Load = Load(result: Result<Roles>, warnings: seq<Warning>)

  function AddLayer(before: Load, layer: Layer): Load {
    if before.result.Err? then before else
      var (found, warnings) := LayerRoles(layer);
      if found.Err? then Load(Err(found.error), before.warnings + warnings)
      else Load(Ok(MergeLayer(before.result.value, found.value)),
                before.warnings + warnings
                  + DescriptionWarnings(SortedTexts(Undescribed(before.result.value, found.value))))
  }

  function LoadLayers(layers: seq<Layer>): Load {
    if layers == [] then Load(Ok(map[]), []) else AddLayer(LoadLayers(layers[..|layers| - 1]), layers[|layers| - 1])
  }

  // ---------------------------------------------------------------- without layers

  datatype PlainError = Unreadable(error: string) | Undescribable(name: string) | Repeated(name: string)
  datatype PlainLoad = Loaded(roles: Roles) | Failed(error: PlainError)

  function AddPlain(before: PlainLoad, d: Declaration): PlainLoad {
    if before.Failed? then before else
      var r := ReadDeclared(d);
      if r.Err? then Failed(Unreadable(r.error))
      else if r.value.1.description.None? then Failed(Undescribable(r.value.0))
      else if r.value.0 in before.roles then Failed(Repeated(r.value.0))
      else Loaded(before.roles[r.value.0 := r.value.1])
  }

  function LoadPlain(decls: seq<Declaration>): PlainLoad {
    if decls == [] then Loaded(map[]) else AddPlain(LoadPlain(decls[..|decls| - 1]), decls[|decls| - 1])
  }

  /** Without layers every declaration must be readable, described and uniquely named. */
  ghost predicate AllUsable(decls: seq<Declaration>) {
    && (forall k :: 0 <= k < |decls| ==> Usable(decls[k]))
    && (forall j, k :: 0 <= j < k < |decls| ==> NameOf(decls[j]) != NameOf(decls[k]))
  }

  predicate Usable(d: Declaration) {
    ReadDeclared(d).Ok? && ReadDeclared(d).value.1.description.Some?
  }

  function NameOf(d: Declaration): Option<string> {
    if ReadDeclared(d).Ok? then Some(ReadDeclared(d).value.0) else None
  }

  /** The roles are exactly the declared ones. */
  ghost predicate HoldsExactly(roles: Roles, decls: seq<Declaration>) {
    && (forall k :: 0 <= k < |decls| ==>
        ReadDeclared(decls[k]).Ok?
          && Lookup(roles, ReadDeclared(decls[k]).value.0) == Some(ReadDeclared(decls[k]).value.1))
    && (forall n :: n in roles ==> Named(decls, n))
  }

  ghost predicate Named(decls: seq<Declaration>, name: string) {
    exists k :: 0 <= k < |decls| && NameOf(decls[k]) == Some(name)
  }

  lemma {:induction false} PlainLoadMeaning(decls: seq<Declaration>)
    ensures LoadPlain(decls).Loaded? <==> AllUsable(decls)
    ensures LoadPlain(decls).Loaded? ==> HoldsExactly(LoadPlain(decls).roles, decls)
  {
    if decls != [] {
      var n := |decls| - 1;
      var before, last := decls[..n], decls[n];
      PlainLoadMeaning(before);
      assert decls == before + [last];
      if AllUsable(decls) {
        UsablePrefix(before, last);
      }
      if AllUsable(before) && Usable(last) {
        PlainStep(before, last, LoadPlain(before).roles);
      }
    }
  }

  lemma UsablePrefix(before: seq<Declaration>, last: Declaration)
    requires AllUsable(before + [last])
    ensures AllUsable(before) && Usable(last)
  {
    var all := before + [last];
    assert all[|before|] == last;
    assert forall k :: 0 <= k < |before| ==> all[k] == before[k];
  }

  lemma PlainStep(before: seq<Declaration>, last: Declaration, roles: Roles)
    requires AllUsable(before) && HoldsExactly(roles, before)
    requires Usable(last)
    ensures AllUsable(before + [last]) <==> ReadDeclared(last).value.0 !in roles
    ensures ReadDeclared(last).value.0 !in roles ==>
            HoldsExactly(roles[ReadDeclared(last).value.0 := ReadDeclared(last).value.1], before + [last])
  {
    var (name, role) := ReadDeclared(last).value;
    var all, n := before + [last], |before|;
    assert all[n] == last && forall k :: 0 <= k < n ==> all[k] == before[k];
    if name in roles {
      assert Named(before, name);
      var k :| 0 <= k < n && NameOf(before[k]) == Some(name);
      assert NameOf(all[k]) == NameOf(all[n]);
    } else {
      var next := roles[name := role];
      forall x | x in next
        ensures Named(all, x)
      {
        if x == name {
          assert NameOf(all[n]) == Some(x);
        } else {
          assert Named(before, x);
          var k :| 0 <= k < n && NameOf(before[k]) == Some(x);
          assert NameOf(all[k]) == Some(x);
        }
      }
    }
  }

  // ---------------------------------------------------------------- the closed form

  /** The accepted definitions of one name, layer by layer. */
  function Definitions(layers: seq<Roles>, name: string): seq<Option<Role>> {
    seq(|layers|, k requires 0 <= k < |layers| => if name in layers[k] then Some(layers[k][name]) else None)
  }

  predicate Describes(d: Option<Role>) {
    d.Some? && d.value.description.Some?
  }

  /** The first describing layer, or the number of layers when none describes the name. */
  function FirstDescribing(ds: seq<Option<Role>>): (k: nat)
    ensures k <= |ds|
    ensures k < |ds| ==> Describes(ds[k])
    ensures forall j :: 0 <= j < k ==> !Describes(ds[j])
  {
    if ds == [] then 0 else
      var k := FirstDescribing(ds[..|ds| - 1]);
      if k < |ds| - 1 || Describes(ds[|ds| - 1]) then k else |ds|
  }

  /** A field's value in the highest layer that sets it. */
  function Highest<T>(values: seq<Option<T>>): (v: Option<T>)
    ensures v.None? ==> forall k :: 0 <= k < |values| ==> values[k].None?
    ensures v.Some? ==>
            exists k :: 0 <= k < |values| && values[k] == v && forall j :: k < j < |values| ==> values[j].None?
  {
    if values == [] then None
    else if values[|values| - 1].Some? then values[|values| - 1]
    else Highest(values[..|values| - 1])
  }

  function Descriptions(ds: seq<Option<Role>>): seq<Option<string>> {
    seq(|ds|, k requires 0 <= k < |ds| => if ds[k].Some? then ds[k].value.description else None)
  }

  function ConfigFiles(ds: seq<Option<Role>>): seq<Option<string>> {
    seq(|ds|, k requires 0 <= k < |ds| => if ds[k].Some? then ds[k].value.configFile else None)
  }

  function Nicknames(ds: seq<Option<Role>>): seq<Option<seq<string>>> {
    seq(|ds|, k requires 0 <= k < |ds| => if ds[k].Some? then ds[k].value.nicknames else None)
  }

  /** What a name should load as: each field from the highest layer setting it, from the first describing layer on. */
  function ClosedForm(ds: seq<Option<Role>>): Option<Role> {
    var f := FirstDescribing(ds);
    if f == |ds| then None
    else Some(Role(Highest(Descriptions(ds[f..])), Highest(ConfigFiles(ds[f..])), Highest(Nicknames(ds[f..]))))
  }

  function FoldLayers(layers: seq<Roles>): Roles {
    if layers == [] then map[] else MergeLayer(FoldLayers(layers[..|layers| - 1]), layers[|layers| - 1])
  }

  function Lookup(roles: Roles, name: string): Option<Role> {
    if name in roles then Some(roles[name]) else None
  }

  lemma HighestStep<T>(values: seq<Option<T>>, last: Option<T>)
    ensures Highest(values + [last]) == last.Or(Highest(values))
  {
    assert (values + [last])[..|values|] == values;
  }

  /** What one more definition of a name makes of what the name loaded as. */
  function Refined(prior: Option<Role>, d: Option<Role>): Option<Role> {
    match prior
    case None => if Describes(d) then d else None
    case Some(p) => if d.Some? then Some(MergeMissing(d.value, p)) else Some(p)
  }

  lemma ClosedFormStep(ds: seq<Option<Role>>, d: Option<Role>)
    ensures ClosedForm(ds + [d]) == Refined(ClosedForm(ds), d)
  {
    var f, all := FirstDescribing(ds), ds + [d];
    assert all[..|ds|] == ds;
    if f < |ds| {
      assert all[f..] == ds[f..] + [d];
      var tail := ds[f..];
      assert Descriptions(all[f..]) == Descriptions(tail) + [if d.Some? then d.value.description else None];
      assert ConfigFiles(all[f..]) == ConfigFiles(tail) + [if d.Some? then d.value.configFile else None];
      assert Nicknames(all[f..]) == Nicknames(tail) + [if d.Some? then d.value.nicknames else None];
      HighestStep(Descriptions(tail), if d.Some? then d.value.description else None);
      HighestStep(ConfigFiles(tail), if d.Some? then d.value.configFile else None);
      HighestStep(Nicknames(tail), if d.Some? then d.value.nicknames else None);
    } else if Describes(d) {
      assert all[|ds|..] == [d];
      assert Descriptions([d]) == [d.value.description] && ConfigFiles([d]) == [d.value.configFile]
        && Nicknames([d]) == [d.value.nicknames];
      HighestStep([], d.value.description);
      HighestStep([], d.value.configFile);
      HighestStep([], d.value.nicknames);
      assert [] + [d.value.description] == [d.value.description];
      assert [] + [d.value.configFile] == [d.value.configFile];
      assert [] + [d.value.nicknames] == [d.value.nicknames];
    }
  }

  lemma MergeRefines(roles: Roles, layer: Roles, name: string)
    requires name in roles ==> roles[name].description.Some?
    ensures Lookup(MergeLayer(roles, layer), name) == Refined(Lookup(roles, name), Lookup(layer, name))
    ensures name in MergeLayer(roles, layer) ==> MergeLayer(roles, layer)[name].description.Some?
  {
  }

  /** Merging layers from low to high gives the closed form of every name. */
  lemma {:induction false} FoldIsClosedForm(layers: seq<Roles>, name: string)
    ensures Lookup(FoldLayers(layers), name) == ClosedForm(Definitions(layers, name))
    ensures name in FoldLayers(layers) ==> FoldLayers(layers)[name].description.Some?
  {
    if layers != [] {
      var n := |layers| - 1;
      FoldIsClosedForm(layers[..n], name);
      var d := Lookup(layers[n], name);
      MergeRefines(FoldLayers(layers[..n]), layers[n], name);
      assert Definitions(layers, name) == Definitions(layers[..n], name) + [d];
      ClosedFormStep(Definitions(layers[..n], name), d);
    }
  }

  /** A name is loaded exactly when some layer describes it. */
  lemma LoadedIffDescribed(layers: seq<Roles>, name: string)
    ensures name in FoldLayers(layers) <==>
            exists k :: 0 <= k < |layers| && name in layers[k] && layers[k][name].description.Some?
  {
    var ds := Definitions(layers, name);
    FoldIsClosedForm(layers, name);
    var f := FirstDescribing(ds);
    if f < |ds| {
      assert Describes(ds[f]);
    }
    if k :| 0 <= k < |layers| && name in layers[k] && layers[k][name].description.Some? {
      assert Describes(ds[k]);
    }
  }

  /** A definition is reported as lacking a description exactly when no layer up to its own describes the name. */
  lemma UndescribedMeaning(layers: seq<Roles>, k: nat, name: string)
    requires k < |layers|
    ensures name in Undescribed(FoldLayers(layers[..k]), layers[k]) <==>
            name in layers[k] && forall j :: 0 <= j <= k ==> name in layers[j] ==> layers[j][name].description.None?
  {
    FoldIsClosedForm(layers[..k], name);
    LoadedIffDescribed(layers[..k], name);
  }

  // ---------------------------------------------------------------- whole loads

  /** Each layer's accepted definitions. */
  function Accepted(layers: seq<Layer>): seq<Roles> {
    seq(|layers|, k requires 0 <= k < |layers| =>
      if LayerRoles(layers[k]).0.Ok? then LayerRoles(layers[k]).0.value else map[])
  }

  lemma AddLayerStep(before: Load, layer: Layer)
    ensures AddLayer(before, layer).result.Ok? <==> before.result.Ok? && LayerRoles(layer).0.Ok?
    ensures AddLayer(before, layer).result.Ok? ==>
              AddLayer(before, layer).result.value == MergeLayer(before.result.value, LayerRoles(layer).0.value)
  {
  }

  lemma {:induction false} LoadSucceeds(layers: seq<Layer>)
    ensures LoadLayers(layers).result.Ok? <==> forall k :: 0 <= k < |layers| ==> LayerRoles(layers[k]).0.Ok?
  {
    if layers != [] {
      var n := |layers| - 1;
      var before := layers[..n];
      LoadSucceeds(before);
      AddLayerStep(LoadLayers(before), layers[n]);
      assert forall k :: 0 <= k < n ==> before[k] == layers[k];
    }
  }

  lemma {:induction false} LoadIsFold(layers: seq<Layer>)
    requires LoadLayers(layers).result.Ok?
    ensures LoadLayers(layers).result.value == FoldLayers(Accepted(layers))
  {
    if layers != [] {
      var n := |layers| - 1;
      AddLayerStep(LoadLayers(layers[..n]), layers[n]);
      LoadIsFold(layers[..n]);
      assert Accepted(layers)[..n] == Accepted(layers[..n]);
    }
  }

  /** A load succeeds exactly when every folder could be listed, and then gives every name its closed form. */
  lemma LoadIsClosedForm(layers: seq<Layer>)
    ensures LoadLayers(layers).result.Ok? <==> forall k :: 0 <= k < |layers| ==> LayerRoles(layers[k]).0.Ok?
    ensures LoadLayers(layers).result.Ok? ==> forall name ::
              Lookup(LoadLayers(layers).result.value, name) == ClosedForm(Definitions(Accepted(layers), name))
  {
    LoadSucceeds(layers);
    if LoadLayers(layers).result.Ok? {
      LoadIsFold(layers);
    }
    forall name
      ensures Lookup(FoldLayers(Accepted(layers)), name) == ClosedForm(Definitions(Accepted(layers), name))
    {
      FoldIsClosedForm(Accepted(layers), name);
    }
  }

  /** What layer `k` reports: its own reading, then one warning for each name no layer so far describes. */
  function LayerWarnings(layers: seq<Layer>, k: nat): seq<Warning>
    requires k < |layers|
  {
    LayerRoles(layers[k]).1
    + DescriptionWarnings(SortedTexts(Undescribed(FoldLayers(Accepted(layers)[..k]), Accepted(layers)[k])))
  }

  function AllWarnings(layers: seq<Layer>, k: nat): seq<Warning>
    requires k <= |layers|
  {
    if k == 0 then [] else AllWarnings(layers, k - 1) + LayerWarnings(layers, k - 1)
  }

  lemma AddLayerWarnings(before: Load, layer: Layer)
    requires before.result.Ok? && LayerRoles(layer).0.Ok?
    ensures AddLayer(before, layer).warnings == before.warnings
            + (LayerRoles(layer).1
               + DescriptionWarnings(SortedTexts(Undescribed(before.result.value, LayerRoles(layer).0.value))))
  {
  }

  lemma FoundWarnings(layers: seq<Layer>, n: nat)
    requires n < |layers| && LoadLayers(layers[..n]).result.Ok? && LayerRoles(layers[n]).0.Ok?
    ensures LayerWarnings(layers, n) == LayerRoles(layers[n]).1
            + DescriptionWarnings(SortedTexts(Undescribed(LoadLayers(layers[..n]).result.value,
                                                          LayerRoles(layers[n]).0.value)))
  {
    LoadIsFold(layers[..n]);
    assert Accepted(layers[..n]) == Accepted(layers)[..n];
  }

  /** A successful load reports exactly the warnings of each layer, in layer order. */
  lemma {:induction false} LoadWarnings(layers: seq<Layer>, k: nat)
    requires k <= |layers| && forall j :: 0 <= j < k ==> LayerRoles(layers[j]).0.Ok?
    ensures LoadLayers(layers[..k]).warnings == AllWarnings(layers, k)
  {
    if k > 0 {
      var n := k - 1;
      var before := layers[..n];
      LoadWarnings(layers, n);
      LoadSucceeds(before);
      FoundWarnings(layers, n);
      AddLayerWarnings(LoadLayers(before), layers[n]);
      assert layers[..k][..n] == before && layers[..k][n] == layers[n];
    }
  }

  /** The first readable declaration of a name. */
  ghost predicate FirstNamed(decls: seq<Declaration>, name: string, k: int) {
    && 0 <= k < |decls| && NameOf(decls[k]) == Some(name)
    && forall j :: 0 <= j < k ==> NameOf(decls[j]) != Some(name)
  }

  ghost predicate Claims(decls: seq<Declaration>, f: string, k: int) {
    0 <= k < |decls| && ReadDeclared(decls[k]).Ok? && ReadDeclared(decls[k]).value.1.configFile == Some(f)
  }

  lemma {:induction false} ClaimedMeaning(decls: seq<Declaration>, f: string)
    ensures f in Declared(decls).files <==> exists k :: Claims(decls, f, k)
  {
    if decls != [] {
      var n := |decls| - 1;
      ClaimedMeaning(decls[..n], f);
      assert forall k :: 0 <= k < n ==> (Claims(decls[..n], f, k) <==> Claims(decls, f, k));
      assert Claims(decls, f, n) <==>
        ReadDeclared(decls[n]).Ok? && ReadDeclared(decls[n]).value.1.configFile == Some(f);
      assert forall k :: Claims(decls, f, k) && k != n ==> Claims(decls[..n], f, k);
    }
  }

  lemma NamedStep(decls: seq<Declaration>, name: string)
    requires decls != []
    ensures var n := |decls| - 1;
            && (Named(decls, name) <==> Named(decls[..n], name) || NameOf(decls[n]) == Some(name))
            && (forall k :: FirstNamed(decls, name, k) && k < n ==> FirstNamed(decls[..n], name, k))
            && (FirstNamed(decls, name, n) ==> !Named(decls[..n], name))
  {
    var n := |decls| - 1;
    var before := decls[..n];
    assert forall k :: 0 <= k < n ==> before[k] == decls[k];
    if Named(before, name) {
      var k :| 0 <= k < n && NameOf(before[k]) == Some(name);
      assert NameOf(decls[k]) == Some(name);
    }
  }

  lemma {:induction false} FirstDeclared(decls: seq<Declaration>, name: string)
    ensures name in Declared(decls).roles <==> Named(decls, name)
    ensures forall k :: FirstNamed(decls, name, k) ==>
              Lookup(Declared(decls).roles, name) == Some(ReadDeclared(decls[k]).value.1)
  {
    if decls != [] {
      var n := |decls| - 1;
      FirstDeclared(decls[..n], name);
      NamedStep(decls, name);
      forall k | FirstNamed(decls, name, k)
        ensures Lookup(Declared(decls).roles, name) == Some(ReadDeclared(decls[k]).value.1)
      {
        if k < n {
          assert FirstNamed(decls[..n], name, k) && decls[..n][k] == decls[k];
        }
      }
    }
  }

  /** A layer keeps the first readable declaration of each name and remembers every declared file. */
  lemma DeclaredMeaning(decls: seq<Declaration>, name: string)
    ensures name in Declared(decls).roles <==> Named(decls, name)
    ensures forall k :: FirstNamed(decls, name, k) ==>
              Lookup(Declared(decls).roles, name) == Some(ReadDeclared(decls[k]).value.1)
    ensures forall f :: f in Declared(decls).files <==> exists k :: Claims(decls, f, k)
  {
    FirstDeclared(decls, name);
    forall f ensures f in Declared(decls).files <==> exists k :: Claims(decls, f, k) { ClaimedMeaning(decls, f); }
  }

  ghost predicate Offers(files: seq<AgentFile>, skipped: set<string>, name: string, k: int) {
    0 <= k < |files| && files[k].path !in skipped && files[k].content.Ok? && files[k].content.value.name == name
  }

  ghost predicate FirstOffer(files: seq<AgentFile>, skipped: set<string>, name: string, k: int) {
    Offers(files, skipped, name, k) && forall j :: 0 <= j < k ==> !Offers(files, skipped, name, j)
  }

  function FileRole(f: AgentFile): Role
    requires f.content.Ok?
  {
    Role(f.content.value.description, Some(f.path), f.content.value.nicknames)
  }

  lemma OffersStep(files: seq<AgentFile>, skipped: set<string>, name: string)
    requires files != []
    ensures var n := |files| - 1;
            && ((exists k :: Offers(files, skipped, name, k))
                <==> (exists k :: Offers(files[..n], skipped, name, k)) || Offers(files, skipped, name, n))
            && (forall k :: FirstOffer(files, skipped, name, k) && k < n ==> FirstOffer(files[..n], skipped, name, k))
            && (FirstOffer(files, skipped, name, n) ==> !exists k :: Offers(files[..n], skipped, name, k))
  {
    var n := |files| - 1;
    assert forall k :: 0 <= k < n ==> (Offers(files[..n], skipped, name, k) <==> Offers(files, skipped, name, k));
    if k :| Offers(files[..n], skipped, name, k) {
      assert Offers(files, skipped, name, k);
    }
  }

  /** Discovery takes, for each name, the first readable file that no declaration already claimed. */
  lemma {:induction false} DiscoveredMeaning(files: seq<AgentFile>, skipped: set<string>, name: string)
    ensures Discovered(files, skipped).files == skipped
    ensures name in Discovered(files, skipped).roles <==> exists k :: Offers(files, skipped, name, k)
    ensures forall k :: FirstOffer(files, skipped, name, k) ==>
              Lookup(Discovered(files, skipped).roles, name) == Some(FileRole(files[k]))
  {
    if files != [] {
      var n := |files| - 1;
      DiscoveredMeaning(files[..n], skipped, name);
      OffersStep(files, skipped, name);
      forall k | FirstOffer(files, skipped, name, k)
        ensures Lookup(Discovered(files, skipped).roles, name) == Some(FileRole(files[k]))
      {
        if k < n {
          assert FirstOffer(files[..n], skipped, name, k) && files[..n][k] == files[k];
        }
      }
    }
  }

  // ---------------------------------------------------------------- the loops

  method ReadDeclarations(decls: seq<Declaration>) returns (s: LayerState)
    ensures s == Declared(decls)
  {
    var roles: Roles, files: set<string>, warnings: seq<Warning> := map[], {}, [];
    for k := 0 to |decls|
      invariant LayerState(roles, files, warnings) == Declared(decls[..k])
    {
      assert decls[..k + 1][..k] == decls[..k];
      var r := ReadDeclared(decls[k]);
      if r.Err? {
        warnings := warnings + [BadDeclaration(r.error)];
      } else {
        var (name, role) := r.value;
        if role.configFile.Some? {
          files := files + {role.configFile.value};
        }
        if name in roles {
          warnings := warnings + [DuplicateInLayer(name)];
        } else {
          roles := roles[name := role];
        }
      }
    }
    assert decls[..|decls|] == decls;
    s := LayerState(roles, files, warnings);
  }

  method DiscoverRoles(files: seq<AgentFile>, declaredFiles: set<string>) returns (s: LayerState)
    ensures s == Discovered(files, declaredFiles)
  {
    var roles: Roles, warnings: seq<Warning> := map[], [];
    for k := 0 to |files|
      invariant LayerState(roles, declaredFiles, warnings) == Discovered(files[..k], declaredFiles)
    {
      assert files[..k + 1][..k] == files[..k];
      var f := files[k];
      if f.path !in declaredFiles {
        if f.content.Err? {
          warnings := warnings + [BadFile(f.content.error)];
        } else {
          var p := f.content.value;
          if p.name in roles {
            warnings := warnings + [DuplicateInFolder(p.name)];
          } else {
            roles := roles[p.name := Role(p.description, Some(f.path), p.nicknames)];
          }
        }
      }
    }
    assert files[..|files|] == files;
    s := LayerState(roles, declaredFiles, warnings);
  }

  /** What the first `k` discovered names make of a layer. */
  ghost function CombinedSoFar(order: seq<string>, k: nat, found: Roles, declared: Roles): (Roles, seq<Warning>)
    requires k <= |order|
  {
    (Taken(found, Visited(order, k, found.Keys)) + declared,
     DuplicateWarnings(SortedTexts(Visited(order, k, found.Keys * declared.Keys))))
  }

  /** Adds the discovered roles to a layer in name order. */
  method CombineRoles(declared: Roles, found: Roles) returns (roles: Roles, warnings: seq<Warning>)
    ensures roles == found + declared
    ensures warnings == DuplicateWarnings(SortedTexts(found.Keys * declared.Keys))
  {
    var order := SortedTexts(found.Keys);
    roles, warnings := declared, [];
    NothingCombined(order, found, declared);
    for k := 0 to |order|
      invariant (roles, warnings) == CombinedSoFar(order, k, found, declared)
    {
      var name := order[k];
      assert name in found.Keys;
      CombineStep(order, k, found, declared);
      if name in roles {
        warnings := warnings + [DuplicateInLayer(name)];
      } else {
        roles := roles[name := found[name]];
      }
    }
    AllCombined(order, found, declared);
  }

  lemma NothingCombined(order: seq<string>, found: Roles, declared: Roles)
    ensures CombinedSoFar(order, 0, found, declared) == (declared, [])
  {
    NothingVisited(order, found.Keys);
    NothingVisited(order, found.Keys * declared.Keys);
    assert Taken(found, {}) + declared == declared;
    assert DuplicateWarnings([]) == [];
  }

  lemma NothingVisited(order: seq<string>, wanted: set<string>)
    ensures Visited(order, 0, wanted) == {} && SortedTexts(Visited(order, 0, wanted)) == []
  {
    TextOrderIsTotal();
    EmptyListing(Visited(order, 0, wanted), TextLe);
  }

  lemma AllCombined(order: seq<string>, found: Roles, declared: Roles)
    requires forall n :: n in order <==> n in found.Keys
    ensures CombinedSoFar(order, |order|, found, declared)
         == (found + declared, DuplicateWarnings(SortedTexts(found.Keys * declared.Keys)))
  {
    WholeWalk(order, found.Keys);
    WholeWalk(order, found.Keys * declared.Keys);
    assert Taken(found, found.Keys) == found;
  }

  lemma CombineStep(order: seq<string>, k: nat, found: Roles, declared: Roles)
    requires Ascending(order, TextLe) && k < |order| && order[k] in found
    ensures var (roles, warnings) := CombinedSoFar(order, k, found, declared);
            CombinedSoFar(order, k + 1, found, declared) ==
            if order[k] in roles then (roles, warnings + [DuplicateInLayer(order[k])])
            else (roles[order[k] := found[order[k]]], warnings)
  {
    WarningStep(order, k, found.Keys * declared.Keys);
    VisitedStep(order, k, found.Keys, TextLe);
    TakenStep(found, declared, Visited(order, k, found.Keys), order[k]);
    NothingAfter(DuplicateWarnings(SortedTexts(Visited(order, k, found.Keys * declared.Keys))));
  }

  lemma WarningStep(order: seq<string>, k: nat, wanted: set<string>)
    requires Ascending(order, TextLe) && k < |order|
    ensures var before, next := SortedTexts(Visited(order, k, wanted)), SortedTexts(Visited(order, k + 1, wanted));
            && DuplicateWarnings(next)
               == DuplicateWarnings(before) + (if order[k] in wanted then [DuplicateInLayer(order[k])] else [])
            && DescriptionWarnings(next)
               == DescriptionWarnings(before) + (if order[k] in wanted then [NoDescription(order[k])] else [])
  {
    TextOrderIsTotal();
    WalkStep(order, k, wanted, TextLe);
    OneMoreWarning(SortedTexts(Visited(order, k, wanted)), order[k]);
    NothingAfter(SortedTexts(Visited(order, k, wanted)));
  }

  lemma OneMoreWarning(names: seq<string>, name: string)
    ensures DuplicateWarnings(names + [name]) == DuplicateWarnings(names) + [DuplicateInLayer(name)]
    ensures DescriptionWarnings(names + [name]) == DescriptionWarnings(names) + [NoDescription(name)]
    ensures DuplicateWarnings(names) + [] == DuplicateWarnings(names)
    ensures DescriptionWarnings(names) + [] == DescriptionWarnings(names)
  {
  }

  ghost function Taken(roles: Roles, names: set<string>): Roles {
    map n | n in roles && n in names :: roles[n]
  }

  lemma TakenStep(found: Roles, declared: Roles, names: set<string>, name: string)
    requires name in found && name !in names
    ensures Taken(found, names + {name}) + declared ==
            if name in declared then Taken(found, names) + declared
            else (Taken(found, names) + declared)[name := found[name]]
    ensures name in Taken(found, names) + declared <==> name in declared
  {
  }

  method ReadLayer(layer: Layer) returns (roles: Result<Roles>, warnings: seq<Warning>)
    ensures (roles, warnings) == LayerRoles(layer)
  {
    var declared;
    if layer.declared.Err? {
      declared := LayerState(map[], {}, [BadAgentsTable(layer.declared.error)]);
    } else {
      declared := ReadDeclarations(layer.declared.value);
    }
    if layer.folder.None? {
      return Ok(declared.roles), declared.warnings;
    }
    if layer.folder.value.Err? {
      return Err(layer.folder.value.error), declared.warnings;
    }
    var found := DiscoverRoles(layer.folder.value.value, declared.files);
    var all;
    all, warnings := CombineRoles(declared.roles, found.roles);
    roles, warnings := Ok(all), declared.warnings + found.warnings + warnings;
  }

  /** Merges one layer's definitions into the roles loaded so far, in name order. */
  method MergeRoles(start: Roles, layer: Roles) returns (roles: Roles, warnings: seq<Warning>)
    ensures roles == MergeLayer(start, layer)
    ensures warnings == DescriptionWarnings(SortedTexts(Undescribed(start, layer)))
  {
    var order := SortedTexts(layer.Keys);
    roles, warnings := start, [];
    NothingMerged(order, start, layer);
    for k := 0 to |order|
      invariant (roles, warnings) == MergedSoFar(order, k, start, layer)
    {
      MergeSoFarStep(order, k, start, layer);
      var name := order[k];
      var role := layer[name];
      if name in roles {
        role := MergeMissing(role, roles[name]);
      }
      if role.description.None? {
        warnings := warnings + [NoDescription(name)];
      } else {
        roles := roles[name := role];
      }
    }
    MergeAll(order, start, layer);
  }

  function MergeOne(s: (Roles, seq<Warning>), layer: Roles, name: string): (Roles, seq<Warning>)
    requires name in layer
  {
    var role := Merged(s.0, layer, name);
    if role.description.None? then (s.0, s.1 + [NoDescription(name)]) else (s.0[name := role], s.1)
  }

  ghost function MergedSoFar(order: seq<string>, k: nat, start: Roles, layer: Roles): (Roles, seq<Warning>)
    requires k <= |order|
  {
    (MergeNames(start, layer, Visited(order, k, layer.Keys)),
     DescriptionWarnings(SortedTexts(Visited(order, k, Undescribed(start, layer)))))
  }

  lemma MergeSoFarStep(order: seq<string>, k: nat, start: Roles, layer: Roles)
    requires Ascending(order, TextLe) && k < |order| && forall n :: n in order ==> n in layer
    ensures MergeOne(MergedSoFar(order, k, start, layer), layer, order[k]) == MergedSoFar(order, k + 1, start, layer)
  {
    MergeWalk(order, k, start, layer);
    var before := MergedSoFar(order, k, start, layer);
    MergeOneMeaning(start, layer, before, order[k]);
    assert before.1 + [] == before.1;
  }

  lemma MergeAll(order: seq<string>, start: Roles, layer: Roles)
    requires forall n :: n in order <==> n in layer.Keys
    ensures MergeNames(start, layer, Visited(order, |order|, layer.Keys)) == MergeLayer(start, layer)
    ensures Visited(order, |order|, Undescribed(start, layer)) == Undescribed(start, layer)
  {
    WholeWalk(order, layer.Keys);
    WholeWalk(order, Undescribed(start, layer));
  }

  lemma NothingMerged(order: seq<string>, start: Roles, layer: Roles)
    ensures MergeNames(start, layer, Visited(order, 0, layer.Keys)) == start
    ensures DescriptionWarnings(SortedTexts(Visited(order, 0, Undescribed(start, layer)))) == []
  {
    assert Visited(order, 0, layer.Keys) == {} && Visited(order, 0, Undescribed(start, layer)) == {};
    assert forall n :: n !in SortedTexts({});
  }

  lemma MergeOneMeaning(start: Roles, layer: Roles, s: (Roles, seq<Warning>), name: string)
    requires name in layer && Lookup(s.0, name) == Lookup(start, name)
    ensures MergeOne(s, layer, name) ==
            var role := Merged(start, layer, name);
            if role.description.None? then (s.0, s.1 + [NoDescription(name)]) else (s.0[name := role], s.1)
  {
  }

  ghost function MergeNames(start: Roles, layer: Roles, names: set<string>): Roles {
    start + map n | n in layer && n in names && Merged(start, layer, n).description.Some? :: Merged(start, layer, n)
  }

  lemma MergeWalk(order: seq<string>, k: nat, start: Roles, layer: Roles)
    requires Ascending(order, TextLe) && k < |order| && order[k] in layer
    ensures var roles, role := MergeNames(start, layer, Visited(order, k, layer.Keys)), Merged(start, layer, order[k]);
            && Lookup(roles, order[k]) == Lookup(start, order[k])
            && MergeNames(start, layer, Visited(order, k + 1, layer.Keys))
               == (if role.description.None? then roles else roles[order[k] := role])
            && DescriptionWarnings(SortedTexts(Visited(order, k + 1, Undescribed(start, layer))))
               == DescriptionWarnings(SortedTexts(Visited(order, k, Undescribed(start, layer))))
                  + if role.description.None? then [NoDescription(order[k])] else []
  {
    WarningStep(order, k, Undescribed(start, layer));
    VisitedStep(order, k, layer.Keys, TextLe);
    MergeStep(start, layer, Visited(order, k, layer.Keys), order[k]);
  }

  lemma MergeStep(start: Roles, layer: Roles, names: set<string>, name: string)
    requires name in layer && name !in names
    ensures Lookup(MergeNames(start, layer, names), name) == Lookup(start, name)
    ensures MergeNames(start, layer, names + {name}) ==
            if Merged(start, layer, name).description.None? then MergeNames(start, layer, names)
            else MergeNames(start, layer, names)[name := Merged(start, layer, name)]
  {
  }

  /** `load_agent_roles` over at least one layer. */
  method LoadAgentRoles(layers: seq<Layer>) returns (load: Load)
    ensures load == LoadLayers(layers)
  {
    var roles: Roles, warnings: seq<Warning> := map[], [];
    for k := 0 to |layers|
      invariant Load(Ok(roles), warnings) == LoadLayers(layers[..k])
    {
      assert layers[..k + 1][..k] == layers[..k];
      var found, more := ReadLayer(layers[k]);
      warnings := warnings + more;
      if found.Err? {
        FailureStays(layers, k + 1);
        return Load(Err(found.error), warnings);
      }
      roles, more := MergeRoles(roles, found.value);
      warnings := warnings + more;
    }
    assert layers[..|layers|] == layers;
    load := Load(Ok(roles), warnings);
  }

  lemma {:induction false} FailureStays(layers: seq<Layer>, k: nat)
    requires k <= |layers| && LoadLayers(layers[..k]).result.Err?
    ensures LoadLayers(layers) == LoadLayers(layers[..k])
    decreases |layers|
  {
    if k == |layers| {
      assert layers[..k] == layers;
    } else {
      var n := |layers| - 1;
      assert layers[..n][..k] == layers[..k];
      FailureStays(layers[..n], k);
    }
  }

  /** `load_agent_roles_without_layers`. */
  method LoadWithoutLayers(decls: seq<Declaration>) returns (load: PlainLoad)
    ensures load == LoadPlain(decls)
  {
    var roles: Roles := map[];
    for k := 0 to |decls|
      invariant Loaded(roles) == LoadPlain(decls[..k])
    {
      assert decls[..k + 1][..k] == decls[..k];
      if LoadPlain(decls[..k + 1]).Failed? { PlainFailureStays(decls, k + 1); }
      var declared := ReadDeclared(decls[k]);
      if declared.Err? {
        return Failed(Unreadable(declared.error));
      }
      var (name, role) := declared.value;
      if role.description.None? {
        return Failed(Undescribable(name));
      }
      if name in roles {
        return Failed(Repeated(name));
      }
      roles := roles[name := role];
    }
    assert decls[..|decls|] == decls;
    load := Loaded(roles);
  }

  lemma {:induction false} PlainFailureStays(decls: seq<Declaration>, k: nat)
    requires k <= |decls| && LoadPlain(decls[..k]).Failed?
    ensures LoadPlain(decls) == LoadPlain(decls[..k])
    decreases |decls|
  {
    if k == |decls| {
      assert decls[..k] == decls;
    } else {
      var n := |decls| - 1;
      assert decls[..n][..k] == decls[..k];
      PlainFailureStays(decls[..n], k);
    }
  }
}
