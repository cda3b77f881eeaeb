/** What CreateSecret fetches for each reference of a Backup, and the checks on it. A source is tied to the
    objects of the namespace: there is one exactly when the object is there and has the right form. */
module Sources {
  import opened Wrappers
  import opened Config
  import opened SecretRefs
  import opened Cluster
  import opened Naming

  /** The keys the overlays use. */
  ghost predicate OverlayKeys(overlay: map<string, Setting>) {
    overlay.Keys <= {"type", "keep", "timeout"}
  }

  datatype CrdKey = CrdKey(group: string, resource: string, name: string)

  /** What CreateSecret can read: the custom objects and the Secrets of the namespace. */
  datatype Namespace = Namespace(crds: map<CrdKey, map<string, Json>>, secrets: Secrets)

  datatype RenderError =
    | CrdNotFound(name: string)
    | SpecInvalid(name: string)
    | TypeInvalid(name: string)
    | ConfigInvalid(name: string)
    | Unresolved(name: string, error: RefError)
    | SecretGetFailed
    | SecretWriteFailed

  /** The reference that an error is about. */
  function ErrorAbout(e: RenderError): string {
    match e
    case CrdNotFound(name) => name
    case SpecInvalid(name) => name
    case TypeInvalid(name) => name
    case ConfigInvalid(name) => name
    case Unresolved(name, _) => name
    case _ => ""
  }

  /** One reference, fetched and checked but not yet resolved. */
  datatype Source = Source(name: string, config: map<string, Json>, overlay: map<string, Setting>)

  function Group(apiGroup: string): string {
    if apiGroup == "" then "gobackup.io" else apiGroup
  }

  /** A type assertion to a map. */
  function MapField(fields: map<string, Json>, name: string): Option<map<string, Json>> {
    if name in fields && fields[name].Obj? then Some(fields[name].fields) else None
  }

  function TypeSetting(kind: string): Setting {
    Plain(Str(kind))
  }

  /** A Database's type comes from its spec, trimmed. */
  function DatabaseSource(ns: Namespace, ref: DatabaseRef): (r: Result<Source, RenderError>)
    ensures r.Success? ==> r.value.name == ref.name && OverlayKeys(r.value.overlay)
    ensures r.Failure? ==> ErrorAbout(r.error) == ref.name
  {
    var key := CrdKey(Group(ref.apiGroup), "databases", ref.name);
    if key !in ns.crds then Failure(CrdNotFound(ref.name))
    else
      var spec := MapField(ns.crds[key], "spec");
      if spec.None? then Failure(SpecInvalid(ref.name))
      else if "type" !in spec.value || !spec.value["type"].Str? || Blank(spec.value["type"].s)
      then Failure(TypeInvalid(ref.name))
      else
        var config := MapField(spec.value, "config");
        if config.None? then Failure(ConfigInvalid(ref.name))
        else
          var kind := ToLower(TrimRight(TrimLeft(spec.value["type"].s)));
          Success(Source(ref.name, config.value, map["type" := TypeSetting(kind)]))
  }

  /** A Storage's type, keep and timeout come from the reference, untrimmed. */
  function StorageSource(ns: Namespace, ref: StorageRef): (r: Result<Source, RenderError>)
    ensures r.Success? ==> r.value.name == ref.name && OverlayKeys(r.value.overlay)
    ensures r.Failure? ==> ErrorAbout(r.error) == ref.name
  {
    var key := CrdKey(Group(ref.apiGroup), "storages", ref.name);
    if key !in ns.crds then Failure(CrdNotFound(ref.name))
    else
      var spec := MapField(ns.crds[key], "spec");
      if spec.None? then Failure(SpecInvalid(ref.name))
      else
        var config := MapField(spec.value, "config");
        if config.None? then Failure(ConfigInvalid(ref.name))
        else
          var overlay := map["type" := TypeSetting(ToLower(ref.kind))]
                         + (if ref.keep > 0 then map["keep" := Plain(Num(ref.keep))] else map[])
                         + (if ref.timeout > 0 then map["timeout" := Plain(Num(ref.timeout))] else map[]);
          Success(Source(ref.name, config.value, overlay))
  }

  // ----- In terms of the objects -----

  /** The custom object that a reference names has this spec. */
  ghost predicate HasSpec(ns: Namespace, apiGroup: string, resource: string, name: string, spec: map<string, Json>) {
    var key := CrdKey(if apiGroup == "" then "gobackup.io" else apiGroup, resource, name);
    key in ns.crds && "spec" in ns.crds[key] && ns.crds[key]["spec"] == Obj(spec)
  }

  ghost predicate HasConfig(spec: map<string, Json>, config: map<string, Json>) {
    "config" in spec && spec["config"] == Obj(config)
  }

  /** The settings that a reference to a Storage lays over its configuration. */
  ghost predicate IsStorageOverlay(ref: StorageRef, overlay: map<string, Setting>) {
    && (forall t :: t in overlay <==> t == "type" || (t == "keep" && ref.keep > 0) || (t == "timeout" && ref.timeout > 0))
    && (exists kind :: IsLowerCase(ref.kind, kind) && overlay["type"] == Plain(Str(kind)))
    && (ref.keep > 0 ==> overlay["keep"] == Plain(Num(ref.keep)))
    && (ref.timeout > 0 ==> overlay["timeout"] == Plain(Num(ref.timeout)))
  }

  /** The Storage is there, its spec and its configuration are objects, and this is what they say. */
  ghost predicate IsStorageSource(ns: Namespace, ref: StorageRef, source: Source) {
    && source.name == ref.name
    && (exists spec :: HasSpec(ns, ref.apiGroup, "storages", ref.name, spec) && HasConfig(spec, source.config))
    && IsStorageOverlay(ref, source.overlay)
  }

  /** A Database's type: a string that is more than spaces, without the spaces around it, in lower case. */
  ghost predicate HasType(spec: map<string, Json>, kind: string) {
    exists raw, trimmed ::
      && "type" in spec && spec["type"] == Str(raw)
      && IsTrimmed(raw, trimmed) && trimmed != "" && IsLowerCase(trimmed, kind)
  }

  ghost predicate IsDatabaseSource(ns: Namespace, ref: DatabaseRef, source: Source) {
    && source.name == ref.name
    && exists spec, kind ::
         && HasSpec(ns, ref.apiGroup, "databases", ref.name, spec)
         && HasType(spec, kind) && HasConfig(spec, source.config)
         && source.overlay == map["type" := Plain(Str(kind))]
  }

  lemma OverlayIsUnique(ref: StorageRef, a: map<string, Setting>, b: map<string, Setting>)
    requires IsStorageOverlay(ref, a) && IsStorageOverlay(ref, b)
    ensures a == b
  {
    var k :| IsLowerCase(ref.kind, k) && a["type"] == Plain(Str(k));
    var l :| IsLowerCase(ref.kind, l) && b["type"] == Plain(Str(l));
    LowerCaseIsUnique(ref.kind, k);
    LowerCaseIsUnique(ref.kind, l);
    hide IsLowerCase;
    assert forall t :: t in a ==> t in b && a[t] == b[t];
    assert forall t :: t in b ==> t in a;
  }

  /** Fetching a Storage succeeds exactly when there is a source, and gives it. */
  lemma StorageSourceIff(ns: Namespace, ref: StorageRef)
    ensures forall source :: StorageSource(ns, ref) == Success(source) <==> IsStorageSource(ns, ref, source)
  {
    forall source | StorageSource(ns, ref) == Success(source)
      ensures IsStorageSource(ns, ref, source)
    {
      StorageIsSource(ns, ref, source);
    }
    forall source | IsStorageSource(ns, ref, source)
      ensures StorageSource(ns, ref) == Success(source)
    {
      var fetched := StorageSource(ns, ref);
      assert fetched.Success? && fetched.value.config == source.config;
      StorageIsSource(ns, ref, fetched.value);
      OverlayIsUnique(ref, source.overlay, fetched.value.overlay);
    }
  }

  lemma StorageIsSource(ns: Namespace, ref: StorageRef, source: Source)
    requires StorageSource(ns, ref) == Success(source)
    ensures IsStorageSource(ns, ref, source)
  {
    var key := CrdKey(Group(ref.apiGroup), "storages", ref.name);
    var spec := ns.crds[key]["spec"].fields;
    assert HasSpec(ns, ref.apiGroup, "storages", ref.name, spec) && HasConfig(spec, source.config);
    assert IsLowerCase(ref.kind, ToLower(ref.kind));
  }

  lemma TypeIsUnique(spec: map<string, Json>, kind: string)
    requires HasType(spec, kind)
    ensures "type" in spec && spec["type"].Str? && !Blank(spec["type"].s)
    ensures kind == ToLower(TrimRight(TrimLeft(spec["type"].s)))
  {
    var raw, trimmed :| "type" in spec && spec["type"] == Str(raw)
                        && IsTrimmed(raw, trimmed) && trimmed != "" && IsLowerCase(trimmed, kind);
    TrimmedIsUnique(raw, trimmed);
    LowerCaseIsUnique(trimmed, kind);
    var left, right :| Blank(left) && Blank(right) && raw == left + trimmed + right;
    assert raw[|left|] == trimmed[0];
  }

  /** Fetching a Database succeeds exactly when there is a source, and gives it. */
  lemma DatabaseSourceIff(ns: Namespace, ref: DatabaseRef)
    ensures forall source :: DatabaseSource(ns, ref) == Success(source) <==> IsDatabaseSource(ns, ref, source)
  {
    forall source | DatabaseSource(ns, ref) == Success(source)
      ensures IsDatabaseSource(ns, ref, source)
    {
      DatabaseIsSource(ns, ref, source);
    }
    forall source | IsDatabaseSource(ns, ref, source)
      ensures DatabaseSource(ns, ref) == Success(source)
    {
      var spec, kind :| HasSpec(ns, ref.apiGroup, "databases", ref.name, spec)
                        && HasType(spec, kind) && HasConfig(spec, source.config)
                        && source.overlay == map["type" := Plain(Str(kind))];
      TypeIsUnique(spec, kind);
      hide HasType, TrimLeft, TrimRight, ToLower, Blank;
    }
  }

  lemma DatabaseIsSource(ns: Namespace, ref: DatabaseRef, source: Source)
    requires DatabaseSource(ns, ref) == Success(source)
    ensures IsDatabaseSource(ns, ref, source)
  {
    var key := CrdKey(Group(ref.apiGroup), "databases", ref.name);
    var spec := ns.crds[key]["spec"].fields;
    var raw := spec["type"].s;
    var trimmed := TrimRight(TrimLeft(raw));
    TrimIsTrimmed(raw);
    assert IsLowerCase(trimmed, ToLower(trimmed));
    assert HasType(spec, ToLower(trimmed));
    assert HasSpec(ns, ref.apiGroup, "databases", ref.name, spec) && HasConfig(spec, source.config);
  }

  lemma StorageSourceShape(ns: Namespace, ref: StorageRef, source: Source)
    requires IsStorageSource(ns, ref, source)
    ensures source.name == ref.name && OverlayKeys(source.overlay)
  {}

  lemma DatabaseSourceShape(ns: Namespace, ref: DatabaseRef, source: Source)
    requires IsDatabaseSource(ns, ref, source)
    ensures source.name == ref.name && OverlayKeys(source.overlay)
  {}

  /** The first check that fails decides the error. */
  lemma DatabaseErrorsMean(ns: Namespace, ref: DatabaseRef)
    ensures DatabaseSource(ns, ref) == Failure(CrdNotFound(ref.name)) <==>
            CrdKey(Group(ref.apiGroup), "databases", ref.name) !in ns.crds
    ensures DatabaseSource(ns, ref) == Failure(SpecInvalid(ref.name)) <==>
            && CrdKey(Group(ref.apiGroup), "databases", ref.name) in ns.crds
            && !exists spec :: HasSpec(ns, ref.apiGroup, "databases", ref.name, spec)
    ensures forall spec :: HasSpec(ns, ref.apiGroup, "databases", ref.name, spec) ==>
                             && (DatabaseSource(ns, ref) == Failure(TypeInvalid(ref.name)) <==>
                                 !exists kind :: HasType(spec, kind))
                             && (DatabaseSource(ns, ref) == Failure(ConfigInvalid(ref.name)) <==>
                                 (exists kind :: HasType(spec, kind)) && !exists config :: HasConfig(spec, config))
  {
    forall spec: map<string, Json>
      ensures (exists kind :: HasType(spec, kind)) <==> "type" in spec && spec["type"].Str? && !Blank(spec["type"].s)
      ensures (exists config :: HasConfig(spec, config)) <==> "config" in spec && spec["config"].Obj?
    {
      TypeExistsIff(spec);
      ConfigExistsIff(spec);
    }
    hide HasType, HasConfig, Blank, TrimLeft, TrimRight, ToLower;
    var key := CrdKey(Group(ref.apiGroup), "databases", ref.name);
    if key in ns.crds && "spec" in ns.crds[key] && ns.crds[key]["spec"].Obj? {
      assert HasSpec(ns, ref.apiGroup, "databases", ref.name, ns.crds[key]["spec"].fields);
    }
  }

  lemma StorageErrorsMean(ns: Namespace, ref: StorageRef)
    ensures StorageSource(ns, ref) == Failure(CrdNotFound(ref.name)) <==>
            CrdKey(Group(ref.apiGroup), "storages", ref.name) !in ns.crds
    ensures StorageSource(ns, ref) == Failure(SpecInvalid(ref.name)) <==>
            && CrdKey(Group(ref.apiGroup), "storages", ref.name) in ns.crds
            && !exists spec :: HasSpec(ns, ref.apiGroup, "storages", ref.name, spec)
    ensures forall spec :: HasSpec(ns, ref.apiGroup, "storages", ref.name, spec) ==>
                             (StorageSource(ns, ref) == Failure(ConfigInvalid(ref.name)) <==>
                              !exists config :: HasConfig(spec, config))
  {
    forall spec: map<string, Json>
      ensures (exists config :: HasConfig(spec, config)) <==> "config" in spec && spec["config"].Obj?
    {
      ConfigExistsIff(spec);
    }
    hide HasConfig, ToLower;
    var key := CrdKey(Group(ref.apiGroup), "storages", ref.name);
    if key in ns.crds && "spec" in ns.crds[key] && ns.crds[key]["spec"].Obj? {
      assert HasSpec(ns, ref.apiGroup, "storages", ref.name, ns.crds[key]["spec"].fields);
    }
  }

  lemma ConfigExistsIff(spec: map<string, Json>)
    ensures (exists config :: HasConfig(spec, config)) <==> "config" in spec && spec["config"].Obj?
  {
    if "config" in spec && spec["config"].Obj? {
      assert HasConfig(spec, spec["config"].fields);
    }
  }

  lemma TypeExistsIff(spec: map<string, Json>)
    ensures (exists kind :: HasType(spec, kind)) <==> "type" in spec && spec["type"].Str? && !Blank(spec["type"].s)
  {
    if kind :| HasType(spec, kind) {
      TypeIsUnique(spec, kind);
    }
    if "type" in spec && spec["type"].Str? && !Blank(spec["type"].s) {
      var trimmed := TrimRight(TrimLeft(spec["type"].s));
      TrimIsTrimmed(spec["type"].s);
      assert IsLowerCase(trimmed, ToLower(trimmed));
      assert HasType(spec, ToLower(trimmed));
    }
  }
}
