/** `CreateSecret`: fetches every referenced Database and Storage, resolves the secret references in
    their configurations, renames and overlays keys, and stores the rendered model in the Secret named
    after the Backup. */
module Rendering {
  import opened Wrappers
  import opened Config
  import opened SecretRefs
  import opened Cluster
  import opened Naming
  import opened Sources

  datatype Kind = Databases | Storages

  /** The camelCase keys each loop rewrites. */
  function Rename(kind: Kind, key: string): string {
    match kind
    case Databases =>
      if key == "excludeTables" then "exclude_tables"
      else if key == "additionalOptions" then "additional_options"
      else key
    case Storages =>
      if key == "accessKeyID" then "access_key_id"
      else if key == "secretAccessKey" then "secret_access_key"
      else if key == "forcePathStyle" then "force_path_style"
      else if key == "storageClass" then "storage_class"
      else if key == "maxRetries" then "max_retries"
      else key
  }

  /** The keys a loop rewrites. */
  function CamelKeys(kind: Kind): set<string> {
    match kind
    case Databases => {"excludeTables", "additionalOptions"}
    case Storages => {"accessKeyID", "secretAccessKey", "forcePathStyle", "storageClass", "maxRetries"}
  }

  /** Rewriting a key is writing it in snake_case; every other key keeps its name. */
  lemma RenameIsSnakeCase(kind: Kind, key: string)
    ensures Rename(kind, key) == if key in CamelKeys(kind) then SnakeCase(key) else key
  {
    DatabaseKeys();
    TwoWordKeys();
    ThreeWordKeys();
    AccessKeyId();
    hide SnakeCase;
  }

  lemma RenameSettles(kind: Kind, key: string)
    ensures Rename(kind, Rename(kind, key)) == Rename(kind, key)
  {}

  lemma RenameMakesNoRefs(kind: Kind, key: string)
    ensures IsRef(Rename(kind, key)) ==> Rename(kind, key) == key
  {
    RefsEndInF(Rename(kind, key));
    hide IsRef;
  }

  lemma RefsEndInF(key: string)
    ensures IsRef(key) ==> key != "" && key[|key| - 1] == 'f'
  {
    assert IsRef(key) ==> key[|key| - 4..][3] == SUFFIX[3];
  }

  ghost function Renames(kind: Kind, resolved: map<string, Setting>): (t: map<string, string>)
    ensures t.Keys == resolved.Keys
  {
    map k | k in resolved :: Rename(kind, k)
  }

  /** The key under which an entry of the configuration is finally stored. */
  function FinalKey(kind: Kind, key: string): string {
    Rename(kind, Target(key))
  }

  // ----- One configuration -----

  /** `out` is what some pair of iteration orders produces: one over the configuration while resolving,
      one over the resolved map while renaming; then the overlay is written on top. */
  ghost predicate RenderedBy(secrets: Secrets, kind: Kind, config: map<string, Json>, overlay: map<string, Setting>,
                             out: map<string, Setting>, p: seq<string>, q: seq<string>) {
    && Enumerates(p, config.Keys)
    && var r := ResolveInOrder(secrets, config, p);
       && r.Success?
       && Enumerates(q, r.value.Keys)
       && out == Rekey(q, Renames(kind, r.value), r.value) + overlay
  }

  ghost predicate IsRendering(secrets: Secrets, kind: Kind, config: map<string, Json>, overlay: map<string, Setting>,
                              out: map<string, Setting>) {
    exists p, q :: RenderedBy(secrets, kind, config, overlay, out, p, q)
  }

  /** The declarative form: every entry, resolved, under its final key, below the overlay. */
  ghost predicate IsDeclared(secrets: Secrets, kind: Kind, config: map<string, Json>, overlay: map<string, Setting>,
                             out: map<string, Setting>)
    requires AllResolve(secrets, config)
  {
    && (forall t :: t in overlay ==> t in out && out[t] == overlay[t])
    && (forall k :: k in config && FinalKey(kind, k) !in overlay ==>
                      FinalKey(kind, k) in out && out[FinalKey(kind, k)] == Values(secrets, config)[k])
    && (forall t :: t in out ==> t in overlay || exists k :: k in config && FinalKey(kind, k) == t)
  }

  /** Entries that meet under one final key, outside the overlay, hold one value. */
  ghost predicate FinalAgree(secrets: Secrets, kind: Kind, config: map<string, Json>, overlay: map<string, Setting>)
    requires AllResolve(secrets, config)
  {
    forall j, k :: j in config && k in config
                   && FinalKey(kind, j) == FinalKey(kind, k) && FinalKey(kind, j) !in overlay
                   ==> Values(secrets, config)[j] == Values(secrets, config)[k]
  }

  /** Outside the overlay, every rendered key comes from some entry of the configuration, and every
      entry's final key is rendered. */
  lemma RenderingComesFromEntries(secrets: Secrets, kind: Kind, config: map<string, Json>,
                                  overlay: map<string, Setting>, out: map<string, Setting>)
    requires AllResolve(secrets, config) && IsRendering(secrets, kind, config, overlay, out)
    ensures forall t :: t in overlay ==> t in out && out[t] == overlay[t]
    ensures forall k :: k in config ==> FinalKey(kind, k) in out
    ensures forall t :: t in out && t !in overlay ==>
                          exists k :: k in config && FinalKey(kind, k) == t && out[t] == Values(secrets, config)[k]
  {
    var p, q :| RenderedBy(secrets, kind, config, overlay, out, p, q);
    var t, v := Targets(config), Values(secrets, config);
    ResolveIsRekey(secrets, config, p);
    var resolved := Rekey(p, t, v);
    var renames := Renames(kind, resolved);
    SomeKeyWins(p, t, v);
    SomeKeyWins(q, renames, resolved);
    hide Rekey, ResolveInOrder, Enumerates, Rename;
    forall k | k in config
      ensures FinalKey(kind, k) in out
    {
      assert t[k] in resolved;
      assert renames[t[k]] in Rekey(q, renames, resolved);
    }
    forall f | f in out && f !in overlay
      ensures exists k :: k in config && FinalKey(kind, k) == f && out[f] == v[k]
    {
      var r :| r in q && renames[r] == f && Rekey(q, renames, resolved)[f] == resolved[r];
      var k :| k in p && t[k] == r && resolved[r] == v[k];
      assert FinalKey(kind, k) == f;
    }
  }

  /** Rendering meets its declarative form. */
  lemma RenderingIsDeclared(secrets: Secrets, kind: Kind, config: map<string, Json>,
                            overlay: map<string, Setting>, out: map<string, Setting>)
    requires AllResolve(secrets, config) && IsRendering(secrets, kind, config, overlay, out)
    requires FinalAgree(secrets, kind, config, overlay)
    ensures IsDeclared(secrets, kind, config, overlay, out)
  {
    hide Values, IsRendering, FinalKey, AllResolve;
    RenderingComesFromEntries(secrets, kind, config, overlay, out);
  }

  lemma DeclaredIsUnique(secrets: Secrets, kind: Kind, config: map<string, Json>, overlay: map<string, Setting>,
                         out: map<string, Setting>, out': map<string, Setting>)
    requires AllResolve(secrets, config)
    requires IsDeclared(secrets, kind, config, overlay, out) && IsDeclared(secrets, kind, config, overlay, out')
    ensures out == out'
  {
    hide Values, FinalKey, AllResolve;
    forall t | t in out
      ensures t in out' && out[t] == out'[t]
    {}
    assert forall t :: t in out' ==> t in out;
  }

  /** For every entry there are orders that let it win its final key. */
  lemma EntryCanWin(secrets: Secrets, kind: Kind, config: map<string, Json>, overlay: map<string, Setting>, k: string)
    returns (out: map<string, Setting>)
    requires AllResolve(secrets, config) && k in config && FinalKey(kind, k) !in overlay
    ensures IsRendering(secrets, kind, config, overlay, out)
    ensures FinalKey(kind, k) in out && out[FinalKey(kind, k)] == Values(secrets, config)[k]
  {
    var t, v := Targets(config), Values(secrets, config);
    var p := EnumerationEndingIn(config.Keys, k);
    ResolveIsRekey(secrets, config, p);
    var resolved := Rekey(p, t, v);
    assert resolved[Target(k)] == v[k];
    var q := EnumerationEndingIn(resolved.Keys, Target(k));
    out := Rekey(q, Renames(kind, resolved), resolved) + overlay;
    assert RenderedBy(secrets, kind, config, overlay, out, p, q);
  }

  /** Confluence of the whole pipeline, exactly: all iteration orders render the same configuration if
      and only if entries that meet under one final key outside the overlay hold one value. */
  lemma RenderingConfluentIff(secrets: Secrets, kind: Kind, config: map<string, Json>, overlay: map<string, Setting>)
    requires AllResolve(secrets, config)
    ensures FinalAgree(secrets, kind, config, overlay) <==>
            (forall out, out' ::
               IsRendering(secrets, kind, config, overlay, out) && IsRendering(secrets, kind, config, overlay, out')
               ==> out == out')
  {
    hide Values, IsRendering, FinalKey, AllResolve, IsDeclared;
    if FinalAgree(secrets, kind, config, overlay) {
      forall out, out' | IsRendering(secrets, kind, config, overlay, out)
                         && IsRendering(secrets, kind, config, overlay, out')
        ensures out == out'
      {
        RenderingIsDeclared(secrets, kind, config, overlay, out);
        RenderingIsDeclared(secrets, kind, config, overlay, out');
        DeclaredIsUnique(secrets, kind, config, overlay, out, out');
      }
    } else {
      var j, k :| j in config && k in config
                  && FinalKey(kind, j) == FinalKey(kind, k) && FinalKey(kind, j) !in overlay
                  && Values(secrets, config)[j] != Values(secrets, config)[k];
      var out := EntryCanWin(secrets, kind, config, overlay, j);
      var out' := EntryCanWin(secrets, kind, config, overlay, k);
      assert out != out';
    }
  }

  /** A check on the keys alone: no two entries get one final key below the overlay. */
  ghost predicate NoCollisions(kind: Kind, config: map<string, Json>, overlay: map<string, Setting>) {
    forall j, k :: j in config && k in config
                   && FinalKey(kind, j) == FinalKey(kind, k) && FinalKey(kind, j) !in overlay
                   ==> j == k
  }

  /** A configuration without collisions has one rendering, the declared one, whatever its Secrets hold. */
  lemma DistinctKeysRenderOnce(secrets: Secrets, kind: Kind, config: map<string, Json>, overlay: map<string, Setting>,
                               out: map<string, Setting>, out': map<string, Setting>)
    requires AllResolve(secrets, config) && NoCollisions(kind, config, overlay)
    requires IsRendering(secrets, kind, config, overlay, out)
    ensures IsDeclared(secrets, kind, config, overlay, out)
    ensures IsRendering(secrets, kind, config, overlay, out') ==> out' == out
  {
    hide Values, IsRendering, FinalKey, AllResolve, IsDeclared;
    RenderingIsDeclared(secrets, kind, config, overlay, out);
    RenderingConfluentIff(secrets, kind, config, overlay);
  }

  /** What is left of the input's key style: no reference unless the configuration had a `_ref_ref` key,
      and no camelCase key the loop renames. */
  lemma RenderedKeysAreClean(secrets: Secrets, kind: Kind, config: map<string, Json>,
                             overlay: map<string, Setting>, out: map<string, Setting>)
    requires AllResolve(secrets, config) && IsRendering(secrets, kind, config, overlay, out) && OverlayKeys(overlay)
    ensures forall t :: t in out ==> Rename(kind, t) == t
    ensures (forall k :: k in config ==> !IsRef(k) || !IsRef(Target(k))) ==> forall t :: t in out ==> !IsRef(t)
  {
    RenderingComesFromEntries(secrets, kind, config, overlay, out);
    hide IsRendering, Values, AllResolve;
    forall t | t in out
      ensures Rename(kind, t) == t
      ensures (forall k :: k in config ==> !IsRef(k) || !IsRef(Target(k))) ==> !IsRef(t)
    {
      if t in overlay {
        assert t == "type" || t == "keep" || t == "timeout";
      } else {
        var k :| k in config && FinalKey(kind, k) == t;
        RenameSettles(kind, Target(k));
        RenameMakesNoRefs(kind, Target(k));
      }
    }
  }

  /** The name an entry's field is stored under: in snake_case if the loop rewrites it. */
  function StoredName(kind: Kind, key: string): string {
    if Target(key) in CamelKeys(kind) then SnakeCase(Target(key)) else Target(key)
  }

  /** No other entry is stored under this entry's name, and neither is an overlay. */
  ghost predicate IsAlone(kind: Kind, config: map<string, Json>, overlay: map<string, Setting>, k: string) {
    StoredName(kind, k) !in overlay && forall j :: j in config && StoredName(kind, j) == StoredName(kind, k) ==> j == k
  }

  /** What a rendered configuration holds, entry by entry: the overlay; a value given directly as it is and a
      referenced value as what it points to, under their stored names where nothing else competes; and
      nothing else. */
  ghost predicate HoldsEntries(secrets: Secrets, kind: Kind, config: map<string, Json>, overlay: map<string, Setting>,
                               out: map<string, Setting>) {
    && (forall t :: t in overlay ==> t in out && out[t] == overlay[t])
    && (forall k :: k in config && !IsRef(k) && IsAlone(kind, config, overlay, k)
                    ==> StoredName(kind, k) in out && out[StoredName(kind, k)] == Plain(config[k]))
    && (forall k, c :: k in config && IsRef(k) && IsAlone(kind, config, overlay, k) && PointsTo(secrets, config[k], c)
                       ==> StoredName(kind, k) in out && Replaces(out[StoredName(kind, k)], c))
    && (forall t :: t in out ==> t in overlay || exists k :: k in config && StoredName(kind, k) == t)
  }

  lemma StoredNameIsFinal(kind: Kind, key: string)
    ensures StoredName(kind, key) == FinalKey(kind, key)
  {
    RenameIsSnakeCase(kind, Target(key));
    hide Target, SnakeCase, Rename, CamelKeys;
  }

  lemma AloneKeepsValue(secrets: Secrets, kind: Kind, config: map<string, Json>, overlay: map<string, Setting>,
                        out: map<string, Setting>, k: string)
    requires AllResolve(secrets, config) && IsRendering(secrets, kind, config, overlay, out)
    requires k in config && IsAlone(kind, config, overlay, k)
    ensures StoredName(kind, k) in out && out[StoredName(kind, k)] == Values(secrets, config)[k]
  {
    RenderingComesFromEntries(secrets, kind, config, overlay, out);
    hide IsRendering, AllResolve, Values, FinalKey, StoredName;
    var t := FinalKey(kind, k);
    StoredNameIsFinal(kind, k);
    var j :| j in config && FinalKey(kind, j) == t && out[t] == Values(secrets, config)[j];
    StoredNameIsFinal(kind, j);
  }

  lemma NamesAreFinal(kind: Kind, config: map<string, Json>)
    ensures forall k :: k in config ==> StoredName(kind, k) == FinalKey(kind, k)
  {
    hide StoredName, FinalKey;
    forall k | k in config
      ensures StoredName(kind, k) == FinalKey(kind, k)
    {
      StoredNameIsFinal(kind, k);
    }
  }

  lemma NothingElseIsRendered(secrets: Secrets, kind: Kind, config: map<string, Json>,
                              overlay: map<string, Setting>, out: map<string, Setting>)
    requires AllResolve(secrets, config) && IsRendering(secrets, kind, config, overlay, out)
    ensures forall t :: t in overlay ==> t in out && out[t] == overlay[t]
    ensures forall t :: t in out ==> t in overlay || exists k :: k in config && StoredName(kind, k) == t
  {
    RenderingComesFromEntries(secrets, kind, config, overlay, out);
    NamesAreFinal(kind, config);
    hide IsRendering, AllResolve, Values, FinalKey, StoredName;
  }

  lemma DirectEntryIsHeld(secrets: Secrets, kind: Kind, config: map<string, Json>, overlay: map<string, Setting>,
                          out: map<string, Setting>, k: string)
    requires AllResolve(secrets, config) && IsRendering(secrets, kind, config, overlay, out)
    requires k in config && !IsRef(k) && IsAlone(kind, config, overlay, k)
    ensures StoredName(kind, k) in out && out[StoredName(kind, k)] == Plain(config[k])
  {
    hide IsRendering, AllResolve, Values, StoredName, PointsTo, Replaces, IsRef, IsAlone;
    AloneKeepsValue(secrets, kind, config, overlay, out, k);
    ValueIs(secrets, config, k);
  }

  lemma RefEntryIsHeld(secrets: Secrets, kind: Kind, config: map<string, Json>, overlay: map<string, Setting>,
                       out: map<string, Setting>, k: string, c: Content)
    requires AllResolve(secrets, config) && IsRendering(secrets, kind, config, overlay, out)
    requires k in config && IsRef(k) && IsAlone(kind, config, overlay, k) && PointsTo(secrets, config[k], c)
    ensures StoredName(kind, k) in out && Replaces(out[StoredName(kind, k)], c)
  {
    hide IsRendering, AllResolve, Values, StoredName, PointsTo, Replaces, IsRef, IsAlone;
    AloneKeepsValue(secrets, kind, config, overlay, out, k);
    ValueIs(secrets, config, k);
  }

  lemma RenderingHoldsEntries(secrets: Secrets, kind: Kind, config: map<string, Json>,
                              overlay: map<string, Setting>, out: map<string, Setting>)
    requires AllResolve(secrets, config) && IsRendering(secrets, kind, config, overlay, out)
    ensures HoldsEntries(secrets, kind, config, overlay, out)
  {
    hide IsRendering, AllResolve, StoredName, PointsTo, Replaces, IsRef, IsAlone;
    NothingElseIsRendered(secrets, kind, config, overlay, out);
    forall k | k in config && !IsRef(k) && IsAlone(kind, config, overlay, k)
      ensures StoredName(kind, k) in out && out[StoredName(kind, k)] == Plain(config[k])
    {
      DirectEntryIsHeld(secrets, kind, config, overlay, out, k);
    }
    forall k, c | k in config && IsRef(k) && IsAlone(kind, config, overlay, k) && PointsTo(secrets, config[k], c)
      ensures StoredName(kind, k) in out && Replaces(out[StoredName(kind, k)], c)
    {
      RefEntryIsHeld(secrets, kind, config, overlay, out, k, c);
    }
  }

  /** The renaming loop. `q` is the order in which this iteration visited the entries. */
  method RenameKeys(kind: Kind, resolved: map<string, Setting>)
    returns (renamed: map<string, Setting>, ghost q: seq<string>)
    ensures Enumerates(q, resolved.Keys)
    ensures renamed == Rekey(q, Renames(kind, resolved), resolved)
  {
    hide Rename, IsPrefixOrder, Rekey;
    renamed := map[];
    var remaining := resolved.Keys;
    q := [];
    ghost var target := Renames(kind, resolved);
    RekeyNothing(target, resolved);
    while remaining != {}
      invariant IsPrefixOrder(q, resolved.Keys)
      invariant remaining <= resolved.Keys && forall k :: k in resolved.Keys ==> (k in q <==> k !in remaining)
      invariant forall k :: k in q ==> k in resolved.Keys
      invariant renamed == Rekey(q, target, resolved)
    {
      var key :| key in remaining;
      PrefixExtends(q, key, resolved.Keys);
      RekeyStep(q, key, target, resolved);
      q := q + [key];
      renamed := renamed[Rename(kind, key) := resolved[key]];
      remaining := remaining - {key};
    }
    CompletePrefix(q, resolved.Keys);
  }

  lemma IsSomeRendering(secrets: Secrets, kind: Kind, config: map<string, Json>, overlay: map<string, Setting>,
                        out: map<string, Setting>, p: seq<string>, q: seq<string>)
    requires RenderedBy(secrets, kind, config, overlay, out, p, q)
    ensures IsRendering(secrets, kind, config, overlay, out)
  {}

  /** Resolving and renaming one configuration, both loops over maps. */
  method RenderConfig(secrets: Secrets, kind: Kind, config: map<string, Json>, overlay: map<string, Setting>)
    returns (r: Result<map<string, Setting>, RefError>)
    ensures r.Success? <==> AllResolve(secrets, config)
    ensures r.Success? ==> IsRendering(secrets, kind, config, overlay, r.value)
    ensures r.Success? ==> HoldsEntries(secrets, kind, config, overlay, r.value)
    ensures r.Success? && FinalAgree(secrets, kind, config, overlay) ==>
              IsDeclared(secrets, kind, config, overlay, r.value)
  {
    hide IsRendering, HoldsEntries, IsDeclared, FinalAgree, AllResolve, HoldsGiven, ResolveInOrder, Rekey, Renames,
         NoDoubleFields, IsRekeyed, Targets, Values, Enumerates, IsPrefixOrder;
    var resolution, p := ResolveSecretReferences(secrets, config);
    if resolution.Failure? {
      return Failure(resolution.error);
    }
    var renamed, q := RenameKeys(kind, resolution.value);
    IsSomeRendering(secrets, kind, config, overlay, renamed + overlay, p, q);
    RenderingHoldsEntries(secrets, kind, config, overlay, renamed + overlay);
    if FinalAgree(secrets, kind, config, overlay) {
      RenderingIsDeclared(secrets, kind, config, overlay, renamed + overlay);
    }
    return Success(renamed + overlay);
  }

  // ----- All references of a Backup -----

  /** The object is there in the right form, and all references in its configuration resolve. */
  ghost predicate StorageReady(ns: Namespace, ref: StorageRef) {
    exists source :: IsStorageSource(ns, ref, source) && AllResolve(ns.secrets, source.config)
  }

  ghost predicate DatabaseReady(ns: Namespace, ref: DatabaseRef) {
    exists source :: IsDatabaseSource(ns, ref, source) && AllResolve(ns.secrets, source.config)
  }

  ghost predicate IsLast(sources: seq<Source>, i: int) {
    0 <= i < |sources| && forall k :: i < k < |sources| ==> sources[k].name != sources[i].name
  }

  /** One entry per distinct name, rendered from the last reference with that name. */
  ghost predicate Holds(secrets: Secrets, kind: Kind, sources: seq<Source>, entries: map<string, map<string, Setting>>) {
    && (forall n :: n in entries <==> exists i :: IsLast(sources, i) && sources[i].name == n)
    && (forall i :: IsLast(sources, i) ==> EntryHolds(secrets, kind, sources[i], entries))
  }

  ghost predicate EntryHolds(secrets: Secrets, kind: Kind, source: Source, entries: map<string, map<string, Setting>>) {
    && source.name in entries
    && IsRendering(secrets, kind, source.config, source.overlay, entries[source.name])
  }

  lemma HoldsNothing(secrets: Secrets, kind: Kind)
    ensures Holds(secrets, kind, [], map[])
  {}

  lemma LastExtends(sources: seq<Source>, source: Source, i: nat)
    requires i < |sources|
    ensures IsLast(sources + [source], i) <==> IsLast(sources, i) && sources[i].name != source.name
  {
    var sources' := sources + [source];
    if IsLast(sources', i) {
      assert sources'[|sources|] == source;
      forall k | i < k < |sources| ensures sources[k].name != sources[i].name {
        assert sources'[k] == sources[k];
      }
    }
  }

  lemma EntryHoldsExtends(secrets: Secrets, kind: Kind, entries: map<string, map<string, Setting>>,
                          source: Source, out: map<string, Setting>)
    requires IsRendering(secrets, kind, source.config, source.overlay, out)
    ensures EntryHolds(secrets, kind, source, entries[source.name := out])
    ensures forall s: Source :: s.name != source.name && EntryHolds(secrets, kind, s, entries)
                        ==> EntryHolds(secrets, kind, s, entries[source.name := out])
  {
    hide IsRendering;
  }

  lemma HoldsExtends(secrets: Secrets, kind: Kind, sources: seq<Source>,
                     entries: map<string, map<string, Setting>>, source: Source, out: map<string, Setting>)
    requires Holds(secrets, kind, sources, entries)
    requires IsRendering(secrets, kind, source.config, source.overlay, out)
    ensures Holds(secrets, kind, sources + [source], entries[source.name := out])
  {
    hide IsRendering, EntryHolds;
    EntryHoldsExtends(secrets, kind, entries, source, out);
    var sources', entries' := sources + [source], entries[source.name := out];
    var n := |sources|;
    assert IsLast(sources', n);
    forall i | 0 <= i < n
      ensures IsLast(sources', i) <==> IsLast(sources, i) && sources[i].name != source.name
    {
      LastExtends(sources, source, i);
    }
    hide IsLast;
    forall m
      ensures m in entries' <==> exists i :: IsLast(sources', i) && sources'[i].name == m
    {
      if m in entries && m != source.name {
        var i :| IsLast(sources, i) && sources[i].name == m;
        assert IsLast(sources', i) && sources'[i].name == m;
      }
    }
    forall i | IsLast(sources', i)
      ensures EntryHolds(secrets, kind, sources'[i], entries')
    {
      if i < n {
        assert EntryHolds(secrets, kind, sources[i], entries);
      }
    }
  }

  function OrEmpty(s: Option<string>): string {
    if s.Some? then s.value else ""
  }

  /** The stored configuration is a model for this spec, rendered from these objects. */
  ghost predicate IsModelFor(ns: Namespace, spec: Spec, model: Model) {
    && (exists ds: seq<Source> ::
          && |ds| == |spec.databaseRefs|
          && (forall i :: 0 <= i < |ds| ==> IsDatabaseSource(ns, spec.databaseRefs[i], ds[i]))
          && Holds(ns.secrets, Databases, ds, model.databases))
    && (exists ss: seq<Source> ::
          && |ss| == |spec.storageRefs|
          && (forall i :: 0 <= i < |ss| ==> IsStorageSource(ns, spec.storageRefs[i], ss[i]))
          && Holds(ns.secrets, Storages, ss, model.storages))
    && model.beforeScript == spec.beforeScript
    && model.afterScript == spec.afterScript
    && model.compressWith == OrEmpty(spec.compressWith)
    && model.encodeWith == OrEmpty(spec.encodeWith)
  }

  lemma ModelFits(ns: Namespace, spec: Spec, model: Model, ds: seq<Source>, ss: seq<Source>)
    requires |ds| == |spec.databaseRefs|
    requires forall i :: 0 <= i < |ds| ==> IsDatabaseSource(ns, spec.databaseRefs[i], ds[i])
    requires Holds(ns.secrets, Databases, ds, model.databases)
    requires |ss| == |spec.storageRefs|
    requires forall i :: 0 <= i < |ss| ==> IsStorageSource(ns, spec.storageRefs[i], ss[i])
    requires Holds(ns.secrets, Storages, ss, model.storages)
    requires model.beforeScript == spec.beforeScript && model.afterScript == spec.afterScript
    requires model.compressWith == OrEmpty(spec.compressWith) && model.encodeWith == OrEmpty(spec.encodeWith)
    ensures IsModelFor(ns, spec, model)
  {
    hide Holds, IsDatabaseSource, IsStorageSource;
  }

  /** What one stored entry is, by its source alone: all its references resolve; it holds the source's
      entries and overlay; without a clash it is the declared configuration; and no camelCase key the loop
      renames, nor a reference that was not doubly suffixed, is left. */
  ghost predicate MeetsDeclaration(secrets: Secrets, kind: Kind, source: Source, out: map<string, Setting>) {
    && AllResolve(secrets, source.config)
    && HoldsEntries(secrets, kind, source.config, source.overlay, out)
    && (FinalAgree(secrets, kind, source.config, source.overlay) ==>
          IsDeclared(secrets, kind, source.config, source.overlay, out))
    && (forall t :: t in out ==> t !in CamelKeys(kind))
    && ((forall k :: k in source.config ==> !IsRef(k) || !IsRef(Target(k))) ==> forall t :: t in out ==> !IsRef(t))
  }

  lemma EntryMeetsDeclaration(secrets: Secrets, kind: Kind, source: Source, entries: map<string, map<string, Setting>>)
    requires EntryHolds(secrets, kind, source, entries) && OverlayKeys(source.overlay)
    ensures MeetsDeclaration(secrets, kind, source, entries[source.name])
  {
    var out := entries[source.name];
    RenderingResolves(secrets, kind, source.config, source.overlay, out);
    RenderingHoldsEntries(secrets, kind, source.config, source.overlay, out);
    RenderedKeysAreClean(secrets, kind, source.config, source.overlay, out);
    if FinalAgree(secrets, kind, source.config, source.overlay) {
      RenderingIsDeclared(secrets, kind, source.config, source.overlay, out);
    }
    forall t | t in out
      ensures t !in CamelKeys(kind)
    {
      RenameMovesCamelKeys(kind, t);
    }
    hide IsRendering, AllResolve, FinalAgree, IsDeclared, Rename, IsRef, Target, CamelKeys, HoldsEntries;
  }

  lemma RenameMovesCamelKeys(kind: Kind, key: string)
    ensures key in CamelKeys(kind) ==> Rename(kind, key) != key
  {}

  /** The last reference to this name. */
  ghost predicate LastStorageRef(refs: seq<StorageRef>, i: int) {
    0 <= i < |refs| && forall k :: i < k < |refs| ==> refs[k].name != refs[i].name
  }

  ghost predicate LastDatabaseRef(refs: seq<DatabaseRef>, i: int) {
    0 <= i < |refs| && forall k :: i < k < |refs| ==> refs[k].name != refs[i].name
  }

  /** A stored storage configuration in terms of the last reference with its name and of the Storage object
      that one names: its resolved and renamed entries under the reference's lower-case type and its
      positive keep and timeout. */
  lemma StorageMeetsDeclaration(ns: Namespace, spec: Spec, model: Model, i: int)
    requires IsModelFor(ns, spec, model) && LastStorageRef(spec.storageRefs, i)
    ensures var ref := spec.storageRefs[i];
            && ref.name in model.storages
            && exists source :: IsStorageSource(ns, ref, source)
                                && MeetsDeclaration(ns.secrets, Storages, source, model.storages[ref.name])
  {
    var source := StorageIsRendered(ns, spec, model, i);
    EntryMeetsDeclaration(ns.secrets, Storages, source, model.storages);
    hide MeetsDeclaration, IsModelFor;
  }

  lemma StorageIsRendered(ns: Namespace, spec: Spec, model: Model, i: int) returns (source: Source)
    requires IsModelFor(ns, spec, model) && LastStorageRef(spec.storageRefs, i)
    ensures IsStorageSource(ns, spec.storageRefs[i], source) && OverlayKeys(source.overlay)
    ensures EntryHolds(ns.secrets, Storages, source, model.storages)
  {
    hide IsStorageSource, EntryHolds;
    var ss: seq<Source> :|
      && |ss| == |spec.storageRefs|
      && (forall i :: 0 <= i < |ss| ==> IsStorageSource(ns, spec.storageRefs[i], ss[i]))
      && Holds(ns.secrets, Storages, ss, model.storages);
    forall k | 0 <= k < |ss|
      ensures ss[k].name == spec.storageRefs[k].name && OverlayKeys(ss[k].overlay)
    {
      StorageSourceShape(ns, spec.storageRefs[k], ss[k]);
    }
    assert IsLast(ss, i);
    source := ss[i];
  }

  /** The same for a Database, whose type is in its spec. */
  lemma DatabaseMeetsDeclaration(ns: Namespace, spec: Spec, model: Model, i: int)
    requires IsModelFor(ns, spec, model) && LastDatabaseRef(spec.databaseRefs, i)
    ensures var ref := spec.databaseRefs[i];
            && ref.name in model.databases
            && exists source :: IsDatabaseSource(ns, ref, source)
                                && MeetsDeclaration(ns.secrets, Databases, source, model.databases[ref.name])
  {
    var source := DatabaseIsRendered(ns, spec, model, i);
    EntryMeetsDeclaration(ns.secrets, Databases, source, model.databases);
    hide MeetsDeclaration, IsModelFor;
  }

  lemma DatabaseIsRendered(ns: Namespace, spec: Spec, model: Model, i: int) returns (source: Source)
    requires IsModelFor(ns, spec, model) && LastDatabaseRef(spec.databaseRefs, i)
    ensures IsDatabaseSource(ns, spec.databaseRefs[i], source) && OverlayKeys(source.overlay)
    ensures EntryHolds(ns.secrets, Databases, source, model.databases)
  {
    hide IsDatabaseSource, EntryHolds;
    var ds: seq<Source> :|
      && |ds| == |spec.databaseRefs|
      && (forall i :: 0 <= i < |ds| ==> IsDatabaseSource(ns, spec.databaseRefs[i], ds[i]))
      && Holds(ns.secrets, Databases, ds, model.databases);
    forall k | 0 <= k < |ds|
      ensures ds[k].name == spec.databaseRefs[k].name && OverlayKeys(ds[k].overlay)
    {
      DatabaseSourceShape(ns, spec.databaseRefs[k], ds[k]);
    }
    assert IsLast(ds, i);
    source := ds[i];
  }

  lemma RenderingResolves(secrets: Secrets, kind: Kind, config: map<string, Json>, overlay: map<string, Setting>,
                          out: map<string, Setting>)
    requires IsRendering(secrets, kind, config, overlay, out)
    ensures AllResolve(secrets, config)
  {
    var p, q :| RenderedBy(secrets, kind, config, overlay, out, p, q);
    ResolvesIff(secrets, config, p);
  }

  ghost predicate AllReady(ns: Namespace, spec: Spec) {
    && (forall i :: 0 <= i < |spec.databaseRefs| ==> DatabaseReady(ns, spec.databaseRefs[i]))
    && (forall i :: 0 <= i < |spec.storageRefs| ==> StorageReady(ns, spec.storageRefs[i]))
  }

  // ----- Owner references -----

  ghost predicate HasOwner(refs: seq<Owner>, uid: string) {
    exists i :: 0 <= i < |refs| && refs[i].uid == uid
  }

  /** The owner is there afterwards, nothing is removed or reordered, and it is never added twice. */
  method EnsureOwnerReference(refs: seq<Owner>, owner: Owner) returns (r: seq<Owner>)
    ensures HasOwner(r, owner.uid)
    ensures r == if HasOwner(refs, owner.uid) then refs else refs + [owner]
  {
    for i := 0 to |refs|
      invariant !HasOwner(refs[..i], owner.uid)
    {
      if refs[i].uid == owner.uid {
        return refs;
      }
    }
    assert refs[..|refs|] == refs;
    r := refs + [owner];
    assert r[|refs|].uid == owner.uid;
  }

  // ----- The stored Secret -----

  const CONFIG_FILE := "gobackup.yml"

  /** The part of a Secret a write of the rendered file keeps or sets: the API server merges the written
      text into the entries that are already there. */
  ghost predicate StoredFrom(old': Secrets, name: string, owner: Owner, config: BackupConfig, new': Secrets) {
    && new'.unreachable == old'.unreachable
    && new'.objects.Keys == old'.objects.Keys + {name}
    && (forall n :: n in old'.objects && n != name ==> new'.objects[n] == old'.objects[n])
    && var before := if name in old'.objects then old'.objects[name] else SecretObject(map[], None, []);
       && new'.objects[name].data == before.data["gobackup.yml" := Yaml(config)]
       && new'.objects[name].stringData.None?
       && new'.objects[name].owners == if HasOwner(before.owners, owner.uid) then before.owners else before.owners + [owner]
  }

  /** What becomes of the final Create or Update: it is stored, it is refused, or it is stored and an
      error comes back all the same. */
  datatype WriteReply = Stored | Refused | ReplyLost

  /** The clients CreateSecret uses. */
  class K8s {
    const crds: map<CrdKey, map<string, Json>>
    const writeReply: WriteReply
    var secrets: Secrets

    constructor (crds: map<CrdKey, map<string, Json>>, secrets: Secrets, writeReply: WriteReply)
      ensures this.crds == crds && this.secrets == secrets && this.writeReply == writeReply
    {
      this.crds := crds;
      this.secrets := secrets;
      this.writeReply := writeReply;
    }

    function View(): Namespace
      reads this
    {
      Namespace(crds, secrets)
    }

    method RenderDatabases(refs: seq<DatabaseRef>)
      returns (r: Result<map<string, map<string, Setting>>, RenderError>, ghost sources: seq<Source>)
      ensures r.Success? <==> forall i :: 0 <= i < |refs| ==> DatabaseReady(View(), refs[i])
      ensures r.Failure? ==>
                && |sources| < |refs| && !DatabaseReady(View(), refs[|sources|])
                && (forall i :: 0 <= i < |sources| ==> DatabaseReady(View(), refs[i]))
                && ErrorAbout(r.error) == refs[|sources|].name
      ensures r.Success? ==>
                && |sources| == |refs|
                && (forall i :: 0 <= i < |refs| ==> IsDatabaseSource(View(), refs[i], sources[i]))
                && Holds(secrets, Databases, sources, r.value)
    {
      hide Holds, IsRendering, AllResolve, FinalAgree, IsDeclared, HoldsEntries, DatabaseSource, IsDatabaseSource;
      var entries: map<string, map<string, Setting>> := map[];
      sources := [];
      HoldsNothing(secrets, Databases);
      for i := 0 to |refs|
        invariant |sources| == i
        invariant forall k :: 0 <= k < i ==> IsDatabaseSource(View(), refs[k], sources[k])
        invariant forall k :: 0 <= k < i ==> DatabaseReady(View(), refs[k])
        invariant Holds(secrets, Databases, sources, entries)
      {
        DatabaseSourceIff(View(), refs[i]);
        var source := DatabaseSource(View(), refs[i]);
        if source.Failure? {
          return Failure(source.error), sources;
        }
        var out := RenderConfig(secrets, Databases, source.value.config, source.value.overlay);
        if out.Failure? {
          return Failure(Unresolved(refs[i].name, out.error)), sources;
        }
        HoldsExtends(secrets, Databases, sources, entries, source.value, out.value);
        entries := entries[refs[i].name := out.value];
        sources := sources + [source.value];
      }
      return Success(entries), sources;
    }

    method RenderStorages(refs: seq<StorageRef>)
      returns (r: Result<map<string, map<string, Setting>>, RenderError>, ghost sources: seq<Source>)
      ensures r.Success? <==> forall i :: 0 <= i < |refs| ==> StorageReady(View(), refs[i])
      ensures r.Failure? ==>
                && |sources| < |refs| && !StorageReady(View(), refs[|sources|])
                && (forall i :: 0 <= i < |sources| ==> StorageReady(View(), refs[i]))
                && ErrorAbout(r.error) == refs[|sources|].name
      ensures r.Success? ==>
                && |sources| == |refs|
                && (forall i :: 0 <= i < |refs| ==> IsStorageSource(View(), refs[i], sources[i]))
                && Holds(secrets, Storages, sources, r.value)
    {
      hide Holds, IsRendering, AllResolve, FinalAgree, IsDeclared, HoldsEntries, StorageSource, IsStorageSource;
      var entries: map<string, map<string, Setting>> := map[];
      sources := [];
      HoldsNothing(secrets, Storages);
      for i := 0 to |refs|
        invariant |sources| == i
        invariant forall k :: 0 <= k < i ==> IsStorageSource(View(), refs[k], sources[k])
        invariant forall k :: 0 <= k < i ==> StorageReady(View(), refs[k])
        invariant Holds(secrets, Storages, sources, entries)
      {
        StorageSourceIff(View(), refs[i]);
        var source := StorageSource(View(), refs[i]);
        if source.Failure? {
          return Failure(source.error), sources;
        }
        var out := RenderConfig(secrets, Storages, source.value.config, source.value.overlay);
        if out.Failure? {
          return Failure(Unresolved(refs[i].name, out.error)), sources;
        }
        HoldsExtends(secrets, Storages, sources, entries, source.value, out.value);
        entries := entries[refs[i].name := out.value];
        sources := sources + [source.value];
      }
      return Success(entries), sources;
    }

    /** All or nothing: it succeeds exactly when every reference of both loops is ready, the Secret can be
        read, and the write is stored and answered; then a model for the whole spec is stored. No call
        before the last one writes, so any other failure leaves every Secret as it was, except that a write
        whose reply is lost has stored the whole model too. */
    method CreateSecret(name: string, uid: string, spec: Spec) returns (r: Result<Model, RenderError>, ghost model: Model)
      modifies this
      ensures r.Success? <==> old(AllReady(View(), spec)) && name !in old(secrets).unreachable && writeReply == Stored
      ensures r.Success? ==> r.value == model
      ensures if old(AllReady(View(), spec)) && name !in old(secrets).unreachable && writeReply != Refused
              then && old(IsModelFor(View(), spec, model))
                   && StoredFrom(old(secrets), name, Owner(uid, name), BackupConfig(map[name := model]), secrets)
              else secrets == old(secrets)
    {
      hide Holds, IsDatabaseSource, IsStorageSource, DatabaseReady, StorageReady, AllResolve, StoredFrom;
      model := Model(map[], map[], "", "", "", "");
      var databases, ds := RenderDatabases(spec.databaseRefs);
      if databases.Failure? {
        return Failure(databases.error), model;
      }
      var storages, ss := RenderStorages(spec.storageRefs);
      if storages.Failure? {
        return Failure(storages.error), model;
      }
      var backupModel := Model(databases.value, storages.value, "", "", "", "");
      if spec.beforeScript != "" {
        backupModel := backupModel.(beforeScript := spec.beforeScript);
      }
      if spec.afterScript != "" {
        backupModel := backupModel.(afterScript := spec.afterScript);
      }
      if spec.compressWith.Some? && spec.compressWith.value != "" {
        backupModel := backupModel.(compressWith := spec.compressWith.value);
      }
      if spec.encodeWith.Some? && spec.encodeWith.value != "" {
        backupModel := backupModel.(encodeWith := spec.encodeWith.value);
      }
      ModelFits(View(), spec, backupModel, ds, ss);
      model := backupModel;
      r := Store(name, Owner(uid, name), backupModel);
    }

    /** The create-or-update at the end. */
    method Store(name: string, owner: Owner, model: Model) returns (r: Result<Model, RenderError>)
      modifies this
      ensures r == if name in old(secrets).unreachable then Failure(SecretGetFailed)
                   else if writeReply == Stored then Success(model)
                   else Failure(SecretWriteFailed)
      ensures if name !in old(secrets).unreachable && writeReply != Refused
              then StoredFrom(old(secrets), name, owner, BackupConfig(map[name := model]), secrets)
              else secrets == old(secrets)
    {
      var config := BackupConfig(map[name := model]);
      if name in secrets.unreachable {
        return Failure(SecretGetFailed);
      }
      if writeReply == Refused {
        return Failure(SecretWriteFailed);
      }
      var stored := SecretObject(map[CONFIG_FILE := Yaml(config)], None, [owner]);
      if name in secrets.objects {
        var found := secrets.objects[name];
        var owners := EnsureOwnerReference(found.owners, owner);
        stored := SecretObject(found.data[CONFIG_FILE := Yaml(config)], None, owners);
      }
      secrets := secrets.(objects := secrets.objects[name := stored]);
      r := if writeReply == Stored then Success(model) else Failure(SecretWriteFailed);
    }
  }
}
