/** `resolveSecretReferences`: replaces every `<field>_ref` entry of a configuration by the value it
    points to. The Go loop ranges over a map, so the order of the entries is arbitrary. */
module SecretRefs {
  import opened Wrappers
  import opened Config

  /** A metav1.OwnerReference. */
  datatype Owner = Owner(uid: string, name: string)

  datatype SecretObject = SecretObject(
    data: map<string, Content>,
    stringData: Option<map<string, Content>>,
    owners: seq<Owner>)

  /** The Secrets of the namespace; a Get for a name in `unreachable` fails for another reason than
      absence. */
  datatype Secrets = Secrets(objects: map<string, SecretObject>, unreachable: set<string>)

  datatype RefError =
    | NotAMap(key: string)
    | BadName(key: string)
    | BadKey(key: string)
    | SecretNotFound(key: string, secret: string)
    | GetFailed(key: string, secret: string)
    | EntryNotFound(key: string, secret: string, entry: string)

  const SUFFIX := "_ref"

  predicate IsRef(key: string) {
    |key| >= 4 && key[|key| - 4..] == SUFFIX
  }

  /** The field an entry ends up in. */
  function Target(key: string): string {
    if IsRef(key) then key[..|key| - 4] else key
  }

  function AsSetting(c: Content): Setting {
    match c
    case Text(s) => Plain(Str(s))
    case Yaml(config) => File(config)
  }

  function NonEmptyString(fields: map<string, Json>, name: string): Option<string> {
    if name in fields && fields[name].Str? && fields[name].s != "" then Some(fields[name].s) else None
  }

  function ResolveRef(secrets: Secrets, key: string, value: Json): Result<Setting, RefError> {
    if !value.Obj? then Failure(NotAMap(key))
    else
      var name, entry := NonEmptyString(value.fields, "name"), NonEmptyString(value.fields, "key");
      if name.None? then Failure(BadName(key))
      else if entry.None? then Failure(BadKey(key))
      else if name.value in secrets.unreachable then Failure(GetFailed(key, name.value))
      else if name.value !in secrets.objects then Failure(SecretNotFound(key, name.value))
      else
        var secret := secrets.objects[name.value];
        if entry.value in secret.data then Success(AsSetting(secret.data[entry.value]))
        else if secret.stringData.Some? && entry.value in secret.stringData.value
        then Success(AsSetting(secret.stringData.value[entry.value]))
        else Failure(EntryNotFound(key, name.value, entry.value))
  }

  function ResolveEntry(secrets: Secrets, key: string, value: Json): Result<Setting, RefError> {
    if IsRef(key) then ResolveRef(secrets, key, value) else Success(Plain(value))
  }

  /** A reference is well formed and what it points to exists. */
  ghost predicate PointsTo(secrets: Secrets, value: Json, content: Content) {
    && value.Obj?
    && exists name, entry ::
         && name != "" && entry != ""
         && "name" in value.fields && value.fields["name"] == Str(name)
         && "key" in value.fields && value.fields["key"] == Str(entry)
         && name !in secrets.unreachable && name in secrets.objects
         && EntryIs(secrets.objects[name], entry, content)
  }

  /** Data goes before stringData. */
  ghost predicate EntryIs(secret: SecretObject, entry: string, content: Content) {
    if entry in secret.data then secret.data[entry] == content
    else secret.stringData.Some? && entry in secret.stringData.value && secret.stringData.value[entry] == content
  }

  ghost predicate AllResolve(secrets: Secrets, config: map<string, Json>) {
    forall k :: k in config && IsRef(k) ==> exists c :: PointsTo(secrets, config[k], c)
  }

  lemma RefResolvesIff(secrets: Secrets, key: string, value: Json)
    ensures ResolveRef(secrets, key, value).Success? <==> exists c :: PointsTo(secrets, value, c)
    ensures forall c :: PointsTo(secrets, value, c) ==> ResolveRef(secrets, key, value) == Success(AsSetting(c))
  {
    forall c | PointsTo(secrets, value, c)
      ensures ResolveRef(secrets, key, value) == Success(AsSetting(c))
    {}
    if ResolveRef(secrets, key, value).Success? {
      var name, entry := value.fields["name"].s, value.fields["key"].s;
      var secret := secrets.objects[name];
      var c := if entry in secret.data then secret.data[entry] else secret.stringData.value[entry];
      assert EntryIs(secret, entry, c);
      assert PointsTo(secrets, value, c);
    }
  }

  /** A string that is not empty, under this name. */
  ghost predicate HasString(fields: map<string, Json>, name: string, text: string) {
    name in fields && fields[name] == Str(text) && text != ""
  }

  /** What each error says, in the order of the checks. */
  lemma RefErrorsMean(secrets: Secrets, key: string, value: Json)
    ensures ResolveRef(secrets, key, value) == Failure(NotAMap(key)) <==> !value.Obj?
    ensures ResolveRef(secrets, key, value) == Failure(BadName(key)) <==>
            value.Obj? && !exists name :: HasString(value.fields, "name", name)
    ensures ResolveRef(secrets, key, value) == Failure(BadKey(key)) <==>
            && value.Obj? && (exists name :: HasString(value.fields, "name", name))
            && !exists entry :: HasString(value.fields, "key", entry)
    ensures forall name, entry :: value.Obj? && HasString(value.fields, "name", name) && HasString(value.fields, "key", entry) ==>
              && (ResolveRef(secrets, key, value) == Failure(GetFailed(key, name)) <==> name in secrets.unreachable)
              && (ResolveRef(secrets, key, value) == Failure(SecretNotFound(key, name)) <==>
                    name !in secrets.unreachable && name !in secrets.objects)
              && (ResolveRef(secrets, key, value) == Failure(EntryNotFound(key, name, entry)) <==>
                    && name !in secrets.unreachable && name in secrets.objects
                    && !exists c :: EntryIs(secrets.objects[name], entry, c))
  {
    if value.Obj? {
      var name, entry := NonEmptyString(value.fields, "name"), NonEmptyString(value.fields, "key");
      assert name.Some? ==> HasString(value.fields, "name", name.value);
      assert entry.Some? ==> HasString(value.fields, "key", entry.value);
      if name.Some? && entry.Some? && name.value in secrets.objects {
        var secret := secrets.objects[name.value];
        if entry.value in secret.data {
          assert EntryIs(secret, entry.value, secret.data[entry.value]);
        } else if secret.stringData.Some? && entry.value in secret.stringData.value {
          assert EntryIs(secret, entry.value, secret.stringData.value[entry.value]);
        }
      }
    }
  }

  /** The loop's result when the entries come in this order: it stops at the first bad reference. */
  ghost function ResolveInOrder(secrets: Secrets, config: map<string, Json>, order: seq<string>)
    : Result<map<string, Setting>, RefError>
    requires forall k :: k in order ==> k in config
  {
    if order == [] then Success(map[])
    else
      var last := order[|order| - 1];
      match ResolveInOrder(secrets, config, order[..|order| - 1])
      case Failure(e) => Failure(e)
      case Success(resolved) =>
        match ResolveEntry(secrets, last, config[last])
        case Failure(e) => Failure(e)
        case Success(v) => Success(resolved[Target(last) := v])
  }

  ghost function Targets(config: map<string, Json>): (t: map<string, string>)
    ensures t.Keys == config.Keys
  {
    map k | k in config :: Target(k)
  }

  /** What each entry resolves to. */
  ghost function Values(secrets: Secrets, config: map<string, Json>): (v: map<string, Setting>)
    requires AllResolve(secrets, config)
    ensures v.Keys == config.Keys
  {
    map k | k in config :: ValueOf(secrets, k, config[k])
  }

  ghost function ValueOf(secrets: Secrets, key: string, value: Json): Setting {
    match ResolveEntry(secrets, key, value)
    case Success(v) => v
    case Failure(_) => Plain(Null)
  }

  lemma {:induction false} ResolveIsRekey(secrets: Secrets, config: map<string, Json>, order: seq<string>)
    requires AllResolve(secrets, config) && forall k :: k in order ==> k in config
    ensures ResolveInOrder(secrets, config, order) == Success(Rekey(order, Targets(config), Values(secrets, config)))
  {
    if order != [] {
      var last := order[|order| - 1];
      ResolveIsRekey(secrets, config, order[..|order| - 1]);
      RefResolvesIff(secrets, last, config[last]);
    }
  }

  lemma {:induction false} OneBadRefFails(secrets: Secrets, config: map<string, Json>, order: seq<string>, bad: string)
    requires forall k :: k in order ==> k in config
    requires bad in order && ResolveEntry(secrets, bad, config[bad]).Failure?
    ensures ResolveInOrder(secrets, config, order).Failure?
  {
    var n := |order| - 1;
    if order[n] != bad {
      assert order == order[..n] + [order[n]];
      OneBadRefFails(secrets, config, order[..n], bad);
    }
  }

  /** Success or failure does not depend on the order: resolution succeeds exactly when every
      reference is well formed and its Secret has the entry. */
  lemma ResolvesIff(secrets: Secrets, config: map<string, Json>, order: seq<string>)
    requires Enumerates(order, config.Keys)
    ensures ResolveInOrder(secrets, config, order).Success? <==> AllResolve(secrets, config)
  {
    if AllResolve(secrets, config) {
      ResolveIsRekey(secrets, config, order);
    } else {
      var bad :| bad in config && IsRef(bad) && !exists c :: PointsTo(secrets, config[bad], c);
      RefResolvesIff(secrets, bad, config[bad]);
      OneBadRefFails(secrets, config, order, bad);
    }
  }

  /** Both fail, or both succeed with the same map. Which error is reported may differ. */
  ghost predicate SameOutcome(r: Result<map<string, Setting>, RefError>, r': Result<map<string, Setting>, RefError>) {
    (r.Failure? && r'.Failure?) || r == r'
  }

  ghost predicate ResolutionConfluent(secrets: Secrets, config: map<string, Json>) {
    forall p, q :: Enumerates(p, config.Keys) && Enumerates(q, config.Keys) ==>
                     SameOutcome(ResolveInOrder(secrets, config, p), ResolveInOrder(secrets, config, q))
  }

  lemma GoodRefsConfluentIff(secrets: Secrets, config: map<string, Json>)
    requires AllResolve(secrets, config)
    ensures OrderIrrelevant(config.Keys, Targets(config), Values(secrets, config)) <==> ResolutionConfluent(secrets, config)
  {
    var t, v := Targets(config), Values(secrets, config);
    hide Targets, Values, ResolveInOrder, AllResolve, Rekey;
    forall p, q | Enumerates(p, config.Keys) && Enumerates(q, config.Keys)
      ensures Rekey(p, t, v) == Rekey(q, t, v) <==>
              SameOutcome(ResolveInOrder(secrets, config, p), ResolveInOrder(secrets, config, q))
    {
      ResolveIsRekey(secrets, config, p);
      ResolveIsRekey(secrets, config, q);
    }
  }

  /** Confluence of secret resolution, exactly: the iteration order is irrelevant if and only if some
      reference is bad, or entries that meet in one field resolve to the same value. */
  lemma ResolutionConfluentIff(secrets: Secrets, config: map<string, Json>)
    ensures ResolutionConfluent(secrets, config) <==>
            (!AllResolve(secrets, config) || Agree(config.Keys, Targets(config), Values(secrets, config)))
  {
    hide Targets, Values, Agree, OrderIrrelevant;
    if AllResolve(secrets, config) {
      OrderIndependentIff(config.Keys, Targets(config), Values(secrets, config));
      GoodRefsConfluentIff(secrets, config);
    } else {
      hide AllResolve, ResolveInOrder;
      forall p | Enumerates(p, config.Keys)
        ensures ResolveInOrder(secrets, config, p).Failure?
      {
        ResolvesIff(secrets, config, p);
      }
    }
  }

  /** No field is given both directly and by reference. */
  ghost predicate NoDoubleFields(config: map<string, Json>) {
    forall k :: k in config && !IsRef(k) ==> k + SUFFIX !in config
  }

  /** That is the check a caller can make: two entries meet in one field exactly when one is the other's
      `_ref`. */
  lemma FieldsMeetIff(j: string, k: string)
    ensures Target(j) == Target(k) && j != k <==> (!IsRef(j) && k == j + SUFFIX) || (!IsRef(k) && j == k + SUFFIX)
  {
    assert IsRef(j) ==> j == Target(j) + SUFFIX;
    assert IsRef(k) ==> k == Target(k) + SUFFIX;
    assert (j + SUFFIX)[|j + SUFFIX| - 4..] == SUFFIX && (j + SUFFIX)[..|j|] == j;
    assert (k + SUFFIX)[|k + SUFFIX| - 4..] == SUFFIX && (k + SUFFIX)[..|k|] == k;
  }

  lemma SingleFieldsAgree(secrets: Secrets, config: map<string, Json>)
    requires AllResolve(secrets, config) && NoDoubleFields(config)
    ensures Agree(config.Keys, Targets(config), Values(secrets, config))
  {
    forall j, k | j in config && k in config && Target(j) == Target(k)
      ensures j == k
    {
      FieldsMeetIff(j, k);
    }
  }

  /** A reference's key is its field and the suffix. */
  lemma IsRefIff(key: string)
    ensures IsRef(key) <==> exists field :: key == field + "_ref"
    ensures forall field: string :: Target(field + "_ref") == field
  {
    if IsRef(key) {
      assert key == key[..|key| - 4] + "_ref";
    }
    forall field: string
      ensures Target(field + "_ref") == field && IsRef(field + "_ref")
    {
      assert (field + "_ref")[|field|..] == "_ref";
    }
  }

  /** A value that replaces a reference: the text it points to, or the rendered file. */
  predicate Replaces(v: Setting, c: Content) {
    match c
    case Text(s) => v == Plain(Str(s))
    case Yaml(config) => v == File(config)
  }

  /** What a resolved configuration holds. A value given directly, and not by reference too, is there as it
      is; a field given by reference only holds what the reference points to; there is nothing else. */
  ghost predicate HoldsGiven(secrets: Secrets, config: map<string, Json>, r: map<string, Setting>) {
    && (forall k :: k in config && !IsRef(k) && k + SUFFIX !in config ==> k in r && r[k] == Plain(config[k]))
    && (forall k, c :: k in config && IsRef(k) && (Target(k) in config ==> IsRef(Target(k)))
                       && PointsTo(secrets, config[k], c)
                       ==> Target(k) in r && Replaces(r[Target(k)], c))
    && (forall t :: t in r ==> (t in config && !IsRef(t)) || t + SUFFIX in config)
  }

  lemma ValueIs(secrets: Secrets, config: map<string, Json>, k: string)
    requires AllResolve(secrets, config) && k in config
    ensures !IsRef(k) ==> Values(secrets, config)[k] == Plain(config[k])
    ensures forall c :: IsRef(k) && PointsTo(secrets, config[k], c) ==> Replaces(Values(secrets, config)[k], c)
  {
    RefResolvesIff(secrets, k, config[k]);
    hide PointsTo;
  }

  lemma SingleFieldHolds(secrets: Secrets, config: map<string, Json>, order: seq<string>, k: string)
    requires Enumerates(order, config.Keys) && AllResolve(secrets, config) && k in config && FieldIsSingle(config, k)
    ensures var r := Rekey(order, Targets(config), Values(secrets, config));
            Target(k) in r && r[Target(k)] == Values(secrets, config)[k]
  {
    var t, v := Targets(config), Values(secrets, config);
    SomeKeyWins(order, t, v);
    hide Values, AllResolve, Rekey;
    assert k in order && t[k] == Target(k);
    var j :| j in order && t[j] == Target(k) && Rekey(order, t, v)[Target(k)] == v[j];
    FieldsMeetIff(j, k);
    TargetOfRef(k);
    hide IsRef, Target;
  }

  lemma TargetOfRef(key: string)
    ensures IsRef(key) ==> key == Target(key) + SUFFIX
    ensures !IsRef(key) ==> key == Target(key)
  {}

  lemma NothingElse(secrets: Secrets, config: map<string, Json>, order: seq<string>)
    requires Enumerates(order, config.Keys) && AllResolve(secrets, config)
    ensures forall t :: t in Rekey(order, Targets(config), Values(secrets, config)) ==>
                          (t in config && !IsRef(t)) || t + SUFFIX in config
  {
    var ts, v := Targets(config), Values(secrets, config);
    SomeKeyWins(order, ts, v);
    hide Values, AllResolve, Rekey, IsRef, Target;
    forall f | f in Rekey(order, ts, v)
      ensures (f in config && !IsRef(f)) || f + SUFFIX in config
    {
      var k :| k in order && ts[k] == f;
      assert k in config.Keys && Target(k) == f;
      TargetOfRef(k);
    }
  }

  /** A single entry's value is kept: given directly as it is, and by reference as what it points to. */
  lemma SingleIsGiven(secrets: Secrets, config: map<string, Json>, order: seq<string>, k: string)
    requires Enumerates(order, config.Keys) && AllResolve(secrets, config) && k in config && FieldIsSingle(config, k)
    ensures var r := Rekey(order, Targets(config), Values(secrets, config));
            && Target(k) in r
            && (!IsRef(k) ==> r[Target(k)] == Plain(config[k]))
            && (IsRef(k) ==> forall c :: PointsTo(secrets, config[k], c) ==> Replaces(r[Target(k)], c))
  {
    hide Values, AllResolve, Rekey, PointsTo, Replaces, Targets, IsRef, Target, Enumerates, FieldIsSingle;
    SingleFieldHolds(secrets, config, order, k);
    ValueIs(secrets, config, k);
  }

  lemma ResolvedHoldsGiven(secrets: Secrets, config: map<string, Json>, order: seq<string>)
    requires Enumerates(order, config.Keys) && AllResolve(secrets, config)
    ensures ResolveInOrder(secrets, config, order).Success?
    ensures HoldsGiven(secrets, config, ResolveInOrder(secrets, config, order).value)
  {
    hide Values, AllResolve, ResolveInOrder, Rekey, PointsTo, Replaces, Targets, IsRef, Target;
    ResolveIsRekey(secrets, config, order);
    NothingElse(secrets, config, order);
    var r := Rekey(order, Targets(config), Values(secrets, config));
    hide Enumerates;
    forall k | k in config && !IsRef(k) && k + SUFFIX !in config
      ensures k in r && r[k] == Plain(config[k])
    {
      TargetOfRef(k);
      SingleIsGiven(secrets, config, order, k);
    }
    forall k, c | k in config && IsRef(k) && (Target(k) in config ==> IsRef(Target(k))) && PointsTo(secrets, config[k], c)
      ensures Target(k) in r && Replaces(r[Target(k)], c)
    {
      SingleIsGiven(secrets, config, order, k);
    }
  }

  /** No other entry ends up in this entry's field. */
  ghost predicate FieldIsSingle(config: map<string, Json>, k: string) {
    if IsRef(k) then Target(k) in config ==> IsRef(Target(k)) else k + SUFFIX !in config
  }

  ghost function Position(order: seq<string>, key: string): (i: nat)
    requires key in order
    ensures i < |order| && order[i] == key
  {
    var i :| 0 <= i < |order| && order[i] == key;
    i
  }

  lemma PositionIs(order: seq<string>, i: nat)
    requires i < |order| && forall j, k :: 0 <= j < k < |order| ==> order[j] != order[k]
    ensures Position(order, order[i]) == i
  {}

  /** The storage documentation says a reference takes precedence over a direct value. The code does so
      exactly when the iteration happens to visit the reference later. */
  lemma RefTakesPrecedenceIff(secrets: Secrets, config: map<string, Json>, field: string, order: seq<string>)
    requires !IsRef(field) && field in config && field + SUFFIX in config && AllResolve(secrets, config)
    requires Enumerates(order, config.Keys)
    requires Values(secrets, config)[field] != Values(secrets, config)[field + SUFFIX]
    ensures ResolveInOrder(secrets, config, order).Success? && field in ResolveInOrder(secrets, config, order).value
    ensures ResolveInOrder(secrets, config, order).value[field] == Values(secrets, config)[field + SUFFIX]
            <==> Position(order, field) < Position(order, field + SUFFIX)
  {
    var ref := field + SUFFIX;
    var t, v := Targets(config), Values(secrets, config);
    FieldsMeetIff(field, ref);
    ResolveIsRekey(secrets, config, order);
    LastKeyWins(order, t, v);
    var late := if Position(order, field) < Position(order, ref) then ref else field;
    var i := Position(order, late);
    forall j | i < j < |order|
      ensures t[order[j]] != t[order[i]]
    {
      assert order[j] in config.Keys && order[j] != order[i];
      FieldsMeetIff(field, order[j]);
      FieldsMeetIff(ref, order[j]);
      PositionIs(order, j);
    }
    assert Rekey(order, t, v)[t[order[i]]] == v[late];
  }

  /** Whatever the iteration order, the field ends up with the referenced value. */
  ghost predicate RefAlwaysWins(secrets: Secrets, config: map<string, Json>, field: string)
    requires field + SUFFIX in config && AllResolve(secrets, config)
  {
    forall order :: Enumerates(order, config.Keys) ==>
                      && ResolveInOrder(secrets, config, order).Success?
                      && field in ResolveInOrder(secrets, config, order).value
                      && ResolveInOrder(secrets, config, order).value[field] == Values(secrets, config)[field + SUFFIX]
  }

  /** In the caller's terms: the reference is sure to win over the direct value exactly when the two are
      the same, so that there is nothing to win. For any other pair some order lets the direct value win. */
  lemma RefAlwaysWinsIff(secrets: Secrets, config: map<string, Json>, field: string)
    requires !IsRef(field) && field in config && field + SUFFIX in config && AllResolve(secrets, config)
    ensures RefAlwaysWins(secrets, config, field) <==>
            Values(secrets, config)[field] == Values(secrets, config)[field + SUFFIX]
  {
    var ref := field + SUFFIX;
    var t, v := Targets(config), Values(secrets, config);
    FieldsMeetIff(field, ref);
    if v[field] == v[ref] {
      forall order | Enumerates(order, config.Keys)
        ensures && ResolveInOrder(secrets, config, order).Success?
                && field in ResolveInOrder(secrets, config, order).value
                && ResolveInOrder(secrets, config, order).value[field] == v[ref]
      {
        SameValueWins(secrets, config, field, order);
      }
    } else {
      var order := EnumerationEndingIn(config.Keys, field);
      ResolveIsRekey(secrets, config, order);
      assert Rekey(order, t, v)[t[field]] == v[field];
    }
  }

  lemma SameValueWins(secrets: Secrets, config: map<string, Json>, field: string, order: seq<string>)
    requires !IsRef(field) && field in config && field + SUFFIX in config && AllResolve(secrets, config)
    requires Values(secrets, config)[field] == Values(secrets, config)[field + SUFFIX]
    requires Enumerates(order, config.Keys)
    ensures ResolveInOrder(secrets, config, order).Success? && field in ResolveInOrder(secrets, config, order).value
    ensures ResolveInOrder(secrets, config, order).value[field] == Values(secrets, config)[field + SUFFIX]
  {
    var t, v := Targets(config), Values(secrets, config);
    ResolveIsRekey(secrets, config, order);
    SomeKeyWins(order, t, v);
    assert field in order && t[field] == field;
    var k :| k in order && t[k] == field && Rekey(order, t, v)[field] == v[k];
    FieldsMeetIff(field, k);
  }

  /** A reference is left in the result only for a field named `..._ref_ref`. */
  lemma NoRefsRemain(secrets: Secrets, config: map<string, Json>, order: seq<string>)
    requires Enumerates(order, config.Keys) && ResolveInOrder(secrets, config, order).Success?
    ensures forall t :: t in ResolveInOrder(secrets, config, order).value && IsRef(t) ==> t + SUFFIX in config
  {
    ResolvesIff(secrets, config, order);
    ResolveIsRekey(secrets, config, order);
    SomeKeyWins(order, Targets(config), Values(secrets, config));
    hide AllResolve, ResolveInOrder, Rekey, Values, IsRef;
    forall t | t in ResolveInOrder(secrets, config, order).value && IsRef(t)
      ensures t + SUFFIX in config
    {
      var k :| k in order && Target(k) == t;
      TargetOfRef(k);
    }
  }

  /** The loop itself. `order` is the order in which this iteration visited the entries. */
  method ResolveSecretReferences(secrets: Secrets, config: map<string, Json>)
    returns (r: Result<map<string, Setting>, RefError>, ghost order: seq<string>)
    ensures IsPrefixOrder(order, config.Keys) && r == ResolveInOrder(secrets, config, order)
    ensures r.Success? ==> Enumerates(order, config.Keys)
    ensures r.Success? <==> AllResolve(secrets, config)
    ensures r.Failure? ==> r.error.key in config && ResolveEntry(secrets, r.error.key, config[r.error.key]) == Failure(r.error)
    ensures r.Success? ==> HoldsGiven(secrets, config, r.value)
    ensures r.Success? && NoDoubleFields(config) ==>
              IsRekeyed(r.value, config.Keys, Targets(config), Values(secrets, config))
  {
    hide IsPrefixOrder, ResolveInOrder, ResolveEntry, AllResolve, IsRekeyed, NoDoubleFields, Enumerates, HoldsGiven;
    order := [];
    var resolved: map<string, Setting> := map[];
    var remaining := config.Keys;
    NothingResolved(secrets, config);
    while remaining != {}
      invariant IsPrefixOrder(order, config.Keys)
      invariant remaining <= config.Keys && forall k :: k in config.Keys ==> (k in order <==> k !in remaining)
      invariant forall k :: k in order ==> k in config
      invariant ResolveInOrder(secrets, config, order) == Success(resolved)
    {
      var key :| key in remaining;
      var v := ResolveEntry(secrets, key, config[key]);
      PrefixExtends(order, key, config.Keys);
      ResolveStep(secrets, config, order, key);
      order := order + [key];
      if v.Failure? {
        BadEntryFails(secrets, config, key);
        return Failure(v.error), order;
      }
      resolved := resolved[Target(key) := v.value];
      remaining := remaining - {key};
    }
    CompletePrefix(order, config.Keys);
    ResolvesIff(secrets, config, order);
    ResolvedHoldsGiven(secrets, config, order);
    if NoDoubleFields(config) {
      SingleFieldsAgree(secrets, config);
      ResolveIsRekey(secrets, config, order);
      AgreementIsEnough(order, config.Keys, Targets(config), Values(secrets, config));
    }
    return Success(resolved), order;
  }

  lemma NothingResolved(secrets: Secrets, config: map<string, Json>)
    ensures ResolveInOrder(secrets, config, []) == Success(map[])
    ensures IsPrefixOrder([], config.Keys)
  {}

  /** The loop's next iteration, for a key that is in the configuration. */
  lemma ResolveStep(secrets: Secrets, config: map<string, Json>, order: seq<string>, key: string)
    requires forall k :: k in order ==> k in config
    requires key in config && ResolveInOrder(secrets, config, order).Success?
    ensures forall k :: k in order + [key] ==> k in config
    ensures var v := ResolveEntry(secrets, key, config[key]);
            ResolveInOrder(secrets, config, order + [key])
            == if v.Failure? then Failure(v.error)
               else Success(ResolveInOrder(secrets, config, order).value[Target(key) := v.value])
  {
    hide ResolveEntry, Target;
    assert (order + [key])[..|order|] == order;
  }

  lemma BadEntryFails(secrets: Secrets, config: map<string, Json>, key: string)
    requires key in config && ResolveEntry(secrets, key, config[key]).Failure?
    ensures !AllResolve(secrets, config)
    ensures ResolveEntry(secrets, key, config[key]).error.key == key
  {
    RefResolvesIff(secrets, key, config[key]);
    hide PointsTo;
  }
}
