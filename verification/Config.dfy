/** Configuration maps as the rendering code handles them, and what filling a Go map in some iteration
    order under rewritten keys gives. */
module Config {

  /** A value of an unstructured object. */
  datatype Json =
    | Null
    | Bool(b: bool)
    | Num(n: int)
    | Str(s: string)
    | List(items: seq<Json>)
    | Obj(fields: map<string, Json>)

  /** The bytes of a Secret entry: some text, or a rendered gobackup.yml. Marshalling is not modelled;
      different configurations are taken to have different text. */
  datatype Content = Text(s: string) | Yaml(config: BackupConfig)

  /** A value of a rendered configuration: a JSON value, or a secret whose content is itself a rendered
      file. */
  datatype Setting = Plain(v: Json) | File(config: BackupConfig)

  datatype Model = Model(
    databases: map<string, map<string, Setting>>,
    storages: map<string, map<string, Setting>>,
    beforeScript: string,
    afterScript: string,
    compressWith: string,
    encodeWith: string)

  datatype BackupConfig = BackupConfig(models: map<string, Model>)

  /** `order` enumerates `keys`: the order in which one `range` over a map happens to visit it. */
  ghost predicate Enumerates(order: seq<string>, keys: set<string>) {
    && (forall k :: k in order <==> k in keys)
    && (forall i, j :: 0 <= i < j < |order| ==> order[i] != order[j])
  }

  ghost predicate IsPrefixOrder(order: seq<string>, keys: set<string>) {
    && (forall k :: k in order ==> k in keys)
    && (forall i, j :: 0 <= i < j < |order| ==> order[i] != order[j])
  }

  /** The map that results from visiting `order` and storing `value[k]` under `target[k]` each time. */
  ghost function Rekey<V>(order: seq<string>, target: map<string, string>, value: map<string, V>): map<string, V>
    requires forall k :: k in order ==> k in target && k in value
  {
    if order == [] then map[]
    else
      var last := order[|order| - 1];
      Rekey(order[..|order| - 1], target, value)[target[last] := value[last]]
  }

  lemma RekeyStep<V>(order: seq<string>, key: string, target: map<string, string>, value: map<string, V>)
    requires forall k :: k in order + [key] ==> k in target && k in value
    ensures forall k :: k in order ==> k in order + [key]
    ensures key in order + [key]
    ensures Rekey(order + [key], target, value) == Rekey(order, target, value)[target[key] := value[key]]
  {
    assert (order + [key])[..|order|] == order;
    assert (order + [key])[|order|] == key;
  }

  /** Visiting one more key keeps the order a partial enumeration. */
  lemma PrefixExtends(order: seq<string>, key: string, keys: set<string>)
    requires IsPrefixOrder(order, keys) && key in keys && key !in order
    ensures IsPrefixOrder(order + [key], keys)
    ensures forall k :: k in order + [key] <==> k in order || k == key
  {}

  lemma RekeyNothing<V>(target: map<string, string>, value: map<string, V>)
    ensures Rekey([], target, value) == map[]
    ensures IsPrefixOrder([], value.Keys)
  {}

  lemma CompletePrefix(order: seq<string>, keys: set<string>)
    requires IsPrefixOrder(order, keys) && forall k :: k in keys ==> k in order
    ensures Enumerates(order, keys)
  {}

  /** A target is present when some key is stored under it, and the last such key wins. */
  lemma {:induction false} LastKeyWins<V>(order: seq<string>, target: map<string, string>, value: map<string, V>)
    requires forall k :: k in order ==> k in target && k in value
    ensures forall t :: t in Rekey(order, target, value) <==> exists i :: 0 <= i < |order| && target[order[i]] == t
    ensures forall i :: 0 <= i < |order| && (forall j :: i < j < |order| ==> target[order[j]] != target[order[i]])
                        ==> target[order[i]] in Rekey(order, target, value)
                            && Rekey(order, target, value)[target[order[i]]] == value[order[i]]
  {
    if order != [] {
      var n := |order| - 1;
      var front := order[..n];
      LastKeyWins(front, target, value);
      var r, m := Rekey(front, target, value), Rekey(order, target, value);
      assert forall j :: 0 <= j < n ==> front[j] == order[j];
      forall t
        ensures t in m <==> exists i :: 0 <= i < |order| && target[order[i]] == t
      {
        if t == target[order[n]] {
          assert target[order[n]] == t;
        } else if t in r {
          var i :| 0 <= i < |front| && target[front[i]] == t;
          assert target[order[i]] == t;
        } else {
          assert forall i :: 0 <= i < n ==> target[front[i]] != t;
        }
      }
      forall i | 0 <= i < |order| && (forall j :: i < j < |order| ==> target[order[j]] != target[order[i]])
        ensures target[order[i]] in m && m[target[order[i]]] == value[order[i]]
      {
        if i < n {
          assert target[order[n]] != target[order[i]];
          assert target[front[i]] in r;
        }
      }
    }
  }

  /** Keys that are stored under one target hold one value: the order cannot matter. */
  ghost predicate Agree<V>(keys: set<string>, target: map<string, string>, value: map<string, V>) {
    && keys <= target.Keys && keys <= value.Keys
    && forall j, k :: j in keys && k in keys && target[j] == target[k] ==> value[j] == value[k]
  }

  /** The result without any order: each target holds the value of the keys stored under it. */
  ghost predicate IsRekeyed<V>(m: map<string, V>, keys: set<string>, target: map<string, string>, value: map<string, V>)
    requires keys <= target.Keys && keys <= value.Keys
  {
    && (forall k :: k in keys ==> target[k] in m && m[target[k]] == value[k])
    && (forall t :: t in m ==> exists k :: k in keys && target[k] == t)
  }

  /** Whatever the order, each target ends up with the value of some key stored under it. */
  lemma {:induction false} SomeKeyWins<V>(order: seq<string>, target: map<string, string>, value: map<string, V>)
    requires forall k :: k in order ==> k in target && k in value
    ensures forall k :: k in order ==> target[k] in Rekey(order, target, value)
    ensures forall t :: t in Rekey(order, target, value) ==>
                          exists k :: k in order && target[k] == t && Rekey(order, target, value)[t] == value[k]
  {
    if order != [] {
      var n := |order| - 1;
      var front, last := order[..n], order[n];
      SomeKeyWins(front, target, value);
      assert order == front + [last];
      var r, m := Rekey(front, target, value), Rekey(order, target, value);
      assert forall k :: k in order <==> k in front || k == last;
      forall t | t in m
        ensures exists k :: k in order && target[k] == t && m[t] == value[k]
      {
        if t == target[last] {
          assert last in order;
        } else {
          var k :| k in front && target[k] == t && r[t] == value[k];
          assert k in order;
        }
      }
    }
  }

  lemma AgreementIsEnough<V>(order: seq<string>, keys: set<string>, target: map<string, string>, value: map<string, V>)
    requires Agree(keys, target, value) && Enumerates(order, keys)
    ensures IsRekeyed(Rekey(order, target, value), keys, target, value)
  {
    SomeKeyWins(order, target, value);
  }

  lemma RekeyedIsUnique<V>(m: map<string, V>, m': map<string, V>, keys: set<string>,
                               target: map<string, string>, value: map<string, V>)
    requires keys <= target.Keys && keys <= value.Keys
    requires IsRekeyed(m, keys, target, value) && IsRekeyed(m', keys, target, value)
    ensures m == m'
  {
    forall t | t in m
      ensures t in m' && m[t] == m'[t]
    {
      var k :| k in keys && target[k] == t;
    }
    assert forall t :: t in m' ==> t in m;
  }

  lemma {:induction false} EnumerationEndingIn(keys: set<string>, last: string) returns (order: seq<string>)
    requires last in keys
    ensures Enumerates(order, keys) && order[|order| - 1] == last
  {
    var front := SomeEnumeration(keys - {last});
    order := front + [last];
    forall k
      ensures k in order <==> k in keys
    {
      assert k in front <==> k in keys - {last};
    }
    assert forall i :: 0 <= i < |front| ==> front[i] in front;
  }

  lemma {:induction false} SomeEnumeration(keys: set<string>) returns (order: seq<string>)
    ensures Enumerates(order, keys)
  {
    if keys == {} {
      order := [];
    } else {
      var last :| last in keys;
      order := EnumerationEndingIn(keys, last);
    }
  }

  ghost predicate OrderIrrelevant<V>(keys: set<string>, target: map<string, string>, value: map<string, V>)
    requires keys <= target.Keys && keys <= value.Keys
  {
    forall p, q :: Enumerates(p, keys) && Enumerates(q, keys) ==> Rekey(p, target, value) == Rekey(q, target, value)
  }

  /** Confluence, exactly: every iteration order gives the same map if and only if keys that meet under
      one target hold the same value. */
  lemma OrderIndependentIff<V>(keys: set<string>, target: map<string, string>, value: map<string, V>)
    requires keys <= target.Keys && keys <= value.Keys
    ensures Agree(keys, target, value) <==> OrderIrrelevant(keys, target, value)
  {
    if Agree(keys, target, value) {
      forall p, q | Enumerates(p, keys) && Enumerates(q, keys)
        ensures Rekey(p, target, value) == Rekey(q, target, value)
      {
        AgreementIsEnough(p, keys, target, value);
        AgreementIsEnough(q, keys, target, value);
        RekeyedIsUnique(Rekey(p, target, value), Rekey(q, target, value), keys, target, value);
      }
    } else {
      var j, k :| j in keys && k in keys && target[j] == target[k] && value[j] != value[k];
      var p := EnumerationEndingIn(keys, j);
      var q := EnumerationEndingIn(keys, k);
      assert Rekey(p, target, value)[target[j]] == value[j];
      assert Rekey(q, target, value)[target[k]] == value[k];
    }
  }
}
