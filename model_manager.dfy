/**
  The model registry: an insertion-ordered dictionary from model name to
  its descriptor (weights file, class labels, name). The entry named
  "Default" comes from the application's bundled model and may be neither
  added nor removed through the registry; every other entry is a custom
  model, and the custom entries are mirrored in a JSON file in the user's
  home directory each time they change.

  File-system facts (whether a model file exists, what the classes file
  and the custom models file hold) are parameters; JSON is taken to
  round-trip strings and lists exactly and to keep the order of keys.
 */
module ModelManager {
  import opened Common
  import opened OrderedMaps

  const DefaultName := "Default"

  /** `{'path': ..., 'classes': ..., 'model_name': ...}`. */
  datatype ModelInfo = ModelInfo(path: string, classes: seq<string>, modelName: string)

  /** One entry of the custom models file, `{'path': ..., 'classes': ...}`;
      a file edited by hand may lack either field. */
  datatype StoredModel = StoredModel(path: Option<string>, classes: Option<seq<string>>)

  /** What `addModel` does: returns after adding, returns after refusing the
      reserved name, or raises `FileNotFoundError`. */
  datatype AddOutcome = Added | DefaultReserved | ModelFileNotFound

  /** What `removeModel` does; it never raises. */
  datatype RemoveOutcome = Removed | DefaultProtected | NotFound

  /** The registry invariant: a well-formed dictionary whose every entry
      carries its own key as `model_name`. */
  ghost predicate WellNamed(m: OrderedMap<ModelInfo>)
  {
    m.Valid() && forall n :: n in m.entries ==> m.entries[n].modelName == n
  }

  /** The record `saveCustomModels` writes: every entry but "Default", in
      order, reduced to its path and classes. */
  function Saved(m: OrderedMap<ModelInfo>): (r: OrderedMap<StoredModel>)
    requires m.Valid()
    ensures r.Valid()
    ensures r.keys == Without(m.keys, DefaultName)
    ensures r.Get(DefaultName) == None
    ensures forall n :: n != DefaultName && n in m.entries ==>
              r.Get(n) == Some(StoredModel(Some(m.entries[n].path), Some(m.entries[n].classes)))
    ensures forall n :: n !in m.entries ==> r.Get(n) == None
  {
    OrderedMap(Without(m.keys, DefaultName),
               map n | n in m.entries && n != DefaultName ::
                 StoredModel(Some(m.entries[n].path), Some(m.entries[n].classes)))
  }

  /** The descriptor `loadCustomModels` builds from a stored entry. */
  function Restored(name: string, s: StoredModel): ModelInfo
    requires s.path.Some? && s.classes.Some?
  {
    ModelInfo(s.path.value, s.classes.value, name)
  }

  /** `loadCustomModels`' loop: insert the stored entries in file order,
      stopping (the exception is caught) at the first entry that lacks a
      field; the entries inserted before it stay. */
  function LoadEntries(m: OrderedMap<ModelInfo>, items: seq<(string, StoredModel)>): (r: OrderedMap<ModelInfo>)
    requires m.Valid()
    ensures |m.keys| <= |r.keys| <= |m.keys| + |items|
    decreases |items|
  {
    if items == [] then m
    else
      var name, stored := items[0].0, items[0].1;
      if stored.path.None? || stored.classes.None? then m
      else LoadEntries(m.Put(name, Restored(name, stored)), items[1..])
  }

  /** Registering a descriptor under its own name keeps the invariant. */
  lemma PutWellNamed(m: OrderedMap<ModelInfo>, name: string, info: ModelInfo)
    requires WellNamed(m) && info.modelName == name
    ensures WellNamed(m.Put(name, info))
  {
    var r := m.Put(name, info);
    forall n | n in r.entries
      ensures r.entries[n].modelName == n
    {
      assert r.Get(n).Some?;
      if n != name {
        assert r.Get(n) == m.Get(n);
      }
    }
  }

  /** `LoadEntries` unfolded once, for a non-empty list. */
  lemma LoadEntriesFirst(m: OrderedMap<ModelInfo>, items: seq<(string, StoredModel)>)
    requires m.Valid() && |items| > 0
    ensures items[0].1.path.None? || items[0].1.classes.None? ==> LoadEntries(m, items) == m
    ensures items[0].1.path.Some? && items[0].1.classes.Some? ==>
              LoadEntries(m, items) == LoadEntries(m.Put(items[0].0, Restored(items[0].0, items[0].1)), items[1..])
  {
  }

  /** Loading keeps the registry well formed and every entry named by its
      key, and never reorders or drops a name already registered. */
  lemma {:induction false} LoadEntriesKeeps(m: OrderedMap<ModelInfo>, items: seq<(string, StoredModel)>)
    requires m.Valid()
    ensures LoadEntries(m, items).Valid()
    ensures WellNamed(m) ==> WellNamed(LoadEntries(m, items))
    ensures |m.keys| <= |LoadEntries(m, items).keys|
    ensures forall i :: 0 <= i < |m.keys| ==> LoadEntries(m, items).keys[i] == m.keys[i]
    decreases |items|
  {
    if items != [] {
      var name, stored := items[0].0, items[0].1;
      if stored.path.Some? && stored.classes.Some? {
        LoadEntriesKeeps(m.Put(name, Restored(name, stored)), items[1..]);
      }
    }
  }

  function Names(items: seq<(string, StoredModel)>): (names: seq<string>)
    ensures |names| == |items|
  {
    if items == [] then [] else [items[0].0] + Names(items[1..])
  }

  lemma {:induction false} NamesAt(items: seq<(string, StoredModel)>, i: nat)
    requires i < |items|
    ensures Names(items)[i] == items[i].0
  {
    if i > 0 {
      NamesAt(items[1..], i - 1);
    }
  }

  ghost predicate Complete(items: seq<(string, StoredModel)>)
  {
    forall i :: 0 <= i < |items| ==> items[i].1.path.Some? && items[i].1.classes.Some?
  }

  /** No entry's name is in `taken` or repeats an earlier entry's name. */
  ghost predicate FreshIn(taken: set<string>, items: seq<(string, StoredModel)>)
    decreases |items|
  {
    items == [] || (items[0].0 !in taken && FreshIn(taken + {items[0].0}, items[1..]))
  }

  /** A taken name is not among the entries' names. */
  lemma {:induction false} FreshInAvoids(taken: set<string>, items: seq<(string, StoredModel)>, x: string)
    requires FreshIn(taken, items) && x in taken
    ensures forall i :: 0 <= i < |items| ==> items[i].0 != x
    decreases |items|
  {
    if items != [] {
      var rest := items[1..];
      FreshInAvoids(taken + {items[0].0}, rest, x);
      forall i | 0 < i < |items|
        ensures items[i].0 != x
      {
        assert items[i] == rest[i - 1];
      }
    }
  }

  /** Entries with pairwise different names, none of them taken, are fresh. */
  lemma {:induction false} DistinctFresh(taken: set<string>, items: seq<(string, StoredModel)>)
    requires Distinct(Names(items))
    requires forall i :: 0 <= i < |items| ==> items[i].0 !in taken
    ensures FreshIn(taken, items)
    decreases |items|
  {
    if items != [] {
      var x := items[0].0;
      var rest := items[1..];
      assert Names(items) == [x] + Names(rest);
      DistinctCons(x, Names(rest));
      forall i | 0 <= i < |rest|
        ensures rest[i].0 !in taken + {x}
      {
        assert rest[i] == items[i + 1];
        NamesAt(rest, i);
      }
      DistinctFresh(taken + {x}, rest);
    }
  }

  /** One step of `LoadEntries` over a complete first entry with a fresh
      name. */
  lemma LoadStep(m: OrderedMap<ModelInfo>, items: seq<(string, StoredModel)>)
    requires m.Valid() && Complete(items) && FreshIn(m.entries.Keys, items) && |items| > 0
    ensures var m' := m.Put(items[0].0, Restored(items[0].0, items[0].1));
            && LoadEntries(m, items) == LoadEntries(m', items[1..])
            && m'.keys == m.keys + [items[0].0]
            && Complete(items[1..]) && FreshIn(m'.entries.Keys, items[1..])
  {
    var m' := m.Put(items[0].0, Restored(items[0].0, items[0].1));
    assert m'.entries.Keys == m.entries.Keys + {items[0].0};
    forall i | 0 <= i < |items[1..]|
      ensures items[1..][i].1.path.Some? && items[1..][i].1.classes.Some?
    {
      assert items[1..][i] == items[i + 1];
    }
  }

  /** Loading complete entries with fresh, distinct names appends the names
      in file order. */
  lemma {:induction false} LoadAllKeys(m: OrderedMap<ModelInfo>, items: seq<(string, StoredModel)>)
    requires m.Valid() && Complete(items) && FreshIn(m.entries.Keys, items)
    ensures LoadEntries(m, items).keys == m.keys + Names(items)
    decreases |items|
  {
    if items != [] {
      var m' := m.Put(items[0].0, Restored(items[0].0, items[0].1));
      LoadStep(m, items);
      LoadAllKeys(m', items[1..]);
      KeysThenNames(m.keys, items);
    }
  }

  /** Appending the first name, then the others, appends all the names. */
  lemma KeysThenNames(keys: seq<string>, items: seq<(string, StoredModel)>)
    requires items != []
    ensures (keys + [items[0].0]) + Names(items[1..]) == keys + Names(items)
  {
    assert Names(items) == [items[0].0] + Names(items[1..]);
  }

  /** ... and gives each loaded name its stored path and classes, leaving
      every other name as it was. */
  lemma {:induction false} LoadAllGet(m: OrderedMap<ModelInfo>, items: seq<(string, StoredModel)>)
    requires m.Valid() && Complete(items) && FreshIn(m.entries.Keys, items)
    ensures forall i :: 0 <= i < |items| ==>
              LoadEntries(m, items).Get(items[i].0) == Some(Restored(items[i].0, items[i].1))
    ensures forall n :: (forall i :: 0 <= i < |items| ==> items[i].0 != n) ==>
              LoadEntries(m, items).Get(n) == m.Get(n)
    decreases |items|
  {
    if items != [] {
      LoadStep(m, items);
      var name := items[0].0;
      var rest := items[1..];
      var m' := m.Put(name, Restored(name, items[0].1));
      LoadAllGet(m', rest);
      FreshInAvoids(m'.entries.Keys, rest, name);
      forall i | 0 <= i < |items|
        ensures LoadEntries(m, items).Get(items[i].0) == Some(Restored(items[i].0, items[i].1))
      {
        if i > 0 {
          assert items[i] == rest[i - 1];
        }
      }
      forall n | forall i :: 0 <= i < |items| ==> items[i].0 != n
        ensures LoadEntries(m, items).Get(n) == m.Get(n)
      {
        assert forall i :: 0 <= i < |rest| ==> rest[i] == items[i + 1];
      }
    }
  }

  lemma {:induction false} NamesOfItems(rec: OrderedMap<StoredModel>)
    requires rec.Valid()
    ensures Names(rec.Items()) == rec.keys
  {
    var items := rec.Items();
    forall i | 0 <= i < |items|
      ensures Names(items)[i] == rec.keys[i]
    {
      NamesAt(items, i);
    }
  }

  /** Saving the registry and loading the file into a registry that holds
      at most "Default" restores every custom entry, in the same order after
      "Default", and leaves that registry's "Default" untouched. */
  lemma SaveLoadRoundTrip(m: OrderedMap<ModelInfo>, base: OrderedMap<ModelInfo>)
    requires WellNamed(m) && base.Valid()
    requires forall n :: n in base.entries ==> n == DefaultName
    ensures LoadEntries(base, Saved(m).Items()).keys == base.keys + Without(m.keys, DefaultName)
    ensures LoadEntries(base, Saved(m).Items()).Get(DefaultName) == base.Get(DefaultName)
    ensures forall n :: n != DefaultName ==> LoadEntries(base, Saved(m).Items()).Get(n) == m.Get(n)
  {
    SavedItemsLoadable(m, base);
    LoadAllKeys(base, Saved(m).Items());
    LoadedNameAt(m, base, DefaultName);
    forall n | n != DefaultName
      ensures LoadEntries(base, Saved(m).Items()).Get(n) == m.Get(n)
    {
      LoadedNameAt(m, base, n);
    }
  }

  /** The round trip for one name: "Default" keeps the registry's entry,
      any other name gets the saved registry's entry. */
  lemma LoadedNameAt(m: OrderedMap<ModelInfo>, base: OrderedMap<ModelInfo>, n: string)
    requires WellNamed(m) && base.Valid()
    requires forall n :: n in base.entries ==> n == DefaultName
    ensures LoadEntries(base, Saved(m).Items()).Get(n) ==
              if n == DefaultName then base.Get(n) else m.Get(n)
  {
    var items := Saved(m).Items();
    SavedItemsLoadable(m, base);
    LoadAllGet(base, items);
    SavedItemAt(m, n);
  }

  /** The saved entries are complete, named as the registry minus
      "Default", and none of their names is in a registry holding at most
      "Default". */
  lemma SavedItemsLoadable(m: OrderedMap<ModelInfo>, base: OrderedMap<ModelInfo>)
    requires m.Valid() && forall n :: n in base.entries ==> n == DefaultName
    ensures var items := Saved(m).Items();
            && Complete(items) && FreshIn(base.entries.Keys, items)
            && Names(items) == Without(m.keys, DefaultName)
  {
    var saved := Saved(m);
    var items := saved.Items();
    NamesOfItems(saved);
    assert forall i :: 0 <= i < |items| ==> items[i].0 == saved.keys[i] && items[i].0 != DefaultName;
    DistinctFresh(base.entries.Keys, items);
  }

  /** A registered custom name is saved with its path and classes, at some
      position of the saved items; a name that is not registered is not
      saved. */
  lemma SavedItemAt(m: OrderedMap<ModelInfo>, n: string)
    requires WellNamed(m)
    ensures var items := Saved(m).Items();
            && (n in m.entries && n != DefaultName ==>
                  exists i :: 0 <= i < |items| && items[i].0 == n
                              && Restored(n, items[i].1) == m.entries[n])
            && (n !in m.entries || n == DefaultName ==> forall i :: 0 <= i < |items| ==> items[i].0 != n)
  {
    var saved := Saved(m);
    var items := saved.Items();
    if n in m.entries && n != DefaultName {
      assert n in saved.keys;
      var i :| 0 <= i < |saved.keys| && saved.keys[i] == n;
      assert items[i].0 == n;
    }
  }

  class ModelManager {
    /** `self.models`. */
    var models: OrderedMap<ModelInfo>
    /** The custom models file as this registry last read or wrote it;
        `None` when it is absent or unreadable. */
    var customFile: Option<OrderedMap<StoredModel>>

    ghost predicate Valid()
      reads this
    {
      WellNamed(models) && (customFile.Some? ==> customFile.value.Valid())
    }

    /** `ModelManager(default_model_path, default_classes_json)`:
        `defaultModelExists` says whether the bundled model file exists,
        `defaultClasses` is the "default" entry of the classes file (`None`
        when the file cannot be read or lacks it), `storedFile` the parsed
        custom models file. */
    constructor (defaultModelPath: string, defaultModelExists: bool,
                 defaultClasses: Option<seq<string>>,
                 storedFile: Option<OrderedMap<StoredModel>>)
      requires storedFile.Some? ==> storedFile.value.Valid()
      ensures Valid() && customFile == storedFile
      ensures var base := if defaultModelExists && defaultClasses.Some?
                          then Empty().Put(DefaultName, ModelInfo(defaultModelPath, defaultClasses.value, DefaultName))
                          else Empty();
              models == if storedFile.Some? then LoadEntries(base, storedFile.value.Items()) else base
      ensures defaultModelExists && defaultClasses.Some? ==>
                |models.keys| > 0 && models.keys[0] == DefaultName
    {
      models := Empty();
      customFile := storedFile;
      new;
      LoadDefaultModel(defaultModelPath, defaultModelExists, defaultClasses);
      ghost var base := models;
      LoadCustomModels(storedFile);
      if storedFile.Some? {
        LoadEntriesKeeps(base, storedFile.value.Items());
      }
    }

    /** `loadDefultModel`: registers "Default" unless the model file is
        missing or the classes cannot be read (then only logs). */
    method LoadDefaultModel(defaultModelPath: string, defaultModelExists: bool,
                            defaultClasses: Option<seq<string>>)
      requires Valid()
      modifies this`models
      ensures Valid()
      ensures models == if defaultModelExists && defaultClasses.Some?
                        then old(models).Put(DefaultName, ModelInfo(defaultModelPath, defaultClasses.value, DefaultName))
                        else old(models)
    {
      if !defaultModelExists || defaultClasses.None? {
        return;
      }
      models := models.Put(DefaultName, ModelInfo(defaultModelPath, defaultClasses.value, DefaultName));
    }

    /** `loadCustomModels`: nothing when the file is absent or unreadable,
        otherwise the entries in file order up to the first incomplete one. */
    method LoadCustomModels(file: Option<OrderedMap<StoredModel>>)
      requires Valid() && (file.Some? ==> file.value.Valid())
      modifies this`models
      ensures Valid()
      ensures models == if file.Some? then LoadEntries(old(models), file.value.Items()) else old(models)
    {
      if file.None? {
        return;
      }
      var items := file.value.Items();
      var i := 0;
      while i < |items|
        invariant 0 <= i <= |items|
        invariant WellNamed(models)
        invariant LoadEntries(models, items[i..]) == LoadEntries(old(models), items)
      {
        var name, stored := items[i].0, items[i].1;
        assert items[i..][0] == items[i] && items[i..][1..] == items[i + 1..];
        LoadEntriesFirst(models, items[i..]);
        if stored.path.None? || stored.classes.None? {
          break;
        }
        PutWellNamed(models, name, ModelInfo(stored.path.value, stored.classes.value, name));
        models := models.Put(name, ModelInfo(stored.path.value, stored.classes.value, name));
        i := i + 1;
      }
    }

    /** `saveCustomModels`: writes the custom entries to the file. */
    method SaveCustomModels()
      requires Valid()
      modifies this`customFile
      ensures Valid()
      ensures customFile == Some(Saved(models))
    {
      customFile := Some(Saved(models));
    }

    /** `addModel(name, model_path, classes)`; `modelFileExists` is
        `os.path.exists(model_path)`. */
    method AddModel(name: string, modelPath: string, classes: seq<string>, modelFileExists: bool)
      returns (r: AddOutcome)
      requires Valid()
      modifies this
      ensures Valid()
      ensures name == DefaultName ==>
                r == DefaultReserved && models == old(models) && customFile == old(customFile)
      ensures name != DefaultName && !modelFileExists ==>
                r == ModelFileNotFound && models == old(models) && customFile == old(customFile)
      ensures name != DefaultName && modelFileExists ==>
                r == Added && models == old(models).Put(name, ModelInfo(modelPath, classes, name))
                && customFile == Some(Saved(models))
      ensures r == Added ==>
                && GetModel(name) == Some(ModelInfo(modelPath, classes, name))
                && GetModelPath(name) == Some(modelPath)
                && GetModelClasses(name) == Some(classes)
                && (forall n :: n != name ==> GetModel(n) == old(GetModel(n)))
                && (name in old(models.entries) ==> GetModelNames() == old(GetModelNames()))
                && (name !in old(models.entries) ==> GetModelNames() == old(GetModelNames()) + [name])
    {
      if name == DefaultName {
        return DefaultReserved;
      }
      if !modelFileExists {
        return ModelFileNotFound;
      }
      models := models.Put(name, ModelInfo(modelPath, classes, name));
      SaveCustomModels();
      return Added;
    }

    /** `getModel(name)`. */
    function GetModel(name: string): (r: Option<ModelInfo>)
      reads this
      requires Valid()
      ensures r.Some? <==> name in GetModelNames()
      ensures r.Some? ==> r.value.modelName == name
    {
      models.Get(name)
    }

    /** `getModelPath(name)`. */
    function GetModelPath(name: string): (r: Option<string>)
      reads this
      requires Valid()
      ensures r.Some? <==> name in GetModelNames()
      ensures r.Some? ==> GetModel(name).Some? && r.value == GetModel(name).value.path
    {
      match models.Get(name)
      case Some(info) => Some(info.path)
      case None => None
    }

    /** `getModelClasses(name)`. */
    function GetModelClasses(name: string): (r: Option<seq<string>>)
      reads this
      requires Valid()
      ensures r.Some? <==> name in GetModelNames()
      ensures r.Some? ==> GetModel(name).Some? && r.value == GetModel(name).value.classes
    {
      match models.Get(name)
      case Some(info) => Some(info.classes)
      case None => None
    }

    /** `getModelNames()`: the names in insertion order, each once. */
    function GetModelNames(): (names: seq<string>)
      reads this
      requires Valid()
      ensures Distinct(names)
      ensures forall n :: n in names <==> n in models.entries
    {
      models.keys
    }

    /** `removeModel(name)`. */
    method RemoveModel(name: string) returns (r: RemoveOutcome)
      requires Valid()
      modifies this
      ensures Valid()
      ensures name == DefaultName ==>
                r == DefaultProtected && models == old(models) && customFile == old(customFile)
      ensures name != DefaultName && name !in old(models.entries) ==>
                r == NotFound && models == old(models) && customFile == old(customFile)
      ensures name != DefaultName && name in old(models.entries) ==>
                r == Removed && models == old(models).Remove(name) && customFile == Some(Saved(models))
      ensures r == Removed ==>
                && GetModel(name) == None
                && (forall n :: n != name ==> GetModel(n) == old(GetModel(n)))
                && (forall i :: 0 <= i < |old(GetModelNames())| && old(GetModelNames())[i] == name ==>
                      GetModelNames() == old(GetModelNames())[..i] + old(GetModelNames())[i + 1..])
      ensures |old(models.keys)| > 0 && old(models.keys)[0] == DefaultName ==>
                |models.keys| > 0 && models.keys[0] == DefaultName
    {
      if name == DefaultName {
        return DefaultProtected;
      }
      if name in models.entries {
        models := models.Remove(name);
        SaveCustomModels();
        return Removed;
      }
      return NotFound;
    }
  }
}
