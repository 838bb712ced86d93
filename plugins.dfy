/** PluginService: the registry of installed plug-ins (plugins.json), the
    plug-in files in the plugins directory, and which plug-ins are loaded. */
module Plugins {
  import opened Text
  import opened Paths
  import Collections
  import Models

  /** What ExtractManifest reads from a plug-in assembly. */
  datatype Manifest = Manifest(name: string, version: string, author: string, description: string)

  const NotFoundError := "Plugin file not found"
  const ManifestError := "Invalid plugin: Missing manifest or IPlugin implementation"

  function DuplicateError(name: string): string {
    "Plugin '" + name + "' is already installed"
  }

  /** Some installed plug-in has this name, compared ordinal and ignoring
      case. */
  predicate NameTaken(infos: seq<Models.PluginInfo>, name: string) {
    exists i :: 0 <= i < |infos| && EqualsIgnoreCase(infos[i].name, name)
  }

  /** A Guid in the "N" format: 32 hexadecimal digits. */
  predicate IsGuidN(id: string) {
    |id| == 32 && forall i :: 0 <= i < |id| ==> IsDigit(id[i]) || 'a' <= id[i] <= 'f'
  }

  /** _pluginInfos.RemoveAll(p => p.Id == id). */
  function Without(infos: seq<Models.PluginInfo>, id: string): seq<Models.PluginInfo> {
    if infos == [] then []
    else
      var rest := Without(infos[..|infos| - 1], id);
      if infos[|infos| - 1].id == id then rest else rest + [infos[|infos| - 1]]
  }

  /** RemoveAll takes out every entry with the id and no other: each other entry
      keeps its number of occurrences. */
  lemma {:induction false} WithoutCounts(infos: seq<Models.PluginInfo>, id: string)
    ensures forall p :: multiset(Without(infos, id))[p] == if p.id == id then 0 else multiset(infos)[p]
  {
    if infos != [] {
      var init := infos[..|infos| - 1];
      WithoutCounts(init, id);
      assert infos == init + [infos[|infos| - 1]];
    }
  }

  /** An entry survives exactly when its id differs. */
  lemma WithoutMembers(infos: seq<Models.PluginInfo>, id: string)
    ensures forall p :: p in Without(infos, id) <==> p in infos && p.id != id
  {
    WithoutCounts(infos, id);
    forall p
      ensures p in Without(infos, id) <==> p in infos && p.id != id
    {
      assert p in Without(infos, id) <==> multiset(Without(infos, id))[p] > 0;
      assert p in infos <==> multiset(infos)[p] > 0;
    }
  }

  /** Without an entry with the id, the registry is left as it is. */
  lemma {:induction false} WithoutNoMatch(infos: seq<Models.PluginInfo>, id: string)
    requires forall i :: 0 <= i < |infos| ==> infos[i].id != id
    ensures Without(infos, id) == infos
  {
    if infos != [] {
      WithoutNoMatch(infos[..|infos| - 1], id);
      assert infos[..|infos| - 1] + [infos[|infos| - 1]] == infos;
    }
  }

  /** The first index of an entry with the id (FirstOrDefault), or -1. */
  function IndexOfId(infos: seq<Models.PluginInfo>, id: string): (k: int)
    ensures -1 <= k < |infos|
    ensures k >= 0 ==> infos[k].id == id && forall i :: 0 <= i < k ==> infos[i].id != id
    ensures k < 0 ==> forall i :: 0 <= i < |infos| ==> infos[i].id != id
  {
    if infos == [] then -1
    else if infos[0].id == id then 0
    else
      var k := IndexOfId(infos[1..], id);
      if k < 0 then -1 else k + 1
  }

  /** The ids LoadPlugins loads, in registry order: the enabled entries whose
      file exists in the plugins directory and holds a plug-in type that can be
      instantiated. */
  function Loadable(infos: seq<Models.PluginInfo>, dir: string, files: set<string>, usable: set<string>): seq<string> {
    if infos == [] then []
    else
      var rest := Loadable(infos[..|infos| - 1], dir, files, usable);
      var p := infos[|infos| - 1];
      var path := Combine(dir, p.fileName);
      if p.isEnabled && path in files && path in usable then rest + [p.id] else rest
  }

  /** Only enabled plug-ins are loaded: every loaded id is that of an enabled
      entry whose file exists. */
  lemma {:induction false} OnlyEnabledLoad(infos: seq<Models.PluginInfo>, dir: string, files: set<string>, usable: set<string>)
    ensures forall id :: id in Loadable(infos, dir, files, usable) ==>
      exists i :: 0 <= i < |infos| && infos[i].id == id && infos[i].isEnabled && Combine(dir, infos[i].fileName) in files
    ensures |Loadable(infos, dir, files, usable)| <= |infos|
  {
    if infos != [] {
      var init := infos[..|infos| - 1];
      OnlyEnabledLoad(init, dir, files, usable);
      forall id | id in Loadable(infos, dir, files, usable)
        ensures exists i :: 0 <= i < |infos| && infos[i].id == id && infos[i].isEnabled && Combine(dir, infos[i].fileName) in files
      {
        if id in Loadable(init, dir, files, usable) {
          var i :| 0 <= i < |init| && init[i].id == id && init[i].isEnabled && Combine(dir, init[i].fileName) in files;
          assert infos[i] == init[i];
        } else {
          assert infos[|infos| - 1].id == id;
        }
      }
    }
  }

  /** A disabled registry loads nothing. */
  lemma {:induction false} DisabledLoadNothing(infos: seq<Models.PluginInfo>, dir: string, files: set<string>, usable: set<string>)
    requires forall i :: 0 <= i < |infos| ==> !infos[i].isEnabled
    ensures Loadable(infos, dir, files, usable) == []
  {
    if infos != [] {
      DisabledLoadNothing(infos[..|infos| - 1], dir, files, usable);
    }
  }

  /** The stored file name of an import, Path.GetFileName of the target path,
      is "{id}_{original file name}". */
  lemma ImportedFileName(dir: string, id: string, original: string)
    requires dir != [] && IsGuidN(id)
    requires forall i :: 0 <= i < |original| ==> original[i] != ':'
    requires forall i :: 0 <= i < |original| ==> !IsDirectorySeparator(original[i])
    ensures GetFileName(Combine(dir, id + "_" + original)) == id + "_" + original
  {
    var name := id + "_" + original;
    forall i | 0 <= i < |name|
      ensures !IsDirectorySeparator(name[i]) && name[i] != ':'
    {
      if i < |id| {
        assert name[i] == id[i];
      } else if i > |id| {
        assert name[i] == original[i - |id| - 1];
      }
    }
    FileNameOfCombine(dir, name);
  }

  /** The plug-in registry and the plugins directory. */
  class PluginRegistry {
    const dir: string
    /** _pluginInfos. */
    var infos: seq<Models.PluginInfo>
    /** The registry as last written to plugins.json. */
    var saved: seq<Models.PluginInfo>
    /** The files of the plugins directory, by full path. */
    var files: set<string>
    /** The ids of the entries of LoadedPlugins, in load order. */
    var loaded: seq<string>

    constructor(dir: string, saved: seq<Models.PluginInfo>, files: set<string>)
      ensures this.dir == dir && this.saved == saved && this.files == files
      ensures infos == [] && loaded == []
    {
      this.dir := dir;
      this.saved := saved;
      this.files := files;
      infos := [];
      loaded := [];
    }

    /** Initialize: the registry is read from plugins.json (empty when the file
        is missing or does not deserialize, which `stored` gives as None;
        otherwise it reads back what was last written), and the enabled
        plug-ins are loaded. */
    method Initialize(stored: Option<seq<Models.PluginInfo>>, usable: set<string>)
      requires stored.Some? ==> stored.value == saved
      modifies this
      ensures infos == (if stored.Some? then saved else [])
      ensures loaded == old(loaded) + Loadable(infos, dir, files, usable)
      ensures saved == old(saved) && files == old(files)
    {
      infos := if stored.Some? then stored.value else [];
      LoadPlugins(usable);
    }

    /** LoadPlugins: each enabled entry whose file exists and holds a usable
        plug-in type is loaded, in registry order. `usable` is the set of files
        from which an instance can be created. */
    method LoadPlugins(usable: set<string>)
      modifies this
      ensures loaded == old(loaded) + Loadable(infos, dir, files, usable)
      ensures infos == old(infos) && saved == old(saved) && files == old(files)
    {
      for i := 0 to |infos|
        invariant infos == old(infos) && saved == old(saved) && files == old(files)
        invariant loaded == old(loaded) + Loadable(infos[..i], dir, files, usable)
      {
        assert infos[..i + 1][..i] == infos[..i];
        var info := infos[i];
        if info.isEnabled {
          var path := Combine(dir, info.fileName);
          if path in files && path in usable {
            loaded := loaded + [info.id];
          }
        }
      }
      assert infos[..|infos|] == infos;
    }

    /** GetAllPlugins: a copy of the registry. */
    method GetAllPlugins() returns (r: seq<Models.PluginInfo>)
      ensures r == infos
    {
      r := infos;
    }

    /** ImportPlugin. The file's existence, its manifest and the new Guid are
        inputs. A missing file, a missing manifest and a name already installed
        (ignoring case) are reported and change nothing; otherwise the file is
        copied as "{id}_{name}", one enabled entry is appended and saved, and
        the result is "". */
    method ImportPlugin(sourcePath: string, sourceExists: bool, manifest: Option<Manifest>, newId: string)
        returns (error: string)
      modifies this
      ensures loaded == old(loaded)
      ensures !sourceExists ==> error == NotFoundError
      ensures sourceExists && manifest.None? ==> error == ManifestError
      ensures sourceExists && manifest.Some? && NameTaken(old(infos), manifest.value.name) ==>
        error == DuplicateError(manifest.value.name)
      ensures error != "" ==> infos == old(infos) && saved == old(saved) && files == old(files)
      ensures sourceExists && manifest.Some? && !NameTaken(old(infos), manifest.value.name) ==>
        var target := Combine(dir, newId + "_" + GetFileName(sourcePath));
        var m := manifest.value;
        && error == ""
        && files == old(files) + {target}
        && infos == old(infos) + [Models.PluginInfo(m.name, m.version, m.author, m.description, GetFileName(target), true, newId)]
        && saved == infos
    {
      if !sourceExists {
        return NotFoundError;
      }
      var fileName := GetFileName(sourcePath);
      var targetPath := Combine(dir, newId + "_" + fileName);
      if manifest.None? {
        return ManifestError;
      }
      var m := manifest.value;
      if NameTaken(infos, m.name) {
        return DuplicateError(m.name);
      }
      files := files + {targetPath};
      infos := infos + [Models.PluginInfo(m.name, m.version, m.author, m.description, GetFileName(targetPath), true, newId)];
      saved := infos;
      error := "";
    }

    /** RemovePlugin: the first loaded instance with the id is unloaded, every
        entry with the id leaves the registry, which is saved, and the plug-in
        file is deleted. */
    method RemovePlugin(info: Models.PluginInfo)
      modifies this
      ensures infos == Without(old(infos), info.id) && saved == infos
      ensures loaded == Collections.RemoveFirst(old(loaded), info.id)
      ensures files == old(files) - {Combine(dir, info.fileName)}
    {
      var pluginPath := Combine(dir, info.fileName);
      loaded := Collections.RemoveFirst(loaded, info.id);
      infos := Without(infos, info.id);
      saved := infos;
      if pluginPath in files {
        files := files - {pluginPath};
      }
    }

    /** TogglePlugin: nothing for an unknown id; otherwise the first entry with
        the id gets the new IsEnabled and the registry is saved, and disabling
        unloads that plug-in's first loaded instance. */
    method TogglePlugin(info: Models.PluginInfo, enabled: bool)
      modifies this
      ensures files == old(files)
      ensures IndexOfId(old(infos), info.id) < 0 ==>
        infos == old(infos) && saved == old(saved) && loaded == old(loaded)
      ensures IndexOfId(old(infos), info.id) >= 0 ==>
        var k := IndexOfId(old(infos), info.id);
        && infos == old(infos)[k := old(infos)[k].(isEnabled := enabled)]
        && saved == infos
        && loaded == (if enabled then old(loaded) else Collections.RemoveFirst(old(loaded), info.id))
    {
      var k := IndexOfId(infos, info.id);
      if k < 0 {
        return;
      }
      infos := infos[k := infos[k].(isEnabled := enabled)];
      saved := infos;
      if !enabled {
        loaded := Collections.RemoveFirst(loaded, info.id);
      }
    }

    /** OnApplicationShutdown: every loaded plug-in is unloaded. */
    method OnApplicationShutdown()
      modifies this
      ensures loaded == [] && infos == old(infos) && saved == old(saved) && files == old(files)
    {
      loaded := [];
    }
  }
}
