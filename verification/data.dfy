/**
 Model of source/tpDccLib/core/data.py: the data-type tags of `Data`, the
 default name, and how `FileData` composes the paths of its file, its optional
 sub folder under `.sub/`, and its renaming decision. Disk effects (settings
 writes, folder renames) are returned as values instead of performed.
 */
module DataFiles {
  import opened Wrappers
  import opened Paths

  /** `DataTypes.Unknown`, the type tag of the base class. */
  const UnknownType: string := "Unknown"

  /** `DataExtensions.FileDataExtension`. */
  const FileDataExtension: string := "data"

  /** The title a `Data` without a name falls back to. */
  const UnknownTitle: string := "Unknown Data"

  /** The folder, inside a data directory, that holds the sub folders. */
  const SubFolderPrefix: string := ".sub/"

  /** Settings keys. */
  const NameKey: string := "name"
  const SubFolderKey: string := "sub_folder"

  /** A `FileData` object. `settings` is the content of its JSON settings file;
      `subFolder` and `filePath` are None until something sets them. */
  datatype FileData = FileData(
    name: string,
    id: string,
    extension: string,
    directory: string,
    settings: map<string, string>,
    subFolder: Option<string>,
    filePath: Option<string>)

  /** `settings.get(key)`: the stored value, or None. */
  function SettingsGet(settings: map<string, string>, key: string): Option<string> {
    if key in settings then Some(settings[key]) else None
  }

  // ---------------------------------------------------------------------------
  // Data
  // ---------------------------------------------------------------------------

  /** `Data.get_data_type()`: the base class's type tag. */
  function GetDataType(): (r: string)
    ensures r == UnknownType && r == "Unknown"
  {
    UnknownType
  }

  /** `Data.is_type_match(data_type)`. */
  function IsTypeMatch(dataType: string): (r: bool)
    ensures r <==> dataType == UnknownType
  {
    dataType == GetDataType()
  }

  /** `Data.get_data_title()`: the name, or the fallback title for a falsy name. */
  function GetDataTitle(name: Option<string>): (r: string)
    ensures r != ""
    ensures Truthy(name) ==> r == name.value
    ensures !Truthy(name) ==> r == UnknownTitle
  {
    if Truthy(name) then name.value else UnknownTitle
  }

  /** `FileData(name, path)`; `freshId` stands for the generated `uuid4()`. */
  function NewFileData(name: Option<string>, path: string, freshId: string): (r: FileData)
    ensures r.name != ""
    ensures Truthy(name) ==> r.name == name.value
    ensures !Truthy(name) ==> r.name == UnknownTitle
    ensures r.extension == FileDataExtension && r.directory == path && r.id == freshId
    ensures r.subFolder.None? && r.filePath.None? && r.settings == map[]
  {
    FileData(GetDataTitle(name), freshId, FileDataExtension, path, map[], None, None)
  }

  /** `reset()` on a `FileData`: it re-runs `__init__()` with no arguments, so
      the name falls back to the default title, a new id is drawn, and the
      directory (None, written ''), settings and sub folder start over; the
      `file_path` attribute that `set_directory` created is not touched. */
  function Reset(d: FileData, freshId: string): (r: FileData)
    ensures r.name == UnknownTitle && r.id == freshId
    ensures r.extension == FileDataExtension && r.directory == ""
    ensures r.settings == map[] && r.subFolder.None?
    ensures r.filePath == d.filePath
  {
    NewFileData(None, "", freshId).(filePath := d.filePath)
  }

  // ---------------------------------------------------------------------------
  // File names and paths
  // ---------------------------------------------------------------------------

  /** `_get_file_name()`: `name.extension`, or the bare name when there is no extension. */
  function FileNameOf(name: string, extension: string): (r: string)
    ensures extension == "" ==> r == name
    ensures extension != "" ==>
              && |r| == |name| + 1 + |extension|
              && r[..|name|] == name && r[|name|] == '.' && r[|name| + 1..] == extension
  {
    if extension != "" then name + "." + extension else name
  }

  /** The name a file name was built from, given the extension; None when it does not end in it. */
  function StemOf(fileName: string, extension: string): Option<string> {
    if extension == "" then
      Some(fileName)
    else if |fileName| > |extension| && fileName[|fileName| - |extension| - 1..] == "." + extension then
      Some(fileName[..|fileName| - |extension| - 1])
    else
      None
  }

  /** The file name gives back the data name it was built from. */
  lemma FileNameRoundTrip(name: string, extension: string)
    ensures StemOf(FileNameOf(name, extension), extension) == Some(name)
  {
    if extension != "" {
      var f := FileNameOf(name, extension);
      assert f[|f| - |extension| - 1..] == "." + extension;
      assert f[..|f| - |extension| - 1] == name;
    }
  }

  /** The directory of a named sub folder: `join_path(directory, '.sub/<name>')`. */
  function SubFolderDir(directory: string, folderName: string): string {
    JoinPath(directory, SubFolderPrefix + folderName)
  }

  /** `get_file_direct(sub_folder)`. */
  function GetFileDirect(d: FileData, subFolder: Option<string>): (r: string)
    ensures !Truthy(subFolder) ==> r == JoinPath(d.directory, FileNameOf(d.name, d.extension))
    ensures Truthy(subFolder) ==> r == JoinPath(SubFolderDir(d.directory, subFolder.value), FileNameOf(d.name, d.extension))
  {
    var dataDirectory := if Truthy(subFolder) then SubFolderDir(d.directory, subFolder.value) else d.directory;
    JoinPath(dataDirectory, FileNameOf(d.name, d.extension))
  }

  /** `get_file()`: the file path under the current sub folder. */
  function GetFile(d: FileData): (r: string)
    ensures r == GetFileDirect(d, d.subFolder)
  {
    var dataDirectory := if Truthy(d.subFolder) then SubFolderDir(d.directory, d.subFolder.value) else d.directory;
    JoinPath(dataDirectory, FileNameOf(d.name, d.extension))
  }

  /** Where the file lies: under the directory, and named by `_get_file_name()`.
      This rests on `JoinPath` being plain concatenation; a join that
      normalised `..` could lead a sub folder such as `x/../..` elsewhere. */
  lemma FileDirectLocation(d: FileData, subFolder: Option<string>)
    ensures var p := GetFileDirect(d, subFolder);
            var f := FileNameOf(d.name, d.extension);
            && |p| >= |d.directory| + 1 + |f|
            && p[..|d.directory| + 1] == d.directory + "/"
            && p[|p| - |f| - 1..] == "/" + f
  {
    var f := FileNameOf(d.name, d.extension);
    var p := GetFileDirect(d, subFolder);
    JoinPathShape(d.directory, f);
    if Truthy(subFolder) {
      var sub := SubFolderDir(d.directory, subFolder.value);
      JoinPathShape(d.directory, SubFolderPrefix + subFolder.value);
      JoinPathShape(sub, f);
      assert p[..|d.directory| + 1] == sub[..|d.directory| + 1];
    }
  }

  /** The joined path starts with the first part and a slash and ends with a slash and the second part. */
  lemma JoinPathShape(a: string, b: string)
    ensures JoinPath(a, b)[..|a| + 1] == a + "/"
    ensures JoinPath(a, b)[|a|..] == "/" + b
  {
  }

  /** A copy in a sub folder never has the same path as the top-level file.
      Like `FileDirectLocation`, this holds for the concatenating `JoinPath`;
      with a normalising join the sub folder `x/..` would give the top-level path. */
  lemma SubFolderFileIsDistinct(d: FileData, subFolder: Option<string>)
    requires Truthy(subFolder)
    ensures GetFileDirect(d, subFolder) != GetFileDirect(d, None)
  {
    assert |GetFileDirect(d, subFolder)| > |GetFileDirect(d, None)|;
  }

  // ---------------------------------------------------------------------------
  // Sub folders
  // ---------------------------------------------------------------------------

  /** `set_sub_folder(folder_name)`: always remembered on the object, saved in
      the settings only when the sub folder exists. */
  function SetSubFolder(d: FileData, fs: FileSystem, folderName: string): (r: FileData)
    ensures r.subFolder == Some(folderName)
    ensures IsDir(fs, SubFolderDir(d.directory, folderName)) ==> r.settings == d.settings[SubFolderKey := folderName]
    ensures !IsDir(fs, SubFolderDir(d.directory, folderName)) ==> r.settings == d.settings
    ensures r.(subFolder := d.subFolder, settings := d.settings) == d
  {
    var settings := if IsDir(fs, SubFolderDir(d.directory, folderName)) then d.settings[SubFolderKey := folderName] else d.settings;
    d.(subFolder := Some(folderName), settings := settings)
  }

  /** `get_sub_folder()`: adopts the stored sub folder, unless the object has a
      directory and that sub folder is missing on disk, in which case the sub
      folder is reset to '' and None is returned. A missing setting is looked
      for as the folder `.sub/None`, as `'{}'.format(None)` spells it. */
  function GetSubFolder(d: FileData, fs: FileSystem): (r: (FileData, Option<string>))
    // a sub folder in use always exists under a set directory
    ensures d.directory != "" && Truthy(r.0.subFolder) ==> IsDir(fs, SubFolderDir(d.directory, r.0.subFolder.value))
    // found (or no directory to look in): adopted and returned
    ensures (d.directory == "" || IsDir(fs, SubFolderDir(d.directory, Format(SettingsGet(d.settings, SubFolderKey))))) ==>
              r.0 == d.(subFolder := SettingsGet(d.settings, SubFolderKey)) && r.1 == SettingsGet(d.settings, SubFolderKey)
    // missing: reset to the empty sub folder
    ensures d.directory != "" && !IsDir(fs, SubFolderDir(d.directory, Format(SettingsGet(d.settings, SubFolderKey)))) ==>
              r.0 == SetSubFolder(d, fs, "") && r.1.None?
    ensures r.0.name == d.name && r.0.directory == d.directory && r.0.extension == d.extension
  {
    var folderName := SettingsGet(d.settings, SubFolderKey);
    if d.directory != "" && !IsDir(fs, SubFolderDir(d.directory, Format(folderName))) then
      (SetSubFolder(d, fs, ""), None)
    else
      (d.(subFolder := folderName), folderName)
  }

  // ---------------------------------------------------------------------------
  // set_directory
  // ---------------------------------------------------------------------------

  /** `set_directory(directory)`; `stored` is what the settings file
      `data.json` in that directory holds. */
  function SetDirectory(d: FileData, fs: FileSystem, directory: string, stored: map<string, string>): (r: FileData)
    ensures r.directory == directory && r.extension == d.extension && r.id == d.id
    // a name is kept; an empty one is taken from the settings
    ensures d.name != "" ==> r.name == d.name
    ensures d.name == "" && NameKey in stored ==> r.name == stored[NameKey]
    // the file path is the top-level file, ignoring any sub folder
    ensures r.filePath == Some(GetFileDirect(r, None))
    ensures r.filePath == Some(JoinPath(directory, if d.extension != "" then r.name + "." + d.extension else r.name))
    // the sub folder was checked against the disk
    ensures directory != "" && Truthy(r.subFolder) ==> IsDir(fs, SubFolderDir(directory, r.subFolder.value))
    // the settings are the loaded ones, at most with the sub folder reset to ''
    ensures r.settings == stored || r.settings == stored[SubFolderKey := ""]
    // a stored sub folder that exists (or no directory to look in) is adopted unchanged
    ensures directory == "" || IsDir(fs, SubFolderDir(directory, Format(SettingsGet(stored, SubFolderKey)))) ==>
              r.subFolder == SettingsGet(stored, SubFolderKey) && r.settings == stored
    // a missing one is reset to '', and '' is saved when `.sub/` itself exists
    ensures directory != "" && !IsDir(fs, SubFolderDir(directory, Format(SettingsGet(stored, SubFolderKey)))) ==>
              && r.subFolder == Some("")
              && r.settings == if IsDir(fs, SubFolderDir(directory, "")) then stored[SubFolderKey := ""] else stored
  {
    var loaded := d.(directory := directory, settings := stored);
    var named := if loaded.name == "" then loaded.(name := SettingsGet(stored, NameKey).GetOr("")) else loaded;
    var checked := GetSubFolder(named, fs).0;
    checked.(filePath := Some(JoinPath(directory, FileNameOf(checked.name, checked.extension))))
  }

  // ---------------------------------------------------------------------------
  // rename
  // ---------------------------------------------------------------------------

  /** The path `create()` writes the file to, as the source writes it:
      `'{}.{}'.format(name, extension)`, with the dot even when the extension
      is empty, so the file then lies elsewhere than `get_file_direct()` says. */
  function CreatePathAsWritten(d: FileData): (r: string)
    ensures d.extension != "" ==> r == GetFileDirect(d, None)
    ensures d.extension == "" ==> r != GetFileDirect(d, None) && r == GetFileDirect(d, None) + "."
  {
    var r := JoinPath(d.directory, d.name + "." + d.extension);
    assert d.extension == "" ==> |r| != |GetFileDirect(d, None)|;
    r
  }

  /** The path `create()` evidently means: the file `get_file_direct()` names. */
  function CreatePath(d: FileData): (r: string)
    ensures r == GetFileDirect(d, None)
    ensures d.extension != "" ==> r == CreatePathAsWritten(d)
  {
    JoinPath(d.directory, FileNameOf(d.name, d.extension))
  }

  /** A `folder.rename_folder(directory=from, name=toName)` request. */
  datatype Move = Move(from: string, toName: string)

  /** The filesystem after a move out of `parent`: whatever was at `from`
      is now at the sibling `toName`. */
  function ApplyMove(fs: FileSystem, parent: string, m: Move): (r: FileSystem)
    ensures IsFile(fs, m.from) ==> IsFile(r, JoinPath(parent, m.toName))
    ensures IsDir(fs, m.from) ==> IsDir(r, JoinPath(parent, m.toName))
    ensures forall p :: p != m.from && IsFile(fs, p) ==> IsFile(r, p)
    ensures forall p :: p != m.from && IsDir(fs, p) ==> IsDir(r, p)
  {
    var to := JoinPath(parent, m.toName);
    FileSystem(
      if m.from in fs.files then fs.files - {m.from} + {to} else fs.files,
      if m.from in fs.dirs then fs.dirs - {m.from} + {to} else fs.dirs)
  }

  /** The object after `rename`, its return value, and the move it asks for. */
  datatype RenameOutcome = RenameOutcome(data: FileData, returned: Option<string>, move: Option<Move>)

  /** `rename(new_name)` as the source writes it: the old file is looked for at
      `'{}.{}'.format(old_name, extension)`, with the dot even when the
      extension is empty, and moved to `_get_file_name()`, without it. */
  function RenameAsWritten(d: FileData, fs: FileSystem, newName: string): (r: RenameOutcome)
    ensures newName == d.name ==> r == RenameOutcome(d, None, None)
    ensures newName != d.name ==> r.data == d.(name := newName)
    ensures newName != d.name ==>
              var oldPath := JoinPath(d.directory, d.name + "." + d.extension);
              (r.returned.Some? <==> IsFile(fs, oldPath) || IsDir(fs, oldPath))
    ensures r.returned.Some? ==> r.returned.value == FileNameOf(newName, d.extension)
    ensures r.move.Some? <==> r.returned.Some?
    ensures r.move.Some? ==> r.move.value == Move(JoinPath(d.directory, d.name + "." + d.extension), r.returned.value)
  {
    if d.name == newName then
      RenameOutcome(d, None, None)
    else
      var oldPath := JoinPath(d.directory, d.name + "." + d.extension);
      var renamed := d.(name := newName);
      if IsFile(fs, oldPath) || IsDir(fs, oldPath) then
        var fileName := FileNameOf(renamed.name, renamed.extension);
        RenameOutcome(renamed, Some(fileName), Some(Move(oldPath, fileName)))
      else
        RenameOutcome(renamed, None, None)
  }

  /** The as-written rename always finds the file the as-written `create()` wrote. */
  lemma RenameAsWrittenFindsCreatedFile(d: FileData, newName: string)
    requires newName != d.name
    ensures RenameAsWritten(d, FileSystem({CreatePathAsWritten(d)}, {}), newName).returned.Some?
  {
  }

  /** With an empty extension the as-written rename moves the file to a name it
      will not look for next time: after a first rename of the file `create()`
      wrote, a second rename reports nothing and moves nothing, though the file
      is exactly where `get_file_direct()` says. */
  lemma RenameAsWrittenLosesRenamedFile(d: FileData, b: string, c: string)
    requires d.extension == "" && b != d.name && c != b
    ensures var fs := FileSystem({CreatePathAsWritten(d)}, {});
            var first := RenameAsWritten(d, fs, b);
            && first.returned == Some(b)
            && var moved := ApplyMove(fs, d.directory, first.move.value);
               && IsFile(moved, GetFileDirect(first.data, None))
               && RenameAsWritten(first.data, moved, c).returned.None?
               && RenameAsWritten(first.data, moved, c).move.None?
  {
    var fs := FileSystem({CreatePathAsWritten(d)}, {});
    var first := RenameAsWritten(d, fs, b);
    var moved := ApplyMove(fs, d.directory, first.move.value);
    assert moved.files == {JoinPath(d.directory, b)};
    assert |JoinPath(d.directory, b + "." + "")| != |JoinPath(d.directory, b)|;
  }

  /** `rename(new_name)`, looking for the old file where `get_file_direct()` puts it. */
  function Rename(d: FileData, fs: FileSystem, newName: string): (r: RenameOutcome)
    // renaming to the current name changes nothing
    ensures newName == d.name ==> r == RenameOutcome(d, None, None)
    // any other name is taken, whether or not a file exists
    ensures newName != d.name ==> r.data == d.(name := newName)
    // the new file name is returned exactly when the current file exists
    ensures newName != d.name ==>
              (r.returned.Some? <==> IsFile(fs, GetFileDirect(d, None)) || IsDir(fs, GetFileDirect(d, None)))
    ensures r.returned.Some? ==> r.returned.value == FileNameOf(newName, d.extension)
    // and the existing file is moved to it
    ensures r.move.Some? <==> r.returned.Some?
    ensures r.move.Some? ==> r.move.value == Move(GetFileDirect(d, None), r.returned.value)
  {
    if d.name == newName then
      RenameOutcome(d, None, None)
    else
      var oldPath := JoinPath(d.directory, FileNameOf(d.name, d.extension));
      var renamed := d.(name := newName);
      if IsFile(fs, oldPath) || IsDir(fs, oldPath) then
        var fileName := FileNameOf(renamed.name, renamed.extension);
        RenameOutcome(renamed, Some(fileName), Some(Move(oldPath, fileName)))
      else
        RenameOutcome(renamed, None, None)
  }

  /** The corrected rename finds an existing file and leaves it where the
      renamed object will look for it, so any chain of renames keeps
      finding the file that the corrected `create()` wrote. */
  lemma RenameKeepsFileFound(d: FileData, fs: FileSystem, newName: string)
    requires newName != d.name
    requires IsFile(fs, CreatePath(d)) || IsDir(fs, CreatePath(d))
    ensures Rename(d, fs, newName).returned.Some?
    ensures var r := Rename(d, fs, newName);
            var moved := ApplyMove(fs, d.directory, r.move.value);
            IsFile(moved, CreatePath(r.data)) || IsDir(moved, CreatePath(r.data))
  {
    var r := Rename(d, fs, newName);
    assert r.move.value.toName == FileNameOf(newName, d.extension);
    assert CreatePath(r.data) == JoinPath(d.directory, FileNameOf(newName, d.extension));
  }

  /** Whenever there is an extension, as for every `FileData`, the corrected
      rename does what the source does. */
  lemma RenameAgreesWithExtension(d: FileData, fs: FileSystem, newName: string)
    requires d.extension != ""
    ensures Rename(d, fs, newName) == RenameAsWritten(d, fs, newName)
  {
  }
}
