# tpDcc core logic in Dafny

tpDcc is an abstraction layer that lets tool code run unchanged across 3D
content-creation host applications. Nearly all of it is a catalog of abstract
host calls. This project models the small part that holds real logic:

- **Class registry** (`tpDcc/register.py`). `register_class` binds a class into
  the `tpDcc` module namespace. It honours the `is_unique` and `skip_store`
  flags and records tracked names in the `_registered_classes` list.
  `cleanup` unbinds every tracked name and then drops the list. The namespace
  is one map from names to objects (`Registry.Namespace`). The tracking list is
  an entry of that same map, so the model also covers a name that collides
  with the list's own name. Exceptions keep the mutations made before them,
  so `Registry.Outcome` carries the namespace on both ends.
- **Side names and the attribute setter switch** (`tpDccLib/abstract/dcc.py`).
  `name_is_center`, `name_is_left` and `name_is_right` test exact membership
  in the caller's patterns or the built-in lists. `set_attribute_value` sends a
  value to exactly one typed setter by its exact Python type, or raises
  `NotImplementedError`. Values are the sum type `Dcc.AttrValue`, and the
  switch returns the setter call it would make (`Dcc.SetterCall`).
- **File data** (`source/tpDccLib/core/data.py`). This covers the default data
  name, the type tag, the file name `name.extension`, the file path with or
  without a `.sub/<folder>` sub folder, the sub-folder check against the disk,
  `set_directory`'s path rule and `rename`'s decision. The filesystem is a set
  of file paths and a set of directory paths. `path.join_path` is modelled as
  `a + "/" + b`. Settings are a string map. The folder move that `rename`
  requests is returned as a value (`DataFiles.Move`).

The source is Python 2 code (`set_attribute_value` names `unicode`), and the model follows Python 2: `type(len(v))` formats as `<type 'int'>`, and a `long` is not an `int`.

Modules: `Wrappers` (Option/Result), `Registry`, `Dcc`, `Decimal` (number
rendering for an error message), `Paths` (join, filesystem, None formatting),
`DataFiles`.

## Model

| member | source | states |
|---|---|---|
| `Registry.RegisterClass` | tpDcc/register.py:24-42 | the tracking entry always exists afterwards, created empty (also when `is_unique` stops a call on the entry's own name); `is_unique` on a bound name (registered here or not) changes no binding; otherwise the name maps to `cls` and no other binding changes; `skip_store` leaves the tracked list alone, else the name is appended at the end even if already present; the only failure is `AttributeError` from appending to a non-list tracking entry, which leaves that entry as it was and the name bound to `cls`; binding `_registered_classes` itself replaces the list |
| `Registry.Unbind` | tpDcc/register.py:50-53 | deleting the tracked names one by one, skipping absent and duplicate ones, leaves exactly the namespace minus the set of tracked names |
| `Registry.Cleanup` | tpDcc/register.py:45-54 | no-op without a tracking entry; otherwise no tracked name and no tracking entry stays bound, and every untracked binding (e.g. `skip_store` names) keeps its value; a list that tracks its own name ends in `KeyError`, a non-list entry in `TypeError` |
| `Registry.RegisterKeepsSession` | tpDcc/register.py:34-42 | one tracked registration of a fresh name keeps the original bindings, adds the name and tracks it |
| `Registry.RegisterAllKeepsSession` | tpDcc/register.py:24-42 | any sequence of tracked registrations of fresh names never raises, keeps the original bindings, and binds and tracks exactly the registered names |
| `Registry.CleanupUndoesFreshRegistrations` | tpDcc/register.py:24-54 | registering fresh names with tracking and then calling `cleanup` restores the namespace exactly as it was |
| `Dcc.Contains` | tpDccLib/abstract/dcc.py:2069-2072 | the list scan answers true exactly when some element equals the side name |
| `Dcc.NameIsCenter` | tpDccLib/abstract/dcc.py:2058-2072 | true iff the side is an exact member of the caller's patterns; with None or empty patterns, iff it is one of `C c Center ct center middle m` |
| `Dcc.NameIsLeft` | tpDccLib/abstract/dcc.py:2075-2089 | the same rule with the defaults `L l Left left lf` |
| `Dcc.NameIsRight` | tpDccLib/abstract/dcc.py:2092-2106 | the same rule with the defaults `R r Right right rt` |
| `Dcc.DefaultSidesDisjoint` | tpDccLib/abstract/dcc.py:2067-2101 | with the built-in lists no side name counts as two of center, left and right |
| `Dcc.SetAttributeValue` | tpDccLib/abstract/dcc.py:2029-2053 | bool, int, float and str each reach their own setter and only it, so a bool never reaches the integer setter; a list or tuple of exactly 3 reaches the vector3 setter; any other length and any other type are refused; node, name and value are passed unchanged; only the integer and float setters get the extra keyword arguments; the vector error's report names no length at all |
| `Dcc.VectorLengthReportAsWritten` | tpDccLib/abstract/dcc.py:2051 | the report formatted from `type(len(v))` is never the decimal form of any length |
| `Dcc.VectorLengthReport` | tpDccLib/abstract/dcc.py:2051 | the corrected report: the rejected vector length reads back from it |
| `Dcc.SetAttributeValueCorrected` | tpDccLib/abstract/dcc.py:2029-2053 | routes every value exactly as `set_attribute_value` does, but a refused vector's length reads back from the error |
| `Dcc.VectorLengthReportLosesLength` | tpDccLib/abstract/dcc.py:2051 | the report as written is the same for any two lengths, the corrected one differs |
| `Decimal.ParseNatToDecimal` | tpDccLib/abstract/dcc.py:2051 | decimal rendering of a length reads back to the same number |
| `Decimal.NatToDecimalInjective` | tpDccLib/abstract/dcc.py:2051 | different lengths render differently |
| `DataFiles.GetDataType` | source/tpDccLib/core/data.py:59-67 | the base class's type tag is `Unknown` |
| `DataFiles.IsTypeMatch` | source/tpDccLib/core/data.py:60-77 | a type matches the base data class iff it is `Unknown` |
| `DataFiles.Reset` | source/tpDccLib/core/data.py:120-125 | re-running the constructor with no arguments gives the default title, the new id, extension `data`, no directory, empty settings and no sub folder, while the file path `set_directory` made is left as it was |
| `DataFiles.GetDataTitle` | source/tpDccLib/core/data.py:111-118 | a truthy name is its own title; a None or empty name gives `Unknown Data` |
| `DataFiles.NewFileData` | source/tpDccLib/core/data.py:39-45 | the constructor's name is kept when truthy, else `Unknown Data`; the extension is `data`, the directory is the given path, and no sub folder or file path is set |
| `DataFiles.FileNameOf` | source/tpDccLib/core/data.py:265-270 | the file name is the name, a dot and the extension when the extension is non-empty, else the bare name |
| `DataFiles.FileNameRoundTrip` | source/tpDccLib/core/data.py:265-270 | `name.extension` (or the bare name without an extension) gives the name back |
| `DataFiles.GetFileDirect` | source/tpDccLib/core/data.py:197-212 | without a truthy sub folder the path is `join(directory, file name)`; with one it is `join(join(directory, ".sub/" + sub), file name)` |
| `DataFiles.GetFile` | source/tpDccLib/core/data.py:181-195 | equals `get_file_direct` applied to the stored sub folder |
| `DataFiles.FileDirectLocation` | source/tpDccLib/core/data.py:197-212 | with or without a sub folder the path lies under the directory and ends in `/` and the file name (for the concatenating join) |
| `DataFiles.SubFolderFileIsDistinct` | source/tpDccLib/core/data.py:207-210 | a path inside a sub folder never equals the top-level path of the same file (for the concatenating join) |
| `DataFiles.SetSubFolder` | source/tpDccLib/core/data.py:238-247 | the sub folder is always remembered; it is saved to the settings exactly when its directory exists; nothing else changes |
| `DataFiles.GetSubFolder` | source/tpDccLib/core/data.py:222-236 | the stored sub folder is adopted and returned when found or when there is no directory; otherwise it is reset to empty and None is returned; when a directory is set, a sub folder left in use always exists on disk |
| `DataFiles.SetDirectory` | source/tpDccLib/core/data.py:155-172 | the directory is set, an existing name kept, an empty one taken from the settings; the settings become the loaded file; a stored sub folder that exists (or any, when the directory is empty) is adopted unchanged, a missing one is reset to `''`, which is saved only when `.sub/` exists; the file path is `join(directory, name.extension)`, or `join(directory, name)` without an extension, i.e. `get_file_direct()` with no sub folder |
| `DataFiles.CreatePathAsWritten` | source/tpDccLib/core/data.py:174-179 | `create()` writes `name.extension`, which is the file `get_file_direct()` names when there is an extension; without one it writes `dir/name.`, the `get_file_direct()` path plus a trailing dot, which is exactly where `rename` looks |
| `DataFiles.RenameAsWrittenFindsCreatedFile` | source/tpDccLib/core/data.py:255-263 | for every file data and every new name other than its own, `rename` finds the file `create()` wrote |
| `DataFiles.CreatePath` | source/tpDccLib/core/data.py:174-179 | the corrected `create()` writes exactly the file `get_file_direct()` names |
| `DataFiles.RenameAsWritten` | source/tpDccLib/core/data.py:249-263 | renaming to the current name changes nothing and returns None; another name is always taken, and the new file name is returned exactly when `old_name.extension` exists as a file or directory; that path is then moved to the new `_get_file_name()` |
| `DataFiles.RenameAsWrittenLosesRenamedFile` | source/tpDccLib/core/data.py:259-263 | for every file data with an empty extension and names `b` (not its own) and `c` (not `b`): a first rename to `b` finds the file `create()` wrote and moves it to the bare `dir/b`, where `get_file_direct()` locates it, and a second rename to `c` then finds nothing and moves nothing |
| `DataFiles.Rename` | source/tpDccLib/core/data.py:249-263 | as above, but the old file is looked for where `get_file_direct()` puts it, and that path is moved to the new file name |
| `DataFiles.RenameKeepsFileFound` | source/tpDccLib/core/data.py:259-263 | the corrected rename finds an existing file and leaves it where the renamed object looks for it, so renames can be chained |
| `DataFiles.RenameAgreesWithExtension` | source/tpDccLib/core/data.py:259-263 | with a non-empty extension (every `FileData`) the corrected rename equals the source's |

## Findings

| source | as written | input that shows it | evidently intended | confidence | as-written member | corrected member |
|---|---|---|---|---|---|---|
| source/tpDccLib/core/data.py:179-263 | with an empty extension, `create()` and `rename`'s lookup use `'{}.{}'.format(name, extension)`, which ends in a dot, while `_get_file_name`, `get_file`, `get_file_direct`, `set_directory`'s file path and `rename`'s own move target use the bare name | extension `''`, name `a`, directory `root`: `create()` writes `root/a.`; `rename('b')` finds it and moves it to `root/b`; `rename('c')` then looks for `root/b.`, returns None and moves nothing, on a file system that keeps trailing dots (POSIX; Win32 strips them, so there both spellings name one file); the model's paths are exact strings | one naming rule, `_get_file_name()`, in `create()` and in `rename`'s lookup: `rename` itself moves the file to `_get_file_name()`, and `_get_file_name` has an explicit branch for an empty extension | medium, not executed | `DataFiles.CreatePathAsWritten`, `DataFiles.RenameAsWritten` (`DataFiles.RenameAsWrittenFindsCreatedFile`, `DataFiles.RenameAsWrittenLosesRenamedFile`) | `DataFiles.CreatePath`, `DataFiles.Rename` (`DataFiles.RenameKeepsFileFound`) |
| tpDccLib/abstract/dcc.py:2051 | the vector error formats `type(len(attribute_value))`, which is `<type 'int'>` for every length | a 2-element and a 4-element list raise the same message | format `len(attribute_value)` | high, not executed | `Dcc.SetAttributeValue`, `Dcc.VectorLengthReportAsWritten` (`Dcc.VectorLengthReportLosesLength`) | `Dcc.SetAttributeValueCorrected`, `Dcc.VectorLengthReport` |

## Left out

- The abstract host-call catalog of `dcc.py` and `shelf.py`: each method only raises `NotImplementedError`.
- `tpDcc/core/project.py`, `tpDcc/managers/callbacks.py` and `tpDcc/dcc/window.py`: GUI, image, reflection and window-class plumbing with no logic of their own.
- The typed setters, the file `create()` writes, `folder.rename_folder` and settings-file writes: they touch the host or the disk. The model returns the setter call, the path `create()` writes, and the folder move instead. `ApplyMove` models `rename_folder` as moving the entry to a sibling with the new name, since that library is not part of this model.
- `uuid.uuid4()`: passed in as `freshId`. `Data(data_id=...)` is not modelled because `FileData` never passes it.
- `JSONSettings`: a string map loaded as the `stored` parameter of `SetDirectory`. `settings.get` on a missing key gives None.
- `path.join_path`, `is_file` and `is_dir` belong to a library that is not part of this model. Joining is `a + "/" + b`, and existence is membership in the filesystem's sets.
- `DataFiles.SetDirectory`: when the name is empty and the settings have no `name` entry, Python sets the name to None. The model keeps the empty string, because names are strings here. So Python's file path is then `dir/None.data` while the model's is `dir/.data`.
- A directory of None is written as the empty string. Both are falsy, which is all `get_sub_folder` tests.
- `Registry`: Python lists are mutable and shared. The model treats the tracking list as a value, so a list registered under a second name and then appended to is not followed. Any non-list object is assumed not to support `append` or iteration.
- `Dcc.NameIsCenter`, `Dcc.NameIsLeft`, `Dcc.NameIsRight`: the side is a string, so `str(side)` on another object is not modelled.
- `Dcc.SetAttributeValue`: the Python 2 `str`/`unicode` split is one string case. A Python 2 `long` is `PyOther`, as in the source. The unsupported-type message is not built; the error carries the type name and the attribute name.
- Trivial accessors (`id`, `name`, `set_name`, `get_data_name`, `get_folder`) only read or write one field.
- `DataFiles.Reset`: the `file` attribute and the `_data` dictionary that `__init__` also resets are not modelled.
