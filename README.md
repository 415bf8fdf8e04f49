# pybind11 binding generator and build configuration, in Dafny

This project models the demo project's binding generator and its build configuration readers.

**The generator** is `examples/demo/cpp_bind_python.py`. It reads a C++ header whose declarations carry documentation comments with `@module`, `@param` and `@return` tags. From those it builds one record per annotated function or class, and writes pybind11 binding code for them:

- each record goes into the Python submodule named by its module path;
- each submodule key gets its own full chain of `def_submodule` calls; prefixes shared by several keys are declared again for each key, not deduplicated;
- each function is bound with `def`, with its `py::arg` list and its description;
- each class is bound as a `py::class_` together with its methods.

**The build scripts** are `examples/demo/project.py` and `examples/demo/setup.py`. Both read `global_config.mk`:

- `project.py` reads it as `KEY=value` lines, then decides whether to build a wheel and which CMake platform define to pass.
- `setup.py` reads it with an assignment pattern. It removes quotes from the values, turns the keyword setting into a list and the URL setting into a dictionary, and derives the package metadata with defaults.

The model takes the form of the source:

- **Imperative Dafny for the loops.** The loops that build the records, group them, emit the binding text and read the configuration files become methods with loops and invariants.
- **Reference functions.** Each such method is proved equal to a function: `AnnotatedItems`, `GroupOf`/`BucketOrder`, `BindCode`, `ConfigOf`, `MkConfigOf`.
- **Lemmas about those functions** state what the source promises:
  - round trips of the tag readers and of the configuration lines;
  - that every record has a module path and that functions come before classes;
  - that groups follow first-seen order and cover every record;
  - that every function, class and method record appears bound in the generated file;
  - that the last line that sets a key wins.
- **Inputs as values.**
  - File contents are given as strings; a missing file is `None`.
  - A header is given as what the three declaration patterns capture from it (`Annotations.Header`).
  - The demo header `main/include/add.hpp` is written out as such a value in `Demo`.

Modules:

- **Text**: Python's `str.isspace`, `\w`, `strip`, `split`, `join`, `startswith`, and the index searches.
- **Comment**: the three substitutions that clean a comment block.
- **Tags**: the `@module`, `@return` and `@param` readers and the description reader, with their backtracking written out, and the round trip of a tag document.
- **Layout**: the documented block as a header author writes it.
- **Signature**: tokenising a parameter list and zipping it with the `@param` tags.
- **Annotations**: `parse_module_annotations`.
- **Grouping**: the submodule grouping of `generate_pybind11_bind_code`.
- **Binding** and **BindingFacts**: the emitted text and where each part occurs in it. BindingFacts uses **Positions**, which holds the position lemmas.
- **Assignments**: a dictionary filled entry by entry.
- **Project**: `project.py`.
- **Setup**: `setup.py`.
- **Demo**: the `add` header.

## Model

| member | source | states |
|---|---|---|
| Text.Strip | examples/demo/project.py:61 | `str.strip()`: the result is trimmed, and it is the slice between the leading and the trailing whitespace |
| Text.Split | examples/demo/cpp_bind_python.py:267 | `split(sep)` with a one-character separator gives at least one piece, none holding the separator, and joining them with it gives the text back |
| Text.SplitJoin | examples/demo/cpp_bind_python.py:267 | splitting a join of separator-free pieces gives the pieces back |
| Text.IndexOf | examples/demo/project.py:63 | the first occurrence of a character, with none before it, or the length when there is none |
| Text.LastIndexOf | examples/demo/cpp_bind_python.py:122 | the last occurrence of a character, with none after it, or the length when there is none (as `rsplit(' ', 1)` uses it) |
| Text.Lines | examples/demo/project.py:59-61 | the lines of a file, none of which holds a line end |
| Comment.Normalise | examples/demo/cpp_bind_python.py:97-99 | the cleaned comment is single-spaced (only single spaces between words) and trimmed |
| Comment.CollapseSingleSpaced | examples/demo/cpp_bind_python.py:99 | replacing whitespace runs with one space leaves no two whitespace characters adjacent, and the result starts with whitespace exactly when the input does |
| Comment.DocBlockNormalises | examples/demo/cpp_bind_python.py:97-99 | a block written one line per asterisk-led row cleans to its lines joined by single spaces, at any indentation; an empty block cleans to the empty text |
| Tags.ModulePath | examples/demo/cpp_bind_python.py:102-105 | a found module path is non-empty and made only of word characters and dots |
| Tags.Description | examples/demo/cpp_bind_python.py:108-109 | the description is trimmed and on one line |
| Tags.StopIndexStops | examples/demo/cpp_bind_python.py:108 | where the lazy description group ends, one of the stop tags follows after optional whitespace |
| Tags.ReturnDescription | examples/demo/cpp_bind_python.py:112-113 | the return text is trimmed and holds no `@` |
| Tags.ParamTags | examples/demo/cpp_bind_python.py:117 | every `@param` match has a non-empty word name and a trimmed description without `@` |
| Tags.TagModuleRoundTrip | examples/demo/cpp_bind_python.py:102-105 | in a well-formed tag document, the module search finds exactly the module tag's path, and nothing when there is no module tag |
| Tags.TagReturnRoundTrip | examples/demo/cpp_bind_python.py:112-113 | in a well-formed tag document, the return search finds the return tag's text, and the empty text when there is no return tag |
| Tags.TagParamsRoundTrip | examples/demo/cpp_bind_python.py:117 | `findall` gives back every parameter tag of a well-formed document, in order |
| Tags.TagDescriptionRoundTrip | examples/demo/cpp_bind_python.py:108-109 | the description is given back when the first tag after it is one of the stop tags, and is empty when no tag follows |
| Tags.StopListsAreTags | examples/demo/cpp_bind_python.py:108 | the stop lists of functions, classes and methods are lists of tags; functions stop at all three tags, classes at `@param` and `@module` |
| Layout.LaidOutNormalises | examples/demo/main/include/add.hpp:9-15 | a comment written as a description row and one row per tag, at any indentation, cleans to the tag text the readers take apart |
| Signature.SigPair | examples/demo/cpp_bind_python.py:119-124 | a kept fragment gives a trimmed type and a trimmed name without spaces |
| Signature.TokenizeSignature | examples/demo/cpp_bind_python.py:118-124 | the loop builds exactly the pairs of the fragments that are non-empty and hold a space |
| Signature.SigPairOfDeclaration | examples/demo/cpp_bind_python.py:119-124 | a fragment declaring a trimmed type and a word name, with any surrounding whitespace, tokenises to that (type, name) pair |
| Signature.SigPairsOfDeclarations | examples/demo/cpp_bind_python.py:119-124 | a comma-separated list of such declarations tokenises to their pairs, in order |
| Signature.SigPairsBlank | examples/demo/cpp_bind_python.py:119-121 | an empty or whitespace-only parameter list gives no pairs |
| Signature.Zip | examples/demo/cpp_bind_python.py:126-134 | the zip is as long as the shorter of tags and declarations, and the i-th parameter takes its name and description from the i-th tag and its type from the i-th declaration |
| Signature.ZipParams | examples/demo/cpp_bind_python.py:126-134 | the loop that stops when the declarations run out builds exactly that zip |
| Annotations.FunctionRecord | examples/demo/cpp_bind_python.py:93-147 | a function match gives a record exactly when its cleaned comment has a module path; the record is a function record with a non-empty dotted path and the header's file name |
| Annotations.ClassRecord | examples/demo/cpp_bind_python.py:151-230 | a class match gives a record exactly when its cleaned comment has a module path; the record is a class record with that path and the header's file name |
| Annotations.FirstBody | examples/demo/cpp_bind_python.py:170 | the body searched for by name is the first with that name: no earlier body carries it |
| Annotations.FindClassBody | examples/demo/cpp_bind_python.py:170-172 | the search finds a body exactly when one carries the class name, and then it is the first such body |
| Annotations.ParseMethod | examples/demo/cpp_bind_python.py:179-219 | one method match gives the method record built from its cleaned comment and its zipped parameters |
| Annotations.ParseMethods | examples/demo/cpp_bind_python.py:174-219 | the loop gives one method record per method match, in order |
| Annotations.ParseFunction | examples/demo/cpp_bind_python.py:93-147 | one function match gives its record, or nothing when the comment has no module path |
| Annotations.ParseClass | examples/demo/cpp_bind_python.py:151-230 | one class match gives its record, with the methods of the first body of that name |
| Annotations.ParseFunctions | examples/demo/cpp_bind_python.py:92-147 | the first pass keeps the records of the function matches that have one, in match order |
| Annotations.ParseClasses | examples/demo/cpp_bind_python.py:150-230 | the second pass keeps the records of the class matches that have one, in match order |
| Annotations.ParseModuleAnnotations | examples/demo/cpp_bind_python.py:49-235 | the returned list is the function records followed by the class records |
| Annotations.AnnotatedItemsShape | examples/demo/cpp_bind_python.py:103-105 | there are at most as many records as matches; every record has a non-empty dotted module path and the header's file name |
| Annotations.FunctionsBeforeClasses | examples/demo/cpp_bind_python.py:92-150 | no function record comes after a class record |
| Annotations.NoRecordsIffUnannotated | examples/demo/cpp_bind_python.py:103-104 | a header yields no record exactly when no function and no class comment carries a module tag |
| Annotations.OneFunctionHeader | examples/demo/cpp_bind_python.py:92-147 | a header with one function match and no class match yields that function's record, or nothing |
| Annotations.FunctionRecordOfDoc | examples/demo/cpp_bind_python.py:93-147 | a function whose comment is a laid-out tag document with a module tag gets exactly the record of that document: its path, description, return text and parameters zipped with the declaration |
| Annotations.ClassRecordOfDoc | examples/demo/cpp_bind_python.py:151-230 | a class whose comment is a laid-out tag document gets its path and description, and the methods of its first body |
| Grouping.SplitModulePath | examples/demo/cpp_bind_python.py:267-273 | the Python name never holds a dot |
| Grouping.PathOneSegment | examples/demo/cpp_bind_python.py:268-270 | a path without a dot binds at the top level under its own text |
| Grouping.PathSegments | examples/demo/cpp_bind_python.py:271-273 | a path of two or more segments goes to the submodule named by its middle segments, under its last segment |
| Grouping.FirstSeenMembers | examples/demo/cpp_bind_python.py:275-276 | the first-seen order lists every key exactly once and nothing else |
| Grouping.FirstSeenOrder | examples/demo/cpp_bind_python.py:294 | keys appear in the order of their first occurrence |
| Grouping.AddToGroup | examples/demo/cpp_bind_python.py:275-291 | one record extends the grouping of the records before it to the grouping of the records up to it |
| Grouping.GroupBySubmodule | examples/demo/cpp_bind_python.py:265-291 | the groups are keyed by exactly the submodules in first-seen order, and each group holds the function and class entries of exactly its records, in record order |
| Grouping.BucketOrderFirstSeen | examples/demo/cpp_bind_python.py:294 | the submodules are listed without repetition, in the order they first occur, and exactly those of some record |
| Grouping.ItemGrouped | examples/demo/cpp_bind_python.py:278-291 | every function or class record has its entry in the group of its submodule and in no other group |
| Grouping.GroupsCoverItems | examples/demo/cpp_bind_python.py:265-291 | the groups together hold exactly as many entries as there are records |
| Binding.Basename | examples/demo/cpp_bind_python.py:246 | the base name holds no slash and ends the path |
| Binding.BasenameOf | examples/demo/cpp_bind_python.py:246 | a file in a directory has its own name as base name |
| Binding.IncludeOf | examples/demo/cpp_bind_python.py:246-254 | the header is included under its base name, and not at all without a header or with an empty base name |
| Binding.ArgTextEmpty | examples/demo/cpp_bind_python.py:308-311 | the argument list is empty exactly when there are no parameters |
| Binding.ArgumentList | examples/demo/cpp_bind_python.py:308-311 | the loop builds the comma-joined `py::arg` list of the parameters |
| Binding.EmitPrologue | examples/demo/cpp_bind_python.py:245-262 | the file opens with the banner, the optional include and the module macro |
| Binding.EmitChain | examples/demo/cpp_bind_python.py:295-302 | the loop appends one `def_submodule` line per segment of the submodule, each hung on the previous one, and binds the group on the last variable |
| Binding.EmitFunction | examples/demo/cpp_bind_python.py:313-317 | one function adds its comment line and its `def` with the argument list only when there are parameters |
| Binding.EmitFunctions | examples/demo/cpp_bind_python.py:307-317 | the loop appends the text of every function of the group, in order |
| Binding.EmitMethod | examples/demo/cpp_bind_python.py:326-334 | one method adds its `def` on the class handle |
| Binding.EmitMethods | examples/demo/cpp_bind_python.py:325-334 | the loop appends the text of every method of the class, in order |
| Binding.EmitClass | examples/demo/cpp_bind_python.py:321-334 | one class adds its comment line, its `py::class_` handle and its methods |
| Binding.EmitClasses | examples/demo/cpp_bind_python.py:320-334 | the loop appends the text of every class of the group, in order |
| Binding.EmitGroup | examples/demo/cpp_bind_python.py:295-334 | one group adds its chain (none for the top level), its functions, then its classes |
| Binding.EmitGroups | examples/demo/cpp_bind_python.py:294-334 | the loop appends the groups in first-seen order |
| Binding.GenerateBindCode | examples/demo/cpp_bind_python.py:237-340 | the generated file is the prologue, every group in first-seen order, and the closing brace |
| BindingFacts.GroupInCode | examples/demo/cpp_bind_python.py:294-334 | the text of every submodule's group occurs in the generated file |
| BindingFacts.BucketListed | examples/demo/cpp_bind_python.py:275-276 | the submodule of every record gets a group |
| BindingFacts.FunctionBound | examples/demo/cpp_bind_python.py:307-317 | the binding of every function record occurs in the generated file, on the variable of its submodule |
| BindingFacts.ClassBound | examples/demo/cpp_bind_python.py:320-322 | the binding of every class record occurs in the generated file, on the variable of its submodule |
| BindingFacts.MethodBound | examples/demo/cpp_bind_python.py:325-334 | the binding of every method of every class record occurs in the generated file |
| BindingFacts.TargetDeclared | examples/demo/cpp_bind_python.py:298-302 | the variable a submodule's bindings hang on is declared by its chain |
| BindingFacts.BindCodeFrame | examples/demo/cpp_bind_python.py:249-262 | the file starts with the banner, then the include line, then the module macro, and ends with the closing brace |
| Assignments.AssignedKeys | examples/demo/project.py:62-64 | a key is in the filled dictionary exactly when some entry sets it |
| Assignments.AssignedLast | examples/demo/setup.py:49 | the last entry for a key gives its value |
| Assignments.AssignedValue | examples/demo/setup.py:49 | every key of the dictionary has a last entry, and that entry gives its value |
| Assignments.AssignedEvery | examples/demo/setup.py:49 | what holds of every entry holds of every key and value of the dictionary |
| Project.ReadSetting | examples/demo/project.py:61-64 | one line sets the text before its first `=` to the stripped text after it, when it holds `=` and is not a comment; otherwise nothing changes |
| Project.LoadConfig | examples/demo/project.py:55-67 | the settings of the file, a later line for a key replacing an earlier one; an unreadable file gives no settings |
| Project.SettingShape | examples/demo/project.py:62-64 | a key read holds no `=` and does not start with `#`, and its value is trimmed |
| Project.SettingRoundTrip | examples/demo/project.py:61-64 | a line `key=value` with a trimmed key free of `=` and not starting with `#`, and a trimmed value, reads back as that setting |
| Project.ConfigKeys | examples/demo/project.py:55-67 | a key is configured exactly when some line of the file sets it |
| Project.ConfigLast | examples/demo/project.py:55-67 | the last line that sets a key gives its value |
| Project.BuildWhlSetting | examples/demo/project.py:70-72 | a wheel is built exactly when the last line that sets `CONFIG_BUILD_WHL_PACKAGE` sets it to `y` |
| Project.PlatformCmakeArgs | examples/demo/project.py:75-82 | no define exactly when no architecture is enabled; otherwise the single `-D<var>=ON` define of the first enabled architecture, in the order X86, ARM64, RISCV64 |
| Setup.MatchAssignment | examples/demo/setup.py:17 | a match has a non-empty name of word characters and a non-empty value |
| Setup.ReadUrl | examples/demo/setup.py:44-46 | a piece holding `:` maps its trimmed text before the first `:` to the trimmed text after it; otherwise nothing changes |
| Setup.ProjectUrls | examples/demo/setup.py:40-47 | the URL dictionary of the trimmed comma-separated pieces, a later piece for a name winning; empty for an empty value |
| Setup.Convert | examples/demo/setup.py:35-47 | the keyword setting becomes a list, the URL setting a dictionary, every other setting stays text |
| Setup.StoreSetting | examples/demo/setup.py:29-49 | a matched setting is stored under its key with its value unquoted and converted |
| Setup.ReadMkLine | examples/demo/setup.py:21-49 | a line that is not blank or a comment and matches the pattern sets its key to the unquoted, converted value; otherwise nothing changes |
| Setup.ParseMkConfig | examples/demo/setup.py:9-51 | the settings of the file, a later line for a key winning; no configuration when the file is missing |
| Setup.UnquoteWrapped | examples/demo/setup.py:31-32 | a value wrapped in matching single or double quotes loses exactly them |
| Setup.UnquoteKeeps | examples/demo/setup.py:31-32 | unquoting changes a value exactly when it is quoted |
| Setup.MatchAssignmentOf | examples/demo/setup.py:17 | the pattern splits `key=value` back into the name and the value |
| Setup.MkLineRoundTrip | examples/demo/setup.py:21-49 | a line `key=value` with a word-character name and a trimmed, non-empty value reads back as that key with its value unquoted and converted |
| Setup.MkConfigKinds | examples/demo/setup.py:28-49 | every key read is a non-empty name of word characters; a value is a list exactly for the keyword setting and a dictionary exactly for the URL setting |
| Setup.MkConfigKeys | examples/demo/setup.py:9-51 | a key is configured exactly when some line of the file sets it |
| Setup.MkConfigLast | examples/demo/setup.py:9-51 | the last line that sets a key gives its value |
| Setup.KeywordsShape | examples/demo/setup.py:37 | every keyword is trimmed and holds no comma |
| Setup.KeywordsRoundTrip | examples/demo/setup.py:37 | trimmed, comma-free keywords joined with commas read back as themselves |
| Setup.StripAllStripped | examples/demo/setup.py:37 | trimming pieces that are already trimmed changes nothing |
| Setup.UrlEntryOf | examples/demo/setup.py:44-46 | the piece `name:url` maps the name to the URL when the name holds no `:` |
| Setup.UrlRoundTrip | examples/demo/setup.py:40-47 | a single `name:url` entry gives the dictionary with just that URL |
| Setup.MetadataDefault | examples/demo/setup.py:58-61 | a metadata setting no line sets takes its default |
| Setup.MetadataLast | examples/demo/setup.py:58-61 | a metadata setting is the text of the last line that sets it |
| Setup.MetadataDefaults | examples/demo/setup.py:58-67 | with no metadata set the package is `add` 0.1.0 by Tao with the default description, and its library is copied to `add.so` |
| Demo.AddBucket | examples/demo/cpp_bind_python.py:267-272 | the path `add.test.add` of the demo function goes to the submodule `test` under the name `add` |
| Demo.AddSignature | examples/demo/main/include/add.hpp:16 | the parameter list `int a, int b` tokenises to `(int, a)` and `(int, b)` |
| Demo.AddFunctionRecord | examples/demo/main/include/add.hpp:7-16 | the `add` declaration gives the record with path `add.test.add`, its description, return text and both typed parameters |
| Demo.AddHeaderRecords | examples/demo/main/include/add.hpp:7-16 | the demo header yields exactly one record, for `add`, whatever the indentation of its comment rows |

## Left out

- The three declaration patterns are not modelled as regular expressions (examples/demo/cpp_bind_python.py:60-84 and the class-body search at 170-178). A header is given as what they capture: the function matches, the class matches, and every class body with the method matches inside it.
- Tags.ModulePath, Tags.ParamTags and Setup.MatchAssignment: `\w` is read as ASCII letters, digits and `_` (`Text.IsWordChar`), where Python also counts non-ASCII letters and digits. A module path holding such a character is cut short before it, a `@param` tag whose name holds one is not read as Python reads it, and a configuration line such as `CONFIG_É=1`, which Python records, sets nothing in the model (so Setup.MkConfigKinds speaks of ASCII names only).
- The `except Exception` of examples/demo/cpp_bind_python.py:232-233, which returns the records gathered so far when reading or decoding the header fails, is not modelled: the header is given as text, so no read or decode error can arise.
- Whitespace is `str.isspace`; Unicode line separators other than `\n` are not treated as line ends.
- Files are read as strings; opening, writing and the existence checks are not modelled. A missing `setup.py` configuration file is `None`, where the script prints and exits with status 1. An unreadable `project.py` configuration file gives no settings, as the script does after its warning.
- Line ends are `\n` only. The universal-newline handling of `\r` and `\r\n` when Python reads a text file is not modelled.
- Messages printed by the scripts are not modelled.
- The module-level read of `CONFIG_WHL_PACKAGE_NAME` in examples/demo/cpp_bind_python.py:12-35, which picks the header file and the main module name, is not modelled. The main module name and the header path are parameters of `Binding.GenerateBindCode`, and a missing header path is `None`.
- `print_full_item_info`, `main` and the empty stub step of cpp_bind_python.py are not modelled.
- The orchestration in project.py is not modelled: environment and path lookups, `ensure_global_config`, `exec_script`, running CMake and the wheel build.
- The `setup()` call of setup.py and `prepare_package` are not modelled; both only touch the file system and setuptools.
- Grouping.SplitModulePath: the fallback to the record's name for an empty split is not modelled. `split('.')` always returns at least one piece, so that branch cannot run.
- Binding.EmitFunction, Binding.EmitMethod and Binding.EmitClass: names and descriptions are pasted into the C++ text unescaped, as in the source. Nothing is claimed about the generated code being valid C++.
- Setup.MatchAssignment: the pattern's `.` does not match `\n`, and its `$` also matches before a final `\n`. Both only matter for text that still holds a line end; lines are stripped before matching, so neither arises.
- Setup.Setting: returns the default for a value that is not text. By Setup.MkConfigKinds the four metadata keys are always text, so this does not weaken the metadata lemmas.
