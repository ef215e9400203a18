# php-gtk binding generator: the marshalling core, modelled in Dafny

This project models the core of the php-gtk code generator. The generator
reads `.defs` files, which describe a GTK interface as parenthesised records,
and emits the C glue that moves each argument and return value between PHP
and GTK. The model covers three parts.

- **Names and declarations** (`generator/arg_types.php`):
  - `convert_typename` splits a type name at its capitals and joins the pieces upper-case with `_`.
  - `enum_name` derives the `GTK_TYPE_*` name from that result.
  - `Var_List` collects C declarations, grouped by C type.
- **Argument strategies** (`generator/arg_types.php`):
  - Each `*_Arg` class is one variant of `ArgTypes.ArgType`.
  - `write_param` appends declarations, `zend_parse_parameters` entries, call arguments and extra conversion code to the lists its caller passes by reference. It is modelled as a pure function from one `Ctx` (those lists) to the next.
  - `write_return` yields a one-`%s` `sprintf` template, `null`, or an abort.
  - `Arg_Matcher` is a map from type descriptors to strategies. The default registrations are replayed into it.
- **Reading and dispatching `.defs` files** (`generator/scheme.php`):
  - `parse` turns lines of text into a tree of atoms and lists.
  - `Defs_Parser::handle` routes each top-level record through the translation table and `method_exists` to a handler, and expands `include` in place.
  - `find_methods`, `find_constructor` and `find_parent` are linear scans over the registries.

## Modules

- `common.dfy` (module `Common`): PHP `null`, truthiness, loose `==`, `strtoupper`, `implode`, `strpos`, a one-`%s` template.
- `type_names.dfy` (module `TypeNames`): `convert_typename`, `enum_name`.
- `var_list.dfy` (module `VarLists`): `Var_List`.
- `arg_types.dfy` (module `ArgTypes`): every `*_Arg` strategy: `write_param`, `write_return`.
- `arg_matcher.dfy` (module `ArgMatcher`): `Arg_Matcher`, the default registrations.
- `reader.dfy` (module `Reader`): `parse`.
- `defs_parser.dfy` (module `DefsParser`): `Defs_Parser`: `handle`, the handlers, `start_parsing`, the three `find_*` scans.

### Behaviour of the code worth knowing

The model follows the code in each of these cases.

- **Constructors:** `find_constructor` keeps overwriting its result. The last matching constructor wins, not the first.
- **Parents:** `find_parent` does the same, so the last matching parent wins.
- **Translation table:** it maps digits to `_` as well as punctuation. Only `[a-zA-Z_]` survive.
- **Numbers:** the numeric branch of `parse` is dead. `strpos` is called with its arguments swapped (`strpos($line{0}, '0123456789')`), so the needle is longer than the one-character haystack. Numbers are therefore read as symbols, and no number atom is ever produced.
- **Includes:** an `include` resolves against the directory of the top-level file, not the directory of the file that holds it. `start_parsing` feeds the included tree through the same parser object, whose `file_path` never changes.
- **Unterminated strings:** an unterminated string is pushed once and then its text is scanned again. `strpos` fails, so `substr($line, 1, -1)` is pushed and scanning resumes at the second character.

## Model

| member | source | states |
|---|---|---|
| Common.IndexOf | generator/scheme.php:23 | `strpos` with a one-character needle: the position found holds the character and none before it does; the result is `false` exactly when the character is absent |
| Common.StrposLongerNeedle | generator/scheme.php:26 | a needle longer than the haystack is never found |
| TypeNames.MatchLength | generator/arg_types.php:11 | one match of `[A-Z]{1,2}[^A-Z]*`: 1 to 2 capitals, then no capital until the next match starts; a one-character match only at the end of the text |
| TypeNames.MatchesAreGreedySplit | generator/arg_types.php:11 | the matches from the first capital onward concatenate back to the text and form a greedy split into segments |
| TypeNames.GreedySplitIsUnique | generator/arg_types.php:11 | any greedy split of a text into segments is exactly the list of matches: the split is determined by the text |
| TypeNames.SkipToUpper | generator/arg_types.php:11 | matching starts at the first capital: the text before it holds no capital and is dropped |
| TypeNames.ConvertTypenameBySplit | generator/arg_types.php:9-13 | `convert_typename` is `_` followed by the upper-cased greedy segments joined with `_` |
| TypeNames.ConvertTypenameShape | generator/arg_types.php:12 | a converted name starts with `_` and holds no lower-case letter |
| TypeNames.EnumName | generator/arg_types.php:19-26 | the result starts with `GTK_TYPE`; a converted name longer than 4 characters that starts with `_GTK` loses that prefix, and any other name is appended whole |
| TypeNames.ConvertGtkWidget | generator/arg_types.php:9-13 | `GtkWidget` converts to `_GTK_WIDGET` |
| TypeNames.ConvertFooBar | generator/arg_types.php:9-13 | `FooBar` converts to `_FOO_BAR` |
| TypeNames.EnumNameGtkWidget | generator/arg_types.php:19-23 | `GtkWidget` gives `GTK_TYPE_WIDGET` |
| TypeNames.EnumNameFooBar | generator/arg_types.php:24-25 | a name outside the Gtk namespace keeps its whole converted form: `GTK_TYPE_FOO_BAR` |
| TypeNames.EnumNameBareGtk | generator/arg_types.php:22 | `_GTK` alone is not longer than 4 characters, so `Gtk` gives `GTK_TYPE_GTK` |
| TypeNames.EnumNameGluedMarker | generator/arg_types.php:22-23 | the prefix test does not require a segment boundary: `Gtkfoo` gives `GTK_TYPEFOO` |
| VarLists.Add | generator/arg_types.php:35-38 | `add` appends the name under its C type; a new type opens a group at the end and a known type keeps its place; other types' names are unchanged; one group per type, none empty; one more declaration |
| VarLists.AddToTypes | generator/arg_types.php:37 | PHP array keys keep insertion order: the type list grows by the type only when the type is new |
| VarLists.AddToOthers | generator/arg_types.php:37 | appending under one type leaves every other type's names alone |
| VarLists.FromLogGroups | generator/arg_types.php:32-38 | after any sequence of `add` calls: types in first-seen order, each type's names in call order with duplicates, as many declarations as calls |
| VarLists.ToStringFromLog | generator/arg_types.php:40-50 | `to_string` equals an independent rendering of the `add` calls: for each type in first-seen order, a tab, the type, the names joined by `", "` and `";\n"`; then a closing newline |
| VarLists.ToStringEmptyIff | generator/arg_types.php:45-49 | `to_string` is empty exactly when nothing was added |
| VarLists.RenderTwo | generator/arg_types.php:43-47 | two groups render as their two lines followed by one blank line |
| VarLists.ToStringGroupsInterleaved | generator/arg_types.php:35-50 | `int x`, `char z`, `int y=2` render as `"\tint x, y=2;\n\tchar z;\n\n"`: a later declaration joins its type's earlier line |
| ArgTypes.AddAllNames | generator/arg_types.php:35-38 | a run of `add` calls appends, under each type, exactly the names declared with that type, in order |
| ArgTypes.Init | generator/arg_types.php:161-164 | a default is written as an initialiser exactly when it is truthy, so `""` and `"0"` count as absent |
| ArgTypes.StringInit | generator/arg_types.php:82-87 | a string default of `NULL` is written bare and any other default quoted; a falsy default gives no initialiser |
| ArgTypes.StringParam | generator/arg_types.php:79-92 | `String_Arg::write_param` declares `char *name` with its initialiser, parses `&name` with spec `s`, and passes `name` |
| ArgTypes.RefParam | generator/arg_types.php:117-192 | `StringRef_Arg::write_param` and `IntRef_Arg::write_param` declare a `zval` holder, parse it with spec `V` and parse type `F`, add the one statement `<converter>(php_<name>);` that converts it in place, and pass the cast address of its string or long value |
| ArgTypes.CharInit | generator/arg_types.php:138-141 | there is no initialiser exactly when the default is falsy; a truthy default `d` gives ` = '` then `d` then `'` |
| ArgTypes.CharParam | generator/arg_types.php:135-146 | `Char_Arg::write_param` declares `char name`, parses `&name` with spec `c`, and passes `name` |
| ArgTypes.ScalarParam | generator/arg_types.php:157-226 | the `int`, `bool` and `double` strategies declare one variable with its default, parse `&name` with their spec, and pass `($type)$name` when the strategy casts, else the bare `name` |
| ArgTypes.ScalarArguments | generator/arg_types.php:157-226 | `Int_Arg` and `Bool_Arg` pass the parameter cast to its own type, `($type)$name`; `Double_Arg` passes the bare name |
| ArgTypes.LookupParam | generator/arg_types.php:234-292 | `Enum_Arg` and `Flags_Arg` declare the C variable and a `zval` holder, parse the holder with spec `V`, pass `name`, and add the one statement `<getter>(<GTK_TYPE_* name>, php_<name>, (gint *)&<name>);` that calls the getter, reads the holder and writes through `&name` |
| ArgTypes.LookupGetters | generator/arg_types.php:234-292 | `Enum_Arg` resolves its holder with `php_gtk_get_enum_value` and `Flags_Arg` with `php_gtk_get_flag_value`, each against `enum_name` of its own type |
| ArgTypes.ObjectParam | generator/arg_types.php:310-353 | `Object_Arg::write_param` uses spec `N` when null is allowed and `O` otherwise, and always parses against the object's lower-cased class entry. With null allowed or a truthy default, it declares the object pointer (initialised to the default, else to `NULL`) and a `zval` holder, passes `name` and adds one statement; with null allowed and no default, that statement opens with the `IS_NULL` guard. With neither, it declares only the `zval`, adds nothing, and passes the cast extraction |
| ArgTypes.RectParam | generator/arg_types.php:364-378 | `Rect_Arg::write_param` declares the struct type minus its `*`, parses the four fields `x`, `y`, `width`, `height` with spec `iiii`, and passes `&name` |
| ArgTypes.BoxedParam | generator/arg_types.php:389-397 | `Boxed_Arg::write_param` declares `zval *name` and pushes two parse entries, `&name` and the class entry, but no parse type; it passes the `PHP_*_GET` accessor |
| ArgTypes.ParamEmissionShape | generator/arg_types.php:57-62 | exactly `None_Arg` and `Atom_Arg` inherit the aborting abstract `write_param`; every other strategy passes one argument naming the parameter, declares that name first, and keeps parse types in step with parse entries (4 for `Rect_Arg`), except `Boxed_Arg`, which adds 2 entries and no type |
| ArgTypes.WriteParam | generator/arg_types.php:58-62 | `write_param` on the by-reference lists: it aborts exactly for `None_Arg` and `Atom_Arg`; otherwise it only appends to each list, with 1 or 2 declarations, 1 call argument and at most 1 extra statement |
| ArgTypes.FalsyDefaultIsAbsent | generator/arg_types.php:161 | PHP truthiness: every strategy emits the same code for a default of `""` or `"0"` as for no default |
| ArgTypes.ReturnPiecesKind | generator/arg_types.php:129-131 | `StringRef_Arg` and `IntRef_Arg` override `write_return` with an empty body, so exactly they return `null`; exactly `Rect_Arg` and `Atom_Arg`, which do not override it, abort |
| ArgTypes.ReturnPiecesDecls | generator/arg_types.php:94-402 | the string, char, object and boxed returns declare exactly one holder, named `*ret` (`ret[2]` for a char), which the templates then fill; the others declare none |
| ArgTypes.ReturnPiecesPercent | generator/arg_types.php:399-404 | only a boxed strategy's PHP type name can bring a `%` of its own into a return template |
| ArgTypes.WriteReturn | generator/arg_types.php:64-67 | `write_return` aborts exactly for `Rect_Arg` and `Atom_Arg` and is `null` exactly for the reference strategies; every template has exactly one `%s` unless a boxed PHP type name contains `%`; the holder is declared on the list |
| ArgTypes.TwoPercents | generator/arg_types.php:402-403 | a `%` after the placeholder means the template no longer has exactly one |
| ArgTypes.StringReturnFreesOwned | generator/arg_types.php:94-113 | a string return frees `ret` with `g_free` exactly when the C type is not a borrowed `const` string |
| ArgTypes.ObjectReturnFilled | generator/arg_types.php:355-360 | the object return template, filled by `sprintf`, wraps the call expression between the fixed prefix and suffix, and declares `zval *ret` |
| ArgMatcher.Register | generator/arg_types.php:413-416 | `register` makes `get` of the type return the handler and leaves every other key alone; a `null` type is the key `""` |
| ArgMatcher.Lookup | generator/arg_types.php:441-444 | `get` returns the registered handler, or `null` for a key never registered |
| ArgMatcher.RegisterEnum | generator/arg_types.php:418-421 | `register_enum` binds the type to an `Enum_Arg` of that type and nothing else |
| ArgMatcher.RegisterFlag | generator/arg_types.php:423-426 | `register_flag` binds the type to a `Flags_Arg` of that type and nothing else |
| ArgMatcher.RegisterObject | generator/arg_types.php:428-433 | `register_object` binds both the type and the type with `*` to one `Object_Arg` |
| ArgMatcher.RegisterBoxed | generator/arg_types.php:435-439 | `register_boxed` binds only the pointer type `type*` to a `Boxed_Arg`; the bare type is untouched |
| ArgMatcher.Perform | generator/arg_types.php:413-439 | one registration binds each of its keys to its handler and leaves all other keys alone |
| ArgMatcher.ReplayLookup | generator/arg_types.php:413-416 | after a run of registrations, a key maps to the handler of its last registration; a key never registered keeps its earlier binding |
| ArgMatcher.UnregisteredIsNull | generator/arg_types.php:441-444 | `get` on a key that no registration names returns `null` |
| ArgMatcher.DefaultMatcherLookup | generator/arg_types.php:447-510 | the default registrations yield the table: `null` and `none` map to `None_Arg`; the eight string types to `String_Arg`; and so on for each group; the three boxed pointer types map to `Boxed_Arg`; every other key maps to `null` |
| ArgMatcher.DefaultNullType | generator/arg_types.php:449-450 | `get(null)` finds `None_Arg` |
| ArgMatcher.DefaultConstString | generator/arg_types.php:457 | `const-gchar*` is a string |
| ArgMatcher.DefaultGtkTypeIsInt | generator/arg_types.php:489 | `GtkType` is handled as an integer |
| ArgMatcher.DefaultIntPointerIsReference | generator/arg_types.php:492 | `gint*` is an integer reference |
| ArgMatcher.DefaultBoxedEvent | generator/arg_types.php:508 | `GdkEvent*` is boxed with PHP type `gdk_event` |
| ArgMatcher.DefaultBareBoxedIsNull | generator/arg_types.php:435-439 | `register_boxed` registers only the pointer, so the bare `GdkEvent` is unknown |
| ArgMatcher.DefaultTemplatesHaveOnePlaceholder | generator/arg_types.php:447-510 | for every type the default registrations know, a `write_return` template has exactly one `%s` |
| Reader.LTrim | generator/scheme.php:14 | `ltrim` drops exactly the leading whitespace: the dropped prefix is all blanks and what remains starts with none |
| Reader.ScanLine | generator/scheme.php:14-39 | scanning a line only appends to the root list |
| Reader.Parse | generator/scheme.php:41-43 | the tree is returned exactly when the lines scan with every parenthesis closed; a `)` with nothing open is the unmatched-close error |
| Reader.NumericBranchDead | generator/scheme.php:26 | `strpos($line{0}, '0123456789')` is false for every character, so the numeric branch never runs |
| Reader.ScanBlank | generator/scheme.php:14 | leading whitespace is skipped |
| Reader.OpenStep | generator/scheme.php:15-17 | `(` opens a new list |
| Reader.CloseStep | generator/scheme.php:18-21 | `)` closes the innermost list into its parent; with only the root open it is the unmatched-close error |
| Reader.CommentStep | generator/scheme.php:31-32 | `;` discards the rest of the line |
| Reader.QuoteStep | generator/scheme.php:22-25 | a quoted string up to the next `"` is pushed without its quotes and scanning resumes after the closing quote |
| Reader.UnterminatedStep | generator/scheme.php:22-25 | with no closing quote, the line without its first and last characters is pushed and scanning resumes at the second character |
| Reader.SymbolStep | generator/scheme.php:33-38 | any other character starts a symbol that runs up to the first of ` \t();\n\r` |
| Reader.QuotedToken | generator/scheme.php:22-25 | a quoted text without quotes reads back as one atom |
| Reader.SymbolToken | generator/scheme.php:33-38 | a symbol followed by a delimiter reads back as one atom |
| Reader.ScanPrint | generator/scheme.php:14-39 | printing any tree of atoms and lists and scanning the text pushes that tree |
| Reader.ScanSeq | generator/scheme.php:14-39 | printing a sequence of trees separated by blanks and scanning it pushes them in order |
| Reader.RoundTrip | generator/scheme.php:10-44 | `parse` of a printed sequence of trees written on one line returns exactly those trees |
| Reader.ScanToks | generator/scheme.php:14-39 | scanning tokens written with blanks between them does exactly what the tokens do, in order: `(` opens a list, `)` closes one or is the unmatched-close error, an atom is appended |
| Reader.ParseTokenLines | generator/scheme.php:13-40 | the stack carries over from one `fgets` line to the next, so lines of printed tokens read as all their tokens in order |
| Reader.LineBreaksIrrelevant | generator/scheme.php:10-44 | breaking the same tokens into lines differently never changes what `parse` returns |
| Reader.RunTrees | generator/scheme.php:15-21 | the `(`, atoms and `)` a printer writes for a sequence of trees push exactly those trees |
| Reader.MultiLineRoundTrip | generator/scheme.php:10-44 | printed trees spread over any number of lines, broken at any blank between tokens, so that one record spans several lines, parse back to exactly those trees |
| Reader.NumbersAreSymbols | generator/scheme.php:26-38 | a token starting with a digit is read as a symbol, not a number |
| Reader.UnclosedList | generator/scheme.php:41-43 | an unclosed `(` leaves the stack deeper than one: the mismatch notice, with the root returned as it stands |
| Reader.StrayClose | generator/scheme.php:18-20 | a `)` before any `(` is the unmatched-close error |
| Reader.FalsyLineStops | generator/scheme.php:13 | a line that is just `"0"` is falsy and ends reading: later lines are ignored |
| Reader.CommentLine | generator/scheme.php:31-32 | a comment line contributes nothing |
| Reader.UnterminatedStringReadTwice | generator/scheme.php:22-25 | an unterminated `"abc` yields the atom `abc` twice: once from the failed quote and once from rescanning |
| Reader.ParseStep | generator/scheme.php:13-14 | each truthy line is scanned on the stack the previous line left |
| DefsParser.Translate | generator/scheme.php:5-8 | the translation table keeps `[a-zA-Z_]` and turns every other character into `_`, digits included |
| DefsParser.TranslateIrrelevant | generator/scheme.php:91-92 | for a lower-case handler word, translation does not change which keyword selects it |
| DefsParser.KindOf | generator/scheme.php:91-95 | `method_exists` is case-insensitive: a keyword selects a handler exactly when it spells that handler's word in any case |
| DefsParser.AddEnum | generator/scheme.php:98-110 | `handle_enum` and `handle_flags` append the record to the enums and its C name to the name list, and nothing else |
| DefsParser.AddFunction | generator/scheme.php:112-120 | `handle_function` appends to the constructors when `is_constructor_of` is set and to the functions otherwise; it always appends the C name |
| DefsParser.AddMethod | generator/scheme.php:122-127 | `handle_method` appends to the methods and the C names |
| DefsParser.AddObject | generator/scheme.php:129-134 | `handle_object` appends to the objects and the C names |
| DefsParser.WellFormedCount | generator/scheme.php:55 | the C-name list holds exactly one entry per record |
| DefsParser.Handle | generator/scheme.php:86-96 | `handle` only appends to the registries and keeps one C name per record |
| DefsParser.StartParsing | generator/scheme.php:78-84 | `start_parsing` only appends, and keeps one C name per record |
| DefsParser.UnknownKeywordIgnored | generator/scheme.php:144-147 | a node whose keyword has no handler changes nothing |
| DefsParser.AtomNodeIgnored | generator/scheme.php:91 | a bare atom dispatches on its first character, which names no handler, so it changes nothing |
| DefsParser.RecordNodeAppendsOne | generator/scheme.php:98-134 | a record keyword adds exactly one record, built from `array_slice($node, 1)` by that keyword's handler, to the registry the keyword selects (`enum` and `flags` to `enums`, `method` to `methods`, `object` to `objects`, `function` to `constructors` or `functions`), with its C name appended to `c_name` and every other registry unchanged |
| DefsParser.IncludeFreeCount | generator/scheme.php:78-84 | without includes, a pass adds one record and one C name per record node |
| DefsParser.StartParsingAppend | generator/scheme.php:82-83 | parsing two trees in a row equals parsing their concatenation: an include's nodes are handled where the include stands |
| DefsParser.PassWellFormed | generator/scheme.php:98-134 | a completed pass from empty registries keeps one C name per record |
| DefsParser.KeywordCaseIgnored | generator/scheme.php:92 | `OBJECT` reaches `handle_object` |
| DefsParser.PrefixedKeywordIgnored | generator/scheme.php:91-95 | `define-object` becomes `handle_define_object`, which does not exist, so the node is ignored |
| DefsParser.MethodsForMembers | generator/scheme.php:149-160 | a method is in an object's list exactly when it is registered and its `of_object` equals the object's name and module |
| DefsParser.FindMethods | generator/scheme.php:149-160 | `find_methods` returns the matching methods in registration order: a method is in the result exactly when it is registered and matches |
| DefsParser.LastConstructorNone | generator/scheme.php:162-172 | no constructor is found exactly when none names the object or `Gtk` + the object |
| DefsParser.LastConstructorIsLast | generator/scheme.php:162-172 | a constructor that is found matches, and no later constructor matches |
| DefsParser.FindConstructor | generator/scheme.php:162-172 | `find_constructor` returns the last matching constructor, or `null` exactly when none matches |
| DefsParser.LastParentNone | generator/scheme.php:174-184 | no parent is found exactly when no object's name loosely equals the parent name |
| DefsParser.LastParentIsLast | generator/scheme.php:174-184 | a parent that is found matches, and no later object matches |
| DefsParser.FindParent | generator/scheme.php:174-184 | `find_parent` returns the last object whose name loosely equals the parent name, or `null` exactly when none does |
| DefsParser.LaterConstructorWins | generator/scheme.php:166-169 | of two matching constructors, the later one is returned |
| DefsParser.GtkPrefixedConstructor | generator/scheme.php:167 | an object named `Button` finds the constructor of `GtkButton` |
| DefsParser.NullParentMatchesNullName | generator/scheme.php:179 | loose `==`: an object without a parent matches an object without a name |

## Left out

- **I/O:** `fopen`, `fgets` and `print` are not modelled. `parse` takes the file's lines, and a pass takes a loader that maps an include path to its parsed tree.
- **Line length:** the 4096-byte `fgets` limit is not modelled. A line is read whole.
- **Numbers:** the `(double)` conversion in `parse` is not modelled. Its branch is dead (`Reader.NumericBranchDead`).
- **Unmatched `)`:** after an unmatched `)`, PHP keeps going on a stack that has lost its root. The model stops with the explicit `UnmatchedClose` result instead.
- **Unclosed lists:** the `trigger_error` notice for unclosed lists is the `Mismatched` result, which carries the root list that `parse` returns.
- **Loose `==`:** PHP's loose `==` between two numeric strings (`"1" == "01"`) is not modelled. Names are compared as text, with `null` read as `""`.
- **`get` by reference:** `&get` on a missing key creates a `null` entry as a side effect. The model only returns `null`.
- **Include depth:** `include` recursion carries fuel. A pass that exhausts it returns `OutOfFuel`, while PHP would recurse without bound on a cyclic include.
- **Record extraction:** the record constructors (`Enum_Def`, `Function_Def`, `Method_Def`, `Object_Def`, `Flag_Def`) are not part of this model. They are parameters (`DefsParser.Builders`), and each record keeps only the fields the dispatcher and the scans read.
- **Constructor argument types:** the `Defs_Parser` constructor's error for an argument that is neither a file name nor an array is not modelled. A parser is built from a file path or from a tree.
- **Other files:** the generator driver and `main/php_gtk.h` are not part of this model.
- **Characters:** strings are sequences of characters. `strtoupper`, `ltrim` and the character classes are the ASCII, C-locale ones.
- **Return templates:** `write_return` strings are modelled as text with exactly one `%s`. The `sprintf` that fills them is done by the generator driver, and it appears here only as `Common.Fill`.
- Reader.ScanLine: states only that scanning extends the root list; the exact tokens are stated step by step in the `*Step` lemmas.
- ArgTypes.ObjectParam: states the spec, the guard and the fetch statement's presence, but not the full text of the C code it emits.
- Reader.MultiLineRoundTrip: covers atoms that can be written on a line, meaning symbol-safe atoms or atoms free of `"` and newline. A quoted atom holding a newline cannot survive `fgets` splitting the line.
