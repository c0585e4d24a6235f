# globals_struct: the item walk and tag resolution, in Dafny

`#[globals_struct] mod Globals { ... }` is a Rust attribute macro. It walks
the module's items in order. Each `static` tagged
`#[globals_struct_field(Globals)]` becomes a field of a struct named
`Globals`, and the static's initializer becomes that field's value in an
`impl Default for Globals`. An item-position `include!("file")` is replaced
by the items of that file, walked the same way. This project models that
walk, the tag lookup on each static, and the shape of the struct that the
macro emits. It then proves what the walk promises: source order, fail-fast
errors, include splicing, and fields and defaults that line up.

Files and modules:

- `wrappers.dfy` (`Wrappers`): `Option` and `Result`.
- `syntax.dfy` (`Syntax`): the part of the `syn` tree the macro looks at, plus `syn::Path::get_ident`.
- `field_tag.dfy` (`FieldTag`): `get_path_last_ident`, `get_meta_sole_path` and `globals_struct_field_attr_target`.
- `scanner.dfy` (`Scanner`): the walk as functions (`ScanItem`, `ScanItems`) and the lemmas about it.
- `process.dfy` (`Process`): the imperative walk `recursive_process_items`.
  The four caller-owned vectors are modelled as the class `FieldColumns`.
- `globals_struct.dfy` (`GlobalsStructMacro`): the macro entry point and the emitted struct and `Default` impl, as a value.

Two things the macro does through foreign code become inputs:

- Reading a file and parsing it as Rust becomes a map from path to `SourceFile`.
  A path missing from the map is a read error, and `Unparsable` is a parse error.
- The results of `Attribute::parse_meta` and of `parse_body::<LitStr>()` are carried on the attribute and on the macro item.

The macro has no guard against include cycles. The model therefore bounds
include nesting by a `fuel` parameter. An include that would descend with
no fuel left fails with `IncludeDepthExceeded`, an error the macro does not
have. `ScanItemsFuel` shows that any walk which does not run out of fuel
gives the same result with more fuel, so it is the result of the unbounded
walk. `IncludeCycleExhausts` covers files that include one another in a
cycle, a file including itself being the cycle of length one. When each
file reaches the include of the next without first failing or collecting a
field, the walk runs out of every fuel. The macro itself would recurse
without end on such files.

Behaviours of the macro worth knowing:

- The tag's argument may be any path. `a::b` selects target `b`.
- src/lib.rs:150 yields no target for a target path whose last segment has generic arguments (`G<T>`).
  src/lib.rs:86 then drops the static without an error (`TargetWithArgumentsIgnored`).
  `syn`'s `parse_meta` itself does not build such a nested path, so this case arises only because the model takes the parsed meta as an input.
- Only a macro whose path is exactly the one identifier `include` is an include.
  `std::include!` and `::include!` are ignored.
- The include path is used as written. It is not resolved against the including file.

## Model

| member | source | states |
|---|---|---|
| Syntax.GetIdent | src/lib.rs:96-100 | a path yields identifier `id` exactly when it is the plain one-segment path `id`, so only a macro named by the bare identifier `include` can be an include |
| FieldTag.PathLastIdent | src/lib.rs:169-176 | the result is `id` exactly when the path ends in a segment `id` without generic arguments; an empty path or a last segment with arguments gives none |
| FieldTag.MetaSolePath | src/lib.rs:153-167 | the result is `p` exactly when the meta has the form `#[attr(p)]`, a list with one bare path; every other shape gives none |
| FieldTag.FieldTagsMembers | src/lib.rs:122-133 | every attribute kept as a tag is an attribute of the static whose path ends in `globals_struct_field` |
| FieldTag.FieldTagsNone | src/lib.rs:122-133 | no attribute is kept exactly when no attribute of the static is a tag, the case where `found_attr` stays empty |
| FieldTag.FieldTagsTwo | src/lib.rs:122-133 | two or more attributes are kept exactly when two distinct attributes of the input are tags, the condition the duplicate check at line 125 detects |
| FieldTag.FieldTagsSole | src/lib.rs:122-133 | when exactly one attribute is a tag, that attribute alone is kept, as the one `found_attr` holds after the loop |
| FieldTag.TagTarget | src/lib.rs:140-150 | an unparsable tag is an error; a tag not of the form `#[globals_struct_field(p)]` is the malformed-tag error; a tag of that form yields the last identifier of `p`, possibly none |
| FieldTag.FieldTarget | src/lib.rs:117-151 | no tag gives no target; the duplicate-tag error comes exactly when two distinct attributes are tags; a sole tag's answer is exactly `TagTarget` of that tag; a target found comes from a well-formed tag on the static |
| FieldTag.FindTag | src/lib.rs:121-134 | the attribute loop stops on a second tag exactly when two or more attributes are tags, and otherwise ends holding the one tag, if any |
| FieldTag.FindFieldTarget | src/lib.rs:117-151 | the loop that remembers the tag seen so far and returns at the second one, followed by reading the target, computes exactly `FieldTarget` |
| Scanner.ScanItem | src/lib.rs:75-112 | reference definition of one loop iteration: a static tagged for the module yields its field, a tag error stops the walk, `include!` reads, parses and walks the file one level deeper, failing at the first of these steps that fails, and anything else has no effect |
| Scanner.ScanItems | src/lib.rs:64-115 | reference definition of the walk: items are walked left to right, their fields concatenated in order, and the first error ends the walk |
| Scanner.ScanItemsAppend | src/lib.rs:74-114 | walking `a + b` is walking `a` and then, only if that succeeded, `b`: fields stay in source order and the first error ends the walk |
| Scanner.NoIncludeScan | src/lib.rs:74-93 | without includes the walk succeeds exactly when every static's tag lookup succeeds, and then collects exactly the statics tagged for the module, in source order |
| Scanner.TargetWithArgumentsIgnored | src/lib.rs:86-87 | a static tagged with a target path ending in generic arguments contributes nothing and raises no error |
| Scanner.InertItemIgnored | src/lib.rs:84-112 | untagged statics, statics tagged for another target, macros other than `include!` and other items can be removed without changing the walk's fields or outcome |
| Scanner.FailFast | src/lib.rs:85-110 | once an item fails, the walk ends with that item's error and the fields pushed before it, whatever follows |
| Scanner.IncludeSpliced | src/lib.rs:96-110 | an `include!` of a readable, parseable file contributes, at its own position, the walk over that file's items |
| Scanner.IncludeSubstituted | src/lib.rs:96-110 | when fuel suffices, walking items with an `include!` equals walking them with the file's items pasted in its place |
| Scanner.ScanItemFuel | src/lib.rs:106-110 | an item whose walk does not run out of include fuel gives the same result with any larger fuel |
| Scanner.ScanItemsFuel | src/lib.rs:106-110 | a walk that does not run out of include fuel gives the same result with any larger fuel, so the bound does not alter it |
| Scanner.IncludeCycleExhausts | src/lib.rs:102-110 | files that include one another in a cycle, each reaching the next include without first failing or collecting anything, exhaust every fuel: the bounded form of the macro's endless recursion, a self-include being the cycle of length one |
| Process.FieldColumns.constructor | src/lib.rs:31-34 | the four vectors start empty and of equal length |
| Process.FieldColumns.Push | src/lib.rs:88-91 | one push to each of the four vectors appends one whole row and keeps their lengths equal |
| Process.ProcessItem | src/lib.rs:75-112 | one iteration of the loop appends exactly the item's fields to the vectors and returns exactly the item's error |
| Process.ProcessItems | src/lib.rs:64-115 | the walk keeps what the vectors held as an unchanged prefix, appends exactly the fields of `ScanItems`, including those pushed before an error, and returns exactly its error |
| GlobalsStructMacro.Emit | src/lib.rs:48-60 | the struct has the module's visibility and name, and its fields and the `Default` initializers list the collected names in the same order |
| GlobalsStructMacro.EmitRoundTrip | src/lib.rs:48-60 | every collected static's visibility, name, type and initializer can be read back from the emitted struct and `Default` impl, in order |
| GlobalsStructMacro.Synthesize | src/lib.rs:13-62 | a module without content is the missing-content error; otherwise the result is an error exactly when the walk fails, and the error emitted is the walk's own; on success the struct's fields and `Default` initializers give back exactly the walk's fields in order, field names and initializer names agreeing |
| GlobalsStructMacro.GlobalsStruct | src/lib.rs:13-62 | the macro entry point, with four fresh vectors and the walk, computes exactly `Synthesize` |
| GlobalsStructMacro.NoIncludeModule | src/lib.rs:20-60 | a module with no includes and well-formed tags expands to the struct of exactly its statics tagged with the module's own name, in source order |

## Left out

- Token machinery: `proc_macro::TokenStream`, `parse_macro_input!` and the `quote!` output.
  The output is the `Generated` value: ordered struct fields and `Default` initializers.
- `std::fs::read_to_string` and `syn::parse_file` are file I/O and a foreign parser.
  They are the `FileSystem` map.
- `Attribute::parse_meta` and `Macro::parse_body::<LitStr>` are `syn` parsing.
  Their results are given on the attribute and on the macro item.
- Spans and the text of error messages: an error is a variant of `Error` naming its cause.
- `globals_struct_field` (src/lib.rs:7-10) returns an empty token stream and has no logic.
- Other parts of items: a static's `mut` flag, attributes on macro items and attributes on the module are not looked at.
  Types and initializer expressions are opaque token text.
- `ScanItem`, `ScanItems`, `ProcessItems`, `GlobalsStruct`: include nesting is bounded by `fuel`, because the unbounded recursion on include cycles cannot be modelled as a terminating function. The fuel lemmas above relate the bounded walk to the unbounded one.
- Identifiers are compared as strings, as `syn::Ident` equality does. Raw identifiers (`r#name`) are not treated specially.
