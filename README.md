# fn_abi: the `#[abi]` attribute, modelled in Dafny

`fn_abi` is a procedural attribute macro. It rewrites the calling-convention
marker (`extern "X"`) of one declaration, in one of two ways:

- It takes the ABI name straight from a literal: `#[abi("C")]`.
- It takes it from a table of target shortcuts: `#[abi(linux64 = "C", win64 = "stdcall")]`.
  The first shortcut that denotes the platform supplies the name.

This project models the whole logic of `src/lib.rs` in three parts.

- **Target matcher** (`target.dfy`, module `Target`). It holds the ordered
  table of eleven shortcuts, each guarded by a condition on an OS and a
  pointer width. The conditions are evaluated when the macro crate itself is
  compiled. A procedural macro is compiled for the host, so when
  cross-compiling they describe the host, not the target of the crate that
  uses `#[abi]`. The model makes that platform an explicit `Platform` value
  `p`. The crate refuses to build when no table entry is compiled in; the
  model states this as the precondition `Supported(p)`.
- **Declarations** (`syntax.dfy`, `items.dfy`, modules `Syntax` and `Items`).
  The model has five declaration kinds: `ItemFn`, `TypeBareFn`,
  `ItemForeignMod`, `ItemStatic` and `ItemType`. It covers where each kind
  keeps its marker (`MarkerOf`) and how the marker's name is rewritten
  (`WithAbiName`). It also covers the order in which the kinds are tried
  (`Classify`) and the borrowed-or-detached marker handle (`MaybeMutableAbi`).
  The boxed declaration that the macro updates in place is the class
  `Item`, with methods `GetAbi` and `SetAbi`.
- **The attribute** (`macro.dfy`, module `Macro`). `Expansion` and `Rewrite`
  are the specification as functions. `AbiMacro` is the attribute as the
  source writes it: a loop that consumes the argument tokens one by one and
  updates the `Item` in place. It is proved equal to `Expansion`. The lemmas
  cover direct mode, first-match-wins, the no-match default, every malformed
  input, "only the marker changes" and idempotence.

`wrappers.dfy` holds the `Option` and `Result` types.

Behaviour of `src/lib.rs` worth knowing:

- An unknown OS is supported when the pointer width is 32 or 64, because
  the entries `64` and `32` are compiled in (`Target.SupportedIff`). No
  identifier is spelled like them, so on such a platform the table never
  matches (`Macro.UnknownOsNeverMatches`).
- The kinds are tried in the order fn, bare fn type, foreign block, static,
  type alias (src/lib.rs:188-195).
- The literal's first and last bytes are dropped, whatever they are, so
  `r"C"` gives `"C` (`Macro.UnquoteRawString`). A literal of fewer than two
  characters, or one whose first or last character is not ASCII, makes the
  slice fail (`Macro.Unquote`).
- Table entries must be separated by `,`. A trailing `,` is accepted.
- An unknown shortcut is not an error. It simply does not match, and the scan
  goes on.
- The empty literal `""` is accepted and gives an empty ABI name.
- A foreign block written `extern { … }` has a marker without a name. When no
  table entry matches, the expansion fails for it, just as for other kinds.

## Model

| member | source | states |
|---|---|---|
| `Target.MatchFrom` | src/lib.rs:12-20 | Trying the entries from index `i` on returns true exactly when some later entry is spelled `s` and its condition holds on the platform. |
| `Target.MatchTarget` | src/lib.rs:4-39 | `match_target(s)` is true exactly when some entry of the eleven is spelled `s` and its condition holds on the platform; requires a supported platform. |
| `Target.SupportedIff` | src/lib.rs:7-10 | The macro crate builds for a platform exactly when its OS is Linux, Windows or macOS, or its pointer width is 32 or 64. |
| `Target.ShortcutMeaning` | src/lib.rs:24-38 | The meaning of each of the eleven shortcuts: the six OS-and-width names, the three OS names and the two width names, each as an if-and-only-if. |
| `Target.UnknownNameNeverMatches` | src/lib.rs:12-20 | A name outside the eleven never denotes the platform. |
| `Target.IdentifiersMissWidthShortcuts` | src/lib.rs:36-37 | For a name that can be an identifier (not starting with a digit), `match_target` is true exactly when one of the first nine entries matches. |
| `Target.IdentifierNeedsKnownOs` | src/lib.rs:24-38 | An identifier can denote only a platform whose OS is Linux, Windows or macOS. |
| `Items.Classify` | src/lib.rs:188-195 | The first kind that parses wins, in the order ItemFn, TypeBareFn, ItemForeignMod, ItemStatic, ItemType; no declaration when none parses. |
| `Items.AliasOnlyAsLastResort` | src/lib.rs:188-195 | When each attempt yields its own kind, a declaration is taken as a type alias only when none of the other four kinds parses it. |
| `Items.MarkerOf` | src/lib.rs:199-239 | `abi()` of each kind as a value. It fails exactly for a static or type alias whose type is not a bare fn type, with the kind's own error. A foreign block always yields its own marker, and a fn its signature's optional marker. |
| `Items.WithAbiName` | src/lib.rs:198-247 | After `set_abi`, the marker is present and names exactly the given name, and the declaration with its marker blanked out is unchanged. |
| `Items.WithAbiNameIdempotent` | src/lib.rs:172-174 | Setting the same name twice gives the same declaration as setting it once. |
| `Items.ForeignModHasMarker` | src/lib.rs:211-215 | A foreign block always has a marker, and it is the block's own. |
| `Items.Deref` | src/lib.rs:122-131 | A borrowed handle designates exactly the owning declaration's current marker. A detached handle designates its copy. |
| `Items.AssignName` | src/lib.rs:132-139 | A write through a borrowed handle rewrites the owning declaration's marker. A write through a detached copy changes only the copy, and no declaration is modified. |
| `Items.Item.GetAbi` | src/lib.rs:199-239 | Returns the declaration's marker or the kind's failure. The handle borrows the item for every kind but a type alias, which gets a detached copy of its re-parsed aliased type's marker. |
| `Items.Item.SetAbi` | src/lib.rs:172-245 | The item's declaration becomes `WithAbiName` of the old one. This holds for the default write-through path, the static's reach into its bare fn type, and the type alias's re-parse and write-back. |
| `Macro.Unquote` | src/lib.rs:78-79 | The ABI name is the literal text without its first and last characters. It fails exactly when the text is shorter than two characters or the byte slice would cut a non-ASCII first or last character. Each failure has its own error. |
| `Macro.UnquoteQuoted` | src/lib.rs:92-93 | A string literal `"s"` gives exactly `s`. |
| `Macro.UnquoteRawString` | src/lib.rs:78-79 | The raw literal `r"C"` gives the name `"C` (with its opening quote), since only the outer two characters are dropped. |
| `Macro.ScanTable` | src/lib.rs:86-108 | The table scan matches only through an identifier token that denotes the platform. When it runs off the end without a match, no identifier token in the arguments denotes the platform. |
| `Macro.Expansion` | src/lib.rs:47-116 | An unclassifiable input fails with `UnsupportedItem`. A successful expansion keeps the classified declaration's skeleton and leaves a marker that names an ABI. |
| `Macro.Rewrite` | src/lib.rs:71-115 | A successful expansion leaves a marker that names an ABI, and everything but the marker is unchanged. |
| `Macro.AbiMacro` | src/lib.rs:47-116 | The token-by-token interpreter returns exactly the specified expansion, on success and on every failure. |
| `Macro.UnsupportedItemFails` | src/lib.rs:70 | A declaration no kind accepts is refused. |
| `Macro.MarkerRequired` | src/lib.rs:71 | Before any argument is read, a missing `extern` fails, as do a static or alias whose type is not a bare fn type. |
| `Macro.NoArgumentsFail` | src/lib.rs:74-75 | An empty argument list fails. |
| `Macro.DirectMode` | src/lib.rs:76-84 | A single literal sets the marker to its unquoted text. Any token after it is an error. A literal shorter than two characters, or one the byte slice cannot cut, fails with its own error before the rest is looked at. |
| `Macro.SkipEntry` | src/lib.rs:98-103 | A non-matching entry followed by `,` is read and skipped, and the scan continues after it. |
| `Macro.SkipListed` | src/lib.rs:86-107 | Any run of non-matching, comma-terminated entries is skipped as a whole. |
| `Macro.FirstMatchWins` | src/lib.rs:86-97 | After non-matching entries, the first matching entry names the ABI. The result is the same whatever tokens follow it, even malformed ones. |
| `Macro.NoMatchKeepsDefault` | src/lib.rs:101-115 | A well-formed table, with or without a trailing `,`, where no entry matches: the declaration is unchanged if its marker already names an ABI, and the expansion fails otherwise. |
| `Macro.MalformedTable` | src/lib.rs:86-102 | Each malformed entry has its own error: a non-identifier shortcut, a missing `=`, a wrong token or wrong punct in place of `=`, a missing literal, a non-literal value, a matching literal that cannot be unquoted, and a bad separator after a non-matching entry. |
| `Macro.UnknownOsNeverMatches` | src/lib.rs:36-37 | On a platform with an unknown OS, when every identifier token is spelled as an identifier, the table scan never matches, so the entries `64` and `32` are unreachable from the macro. |
| `Macro.RewriteIdempotent` | src/lib.rs:76-115 | Expanding the output again with the same arguments gives the same output. |
| `Macro.ExampleTableOnLinux64` | src/lib.rs:86-97 | `linux64 = "C", win64 = "stdcall"` gives `C` on 64-bit Linux. |
| `Macro.ExampleTableOnWindows64` | src/lib.rs:86-97 | The same table gives `stdcall` on 64-bit Windows. |
| `Macro.ExampleTableOnMacOs64` | src/lib.rs:101-115 | The same table on 64-bit macOS keeps an existing named marker, and fails otherwise. |
| `Macro.ExampleFirstNotMostSpecific` | src/lib.rs:86-97 | `linux = "C", linux64 = "fastcall"` gives `C` on 64-bit Linux: the earlier entry wins, not the more specific one. |

## Left out

- Each parse attempt is assumed to yield its own kind (`Items.KindsAgree`), as syn's parsers do. Parsing and printing are not modelled: `syn::parse`, `quote!`, the `TokenStream` conversions and spans. The parser's answer for each kind is the input `ParseAttempts`, and `into_tokens` is the identity on the declaration.
- The re-parse of a type alias's aliased type is modelled as identity on bare fn types and as failure on every other type. An invisible-delimited group type (a `$t:ty` macro fragment) that wraps a bare fn type is not modelled.
- `Macro.RewriteIdempotent` speaks of a declaration that is already classified. Whether the parser classifies the printed output as the same kind is a property of the parser, which is not part of this model.
- Real `cfg` evaluation and `compile_error!` are replaced by the `Platform` parameter and the precondition `Supported`. The `unimplemented!()` after `compile_error!` can never run.
- Panic messages are not modelled. Each failure is a distinct `Error` constructor.
- `Macro.Unquote` works on characters, not on the UTF-8 bytes the source slices. It fails exactly where the byte slice would panic, and otherwise keeps the same characters.
- Escape sequences inside the literal are kept as written. How `LitStr::new` re-escapes them when printing is not modelled.
- The `extern` token and spans of a marker are not modelled. `Abi` holds only the optional name.
- `Box<dyn SynFn>` dynamic dispatch is a `match` on `Decl`, and the lifetimes of `MaybeMutableAbi` are not modelled.
- `Into<Abi>` for `MaybeMutableAbi` (src/lib.rs:150-157) is never called and is left out.
- The trait's default `abi` body is `unreachable!()` (src/lib.rs:168-170). Every kind overrides it, so it is not modelled.
- The README doc includes (src/lib.rs:1, 46) are documentation only.
- `tests/src/lib.rs` is compile-only scaffolding and is not modelled. It applies the attribute to `const` items, which no kind accepts here. It also applies it to items without `extern`, which fail with `MissingExtern` here.
