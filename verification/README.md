# Userscript header plugin: a verified model

This project models the build plugin `rspack-userscript-plugin.cjs`. The plugin
writes the metadata block a userscript manager reads at the top of a userscript:

```
// ==UserScript==
// @name        my-script
// @grant       none
// ==/UserScript==
```

The plugin does two things with that block:

- It prepends the block, as the banner, to the bundled script `dist/<name>.user.js`.
- It writes a second, header-only script `./dist/<name>.proxy.user.js`. That
  script carries the same header, except that its `require` points at the
  bundle through a `file://` URL. A userscript manager then loads the local
  build.

The model is written in Dafny and is split into five modules.

- `Text` (text.dfy) models the two JavaScript string built-ins the plugin calls,
  `padEnd` with a space and `Array.prototype.join('\n')`. It also defines
  `Split`, a split of text at newlines. The plugin never splits anything;
  `Split` exists to state line counts and to serve as the inverse of `Join`,
  and the module proves the split/join laws.
- `Header` (header.dfy) models `generateUserscriptHeader`, in two forms:
  - `Serialize`, a functional definition: the marker lines, one field line per
    scalar or per list element, and a final empty line, joined with newlines;
  - `GenerateUserscriptHeader`, a method that follows the source's push loop
    and is proved equal to `Serialize`.
  The module also proves the layout of the block: its framing, its line count
  and where each value lands.
- `HeaderParse` (header_parse.dfy) is a strict fixed-column reader that
  inverts the serializer's own layout. It expects the key padded to 11
  characters plus one space, and takes the value from that column on. It is
  not how a userscript manager reads the block: a manager skips every space
  after the key. The reader is the serializer's partner: reading a serialized
  block gives back every key/value pair in order, and any accepted text is the
  serialization of what was read.
- `Plugin` (plugin.dfy) models `apply`:
  - the banner text;
  - the proxy field set `{...options.header, require: "file://" + path}`, with
    JavaScript spread-then-assign semantics (`WithField`);
  - the proxy path and the proxy text.
- `Config` (config.dfy) models the header that `rspack.config.cjs` passes to the
  plugin. It proves the resulting banner and proxy text line by line.

A header (`FieldSet`) is an ordered sequence of `Field(key, value)`. A value is
`Scalar(text)` or `List(items)`, the tagged form of the source's
`string | string[]`. The absolute path produced by `path.resolve` is supplied by
the caller as the function parameter `resolve`.

## Two behaviours worth knowing

- **The proxy does not keep the caller's `require` entries.** The
  spread-then-assign at rspack-userscript-plugin.cjs:55-58 replaces them,
  whether a string or a list, with the one `file://` URL string. The key stays
  at its position if it was present, and is added last otherwise.
  `Plugin.ProxyFields`, `Plugin.ProxyReplacesRequireLines` and
  `Plugin.ProxyAddsRequireLine` state this behaviour.
- **The plugin does not fill in `name`, `version`, `author` or `description`.**
  It uses `options.header` as given (rspack-userscript-plugin.cjs:46). The build
  configuration copies those values from the package metadata
  (rspack.config.cjs:38-49), and `Config` models that.

## Model

These definitions model the source directly:

- `Header.FieldLine`, the padded line template (rspack-userscript-plugin.cjs:22, 25);
- `Header.Serialize`, the whole block (rspack-userscript-plugin.cjs:16-34);
- `Plugin.Apply`, the banner, proxy path and proxy text (rspack-userscript-plugin.cjs:44-60);
- `Plugin.ArtifactPath`, the bundle path `dist/<name>.user.js` (rspack-userscript-plugin.cjs:57);
- `Config.ConfigHeader`, the configured header (rspack.config.cjs:38-49).

They carry no contract of their own. The rows below name the members whose
contracts state properties of them.

| member | source | states |
|---|---|---|
| Text.PadEnd | rspack-userscript-plugin.cjs:22 | `padEnd(11, ' ')` gives a string of length max(\|s\|, 11) that starts with `s` and continues with spaces only; a key of 11 characters or more comes back unchanged, never truncated |
| Text.SplitJoin | rspack-userscript-plugin.cjs:33 | splitting the joined text at newlines gives back the pushed lines, as long as no line holds a newline of its own |
| Text.JoinSplit | rspack-userscript-plugin.cjs:33 | joining the pieces of a split with newlines gives back the original text, for every string |
| Header.FieldLineLayout | rspack-userscript-plugin.cjs:22-25 | a field line is `// @`, then the key unchanged, then spaces up to column 4 + max(11, \|key\|) + 1 (at least one space), then the value copied verbatim |
| Header.FieldLineSingleLine | rspack-userscript-plugin.cjs:22-25 | a key and value without newlines give a field line without newlines |
| Header.Entries | rspack-userscript-plugin.cjs:20-28 | the field lines number one per scalar key plus the length of every list |
| Header.GenerateUserscriptHeader | rspack-userscript-plugin.cjs:16-34 | the source's loop (a push per scalar, an inner loop pushing once per list element, then the two closing pushes and the join) produces exactly the text `Serialize` defines |
| Header.EntriesAppend | rspack-userscript-plugin.cjs:20 | the key/value pairs of two concatenated headers are those of the first, then those of the second: fields are visited in key order |
| Header.BodyLinesAppend | rspack-userscript-plugin.cjs:20-28 | the field lines of two concatenated headers are those of the first, then those of the second |
| Header.BodyLinesAround | rspack-userscript-plugin.cjs:20-28 | the field lines of a header are those of the fields before field `i`, then the lines of field `i`, then those after it |
| Header.FieldLinesInPlace | rspack-userscript-plugin.cjs:20-28 | the `j`-th element of the `i`-th field's value is on line 1 + (lines of the fields before it) + `j`, and that line carries the `i`-th key: list elements keep their order and all repeat their key |
| Header.EntriesOfSingletons | rspack-userscript-plugin.cjs:20-28 | when every value renders one string (a scalar or a one-element list), there is exactly one field line per key, in key order |
| Header.EmptyListInvisible | rspack-userscript-plugin.cjs:24-26 | a key whose list is empty leaves no trace in the text: the block equals the block without that key |
| Header.SerializeTerminated | rspack-userscript-plugin.cjs:30-33 | the text is the opening marker, a newline, every field line followed by a newline, the closing marker and one final newline |
| Header.SplitSerialize | rspack-userscript-plugin.cjs:18-33 | splitting the text at newlines gives the opening marker, the pieces of every field line, the closing marker and one empty string, for any keys and values |
| Header.SerializeFraming | rspack-userscript-plugin.cjs:18-33 | the text starts with `// ==UserScript==` and a newline and ends with `// ==/UserScript==` and exactly one newline; split at newlines, its first piece is the opening marker, its second-to-last the closing marker and its last the empty string |
| Header.SerializeLines | rspack-userscript-plugin.cjs:16-34 | when no key or value holds a newline, the text splits into exactly the pushed lines, 3 + (scalar keys) + (sum of list lengths) of them |
| Header.SerializeAddLine | rspack-userscript-plugin.cjs:30-33 | a header with one more field line at the end serializes to the same text with that line inserted right before the closing marker |
| HeaderParse.ParseFieldLineOfFieldLine | rspack-userscript-plugin.cjs:22-25 | a field line whose key is non-empty and has no space reads back as exactly its key and its value |
| HeaderParse.FieldLineOfParseFieldLine | rspack-userscript-plugin.cjs:22-25 | any line the reader accepts is the field line of what it read, and the key read is non-empty and space-free |
| HeaderParse.ParseFieldLineIff | rspack-userscript-plugin.cjs:22-25 | a line reads as (key, value) if and only if the key is non-empty and space-free and the line is that pair's field line: the layout is unambiguous |
| HeaderParse.ParseSerialize | rspack-userscript-plugin.cjs:16-34 | reading the serialized block gives back every key/value pair, in key order and, within a list, in element order, when keys are non-empty and space-free and nothing holds a newline |
| HeaderParse.SerializeParse | rspack-userscript-plugin.cjs:16-34 | any text the reader accepts is exactly the serializer's output for the pairs it read |
| Plugin.WithField | rspack-userscript-plugin.cjs:56-57 | `{...fs, [key]: value}`: `key` maps to `value`; every other key keeps its value, its position and the key order; the key is added last only when absent; distinct keys stay distinct |
| Plugin.ProxyFields | rspack-userscript-plugin.cjs:55-58 | in the proxy header `require` maps to the single string `file://` + the resolved path, and with distinct keys every `require` field holds that string, whatever the caller had under `require` |
| Plugin.ProxyFieldsShape | rspack-userscript-plugin.cjs:56-57 | the proxy header is the caller's header with the `require` field replaced in place, or with the `require` field appended when the header has none |
| Plugin.ProxyFieldsKeys | rspack-userscript-plugin.cjs:55-58 | `require` holds the `file://` URL; every other key has the value it had in the caller's header; the keys are the header's, plus `require` at the end when it was missing |
| Plugin.ProxyEntriesReplaced | rspack-userscript-plugin.cjs:55-58 | with a `require` in the header, its key/value pairs (one per list element, none for an empty list) are replaced by the one URL pair, at the same place |
| Plugin.ProxyEntriesAppended | rspack-userscript-plugin.cjs:55-58 | without a `require` in the header, the one URL pair follows all of the header's pairs |
| Plugin.ProxyBodyLinesReplaced | rspack-userscript-plugin.cjs:55-58 | with a `require` in the header, the proxy's field lines are the header's with the `require` lines replaced by the one URL line, at the same place |
| Plugin.ProxyBodyLinesAppended | rspack-userscript-plugin.cjs:55-58 | without a `require` in the header, the proxy's field lines are the header's followed by the URL line |
| Plugin.RequireLine | rspack-userscript-plugin.cjs:57 | the proxy's `require` line is `// @require     ` followed by the URL (the 7-character key padded to 11, then one space) |
| Plugin.ProxyAddsRequireLine | rspack-userscript-plugin.cjs:46-58 | when the header has no `require`, the proxy text is the banner text with exactly one extra line, `// @require     file://<resolved path>`, inserted right before the closing marker |
| Plugin.ProxyReplacesRequireLines | rspack-userscript-plugin.cjs:55-58 | when the header has a `require`, the proxy's field lines are the banner's with all lines of that key replaced by the one URL line in its place; the caller's `require` values do not appear |
| Plugin.ProxyPath | rspack-userscript-plugin.cjs:54 | the proxy path is `./dist/`, then the script name, then `.proxy.user.js`, so it is 21 characters longer than the name |
| Plugin.ProxyPathOfName | rspack-userscript-plugin.cjs:54-57 | two script names share a proxy path only if they are equal, and the proxy path is the bundle path `dist/<name>.user.js` under `./` with `.user.js` replaced by `.proxy.user.js` |
| Config.ConfigEntries | rspack.config.cjs:38-49 | the configured header yields one key/value pair per key, in the order name, version, author, description, include, grant |
| Config.MetadataFieldLines | rspack.config.cjs:39-41 | the `name`, `version` and `author` lines are padded to the 11-character key column |
| Config.DescriptionFieldLine | rspack.config.cjs:42 | `description` fills the key column exactly, so its value follows after one space with no padding |
| Config.IncludeFieldLine | rspack.config.cjs:43-45 | the one-element `include` list gives the single line `// @include     https://example.com/*` |
| Config.GrantFieldLine | rspack.config.cjs:46-48 | the one-element `grant` list gives the single line `// @grant       none` |
| Config.ConfigBodyLines | rspack.config.cjs:38-49 | the configured header's field lines, spelled out character by character |
| Config.ConfigBanner | rspack.config.cjs:36-50 | the bundle's banner is the opening marker, the six configured field lines, the closing marker and a final newline |
| Config.ConfigHasNoRequire | rspack.config.cjs:38-49 | the configured header has no `require` key |
| Config.ConfigProxyBodyLines | rspack.config.cjs:36-50 | the proxy's field lines are the six configured ones followed by `// @require     file://<resolved dist/<name>.user.js>` |
| Config.ConfigProxy | rspack.config.cjs:36-50 | the proxy goes to `./dist/<name>.proxy.user.js` and is the banner with the `require` line inserted right before the closing marker |

## Left out

- Registering the banner with `rspack.BannerPlugin` and its `raw: true` flag (rspack-userscript-plugin.cjs:45-48) call into the bundler, which is not part of this model. Only the banner text handed to it is modelled.
- The `afterCompile` hook, `async`/`await` and `fs.writeFile` (rspack-userscript-plugin.cjs:50-60) are host lifecycle, asynchrony and file I/O. The model computes the path and the contents the write receives. It does not model the write, its overwrite semantics, or the propagation of a failed write to the build.
- `path.resolve` (rspack-userscript-plugin.cjs:57) depends on the process's working directory, so it is the function parameter `resolve`. Nothing is assumed about its result.
- `Object.entries` (rspack-userscript-plugin.cjs:20) lists integer-like keys first, in ascending order, and then the other keys in insertion order. The model uses the order of the field sequence. That order is the same for every header with no integer-like key, which includes the configured one.
- JavaScript objects cannot hold a key twice; a `FieldSet` can. The serializer renders every field. `Lookup` and `WithField` act on the first occurrence of a key, and `WithField` keeps distinct keys distinct.
- The duck typing of `typeof values === 'string'` (rspack-userscript-plugin.cjs:21) is replaced by the tagged `Scalar | List` value. The model does not cover values that are neither a string nor an array, or that are non-array iterables.
- `padEnd` counts UTF-16 code units. The model counts Dafny characters, so a key with characters outside the Basic Multilingual Plane is padded as if each such character were one unit.
- Reading `package.json` (rspack.config.cjs:3) and taking `author.name` are I/O and object access. The metadata values are parameters of `Config.ConfigHeader`. The rest of rspack.config.cjs (entry, loaders, output options) configures the bundler and is not modelled.
- Header.SerializeLines: the exact line count is stated only for keys and values without a newline. A value holding a newline splits into more lines; `Header.SplitSerialize` states that general case.
- HeaderParse.ParseSerialize: the round trip is stated only for non-empty, space-free keys and newline-free text. The reader takes the key to end at the first space, so a key holding a space does not read back as itself.
- HeaderParse.ParseSerialize: the round trip is through the fixed-column reader, not through a userscript manager. A manager skips all spaces after the key, so it would read the value `Scalar(" x")` back as `"x"`, and it accepts lines such as `// @name x` that this reader rejects. The model does not show that a manager recovers values with leading spaces.
